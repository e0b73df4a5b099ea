/** What a successful draft run leaves behind, checked against the independent validator. */
module DraftTheorems {
  import opened Wrappers
  import opened Sorting
  import opened Dictionaries
  import opened Models
  import opened TblsSchema
  import opened Drafts
  import opened ReviewValidation

  /** A run that reached its end. */
  ghost predicate Succeeded(files: Files, existing: map<string, Entry>, source: Source, tools: DraftTools) {
    && RoundTrips(tools) && ParserValid(source.schema)
    && Loads(files, tools) && IsIndex(files, existing, tools)
    && WritesValid(Names(source), existing, source, tools)
  }

  function After(files: Files, existing: map<string, Entry>, source: Source, tools: DraftTools): Files {
    FilesAfter(files, Names(source), |Names(source)|, existing, source, tools)
  }

  /** The file of every new draft is free and lies in the directory itself. */
  predicate DraftsFree(files: Files, existing: map<string, Entry>, source: Source) {
    forall t :: t in RawTables(source) && t !in existing ==> '/' !in t && DraftPath(t) !in files
  }

  /** Where a raw table's review is after the run. */
  function Target(t: string, existing: map<string, Entry>): string {
    if t in existing then existing[t].path else DraftPath(t)
  }

  /** The review of a raw table after the run. */
  function ReviewAfter(t: string, existing: map<string, Entry>, source: Source, tools: DraftTools): ReviewDocument
    requires t in RawTables(source)
  {
    var w := WriteFor(RawTables(source)[t], existing, source, tools);
    if w.Some? || t !in existing then w.GetOr(Entry("", NewReview(RawTables(source)[t], source, tools))).review
    else existing[t].review
  }

  // ---- basic facts ----

  lemma RawNamed(source: Source, t: string)
    requires t in RawTables(source)
    ensures RawTables(source)[t].name == t && RawTables(source)[t] in source.schema.tables
  {
    DictMembers(source.schema.tables, TableName, t);
    assert TableName(RawTables(source)[t]) == t;
  }

  lemma DraftPathPlain(t: string)
    ensures IsReviewName(DraftPath(t)) <==> '/' !in t
  {
    assert DraftPath(t)[|DraftPath(t)| - 4..] == ".yml";
    if '/' in t {
      var i :| 0 <= i < |t| && t[i] == '/';
      assert DraftPath(t)[i] == '/';
    }
  }

  lemma DraftPathInjective(t: string, u: string)
    requires DraftPath(t) == DraftPath(u)
    ensures t == u
  {
    assert t == DraftPath(t)[..|DraftPath(t)| - 4];
    assert u == DraftPath(u)[..|DraftPath(u)| - 4];
  }

  lemma WriteShape(t: string, existing: map<string, Entry>, source: Source, tools: DraftTools)
    requires t in RawTables(source)
    requires t in existing ==> existing[t].review.table == t
    ensures t !in existing ==> WriteFor(RawTables(source)[t], existing, source, tools).Some?
    ensures ReviewAfter(t, existing, source, tools).table == t
    ensures var w := WriteFor(RawTables(source)[t], existing, source, tools);
            w.Some? ==> w.value == Entry(Target(t, existing), ReviewAfter(t, existing, source, tools))
  {
    RawNamed(source, t);
  }

  /** Whatever a run writes needs review: no run leaves an approval it has not seen. */
  lemma WrittenNeedsReview(t: string, existing: map<string, Entry>, source: Source, tools: DraftTools)
    requires t in RawTables(source)
    ensures var w, r := WriteFor(RawTables(source)[t], existing, source, tools), ReviewAfter(t, existing, source, tools);
            && (w.Some? ==> r.documentStatus.NeedsReview?)
            && (r.documentStatus.Approved? ==> t in existing && r == existing[t].review)
            && (t !in existing ==> r.columns.Keys == ColumnNames(RawTables(source)[t]) && r.relationships == [] && r.businessRules == [])
  {
    RawNamed(source, t);
    RawColumnsAreNames(RawTables(source)[t]);
  }

  // ---- which file each table ends up in ----

  lemma TargetsDiffer(files: Files, existing: map<string, Entry>, source: Source, tools: DraftTools, t: string, u: string)
    requires Succeeded(files, existing, source, tools) && DraftsFree(files, existing, source)
    requires t in RawTables(source) && u in RawTables(source) && t != u
    ensures Target(t, existing) != Target(u, existing)
  {
    if t !in existing && u !in existing && DraftPath(t) == DraftPath(u) {
      DraftPathInjective(t, u);
    }
  }

  /** The file of a table not processed yet is as it was, that of a processed one holds its review. */
  lemma {:induction false} FileAt(files: Files, n: nat, existing: map<string, Entry>, source: Source, tools: DraftTools, path: string)
    requires Succeeded(files, existing, source, tools) && DraftsFree(files, existing, source)
    requires n <= |Names(source)|
    ensures var now := FilesAfter(files, Names(source), n, existing, source, tools);
            && ((forall i :: 0 <= i < n ==> Target(Names(source)[i], existing) != path) ==>
                  (path in now <==> path in files) && (path in files ==> now[path] == files[path]))
    ensures var now := FilesAfter(files, Names(source), n, existing, source, tools);
            forall i :: 0 <= i < n && Target(Names(source)[i], existing) == path ==>
              Holds(now, files, Names(source)[i], existing, source, tools)
    decreases n
  {
    hide SortedSet, Succeeded, DraftsFree, Target, Holds, Written, RawTables;
    if n == 0 {
      FilesAfterNone(files, Names(source), existing, source, tools);
    } else {
      var names := Names(source);
      var t := names[n - 1];
      assert t in names;
      NameKnown(files, existing, source, tools, t);
      FileAt(files, n - 1, existing, source, tools, path);
      hide FilesAfter;
      FilesAfterOne(files, names, n, existing, source, tools);
      var before := FilesAfter(files, names, n - 1, existing, source, tools);
      forall i | 0 <= i < n - 1 ensures Target(names[i], existing) != Target(t, existing) {
        NamesDistinct(source);
        assert names[i] in names && names[i] != t;
        TargetsDiffer(files, existing, source, tools, names[i], t);
      }
      if Target(t, existing) == path {
        WrittenHolds(before, files, t, existing, source, tools);
      } else {
        WrittenElsewhere(before, t, existing, source, tools, path);
        forall i | 0 <= i < n - 1 && Target(names[i], existing) == path
          ensures Holds(Written(before, RawTables(source)[t], existing, source, tools), files, names[i], existing, source, tools)
        {
          HoldsStill(before, Written(before, RawTables(source)[t], existing, source, tools), files, names[i], existing, source, tools);
        }
      }
    }
  }

  lemma WrittenHolds(before: Files, files: Files, t: string, existing: map<string, Entry>, source: Source, tools: DraftTools)
    requires t in RawTables(source) && (t in existing ==> existing[t].review.table == t)
    requires var path := Target(t, existing);
             (path in before <==> path in files) && (path in files ==> before[path] == files[path])
    ensures Holds(Written(before, RawTables(source)[t], existing, source, tools), files, t, existing, source, tools)
  {
    WriteShape(t, existing, source, tools);
    hide WriteFor, ReviewAfter, RawTables;
  }

  lemma WrittenElsewhere(before: Files, t: string, existing: map<string, Entry>, source: Source, tools: DraftTools, path: string)
    requires t in RawTables(source) && (t in existing ==> existing[t].review.table == t) && Target(t, existing) != path
    ensures var now := Written(before, RawTables(source)[t], existing, source, tools);
            (path in now <==> path in before) && (path in before ==> now[path] == before[path])
  {
    WriteShape(t, existing, source, tools);
    hide WriteFor, ReviewAfter, RawTables;
  }

  lemma HoldsStill(before: Files, now: Files, files: Files, t: string, existing: map<string, Entry>, source: Source, tools: DraftTools)
    requires t in RawTables(source) && Holds(before, files, t, existing, source, tools)
    requires var path := Target(t, existing); (path in now <==> path in before) && (path in before ==> now[path] == before[path])
    ensures Holds(now, files, t, existing, source, tools)
  {
    hide WriteFor, ReviewAfter, RawTables;
  }

  ghost predicate Holds(now: Files, files: Files, t: string, existing: map<string, Entry>, source: Source, tools: DraftTools)
    requires t in RawTables(source)
  {
    var path, w := Target(t, existing), WriteFor(RawTables(source)[t], existing, source, tools);
    if w.Some? then path in now && now[path] == tools.dump(ReviewAfter(t, existing, source, tools))
    else (path in now <==> path in files) && (path in files ==> now[path] == files[path])
  }

  lemma NameKnown(files: Files, existing: map<string, Entry>, source: Source, tools: DraftTools, t: string)
    requires Succeeded(files, existing, source, tools) && t in Names(source)
    ensures t in RawTables(source) && (t in existing ==> existing[t].review.table == t)
  {
  }

  lemma NamesDistinct(source: Source)
    ensures forall i, j :: 0 <= i < j < |Names(source)| ==> Names(source)[i] != Names(source)[j]
  {
    SortedSetSorted(RawTables(source).Keys);
    StrictlySortedDistinct(Names(source));
  }

  /** After the run, every raw table has its review in its file. */
  lemma TableCovered(files: Files, existing: map<string, Entry>, source: Source, tools: DraftTools, t: string)
    requires Succeeded(files, existing, source, tools) && DraftsFree(files, existing, source)
    requires t in RawTables(source)
    ensures ReviewAt(After(files, existing, source, tools), Target(t, existing), tools) == Some(ReviewAfter(t, existing, source, tools))
    ensures ReviewAfter(t, existing, source, tools).table == t
  {
    hide WriteFor, SortedSet, ValidReview;
    var names := Names(source);
    assert t in names;
    var i :| 0 <= i < |names| && names[i] == t;
    FileAt(files, |names|, existing, source, tools, Target(t, existing));
    WriteShape(t, existing, source, tools);
    DraftPathPlain(t);
    assert IsReviewName(Target(t, existing));
    assert Holds(After(files, existing, source, tools), files, t, existing, source, tools);
  }

  /** Every other file is as it was. */
  lemma FileUntouched(files: Files, existing: map<string, Entry>, source: Source, tools: DraftTools, path: string)
    requires Succeeded(files, existing, source, tools) && DraftsFree(files, existing, source)
    requires forall t :: t in RawTables(source) ==> Target(t, existing) != path
    ensures var after := After(files, existing, source, tools);
            (path in after <==> path in files) && (path in files ==> after[path] == files[path])
  {
    hide SortedSet, WriteFor, Succeeded, DraftsFree;
    FileAt(files, |Names(source)|, existing, source, tools, path);
    forall i | 0 <= i < |Names(source)| ensures Target(Names(source)[i], existing) != path {
      assert Names(source)[i] in Names(source);
    }
  }

  // ---- the directory after the run ----

  function IndexAfter(existing: map<string, Entry>, source: Source, tools: DraftTools): map<string, Entry> {
    map t | t in existing.Keys + RawTables(source).Keys ::
      if t in RawTables(source) then Entry(Target(t, existing), ReviewAfter(t, existing, source, tools)) else existing[t]
  }

  lemma IndexEntry(files: Files, existing: map<string, Entry>, source: Source, tools: DraftTools, t: string)
    requires Succeeded(files, existing, source, tools) && DraftsFree(files, existing, source)
    requires t in IndexAfter(existing, source, tools)
    ensures var e := IndexAfter(existing, source, tools)[t];
            e.review.table == t && ReviewAt(After(files, existing, source, tools), e.path, tools) == Some(e.review)
  {
    hide WriteFor, ReviewAfter, After;
    if t in RawTables(source) {
      TableCovered(files, existing, source, tools, t);
    } else {
      var path := existing[t].path;
      forall u | u in RawTables(source) ensures Target(u, existing) != path {
        OrphanElsewhere(files, existing, source, tools, t, u);
      }
      FileUntouched(files, existing, source, tools, path);
    }
  }

  lemma OrphanElsewhere(files: Files, existing: map<string, Entry>, source: Source, tools: DraftTools, t: string, u: string)
    requires Succeeded(files, existing, source, tools) && DraftsFree(files, existing, source)
    requires t in existing && t != u && u in RawTables(source)
    ensures Target(u, existing) != existing[t].path
  {
  }

  lemma IndexComplete(files: Files, existing: map<string, Entry>, source: Source, tools: DraftTools, path: string)
    requires Succeeded(files, existing, source, tools) && DraftsFree(files, existing, source)
    requires ReviewAt(After(files, existing, source, tools), path, tools).Some?
    ensures var t := ReviewAt(After(files, existing, source, tools), path, tools).value.table;
            t in IndexAfter(existing, source, tools) && IndexAfter(existing, source, tools)[t].path == path
  {
    hide WriteFor, ReviewAfter, After;
    if u :| u in RawTables(source) && Target(u, existing) == path {
      TableCovered(files, existing, source, tools, u);
    } else {
      FileUntouched(files, existing, source, tools, path);
      var t := ReviewAt(files, path, tools).value.table;
      assert t in existing && existing[t].path == path;
      assert t !in RawTables(source);
    }
  }

  lemma ReadableAfter(files: Files, existing: map<string, Entry>, source: Source, tools: DraftTools, path: string)
    requires Succeeded(files, existing, source, tools) && DraftsFree(files, existing, source)
    requires path in After(files, existing, source, tools) && IsReviewName(path)
    ensures ReviewAt(After(files, existing, source, tools), path, tools).Some?
  {
    hide WriteFor, ReviewAfter, After;
    if u :| u in RawTables(source) && Target(u, existing) == path {
      TableCovered(files, existing, source, tools, u);
    } else {
      FileUntouched(files, existing, source, tools, path);
      assert ReviewAt(files, path, tools).Some?;
    }
  }

  /** The directory reads back as the old reviews with every raw table's review created or refreshed. */
  lemma ReadsBack(files: Files, existing: map<string, Entry>, source: Source, tools: DraftTools)
    requires Succeeded(files, existing, source, tools) && DraftsFree(files, existing, source)
    ensures Loads(After(files, existing, source, tools), tools)
    ensures IsIndex(After(files, existing, source, tools), IndexAfter(existing, source, tools), tools)
  {
    hide WriteFor, ReviewAfter, After, ReviewAt, Succeeded, DraftsFree, Target, IndexAfter, Loads, IsReviewName;
    var after, index := After(files, existing, source, tools), IndexAfter(existing, source, tools);
    forall t | t in index { IndexEntry(files, existing, source, tools, t); }
    forall p | ReviewAt(after, p, tools).Some? { IndexComplete(files, existing, source, tools, p); }
    forall p | p in after && IsReviewName(p) { ReadableAfter(files, existing, source, tools, p); }
    IndexLoads(after, index, tools);
  }

  // ---- human content ----

  /** Everything a reviewer wrote: only versions, status and hash may differ, and columns may be added. */
  predicate KeepsHuman(before: ReviewDocument, after: ReviewDocument) {
    && after == before.(contractVersion := after.contractVersion,
                        reviewGuidelineVersion := after.reviewGuidelineVersion,
                        transformationGuidelineVersion := after.transformationGuidelineVersion,
                        documentStatus := after.documentStatus,
                        schemaHash := after.schemaHash,
                        columns := after.columns)
    && (forall c :: c in before.columns ==> c in after.columns && after.columns[c] == before.columns[c])
    && (after == before || after.documentStatus.NeedsReview?)
  }

  /** Every review is still in its file, with its human content. */
  ghost predicate Kept(files: Files, after: Files, tools: DraftTools) {
    forall p :: ReviewAt(files, p, tools).Some? ==>
      ReviewAt(after, p, tools).Some? && KeepsHuman(ReviewAt(files, p, tools).value, ReviewAt(after, p, tools).value)
  }

  ghost predicate Covered(source: Source, after: Files, tools: DraftTools) {
    forall t :: t in RawTables(source) ==> Covers(after, t, tools)
  }

  ghost predicate Covers(after: Files, t: string, tools: DraftTools) {
    exists p :: ReviewAt(after, p, tools).Some? && ReviewAt(after, p, tools).value.table == t
  }

  lemma RefreshKeeps(t: string, existing: map<string, Entry>, source: Source, tools: DraftTools)
    requires t in RawTables(source) && t in existing
    ensures KeepsHuman(existing[t].review, ReviewAfter(t, existing, source, tools))
  {
    RawNamed(source, t);
  }

  lemma FileKept(files: Files, existing: map<string, Entry>, source: Source, tools: DraftTools, path: string)
    requires Succeeded(files, existing, source, tools) && DraftsFree(files, existing, source)
    requires ReviewAt(files, path, tools).Some?
    ensures var after := After(files, existing, source, tools);
            ReviewAt(after, path, tools).Some?
            && KeepsHuman(ReviewAt(files, path, tools).value, ReviewAt(after, path, tools).value)
  {
    hide WriteFor, ReviewAfter, After, KeepsHuman;
    var review := ReviewAt(files, path, tools).value;
    var t := review.table;
    assert t in existing && existing[t].path == path && existing[t].review == review;
    if t in RawTables(source) {
      TableCovered(files, existing, source, tools, t);
      RefreshKeeps(t, existing, source, tools);
    } else {
      IndexEntry(files, existing, source, tools, t);
      KeepsItself(review);
    }
  }

  lemma KeepsItself(r: ReviewDocument)
    ensures KeepsHuman(r, r)
  {
  }

  // ---- exactly when a run covers every table and loses nothing ----

  /** The review at `path`, if any, is not one of `t`. */
  ghost predicate NotOf(files: Files, path: string, t: string, tools: DraftTools) {
    var r := ReviewAt(files, path, tools);
    r.Some? ==> r.value.table != t
  }

  lemma NotOfWritten(files: Files, u: string, existing: map<string, Entry>, source: Source, tools: DraftTools,
                     t: string, path: string)
    requires RoundTrips(tools) && t !in existing && NotOf(files, path, t, tools)
    requires path != DraftPath(t) || !IsReviewName(path)
    requires u in RawTables(source) && (u in existing ==> existing[u].review.table == u)
    requires var w := WriteFor(RawTables(source)[u], existing, source, tools); w.Some? ==> ValidReview(w.value.review)
    ensures NotOf(Written(files, RawTables(source)[u], existing, source, tools), path, t, tools)
  {
    WriteShape(u, existing, source, tools);
    hide WriteFor, ReviewAfter, ValidReview;
  }

  /** The review found anywhere but in its own file is never one of a table without a review. */
  lemma {:induction false} NeverElsewhere(files: Files, n: nat, existing: map<string, Entry>, source: Source, tools: DraftTools,
                                          t: string, path: string)
    requires Succeeded(files, existing, source, tools)
    requires n <= |Names(source)| && t !in existing
    requires path != DraftPath(t) || !IsReviewName(path)
    ensures NotOf(FilesAfter(files, Names(source), n, existing, source, tools), path, t, tools)
    decreases n
  {
    hide WriteFor, SortedSet, ValidReview, IsReviewName, Written;
    if n == 0 {
      FilesAfterNone(files, Names(source), existing, source, tools);
    } else {
      var u := Names(source)[n - 1];
      assert u in Names(source);
      NeverElsewhere(files, n - 1, existing, source, tools, t, path);
      hide FilesAfter;
      FilesAfterOne(files, Names(source), n, existing, source, tools);
      NotOfWritten(FilesAfter(files, Names(source), n - 1, existing, source, tools), u, existing, source, tools, t, path);
    }
  }

  /** A draft written over a file loses the review in it, or is itself lost. */
  lemma ClashLoses(files: Files, existing: map<string, Entry>, source: Source, tools: DraftTools, t: string)
    requires Succeeded(files, existing, source, tools)
    requires t in RawTables(source) && t !in existing && ('/' in t || DraftPath(t) in files)
    ensures !Covers(After(files, existing, source, tools), t, tools) || !Kept(files, After(files, existing, source, tools), tools)
  {
    hide FilesAfter, WriteFor, SortedSet, ValidReview;
    var after := After(files, existing, source, tools);
    if Covers(after, t, tools) && Kept(files, after, tools) {
      var p :| ReviewAt(after, p, tools).Some? && ReviewAt(after, p, tools).value.table == t;
      if p != DraftPath(t) || !IsReviewName(p) {
        NeverElsewhere(files, |Names(source)|, existing, source, tools, t, p);
      } else {
        DraftPathPlain(t);
      }
    }
  }

  /**
   * A successful run gives every raw table a review and keeps every review with its human content
   * exactly when no new draft's file name is taken or leads out of the directory.
   */
  lemma CoversAndKeepsExactly(files: Files, existing: map<string, Entry>, source: Source, tools: DraftTools)
    requires Succeeded(files, existing, source, tools)
    ensures Covered(source, After(files, existing, source, tools), tools) && Kept(files, After(files, existing, source, tools), tools)
            <==> DraftsFree(files, existing, source)
  {
    hide After, Succeeded, KeepsHuman, ReviewAt, DraftPath;
    var after := After(files, existing, source, tools);
    if DraftsFree(files, existing, source) {
      forall p | ReviewAt(files, p, tools).Some? { FileKept(files, existing, source, tools, p); }
      forall t | t in RawTables(source) ensures Covers(after, t, tools) {
        TableCovered(files, existing, source, tools, t);
      }
    } else {
      var t :| t in RawTables(source) && t !in existing && !('/' !in t && DraftPath(t) !in files);
      ClashLoses(files, existing, source, tools, t);
    }
  }

  /** A file `orders.yml` that reviews `customers` makes the first run over a new table `orders` lose one of the two. */
  lemma TakenNameLoses(files: Files, existing: map<string, Entry>, source: Source, tools: DraftTools)
    requires Succeeded(files, existing, source, tools)
    requires "orders" in RawTables(source) && "orders" !in existing
    requires "customers" in existing && existing["customers"].path == "orders.yml"
    ensures !Covered(source, After(files, existing, source, tools), tools) || !Kept(files, After(files, existing, source, tools), tools)
  {
    hide After, RoundTrips, WritesValid, Kept, Covered;
    assert DraftPath("orders") == "orders.yml";
    CoversAndKeepsExactly(files, existing, source, tools);
  }

  // ---- agreement with the validator ----

  lemma RawColumnsAreNames(table: TableSchema)
    ensures RawColumns(table) == ColumnNames(table)
  {
    forall c ensures c in RawColumns(table) <==> c in ColumnNames(table) {
      NamesAreKeys(table, c);
    }
  }

  lemma Refreshed(t: string, existing: map<string, Entry>, source: Source, tools: DraftTools)
    requires t in RawTables(source)
    ensures var table, r := RawTables(source)[t], ReviewAfter(t, existing, source, tools);
            && !NeedsWrite(table, r, source, tools) && Added(table, r) == {}
            && Orphans(table, r) == (if t in existing then Orphans(table, existing[t].review) else {})
  {
    RawNamed(source, t);
  }

  predicate IsVersion(f: Finding) {
    f.Unexpected? && !f.version.DatabaseField?
  }

  /**
   * The validator reports no version, hash or missing-column error for any raw table's review, and its
   * unknown columns are exactly the ones the run reported as orphaned.
   */
  lemma AgreesWithValidator(t: string, existing: map<string, Entry>, source: Source, tools: DraftTools,
                            lower: string -> string, f: Finding)
    requires t in RawTables(source) && (t in existing ==> existing[t].review.table == t)
    ensures var r := ReviewAfter(t, existing, source, tools);
            && (IsVersion(f) || f.StaleHash? || f.MissingColumnReview? || f.UnknownTableFound? ==>
                  !Reports(source.schema, source.contract, r, lower, tools.hash, f))
            && (f.UnknownColumnFound? ==>
                  (Reports(source.schema, source.contract, r, lower, tools.hash, f) <==>
                     OrphanCode(f.column) in ResultFor(RawTables(source)[t], existing, source, tools).codes))
  {
    var table := RawTables(source)[t];
    Refreshed(t, existing, source, tools);
    WriteShape(t, existing, source, tools);
    RawColumnsAreNames(table);
    RawNamed(source, t);
    hide WriteFor, ReviewAfter, TableMap, DictBy, ColumnNames;
    match f
    case UnknownColumnFound(c) => OrphansListed(table, existing, source, tools, c);
    case Unexpected(version) =>
    case StaleHash =>
    case MissingColumnReview(c) =>
      assert c !in Added(table, ReviewAfter(t, existing, source, tools));
    case UnknownTableFound =>
    case _ =>
  }

  lemma OrphansListed(table: TableSchema, existing: map<string, Entry>, source: Source, tools: DraftTools, column: string)
    ensures OrphanCode(column) in ResultFor(table, existing, source, tools).codes <==>
              table.name in existing && column in Orphans(table, existing[table.name].review)
  {
    hide NeedsWrite, Orphans, RawColumns, SortedSet;
    if table.name in existing {
      var names := SortedSet(Orphans(table, existing[table.name].review));
      if column in names {
        var i :| 0 <= i < |names| && names[i] == column;
        assert Codes(names)[i] == OrphanCode(column);
      }
      if OrphanCode(column) in Codes(names) {
        var i :| 0 <= i < |names| && Codes(names)[i] == OrphanCode(column);
        assert names[i] == OrphanCode(names[i])[23..] && column == OrphanCode(column)[23..];
      }
    }
  }

  // ---- convergence ----

  lemma NothingToWrite(t: string, existing: map<string, Entry>, source: Source, tools: DraftTools)
    requires t in RawTables(source)
    ensures WriteFor(RawTables(source)[t], IndexAfter(existing, source, tools), source, tools).None?
  {
    Refreshed(t, existing, source, tools);
    RawNamed(source, t);
    hide NeedsWrite, ReviewAfter;
  }

  lemma {:induction false} QuietFiles(files: Files, n: nat, index: map<string, Entry>, source: Source, tools: DraftTools)
    requires n <= |Names(source)|
    requires forall t :: t in RawTables(source) ==> WriteFor(RawTables(source)[t], index, source, tools).None?
    ensures FilesAfter(files, Names(source), n, index, source, tools) == files
    decreases n
  {
    hide WriteFor, SortedSet;
    if n > 0 {
      QuietFiles(files, n - 1, index, source, tools);
      assert Names(source)[n - 1] in Names(source);
      FilesAfterOne(files, Names(source), n, index, source, tools);
    }
  }

  lemma QuietResult(table: TableSchema, index: map<string, Entry>, source: Source, tools: DraftTools)
    requires WriteFor(table, index, source, tools).None?
    ensures var a := ResultFor(table, index, source, tools).action; a.Unchanged? || a.RequiresManualReview?
  {
  }

  /** A second run on the same sources writes nothing, and reports no table as created or refreshed. */
  lemma SecondRunQuiet(files: Files, existing: map<string, Entry>, source: Source, tools: DraftTools,
                       index: map<string, Entry>)
    requires Succeeded(files, existing, source, tools) && DraftsFree(files, existing, source)
    requires IsIndex(After(files, existing, source, tools), index, tools)
    ensures Succeeded(After(files, existing, source, tools), index, source, tools)
    ensures QuietRun(After(files, existing, source, tools), source, tools)
    ensures After(After(files, existing, source, tools), index, source, tools) == After(files, existing, source, tools)
    ensures forall t :: t in RawTables(source) ==>
              var a := ResultFor(RawTables(source)[t], index, source, tools).action; a.Unchanged? || a.RequiresManualReview?
  {
    hide FilesAfter, WriteFor, ResultFor, IndexAfter, IsIndex, Loads, SortedSet, DraftsFree;
    ReadsBack(files, existing, source, tools);
    var after := After(files, existing, source, tools);
    IndexUnique(after, index, IndexAfter(existing, source, tools), tools);
    forall t | t in RawTables(source)
      ensures WriteFor(RawTables(source)[t], index, source, tools).None?
      ensures var a := ResultFor(RawTables(source)[t], index, source, tools).action; a.Unchanged? || a.RequiresManualReview?
    {
      NothingToWrite(t, existing, source, tools);
      QuietResult(RawTables(source)[t], index, source, tools);
    }
    QuietFiles(after, |Names(source)|, index, source, tools);
    forall other | IsIndex(after, other, tools) ensures other == index {
      IndexUnique(after, other, index, tools);
    }
  }
}
