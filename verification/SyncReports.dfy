/** The self-validating reports of a schema sync. */
module SyncReports {
  import opened Wrappers
  import opened Ordering
  import opened Sorting
  import opened Models
  import opened SchemaSummary

  datatype Outcome = Disabled | Noop | Changed | ManualCleanupRequired

  /** `values == tuple(sorted(set(values)))`. */
  predicate SortedUnique(values: seq<string>) {
    values == SortedSet(Elements(values))
  }

  datatype DatabaseReport = DatabaseReport(
    key: string,
    clickhouseDatabase: string,
    added: seq<string>,
    modified: seq<string>,
    deleted: seq<string>,
    rawChangedPaths: seq<string>,
    reviewPaths: seq<string>
  ) {
    predicate HasChanges() {
      added != [] || modified != [] || deleted != []
    }

    predicate Valid() {
      && key != "" && clickhouseDatabase != ""
      && SortedUnique(added) && SortedUnique(modified) && SortedUnique(deleted)
      && SortedUnique(rawChangedPaths) && SortedUnique(reviewPaths)
    }
  }

  function Keys(databases: seq<DatabaseReport>): (keys: seq<string>)
    ensures |keys| == |databases| && forall i :: 0 <= i < |keys| ==> keys[i] == databases[i].key
  {
    seq(|databases|, i requires 0 <= i < |databases| => databases[i].key)
  }

  datatype Report = Report(
    runId: string,
    outcome: Outcome,
    databases: seq<DatabaseReport>,
    warnings: seq<string>,
    manualCleanup: seq<string>
  ) {
    predicate AnyChange() {
      exists d :: d in databases && d.HasChanges()
    }

    /** The outcome and order validators. */
    predicate Consistent() {
      && SortedUnique(Keys(databases))
      && (outcome.Disabled? || outcome.Noop? ==> !AnyChange())
      && (outcome.Changed? ==> AnyChange())
      && (outcome.ManualCleanupRequired? ==> AnyChange() && manualCleanup != [])
      && SortedUnique(manualCleanup)
    }

    /** Everything the constructors of the report and of its parts check. */
    predicate Valid() {
      runId != "" && (forall d :: d in databases ==> d.Valid()) && Consistent()
    }
  }

  // ---- sorted and unique ----

  /** The validator's comparison is strict sortedness. */
  lemma SortedUniqueExact(values: seq<string>)
    ensures SortedUnique(values) <==> StrictlySorted(values)
  {
    SortedSetSorted(Elements(values));
    if StrictlySorted(values) {
      hide SortedSet;
      SortedSetUnique(values, Elements(values));
    }
  }

  lemma SortedSetUniqueValues(s: set<string>)
    ensures SortedUnique(SortedSet(s))
  {
    SortedSetSorted(s);
    SortedUniqueExact(SortedSet(s));
  }

  lemma EmptySortedUnique()
    ensures SortedUnique([])
  {
    assert StrictlySorted([]);
    SortedUniqueExact([]);
  }

  // ---- what appending a suffix does to the order ----

  /** `y` extends `x` by text that, before the suffix, sorts ahead of the bare suffix. */
  predicate Overtakes(x: string, y: string, suffix: string) {
    x <= y && StrLess(y[|x|..] + suffix, suffix)
  }

  lemma LongerDiffers(r: string, suffix: string)
    requires r != ""
    ensures r + suffix != suffix
  {
    assert |r + suffix| > |suffix|;
  }

  /** Appending the same suffix keeps the order of two strings exactly when the larger does not overtake. */
  lemma {:induction false} SuffixOrder(x: string, y: string, suffix: string)
    requires StrLess(x, y)
    ensures StrLess(x + suffix, y + suffix) <==> !Overtakes(x, y, suffix)
    decreases |x|
  {
    if x == "" {
      assert x + suffix == suffix && y[0..] == y;
      LongerDiffers(y, suffix);
      StrLessTotal();
    } else {
      assert (x + suffix)[1..] == x[1..] + suffix && (y + suffix)[1..] == y[1..] + suffix;
      if x[0] == y[0] {
        SuffixOrder(x[1..], y[1..], suffix);
        assert x <= y <==> x[1..] <= y[1..] by {
          assert x == [x[0]] + x[1..] && y == [y[0]] + y[1..];
        }
        if x <= y {
          assert y[|x|..] == y[1..][|x[1..]|..];
        }
      }
    }
  }

  predicate IsWordChar(c: char) {
    'a' <= c <= 'z' || 'A' <= c <= 'Z' || '0' <= c <= '9' || c == '_'
  }

  /** A name over `[A-Za-z0-9_]`. */
  predicate IsWord(s: string) {
    forall i :: 0 <= i < |s| ==> IsWordChar(s[i])
  }

  /** No word overtakes another: every word character sorts above `.`. */
  lemma WordsKeepOrder(x: string, y: string)
    requires IsWord(y) && StrLess(x, y)
    ensures !Overtakes(x, y, ".yml")
  {
    if x <= y {
      var r := y[|x|..];
      if r == "" {
        assert x == y;
        StrLessTotal();
      } else {
        assert IsWordChar(r[0]) && (r + ".yml")[0] == r[0];
      }
    }
  }

  // ---- review paths ----

  /** No affected table name overtakes another. */
  ghost predicate NamesKeepOrder(names: seq<string>) {
    forall i, j :: 0 <= i < j < |names| ==> !Overtakes(names[i], names[j], ".yml")
  }

  lemma ReviewFileOrder(database: string, x: string, y: string)
    requires StrLess(x, y)
    ensures StrLess(ReviewFile(database, x), ReviewFile(database, y)) <==> !Overtakes(x, y, ".yml")
  {
    var p := "catalog/" + database + "/review/";
    assert ReviewFile(database, x) == p + (x + ".yml") && ReviewFile(database, y) == p + (y + ".yml");
    LexCommonPrefix(p, x + ".yml", y + ".yml", CharLess);
    SuffixOrder(x, y, ".yml");
  }

  /** Review paths listed in table order are in path order exactly when no table name overtakes another. */
  lemma ReviewFilesExact(database: string, names: seq<string>)
    requires StrictlySorted(names)
    ensures SortedUnique(ReviewFiles(database, names)) <==> NamesKeepOrder(names)
  {
    var files := ReviewFiles(database, names);
    SortedUniqueExact(files);
    hide SortedUnique, StrLess, Overtakes, ReviewFile;
    forall i, j | 0 <= i < j < |names|
      ensures StrLess(files[i], files[j]) <==> !Overtakes(names[i], names[j], ".yml")
    {
      ReviewFileOrder(database, names[i], names[j]);
    }
  }

  lemma WordNamesKeepOrder(names: seq<string>)
    requires StrictlySorted(names) && forall n :: n in names ==> IsWord(n)
    ensures NamesKeepOrder(names)
  {
    forall i, j | 0 <= i < j < |names| ensures !Overtakes(names[i], names[j], ".yml") {
      WordsKeepOrder(names[i], names[j]);
    }
  }

  /** Two table names whose review paths are out of order: the report that lists both is refused. */
  lemma HyphenOvertakes()
    ensures StrLess("a", "a-b") && Overtakes("a", "a-b", ".yml")
    ensures !SortedUnique(ReviewFiles("shop", ["a", "a-b"]))
  {
    var names := ["a", "a-b"];
    assert "a-b"[1..] + ".yml" == "-b.yml";
    assert StrLess("a-b"[1..] + ".yml", ".yml");
    assert "a" <= "a-b";
    assert StrLess("a"[1..], "a-b"[1..]);
    assert Overtakes(names[0], names[1], ".yml");
    ReviewFilesExact("shop", names);
  }

  // ---- exactly which reports are valid ----

  predicate DatabaseSound(d: DatabaseReport) {
    d.key != "" && d.clickhouseDatabase != ""
  }

  ghost predicate ListsSorted(d: DatabaseReport) {
    && StrictlySorted(d.added) && StrictlySorted(d.modified) && StrictlySorted(d.deleted)
    && StrictlySorted(d.rawChangedPaths) && StrictlySorted(d.reviewPaths)
  }

  /** Some table of some database came, went or changed. */
  predicate AnyDrift(report: Report) {
    exists d :: d in report.databases && |d.added| + |d.modified| + |d.deleted| > 0
  }

  lemma DatabaseValidExactly(d: DatabaseReport)
    ensures d.Valid() <==> DatabaseSound(d) && ListsSorted(d)
    ensures d.HasChanges() <==> |d.added| + |d.modified| + |d.deleted| > 0
  {
    hide SortedUnique, StrictlySorted;
    SortedUniqueExact(d.added);
    SortedUniqueExact(d.modified);
    SortedUniqueExact(d.deleted);
    SortedUniqueExact(d.rawChangedPaths);
    SortedUniqueExact(d.reviewPaths);
  }

  /**
   * The validators accept exactly named runs whose records and cleanup are sorted without repeats, one record
   * for each database in key order, with drift if and only if the outcome says so, and a cleanup if it asks for one.
   */
  lemma ReportValidExactly(report: Report)
    ensures report.Valid() <==>
              && report.runId != "" && (forall d :: d in report.databases ==> DatabaseSound(d) && ListsSorted(d))
              && (forall i, j :: 0 <= i < j < |report.databases| ==> StrLess(report.databases[i].key, report.databases[j].key))
              && StrictlySorted(report.manualCleanup)
              && (AnyDrift(report) <==> report.outcome == Changed || report.outcome == ManualCleanupRequired)
              && (report.outcome == ManualCleanupRequired ==> report.manualCleanup != [])
  {
    hide SortedUnique, StrLess, DatabaseReport.Valid, DatabaseReport.HasChanges;
    forall d: DatabaseReport { DatabaseValidExactly(d); }
    SortedUniqueExact(Keys(report.databases));
    SortedUniqueExact(report.manualCleanup);
  }

  // ---- the report of one database ----

  function DatabaseReportOf(key: string, clickhouse: string, summary: Summary, rawPaths: seq<string>): DatabaseReport {
    DatabaseReport(key, clickhouse, summary.added, summary.modified, summary.deleted, rawPaths, summary.reviewFiles)
  }

  /** The record of one database's drift is accepted exactly when no affected table name overtakes another. */
  lemma DatabaseReportExact(key: string, clickhouse: string, before: DatabaseSchema, after: DatabaseSchema, repr: Repr,
                            rawPaths: seq<string>)
    requires key != "" && clickhouse != "" && SortedUnique(rawPaths)
    ensures DatabaseReportOf(key, clickhouse, SummaryOf(before, after, Some(key), repr), rawPaths).Valid() <==>
              NamesKeepOrder(SortedSet(Affected(before, after, repr)))
  {
    hide SortedUnique, Affected, ModifiedNames, Names, NamesKeepOrder, SortedSet;
    SortedSetUniqueValues(Names(after) - Names(before));
    SortedSetUniqueValues(ModifiedNames(before, after, repr));
    SortedSetUniqueValues(Names(before) - Names(after));
    SortedSetSorted(Affected(before, after, repr));
    ReviewFilesExact(key, SortedSet(Affected(before, after, repr)));
  }
}
