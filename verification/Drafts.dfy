/** Creating and refreshing reviewer drafts in a directory of YAML files. */
module Drafts {
  import opened Wrappers
  import opened Sorting
  import opened Dictionaries
  import opened Models
  import opened TblsSchema
  import opened SchemaHashing

  /**
   * Reading and writing YAML, the schema hash, and the heuristics that fill a new draft. `load` answers
   * `None` for text that is not a valid review.
   */
  datatype DraftTools = DraftTools(
    load: string -> Option<ReviewDocument>,
    dump: ReviewDocument -> string,
    hash: SchemaHasher,
    newColumn: (TableSchema, ColumnSchema, string) -> ColumnReview,
    newBusiness: (TableSchema, string) -> BusinessMetadata
  )

  /** The minimum lengths of a review's fields; a computed digest always has its form. */
  predicate ValidReview(r: ReviewDocument) {
    && r.contractVersion != "" && r.reviewGuidelineVersion != "" && r.transformationGuidelineVersion != ""
    && r.database != "" && r.table != "" && r.owner != "" && r.reviewer != ""
    && r.columns != map[] && forall c :: c in r.columns ==> ValidColumn(r.columns[c])
  }

  predicate ValidColumn(c: ColumnReview) {
    c.businessName != "" && c.description != "" && c.semanticType != "" && c.evidence != []
  }

  /** What is written reads back the same, and only valid reviews are read. */
  ghost predicate RoundTrips(tools: DraftTools) {
    && (forall r :: ValidReview(r) ==> tools.load(tools.dump(r)) == Some(r))
    && (forall text :: tools.load(text).Some? ==> ValidReview(tools.load(text).value))
  }

  type Files = map<string, string>

  /** A name matched by `*.yml` or `*.yaml` in the directory itself. */
  predicate IsReviewName(path: string) {
    '/' !in path && (EndsWith(path, ".yml") || EndsWith(path, ".yaml"))
  }

  predicate EndsWith(s: string, suffix: string) {
    |suffix| <= |s| && s[|s| - |suffix|..] == suffix
  }

  function DraftPath(table: string): string {
    table + ".yml"
  }

  datatype Entry = Entry(path: string, review: ReviewDocument)

  datatype DraftError = InvalidReviewFile | DuplicateReview | InvalidRecord

  datatype DraftAction = Created | Unchanged | Refreshed | RequiresManualReview

  datatype DraftResult = DraftResult(table: string, path: string, action: DraftAction, codes: seq<string>)

  datatype Source = Source(schema: DatabaseSchema, contract: ReviewContract, reference: string)

  function RawTables(source: Source): map<string, TableSchema> {
    TableMap(source.schema.tables)
  }

  // ---- one table ----

  function NewColumns(table: TableSchema, names: set<string>, reference: string, tools: DraftTools): (columns: map<string, ColumnReview>)
    requires names <= DictBy(table.columns, ColumnName).Keys
    ensures columns.Keys == names
  {
    map c | c in names :: tools.newColumn(table, DictBy(table.columns, ColumnName)[c], reference)
  }

  function RawColumns(table: TableSchema): set<string> {
    DictBy(table.columns, ColumnName).Keys
  }

  function NewReview(table: TableSchema, source: Source, tools: DraftTools): ReviewDocument {
    ReviewDocument(
      source.contract.contractVersion, source.contract.reviewGuidelineVersion,
      source.contract.transformationGuidelineVersion, source.schema.name, table.name,
      "unassigned", "unassigned", NeedsReview, TableSchemaHash(source.schema, table, tools.hash),
      tools.newBusiness(table, source.reference),
      NewColumns(table, RawColumns(table), source.reference, tools),
      [], [], ["Data quality expectations require reviewer confirmation."], [])
  }

  function Added(table: TableSchema, review: ReviewDocument): set<string> {
    RawColumns(table) - review.columns.Keys
  }

  function Orphans(table: TableSchema, review: ReviewDocument): set<string> {
    review.columns.Keys - RawColumns(table)
  }

  predicate ContractChanged(review: ReviewDocument, contract: ReviewContract) {
    review.contractVersion != contract.contractVersion
    || review.reviewGuidelineVersion != contract.reviewGuidelineVersion
    || review.transformationGuidelineVersion != contract.transformationGuidelineVersion
  }

  predicate NeedsWrite(table: TableSchema, review: ReviewDocument, source: Source, tools: DraftTools) {
    Added(table, review) != {} || review.schemaHash != TableSchemaHash(source.schema, table, tools.hash)
    || ContractChanged(review, source.contract)
  }

  function RefreshedReview(table: TableSchema, review: ReviewDocument, source: Source, tools: DraftTools): ReviewDocument {
    review.(
      contractVersion := source.contract.contractVersion,
      reviewGuidelineVersion := source.contract.reviewGuidelineVersion,
      transformationGuidelineVersion := source.contract.transformationGuidelineVersion,
      documentStatus := NeedsReview,
      schemaHash := TableSchemaHash(source.schema, table, tools.hash),
      columns := review.columns + NewColumns(table, Added(table, review), source.reference, tools))
  }

  /** What a run writes for one table, if anything: a path and a review. */
  function WriteFor(table: TableSchema, existing: map<string, Entry>, source: Source, tools: DraftTools): Option<Entry> {
    if table.name !in existing then Some(Entry(DraftPath(table.name), NewReview(table, source, tools)))
    else
      var e := existing[table.name];
      if NeedsWrite(table, e.review, source, tools) then Some(Entry(e.path, RefreshedReview(table, e.review, source, tools)))
      else None
  }

  function OrphanCode(column: string): string {
    "orphaned_review_column:" + column
  }

  function Codes(columns: seq<string>): (codes: seq<string>)
    ensures |codes| == |columns| && forall i :: 0 <= i < |codes| ==> codes[i] == OrphanCode(columns[i])
  {
    seq(|columns|, i requires 0 <= i < |columns| => OrphanCode(columns[i]))
  }

  function ResultFor(table: TableSchema, existing: map<string, Entry>, source: Source, tools: DraftTools): DraftResult {
    if table.name !in existing then DraftResult(table.name, DraftPath(table.name), Created, [])
    else
      var e := existing[table.name];
      var orphans := Orphans(table, e.review);
      if orphans != {} then DraftResult(table.name, e.path, RequiresManualReview, Codes(SortedSet(orphans)))
      else if NeedsWrite(table, e.review, source, tools) then DraftResult(table.name, e.path, Refreshed, [])
      else DraftResult(table.name, e.path, Unchanged, [])
  }

  // ---- the run, as a function of the files ----

  /** Table names in processing order. */
  function Names(source: Source): (names: seq<string>)
    ensures forall n :: n in names <==> n in RawTables(source)
  {
    SortedSet(RawTables(source).Keys)
  }

  function Written(files: Files, table: TableSchema, existing: map<string, Entry>, source: Source, tools: DraftTools): Files {
    var w := WriteFor(table, existing, source, tools);
    if w.Some? then files[w.value.path := tools.dump(w.value.review)] else files
  }

  /** The files after the first `n` tables. */
  function FilesAfter(files: Files, names: seq<string>, n: nat, existing: map<string, Entry>, source: Source, tools: DraftTools): Files
    requires n <= |names| && forall t :: t in names ==> t in RawTables(source)
  {
    if n == 0 then files
    else Written(FilesAfter(files, names, n - 1, existing, source, tools), RawTables(source)[names[n - 1]], existing, source, tools)
  }

  function TableResults(names: seq<string>, existing: map<string, Entry>, source: Source, tools: DraftTools): seq<DraftResult>
    requires forall t :: t in names ==> t in RawTables(source)
  {
    seq(|names|, i requires 0 <= i < |names| && names[i] in RawTables(source) =>
          ResultFor(RawTables(source)[names[i]], existing, source, tools))
  }

  function OrphanResults(names: seq<string>, existing: map<string, Entry>): seq<DraftResult>
    requires forall t :: t in names ==> t in existing
  {
    seq(|names|, i requires 0 <= i < |names| && names[i] in existing =>
          DraftResult(names[i], existing[names[i]].path, RequiresManualReview, ["orphaned_review_table"]))
  }

  /** Whether every review the run writes passes the record's constructor. */
  ghost predicate WritesValid(names: seq<string>, existing: map<string, Entry>, source: Source, tools: DraftTools)
    requires forall t :: t in names ==> t in RawTables(source)
  {
    forall t :: t in names ==>
      var w := WriteFor(RawTables(source)[t], existing, source, tools);
      w.Some? ==> ValidReview(w.value.review)
  }

  // ---- loading ----

  function ReviewAt(files: Files, path: string, tools: DraftTools): Option<ReviewDocument> {
    if path in files && IsReviewName(path) then tools.load(files[path]) else None
  }

  /** Every review file is readable, and no two declare the same table. */
  ghost predicate Loads(files: Files, tools: DraftTools) {
    && (forall p :: p in files && IsReviewName(p) ==> ReviewAt(files, p, tools).Some?)
    && (forall p, q :: p != q && ReviewAt(files, p, tools).Some? && ReviewAt(files, q, tools).Some? ==>
          ReviewAt(files, p, tools).value.table != ReviewAt(files, q, tools).value.table)
  }

  /** `index` holds exactly the readable reviews, by table. */
  ghost predicate IsIndex(files: Files, index: map<string, Entry>, tools: DraftTools) {
    && (forall t :: t in index ==> index[t].review.table == t && ReviewAt(files, index[t].path, tools) == Some(index[t].review))
    && (forall p :: ReviewAt(files, p, tools).Some? ==>
          ReviewAt(files, p, tools).value.table in index && index[ReviewAt(files, p, tools).value.table].path == p)
  }

  /** Whether a run over these files reaches its end. */
  ghost predicate CanRun(files: Files, source: Source, tools: DraftTools) {
    Loads(files, tools)
    && exists existing :: IsIndex(files, existing, tools) && WritesValid(Names(source), existing, source, tools)
  }

  /** A run that reaches its end turns `before` into `after`, with these results. */
  ghost predicate RunsTo(before: Files, after: Files, results: seq<DraftResult>, source: Source, tools: DraftTools) {
    Loads(before, tools)
    && exists existing ::
         IsIndex(before, existing, tools) && WritesValid(Names(source), existing, source, tools)
         && after == FilesAfter(before, Names(source), |Names(source)|, existing, source, tools)
         && results == AllResults(existing, source, tools)
  }

  /** `after` has the tables before the first one whose review is invalid. */
  ghost predicate StoppedAt(before: Files, after: Files, existing: map<string, Entry>, source: Source, tools: DraftTools) {
    exists n :: 0 <= n < |Names(source)| && Stops(before, after, n, existing, source, tools)
  }

  ghost predicate Stops(before: Files, after: Files, n: nat, existing: map<string, Entry>, source: Source, tools: DraftTools)
    requires n < |Names(source)|
  {
    && after == FilesAfter(before, Names(source), n, existing, source, tools)
    && WritesValid(Names(source)[..n], existing, source, tools)
    && !WritesValid([Names(source)[n]], existing, source, tools)
  }

  lemma StopsHere(before: Files, n: nat, existing: map<string, Entry>, source: Source, tools: DraftTools)
    requires n < |Names(source)|
    requires WritesValid(Names(source)[..n], existing, source, tools)
    requires var w := WriteFor(RawTables(source)[Names(source)[n]], existing, source, tools);
             w.Some? && !ValidReview(w.value.review)
    ensures StoppedAt(before, FilesAfter(before, Names(source), n, existing, source, tools), existing, source, tools)
  {
    hide FilesAfter, WriteFor, SortedSet, ValidReview;
    var names := Names(source);
    assert names[n] in names && names[n] in [names[n]];
    assert Stops(before, FilesAfter(before, names, n, existing, source, tools), n, existing, source, tools);
  }

  /** No table needs a write. */
  ghost predicate NothingDue(existing: map<string, Entry>, source: Source, tools: DraftTools) {
    forall t :: t in RawTables(source) ==> WriteFor(RawTables(source)[t], existing, source, tools).None?
  }

  /** A run over these files has nothing to write. */
  ghost predicate QuietRun(files: Files, source: Source, tools: DraftTools) {
    forall existing :: IsIndex(files, existing, tools) ==> NothingDue(existing, source, tools)
  }

  lemma IndexUnique(files: Files, a: map<string, Entry>, b: map<string, Entry>, tools: DraftTools)
    requires IsIndex(files, a, tools) && IsIndex(files, b, tools)
    ensures a == b
  {
    forall t ensures t in a <==> t in b {
      if t in a { assert ReviewAt(files, a[t].path, tools).Some?; }
      if t in b { assert ReviewAt(files, b[t].path, tools).Some?; }
    }
    forall t | t in a ensures t in b && a[t] == b[t] {
      assert ReviewAt(files, a[t].path, tools).Some?;
    }
  }

  class ReviewDirectory {
    var files: Files
    /** How many writes changed a file. */
    var writes: nat

    constructor (initial: Files)
      ensures files == initial && writes == 0
    {
      files, writes := initial, 0;
    }

    /** Writes only when the text differs. */
    method WriteIfChanged(path: string, text: string)
      modifies this
      ensures files == old(files)[path := text]
      ensures writes == old(writes) + if path in old(files) && old(files)[path] == text then 0 else 1
    {
      if path in files && files[path] == text {
        assert files == files[path := text];
        return;
      }
      files := files[path := text];
      writes := writes + 1;
    }

    method LoadExistingReviews(tools: DraftTools) returns (r: Result<map<string, Entry>, DraftError>)
      ensures r.Ok? <==> Loads(files, tools)
      ensures r.Ok? ==> IsIndex(files, r.value, tools)
    {
      hide SortedSet, IsReviewName;
      var paths := SortedSet(set p | p in files && IsReviewName(p));
      var index: map<string, Entry> := map[];
      for i := 0 to |paths|
        invariant forall k :: 0 <= k < i ==> ReviewAt(files, paths[k], tools).Some?
        invariant forall t :: t in index ==> index[t].review.table == t && index[t].path in paths[..i]
                                             && ReviewAt(files, index[t].path, tools) == Some(index[t].review)
        invariant forall p :: p in paths[..i] ==>
                    ReviewAt(files, p, tools).Some? && ReviewAt(files, p, tools).value.table in index
                    && index[ReviewAt(files, p, tools).value.table].path == p
      {
        var path := paths[i];
        assert path in paths;
        SortedSetSorted(set p | p in files && IsReviewName(p));
        StrictlySortedDistinct(paths);
        assert path !in paths[..i];
        assert paths[..i + 1] == paths[..i] + [path];
        var review := tools.load(files[path]);
        if review.None? {
          return Err(InvalidReviewFile);
        }
        if review.value.table in index {
          return Err(DuplicateReview);
        }
        index := index[review.value.table := Entry(path, review.value)];
      }
      assert paths[..|paths|] == paths;
      forall p | ReviewAt(files, p, tools).Some? ensures p in paths {}
      IndexLoads(files, index, tools);
      return Ok(index);
    }

    method ProcessTables(existing: map<string, Entry>, source: Source, tools: DraftTools)
      returns (r: Result<seq<DraftResult>, DraftError>)
      modifies this
      ensures r.Ok? <==> WritesValid(Names(source), existing, source, tools)
      ensures r.Ok? ==> files == FilesAfter(old(files), Names(source), |Names(source)|, existing, source, tools)
      ensures r.Ok? ==> r.value == TableResults(Names(source), existing, source, tools)
      ensures r.Err? ==> StoppedAt(old(files), files, existing, source, tools)
      ensures NothingDue(existing, source, tools) ==> writes == old(writes)
    {
      hide FilesAfter, SortedSet, ResultFor, WriteFor;
      var raw := RawTables(source);
      var names := Names(source);
      var results: seq<DraftResult> := [];
      FilesAfterNone(files, names, existing, source, tools);
      for i := 0 to |names|
        invariant files == FilesAfter(old(files), names, i, existing, source, tools)
        invariant results == TableResults(names[..i], existing, source, tools)
        invariant WritesValid(names[..i], existing, source, tools)
        invariant NothingDue(existing, source, tools) ==> writes == old(writes)
      {
        var table := raw[names[i]];
        assert names[..i + 1] == names[..i] + [names[i]];
        var w := WriteFor(table, existing, source, tools);
        FilesAfterOne(old(files), names, i + 1, existing, source, tools);
        if w.Some? {
          if !ValidReview(w.value.review) {
            assert names[i] in names;
            StopsHere(old(files), i, existing, source, tools);
            return Err(InvalidRecord);
          }
          WriteIfChanged(w.value.path, tools.dump(w.value.review));
        }
        results := results + [ResultFor(table, existing, source, tools)];
      }
      assert names[..|names|] == names;
      return Ok(results);
    }

    /** On an invalid record exactly the tables before it stay written. */
    method CreateReviewDrafts(source: Source, tools: DraftTools) returns (r: Result<seq<DraftResult>, DraftError>)
      modifies this
      ensures r.Ok? <==> CanRun(old(files), source, tools)
      ensures r.Ok? ==> RunsTo(old(files), files, r.value, source, tools)
      ensures !Loads(old(files), tools) ==> files == old(files)
      ensures r.Err? && Loads(old(files), tools) ==> exists existing ::
                IsIndex(old(files), existing, tools) && StoppedAt(old(files), files, existing, source, tools)
      ensures QuietRun(old(files), source, tools) ==> writes == old(writes)
    {
      hide FilesAfter, SortedSet, ResultFor, WriteFor, Loads, IsIndex, WritesValid, TableResults, OrphanResults;
      var loaded := LoadExistingReviews(tools);
      if loaded.Err? {
        return Err(loaded.error);
      }
      forall other | IsIndex(files, other, tools) ensures other == loaded.value {
        IndexUnique(files, other, loaded.value, tools);
      }
      var processed := ProcessTables(loaded.value, source, tools);
      if processed.Err? {
        return processed;
      }
      var orphans := ListOrphans(loaded.value, source);
      return Ok(processed.value + orphans);
    }
  }

  method ListOrphans(existing: map<string, Entry>, source: Source) returns (results: seq<DraftResult>)
    ensures results == OrphanResults(SortedSet(existing.Keys - RawTables(source).Keys), existing)
  {
    hide SortedSet;
    var orphaned := SortedSet(existing.Keys - RawTables(source).Keys);
    results := [];
    for i := 0 to |orphaned|
      invariant forall t :: t in orphaned[..i] ==> t in orphaned
      invariant results == OrphanResults(orphaned[..i], existing)
    {
      assert orphaned[i] in orphaned;
      assert orphaned[..i + 1] == orphaned[..i] + [orphaned[i]];
      results := results + [DraftResult(orphaned[i], existing[orphaned[i]].path, RequiresManualReview, ["orphaned_review_table"])];
    }
    assert orphaned[..|orphaned|] == orphaned;
  }

  function AllResults(existing: map<string, Entry>, source: Source, tools: DraftTools): seq<DraftResult> {
    TableResults(Names(source), existing, source, tools)
    + OrphanResults(SortedSet(existing.Keys - RawTables(source).Keys), existing)
  }

  lemma FilesAfterNone(files: Files, names: seq<string>, existing: map<string, Entry>, source: Source, tools: DraftTools)
    requires forall t :: t in names ==> t in RawTables(source)
    ensures FilesAfter(files, names, 0, existing, source, tools) == files
  {
  }

  lemma FilesAfterOne(files: Files, names: seq<string>, n: nat, existing: map<string, Entry>, source: Source, tools: DraftTools)
    requires 0 < n <= |names| && forall t :: t in names ==> t in RawTables(source)
    ensures FilesAfter(files, names, n, existing, source, tools) ==
              Written(FilesAfter(files, names, n - 1, existing, source, tools), RawTables(source)[names[n - 1]], existing, source, tools)
  {
  }

  lemma IndexLoads(files: Files, index: map<string, Entry>, tools: DraftTools)
    requires IsIndex(files, index, tools)
    requires forall p :: p in files && IsReviewName(p) ==> ReviewAt(files, p, tools).Some?
    ensures Loads(files, tools)
  {
  }
}
