/** First syncs of a small shop: one has its own report refused, one is cut off and loses its reviews. */
module ShopRuns {
  import opened Wrappers
  import opened Ordering
  import opened Sorting
  import opened Models
  import opened TblsSchema
  import opened SchemaSummary
  import opened Drafts
  import opened DraftTheorems
  import opened SyncReports
  import opened ScheduledSync
  import opened SyncTheorems
  import opened InterruptedSync

  function TableNamed(name: string): TableSchema {
    TableSchema(name, "MergeTree", "", [ColumnSchema("id", "UInt64", false, "")])
  }

  function ShopSchema(): DatabaseSchema {
    DatabaseSchema("shop", "", [TableNamed("a"), TableNamed("a-b")], [])
  }

  const SNAPSHOT := "snapshot"

  function Shop(): Profile {
    Profile("shop", "shop", ["a", "a-b"])
  }

  function ShopTools(repr: Repr, drafts: DraftTools): SyncTools {
    SyncTools((text: string) => if text == SNAPSHOT then Some(ShopSchema()) else None, repr, drafts)
  }

  function FirstSync(contract: ReviewContract): Request {
    Request("run-1", [Shop()], {"shop"}, map["shop" := Some(map[SCHEMA_FILE := SNAPSHOT])], Some(contract))
  }

  predicate ValidContract(c: ReviewContract) {
    c.contractVersion != "" && c.reviewGuidelineVersion != "" && c.transformationGuidelineVersion != ""
  }

  lemma ShopParses()
    ensures ParserValid(ShopSchema())
    ensures TableMap(ShopSchema().tables).Keys == {"a", "a-b"}
    ensures TableMap(ShopSchema().tables)["a"] == TableNamed("a") && TableMap(ShopSchema().tables)["a-b"] == TableNamed("a-b")
  {
    assert |"a"| != |"a-b"|;
    TwoTables(TableNamed("a"), TableNamed("a-b"));
  }

  lemma AffectedNames(repr: Repr)
    ensures Affected(DatabaseSchema("shop", "", [], []), ShopSchema(), repr) == {"a", "a-b"}
  {
    hide SortedRelations;
    ShopParses();
  }

  /** The two names in order, of which the second overtakes the first. */
  lemma OutOfOrder()
    ensures !NamesKeepOrder(SortedSet({"a", "a-b"}))
    ensures SortedSet({"a", "a-b"}) != []
  {
    var names := ["a", "a-b"];
    HyphenOvertakes();
    assert StrictlySorted(names);
    assert names[0] == "a" && names[1] == "a-b";
    forall x ensures x in names <==> x in {"a", "a-b"} {}
    SortedSetUnique(names, {"a", "a-b"});
    hide SortedSet, Overtakes, StrLess;
    assert SortedSet({"a", "a-b"}) == names;
    assert Overtakes(names[0], names[1], ".yml");
  }

  /** Staging finds both tables added. */
  lemma FirstStage(repr: Repr, drafts: DraftTools, contract: ReviewContract) returns (staged: Staged)
    ensures Stage(Shop(), Database(map[], map[]), SnapshotOf(Shop(), FirstSync(contract)), ShopTools(repr, drafts)) == Ok(staged)
    ensures staged.schema == ShopSchema() && staged.summary.HasChanges() && staged.raw == map[SCHEMA_FILE := SNAPSHOT]
  {
    hide SummaryOf, ChangedPaths, Affected, TableMap;
    var before := DatabaseSchema("shop", "", [], []);
    ShopParses();
    AffectedNames(repr);
    NoChangesMeans(before, ShopSchema(), Some("shop"), repr);
    assert "a" in {"a", "a-b"};
    var raw: Files := map[SCHEMA_FILE := SNAPSHOT];
    assert SchemaSummary.Names(ShopSchema()) == {"a", "a-b"};
    assert Shop().tables[0] == "a" && Shop().tables[1] == "a-b";
    assert InScope(Shop(), ShopSchema());
    staged := Staged(raw, ShopSchema(), SummaryOf(before, ShopSchema(), Some("shop"), repr), ChangedPaths("shop", raw, map[]));
  }

  lemma NothingLoaded(drafts: DraftTools)
    ensures IsIndex(map[], map[], drafts) && Loads(map[], drafts)
  {
  }

  lemma NewDraftsValid(source: Source, drafts: DraftTools)
    requires source.schema == ShopSchema() && ValidContract(source.contract)
    requires forall t, c, r :: ValidColumn(drafts.newColumn(t, c, r))
    ensures WritesValid(Drafts.Names(source), map[], source, drafts)
  {
    hide NewReview, ValidReview, ValidColumn, SortedSet, TableMap;
    ShopParses();
    forall t | t in Drafts.Names(source)
      ensures ValidReview(WriteFor(RawTables(source)[t], map[], source, drafts).value.review)
    {
      assert RawTables(source)[t] == TableNamed(t);
      NewReviewValid(TableNamed(t), source, drafts);
    }
  }

  /** Without reviews every table gets a new draft. */
  lemma FirstDrafts(source: Source, drafts: DraftTools) returns (review: Files, results: seq<DraftResult>)
    requires source.schema == ShopSchema() && ValidContract(source.contract)
    requires forall t, c, r :: ValidColumn(drafts.newColumn(t, c, r))
    ensures RunsTo(map[], review, results, source, drafts)
  {
    hide FilesAfter, AllResults, SortedSet, WritesValid, IsIndex, Loads, TableMap;
    NothingLoaded(drafts);
    NewDraftsValid(source, drafts);
    review := FilesAfter(map[], Drafts.Names(source), |Drafts.Names(source)|, map[], source, drafts);
    results := AllResults(map[], source, drafts);
  }

  lemma NewReviewValid(table: TableSchema, source: Source, drafts: DraftTools)
    requires ValidContract(source.contract) && source.schema.name != "" && table.name != "" && |table.columns| == 1
    requires forall t, c, r :: ValidColumn(drafts.newColumn(t, c, r))
    ensures ValidReview(NewReview(table, source, drafts))
  {
    var review := NewReview(table, source, drafts);
    assert table.columns == [table.columns[0]];
    assert ColumnName(table.columns[0]) in RawColumns(table);
    assert review.columns.Keys == RawColumns(table);
  }

  /** The first sync prepared, whatever fills the drafts. */
  lemma FirstPrepared(repr: Repr, drafts: DraftTools, contract: ReviewContract) returns (prepared: seq<Prepared>)
    requires ValidContract(contract) && forall t, c, r :: ValidColumn(drafts.newColumn(t, c, r))
    ensures AllPrepared(prepared, map[], FirstSync(contract), ShopTools(repr, drafts)) && |prepared| == 1
    ensures prepared[0].staged.schema == ShopSchema() && prepared[0].staged.summary.HasChanges()
    ensures prepared[0].staged.raw == map[SCHEMA_FILE := SNAPSHOT]
  {
    hide Stage, RunsTo;
    var request, tools := FirstSync(contract), ShopTools(repr, drafts);
    var staged := FirstStage(repr, drafts, contract);
    var review, results := FirstDrafts(SourceOf(Shop(), staged, contract), drafts);
    prepared := [Prepared(staged, review, results)];
    assert IsPrepared(prepared[0], Shop(), Database(map[], map[]), request, tools);
  }

  /**
   * Whatever fills the drafts, the first sync of a database with the tables `a` and `a-b` passes its
   * preflight and publishes the staged schema, and then its report is refused.
   */
  lemma HyphenRunRefused(repr: Repr, drafts: DraftTools, contract: ReviewContract)
    returns (request: Request, tools: SyncTools, prepared: seq<Prepared>)
    requires ValidContract(contract) && forall t, c, r :: ValidColumn(drafts.newColumn(t, c, r))
    ensures tools.drafts == drafts && forall text :: tools.parse(text).Some? ==> ParserValid(tools.parse(text).value)
    ensures SoundProfiles(request.profiles) && AllPrepared(prepared, map[], request, tools) && AnyChanged(prepared)
    ensures Preflight(map[], request, tools)
    ensures var now := PublishedUpTo(map[], request.profiles, prepared, |prepared|);
            CommittedOf(request.profiles[0], now).raw == map[SCHEMA_FILE := SNAPSHOT]
    ensures !RunReport(request.runId, request.profiles, prepared).Valid()
  {
    hide Stage, RunsTo, PublishedUpTo, RunReport, ParserValid, NamesKeepOrder, Affected, SortedSet;
    request, tools := FirstSync(contract), ShopTools(repr, drafts);
    prepared := FirstPrepared(repr, drafts, contract);
    assert prepared[0] in prepared;
    ShopParses();
    OneProfile();
    SafeRun();
    CatalogAfter(map[], request, tools, prepared, 0);
    AffectedNames(repr);
    OutOfOrder();
    assert !AffectedKeepOrder(prepared[0], Database(map[], map[]), Shop(), tools);
    ReportAcceptedExactly(map[], request, tools, prepared);
  }

  lemma NoReviewCovers(source: Source, drafts: DraftTools)
    requires source.schema == ShopSchema()
    ensures !Covered(source, map[], drafts)
  {
    ShopParses();
    assert "a" in RawTables(source);
    assert !Covers(map[], "a", drafts);
  }

  lemma NoopReport(runId: string, profiles: seq<Profile>, prepared: seq<Prepared>)
    requires |profiles| == |prepared| && !AnyChanged(prepared)
    ensures RunReport(runId, profiles, prepared).outcome.Noop?
  {
  }

  /**
   * The same sync cut off between the raw directory and the reviews: the rerun finds no drift and reports a
   * no-op, and the tables stay without a review.
   */
  lemma CutRunLosesReviews(repr: Repr, drafts: DraftTools, contract: ReviewContract)
    returns (request: Request, tools: SyncTools, prepared: seq<Prepared>, now: Databases, again: seq<Prepared>)
    requires ValidContract(contract) && forall t, c, r :: ValidColumn(drafts.newColumn(t, c, r))
    ensures tools.drafts == drafts && SoundProfiles(request.profiles) && |request.profiles| == 1
    ensures AllPrepared(prepared, map[], request, tools) && CutAt(map[], request.profiles, prepared, 0, now)
    ensures AllPrepared(again, now, request, tools) && RunReport(request.runId, request.profiles, again).outcome.Noop?
    ensures PublishedUpTo(now, request.profiles, again, |again|) == now
    ensures var profile := request.profiles[0];
            request.contract.Some?
            && !Covered(SourceOf(profile, prepared[0].staged, request.contract.value), CommittedOf(profile, now).review, drafts)
  {
    hide Stage, RunsTo, ParserValid, Covered, RunReport, ShopSchema;
    request, tools := FirstSync(contract), ShopTools(repr, drafts);
    prepared := FirstPrepared(repr, drafts, contract);
    var cut := Database(prepared[0].staged.raw, map[]);
    now := map["shop" := cut];
    assert CutDatabase(Database(map[], map[]), prepared[0], cut);
    InterruptedRunPrepares(map[], request, request, tools, prepared, 0, now);
    again :| AllPrepared(again, now, request, tools);
    assert IsPrepared(prepared[0], Shop(), CommittedOf(Shop(), map[]), request, tools);
    assert IsPrepared(again[0], Shop(), CommittedOf(Shop(), now), request, tools);
    InterruptedDatabase(Shop(), Database(map[], map[]), prepared[0], cut, request, request, tools, again[0]);
    assert !AnyChanged(again);
    UnchangedPublishes(now, request.profiles, again, |again|);
    NoopReport(request.runId, request.profiles, again);
    OneProfile();
    NoReviewCovers(SourceOf(Shop(), prepared[0].staged, contract), drafts);
  }

  lemma OneProfile()
    ensures SoundProfiles([Shop()])
  {
  }

  lemma SafeRun()
    ensures SafeRunId("run-1")
  {
  }
}
