/** What a scheduled sync leaves in the catalog, what a rerun does, and when its report is accepted. */
module SyncTheorems {
  import opened Wrappers
  import opened Sorting
  import opened Dictionaries
  import opened Models
  import opened TblsSchema
  import opened SchemaSummary
  import opened Drafts
  import opened DraftTheorems
  import opened SyncReports
  import opened ScheduledSync
  import opened CleanupEntries

  /** The parser's promise, and that YAML written reads back. */
  ghost predicate SoundTools(tools: SyncTools) {
    RoundTrips(tools.drafts) && forall text :: tools.parse(text).Some? ==> ParserValid(tools.parse(text).value)
  }

  // ---- the catalog after publication ----

  /** Each changed database is published, each other one is as it was. */
  lemma {:induction false} PublishedAt(databases: Databases, profiles: seq<Profile>, prepared: seq<Prepared>, n: nat, i: nat)
    requires n <= |profiles| == |prepared| && i < |profiles| && DistinctKeys(profiles, ProfileKey)
    ensures var now, key := PublishedUpTo(databases, profiles, prepared, n), profiles[i].key;
            if i < n && prepared[i].staged.summary.HasChanges()
            then key in now && now[key] == PublishedDatabase(CommittedOf(profiles[i], databases), prepared[i])
            else (key in now <==> key in databases) && (key in databases ==> now[key] == databases[key])
    decreases n
  {
    if n > 0 {
      PublishedAt(databases, profiles, prepared, n - 1, i);
      assert n - 1 != i ==> ProfileKey(profiles[n - 1]) != ProfileKey(profiles[i]) by {
        if n - 1 < i { assert ProfileKey(profiles[n - 1]) != ProfileKey(profiles[i]); }
        if i < n - 1 { assert ProfileKey(profiles[i]) != ProfileKey(profiles[n - 1]); }
      }
    }
  }

  lemma {:induction false} OthersUnpublished(databases: Databases, profiles: seq<Profile>, prepared: seq<Prepared>, n: nat, key: string)
    requires n <= |profiles| == |prepared| && forall p :: p in profiles ==> p.key != key
    ensures var now := PublishedUpTo(databases, profiles, prepared, n);
            (key in now <==> key in databases) && (key in databases ==> now[key] == databases[key])
    decreases n
  {
    if n > 0 {
      OthersUnpublished(databases, profiles, prepared, n - 1, key);
      assert profiles[n - 1] in profiles;
    }
  }

  lemma {:induction false} DraftsKeepFiles(files: Files, names: seq<string>, n: nat, existing: map<string, Entry>, source: Source, tools: DraftTools)
    requires n <= |names| && forall t :: t in names ==> t in RawTables(source)
    ensures files.Keys <= FilesAfter(files, names, n, existing, source, tools).Keys
    decreases n
  {
    hide WriteFor;
    if n > 0 {
      DraftsKeepFiles(files, names, n - 1, existing, source, tools);
    }
  }

  /** Copying the refreshed reviews over the old ones leaves exactly the refreshed ones. */
  lemma RefreshedReplace(before: Files, after: Files, results: seq<DraftResult>, source: Source, tools: DraftTools)
    requires RunsTo(before, after, results, source, tools)
    ensures before + after == after
  {
    hide FilesAfter, AllResults, Loads, IsIndex, WritesValid;
    var existing :| IsIndex(before, existing, tools) && WritesValid(Drafts.Names(source), existing, source, tools)
                    && after == FilesAfter(before, Drafts.Names(source), |Drafts.Names(source)|, existing, source, tools)
                    && results == AllResults(existing, source, tools);
    DraftsKeepFiles(before, Drafts.Names(source), |Drafts.Names(source)|, existing, source, tools);
  }

  lemma ScopeMeans(profile: Profile, schema: DatabaseSchema)
    requires InScope(profile, schema)
    ensures schema.name == profile.clickhouseDatabase && forall t :: t in schema.tables ==> t.name in profile.tables
  {
    forall t | t in schema.tables ensures t.name in profile.tables {
      assert HasKey(schema.tables, TableName, TableName(t));
      DictMembers(schema.tables, TableName, t.name);
    }
  }

  /** What staging established of the snapshot. */
  lemma StagedFacts(profile: Profile, committed: Database, snapshot: Option<Files>, tools: SyncTools)
    requires Stage(profile, committed, snapshot, tools).Ok?
    ensures var staged := Stage(profile, committed, snapshot, tools).value;
            snapshot == Some(staged.raw) && SchemaIn(staged.raw, tools) == Some(staged.schema) && InScope(profile, staged.schema)
  {
    hide SummaryOf, InScope, ChangedPaths, CommittedSchema;
  }

  /**
   * After publication a changed database's raw directory is the staged one, its reviews are the refreshed
   * ones, and its committed tables are within the profile's allowlist; an unchanged database and one without
   * a profile is as it was.
   */
  lemma CatalogAfter(databases: Databases, request: Request, tools: SyncTools, prepared: seq<Prepared>, i: nat)
    requires DistinctKeys(request.profiles, ProfileKey) && AllPrepared(prepared, databases, request, tools)
    requires i < |request.profiles|
    ensures var profile := request.profiles[i];
            var now := CommittedOf(profile, PublishedUpTo(databases, request.profiles, prepared, |prepared|));
            if prepared[i].staged.summary.HasChanges()
            then SnapshotOf(profile, request) == Some(now.raw) && now.review == prepared[i].review
                 && SchemaIn(now.raw, tools) == Some(prepared[i].staged.schema)
                 && prepared[i].staged.schema.name == profile.clickhouseDatabase
                 && (forall t :: t in prepared[i].staged.schema.tables ==> t.name in profile.tables)
            else now == CommittedOf(profile, databases)
  {
    hide PublishedUpTo, RunsTo, SummaryOf, InScope, Stage, SnapshotOf, SchemaIn, DistinctKeys;
    var profile := request.profiles[i];
    assert IsPrepared(prepared[i], profile, CommittedOf(profile, databases), request, tools);
    StagedFacts(profile, CommittedOf(profile, databases), SnapshotOf(profile, request), tools);
    ScopeMeans(profile, prepared[i].staged.schema);
    PublishedAt(databases, request.profiles, prepared, |prepared|, i);
    if prepared[i].staged.summary.HasChanges() {
      RefreshedReplace(CommittedOf(profile, databases).review, prepared[i].review, prepared[i].results,
                       SourceOf(profile, prepared[i].staged, request.contract.value), tools.drafts);
    }
  }

  /**
   * In a changed database every table of the new schema ends with a review, and every review keeps its human
   * content, exactly when no new draft's file name was taken.
   */
  lemma ReviewsCoveredExactly(databases: Databases, request: Request, tools: SyncTools, prepared: seq<Prepared>, i: nat)
    returns (existing: map<string, Entry>)
    requires DistinctKeys(request.profiles, ProfileKey) && AllPrepared(prepared, databases, request, tools)
    requires SoundTools(tools) && i < |request.profiles| && prepared[i].staged.summary.HasChanges()
    ensures request.contract.Some?
    ensures var profile := request.profiles[i];
            var before := CommittedOf(profile, databases).review;
            var now := CommittedOf(profile, PublishedUpTo(databases, request.profiles, prepared, |prepared|)).review;
            var source := SourceOf(profile, prepared[i].staged, request.contract.value);
            IsIndex(before, existing, tools.drafts)
            && (Covered(source, now, tools.drafts) && Kept(before, now, tools.drafts) <==> DraftsFree(before, existing, source))
  {
    hide PublishedUpTo, SummaryOf, InScope, FilesAfter, Covered, Kept, DraftsFree, AllResults, ParserValid, RoundTrips, WritesValid;
    hide IsIndex, Loads;
    var profile := request.profiles[i];
    CatalogAfter(databases, request, tools, prepared, i);
    assert IsPrepared(prepared[i], profile, CommittedOf(profile, databases), request, tools);
    var before, source := CommittedOf(profile, databases).review, SourceOf(profile, prepared[i].staged, request.contract.value);
    existing :| IsIndex(before, existing, tools.drafts) && WritesValid(Drafts.Names(source), existing, source, tools.drafts)
                && prepared[i].review == FilesAfter(before, Drafts.Names(source), |Drafts.Names(source)|, existing, source, tools.drafts)
                && prepared[i].results == AllResults(existing, source, tools.drafts);
    CoversAndKeepsExactly(before, existing, source, tools.drafts);
  }

  // ---- a rerun ----

  lemma NoSelfChange(schema: DatabaseSchema, key: Option<string>, repr: Repr)
    ensures !SummaryOf(schema, schema, key, repr).HasChanges()
  {
    hide SortedRelations, TableMap;
    assert Affected(schema, schema, repr) == {};
    NoChangesMeans(schema, schema, key, repr);
  }

  /** Staging a snapshot over its own bytes finds no drift. */
  lemma StagedAgain(profile: Profile, before: Database, now: Database, snapshot: Option<Files>, tools: SyncTools)
    requires Stage(profile, before, snapshot, tools).Ok? && now.raw == snapshot.value
    ensures var again := Stage(profile, now, snapshot, tools); again.Ok? && !again.value.summary.HasChanges()
  {
    hide SummaryOf, InScope, ChangedPaths;
    NoSelfChange(SchemaIn(snapshot.value, tools).value, Some(profile.key), tools.repr);
  }

  /** What a rerun with the same profiles and snapshots finds in the published catalog. */
  lemma RestagedQuiet(databases: Databases, request: Request, later: Request, tools: SyncTools, prepared: seq<Prepared>, i: nat)
    requires DistinctKeys(request.profiles, ProfileKey) && AllPrepared(prepared, databases, request, tools)
    requires later.profiles == request.profiles && later.snapshots == request.snapshots
    requires i < |request.profiles|
    ensures var profile, now := request.profiles[i], PublishedUpTo(databases, request.profiles, prepared, |prepared|);
            var again := Stage(profile, CommittedOf(profile, now), SnapshotOf(profile, later), tools);
            again.Ok? && !again.value.summary.HasChanges()
  {
    hide Stage, PublishedUpTo, RunsTo, SchemaIn, InScope, CommittedOf, SnapshotOf;
    var profile := request.profiles[i];
    CatalogAfter(databases, request, tools, prepared, i);
    assert IsPrepared(prepared[i], profile, CommittedOf(profile, databases), request, tools);
    SnapshotSame(profile, request, later);
    var now := CommittedOf(profile, PublishedUpTo(databases, request.profiles, prepared, |prepared|));
    if prepared[i].staged.summary.HasChanges() {
      StagedAgain(profile, CommittedOf(profile, databases), now, SnapshotOf(profile, request), tools);
    }
  }

  lemma SnapshotSame(profile: Profile, request: Request, later: Request)
    requires later.snapshots == request.snapshots
    ensures SnapshotOf(profile, later) == SnapshotOf(profile, request)
  {
  }

  function Quiet(profile: Profile, committed: Database, request: Request, tools: SyncTools): Prepared
    requires Stage(profile, committed, SnapshotOf(profile, request), tools).Ok?
  {
    Prepared(Stage(profile, committed, SnapshotOf(profile, request), tools).value, map[], [])
  }

  /** The rerun passes its preflight, whatever its contract. */
  lemma RerunPrepares(databases: Databases, request: Request, later: Request, tools: SyncTools, prepared: seq<Prepared>)
    requires DistinctKeys(request.profiles, ProfileKey) && AllPrepared(prepared, databases, request, tools)
    requires later.profiles == request.profiles && later.snapshots == request.snapshots
    ensures exists again ::
              AllPrepared(again, PublishedUpTo(databases, request.profiles, prepared, |prepared|), later, tools)
  {
    hide Stage, PublishedUpTo, SnapshotOf, CommittedOf, RunsTo;
    var now := PublishedUpTo(databases, request.profiles, prepared, |prepared|);
    var profiles := request.profiles;
    forall i | 0 <= i < |profiles|
      ensures Stage(profiles[i], CommittedOf(profiles[i], now), SnapshotOf(profiles[i], later), tools).Ok?
      ensures !Stage(profiles[i], CommittedOf(profiles[i], now), SnapshotOf(profiles[i], later), tools).value.summary.HasChanges()
    {
      RestagedQuiet(databases, request, later, tools, prepared, i);
    }
    var again := seq(|profiles|, i requires 0 <= i < |profiles|
                       && Stage(profiles[i], CommittedOf(profiles[i], now), SnapshotOf(profiles[i], later), tools).Ok? =>
                       Quiet(profiles[i], CommittedOf(profiles[i], now), later, tools));
    assert AllPrepared(again, now, later, tools);
  }

  lemma {:induction false} UnchangedPublishes(databases: Databases, profiles: seq<Profile>, prepared: seq<Prepared>, n: nat)
    requires n <= |profiles| == |prepared| && !AnyChanged(prepared)
    ensures PublishedUpTo(databases, profiles, prepared, n) == databases
    decreases n
  {
    if n > 0 {
      UnchangedPublishes(databases, profiles, prepared, n - 1);
      assert prepared[n - 1] in prepared;
    }
  }

  /**
   * Idempotence: a rerun on the same snapshots passes the preflight, finds no change, publishes nothing, and
   * reports a no-op.
   */
  lemma RerunIsNoop(databases: Databases, request: Request, later: Request, tools: SyncTools,
                    prepared: seq<Prepared>, again: seq<Prepared>)
    requires DistinctKeys(request.profiles, ProfileKey) && AllPrepared(prepared, databases, request, tools)
    requires later.profiles == request.profiles && later.snapshots == request.snapshots
    requires AllPrepared(again, PublishedUpTo(databases, request.profiles, prepared, |prepared|), later, tools)
    ensures !AnyChanged(again)
    ensures var now := PublishedUpTo(databases, request.profiles, prepared, |prepared|);
            PublishedUpTo(now, later.profiles, again, |again|) == now
    ensures RunReport(later.runId, later.profiles, again).outcome.Noop?
  {
    hide Stage, PublishedUpTo, SnapshotOf, CommittedOf, RunsTo;
    var now := PublishedUpTo(databases, request.profiles, prepared, |prepared|);
    forall p | p in again ensures !p.staged.summary.HasChanges() {
      var i :| 0 <= i < |again| && again[i] == p;
      assert IsPrepared(again[i], later.profiles[i], CommittedOf(later.profiles[i], now), later, tools);
      RestagedQuiet(databases, request, later, tools, prepared, i);
    }
    UnchangedPublishes(now, later.profiles, again, |again|);
  }

  // ---- when the report is accepted ----

  predicate IsKeyChar(c: char) {
    'a' <= c <= 'z' || '0' <= c <= '9' || c == '_'
  }

  /** The pattern of a profile key. */
  predicate IsProfileKey(key: string) {
    && key != "" && key[0] != '_'
    && forall i :: 0 <= i < |key| ==> IsKeyChar(key[i])
  }

  /** What discovery and the profile record guarantee of the profiles. */
  ghost predicate SoundProfiles(profiles: seq<Profile>) {
    StrictlySorted(ProfileKeys(profiles)) && forall p :: p in profiles ==> IsProfileKey(p.key) && p.clickhouseDatabase != ""
  }

  function ProfileKeys(profiles: seq<Profile>): (keys: seq<string>)
    ensures |keys| == |profiles| && forall i :: 0 <= i < |keys| ==> keys[i] == profiles[i].key
  {
    seq(|profiles|, i requires 0 <= i < |profiles| => profiles[i].key)
  }

  /** No two affected table names of one database are out of path order. */
  ghost predicate AffectedKeepOrder(prepared: Prepared, committed: Database, profile: Profile, tools: SyncTools) {
    var before := CommittedSchema(profile, committed.raw, tools);
    before.Some? && NamesKeepOrder(SortedSet(Affected(before.value, prepared.staged.schema, tools.repr)))
  }

  lemma ReportForExact(profile: Profile, committed: Database, request: Request, tools: SyncTools, prepared: Prepared)
    requires IsPrepared(prepared, profile, committed, request, tools)
    requires profile.key != "" && profile.clickhouseDatabase != ""
    ensures ReportFor(profile, prepared).Valid() <==> AffectedKeepOrder(prepared, committed, profile, tools)
    ensures ReportFor(profile, prepared).HasChanges() <==> prepared.staged.summary.HasChanges()
  {
    hide RunsTo, SummaryOf, InScope, SortedUnique, NamesKeepOrder, SortedSet, Affected;
    var before := CommittedSchema(profile, committed.raw, tools).value;
    var paths := if prepared.staged.summary.HasChanges() then prepared.staged.rawChangedPaths else [];
    assert SortedUnique(paths) by {
      EmptySortedUnique();
      SortedSetUniqueValues(set p | p in prepared.staged.raw.Keys + committed.raw.Keys
                              && Differs(prepared.staged.raw, committed.raw, p) :: RawPath(profile.key, p));
    }
    DatabaseReportExact(profile.key, profile.clickhouseDatabase, before, prepared.staged.schema, tools.repr, paths);
  }

  lemma ReportsAnyChange(profiles: seq<Profile>, prepared: seq<Prepared>)
    requires |profiles| == |prepared|
    ensures (exists d :: d in ReportsFor(profiles, prepared) && d.HasChanges()) <==> AnyChanged(prepared)
  {
    var reports := ReportsFor(profiles, prepared);
    if AnyChanged(prepared) {
      var p :| p in prepared && p.staged.summary.HasChanges();
      var i :| 0 <= i < |prepared| && prepared[i] == p;
      assert reports[i] in reports && reports[i].HasChanges();
    }
    if d :| d in reports && d.HasChanges() {
      var i :| 0 <= i < |reports| && reports[i] == d;
      assert prepared[i] in prepared;
    }
  }

  /** The names of one changed database's reviews and schema keep its cleanup entries apart. */
  ghost predicate CleanupSeparate(prepared: Prepared, committed: Database, tools: SyncTools) {
    prepared.staged.summary.HasChanges() ==>
      forall existing :: IsIndex(committed.review, existing, tools.drafts) ==>
        NamesSeparate(existing, TableMap(prepared.staged.schema.tables))
  }

  lemma CleanupSeparateExact(profile: Profile, committed: Database, request: Request, tools: SyncTools, prepared: Prepared)
    requires IsPrepared(prepared, profile, committed, request, tools) && prepared.staged.summary.HasChanges()
    ensures Distinct(ResultTexts(profile.key, prepared.results)) <==> CleanupSeparate(prepared, committed, tools)
  {
    hide RunsTo, Stage, SnapshotOf, NamesSeparate, Distinct, ResultTexts, IsIndex, TableMap;
    RunTextsExact(profile.key, committed.review, prepared.review, prepared.results,
                  SourceOf(profile, prepared.staged, request.contract.value), tools.drafts);
  }

  lemma KeysSound(profiles: seq<Profile>)
    requires SoundProfiles(profiles)
    ensures SoundKeys(profiles)
  {
    StrictlySortedDistinct(ProfileKeys(profiles));
    forall i, j | 0 <= i < j < |profiles| ensures ProfileKey(profiles[i]) != ProfileKey(profiles[j]) {
      assert ProfileKeys(profiles)[i] != ProfileKeys(profiles)[j];
    }
  }

  /** Over a run, cleanup texts repeat exactly when some changed database's names are not separate. */
  lemma CleanupExact(databases: Databases, request: Request, tools: SyncTools, prepared: seq<Prepared>)
    requires AllPrepared(prepared, databases, request, tools) && SoundProfiles(request.profiles)
    ensures Distinct(CleanupTexts(request.profiles, prepared)) <==>
              forall i :: 0 <= i < |prepared| ==>
                CleanupSeparate(prepared[i], CommittedOf(request.profiles[i], databases), tools)
  {
    hide IsPrepared, CommittedOf, Distinct, ResultTexts, SoundProfiles, CleanupTexts, SoundKeys;
    KeysSound(request.profiles);
    CleanupTextsExact(request.profiles, prepared);
    forall i | 0 <= i < |prepared| && prepared[i].staged.summary.HasChanges()
      ensures Distinct(ResultTexts(request.profiles[i].key, prepared[i].results)) <==>
                CleanupSeparate(prepared[i], CommittedOf(request.profiles[i], databases), tools)
    {
      CleanupSeparateExact(request.profiles[i], CommittedOf(request.profiles[i], databases), request, tools, prepared[i]);
    }
  }

  lemma {:induction false} NothingToClean(profiles: seq<Profile>, prepared: seq<Prepared>)
    requires |profiles| == |prepared| && !AnyChanged(prepared)
    ensures CleanupTexts(profiles, prepared) == []
    decreases |prepared|
  {
    if prepared != [] {
      var last := |prepared| - 1;
      assert prepared[last] in prepared;
      NothingToClean(profiles[..last], prepared[..last]);
    }
  }

  /**
   * The report is accepted exactly when, in every database, no affected table name overtakes another in path
   * order, and no listed table name continues another with the cleanup of one of its orphaned columns. The
   * catalog has been published by then.
   */
  lemma ReportAcceptedExactly(databases: Databases, request: Request, tools: SyncTools, prepared: seq<Prepared>)
    requires AllPrepared(prepared, databases, request, tools) && SoundProfiles(request.profiles) && request.runId != ""
    ensures RunReport(request.runId, request.profiles, prepared).Valid() <==>
              forall i :: 0 <= i < |prepared| ==>
                AffectedKeepOrder(prepared[i], CommittedOf(request.profiles[i], databases), request.profiles[i], tools)
                && CleanupSeparate(prepared[i], CommittedOf(request.profiles[i], databases), tools)
  {
    hide IsPrepared, AffectedKeepOrder, CleanupSeparate, CleanupTexts, SortedTexts, SortedUnique, Warnings, Distinct, AnyChanged;
    hide ReportFor, CommittedOf, StrictlySorted, IsProfileKey;
    var profiles := request.profiles;
    var report := RunReport(request.runId, profiles, prepared);
    assert Keys(report.databases) == ProfileKeys(profiles) by { KeysAre(profiles, prepared); }
    SortedUniqueExact(ProfileKeys(profiles));
    SortedTextsExact(CleanupTexts(profiles, prepared));
    EmptySortedUnique();
    ReportsAnyChange(profiles, prepared);
    PartsExact(databases, request, tools, prepared);
    CleanupExact(databases, request, tools, prepared);
    if !AnyChanged(prepared) {
      NothingToClean(profiles, prepared);
      NoTexts();
    }
    ConsistentExact(request.runId, profiles, prepared);
  }

  lemma NoTexts()
    ensures Distinct([])
  {
  }

  lemma KeysAre(profiles: seq<Profile>, prepared: seq<Prepared>)
    requires |profiles| == |prepared|
    ensures Keys(ReportsFor(profiles, prepared)) == ProfileKeys(profiles)
  {
  }

  lemma PartsExact(databases: Databases, request: Request, tools: SyncTools, prepared: seq<Prepared>)
    requires AllPrepared(prepared, databases, request, tools) && SoundProfiles(request.profiles)
    ensures (forall d :: d in ReportsFor(request.profiles, prepared) ==> d.Valid()) <==>
              (forall i :: 0 <= i < |prepared| ==>
                 AffectedKeepOrder(prepared[i], CommittedOf(request.profiles[i], databases), request.profiles[i], tools))
  {
    hide IsPrepared, AffectedKeepOrder, ReportFor, CommittedOf, StrictlySorted;
    var profiles, reports := request.profiles, ReportsFor(request.profiles, prepared);
    forall i | 0 <= i < |prepared|
      ensures reports[i].Valid() <==> AffectedKeepOrder(prepared[i], CommittedOf(profiles[i], databases), profiles[i], tools)
    {
      assert profiles[i] in profiles;
      ReportForExact(profiles[i], CommittedOf(profiles[i], databases), request, tools, prepared[i]);
    }
    assert forall i :: 0 <= i < |reports| ==> reports[i] in reports;
  }

  /** The outcome always agrees with the databases listed. */
  lemma ConsistentExact(runId: string, profiles: seq<Profile>, prepared: seq<Prepared>)
    requires |profiles| == |prepared|
    requires (exists d :: d in ReportsFor(profiles, prepared) && d.HasChanges()) <==> AnyChanged(prepared)
    requires SortedUnique(Keys(ReportsFor(profiles, prepared))) && SortedUnique([])
    ensures RunReport(runId, profiles, prepared).Consistent() <==>
              (AnyChanged(prepared) ==> SortedUnique(SortedTexts(CleanupTexts(profiles, prepared))))
  {
    hide CleanupTexts, SortedTexts, SortedUnique, Warnings, AnyChanged, ReportsFor;
  }

  // ---- word names make every report acceptable ----

  /** Word names everywhere: the tables of both schemas, and the tables the reviews declare. */
  ghost predicate WordTables(prepared: Prepared, committed: Database, profile: Profile, tools: SyncTools) {
    var before := CommittedSchema(profile, committed.raw, tools);
    && before.Some?
    && (forall t :: t in SchemaSummary.Names(before.value) + SchemaSummary.Names(prepared.staged.schema) ==> IsWord(t))
    && (forall p :: ReviewAt(committed.review, p, tools.drafts).Some? ==> IsWord(ReviewAt(committed.review, p, tools.drafts).value.table))
  }

  ghost predicate WordNames(databases: Databases, request: Request, tools: SyncTools, prepared: seq<Prepared>) {
    |prepared| == |request.profiles|
    && forall i :: 0 <= i < |prepared| ==>
         WordTables(prepared[i], CommittedOf(request.profiles[i], databases), request.profiles[i], tools)
  }

  lemma WordsKeepAffected(prepared: Prepared, committed: Database, profile: Profile, tools: SyncTools)
    requires WordTables(prepared, committed, profile, tools)
    ensures AffectedKeepOrder(prepared, committed, profile, tools)
  {
    hide SortedRelations, TableMap, SortedSet, IsWord, ReviewAt;
    var before := CommittedSchema(profile, committed.raw, tools).value;
    var affected := Affected(before, prepared.staged.schema, tools.repr);
    assert affected <= SchemaSummary.Names(before) + SchemaSummary.Names(prepared.staged.schema);
    SortedSetSorted(affected);
    WordNamesKeepOrder(SortedSet(affected));
  }

  lemma ExtendsWithColon(t: string, column: string, u: string, d: string)
    requires Extends(t, column, u, d)
    ensures |t| < |u| && u[|t|] == ':'
  {
  }

  /** A word continues no other name with a colon. */
  lemma WordNeverExtends(t: string, column: string, u: string, d: string)
    requires IsWord(u)
    ensures !Extends(t, column, u, d)
  {
    if Extends(t, column, u, d) {
      ExtendsWithColon(t, column, u, d);
    }
  }

  lemma WordsSeparate(prepared: Prepared, committed: Database, profile: Profile, tools: SyncTools)
    requires WordTables(prepared, committed, profile, tools)
    ensures CleanupSeparate(prepared, committed, tools)
  {
    hide IsWord, ReviewAt, Extends, OrphanColumn, TableMap;
    forall existing | IsIndex(committed.review, existing, tools.drafts)
      ensures NamesSeparate(existing, TableMap(prepared.staged.schema.tables))
    {
      forall t, column, u, d | OrphanColumn(existing, TableMap(prepared.staged.schema.tables), t, column)
                               && Asked(existing, TableMap(prepared.staged.schema.tables), u, d)
        ensures !Extends(t, column, u, d)
      {
        AskedExists(existing, TableMap(prepared.staged.schema.tables), u, d);
        WordNeverExtends(t, column, u, d);
      }
    }
  }

  lemma AskedExists(existing: map<string, Entry>, raw: map<string, TableSchema>, u: string, d: string)
    requires Asked(existing, raw, u, d)
    ensures u in existing
  {
  }

  /** Over word names every report a run builds passes all validators. */
  lemma WordReportsAccepted(databases: Databases, request: Request, tools: SyncTools, prepared: seq<Prepared>)
    requires AllPrepared(prepared, databases, request, tools) && SoundProfiles(request.profiles) && request.runId != ""
    requires WordNames(databases, request, tools, prepared)
    ensures RunReport(request.runId, request.profiles, prepared).Valid()
  {
    hide WordTables, AffectedKeepOrder, CleanupSeparate, AllPrepared, RunReport, CommittedOf, SoundProfiles;
    forall i | 0 <= i < |prepared|
      ensures AffectedKeepOrder(prepared[i], CommittedOf(request.profiles[i], databases), request.profiles[i], tools)
      ensures CleanupSeparate(prepared[i], CommittedOf(request.profiles[i], databases), tools)
    {
      WordsKeepAffected(prepared[i], CommittedOf(request.profiles[i], databases), request.profiles[i], tools);
      WordsSeparate(prepared[i], CommittedOf(request.profiles[i], databases), request.profiles[i], tools);
    }
    ReportAcceptedExactly(databases, request, tools, prepared);
  }
}
