/** What the reports of a scheduled sync and of its pull request say about each database. */
module SyncFacts {
  import opened Wrappers
  import opened Ordering
  import opened Sorting
  import opened Models
  import opened TblsSchema
  import opened SchemaSummary
  import opened Drafts
  import opened SyncReports
  import opened ScheduledSync
  import opened SyncTheorems
  import opened CleanupEntries
  import opened CumulativeReports

  /** Which tables came, went and changed between two schemas, and one review path for each. */
  ghost predicate TellsDrift(report: DatabaseReport, before: DatabaseSchema, after: DatabaseSchema) {
    && (forall name :: name in report.added <==> IsAdded(before, after, name))
    && (forall name :: name in report.deleted <==> IsAdded(after, before, name))
    && (forall name :: name in report.modified <==> SchemaSummary.Changed(before, after, name))
    && |report.reviewPaths| == |report.added| + |report.modified| + |report.deleted|
    && OnePathEach(before, after, report.key, report.reviewPaths)
  }

  lemma DriftTold(key: string, clickhouse: string, before: DatabaseSchema, after: DatabaseSchema, repr: Repr, rawPaths: seq<string>)
    requires ParserValid(before) && ParserValid(after) && Injective(repr) && key != ""
    ensures TellsDrift(DatabaseReportOf(key, clickhouse, SummaryOf(before, after, Some(key), repr), rawPaths), before, after)
  {
    hide SummaryOf, ParserValid, OnePathEach, IsAdded, SchemaSummary.Changed, Injective, StrictlySorted;
    SummaryExact(before, after, Some(key), repr);
  }

  lemma EmptySchemaValid(name: string)
    ensures ParserValid(DatabaseSchema(name, "", [], []))
  {
  }

  lemma SchemasValid(profile: Profile, committed: Database, snapshot: Option<Files>, tools: SyncTools)
    requires SoundTools(tools) && Stage(profile, committed, snapshot, tools).Ok?
    ensures CommittedSchema(profile, committed.raw, tools).Some?
    ensures ParserValid(CommittedSchema(profile, committed.raw, tools).value)
    ensures ParserValid(Stage(profile, committed, snapshot, tools).value.schema)
    ensures Stage(profile, committed, snapshot, tools).value.summary
         == SummaryOf(CommittedSchema(profile, committed.raw, tools).value, Stage(profile, committed, snapshot, tools).value.schema,
                      Some(profile.key), tools.repr)
  {
    hide SummaryOf, InScope, ChangedPaths, ParserValid, RoundTrips;
    EmptySchemaValid(profile.clickhouseDatabase);
  }

  /** Some file of the snapshot is not as it is in the committed directory, or the other way round. */
  ghost predicate BytesChanged(committed: Database, staged: Staged) {
    exists p :: !SameFile(staged.raw, committed.raw, p)
  }

  lemma PathsExactly(key: string, source: Files, destination: Files, path: string)
    ensures path in ChangedPaths(key, source, destination) <==>
              exists p :: !SameFile(source, destination, p) && path == "catalog/" + key + "/generated/raw/" + p
  {
    hide SortedSet;
    var changed := set p | p in source.Keys + destination.Keys && Differs(source, destination, p) :: RawPath(key, p);
    if p :| !SameFile(source, destination, p) && path == "catalog/" + key + "/generated/raw/" + p {
      assert p in source.Keys + destination.Keys && Differs(source, destination, p) && RawPath(key, p) == path;
    }
  }

  lemma AnyPath(key: string, source: Files, destination: Files)
    ensures ChangedPaths(key, source, destination) != [] <==> exists p :: !SameFile(source, destination, p)
  {
    hide ChangedPaths;
    forall path { PathsExactly(key, source, destination, path); }
    if ChangedPaths(key, source, destination) != [] {
      assert ChangedPaths(key, source, destination)[0] in ChangedPaths(key, source, destination);
    }
    if p :| !SameFile(source, destination, p) {
      var path := "catalog/" + key + "/generated/raw/" + p;
      assert path in ChangedPaths(key, source, destination);
    }
  }

  /** The raw paths of a record: those of the files that differ, if there is any drift. */
  ghost predicate TellsPaths(report: DatabaseReport, staged: Staged, committed: Database) {
    if report.HasChanges()
    then forall path :: path in report.rawChangedPaths <==>
           exists p :: !SameFile(staged.raw, committed.raw, p) && path == "catalog/" + report.key + "/generated/raw/" + p
    else report.rawChangedPaths == []
  }

  lemma PathsTold(profile: Profile, prepared: Prepared, committed: Database)
    requires prepared.staged.rawChangedPaths == ChangedPaths(profile.key, prepared.staged.raw, committed.raw)
    ensures TellsPaths(ReportFor(profile, prepared), prepared.staged, committed)
  {
    forall path { PathsExactly(profile.key, prepared.staged.raw, committed.raw, path); }
    hide ChangedPaths;
  }

  /**
   * The record of one database tells the drift between its committed and its new schema, and, if there is
   * any, exactly which raw files differ.
   */
  lemma ReportTells(databases: Databases, request: Request, tools: SyncTools, prepared: seq<Prepared>, i: nat)
    requires AllPrepared(prepared, databases, request, tools) && SoundTools(tools) && Injective(tools.repr) && i < |prepared|
    requires SoundProfiles(request.profiles)
    ensures var profile, report := request.profiles[i], RunReport(request.runId, request.profiles, prepared).databases[i];
            var committed := CommittedOf(profile, databases);
            && CommittedSchema(profile, committed.raw, tools).Some?
            && report.key == profile.key && report.clickhouseDatabase == profile.clickhouseDatabase
            && TellsDrift(report, CommittedSchema(profile, committed.raw, tools).value, prepared[i].staged.schema)
            && TellsPaths(report, prepared[i].staged, committed)
  {
    var profile := request.profiles[i];
    var committed := CommittedOf(profile, databases);
    hide TellsDrift, TellsPaths, CommittedSchema, SoundTools, RunsTo, SummaryOf, ParserValid, Injective, Stage;
    assert IsPrepared(prepared[i], profile, committed, request, tools);
    SchemasValid(profile, committed, SnapshotOf(profile, request), tools);
    PreparedPaths(prepared[i], profile, committed, request, tools);
    assert profile in request.profiles && profile.key != "";
    hide IsPrepared, SoundProfiles, ChangedPaths, CleanupTexts, Warnings, SortedTexts;
    DriftTold(profile.key, profile.clickhouseDatabase, CommittedSchema(profile, committed.raw, tools).value,
              prepared[i].staged.schema, tools.repr, ReportFor(profile, prepared[i]).rawChangedPaths);
    PathsTold(profile, prepared[i], committed);
  }

  lemma StagedPaths(profile: Profile, committed: Database, snapshot: Option<Files>, tools: SyncTools)
    requires Stage(profile, committed, snapshot, tools).Ok?
    ensures var staged := Stage(profile, committed, snapshot, tools).value;
            staged.rawChangedPaths == ChangedPaths(profile.key, staged.raw, committed.raw)
  {
    hide SummaryOf, InScope, ChangedPaths, CommittedSchema;
  }

  // ---- warnings and outcome ----

  /** The database's bytes changed, its schema did not. */
  ghost predicate ChangedOutside(committed: Database, prepared: Prepared) {
    BytesChanged(committed, prepared.staged) && !prepared.staged.summary.HasChanges()
  }

  lemma {:induction false} WarningsHold(profiles: seq<Profile>, prepared: seq<Prepared>, text: string)
    requires |profiles| == |prepared|
    ensures text in Warnings(profiles, prepared) <==>
              exists i :: 0 <= i < |prepared| && prepared[i].staged.rawChangedPaths != [] && !prepared[i].staged.summary.HasChanges()
                && text == WarningText(profiles[i].key)
    decreases |prepared|
  {
    if prepared != [] {
      var last := |prepared| - 1;
      WarningsHold(profiles[..last], prepared[..last], text);
      hide WarningText;
      assert forall i :: 0 <= i < last ==> prepared[..last][i] == prepared[i] && profiles[..last][i] == profiles[i];
    }
  }

  /**
   * A run warns of exactly the databases whose raw bytes changed without a change of schema, and its outcome
   * says whether anything changed and whether something is to be cleaned up.
   */
  lemma WarningsExactly(databases: Databases, request: Request, tools: SyncTools, prepared: seq<Prepared>, text: string)
    requires AllPrepared(prepared, databases, request, tools)
    ensures text in RunReport(request.runId, request.profiles, prepared).warnings <==>
              exists i :: 0 <= i < |prepared| && ChangedOutside(CommittedOf(request.profiles[i], databases), prepared[i])
                && text == request.profiles[i].key + ": raw bytes changed outside the supported schema contract; catalog was left unchanged"
  {
    hide CommittedOf, IsPrepared, Stage;
    WarningsHold(request.profiles, prepared, text);
    SortMembers(Warnings(request.profiles, prepared), Itself, StrLess);
    forall i | 0 <= i < |prepared|
      ensures prepared[i].staged.rawChangedPaths != [] <==> BytesChanged(CommittedOf(request.profiles[i], databases), prepared[i].staged)
    {
      PreparedPaths(prepared[i], request.profiles[i], CommittedOf(request.profiles[i], databases), request, tools);
      AnyPath(request.profiles[i].key, prepared[i].staged.raw, CommittedOf(request.profiles[i], databases).raw);
    }
    hide Warnings, BytesChanged, CleanupTexts;
  }

  lemma PreparedPaths(prepared: Prepared, profile: Profile, committed: Database, request: Request, tools: SyncTools)
    requires IsPrepared(prepared, profile, committed, request, tools)
    ensures prepared.staged.rawChangedPaths == ChangedPaths(profile.key, prepared.staged.raw, committed.raw)
  {
    StagedPaths(profile, committed, SnapshotOf(profile, request), tools);
    hide Stage, RunsTo;
  }

  /** The outcome of a run: nothing to do, changed, or changed with something left for a reviewer to clean up. */
  lemma OutcomeTells(runId: string, profiles: seq<Profile>, prepared: seq<Prepared>)
    requires |profiles| == |prepared|
    ensures var report := RunReport(runId, profiles, prepared);
            && report.runId == runId
            && (report.outcome == Noop <==> forall i :: 0 <= i < |prepared| ==> !prepared[i].staged.summary.HasChanges())
            && (report.outcome == ManualCleanupRequired <==> report.manualCleanup != [])
            && report.outcome != Disabled
  {
    hide Warnings, CleanupTexts, SortedTexts;
  }

  // ---- what is left to clean up ----

  lemma {:induction false} ResultTextsHold(key: string, results: seq<DraftResult>, text: string)
    ensures text in ResultTexts(key, results) <==> exists t, code :: CleanupEntries.Listed(results, t, code) && text == key + "." + t + ":" + code
    decreases |results|
  {
    if results != [] {
      var init, last := results[..|results| - 1], results[|results| - 1];
      assert results == init + [last];
      ResultTextsHold(key, init, text);
      LastTexts(key, init, last, text);
    }
  }

  lemma LastTexts(key: string, init: seq<DraftResult>, last: DraftResult, text: string)
    ensures (exists t, code :: CleanupEntries.Listed(init + [last], t, code) && text == key + "." + t + ":" + code) <==>
              (exists t, code :: CleanupEntries.Listed(init, t, code) && text == key + "." + t + ":" + code)
              || (last.action.RequiresManualReview? && text in CodeTexts(key, last.table, last.codes))
  {
    if t, code :| CleanupEntries.Listed(init + [last], t, code) && text == key + "." + t + ":" + code {
      var r :| r in init + [last] && r.action.RequiresManualReview? && r.table == t && code in r.codes;
      if r in init {
        assert CleanupEntries.Listed(init, t, code);
      } else {
        var i :| 0 <= i < |last.codes| && last.codes[i] == code;
        assert CodeTexts(key, last.table, last.codes)[i] == text;
      }
    }
    if t, code :| CleanupEntries.Listed(init, t, code) && text == key + "." + t + ":" + code {
      assert CleanupEntries.Listed(init + [last], t, code);
    }
    if last.action.RequiresManualReview? && text in CodeTexts(key, last.table, last.codes) {
      var i :| 0 <= i < |last.codes| && CodeTexts(key, last.table, last.codes)[i] == text;
      assert last in init + [last] && CleanupEntries.Listed(init + [last], last.table, last.codes[i]);
    }
  }

  lemma {:induction false} CleanupTextsHold(profiles: seq<Profile>, prepared: seq<Prepared>, text: string)
    requires |profiles| == |prepared|
    ensures text in CleanupTexts(profiles, prepared) <==>
              exists i :: 0 <= i < |prepared| && prepared[i].staged.summary.HasChanges()
                && text in ResultTexts(profiles[i].key, prepared[i].results)
    decreases |prepared|
  {
    if prepared != [] {
      var last := |prepared| - 1;
      CleanupTextsHold(profiles[..last], prepared[..last], text);
      hide ResultTexts;
      assert forall i :: 0 <= i < last ==> prepared[..last][i] == prepared[i] && profiles[..last][i] == profiles[i];
    }
  }

  /** The text asks for the cleanup of an orphaned column or table among these reviews. */
  ghost predicate AsksCleanup(text: string, key: string, committed: Database, prepared: Prepared, tools: SyncTools) {
    prepared.staged.summary.HasChanges() && exists existing, t, code ::
      IsIndex(committed.review, existing, tools.drafts) && Asked(existing, TableMap(prepared.staged.schema.tables), t, code)
      && text == key + "." + t + ":" + code
  }

  lemma ResultsAsk(profile: Profile, committed: Database, request: Request, tools: SyncTools, prepared: Prepared, text: string)
    requires IsPrepared(prepared, profile, committed, request, tools) && prepared.staged.summary.HasChanges()
    ensures text in ResultTexts(profile.key, prepared.results) <==> AsksCleanup(text, profile.key, committed, prepared, tools)
  {
    ResultTextsHold(profile.key, prepared.results, text);
    hide Stage, FilesAfter, AllResults, Loads, IsIndex, WritesValid, Asked, CleanupEntries.Listed, ResultTexts;
    var source := SourceOf(profile, prepared.staged, request.contract.value);
    var index :| IsIndex(committed.review, index, tools.drafts) && WritesValid(Drafts.Names(source), index, source, tools.drafts)
                 && prepared.review == FilesAfter(committed.review, Drafts.Names(source), |Drafts.Names(source)|, index, source, tools.drafts)
                 && prepared.results == AllResults(index, source, tools.drafts);
    forall t, c { RunListed(index, source, tools.drafts, t, c); }
    forall other | IsIndex(committed.review, other, tools.drafts) ensures other == index {
      IndexUnique(committed.review, other, index, tools.drafts);
    }
  }

  /** A report asks for exactly the cleanup of what the changed databases' reviews have and their schemas do not. */
  lemma CleanupTold(databases: Databases, request: Request, tools: SyncTools, prepared: seq<Prepared>, text: string)
    requires AllPrepared(prepared, databases, request, tools)
    ensures text in RunReport(request.runId, request.profiles, prepared).manualCleanup <==>
              exists i :: 0 <= i < |prepared|
                && AsksCleanup(text, request.profiles[i].key, CommittedOf(request.profiles[i], databases), prepared[i], tools)
  {
    var profiles := request.profiles;
    CleanupTextsHold(profiles, prepared, text);
    SortMembers(CleanupTexts(profiles, prepared), Itself, StrLess);
    forall i | 0 <= i < |prepared| && prepared[i].staged.summary.HasChanges()
      ensures prepared[i] in prepared
      ensures text in ResultTexts(profiles[i].key, prepared[i].results) <==>
                AsksCleanup(text, profiles[i].key, CommittedOf(profiles[i], databases), prepared[i], tools)
    {
      assert IsPrepared(prepared[i], profiles[i], CommittedOf(profiles[i], databases), request, tools);
      ResultsAsk(profiles[i], CommittedOf(profiles[i], databases), request, tools, prepared[i], text);
    }
    Quieted(prepared);
    hide IsPrepared, CommittedOf, ResultTexts, CleanupTexts, Warnings;
    forall i | 0 <= i < |prepared| && !prepared[i].staged.summary.HasChanges()
      ensures !AsksCleanup(text, profiles[i].key, CommittedOf(profiles[i], databases), prepared[i], tools)
    {
    }
    hide AsksCleanup;
  }

  lemma Quieted(prepared: seq<Prepared>)
    ensures AnyChanged(prepared) <==> exists i :: 0 <= i < |prepared| && prepared[i].staged.summary.HasChanges()
  {
  }

  // ---- what drafts refer to ----

  /** The drafts of a database are made of the staged schema and refer to the file it is published to. */
  lemma SourceTells(profile: Profile, staged: Staged, contract: ReviewContract)
    ensures var source := SourceOf(profile, staged, contract);
            && source.schema == staged.schema && source.contract == contract
            && source.reference == "catalog/" + profile.key + "/generated/raw/schema.json"
  {
    assert "/generated/raw/" + "schema.json" == "/generated/raw/schema.json";
  }

  // ---- run ids ----

  /** A safe run id is one path segment: it is not empty, names no directory above, and has no separator. */
  lemma SafeRunIdStays(id: string)
    requires SafeRunId(id)
    ensures id != "" && '/' !in id && '\\' !in id && id[0] != '.' && id[0] != '-' && id[0] != '_'
  {
  }

  // ---- the cumulative report ----

  /**
   * Each record of a cumulative report tells the drift from the main branch to the working tree, with exactly
   * the changed raw paths of its own database; run, warnings and cleanup are the latest ones.
   */
  lemma CumulativeTells(latest: Report, baseline: map<string, DatabaseSchema>, current: map<string, DatabaseSchema>,
                        paths: seq<string>, repr: Repr, i: nat)
    requires forall d :: d in latest.databases ==> d.key in baseline && d.key in current
    requires Injective(repr) && i < |latest.databases| && latest.databases[i].key != ""
    requires ParserValid(baseline[latest.databases[i].key]) && ParserValid(current[latest.databases[i].key])
    ensures var report := Cumulative(latest, baseline, current, paths, repr);
            var d := latest.databases[i];
            && report.runId == latest.runId && report.warnings == latest.warnings && report.manualCleanup == latest.manualCleanup
            && (report.outcome == ManualCleanupRequired <==> latest.manualCleanup != [])
            && |report.databases| == |latest.databases|
            && report.databases[i].key == d.key && report.databases[i].clickhouseDatabase == d.clickhouseDatabase
            && TellsDrift(report.databases[i], baseline[d.key], current[d.key])
            && forall path :: path in report.databases[i].rawChangedPaths <==>
                 path in paths && "catalog/" + d.key + "/generated/raw/" <= path
  {
    var d := latest.databases[i];
    assert d in latest.databases;
    hide SummaryOf, ParserValid, TellsDrift, Injective, WithPrefix, SortedSet;
    var prefix := "catalog/" + d.key + "/generated/raw/";
    var raw := WithPrefix(SortedSet(Elements(paths)), prefix);
    DriftTold(d.key, d.clickhouseDatabase, baseline[d.key], current[d.key], repr, raw);
    forall path { PrefixExactly(SortedSet(Elements(paths)), prefix, path); }
  }

  lemma {:induction false} PrefixExactly(paths: seq<string>, prefix: string, path: string)
    ensures path in WithPrefix(paths, prefix) <==> path in paths && prefix <= path
    decreases |paths|
  {
    if paths != [] {
      var init, last := paths[..|paths| - 1], paths[|paths| - 1];
      assert paths == init + [last];
      PrefixExactly(init, prefix, path);
    }
  }
}
