/** The staged sync of many databases: every stage succeeds before the catalog changes. */
module ScheduledSync {
  import opened Wrappers
  import opened Ordering
  import opened Sorting
  import opened Models
  import opened SchemaSummary
  import opened Drafts
  import opened SyncReports

  datatype Profile = Profile(key: string, clickhouseDatabase: string, tables: seq<string>)

  /** The raw and review directories of one database: bytes by relative path. */
  datatype Database = Database(raw: Files, review: Files)

  type Databases = map<string, Database>

  /** `parse` answers `None` for text that is not a well-formed schema. */
  datatype SyncTools = SyncTools(parse: string -> Option<DatabaseSchema>, repr: Repr, drafts: DraftTools)

  datatype SyncError =
    | UnsafeRunId | MissingDsn | GenerationFailed | InvalidSchema | ScopeViolation | InvalidContract
    | DraftFailed(draft: DraftError) | PublicationFailed | ReportRejected

  /** An error of the preflight, before the catalog may change. */
  predicate Early(error: SyncError) {
    !error.PublicationFailed? && !error.ReportRejected?
  }

  /** `snapshots` is what the documenter leaves for each database, `None` where it fails. */
  datatype Request = Request(
    runId: string,
    profiles: seq<Profile>,
    dsns: set<string>,
    snapshots: map<string, Option<Files>>,
    contract: Option<ReviewContract>
  )

  function ProfileKey(p: Profile): string {
    p.key
  }

  predicate IsRunIdChar(c: char) {
    IsWordChar(c) || c == '.' || c == '-'
  }

  predicate SafeRunId(s: string) {
    && s != "" && IsWordChar(s[0]) && s[0] != '_'
    && forall i :: 0 <= i < |s| ==> IsRunIdChar(s[i])
  }

  const SCHEMA_FILE := "schema.json"

  function SchemaIn(raw: Files, tools: SyncTools): Option<DatabaseSchema> {
    if SCHEMA_FILE in raw then tools.parse(raw[SCHEMA_FILE]) else None
  }

  /** The committed schema, or an empty one where none is committed yet. */
  function CommittedSchema(profile: Profile, raw: Files, tools: SyncTools): Option<DatabaseSchema> {
    if SCHEMA_FILE in raw then tools.parse(raw[SCHEMA_FILE])
    else Some(DatabaseSchema(profile.clickhouseDatabase, "", [], []))
  }

  // ---- staging ----

  function RawPath(key: string, relative: string): string {
    "catalog/" + key + "/generated/raw/" + relative
  }

  predicate Differs(source: Files, destination: Files, path: string) {
    (path in source) != (path in destination) || (path in source && source[path] != destination[path])
  }

  /** The files that differ between two directories, as repository paths in order. */
  function ChangedPaths(key: string, source: Files, destination: Files): seq<string> {
    SortedSet(set p | p in source.Keys + destination.Keys && Differs(source, destination, p) :: RawPath(key, p))
  }

  datatype Staged = Staged(raw: Files, schema: DatabaseSchema, summary: Summary, rawChangedPaths: seq<string>)

  predicate InScope(profile: Profile, schema: DatabaseSchema) {
    schema.name == profile.clickhouseDatabase && forall t :: t in SchemaSummary.Names(schema) ==> t in profile.tables
  }

  function Stage(profile: Profile, committed: Database, snapshot: Option<Files>, tools: SyncTools): Result<Staged, SyncError> {
    if snapshot.None? then Err(GenerationFailed)
    else
      var raw := snapshot.value;
      var after := SchemaIn(raw, tools);
      if after.None? then Err(InvalidSchema)
      else if !InScope(profile, after.value) then Err(ScopeViolation)
      else
        var before := CommittedSchema(profile, committed.raw, tools);
        if before.None? then Err(InvalidSchema)
        else
          Ok(Staged(raw, after.value, SummaryOf(before.value, after.value, Some(profile.key), tools.repr),
                    ChangedPaths(profile.key, raw, committed.raw)))
  }

  function SchemaReference(key: string): string {
    RawPath(key, SCHEMA_FILE)
  }

  function SourceOf(profile: Profile, staged: Staged, contract: ReviewContract): Source {
    Source(staged.schema, contract, SchemaReference(profile.key))
  }

  datatype Prepared = Prepared(staged: Staged, review: Files, results: seq<DraftResult>)

  /** A database staged and, if its schema drifted, its drafts refreshed on a copy of its reviews. */
  ghost predicate IsPrepared(prepared: Prepared, profile: Profile, committed: Database, request: Request, tools: SyncTools) {
    && Stage(profile, committed, SnapshotOf(profile, request), tools) == Ok(prepared.staged)
    && (if prepared.staged.summary.HasChanges()
        then request.contract.Some?
             && RunsTo(committed.review, prepared.review, prepared.results,
                       SourceOf(profile, prepared.staged, request.contract.value), tools.drafts)
        else prepared.review == map[] && prepared.results == [])
  }

  function SnapshotOf(profile: Profile, request: Request): Option<Files> {
    if profile.key in request.snapshots then request.snapshots[profile.key] else None
  }

  function CommittedOf(profile: Profile, databases: Databases): Database {
    if profile.key in databases then databases[profile.key] else Database(map[], map[])
  }

  ghost predicate AllPrepared(prepared: seq<Prepared>, databases: Databases, request: Request, tools: SyncTools) {
    && |prepared| == |request.profiles|
    && forall i :: 0 <= i < |prepared| ==>
         IsPrepared(prepared[i], request.profiles[i], CommittedOf(request.profiles[i], databases), request, tools)
  }

  // ---- publication and report ----

  /** A mirrored raw directory and the refreshed reviews over the old ones. */
  function PublishedDatabase(committed: Database, prepared: Prepared): Database {
    if prepared.staged.summary.HasChanges() then Database(prepared.staged.raw, committed.review + prepared.review) else committed
  }

  /** The catalog after the first `n` databases. */
  function PublishedUpTo(databases: Databases, profiles: seq<Profile>, prepared: seq<Prepared>, n: nat): Databases
    requires n <= |profiles| == |prepared|
  {
    if n == 0 then databases
    else
      var before := PublishedUpTo(databases, profiles, prepared, n - 1);
      if prepared[n - 1].staged.summary.HasChanges()
      then before[profiles[n - 1].key := PublishedDatabase(CommittedOf(profiles[n - 1], before), prepared[n - 1])]
      else before
  }

  // ---- a publication that is cut off ----

  predicate SameFile(a: Files, b: Files, path: string) {
    (path in a <==> path in b) && (path in a && path in b ==> a[path] == b[path])
  }

  /** Each file is as in one directory or as in the other. */
  ghost predicate Between(before: Files, after: Files, files: Files) {
    forall p :: SameFile(files, before, p) || SameFile(files, after, p)
  }

  /** Part of the raw files published and no review, or all raw files and part of the reviews. */
  ghost predicate CutDatabase(committed: Database, prepared: Prepared, cut: Database) {
    || (Between(committed.raw, prepared.staged.raw, cut.raw) && cut.review == committed.review)
    || (cut.raw == prepared.staged.raw && Between(committed.review, committed.review + prepared.review, cut.review))
  }

  /** The first `n` databases are published, and part of the next one. */
  ghost predicate CutAt(databases: Databases, profiles: seq<Profile>, prepared: seq<Prepared>, n: nat, now: Databases)
    requires n < |profiles| == |prepared|
  {
    var before := PublishedUpTo(databases, profiles, prepared, n);
    && prepared[n].staged.summary.HasChanges()
    && profiles[n].key in now
    && CutDatabase(CommittedOf(profiles[n], before), prepared[n], now[profiles[n].key])
    && now == before[profiles[n].key := now[profiles[n].key]]
  }

  function ReportFor(profile: Profile, prepared: Prepared): DatabaseReport {
    DatabaseReportOf(profile.key, profile.clickhouseDatabase, prepared.staged.summary,
                     if prepared.staged.summary.HasChanges() then prepared.staged.rawChangedPaths else [])
  }

  function ReportsFor(profiles: seq<Profile>, prepared: seq<Prepared>): (reports: seq<DatabaseReport>)
    requires |profiles| == |prepared|
    ensures |reports| == |prepared| && forall i :: 0 <= i < |reports| ==> reports[i] == ReportFor(profiles[i], prepared[i])
  {
    seq(|prepared|, i requires 0 <= i < |prepared| => ReportFor(profiles[i], prepared[i]))
  }

  function CleanupText(key: string, table: string, code: string): string {
    key + "." + table + ":" + code
  }

  function CodeTexts(key: string, table: string, codes: seq<string>): (texts: seq<string>)
    ensures |texts| == |codes| && forall i :: 0 <= i < |texts| ==> texts[i] == CleanupText(key, table, codes[i])
  {
    seq(|codes|, i requires 0 <= i < |codes| => CleanupText(key, table, codes[i]))
  }

  /** What the results of one database ask a reviewer to clean up. */
  function ResultTexts(key: string, results: seq<DraftResult>): seq<string> {
    if results == [] then []
    else
      var last := results[|results| - 1];
      ResultTexts(key, results[..|results| - 1])
      + if last.action.RequiresManualReview? then CodeTexts(key, last.table, last.codes) else []
  }

  /** The cleanup of all changed databases. */
  function CleanupTexts(profiles: seq<Profile>, prepared: seq<Prepared>): seq<string>
    requires |profiles| == |prepared|
  {
    if prepared == [] then []
    else
      var last := |prepared| - 1;
      CleanupTexts(profiles[..last], prepared[..last])
      + if prepared[last].staged.summary.HasChanges() then ResultTexts(profiles[last].key, prepared[last].results) else []
  }

  function SortedTexts(texts: seq<string>): seq<string> {
    SortBy(texts, Itself, StrLess)
  }

  function WarningText(key: string): string {
    key + ": raw bytes changed outside the supported schema contract; catalog was left unchanged"
  }

  function Warnings(profiles: seq<Profile>, prepared: seq<Prepared>): seq<string>
    requires |profiles| == |prepared|
  {
    if prepared == [] then []
    else
      var last := |prepared| - 1;
      Warnings(profiles[..last], prepared[..last])
      + if prepared[last].staged.rawChangedPaths != [] && !prepared[last].staged.summary.HasChanges()
        then [WarningText(profiles[last].key)] else []
  }

  predicate AnyChanged(prepared: seq<Prepared>) {
    exists p :: p in prepared && p.staged.summary.HasChanges()
  }

  /** The report a run builds, before its own validators look at it. */
  function RunReport(runId: string, profiles: seq<Profile>, prepared: seq<Prepared>): Report
    requires |profiles| == |prepared|
  {
    var cleanup := if AnyChanged(prepared) then SortedTexts(CleanupTexts(profiles, prepared)) else [];
    Report(runId,
           if !AnyChanged(prepared) then Noop else if cleanup != [] then ManualCleanupRequired else Changed,
           ReportsFor(profiles, prepared),
           SortedTexts(Warnings(profiles, prepared)),
           cleanup)
  }

  const NO_PROFILES := "no enabled database profile opted in to scheduled sync"

  // ---- the run ----

  method StageDatabase(profile: Profile, committed: Database, request: Request, tools: SyncTools) returns (r: Result<Staged, SyncError>)
    ensures r == Stage(profile, committed, SnapshotOf(profile, request), tools)
  {
    hide SummaryOf, SchemaSummary.Names, SortedSet;
    var snapshot := SnapshotOf(profile, request);
    if snapshot.None? {
      return Err(GenerationFailed);
    }
    var after := SchemaIn(snapshot.value, tools);
    if after.None? {
      return Err(InvalidSchema);
    }
    if !InScope(profile, after.value) {
      return Err(ScopeViolation);
    }
    var before := CommittedSchema(profile, committed.raw, tools);
    if before.None? {
      return Err(InvalidSchema);
    }
    var summary := SummarizeSchemaChange(before.value, after.value, Some(profile.key), tools.repr);
    var paths := ListChangedPaths(profile.key, snapshot.value, committed.raw);
    return Ok(Staged(snapshot.value, after.value, summary, paths));
  }

  method ListChangedPaths(key: string, source: Files, destination: Files) returns (paths: seq<string>)
    ensures paths == ChangedPaths(key, source, destination)
  {
    hide SortedSet, RawPath;
    var changed: set<string> := {};
    var left := source.Keys;
    while left != {}
      invariant left <= source.Keys
      invariant changed == set p | p in source.Keys - left && Differs(source, destination, p) :: RawPath(key, p)
      decreases left
    {
      var p :| p in left;
      if p !in destination || source[p] != destination[p] {
        changed := changed + {RawPath(key, p)};
      }
      left := left - {p};
    }
    left := destination.Keys;
    while left != {}
      invariant left <= destination.Keys
      invariant changed == set p | p in source.Keys + (destination.Keys - left) && Differs(source, destination, p) :: RawPath(key, p)
      decreases left
    {
      var p :| p in left;
      if p !in source {
        changed := changed + {RawPath(key, p)};
      }
      left := left - {p};
    }
    assert source.Keys + (destination.Keys - left) == source.Keys + destination.Keys;
    assert changed == set p | p in source.Keys + destination.Keys && Differs(source, destination, p) :: RawPath(key, p);
    paths := SortedSet(changed);
  }

  method PrepareReview(profile: Profile, staged: Staged, committed: Database, request: Request, tools: SyncTools)
    returns (r: Result<Prepared, SyncError>)
    requires Stage(profile, committed, SnapshotOf(profile, request), tools) == Ok(staged)
    ensures r.Ok? ==> r.value.staged == staged && IsPrepared(r.value, profile, committed, request, tools)
    ensures r.Ok? <==> (staged.summary.HasChanges() ==>
              request.contract.Some? && CanRun(committed.review, SourceOf(profile, staged, request.contract.value), tools.drafts))
    ensures r.Err? ==> Early(r.error)
  {
    hide Stage, RunsTo, CanRun;
    if !staged.summary.HasChanges() {
      return Ok(Prepared(staged, map[], []));
    }
    if request.contract.None? {
      return Err(InvalidContract);
    }
    var copy := new ReviewDirectory(committed.review);
    var drafts := copy.CreateReviewDrafts(SourceOf(profile, staged, request.contract.value), tools.drafts);
    if drafts.Err? {
      return Err(DraftFailed(drafts.error));
    }
    return Ok(Prepared(staged, copy.files, drafts.value));
  }

  method StageAll(databases: Databases, request: Request, tools: SyncTools) returns (r: Result<seq<Staged>, SyncError>)
    ensures r.Ok? <==> forall p :: p in request.profiles ==> Stage(p, CommittedOf(p, databases), SnapshotOf(p, request), tools).Ok?
    ensures r.Ok? ==> |r.value| == |request.profiles| && forall i :: 0 <= i < |r.value| ==>
              Stage(request.profiles[i], CommittedOf(request.profiles[i], databases), SnapshotOf(request.profiles[i], request), tools)
              == Ok(r.value[i])
    ensures r.Err? ==> Early(r.error)
  {
    hide Stage, CommittedOf, SnapshotOf;
    var staged: seq<Staged> := [];
    for i := 0 to |request.profiles|
      invariant |staged| == i
      invariant forall k :: 0 <= k < i ==>
                  Stage(request.profiles[k], CommittedOf(request.profiles[k], databases), SnapshotOf(request.profiles[k], request), tools)
                  == Ok(staged[k])
    {
      var profile := request.profiles[i];
      assert profile in request.profiles;
      var one := StageDatabase(profile, CommittedOf(profile, databases), request, tools);
      if one.Err? {
        StageNeverRejects(profile, CommittedOf(profile, databases), SnapshotOf(profile, request), tools);
        return Err(one.error);
      }
      staged := staged + [one.value];
    }
    return Ok(staged);
  }

  lemma StageNeverRejects(profile: Profile, committed: Database, snapshot: Option<Files>, tools: SyncTools)
    ensures Stage(profile, committed, snapshot, tools).Err? ==> Early(Stage(profile, committed, snapshot, tools).error)
  {
  }

  /** Whether drafts can be refreshed for a staged database. */
  ghost predicate CanPrepare(profile: Profile, staged: Staged, committed: Database, request: Request, tools: SyncTools) {
    staged.summary.HasChanges() ==>
      request.contract.Some? && CanRun(committed.review, SourceOf(profile, staged, request.contract.value), tools.drafts)
  }

  method PrepareAll(staged: seq<Staged>, databases: Databases, request: Request, tools: SyncTools) returns (r: Result<seq<Prepared>, SyncError>)
    requires |staged| == |request.profiles|
    requires forall i :: 0 <= i < |staged| ==>
               Stage(request.profiles[i], CommittedOf(request.profiles[i], databases), SnapshotOf(request.profiles[i], request), tools)
               == Ok(staged[i])
    ensures r.Ok? <==> forall i :: 0 <= i < |staged| ==>
              CanPrepare(request.profiles[i], staged[i], CommittedOf(request.profiles[i], databases), request, tools)
    ensures r.Ok? ==> AllPrepared(r.value, databases, request, tools)
    ensures r.Err? ==> Early(r.error)
  {
    hide Stage, CommittedOf, SnapshotOf, IsPrepared, CanRun;
    var prepared: seq<Prepared> := [];
    for i := 0 to |staged|
      invariant |prepared| == i
      invariant forall k :: 0 <= k < i ==>
                  CanPrepare(request.profiles[k], staged[k], CommittedOf(request.profiles[k], databases), request, tools)
      invariant forall k :: 0 <= k < i ==>
                  IsPrepared(prepared[k], request.profiles[k], CommittedOf(request.profiles[k], databases), request, tools)
    {
      var one := PrepareReview(request.profiles[i], staged[i], CommittedOf(request.profiles[i], databases), request, tools);
      if one.Err? {
        return Err(one.error);
      }
      prepared := prepared + [one.value];
    }
    return Ok(prepared);
  }

  /** Everything that must succeed before the catalog may change. */
  ghost predicate Preflight(databases: Databases, request: Request, tools: SyncTools) {
    && (forall p :: p in request.profiles ==> p.key in request.dsns)
    && SafeRunId(request.runId)
    && exists prepared :: AllPrepared(prepared, databases, request, tools)
  }

  lemma PreparedStaged(prepared: seq<Prepared>, databases: Databases, request: Request, tools: SyncTools)
    requires AllPrepared(prepared, databases, request, tools)
    ensures forall p :: p in request.profiles ==> Stage(p, CommittedOf(p, databases), SnapshotOf(p, request), tools).Ok?
    ensures forall i :: 0 <= i < |prepared| ==>
              CanPrepare(request.profiles[i], prepared[i].staged, CommittedOf(request.profiles[i], databases), request, tools)
  {
    hide Stage, CommittedOf, SnapshotOf, Loads, IsIndex, WritesValid;
    forall i | 0 <= i < |prepared|
      ensures Stage(request.profiles[i], CommittedOf(request.profiles[i], databases), SnapshotOf(request.profiles[i], request), tools)
              == Ok(prepared[i].staged)
      ensures CanPrepare(request.profiles[i], prepared[i].staged, CommittedOf(request.profiles[i], databases), request, tools)
    {
      assert IsPrepared(prepared[i], request.profiles[i], CommittedOf(request.profiles[i], databases), request, tools);
    }
  }

  function Part(source: Files, names: seq<string>): Files {
    map p | p in names && p in source :: source[p]
  }

  lemma PartNext(destination: Files, source: Files, names: seq<string>, i: nat)
    requires i < |names| && names[i] in source
    ensures (destination + Part(source, names[..i]))[names[i] := source[names[i]]] == destination + Part(source, names[..i + 1])
  {
    assert names[..i + 1] == names[..i] + [names[i]];
    assert Part(source, names[..i + 1]) == Part(source, names[..i])[names[i] := source[names[i]]];
  }

  lemma PartEnds(destination: Files, source: Files, names: seq<string>)
    requires forall p :: p in source ==> p in names
    ensures destination + Part(source, names[..0]) == destination
    ensures Part(source, names[..|names|]) == source
  {
    assert names[..|names|] == names;
  }

  lemma PartBetween(before: Files, source: Files, names: seq<string>)
    ensures Between(before, before + source, before + Part(source, names))
  {
    forall p ensures SameFile(before + Part(source, names), if p in names then before + source else before, p) {}
  }

  lemma OverlayKeeps(before: Files, source: Files)
    ensures forall p :: p in before ==> p in before + source
    ensures forall files :: Between(before, before + source, files) ==> before.Keys <= files.Keys
  {
    forall files, p | Between(before, before + source, files) && p in before ensures p in files {
      assert SameFile(files, before, p) || SameFile(files, before + source, p);
    }
  }

  lemma OverlayBetween(before: Files, source: Files, files: Files)
    requires Between(before, before + source, files)
    ensures Between(before, source, files)
  {
    forall p ensures SameFile(files, before, p) || SameFile(files, source, p) {
      assert SameFile(files, before, p) || SameFile(files, before + source, p);
    }
  }

  lemma OrphansBetween(before: Files, source: Files, gone: set<string>)
    requires gone <= before.Keys - source.Keys
    ensures Between(before, source, before + source - gone)
    ensures forall p :: p in source ==> p in before + source - gone && (before + source - gone)[p] == source[p]
  {
    var files := before + source - gone;
    forall p ensures SameFile(files, before, p) || SameFile(files, source, p) {
      if p in source { assert SameFile(files, source, p); }
      else if p in gone { assert SameFile(files, source, p); }
      else { assert SameFile(files, before, p); }
    }
  }

  lemma MirrorEnds(before: Files, source: Files)
    ensures before + source - (before.Keys - source.Keys) == source
  {
  }

  /** A directory whose files are written and unlinked one by one. */
  class Directory {
    var files: Files

    constructor (initial: Files)
      ensures files == initial
    {
      files := initial;
    }

    method WriteAll(source: Files) returns (ok: bool)
      modifies this
      ensures ok ==> files == old(files) + source
      ensures Between(old(files), old(files) + source, files)
    {
      hide SortedSet, Part, Between;
      var names := SortedSet(source.Keys);
      PartEnds(files, source, names);
      for i := 0 to |names|
        invariant files == old(files) + Part(source, names[..i])
      {
        if * {
          PartBetween(old(files), source, names[..i]);
          return false;
        }
        assert names[i] in names;
        PartNext(old(files), source, names, i);
        files := files[names[i] := source[names[i]]];
      }
      PartBetween(old(files), source, names[..|names|]);
      return true;
    }

    /** `before` lists the files that were there before the staged ones were written. */
    method RemoveOrphans(before: set<string>, source: Files) returns (ok: bool)
      modifies this
      ensures ok ==> files == old(files) - (before - source.Keys)
      ensures exists gone: set<string> :: gone <= before - source.Keys && files == old(files) - gone
    {
      var left := before;
      while left != {}
        invariant left <= before
        invariant files == old(files) - ((before - left) - source.Keys)
        decreases left
      {
        if * {
          return false;
        }
        var p :| p in left;
        left := left - {p};
        if p !in source {
          files := files - {p};
        }
      }
      return true;
    }

    /**
     * With orphans removed the directory mirrors the staged one; otherwise nothing in it is lost. A failure
     * leaves every file as it was or as it should be, and none is unlinked before all staged ones are in.
     */
    method SyncDirectory(source: Files, removeOrphans: bool) returns (ok: bool)
      modifies this
      ensures ok ==> files == if removeOrphans then source else old(files) + source
      ensures Between(old(files), if removeOrphans then source else old(files) + source, files)
      ensures (exists p :: p in old(files) && p !in files) ==> forall p :: p in source ==> p in files && files[p] == source[p]
    {
      hide Between;
      var before := files;
      OverlayKeeps(before, source);
      ok := WriteAll(source);
      if removeOrphans {
        OverlayBetween(before, source, files);
        if ok {
          ok := RemoveOrphans(before.Keys, source);
          MirrorEnds(before, source);
          var gone: set<string> :| gone <= before.Keys - source.Keys && files == before + source - gone;
          OrphansBetween(before, source, gone);
        }
      }
    }
  }

  class CatalogTree {
    var databases: Databases

    constructor (initial: Databases)
      ensures databases == initial
    {
      databases := initial;
    }

    method PublishDatabase(profile: Profile, prepared: Prepared) returns (ok: bool)
      requires prepared.staged.summary.HasChanges()
      modifies this
      ensures profile.key in databases && databases == old(databases)[profile.key := databases[profile.key]]
      ensures CutDatabase(CommittedOf(profile, old(databases)), prepared, databases[profile.key])
      ensures ok ==> databases[profile.key] == PublishedDatabase(CommittedOf(profile, old(databases)), prepared)
    {
      hide Between;
      var committed := CommittedOf(profile, databases);
      var raw := new Directory(committed.raw);
      ok := raw.SyncDirectory(prepared.staged.raw, true);
      var review := new Directory(committed.review);
      if ok {
        ok := review.SyncDirectory(prepared.review, false);
      }
      databases := databases[profile.key := Database(raw.files, review.files)];
    }

    method PublishAll(profiles: seq<Profile>, prepared: seq<Prepared>) returns (ok: bool)
      requires |profiles| == |prepared|
      modifies this
      ensures ok ==> databases == PublishedUpTo(old(databases), profiles, prepared, |prepared|)
      ensures !ok ==> exists n :: 0 <= n < |prepared| && CutAt(old(databases), profiles, prepared, n, databases)
    {
      hide CutDatabase;
      for i := 0 to |prepared|
        invariant databases == PublishedUpTo(old(databases), profiles, prepared, i)
      {
        if prepared[i].staged.summary.HasChanges() {
          ok := PublishDatabase(profiles[i], prepared[i]);
          if !ok {
            assert CutAt(old(databases), profiles, prepared, i, databases);
            return;
          }
        }
      }
      return true;
    }

    /**
     * A failure before publication leaves the catalog as it was; it happens exactly when the preflight does
     * not hold. A failing write leaves a catalog cut off in one database. Otherwise every changed database is
     * published, even if the report is then refused.
     */
    method Synchronize(enabled: bool, request: Request, tools: SyncTools) returns (r: Result<Report, SyncError>)
      modifies this
      ensures r.Err? && Early(r.error) ==> databases == old(databases)
      ensures !enabled || request.profiles == [] ==> databases == old(databases)
      ensures enabled && request.profiles != [] ==>
                ((r.Ok? || !Early(r.error)) <==> Preflight(old(databases), request, tools))
      ensures enabled && request.profiles != [] && (r.Ok? || r.error.ReportRejected?) ==>
                exists prepared :: AllPrepared(prepared, old(databases), request, tools)
                  && databases == PublishedUpTo(old(databases), request.profiles, prepared, |prepared|)
                  && (r.Ok? <==> RunReport(request.runId, request.profiles, prepared).Valid())
                  && (r.Ok? ==> r.value == RunReport(request.runId, request.profiles, prepared))
      ensures r.Err? && r.error.PublicationFailed? ==>
                exists prepared, n :: AllPrepared(prepared, old(databases), request, tools)
                  && 0 <= n < |prepared| && CutAt(old(databases), request.profiles, prepared, n, databases)
    {
      hide AllPrepared, PublishedUpTo, RunReport, Stage, CanPrepare, CutAt;
      if !enabled {
        return Check(Report(request.runId, Disabled, [], [], []));
      }
      if request.profiles == [] {
        return Check(Report(request.runId, Noop, [], [NO_PROFILES], []));
      }
      for i := 0 to |request.profiles|
        invariant forall k :: 0 <= k < i ==> request.profiles[k].key in request.dsns
      {
        if request.profiles[i].key !in request.dsns {
          assert request.profiles[i] in request.profiles;
          return Err(MissingDsn);
        }
      }
      if !SafeRunId(request.runId) {
        return Err(UnsafeRunId);
      }
      forall p { CannotPrepare(p, databases, request, tools); }
      var staged := StageAll(databases, request, tools);
      if staged.Err? {
        return Err(staged.error);
      }
      forall p { CannotStage(p, staged.value, databases, request, tools); }
      var prepared := PrepareAll(staged.value, databases, request, tools);
      if prepared.Err? {
        return Err(prepared.error);
      }
      PreparedCount(prepared.value, databases, request, tools);
      var published := PublishAll(request.profiles, prepared.value);
      if !published {
        return Err(PublicationFailed);
      }
      r := Check(RunReport(request.runId, request.profiles, prepared.value));
    }
  }

  function Check(report: Report): Result<Report, SyncError> {
    if report.Valid() then Ok(report) else Err(ReportRejected)
  }

  lemma PreparedCount(prepared: seq<Prepared>, databases: Databases, request: Request, tools: SyncTools)
    requires AllPrepared(prepared, databases, request, tools)
    ensures |prepared| == |request.profiles|
  {
  }

  lemma CannotPrepare(prepared: seq<Prepared>, databases: Databases, request: Request, tools: SyncTools)
    ensures AllPrepared(prepared, databases, request, tools) ==>
              forall p :: p in request.profiles ==> Stage(p, CommittedOf(p, databases), SnapshotOf(p, request), tools).Ok?
  {
    if AllPrepared(prepared, databases, request, tools) {
      PreparedStaged(prepared, databases, request, tools);
    }
  }

  lemma CannotStage(prepared: seq<Prepared>, staged: seq<Staged>, databases: Databases, request: Request, tools: SyncTools)
    requires |staged| == |request.profiles|
    requires forall i :: 0 <= i < |staged| ==>
               Stage(request.profiles[i], CommittedOf(request.profiles[i], databases), SnapshotOf(request.profiles[i], request), tools)
               == Ok(staged[i])
    ensures AllPrepared(prepared, databases, request, tools) ==> forall i :: 0 <= i < |staged| ==>
              CanPrepare(request.profiles[i], staged[i], CommittedOf(request.profiles[i], databases), request, tools)
  {
    hide Stage, CommittedOf, SnapshotOf, CanPrepare, RunsTo;
    if AllPrepared(prepared, databases, request, tools) {
      PreparedStaged(prepared, databases, request, tools);
      forall i | 0 <= i < |staged| ensures prepared[i].staged == staged[i] {
        assert IsPrepared(prepared[i], request.profiles[i], CommittedOf(request.profiles[i], databases), request, tools);
      }
    }
  }
}