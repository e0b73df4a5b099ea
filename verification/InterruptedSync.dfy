/** A scheduled sync cut off while it publishes: what a rerun on the same snapshots makes of it. */
module InterruptedSync {
  import opened Wrappers
  import opened Sorting
  import opened SchemaSummary
  import opened Drafts
  import opened SyncReports
  import opened ScheduledSync
  import opened SyncTheorems

  /** The committed schema file has not been replaced yet. */
  ghost predicate SchemaPending(committed: Database, cut: Database) {
    SameFile(cut.raw, committed.raw, SCHEMA_FILE)
  }

  ghost predicate SameInputs(request: Request, later: Request) {
    later.profiles == request.profiles && later.snapshots == request.snapshots && later.contract == request.contract
  }

  // ---- staging a snapshot over a cut-off database ----

  /** Staging sees of the committed files only the schema file, but for the list of changed paths. */
  lemma StagedAlike(profile: Profile, before: Database, now: Database, snapshot: Option<Files>, tools: SyncTools)
    requires SameFile(now.raw, before.raw, SCHEMA_FILE) && Stage(profile, before, snapshot, tools).Ok?
    ensures var s, again := Stage(profile, before, snapshot, tools).value, Stage(profile, now, snapshot, tools);
            again.Ok? && again.value.raw == s.raw && again.value.schema == s.schema && again.value.summary == s.summary
  {
    hide SummaryOf, InScope, ChangedPaths;
  }

  /** Once the schema file is the staged one, staging finds no drift, whatever the other files are. */
  lemma StagedQuiet(profile: Profile, before: Database, now: Database, snapshot: Option<Files>, tools: SyncTools)
    requires Stage(profile, before, snapshot, tools).Ok? && SameFile(now.raw, snapshot.value, SCHEMA_FILE)
    ensures var again := Stage(profile, now, snapshot, tools); again.Ok? && !again.value.summary.HasChanges()
  {
    hide SummaryOf, InScope, ChangedPaths;
    NoSelfChange(SchemaIn(snapshot.value, tools).value, Some(profile.key), tools.repr);
  }

  /** Drift means another schema file. */
  lemma DriftReplacesSchema(profile: Profile, committed: Database, snapshot: Option<Files>, tools: SyncTools)
    requires Stage(profile, committed, snapshot, tools).Ok?
    requires Stage(profile, committed, snapshot, tools).value.summary.HasChanges()
    ensures !SameFile(snapshot.value, committed.raw, SCHEMA_FILE)
  {
    hide Stage;
    StagedFacts(profile, committed, snapshot, tools);
    if SameFile(snapshot.value, committed.raw, SCHEMA_FILE) {
      StagedQuiet(profile, committed, committed, snapshot, tools);
    }
  }

  /** A draft run is determined by its files and sources. */
  lemma RunsToUnique(before: Files, a: Files, b: Files, x: seq<DraftResult>, y: seq<DraftResult>, source: Source, tools: DraftTools)
    requires RunsTo(before, a, x, source, tools) && RunsTo(before, b, y, source, tools)
    ensures a == b && x == y
  {
    hide FilesAfter, AllResults, Loads, IsIndex, WritesValid;
    forall e, f | IsIndex(before, e, tools) && IsIndex(before, f, tools) ensures e == f {
      IndexUnique(before, e, f, tools);
    }
  }

  // ---- one database ----

  /** With the schema file pending the rerun prepares the same reviews and publishes the same database. */
  lemma PendingCompletes(profile: Profile, committed: Database, prepared: Prepared, cut: Database, request: Request, later: Request,
                         tools: SyncTools, again: Prepared)
    requires IsPrepared(prepared, profile, committed, request, tools) && SameInputs(request, later)
    requires SchemaPending(committed, cut) && cut.review == committed.review
    requires prepared.staged.summary.HasChanges() || cut == committed
    requires IsPrepared(again, profile, cut, later, tools)
    ensures again.review == prepared.review && again.staged.summary == prepared.staged.summary
    ensures PublishedDatabase(cut, again) == PublishedDatabase(committed, prepared)
  {
    hide Stage, RunsTo;
    StagedAlike(profile, committed, cut, SnapshotOf(profile, request), tools);
    if prepared.staged.summary.HasChanges() {
      RunsToUnique(committed.review, prepared.review, again.review, prepared.results, again.results,
                   SourceOf(profile, prepared.staged, request.contract.value), tools.drafts);
    }
  }

  /** A state of the schema file that is not pending is the staged one. */
  lemma PendingOrStaged(committed: Database, prepared: Prepared, cut: Database)
    requires CutDatabase(committed, prepared, cut)
    ensures SchemaPending(committed, cut) || SameFile(cut.raw, prepared.staged.raw, SCHEMA_FILE)
  {
  }

  /**
   * A rerun brings a cut-off database to where the interrupted run would have left it exactly when the schema
   * file had not been replaced yet, or nothing was left to do; in every other case it leaves it as it is.
   */
  lemma InterruptedDatabase(profile: Profile, committed: Database, prepared: Prepared, cut: Database, request: Request, later: Request,
                            tools: SyncTools, again: Prepared)
    requires IsPrepared(prepared, profile, committed, request, tools) && SameInputs(request, later)
    requires prepared.staged.summary.HasChanges() && CutDatabase(committed, prepared, cut)
    requires IsPrepared(again, profile, cut, later, tools)
    ensures PublishedDatabase(cut, again) == PublishedDatabase(committed, prepared) <==>
              SchemaPending(committed, cut) || cut == PublishedDatabase(committed, prepared)
    ensures !SchemaPending(committed, cut) ==> !again.staged.summary.HasChanges() && PublishedDatabase(cut, again) == cut
  {
    hide Stage, RunsTo, Between;
    var snapshot := SnapshotOf(profile, request);
    StagedFacts(profile, committed, snapshot, tools);
    DriftReplacesSchema(profile, committed, snapshot, tools);
    PendingOrStaged(committed, prepared, cut);
    if SchemaPending(committed, cut) {
      assert cut.raw != prepared.staged.raw;
      PendingCompletes(profile, committed, prepared, cut, request, later, tools, again);
    } else {
      StagedQuiet(profile, committed, cut, snapshot, tools);
    }
  }

  /** The rerun of a cut-off database passes its preflight. */
  lemma InterruptedPrepares(profile: Profile, committed: Database, prepared: Prepared, cut: Database, request: Request, later: Request,
                            tools: SyncTools) returns (again: Prepared)
    requires IsPrepared(prepared, profile, committed, request, tools) && SameInputs(request, later)
    requires prepared.staged.summary.HasChanges() && CutDatabase(committed, prepared, cut)
    ensures IsPrepared(again, profile, cut, later, tools)
  {
    hide Stage, RunsTo, Between;
    var snapshot := SnapshotOf(profile, request);
    StagedFacts(profile, committed, snapshot, tools);
    DriftReplacesSchema(profile, committed, snapshot, tools);
    PendingOrStaged(committed, prepared, cut);
    if SchemaPending(committed, cut) {
      StagedAlike(profile, committed, cut, snapshot, tools);
      again := Prepared(Stage(profile, cut, snapshot, tools).value, prepared.review, prepared.results);
    } else {
      StagedQuiet(profile, committed, cut, snapshot, tools);
      again := Prepared(Stage(profile, cut, snapshot, tools).value, map[], []);
    }
  }

  // ---- the whole catalog ----

  /** Where a cut-off catalog stands: the databases before the cut are published, those after it as they were. */
  lemma CutStands(databases: Databases, request: Request, tools: SyncTools, prepared: seq<Prepared>, n: nat, now: Databases, i: nat)
    requires DistinctKeys(request.profiles, ProfileKey) && |prepared| == |request.profiles|
    requires n < |prepared| && i < |prepared| && CutAt(databases, request.profiles, prepared, n, now)
    ensures var key, committed := request.profiles[i].key, CommittedOf(request.profiles[i], databases);
            if i == n then key in now && CutDatabase(committed, prepared[n], now[key])
            else if i < n && prepared[i].staged.summary.HasChanges() then key in now && now[key] == PublishedDatabase(committed, prepared[i])
            else (key in now <==> key in databases) && (key in databases ==> now[key] == databases[key])
  {
    hide PublishedUpTo, CutDatabase, PublishedDatabase;
    PublishedAt(databases, request.profiles, prepared, n, i);
    PublishedAt(databases, request.profiles, prepared, n, n);
    if i != n {
      assert ProfileKey(request.profiles[i]) != ProfileKey(request.profiles[n]) by {
        if i < n { assert ProfileKey(request.profiles[i]) != ProfileKey(request.profiles[n]); }
        if n < i { assert ProfileKey(request.profiles[n]) != ProfileKey(request.profiles[i]); }
      }
    }
  }

  /** What the rerun prepares for a database that is not cut: nothing if it was published, else the same as before. */
  lemma OtherPrepared(profile: Profile, committed: Database, prepared: Prepared, now: Database, request: Request, later: Request,
                      tools: SyncTools, again: Prepared)
    requires IsPrepared(prepared, profile, committed, request, tools) && SameInputs(request, later)
    requires now == committed || (prepared.staged.summary.HasChanges() && now == PublishedDatabase(committed, prepared))
    requires IsPrepared(again, profile, now, later, tools)
    ensures PublishedDatabase(now, again) == PublishedDatabase(committed, prepared)
    ensures now == committed ==> again.staged.summary == prepared.staged.summary
    ensures now != committed ==> !again.staged.summary.HasChanges()
  {
    hide Stage, RunsTo;
    if now == committed {
      PendingCompletes(profile, committed, prepared, now, request, later, tools, again);
    } else {
      StagedFacts(profile, committed, SnapshotOf(profile, request), tools);
      StagedQuiet(profile, committed, now, SnapshotOf(profile, request), tools);
    }
  }

  /** The databases that are not cut end as the uninterrupted run leaves them. */
  lemma OtherCompletes(databases: Databases, request: Request, later: Request, tools: SyncTools, prepared: seq<Prepared>,
                       n: nat, now: Databases, again: seq<Prepared>, i: nat)
    requires DistinctKeys(request.profiles, ProfileKey) && AllPrepared(prepared, databases, request, tools)
    requires SameInputs(request, later) && AllPrepared(again, now, later, tools)
    requires n < |prepared| && CutAt(databases, request.profiles, prepared, n, now) && i < |prepared| && i != n
    ensures var key, end := request.profiles[i].key, PublishedUpTo(now, request.profiles, again, |again|);
            var whole := PublishedUpTo(databases, request.profiles, prepared, |prepared|);
            (key in end <==> key in whole) && (key in whole ==> end[key] == whole[key])
  {
    hide PublishedUpTo, CutAt, IsPrepared, PublishedDatabase, DistinctKeys, SameInputs;
    var profile := request.profiles[i];
    assert later.profiles == request.profiles by { InputsMean(request, later); }
    CutStands(databases, request, tools, prepared, n, now, i);
    assert IsPrepared(prepared[i], profile, CommittedOf(profile, databases), request, tools);
    assert IsPrepared(again[i], profile, CommittedOf(profile, now), later, tools);
    OtherPrepared(profile, CommittedOf(profile, databases), prepared[i], CommittedOf(profile, now), request, later, tools, again[i]);
    PublishedAt(databases, request.profiles, prepared, |prepared|, i);
    PublishedAt(now, request.profiles, again, |again|, i);
  }

  lemma InputsMean(request: Request, later: Request)
    requires SameInputs(request, later)
    ensures later.profiles == request.profiles
  {
  }

  /** The database that is cut ends as a rerun of it alone. */
  lemma CutCompletes(databases: Databases, request: Request, later: Request, tools: SyncTools, prepared: seq<Prepared>,
                     n: nat, now: Databases, again: seq<Prepared>)
    requires DistinctKeys(request.profiles, ProfileKey) && AllPrepared(prepared, databases, request, tools)
    requires SameInputs(request, later) && AllPrepared(again, now, later, tools)
    requires n < |prepared| && CutAt(databases, request.profiles, prepared, n, now)
    ensures var key, end := request.profiles[n].key, PublishedUpTo(now, request.profiles, again, |again|);
            var whole := PublishedUpTo(databases, request.profiles, prepared, |prepared|);
            var committed := CommittedOf(request.profiles[n], databases);
            && key in now && key in end && key in whole
            && (end[key] == whole[key] <==> SchemaPending(committed, now[key]) || now[key] == whole[key])
            && (!SchemaPending(committed, now[key]) ==> end[key] == now[key])
  {
    hide PublishedUpTo, IsPrepared, PublishedDatabase, DistinctKeys, SameInputs, CutDatabase;
    var profile := request.profiles[n];
    assert later.profiles == request.profiles by { InputsMean(request, later); }
    CutStands(databases, request, tools, prepared, n, now, n);
    assert IsPrepared(prepared[n], profile, CommittedOf(profile, databases), request, tools);
    assert IsPrepared(again[n], profile, CommittedOf(profile, now), later, tools);
    InterruptedDatabase(profile, CommittedOf(profile, databases), prepared[n], CommittedOf(profile, now), request, later, tools, again[n]);
    PublishedAt(databases, request.profiles, prepared, |prepared|, n);
    PublishedAt(now, request.profiles, again, |again|, n);
    UnchangedStays(CommittedOf(profile, now), again[n]);
  }

  lemma UnchangedStays(committed: Database, prepared: Prepared)
    ensures !prepared.staged.summary.HasChanges() ==> PublishedDatabase(committed, prepared) == committed
  {
  }

  /**
   * Crash recovery of a scheduled sync: a rerun on the same snapshots and contract passes its preflight and
   * ends in the catalog of the uninterrupted run exactly when the schema file of the database that was being
   * published had not been replaced yet, or that database was complete. In every other case the rerun leaves
   * that database as the crash left it.
   */
  lemma InterruptedRunRecoversExactly(databases: Databases, request: Request, later: Request, tools: SyncTools, prepared: seq<Prepared>,
                                      n: nat, now: Databases, again: seq<Prepared>)
    requires DistinctKeys(request.profiles, ProfileKey) && AllPrepared(prepared, databases, request, tools)
    requires SameInputs(request, later) && AllPrepared(again, now, later, tools)
    requires n < |prepared| && CutAt(databases, request.profiles, prepared, n, now)
    ensures var key, end := request.profiles[n].key, PublishedUpTo(now, request.profiles, again, |again|);
            var whole := PublishedUpTo(databases, request.profiles, prepared, |prepared|);
            var committed := CommittedOf(request.profiles[n], databases);
            && key in now && key in end && key in whole
            && (end == whole <==> SchemaPending(committed, now[key]) || now[key] == whole[key])
            && (!SchemaPending(committed, now[key]) ==> end[key] == now[key])
  {
    hide AllPrepared, PublishedUpTo, CutAt, DistinctKeys, SchemaPending;
    PreparedCount(prepared, databases, request, tools);
    PreparedCount(again, now, later, tools);
    var end, whole := PublishedUpTo(now, request.profiles, again, |again|), PublishedUpTo(databases, request.profiles, prepared, |prepared|);
    CutCompletes(databases, request, later, tools, prepared, n, now, again);
    var key := request.profiles[n].key;
    if end[key] == whole[key] {
      forall k ensures (k in end <==> k in whole) && (k in whole ==> end[k] == whole[k]) {
        if i :| 0 <= i < |request.profiles| && request.profiles[i].key == k {
          if i != n {
            OtherCompletes(databases, request, later, tools, prepared, n, now, again, i);
          }
        } else {
          OutsideCut(databases, request, prepared, n, now, k);
          OthersUnpublished(databases, request.profiles, prepared, |prepared|, k);
          OthersUnpublished(now, request.profiles, again, |again|, k);
        }
      }
      assert end.Keys == whole.Keys;
      assert end == whole;
    }
  }

  lemma OutsideCut(databases: Databases, request: Request, prepared: seq<Prepared>, n: nat, now: Databases, key: string)
    requires |prepared| == |request.profiles| && n < |prepared| && CutAt(databases, request.profiles, prepared, n, now)
    requires forall p :: p in request.profiles ==> p.key != key
    ensures (key in now <==> key in databases) && (key in databases ==> now[key] == databases[key])
  {
    hide PublishedUpTo, CutDatabase;
    OthersUnpublished(databases, request.profiles, prepared, n, key);
    assert request.profiles[n] in request.profiles;
  }

  /** Every cut-off catalog can be rerun. */
  lemma InterruptedRunPrepares(databases: Databases, request: Request, later: Request, tools: SyncTools, prepared: seq<Prepared>,
                               n: nat, now: Databases)
    requires DistinctKeys(request.profiles, ProfileKey) && AllPrepared(prepared, databases, request, tools)
    requires SameInputs(request, later) && n < |prepared| && CutAt(databases, request.profiles, prepared, n, now)
    ensures exists again :: AllPrepared(again, now, later, tools)
  {
    hide IsPrepared, CutAt, DistinctKeys;
    var again: seq<Prepared> := [];
    for i := 0 to |prepared|
      invariant |again| == i
      invariant forall k :: 0 <= k < i ==> IsPrepared(again[k], request.profiles[k], CommittedOf(request.profiles[k], now), later, tools)
    {
      var one := ItemPrepares(databases, request, later, tools, prepared, n, now, i);
      again := again + [one];
    }
    assert AllPrepared(again, now, later, tools);
  }

  lemma ItemPrepares(databases: Databases, request: Request, later: Request, tools: SyncTools, prepared: seq<Prepared>,
                     n: nat, now: Databases, i: nat) returns (again: Prepared)
    requires DistinctKeys(request.profiles, ProfileKey) && AllPrepared(prepared, databases, request, tools)
    requires SameInputs(request, later) && n < |prepared| && CutAt(databases, request.profiles, prepared, n, now) && i < |prepared|
    ensures IsPrepared(again, request.profiles[i], CommittedOf(request.profiles[i], now), later, tools)
  {
    hide PublishedUpTo, CutAt, Stage, RunsTo, CutDatabase, DistinctKeys;
    var profile := request.profiles[i];
    var committed, snapshot := CommittedOf(profile, databases), SnapshotOf(profile, request);
    CutStands(databases, request, tools, prepared, n, now, i);
    assert IsPrepared(prepared[i], profile, committed, request, tools);
    assert SnapshotOf(profile, later) == snapshot;
    if i == n {
      assert prepared[n].staged.summary.HasChanges() by { CutChanges(databases, request, prepared, n, now); }
      again := InterruptedPrepares(profile, committed, prepared[n], CommittedOf(profile, now), request, later, tools);
    } else if i < n && prepared[i].staged.summary.HasChanges() {
      StagedFacts(profile, committed, snapshot, tools);
      StagedQuiet(profile, committed, CommittedOf(profile, now), snapshot, tools);
      again := Prepared(Stage(profile, CommittedOf(profile, now), snapshot, tools).value, map[], []);
    } else {
      again := prepared[i];
    }
  }

  lemma CutChanges(databases: Databases, request: Request, prepared: seq<Prepared>, n: nat, now: Databases)
    requires |prepared| == |request.profiles| && n < |prepared| && CutAt(databases, request.profiles, prepared, n, now)
    ensures prepared[n].staged.summary.HasChanges()
  {
  }
}
