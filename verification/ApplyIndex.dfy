/** One reconciliation of a desired manifest with the actual vector collection. */
module ApplyIndex {
  import opened Wrappers
  import opened Ordering
  import opened Sorting
  import opened Models
  import opened Dictionaries
  import opened VectorStore
  import opened Embedding
  import opened Qdrant
  import opened Reconciliation

  datatype Settings = Settings(enabled: bool, collection: string, embeddingModel: string, embeddingDimension: nat)

  datatype ApplyOutcome = Applied | Disabled | Noop

  datatype ApplySummary = ApplySummary(
    outcome: ApplyOutcome,
    collection: string,
    manifestHash: string,
    documentCount: nat,
    chunkCount: nat,
    upsertedCount: nat,
    deletedCount: nat,
    skippedCount: nat,
    verified: bool
  ) {
    /** The outcome validator. */
    predicate Consistent() {
      var changed := upsertedCount + deletedCount;
      match outcome
      case Applied => changed != 0 && verified
      case Noop => changed == 0 && verified
      case Disabled => changed == 0 && !verified
    }
  }

  datatype ApplyError =
    | MissingClients
    | DuplicateManifestIds
    | DuplicateStoredIds
    | StoreError(index: VectorIndexError)
    | EmbedError(embedding: EmbeddingError)
    | UnexpectedVectorCount
    | VerificationFailed

  ghost predicate ValidChunks(chunks: seq<Chunk>) {
    forall c :: c in chunks ==> c.body.chunkId != "" && IsDigest(c.bodyHash)
  }

  /** The run described by one call. */
  ghost function JobOf(manifest: IndexManifest, settings: Settings, embedder: Embedder, index: QdrantVectorIndex): Job {
    Job(DictBy(ManifestChunks(manifest.documents), ChunkIdOf), index.pointId,
        Composed(embedder.client.raw, embedder.unit),
        RunStamp(manifest.manifestHash, settings.embeddingModel, settings.embeddingDimension))
  }

  lemma JobValid(manifest: IndexManifest, settings: Settings, embedder: Embedder, index: QdrantVectorIndex)
    requires ValidChunks(ManifestChunks(manifest.documents)) && Injective(index.pointId)
    ensures ValidJob(JobOf(manifest, settings, embedder, index))
  {
    var chunks := ManifestChunks(manifest.documents);
    var desired := DictBy(chunks, ChunkIdOf);
    forall c | c in desired
      ensures c != "" && desired[c].body.chunkId == c && IsDigest(desired[c].bodyHash)
    {
      DictMembers(chunks, ChunkIdOf, c);
    }
  }

  /** The chunk-to-state dictionary of a collection whose managed points can be read. */
  ghost predicate StateMap(points: Points, m: map<string, ChunkState>) {
    && (forall p :: IsManaged(points, p) ==> ChunkAt(points, p) in m && m[ChunkAt(points, p)] == StateAt(points, p))
    && (forall c :: c in m ==> IsManaged(points, m[c].pointId) && m[c] == StateAt(points, m[c].pointId) && m[c].chunkId == c)
  }

  function StateById(states: seq<ChunkState>): map<string, ChunkState> {
    DictBy(states, StateChunkId)
  }

  /** The ids read are exactly the managed ones, each once. */
  ghost predicate ReadIds(points: Points, ids: seq<string>) {
    && (forall p :: p in ids ==> p in points)
    && (forall p :: p in ids <==> IsManaged(points, p))
    && (forall i, j :: 0 <= i < |ids| && 0 <= j < |ids| && ids[i] == ids[j] ==> i == j)
  }

  lemma RemainingRead(points: Points)
    ensures ReadIds(points, Remaining(points, None))
  {
    RemainingMembers(points, None);
    RemainingSorted(points, None);
    StrictlySortedDistinct(Remaining(points, None));
  }

  lemma HoldersDistinct(points: Points, ids: seq<string>)
    requires ReadIds(points, ids)
    ensures DistinctKeys(StatesOf(points, ids), StateChunkId) <==> SingleHolder(points)
  {
    var raw := StatesOf(points, ids);
    if DistinctKeys(raw, StateChunkId) {
      forall p, q, c | Holds(points, p, c) && Holds(points, q, c) ensures p == q {
        var i :| 0 <= i < |ids| && ids[i] == p;
        var j :| 0 <= j < |ids| && ids[j] == q;
        assert StateChunkId(raw[i]) == StateChunkId(raw[j]);
      }
    }
    if SingleHolder(points) {
      forall i, j | 0 <= i < j < |raw| ensures StateChunkId(raw[i]) != StateChunkId(raw[j]) {
        assert ids[i] in ids && ids[j] in ids;
        assert Holds(points, ids[i], raw[i].chunkId) && Holds(points, ids[j], raw[j].chunkId);
      }
    }
  }

  lemma MapDescribes(points: Points, ids: seq<string>, states: seq<ChunkState>)
    requires ReadIds(points, ids) && DistinctKeys(states, StateChunkId)
    requires forall s :: s in states <==> s in StatesOf(points, ids)
    ensures StateMap(points, StateById(states))
  {
    var raw, m := StatesOf(points, ids), StateById(states);
    forall p | IsManaged(points, p) ensures ChunkAt(points, p) in m && m[ChunkAt(points, p)] == StateAt(points, p) {
      var i :| 0 <= i < |ids| && ids[i] == p;
      assert raw[i] in raw;
      DictLookup(states, StateChunkId, raw[i]);
    }
    forall c | c in m ensures IsManaged(points, m[c].pointId) && m[c] == StateAt(points, m[c].pointId) && m[c].chunkId == c {
      DictMembers(states, StateChunkId, c);
      var j :| 0 <= j < |raw| && raw[j] == m[c];
      assert ids[j] in ids;
    }
  }

  /** Reading found no duplicate exactly when no chunk id is managed twice, and then it found everything. */
  lemma StatesDescribe(points: Points, states: seq<ChunkState>)
    requires forall p :: p in Remaining(points, None) ==> p in points
    requires states == SortBy(StatesOf(points, Remaining(points, None)), StateChunkId, StrLess)
    ensures |StateById(states)| == |states| <==> SingleHolder(points)
    ensures |StateById(states)| == |states| ==> StateMap(points, StateById(states))
  {
    var ids := Remaining(points, None);
    RemainingRead(points);
    hide Remaining, StateMap, SingleHolder;
    var raw := StatesOf(points, ids);
    SortMembers(raw, StateChunkId, StrLess);
    SortMultiset(raw, StateChunkId, StrLess);
    DictCount(states, StateChunkId);
    HoldersDistinct(points, ids);
    if DistinctKeys(raw, StateChunkId) {
      DistinctPermuted(raw, states, StateChunkId);
    }
    if DistinctKeys(states, StateChunkId) {
      DistinctPermuted(states, raw, StateChunkId);
      MapDescribes(points, ids, states);
    }
  }

  // ---- plan, writes and verification in terms of the store ----

  ghost function PointSet(actual: map<string, ChunkState>, ids: set<string>): set<string>
    requires ids <= actual.Keys
  {
    set c | c in ids :: actual[c].pointId
  }

  ghost function WrongOrMissing(job: Job, actual: map<string, ChunkState>): set<string> {
    set c | c in job.desired && (c !in actual || actual[c].bodyHash != job.desired[c].bodyHash)
  }

  /** The plan computed from the state dictionary is the plan of the collection. */
  lemma PlanFromStates(points: Points, job: Job, actual: map<string, ChunkState>)
    requires SingleHolder(points) && StateMap(points, actual)
    ensures WrongOrMissing(job, actual) == UpsertPlan(points, job)
    ensures PointSet(actual, actual.Keys - job.desired.Keys) == StalePoints(points, job)
  {
    forall c | c in job.desired
      ensures Correct(points, job, c) <==> c in actual && actual[c].bodyHash == job.desired[c].bodyHash
    {
      if c in actual {
        assert Holds(points, actual[c].pointId, c);
      }
    }
    forall p | p in StalePoints(points, job)
      ensures p in PointSet(actual, actual.Keys - job.desired.Keys)
    {
      assert actual[ChunkAt(points, p)].pointId == p;
      assert ChunkAt(points, p) in actual.Keys - job.desired.Keys;
    }
  }

  /** The chunks whose points were written. */
  ghost function DoneBy(job: Job, plan: set<string>, applied: set<string>): set<string> {
    set c | c in plan && job.pointId(c) in applied
  }

  lemma PartKeys(job: Job, plan: set<string>, applied: set<string>)
    requires ValidJob(job) && plan <= job.desired.Keys && applied <= Written(job, plan).Keys
    ensures Restrict(Written(job, plan), applied) == Written(job, DoneBy(job, plan, applied))
  {
    var done := DoneBy(job, plan, applied);
    forall p ensures p in applied <==> p in Written(job, done) {
      if p in applied {
        var c :| c in plan && job.pointId(c) == p;
        assert c in done;
      }
    }
    forall p | p in applied ensures Written(job, plan)[p] == Written(job, done)[p] {
      var c :| c in done && job.pointId(c) == p;
    }
  }

  lemma WrittenPart(points: Points, job: Job, plan: set<string>, applied: set<string>)
    requires ValidJob(job) && plan <= job.desired.Keys && applied <= Written(job, plan).Keys
    ensures points + Restrict(Written(job, plan), applied) == After(points, job, DoneBy(job, plan, applied), {})
    ensures applied == Written(job, plan).Keys ==> DoneBy(job, plan, applied) == plan
  {
    PartKeys(job, plan, applied);
    hide Restrict;
  }

  ghost predicate AlignedEntries(entries: seq<Entry>, ids: seq<string>, job: Job) {
    && |entries| == |ids|
    && forall i :: 0 <= i < |ids| ==>
         ids[i] in job.desired && entries[i] == Entry(job.pointId(ids[i]), PointFor(job, ids[i]))
  }

  lemma EntriesWritten(entries: seq<Entry>, ids: seq<string>, plan: set<string>, job: Job)
    requires ValidJob(job) && AlignedEntries(entries, ids, job)
    requires forall c :: c in ids <==> c in plan
    requires plan <= job.desired.Keys
    ensures EntriesOf(entries, Written(job, plan))
    ensures Elements(IdsOf(entries)) == Written(job, plan).Keys
  {
    forall i | 0 <= i < |entries| ensures IdsOf(entries)[i] in Written(job, plan) {
      assert ids[i] in plan;
      WrittenAt(job, plan, ids[i]);
    }
    forall p | p in Written(job, plan).Keys ensures p in IdsOf(entries) {
      var c :| c in plan && job.pointId(c) == p;
      var i :| 0 <= i < |ids| && ids[i] == c;
      assert IdsOf(entries)[i] == p;
    }
  }

  /** The dictionary comparison of the verification read decides exactly `Verified`. */
  lemma VerificationDecides(points: Points, job: Job, found: map<string, ChunkState>)
    requires Readable(points) && SingleHolder(points) && StateMap(points, found)
    ensures (found.Keys == job.desired.Keys &&
             forall c :: c in job.desired ==> c in found && found[c].bodyHash == job.desired[c].bodyHash)
        <==> Verified(points, job)
  {
    if Verified(points, job) {
      forall c | c in job.desired ensures c in found && found[c].bodyHash == job.desired[c].bodyHash {
        var p :| Holds(points, p, c);
      }
      forall c | c in found ensures c in job.desired {
        assert IsManaged(points, found[c].pointId);
      }
      assert found.Keys == job.desired.Keys;
    } else if found.Keys == job.desired.Keys &&
              forall c :: c in job.desired ==> c in found && found[c].bodyHash == job.desired[c].bodyHash {
      forall c | c in job.desired ensures exists p :: Holds(points, p, c) {
        assert Holds(points, found[c].pointId, c);
      }
    }
  }

  // ---- the operation ----

  method StatesByChunk(index: QdrantVectorIndex) returns (r: Result<map<string, ChunkState>, ApplyError>)
    ensures r.Ok? ==> Readable(index.client.points) && SingleHolder(index.client.points)
    ensures r.Ok? ==> StateMap(index.client.points, r.value)
    ensures r.Err? ==> (r.error == StoreError(ClientFault) || !Readable(index.client.points) || !SingleHolder(index.client.points))
    ensures r.Err? ==> r.error.StoreError? || r.error.DuplicateStoredIds?
  {
    var states := index.ListChunkStates();
    if states.Err? {
      return Err(StoreError(states.error));
    }
    StatesDescribe(index.client.points, states.value);
    var byChunk := StateById(states.value);
    if |byChunk| != |states.value| {
      return Err(DuplicateStoredIds);
    }
    return Ok(byChunk);
  }

  function Contents(desired: map<string, Chunk>, ids: seq<string>): (texts: seq<string>)
    requires forall c :: c in ids ==> c in desired
    ensures |texts| == |ids|
    ensures forall i :: 0 <= i < |ids| ==> texts[i] == desired[ids[i]].body.content
  {
    seq(|ids|, i requires 0 <= i < |ids| && ids[i] in desired => desired[ids[i]].body.content)
  }

  /** What one call sent for embedding: a prefix of the planned chunks' contents, in plan order. */
  ghost predicate SentOnly(before: seq<string>, after: seq<string>, texts: seq<string>) {
    exists n :: 0 <= n <= |texts| && after == before + texts[..n]
  }

  /** The points for `ids`, one vector each, or the dimension error. */
  method BuildEntries(ghost job: Job, desired: map<string, Chunk>, ids: seq<string>, vectors: seq<Vector>,
                      stamp: RunStamp, index: QdrantVectorIndex)
    returns (r: Result<seq<Entry>, ApplyError>)
    requires job.desired == desired && job.pointId == index.pointId && job.stamp == stamp
    requires |vectors| == |ids| && forall c :: c in ids ==> c in desired
    requires forall i :: 0 <= i < |ids| ==> vectors[i] == job.embed(desired[ids[i]].body.content)
    ensures r.Ok? ==> AlignedEntries(r.value, ids, job)
    ensures r.Err? ==> r.error == EmbedError(DimensionMismatch)
    ensures r.Err? ==> exists i :: 0 <= i < |ids| && |vectors[i]| != stamp.embeddingDimension
  {
    var entries: seq<Entry> := [];
    for i := 0 to |ids|
      invariant AlignedEntries(entries, ids[..i], job)
    {
      if |vectors[i]| != stamp.embeddingDimension {
        return Err(EmbedError(DimensionMismatch));
      }
      entries := entries + [Entry(index.pointId(ids[i]), PointOf(desired[ids[i]], vectors[i], stamp))];
    }
    assert ids[..|ids|] == ids;
    return Ok(entries);
  }

  /** Embeds the planned chunks; only their contents are ever sent. */
  method EmbedPlanned(ghost job: Job, desired: map<string, Chunk>, ids: seq<string>, stamp: RunStamp,
                      embedder: Embedder, index: QdrantVectorIndex)
    returns (r: Result<seq<Entry>, ApplyError>)
    requires job.desired == desired && job.pointId == index.pointId && job.stamp == stamp
    requires job.embed == Composed(embedder.client.raw, embedder.unit)
    requires forall c :: c in ids ==> c in desired
    modifies embedder.client
    ensures SentOnly(old(embedder.client.sent), embedder.client.sent, Contents(desired, ids))
    ensures r.Ok? ==> AlignedEntries(r.value, ids, job)
    ensures r.Err? ==> r.error.EmbedError?
  {
    var vectors := embedder.EmbedDocuments(Contents(desired, ids));
    if vectors.Err? {
      return Err(EmbedError(vectors.error));
    }
    r := BuildEntries(job, desired, ids, vectors.value, stamp, index);
  }

  /** Writes the planned points; `done` are the chunks whose points are in. */
  method WritePlanned(ghost job: Job, ids: seq<string>, entries: seq<Entry>, index: QdrantVectorIndex)
    returns (ok: bool, ghost done: set<string>)
    requires ValidJob(job) && AlignedEntries(entries, ids, job)
    modifies index.client
    ensures done <= Elements(ids) && done <= job.desired.Keys && (ok ==> done == Elements(ids))
    ensures index.client.points == After(old(index.client.points), job, done, {})
  {
    ghost var plan := Elements(ids);
    EntriesWritten(entries, ids, plan, job);
    ghost var applied;
    ok, applied := index.Upsert(entries, Written(job, plan));
    WrittenPart(old(index.client.points), job, plan, applied);
    done := DoneBy(job, plan, applied);
  }

  /** The verification read: it fails exactly when the collection is not what the manifest desires. */
  method VerifyState(ghost job: Job, desired: map<string, Chunk>, index: QdrantVectorIndex)
    returns (r: Result<(), ApplyError>)
    requires job.desired == desired
    ensures r.Ok? ==> Verified(index.client.points, job)
    ensures r.Err? ==> (r.error == StoreError(ClientFault) || !Verified(index.client.points, job))
    ensures r.Err? ==> !r.error.EmbedError? && !r.error.MissingClients? && !r.error.DuplicateManifestIds?
  {
    var found := StatesByChunk(index);
    if found.Err? {
      return Err(found.error);
    }
    VerificationDecides(index.client.points, job, found.value);
    if found.value.Keys != desired.Keys {
      return Err(VerificationFailed);
    }
    if exists c :: c in desired && found.value[c].bodyHash != desired[c].bodyHash {
      return Err(VerificationFailed);
    }
    return Ok(());
  }

  // ---- what one run leaves behind ----

  ghost predicate CutReached(before: Points, after: Points, job: Job, cut: Cut)
    requires ValidJob(job)
  {
    LegalCut(before, job, cut.done, cut.gone) && after == After(before, job, cut.done, cut.gone)
  }

  ghost predicate WholeRun(before: Points, job: Job, cut: Cut) {
    cut == Cut(UpsertPlan(before, job), StalePoints(before, job))
  }

  lemma NothingDone(points: Points, job: Job)
    requires ValidJob(job)
    ensures CutReached(points, points, job, Cut({}, {}))
  {
  }

  lemma ThenDeleted(before: Points, job: Job, gone: set<string>)
    requires ValidJob(job) && gone <= StalePoints(before, job)
    ensures CutReached(before, After(before, job, UpsertPlan(before, job), {}) - gone, job,
                       Cut(UpsertPlan(before, job), gone))
  {
  }

  /** The upsert phase: afterwards the planned chunks in `done` are in, all of them on success. */
  method UpsertPhase(ghost job: Job, desired: map<string, Chunk>, upsertIds: seq<string>, stamp: RunStamp,
                     embedder: Embedder, index: QdrantVectorIndex)
    returns (r: Result<(), ApplyError>, ghost done: set<string>)
    requires ValidJob(job) && job.desired == desired && job.pointId == index.pointId && job.stamp == stamp
    requires job.embed == Composed(embedder.client.raw, embedder.unit)
    requires forall c :: c in upsertIds ==> c in desired
    modifies index.client, embedder.client
    ensures done <= Elements(upsertIds) && done <= desired.Keys && (r.Ok? ==> done == Elements(upsertIds))
    ensures index.client.points == After(old(index.client.points), job, done, {})
    ensures r.Err? ==> r.error.EmbedError? || r.error == StoreError(ClientFault)
    ensures r.Err? && r.error.EmbedError? ==> done == {}
    ensures SentOnly(old(embedder.client.sent), embedder.client.sent, Contents(desired, upsertIds))
  {
    done := {};
    NothingDone(index.client.points, job);
    if upsertIds == [] {
      assert embedder.client.sent == embedder.client.sent + Contents(desired, upsertIds)[..0];
      return Ok(()), done;
    }
    var entries := EmbedPlanned(job, desired, upsertIds, stamp, embedder, index);
    if entries.Err? {
      return Err(entries.error), done;
    }
    var ok;
    ok, done := WritePlanned(job, upsertIds, entries.value, index);
    r := if ok then Ok(()) else Err(StoreError(ClientFault));
  }

  /** Upserts first, deletions only once every planned upsert is in; a failure is a legal cut. */
  method Mutate(ghost job: Job, desired: map<string, Chunk>, upsertIds: seq<string>, stale: seq<string>,
                stamp: RunStamp, embedder: Embedder, index: QdrantVectorIndex)
    returns (r: Result<(), ApplyError>, ghost cut: Cut)
    requires ValidJob(job) && job.desired == desired && job.pointId == index.pointId && job.stamp == stamp
    requires job.embed == Composed(embedder.client.raw, embedder.unit)
    requires Elements(upsertIds) == UpsertPlan(index.client.points, job)
    requires Elements(stale) == StalePoints(index.client.points, job)
    requires forall c :: c in upsertIds ==> c in desired
    modifies index.client, embedder.client
    ensures CutReached(old(index.client.points), index.client.points, job, cut)
    ensures r.Ok? ==> WholeRun(old(index.client.points), job, cut)
    ensures r.Err? ==> r.error.EmbedError? || r.error == StoreError(ClientFault)
    ensures r.Err? && r.error.EmbedError? ==> index.client.points == old(index.client.points)
    ensures SentOnly(old(embedder.client.sent), embedder.client.sent, Contents(desired, upsertIds))
  {
    ghost var before := index.client.points;
    NothingDone(before, job);
    ghost var done;
    r, done := UpsertPhase(job, desired, upsertIds, stamp, embedder, index);
    cut := Cut(done, {});
    if r.Err? {
      return;
    }
    ThenDeleted(before, job, {});
    if stale != [] {
      var ok;
      ghost var gone;
      ok, gone := index.Delete(stale);
      ThenDeleted(before, job, gone);
      cut := Cut(done, gone);
      r := if ok then Ok(()) else Err(StoreError(ClientFault));
    } else {
      assert StalePoints(before, job) == {};
    }
  }

  function PointIds(actual: map<string, ChunkState>, ids: seq<string>): (points: seq<string>)
    requires forall c :: c in ids ==> c in actual
    ensures |points| == |ids|
    ensures forall i :: 0 <= i < |ids| ==> points[i] == actual[ids[i]].pointId
  {
    seq(|ids|, i requires 0 <= i < |ids| && ids[i] in actual => actual[ids[i]].pointId)
  }

  /** A computed plan: what to upsert, and the points to delete. */
  ghost predicate PlanOf(points: Points, job: Job, upsertIds: seq<string>, stale: seq<string>) {
    && Elements(upsertIds) == UpsertPlan(points, job) && |upsertIds| == |UpsertPlan(points, job)|
    && Elements(stale) == StalePoints(points, job) && |stale| == |StalePoints(points, job)|
  }

  lemma DistinctCount(s: seq<string>)
    requires forall i, j :: 0 <= i < j < |s| ==> s[i] != s[j]
    ensures |Elements(s)| == |s|
  {
    if s != [] {
      var init, last := s[..|s| - 1], s[|s| - 1];
      DistinctCount(init);
      assert s == init + [last];
      assert Elements(s) == Elements(init) + {last};
    }
  }

  /** The deleted points are those of the given chunks, one each. */
  lemma PointsOfChunks(points: Points, actual: map<string, ChunkState>, gone: set<string>, ids: seq<string>)
    requires StateMap(points, actual) && gone <= actual.Keys
    requires (forall c :: c in ids <==> c in gone)
    requires forall i, j :: 0 <= i < |ids| && 0 <= j < |ids| && ids[i] == ids[j] ==> i == j
    ensures Elements(PointIds(actual, ids)) == PointSet(actual, gone)
    ensures |Elements(PointIds(actual, ids))| == |ids|
  {
    var stale := PointIds(actual, ids);
    assert forall i :: 0 <= i < |ids| ==> ids[i] in ids;
    forall c | c in gone ensures actual[c].pointId in stale {
      var i :| 0 <= i < |ids| && ids[i] == c;
      assert stale[i] == actual[c].pointId;
    }
    DistinctCount(stale);
  }

  lemma PlanComputed(points: Points, job: Job, actual: map<string, ChunkState>, upsertIds: seq<string>,
                     deleteIds: seq<string>)
    requires SingleHolder(points) && StateMap(points, actual)
    requires upsertIds == SortedSet(WrongOrMissing(job, actual))
    requires deleteIds == SortedSet(actual.Keys - job.desired.Keys)
    ensures PlanOf(points, job, upsertIds, PointIds(actual, deleteIds))
  {
    PlanFromStates(points, job, actual);
    var gone := actual.Keys - job.desired.Keys;
    SortedSetSorted(gone);
    StrictlySortedDistinct(deleteIds);
    hide SortedSet, UpsertPlan, StalePoints, StrLess, StateMap, SingleHolder, StrictlySorted, WrongOrMissing, PointSet;
    PointsOfChunks(points, actual, gone, deleteIds);
    assert Elements(upsertIds) == UpsertPlan(points, job);
  }

  method Plan(ghost job: Job, desired: map<string, Chunk>, index: QdrantVectorIndex)
    returns (r: Result<(seq<string>, seq<string>), ApplyError>)
    requires job.desired == desired
    ensures r.Ok? ==> Readable(index.client.points) && SingleHolder(index.client.points)
    ensures r.Ok? ==> PlanOf(index.client.points, job, r.value.0, r.value.1)
    ensures r.Err? ==> (r.error == StoreError(ClientFault) || !Readable(index.client.points) || !SingleHolder(index.client.points))
    ensures r.Err? ==> r.error.StoreError? || r.error.DuplicateStoredIds?
  {
    var actual := StatesByChunk(index);
    if actual.Err? {
      return Err(actual.error);
    }
    var upsertIds := SortedSet(set c | c in desired && (c !in actual.value || actual.value[c].bodyHash != desired[c].bodyHash));
    var deleteIds := SortedSet(actual.value.Keys - desired.Keys);
    PlanComputed(index.client.points, job, actual.value, upsertIds, deleteIds);
    return Ok((upsertIds, PointIds(actual.value, deleteIds)));
  }

  /** Every text sent for embedding is the content of a planned chunk. */
  ghost predicate SentPlanned(before: Points, job: Job, sentBefore: seq<string>, sentAfter: seq<string>) {
    && sentBefore <= sentAfter
    && forall text :: text in sentAfter[|sentBefore|..] ==>
         exists c :: c in UpsertPlan(before, job) && job.desired[c].body.content == text
  }

  lemma OnlyPlannedSent(before: Points, job: Job, ids: seq<string>, sentBefore: seq<string>, sentAfter: seq<string>)
    requires Elements(ids) == UpsertPlan(before, job) && forall c :: c in ids ==> c in job.desired
    requires SentOnly(sentBefore, sentAfter, Contents(job.desired, ids))
    ensures SentPlanned(before, job, sentBefore, sentAfter)
  {
    var texts := Contents(job.desired, ids);
    var n :| 0 <= n <= |texts| && sentAfter == sentBefore + texts[..n];
    assert sentAfter[|sentBefore|..] == texts[..n];
    forall text | text in texts[..n] ensures exists c :: c in UpsertPlan(before, job) && job.desired[c].body.content == text {
      var i :| 0 <= i < n && texts[..n][i] == text;
      assert texts[i] == text && ids[i] in ids && ids[i] in Elements(ids);
    }
  }

  /** What every enabled call guarantees about the collection, the result and the embedding traffic. */
  ghost predicate RunContract(before: Points, after: Points, job: Job, cut: Cut, r: Result<(nat, nat), ApplyError>)
    requires ValidJob(job)
  {
    && CutReached(before, after, job, cut)
    && (r.Ok? ==> WholeRun(before, job, cut) && Verified(after, job) &&
                  r.value == (|UpsertPlan(before, job)|, |StalePoints(before, job)|))
    && (r.Err? ==> !r.error.MissingClients? && !r.error.DuplicateManifestIds?)
    && (r.Err? && r.error.EmbedError? ==> after == before)
    && (r.Err? && Readable(before) && SingleHolder(before) && SlotsAgree(before, job) ==>
          r.error == StoreError(ClientFault) || r.error.EmbedError?)
  }

  method Run(ghost job: Job, desired: map<string, Chunk>, stamp: RunStamp, embedder: Embedder, index: QdrantVectorIndex)
    returns (r: Result<(nat, nat), ApplyError>, ghost cut: Cut)
    requires ValidJob(job) && job.desired == desired && job.pointId == index.pointId && job.stamp == stamp
    requires job.embed == Composed(embedder.client.raw, embedder.unit)
    modifies index.client, embedder.client
    ensures RunContract(old(index.client.points), index.client.points, job, cut, r)
    ensures SentPlanned(old(index.client.points), job, old(embedder.client.sent), embedder.client.sent)
  {
    hide PlanOf, CutReached, WholeRun, Verified, SlotsAgree, SentOnly, SentPlanned, Readable, SingleHolder, RunContract;
    hide StalePoints, UpsertPlan, ValidJob;
    ghost var before, sent := index.client.points, embedder.client.sent;
    cut := Cut({}, {});
    NothingDone(before, job);
    NothingSent(before, job, sent);
    var plan := Plan(job, desired, index);
    if plan.Err? {
      PlanFails(before, job, plan.error);
      return Err(plan.error), cut;
    }
    var upsertIds, stale := plan.value.0, plan.value.1;
    PlanMeans(before, job, upsertIds, stale);
    var mutated;
    mutated, cut := Mutate(job, desired, upsertIds, stale, stamp, embedder, index);
    OnlyPlannedSent(before, job, upsertIds, sent, embedder.client.sent);
    if mutated.Err? {
      MutationFails(before, index.client.points, job, cut, mutated.error);
      return Err(mutated.error), cut;
    }
    SlotsDecide(before, index.client.points, job, cut);
    var verified := VerifyState(job, desired, index);
    if verified.Err? {
      VerificationFails(before, index.client.points, job, cut, verified.error);
      return Err(verified.error), cut;
    }
    RunDone(before, index.client.points, job, cut);
    return Ok((|upsertIds|, |stale|)), cut;
  }

  lemma NothingSent(points: Points, job: Job, sent: seq<string>)
    ensures SentPlanned(points, job, sent, sent)
  {
  }

  lemma PlanMeans(points: Points, job: Job, upsertIds: seq<string>, stale: seq<string>)
    requires PlanOf(points, job, upsertIds, stale)
    ensures Elements(upsertIds) == UpsertPlan(points, job) && |upsertIds| == |UpsertPlan(points, job)|
    ensures Elements(stale) == StalePoints(points, job) && |stale| == |StalePoints(points, job)|
    ensures forall c :: c in upsertIds ==> c in job.desired
  {
    assert forall c :: c in upsertIds ==> c in Elements(upsertIds);
  }

  lemma PlanFails(before: Points, job: Job, error: ApplyError)
    requires ValidJob(job) && CutReached(before, before, job, Cut({}, {}))
    requires error == StoreError(ClientFault) || !Readable(before) || !SingleHolder(before)
    requires error.StoreError? || error.DuplicateStoredIds?
    ensures RunContract(before, before, job, Cut({}, {}), Err(error))
  {
    hide CutReached, Readable, SingleHolder, SlotsAgree, Verified;
  }

  lemma MutationFails(before: Points, after: Points, job: Job, cut: Cut, error: ApplyError)
    requires ValidJob(job) && CutReached(before, after, job, cut)
    requires error.EmbedError? || error == StoreError(ClientFault)
    requires error.EmbedError? ==> after == before
    ensures RunContract(before, after, job, cut, Err(error))
  {
    hide CutReached, Readable, SingleHolder, SlotsAgree, Verified;
  }

  lemma VerificationFails(before: Points, after: Points, job: Job, cut: Cut, error: ApplyError)
    requires ValidJob(job) && CutReached(before, after, job, cut)
    requires error == StoreError(ClientFault) || !SlotsAgree(before, job)
    requires !error.EmbedError? && !error.MissingClients? && !error.DuplicateManifestIds?
    ensures RunContract(before, after, job, cut, Err(error))
  {
    hide CutReached, Readable, SingleHolder, SlotsAgree, Verified;
  }

  lemma RunDone(before: Points, after: Points, job: Job, cut: Cut)
    requires ValidJob(job) && CutReached(before, after, job, cut) && WholeRun(before, job, cut) && Verified(after, job)
    ensures RunContract(before, after, job, cut, Ok((|UpsertPlan(before, job)|, |StalePoints(before, job)|)))
  {
    hide CutReached, Readable, SingleHolder, SlotsAgree, Verified;
  }

  lemma SlotsDecide(before: Points, after: Points, job: Job, cut: Cut)
    requires ValidJob(job) && Readable(before) && SingleHolder(before)
    requires CutReached(before, after, job, cut) && WholeRun(before, job, cut)
    ensures Verified(after, job) <==> SlotsAgree(before, job)
  {
    FaultFreeRunVerifies(before, job);
  }

  /**
   * The whole operation. Whatever happens, the collection is left in a state some legal cut of one run
   * reaches; a successful call leaves exactly the verified result of the uninterrupted run; a failing
   * embedding leaves the collection alone; the verification fails, short of a client fault, only when
   * the planned slots and the stored points disagree; and no correct chunk is embedded again.
   */
  method Apply(manifest: IndexManifest, settings: Settings, embedder: Embedder?, index: QdrantVectorIndex?)
    returns (r: Result<ApplySummary, ApplyError>, ghost cut: Cut)
    requires ValidChunks(ManifestChunks(manifest.documents))
    requires index != null ==> Injective(index.pointId)
    modifies if index == null then {} else {index.client}, if embedder == null then {} else {embedder.client}
    ensures r.Ok? ==> r.value.Consistent() && r.value.upsertedCount + r.value.skippedCount == r.value.chunkCount
    ensures r.Ok? ==> r.value.chunkCount == |ManifestChunks(manifest.documents)|
    ensures r.Ok? ==> r.value.collection == settings.collection && r.value.manifestHash == manifest.manifestHash
                      && r.value.documentCount == |manifest.documents|
    ensures r.Ok? && settings.enabled && embedder != null && index != null ==>
              var job := JobOf(manifest, settings, embedder, index);
              forall c :: c in UpsertPlan(old(index.client.points), job) ==>
                PointTold(index.client.points, job, c, manifest, settings)
    ensures !DistinctKeys(ManifestChunks(manifest.documents), ChunkIdOf) <==> r == Err(DuplicateManifestIds)
    ensures r.Ok? && r.value.outcome == Disabled <==>
              !settings.enabled && DistinctKeys(ManifestChunks(manifest.documents), ChunkIdOf)
    ensures index != null && (r == Err(DuplicateManifestIds) || !settings.enabled || embedder == null) ==>
              unchanged(index.client)
    ensures settings.enabled && (index == null || embedder == null) && r != Err(DuplicateManifestIds) ==>
              r == Err(MissingClients)
    ensures settings.enabled && index != null && embedder != null && r != Err(DuplicateManifestIds) ==>
              var job := JobOf(manifest, settings, embedder, index);
              && ValidJob(job)
              && RunContract(old(index.client.points), index.client.points, job, cut, Counts(r))
              && SentPlanned(old(index.client.points), job, old(embedder.client.sent), embedder.client.sent)
  {
    cut := Cut({}, {});
    var chunks := ManifestChunks(manifest.documents);
    var desired := DictBy(chunks, ChunkIdOf);
    DictCount(chunks, ChunkIdOf);
    if |desired| != |chunks| {
      return Err(DuplicateManifestIds), cut;
    }
    if !settings.enabled {
      return Ok(ApplySummary(Disabled, settings.collection, manifest.manifestHash, |manifest.documents|,
                             |desired|, 0, 0, |desired|, false)), cut;
    }
    if embedder == null || index == null {
      return Err(MissingClients), cut;
    }
    ghost var job := JobOf(manifest, settings, embedder, index);
    JobValid(manifest, settings, embedder, index);
    var stamp := RunStamp(manifest.manifestHash, settings.embeddingModel, settings.embeddingDimension);
    ghost var before := index.client.points;
    var run;
    run, cut := Run(job, desired, stamp, embedder, index);
    if run.Err? {
      return Err(run.error), cut;
    }
    var (upserted, deleted) := run.value;
    PlanFits(before, job);
    forall c | c in UpsertPlan(before, job) ensures PointTold(index.client.points, job, c, manifest, settings) {
      UpsertsTell(before, job, c);
    }
    var outcome := if upserted != 0 || deleted != 0 then Applied else Noop;
    return Ok(ApplySummary(outcome, settings.collection, manifest.manifestHash, |manifest.documents|,
                           |desired|, upserted, deleted, |desired| - upserted, true)), cut;
  }

  ghost function Counts(r: Result<ApplySummary, ApplyError>): Result<(nat, nat), ApplyError> {
    match r
    case Ok(summary) => Ok((summary.upsertedCount, summary.deletedCount))
    case Err(error) => Err(error)
  }

  /** The point of a desired chunk says what its chunk, the manifest and the settings say. */
  ghost predicate PointTold(points: Points, job: Job, c: string, manifest: IndexManifest, settings: Settings) {
    && c in job.desired && job.pointId(c) in points
    && Tells(points[job.pointId(c)], job.desired[c].body, job.desired[c].bodyHash, job.embed(job.desired[c].body.content))
    && Stamped(points[job.pointId(c)], manifest.manifestHash, settings.embeddingModel, settings.embeddingDimension)
  }

  lemma PlanFits(points: Points, job: Job)
    ensures |UpsertPlan(points, job)| <= |job.desired|
  {
    CardinalityMinus(job.desired.Keys, UpsertPlan(points, job));
    assert |job.desired.Keys| == |job.desired|;
  }
}
