/** The chunk-level diff of two manifests, and the document-level reconciliation reported beside it. */
module IndexDiff {
  import opened Wrappers
  import opened Ordering
  import opened Sorting
  import opened Dictionaries
  import opened Models
  import opened IndexManifests
  import opened VectorStore

  datatype Operation = Upsert | Delete | Skip

  datatype Reason = Created | Removed | Updated | Unchanged

  datatype ChunkAction = ChunkAction(
    operation: Operation,
    reason: Reason,
    chunkId: string,
    oldHash: Option<string>,
    newHash: Option<string>
  )

  function HashIn(chunks: map<string, Chunk>, id: string): Option<string> {
    if id in chunks then Some(chunks[id].bodyHash) else None
  }

  function ActionFor(id: string, old_: map<string, Chunk>, new_: map<string, Chunk>): ChunkAction {
    var before, after := HashIn(old_, id), HashIn(new_, id);
    if before.None? then ChunkAction(Upsert, Created, id, before, after)
    else if after.None? then ChunkAction(Delete, Removed, id, before, after)
    else if before != after then ChunkAction(Upsert, Updated, id, before, after)
    else ChunkAction(Skip, Unchanged, id, before, after)
  }

  function ActionsFor(ids: seq<string>, old_: map<string, Chunk>, new_: map<string, Chunk>): (actions: seq<ChunkAction>)
    ensures |actions| == |ids|
    ensures forall i :: 0 <= i < |ids| ==> actions[i] == ActionFor(ids[i], old_, new_)
  {
    seq(|ids|, i requires 0 <= i < |ids| => ActionFor(ids[i], old_, new_))
  }

  function ChunkMap(m: IndexManifest): map<string, Chunk> {
    DictBy(ManifestChunks(m.documents), ChunkIdOf)
  }

  /** Chunk ids are unique across the documents. */
  ghost predicate GloballyUnique(m: IndexManifest) {
    DistinctKeys(ManifestChunks(m.documents), ChunkIdOf)
  }

  function Diff(previous: IndexManifest, desired: IndexManifest): seq<ChunkAction> {
    ActionsFor(SortedSet(ChunkMap(previous).Keys + ChunkMap(desired).Keys), ChunkMap(previous), ChunkMap(desired))
  }

  method ActionsInOrder(ids: seq<string>, oldMap: map<string, Chunk>, newMap: map<string, Chunk>)
    returns (actions: seq<ChunkAction>)
    ensures actions == ActionsFor(ids, oldMap, newMap)
  {
    actions := [];
    for i := 0 to |ids|
      invariant actions == ActionsFor(ids[..i], oldMap, newMap)
    {
      var before := if ids[i] in oldMap then Some(oldMap[ids[i]].bodyHash) else None;
      var after := if ids[i] in newMap then Some(newMap[ids[i]].bodyHash) else None;
      var operation, reason := Skip, Unchanged;
      if before.None? {
        operation, reason := Upsert, Created;
      } else if after.None? {
        operation, reason := Delete, Removed;
      } else if before != after {
        operation, reason := Upsert, Updated;
      }
      actions := actions + [ChunkAction(operation, reason, ids[i], before, after)];
    }
    assert ids[..|ids|] == ids;
  }

  method DiffManifestChunks(previous: IndexManifest, desired: IndexManifest)
    returns (r: Result<seq<ChunkAction>, ManifestError>)
    ensures r.Ok? <==> GloballyUnique(previous) && GloballyUnique(desired)
    ensures r.Ok? ==> r.value == Diff(previous, desired)
    ensures r.Err? ==> r.error == DuplicateChunkIds
  {
    hide SortedSet, DistinctKeys, DictBy, ActionsFor;
    var oldMap, newMap := ChunkMap(previous), ChunkMap(desired);
    DictCount(ManifestChunks(previous.documents), ChunkIdOf);
    DictCount(ManifestChunks(desired.documents), ChunkIdOf);
    if |oldMap| != |ManifestChunks(previous.documents)| || |newMap| != |ManifestChunks(desired.documents)| {
      return Err(DuplicateChunkIds);
    }
    var actions := ActionsInOrder(SortedSet(oldMap.Keys + newMap.Keys), oldMap, newMap);
    return Ok(actions);
  }

  // ---- the diff is a patch ----

  function Hashes(chunks: map<string, Chunk>): map<string, string> {
    map id | id in chunks :: chunks[id].bodyHash
  }

  /** What carrying out one action does to an id-to-hash map. */
  function Perform(hashes: map<string, string>, action: ChunkAction): map<string, string> {
    match action.operation
    case Upsert => hashes[action.chunkId := action.newHash.GetOr("")]
    case Delete => hashes - {action.chunkId}
    case Skip => hashes
  }

  function PerformAll(hashes: map<string, string>, actions: seq<ChunkAction>): map<string, string> {
    if actions == [] then hashes
    else Perform(PerformAll(hashes, actions[..|actions| - 1]), actions[|actions| - 1])
  }

  /** After some actions the processed ids are as in the new map and the others as in the old one. */
  ghost predicate PatchedUpTo(ids: seq<string>, old_: map<string, Chunk>, new_: map<string, Chunk>,
                              result: map<string, string>, id: string) {
    if id in ids then (id in result <==> id in new_) && (id in new_ ==> result[id] == new_[id].bodyHash)
    else (id in result <==> id in old_) && (id in old_ ==> result[id] == old_[id].bodyHash)
  }

  lemma {:induction false} PerformedSoFar(ids: seq<string>, old_: map<string, Chunk>, new_: map<string, Chunk>, id: string)
    requires forall i, j :: 0 <= i < |ids| && 0 <= j < |ids| && ids[i] == ids[j] ==> i == j
    requires forall i :: 0 <= i < |ids| ==> ids[i] in old_ || ids[i] in new_
    ensures PatchedUpTo(ids, old_, new_, PerformAll(Hashes(old_), ActionsFor(ids, old_, new_)), id)
    decreases |ids|
  {
    if ids == [] {
    } else {
      var init, last := ids[..|ids| - 1], ids[|ids| - 1];
      assert ids == init + [last];
      PerformedSoFar(init, old_, new_, id);
      var actions := ActionsFor(ids, old_, new_);
      assert actions[..|ids| - 1] == ActionsFor(init, old_, new_);
      assert last !in init;
    }
  }

  lemma PatchComplete(ids: seq<string>, old_: map<string, Chunk>, new_: map<string, Chunk>)
    requires forall i, j :: 0 <= i < |ids| && 0 <= j < |ids| && ids[i] == ids[j] ==> i == j
    requires forall id :: id in ids <==> id in old_ || id in new_
    ensures PerformAll(Hashes(old_), ActionsFor(ids, old_, new_)) == Hashes(new_)
  {
    hide PerformAll;
    var result := PerformAll(Hashes(old_), ActionsFor(ids, old_, new_));
    assert forall i :: 0 <= i < |ids| ==> ids[i] in ids;
    forall id
      ensures id in result <==> id in Hashes(new_)
      ensures id in result && id in Hashes(new_) ==> result[id] == Hashes(new_)[id]
    {
      PerformedSoFar(ids, old_, new_, id);
    }
  }

  function ActionIds(actions: seq<ChunkAction>): (ids: seq<string>)
    ensures |ids| == |actions| && forall i :: 0 <= i < |ids| ==> ids[i] == actions[i].chunkId
  {
    seq(|actions|, i requires 0 <= i < |actions| => actions[i].chunkId)
  }

  /** Every id of the two manifests occurs once, in order, and performing the actions turns the old hashes into the new. */
  lemma DiffIsPatch(previous: IndexManifest, desired: IndexManifest)
    ensures PerformAll(Hashes(ChunkMap(previous)), Diff(previous, desired)) == Hashes(ChunkMap(desired))
    ensures ActionIds(Diff(previous, desired)) == SortedSet(ChunkMap(previous).Keys + ChunkMap(desired).Keys)
  {
    hide SortedSet, ChunkMap, StrLess, PerformAll, Hashes;
    var old_, new_ := ChunkMap(previous), ChunkMap(desired);
    var ids := SortedSet(old_.Keys + new_.Keys);
    SortedSetSorted(old_.Keys + new_.Keys);
    StrictlySortedDistinct(ids);
    hide StrictlySorted;
    PatchComplete(ids, old_, new_);
  }

  // ---- the diff and the vector store ----

  /** The managed points are exactly the manifest's chunks with the manifest's hashes. */
  ghost predicate StoreHolds(points: Points, m: IndexManifest) {
    && (forall p :: IsManaged(points, p) ==>
          ChunkAt(points, p) in ChunkMap(m) && HashAt(points, p) == ChunkMap(m)[ChunkAt(points, p)].bodyHash)
    && (forall id :: id in ChunkMap(m) ==> exists p :: Holds(points, p, id))
  }

  ghost predicate HasAction(actions: seq<ChunkAction>, operation: Operation, id: string) {
    exists a :: a in actions && a.operation == operation && a.chunkId == id
  }

  lemma ActionAmong(ids: seq<string>, old_: map<string, Chunk>, new_: map<string, Chunk>, operation: Operation, id: string)
    ensures HasAction(ActionsFor(ids, old_, new_), operation, id) <==>
              id in ids && ActionFor(id, old_, new_).operation == operation
  {
    var actions := ActionsFor(ids, old_, new_);
    if id in ids && ActionFor(id, old_, new_).operation == operation {
      var i :| 0 <= i < |ids| && ids[i] == id;
      assert actions[i] == ActionFor(id, old_, new_) && actions[i] in actions;
    }
  }

  lemma ActionAt(previous: IndexManifest, desired: IndexManifest, operation: Operation, id: string)
    ensures HasAction(Diff(previous, desired), operation, id) <==>
              (id in ChunkMap(previous) || id in ChunkMap(desired)) &&
              ActionFor(id, ChunkMap(previous), ChunkMap(desired)).operation == operation
  {
    hide SortedSet, ChunkMap, HasAction, ActionsFor;
    ActionAmong(SortedSet(ChunkMap(previous).Keys + ChunkMap(desired).Keys), ChunkMap(previous), ChunkMap(desired),
                operation, id);
  }

  /** When the collection holds the previous manifest, the diff's upserts are exactly the chunks an apply plans to write. */
  lemma DiffUpsertsArePlanned(points: Points, job: Job, previous: IndexManifest, desired: IndexManifest, id: string)
    requires StoreHolds(points, previous) && job.desired == ChunkMap(desired)
    ensures HasAction(Diff(previous, desired), Upsert, id) <==>
              id in UpsertPlan(points, job)
  {
    ActionAt(previous, desired, Upsert, id);
    hide ChunkMap, Diff, HasAction;
    if id in ChunkMap(previous) {
      var p :| Holds(points, p, id);
      assert HashAt(points, p) == ChunkMap(previous)[id].bodyHash;
    }
  }

  /** And its deletions are exactly the chunks of the points an apply plans to delete. */
  lemma DiffDeletesArePlanned(points: Points, job: Job, previous: IndexManifest, desired: IndexManifest, id: string)
    requires StoreHolds(points, previous) && job.desired == ChunkMap(desired)
    ensures HasAction(Diff(previous, desired), Delete, id) <==>
              exists p :: p in StalePoints(points, job) && ChunkAt(points, p) == id
  {
    ActionAt(previous, desired, Delete, id);
    hide ChunkMap, Diff, HasAction;
    if id in ChunkMap(previous) {
      var p :| Holds(points, p, id);
      assert id !in job.desired ==> p in StalePoints(points, job);
    }
  }

  // ---- what an action says ----

  /** The manifest lists a chunk with this id and hash. */
  ghost predicate ListsChunk(m: IndexManifest, id: string, hash: string) {
    exists c :: c in ManifestChunks(m.documents) && c.body.chunkId == id && c.bodyHash == hash
  }

  /** The hash, if any, is that of the manifest's chunk. */
  ghost predicate TellsHash(told: Option<string>, m: IndexManifest, id: string) {
    match told
    case None => forall hash :: !ListsChunk(m, id, hash)
    case Some(hash) => ListsChunk(m, id, hash)
  }

  lemma HashTold(m: IndexManifest, id: string)
    ensures TellsHash(HashIn(ChunkMap(m), id), m, id)
  {
    DictMembers(ManifestChunks(m.documents), ChunkIdOf, id);
    hide DictBy, ManifestChunks;
    assert forall c: Chunk {:trigger c.body} :: ChunkIdOf(c) == c.body.chunkId;
  }

  /** Each action names the hashes of its chunk on both sides, and they decide what is done and why. */
  lemma ActionsTell(previous: IndexManifest, desired: IndexManifest, a: ChunkAction)
    requires a in Diff(previous, desired)
    ensures TellsHash(a.oldHash, previous, a.chunkId) && TellsHash(a.newHash, desired, a.chunkId)
    ensures a.oldHash.Some? || a.newHash.Some?
    ensures a.reason == Created <==> a.oldHash.None?
    ensures a.reason == Removed <==> a.newHash.None?
    ensures a.reason == Updated <==> a.oldHash.Some? && a.newHash.Some? && a.oldHash != a.newHash
    ensures a.reason == Unchanged <==> a.oldHash == a.newHash
    ensures a.operation == Upsert <==> a.reason == Created || a.reason == Updated
    ensures a.operation == Delete <==> a.reason == Removed
  {
    hide ChunkMap, TellsHash, SortedSet, ActionFor, HashIn;
    var ids := SortedSet(ChunkMap(previous).Keys + ChunkMap(desired).Keys);
    var i :| 0 <= i < |ids| && Diff(previous, desired)[i] == a;
    assert ids[i] in ids;
    HashTold(previous, ids[i]);
    HashTold(desired, ids[i]);
    ActionMeans(ids[i], ChunkMap(previous), ChunkMap(desired));
  }

  lemma ActionMeans(id: string, old_: map<string, Chunk>, new_: map<string, Chunk>)
    requires id in old_ || id in new_
    ensures var a := ActionFor(id, old_, new_);
            && a.chunkId == id && a.oldHash == HashIn(old_, id) && a.newHash == HashIn(new_, id)
            && (a.oldHash.Some? || a.newHash.Some?)
            && (a.reason == Created <==> a.oldHash.None?) && (a.reason == Removed <==> a.newHash.None?)
            && (a.reason == Updated <==> a.oldHash.Some? && a.newHash.Some? && a.oldHash != a.newHash)
            && (a.reason == Unchanged <==> a.oldHash == a.newHash)
            && (a.operation == Upsert <==> a.reason == Created || a.reason == Updated)
            && (a.operation == Delete <==> a.reason == Removed)
  {
  }

  // ---- document-level reconciliation ----

  function DocumentMap(m: IndexManifest): map<string, IndexedDocument> {
    DictBy(m.documents, DocumentIdOf)
  }

  function ChunkIds(chunks: seq<Chunk>): (ids: seq<string>)
    ensures |ids| == |chunks| && forall i :: 0 <= i < |chunks| ==> ids[i] == ChunkIdOf(chunks[i])
  {
    seq(|chunks|, i requires 0 <= i < |chunks| => ChunkIdOf(chunks[i]))
  }

  predicate Carried(document: IndexedDocument, others: map<string, IndexedDocument>) {
    document.documentId in others && others[document.documentId] == document
  }

  /** The chunk ids of the documents the other manifest does not carry unchanged. */
  function ChangedIds(documents: seq<IndexedDocument>, others: map<string, IndexedDocument>): seq<string> {
    if documents == [] then []
    else ChangedIds(documents[..|documents| - 1], others)
         + if Carried(documents[|documents| - 1], others) then [] else ChunkIds(documents[|documents| - 1].chunks)
  }

  datatype IndexUpdate = IndexUpdate(
    manifest: IndexManifest,
    deletedChunkIds: seq<string>,
    upsertedChunkIds: seq<string>,
    chunkActions: seq<ChunkAction>,
    changed: bool
  )

  class IndexStore {
    var manifest: IndexManifest

    constructor (manifest: IndexManifest)
      ensures this.manifest == manifest
    {
      this.manifest := manifest;
    }

    method Save(next: IndexManifest) returns (changed: bool)
      modifies this
      ensures manifest == next && changed == (next != old(manifest))
    {
      changed := next != manifest;
      manifest := next;
    }
  }

  method ChangedChunkIds(documents: seq<IndexedDocument>, others: map<string, IndexedDocument>) returns (ids: seq<string>)
    ensures ids == ChangedIds(documents, others)
  {
    ids := [];
    for i := 0 to |documents|
      invariant ids == ChangedIds(documents[..i], others)
    {
      assert documents[..i + 1][..i] == documents[..i];
      if documents[i].documentId !in others || others[documents[i].documentId] != documents[i] {
        ids := ids + ChunkIds(documents[i].chunks);
      }
    }
    assert documents[..|documents|] == documents;
  }

  method ReconcileIndex(store: IndexStore, chunks: seq<Chunk>, sourceCommit: string, hash: ManifestHash)
    returns (r: Result<IndexUpdate, ManifestError>)
    modifies store
    ensures r.Err? ==> store.manifest == old(store.manifest)
    ensures r.Ok? ==>
              var previous, current := old(store.manifest), r.value.manifest;
              && BuiltManifest(chunks, sourceCommit, hash) == Ok(current) && store.manifest == current
              && GloballyUnique(previous) && GloballyUnique(current)
              && r.value.chunkActions == Diff(previous, current)
              && r.value.deletedChunkIds == SortBy(ChangedIds(previous.documents, DocumentMap(current)), Itself, StrLess)
              && r.value.upsertedChunkIds == SortBy(ChangedIds(current.documents, DocumentMap(previous)), Itself, StrLess)
              && r.value.changed == (current != previous)
  {
    var previous := store.manifest;
    var built := BuildIndexManifest(chunks, sourceCommit, hash);
    if built.Err? {
      return Err(built.error);
    }
    hide SortBy, Diff, ChangedIds, DocumentMap, GloballyUnique, BuiltManifest;
    var current := built.value;
    var actions := DiffManifestChunks(previous, current);
    if actions.Err? {
      return Err(actions.error);
    }
    var deleted := ChangedChunkIds(previous.documents, DocumentMap(current));
    var upserted := ChangedChunkIds(current.documents, DocumentMap(previous));
    var changed := store.Save(current);
    return Ok(IndexUpdate(current, SortBy(deleted, Itself, StrLess), SortBy(upserted, Itself, StrLess),
                          actions.value, changed));
  }

  // ---- the two reports agree ----

  lemma {:induction false} ChangedIdsMembers(documents: seq<IndexedDocument>, others: map<string, IndexedDocument>, id: string)
    ensures id in ChangedIds(documents, others) <==>
              exists d, c :: d in documents && !Carried(d, others) && c in d.chunks && ChunkIdOf(c) == id
    decreases |documents|
  {
    if documents == [] {
    } else {
      var init, last := documents[..|documents| - 1], documents[|documents| - 1];
      assert documents == init + [last];
      ChangedIdsMembers(init, others, id);
      if id in ChunkIds(last.chunks) {
        var i :| 0 <= i < |last.chunks| && ChunkIds(last.chunks)[i] == id;
        assert last.chunks[i] in last.chunks;
      }
      if d, c :| d in documents && !Carried(d, others) && c in d.chunks && ChunkIdOf(c) == id {
        if d !in init {
          var i :| 0 <= i < |d.chunks| && d.chunks[i] == c;
          assert ChunkIds(d.chunks)[i] == id;
        }
      }
    }
  }

  lemma {:induction false} ManifestChunkMembers(documents: seq<IndexedDocument>, c: Chunk)
    ensures c in ManifestChunks(documents) <==> exists d :: d in documents && c in d.chunks
    decreases |documents|
  {
    if documents == [] {
    } else {
      ManifestChunkMembers(documents[1..], c);
      assert documents == [documents[0]] + documents[1..];
    }
  }

  /** Manifests as the validators admit them. */
  ghost predicate Admitted(m: IndexManifest) {
    GloballyUnique(m) && DistinctKeys(m.documents, DocumentIdOf)
  }

  /** The document that owns a chunk id. */
  lemma OwnerOf(m: IndexManifest, id: string) returns (d: IndexedDocument)
    requires Admitted(m) && id in ChunkMap(m)
    ensures d in m.documents && ChunkMap(m)[id] in d.chunks && ChunkIdOf(ChunkMap(m)[id]) == id
    ensures d.documentId in DocumentMap(m) && DocumentMap(m)[d.documentId] == d
  {
    DictMembers(ManifestChunks(m.documents), ChunkIdOf, id);
    ManifestChunkMembers(m.documents, ChunkMap(m)[id]);
    d :| d in m.documents && ChunkMap(m)[id] in d.chunks;
    DictLookup(m.documents, DocumentIdOf, d);
  }

  /** A chunk in some document is the one its id maps to. */
  lemma ChunkOwned(m: IndexManifest, d: IndexedDocument, c: Chunk)
    requires Admitted(m) && d in m.documents && c in d.chunks
    ensures ChunkIdOf(c) in ChunkMap(m) && ChunkMap(m)[ChunkIdOf(c)] == c
  {
    ManifestChunkMembers(m.documents, c);
    DictLookup(ManifestChunks(m.documents), ChunkIdOf, c);
  }

  /** Whether a chunk id is reported among the ids of the documents that changed. */
  ghost predicate Reported(m: IndexManifest, others: IndexManifest, id: string) {
    id in ChangedIds(m.documents, DocumentMap(others))
  }

  lemma ReportedOnlyOwn(m: IndexManifest, others: IndexManifest, id: string)
    requires Admitted(m) && Reported(m, others, id)
    ensures id in ChunkMap(m)
  {
    ChangedIdsMembers(m.documents, DocumentMap(others), id);
    var d, c :| d in m.documents && !Carried(d, DocumentMap(others)) && c in d.chunks && ChunkIdOf(c) == id;
    ChunkOwned(m, d, c);
  }

  /** A chunk that is new or different in one manifest makes its document differ. */
  lemma ChangedIsReported(m: IndexManifest, others: IndexManifest, id: string)
    requires Admitted(m) && Admitted(others) && id in ChunkMap(m)
    requires HashIn(ChunkMap(others), id) != Some(ChunkMap(m)[id].bodyHash)
    ensures Reported(m, others, id)
  {
    var d := OwnerOf(m, id);
    var c := ChunkMap(m)[id];
    if Carried(d, DocumentMap(others)) {
      DictMembers(others.documents, DocumentIdOf, d.documentId);
      ChunkOwned(others, d, c);
    }
    ChangedIdsMembers(m.documents, DocumentMap(others), id);
  }

  /**
   * Every created chunk id is among the upserted and not among the deleted ids of the document-level
   * report, every removed one the other way round, and every updated one is in both.
   */
  lemma ReportsAgree(previous: IndexManifest, current: IndexManifest, id: string)
    requires Admitted(previous) && Admitted(current)
    requires id in ChunkMap(previous) || id in ChunkMap(current)
    ensures match ActionFor(id, ChunkMap(previous), ChunkMap(current)).reason
            case Created => Reported(current, previous, id) && !Reported(previous, current, id)
            case Removed => !Reported(current, previous, id) && Reported(previous, current, id)
            case Updated => Reported(current, previous, id) && Reported(previous, current, id)
            case Unchanged => ChunkMap(previous)[id].bodyHash == ChunkMap(current)[id].bodyHash
  {
    hide ChunkMap, Admitted, Reported;
    if Reported(previous, current, id) {
      ReportedOnlyOwn(previous, current, id);
    }
    if Reported(current, previous, id) {
      ReportedOnlyOwn(current, previous, id);
    }
    if id in ChunkMap(current) && HashIn(ChunkMap(previous), id) != Some(ChunkMap(current)[id].bodyHash) {
      ChangedIsReported(current, previous, id);
    }
    if id in ChunkMap(previous) && HashIn(ChunkMap(current), id) != Some(ChunkMap(previous)[id].bodyHash) {
      ChangedIsReported(previous, current, id);
    }
  }
}
