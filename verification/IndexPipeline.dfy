/** From approved documents to the vector index: chunks, manifest and reconciliation put together. */
module IndexPipeline {
  import opened Wrappers
  import opened Ordering
  import opened Sorting
  import opened Dictionaries
  import opened Models
  import opened Chunks
  import opened ChunkTheorems
  import opened CatalogChunks
  import opened IndexManifests
  import opened IndexDiff
  import opened VectorStore
  import opened Reconciliation
  import opened ApplyIndex

  // ---- the manifest holds the batch ----

  lemma {:induction false} ManifestChunksAppend(documents: seq<IndexedDocument>, d: IndexedDocument)
    ensures ManifestChunks(documents + [d]) == ManifestChunks(documents) + d.chunks
    decreases |documents|
  {
    if documents == [] {
      assert ManifestChunks([d]) == d.chunks + ManifestChunks([]);
    } else {
      assert (documents + [d])[1..] == documents[1..] + [d];
      ManifestChunksAppend(documents[1..], d);
    }
  }

  lemma GroupSorted(chunks: seq<Chunk>, id: string)
    requires DistinctKeys(chunks, ChunkIdOf) && Group(chunks, id) != []
    ensures var d := DocumentOf(id, Group(chunks, id));
            DistinctKeys(d.chunks, ChunkIdOf)
            && forall c :: c in d.chunks <==> c in chunks && c.body.indexEligible && NameOf(c) == id
  {
    hide DistinctKeys, SortBy, Group;
    var group := Group(chunks, id);
    GroupDistinct(chunks, id);
    GroupMembers(chunks, id);
    SortMultiset(group, ChunkIdOf, StrLess);
    SortMembers(group, ChunkIdOf, StrLess);
    DistinctPermuted(group, SortBy(group, ChunkIdOf, StrLess), ChunkIdOf);
  }

  lemma SameIdSameChunk(chunks: seq<Chunk>, x: Chunk, y: Chunk)
    requires DistinctKeys(chunks, ChunkIdOf) && x in chunks && y in chunks && ChunkIdOf(x) == ChunkIdOf(y)
    ensures x == y
  {
  }

  /** The documents of some eligible names hold exactly those names' eligible chunks, each once. */
  lemma {:induction false} DocumentsHold(chunks: seq<Chunk>, ids: seq<string>)
    requires DistinctKeys(chunks, ChunkIdOf) && forall id :: id in ids ==> id in EligibleNames(chunks)
    requires forall i, j :: 0 <= i < j < |ids| ==> ids[i] != ids[j]
    ensures var all := ManifestChunks(DocumentsFor(chunks, ids));
            DistinctKeys(all, ChunkIdOf) && forall c :: c in all <==> c in chunks && c.body.indexEligible && NameOf(c) in ids
    decreases |ids|
  {
    hide EligibleNames, DocumentOf, Group;
    if ids == [] {
    } else {
      var init, last := ids[..|ids| - 1], ids[|ids| - 1];
      GroupNonEmpty(chunks, last);
      DocumentsHold(chunks, init);
      GroupSorted(chunks, last);
      var d := DocumentOf(last, Group(chunks, last));
      var before := ManifestChunks(DocumentsFor(chunks, init));
      ManifestChunksAppend(DocumentsFor(chunks, init), d);
      assert ids == init + [last];
      hide DistinctKeys;
      forall x, y | x in before && y in d.chunks ensures ChunkIdOf(x) != ChunkIdOf(y) {
        if ChunkIdOf(x) == ChunkIdOf(y) {
          SameIdSameChunk(chunks, x, y);
        }
      }
      DistinctConcat(before, d.chunks, ChunkIdOf);
    }
  }

  /** A manifest built from a batch of eligible chunks holds exactly the batch. */
  lemma ManifestHoldsBatch(chunks: seq<Chunk>, sourceCommit: string, hash: ManifestHash)
    requires CleanBatch(chunks) && forall c :: c in chunks ==> c.body.indexEligible
    requires BuiltManifest(chunks, sourceCommit, hash).Ok?
    ensures var all := ManifestChunks(BuiltManifest(chunks, sourceCommit, hash).value.documents);
            DistinctKeys(all, ChunkIdOf) && forall c :: c in all <==> c in chunks
  {
    hide SoundChunk, SameVersions, SortedSet, ValidManifest, DistinctKeys, DocumentsFor;
    var ids := SortedSet(EligibleNames(chunks));
    SortedSetSorted(EligibleNames(chunks));
    StrictlySortedDistinct(ids);
    DocumentsHold(chunks, ids);
    forall c | c in chunks ensures NameOf(c) in ids {
      assert NameOf(c) in EligibleNames(chunks);
    }
  }

  // ---- honest content ----

  /** Every chunk of an accepted document carries the hash of its own body, and is eligible. */
  lemma AcceptedHonest(d: PublishedDocument, p: Primitives, c: Chunk)
    requires Accepted(d, p) && c in ChunksOf(d, p)
    ensures c.bodyHash == p.hash(c.body) && c.body.indexEligible
  {
    hide ChunksOf, AllColumnIssues, AllRelationshipIssues, OfType, DictBy, From;
    var chunks := ChunksOf(d, p);
    assert AllOwnIssues(d, chunks, p) == [];
    AllOwnClean(d, chunks, p);
    MembersFrom(d, p);
    FromEligible(c, d);
  }

  lemma FromEligible(c: Chunk, d: PublishedDocument)
    requires From(c, d) && d.Valid() && d.documentStatus.Approved?
    ensures c.body.indexEligible
  {
    assert d.Consistent();
  }

  lemma BatchHonest(chunks: seq<Chunk>, documents: seq<PublishedDocument>, p: Primitives)
    requires CatalogBatch(chunks, documents, p)
    ensures CleanBatch(chunks)
    ensures forall c :: c in chunks <==> c in ChunksOfAll(documents, p)
    ensures forall c :: c in chunks ==> c.bodyHash == p.hash(c.body) && c.body.indexEligible
  {
    hide Accepted, ChunksOf, ChunksOfAll, CleanBatch, DistinctKeys;
    BatchClean(documents, p);
    CleanPermuted(ChunksOfAll(documents, p), chunks);
    forall c ensures c in chunks <==> c in ChunksOfAll(documents, p) {
      assert c in chunks <==> c in multiset(chunks);
      assert c in ChunksOfAll(documents, p) <==> c in multiset(ChunksOfAll(documents, p));
    }
    forall c | c in chunks ensures c.bodyHash == p.hash(c.body) && c.body.indexEligible {
      CollectedFrom(documents, p, c);
      var d :| d in documents && c in ChunksOf(d, p);
      AcceptedHonest(d, p, c);
    }
  }

  // ---- the job of a catalog batch ----

  function CatalogJob(manifest: IndexManifest, pointId: string -> string, embed: string -> Vector, stamp: RunStamp): Job {
    Job(ChunkMap(manifest), pointId, embed, stamp)
  }

  lemma SoundNamed(c: Chunk)
    requires SoundChunk(c)
    ensures c.body.chunkId != ""
  {
  }

  /** A manifest built from a catalog batch holds exactly the batch, well formed and each id once. */
  lemma BatchBuilds(chunks: seq<Chunk>, documents: seq<PublishedDocument>, p: Primitives, sourceCommit: string, hash: ManifestHash)
    requires CatalogBatch(chunks, documents, p)
    requires IsCommit(sourceCommit) && forall c, ds :: IsDigest(hash(c, ds))
    requires forall c :: c in chunks ==> IsDigest(c.bodyHash)
    ensures BuiltManifest(chunks, sourceCommit, hash).Ok?
    ensures var all := ManifestChunks(BuiltManifest(chunks, sourceCommit, hash).value.documents);
            ValidChunks(all) && DistinctKeys(all, ChunkIdOf) && forall c :: c in all <==> c in chunks
  {
    hide CatalogBatch, BuiltManifest, DistinctKeys, SoundChunk, SameVersions, IsDigest, IsCommit;
    BatchHonest(chunks, documents, p);
    CleanBatchManifest(chunks, sourceCommit, hash);
    ManifestHoldsBatch(chunks, sourceCommit, hash);
    forall c | c in chunks ensures c.body.chunkId != "" {
      assert SoundChunk(c);
      SoundNamed(c);
    }
  }

  /** The job of a manifest desires each of its chunks under its own id, and nothing else. */
  lemma JobDesires(all: seq<Chunk>)
    requires ValidChunks(all) && DistinctKeys(all, ChunkIdOf)
    ensures var desired := DictBy(all, ChunkIdOf);
            && (forall c :: c in all ==> ChunkIdOf(c) in desired && desired[ChunkIdOf(c)] == c)
            && (forall id :: id in desired ==> desired[id] in all && ChunkIdOf(desired[id]) == id)
  {
    hide DictBy, DistinctKeys, ValidChunks;
    forall c | c in all { DictLookup(all, ChunkIdOf, c); }
    forall id { DictMembers(all, ChunkIdOf, id); }
  }

  /**
   * A batch collected from accepted documents always builds a manifest, and applying that manifest is a valid
   * and honest job that desires exactly the batch, for any injective point ids.
   */
  lemma BatchMakesHonestJob(chunks: seq<Chunk>, documents: seq<PublishedDocument>, p: Primitives, sourceCommit: string,
                            hash: ManifestHash, pointId: string -> string, embed: string -> Vector, stamp: RunStamp)
    requires CatalogBatch(chunks, documents, p) && Injective(pointId)
    requires IsCommit(sourceCommit) && forall c, ds :: IsDigest(hash(c, ds))
    requires forall c :: c in chunks ==> IsDigest(c.bodyHash)
    ensures BuiltManifest(chunks, sourceCommit, hash).Ok?
    ensures var manifest := BuiltManifest(chunks, sourceCommit, hash).value;
            var job := CatalogJob(manifest, pointId, embed, stamp);
            && ValidChunks(ManifestChunks(manifest.documents)) && DistinctKeys(ManifestChunks(manifest.documents), ChunkIdOf)
            && HonestJob(job, p.hash, embed)
            && (forall c :: c in chunks ==> ChunkIdOf(c) in job.desired && job.desired[ChunkIdOf(c)] == c)
            && (forall id :: id in job.desired ==> job.desired[id] in chunks && ChunkIdOf(job.desired[id]) == id)
  {
    hide CatalogBatch, BuiltManifest, DistinctKeys, IsDigest, Injective, IsCommit, CleanBatch;
    BatchHonest(chunks, documents, p);
    BatchBuilds(chunks, documents, p, sourceCommit, hash);
    var manifest := BuiltManifest(chunks, sourceCommit, hash).value;
    var all := ManifestChunks(manifest.documents);
    JobDesires(all);
    var job := CatalogJob(manifest, pointId, embed, stamp);
    forall id | id in job.desired
      ensures id != "" && job.desired[id].body.chunkId == id && IsDigest(job.desired[id].bodyHash)
      ensures job.desired[id].bodyHash == p.hash(job.desired[id].body)
    {
      assert job.desired[id] in all;
    }
  }

  // ---- end to end ----

  /**
   * The store holds exactly the chunks of the documents, each with its content and the vector of that content,
   * and every point tells of the document its chunk was cut from.
   */
  ghost predicate HoldsCatalog(points: Points, documents: seq<PublishedDocument>, p: Primitives,
                               pointId: string -> string, embed: string -> Vector) {
    && (forall q :: IsManaged(points, q) ==> exists d :: d in documents && HoldsChunkOf(points, q, d, p, pointId, embed))
    && (forall c :: c in ChunksOfAll(documents, p) ==> PointHolds(points, pointId(ChunkIdOf(c)), c, p, pointId, embed))
  }

  ghost predicate PointHolds(points: Points, q: string, c: Chunk, p: Primitives, pointId: string -> string, embed: string -> Vector) {
    q == pointId(ChunkIdOf(c)) && IsManaged(points, q) && WrittenFrom(points[q], c.body, p.hash, embed)
  }

  /** The point is that of a chunk of the document, and names the document, its versions and its origin. */
  ghost predicate HoldsChunkOf(points: Points, q: string, d: PublishedDocument, p: Primitives, pointId: string -> string, embed: string -> Vector) {
    && (exists c :: c in ChunksOf(d, p) && PointHolds(points, q, c, p, pointId, embed))
    && TellsDocument(points[q], d)
  }

  predicate TellsDocument(point: Point, d: PublishedDocument) {
    && point.payload.facts.Some?
    && var facts := point.payload.facts.value;
       && facts.documentId == d.documentId && facts.database == d.database && facts.table == d.table
       && facts.schemaHash == d.schemaHash && facts.sourceReviewCommit == d.provenance.sourceReviewCommit
       && facts.generatorModel == d.provenance.generatorModel && facts.promptVersion == d.provenance.promptVersion
  }

  /** The document id of every point is that of the manifest document its chunk is listed in. */
  ghost predicate OwnersTold(points: Points, m: IndexManifest) {
    forall q :: IsManaged(points, q) ==> exists d :: d in m.documents && ListedIn(points[q], d)
  }

  ghost predicate ListedIn(point: Point, d: IndexedDocument) {
    && (exists c :: c in d.chunks && point.payload.chunkId == Some(ChunkIdOf(c)))
    && point.payload.facts.Some? && point.payload.facts.value.documentId == d.documentId
  }

  lemma ChunkTellsDocument(point: Point, c: Chunk, d: PublishedDocument, p: Primitives, embed: string -> Vector)
    requires d.Valid() && c in ChunksOf(d, p) && WrittenFrom(point, c.body, p.hash, embed)
    ensures TellsDocument(point, d)
  {
    MembersFrom(d, p);
    hide ChunksOf;
    assert From(c, d) && d.Consistent();
  }

  /** A chunk of a built manifest is listed in the document its point names. */
  lemma BuiltOwner(m: IndexManifest, chunks: seq<Chunk>, sourceCommit: string, hash: ManifestHash, c: Chunk, point: Point,
                   p: Primitives, embed: string -> Vector)
    requires BuiltManifest(chunks, sourceCommit, hash) == Ok(m) && c in ManifestChunks(m.documents)
    requires c.Consistent() && WrittenFrom(point, c.body, p.hash, embed)
    ensures exists d :: d in m.documents && ListedIn(point, d)
  {
    ManifestChunkMembers(m.documents, c);
    var d :| d in m.documents && c in d.chunks;
    assert d.Valid() by { BuiltValid(m, chunks, sourceCommit, hash, d); }
    hide IndexedDocument.Valid, BuiltManifest;
    OwnerNamed(d, c);
    assert ListedIn(point, d);
  }

  lemma BuiltValid(m: IndexManifest, chunks: seq<Chunk>, sourceCommit: string, hash: ManifestHash, d: IndexedDocument)
    requires BuiltManifest(chunks, sourceCommit, hash) == Ok(m) && d in m.documents
    ensures d.Valid()
  {
    hide IndexedDocument.Valid, ValidManifest;
  }

  /**
   * End to end: after any history of cut-off runs of any honest manifests, one completed run of the manifest
   * built from the accepted documents is verified, and the store then holds exactly the chunks of those
   * documents, each with its content and the vector of that content, and every point names its document.
   */
  lemma CatalogIndexed(points: Points, runs: seq<Run>, states: seq<Points>, chunks: seq<Chunk>,
                       documents: seq<PublishedDocument>, p: Primitives, sourceCommit: string, hash: ManifestHash,
                       pointId: string -> string, embed: string -> Vector, stamp: RunStamp)
    requires RunsFrom(points, runs, states) && WellPlaced(points, pointId) && PipelineWritten(points, p.hash, embed)
    requires forall i :: 0 <= i < |runs| ==> HonestJob(runs[i].job, p.hash, embed) && runs[i].job.pointId == pointId
    requires CatalogBatch(chunks, documents, p) && Injective(pointId) && Injective(p.hash)
    requires IsCommit(sourceCommit) && forall c, ds :: IsDigest(hash(c, ds))
    requires forall c :: c in chunks ==> IsDigest(c.bodyHash)
    ensures BuiltManifest(chunks, sourceCommit, hash).Ok?
    ensures var manifest := BuiltManifest(chunks, sourceCommit, hash).value;
            var job := CatalogJob(manifest, pointId, embed, stamp);
            && ValidJob(job) && Verified(FullRun(states[|runs|], job), job)
            && HoldsCatalog(FullRun(states[|runs|], job), documents, p, pointId, embed)
            && OwnersTold(FullRun(states[|runs|], job), manifest)
  {
    hide CatalogBatch, BuiltManifest, WellPlaced, PipelineWritten, FullRun, ValidJob, Verified, ChunksOfAll;
    hide WrittenFrom, Injective, IsDigest, DistinctKeys, HoldsChunkOf, ListedIn, ManifestChunks;
    BatchHonest(chunks, documents, p);
    BatchMakesHonestJob(chunks, documents, p, sourceCommit, hash, pointId, embed, stamp);
    var manifest := BuiltManifest(chunks, sourceCommit, hash).value;
    var job := CatalogJob(manifest, pointId, embed, stamp);
    var last := states[|runs|];
    var end := FullRun(last, job);
    HistoryKeepsStore(points, runs, states, pointId, p.hash, embed, |runs|);
    WellPlacedVerifies(last, job);
    forall q | IsManaged(end, q)
      ensures exists d :: d in documents && HoldsChunkOf(end, q, d, p, pointId, embed)
      ensures exists d :: d in manifest.documents && ListedIn(end[q], d)
    {
      CompletedRunAligns(points, runs, states, job, p.hash, embed, q);
      var c := job.desired[ChunkAt(end, q)];
      JobChunk(manifest, pointId, embed, stamp, ChunkAt(end, q));
      assert SoundChunk(c) by { BatchSound(chunks, c); }
      BuiltOwner(manifest, chunks, sourceCommit, hash, c, end[q], p, embed);
      var d := PointDocument(end, q, c, documents, p, pointId, embed, chunks);
    }
    forall c | c in ChunksOfAll(documents, p) ensures PointHolds(end, pointId(ChunkIdOf(c)), c, p, pointId, embed) {
      var q := VerifiedHolds(end, job, ChunkIdOf(c));
      CompletedRunAligns(points, runs, states, job, p.hash, embed, q);
    }
  }

  lemma BatchSound(chunks: seq<Chunk>, c: Chunk)
    requires CleanBatch(chunks) && c in chunks
    ensures SoundChunk(c)
  {
  }

  lemma JobChunk(m: IndexManifest, pointId: string -> string, embed: string -> Vector, stamp: RunStamp, id: string)
    requires id in CatalogJob(m, pointId, embed, stamp).desired
    ensures CatalogJob(m, pointId, embed, stamp).desired[id] in ManifestChunks(m.documents)
  {
    DictMembers(ManifestChunks(m.documents), ChunkIdOf, id);
  }

  lemma PointDocument(end: Points, q: string, c: Chunk, documents: seq<PublishedDocument>, p: Primitives,
                      pointId: string -> string, embed: string -> Vector, chunks: seq<Chunk>) returns (d: PublishedDocument)
    requires CatalogBatch(chunks, documents, p) && c in ChunksOfAll(documents, p) && PointHolds(end, q, c, p, pointId, embed)
    ensures d in documents && HoldsChunkOf(end, q, d, p, pointId, embed)
  {
    hide ChunksOf, ChunksOfAll, WrittenFrom, DistinctKeys, TellsDocument;
    CollectedFrom(documents, p, c);
    d :| d in documents && c in ChunksOf(d, p);
    AcceptedValid(d, p);
    ChunkTellsDocument(end[q], c, d, p, embed);
  }

  lemma AcceptedValid(d: PublishedDocument, p: Primitives)
    requires Accepted(d, p)
    ensures d.Valid()
  {
  }

  lemma WellPlacedVerifies(points: Points, job: Job)
    requires ValidJob(job) && WellPlaced(points, job.pointId)
    ensures Verified(FullRun(points, job), job)
  {
    WellPlacedSingle(points, job.pointId);
    WellPlacedSlots(points, job);
    hide ValidJob, Verified, FullRun, SlotsAgree;
    SlotsSuffice(points, job);
  }

  lemma VerifiedHolds(points: Points, job: Job, c: string) returns (q: string)
    requires Verified(points, job) && c in job.desired
    ensures IsManaged(points, q) && ChunkAt(points, q) == c
  {
    q :| Holds(points, q, c);
  }
}
