/**
 * The vector collection as a map from point id to point, and one reconciliation run as a function of
 * how far it got. `UpsertPlan` and `StalePoints` are the two halves of a run's plan, and `After` is
 * the collection once the chunks of `done` are upserted and the points of `gone` are deleted.
 */
module VectorStore {
  import opened Wrappers
  import opened Models

  type Vector = seq<real>

  /** Payload fields copied from the chunk and the run that no later run reads back. */
  datatype Facts = Facts(
    database: string,
    table: string,
    documentId: string,
    chunkType: ChunkType,
    schemaHash: string,
    sourceReviewCommit: string,
    generatorModel: string,
    promptVersion: string
  )

  datatype RunStamp = RunStamp(manifestHash: string, embeddingModel: string, embeddingDimension: nat)

  /** A payload written by anyone; a missing key is `None`. */
  datatype Payload = Payload(
    managedBy: Option<string>,
    chunkId: Option<string>,
    bodyHash: Option<string>,
    content: Option<string>,
    facts: Option<Facts>,
    stamp: Option<RunStamp>
  )

  datatype Point = Point(vector: Vector, payload: Payload)

  type Points = map<string, Point>

  const MANAGED_BY := "metadata-pipeline"

  /** The `managed_by` filter of every read. */
  predicate IsManaged(points: Points, p: string) {
    p in points && points[p].payload.managedBy == Some(MANAGED_BY)
  }

  predicate WellFormedPayload(payload: Payload) {
    && payload.chunkId.Some? && payload.chunkId.value != ""
    && payload.bodyHash.Some? && IsDigest(payload.bodyHash.value)
  }

  /** Every managed payload can be parsed into a chunk state. */
  ghost predicate Readable(points: Points) {
    forall p :: IsManaged(points, p) ==> WellFormedPayload(points[p].payload)
  }

  function ChunkAt(points: Points, p: string): string
    requires p in points
  {
    points[p].payload.chunkId.GetOr("")
  }

  function HashAt(points: Points, p: string): string
    requires p in points
  {
    points[p].payload.bodyHash.GetOr("")
  }

  /** Point p is the managed point of chunk c. */
  predicate Holds(points: Points, p: string, c: string) {
    IsManaged(points, p) && ChunkAt(points, p) == c
  }

  /** No chunk id is managed twice. */
  ghost predicate SingleHolder(points: Points) {
    forall p, q, c :: Holds(points, p, c) && Holds(points, q, c) ==> p == q
  }

  /** What one run is asked to make true, and how it turns a chunk into a point. */
  datatype Job = Job(
    desired: map<string, Chunk>,
    pointId: string -> string,
    embed: string -> Vector,
    stamp: RunStamp
  )

  ghost predicate ValidJob(job: Job) {
    && Injective(job.pointId)
    && forall c :: c in job.desired ==>
         c != "" && job.desired[c].body.chunkId == c && IsDigest(job.desired[c].bodyHash)
  }

  function FactsOf(body: ChunkBody): Facts {
    Facts(body.database, body.table, body.qualifiedName, body.chunkType, body.schemaHash,
          body.sourceReviewCommit, body.generatorModel, body.promptVersion)
  }

  /** The point a run writes for one chunk. */
  function PointOf(chunk: Chunk, vector: Vector, stamp: RunStamp): Point {
    Point(vector,
          Payload(Some(MANAGED_BY), Some(chunk.body.chunkId), Some(chunk.bodyHash),
                  Some(chunk.body.content), Some(FactsOf(chunk.body)), Some(stamp)))
  }

  /** What a point says about its chunk, field by field. */
  predicate Tells(point: Point, body: ChunkBody, bodyHash: string, vector: Vector) {
    var payload := point.payload;
    && point.vector == vector && payload.managedBy == Some("metadata-pipeline")
    && payload.chunkId == Some(body.chunkId) && payload.bodyHash == Some(bodyHash) && payload.content == Some(body.content)
    && payload.facts.Some?
    && var facts := payload.facts.value;
       && facts.database == body.database && facts.table == body.table && facts.documentId == body.qualifiedName
       && facts.chunkType == body.chunkType && facts.schemaHash == body.schemaHash
       && facts.sourceReviewCommit == body.sourceReviewCommit && facts.generatorModel == body.generatorModel
       && facts.promptVersion == body.promptVersion
  }

  /** What a point says about the run that wrote it. */
  predicate Stamped(point: Point, manifestHash: string, embeddingModel: string, embeddingDimension: nat) {
    && point.payload.stamp.Some?
    && var stamp := point.payload.stamp.value;
       && stamp.manifestHash == manifestHash && stamp.embeddingModel == embeddingModel
       && stamp.embeddingDimension == embeddingDimension
  }

  function PointFor(job: Job, c: string): Point
    requires c in job.desired
  {
    PointOf(job.desired[c], job.embed(job.desired[c].body.content), job.stamp)
  }

  /** Some managed point of c carries the desired hash. */
  ghost predicate Correct(points: Points, job: Job, c: string) {
    c in job.desired && exists p :: Holds(points, p, c) && HashAt(points, p) == job.desired[c].bodyHash
  }

  ghost function UpsertPlan(points: Points, job: Job): set<string> {
    set c | c in job.desired && !Correct(points, job, c)
  }

  ghost function StalePoints(points: Points, job: Job): set<string> {
    set p | p in points && IsManaged(points, p) && ChunkAt(points, p) !in job.desired
  }

  ghost function Written(job: Job, done: set<string>): Points
    requires ValidJob(job) && done <= job.desired.Keys
  {
    map c | c in done :: job.pointId(c) := PointFor(job, c)
  }

  ghost function After(points: Points, job: Job, done: set<string>, gone: set<string>): Points
    requires ValidJob(job) && done <= job.desired.Keys
  {
    (points + Written(job, done)) - gone
  }

  /** Deletions start only once every planned upsert is in. */
  ghost predicate LegalCut(points: Points, job: Job, done: set<string>, gone: set<string>) {
    && done <= UpsertPlan(points, job)
    && gone <= StalePoints(points, job)
    && (gone != {} ==> done == UpsertPlan(points, job))
  }

  ghost function FullRun(points: Points, job: Job): Points
    requires ValidJob(job)
  {
    After(points, job, UpsertPlan(points, job), StalePoints(points, job))
  }

  /** What the verification read accepts: exactly the desired ids, once each, with the desired hashes. */
  ghost predicate Verified(points: Points, job: Job) {
    && Readable(points) && SingleHolder(points)
    && (forall p :: IsManaged(points, p) ==>
          ChunkAt(points, p) in job.desired && HashAt(points, p) == job.desired[ChunkAt(points, p)].bodyHash)
    && (forall c :: c in job.desired ==> exists p :: Holds(points, p, c))
  }

  /** Every managed point sits at the point id of its chunk. */
  ghost predicate WellPlaced(points: Points, pointId: string -> string) {
    Readable(points) && forall p :: IsManaged(points, p) ==> p == pointId(ChunkAt(points, p))
  }

  /** A planned chunk's point id. */
  ghost predicate IsSlot(points: Points, job: Job, p: string) {
    exists c :: c in UpsertPlan(points, job) && job.pointId(c) == p
  }

  /** The planned upserts overwrite a managed point exactly when its own chunk is planned. */
  ghost predicate SlotsAgree(points: Points, job: Job) {
    forall p :: IsManaged(points, p) ==>
      (ChunkAt(points, p) in UpsertPlan(points, job) <==> IsSlot(points, job, p))
  }

  // ---- lookups in a partly updated collection ----

  lemma WrittenAt(job: Job, done: set<string>, c: string)
    requires ValidJob(job) && done <= job.desired.Keys && c in done
    ensures job.pointId(c) in Written(job, done)
    ensures Written(job, done)[job.pointId(c)] == PointFor(job, c)
  {
  }

  lemma AfterLookup(points: Points, job: Job, done: set<string>, gone: set<string>, p: string)
    requires ValidJob(job) && done <= job.desired.Keys
    ensures p in gone ==> p !in After(points, job, done, gone)
    ensures p !in gone && (forall c :: c in done ==> job.pointId(c) != p) ==>
              (p in After(points, job, done, gone) <==> p in points) &&
              (p in points ==> After(points, job, done, gone)[p] == points[p])
    ensures p !in gone ==> forall c :: c in done && job.pointId(c) == p ==>
              p in After(points, job, done, gone) && After(points, job, done, gone)[p] == PointFor(job, c)
  {
  }

  lemma WellPlacedSingle(points: Points, pointId: string -> string)
    requires WellPlaced(points, pointId)
    ensures SingleHolder(points)
  {
  }

  lemma WellPlacedSlots(points: Points, job: Job)
    requires ValidJob(job) && WellPlaced(points, job.pointId)
    ensures SlotsAgree(points, job)
  {
  }
}
