/**
 * Safety and convergence of index reconciliation over whole runs: every way one run can be cut off,
 * every number of cut-off runs, and the exact condition under which a fault-free run verifies.
 */
module Reconciliation {
  import opened Wrappers
  import opened Models
  import opened VectorStore

  // ---- one cut-off run on a well-placed collection ----

  lemma ManagedAfter(points: Points, job: Job, done: set<string>, gone: set<string>, p: string)
    requires ValidJob(job) && WellPlaced(points, job.pointId)
    requires done <= UpsertPlan(points, job) && gone <= StalePoints(points, job)
    ensures IsManaged(After(points, job, done, gone), p) <==>
              (IsManaged(points, p) && p !in gone) || exists c :: c in done && job.pointId(c) == p
    ensures forall c :: c in done && job.pointId(c) == p ==>
              p in After(points, job, done, gone) && After(points, job, done, gone)[p] == PointFor(job, c)
    ensures (forall c :: c in done ==> job.pointId(c) != p) && p !in gone && p in points ==>
              p in After(points, job, done, gone) && After(points, job, done, gone)[p] == points[p]
  {
    AfterLookup(points, job, done, gone, p);
    if c :| c in done && job.pointId(c) == p {
      assert p !in gone;
    }
  }

  lemma WellPlacedAfter(points: Points, job: Job, done: set<string>, gone: set<string>)
    requires ValidJob(job) && WellPlaced(points, job.pointId)
    requires done <= UpsertPlan(points, job) && gone <= StalePoints(points, job)
    ensures WellPlaced(After(points, job, done, gone), job.pointId)
  {
    var next := After(points, job, done, gone);
    forall p | IsManaged(next, p)
      ensures WellFormedPayload(next[p].payload) && p == job.pointId(ChunkAt(next, p))
    {
      ManagedAfter(points, job, done, gone, p);
      if c :| c in done && job.pointId(c) == p {
        assert next[p] == PointFor(job, c);
      }
    }
  }

  /** On a well-placed collection a chunk is correct exactly when its own point carries the hash. */
  lemma CorrectAtSlot(points: Points, job: Job, c: string)
    requires ValidJob(job) && WellPlaced(points, job.pointId) && c in job.desired
    ensures Correct(points, job, c) <==>
              Holds(points, job.pointId(c), c) && HashAt(points, job.pointId(c)) == job.desired[c].bodyHash
  {
  }

  lemma UpsertPlanAfter(points: Points, job: Job, done: set<string>, gone: set<string>)
    requires ValidJob(job) && WellPlaced(points, job.pointId)
    requires done <= UpsertPlan(points, job) && gone <= StalePoints(points, job)
    ensures UpsertPlan(After(points, job, done, gone), job) == UpsertPlan(points, job) - done
  {
    var next := After(points, job, done, gone);
    WellPlacedAfter(points, job, done, gone);
    forall c | c in job.desired
      ensures Correct(next, job, c) <==> Correct(points, job, c) || c in done
    {
      var p := job.pointId(c);
      CorrectAtSlot(points, job, c);
      CorrectAtSlot(next, job, c);
      ManagedAfter(points, job, done, gone, p);
      if c in done {
        assert next[p] == PointFor(job, c);
      } else {
        assert forall d :: d in done ==> job.pointId(d) != p;
        assert p in gone ==> !Holds(points, p, c);
      }
    }
  }

  lemma StalePointsAfter(points: Points, job: Job, done: set<string>, gone: set<string>)
    requires ValidJob(job) && WellPlaced(points, job.pointId)
    requires done <= UpsertPlan(points, job) && gone <= StalePoints(points, job)
    ensures StalePoints(After(points, job, done, gone), job) == StalePoints(points, job) - gone
  {
    var next := After(points, job, done, gone);
    forall p ensures p in StalePoints(next, job) <==> p in StalePoints(points, job) && p !in gone {
      ManagedAfter(points, job, done, gone, p);
      if c :| c in done && job.pointId(c) == p {
        assert next[p] == PointFor(job, c);
        assert IsManaged(points, p) ==> ChunkAt(points, p) == c;
      } else {
        assert forall c :: c in done ==> job.pointId(c) != p;
      }
    }
  }

  lemma WrittenUnion(job: Job, one: set<string>, two: set<string>)
    requires ValidJob(job) && one <= job.desired.Keys && two <= job.desired.Keys
    ensures Written(job, one + two) == Written(job, one) + Written(job, two)
  {
    var both, left, right := Written(job, one + two), Written(job, one), Written(job, two);
    forall p ensures p in both <==> p in left + right {
      if p in both {
        var c :| c in one + two && job.pointId(c) == p;
        assert c in one || c in two;
      }
    }
  }

  lemma MapSteps<K, V>(m: map<K, V>, w1: map<K, V>, g1: set<K>, w2: map<K, V>, g2: set<K>)
    requires w2.Keys !! g1
    ensures (((m + w1) - g1) + w2) - g2 == (m + (w1 + w2)) - (g1 + g2)
  {
  }

  lemma PlanDesired(points: Points, job: Job)
    ensures UpsertPlan(points, job) <= job.desired.Keys
  {
  }

  /** No slot of a desired chunk is a stale point. */
  lemma SlotsNotStale(points: Points, job: Job, some: set<string>)
    requires ValidJob(job) && WellPlaced(points, job.pointId) && some <= job.desired.Keys
    ensures Written(job, some).Keys !! StalePoints(points, job)
  {
  }

  /** Finishing what a cut-off run left over gives exactly the uninterrupted run's collection. */
  lemma ResumeCompletes(points: Points, job: Job, done: set<string>, gone: set<string>)
    requires ValidJob(job) && WellPlaced(points, job.pointId)
    requires done <= UpsertPlan(points, job) && gone <= StalePoints(points, job)
    ensures FullRun(After(points, job, done, gone), job) == FullRun(points, job)
  {
    hide ValidJob, WellPlaced, UpsertPlan, StalePoints, Written;
    UpsertPlanAfter(points, job, done, gone);
    StalePointsAfter(points, job, done, gone);
    var all, stale := UpsertPlan(points, job), StalePoints(points, job);
    PlanDesired(points, job);
    WrittenUnion(job, done, all - done);
    SlotsNotStale(points, job, all - done);
    MapSteps(points, Written(job, done), gone, Written(job, all - done), stale - gone);
    assert done + (all - done) == all && gone + (stale - gone) == stale;
  }

  // ---- any number of cut-off runs ----

  /** How far one run got. */
  datatype Cut = Cut(done: set<string>, gone: set<string>)

  ghost predicate LegalHistory(points: Points, job: Job, cuts: seq<Cut>)
    requires ValidJob(job)
    decreases |cuts|
  {
    cuts == [] ||
    (LegalCut(points, job, cuts[0].done, cuts[0].gone) &&
     LegalHistory(After(points, job, cuts[0].done, cuts[0].gone), job, cuts[1..]))
  }

  ghost function Reach(points: Points, job: Job, cuts: seq<Cut>): Points
    requires ValidJob(job) && LegalHistory(points, job, cuts)
    decreases |cuts|
  {
    if cuts == [] then points
    else Reach(After(points, job, cuts[0].done, cuts[0].gone), job, cuts[1..])
  }

  /** Missing or wrong chunks plus stale points: the work left. */
  ghost function WorkLeft(points: Points, job: Job): nat {
    |UpsertPlan(points, job)| + |StalePoints(points, job)|
  }

  lemma CardinalityMinus<T(!new)>(a: set<T>, b: set<T>)
    requires b <= a
    ensures |a - b| == |a| - |b|
  {
    assert (a - b) + b == a;
  }

  /** Every mutation a run makes is work done: nothing is undone and nothing is done twice. */
  lemma WorkIsConserved(points: Points, job: Job, done: set<string>, gone: set<string>)
    requires ValidJob(job) && WellPlaced(points, job.pointId)
    requires done <= UpsertPlan(points, job) && gone <= StalePoints(points, job)
    ensures WorkLeft(After(points, job, done, gone), job) + |done| + |gone| == WorkLeft(points, job)
  {
    UpsertPlanAfter(points, job, done, gone);
    StalePointsAfter(points, job, done, gone);
    CardinalityMinus(UpsertPlan(points, job), done);
    CardinalityMinus(StalePoints(points, job), gone);
  }

  /**
   * What holds between a collection and a later one: it is still well placed, the chunks left to
   * embed are among those left before, so are the stale points, the work left has not grown, a stale
   * point is gone only if every desired chunk is correct, and one uninterrupted run still gives the
   * same collection.
   */
  ghost predicate Progress(points: Points, later: Points, job: Job)
    requires ValidJob(job)
  {
    && WellPlaced(later, job.pointId)
    && UpsertPlan(later, job) <= UpsertPlan(points, job)
    && StalePoints(later, job) <= StalePoints(points, job)
    && WorkLeft(later, job) <= WorkLeft(points, job)
    && (StalePoints(later, job) != StalePoints(points, job) ==> UpsertPlan(later, job) == {})
    && FullRun(later, job) == FullRun(points, job)
  }

  lemma CutProgress(points: Points, job: Job, cut: Cut)
    requires ValidJob(job) && WellPlaced(points, job.pointId)
    requires LegalCut(points, job, cut.done, cut.gone)
    ensures Progress(points, After(points, job, cut.done, cut.gone), job)
  {
    hide WellPlaced, UpsertPlan, StalePoints, FullRun, After, ValidJob;
    WellPlacedAfter(points, job, cut.done, cut.gone);
    UpsertPlanAfter(points, job, cut.done, cut.gone);
    StalePointsAfter(points, job, cut.done, cut.gone);
    ResumeCompletes(points, job, cut.done, cut.gone);
    WorkIsConserved(points, job, cut.done, cut.gone);
  }

  lemma ProgressTransitive(a: Points, b: Points, c: Points, job: Job)
    requires ValidJob(job) && Progress(a, b, job) && Progress(b, c, job)
    ensures Progress(a, c, job)
  {
    hide ValidJob, WellPlaced, UpsertPlan, StalePoints, FullRun, WorkLeft;
  }

  /** Any number of runs on one manifest, each cut off anywhere, only make progress. */
  lemma {:induction false} RetriesConverge(points: Points, job: Job, cuts: seq<Cut>)
    requires ValidJob(job) && WellPlaced(points, job.pointId) && LegalHistory(points, job, cuts)
    ensures Progress(points, Reach(points, job, cuts), job)
    decreases |cuts|
  {
    if cuts == [] {
    } else {
      var next := After(points, job, cuts[0].done, cuts[0].gone);
      CutProgress(points, job, cuts[0]);
      RetriesConverge(next, job, cuts[1..]);
      ProgressTransitive(points, next, Reach(next, job, cuts[1..]), job);
    }
  }

  /** A desired chunk that is stored, correct or not, is stored at every moment of every run. */
  lemma {:induction false} NeverAbsent(points: Points, job: Job, cuts: seq<Cut>, c: string)
    requires ValidJob(job) && WellPlaced(points, job.pointId) && LegalHistory(points, job, cuts)
    requires c in job.desired && Holds(points, job.pointId(c), c)
    ensures Holds(Reach(points, job, cuts), job.pointId(c), c)
    decreases |cuts|
  {
    if cuts != [] {
      var done, gone := cuts[0].done, cuts[0].gone;
      var next := After(points, job, done, gone);
      WellPlacedAfter(points, job, done, gone);
      ManagedAfter(points, job, done, gone, job.pointId(c));
      if d :| d in done && job.pointId(d) == job.pointId(c) {
        assert d == c;
      }
      assert job.pointId(c) !in gone;
      NeverAbsent(next, job, cuts[1..], c);
    }
  }

  // ---- exactly when a fault-free run verifies ----

  lemma PlannedHash(points: Points, job: Job, p: string)
    requires SingleHolder(points) && IsManaged(points, p) && ChunkAt(points, p) in job.desired
    ensures ChunkAt(points, p) in UpsertPlan(points, job) <==>
              HashAt(points, p) != job.desired[ChunkAt(points, p)].bodyHash
  {
    var c := ChunkAt(points, p);
    assert Holds(points, p, c);
  }

  lemma SlotLookup(points: Points, job: Job, p: string)
    requires ValidJob(job)
    ensures p in StalePoints(points, job) ==> p !in FullRun(points, job)
    ensures p !in StalePoints(points, job) && !IsSlot(points, job, p) ==>
              (p in FullRun(points, job) <==> p in points) &&
              (p in points ==> FullRun(points, job)[p] == points[p])
    ensures p !in StalePoints(points, job) && IsSlot(points, job, p) ==>
              exists c :: c in UpsertPlan(points, job) && job.pointId(c) == p && p in FullRun(points, job)
                          && FullRun(points, job)[p] == PointFor(job, c)
  {
    var all, stale := UpsertPlan(points, job), StalePoints(points, job);
    AfterLookup(points, job, all, stale, p);
    if !IsSlot(points, job, p) {
      assert forall c :: c in all ==> job.pointId(c) != p;
    } else {
      var c :| c in all && job.pointId(c) == p;
      assert p !in stale ==> FullRun(points, job)[p] == PointFor(job, c);
    }
  }

  lemma SlotsSuffice(points: Points, job: Job)
    requires ValidJob(job) && Readable(points) && SingleHolder(points) && SlotsAgree(points, job)
    ensures Verified(FullRun(points, job), job)
  {
    var all, last := UpsertPlan(points, job), FullRun(points, job);
    forall p | IsManaged(last, p)
      ensures WellFormedPayload(last[p].payload) && ChunkAt(last, p) in job.desired
      ensures HashAt(last, p) == job.desired[ChunkAt(last, p)].bodyHash
      ensures if IsSlot(points, job, p) then ChunkAt(last, p) in all && job.pointId(ChunkAt(last, p)) == p
              else ChunkAt(last, p) !in all && Holds(points, p, ChunkAt(last, p))
    {
      SlotLookup(points, job, p);
      if !IsSlot(points, job, p) {
        assert IsManaged(points, p) && ChunkAt(points, p) !in all;
        PlannedHash(points, job, p);
      }
    }
    assert SingleHolder(last) by {
      forall p, q, c | Holds(last, p, c) && Holds(last, q, c) ensures p == q {
        assert IsManaged(last, p) && IsManaged(last, q);
      }
    }
    forall c | c in job.desired ensures exists p :: Holds(last, p, c) {
      if c in all {
        var p := job.pointId(c);
        assert IsSlot(points, job, p);
        SlotLookup(points, job, p);
        assert p !in StalePoints(points, job);
        assert Holds(last, p, c);
      } else {
        var p :| Holds(points, p, c) && HashAt(points, p) == job.desired[c].bodyHash;
        SlotLookup(points, job, p);
        assert Holds(last, p, c);
      }
    }
  }

  /** A planned chunk can only be verified at its own slot, undeleted. */
  lemma PlannedHolder(points: Points, job: Job, c: string, q: string)
    requires ValidJob(job) && Readable(points) && SingleHolder(points)
    requires Verified(FullRun(points, job), job)
    requires c in UpsertPlan(points, job) && Holds(FullRun(points, job), q, c)
    ensures q == job.pointId(c) && q !in StalePoints(points, job)
  {
    if Holds(points, q, c) {
      PlannedHash(points, job, q);
    }
    SlotLookup(points, job, q);
  }

  /** A planned chunk stored outside every planned slot would stay where it is. */
  lemma StoredAtSlot(points: Points, job: Job, p: string)
    requires ValidJob(job) && Readable(points) && SingleHolder(points) && Verified(FullRun(points, job), job)
    requires IsManaged(points, p) && ChunkAt(points, p) in UpsertPlan(points, job)
    ensures IsSlot(points, job, p)
  {
    var c, last := ChunkAt(points, p), FullRun(points, job);
    SlotLookup(points, job, p);
    assert c in job.desired;
    assert p !in StalePoints(points, job);
    if !IsSlot(points, job, p) {
      assert Holds(last, p, c);
      hide FullRun, Verified, Readable, SingleHolder;
      PlannedHolder(points, job, c, p);
    }
  }

  /** A planned slot taken by a chunk that is not planned loses that chunk. */
  lemma SlotHoldsPlanned(points: Points, job: Job, p: string)
    requires ValidJob(job) && Readable(points) && SingleHolder(points) && Verified(FullRun(points, job), job)
    requires IsManaged(points, p) && IsSlot(points, job, p)
    ensures ChunkAt(points, p) in UpsertPlan(points, job)
  {
    var all, last, c := UpsertPlan(points, job), FullRun(points, job), ChunkAt(points, p);
    var u :| u in all && job.pointId(u) == p;
    var q :| Holds(last, q, u);
    PlannedHolder(points, job, u, q);
    assert c in job.desired;
    if c !in all {
      var r :| Holds(last, r, c);
      assert Holds(points, p, c);
      NotPlannedStays(points, job, r, c);
      SlotLookup(points, job, p);
    }
  }

  /** A chunk that is not planned is held after the run only where it was held before. */
  lemma NotPlannedStays(points: Points, job: Job, r: string, c: string)
    requires ValidJob(job) && c !in UpsertPlan(points, job) && Holds(FullRun(points, job), r, c)
    ensures Holds(points, r, c)
  {
    SlotLookup(points, job, r);
  }

  lemma SlotsNecessary(points: Points, job: Job)
    requires ValidJob(job) && Readable(points) && SingleHolder(points)
    requires Verified(FullRun(points, job), job)
    ensures SlotsAgree(points, job)
  {
    hide ValidJob, Readable, SingleHolder, Verified, FullRun, UpsertPlan, IsSlot;
    forall p | IsManaged(points, p)
      ensures ChunkAt(points, p) in UpsertPlan(points, job) <==> IsSlot(points, job, p)
    {
      if ChunkAt(points, p) in UpsertPlan(points, job) {
        StoredAtSlot(points, job, p);
      }
      if IsSlot(points, job, p) {
        SlotHoldsPlanned(points, job, p);
      }
    }
  }

  /**
   * From any collection whose first read succeeds, a run without faults passes its own verification
   * exactly when its planned upserts overwrite the points of planned chunks and no other managed point.
   */
  lemma FaultFreeRunVerifies(points: Points, job: Job)
    requires ValidJob(job) && Readable(points) && SingleHolder(points)
    ensures Verified(FullRun(points, job), job) <==> SlotsAgree(points, job)
  {
    if SlotsAgree(points, job) {
      SlotsSuffice(points, job);
    }
    if Verified(FullRun(points, job), job) {
      SlotsNecessary(points, job);
    }
  }

  // ---- stores on which a fault-free run fails ----

  lemma OnePoint(p: string, point: Point)
    requires WellFormedPayload(point.payload) && point.payload.managedBy == Some(MANAGED_BY)
    ensures var points: Points := map[p := point];
            Readable(points) && SingleHolder(points) && IsManaged(points, p)
            && Holds(points, p, point.payload.chunkId.value) && HashAt(points, p) == point.payload.bodyHash.value
            && forall q :: q != p ==> !IsManaged(points, q)
  {
  }

  /** A correct chunk stored at the point id of another, planned chunk is overwritten and then missing. */
  lemma TakenSlotFails(job: Job, c: string, d: string)
    requires ValidJob(job) && c in job.desired && d in job.desired && c != d
    ensures var points: Points := map[job.pointId(c) := PointFor(job, d)];
            Readable(points) && SingleHolder(points) && Correct(points, job, d)
            && !SlotsAgree(points, job) && !Verified(FullRun(points, job), job)
  {
    var p := job.pointId(c);
    var points: Points := map[p := PointFor(job, d)];
    OnePoint(p, PointFor(job, d));
    hide Readable, SingleHolder, Verified, FullRun, ValidJob, IsManaged;
    assert Correct(points, job, d);
    assert !Correct(points, job, c);
    assert c in UpsertPlan(points, job) && d !in UpsertPlan(points, job);
    assert IsSlot(points, job, p);
    FaultFreeRunVerifies(points, job);
  }

  /** A chunk stored with a wrong hash at a point id of no desired chunk is held twice after its upsert. */
  lemma StrayPointFails(job: Job, c: string, p: string, wrong: string)
    requires ValidJob(job) && c in job.desired && IsDigest(wrong) && wrong != job.desired[c].bodyHash
    requires forall d :: d in job.desired ==> job.pointId(d) != p
    ensures var point := PointFor(job, c);
            var points: Points := map[p := point.(payload := point.payload.(bodyHash := Some(wrong)))];
            Readable(points) && SingleHolder(points) && !SlotsAgree(points, job) && !Verified(FullRun(points, job), job)
  {
    var point := PointFor(job, c).(payload := PointFor(job, c).payload.(bodyHash := Some(wrong)));
    var points: Points := map[p := point];
    OnePoint(p, point);
    hide Readable, SingleHolder, Verified, FullRun, ValidJob, IsManaged;
    assert !Correct(points, job, c);
    assert c in UpsertPlan(points, job);
    assert !IsSlot(points, job, p);
    FaultFreeRunVerifies(points, job);
  }

  const SAMPLE := "shop" + "." + "orders"

  function SampleChunk(key: string): Chunk {
    Chunk(
      ChunkBody(SAMPLE + "::" + TableOverview.Value() + "::" + key, SAMPLE + "::document", key, TableOverview, "shop", "orders",
                SAMPLE, Approved, true, seq(64, i => '0'), "v1", "v1", "v1", "orders.yml", "0000000", Mock, "m", "p",
                "shop.orders " + key, []),
      seq(64, i => '1'))
  }

  /** Two chunks and the identity for point ids. */
  function SampleJob(): Job {
    var a, b := SampleChunk("a"), SampleChunk("b");
    Job(map[a.body.chunkId := a, b.body.chunkId := b], (id: string) => id, (text: string) => [1.0],
        RunStamp(seq(64, i => '2'), "m", 1))
  }

  const WRONG_HASH := seq(64, i => '3')

  /** Both failures happen: well-formed chunks, a readable store without duplicates, no fault, and no verification. */
  lemma FaultFreeRunsFail() returns (job: Job, taken: Points, stray: Points)
    ensures ValidJob(job) && forall c :: c in job.desired ==> job.desired[c].Consistent()
    ensures Readable(taken) && SingleHolder(taken) && !Verified(FullRun(taken, job), job)
    ensures Readable(stray) && SingleHolder(stray) && !Verified(FullRun(stray, job), job)
  {
    job := SampleJob();
    var c, d := SampleChunk("a").body.chunkId, SampleChunk("b").body.chunkId;
    SampleJobValid();
    WrongHash();
    hide ValidJob, Readable, SingleHolder, Verified, FullRun, SlotsAgree, SampleChunk, IsDigest;
    taken := map[job.pointId(c) := PointFor(job, d)];
    TakenSlotFails(job, c, d);
    var point := PointFor(job, c);
    stray := map["" := point.(payload := point.payload.(bodyHash := Some(WRONG_HASH)))];
    StrayPointFails(job, c, "", WRONG_HASH);
  }

  lemma WrongHash()
    ensures IsDigest(WRONG_HASH) && WRONG_HASH != SampleChunk("a").bodyHash
  {
    assert WRONG_HASH[0] != SampleChunk("a").bodyHash[0];
  }

  lemma SampleJobValid()
    ensures var a, b := SampleChunk("a").body.chunkId, SampleChunk("b").body.chunkId;
            a != b && SampleJob().desired.Keys == {a, b} && SampleJob().desired[a] == SampleChunk("a")
    ensures ValidJob(SampleJob()) && forall c :: c in SampleJob().desired ==> SampleJob().desired[c].Consistent()
  {
    var job := SampleJob();
    var a, b := SampleChunk("a").body.chunkId, SampleChunk("b").body.chunkId;
    assert a[|a| - 1] != b[|b| - 1];
    SampleSound("a");
    SampleSound("b");
    hide SampleChunk, IsDigest;
  }

  lemma SampleSound(key: string)
    ensures var c := SampleChunk(key); c.Consistent() && IsDigest(c.bodyHash) && c.body.chunkId != ""
  {
    assert |SAMPLE| > 0;
    hide SAMPLE;
  }

  // ---- points of other owners ----

  ghost predicate ForeignUntouched(points: Points, later: Points) {
    forall p :: p in points && !IsManaged(points, p) ==> p in later && later[p] == points[p]
  }

  /** No planned chunk's point id is taken by a point of another owner. */
  ghost predicate SlotsFree(points: Points, job: Job) {
    forall c :: c in UpsertPlan(points, job) && job.pointId(c) in points ==> IsManaged(points, job.pointId(c))
  }

  /** The managed filter protects other owners' points exactly when none sits at a planned point id. */
  lemma ForeignPointsKept(points: Points, job: Job)
    requires ValidJob(job)
    ensures ForeignUntouched(points, FullRun(points, job)) <==> SlotsFree(points, job)
  {
    var last := FullRun(points, job);
    forall p | p in points && !IsManaged(points, p)
      ensures (p in last && last[p] == points[p]) <==> !IsSlot(points, job, p)
    {
      SlotLookup(points, job, p);
    }
    if ForeignUntouched(points, last) {
      forall c | c in UpsertPlan(points, job) && job.pointId(c) in points
        ensures IsManaged(points, job.pointId(c))
      {
        assert IsSlot(points, job, job.pointId(c));
      }
    }
  }

  /** The same protection at every moment of a cut-off run. */
  lemma ForeignPointsKeptWhenCut(points: Points, job: Job, cut: Cut)
    requires ValidJob(job) && LegalCut(points, job, cut.done, cut.gone) && SlotsFree(points, job)
    ensures ForeignUntouched(points, After(points, job, cut.done, cut.gone))
  {
    forall p | p in points && !IsManaged(points, p)
      ensures p in After(points, job, cut.done, cut.gone) && After(points, job, cut.done, cut.gone)[p] == points[p]
    {
      AfterLookup(points, job, cut.done, cut.gone, p);
    }
  }

  // ---- content and vectors, over runs of different manifests ----

  /** The point tells of a chunk with this body, its hash and the vector of its content. */
  predicate WrittenFrom(point: Point, body: ChunkBody, hash: ChunkBody -> string, embed: string -> Vector) {
    point.payload.stamp.Some? && Tells(point, body, hash(body), embed(body.content))
  }

  /** A verified run leaves at each planned point id what the chunk and the run say. */
  lemma UpsertsTell(points: Points, job: Job, c: string)
    requires ValidJob(job) && Verified(FullRun(points, job), job) && c in UpsertPlan(points, job)
    ensures UpsertTold(FullRun(points, job), job, c)
  {
    var q := VerifiedHolder(FullRun(points, job), job, c);
    hide FullRun, Verified, Correct, PointFor, UpsertTold;
    SlotLookup(points, job, q);
    if !IsSlot(points, job, q) {
      NotPlannedAt(points, job, c, q);
    } else {
      var d :| d in UpsertPlan(points, job) && job.pointId(d) == q && FullRun(points, job)[q] == PointFor(job, d);
      PointTells(FullRun(points, job), job, c, d);
    }
  }

  lemma PointTells(end: Points, job: Job, c: string, d: string)
    requires ValidJob(job) && c in job.desired && d in job.desired
    requires job.pointId(d) in end && end[job.pointId(d)] == PointFor(job, d) && Holds(end, job.pointId(d), c)
    ensures UpsertTold(end, job, c)
  {
    assert d == c;
  }

  lemma VerifiedHolder(end: Points, job: Job, c: string) returns (q: string)
    requires Verified(end, job) && c in job.desired
    ensures Holds(end, q, c) && HashAt(end, q) == job.desired[c].bodyHash
  {
    q :| Holds(end, q, c);
  }

  lemma NotPlannedAt(points: Points, job: Job, c: string, q: string)
    requires c in job.desired && Holds(points, q, c) && HashAt(points, q) == job.desired[c].bodyHash
    ensures c !in UpsertPlan(points, job)
  {
    assert Correct(points, job, c);
  }

  ghost predicate UpsertTold(end: Points, job: Job, c: string)
    requires c in job.desired
  {
    && job.pointId(c) in end
    && Tells(end[job.pointId(c)], job.desired[c].body, job.desired[c].bodyHash, job.embed(job.desired[c].body.content))
    && Stamped(end[job.pointId(c)], job.stamp.manifestHash, job.stamp.embeddingModel, job.stamp.embeddingDimension)
  }

  ghost predicate PipelineWritten(points: Points, hash: ChunkBody -> string, embed: string -> Vector) {
    forall p :: IsManaged(points, p) ==> exists body :: WrittenFrom(points[p], body, hash, embed)
  }

  /** The job's chunks carry the hash of their own body, and texts are embedded by `embed`. */
  ghost predicate HonestJob(job: Job, hash: ChunkBody -> string, embed: string -> Vector) {
    && ValidJob(job) && job.embed == embed
    && forall c :: c in job.desired ==> job.desired[c].bodyHash == hash(job.desired[c].body)
  }

  lemma PipelineWrittenAfter(points: Points, job: Job, cut: Cut, hash: ChunkBody -> string, embed: string -> Vector)
    requires HonestJob(job, hash, embed) && WellPlaced(points, job.pointId)
    requires LegalCut(points, job, cut.done, cut.gone) && PipelineWritten(points, hash, embed)
    ensures PipelineWritten(After(points, job, cut.done, cut.gone), hash, embed)
  {
    var next := After(points, job, cut.done, cut.gone);
    forall p | IsManaged(next, p) ensures exists body :: WrittenFrom(next[p], body, hash, embed) {
      ManagedAfter(points, job, cut.done, cut.gone, p);
      if c :| c in cut.done && job.pointId(c) == p {
        assert job.desired[c] == Chunk(job.desired[c].body, hash(job.desired[c].body));
        assert WrittenFrom(next[p], job.desired[c].body, hash, embed);
      } else {
        var body :| WrittenFrom(points[p], body, hash, embed);
        assert WrittenFrom(next[p], body, hash, embed);
      }
    }
  }

  /** One run of some manifest, cut off somewhere. */
  datatype Run = Run(job: Job, cut: Cut)

  ghost predicate RunsFrom(points: Points, runs: seq<Run>, states: seq<Points>) {
    && |states| == |runs| + 1 && states[0] == points
    && forall i :: 0 <= i < |runs| ==>
         && ValidJob(runs[i].job)
         && LegalCut(states[i], runs[i].job, runs[i].cut.done, runs[i].cut.gone)
         && states[i + 1] == After(states[i], runs[i].job, runs[i].cut.done, runs[i].cut.gone)
  }

  lemma {:induction false} HistoryKeepsStore(points: Points, runs: seq<Run>, states: seq<Points>,
                                             pointId: string -> string, hash: ChunkBody -> string,
                                             embed: string -> Vector, n: nat)
    requires RunsFrom(points, runs, states) && n <= |runs|
    requires WellPlaced(points, pointId) && PipelineWritten(points, hash, embed)
    requires forall i :: 0 <= i < |runs| ==> HonestJob(runs[i].job, hash, embed) && runs[i].job.pointId == pointId
    ensures WellPlaced(states[n], pointId) && PipelineWritten(states[n], hash, embed)
  {
    if n > 0 {
      HistoryKeepsStore(points, runs, states, pointId, hash, embed, n - 1);
      var run := runs[n - 1];
      WellPlacedAfter(states[n - 1], run.job, run.cut.done, run.cut.gone);
      PipelineWrittenAfter(states[n - 1], run.job, run.cut, hash, embed);
    }
  }

  lemma WholeRunAligns(points: Points, job: Job, hash: ChunkBody -> string, embed: string -> Vector)
    requires HonestJob(job, hash, embed) && WellPlaced(points, job.pointId) && PipelineWritten(points, hash, embed)
    ensures var end := FullRun(points, job);
            Verified(end, job) && WellPlaced(end, job.pointId) && PipelineWritten(end, hash, embed)
  {
    hide Verified, WellPlaced, PipelineWritten, ValidJob, SlotsAgree;
    WellPlacedSingle(points, job.pointId);
    WellPlacedSlots(points, job);
    PlacedReadable(points, job.pointId);
    SlotsSuffice(points, job);
    var whole := Cut(UpsertPlan(points, job), StalePoints(points, job));
    WellPlacedAfter(points, job, whole.done, whole.gone);
    PipelineWrittenAfter(points, job, whole, hash, embed);
  }

  lemma PlacedReadable(points: Points, pointId: string -> string)
    requires WellPlaced(points, pointId)
    ensures Readable(points)
  {
  }

  lemma AlignedPoint(end: Points, job: Job, hash: ChunkBody -> string, embed: string -> Vector, p: string)
    requires HonestJob(job, hash, embed) && Injective(hash)
    requires Verified(end, job) && WellPlaced(end, job.pointId) && PipelineWritten(end, hash, embed) && IsManaged(end, p)
    ensures var c := ChunkAt(end, p);
            c in job.desired && p == job.pointId(c) && WrittenFrom(end[p], job.desired[c].body, hash, embed)
  {
    hide SingleHolder, Readable, ValidJob;
    var body :| WrittenFrom(end[p], body, hash, embed);
    assert hash(body) == hash(job.desired[ChunkAt(end, p)].body);
  }

  /**
   * With a collision-free hash, whatever cut-off runs of whatever manifests came before, after one
   * completed run every managed point, the skipped ones included, tells of the desired chunk, fact by fact,
   * and has the vector of its content.
   */
  lemma CompletedRunAligns(points: Points, runs: seq<Run>, states: seq<Points>, job: Job,
                           hash: ChunkBody -> string, embed: string -> Vector, p: string)
    requires RunsFrom(points, runs, states)
    requires WellPlaced(points, job.pointId) && PipelineWritten(points, hash, embed)
    requires forall i :: 0 <= i < |runs| ==> HonestJob(runs[i].job, hash, embed) && runs[i].job.pointId == job.pointId
    requires HonestJob(job, hash, embed) && Injective(hash)
    requires IsManaged(FullRun(states[|runs|], job), p)
    ensures var point := FullRun(states[|runs|], job)[p];
            var c := ChunkAt(FullRun(states[|runs|], job), p);
            c in job.desired && p == job.pointId(c) && WrittenFrom(point, job.desired[c].body, hash, embed)
  {
    var last := states[|runs|];
    HistoryKeepsStore(points, runs, states, job.pointId, hash, embed, |runs|);
    hide RunsFrom;
    WholeRunAligns(last, job, hash, embed);
    var end := FullRun(last, job);
    hide FullRun, WellPlaced, PipelineWritten, Verified, ValidJob;
    AlignedPoint(end, job, hash, embed, p);
  }
}
