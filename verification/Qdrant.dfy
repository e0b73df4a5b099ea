/** The Qdrant adapter: paged reads of the managed namespace, mutations in batches that may be cut off. */
module Qdrant {
  import opened Wrappers
  import opened Ordering
  import opened Sorting
  import opened VectorStore

  const MUTATION_BATCH_SIZE := 128
  const PAGE_SIZE := 256

  datatype VectorIndexError = ClientFault | InvalidPayload

  datatype ChunkState = ChunkState(pointId: string, chunkId: string, bodyHash: string)

  datatype Entry = Entry(id: string, point: Point)

  function StateChunkId(state: ChunkState): string {
    state.chunkId
  }

  datatype Page = Page(records: seq<Entry>, next: Option<string>)

  // ---- what the reads return ----

  function ManagedPoints(points: Points): set<string> {
    set p | p in points && IsManaged(points, p)
  }

  /** Managed point ids from `offset` on, in id order. */
  function Remaining(points: Points, offset: Option<string>): seq<string> {
    SortedSet(set p | p in ManagedPoints(points) && (offset.None? || !StrLess(p, offset.value)))
  }

  function StateAt(points: Points, p: string): ChunkState
    requires p in points
  {
    ChunkState(p, ChunkAt(points, p), HashAt(points, p))
  }

  function StatesOf(points: Points, ids: seq<string>): (states: seq<ChunkState>)
    requires forall p :: p in ids ==> p in points
    ensures |states| == |ids|
    ensures forall i :: 0 <= i < |ids| ==> states[i] == StateAt(points, ids[i])
  {
    seq(|ids|, i requires 0 <= i < |ids| && ids[i] in points => StateAt(points, ids[i]))
  }

  function ParsedState(record: Entry): ChunkState {
    ChunkState(record.id, record.point.payload.chunkId.GetOr(""), record.point.payload.bodyHash.GetOr(""))
  }

  /** The states read so far are those of `ids`, all well formed. */
  ghost predicate Listed(points: Points, ids: seq<string>, states: seq<ChunkState>) {
    && |states| == |ids|
    && forall i :: 0 <= i < |ids| ==>
         ids[i] in points && WellFormedPayload(points[ids[i]].payload) && states[i] == StateAt(points, ids[i])
  }

  /** A page holds the first `limit` of the ids left and points at the id after them. */
  ghost predicate PageOf(points: Points, rest: seq<string>, limit: nat, page: Page) {
    var n := Least(|rest|, limit);
    && |page.records| == n
    && (forall i :: 0 <= i < n ==> rest[i] in points && page.records[i] == Entry(rest[i], points[rest[i]]))
    && page.next == (if n < |rest| then Some(rest[n]) else None)
  }

  ghost predicate Parsed(records: seq<Entry>, states: seq<ChunkState>) {
    && |states| == |records|
    && forall i :: 0 <= i < |records| ==>
         WellFormedPayload(records[i].point.payload) && states[i] == ParsedState(records[i])
  }

  /** The states read so far, and where the next page starts. */
  ghost predicate PartlyRead(points: Points, states: seq<ChunkState>, offset: Option<string>) {
    var all := Remaining(points, None);
    && |states| <= |all|
    && Listed(points, all[..|states|], states)
    && Remaining(points, offset) == all[|states|..]
  }

  lemma ListedAppend(points: Points, ids: seq<string>, k: nat, rest: seq<string>, states: seq<ChunkState>,
                     limit: nat, page: Page, parsed: seq<ChunkState>)
    requires k <= |ids| && rest == ids[k..] && Listed(points, ids[..k], states) && limit > 0
    requires PageOf(points, rest, limit, page) && Parsed(page.records, parsed)
    ensures k + |parsed| <= |ids| && Listed(points, ids[..k + |parsed|], states + parsed)
    ensures page.next == if k + |parsed| < |ids| then Some(ids[k + |parsed|]) else None
    ensures page.next.Some? ==> |parsed| > 0
  {
    var n := |parsed|;
    assert n < |rest| ==> rest[n] == ids[k + n];
    forall i | 0 <= i < k + n
      ensures ids[i] in points && WellFormedPayload(points[ids[i]].payload)
      ensures (states + parsed)[i] == StateAt(points, ids[i])
    {
      if i < k {
        assert ids[..k][i] == ids[i];
      } else {
        assert rest[i - k] == ids[i];
      }
    }
  }

  lemma ListedPage(points: Points, offset: Option<string>, limit: nat, states: seq<ChunkState>,
                   page: Page, parsed: seq<ChunkState>)
    requires PartlyRead(points, states, offset) && limit > 0
    requires PageOf(points, Remaining(points, offset), limit, page) && Parsed(page.records, parsed)
    ensures page.next.None? ==> Listed(points, Remaining(points, None), states + parsed)
    ensures page.next.Some? ==> |parsed| > 0 && PartlyRead(points, states + parsed, page.next)
  {
    hide Remaining, Listed, PageOf, Parsed;
    var all := Remaining(points, None);
    ListedAppend(points, all, |states|, Remaining(points, offset), states, limit, page, parsed);
    var k := |states| + |parsed|;
    if k < |all| {
      RemainingFrom(points, k);
    } else {
      assert all[..k] == all;
    }
  }

  lemma BadRecord(points: Points, offset: Option<string>, limit: nat, page: Page)
    requires PageOf(points, Remaining(points, offset), limit, page)
    requires exists i :: 0 <= i < |page.records| && !WellFormedPayload(page.records[i].point.payload)
    ensures !Readable(points)
  {
    var i :| 0 <= i < |page.records| && !WellFormedPayload(page.records[i].point.payload);
    RemainingMembers(points, offset);
    assert Remaining(points, offset)[i] in Remaining(points, offset);
    assert IsManaged(points, Remaining(points, offset)[i]);
  }

  lemma AllListed(points: Points, states: seq<ChunkState>)
    requires Listed(points, Remaining(points, None), states)
    ensures (forall p :: p in Remaining(points, None) ==> p in points)
    ensures Readable(points) && states == StatesOf(points, Remaining(points, None))
  {
    RemainingMembers(points, None);
    forall p | IsManaged(points, p) ensures WellFormedPayload(points[p].payload) {
      assert p in Remaining(points, None);
    }
  }

  lemma RemainingMembers(points: Points, offset: Option<string>)
    ensures forall p :: p in Remaining(points, offset) <==>
              IsManaged(points, p) && (offset.None? || !StrLess(p, offset.value))
  {
  }

  lemma RemainingSorted(points: Points, offset: Option<string>)
    ensures StrictlySorted(Remaining(points, offset))
  {
    SortedSetSorted(set p | p in ManagedPoints(points) && (offset.None? || !StrLess(p, offset.value)));
  }

  /** The elements of a strictly sorted sequence that do not come before its k-th are those from k on. */
  lemma NotBefore(s: seq<string>, k: nat)
    requires StrictlySorted(s) && k < |s|
    ensures StrictlySorted(s[k..])
    ensures forall x :: x in s[k..] <==> x in s && !StrLess(x, s[k])
  {
    StrLessTotal();
    hide StrLess;
    forall x | x in s && !StrLess(x, s[k]) ensures x in s[k..] {
      var i :| 0 <= i < |s| && s[i] == x;
      assert s[k..][i - k] == x;
    }
    forall x | x in s[k..] ensures x in s && !StrLess(x, s[k]) {
      var i :| 0 <= i < |s| - k && s[k..][i] == x;
      assert s[k + i] == x;
    }
  }

  /** Starting the page read at the k-th id leaves exactly the ids from position k. */
  lemma RemainingFrom(points: Points, k: nat)
    requires k < |Remaining(points, None)|
    ensures Remaining(points, Some(Remaining(points, None)[k])) == Remaining(points, None)[k..]
  {
    var all := Remaining(points, None);
    var rest := Remaining(points, Some(all[k]));
    RemainingSorted(points, None);
    RemainingSorted(points, Some(all[k]));
    RemainingMembers(points, None);
    RemainingMembers(points, Some(all[k]));
    hide Remaining, StrLess;
    NotBefore(all, k);
    StrictlySortedUnique(all[k..], rest);
  }

  // ---- what the mutations leave ----

  function Least(a: int, b: int): int {
    if a < b then a else b
  }

  lemma RestrictUnion(points: Points, content: Points, a: set<string>, b: set<string>)
    ensures (points + Restrict(content, a)) + Restrict(content, b) == points + Restrict(content, a + b)
  {
  }

  /** Each entry carries the content its id is to have, so no id is asked for two contents. */
  ghost predicate EntriesOf(entries: seq<Entry>, content: Points) {
    forall i :: 0 <= i < |entries| ==> entries[i].id in content && content[entries[i].id] == entries[i].point
  }

  function IdsOf(entries: seq<Entry>): (ids: seq<string>)
    ensures |ids| == |entries| && forall i :: 0 <= i < |entries| ==> ids[i] == entries[i].id
  {
    seq(|entries|, i requires 0 <= i < |entries| => entries[i].id)
  }

  function Restrict(points: Points, ids: set<string>): Points {
    map p | p in points && p in ids :: points[p]
  }

  lemma RestrictNext(points: Points, content: Points, a: set<string>, id: string)
    requires id in content
    ensures (points + Restrict(content, a))[id := content[id]] == points + Restrict(content, a + {id})
  {
  }

  lemma ElementsNext(ids: seq<string>, i: nat)
    requires i < |ids|
    ensures Elements(ids[..i + 1]) == Elements(ids[..i]) + {ids[i]}
  {
    assert ids[..i + 1] == ids[..i] + [ids[i]];
  }

  /** All complete batches before number k are applied, and nothing past batch k. */
  ghost predicate BatchCut(ids: seq<string>, applied: set<string>, k: nat) {
    && MUTATION_BATCH_SIZE * k <= |ids|
    && (forall i :: 0 <= i < MUTATION_BATCH_SIZE * k ==> ids[i] in applied)
    && (forall x :: x in applied ==> exists i :: 0 <= i < |ids| && i < MUTATION_BATCH_SIZE * (k + 1) && ids[i] == x)
  }

  class QdrantClient {
    var points: Points

    constructor (points: Points)
      ensures this.points == points
    {
      this.points := points;
    }

    method Scroll(limit: nat, offset: Option<string>) returns (r: Result<Page, VectorIndexError>)
      requires limit > 0
      ensures r.Err? ==> r.error == ClientFault
      ensures r.Ok? ==> PageOf(points, Remaining(points, offset), limit, r.value)
    {
      if * {
        return Err(ClientFault);
      }
      var ids := Remaining(points, offset);
      RemainingMembers(points, offset);
      var n := if |ids| <= limit then |ids| else limit;
      var records := [];
      for i := 0 to n
        invariant |records| == i
        invariant forall j :: 0 <= j < i ==> ids[j] in points && records[j] == Entry(ids[j], points[ids[j]])
      {
        assert ids[i] in ids;
        records := records + [Entry(ids[i], points[ids[i]])];
      }
      return Ok(Page(records, if n < |ids| then Some(ids[n]) else None));
    }

    /** A failing request may have applied any subset of its entries. */
    method Upsert(batch: seq<Entry>, ghost content: Points) returns (ok: bool, ghost applied: set<string>)
      requires EntriesOf(batch, content)
      modifies this
      ensures applied <= Elements(IdsOf(batch)) && (ok ==> applied == Elements(IdsOf(batch)))
      ensures points == old(points) + Restrict(content, applied)
    {
      applied := {};
      ok := true;
      ghost var ids := IdsOf(batch);
      for i := 0 to |batch|
        invariant applied <= Elements(ids[..i]) && (ok ==> applied == Elements(ids[..i]))
        invariant points == old(points) + Restrict(content, applied)
      {
        ElementsNext(ids, i);
        if * {
          ok := false;
        } else {
          RestrictNext(old(points), content, applied, batch[i].id);
          points := points[batch[i].id := batch[i].point];
          applied := applied + {batch[i].id};
        }
      }
      assert ids[..|batch|] == ids;
    }

    /** A failing request may have deleted any subset of the ids. */
    method Delete(ids: seq<string>) returns (ok: bool, ghost applied: set<string>)
      modifies this
      ensures applied <= Elements(ids) && (ok ==> applied == Elements(ids))
      ensures points == old(points) - applied
    {
      applied := {};
      ok := true;
      for i := 0 to |ids|
        invariant applied <= Elements(ids[..i]) && (ok ==> applied == Elements(ids[..i]))
        invariant points == old(points) - applied
      {
        ElementsNext(ids, i);
        if * {
          ok := false;
        } else {
          points := points - {ids[i]};
          applied := applied + {ids[i]};
        }
      }
      assert ids[..|ids|] == ids;
    }
  }

  /** The adapter over one collection; `pointId` is the name-based UUID of a chunk id. */
  class QdrantVectorIndex {
    const client: QdrantClient
    const pointId: string -> string

    constructor (client: QdrantClient, pointId: string -> string)
      ensures this.client == client && this.pointId == pointId
    {
      this.client, this.pointId := client, pointId;
    }

    method ParseStates(records: seq<Entry>) returns (r: Result<seq<ChunkState>, VectorIndexError>)
      ensures r.Ok? ==> Parsed(records, r.value)
      ensures r.Err? ==> r.error == InvalidPayload
      ensures r.Err? ==> exists i :: 0 <= i < |records| && !WellFormedPayload(records[i].point.payload)
    {
      var states: seq<ChunkState> := [];
      for i := 0 to |records|
        invariant |states| == i
        invariant forall j :: 0 <= j < i ==>
                    WellFormedPayload(records[j].point.payload) && states[j] == ParsedState(records[j])
      {
        if !WellFormedPayload(records[i].point.payload) {
          return Err(InvalidPayload);
        }
        states := states + [ParsedState(records[i])];
      }
      return Ok(states);
    }

    /** One turn of the page loop: the states read so far grow by one page. */
    method ReadPage(states: seq<ChunkState>, offset: Option<string>)
      returns (r: Result<(seq<ChunkState>, Option<string>), VectorIndexError>)
      requires PartlyRead(client.points, states, offset)
      ensures r.Ok? && r.value.1.None? ==> Listed(client.points, Remaining(client.points, None), r.value.0)
      ensures r.Ok? && r.value.1.Some? ==>
                |r.value.0| > |states| && PartlyRead(client.points, r.value.0, r.value.1)
      ensures r.Err? && r.error == InvalidPayload ==> !Readable(client.points)
    {
      var page := client.Scroll(PAGE_SIZE, offset);
      if page.Err? {
        return Err(page.error);
      }
      var parsed := ParseStates(page.value.records);
      if parsed.Err? {
        BadRecord(client.points, offset, PAGE_SIZE, page.value);
        return Err(parsed.error);
      }
      ListedPage(client.points, offset, PAGE_SIZE, states, page.value, parsed.value);
      return Ok((states + parsed.value, page.value.next));
    }

    /** Every managed point's state exactly once, by chunk id, however many pages it takes. */
    method ListChunkStates() returns (r: Result<seq<ChunkState>, VectorIndexError>)
      ensures r.Ok? ==> Readable(client.points)
      ensures forall p :: p in Remaining(client.points, None) ==> p in client.points
      ensures r.Ok? ==> r.value == SortBy(StatesOf(client.points, Remaining(client.points, None)), StateChunkId, StrLess)
      ensures r.Err? && r.error == InvalidPayload ==> !Readable(client.points)
    {
      RemainingMembers(client.points, None);
      var states: seq<ChunkState> := [];
      var offset: Option<string> := None;
      var more := true;
      while more
        invariant if more then PartlyRead(client.points, states, offset)
                  else Listed(client.points, Remaining(client.points, None), states)
        decreases |Remaining(client.points, None)| - |states|, more
      {
        var turn := ReadPage(states, offset);
        if turn.Err? {
          return Err(turn.error);
        }
        states, offset := turn.value.0, turn.value.1;
        more := offset.Some?;
      }
      AllListed(client.points, states);
      return Ok(SortBy(states, StateChunkId, StrLess));
    }

    /** Upserts in batches; on failure some whole batches and part of the next one are in. */
    method Upsert(entries: seq<Entry>, ghost content: Points) returns (ok: bool, ghost applied: set<string>)
      requires EntriesOf(entries, content)
      modifies client
      ensures applied <= Elements(IdsOf(entries)) && (ok ==> applied == Elements(IdsOf(entries)))
      ensures client.points == old(client.points) + Restrict(content, applied)
      ensures exists k: nat :: BatchCut(IdsOf(entries), applied, k)
    {
      ghost var ids := IdsOf(entries);
      ghost var k: nat := 0;
      applied := {};
      var start := 0;
      while start < |entries|
        invariant start == MUTATION_BATCH_SIZE * k
        invariant applied == Elements(ids[..Least(start, |ids|)])
        invariant client.points == old(client.points) + Restrict(content, applied)
      {
        var stop := Least(start + MUTATION_BATCH_SIZE, |entries|);
        var batch := entries[start..stop];
        ghost var part;
        ok, part := client.Upsert(batch, content);
        assert IdsOf(batch) == ids[start..stop];
        BatchDone(ids, start, stop, k, applied, part);
        RestrictUnion(old(client.points), content, applied, part);
        applied := applied + part;
        if !ok {
          return;
        }
        start, k := start + MUTATION_BATCH_SIZE, k + 1;
      }
      assert ids[..|ids|] == ids;
      assert BatchCut(ids, applied, |ids| / MUTATION_BATCH_SIZE);
      ok := true;
    }

    /** Deletes in batches; on failure some whole batches and part of the next one are gone. */
    method Delete(ids: seq<string>) returns (ok: bool, ghost applied: set<string>)
      modifies client
      ensures applied <= Elements(ids) && (ok ==> applied == Elements(ids))
      ensures client.points == old(client.points) - applied
      ensures exists k: nat :: BatchCut(ids, applied, k)
    {
      ghost var k: nat := 0;
      applied := {};
      var start := 0;
      while start < |ids|
        invariant start == MUTATION_BATCH_SIZE * k
        invariant applied == Elements(ids[..Least(start, |ids|)])
        invariant client.points == old(client.points) - applied
      {
        var stop := Least(start + MUTATION_BATCH_SIZE, |ids|);
        ghost var part;
        ok, part := client.Delete(ids[start..stop]);
        BatchDone(ids, start, stop, k, applied, part);
        applied := applied + part;
        if !ok {
          return;
        }
        start, k := start + MUTATION_BATCH_SIZE, k + 1;
      }
      assert ids[..|ids|] == ids;
      assert BatchCut(ids, applied, |ids| / MUTATION_BATCH_SIZE);
      ok := true;
    }
  }

  /** A batch that applied `part` of its ids, after whole batches, is a cut at that batch. */
  lemma BatchDone(ids: seq<string>, start: nat, stop: nat, k: nat, applied: set<string>, part: set<string>)
    requires start == MUTATION_BATCH_SIZE * k && start <= stop <= |ids| && stop <= start + MUTATION_BATCH_SIZE
    requires applied == Elements(ids[..start]) && part <= Elements(ids[start..stop])
    ensures BatchCut(ids, applied + part, k)
    ensures applied + part <= Elements(ids)
    ensures part == Elements(ids[start..stop]) ==> applied + part == Elements(ids[..stop])
  {
    assert ids[..stop] == ids[..start] + ids[start..stop];
    forall i | 0 <= i < start ensures ids[i] in applied {
      assert ids[..start][i] == ids[i];
    }
    forall x | x in applied + part ensures exists i :: 0 <= i < stop && ids[i] == x {
      assert x in ids[..stop];
      var i :| 0 <= i < stop && ids[..stop][i] == x;
      assert ids[i] == x;
    }
  }
}
