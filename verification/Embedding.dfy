/** The embedding adapter: batches of texts, replies in any order, vectors in text order. */
module Embedding {
  import opened Wrappers
  import opened Sorting
  import opened Text
  import opened VectorStore

  const BATCH_SIZE := 100

  datatype EmbeddingError = EmptyText | GatewayFailed | ZeroVector | CountMismatch | DimensionMismatch

  /** One element of a reply. */
  datatype Item = Item(index: int, embedding: Vector)

  function IndexOf(item: Item): int {
    item.index
  }

  predicate IntLess(a: int, b: int) {
    a < b
  }

  /** What the provider owes for `texts`: one embedding per text, labelled with the text's position. */
  function Owed(raw: string -> Vector, texts: seq<string>): (items: seq<Item>)
    ensures |items| == |texts|
    ensures forall i :: 0 <= i < |texts| ==> items[i] == Item(i, raw(texts[i]))
  {
    if texts == [] then []
    else Owed(raw, texts[..|texts| - 1]) + [Item(|texts| - 1, raw(texts[|texts| - 1]))]
  }

  /** The stored vector of a text: its raw embedding scaled to unit length. */
  function Composed(raw: string -> Vector, unit: Vector -> Vector): string -> Vector {
    text => unit(raw(text))
  }

  predicate IsZero(v: Vector) {
    forall i :: 0 <= i < |v| ==> v[i] == 0.0
  }

  /** The adapter can store a vector for this text. */
  predicate Embeddable(text: string, raw: string -> Vector, unit: Vector -> Vector, dimension: nat) {
    !IsBlank(text) && !IsZero(raw(text)) && |unit(raw(text))| == dimension
  }

  lemma OwedNext(raw: string -> Vector, texts: seq<string>, i: nat)
    requires i < |texts|
    ensures multiset(Owed(raw, texts[..i + 1])) == multiset(Owed(raw, texts[..i])) + multiset{Item(i, raw(texts[i]))}
  {
    assert texts[..i + 1][..i] == texts[..i];
  }

  lemma InsertedAnywhere<T>(s: seq<T>, at: nat, x: T)
    requires at <= |s|
    ensures multiset(s[..at] + [x] + s[at..]) == multiset(s) + multiset{x}
  {
    assert s == s[..at] + s[at..];
  }

  /** Vector i is the stored vector of text i, and every text is embeddable. */
  ghost predicate Aligned(vectors: seq<Vector>, texts: seq<string>, raw: string -> Vector, unit: Vector -> Vector, dimension: nat) {
    && |vectors| == |texts|
    && forall i :: 0 <= i < |texts| ==>
         Embeddable(texts[i], raw, unit, dimension) && vectors[i] == Composed(raw, unit)(texts[i])
  }

  ghost predicate HasUnembeddable(texts: seq<string>, raw: string -> Vector, unit: Vector -> Vector, dimension: nat) {
    exists text :: text in texts && !Embeddable(text, raw, unit, dimension)
  }

  lemma AlignedAppend(v1: seq<Vector>, t1: seq<string>, v2: seq<Vector>, t2: seq<string>,
                      raw: string -> Vector, unit: Vector -> Vector, dimension: nat)
    requires Aligned(v1, t1, raw, unit, dimension) && Aligned(v2, t2, raw, unit, dimension)
    ensures Aligned(v1 + v2, t1 + t2, raw, unit, dimension)
  {
    forall i | 0 <= i < |t1 + t2|
      ensures Embeddable((t1 + t2)[i], raw, unit, dimension)
      ensures (v1 + v2)[i] == Composed(raw, unit)((t1 + t2)[i])
    {
      if i < |t1| {
        assert (t1 + t2)[i] == t1[i] && (v1 + v2)[i] == v1[i];
      } else {
        assert (t1 + t2)[i] == t2[i - |t1|] && (v1 + v2)[i] == v2[i - |t1|];
      }
    }
  }

  lemma AlignedNone(raw: string -> Vector, unit: Vector -> Vector, dimension: nat)
    ensures Aligned([], [], raw, unit, dimension)
  {
  }

  lemma BlankUnembeddable(texts: seq<string>, raw: string -> Vector, unit: Vector -> Vector, dimension: nat)
    requires exists text :: text in texts && IsBlank(text)
    ensures HasUnembeddable(texts, raw, unit, dimension)
  {
    var text :| text in texts && IsBlank(text);
    assert !Embeddable(text, raw, unit, dimension);
  }

  lemma ZeroUnembeddable(texts: seq<string>, raw: string -> Vector, unit: Vector -> Vector, dimension: nat)
    requires exists i :: 0 <= i < |texts| && IsZero(Owed(raw, texts)[i].embedding)
    ensures HasUnembeddable(texts, raw, unit, dimension)
  {
    hide Owed;
    var i :| 0 <= i < |texts| && IsZero(Owed(raw, texts)[i].embedding);
    assert texts[i] in texts && !Embeddable(texts[i], raw, unit, dimension);
  }

  lemma WrongUnembeddable(vectors: seq<Vector>, texts: seq<string>, raw: string -> Vector, unit: Vector -> Vector, dimension: nat)
    requires |vectors| == |texts|
    requires forall i :: 0 <= i < |texts| ==> vectors[i] == unit(Owed(raw, texts)[i].embedding)
    requires exists i :: 0 <= i < |vectors| && |vectors[i]| != dimension
    ensures HasUnembeddable(texts, raw, unit, dimension)
  {
    hide Owed;
    var i :| 0 <= i < |vectors| && |vectors[i]| != dimension;
    var text := texts[i];
    assert Owed(raw, texts)[i] == Item(i, raw(text));
    assert text in texts && !Embeddable(text, raw, unit, dimension);
  }

  lemma NormalizedAligned(vectors: seq<Vector>, texts: seq<string>, raw: string -> Vector, unit: Vector -> Vector, dimension: nat)
    requires |vectors| == |texts| && forall text :: text in texts ==> !IsBlank(text)
    requires forall i :: 0 <= i < |texts| ==>
               !IsZero(Owed(raw, texts)[i].embedding) && vectors[i] == unit(Owed(raw, texts)[i].embedding)
    requires forall i :: 0 <= i < |vectors| ==> |vectors[i]| == dimension
    ensures Aligned(vectors, texts, raw, unit, dimension)
  {
    forall i | 0 <= i < |texts|
      ensures Embeddable(texts[i], raw, unit, dimension) && vectors[i] == Composed(raw, unit)(texts[i])
    {
      assert texts[i] in texts && Owed(raw, texts)[i] == Item(i, raw(texts[i]));
    }
  }

  lemma UnembeddablePart(texts: seq<string>, start: nat, stop: nat, raw: string -> Vector, unit: Vector -> Vector, dimension: nat)
    requires start <= stop <= |texts| && HasUnembeddable(texts[start..stop], raw, unit, dimension)
    ensures HasUnembeddable(texts, raw, unit, dimension)
  {
    var text :| text in texts[start..stop] && !Embeddable(text, raw, unit, dimension);
    assert text in texts;
  }

  lemma NextBatch(texts: seq<string>, start: nat, stop: nat)
    requires start <= stop <= |texts|
    ensures texts[..start] + texts[start..stop] == texts[..stop]
  {
  }

  lemma SentMore(before: seq<string>, texts: seq<string>, start: nat, stop: nat)
    requires start <= stop <= |texts|
    ensures (before + texts[..start]) + texts[start..stop] == before + texts[..stop]
  {
    NextBatch(texts, start, stop);
  }

  /** A stable sort by index undoes whatever order the reply came in. */
  lemma SortRestoresOrder(reply: seq<Item>, raw: string -> Vector, texts: seq<string>)
    requires multiset(reply) == multiset(Owed(raw, texts))
    ensures SortBy(reply, IndexOf, IntLess) == Owed(raw, texts)
  {
    var owed := Owed(raw, texts);
    assert KeyDetermines(owed, IndexOf);
    SortCanonical(owed, reply, IndexOf, IntLess);
    SortFixed(owed, IndexOf, IntLess);
  }

  /** The gateway: it answers with what it owes in some order, or fails. */
  class EmbeddingClient {
    const raw: string -> Vector
    ghost var sent: seq<string>  // every text ever sent for embedding

    constructor (raw: string -> Vector)
      ensures this.raw == raw && sent == []
    {
      this.raw, sent := raw, [];
    }

    method Create(texts: seq<string>) returns (reply: Result<seq<Item>, EmbeddingError>)
      modifies this
      ensures sent == old(sent) + texts
      ensures reply.Ok? ==> multiset(reply.value) == multiset(Owed(raw, texts))
      ensures reply.Err? ==> reply.error == GatewayFailed
    {
      sent := sent + texts;
      if * {
        return Err(GatewayFailed);
      }
      var data: seq<Item> := [];
      for i := 0 to |texts|
        invariant sent == old(sent) + texts
        invariant multiset(data) == multiset(Owed(raw, texts[..i]))
      {
        var item := Item(i, raw(texts[i]));
        var at: nat :| at <= |data|;
        OwedNext(raw, texts, i);
        InsertedAnywhere(data, at, item);
        data := data[..at] + [item] + data[at..];
      }
      assert texts[..|texts|] == texts;
      return Ok(data);
    }
  }

  class Embedder {
    const client: EmbeddingClient
    const unit: Vector -> Vector
    const dimension: nat

    constructor (client: EmbeddingClient, unit: Vector -> Vector, dimension: nat)
      ensures this.client == client && this.unit == unit && this.dimension == dimension
    {
      this.client, this.unit, this.dimension := client, unit, dimension;
    }

    method Normalized(items: seq<Item>) returns (r: Result<seq<Vector>, EmbeddingError>)
      ensures r.Ok? ==> |r.value| == |items|
      ensures r.Ok? ==> forall i :: 0 <= i < |items| ==>
                !IsZero(items[i].embedding) && r.value[i] == unit(items[i].embedding)
      ensures r.Err? ==> exists i :: 0 <= i < |items| && IsZero(items[i].embedding)
    {
      var vectors: seq<Vector> := [];
      for i := 0 to |items|
        invariant |vectors| == i
        invariant forall j :: 0 <= j < i ==> !IsZero(items[j].embedding) && vectors[j] == unit(items[j].embedding)
      {
        if IsZero(items[i].embedding) {
          return Err(ZeroVector);
        }
        vectors := vectors + [unit(items[i].embedding)];
      }
      return Ok(vectors);
    }

    /** One request: order the reply by index, normalise, then check count and dimension. */
    method Embed(texts: seq<string>) returns (r: Result<seq<Vector>, EmbeddingError>)
      modifies client
      ensures client.sent == old(client.sent) || client.sent == old(client.sent) + texts
      ensures r.Ok? ==> client.sent == old(client.sent) + texts && Aligned(r.value, texts, client.raw, unit, dimension)
      ensures r.Err? ==>
                (r.error == GatewayFailed || texts == [] || HasUnembeddable(texts, client.raw, unit, dimension))
    {
      hide Aligned, HasUnembeddable, Owed, SortBy;
      if texts == [] || exists text :: text in texts && IsBlank(text) {
        if texts != [] {
          BlankUnembeddable(texts, client.raw, unit, dimension);
        }
        return Err(EmptyText);
      }
      var reply := client.Create(texts);
      if reply.Err? {
        return Err(reply.error);
      }
      SortRestoresOrder(reply.value, client.raw, texts);
      var ordered := SortBy(reply.value, IndexOf, IntLess);
      var vectors := Normalized(ordered);
      if vectors.Err? {
        ZeroUnembeddable(texts, client.raw, unit, dimension);
        return Err(vectors.error);
      }
      if |vectors.value| != |texts| {
        return Err(CountMismatch);
      }
      if exists i :: 0 <= i < |vectors.value| && |vectors.value[i]| != dimension {
        WrongUnembeddable(vectors.value, texts, client.raw, unit, dimension);
        return Err(DimensionMismatch);
      }
      NormalizedAligned(vectors.value, texts, client.raw, unit, dimension);
      return Ok(vectors.value);
    }

    /** All texts in batches; vector i belongs to text i whatever the order of each reply. */
    method EmbedDocuments(texts: seq<string>) returns (r: Result<seq<Vector>, EmbeddingError>)
      modifies client
      ensures exists n :: 0 <= n <= |texts| && client.sent == old(client.sent) + texts[..n]
      ensures r.Ok? ==> Aligned(r.value, texts, client.raw, unit, dimension)
      ensures r.Err? ==> (r.error == GatewayFailed || HasUnembeddable(texts, client.raw, unit, dimension))
    {
      hide Aligned, HasUnembeddable;
      var vectors: seq<Vector> := [];
      var start := 0;
      assert texts[..0] == [];
      AlignedNone(client.raw, unit, dimension);
      while start < |texts|
        invariant 0 <= start <= |texts|
        invariant client.sent == old(client.sent) + texts[..start]
        invariant Aligned(vectors, texts[..start], client.raw, unit, dimension)
      {
        var stop := if start + BATCH_SIZE <= |texts| then start + BATCH_SIZE else |texts|;
        NextBatch(texts, start, stop);
        SentMore(old(client.sent), texts, start, stop);
        var batch := Embed(texts[start..stop]);
        if batch.Err? {
          if batch.error != GatewayFailed {
            UnembeddablePart(texts, start, stop, client.raw, unit, dimension);
          }
          return Err(batch.error);
        }
        AlignedAppend(vectors, texts[..start], batch.value, texts[start..stop], client.raw, unit, dimension);
        vectors := vectors + batch.value;
        start := stop;
      }
      assert texts[..|texts|] == texts;
      return Ok(vectors);
    }
  }
}
