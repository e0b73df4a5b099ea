/** The approved manifest, its diff against the previous one, and the document-level reconciliation. */
module IndexManifests {
  import opened Wrappers
  import opened Ordering
  import opened Sorting
  import opened Dictionaries
  import opened Models

  /** The canonical hash of everything in a manifest but the hash itself. */
  type ManifestHash = (string, seq<IndexedDocument>) -> string

  datatype ManifestError = InvalidDocument | InvalidManifest | DuplicateChunkIds

  // ---- building ----

  function NameOf(chunk: Chunk): string {
    chunk.body.qualifiedName
  }

  /** The eligible chunks of one document, in input order. */
  function Group(chunks: seq<Chunk>, id: string): seq<Chunk> {
    if chunks == [] then []
    else
      var last := chunks[|chunks| - 1];
      Group(chunks[..|chunks| - 1], id) + if last.body.indexEligible && NameOf(last) == id then [last] else []
  }

  function EligibleNames(chunks: seq<Chunk>): set<string> {
    set c | c in chunks && c.body.indexEligible :: NameOf(c)
  }

  /** One document per group, versioned by its first chunk in id order. */
  function DocumentOf(id: string, group: seq<Chunk>): IndexedDocument
    requires group != []
  {
    var ordered := SortBy(group, ChunkIdOf, StrLess);
    IndexedDocument(id, ordered[0].body.schemaHash, ordered[0].body.sourceReviewCommit,
                    ordered[0].body.transformationGuidelineVersion, ordered)
  }

  lemma {:induction false} GroupMembers(chunks: seq<Chunk>, id: string)
    ensures forall c :: c in Group(chunks, id) <==> c in chunks && c.body.indexEligible && NameOf(c) == id
    decreases |chunks|
  {
    if chunks == [] {
    } else {
      var init, last := chunks[..|chunks| - 1], chunks[|chunks| - 1];
      GroupMembers(init, id);
      assert chunks == init + [last];
    }
  }

  /** A document that lists chunks of its own, each once, all eligible and of its own version. */
  ghost predicate SoundDocument(d: IndexedDocument) {
    && d.documentId != "" && IsDigest(d.schemaHash) && IsCommit(d.sourceReviewCommit) && d.transformationGuidelineVersion != ""
    && d.chunks != [] && DistinctKeys(d.chunks, ChunkIdOf)
    && forall c :: c in d.chunks ==>
         && c.body.parentDocumentId == d.documentId + "::document" && c.body.indexEligible
         && c.body.schemaHash == d.schemaHash && c.body.sourceReviewCommit == d.sourceReviewCommit
         && c.body.transformationGuidelineVersion == d.transformationGuidelineVersion
  }

  /** The validators of an indexed document and of a manifest accept exactly this. */
  lemma DocumentValidExactly(d: IndexedDocument)
    ensures d.Valid() <==> SoundDocument(d)
  {
    DictCount(d.chunks, ChunkIdOf);
    hide DictBy, DistinctKeys;
  }

  lemma ManifestValidExactly(m: IndexManifest, hash: ManifestHash)
    ensures ValidManifest(m, hash) <==>
              && IsCommit(m.sourceCommit) && IsDigest(m.manifestHash) && m.manifestHash == hash(m.sourceCommit, m.documents)
              && forall i, j :: 0 <= i < j < |m.documents| ==> StrLess(m.documents[i].documentId, m.documents[j].documentId)
  {
    hide StrLess, SortedSet, IsDigest, IsCommit;
    var ids := DocumentIds(m.documents);
    SortedSetSorted(Elements(ids));
    if StrictlySorted(ids) {
      SortedSetUnique(ids, Elements(ids));
    }
    assert |SortedSet(Elements(ids))| == |Elements(ids)|;
  }

  /** In a valid document a chunk whose parent is named after its table belongs to that table's document. */
  lemma OwnerNamed(d: IndexedDocument, c: Chunk)
    requires d.Valid() && c in d.chunks && c.Consistent()
    ensures d.documentId == c.body.qualifiedName == c.body.database + "." + c.body.table
  {
    var x, y := d.documentId, c.body.qualifiedName;
    assert |x| == |y|;
    assert x == (x + "::document")[..|x|] && y == (y + "::document")[..|y|];
  }

  lemma GroupNonEmpty(chunks: seq<Chunk>, id: string)
    requires id in EligibleNames(chunks)
    ensures Group(chunks, id) != []
  {
    GroupMembers(chunks, id);
    var c :| c in chunks && c.body.indexEligible && NameOf(c) == id;
    assert c in Group(chunks, id);
  }

  /** The documents for some of the eligible names, in the order given. */
  function DocumentsFor(chunks: seq<Chunk>, ids: seq<string>): (documents: seq<IndexedDocument>)
    requires forall id :: id in ids ==> id in EligibleNames(chunks)
    ensures |documents| == |ids|
    ensures forall i :: 0 <= i < |ids| ==> documents[i].documentId == ids[i]
  {
    if ids == [] then []
    else
      var last := ids[|ids| - 1];
      GroupNonEmpty(chunks, last);
      DocumentsFor(chunks, ids[..|ids| - 1]) + [DocumentOf(last, Group(chunks, last))]
  }

  function ManifestDocuments(chunks: seq<Chunk>): seq<IndexedDocument> {
    DocumentsFor(chunks, SortedSet(EligibleNames(chunks)))
  }

  function DocumentIds(documents: seq<IndexedDocument>): (ids: seq<string>)
    ensures |ids| == |documents| && forall i :: 0 <= i < |ids| ==> ids[i] == documents[i].documentId
  {
    seq(|documents|, i requires 0 <= i < |documents| => documents[i].documentId)
  }

  /** The manifest validators: documents unique and sorted by id, and the hash canonical. */
  predicate ValidManifest(m: IndexManifest, hash: ManifestHash) {
    && IsCommit(m.sourceCommit) && IsDigest(m.manifestHash)
    && |Elements(DocumentIds(m.documents))| == |m.documents|
    && DocumentIds(m.documents) == SortedSet(Elements(DocumentIds(m.documents)))
    && m.manifestHash == hash(m.sourceCommit, m.documents)
  }

  function BuiltManifest(chunks: seq<Chunk>, sourceCommit: string, hash: ManifestHash): Result<IndexManifest, ManifestError> {
    var documents := ManifestDocuments(chunks);
    var m := IndexManifest(sourceCommit, documents, hash(sourceCommit, documents));
    if exists d :: d in documents && !d.Valid() then Err(InvalidDocument)
    else if !ValidManifest(m, hash) then Err(InvalidManifest)
    else Ok(m)
  }

  /** One pass over the chunks fills one list per eligible document. */
  method GroupChunks(chunks: seq<Chunk>) returns (grouped: map<string, seq<Chunk>>)
    ensures grouped.Keys == EligibleNames(chunks)
    ensures forall id :: id in grouped ==> grouped[id] == Group(chunks, id)
  {
    grouped := map[];
    for i := 0 to |chunks|
      invariant grouped.Keys == EligibleNames(chunks[..i])
      invariant forall id :: id in grouped ==> grouped[id] == Group(chunks[..i], id)
    {
      var c := chunks[i];
      GroupStep(chunks, i);
      if c.body.indexEligible {
        var before := if NameOf(c) in grouped then grouped[NameOf(c)] else [];
        GroupAbsent(chunks[..i], NameOf(c));
        grouped := grouped[NameOf(c) := before + [c]];
      }
    }
    assert chunks[..|chunks|] == chunks;
  }

  /** One validated document per group, in the order given. */
  method BuildDocuments(chunks: seq<Chunk>, grouped: map<string, seq<Chunk>>, ids: seq<string>)
    returns (r: Result<seq<IndexedDocument>, ManifestError>)
    requires forall id :: id in ids ==> id in EligibleNames(chunks) && id in grouped && grouped[id] == Group(chunks, id)
    ensures r.Ok? ==> r.value == DocumentsFor(chunks, ids) && forall d :: d in r.value ==> d.Valid()
    ensures r.Err? ==> r.error == InvalidDocument && exists d :: d in DocumentsFor(chunks, ids) && !d.Valid()
  {
    hide EligibleNames, Group, IndexedDocument.Valid;
    var documents: seq<IndexedDocument> := [];
    for i := 0 to |ids|
      invariant forall id :: id in ids[..i] ==> id in EligibleNames(chunks)
      invariant documents == DocumentsFor(chunks, ids[..i])
      invariant forall d :: d in documents ==> d.Valid()
    {
      DocumentsNext(chunks, ids, i);
      var document := DocumentOf(ids[i], grouped[ids[i]]);
      if !document.Valid() {
        DocumentsPrefix(chunks, ids, i + 1);
        assert DocumentsFor(chunks, ids)[i] == document;
        return Err(InvalidDocument);
      }
      documents := documents + [document];
    }
    assert ids[..|ids|] == ids;
    return Ok(documents);
  }

  method BuildIndexManifest(chunks: seq<Chunk>, sourceCommit: string, hash: ManifestHash)
    returns (r: Result<IndexManifest, ManifestError>)
    ensures r == BuiltManifest(chunks, sourceCommit, hash)
  {
    var grouped := GroupChunks(chunks);
    var ids := SortedSet(grouped.Keys);
    hide SortedSet, IndexedDocument.Valid, ValidManifest;
    var documents := BuildDocuments(chunks, grouped, ids);
    if documents.Err? {
      return Err(documents.error);
    }
    var m := IndexManifest(sourceCommit, documents.value, hash(sourceCommit, documents.value));
    if !ValidManifest(m, hash) {
      return Err(InvalidManifest);
    }
    return Ok(m);
  }

  lemma GroupStep(chunks: seq<Chunk>, i: nat)
    requires i < |chunks|
    ensures EligibleNames(chunks[..i + 1]) == EligibleNames(chunks[..i]) + (if chunks[i].body.indexEligible then {NameOf(chunks[i])} else {})
    ensures forall id :: Group(chunks[..i + 1], id) ==
              Group(chunks[..i], id) + if chunks[i].body.indexEligible && NameOf(chunks[i]) == id then [chunks[i]] else []
  {
    assert chunks[..i + 1] == chunks[..i] + [chunks[i]];
    assert chunks[..i + 1][..i] == chunks[..i];
  }

  lemma GroupAbsent(chunks: seq<Chunk>, id: string)
    ensures id !in EligibleNames(chunks) ==> Group(chunks, id) == []
  {
    GroupMembers(chunks, id);
    if Group(chunks, id) != [] {
      assert Group(chunks, id)[0] in Group(chunks, id);
    }
  }

  lemma DocumentsNext(chunks: seq<Chunk>, ids: seq<string>, i: nat)
    requires i < |ids| && forall id :: id in ids ==> id in EligibleNames(chunks)
    ensures forall id :: id in ids[..i + 1] ==> id in EligibleNames(chunks)
    ensures Group(chunks, ids[i]) != []
    ensures DocumentsFor(chunks, ids[..i + 1]) == DocumentsFor(chunks, ids[..i]) + [DocumentOf(ids[i], Group(chunks, ids[i]))]
  {
    assert ids[..i + 1][..i] == ids[..i];
    assert ids[i] in ids;
    GroupNonEmpty(chunks, ids[i]);
  }

  lemma {:induction false} DocumentsPrefix(chunks: seq<Chunk>, ids: seq<string>, i: nat)
    requires i <= |ids| && forall id :: id in ids ==> id in EligibleNames(chunks)
    ensures DocumentsFor(chunks, ids[..i]) <= DocumentsFor(chunks, ids)
    decreases |ids| - i
  {
    if i < |ids| {
      DocumentsNext(chunks, ids, i);
      DocumentsPrefix(chunks, ids, i + 1);
    } else {
      assert ids[..i] == ids;
    }
  }

  // ---- what a clean batch yields ----

  /** The record validators of one chunk's fields used here. */
  ghost predicate SoundChunk(c: Chunk) {
    && c.Consistent() && NameOf(c) != ""
    && IsDigest(c.body.schemaHash) && IsCommit(c.body.sourceReviewCommit) && c.body.transformationGuidelineVersion != ""
  }

  predicate SameVersions(c: Chunk, d: Chunk) {
    && c.body.schemaHash == d.body.schemaHash
    && c.body.sourceReviewCommit == d.body.sourceReviewCommit
    && c.body.transformationGuidelineVersion == d.body.transformationGuidelineVersion
  }

  /** Sound chunks with unique ids, one version per document. */
  ghost predicate CleanBatch(chunks: seq<Chunk>) {
    && DistinctKeys(chunks, ChunkIdOf)
    && (forall c :: c in chunks ==> SoundChunk(c))
    && (forall c, d :: c in chunks && d in chunks && NameOf(c) == NameOf(d) ==> SameVersions(c, d))
  }

  lemma {:induction false} GroupDistinct(chunks: seq<Chunk>, id: string)
    requires DistinctKeys(chunks, ChunkIdOf)
    ensures DistinctKeys(Group(chunks, id), ChunkIdOf)
    decreases |chunks|
  {
    if chunks == [] {
    } else {
      var init, last := chunks[..|chunks| - 1], chunks[|chunks| - 1];
      assert chunks == init + [last];
      DistinctAppend(init, last, ChunkIdOf);
      hide DistinctKeys;
      GroupDistinct(init, id);
      GroupMembers(init, id);
      DistinctAppend(Group(init, id), last, ChunkIdOf);
      assert Group(init, id) + [] == Group(init, id);
    }
  }

  /** The chunks of one document of a clean batch, in id order. */
  lemma OrderedGroup(chunks: seq<Chunk>, id: string)
    requires DistinctKeys(chunks, ChunkIdOf)
    ensures var ordered := SortBy(Group(chunks, id), ChunkIdOf, StrLess);
      && |DictBy(ordered, ChunkIdOf)| == |ordered|
      && (forall c :: c in ordered ==> c in chunks && NameOf(c) == id && c.body.indexEligible)
  {
    var group := Group(chunks, id);
    GroupMembers(chunks, id);
    GroupDistinct(chunks, id);
    hide Group, DistinctKeys, DictBy, SortBy;
    var ordered := SortBy(group, ChunkIdOf, StrLess);
    SortMembers(group, ChunkIdOf, StrLess);
    SortMultiset(group, ChunkIdOf, StrLess);
    DistinctPermuted(group, ordered, ChunkIdOf);
    DictCount(ordered, ChunkIdOf);
  }

  lemma CleanDocument(chunks: seq<Chunk>, id: string)
    requires CleanBatch(chunks) && Group(chunks, id) != []
    ensures DocumentOf(id, Group(chunks, id)).Valid()
  {
    OrderedGroup(chunks, id);
    hide SortBy, Group, DistinctKeys, DictBy, IsDigest, IsCommit;
    var ordered := SortBy(Group(chunks, id), ChunkIdOf, StrLess);
    assert ordered[0] in ordered;
    assert SoundChunk(ordered[0]);
    forall c | c in ordered ensures SoundChunk(c) && SameVersions(c, ordered[0]) {
    }
  }

  lemma {:induction false} CleanDocuments(chunks: seq<Chunk>, ids: seq<string>)
    requires CleanBatch(chunks) && forall id :: id in ids ==> id in EligibleNames(chunks)
    ensures forall d :: d in DocumentsFor(chunks, ids) ==> d.Valid()
    decreases |ids|
  {
    hide CleanBatch;
    if ids == [] {
    } else {
      var last := ids[|ids| - 1];
      GroupNonEmpty(chunks, last);
      CleanDocument(chunks, last);
      CleanDocuments(chunks, ids[..|ids| - 1]);
    }
  }

  /** A clean batch always yields a manifest that meets every validator. */
  lemma CleanBatchManifest(chunks: seq<Chunk>, sourceCommit: string, hash: ManifestHash)
    requires CleanBatch(chunks) && IsCommit(sourceCommit) && forall c, ds :: IsDigest(hash(c, ds))
    ensures BuiltManifest(chunks, sourceCommit, hash).Ok?
    ensures forall d :: d in BuiltManifest(chunks, sourceCommit, hash).value.documents ==> d.Valid()
    ensures ValidManifest(BuiltManifest(chunks, sourceCommit, hash).value, hash)
  {
    hide SortedSet, EligibleNames, CleanBatch, IsDigest, IsCommit, IndexedDocument.Valid, DocumentsFor;
    var ids := SortedSet(EligibleNames(chunks));
    var documents := ManifestDocuments(chunks);
    CleanDocuments(chunks, ids);
    assert DocumentIds(documents) == ids;
    assert Elements(ids) == EligibleNames(chunks);
    assert ValidManifest(IndexManifest(sourceCommit, documents, hash(sourceCommit, documents)), hash);
  }

  lemma GroupMultiset(a: seq<Chunk>, b: seq<Chunk>, id: string)
    requires multiset(a) == multiset(b)
    ensures multiset(Group(a, id)) == multiset(Group(b, id))
  {
    forall c ensures multiset(Group(a, id))[c] == multiset(Group(b, id))[c] {
      GroupCount(a, id, c);
      GroupCount(b, id, c);
    }
  }

  lemma {:induction false} GroupCount(chunks: seq<Chunk>, id: string, c: Chunk)
    ensures multiset(Group(chunks, id))[c] ==
              if c.body.indexEligible && NameOf(c) == id then multiset(chunks)[c] else 0
    decreases |chunks|
  {
    if chunks == [] {
    } else {
      var init, last := chunks[..|chunks| - 1], chunks[|chunks| - 1];
      GroupCount(init, id, c);
      assert chunks == init + [last];
      assert multiset(chunks)[c] == multiset(init)[c] + if last == c then 1 else 0;
      var added := if last.body.indexEligible && NameOf(last) == id then [last] else [];
      assert Group(chunks, id) == Group(init, id) + added;
      assert multiset(Group(chunks, id)) == multiset(Group(init, id)) + multiset(added);
    }
  }

  lemma DistinctDetermines<T(!new), K(!new)>(s: seq<T>, key: T -> K)
    requires DistinctKeys(s, key)
    ensures KeyDetermines(s, key)
  {
    forall x, y | x in s && y in s && key(x) == key(y) ensures x == y {
      var i :| 0 <= i < |s| && s[i] == x;
      var j :| 0 <= j < |s| && s[j] == y;
      assert i == j;
    }
  }

  lemma SameDocument(a: seq<Chunk>, b: seq<Chunk>, id: string)
    requires multiset(a) == multiset(b) && DistinctKeys(a, ChunkIdOf)
    requires Group(a, id) != [] && Group(b, id) != []
    ensures DocumentOf(id, Group(a, id)) == DocumentOf(id, Group(b, id))
  {
    GroupMultiset(a, b, id);
    GroupDistinct(a, id);
    DistinctDetermines(Group(a, id), ChunkIdOf);
    StrLessTotal();
    hide DistinctKeys, KeyDetermines, Group, StrLess;
    SortCanonical(Group(a, id), Group(b, id), ChunkIdOf, StrLess);
  }

  lemma {:induction false} SameDocuments(a: seq<Chunk>, b: seq<Chunk>, ids: seq<string>)
    requires multiset(a) == multiset(b) && DistinctKeys(a, ChunkIdOf)
    requires forall id :: id in ids ==> id in EligibleNames(a) && id in EligibleNames(b)
    ensures DocumentsFor(a, ids) == DocumentsFor(b, ids)
    decreases |ids|
  {
    hide DistinctKeys;
    if ids == [] {
    } else {
      var last := ids[|ids| - 1];
      GroupNonEmpty(a, last);
      GroupNonEmpty(b, last);
      SameDocument(a, b, last);
      SameDocuments(a, b, ids[..|ids| - 1]);
    }
  }

  /** The manifest depends on which chunks there are, not on their order. */
  lemma ManifestOrderFree(a: seq<Chunk>, b: seq<Chunk>, sourceCommit: string, hash: ManifestHash)
    requires multiset(a) == multiset(b) && DistinctKeys(a, ChunkIdOf)
    ensures BuiltManifest(a, sourceCommit, hash) == BuiltManifest(b, sourceCommit, hash)
  {
    hide DistinctKeys;
    assert forall c :: c in a <==> c in multiset(a);
    assert forall c :: c in b <==> c in multiset(b);
    assert EligibleNames(a) == EligibleNames(b);
    SameDocuments(a, b, SortedSet(EligibleNames(a)));
  }
}
