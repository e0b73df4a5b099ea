/** One chunk batch from the promoted candidates of every database. */
module CatalogChunks {
  import opened Wrappers
  import opened Ordering
  import opened Sorting
  import opened Dictionaries
  import opened Models
  import opened SemanticKeys
  import opened Chunks
  import opened ChunkTheorems
  import opened IndexManifests
  import opened CandidateLifecycle

  /** A directory of candidate files by name; `None` for a file that does not load. */
  datatype Directory = Directory(path: string, files: map<string, Option<Candidate>>)

  datatype CatalogError = InvalidCandidateFile | IntegrityFailed(error: CandidateError) | InvalidChunks | DuplicateChunkIds

  datatype ChunkBatch = ChunkBatch(chunks: seq<Chunk>, promotedDocuments: nat)

  function DirectoryPath(d: Directory): string {
    d.path
  }

  // ---- specification ----

  function FilesIn(d: Directory, names: seq<string>): (files: seq<Option<Candidate>>)
    requires forall n :: n in names ==> n in d.files
    ensures |files| == |names|
  {
    seq(|names|, i requires 0 <= i < |names| && names[i] in d.files => d.files[names[i]])
  }

  function FilesOf(d: Directory): seq<Option<Candidate>> {
    FilesIn(d, SortedSet(d.files.Keys))
  }

  /** All candidate files, directory by directory. */
  function AllFiles(dirs: seq<Directory>): seq<Option<Candidate>> {
    if dirs == [] then [] else AllFiles(dirs[..|dirs| - 1]) + FilesOf(dirs[|dirs| - 1])
  }

  /** The documents of the promoted candidates. */
  function Promotions(files: seq<Option<Candidate>>): seq<PublishedDocument> {
    if files == [] then []
    else
      var last := files[|files| - 1];
      Promotions(files[..|files| - 1]) + if last.Some? && last.value.stage.Promoted? then [last.value.document] else []
  }

  function ChunksOfAll(documents: seq<PublishedDocument>, p: Primitives): seq<Chunk> {
    if documents == [] then []
    else ChunksOfAll(documents[..|documents| - 1], p) + ChunksOf(documents[|documents| - 1], p)
  }

  /** A file that loads, is intact, and, if promoted, has chunks the validator accepts. */
  predicate Passes(file: Option<Candidate>, p: Primitives, tools: Tools) {
    && file.Some? && file.value.Valid() && CheckIntegrity(file.value, tools).Ok?
    && (file.value.stage.Promoted? ==> IssuesOf(file.value.document, ChunksOf(file.value.document, p), p) == [])
  }

  predicate AllPass(files: seq<Option<Candidate>>, p: Primitives, tools: Tools) {
    forall i :: 0 <= i < |files| ==> Passes(files[i], p, tools)
  }

  function DocumentName(d: PublishedDocument): string {
    d.qualifiedName
  }

  // ---- which documents are published ----

  /** A promoted candidate with this document lies in one of the directories. */
  ghost predicate IsPromoted(dirs: seq<Directory>, d: PublishedDocument) {
    exists dir, name :: dir in dirs && name in dir.files && IsPromotion(dir.files[name], d)
  }

  predicate IsPromotion(file: Option<Candidate>, d: PublishedDocument) {
    file.Some? && file.value.stage == Promoted && file.value.document == d
  }

  lemma {:induction false} PromotionsHold(files: seq<Option<Candidate>>, d: PublishedDocument)
    ensures d in Promotions(files) <==> exists file :: file in files && IsPromotion(file, d)
    decreases |files|
  {
    if files != [] {
      var init, last := files[..|files| - 1], files[|files| - 1];
      assert files == init + [last];
      PromotionsHold(init, d);
      if file :| file in init && IsPromotion(file, d) {
        assert file in files;
      }
      if IsPromotion(last, d) {
        assert last in files;
      }
      if file :| file in files && IsPromotion(file, d) {
        assert file in init || file == last;
      }
    }
  }

  lemma FilesHold(dir: Directory, file: Option<Candidate>)
    ensures file in FilesOf(dir) <==> exists name :: name in dir.files && dir.files[name] == file
  {
    var names := SortedSet(dir.files.Keys);
    var files := FilesIn(dir, names);
    if name :| name in dir.files && dir.files[name] == file {
      assert name in names;
      var i :| 0 <= i < |names| && names[i] == name;
      assert files[i] == file;
    }
    if file in files {
      var i :| 0 <= i < |files| && files[i] == file;
      assert names[i] in names;
    }
  }

  lemma {:induction false} AllFilesHold(dirs: seq<Directory>, file: Option<Candidate>)
    ensures file in AllFiles(dirs) <==> exists dir :: dir in dirs && file in FilesOf(dir)
    decreases |dirs|
  {
    hide FilesOf;
    if dirs != [] {
      var init, last := dirs[..|dirs| - 1], dirs[|dirs| - 1];
      assert dirs == init + [last];
      AllFilesHold(init, file);
    }
  }

  /** The documents collected are exactly those of the promoted candidates in the directories. */
  lemma PromotedExactly(dirs: seq<Directory>, d: PublishedDocument)
    ensures d in Promotions(AllFiles(SortBy(dirs, DirectoryPath, StrLess))) <==> IsPromoted(dirs, d)
  {
    hide FilesOf, SortBy, Promotions, AllFiles, IsPromotion;
    var ordered := SortBy(dirs, DirectoryPath, StrLess);
    SortMembers(dirs, DirectoryPath, StrLess);
    PromotionsHold(AllFiles(ordered), d);
    forall file { AllFilesHold(ordered, file); }
    forall dir, file { FilesHold(dir, file); }
  }

  // ---- the operation ----

  /** The chunks of a promoted candidate; none for one still in review. */
  method CheckFile(file: Option<Candidate>, p: Primitives, tools: Tools) returns (r: Result<Option<seq<Chunk>>, CatalogError>)
    ensures r.Ok? <==> Passes(file, p, tools)
    ensures r.Ok? ==> r.value == if file.value.stage.Promoted? then Some(ChunksOf(file.value.document, p)) else None
    ensures r.Err? ==> !r.error.DuplicateChunkIds?
  {
    hide CheckIntegrity, ChunksOf, IssuesOf;
    if file.None? || !file.value.Valid() {
      return Err(InvalidCandidateFile);
    }
    var integrity := CheckIntegrity(file.value, tools);
    if integrity.Err? {
      return Err(IntegrityFailed(integrity.error));
    }
    if !file.value.stage.Promoted? {
      return Ok(None);
    }
    var built := BuildChunks(file.value.document, p);
    var issues := ValidateChunks(file.value.document, built, p);
    if issues != [] {
      return Err(InvalidChunks);
    }
    return Ok(Some(built));
  }

  lemma PromotionsNext(files: seq<Option<Candidate>>, i: nat, p: Primitives)
    requires i < |files| && files[i].Some?
    ensures if files[i].value.stage.Promoted?
            then Promotions(files[..i + 1]) == Promotions(files[..i]) + [files[i].value.document]
                 && ChunksOfAll(Promotions(files[..i + 1]), p) ==
                      ChunksOfAll(Promotions(files[..i]), p) + ChunksOf(files[i].value.document, p)
            else Promotions(files[..i + 1]) == Promotions(files[..i])
  {
    hide ChunksOf;
    assert files[..i + 1][..i] == files[..i] && files[..i + 1][i] == files[i];
    var before := Promotions(files[..i]);
    assert before + [] == before;
    assert (before + [files[i].value.document])[..|before|] == before;
  }

  method CollectChunks(files: seq<Option<Candidate>>, p: Primitives, tools: Tools) returns (r: Result<ChunkBatch, CatalogError>)
    ensures r.Ok? <==> AllPass(files, p, tools)
    ensures r.Ok? ==> r.value == ChunkBatch(ChunksOfAll(Promotions(files), p), |Promotions(files)|)
    ensures r.Err? ==> !r.error.DuplicateChunkIds?
  {
    hide ChunksOf, ChunksOfAll, Promotions, Passes;
    var chunks: seq<Chunk> := [];
    var promoted := 0;
    NothingPromoted(p);
    assert files[..0] == [];
    for i := 0 to |files|
      invariant forall k :: 0 <= k < i ==> Passes(files[k], p, tools)
      invariant chunks == ChunksOfAll(Promotions(files[..i]), p) && promoted == |Promotions(files[..i])|
    {
      var checked := CheckFile(files[i], p, tools);
      if checked.Err? {
        return Err(checked.error);
      }
      PassesLoads(files[i], p, tools);
      PromotionsNext(files, i, p);
      if checked.value.Some? {
        promoted := promoted + 1;
        chunks := chunks + checked.value.value;
      }
    }
    assert files[..|files|] == files;
    return Ok(ChunkBatch(chunks, promoted));
  }

  lemma NothingPromoted(p: Primitives)
    ensures Promotions([]) == [] && ChunksOfAll([], p) == []
  {
  }

  lemma PassesLoads(file: Option<Candidate>, p: Primitives, tools: Tools)
    requires Passes(file, p, tools)
    ensures file.Some?
  {
  }

  /**
   * Succeeds exactly when every file passes and no two promoted documents share a qualified name; the
   * batch is then a clean one.
   */
  method PrepareCatalogChunks(dirs: seq<Directory>, p: Primitives, tools: Tools) returns (r: Result<ChunkBatch, CatalogError>)
    ensures var files := AllFiles(SortBy(dirs, DirectoryPath, StrLess));
            && (r.Ok? <==> AllPass(files, p, tools) && DistinctKeys(Promotions(files), DocumentName))
            && (r == Err(CatalogError.DuplicateChunkIds) <==> AllPass(files, p, tools) && !DistinctKeys(Promotions(files), DocumentName))
            && (r.Ok? ==> r.value.promotedDocuments == |Promotions(files)|
                          && CatalogBatch(r.value.chunks, Promotions(files), p)
                          && CleanBatch(r.value.chunks))
  {
    hide Passes, SortedSet, ChunksOf, ChunksOfAll, Promotions, Accepted, CleanBatch, DistinctKeys, DictBy;
    var ordered := SortBy(dirs, DirectoryPath, StrLess);
    var files: seq<Option<Candidate>> := [];
    for i := 0 to |ordered|
      invariant files == AllFiles(ordered[..i])
    {
      assert ordered[..i + 1][..i] == ordered[..i];
      files := files + FilesOf(ordered[i]);
    }
    assert ordered[..|ordered|] == ordered;
    var collected := CollectChunks(files, p, tools);
    if collected.Err? {
      return collected;
    }
    var chunks := collected.value.chunks;
    PassingDocuments(files, p, tools);
    DuplicateExactly(Promotions(files), p);
    DictCount(chunks, ChunkIdOf);
    if |chunks| != |DictBy(chunks, ChunkIdOf)| {
      return Err(CatalogError.DuplicateChunkIds);
    }
    BatchClean(Promotions(files), p);
    SortMultiset(chunks, ChunkIdOf, StrLess);
    CleanPermuted(chunks, SortBy(chunks, ChunkIdOf, StrLess));
    return Ok(ChunkBatch(SortBy(chunks, ChunkIdOf, StrLess), collected.value.promotedDocuments));
  }

  // ---- one document's chunks ----

  /** What the collection establishes for each promoted document. */
  ghost predicate Accepted(d: PublishedDocument, p: Primitives) {
    d.Valid() && d.documentStatus.Approved? && IssuesOf(d, ChunksOf(d, p), p) == []
  }

  /** The chunks collected from accepted documents with distinct names, in some order. */
  ghost predicate CatalogBatch(chunks: seq<Chunk>, documents: seq<PublishedDocument>, p: Primitives) {
    && (forall d :: d in documents ==> Accepted(d, p)) && DistinctKeys(documents, DocumentName)
    && multiset(chunks) == multiset(ChunksOfAll(documents, p))
  }

  /** A chunk that carries its document's identity, eligibility, versions and provenance. */
  ghost predicate From(c: Chunk, d: PublishedDocument) {
    && c.body.qualifiedName == d.qualifiedName && c.body.database == d.database && c.body.table == d.table
    && c.body.parentDocumentId == d.qualifiedName + "::document"
    && c.body.chunkId == ChunkId(d.qualifiedName, c.body.chunkType, c.body.semanticKey)
    && NoColon(c.body.semanticKey)
    && c.body.documentStatus == d.documentStatus && c.body.indexEligible == d.indexEligible
    && c.body.schemaHash == d.schemaHash && c.body.sourceReviewCommit == d.provenance.sourceReviewCommit
    && c.body.transformationGuidelineVersion == d.transformationGuidelineVersion
    && c.body.contractVersion == d.contractVersion && c.body.reviewGuidelineVersion == d.reviewGuidelineVersion
    && c.body.sourceReviewPath == d.provenance.sourceReviewPath && c.body.generatorMode == d.provenance.generatorMode
    && c.body.generatorModel == d.provenance.generatorModel && c.body.promptVersion == d.provenance.promptVersion
  }

  lemma MadeFrom(d: PublishedDocument, t: ChunkType, key: string, lines: seq<string>, evidence: seq<Evidence>, p: Primitives)
    requires NoColon(key)
    ensures From(MakeChunk(d, t, key, lines, evidence, p), d)
  {
  }

  lemma BuiltFrom(d: PublishedDocument, p: Primitives, c: Chunk)
    requires c in Unsorted(d, p)
    ensures From(c, d)
  {
    hide MakeChunk, From, OverviewLines, ColumnLines, RelationshipLines, RuleLines, QualityLines, SemanticKey;
    UnsortedMembers(d, p);
    assert NoColon("summary") && NoColon("guidance");
    if c == OverviewChunk(d, p) {
      MadeFrom(d, TableOverview, "summary", OverviewLines(d), d.businessEvidence, p);
    } else if c in ColumnChunks(d, p) {
      var i :| 0 <= i < |d.columns| && c == ColumnChunk(d, d.columns[i], p);
      KeyNoColon(d.columns[i].name, p.lower);
      MadeFrom(d, ColumnGroup, SemanticKey(d.columns[i].name, p.lower), ColumnLines(d, d.columns[i]), d.columns[i].evidence, p);
    } else if c in RelationshipChunks(d, p) {
      var i :| 0 <= i < |d.relationships| && c == RelationshipChunk(d, d.relationships[i], p);
      KeyNoColon(d.relationships[i].name, p.lower);
      MadeFrom(d, Relationship, SemanticKey(d.relationships[i].name, p.lower), RelationshipLines(d, d.relationships[i]),
               d.relationships[i].evidence, p);
    } else if c in RuleChunks(d, p) {
      var i :| 0 <= i < |d.businessRules| && c == RuleChunk(d, d.businessRules[i], p);
      KeyNoColon(d.businessRules[i].name, p.lower);
      MadeFrom(d, BusinessRuleChunk, SemanticKey(d.businessRules[i].name, p.lower), RuleLines(d, d.businessRules[i]),
               d.businessRules[i].evidence, p);
    } else {
      MadeFrom(d, QualityAndSecurity, "guidance", QualityLines(d), SensitiveEvidence(d.columns, p.lower), p);
    }
  }

  lemma MembersFrom(d: PublishedDocument, p: Primitives)
    ensures forall c :: c in ChunksOf(d, p) ==> From(c, d)
    ensures OverviewChunk(d, p) in ChunksOf(d, p)
  {
    hide Unsorted, From, OverviewChunk;
    SortMembers(Unsorted(d, p), ChunkIdOf, StrLess);
    UnsortedMembers(d, p);
    forall c | c in ChunksOf(d, p) ensures From(c, d) { BuiltFrom(d, p, c); }
  }

  lemma AcceptedDistinct(d: PublishedDocument, p: Primitives)
    requires Accepted(d, p)
    ensures DistinctKeys(ChunksOf(d, p), ChunkIdOf)
  {
    hide ChunksOf, DictBy, AllOwnIssues, AllColumnIssues, AllRelationshipIssues, OfType;
    DictCount(ChunksOf(d, p), ChunkIdOf);
  }

  lemma FromSound(c: Chunk, d: PublishedDocument)
    requires d.Valid() && From(c, d)
    ensures SoundChunk(c)
  {
    assert d.Consistent() && d.provenance.Valid();
    assert ChunkId(d.qualifiedName, c.body.chunkType, c.body.semanticKey)
           == c.body.qualifiedName + "::" + c.body.chunkType.Value() + "::" + c.body.semanticKey;
  }

  // ---- all documents' chunks ----

  lemma {:induction false} CollectedFrom(documents: seq<PublishedDocument>, p: Primitives, c: Chunk)
    ensures c in ChunksOfAll(documents, p) <==> exists d :: d in documents && c in ChunksOf(d, p)
    decreases |documents|
  {
    hide ChunksOf;
    if documents != [] {
      var init, last := documents[..|documents| - 1], documents[|documents| - 1];
      assert documents == init + [last];
      CollectedFrom(init, p, c);
    }
  }

  lemma SameOverview(d: PublishedDocument, e: PublishedDocument, p: Primitives)
    ensures ChunkIdOf(OverviewChunk(d, p)) == ChunkIdOf(OverviewChunk(e, p)) <==> d.qualifiedName == e.qualifiedName
  {
    hide OverviewLines;
    MadeFrom(d, TableOverview, "summary", OverviewLines(d), d.businessEvidence, p);
    MadeFrom(e, TableOverview, "summary", OverviewLines(e), e.businessEvidence, p);
    assert NoColon("summary");
    if ChunkIdOf(OverviewChunk(d, p)) == ChunkIdOf(OverviewChunk(e, p)) {
      ChunkIdDecodes(d.qualifiedName, TableOverview, "summary", e.qualifiedName, TableOverview, "summary");
    }
  }

  /** Chunks of two documents clash exactly when the documents share a qualified name. */
  lemma ClashExactly(d: PublishedDocument, e: PublishedDocument, p: Primitives)
    ensures (exists x, y :: x in ChunksOf(d, p) && y in ChunksOf(e, p) && ChunkIdOf(x) == ChunkIdOf(y)) <==>
              d.qualifiedName == e.qualifiedName
  {
    hide ChunksOf, OverviewChunk;
    MembersFrom(d, p);
    MembersFrom(e, p);
    SameOverview(d, e, p);
    forall x, y | x in ChunksOf(d, p) && y in ChunksOf(e, p) && ChunkIdOf(x) == ChunkIdOf(y)
      ensures d.qualifiedName == e.qualifiedName
    {
      ChunkIdDecodes(d.qualifiedName, x.body.chunkType, x.body.semanticKey, e.qualifiedName, y.body.chunkType, y.body.semanticKey);
    }
  }

  lemma ClashSeen(init: seq<PublishedDocument>, last: PublishedDocument, p: Primitives, d: PublishedDocument)
    requires d in init && DocumentName(d) == DocumentName(last)
    ensures exists x, y :: x in ChunksOfAll(init, p) && y in ChunksOf(last, p) && ChunkIdOf(x) == ChunkIdOf(y)
  {
    hide ChunksOf, ChunksOfAll;
    ClashExactly(d, last, p);
    var x, y :| x in ChunksOf(d, p) && y in ChunksOf(last, p) && ChunkIdOf(x) == ChunkIdOf(y);
    CollectedFrom(init, p, x);
  }

  /** Clashes with the earlier documents come from an earlier document of the same name. */
  lemma NextClash(init: seq<PublishedDocument>, last: PublishedDocument, p: Primitives)
    ensures (forall x, y :: x in ChunksOfAll(init, p) && y in ChunksOf(last, p) ==> ChunkIdOf(x) != ChunkIdOf(y)) <==>
              (forall d :: d in init ==> DocumentName(d) != DocumentName(last))
  {
    hide ChunksOf, ChunksOfAll;
    if d :| d in init && DocumentName(d) == DocumentName(last) {
      ClashSeen(init, last, p, d);
    } else {
      forall x, y | x in ChunksOfAll(init, p) && y in ChunksOf(last, p) ensures ChunkIdOf(x) != ChunkIdOf(y) {
        CollectedFrom(init, p, x);
        var d :| d in init && x in ChunksOf(d, p);
        ClashExactly(d, last, p);
        assert DocumentName(d) != DocumentName(last);
      }
    }
  }

  /** All chunk ids are distinct exactly when no two documents share a qualified name. */
  lemma {:induction false} DuplicateExactly(documents: seq<PublishedDocument>, p: Primitives)
    requires forall d :: d in documents ==> Accepted(d, p)
    ensures DistinctKeys(ChunksOfAll(documents, p), ChunkIdOf) <==> DistinctKeys(documents, DocumentName)
    decreases |documents|
  {
    if documents == [] {
    } else {
      hide DistinctKeys, ChunksOf, Accepted, DocumentName;
      var init, last := documents[..|documents| - 1], documents[|documents| - 1];
      assert documents == init + [last];
      DuplicateExactly(init, p);
      AcceptedDistinct(last, p);
      DistinctAppend(init, last, DocumentName);
      DistinctConcat(ChunksOfAll(init, p), ChunksOf(last, p), ChunkIdOf);
      NextClash(init, last, p);
    }
  }

  lemma {:induction false} PassingDocuments(files: seq<Option<Candidate>>, p: Primitives, tools: Tools)
    requires AllPass(files, p, tools)
    ensures forall d :: d in Promotions(files) ==> Accepted(d, p)
    decreases |files|
  {
    hide ChunksOf, IssuesOf, CheckIntegrity;
    if files != [] {
      var last := files[|files| - 1];
      assert Passes(last, p, tools);
      PassingDocuments(files[..|files| - 1], p, tools);
    }
  }

  /** The chunks of accepted documents with distinct names form a clean batch. */
  lemma BatchClean(documents: seq<PublishedDocument>, p: Primitives)
    requires forall d :: d in documents ==> Accepted(d, p)
    requires DistinctKeys(documents, DocumentName)
    ensures CleanBatch(ChunksOfAll(documents, p))
  {
    hide ChunksOf, ChunksOfAll, Accepted, From, SoundChunk;
    var chunks := ChunksOfAll(documents, p);
    DuplicateExactly(documents, p);
    forall c | c in chunks ensures SoundChunk(c) {
      var d := Origin(documents, p, c);
    }
    forall c, e | c in chunks && e in chunks && NameOf(c) == NameOf(e) ensures SameVersions(c, e) {
      var x := Origin(documents, p, c);
      var y := Origin(documents, p, e);
      SameOrigin(documents, p, c, x, e, y);
    }
  }

  lemma Origin(documents: seq<PublishedDocument>, p: Primitives, c: Chunk) returns (d: PublishedDocument)
    requires forall d :: d in documents ==> Accepted(d, p)
    requires c in ChunksOfAll(documents, p)
    ensures d in documents && From(c, d) && SoundChunk(c)
  {
    hide ChunksOf, ChunksOfAll, From, SoundChunk, IssuesOf;
    CollectedFrom(documents, p, c);
    d :| d in documents && c in ChunksOf(d, p);
    MembersFrom(d, p);
    FromSound(c, d);
  }

  lemma SameOrigin(documents: seq<PublishedDocument>, p: Primitives, c: Chunk, x: PublishedDocument, e: Chunk, y: PublishedDocument)
    requires DistinctKeys(documents, DocumentName) && x in documents && y in documents
    requires From(c, x) && From(e, y) && NameOf(c) == NameOf(e)
    ensures SameVersions(c, e)
  {
    assert DocumentName(x) == DocumentName(y);
    assert x == y;
  }

  lemma CleanPermuted(a: seq<Chunk>, b: seq<Chunk>)
    requires multiset(a) == multiset(b) && CleanBatch(a)
    ensures CleanBatch(b)
  {
    hide SoundChunk, SameVersions, DistinctKeys;
    DistinctPermuted(a, b, ChunkIdOf);
    forall c | c in b ensures c in a { assert c in multiset(b); }
  }
}