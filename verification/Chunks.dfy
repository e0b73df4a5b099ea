/** Building the semantic chunks of one published document, and the separate validator of such chunks. */
module Chunks {
  import opened Wrappers
  import opened Ordering
  import opened Sorting
  import opened Dictionaries
  import opened Text
  import opened Models
  import opened SemanticKeys

  /** Lower-casing and the chunk hash, both functions of their argument only. */
  datatype Primitives = Primitives(lower: string -> string, hash: ChunkBody -> string)

  // ---- builder ----

  function OrNone(text: string): string {
    if text == "" then "none supplied" else text
  }

  function OverviewLines(document: PublishedDocument): seq<string> {
    [document.qualifiedName + " — " + document.summary,
     "Grain: " + document.grain,
     "Purpose: " + Join("; ", document.purpose),
     "Appropriate use: " + Join("; ", document.appropriateUse),
     "Inappropriate use: " + Join("; ", document.inappropriateUse),
     "Major caveats: " + OrNone(Join("; ", document.caveats))]
  }

  /** `value=meaning` for every allowed value, in value order. */
  function AllowedValues(values: map<string, string>, names: seq<string>): seq<string>
    requires forall name :: name in names ==> name in values
  {
    seq(|names|, i requires 0 <= i < |names| && names[i] in values => names[i] + "=" + values[names[i]])
  }

  function AllowedText(values: map<string, string>): string {
    OrNone(Join("; ", AllowedValues(values, SortedSet(values.Keys))))
  }

  function ColumnLines(document: PublishedDocument, column: PublishedColumn): seq<string> {
    [document.qualifiedName + "." + column.name + " — " + column.businessName,
     column.description,
     "Technical type: " + column.dataType + "; nullable: " + BoolText(column.nullable),
     "Semantic type: " + column.semanticType + "; unit/timezone: " + column.unit,
     "Null meaning: " + column.nullableMeaning + "; sensitivity: " + column.sensitivity,
     "Allowed values: " + AllowedText(column.allowedValues),
     "Caveats: " + OrNone(Join("; ", column.caveats))]
  }

  function RelationshipLines(document: PublishedDocument, r: PublishedRelationship): seq<string> {
    [document.qualifiedName + " relationship " + r.name,
     r.meaning,
     "From " + r.fromTable + "(" + Join(", ", r.fromColumns) + ")",
     "To " + r.toTable + "(" + Join(", ", r.toColumns) + ")",
     "Join condition: " + r.joinCondition,
     "Cardinality: " + r.cardinality.Value() + "; optional: " + BoolText(r.optional),
     "Row-count/duplicate risk: " + r.rowCountImpact.Value(),
     "ClickHouse does not enforce this logical relationship as a foreign key."]
  }

  function RuleLines(document: PublishedDocument, rule: PublishedRule): seq<string> {
    [document.qualifiedName + " business rule: " + rule.name,
     rule.description,
     "Scope and exceptions are limited to the reviewer statement and evidence below."]
  }

  function QualityLines(document: PublishedDocument): seq<string> {
    [document.qualifiedName + " quality and security guidance",
     "Data quality: " + OrNone(Join("; ", document.dataQuality)),
     "Security: " + OrNone(Join("; ", document.security)),
     "Caveats: " + OrNone(Join("; ", document.caveats)),
     "Safe use: follow inappropriate-use restrictions and resolve needs_review items before active indexing."]
  }

  /** Evidence of the columns that are neither internal nor public. */
  function SensitiveEvidence(columns: seq<PublishedColumn>, lower: string -> string): seq<Evidence> {
    if columns == [] then []
    else (if lower(columns[0].sensitivity) in ["internal", "public"] then [] else columns[0].evidence)
         + SensitiveEvidence(columns[1..], lower)
  }

  function Body(document: PublishedDocument, chunkType: ChunkType, key: string, content: string,
                evidence: seq<Evidence>): ChunkBody {
    ChunkBody(
      ChunkId(document.qualifiedName, chunkType, key),
      document.qualifiedName + "::document",
      key, chunkType, document.database, document.table, document.qualifiedName,
      document.documentStatus, document.indexEligible, document.schemaHash,
      document.contractVersion, document.reviewGuidelineVersion, document.transformationGuidelineVersion,
      document.provenance.sourceReviewPath, document.provenance.sourceReviewCommit,
      document.provenance.generatorMode, document.provenance.generatorModel, document.provenance.promptVersion,
      content, evidence)
  }

  /** The hash is taken of the content as composed; the record then keeps it stripped. */
  function MakeChunk(document: PublishedDocument, chunkType: ChunkType, key: string, lines: seq<string>,
                     evidence: seq<Evidence>, p: Primitives): Chunk {
    var content := Join("\n", lines);
    var body := Body(document, chunkType, key, content, evidence);
    Chunk(body.(content := Trim(content)), p.hash(body))
  }

  function OverviewChunk(document: PublishedDocument, p: Primitives): Chunk {
    MakeChunk(document, TableOverview, "summary", OverviewLines(document), document.businessEvidence, p)
  }

  function ColumnChunk(document: PublishedDocument, column: PublishedColumn, p: Primitives): Chunk {
    MakeChunk(document, ColumnGroup, SemanticKey(column.name, p.lower), ColumnLines(document, column), column.evidence, p)
  }

  function RelationshipChunk(document: PublishedDocument, r: PublishedRelationship, p: Primitives): Chunk {
    MakeChunk(document, Relationship, SemanticKey(r.name, p.lower), RelationshipLines(document, r), r.evidence, p)
  }

  function RuleChunk(document: PublishedDocument, rule: PublishedRule, p: Primitives): Chunk {
    MakeChunk(document, BusinessRuleChunk, SemanticKey(rule.name, p.lower), RuleLines(document, rule), rule.evidence, p)
  }

  function QualityChunk(document: PublishedDocument, p: Primitives): Chunk {
    MakeChunk(document, QualityAndSecurity, "guidance", QualityLines(document),
              SensitiveEvidence(document.columns, p.lower), p)
  }

  function ColumnChunks(document: PublishedDocument, p: Primitives): (chunks: seq<Chunk>)
    ensures |chunks| == |document.columns|
    ensures forall i :: 0 <= i < |chunks| ==> chunks[i] == ColumnChunk(document, document.columns[i], p)
  {
    seq(|document.columns|, i requires 0 <= i < |document.columns| => ColumnChunk(document, document.columns[i], p))
  }

  function RelationshipChunks(document: PublishedDocument, p: Primitives): (chunks: seq<Chunk>)
    ensures |chunks| == |document.relationships|
    ensures forall i :: 0 <= i < |chunks| ==> chunks[i] == RelationshipChunk(document, document.relationships[i], p)
  {
    seq(|document.relationships|, i requires 0 <= i < |document.relationships| => RelationshipChunk(document, document.relationships[i], p))
  }

  function RuleChunks(document: PublishedDocument, p: Primitives): (chunks: seq<Chunk>)
    ensures |chunks| == |document.businessRules|
    ensures forall i :: 0 <= i < |chunks| ==> chunks[i] == RuleChunk(document, document.businessRules[i], p)
  {
    seq(|document.businessRules|, i requires 0 <= i < |document.businessRules| => RuleChunk(document, document.businessRules[i], p))
  }

  function HasGuidance(document: PublishedDocument): bool {
    document.dataQuality != [] || document.security != [] || document.caveats != []
  }

  function GuidanceChunks(document: PublishedDocument, p: Primitives): seq<Chunk> {
    if HasGuidance(document) then [QualityChunk(document, p)] else []
  }

  function Unsorted(document: PublishedDocument, p: Primitives): seq<Chunk> {
    [OverviewChunk(document, p)] + ColumnChunks(document, p) + RelationshipChunks(document, p)
    + RuleChunks(document, p) + GuidanceChunks(document, p)
  }

  function ChunksOf(document: PublishedDocument, p: Primitives): seq<Chunk> {
    SortBy(Unsorted(document, p), ChunkIdOf, StrLess)
  }

  method BuildChunks(document: PublishedDocument, p: Primitives) returns (chunks: seq<Chunk>)
    ensures chunks == ChunksOf(document, p)
  {
    hide OverviewChunk, ColumnChunks, RelationshipChunks, RuleChunks, QualityChunk, HasGuidance, SortBy;
    chunks := [OverviewChunk(document, p)];
    chunks := chunks + ColumnChunks(document, p);
    chunks := chunks + RelationshipChunks(document, p);
    chunks := chunks + RuleChunks(document, p);
    if HasGuidance(document) {
      chunks := chunks + [QualityChunk(document, p)];
    }
    assert chunks == Unsorted(document, p);
    chunks := SortBy(chunks, ChunkIdOf, StrLess);
  }

  // ---- validator ----

  datatype ChunkIssue =
    | DuplicateChunkId
    | InvalidOverviewCount
    | InvalidBodyHash(id: string)
    | InvalidParent(id: string)
    | MissingContext(id: string)
    | MissingColumnChunk(column: string)
    | IncompleteColumnContext(id: string)
    | MissingRelationshipChunk(relationship: string)
    | IncompleteRelationshipContext(id: string)

  function OfType(chunks: seq<Chunk>, chunkType: ChunkType): seq<Chunk> {
    if chunks == [] then []
    else (if chunks[0].body.chunkType == chunkType then [chunks[0]] else []) + OfType(chunks[1..], chunkType)
  }

  /** The chunks of one type with one id. */
  function Matching(chunks: seq<Chunk>, chunkType: ChunkType, id: string): seq<Chunk> {
    if chunks == [] then []
    else (if chunks[0].body.chunkType == chunkType && ChunkIdOf(chunks[0]) == id then [chunks[0]] else [])
         + Matching(chunks[1..], chunkType, id)
  }

  function OwnIssues(document: PublishedDocument, chunk: Chunk, p: Primitives): seq<ChunkIssue> {
    (if chunk.bodyHash != p.hash(chunk.body) then [InvalidBodyHash(ChunkIdOf(chunk))] else [])
    + (if chunk.body.parentDocumentId != document.documentId + "::document" then [InvalidParent(ChunkIdOf(chunk))] else [])
    + (if !Contains(chunk.body.content, document.qualifiedName) then [MissingContext(ChunkIdOf(chunk))] else [])
  }

  predicate HasAll(content: string, required: seq<string>) {
    forall i :: 0 <= i < |required| ==> Contains(content, required[i])
  }

  function RequiredOfColumn(column: PublishedColumn): seq<string> {
    [column.dataType, column.semanticType, column.unit, column.description]
  }

  function RequiredOfRelationship(r: PublishedRelationship): seq<string> {
    [r.fromTable, r.toTable, r.joinCondition, r.cardinality.Value(), r.rowCountImpact.Value()]
  }

  function ColumnIssues(document: PublishedDocument, column: PublishedColumn, chunks: seq<Chunk>, p: Primitives): seq<ChunkIssue> {
    var matches := Matching(chunks, ColumnGroup,
                            ChunkId(document.qualifiedName, ColumnGroup, SemanticKey(column.name, p.lower)));
    if |matches| != 1 then [MissingColumnChunk(column.name)]
    else if HasAll(matches[0].body.content, RequiredOfColumn(column)) then []
    else [IncompleteColumnContext(ChunkIdOf(matches[0]))]
  }

  function RelationshipIssues(document: PublishedDocument, r: PublishedRelationship, chunks: seq<Chunk>, p: Primitives): seq<ChunkIssue> {
    var matches := Matching(chunks, Relationship,
                            ChunkId(document.qualifiedName, Relationship, SemanticKey(r.name, p.lower)));
    if |matches| != 1 then [MissingRelationshipChunk(r.name)]
    else if HasAll(matches[0].body.content, RequiredOfRelationship(r)) then []
    else [IncompleteRelationshipContext(ChunkIdOf(matches[0]))]
  }

  function AllOwnIssues(document: PublishedDocument, chunks: seq<Chunk>, p: Primitives): seq<ChunkIssue> {
    if chunks == [] then []
    else AllOwnIssues(document, chunks[..|chunks| - 1], p) + OwnIssues(document, chunks[|chunks| - 1], p)
  }

  function AllColumnIssues(document: PublishedDocument, columns: seq<PublishedColumn>, chunks: seq<Chunk>, p: Primitives): seq<ChunkIssue> {
    if columns == [] then []
    else AllColumnIssues(document, columns[..|columns| - 1], chunks, p)
         + ColumnIssues(document, columns[|columns| - 1], chunks, p)
  }

  function AllRelationshipIssues(document: PublishedDocument, rs: seq<PublishedRelationship>, chunks: seq<Chunk>, p: Primitives): seq<ChunkIssue> {
    if rs == [] then []
    else AllRelationshipIssues(document, rs[..|rs| - 1], chunks, p)
         + RelationshipIssues(document, rs[|rs| - 1], chunks, p)
  }

  function IssuesOf(document: PublishedDocument, chunks: seq<Chunk>, p: Primitives): seq<ChunkIssue> {
    (if |DictBy(chunks, ChunkIdOf)| != |chunks| then [DuplicateChunkId] else [])
    + (if |OfType(chunks, TableOverview)| != 1 then [InvalidOverviewCount] else [])
    + AllOwnIssues(document, chunks, p)
    + AllColumnIssues(document, document.columns, chunks, p)
    + AllRelationshipIssues(document, document.relationships, chunks, p)
  }

  method RequireContent(issues: SharedList<ChunkIssue>, chunk: Chunk, required: seq<string>, issue: ChunkIssue)
    modifies issues
    ensures issues.items == old(issues.items) + if HasAll(chunk.body.content, required) then [] else [issue]
  {
    var complete := true;
    for i := 0 to |required|
      invariant complete <==> forall j :: 0 <= j < i ==> Contains(chunk.body.content, required[j])
    {
      if !Contains(chunk.body.content, required[i]) {
        complete := false;
      }
    }
    issues.Extend(if complete then [] else [issue]);
  }

  method CheckEachChunk(issues: SharedList<ChunkIssue>, document: PublishedDocument, chunks: seq<Chunk>, p: Primitives)
    modifies issues
    ensures issues.items == old(issues.items) + AllOwnIssues(document, chunks, p)
  {
    for i := 0 to |chunks|
      invariant issues.items == old(issues.items) + AllOwnIssues(document, chunks[..i], p)
    {
      assert chunks[..i + 1][..i] == chunks[..i];
      issues.Extend(OwnIssues(document, chunks[i], p));
    }
    assert chunks[..|chunks|] == chunks;
  }

  method CheckColumn(issues: SharedList<ChunkIssue>, document: PublishedDocument, column: PublishedColumn,
                     chunks: seq<Chunk>, p: Primitives)
    modifies issues
    ensures issues.items == old(issues.items) + ColumnIssues(document, column, chunks, p)
  {
    hide Matching, HasAll, SemanticKey, ChunkId, RequiredOfColumn;
    var matches := Matching(chunks, ColumnGroup,
                            ChunkId(document.qualifiedName, ColumnGroup, SemanticKey(column.name, p.lower)));
    if |matches| != 1 {
      issues.Append(MissingColumnChunk(column.name));
    } else {
      RequireContent(issues, matches[0], RequiredOfColumn(column), IncompleteColumnContext(ChunkIdOf(matches[0])));
    }
  }

  method CheckColumns(issues: SharedList<ChunkIssue>, document: PublishedDocument, columns: seq<PublishedColumn>,
                      chunks: seq<Chunk>, p: Primitives)
    modifies issues
    ensures issues.items == old(issues.items) + AllColumnIssues(document, columns, chunks, p)
  {
    hide ColumnIssues;
    for i := 0 to |columns|
      invariant issues.items == old(issues.items) + AllColumnIssues(document, columns[..i], chunks, p)
    {
      assert columns[..i + 1][..i] == columns[..i];
      CheckColumn(issues, document, columns[i], chunks, p);
    }
    assert columns[..|columns|] == columns;
  }

  method CheckRelationship(issues: SharedList<ChunkIssue>, document: PublishedDocument, r: PublishedRelationship,
                           chunks: seq<Chunk>, p: Primitives)
    modifies issues
    ensures issues.items == old(issues.items) + RelationshipIssues(document, r, chunks, p)
  {
    hide Matching, HasAll, SemanticKey, ChunkId, RequiredOfRelationship;
    var matches := Matching(chunks, Relationship,
                            ChunkId(document.qualifiedName, Relationship, SemanticKey(r.name, p.lower)));
    if |matches| != 1 {
      issues.Append(MissingRelationshipChunk(r.name));
    } else {
      RequireContent(issues, matches[0], RequiredOfRelationship(r), IncompleteRelationshipContext(ChunkIdOf(matches[0])));
    }
  }

  method CheckRelationships(issues: SharedList<ChunkIssue>, document: PublishedDocument, rs: seq<PublishedRelationship>,
                            chunks: seq<Chunk>, p: Primitives)
    modifies issues
    ensures issues.items == old(issues.items) + AllRelationshipIssues(document, rs, chunks, p)
  {
    hide RelationshipIssues;
    for i := 0 to |rs|
      invariant issues.items == old(issues.items) + AllRelationshipIssues(document, rs[..i], chunks, p)
    {
      assert rs[..i + 1][..i] == rs[..i];
      CheckRelationship(issues, document, rs[i], chunks, p);
    }
    assert rs[..|rs|] == rs;
  }

  method ValidateChunks(document: PublishedDocument, chunks: seq<Chunk>, p: Primitives) returns (found: seq<ChunkIssue>)
    ensures found == IssuesOf(document, chunks, p)
  {
    hide DictBy, OfType, AllOwnIssues, AllColumnIssues, AllRelationshipIssues;
    var issues := new SharedList<ChunkIssue>();
    if |DictBy(chunks, ChunkIdOf)| != |chunks| {
      issues.Extend([DuplicateChunkId]);
    }
    if |OfType(chunks, TableOverview)| != 1 {
      issues.Extend([InvalidOverviewCount]);
    }
    CheckEachChunk(issues, document, chunks, p);
    CheckColumns(issues, document, document.columns, chunks, p);
    CheckRelationships(issues, document, document.relationships, chunks, p);
    found := issues.items;
  }
}
