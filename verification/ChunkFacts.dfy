/** What the chunks of a document say, line by line, and exactly which chunks the validator accepts. */
module ChunkFacts {
  import opened Wrappers
  import opened Ordering
  import opened Sorting
  import opened Dictionaries
  import opened Text
  import opened Models
  import opened SemanticKeys
  import opened Chunks
  import opened ChunkTheorems
  import opened CatalogChunks

  // ---- what each kind of chunk says ----

  function Listed(values: seq<string>): string {
    if Join("; ", values) == "" then "none supplied" else Join("; ", values)
  }

  ghost predicate OverviewTells(text: string, d: PublishedDocument) {
    && HasLine(text, d.qualifiedName + " — " + d.summary)
    && HasLine(text, "Grain: " + d.grain)
    && HasLine(text, "Purpose: " + Join("; ", d.purpose))
    && HasLine(text, "Appropriate use: " + Join("; ", d.appropriateUse))
    && HasLine(text, "Inappropriate use: " + Join("; ", d.inappropriateUse))
    && HasLine(text, "Major caveats: " + Listed(d.caveats))
  }

  ghost predicate ColumnTells(text: string, d: PublishedDocument, c: PublishedColumn) {
    && HasLine(text, d.qualifiedName + "." + c.name + " — " + c.businessName)
    && HasLine(text, c.description)
    && HasLine(text, "Technical type: " + c.dataType + "; nullable: " + (if c.nullable then "true" else "false"))
    && HasLine(text, "Semantic type: " + c.semanticType + "; unit/timezone: " + c.unit)
    && HasLine(text, "Null meaning: " + c.nullableMeaning + "; sensitivity: " + c.sensitivity)
    && (forall v :: v in c.allowedValues ==> Contains(text, v + "=" + c.allowedValues[v]))
    && (c.allowedValues == map[] ==> HasLine(text, "Allowed values: none supplied"))
    && HasLine(text, "Caveats: " + Listed(c.caveats))
  }

  ghost predicate RelationshipTells(text: string, d: PublishedDocument, r: PublishedRelationship) {
    && HasLine(text, d.qualifiedName + " relationship " + r.name)
    && HasLine(text, r.meaning)
    && HasLine(text, "From " + r.fromTable + "(" + Join(", ", r.fromColumns) + ")")
    && HasLine(text, "To " + r.toTable + "(" + Join(", ", r.toColumns) + ")")
    && HasLine(text, "Join condition: " + r.joinCondition)
    && HasLine(text, "Cardinality: " + r.cardinality.Value() + "; optional: " + (if r.optional then "true" else "false"))
    && HasLine(text, "Row-count/duplicate risk: " + r.rowCountImpact.Value())
    && HasLine(text, "ClickHouse does not enforce this logical relationship as a foreign key.")
  }

  ghost predicate RuleTells(text: string, d: PublishedDocument, rule: PublishedRule) {
    && HasLine(text, d.qualifiedName + " business rule: " + rule.name) && HasLine(text, rule.description)
    && HasLine(text, "Scope and exceptions are limited to the reviewer statement and evidence below.")
  }

  ghost predicate GuidanceTells(text: string, d: PublishedDocument) {
    && HasLine(text, d.qualifiedName + " quality and security guidance")
    && HasLine(text, "Data quality: " + Listed(d.dataQuality))
    && HasLine(text, "Security: " + Listed(d.security))
    && HasLine(text, "Caveats: " + Listed(d.caveats))
    && HasLine(text, "Safe use: follow inappropriate-use restrictions and resolve needs_review items before active indexing.")
  }

  lemma LinesOverview(d: PublishedDocument)
    ensures OverviewTells(Join("\n", OverviewLines(d)), d)
  {
    hide HasLine, Join;
    var lines := OverviewLines(d);
    forall i | 0 <= i < 6 ensures HasLine(Join("\n", lines), lines[i]) { JoinHasLine(lines, i); }
    assert HasLine(Join("\n", lines), lines[0]) && HasLine(Join("\n", lines), lines[1]) && HasLine(Join("\n", lines), lines[2]);
    assert HasLine(Join("\n", lines), lines[3]) && HasLine(Join("\n", lines), lines[4]) && HasLine(Join("\n", lines), lines[5]);
  }

  lemma AllowedTold(c: PublishedColumn, v: string)
    requires v in c.allowedValues
    ensures Contains(AllowedText(c.allowedValues), v + "=" + c.allowedValues[v])
  {
    hide Contains;
    var names := SortedSet(c.allowedValues.Keys);
    assert v in names;
    var i :| 0 <= i < |names| && names[i] == v;
    var entries := AllowedValues(c.allowedValues, names);
    var entry := v + "=" + c.allowedValues[v];
    assert entries[i] == entry;
    ContainsItself(entry);
    JoinContains("; ", entries, i, entry);
    ContainsNonEmpty(Join("; ", entries), entry);
  }

  lemma ContainsItself(s: string)
    ensures Contains(s, s)
  {
    assert OccursAt(s, s, 0);
  }

  lemma ContainsNonEmpty(whole: string, part: string)
    requires Contains(whole, part) && part != ""
    ensures whole != ""
  {
  }

  lemma NothingAllowed(c: PublishedColumn)
    requires c.allowedValues == map[]
    ensures AllowedText(c.allowedValues) == "none supplied"
  {
    assert SortedSet(c.allowedValues.Keys) == [];
  }

  lemma LinesColumn(d: PublishedDocument, c: PublishedColumn)
    ensures ColumnTells(Join("\n", ColumnLines(d, c)), d, c)
  {
    hide HasLine, Join, AllowedText, Contains;
    var lines := ColumnLines(d, c);
    var text := Join("\n", lines);
    forall i | 0 <= i < 7 ensures HasLine(text, lines[i]) { JoinHasLine(lines, i); }
    assert HasLine(text, lines[0]) && HasLine(text, lines[1]) && HasLine(text, lines[2]) && HasLine(text, lines[3]);
    assert HasLine(text, lines[4]) && HasLine(text, lines[5]) && HasLine(text, lines[6]);
    forall v | v in c.allowedValues ensures Contains(text, v + "=" + c.allowedValues[v]) {
      AllowedTold(c, v);
      ContainsRight("Allowed values: ", AllowedText(c.allowedValues), v + "=" + c.allowedValues[v]);
      JoinContains("\n", lines, 5, v + "=" + c.allowedValues[v]);
    }
    if c.allowedValues == map[] {
      NothingAllowed(c);
      assert "Allowed values: " + "none supplied" == "Allowed values: none supplied";
      assert lines[5] == "Allowed values: none supplied";
    }
  }

  lemma LinesRelationship(d: PublishedDocument, r: PublishedRelationship)
    ensures RelationshipTells(Join("\n", RelationshipLines(d, r)), d, r)
  {
    hide HasLine, Join;
    var lines := RelationshipLines(d, r);
    var text := Join("\n", lines);
    forall i | 0 <= i < 8 ensures HasLine(text, lines[i]) { JoinHasLine(lines, i); }
    assert HasLine(text, lines[0]) && HasLine(text, lines[1]) && HasLine(text, lines[2]) && HasLine(text, lines[3]);
    assert HasLine(text, lines[4]) && HasLine(text, lines[5]) && HasLine(text, lines[6]) && HasLine(text, lines[7]);
  }

  lemma LinesRule(d: PublishedDocument, rule: PublishedRule)
    ensures RuleTells(Join("\n", RuleLines(d, rule)), d, rule)
  {
    hide HasLine, Join;
    JoinHasLine(RuleLines(d, rule), 0);
    JoinHasLine(RuleLines(d, rule), 1);
    JoinHasLine(RuleLines(d, rule), 2);
  }

  lemma LinesGuidance(d: PublishedDocument)
    ensures GuidanceTells(Join("\n", QualityLines(d)), d)
  {
    hide HasLine, Join;
    JoinHasLine(QualityLines(d), 0);
    JoinHasLine(QualityLines(d), 1);
    JoinHasLine(QualityLines(d), 2);
    JoinHasLine(QualityLines(d), 3);
    JoinHasLine(QualityLines(d), 4);
  }

  // ---- the chunks of a document ----

  /** Evidence of a column that is neither internal nor public. */
  ghost predicate IsSensitive(e: Evidence, d: PublishedDocument, lower: string -> string) {
    exists c :: c in d.columns && lower(c.sensitivity) != "internal" && lower(c.sensitivity) != "public" && e in c.evidence
  }

  ghost predicate TellsOverview(c: Chunk, d: PublishedDocument) {
    c.body.chunkType == TableOverview && c.body.semanticKey == "summary"
    && OverviewTells(c.body.content, d) && c.body.evidence == d.businessEvidence
  }

  ghost predicate TellsColumn(c: Chunk, d: PublishedDocument, column: PublishedColumn, p: Primitives) {
    c.body.chunkType == ColumnGroup && c.body.semanticKey == SemanticKey(column.name, p.lower)
    && ColumnTells(c.body.content, d, column) && c.body.evidence == column.evidence
  }

  ghost predicate TellsRelationship(c: Chunk, d: PublishedDocument, r: PublishedRelationship, p: Primitives) {
    c.body.chunkType == Relationship && c.body.semanticKey == SemanticKey(r.name, p.lower)
    && RelationshipTells(c.body.content, d, r) && c.body.evidence == r.evidence
  }

  ghost predicate TellsRule(c: Chunk, d: PublishedDocument, rule: PublishedRule, p: Primitives) {
    c.body.chunkType == BusinessRuleChunk && c.body.semanticKey == SemanticKey(rule.name, p.lower)
    && RuleTells(c.body.content, d, rule) && c.body.evidence == rule.evidence
  }

  ghost predicate TellsGuidance(c: Chunk, d: PublishedDocument, p: Primitives) {
    c.body.chunkType == QualityAndSecurity && c.body.semanticKey == "guidance"
    && GuidanceTells(c.body.content, d) && forall e :: e in c.body.evidence <==> IsSensitive(e, d, p.lower)
  }

  /** Guidance is due for a document with quality, security or caveat notes. */
  predicate GuidanceDue(d: PublishedDocument) {
    |d.dataQuality| + |d.security| + |d.caveats| > 0
  }

  /** The chunk is about the document: about the table, one of its parts, or its quality and security. */
  ghost predicate IsAbout(c: Chunk, d: PublishedDocument, p: Primitives) {
    || TellsOverview(c, d)
    || (exists column :: column in d.columns && TellsColumn(c, d, column, p))
    || (exists r :: r in d.relationships && TellsRelationship(c, d, r, p))
    || (exists rule :: rule in d.businessRules && TellsRule(c, d, rule, p))
    || (GuidanceDue(d) && TellsGuidance(c, d, p))
  }

  /** Every part of the document has its chunk. */
  ghost predicate AllTold(d: PublishedDocument, chunks: seq<Chunk>, p: Primitives) {
    && (exists c :: c in chunks && TellsOverview(c, d))
    && (forall column :: column in d.columns ==> exists c :: c in chunks && TellsColumn(c, d, column, p))
    && (forall r :: r in d.relationships ==> exists c :: c in chunks && TellsRelationship(c, d, r, p))
    && (forall rule :: rule in d.businessRules ==> exists c :: c in chunks && TellsRule(c, d, rule, p))
    && (GuidanceDue(d) ==> exists c :: c in chunks && TellsGuidance(c, d, p))
  }

  /** A chunk whose hash is that of its body still has the content it was composed with. */
  lemma MadeContent(d: PublishedDocument, t: ChunkType, key: string, lines: seq<string>, evidence: seq<Evidence>, p: Primitives)
    requires Injective(p.hash) && OwnIssues(d, MakeChunk(d, t, key, lines, evidence, p), p) == []
    ensures var c := MakeChunk(d, t, key, lines, evidence, p);
            c.body.content == Join("\n", lines) && c.body.chunkType == t && c.body.semanticKey == key && c.body.evidence == evidence
  {
    var c := MakeChunk(d, t, key, lines, evidence, p);
    assert p.hash(c.body) == p.hash(Body(d, t, key, Join("\n", lines), evidence));
  }

  lemma {:induction false} SensitiveExactly(d: PublishedDocument, columns: seq<PublishedColumn>, lower: string -> string, e: Evidence)
    ensures e in SensitiveEvidence(columns, lower) <==>
              exists c :: c in columns && lower(c.sensitivity) != "internal" && lower(c.sensitivity) != "public" && e in c.evidence
    decreases |columns|
  {
    if columns != [] {
      assert columns == [columns[0]] + columns[1..];
      SensitiveExactly(d, columns[1..], lower, e);
    }
  }

  lemma OverviewTold(d: PublishedDocument, p: Primitives)
    requires Injective(p.hash) && OwnIssues(d, OverviewChunk(d, p), p) == []
    ensures TellsOverview(OverviewChunk(d, p), d)
  {
    hide OwnIssues, OverviewLines, OverviewTells, MakeChunk;
    MadeContent(d, TableOverview, "summary", OverviewLines(d), d.businessEvidence, p);
    LinesOverview(d);
  }

  lemma ColumnTold(d: PublishedDocument, column: PublishedColumn, p: Primitives)
    requires Injective(p.hash) && OwnIssues(d, ColumnChunk(d, column, p), p) == []
    ensures TellsColumn(ColumnChunk(d, column, p), d, column, p)
  {
    hide OwnIssues, ColumnLines, ColumnTells, MakeChunk, SemanticKey;
    MadeContent(d, ColumnGroup, SemanticKey(column.name, p.lower), ColumnLines(d, column), column.evidence, p);
    LinesColumn(d, column);
  }

  lemma RelationshipTold(d: PublishedDocument, r: PublishedRelationship, p: Primitives)
    requires Injective(p.hash) && OwnIssues(d, RelationshipChunk(d, r, p), p) == []
    ensures TellsRelationship(RelationshipChunk(d, r, p), d, r, p)
  {
    hide OwnIssues, RelationshipLines, RelationshipTells, MakeChunk, SemanticKey;
    MadeContent(d, Relationship, SemanticKey(r.name, p.lower), RelationshipLines(d, r), r.evidence, p);
    LinesRelationship(d, r);
  }

  lemma RuleTold(d: PublishedDocument, rule: PublishedRule, p: Primitives)
    requires Injective(p.hash) && OwnIssues(d, RuleChunk(d, rule, p), p) == []
    ensures TellsRule(RuleChunk(d, rule, p), d, rule, p)
  {
    hide OwnIssues, RuleLines, RuleTells, MakeChunk, SemanticKey;
    MadeContent(d, BusinessRuleChunk, SemanticKey(rule.name, p.lower), RuleLines(d, rule), rule.evidence, p);
    LinesRule(d, rule);
  }

  lemma GuidanceTold(d: PublishedDocument, p: Primitives)
    requires Injective(p.hash) && OwnIssues(d, QualityChunk(d, p), p) == []
    ensures TellsGuidance(QualityChunk(d, p), d, p)
  {
    hide OwnIssues, QualityLines, GuidanceTells, MakeChunk, SensitiveEvidence;
    MadeContent(d, QualityAndSecurity, "guidance", QualityLines(d), SensitiveEvidence(d.columns, p.lower), p);
    LinesGuidance(d);
    forall e ensures e in SensitiveEvidence(d.columns, p.lower) <==> IsSensitive(e, d, p.lower) {
      SensitiveExactly(d, d.columns, p.lower, e);
    }
  }

  lemma GuidanceMember(d: PublishedDocument, p: Primitives, c: Chunk)
    ensures c in GuidanceChunks(d, p) <==> GuidanceDue(d) && c == QualityChunk(d, p)
  {
    hide QualityChunk;
  }

  /** Every chunk of a document with clean chunks is about it, and every part of the document is told. */
  lemma CleanTells(d: PublishedDocument, p: Primitives)
    requires Injective(p.hash) && forall c :: c in Unsorted(d, p) ==> OwnIssues(d, c, p) == []
    ensures AllTold(d, Unsorted(d, p), p)
    ensures forall c :: c in Unsorted(d, p) ==> IsAbout(c, d, p)
  {
    hide OwnIssues, Unsorted, OverviewChunk, ColumnChunk, RelationshipChunk, RuleChunk, QualityChunk, GuidanceChunks, Injective;
    hide TellsOverview, TellsColumn, TellsRelationship, TellsRule, TellsGuidance, GuidanceDue;
    UnsortedMembers(d, p);
    OverviewTold(d, p);
    forall i | 0 <= i < |d.columns|
      ensures ColumnChunks(d, p)[i] in Unsorted(d, p) && TellsColumn(ColumnChunks(d, p)[i], d, d.columns[i], p)
    {
      assert ColumnChunks(d, p)[i] in ColumnChunks(d, p);
      ColumnTold(d, d.columns[i], p);
    }
    forall i | 0 <= i < |d.relationships|
      ensures RelationshipChunks(d, p)[i] in Unsorted(d, p) && TellsRelationship(RelationshipChunks(d, p)[i], d, d.relationships[i], p)
    {
      assert RelationshipChunks(d, p)[i] in RelationshipChunks(d, p);
      RelationshipTold(d, d.relationships[i], p);
    }
    forall i | 0 <= i < |d.businessRules|
      ensures RuleChunks(d, p)[i] in Unsorted(d, p) && TellsRule(RuleChunks(d, p)[i], d, d.businessRules[i], p)
    {
      assert RuleChunks(d, p)[i] in RuleChunks(d, p);
      RuleTold(d, d.businessRules[i], p);
    }
    forall c { GuidanceMember(d, p, c); }
    if GuidanceDue(d) { GuidanceTold(d, p); }
    Abouts(d, p);
  }

  lemma Abouts(d: PublishedDocument, p: Primitives)
    requires TellsOverview(OverviewChunk(d, p), d)
    requires forall i :: 0 <= i < |d.columns| ==> TellsColumn(ColumnChunks(d, p)[i], d, d.columns[i], p)
    requires forall i :: 0 <= i < |d.relationships| ==> TellsRelationship(RelationshipChunks(d, p)[i], d, d.relationships[i], p)
    requires forall i :: 0 <= i < |d.businessRules| ==> TellsRule(RuleChunks(d, p)[i], d, d.businessRules[i], p)
    requires GuidanceDue(d) ==> TellsGuidance(QualityChunk(d, p), d, p)
    ensures forall c :: c in Unsorted(d, p) ==> IsAbout(c, d, p)
  {
    hide OverviewChunk, ColumnChunk, RelationshipChunk, RuleChunk, QualityChunk, GuidanceChunks, Unsorted;
    hide TellsOverview, TellsColumn, TellsRelationship, TellsRule, TellsGuidance, GuidanceDue;
    UnsortedMembers(d, p);
    forall c | c in Unsorted(d, p) ensures IsAbout(c, d, p) {
      GuidanceMember(d, p, c);
      if c in ColumnChunks(d, p) {
        var i :| 0 <= i < |d.columns| && ColumnChunks(d, p)[i] == c;
        assert d.columns[i] in d.columns;
      } else if c in RelationshipChunks(d, p) {
        var i :| 0 <= i < |d.relationships| && RelationshipChunks(d, p)[i] == c;
        assert d.relationships[i] in d.relationships;
      } else if c in RuleChunks(d, p) {
        var i :| 0 <= i < |d.businessRules| && RuleChunks(d, p)[i] == c;
        assert d.businessRules[i] in d.businessRules;
      }
    }
  }

  /**
   * The chunks of an accepted document tell the whole document and nothing else: the table, each column,
   * relationship and rule in a chunk under its own key with its own evidence, and the quality and security
   * notes exactly if there are any.
   */
  lemma AcceptedTells(d: PublishedDocument, p: Primitives)
    requires Accepted(d, p) && Injective(p.hash)
    ensures AllTold(d, ChunksOf(d, p), p)
    ensures forall c :: c in ChunksOf(d, p) ==> IsAbout(c, d, p) && From(c, d)
  {
    AcceptedOwn(d, p);
    hide Accepted, OwnIssues, Unsorted, ChunksOf, AllTold, IsAbout, From, OverviewChunk;
    ChunksAreUnsorted(d, p);
    CleanTells(d, p);
    ToldEither(d, Unsorted(d, p), ChunksOf(d, p), p);
    MembersFrom(d, p);
  }

  lemma ToldEither(d: PublishedDocument, a: seq<Chunk>, b: seq<Chunk>, p: Primitives)
    requires AllTold(d, a, p) && forall c :: c in a <==> c in b
    ensures AllTold(d, b, p)
  {
    hide TellsOverview, TellsColumn, TellsRelationship, TellsRule, TellsGuidance, GuidanceDue;
  }

  lemma AcceptedOwn(d: PublishedDocument, p: Primitives)
    requires Accepted(d, p)
    ensures forall c :: c in Unsorted(d, p) ==> OwnIssues(d, c, p) == []
  {
    hide ChunksOf, AllColumnIssues, AllRelationshipIssues, OfType, DictBy, OwnIssues, Unsorted;
    assert AllOwnIssues(d, ChunksOf(d, p), p) == [];
    AllOwnClean(d, ChunksOf(d, p), p);
    ChunksAreUnsorted(d, p);
  }

  lemma ChunksAreUnsorted(d: PublishedDocument, p: Primitives)
    ensures forall c :: c in ChunksOf(d, p) <==> c in Unsorted(d, p)
  {
    hide Unsorted;
    SortMembers(Unsorted(d, p), ChunkIdOf, StrLess);
  }

  // ---- exactly which chunks the validator accepts ----

  /** A chunk with the hash of its own body, under its document, that names the table. */
  predicate Sound(c: Chunk, d: PublishedDocument, p: Primitives) {
    && c.bodyHash == p.hash(c.body) && c.body.parentDocumentId == d.documentId + "::document"
    && Contains(c.body.content, d.qualifiedName)
  }

  predicate IsColumnChunk(c: Chunk, d: PublishedDocument, column: PublishedColumn, p: Primitives) {
    c.body.chunkType == ColumnGroup && c.body.chunkId == ChunkId(d.qualifiedName, ColumnGroup, SemanticKey(column.name, p.lower))
  }

  predicate IsRelationshipChunk(c: Chunk, d: PublishedDocument, r: PublishedRelationship, p: Primitives) {
    c.body.chunkType == Relationship && c.body.chunkId == ChunkId(d.qualifiedName, Relationship, SemanticKey(r.name, p.lower))
  }

  predicate NamesColumn(text: string, c: PublishedColumn) {
    Contains(text, c.dataType) && Contains(text, c.semanticType) && Contains(text, c.unit) && Contains(text, c.description)
  }

  predicate NamesRelationship(text: string, r: PublishedRelationship) {
    && Contains(text, r.fromTable) && Contains(text, r.toTable) && Contains(text, r.joinCondition)
    && Contains(text, r.cardinality.Value()) && Contains(text, r.rowCountImpact.Value())
  }

  /** Distinct ids, one overview, sound chunks, and for each column and relationship a chunk with its facts. */
  ghost predicate Acceptable(d: PublishedDocument, chunks: seq<Chunk>, p: Primitives) {
    && DistinctKeys(chunks, ChunkIdOf)
    && (exists c :: c in chunks && c.body.chunkType == TableOverview)
    && (forall c, e :: c in chunks && e in chunks && c.body.chunkType == TableOverview && e.body.chunkType == TableOverview ==> c == e)
    && (forall c :: c in chunks ==> Sound(c, d, p))
    && (forall column :: column in d.columns ==>
          exists c :: c in chunks && IsColumnChunk(c, d, column, p) && NamesColumn(c.body.content, column))
    && (forall r :: r in d.relationships ==>
          exists c :: c in chunks && IsRelationshipChunk(c, d, r, p) && NamesRelationship(c.body.content, r))
  }

  lemma OwnExactly(d: PublishedDocument, c: Chunk, p: Primitives)
    ensures OwnIssues(d, c, p) == [] <==> Sound(c, d, p)
  {
    hide Contains;
  }

  lemma {:induction false} MatchingMembers(chunks: seq<Chunk>, t: ChunkType, id: string, c: Chunk)
    ensures c in Matching(chunks, t, id) <==> c in chunks && c.body.chunkType == t && ChunkIdOf(c) == id
    decreases |chunks|
  {
    if chunks != [] {
      MatchingMembers(chunks[1..], t, id, c);
      assert chunks == [chunks[0]] + chunks[1..];
    }
  }

  lemma {:induction false} OfTypeMembers(chunks: seq<Chunk>, t: ChunkType, c: Chunk)
    ensures c in OfType(chunks, t) <==> c in chunks && c.body.chunkType == t
    decreases |chunks|
  {
    if chunks != [] {
      OfTypeMembers(chunks[1..], t, c);
      assert chunks == [chunks[0]] + chunks[1..];
    }
  }

  lemma ColumnExactly(d: PublishedDocument, column: PublishedColumn, chunks: seq<Chunk>, p: Primitives)
    requires DistinctKeys(chunks, ChunkIdOf)
    ensures ColumnIssues(d, column, chunks, p) == [] <==>
              exists c :: c in chunks && IsColumnChunk(c, d, column, p) && NamesColumn(c.body.content, column)
  {
    hide SemanticKey, ChunkId, HasAll, NamesColumn, RequiredOfColumn, DistinctKeys, Matching;
    var id := ChunkId(d.qualifiedName, ColumnGroup, SemanticKey(column.name, p.lower));
    var matches := Matching(chunks, ColumnGroup, id);
    forall c ensures c in matches <==> c in chunks && IsColumnChunk(c, d, column, p) { MatchingMembers(chunks, ColumnGroup, id, c); }
    forall c: Chunk { RequiredOnly(c.body.content, column); }
    if c :| c in chunks && IsColumnChunk(c, d, column, p) {
      MatchingOne(chunks, c);
      assert matches == [c];
    }
    if matches != [] {
      assert matches[0] in matches;
    }
  }

  lemma RequiredOnly(text: string, column: PublishedColumn)
    ensures HasAll(text, RequiredOfColumn(column)) <==> NamesColumn(text, column)
  {
    hide Contains;
    var x := RequiredOfColumn(column);
    assert x[0] == column.dataType && x[1] == column.semanticType && x[2] == column.unit && x[3] == column.description;
  }

  lemma RequiredRelationship(text: string, r: PublishedRelationship)
    ensures HasAll(text, RequiredOfRelationship(r)) <==> NamesRelationship(text, r)
  {
    hide Contains;
    var y := RequiredOfRelationship(r);
    assert y[0] == r.fromTable && y[1] == r.toTable && y[2] == r.joinCondition;
    assert y[3] == r.cardinality.Value() && y[4] == r.rowCountImpact.Value();
  }

  lemma RelationshipExactly(d: PublishedDocument, r: PublishedRelationship, chunks: seq<Chunk>, p: Primitives)
    requires DistinctKeys(chunks, ChunkIdOf)
    ensures RelationshipIssues(d, r, chunks, p) == [] <==>
              exists c :: c in chunks && IsRelationshipChunk(c, d, r, p) && NamesRelationship(c.body.content, r)
  {
    hide SemanticKey, ChunkId, HasAll, NamesRelationship, RequiredOfRelationship, DistinctKeys, Matching;
    var id := ChunkId(d.qualifiedName, Relationship, SemanticKey(r.name, p.lower));
    var matches := Matching(chunks, Relationship, id);
    forall c ensures c in matches <==> c in chunks && IsRelationshipChunk(c, d, r, p) { MatchingMembers(chunks, Relationship, id, c); }
    forall c: Chunk { RequiredRelationship(c.body.content, r); }
    if c :| c in chunks && IsRelationshipChunk(c, d, r, p) {
      MatchingOne(chunks, c);
      assert matches == [c];
    }
    if matches != [] {
      assert matches[0] in matches;
    }
  }

  lemma {:induction false} ColumnsExactly(d: PublishedDocument, columns: seq<PublishedColumn>, chunks: seq<Chunk>, p: Primitives)
    ensures AllColumnIssues(d, columns, chunks, p) == [] <==> forall c :: c in columns ==> ColumnIssues(d, c, chunks, p) == []
    decreases |columns|
  {
    hide ColumnIssues;
    if columns != [] {
      var init, last := columns[..|columns| - 1], columns[|columns| - 1];
      assert columns == init + [last];
      ColumnsExactly(d, init, chunks, p);
    }
  }

  lemma {:induction false} RelationshipsExactly(d: PublishedDocument, rs: seq<PublishedRelationship>, chunks: seq<Chunk>, p: Primitives)
    ensures AllRelationshipIssues(d, rs, chunks, p) == [] <==> forall r :: r in rs ==> RelationshipIssues(d, r, chunks, p) == []
    decreases |rs|
  {
    hide RelationshipIssues;
    if rs != [] {
      var init, last := rs[..|rs| - 1], rs[|rs| - 1];
      assert rs == init + [last];
      RelationshipsExactly(d, init, chunks, p);
    }
  }

  lemma OverviewExactly(chunks: seq<Chunk>)
    requires DistinctKeys(chunks, ChunkIdOf)
    ensures |OfType(chunks, TableOverview)| == 1 <==>
              && (exists c :: c in chunks && c.body.chunkType == TableOverview)
              && (forall c, e :: c in chunks && e in chunks && c.body.chunkType == TableOverview && e.body.chunkType == TableOverview ==> c == e)
  {
    hide DistinctKeys, OfType;
    var found := OfType(chunks, TableOverview);
    forall c { OfTypeMembers(chunks, TableOverview, c); }
    if c :| c in chunks && c.body.chunkType == TableOverview {
      if forall e :: e in chunks && e.body.chunkType == TableOverview ==> e == c {
        OfTypeOne(chunks, c);
      }
    }
    if |found| == 1 {
      assert found[0] in found;
    }
  }

  /** The validator accepts exactly the acceptable chunks, whoever built them. */
  lemma ChunksAcceptedExactly(d: PublishedDocument, chunks: seq<Chunk>, p: Primitives)
    ensures IssuesOf(d, chunks, p) == [] <==> Acceptable(d, chunks, p)
  {
    hide DictBy, OwnIssues, ColumnIssues, RelationshipIssues, AllOwnIssues, AllColumnIssues, AllRelationshipIssues, OfType, DistinctKeys;
    hide Sound, IsColumnChunk, IsRelationshipChunk, NamesColumn, NamesRelationship;
    DictCount(chunks, ChunkIdOf);
    AllOwnClean(d, chunks, p);
    forall c { OwnExactly(d, c, p); }
    ColumnsExactly(d, d.columns, chunks, p);
    RelationshipsExactly(d, d.relationships, chunks, p);
    if DistinctKeys(chunks, ChunkIdOf) {
      OverviewExactly(chunks);
      forall column | column in d.columns { ColumnExactly(d, column, chunks, p); }
      forall r | r in d.relationships { RelationshipExactly(d, r, chunks, p); }
    }
  }
}
