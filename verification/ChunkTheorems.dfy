/** The builder's chunks against the validator, and how chunk ids of different documents relate. */
module ChunkTheorems {
  import opened Wrappers
  import opened Ordering
  import opened Sorting
  import opened Dictionaries
  import opened Text
  import opened Models
  import opened SemanticKeys
  import opened Chunks

  /** No white space at either end, as every string of a validated record. */
  predicate Trimmed(s: string) {
    s == "" || (!IsWhite(s[0]) && !IsWhite(s[|s| - 1]))
  }

  predicate AllTrimmed(values: seq<string>) {
    forall i :: 0 <= i < |values| ==> Trimmed(values[i])
  }

  /** What the record validators guarantee of the fields used here. */
  ghost predicate WellFormed(document: PublishedDocument) {
    && document.Consistent()
    && document.database != "" && Trimmed(document.database)
    && AllTrimmed(document.caveats)
    && forall i :: 0 <= i < |document.columns| ==> AllTrimmed(document.columns[i].caveats)
  }

  /** The caveat list ends in an empty entry, so its text ends in the separator's space. */
  predicate EndsEmpty(caveats: seq<string>) {
    |caveats| >= 2 && caveats[|caveats| - 1] == ""
  }

  lemma CaveatText(caveats: seq<string>)
    requires AllTrimmed(caveats)
    ensures var text := OrNone(Join("; ", caveats));
            text != "" && (IsWhite(text[|text| - 1]) <==> EndsEmpty(caveats))
  {
    if |caveats| >= 2 {
      JoinLast("; ", caveats);
      var init := Join("; ", caveats[..|caveats| - 1]);
      var last := caveats[|caveats| - 1];
      assert Join("; ", caveats) == init + "; " + last;
      assert last == "" ==> (init + "; " + last)[|init| + 1] == ' ';
      assert Trimmed(last);
    } else if |caveats| == 1 {
      assert Trimmed(caveats[0]);
    }
  }

  /** Stripping leaves a text alone exactly when its last line ends visibly. */
  lemma LinesStripped(lines: seq<string>)
    requires |lines| >= 2 && lines[0] != "" && !IsWhite(lines[0][0]) && lines[|lines| - 1] != ""
    ensures var last := lines[|lines| - 1];
            Trim(Join("\n", lines)) == Join("\n", lines) <==> !IsWhite(last[|last| - 1])
  {
    var text, last := Join("\n", lines), lines[|lines| - 1];
    JoinStarts("\n", lines);
    JoinLast("\n", lines);
    var init := Join("\n", lines[..|lines| - 1]);
    assert text == init + "\n" + last;
    assert text[|text| - 1] == last[|last| - 1];
    assert text[0] == lines[0][0];
    if IsWhite(last[|last| - 1]) {
      TrimShortens(text);
    } else {
      TrimFixed(text);
    }
  }

  lemma SuffixVisible(label_: string, tail: string)
    requires tail != ""
    ensures (label_ + tail)[|label_ + tail| - 1] == tail[|tail| - 1]
  {
  }

  /** The validator finds nothing wrong with one built chunk exactly when stripping left its content alone. */
  lemma BuiltChunkClean(document: PublishedDocument, chunkType: ChunkType, key: string, lines: seq<string>,
                        evidence: seq<Evidence>, p: Primitives)
    requires Injective(p.hash) && document.Consistent()
    requires lines != [] && Contains(lines[0], document.qualifiedName)
    ensures OwnIssues(document, MakeChunk(document, chunkType, key, lines, evidence, p), p) == [] <==>
              Trim(Join("\n", lines)) == Join("\n", lines)
  {
    var content := Join("\n", lines);
    var body := Body(document, chunkType, key, content, evidence);
    var chunk := MakeChunk(document, chunkType, key, lines, evidence, p);
    JoinContains("\n", lines, 0, document.qualifiedName);
    assert chunk.body == body <==> Trim(content) == content;
    assert chunk.bodyHash == p.hash(chunk.body) <==> chunk.body == body;
  }

  lemma NameFirst(name: string, rest: string)
    ensures Contains(name + rest, name)
  {
    assert (name + rest)[..|name|] == name;
    assert OccursAt(name + rest, name, 0);
  }

  lemma QualifiedNameVisible(document: PublishedDocument, rest: string)
    requires WellFormed(document)
    ensures document.qualifiedName + rest != "" && !IsWhite((document.qualifiedName + rest)[0])
    ensures Contains(document.qualifiedName + rest, document.qualifiedName)
  {
    NameFirst(document.qualifiedName, rest);
    assert document.qualifiedName[0] == document.database[0];
  }

  lemma OverviewClean(document: PublishedDocument, p: Primitives)
    requires WellFormed(document) && Injective(p.hash)
    ensures OwnIssues(document, OverviewChunk(document, p), p) == [] <==> !EndsEmpty(document.caveats)
  {
    var lines := OverviewLines(document);
    QualifiedNameVisible(document, " — " + document.summary);
    assert lines[0] == document.qualifiedName + (" — " + document.summary);
    CaveatText(document.caveats);
    SuffixVisible("Major caveats: ", OrNone(Join("; ", document.caveats)));
    LinesStripped(lines);
    BuiltChunkClean(document, TableOverview, "summary", lines, document.businessEvidence, p);
  }

  lemma ColumnClean(document: PublishedDocument, column: PublishedColumn, p: Primitives)
    requires WellFormed(document) && Injective(p.hash) && AllTrimmed(column.caveats)
    ensures OwnIssues(document, ColumnChunk(document, column, p), p) == [] <==> !EndsEmpty(column.caveats)
  {
    var lines := ColumnLines(document, column);
    var rest := "." + column.name + " — " + column.businessName;
    QualifiedNameVisible(document, rest);
    assert lines[0] == document.qualifiedName + rest;
    CaveatText(column.caveats);
    SuffixVisible("Caveats: ", OrNone(Join("; ", column.caveats)));
    LinesStripped(lines);
    BuiltChunkClean(document, ColumnGroup, SemanticKey(column.name, p.lower), lines, column.evidence, p);
  }

  lemma RelationshipClean(document: PublishedDocument, r: PublishedRelationship, p: Primitives)
    requires WellFormed(document) && Injective(p.hash)
    ensures OwnIssues(document, RelationshipChunk(document, r, p), p) == []
  {
    var lines := RelationshipLines(document, r);
    QualifiedNameVisible(document, " relationship " + r.name);
    assert lines[0] == document.qualifiedName + (" relationship " + r.name);
    LinesStripped(lines);
    BuiltChunkClean(document, Relationship, SemanticKey(r.name, p.lower), lines, r.evidence, p);
  }

  lemma RuleClean(document: PublishedDocument, rule: PublishedRule, p: Primitives)
    requires WellFormed(document) && Injective(p.hash)
    ensures OwnIssues(document, RuleChunk(document, rule, p), p) == []
  {
    var lines := RuleLines(document, rule);
    QualifiedNameVisible(document, " business rule: " + rule.name);
    assert lines[0] == document.qualifiedName + (" business rule: " + rule.name);
    LinesStripped(lines);
    BuiltChunkClean(document, BusinessRuleChunk, SemanticKey(rule.name, p.lower), lines, rule.evidence, p);
  }

  lemma QualityClean(document: PublishedDocument, p: Primitives)
    requires WellFormed(document) && Injective(p.hash)
    ensures OwnIssues(document, QualityChunk(document, p), p) == []
  {
    hide OwnIssues, MakeChunk, SensitiveEvidence, Injective;
    var lines := QualityLines(document);
    QualifiedNameVisible(document, " quality and security guidance");
    LinesStripped(lines);
    BuiltChunkClean(document, QualityAndSecurity, "guidance", lines, SensitiveEvidence(document.columns, p.lower), p);
  }

  // ---- required facts ----

  lemma LineHas(lines: seq<string>, i: nat, before: string, value: string, after: string)
    requires i < |lines| && lines[i] == before + value + after
    ensures Contains(Join("\n", lines), value)
  {
    ContainsMiddle(before, value, after);
    JoinContains("\n", lines, i, value);
  }

  lemma ColumnFactsPresent(document: PublishedDocument, column: PublishedColumn)
    ensures HasAll(Join("\n", ColumnLines(document, column)), RequiredOfColumn(column))
  {
    var lines := ColumnLines(document, column);
    LineHas(lines, 1, "", column.description, "");
    LineHas(lines, 2, "Technical type: ", column.dataType, "; nullable: " + BoolText(column.nullable));
    LineHas(lines, 3, "Semantic type: ", column.semanticType, "; unit/timezone: " + column.unit);
    LineHas(lines, 3, "Semantic type: " + column.semanticType + "; unit/timezone: ", column.unit, "");
  }

  lemma RelationshipFactsPresent(document: PublishedDocument, r: PublishedRelationship)
    ensures HasAll(Join("\n", RelationshipLines(document, r)), RequiredOfRelationship(r))
  {
    hide Contains;
    var lines := RelationshipLines(document, r);
    LineHas(lines, 2, "From ", r.fromTable, "(" + Join(", ", r.fromColumns) + ")");
    LineHas(lines, 3, "To ", r.toTable, "(" + Join(", ", r.toColumns) + ")");
    LineHas(lines, 4, "Join condition: ", r.joinCondition, "");
    LineHas(lines, 5, "Cardinality: ", r.cardinality.Value(), "; optional: " + BoolText(r.optional));
    LineHas(lines, 6, "Row-count/duplicate risk: ", r.rowCountImpact.Value(), "");
  }

  // ---- all chunks of a document ----

  predicate ColumnKeysDistinct(document: PublishedDocument, p: Primitives) {
    forall i, j :: 0 <= i < j < |document.columns| ==>
      SemanticKey(document.columns[i].name, p.lower) != SemanticKey(document.columns[j].name, p.lower)
  }

  predicate RelationshipKeysDistinct(document: PublishedDocument, p: Primitives) {
    forall i, j :: 0 <= i < j < |document.relationships| ==>
      SemanticKey(document.relationships[i].name, p.lower) != SemanticKey(document.relationships[j].name, p.lower)
  }

  predicate RuleKeysDistinct(document: PublishedDocument, p: Primitives) {
    forall i, j :: 0 <= i < j < |document.businessRules| ==>
      SemanticKey(document.businessRules[i].name, p.lower) != SemanticKey(document.businessRules[j].name, p.lower)
  }

  /** Chunks of one document, of the given types, with well-formed ids. */
  ghost predicate Segment(chunks: seq<Chunk>, qualifiedName: string, types: set<ChunkType>) {
    forall c :: c in chunks ==>
      && c.body.chunkType in types && NoColon(c.body.semanticKey)
      && ChunkIdOf(c) == ChunkId(qualifiedName, c.body.chunkType, c.body.semanticKey)
  }

  lemma KeyNoColon(value: string, lower: string -> string)
    ensures NoColon(SemanticKey(value, lower))
  {
    SemanticKeyIsKey(value, lower);
  }

  /** Chunks of a further type bring no clash with the earlier ones. */
  lemma AppendSegment(a: seq<Chunk>, b: seq<Chunk>, q: string, types: set<ChunkType>, u: ChunkType)
    requires Segment(a, q, types) && Segment(b, q, {u}) && u !in types
    ensures Segment(a + b, q, types + {u})
    ensures DistinctKeys(a + b, ChunkIdOf) <==> DistinctKeys(a, ChunkIdOf) && DistinctKeys(b, ChunkIdOf)
  {
    forall x, y | x in a && y in b ensures ChunkIdOf(x) != ChunkIdOf(y) {
      if ChunkIdOf(x) == ChunkIdOf(y) {
        ChunkIdDecodes(q, x.body.chunkType, x.body.semanticKey, q, u, y.body.semanticKey);
      }
    }
    DistinctConcat(a, b, ChunkIdOf);
  }

  /** A built chunk's id is made of its document's name, its type and its key. */
  lemma MadeId(document: PublishedDocument, chunkType: ChunkType, key: string, lines: seq<string>,
               evidence: seq<Evidence>, p: Primitives)
    ensures var c := MakeChunk(document, chunkType, key, lines, evidence, p);
            c.body.chunkType == chunkType && c.body.semanticKey == key
            && ChunkIdOf(c) == ChunkId(document.qualifiedName, chunkType, key)
  {
    hide Join, Trim, ChunkId;
  }

  lemma OverviewSegment(document: PublishedDocument, p: Primitives)
    ensures Segment([OverviewChunk(document, p)], document.qualifiedName, {TableOverview})
    ensures DistinctKeys([OverviewChunk(document, p)], ChunkIdOf)
  {
    hide MakeChunk, OverviewLines, ChunkId;
    MadeId(document, TableOverview, "summary", OverviewLines(document), document.businessEvidence, p);
    assert NoColon("summary");
  }

  lemma GuidanceSegment(document: PublishedDocument, p: Primitives)
    ensures Segment(GuidanceChunks(document, p), document.qualifiedName, {QualityAndSecurity})
    ensures DistinctKeys(GuidanceChunks(document, p), ChunkIdOf)
  {
    hide MakeChunk, QualityLines, SensitiveEvidence, ChunkId, HasGuidance;
    MadeId(document, QualityAndSecurity, "guidance", QualityLines(document), SensitiveEvidence(document.columns, p.lower), p);
    assert NoColon("guidance");
  }

  lemma ColumnId(document: PublishedDocument, p: Primitives, i: nat)
    requires i < |document.columns|
    ensures var c, key := ColumnChunks(document, p)[i], SemanticKey(document.columns[i].name, p.lower);
            c.body.chunkType == ColumnGroup && c.body.semanticKey == key && NoColon(key)
            && ChunkIdOf(c) == ChunkId(document.qualifiedName, ColumnGroup, key)
  {
    hide MakeChunk, ColumnLines, ChunkId, SemanticKey, NoColon;
    var column := document.columns[i];
    KeyNoColon(column.name, p.lower);
    MadeId(document, ColumnGroup, SemanticKey(column.name, p.lower), ColumnLines(document, column), column.evidence, p);
  }

  lemma RelationshipId(document: PublishedDocument, p: Primitives, i: nat)
    requires i < |document.relationships|
    ensures var c, key := RelationshipChunks(document, p)[i], SemanticKey(document.relationships[i].name, p.lower);
            c.body.chunkType == Relationship && c.body.semanticKey == key && NoColon(key)
            && ChunkIdOf(c) == ChunkId(document.qualifiedName, Relationship, key)
  {
    hide MakeChunk, RelationshipLines, ChunkId, SemanticKey, NoColon;
    var r := document.relationships[i];
    KeyNoColon(r.name, p.lower);
    MadeId(document, Relationship, SemanticKey(r.name, p.lower), RelationshipLines(document, r), r.evidence, p);
  }

  lemma RuleId(document: PublishedDocument, p: Primitives, i: nat)
    requires i < |document.businessRules|
    ensures var c, key := RuleChunks(document, p)[i], SemanticKey(document.businessRules[i].name, p.lower);
            c.body.chunkType == BusinessRuleChunk && c.body.semanticKey == key && NoColon(key)
            && ChunkIdOf(c) == ChunkId(document.qualifiedName, BusinessRuleChunk, key)
  {
    hide MakeChunk, RuleLines, ChunkId, SemanticKey, NoColon;
    var rule := document.businessRules[i];
    KeyNoColon(rule.name, p.lower);
    MadeId(document, BusinessRuleChunk, SemanticKey(rule.name, p.lower), RuleLines(document, rule), rule.evidence, p);
  }

  lemma ColumnSegment(document: PublishedDocument, p: Primitives)
    ensures Segment(ColumnChunks(document, p), document.qualifiedName, {ColumnGroup})
  {
    hide ColumnChunk, ChunkId, SemanticKey, NoColon;
    forall i | 0 <= i < |document.columns| { ColumnId(document, p, i); }
  }

  lemma RelationshipSegment(document: PublishedDocument, p: Primitives)
    ensures Segment(RelationshipChunks(document, p), document.qualifiedName, {Relationship})
  {
    hide RelationshipChunk, ChunkId, SemanticKey, NoColon;
    forall i | 0 <= i < |document.relationships| { RelationshipId(document, p, i); }
  }

  lemma RuleSegment(document: PublishedDocument, p: Primitives)
    ensures Segment(RuleChunks(document, p), document.qualifiedName, {BusinessRuleChunk})
  {
    hide RuleChunk, ChunkId, SemanticKey, NoColon;
    forall i | 0 <= i < |document.businessRules| { RuleId(document, p, i); }
  }

  lemma ColumnSegmentDistinct(document: PublishedDocument, p: Primitives)
    ensures DistinctKeys(ColumnChunks(document, p), ChunkIdOf) <==> ColumnKeysDistinct(document, p)
  {
    hide ColumnChunk, ChunkId, SemanticKey, NoColon;
    forall i, j | 0 <= i < j < |document.columns|
      ensures ChunkIdOf(ColumnChunks(document, p)[i]) == ChunkIdOf(ColumnChunks(document, p)[j]) <==>
              SemanticKey(document.columns[i].name, p.lower) == SemanticKey(document.columns[j].name, p.lower)
    {
      ColumnId(document, p, i);
      ColumnId(document, p, j);
      SameTypeIds(document.qualifiedName, ColumnGroup, SemanticKey(document.columns[i].name, p.lower),
                  SemanticKey(document.columns[j].name, p.lower));
    }
  }

  lemma RelationshipSegmentDistinct(document: PublishedDocument, p: Primitives)
    ensures DistinctKeys(RelationshipChunks(document, p), ChunkIdOf) <==> RelationshipKeysDistinct(document, p)
  {
    hide RelationshipChunk, ChunkId, SemanticKey, NoColon;
    forall i, j | 0 <= i < j < |document.relationships|
      ensures ChunkIdOf(RelationshipChunks(document, p)[i]) == ChunkIdOf(RelationshipChunks(document, p)[j]) <==>
              SemanticKey(document.relationships[i].name, p.lower) == SemanticKey(document.relationships[j].name, p.lower)
    {
      RelationshipId(document, p, i);
      RelationshipId(document, p, j);
      SameTypeIds(document.qualifiedName, Relationship, SemanticKey(document.relationships[i].name, p.lower),
                  SemanticKey(document.relationships[j].name, p.lower));
    }
  }

  lemma RuleSegmentDistinct(document: PublishedDocument, p: Primitives)
    ensures DistinctKeys(RuleChunks(document, p), ChunkIdOf) <==> RuleKeysDistinct(document, p)
  {
    hide RuleChunk, ChunkId, SemanticKey, NoColon;
    forall i, j | 0 <= i < j < |document.businessRules|
      ensures ChunkIdOf(RuleChunks(document, p)[i]) == ChunkIdOf(RuleChunks(document, p)[j]) <==>
              SemanticKey(document.businessRules[i].name, p.lower) == SemanticKey(document.businessRules[j].name, p.lower)
    {
      RuleId(document, p, i);
      RuleId(document, p, j);
      SameTypeIds(document.qualifiedName, BusinessRuleChunk, SemanticKey(document.businessRules[i].name, p.lower),
                  SemanticKey(document.businessRules[j].name, p.lower));
    }
  }

  lemma SameTypeIds(q: string, t: ChunkType, j: string, k: string)
    ensures ChunkId(q, t, j) == ChunkId(q, t, k) <==> j == k
  {
    var head := q + "::" + t.Value() + "::";
    assert ChunkId(q, t, j)[|head|..] == j && ChunkId(q, t, k)[|head|..] == k;
  }

  /** The chunk ids of one document clash only when two keys of one kind normalise to the same key. */
  lemma IdsDistinct(document: PublishedDocument, p: Primitives)
    ensures DistinctKeys(Unsorted(document, p), ChunkIdOf) <==>
              ColumnKeysDistinct(document, p) && RelationshipKeysDistinct(document, p) && RuleKeysDistinct(document, p)
    ensures Segment(Unsorted(document, p), document.qualifiedName,
                    {TableOverview} + {ColumnGroup} + {Relationship} + {BusinessRuleChunk} + {QualityAndSecurity})
  {
    OverviewSegment(document, p);
    ColumnSegment(document, p);
    RelationshipSegment(document, p);
    RuleSegment(document, p);
    GuidanceSegment(document, p);
    ColumnSegmentDistinct(document, p);
    RelationshipSegmentDistinct(document, p);
    RuleSegmentDistinct(document, p);
    hide OverviewChunk, GuidanceChunks, ColumnChunks, RelationshipChunks, RuleChunks;
    hide ColumnKeysDistinct, RelationshipKeysDistinct, RuleKeysDistinct, Segment, DistinctKeys;
    var q := document.qualifiedName;
    var overview, columns := [OverviewChunk(document, p)], ColumnChunks(document, p);
    var relationships, rules := RelationshipChunks(document, p), RuleChunks(document, p);
    AppendSegment(overview, columns, q, {TableOverview}, ColumnGroup);
    AppendSegment(overview + columns, relationships, q, {TableOverview} + {ColumnGroup}, Relationship);
    AppendSegment(overview + columns + relationships, rules, q,
                  {TableOverview} + {ColumnGroup} + {Relationship}, BusinessRuleChunk);
    AppendSegment(overview + columns + relationships + rules, GuidanceChunks(document, p), q,
                  {TableOverview} + {ColumnGroup} + {Relationship} + {BusinessRuleChunk}, QualityAndSecurity);
  }

  // ---- the validator's parts ----

  lemma {:induction false} AllOwnClean(document: PublishedDocument, chunks: seq<Chunk>, p: Primitives)
    ensures AllOwnIssues(document, chunks, p) == [] <==> forall c :: c in chunks ==> OwnIssues(document, c, p) == []
    decreases |chunks|
  {
    hide OwnIssues;
    if chunks == [] {
    } else {
      var init, last := chunks[..|chunks| - 1], chunks[|chunks| - 1];
      AllOwnClean(document, init, p);
      assert chunks == init + [last];
      assert forall c :: c in chunks <==> c in init || c == last;
    }
  }

  lemma {:induction false} AllColumnsClean(document: PublishedDocument, columns: seq<PublishedColumn>, chunks: seq<Chunk>, p: Primitives)
    requires forall c :: c in columns ==> ColumnIssues(document, c, chunks, p) == []
    ensures AllColumnIssues(document, columns, chunks, p) == []
    decreases |columns|
  {
    hide ColumnIssues;
    if columns == [] {
    } else {
      var init, last := columns[..|columns| - 1], columns[|columns| - 1];
      assert columns == init + [last];
      AllColumnsClean(document, init, chunks, p);
    }
  }

  lemma {:induction false} AllRelationshipsClean(document: PublishedDocument, rs: seq<PublishedRelationship>, chunks: seq<Chunk>, p: Primitives)
    requires forall r :: r in rs ==> RelationshipIssues(document, r, chunks, p) == []
    ensures AllRelationshipIssues(document, rs, chunks, p) == []
    decreases |rs|
  {
    hide RelationshipIssues;
    if rs == [] {
    } else {
      var init, last := rs[..|rs| - 1], rs[|rs| - 1];
      assert rs == init + [last];
      AllRelationshipsClean(document, init, chunks, p);
    }
  }

  lemma {:induction false} MatchingNone(chunks: seq<Chunk>, t: ChunkType, id: string)
    requires forall c :: c in chunks ==> ChunkIdOf(c) != id
    ensures Matching(chunks, t, id) == []
    decreases |chunks|
  {
    if chunks == [] {
    } else {
      assert chunks[0] in chunks;
      MatchingNone(chunks[1..], t, id);
    }
  }

  /** With unique ids a chunk is the only match for its type and id. */
  lemma {:induction false} MatchingOne(chunks: seq<Chunk>, c: Chunk)
    requires DistinctKeys(chunks, ChunkIdOf) && c in chunks
    ensures Matching(chunks, c.body.chunkType, ChunkIdOf(c)) == [c]
    decreases |chunks|
  {
    assert chunks == [chunks[0]] + chunks[1..];
    DistinctConcat([chunks[0]], chunks[1..], ChunkIdOf);
    hide DistinctKeys;
    if chunks[0] == c {
      MatchingNone(chunks[1..], c.body.chunkType, ChunkIdOf(c));
    } else {
      MatchingOne(chunks[1..], c);
    }
  }

  lemma {:induction false} OfTypeNone(chunks: seq<Chunk>, t: ChunkType)
    requires forall c :: c in chunks ==> c.body.chunkType != t
    ensures OfType(chunks, t) == []
    decreases |chunks|
  {
    if chunks == [] {
    } else {
      assert chunks[0] in chunks;
      OfTypeNone(chunks[1..], t);
    }
  }

  lemma {:induction false} OfTypeOne(chunks: seq<Chunk>, c: Chunk)
    requires DistinctKeys(chunks, ChunkIdOf) && c in chunks
    requires forall d :: d in chunks && d.body.chunkType == c.body.chunkType ==> d == c
    ensures OfType(chunks, c.body.chunkType) == [c]
    decreases |chunks|
  {
    assert chunks == [chunks[0]] + chunks[1..];
    DistinctConcat([chunks[0]], chunks[1..], ChunkIdOf);
    hide DistinctKeys;
    if chunks[0] == c {
      OfTypeNone(chunks[1..], c.body.chunkType);
    } else {
      OfTypeOne(chunks[1..], c);
    }
  }

  // ---- the builder's output, member by member ----

  /** No caveat list ends in an empty entry. */
  predicate CaveatsEndVisibly(document: PublishedDocument) {
    !EndsEmpty(document.caveats) &&
    forall i :: 0 <= i < |document.columns| ==> !EndsEmpty(document.columns[i].caveats)
  }

  lemma UnsortedMembers(document: PublishedDocument, p: Primitives)
    ensures forall c :: c in Unsorted(document, p) <==>
              || c == OverviewChunk(document, p)
              || c in ColumnChunks(document, p)
              || c in RelationshipChunks(document, p)
              || c in RuleChunks(document, p)
              || c in GuidanceChunks(document, p)
  {
    hide OverviewChunk, ColumnChunks, RelationshipChunks, RuleChunks, GuidanceChunks;
  }

  lemma ColumnsClean(document: PublishedDocument, p: Primitives)
    requires WellFormed(document) && Injective(p.hash)
    ensures (forall c :: c in ColumnChunks(document, p) ==> OwnIssues(document, c, p) == []) <==>
            (forall i :: 0 <= i < |document.columns| ==> !EndsEmpty(document.columns[i].caveats))
  {
    hide OwnIssues, EndsEmpty, ColumnChunk;
    var chunks := ColumnChunks(document, p);
    forall i | 0 <= i < |document.columns|
      ensures chunks[i] in chunks
      ensures OwnIssues(document, chunks[i], p) == [] <==> !EndsEmpty(document.columns[i].caveats)
    {
      ColumnClean(document, document.columns[i], p);
    }
  }

  lemma OthersClean(document: PublishedDocument, p: Primitives)
    requires WellFormed(document) && Injective(p.hash)
    ensures forall c :: c in RelationshipChunks(document, p) || c in RuleChunks(document, p) || c in GuidanceChunks(document, p)
              ==> OwnIssues(document, c, p) == []
  {
    hide OwnIssues, RelationshipChunk, RuleChunk, QualityChunk, WellFormed;
    forall i | 0 <= i < |document.relationships| ensures OwnIssues(document, RelationshipChunks(document, p)[i], p) == [] {
      RelationshipClean(document, document.relationships[i], p);
    }
    forall i | 0 <= i < |document.businessRules| ensures OwnIssues(document, RuleChunks(document, p)[i], p) == [] {
      RuleClean(document, document.businessRules[i], p);
    }
    QualityClean(document, p);
  }

  lemma OwnCleanIff(document: PublishedDocument, p: Primitives)
    requires WellFormed(document) && Injective(p.hash)
    ensures (forall c :: c in Unsorted(document, p) ==> OwnIssues(document, c, p) == []) <==> CaveatsEndVisibly(document)
  {
    hide OwnIssues, EndsEmpty, WellFormed, Unsorted;
    hide OverviewChunk, ColumnChunks, RelationshipChunks, RuleChunks, GuidanceChunks;
    OverviewClean(document, p);
    ColumnsClean(document, p);
    OthersClean(document, p);
    UnsortedMembers(document, p);
  }

  /** The one chunk of a column is found and carries the facts it must. */
  lemma ColumnCovered(document: PublishedDocument, p: Primitives, chunks: seq<Chunk>, i: nat)
    requires DistinctKeys(chunks, ChunkIdOf) && CaveatsEndVisibly(document) && WellFormed(document)
    requires i < |document.columns| && ColumnChunks(document, p)[i] in chunks
    ensures ColumnIssues(document, document.columns[i], chunks, p) == []
  {
    var column := document.columns[i];
    var c := ColumnChunk(document, column, p);
    ColumnStable(document, i);
    ColumnFactsPresent(document, column);
    hide WellFormed, CaveatsEndVisibly, HasAll, RequiredOfColumn, ColumnLines;
    assert c.body.content == Join("\n", ColumnLines(document, column));
    MatchingOne(chunks, c);
  }

  lemma ColumnsCovered(document: PublishedDocument, p: Primitives, chunks: seq<Chunk>)
    requires DistinctKeys(chunks, ChunkIdOf) && CaveatsEndVisibly(document) && WellFormed(document)
    requires forall c :: c in ColumnChunks(document, p) ==> c in chunks
    ensures AllColumnIssues(document, document.columns, chunks, p) == []
  {
    hide WellFormed, CaveatsEndVisibly, DistinctKeys, ColumnIssues, ColumnChunk;
    forall column | column in document.columns ensures ColumnIssues(document, column, chunks, p) == [] {
      var i :| 0 <= i < |document.columns| && document.columns[i] == column;
      ColumnCovered(document, p, chunks, i);
    }
    AllColumnsClean(document, document.columns, chunks, p);
  }

  lemma ColumnStable(document: PublishedDocument, i: nat)
    requires WellFormed(document) && CaveatsEndVisibly(document) && i < |document.columns|
    ensures var lines := ColumnLines(document, document.columns[i]); Trim(Join("\n", lines)) == Join("\n", lines)
  {
    var column := document.columns[i];
    var lines := ColumnLines(document, column);
    var rest := "." + column.name + " — " + column.businessName;
    QualifiedNameVisible(document, rest);
    assert lines[0] == document.qualifiedName + rest;
    CaveatText(column.caveats);
    SuffixVisible("Caveats: ", OrNone(Join("; ", column.caveats)));
    LinesStripped(lines);
  }

  lemma RelationshipCovered(document: PublishedDocument, p: Primitives, chunks: seq<Chunk>, i: nat)
    requires DistinctKeys(chunks, ChunkIdOf) && WellFormed(document)
    requires i < |document.relationships| && RelationshipChunks(document, p)[i] in chunks
    ensures RelationshipIssues(document, document.relationships[i], chunks, p) == []
  {
    var r := document.relationships[i];
    var c := RelationshipChunk(document, r, p);
    RelationshipStable(document, r);
    RelationshipFactsPresent(document, r);
    hide WellFormed, HasAll, RequiredOfRelationship, RelationshipLines;
    assert c.body.content == Join("\n", RelationshipLines(document, r));
    MatchingOne(chunks, c);
  }

  lemma RelationshipsCovered(document: PublishedDocument, p: Primitives, chunks: seq<Chunk>)
    requires DistinctKeys(chunks, ChunkIdOf) && WellFormed(document)
    requires forall c :: c in RelationshipChunks(document, p) ==> c in chunks
    ensures AllRelationshipIssues(document, document.relationships, chunks, p) == []
  {
    hide WellFormed, DistinctKeys, RelationshipIssues, RelationshipChunk;
    forall r | r in document.relationships ensures RelationshipIssues(document, r, chunks, p) == [] {
      var i :| 0 <= i < |document.relationships| && document.relationships[i] == r;
      RelationshipCovered(document, p, chunks, i);
    }
    AllRelationshipsClean(document, document.relationships, chunks, p);
  }

  lemma RelationshipStable(document: PublishedDocument, r: PublishedRelationship)
    requires WellFormed(document)
    ensures var lines := RelationshipLines(document, r); Trim(Join("\n", lines)) == Join("\n", lines)
  {
    var lines := RelationshipLines(document, r);
    QualifiedNameVisible(document, " relationship " + r.name);
    assert lines[0] == document.qualifiedName + (" relationship " + r.name);
    LinesStripped(lines);
  }

  lemma OnlyOverview(document: PublishedDocument, p: Primitives, d: Chunk)
    requires d in Unsorted(document, p) && d.body.chunkType == TableOverview
    ensures d == OverviewChunk(document, p)
  {
    hide Unsorted, OverviewChunk, ColumnChunks, RelationshipChunks, RuleChunks, GuidanceChunks, DistinctKeys, ChunkId, NoColon;
    UnsortedMembers(document, p);
    ColumnSegment(document, p);
    RelationshipSegment(document, p);
    RuleSegment(document, p);
    GuidanceSegment(document, p);
  }

  lemma OneOverview(document: PublishedDocument, p: Primitives, chunks: seq<Chunk>)
    requires DistinctKeys(chunks, ChunkIdOf)
    requires forall c :: c in Unsorted(document, p) <==> c in chunks
    ensures OfType(chunks, TableOverview) == [OverviewChunk(document, p)]
  {
    hide Unsorted, MakeChunk, OverviewLines, DistinctKeys, OfType;
    var c := OverviewChunk(document, p);
    UnsortedMembers(document, p);
    MadeId(document, TableOverview, "summary", OverviewLines(document), document.businessEvidence, p);
    forall d | d in chunks && d.body.chunkType == TableOverview ensures d == c {
      OnlyOverview(document, p, d);
    }
    OfTypeOne(chunks, c);
  }

  /**
   * The validator accepts what the builder builds exactly when the normalised keys are pairwise
   * distinct within columns, within relationships and within rules, and no caveat list ends in an
   * empty entry after another one.
   */
  lemma BuiltChunksAccepted(document: PublishedDocument, p: Primitives)
    requires WellFormed(document) && Injective(p.hash)
    ensures IssuesOf(document, ChunksOf(document, p), p) == [] <==>
              && ColumnKeysDistinct(document, p) && RelationshipKeysDistinct(document, p) && RuleKeysDistinct(document, p)
              && CaveatsEndVisibly(document)
  {
    hide Unsorted, ColumnKeysDistinct, RelationshipKeysDistinct, RuleKeysDistinct, Segment, WellFormed, CaveatsEndVisibly;
    hide OverviewChunk, ColumnChunks, RelationshipChunks, RuleChunks, GuidanceChunks, DistinctKeys, OwnIssues, DictBy;
    hide AllOwnIssues, AllColumnIssues, AllRelationshipIssues, OfType, SortBy;
    var raw, chunks := Unsorted(document, p), ChunksOf(document, p);
    SortMembers(raw, ChunkIdOf, StrLess);
    SortMultiset(raw, ChunkIdOf, StrLess);
    IdsDistinct(document, p);
    OwnCleanIff(document, p);
    UnsortedMembers(document, p);
    DictCount(chunks, ChunkIdOf);
    AllOwnClean(document, chunks, p);
    if DistinctKeys(raw, ChunkIdOf) {
      DistinctPermuted(raw, chunks, ChunkIdOf);
      OneOverview(document, p, chunks);
      if CaveatsEndVisibly(document) {
        ColumnsCovered(document, p, chunks);
        RelationshipsCovered(document, p, chunks);
      }
    }
    if DistinctKeys(chunks, ChunkIdOf) {
      DistinctPermuted(chunks, raw, ChunkIdOf);
    }
  }

  /** The caveats "late rows" and "" make the validator reject what the builder built. */
  lemma EmptyLastCaveatRejected(document: PublishedDocument, p: Primitives)
    requires WellFormed(document) && Injective(p.hash)
    requires document.caveats == ["late rows", ""]
    ensures IssuesOf(document, ChunksOf(document, p), p) != []
  {
    hide IssuesOf, ChunksOf, WellFormed, Injective, ColumnKeysDistinct, RelationshipKeysDistinct, RuleKeysDistinct;
    assert EndsEmpty(document.caveats);
    BuiltChunksAccepted(document, p);
  }
}
