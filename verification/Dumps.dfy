/** The JSON trees the records are dumped to, which lose nothing. */
module Dumps {
  import opened Wrappers
  import opened Models

  datatype Json =
    | JNull
    | JBool(value: bool)
    | JStr(text: string)
    | JList(items: seq<Json>)
    | JObj(fields: map<string, Json>)

  // ---- records as objects ----

  function Zip(names: seq<string>, values: seq<Json>): map<string, Json>
    requires |names| == |values|
  {
    if names == [] then map[]
    else
      var last := |names| - 1;
      Zip(names[..last], values[..last])[names[last] := values[last]]
  }

  function Record(names: seq<string>, values: seq<Json>): Json
    requires |names| == |values|
  {
    JObj(Zip(names, values))
  }

  /** `fields` without the popped ones. */
  function Pop(json: Json, popped: set<string>): Json
    requires json.JObj?
  {
    JObj(json.fields - popped)
  }

  ghost predicate DistinctNames(names: seq<string>) {
    forall i, j :: 0 <= i < j < |names| ==> names[i] != names[j]
  }

  lemma {:induction false} ZipLookup(names: seq<string>, values: seq<Json>, i: nat)
    requires |names| == |values| && DistinctNames(names) && i < |names|
    ensures names[i] in Zip(names, values) && Zip(names, values)[names[i]] == values[i]
    decreases |names|
  {
    var last := |names| - 1;
    if i < last {
      ZipLookup(names[..last], values[..last], i);
    }
  }

  /** Two records of one type that agree off the popped fields have the same other values. */
  lemma RecordsAgree(names: seq<string>, a: seq<Json>, b: seq<Json>, popped: set<string>)
    requires |names| == |a| == |b| && DistinctNames(names)
    requires Pop(Record(names, a), popped) == Pop(Record(names, b), popped)
    ensures forall i :: 0 <= i < |names| && names[i] !in popped ==> a[i] == b[i]
  {
    forall i | 0 <= i < |names| && names[i] !in popped ensures a[i] == b[i] {
      ZipLookup(names, a, i);
      ZipLookup(names, b, i);
      assert (Zip(names, a) - popped)[names[i]] == a[i];
      assert (Zip(names, b) - popped)[names[i]] == b[i];
    }
  }

  /** And values that agree off the popped fields give the same record without them. */
  lemma {:induction false} PoppedAgree(names: seq<string>, a: seq<Json>, b: seq<Json>, popped: set<string>)
    requires |names| == |a| == |b|
    requires forall i :: 0 <= i < |names| && names[i] !in popped ==> a[i] == b[i]
    ensures Pop(Record(names, a), popped) == Pop(Record(names, b), popped)
    decreases |names|
  {
    if names != [] {
      var last := |names| - 1;
      PoppedAgree(names[..last], a[..last], b[..last], popped);
      var x, y := Zip(names[..last], a[..last]), Zip(names[..last], b[..last]);
      assert x - popped == y - popped;
      if names[last] in popped {
        assert x[names[last] := a[last]] - popped == x - popped;
        assert y[names[last] := b[last]] - popped == y - popped;
      } else {
        assert x[names[last] := a[last]] - popped == (x - popped)[names[last] := a[last]];
        assert y[names[last] := b[last]] - popped == (y - popped)[names[last] := b[last]];
      }
    }
  }

  lemma RecordInjective(names: seq<string>, a: seq<Json>, b: seq<Json>)
    requires |names| == |a| == |b| && DistinctNames(names)
    requires Record(names, a) == Record(names, b)
    ensures a == b
  {
    RecordsAgree(names, a, b, {});
  }

  // ---- lists and dictionaries ----

  function Each<T>(values: seq<T>, dump: T -> Json): (r: seq<Json>)
    ensures |r| == |values|
    ensures forall i :: 0 <= i < |r| ==> r[i] == dump(values[i])
  {
    seq(|values|, i requires 0 <= i < |values| => dump(values[i]))
  }

  function EachValue<T>(values: map<string, T>, dump: T -> Json): (r: map<string, Json>)
    ensures r.Keys == values.Keys
    ensures forall k :: k in values ==> r[k] == dump(values[k])
  {
    map k | k in values :: dump(values[k])
  }

  lemma EachInjective<T(!new)>(a: seq<T>, b: seq<T>, dump: T -> Json)
    requires Injective(dump) && Each(a, dump) == Each(b, dump)
    ensures a == b
  {
    assert |a| == |b|;
    forall i | 0 <= i < |a| ensures a[i] == b[i] {
      assert Each(a, dump)[i] == Each(b, dump)[i];
    }
  }

  lemma EachValueInjective<T(!new)>(a: map<string, T>, b: map<string, T>, dump: T -> Json)
    requires Injective(dump) && EachValue(a, dump) == EachValue(b, dump)
    ensures a == b
  {
    assert a.Keys == EachValue(a, dump).Keys == b.Keys;
    forall k | k in a ensures a[k] == b[k] {
      assert EachValue(a, dump)[k] == EachValue(b, dump)[k];
    }
  }

  function Str(s: string): Json {
    JStr(s)
  }

  function Strings(values: seq<string>): Json {
    JList(Each(values, Str))
  }

  function Texts(values: map<string, string>): Json {
    JObj(EachValue(values, Str))
  }

  function Evidences(values: seq<Evidence>): Json {
    JList(Each(values, DumpEvidence))
  }

  lemma StringsInjective(a: seq<string>, b: seq<string>)
    requires Strings(a) == Strings(b)
    ensures a == b
  {
    EachInjective(a, b, Str);
  }

  lemma TextsInjective(a: map<string, string>, b: map<string, string>)
    requires Texts(a) == Texts(b)
    ensures a == b
  {
    EachValueInjective(a, b, Str);
  }

  lemma EvidencesInjective(a: seq<Evidence>, b: seq<Evidence>)
    requires Evidences(a) == Evidences(b)
    ensures a == b
  {
    EvidenceInjective();
    EachInjective(a, b, DumpEvidence);
  }

  // ---- the records ----

  const EVIDENCE_FIELDS := ["kind", "reference", "status", "note"]

  function DumpEvidence(e: Evidence): Json {
    Record(EVIDENCE_FIELDS, [JStr(e.kind.Value()), JStr(e.reference), JStr(e.status.Value()), JStr(e.note)])
  }

  lemma EvidenceInjective()
    ensures Injective(DumpEvidence)
  {
    forall a, b | DumpEvidence(a) == DumpEvidence(b) ensures a == b {
      var x := [JStr(a.kind.Value()), JStr(a.reference), JStr(a.status.Value()), JStr(a.note)];
      var y := [JStr(b.kind.Value()), JStr(b.reference), JStr(b.status.Value()), JStr(b.note)];
      RecordInjective(EVIDENCE_FIELDS, x, y);
      assert x[0] == y[0] && x[1] == y[1] && x[2] == y[2] && x[3] == y[3];
      KindsDiffer(a.kind, b.kind);
      StatusesDiffer(a.status, b.status);
    }
  }

  lemma KindsDiffer(a: EvidenceKind, b: EvidenceKind)
    ensures a.Value() == b.Value() ==> a == b
  {
  }

  lemma StatusesDiffer(a: EvidenceStatus, b: EvidenceStatus)
    ensures a.Value() == b.Value() ==> a == b
  {
  }

  lemma CardinalitiesDiffer(a: Cardinality, b: Cardinality)
    ensures a.Value() == b.Value() ==> a == b
  {
  }

  lemma ImpactsDiffer(a: RowCountImpact, b: RowCountImpact)
    ensures a.Value() == b.Value() ==> a == b
  {
  }

  const COLUMN_FIELDS := [
    "name", "data_type", "nullable", "technical_comment", "business_name", "description", "semantic_type", "unit",
    "nullable_meaning", "sensitivity", "allowed_values", "caveats", "evidence"]

  function ColumnValues(c: PublishedColumn): seq<Json> {
    [JStr(c.name), JStr(c.dataType), JBool(c.nullable), JStr(c.technicalComment), JStr(c.businessName),
     JStr(c.description), JStr(c.semanticType), JStr(c.unit), JStr(c.nullableMeaning), JStr(c.sensitivity),
     Texts(c.allowedValues), Strings(c.caveats), Evidences(c.evidence)]
  }

  function DumpColumn(c: PublishedColumn): Json {
    Record(COLUMN_FIELDS, ColumnValues(c))
  }

  lemma ColumnInjective()
    ensures Injective(DumpColumn)
  {
    forall a, b | DumpColumn(a) == DumpColumn(b) ensures a == b {
      RecordInjective(COLUMN_FIELDS, ColumnValues(a), ColumnValues(b));
      ColumnValuesInjective(a, b);
    }
  }

  lemma ColumnValuesInjective(a: PublishedColumn, b: PublishedColumn)
    requires ColumnValues(a) == ColumnValues(b)
    ensures a == b
  {
    hide Texts, Strings, Evidences;
    var x, y := ColumnValues(a), ColumnValues(b);
    assert x[0] == y[0] && x[1] == y[1] && x[2] == y[2] && x[3] == y[3] && x[4] == y[4] && x[5] == y[5];
    assert x[6] == y[6] && x[7] == y[7] && x[8] == y[8] && x[9] == y[9];
    assert x[10] == y[10] && x[11] == y[11] && x[12] == y[12];
    TextsInjective(a.allowedValues, b.allowedValues);
    StringsInjective(a.caveats, b.caveats);
    EvidencesInjective(a.evidence, b.evidence);
  }

  const RELATIONSHIP_FIELDS := [
    "name", "from_table", "from_columns", "to_table", "to_columns", "join_condition", "cardinality", "optional",
    "row_count_impact", "meaning", "technical_definition", "virtual", "evidence"]

  function MaybeStr(value: Option<string>): Json {
    if value.Some? then JStr(value.value) else JNull
  }

  function MaybeBool(value: Option<bool>): Json {
    if value.Some? then JBool(value.value) else JNull
  }

  function RelationshipValues(r: PublishedRelationship): seq<Json> {
    [JStr(r.name), JStr(r.fromTable), Strings(r.fromColumns), JStr(r.toTable), Strings(r.toColumns),
     JStr(r.joinCondition), JStr(r.cardinality.Value()), JBool(r.optional), JStr(r.rowCountImpact.Value()),
     JStr(r.meaning), MaybeStr(r.technicalDefinition), MaybeBool(r.isVirtual), Evidences(r.evidence)]
  }

  function DumpRelationship(r: PublishedRelationship): Json {
    Record(RELATIONSHIP_FIELDS, RelationshipValues(r))
  }

  lemma RelationshipInjective()
    ensures Injective(DumpRelationship)
  {
    forall a, b | DumpRelationship(a) == DumpRelationship(b) ensures a == b {
      RecordInjective(RELATIONSHIP_FIELDS, RelationshipValues(a), RelationshipValues(b));
      RelationshipValuesInjective(a, b);
    }
  }

  lemma RelationshipValuesInjective(a: PublishedRelationship, b: PublishedRelationship)
    requires RelationshipValues(a) == RelationshipValues(b)
    ensures a == b
  {
    hide Strings, Evidences;
    var x, y := RelationshipValues(a), RelationshipValues(b);
    assert x[0] == y[0] && x[1] == y[1] && x[2] == y[2] && x[3] == y[3] && x[4] == y[4] && x[5] == y[5];
    assert x[6] == y[6] && x[7] == y[7] && x[8] == y[8] && x[9] == y[9];
    assert x[10] == y[10] && x[11] == y[11] && x[12] == y[12];
    StringsInjective(a.fromColumns, b.fromColumns);
    StringsInjective(a.toColumns, b.toColumns);
    EvidencesInjective(a.evidence, b.evidence);
    CardinalitiesDiffer(a.cardinality, b.cardinality);
    ImpactsDiffer(a.rowCountImpact, b.rowCountImpact);
  }

  const RULE_FIELDS := ["name", "description", "evidence"]

  function DumpRule(r: PublishedRule): Json {
    Record(RULE_FIELDS, [JStr(r.name), JStr(r.description), Evidences(r.evidence)])
  }

  lemma RuleInjective()
    ensures Injective(DumpRule)
  {
    forall a, b | DumpRule(a) == DumpRule(b) ensures a == b {
      var x := [JStr(a.name), JStr(a.description), Evidences(a.evidence)];
      var y := [JStr(b.name), JStr(b.description), Evidences(b.evidence)];
      RecordInjective(RULE_FIELDS, x, y);
      assert x[0] == y[0] && x[1] == y[1] && x[2] == y[2];
      EvidencesInjective(a.evidence, b.evidence);
    }
  }

  const PROVENANCE_FIELDS := [
    "source_schema_path", "source_review_path", "source_review_commit", "generator_mode", "generator_model",
    "prompt_version"]

  function ProvenanceValues(p: Provenance): seq<Json> {
    [JStr(p.sourceSchemaPath), JStr(p.sourceReviewPath), JStr(p.sourceReviewCommit), JStr(p.generatorMode.Value()),
     JStr(p.generatorModel), JStr(p.promptVersion)]
  }

  function DumpProvenance(p: Provenance): (json: Json)
    ensures json.JObj?
  {
    Record(PROVENANCE_FIELDS, ProvenanceValues(p))
  }

  lemma ProvenanceAgrees(a: Provenance, b: Provenance)
    requires Pop(DumpProvenance(a), {"source_review_commit"}) == Pop(DumpProvenance(b), {"source_review_commit"})
    ensures a.(sourceReviewCommit := b.sourceReviewCommit) == b
  {
    var x, y := ProvenanceValues(a), ProvenanceValues(b);
    RecordsAgree(PROVENANCE_FIELDS, x, y, {"source_review_commit"});
    assert PROVENANCE_FIELDS[0] != "source_review_commit" && PROVENANCE_FIELDS[1] != "source_review_commit";
    assert PROVENANCE_FIELDS[3] != "source_review_commit" && PROVENANCE_FIELDS[4] != "source_review_commit";
    assert PROVENANCE_FIELDS[5] != "source_review_commit";
    assert x[0] == y[0] && x[1] == y[1] && x[3] == y[3] && x[4] == y[4] && x[5] == y[5];
    assert a.generatorMode == b.generatorMode;
  }

  lemma ProvenanceInjective(a: Provenance, b: Provenance)
    requires DumpProvenance(a) == DumpProvenance(b)
    ensures a == b
  {
    ProvenanceAgrees(a, b);
    var x, y := ProvenanceValues(a), ProvenanceValues(b);
    RecordInjective(PROVENANCE_FIELDS, x, y);
    assert x[2] == y[2];
  }

  const WORKFLOW_NAMES: seq<string> := ["document_status", "index_eligible", "provenance"]

  const FACT_NAMES: seq<string> := [
    "document_id", "database", "table", "qualified_name", "owner", "reviewer", "schema_hash", "contract_version",
    "review_guideline_version", "transformation_guideline_version", "display_name", "summary", "description", "grain"]

  const LIST_NAMES: seq<string> := [
    "purpose", "appropriate_use", "inappropriate_use", "aliases", "freshness", "caveats", "business_evidence",
    "columns", "relationships", "business_rules", "data_quality", "security"]

  /** The workflow fields and the provenance come first, so that they are easily set apart. */
  const DOCUMENT_FIELDS := WORKFLOW_NAMES + (FACT_NAMES + LIST_NAMES)

  function WorkflowValues(d: PublishedDocument): (values: seq<Json>) {
    [JStr(d.documentStatus.Value()), JBool(d.indexEligible), DumpProvenance(d.provenance)]
  }

  function FactValues(d: PublishedDocument): (values: seq<Json>) {
    [JStr(d.documentId), JStr(d.database), JStr(d.table), JStr(d.qualifiedName), JStr(d.owner), JStr(d.reviewer),
     JStr(d.schemaHash), JStr(d.contractVersion), JStr(d.reviewGuidelineVersion),
     JStr(d.transformationGuidelineVersion), JStr(d.displayName), JStr(d.summary), JStr(d.description), JStr(d.grain)]
  }

  function ListValues(d: PublishedDocument): (values: seq<Json>) {
    [Strings(d.purpose), Strings(d.appropriateUse), Strings(d.inappropriateUse), Strings(d.aliases),
     JStr(d.freshness), Strings(d.caveats), Evidences(d.businessEvidence),
     JList(Each(d.columns, DumpColumn)), JList(Each(d.relationships, DumpRelationship)),
     JList(Each(d.businessRules, DumpRule)), Strings(d.dataQuality), Strings(d.security)]
  }

  function DocumentValues(d: PublishedDocument): (values: seq<Json>)
    ensures |values| == 29
  {
    WorkflowValues(d) + (FactValues(d) + ListValues(d))
  }

  function DumpDocument(d: PublishedDocument): (json: Json)
    ensures json.JObj?
  {
    Record(DOCUMENT_FIELDS, DocumentValues(d))
  }

  lemma FactsAgree(a: PublishedDocument, b: PublishedDocument)
    requires FactValues(a) == FactValues(b)
    ensures a.(documentId := b.documentId, database := b.database, table := b.table, qualifiedName := b.qualifiedName,
               owner := b.owner, reviewer := b.reviewer, schemaHash := b.schemaHash,
               contractVersion := b.contractVersion, reviewGuidelineVersion := b.reviewGuidelineVersion,
               transformationGuidelineVersion := b.transformationGuidelineVersion, displayName := b.displayName,
               summary := b.summary, description := b.description, grain := b.grain) == a
  {
    var x, y := FactValues(a), FactValues(b);
    assert x[0] == y[0] && x[1] == y[1] && x[2] == y[2] && x[3] == y[3] && x[4] == y[4] && x[5] == y[5];
    assert x[6] == y[6] && x[7] == y[7] && x[8] == y[8] && x[9] == y[9] && x[10] == y[10] && x[11] == y[11];
    assert x[12] == y[12] && x[13] == y[13];
  }

  lemma ListsAgree(a: PublishedDocument, b: PublishedDocument)
    requires ListValues(a) == ListValues(b)
    ensures a.(purpose := b.purpose, appropriateUse := b.appropriateUse, inappropriateUse := b.inappropriateUse,
               aliases := b.aliases, freshness := b.freshness, caveats := b.caveats,
               businessEvidence := b.businessEvidence, columns := b.columns, relationships := b.relationships,
               businessRules := b.businessRules, dataQuality := b.dataQuality, security := b.security) == a
  {
    hide Strings, Evidences;
    var x, y := ListValues(a), ListValues(b);
    assert x[0] == y[0] && x[1] == y[1] && x[2] == y[2] && x[3] == y[3] && x[4] == y[4] && x[5] == y[5];
    assert x[6] == y[6] && x[7] == y[7] && x[8] == y[8] && x[9] == y[9] && x[10] == y[10] && x[11] == y[11];
    StringsInjective(a.purpose, b.purpose);
    StringsInjective(a.appropriateUse, b.appropriateUse);
    StringsInjective(a.inappropriateUse, b.inappropriateUse);
    StringsInjective(a.aliases, b.aliases);
    StringsInjective(a.caveats, b.caveats);
    StringsInjective(a.dataQuality, b.dataQuality);
    StringsInjective(a.security, b.security);
    EvidencesInjective(a.businessEvidence, b.businessEvidence);
    PartsAgree(a, b);
  }

  lemma PartsAgree(a: PublishedDocument, b: PublishedDocument)
    requires Each(a.columns, DumpColumn) == Each(b.columns, DumpColumn)
    requires Each(a.relationships, DumpRelationship) == Each(b.relationships, DumpRelationship)
    requires Each(a.businessRules, DumpRule) == Each(b.businessRules, DumpRule)
    ensures a.columns == b.columns && a.relationships == b.relationships && a.businessRules == b.businessRules
  {
    ColumnInjective();
    RelationshipInjective();
    RuleInjective();
    EachInjective(a.columns, b.columns, DumpColumn);
    EachInjective(a.relationships, b.relationships, DumpRelationship);
    EachInjective(a.businessRules, b.businessRules, DumpRule);
  }

  function WithWorkflow(d: PublishedDocument, status: DocumentStatus, eligible: bool, provenance: Provenance): PublishedDocument {
    d.(documentStatus := status, indexEligible := eligible, provenance := provenance)
  }

  const WORKFLOW_FIELDS: set<string> := {"document_status", "index_eligible", "provenance"}

  lemma NamesConcat(a: seq<string>, b: seq<string>)
    requires DistinctNames(a) && DistinctNames(b)
    requires forall i, j :: 0 <= i < |a| && 0 <= j < |b| ==> a[i] != b[j]
    ensures DistinctNames(a + b)
  {
  }

  lemma FactNamesDistinct()
    ensures DistinctNames(FACT_NAMES) && |FACT_NAMES| == 14
  {
  }

  lemma ListNamesDistinct()
    ensures DistinctNames(LIST_NAMES) && |LIST_NAMES| == 12
  {
  }

  lemma FactsAndListsDiffer()
    ensures forall i, j :: 0 <= i < |FACT_NAMES| && 0 <= j < |LIST_NAMES| ==> FACT_NAMES[i] != LIST_NAMES[j]
  {
  }

  lemma FactsAreNoWorkflow()
    ensures forall i :: 0 <= i < |FACT_NAMES| ==> FACT_NAMES[i] !in WORKFLOW_FIELDS
  {
  }

  lemma ListsAreNoWorkflow()
    ensures forall i :: 0 <= i < |LIST_NAMES| ==> LIST_NAMES[i] !in WORKFLOW_FIELDS
  {
  }

  lemma WorkflowNames()
    ensures DistinctNames(WORKFLOW_NAMES) && |WORKFLOW_NAMES| == 3
    ensures forall i :: 0 <= i < |WORKFLOW_NAMES| ==> WORKFLOW_NAMES[i] in WORKFLOW_FIELDS
  {
  }

  lemma ContentNames()
    ensures |DOCUMENT_FIELDS| == 29 && DistinctNames(DOCUMENT_FIELDS)
    ensures forall i :: 3 <= i < 29 ==> DOCUMENT_FIELDS[i] !in WORKFLOW_FIELDS
  {
    hide WORKFLOW_NAMES, FACT_NAMES, LIST_NAMES, WORKFLOW_FIELDS;
    WorkflowNames();
    FactNamesDistinct();
    ListNamesDistinct();
    FactsAndListsDiffer();
    FactsAreNoWorkflow();
    ListsAreNoWorkflow();
    NamesConcat(FACT_NAMES, LIST_NAMES);
    var rest := FACT_NAMES + LIST_NAMES;
    forall i | 0 <= i < 26 ensures rest[i] !in WORKFLOW_FIELDS {
      if i >= 14 { assert rest[i] == LIST_NAMES[i - 14]; }
    }
    NamesConcat(WORKFLOW_NAMES, rest);
    assert forall i :: 3 <= i < 29 ==> DOCUMENT_FIELDS[i] == rest[i - 3];
  }

  lemma ValueCounts(d: PublishedDocument)
    ensures |WorkflowValues(d)| == 3 && |FactValues(d)| == 14 && |ListValues(d)| == 12
  {
  }

  lemma ContentSlices(w: seq<Json>, f: seq<Json>, l: seq<Json>)
    requires |w| == 3 && |f| == 14
    ensures (w + (f + l))[3..] == f + l
    ensures (f + l)[..14] == f && (f + l)[14..] == l
  {
  }

  /** Equal dumps off the workflow fields: the documents differ at most in those fields. */
  lemma ContentAgrees(a: PublishedDocument, b: PublishedDocument)
    requires Pop(DumpDocument(a), WORKFLOW_FIELDS) == Pop(DumpDocument(b), WORKFLOW_FIELDS)
    ensures WithWorkflow(a, b.documentStatus, b.indexEligible, b.provenance) == b
  {
    hide FactValues, ListValues, WorkflowValues, Record, Zip;
    ContentNames();
    var x, y := DocumentValues(a), DocumentValues(b);
    RecordsAgree(DOCUMENT_FIELDS, x, y, WORKFLOW_FIELDS);
    ValueCounts(a);
    ValueCounts(b);
    ContentSlices(WorkflowValues(a), FactValues(a), ListValues(a));
    ContentSlices(WorkflowValues(b), FactValues(b), ListValues(b));
    assert x[3..] == y[3..];
    FactsAgree(a, b);
    ListsAgree(a, b);
  }

  /** The dump without the workflow fields, except for the parts of the provenance that are kept. */
  function ContentPayload(d: PublishedDocument): Json {
    var dump := DumpDocument(d);
    JObj((dump.fields - {"document_status", "index_eligible"})
         ["provenance" := Pop(DumpProvenance(d.provenance), {"source_review_commit"})])
  }

  /** Two documents that differ at most in status, eligibility and source commit. */
  predicate SameNarrative(a: PublishedDocument, b: PublishedDocument) {
    WithWorkflow(a, b.documentStatus, b.indexEligible,
                 a.provenance.(sourceReviewCommit := b.provenance.sourceReviewCommit)) == b
  }

  lemma PayloadParts(d: PublishedDocument)
    ensures ContentPayload(d).fields - {"provenance"} == DumpDocument(d).fields - WORKFLOW_FIELDS
    ensures "provenance" in ContentPayload(d).fields
    ensures ContentPayload(d).fields["provenance"] == Pop(DumpProvenance(d.provenance), {"source_review_commit"})
  {
    hide Record;
    var fields := DumpDocument(d).fields;
    var p := Pop(DumpProvenance(d.provenance), {"source_review_commit"});
    assert (fields - {"document_status", "index_eligible"})["provenance" := p] - {"provenance"} == fields - WORKFLOW_FIELDS;
  }

  /** The payload tells exactly documents with another narrative apart. */
  lemma PayloadExact(a: PublishedDocument, b: PublishedDocument)
    ensures ContentPayload(a) == ContentPayload(b) <==> SameNarrative(a, b)
  {
    PayloadParts(a);
    PayloadParts(b);
    if ContentPayload(a) == ContentPayload(b) {
      hide ContentPayload, DumpDocument, DumpProvenance;
      ContentAgrees(a, b);
      ProvenanceAgrees(a.provenance, b.provenance);
    }
    if SameNarrative(a, b) {
      hide ContentPayload, FactValues, ListValues, ProvenanceValues;
      PoppedDocuments(a, b);
      PoppedProvenances(a.provenance, b.provenance);
      SplitPayload(a, b);
    }
  }

  lemma SplitPayload(a: PublishedDocument, b: PublishedDocument)
    requires Pop(DumpDocument(a), WORKFLOW_FIELDS) == Pop(DumpDocument(b), WORKFLOW_FIELDS)
    requires Pop(DumpProvenance(a.provenance), {"source_review_commit"})
             == Pop(DumpProvenance(b.provenance), {"source_review_commit"})
    ensures ContentPayload(a) == ContentPayload(b)
  {
    hide Record;
    var x, y := DumpDocument(a).fields, DumpDocument(b).fields;
    var p := Pop(DumpProvenance(a.provenance), {"source_review_commit"});
    assert (x - {"document_status", "index_eligible"})["provenance" := p] == (x - WORKFLOW_FIELDS)["provenance" := p];
    assert (y - {"document_status", "index_eligible"})["provenance" := p] == (y - WORKFLOW_FIELDS)["provenance" := p];
  }

  lemma PoppedDocuments(a: PublishedDocument, b: PublishedDocument)
    requires SameNarrative(a, b)
    ensures Pop(DumpDocument(a), WORKFLOW_FIELDS) == Pop(DumpDocument(b), WORKFLOW_FIELDS)
  {
    var x, y := DocumentValues(a), DocumentValues(b);
    assert FactValues(a) == FactValues(b) && ListValues(a) == ListValues(b);
    hide FactValues, ListValues;
    assert x[3..] == y[3..];
    forall i | 0 <= i < 29 && DOCUMENT_FIELDS[i] !in WORKFLOW_FIELDS ensures x[i] == y[i] {
      assert i >= 3;
      assert x[i] == x[3..][i - 3] && y[i] == y[3..][i - 3];
    }
    PoppedAgree(DOCUMENT_FIELDS, x, y, WORKFLOW_FIELDS);
  }

  lemma PoppedProvenances(a: Provenance, b: Provenance)
    requires a.(sourceReviewCommit := b.sourceReviewCommit) == b
    ensures Pop(DumpProvenance(a), {"source_review_commit"}) == Pop(DumpProvenance(b), {"source_review_commit"})
  {
    PoppedAgree(PROVENANCE_FIELDS, ProvenanceValues(a), ProvenanceValues(b), {"source_review_commit"});
  }

  lemma DocumentInjective(a: PublishedDocument, b: PublishedDocument)
    requires DumpDocument(a) == DumpDocument(b)
    ensures a == b
  {
    ContentAgrees(a, b);
    ContentNames();
    var x, y := DocumentValues(a), DocumentValues(b);
    RecordInjective(DOCUMENT_FIELDS, x, y);
    assert x[0] == y[0] && x[1] == y[1] && x[2] == y[2];
    assert a.documentStatus == b.documentStatus;
    ProvenanceInjective(a.provenance, b.provenance);
  }

  // ---- reviews ----

  const BUSINESS_FIELDS := [
    "display_name", "description", "grain", "purpose", "appropriate_use", "inappropriate_use", "aliases", "freshness",
    "caveats", "evidence"]

  function BusinessValues(b: BusinessMetadata): seq<Json> {
    [JStr(b.displayName), JStr(b.description), JStr(b.grain), Strings(b.purpose), Strings(b.appropriateUse),
     Strings(b.inappropriateUse), Strings(b.aliases), JStr(b.freshness), Strings(b.caveats), Evidences(b.evidence)]
  }

  function DumpBusiness(b: BusinessMetadata): Json {
    Record(BUSINESS_FIELDS, BusinessValues(b))
  }

  lemma BusinessInjective(a: BusinessMetadata, b: BusinessMetadata)
    requires DumpBusiness(a) == DumpBusiness(b)
    ensures a == b
  {
    hide Strings, Evidences;
    var x, y := BusinessValues(a), BusinessValues(b);
    RecordInjective(BUSINESS_FIELDS, x, y);
    assert x[0] == y[0] && x[1] == y[1] && x[2] == y[2] && x[3] == y[3] && x[4] == y[4];
    assert x[5] == y[5] && x[6] == y[6] && x[7] == y[7] && x[8] == y[8] && x[9] == y[9];
    StringsInjective(a.purpose, b.purpose);
    StringsInjective(a.appropriateUse, b.appropriateUse);
    StringsInjective(a.inappropriateUse, b.inappropriateUse);
    StringsInjective(a.aliases, b.aliases);
    StringsInjective(a.caveats, b.caveats);
    EvidencesInjective(a.evidence, b.evidence);
  }

  const COLUMN_REVIEW_FIELDS := [
    "business_name", "description", "semantic_type", "unit", "nullable_meaning", "sensitivity", "allowed_values",
    "caveats", "evidence"]

  function ColumnReviewValues(c: ColumnReview): seq<Json> {
    [JStr(c.businessName), JStr(c.description), JStr(c.semanticType), JStr(c.unit), JStr(c.nullableMeaning),
     JStr(c.sensitivity), Texts(c.allowedValues), Strings(c.caveats), Evidences(c.evidence)]
  }

  function DumpColumnReview(c: ColumnReview): Json {
    Record(COLUMN_REVIEW_FIELDS, ColumnReviewValues(c))
  }

  lemma ColumnReviewValuesInjective(a: ColumnReview, b: ColumnReview)
    requires ColumnReviewValues(a) == ColumnReviewValues(b)
    ensures a == b
  {
    hide Strings, Evidences, Texts;
    var x, y := ColumnReviewValues(a), ColumnReviewValues(b);
    assert x[0] == y[0] && x[1] == y[1] && x[2] == y[2] && x[3] == y[3] && x[4] == y[4];
    assert x[5] == y[5] && x[6] == y[6] && x[7] == y[7] && x[8] == y[8];
    TextsInjective(a.allowedValues, b.allowedValues);
    StringsInjective(a.caveats, b.caveats);
    EvidencesInjective(a.evidence, b.evidence);
  }

  lemma ColumnReviewInjective()
    ensures Injective(DumpColumnReview)
  {
    forall a, b | DumpColumnReview(a) == DumpColumnReview(b) ensures a == b {
      RecordInjective(COLUMN_REVIEW_FIELDS, ColumnReviewValues(a), ColumnReviewValues(b));
      ColumnReviewValuesInjective(a, b);
    }
  }

  const RELATIONSHIP_REVIEW_FIELDS := [
    "name", "from_columns", "to_table", "to_columns", "join_condition", "cardinality", "optional", "row_count_impact",
    "meaning", "evidence"]

  function RelationshipReviewValues(r: RelationshipReview): seq<Json> {
    [JStr(r.name), Strings(r.fromColumns), JStr(r.toTable), Strings(r.toColumns), JStr(r.joinCondition),
     JStr(r.cardinality.Value()), JBool(r.optional), JStr(r.rowCountImpact.Value()), JStr(r.meaning),
     Evidences(r.evidence)]
  }

  function DumpRelationshipReview(r: RelationshipReview): Json {
    Record(RELATIONSHIP_REVIEW_FIELDS, RelationshipReviewValues(r))
  }

  lemma RelationshipReviewValuesInjective(a: RelationshipReview, b: RelationshipReview)
    requires RelationshipReviewValues(a) == RelationshipReviewValues(b)
    ensures a == b
  {
    hide Strings, Evidences;
    var x, y := RelationshipReviewValues(a), RelationshipReviewValues(b);
    assert x[0] == y[0] && x[1] == y[1] && x[2] == y[2] && x[3] == y[3] && x[4] == y[4];
    assert x[5] == y[5] && x[6] == y[6] && x[7] == y[7] && x[8] == y[8] && x[9] == y[9];
    StringsInjective(a.fromColumns, b.fromColumns);
    StringsInjective(a.toColumns, b.toColumns);
    EvidencesInjective(a.evidence, b.evidence);
    CardinalitiesDiffer(a.cardinality, b.cardinality);
    ImpactsDiffer(a.rowCountImpact, b.rowCountImpact);
  }

  lemma RelationshipReviewInjective()
    ensures Injective(DumpRelationshipReview)
  {
    forall a, b | DumpRelationshipReview(a) == DumpRelationshipReview(b) ensures a == b {
      RecordInjective(RELATIONSHIP_REVIEW_FIELDS, RelationshipReviewValues(a), RelationshipReviewValues(b));
      RelationshipReviewValuesInjective(a, b);
    }
  }

  function DumpBusinessRule(r: BusinessRule): Json {
    Record(RULE_FIELDS, [JStr(r.name), JStr(r.description), Evidences(r.evidence)])
  }

  lemma BusinessRuleInjective()
    ensures Injective(DumpBusinessRule)
  {
    forall a, b | DumpBusinessRule(a) == DumpBusinessRule(b) ensures a == b {
      var x := [JStr(a.name), JStr(a.description), Evidences(a.evidence)];
      var y := [JStr(b.name), JStr(b.description), Evidences(b.evidence)];
      RecordInjective(RULE_FIELDS, x, y);
      assert x[0] == y[0] && x[1] == y[1] && x[2] == y[2];
      EvidencesInjective(a.evidence, b.evidence);
    }
  }

  const REVIEW_FIELDS := [
    "document_status", "contract_version", "review_guideline_version", "transformation_guideline_version",
    "source_scope", "database", "table", "owner", "reviewer", "schema_hash", "business", "columns", "relationships",
    "business_rules", "data_quality", "security"]

  function ReviewValues(r: ReviewDocument): (values: seq<Json>)
    ensures |values| == 16
  {
    [JStr(r.documentStatus.Value()), JStr(r.contractVersion), JStr(r.reviewGuidelineVersion),
     JStr(r.transformationGuidelineVersion), JStr("clickhouse"), JStr(r.database), JStr(r.table), JStr(r.owner),
     JStr(r.reviewer), JStr(r.schemaHash), DumpBusiness(r.business), JObj(EachValue(r.columns, DumpColumnReview)),
     JList(Each(r.relationships, DumpRelationshipReview)), JList(Each(r.businessRules, DumpBusinessRule)),
     Strings(r.dataQuality), Strings(r.security)]
  }

  function DumpReview(r: ReviewDocument): Json {
    Record(REVIEW_FIELDS, ReviewValues(r))
  }

  /** Equal dumps without the status: the reviews differ at most in it. */
  lemma ReviewContentAgrees(a: ReviewDocument, b: ReviewDocument)
    requires Pop(DumpReview(a), {"document_status"}) == Pop(DumpReview(b), {"document_status"})
    ensures a.(documentStatus := b.documentStatus) == b
  {
    hide ReviewValues, Record, REVIEW_FIELDS;
    ReviewNames();
    RecordsAgree(REVIEW_FIELDS, ReviewValues(a), ReviewValues(b), {"document_status"});
    ReviewValuesAgree(a, b);
  }

  lemma ReviewNames()
    ensures |REVIEW_FIELDS| == 16 && DistinctNames(REVIEW_FIELDS)
    ensures forall i :: 1 <= i < 16 ==> REVIEW_FIELDS[i] !in {"document_status"}
  {
    ReviewNamesDistinct();
  }

  lemma ReviewNamesDistinct()
    ensures DistinctNames(REVIEW_FIELDS)
  {
  }

  lemma ReviewValuesAgree(a: ReviewDocument, b: ReviewDocument)
    requires forall i :: 1 <= i < 16 ==> ReviewValues(a)[i] == ReviewValues(b)[i]
    ensures a.(documentStatus := b.documentStatus) == b
  {
    ReviewTextsAgree(a, b);
    ReviewListsAgree(a, b);
    hide ReviewValues;
  }

  lemma ReviewTextsAgree(a: ReviewDocument, b: ReviewDocument)
    requires forall i :: 1 <= i < 16 ==> ReviewValues(a)[i] == ReviewValues(b)[i]
    ensures a.contractVersion == b.contractVersion && a.reviewGuidelineVersion == b.reviewGuidelineVersion
    ensures a.transformationGuidelineVersion == b.transformationGuidelineVersion && a.schemaHash == b.schemaHash
    ensures a.database == b.database && a.table == b.table && a.owner == b.owner && a.reviewer == b.reviewer
  {
    hide Strings, DumpBusiness, EachValue, Each;
    var x, y := ReviewValues(a), ReviewValues(b);
    assert x[1] == y[1] && x[2] == y[2] && x[3] == y[3] && x[5] == y[5];
    assert x[6] == y[6] && x[7] == y[7] && x[8] == y[8] && x[9] == y[9];
  }

  lemma ReviewListsAgree(a: ReviewDocument, b: ReviewDocument)
    requires forall i :: 1 <= i < 16 ==> ReviewValues(a)[i] == ReviewValues(b)[i]
    ensures a.business == b.business && a.columns == b.columns && a.relationships == b.relationships
    ensures a.businessRules == b.businessRules && a.dataQuality == b.dataQuality && a.security == b.security
  {
    hide Strings, DumpBusiness, EachValue, Each;
    var x, y := ReviewValues(a), ReviewValues(b);
    assert x[10] == y[10] && x[11] == y[11] && x[12] == y[12] && x[13] == y[13] && x[14] == y[14] && x[15] == y[15];
    BusinessInjective(a.business, b.business);
    StringsInjective(a.dataQuality, b.dataQuality);
    StringsInjective(a.security, b.security);
    ReviewPartsAgree(a, b);
  }

  /** The payload of a review does not see its status. */
  lemma ReviewStatusPopped(r: ReviewDocument, status: DocumentStatus)
    ensures Pop(DumpReview(r.(documentStatus := status)), {"document_status"}) == Pop(DumpReview(r), {"document_status"})
  {
    PoppedAgree(REVIEW_FIELDS, ReviewValues(r), ReviewValues(r.(documentStatus := status)), {"document_status"});
  }

  lemma ReviewPartsAgree(a: ReviewDocument, b: ReviewDocument)
    requires EachValue(a.columns, DumpColumnReview) == EachValue(b.columns, DumpColumnReview)
    requires Each(a.relationships, DumpRelationshipReview) == Each(b.relationships, DumpRelationshipReview)
    requires Each(a.businessRules, DumpBusinessRule) == Each(b.businessRules, DumpBusinessRule)
    ensures a.columns == b.columns && a.relationships == b.relationships && a.businessRules == b.businessRules
  {
    ColumnReviewInjective();
    RelationshipReviewInjective();
    BusinessRuleInjective();
    EachValueInjective(a.columns, b.columns, DumpColumnReview);
    EachInjective(a.relationships, b.relationships, DumpRelationshipReview);
    EachInjective(a.businessRules, b.businessRules, DumpBusinessRule);
  }
}
