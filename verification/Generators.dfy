/** The deterministic document generator, and the live one that only rewrites narrative fields. */
module Generators {
  import opened Wrappers
  import opened Ordering
  import opened Sorting
  import opened Text
  import opened Models
  import opened TblsSchema
  import opened SchemaHashing

  datatype PublicationContext = PublicationContext(
    schema: DatabaseSchema,
    table: TableSchema,
    review: ReviewDocument,
    sourceSchemaPath: string,
    sourceReviewPath: string,
    sourceReviewCommit: string
  )

  datatype GenerationError =
    | DatabaseMismatch | TableMismatch | StaleSchemaHash | ColumnsMismatch
    | InvalidRecord
    | GatewayFailed | WorkflowStateMentioned | CardinalityChanged | KeysChanged

  // ---- deterministic generation ----

  function ContextError(context: PublicationContext, hash: SchemaHasher): Option<GenerationError> {
    if context.schema.name != context.review.database then Some(DatabaseMismatch)
    else if context.table.name != context.review.table then Some(TableMismatch)
    else if context.review.schemaHash != TableSchemaHash(context.schema, context.table, hash) then Some(StaleSchemaHash)
    else if ColumnNames(context.table) != context.review.columns.Keys then Some(ColumnsMismatch)
    else None
  }

  predicate IsTechnical(r: RelationSchema, context: PublicationContext, reviewed: RelationshipReview) {
    && r.table == context.table.name && r.columns == reviewed.fromColumns
    && r.parentTable == reviewed.toTable && r.parentColumns == reviewed.toColumns
  }

  /** The first declared relation with the reviewed endpoints. */
  function FindTechnical(relations: seq<RelationSchema>, context: PublicationContext, reviewed: RelationshipReview): Option<RelationSchema> {
    if relations == [] then None
    else if IsTechnical(relations[0], context, reviewed) then Some(relations[0])
    else FindTechnical(relations[1..], context, reviewed)
  }

  function RelationshipFor(context: PublicationContext, r: RelationshipReview): PublishedRelationship {
    var technical := FindTechnical(context.schema.relations, context, r);
    PublishedRelationship(
      r.name, context.table.name, r.fromColumns, r.toTable, r.toColumns, r.joinCondition, r.cardinality,
      r.optional, r.rowCountImpact, r.meaning,
      if technical.Some? then Some(technical.value.definition) else None,
      if technical.Some? then Some(technical.value.isVirtual) else None,
      r.evidence)
  }

  function ColumnFor(column: ColumnSchema, review: ColumnReview): PublishedColumn {
    PublishedColumn(
      column.name, column.dataType, column.nullable, column.comment, review.businessName, review.description,
      review.semanticType, review.unit, review.nullableMeaning, review.sensitivity, review.allowedValues,
      review.caveats, review.evidence)
  }

  function ColumnsFor(columns: seq<ColumnSchema>, reviews: map<string, ColumnReview>): (published: seq<PublishedColumn>)
    requires forall c :: c in columns ==> c.name in reviews
    ensures |published| == |columns|
    ensures forall i :: 0 <= i < |columns| ==>
              columns[i].name in reviews && published[i] == ColumnFor(columns[i], reviews[columns[i].name])
  {
    seq(|columns|, i requires 0 <= i < |columns| && columns[i].name in reviews => ColumnFor(columns[i], reviews[columns[i].name]))
  }

  function RelationshipsFor(context: PublicationContext): (published: seq<PublishedRelationship>)
    ensures |published| == |context.review.relationships|
    ensures forall i :: 0 <= i < |published| ==> published[i] == RelationshipFor(context, context.review.relationships[i])
  {
    seq(|context.review.relationships|, i requires 0 <= i < |context.review.relationships| => RelationshipFor(context, context.review.relationships[i]))
  }

  function RulesFor(rules: seq<BusinessRule>): (published: seq<PublishedRule>)
    ensures |published| == |rules|
    ensures forall i :: 0 <= i < |rules| ==> published[i] == PublishedRule(rules[i].name, rules[i].description, rules[i].evidence)
  {
    seq(|rules|, i requires 0 <= i < |rules| => PublishedRule(rules[i].name, rules[i].description, rules[i].evidence))
  }

  const DETERMINISTIC: string := "deterministic-v1"

  lemma SortedColumnsReviewed(columns: seq<ColumnSchema>, names: set<string>)
    requires (set c | c in columns :: c.name) == names
    ensures forall c :: c in SortBy(columns, ColumnName, StrLess) ==> c.name in names
  {
    SortMembers(columns, ColumnName, StrLess);
  }

  function BaselineDocument(context: PublicationContext): PublishedDocument
    requires ColumnNames(context.table) == context.review.columns.Keys
  {
    var review := context.review;
    var name := review.database + "." + review.table;
    SortedColumnsReviewed(context.table.columns, review.columns.Keys);
    PublishedDocument(
      name, review.database, review.table, name, review.owner, review.reviewer,
      review.documentStatus, review.documentStatus.Approved?, review.schemaHash,
      review.contractVersion, review.reviewGuidelineVersion, review.transformationGuidelineVersion,
      Provenance(context.sourceSchemaPath, context.sourceReviewPath, context.sourceReviewCommit,
                 Mock, DETERMINISTIC, DETERMINISTIC),
      review.business.displayName,
      review.business.description + " Grain: " + review.business.grain,
      review.business.description, review.business.grain,
      review.business.purpose, review.business.appropriateUse, review.business.inappropriateUse,
      review.business.aliases, review.business.freshness, review.business.caveats, review.business.evidence,
      ColumnsFor(SortBy(context.table.columns, ColumnName, StrLess), review.columns),
      RelationshipsFor(context), RulesFor(review.businessRules), review.dataQuality, review.security)
  }

  function Generate(context: PublicationContext, hash: SchemaHasher): Result<PublishedDocument, GenerationError> {
    var error := ContextError(context, hash);
    if error.Some? then Err(error.value)
    else
      var document := BaselineDocument(context);
      if document.Valid() then Ok(document) else Err(InvalidRecord)
  }

  // ---- live narrative ----

  datatype Narrative =
    | SummaryNarrative(summary: string)
    | ApprovedNarrative(
        summary: string,
        description: string,
        purpose: seq<string>,
        appropriateUse: seq<string>,
        inappropriateUse: seq<string>,
        columnDescriptions: map<string, string>,
        relationshipMeanings: map<string, string>,
        ruleDescriptions: map<string, string>
      )

  datatype LiveSettings = LiveSettings(model: string, promptVersion: string)

  function RedescribedColumns(columns: seq<PublishedColumn>, texts: map<string, string>): (r: seq<PublishedColumn>)
    requires forall c :: c in columns ==> c.name in texts
    ensures |r| == |columns|
    ensures forall i :: 0 <= i < |r| ==> columns[i].name in texts && r[i] == columns[i].(description := texts[columns[i].name])
  {
    seq(|columns|, i requires 0 <= i < |columns| && columns[i].name in texts => columns[i].(description := texts[columns[i].name]))
  }

  function RemeantRelationships(rs: seq<PublishedRelationship>, texts: map<string, string>): (r: seq<PublishedRelationship>)
    requires forall x :: x in rs ==> x.name in texts
    ensures |r| == |rs|
    ensures forall i :: 0 <= i < |r| ==> rs[i].name in texts && r[i] == rs[i].(meaning := texts[rs[i].name])
  {
    seq(|rs|, i requires 0 <= i < |rs| && rs[i].name in texts => rs[i].(meaning := texts[rs[i].name]))
  }

  function RedescribedRules(rules: seq<PublishedRule>, texts: map<string, string>): (r: seq<PublishedRule>)
    requires forall x :: x in rules ==> x.name in texts
    ensures |r| == |rules|
    ensures forall i :: 0 <= i < |r| ==> rules[i].name in texts && r[i] == rules[i].(description := texts[rules[i].name])
  {
    seq(|rules|, i requires 0 <= i < |rules| && rules[i].name in texts => rules[i].(description := texts[rules[i].name]))
  }

  /** List lengths and dictionary keys are those of the baseline. */
  predicate SameShape(baseline: PublishedDocument, response: Narrative)
    requires response.ApprovedNarrative?
  {
    && |baseline.purpose| == |response.purpose|
    && |baseline.appropriateUse| == |response.appropriateUse|
    && |baseline.inappropriateUse| == |response.inappropriateUse|
    && (set c | c in baseline.columns :: c.name) == response.columnDescriptions.Keys
    && (set r | r in baseline.relationships :: r.name) == response.relationshipMeanings.Keys
    && (set r | r in baseline.businessRules :: r.name) == response.ruleDescriptions.Keys
  }

  function Merged(baseline: PublishedDocument, response: Narrative): PublishedDocument
    requires response.ApprovedNarrative? && SameShape(baseline, response)
  {
    baseline.(
      summary := response.summary,
      description := response.description,
      purpose := response.purpose,
      appropriateUse := response.appropriateUse,
      inappropriateUse := response.inappropriateUse,
      columns := RedescribedColumns(baseline.columns, response.columnDescriptions),
      relationships := RemeantRelationships(baseline.relationships, response.relationshipMeanings),
      businessRules := RedescribedRules(baseline.businessRules, response.ruleDescriptions))
  }

  function Checked(document: PublishedDocument): Result<PublishedDocument, GenerationError> {
    if document.Valid() then Ok(document) else Err(InvalidRecord)
  }

  function ApplyApprovedNarrative(baseline: PublishedDocument, response: Narrative): Result<PublishedDocument, GenerationError>
    requires response.ApprovedNarrative?
  {
    if |baseline.purpose| != |response.purpose| || |baseline.appropriateUse| != |response.appropriateUse|
       || |baseline.inappropriateUse| != |response.inappropriateUse| then Err(CardinalityChanged)
    else if !SameShape(baseline, response) then Err(KeysChanged)
    else Checked(Merged(baseline, response))
  }

  /** The values of a dictionary, in key order. */
  function Texts(texts: map<string, string>): seq<string> {
    ValuesAt(texts, SortedSet(texts.Keys))
  }

  function ValuesAt(texts: map<string, string>, keys: seq<string>): seq<string>
    requires forall k :: k in keys ==> k in texts
  {
    seq(|keys|, i requires 0 <= i < |keys| && keys[i] in texts => texts[keys[i]])
  }

  function NarrativeValues(response: Narrative): seq<string> {
    match response
    case SummaryNarrative(summary) => [summary]
    case ApprovedNarrative(summary, description, purpose, appropriate, inappropriate, columns, relationships, rules) =>
      [summary, description] + purpose + appropriate + inappropriate + Texts(columns) + Texts(relationships) + Texts(rules)
  }

  const RESERVED_TERMS: seq<string> := ["needs_review", "needs review", "document_status", "index_eligible"]

  predicate MentionsWorkflow(value: string, casefold: string -> string) {
    exists term :: term in RESERVED_TERMS && Contains(casefold(value), term)
  }

  function LiveBaseline(baseline: PublishedDocument, settings: LiveSettings): PublishedDocument {
    baseline.(provenance := baseline.provenance.(
                generatorMode := Live, generatorModel := settings.model, promptVersion := settings.promptVersion))
  }

  /** `response` is what the gateway answered, `None` if it failed or answered in the wrong shape. */
  function GenerateLive(context: PublicationContext, hash: SchemaHasher, settings: LiveSettings,
                        response: Option<Narrative>, casefold: string -> string): Result<PublishedDocument, GenerationError> {
    var baseline := Generate(context, hash);
    if baseline.Err? then baseline
    else
      var expected := LiveBaseline(baseline.value, settings);
      if !expected.provenance.Valid() then Err(InvalidRecord)
      else if response.None? || response.value.ApprovedNarrative? != expected.documentStatus.Approved? then Err(GatewayFailed)
      else if exists value :: value in NarrativeValues(response.value) && MentionsWorkflow(value, casefold) then
        Err(WorkflowStateMentioned)
      else
        match response.value
        case SummaryNarrative(summary) => Checked(expected.(summary := summary))
        case ApprovedNarrative(_, _, _, _, _, _, _, _) => ApplyApprovedNarrative(expected, response.value)
  }

  // ---- what a generated document says ----

  /** The technical relation used is the first one declared with the reviewed endpoints. */
  lemma {:induction false} FindTechnicalFirst(relations: seq<RelationSchema>, context: PublicationContext, reviewed: RelationshipReview)
    ensures var found := FindTechnical(relations, context, reviewed);
            if found.None? then forall r :: r in relations ==> !IsTechnical(r, context, reviewed)
            else exists i :: 0 <= i < |relations| && relations[i] == found.value && IsTechnical(relations[i], context, reviewed)
                   && forall j :: 0 <= j < i ==> !IsTechnical(relations[j], context, reviewed)
    decreases |relations|
  {
    if relations != [] && !IsTechnical(relations[0], context, reviewed) {
      FindTechnicalFirst(relations[1..], context, reviewed);
      var found := FindTechnical(relations[1..], context, reviewed);
      if found.Some? {
        var i :| 0 <= i < |relations[1..]| && relations[1..][i] == found.value && IsTechnical(relations[1..][i], context, reviewed)
                 && forall j :: 0 <= j < i ==> !IsTechnical(relations[1..][j], context, reviewed);
        assert relations[i + 1] == found.value;
        forall j | 0 <= j < i + 1 ensures !IsTechnical(relations[j], context, reviewed) {
          if j > 0 { assert relations[j] == relations[1..][j - 1]; }
        }
      }
    }
  }

  /** A published column that merges one technical column with its review. */
  predicate Merges(p: PublishedColumn, c: ColumnSchema, r: ColumnReview) {
    && p.name == c.name && p.dataType == c.dataType && p.nullable == c.nullable && p.technicalComment == c.comment
    && p.businessName == r.businessName && p.description == r.description && p.semanticType == r.semanticType
    && p.unit == r.unit && p.nullableMeaning == r.nullableMeaning && p.sensitivity == r.sensitivity
    && p.allowedValues == r.allowedValues && p.caveats == r.caveats && p.evidence == r.evidence
  }

  function PublishedName(c: PublishedColumn): string {
    c.name
  }

  ghost predicate MergedFrom(p: PublishedColumn, columns: seq<ColumnSchema>, reviews: map<string, ColumnReview>) {
    exists c :: c in columns && c.name in reviews && Merges(p, c, reviews[c.name])
  }

  ghost predicate MergedInto(c: ColumnSchema, published: seq<PublishedColumn>, reviews: map<string, ColumnReview>) {
    exists p :: p in published && c.name in reviews && Merges(p, c, reviews[c.name])
  }

  lemma ColumnsMerged(columns: seq<ColumnSchema>, reviews: map<string, ColumnReview>)
    requires forall c :: c in columns ==> c.name in reviews
    ensures var published := ColumnsFor(columns, reviews);
            (forall p :: p in published ==> MergedFrom(p, columns, reviews))
            && (forall c :: c in columns ==> MergedInto(c, published, reviews))
  {
    var published := ColumnsFor(columns, reviews);
    forall i | 0 <= i < |columns|
      ensures MergedFrom(published[i], columns, reviews) && MergedInto(columns[i], published, reviews)
    {
      assert columns[i] in columns && published[i] in published;
      assert Merges(published[i], columns[i], reviews[columns[i].name]);
    }
  }

  lemma ColumnsInOrder(columns: seq<ColumnSchema>, reviews: map<string, ColumnReview>)
    requires forall c :: c in columns ==> c.name in reviews
    requires Ordered(columns, ColumnName, StrLess) && DistinctKeys(ColumnsFor(columns, reviews), PublishedName)
    ensures StrictlyOrdered(ColumnsFor(columns, reviews), PublishedName, StrLess)
  {
    hide StrLess;
    StrLessTotal();
    var published := ColumnsFor(columns, reviews);
    forall i, j | 0 <= i < j < |published| ensures StrLess(PublishedName(published[i]), PublishedName(published[j])) {
      assert !StrLess(ColumnName(columns[j]), ColumnName(columns[i]));
      assert PublishedName(published[i]) != PublishedName(published[j]);
    }
  }

  lemma GeneratedIs(context: PublicationContext, hash: SchemaHasher)
    requires Generate(context, hash).Ok?
    ensures forall c :: c in SortBy(context.table.columns, ColumnName, StrLess) ==> c.name in context.review.columns
    ensures var d := Generate(context, hash).value;
            && d.columns == ColumnsFor(SortBy(context.table.columns, ColumnName, StrLess), context.review.columns)
            && DistinctKeys(d.columns, PublishedName)
            && (d.indexEligible <==> context.review.documentStatus.Approved?)
            && d.schemaHash == TableSchemaHash(context.schema, context.table, hash)
  {
    hide SortBy, TableSchemaHash;
    SortedColumnsReviewed(context.table.columns, context.review.columns.Keys);
    assert Generate(context, hash).value.Consistent();
  }

  /**
   * A generated document lists the table's columns in strict name order, each merged with the review of its
   * name, no column missing and none twice, and is eligible exactly when the review is approved.
   */
  lemma GeneratedColumns(context: PublicationContext, hash: SchemaHasher)
    requires Generate(context, hash).Ok?
    ensures var d, reviews := Generate(context, hash).value, context.review.columns;
            && StrictlyOrdered(d.columns, PublishedName, StrLess)
            && |d.columns| == |context.table.columns|
            && (forall p :: p in d.columns ==> MergedFrom(p, context.table.columns, reviews))
            && (forall c :: c in context.table.columns ==> MergedInto(c, d.columns, reviews))
            && (d.indexEligible <==> context.review.documentStatus.Approved?)
            && d.schemaHash == TableSchemaHash(context.schema, context.table, hash)
  {
    hide SortBy, StrLess, TableSchemaHash, Generate, ColumnsFor, Merges, StrictlyOrdered, DistinctKeys;
    var sorted := SortBy(context.table.columns, ColumnName, StrLess);
    GeneratedIs(context, hash);
    SortMembers(context.table.columns, ColumnName, StrLess);
    StrLessTotal();
    SortOrdered(context.table.columns, ColumnName, StrLess);
    ColumnsInOrder(sorted, context.review.columns);
    ColumnsMerged(sorted, context.review.columns);
    assert forall c :: c in sorted <==> c in context.table.columns;
  }
}
