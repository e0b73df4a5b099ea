/** What a published document says, field by field, in terms of the schema and the review it is made from. */
module DocumentFacts {
  import opened Wrappers
  import opened Ordering
  import opened Sorting
  import opened Text
  import opened Models
  import opened TblsSchema
  import opened SchemaHashing
  import opened Generators
  import opened PublishedValidation

  // ---- the facts ----

  /** Whose document it is, of which version and state, and what it was made from. */
  predicate SaysIdentity(d: PublishedDocument, c: PublicationContext) {
    var r := c.review;
    && d.documentId == r.database + "." + r.table && d.qualifiedName == r.database + "." + r.table
    && d.database == r.database && d.table == r.table && d.owner == r.owner && d.reviewer == r.reviewer
    && d.documentStatus == r.documentStatus && (d.indexEligible <==> r.documentStatus == Approved)
    && d.schemaHash == r.schemaHash && d.contractVersion == r.contractVersion
    && d.reviewGuidelineVersion == r.reviewGuidelineVersion
    && d.transformationGuidelineVersion == r.transformationGuidelineVersion
    && d.provenance.sourceSchemaPath == c.sourceSchemaPath && d.provenance.sourceReviewPath == c.sourceReviewPath
    && d.provenance.sourceReviewCommit == c.sourceReviewCommit
  }

  predicate SaysBusiness(d: PublishedDocument, r: ReviewDocument) {
    && d.displayName == r.business.displayName && d.grain == r.business.grain && d.aliases == r.business.aliases
    && d.freshness == r.business.freshness && d.caveats == r.business.caveats
    && d.businessEvidence == r.business.evidence && d.dataQuality == r.dataQuality && d.security == r.security
  }

  /** The texts a live generator may rewrite in an approved document. */
  predicate SaysNarrative(d: PublishedDocument, r: ReviewDocument) {
    && d.description == r.business.description && d.purpose == r.business.purpose
    && d.appropriateUse == r.business.appropriateUse && d.inappropriateUse == r.business.inappropriateUse
  }

  /** A technical column with the review of its name; the description aside. */
  predicate SaysColumn(p: PublishedColumn, t: ColumnSchema, r: ColumnReview) {
    && p.name == t.name && p.dataType == t.dataType && p.nullable == t.nullable && p.technicalComment == t.comment
    && p.businessName == r.businessName && p.semanticType == r.semanticType && p.unit == r.unit
    && p.nullableMeaning == r.nullableMeaning && p.sensitivity == r.sensitivity
    && p.allowedValues == r.allowedValues && p.caveats == r.caveats && p.evidence == r.evidence
  }

  ghost predicate FromColumn(p: PublishedColumn, c: PublicationContext) {
    exists t :: t in c.table.columns && t.name in c.review.columns && SaysColumn(p, t, c.review.columns[t.name])
  }

  ghost predicate HasColumn(d: PublishedDocument, name: string) {
    exists p :: p in d.columns && p.name == name
  }

  /** The table's columns, in strict name order, none missing. */
  ghost predicate SaysColumns(d: PublishedDocument, c: PublicationContext) {
    && StrictlyOrdered(d.columns, PublishedName, StrLess)
    && (forall p :: p in d.columns ==> FromColumn(p, c))
    && (forall t :: t in c.table.columns ==> HasColumn(d, t.name))
  }

  /** A declared relation with the endpoints of the reviewed one. */
  predicate Declares(t: RelationSchema, table: string, r: RelationshipReview) {
    t.table == table && t.columns == r.fromColumns && t.parentTable == r.toTable && t.parentColumns == r.toColumns
  }

  ghost predicate DeclaresFirst(relations: seq<RelationSchema>, i: nat, table: string, r: RelationshipReview) {
    i < |relations| && Declares(relations[i], table, r) && forall j :: 0 <= j < i ==> !Declares(relations[j], table, r)
  }

  ghost predicate Undeclared(relations: seq<RelationSchema>, table: string, r: RelationshipReview) {
    forall i :: 0 <= i < |relations| ==> !Declares(relations[i], table, r)
  }

  /** The definition and the virtual flag are those of the first declared relation, if there is one. */
  ghost predicate SaysTechnical(p: PublishedRelationship, relations: seq<RelationSchema>, table: string, r: RelationshipReview) {
    || (Undeclared(relations, table, r) && p.technicalDefinition.None? && p.isVirtual.None?)
    || exists i: nat :: DeclaresFirst(relations, i, table, r)
         && p.technicalDefinition == Some(relations[i].definition) && p.isVirtual == Some(relations[i].isVirtual)
  }

  /** A reviewed relationship with what the schema declares about it; the meaning aside. */
  ghost predicate SaysRelationship(p: PublishedRelationship, r: RelationshipReview, c: PublicationContext) {
    && p.name == r.name && p.fromTable == c.table.name && p.fromColumns == r.fromColumns
    && p.toTable == r.toTable && p.toColumns == r.toColumns && p.joinCondition == r.joinCondition
    && p.cardinality == r.cardinality && p.optional == r.optional && p.rowCountImpact == r.rowCountImpact
    && p.evidence == r.evidence && SaysTechnical(p, c.schema.relations, c.table.name, r)
  }

  ghost predicate SaysRelationships(d: PublishedDocument, c: PublicationContext) {
    && |d.relationships| == |c.review.relationships|
    && forall i :: 0 <= i < |d.relationships| ==> SaysRelationship(d.relationships[i], c.review.relationships[i], c)
  }

  predicate SaysRules(d: PublishedDocument, r: ReviewDocument) {
    && |d.businessRules| == |r.businessRules|
    && forall i :: 0 <= i < |d.businessRules| ==>
         d.businessRules[i].name == r.businessRules[i].name && d.businessRules[i].evidence == r.businessRules[i].evidence
  }

  /** The facts no generator may change. */
  ghost predicate SaysFacts(d: PublishedDocument, c: PublicationContext) {
    SaysIdentity(d, c) && SaysBusiness(d, c.review) && SaysColumns(d, c) && SaysRelationships(d, c) && SaysRules(d, c.review)
  }

  /** Every description and meaning is the reviewer's own. */
  predicate SaysTexts(d: PublishedDocument, r: ReviewDocument) {
    && SaysNarrative(d, r) && DescribesColumns(d, r)
    && |d.relationships| == |r.relationships| && |d.businessRules| == |r.businessRules|
    && (forall i :: 0 <= i < |d.relationships| ==> d.relationships[i].meaning == r.relationships[i].meaning)
    && (forall i :: 0 <= i < |d.businessRules| ==> d.businessRules[i].description == r.businessRules[i].description)
  }

  /** Relationships of one name share their meaning, rules of one name their description. */
  predicate OneTextPerName(d: PublishedDocument) {
    && (forall i, j :: 0 <= i < j < |d.relationships| && d.relationships[i].name == d.relationships[j].name ==>
          d.relationships[i].meaning == d.relationships[j].meaning)
    && (forall i, j :: 0 <= i < j < |d.businessRules| && d.businessRules[i].name == d.businessRules[j].name ==>
          d.businessRules[i].description == d.businessRules[j].description)
  }

  /** The review fits the table: names, schema hash and columns. */
  predicate Fits(c: PublicationContext, hash: SchemaHasher) {
    && c.review.database == c.schema.name && c.review.table == c.table.name
    && c.review.schemaHash == TableSchemaHash(c.schema, c.table, hash)
    && (forall t :: t in c.table.columns ==> t.name in c.review.columns)
    && (forall name :: name in c.review.columns ==> exists t :: t in c.table.columns && t.name == name)
  }

  // ---- the deterministic document ----

  /** Generation stops exactly for a review that does not fit, or when the record is not valid. */
  lemma GeneratesExactly(c: PublicationContext, hash: SchemaHasher)
    ensures Fits(c, hash) <==> ContextError(c, hash).None?
    ensures Generate(c, hash).Ok? <==> Fits(c, hash) && BaselineDocument(c).Valid()
  {
    hide TableSchemaHash, BaselineDocument;
    if Fits(c, hash) {
      assert ColumnNames(c.table) == c.review.columns.Keys;
    }
  }

  lemma BaselineTechnical(c: PublicationContext, r: RelationshipReview)
    ensures SaysTechnical(RelationshipFor(c, r), c.schema.relations, c.table.name, r)
  {
    FindTechnicalFirst(c.schema.relations, c, r);
    hide FindTechnical;
    var found := FindTechnical(c.schema.relations, c, r);
    if found.Some? {
      var i :| 0 <= i < |c.schema.relations| && c.schema.relations[i] == found.value && IsTechnical(c.schema.relations[i], c, r)
               && forall j :: 0 <= j < i ==> !IsTechnical(c.schema.relations[j], c, r);
      assert DeclaresFirst(c.schema.relations, i, c.table.name, r);
    } else {
      forall i | 0 <= i < |c.schema.relations| ensures !Declares(c.schema.relations[i], c.table.name, r) {
        assert !IsTechnical(c.schema.relations[i], c, r);
      }
    }
  }

  lemma BaselineParts(c: PublicationContext, hash: SchemaHasher)
    requires Generate(c, hash).Ok?
    ensures var d := Generate(c, hash).value;
            d.relationships == RelationshipsFor(c) && d.businessRules == RulesFor(c.review.businessRules)
  {
    hide TableSchemaHash;
  }

  lemma BaselineColumns(c: PublicationContext, hash: SchemaHasher)
    requires Generate(c, hash).Ok?
    ensures SaysColumns(Generate(c, hash).value, c) && DescribesColumns(Generate(c, hash).value, c.review)
  {
    GeneratedColumns(c, hash);
    hide Generate, StrictlyOrdered, TableSchemaHash;
    MergedSays(Generate(c, hash).value, c);
  }

  predicate DescribesColumns(d: PublishedDocument, r: ReviewDocument) {
    forall p :: p in d.columns ==> p.name in r.columns && p.description == r.columns[p.name].description
  }

  lemma MergedSays(d: PublishedDocument, c: PublicationContext)
    requires StrictlyOrdered(d.columns, PublishedName, StrLess)
    requires forall p :: p in d.columns ==> MergedFrom(p, c.table.columns, c.review.columns)
    requires forall t :: t in c.table.columns ==> MergedInto(t, d.columns, c.review.columns)
    ensures SaysColumns(d, c) && DescribesColumns(d, c.review)
  {
    hide StrictlyOrdered;
    forall p | p in d.columns
      ensures FromColumn(p, c) && p.name in c.review.columns && p.description == c.review.columns[p.name].description
    {
      assert MergedFrom(p, c.table.columns, c.review.columns);
      var t :| t in c.table.columns && t.name in c.review.columns && Merges(p, t, c.review.columns[t.name]);
      assert SaysColumn(p, t, c.review.columns[t.name]);
    }
    forall t | t in c.table.columns ensures HasColumn(d, t.name) {
      assert MergedInto(t, d.columns, c.review.columns);
    }
  }

  lemma BaselineRelationships(c: PublicationContext, hash: SchemaHasher)
    requires Generate(c, hash).Ok?
    ensures var d := Generate(c, hash).value;
            && SaysRelationships(d, c)
            && forall i :: 0 <= i < |d.relationships| ==> d.relationships[i].meaning == c.review.relationships[i].meaning
  {
    BaselineParts(c, hash);
    hide Generate, SaysTechnical;
    var d := Generate(c, hash).value;
    forall i | 0 <= i < |d.relationships|
      ensures SaysRelationship(d.relationships[i], c.review.relationships[i], c)
      ensures d.relationships[i].meaning == c.review.relationships[i].meaning
    {
      BaselineTechnical(c, c.review.relationships[i]);
    }
  }

  lemma BaselineRest(c: PublicationContext, hash: SchemaHasher)
    requires Generate(c, hash).Ok?
    ensures var d := Generate(c, hash).value;
            && SaysIdentity(d, c) && SaysBusiness(d, c.review) && SaysNarrative(d, c.review)
            && d.summary == c.review.business.description + " Grain: " + c.review.business.grain
            && d.provenance.generatorMode == Mock
            && d.provenance.generatorModel == "deterministic-v1" && d.provenance.promptVersion == "deterministic-v1"
  {
    hide TableSchemaHash;
  }

  /**
   * The deterministic document says exactly what the schema declares and the reviewer wrote, each in its
   * place, with the description and the grain as its summary.
   */
  lemma BaselineSays(c: PublicationContext, hash: SchemaHasher)
    requires Generate(c, hash).Ok?
    ensures var d := Generate(c, hash).value;
            && SaysFacts(d, c) && SaysTexts(d, c.review)
            && d.summary == c.review.business.description + " Grain: " + c.review.business.grain
            && d.provenance.generatorMode == Mock
            && d.provenance.generatorModel == "deterministic-v1" && d.provenance.promptVersion == "deterministic-v1"
  {
    BaselineRest(c, hash);
    BaselineColumns(c, hash);
    BaselineRelationships(c, hash);
    BaselineParts(c, hash);
    hide Generate, SaysColumns, SaysRelationships, SaysIdentity, SaysBusiness, SaysNarrative;
  }

  // ---- the fact lock ----

  /** What an accepted document says: every fact, and every text unless a live generator may rewrite it. */
  ghost predicate Faithful(d: PublishedDocument, c: PublicationContext) {
    && SaysFacts(d, c)
    && (if d.provenance.generatorMode == Live && d.documentStatus == Approved then OneTextPerName(d) else SaysTexts(d, c.review))
  }

  lemma ColumnSources(columns: seq<ColumnSchema>, published: seq<PublishedColumn>, reviews: map<string, ColumnReview>)
    requires |published| == |columns| && DistinctKeys(published, PublishedName)
    requires forall i :: 0 <= i < |columns| ==> published[i].name == columns[i].name
    ensures DistinctKeys(columns, ColumnName)
  {
    forall i, j | 0 <= i < j < |columns| ensures ColumnName(columns[i]) != ColumnName(columns[j]) {
      assert PublishedName(published[i]) != PublishedName(published[j]);
    }
  }

  /** Generation succeeds only for tables without repeated column names. */
  lemma TableColumnsDistinct(c: PublicationContext, hash: SchemaHasher)
    requires Generate(c, hash).Ok?
    ensures DistinctKeys(c.table.columns, ColumnName)
  {
    GeneratedIs(c, hash);
    hide Generate, SortBy;
    var sorted := SortBy(c.table.columns, ColumnName, StrLess);
    ColumnSources(sorted, Generate(c, hash).value.columns, c.review.columns);
    SortMultiset(c.table.columns, ColumnName, StrLess);
    DistinctPermuted(sorted, c.table.columns, ColumnName);
  }

  function PublishedNames(columns: seq<PublishedColumn>): (names: seq<string>)
    ensures |names| == |columns| && forall i :: 0 <= i < |names| ==> names[i] == columns[i].name
  {
    seq(|columns|, i requires 0 <= i < |columns| => columns[i].name)
  }

  lemma NamesOfColumns(d: PublishedDocument, c: PublicationContext)
    requires SaysColumns(d, c)
    ensures StrictlySorted(PublishedNames(d.columns))
    ensures forall name :: name in PublishedNames(d.columns) <==> exists t :: t in c.table.columns && t.name == name
  {
    hide StrLess;
    var names := PublishedNames(d.columns);
    forall i, j | 0 <= i < j < |names| ensures StrLess(names[i], names[j]) {
      assert StrLess(PublishedName(d.columns[i]), PublishedName(d.columns[j]));
    }
    forall name | name in names ensures exists t :: t in c.table.columns && t.name == name {
      var i :| 0 <= i < |names| && names[i] == name;
      assert d.columns[i] in d.columns && FromColumn(d.columns[i], c);
    }
    forall t | t in c.table.columns ensures t.name in names {
      assert HasColumn(d, t.name);
      var p :| p in d.columns && p.name == t.name;
      var i :| 0 <= i < |d.columns| && d.columns[i] == p;
      assert names[i] == t.name;
    }
  }

  lemma ColumnsOnce(columns: seq<ColumnSchema>, s: ColumnSchema, t: ColumnSchema)
    requires DistinctKeys(columns, ColumnName) && s in columns && t in columns && s.name == t.name
    ensures s == t
  {
    var i :| 0 <= i < |columns| && columns[i] == s;
    var j :| 0 <= j < |columns| && columns[j] == t;
    assert ColumnName(columns[i]) == ColumnName(columns[j]);
    assert i == j;
  }

  /** Two documents that say the same columns differ at most in their descriptions. */
  lemma ColumnsAgree(a: PublishedDocument, b: PublishedDocument, c: PublicationContext)
    requires SaysColumns(a, c) && SaysColumns(b, c) && DistinctKeys(c.table.columns, ColumnName)
    ensures PublishedValidation.SameColumns(a.columns, b.columns)
  {
    NamesOfColumns(a, c);
    NamesOfColumns(b, c);
    hide StrictlyOrdered, DistinctKeys;
    StrictlySortedUnique(PublishedNames(a.columns), PublishedNames(b.columns));
    forall i | 0 <= i < |a.columns| ensures b.columns[i] == a.columns[i].(description := b.columns[i].description) {
      var p, q := a.columns[i], b.columns[i];
      assert p.name == PublishedNames(a.columns)[i] && q.name == PublishedNames(b.columns)[i];
      assert p in a.columns && q in b.columns && FromColumn(p, c) && FromColumn(q, c);
      var s :| s in c.table.columns && s.name in c.review.columns && SaysColumn(p, s, c.review.columns[s.name]);
      var t :| t in c.table.columns && t.name in c.review.columns && SaysColumn(q, t, c.review.columns[t.name]);
      ColumnsOnce(c.table.columns, s, t);
    }
  }

  lemma TechnicalAgrees(p: PublishedRelationship, q: PublishedRelationship, relations: seq<RelationSchema>, table: string, r: RelationshipReview)
    requires SaysTechnical(p, relations, table, r) && SaysTechnical(q, relations, table, r)
    ensures p.technicalDefinition == q.technicalDefinition && p.isVirtual == q.isVirtual
  {
    if !Undeclared(relations, table, r) {
      var i: nat :| DeclaresFirst(relations, i, table, r)
        && p.technicalDefinition == Some(relations[i].definition) && p.isVirtual == Some(relations[i].isVirtual);
      var j: nat :| DeclaresFirst(relations, j, table, r)
        && q.technicalDefinition == Some(relations[j].definition) && q.isVirtual == Some(relations[j].isVirtual);
      assert i == j;
    }
  }

  lemma RelationshipsAgree(a: PublishedDocument, b: PublishedDocument, c: PublicationContext)
    requires SaysRelationships(a, c) && SaysRelationships(b, c)
    ensures |a.relationships| == |b.relationships|
    ensures forall i :: 0 <= i < |a.relationships| ==> b.relationships[i] == a.relationships[i].(meaning := b.relationships[i].meaning)
  {
    hide SaysTechnical;
    forall i | 0 <= i < |a.relationships| ensures b.relationships[i] == a.relationships[i].(meaning := b.relationships[i].meaning) {
      assert SaysRelationship(a.relationships[i], c.review.relationships[i], c);
      assert SaysRelationship(b.relationships[i], c.review.relationships[i], c);
      TechnicalAgrees(a.relationships[i], b.relationships[i], c.schema.relations, c.table.name, c.review.relationships[i]);
    }
  }

  lemma RulesAgree(a: PublishedDocument, b: PublishedDocument, r: ReviewDocument)
    requires SaysRules(a, r) && SaysRules(b, r)
    ensures |a.businessRules| == |b.businessRules|
    ensures forall i :: 0 <= i < |a.businessRules| ==>
              b.businessRules[i] == a.businessRules[i].(description := b.businessRules[i].description)
  {
  }

  /** Two documents that say the same facts differ at most in their texts and in their generator. */
  lemma FactsAgree(a: PublishedDocument, b: PublishedDocument, c: PublicationContext)
    requires SaysFacts(a, c) && SaysFacts(b, c) && DistinctKeys(c.table.columns, ColumnName)
    ensures b == a.(
              summary := b.summary, provenance := WithGenerator(a.provenance, b.provenance),
              description := b.description, purpose := b.purpose, appropriateUse := b.appropriateUse,
              inappropriateUse := b.inappropriateUse, columns := b.columns,
              relationships := b.relationships, businessRules := b.businessRules)
    ensures PublishedValidation.SameColumns(a.columns, b.columns)
    ensures |a.relationships| == |b.relationships|
    ensures forall i :: 0 <= i < |a.relationships| ==> b.relationships[i] == a.relationships[i].(meaning := b.relationships[i].meaning)
    ensures |a.businessRules| == |b.businessRules|
    ensures forall i :: 0 <= i < |a.businessRules| ==>
              b.businessRules[i] == a.businessRules[i].(description := b.businessRules[i].description)
  {
    ColumnsAgree(a, b, c);
    RelationshipsAgree(a, b, c);
    RulesAgree(a, b, c.review);
    hide SaysColumns, SaysRelationships, SaysRules, DistinctKeys, PublishedValidation.SameColumns;
  }

  /** Descriptions that agree too leave the parts equal. */
  lemma TextsAgree(a: PublishedDocument, b: PublishedDocument, r: ReviewDocument)
    requires SaysTexts(a, r) && SaysTexts(b, r)
    requires PublishedValidation.SameColumns(a.columns, b.columns)
    requires forall i :: 0 <= i < |a.relationships| == |b.relationships| ==>
               b.relationships[i] == a.relationships[i].(meaning := b.relationships[i].meaning)
    requires forall i :: 0 <= i < |a.businessRules| == |b.businessRules| ==>
               b.businessRules[i] == a.businessRules[i].(description := b.businessRules[i].description)
    ensures a.columns == b.columns && a.relationships == b.relationships && a.businessRules == b.businessRules
  {
    forall i | 0 <= i < |a.columns| ensures a.columns[i] == b.columns[i] {
      assert a.columns[i] in a.columns && b.columns[i] in b.columns;
    }
    forall i | 0 <= i < |a.relationships| ensures a.relationships[i] == b.relationships[i] {}
    forall i | 0 <= i < |a.businessRules| ensures a.businessRules[i] == b.businessRules[i] {}
  }

  /** What differs from a faithful document only as the lock permits is faithful. */
  lemma PermittedFaithful(a: PublishedDocument, b: PublishedDocument, c: PublicationContext)
    requires SaysFacts(a, c) && SaysTexts(a, c.review) && Permitted(a, b)
    ensures Faithful(b, c)
  {
    if WidelyRewritten(b) {
      ColumnsPermitted(a, b, c);
      RelationshipsPermitted(a, b, c);
    }
    hide SaysColumns, SaysRelationships;
  }

  lemma ColumnsPermitted(a: PublishedDocument, b: PublishedDocument, c: PublicationContext)
    requires SaysColumns(a, c) && PublishedValidation.SameColumns(a.columns, b.columns)
    ensures SaysColumns(b, c)
  {
    hide StrLess;
    forall i | 0 <= i < |b.columns| ensures FromColumn(b.columns[i], c) {
      assert a.columns[i] in a.columns && FromColumn(a.columns[i], c);
      var t :| t in c.table.columns && t.name in c.review.columns && SaysColumn(a.columns[i], t, c.review.columns[t.name]);
      assert SaysColumn(b.columns[i], t, c.review.columns[t.name]);
    }
    forall t | t in c.table.columns ensures HasColumn(b, t.name) {
      assert HasColumn(a, t.name);
      var p :| p in a.columns && p.name == t.name;
      var i :| 0 <= i < |a.columns| && a.columns[i] == p;
      assert b.columns[i] in b.columns;
    }
    forall i, j | 0 <= i < j < |b.columns| ensures StrLess(PublishedName(b.columns[i]), PublishedName(b.columns[j])) {
      assert StrLess(PublishedName(a.columns[i]), PublishedName(a.columns[j]));
    }
  }

  lemma RelationshipsPermitted(a: PublishedDocument, b: PublishedDocument, c: PublicationContext)
    requires SaysRelationships(a, c) && PublishedValidation.SameRelationships(a.relationships, b.relationships)
    ensures SaysRelationships(b, c)
  {
    forall i | 0 <= i < |b.relationships| ensures SaysRelationship(b.relationships[i], c.review.relationships[i], c) {
      var p, q, r := a.relationships[i], b.relationships[i], c.review.relationships[i];
      assert SaysRelationship(p, r, c) && q == p.(meaning := q.meaning);
      if !Undeclared(c.schema.relations, c.table.name, r) {
        var k: nat :| DeclaresFirst(c.schema.relations, k, c.table.name, r)
          && p.technicalDefinition == Some(c.schema.relations[k].definition) && p.isVirtual == Some(c.schema.relations[k].isVirtual);
        assert SaysTechnical(q, c.schema.relations, c.table.name, r);
      }
    }
  }

  /**
   * The fact lock accepts exactly the faithful documents of a review that fits its table: every fact in its
   * place, and every text the reviewer's own, but for the summary and, in an approved document a live
   * generator wrote, the narrative, of which one name has one.
   */
  lemma LockExactly(c: PublicationContext, d: PublishedDocument, hash: SchemaHasher)
    ensures PublishedIssues(c, d, hash) == [] <==> Generate(c, hash).Ok? && Faithful(d, c)
  {
    AcceptsExactly(c, d, hash);
    hide PublishedIssues;
    if Generate(c, hash).Ok? {
      var a := Generate(c, hash).value;
      BaselineSays(c, hash);
      TableColumnsDistinct(c, hash);
      hide Generate, SaysFacts, SaysTexts, DistinctKeys, PublishedValidation.SameColumns;
      if Permitted(a, d) {
        PermittedFaithful(a, d, c);
      }
      if Faithful(d, c) {
        FactsAgree(a, d, c);
        if !WidelyRewritten(d) {
          TextsAgree(a, d, c.review);
          NarrativesAgree(a, d, c.review);
        }
      }
    }
  }

  lemma NarrativesAgree(a: PublishedDocument, b: PublishedDocument, r: ReviewDocument)
    requires SaysTexts(a, r) && SaysTexts(b, r)
    ensures a.description == b.description && a.purpose == b.purpose
    ensures a.appropriateUse == b.appropriateUse && a.inappropriateUse == b.inappropriateUse
  {
  }

  // ---- live documents ----

  /** No word about the state of the review. */
  predicate SilentOnState(text: string, casefold: string -> string) {
    var folded := casefold(text);
    && !Contains(folded, "needs_review") && !Contains(folded, "needs review")
    && !Contains(folded, "document_status") && !Contains(folded, "index_eligible")
  }

  /** The narrative of an approved live document is the answer's, each text in its own place. */
  predicate TellsAnswer(d: PublishedDocument, answer: Narrative)
    requires answer.ApprovedNarrative?
  {
    && d.summary == answer.summary && d.description == answer.description && d.purpose == answer.purpose
    && d.appropriateUse == answer.appropriateUse && d.inappropriateUse == answer.inappropriateUse
    && (forall p :: p in d.columns ==> p.name in answer.columnDescriptions && p.description == answer.columnDescriptions[p.name])
    && (forall p :: p in d.relationships ==> p.name in answer.relationshipMeanings && p.meaning == answer.relationshipMeanings[p.name])
    && (forall p :: p in d.businessRules ==> p.name in answer.ruleDescriptions && p.description == answer.ruleDescriptions[p.name])
  }

  /** No rewritten text speaks of the review's state. */
  predicate TextsSilent(d: PublishedDocument, casefold: string -> string) {
    && SilentOnState(d.summary, casefold)
    && (d.documentStatus == Approved ==>
          && SilentOnState(d.description, casefold)
          && (forall text :: text in d.purpose + d.appropriateUse + d.inappropriateUse ==> SilentOnState(text, casefold))
          && (forall p :: p in d.columns ==> SilentOnState(p.description, casefold))
          && (forall p :: p in d.relationships ==> SilentOnState(p.meaning, casefold))
          && (forall p :: p in d.businessRules ==> SilentOnState(p.description, casefold)))
  }

  lemma TextsHold(texts: map<string, string>, name: string)
    requires name in texts
    ensures texts[name] in Texts(texts)
  {
    var names := SortedSet(texts.Keys);
    assert name in names;
    var i :| 0 <= i < |names| && names[i] == name;
    assert ValuesAt(texts, names)[i] == texts[name];
  }

  lemma SilentExactly(text: string, casefold: string -> string)
    ensures MentionsWorkflow(text, casefold) <==> !SilentOnState(text, casefold)
  {
    hide Contains;
    var folded := casefold(text);
    assert RESERVED_TERMS[0] == "needs_review" && RESERVED_TERMS[1] == "needs review";
    assert RESERVED_TERMS[2] == "document_status" && RESERVED_TERMS[3] == "index_eligible";
    forall i | 0 <= i < 4 && Contains(folded, RESERVED_TERMS[i]) ensures MentionsWorkflow(text, casefold) {
      assert RESERVED_TERMS[i] in RESERVED_TERMS;
    }
  }

  /** The texts of a merged document are the answer's, and so among those that were looked at. */
  lemma MergedTells(baseline: PublishedDocument, answer: Narrative, d: PublishedDocument)
    requires answer.ApprovedNarrative? && SameShape(baseline, answer) && d == Merged(baseline, answer)
    ensures TellsAnswer(d, answer)
    ensures d.provenance == baseline.provenance && d.documentStatus == baseline.documentStatus
  {
    forall i | 0 <= i < |d.columns|
      ensures d.columns[i].name in answer.columnDescriptions
      ensures d.columns[i].description == answer.columnDescriptions[d.columns[i].name]
    {
      assert baseline.columns[i] in baseline.columns;
    }
    forall i | 0 <= i < |d.relationships|
      ensures d.relationships[i].name in answer.relationshipMeanings
      ensures d.relationships[i].meaning == answer.relationshipMeanings[d.relationships[i].name]
    {
      assert baseline.relationships[i] in baseline.relationships;
    }
    forall i | 0 <= i < |d.businessRules|
      ensures d.businessRules[i].name in answer.ruleDescriptions
      ensures d.businessRules[i].description == answer.ruleDescriptions[d.businessRules[i].name]
    {
      assert baseline.businessRules[i] in baseline.businessRules;
    }
  }

  lemma AnswerSilent(d: PublishedDocument, answer: Narrative, casefold: string -> string)
    requires answer.ApprovedNarrative? && TellsAnswer(d, answer)
    requires forall value :: value in NarrativeValues(answer) ==> !MentionsWorkflow(value, casefold)
    ensures TextsSilent(d, casefold)
  {
    hide SilentOnState, MentionsWorkflow, Texts;
    var values := NarrativeValues(answer);
    forall text | text in values ensures SilentOnState(text, casefold) { SilentExactly(text, casefold); }
    assert d.summary == values[0] && d.description == values[1];
    forall text | text in d.purpose + d.appropriateUse + d.inappropriateUse ensures text in values {}
    forall p | p in d.columns ensures p.description in values { TextsHold(answer.columnDescriptions, p.name); }
    forall p | p in d.relationships ensures p.meaning in values { TextsHold(answer.relationshipMeanings, p.name); }
    forall p | p in d.businessRules ensures p.description in values { TextsHold(answer.ruleDescriptions, p.name); }
  }

  /**
   * A live document keeps every fact, names its model and prompt, takes each text from its own place in the
   * answer (only the summary while the review is open), and is silent about the review's state.
   */
  lemma LiveSays(c: PublicationContext, hash: SchemaHasher, settings: LiveSettings, response: Option<Narrative>,
                 casefold: string -> string, d: PublishedDocument)
    requires GenerateLive(c, hash, settings, response, casefold) == Ok(d)
    ensures SaysFacts(d, c) && d.provenance.generatorMode == Live
    ensures d.provenance.generatorModel == settings.model && d.provenance.promptVersion == settings.promptVersion
    ensures response.Some? && (response.value.ApprovedNarrative? <==> c.review.documentStatus == Approved)
    ensures if c.review.documentStatus == Approved then TellsAnswer(d, response.value)
            else SaysTexts(d, c.review) && d.summary == response.value.summary
    ensures TextsSilent(d, casefold)
  {
    LiveAccepted(c, hash, settings, response, casefold, d);
    LockExactly(c, d, hash);
    LiveShape(c, hash, settings, response, casefold, d);
    hide GenerateLive, Generate, SaysFacts, SaysTexts, PublishedIssues, TellsAnswer, SilentOnState, MentionsWorkflow, NarrativeValues;
    if response.value.ApprovedNarrative? {
      AnswerSilent(d, response.value, casefold);
    } else {
      SilentExactly(response.value.summary, casefold);
    }
  }

  lemma LiveShape(c: PublicationContext, hash: SchemaHasher, settings: LiveSettings, response: Option<Narrative>,
                  casefold: string -> string, d: PublishedDocument)
    requires GenerateLive(c, hash, settings, response, casefold) == Ok(d)
    ensures d.provenance.generatorMode == Live && d.documentStatus == c.review.documentStatus
    ensures d.provenance.generatorModel == settings.model && d.provenance.promptVersion == settings.promptVersion
    ensures response.Some? && (response.value.ApprovedNarrative? <==> c.review.documentStatus == Approved)
    ensures forall value :: value in NarrativeValues(response.value) ==> !MentionsWorkflow(value, casefold)
    ensures if response.value.ApprovedNarrative? then TellsAnswer(d, response.value)
            else d.summary == response.value.summary && !MentionsWorkflow(d.summary, casefold)
  {
    BaselineStatus(c, hash);
    hide Generate, TellsAnswer, MentionsWorkflow, SameShape, Merged;
    var expected := LiveBaseline(Generate(c, hash).value, settings);
    var answer := response.value;
    if answer.ApprovedNarrative? {
      hide NarrativeValues;
      assert SameShape(expected, answer) && d == Merged(expected, answer);
      MergedTells(expected, answer, d);
    } else {
      assert answer.summary == NarrativeValues(answer)[0];
    }
  }

  /** An answer the generator accepts for a review in this state: of its shape, and silent about the state. */
  ghost predicate Usable(baseline: PublishedDocument, answer: Narrative, casefold: string -> string) {
    && (answer.ApprovedNarrative? <==> baseline.documentStatus == Approved)
    && (forall value :: value in NarrativeValues(answer) ==> !MentionsWorkflow(value, casefold))
    && (answer.ApprovedNarrative? ==> SameShape(baseline, answer))
  }

  /** Live generation succeeds exactly for a fitting review, a named model, and a usable answer that makes a valid record. */
  lemma LiveSucceedsExactly(c: PublicationContext, hash: SchemaHasher, settings: LiveSettings, response: Option<Narrative>,
                            casefold: string -> string)
    ensures GenerateLive(c, hash, settings, response, casefold).Ok? <==>
              && Generate(c, hash).Ok? && settings.model != "" && settings.promptVersion != ""
              && response.Some?
              && var expected := LiveBaseline(Generate(c, hash).value, settings);
                 Usable(expected, response.value, casefold)
                 && (if response.value.ApprovedNarrative? then Merged(expected, response.value) else expected.(summary := response.value.summary)).Valid()
  {
    if Generate(c, hash).Ok? {
      BaselineProvenance(c, hash);
    }
    hide Generate, MentionsWorkflow, SameShape, Merged, NarrativeValues, PublishedDocument.Valid;
    if Generate(c, hash).Ok? && response.Some? && response.value.ApprovedNarrative? {
      if SameShape(LiveBaseline(Generate(c, hash).value, settings), response.value) {
        ShapeLengths(LiveBaseline(Generate(c, hash).value, settings), response.value);
      }
    }
  }

  lemma BaselineProvenance(c: PublicationContext, hash: SchemaHasher)
    requires Generate(c, hash).Ok?
    ensures Generate(c, hash).value.provenance.Valid()
  {
  }

  lemma ShapeLengths(baseline: PublishedDocument, answer: Narrative)
    requires answer.ApprovedNarrative? && SameShape(baseline, answer)
    ensures |baseline.purpose| == |answer.purpose| && |baseline.appropriateUse| == |answer.appropriateUse|
    ensures |baseline.inappropriateUse| == |answer.inappropriateUse|
  {
  }

  lemma BaselineStatus(c: PublicationContext, hash: SchemaHasher)
    requires Generate(c, hash).Ok?
    ensures Generate(c, hash).value.documentStatus == c.review.documentStatus
  {
  }
}
