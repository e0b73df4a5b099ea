/** The frozen records the components exchange, and the checks their constructors make. */
module Models {
  import opened Wrappers
  import opened Sorting
  import opened Dictionaries

  // ---- technical schema ----

  datatype ColumnSchema = ColumnSchema(name: string, dataType: string, nullable: bool, comment: string)

  datatype TableSchema = TableSchema(name: string, tableType: string, comment: string, columns: seq<ColumnSchema>)

  datatype RelationSchema = RelationSchema(
    table: string,
    columns: seq<string>,
    parentTable: string,
    parentColumns: seq<string>,
    definition: string,
    isVirtual: bool
  )

  datatype DatabaseSchema = DatabaseSchema(
    name: string,
    description: string,
    tables: seq<TableSchema>,
    relations: seq<RelationSchema>
  )

  // ---- reviewer metadata ----

  datatype DocumentStatus = NeedsReview | Approved {
    function Value(): string {
      match this
      case NeedsReview => "needs_review"
      case Approved => "approved"
    }
  }

  datatype EvidenceStatus = Confirmed | Proposed | Unsettled | Conflicting {
    function Value(): string {
      match this
      case Confirmed => "confirmed"
      case Proposed => "proposed"
      case Unsettled => "unknown"
      case Conflicting => "conflicting"
    }
  }

  datatype EvidenceKind =
    | ClickhouseDdl | ClickhouseComment | TblsRelation | ValidationQuery | Dashboard
    | Ticket | Policy | OwnerConfirmation | UnknownKind
  {
    function Value(): string {
      match this
      case ClickhouseDdl => "clickhouse_ddl"
      case ClickhouseComment => "clickhouse_comment"
      case TblsRelation => "tbls_relation"
      case ValidationQuery => "validation_query"
      case Dashboard => "dashboard"
      case Ticket => "ticket"
      case Policy => "policy"
      case OwnerConfirmation => "owner_confirmation"
      case UnknownKind => "unknown"
    }
  }

  datatype Cardinality = OneToOne | OneToMany | ManyToOne | ManyToMany | UnknownCardinality {
    function Value(): string {
      match this
      case OneToOne => "one_to_one"
      case OneToMany => "one_to_many"
      case ManyToOne => "many_to_one"
      case ManyToMany => "many_to_many"
      case UnknownCardinality => "unknown"
    }
  }

  datatype RowCountImpact = Preserves | MayIncrease | MayDecrease | UnknownImpact {
    function Value(): string {
      match this
      case Preserves => "preserves"
      case MayIncrease => "may_increase"
      case MayDecrease => "may_decrease"
      case UnknownImpact => "unknown"
    }
  }

  datatype Evidence = Evidence(kind: EvidenceKind, reference: string, status: EvidenceStatus, note: string)

  datatype BusinessMetadata = BusinessMetadata(
    displayName: string,
    description: string,
    grain: string,
    purpose: seq<string>,
    appropriateUse: seq<string>,
    inappropriateUse: seq<string>,
    aliases: seq<string>,
    freshness: string,
    caveats: seq<string>,
    evidence: seq<Evidence>
  )

  datatype ColumnReview = ColumnReview(
    businessName: string,
    description: string,
    semanticType: string,
    unit: string,
    nullableMeaning: string,
    sensitivity: string,
    allowedValues: map<string, string>,
    caveats: seq<string>,
    evidence: seq<Evidence>
  )

  datatype RelationshipReview = RelationshipReview(
    name: string,
    fromColumns: seq<string>,
    toTable: string,
    toColumns: seq<string>,
    joinCondition: string,
    cardinality: Cardinality,
    optional: bool,
    rowCountImpact: RowCountImpact,
    meaning: string,
    evidence: seq<Evidence>
  )

  datatype BusinessRule = BusinessRule(name: string, description: string, evidence: seq<Evidence>)

  /** The `source_scope` field admits one literal only, so it is not a field here. */
  datatype ReviewDocument = ReviewDocument(
    contractVersion: string,
    reviewGuidelineVersion: string,
    transformationGuidelineVersion: string,
    database: string,
    table: string,
    owner: string,
    reviewer: string,
    documentStatus: DocumentStatus,
    schemaHash: string,
    business: BusinessMetadata,
    columns: map<string, ColumnReview>,
    relationships: seq<RelationshipReview>,
    businessRules: seq<BusinessRule>,
    dataQuality: seq<string>,
    security: seq<string>
  )

  datatype ReviewContract = ReviewContract(
    contractVersion: string,
    reviewGuidelineVersion: string,
    transformationGuidelineVersion: string
  )

  // ---- published documents and chunks ----

  datatype GeneratorMode = Mock | Live {
    function Value(): string {
      match this
      case Mock => "mock"
      case Live => "live"
    }
  }

  datatype ChunkType = TableOverview | ColumnGroup | Relationship | BusinessRuleChunk | QualityAndSecurity {
    function Value(): string {
      match this
      case TableOverview => "table_overview"
      case ColumnGroup => "column_group"
      case Relationship => "relationship"
      case BusinessRuleChunk => "business_rule"
      case QualityAndSecurity => "quality_and_security"
    }
  }

  datatype Provenance = Provenance(
    sourceSchemaPath: string,
    sourceReviewPath: string,
    sourceReviewCommit: string,
    generatorMode: GeneratorMode,
    generatorModel: string,
    promptVersion: string
  ) {
    predicate Valid() {
      && sourceSchemaPath != "" && sourceReviewPath != "" && IsCommit(sourceReviewCommit)
      && generatorModel != "" && promptVersion != ""
    }
  }

  datatype PublishedColumn = PublishedColumn(
    name: string,
    dataType: string,
    nullable: bool,
    technicalComment: string,
    businessName: string,
    description: string,
    semanticType: string,
    unit: string,
    nullableMeaning: string,
    sensitivity: string,
    allowedValues: map<string, string>,
    caveats: seq<string>,
    evidence: seq<Evidence>
  ) {
    predicate Valid() {
      && name != "" && dataType != "" && businessName != "" && description != "" && semanticType != ""
      && unit != "" && nullableMeaning != "" && sensitivity != "" && evidence != []
    }
  }

  datatype PublishedRelationship = PublishedRelationship(
    name: string,
    fromTable: string,
    fromColumns: seq<string>,
    toTable: string,
    toColumns: seq<string>,
    joinCondition: string,
    cardinality: Cardinality,
    optional: bool,
    rowCountImpact: RowCountImpact,
    meaning: string,
    technicalDefinition: Option<string>,
    isVirtual: Option<bool>,
    evidence: seq<Evidence>
  ) {
    predicate Valid() {
      && name != "" && fromTable != "" && fromColumns != [] && toTable != "" && toColumns != []
      && joinCondition != "" && meaning != "" && evidence != []
    }
  }

  datatype PublishedRule = PublishedRule(name: string, description: string, evidence: seq<Evidence>) {
    predicate Valid() {
      name != "" && description != "" && evidence != []
    }
  }

  datatype PublishedDocument = PublishedDocument(
    documentId: string,
    database: string,
    table: string,
    qualifiedName: string,
    owner: string,
    reviewer: string,
    documentStatus: DocumentStatus,
    indexEligible: bool,
    schemaHash: string,
    contractVersion: string,
    reviewGuidelineVersion: string,
    transformationGuidelineVersion: string,
    provenance: Provenance,
    displayName: string,
    summary: string,
    description: string,
    grain: string,
    purpose: seq<string>,
    appropriateUse: seq<string>,
    inappropriateUse: seq<string>,
    aliases: seq<string>,
    freshness: string,
    caveats: seq<string>,
    businessEvidence: seq<Evidence>,
    columns: seq<PublishedColumn>,
    relationships: seq<PublishedRelationship>,
    businessRules: seq<PublishedRule>,
    dataQuality: seq<string>,
    security: seq<string>
  ) {
    /** The identity and eligibility validator. */
    predicate Consistent() {
      && documentId == database + "." + table
      && qualifiedName == database + "." + table
      && indexEligible == documentStatus.Approved?
      && (forall i, j :: 0 <= i < j < |columns| ==> columns[i].name != columns[j].name)
    }

    /** The minimum lengths and patterns of the fields. */
    predicate FieldsValid() {
      && owner != "" && reviewer != "" && IsDigest(schemaHash)
      && contractVersion != "" && reviewGuidelineVersion != "" && transformationGuidelineVersion != ""
      && provenance.Valid() && displayName != "" && summary != "" && description != "" && grain != ""
      && database != "" && table != ""
      && purpose != [] && appropriateUse != [] && inappropriateUse != [] && freshness != ""
      && businessEvidence != [] && columns != []
      && (forall i :: 0 <= i < |columns| ==> columns[i].Valid())
      && (forall i :: 0 <= i < |relationships| ==> relationships[i].Valid())
      && (forall i :: 0 <= i < |businessRules| ==> businessRules[i].Valid())
    }

    /** Everything the record's constructor checks. */
    predicate Valid() {
      Consistent() && FieldsValid()
    }
  }

  /** Everything in a chunk but its hash: what the hash is computed from. */
  datatype ChunkBody = ChunkBody(
    chunkId: string,
    parentDocumentId: string,
    semanticKey: string,
    chunkType: ChunkType,
    database: string,
    table: string,
    qualifiedName: string,
    documentStatus: DocumentStatus,
    indexEligible: bool,
    schemaHash: string,
    contractVersion: string,
    reviewGuidelineVersion: string,
    transformationGuidelineVersion: string,
    sourceReviewPath: string,
    sourceReviewCommit: string,
    generatorMode: GeneratorMode,
    generatorModel: string,
    promptVersion: string,
    content: string,
    evidence: seq<Evidence>
  )

  datatype Chunk = Chunk(body: ChunkBody, bodyHash: string) {
    /** The identity and eligibility validator. */
    ghost predicate Consistent() {
      && body.qualifiedName == body.database + "." + body.table
      && body.parentDocumentId == body.qualifiedName + "::document"
      && body.chunkId == body.qualifiedName + "::" + body.chunkType.Value() + "::" + body.semanticKey
      && body.indexEligible == body.documentStatus.Approved?
    }
  }

  function ChunkIdOf(chunk: Chunk): string {
    chunk.body.chunkId
  }

  // ---- hexadecimal fields ----

  predicate IsHex(s: string) {
    forall i :: 0 <= i < |s| ==> '0' <= s[i] <= '9' || 'a' <= s[i] <= 'f'
  }

  /** A SHA-256 value in lower-case hexadecimal. */
  predicate IsDigest(s: string) {
    |s| == 64 && IsHex(s)
  }

  predicate IsCommit(s: string) {
    7 <= |s| <= 64 && IsHex(s)
  }

  // ---- index manifest ----

  datatype IndexedDocument = IndexedDocument(
    documentId: string,
    schemaHash: string,
    sourceReviewCommit: string,
    transformationGuidelineVersion: string,
    chunks: seq<Chunk>
  ) {
    /** The validators of one indexed document. */
    predicate Valid() {
      && documentId != "" && IsDigest(schemaHash) && IsCommit(sourceReviewCommit)
      && transformationGuidelineVersion != ""
      && chunks != []
      && (forall c :: c in chunks ==> c.body.parentDocumentId == documentId + "::document")
      && (forall c :: c in chunks ==> c.body.indexEligible)
      && (forall c :: c in chunks ==> SameVersion(c))
      && |DictBy(chunks, ChunkIdOf)| == |chunks|
    }

    predicate SameVersion(c: Chunk) {
      && c.body.schemaHash == schemaHash
      && c.body.sourceReviewCommit == sourceReviewCommit
      && c.body.transformationGuidelineVersion == transformationGuidelineVersion
    }
  }

  function DocumentIdOf(document: IndexedDocument): string {
    document.documentId
  }

  datatype IndexManifest = IndexManifest(
    sourceCommit: string,
    documents: seq<IndexedDocument>,
    manifestHash: string
  )

  /** All chunks of a manifest in document order. */
  function ManifestChunks(documents: seq<IndexedDocument>): seq<Chunk> {
    if documents == [] then [] else documents[0].chunks + ManifestChunks(documents[1..])
  }
}
