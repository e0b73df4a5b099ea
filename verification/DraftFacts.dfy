/** What a draft run writes and reports, and which errors the validator still finds afterwards. */
module DraftFacts {
  import opened Wrappers
  import opened Sorting
  import opened Dictionaries
  import opened Models
  import opened TblsSchema
  import opened SchemaHashing
  import opened ReviewValidation
  import opened Drafts
  import opened DraftTheorems

  // ---- what a new draft says ----

  /** A draft of this table for these versions, to be filled by a reviewer. */
  ghost predicate IsDraft(r: ReviewDocument, schema: DatabaseSchema, table: TableSchema, contract: ReviewContract, hash: SchemaHasher) {
    && r.contractVersion == contract.contractVersion && r.reviewGuidelineVersion == contract.reviewGuidelineVersion
    && r.transformationGuidelineVersion == contract.transformationGuidelineVersion
    && r.database == schema.name && r.table == table.name && r.owner == "unassigned" && r.reviewer == "unassigned"
    && r.documentStatus == NeedsReview && r.schemaHash == TableSchemaHash(schema, table, hash)
    && r.relationships == [] && r.businessRules == [] && r.security == []
    && r.dataQuality == ["Data quality expectations require reviewer confirmation."]
    && (forall name :: name in r.columns <==> exists c :: c in table.columns && c.name == name)
  }

  /** A table without review gets a draft, its columns each filled from their own definition. */
  lemma NewDraftSays(t: string, existing: map<string, Entry>, source: Source, tools: DraftTools)
    requires t in RawTables(source) && t !in existing
    ensures var table, r := RawTables(source)[t], ReviewAfter(t, existing, source, tools);
            && table.name == t && table in source.schema.tables
            && IsDraft(r, source.schema, table, source.contract, tools.hash)
            && r.business == tools.newBusiness(table, source.reference)
            && (DistinctKeys(table.columns, ColumnName) ==> FilledIn(r, table, source.reference, tools))
  {
    RawNamed(source, t);
    DictMembers(source.schema.tables, TableName, t);
    hide TableSchemaHash, TableMap, DictBy, FilledIn, NewReview, IsDraft, DistinctKeys;
    DraftSays(RawTables(source)[t], source, tools);
  }

  /** Every column is filled from its own definition. */
  ghost predicate FilledIn(r: ReviewDocument, table: TableSchema, reference: string, tools: DraftTools) {
    forall c :: c in table.columns ==> c.name in r.columns && r.columns[c.name] == tools.newColumn(table, c, reference)
  }

  lemma DraftSays(table: TableSchema, source: Source, tools: DraftTools)
    ensures var r := NewReview(table, source, tools);
            && IsDraft(r, source.schema, table, source.contract, tools.hash)
            && r.business == tools.newBusiness(table, source.reference)
            && (DistinctKeys(table.columns, ColumnName) ==> FilledIn(r, table, source.reference, tools))
  {
    hide TableSchemaHash;
    forall name { DictMembers(table.columns, ColumnName, name); }
    forall c | c in table.columns && DistinctKeys(table.columns, ColumnName)
      ensures ColumnName(c) in RawColumns(table) && DictBy(table.columns, ColumnName)[c.name] == c
    {
      DictLookup(table.columns, ColumnName, c);
    }
    hide DictBy, DistinctKeys;
    forall c | c in table.columns ensures c.name in RawColumns(table) { assert HasKey(table.columns, ColumnName, ColumnName(c)); }
  }

  // ---- which errors remain ----

  /** The errors a refresh cannot mend: they are about what the reviewer wrote. */
  predicate Remains(old_: ReviewDocument, schema: DatabaseSchema, contract: ReviewContract, table: TableSchema, lower: string -> string,
                    hash: SchemaHasher, f: Finding) {
    match f
    case Unexpected(field) => field == DatabaseField && old_.database != schema.name
    case UnknownColumnFound(c) => c in old_.columns && c !in ColumnNames(table)
    case UnknownRelationshipTable(_) => Reports(schema, contract, old_, lower, hash, f)
    case UnknownRelationshipColumn(_, _, _) => Reports(schema, contract, old_, lower, hash, f)
    case _ => false
  }

  /**
   * After a run the validator finds no error in a new draft, and in an open review exactly those that are
   * about what the reviewer wrote: a foreign database, orphaned columns and unresolved relationships.
   */
  lemma ErrorsAfter(t: string, existing: map<string, Entry>, source: Source, tools: DraftTools, lower: string -> string, f: Finding)
    requires t in RawTables(source) && (t in existing ==> existing[t].review.table == t)
    requires ReviewAfter(t, existing, source, tools).documentStatus == NeedsReview
    ensures IsReported(source, ReviewAfter(t, existing, source, tools), lower, tools.hash, f) <==>
              t in existing && Remains(existing[t].review, source.schema, source.contract, RawTables(source)[t], lower, tools.hash, f)
  {
    var table, r := RawTables(source)[t], ReviewAfter(t, existing, source, tools);
    DraftTheorems.Refreshed(t, existing, source, tools);
    WriteShape(t, existing, source, tools);
    RawNamed(source, t);
    Same(t, existing, source, tools);
    RefreshedMeans(table, r, source, tools);
    RawColumnsAreNames(table);
    hide WriteFor, ReviewAfter, TableMap, DictBy, ColumnNames, NewReview, Orphans, Added, NeedsWrite, RawColumns, TableSchemaHash;
    ErrorsOf(source, table, r, if t in existing then Some(existing[t].review) else None, lower, tools.hash, f);
  }

  lemma RefreshedMeans(table: TableSchema, r: ReviewDocument, source: Source, tools: DraftTools)
    requires !NeedsWrite(table, r, source, tools)
    ensures r.schemaHash == TableSchemaHash(source.schema, table, tools.hash) && !ContractChanged(r, source.contract)
    ensures forall c :: c in ColumnNames(table) ==> c in r.columns
  {
    hide TableSchemaHash;
    RawColumnsAreNames(table);
    forall c | c in ColumnNames(table) ensures c in r.columns {
      assert c !in Added(table, r);
    }
  }

  /** The errors of an open review that is up to date: those its old version has about what was written. */
  lemma ErrorsOf(source: Source, table: TableSchema, r: ReviewDocument, old_: Option<ReviewDocument>, lower: string -> string,
                 hash: SchemaHasher, f: Finding)
    requires r.table in TableMap(source.schema.tables) && TableMap(source.schema.tables)[r.table] == table
    requires r.documentStatus == NeedsReview && r.schemaHash == TableSchemaHash(source.schema, table, hash)
    requires !ContractChanged(r, source.contract) && forall c :: c in ColumnNames(table) ==> c in r.columns
    requires if old_.Some? then r.table == old_.value.table && r.database == old_.value.database && r.relationships == old_.value.relationships
                                && r.columns.Keys == old_.value.columns.Keys + ColumnNames(table)
             else r.database == source.schema.name && r.relationships == [] && r.columns.Keys == ColumnNames(table)
    ensures IsReported(source, r, lower, hash, f) <==>
              old_.Some? && Remains(old_.value, source.schema, source.contract, table, lower, hash, f)
  {
    hide TableMap, DictBy, ColumnNames, TableSchemaHash, RelationshipReports, ColumnReports;
  }

  /** The validator reports this for the review, as an error. */
  predicate IsReported(source: Source, review: ReviewDocument, lower: string -> string, hash: SchemaHasher, f: Finding) {
    Reports(source.schema, source.contract, review, lower, hash, f) && f.IsError(review.documentStatus)
  }

  /** What a run never changes of a review, and never puts into a new one. */
  lemma Same(t: string, existing: map<string, Entry>, source: Source, tools: DraftTools)
    requires t in RawTables(source)
    ensures var r := ReviewAfter(t, existing, source, tools);
            if t in existing then r.database == existing[t].review.database && r.relationships == existing[t].review.relationships
                                  && r.columns.Keys == existing[t].review.columns.Keys + RawColumns(RawTables(source)[t])
            else r.database == source.schema.name && r.relationships == [] && r.columns.Keys == RawColumns(RawTables(source)[t])
  {
    RawNamed(source, t);
    if t in existing {
      ColumnsAfter(RawTables(source)[t], existing[t].review, source, tools);
    }
  }

  lemma ColumnsAfter(table: TableSchema, review: ReviewDocument, source: Source, tools: DraftTools)
    ensures RefreshedReview(table, review, source, tools).columns.Keys == review.columns.Keys + RawColumns(table)
    ensures !NeedsWrite(table, review, source, tools) ==> review.columns.Keys == review.columns.Keys + RawColumns(table)
  {
    hide TableSchemaHash, DictBy;
    assert Added(table, review) == RawColumns(table) - review.columns.Keys;
    assert RefreshedReview(table, review, source, tools).columns.Keys == review.columns.Keys + Added(table, review);
    if !NeedsWrite(table, review, source, tools) {
      assert Added(table, review) == {};
      forall c | c in RawColumns(table) ensures c in review.columns {
        assert c !in Added(table, review);
      }
    }
  }

  // ---- what a run reports ----

  /** The action reported for a table says exactly what happened to its review. */
  lemma ResultTells(t: string, existing: map<string, Entry>, source: Source, tools: DraftTools)
    requires t in RawTables(source)
    ensures var table, result := RawTables(source)[t], ResultFor(RawTables(source)[t], existing, source, tools);
            var orphaned := t in existing && exists c :: c in existing[t].review.columns && c !in ColumnNames(table);
            var changed := t in existing && ReviewAfter(t, existing, source, tools) != existing[t].review;
            && result.table == t && result.path == Target(t, existing)
            && (result.action == Created <==> t !in existing)
            && (result.action == RequiresManualReview <==> orphaned)
            && (result.action == Refreshed <==> t in existing && !orphaned && changed)
            && (result.action == Unchanged <==> t in existing && !orphaned && !changed)
  {
    var table := RawTables(source)[t];
    RawNamed(source, t);
    RawColumnsAreNames(table);
    hide ColumnNames, SortedSet, TableMap, DictBy, TableSchemaHash;
    if t in existing {
      var review := existing[t].review;
      if NeedsWrite(table, review, source, tools) {
        WriteChanges(table, review, source, tools);
      }
      OrphansExactly(table, review);
    }
  }

  lemma OrphansExactly(table: TableSchema, review: ReviewDocument)
    ensures Orphans(table, review) != {} <==> exists c :: c in review.columns && c !in ColumnNames(table)
  {
    RawColumnsAreNames(table);
    hide ColumnNames;
    if c :| c in review.columns && c !in ColumnNames(table) {
      assert c in Orphans(table, review);
    }
  }

  /** A refresh always changes the review. */
  lemma WriteChanges(table: TableSchema, review: ReviewDocument, source: Source, tools: DraftTools)
    requires NeedsWrite(table, review, source, tools)
    ensures RefreshedReview(table, review, source, tools) != review
  {
    hide TableSchemaHash, DictBy;
    var r := RefreshedReview(table, review, source, tools);
    if Added(table, review) != {} {
      var c :| c in Added(table, review);
      assert c in r.columns && c !in review.columns;
    }
  }

  // ---- staleness ----

  /**
   * A review drafted or refreshed on one schema is reported stale on another exactly when the table's facts
   * changed in between: its database, itself, its columns or a relation touching it.
   */
  lemma StaleExactly(review: ReviewDocument, a: DatabaseSchema, t: TableSchema, b: DatabaseSchema, contract: ReviewContract,
                     lower: string -> string, hash: SchemaHasher)
    requires Injective(hash) && DistinctKeys(t.columns, ColumnName) && EndpointsDetermine(a.relations, t.name)
    requires review.schemaHash == TableSchemaHash(a, t, hash) && review.table in TableMap(b.tables)
    ensures Reports(b, contract, review, lower, hash, StaleHash) <==> !SameFacts(a, t, b, TableMap(b.tables)[review.table])
  {
    hide TableMap, TableSchemaHash, SameFacts, EndpointsDetermine, DistinctKeys;
    HashUnchangedExactly(a, t, b, TableMap(b.tables)[review.table], hash);
  }
}
