/** Exactly which reviews pass the preflight, and what a clean preflight guarantees a generator. */
module PreflightFacts {
  import opened Wrappers
  import opened Sorting
  import opened Dictionaries
  import opened Text
  import opened Models
  import opened TblsSchema
  import opened SchemaHashing
  import opened SchemaSummary
  import opened ReviewValidation
  import opened Generators
  import opened DocumentFacts
  import opened CandidatePlanning
  import opened CandidateSync
  import opened CurrentCandidates

  // ---- a review that blocks nothing ----

  predicate OfVersion(review: ReviewDocument, contract: ReviewContract) {
    && review.contractVersion == contract.contractVersion
    && review.reviewGuidelineVersion == contract.reviewGuidelineVersion
    && review.transformationGuidelineVersion == contract.transformationGuidelineVersion
  }

  ghost predicate HasColumn(t: TableSchema, name: string) {
    exists c :: c in t.columns && c.name == name
  }

  /** The hash is that of the table as it is, and the reviewed columns are the table's. */
  ghost predicate Describes(review: ReviewDocument, schema: DatabaseSchema, t: TableSchema, hash: SchemaHasher) {
    && review.schemaHash == TableSchemaHash(schema, t, hash)
    && forall name :: name in review.columns <==> HasColumn(t, name)
  }

  /** The relationship starts from columns of the table and ends at columns of a declared table. */
  ghost predicate Resolves(r: RelationshipReview, schema: DatabaseSchema, t: TableSchema) {
    && (forall c :: c in r.fromColumns ==> HasColumn(t, c))
    && exists u :: u in schema.tables && u.name == r.toTable && forall c :: c in r.toColumns ==> HasColumn(u, c)
  }

  predicate Settled(evidence: seq<Evidence>) {
    forall e :: e in evidence ==> e.status != Conflicting
  }

  /** No piece of evidence anywhere in the review conflicts. */
  predicate AllSettled(review: ReviewDocument) {
    && Settled(review.business.evidence)
    && (forall c :: c in review.columns ==> Settled(review.columns[c].evidence))
    && (forall r :: r in review.relationships ==> Settled(r.evidence))
    && (forall rule :: rule in review.businessRules ==> Settled(rule.evidence))
  }

  ghost predicate Publishable(schema: DatabaseSchema, contract: ReviewContract, review: ReviewDocument, hash: SchemaHasher) {
    && OfVersion(review, contract) && review.database == schema.name && AllSettled(review)
    && exists t :: t in schema.tables && t.name == review.table && Describes(review, schema, t, hash)
         && forall r :: r in review.relationships ==> Resolves(r, schema, t)
  }

  // ---- from findings to facts ----

  lemma VersionsExactly(schema: DatabaseSchema, contract: ReviewContract, review: ReviewDocument)
    ensures (forall field :: VersionOf(review, field) == ExpectedVersion(schema, contract, field)) <==>
              OfVersion(review, contract) && review.database == schema.name
  {
    assert VersionOf(review, ContractField) == review.contractVersion;
    assert VersionOf(review, ReviewGuidelineField) == review.reviewGuidelineVersion;
    assert VersionOf(review, TransformationGuidelineField) == review.transformationGuidelineVersion;
    assert VersionOf(review, DatabaseField) == review.database;
  }

  lemma NamesAreColumns(t: TableSchema, name: string)
    ensures name in ColumnNames(t) <==> HasColumn(t, name)
  {
  }

  /** No finding about a relationship's ends. */
  ghost predicate EndsFound(schema: DatabaseSchema, t: TableSchema, r: RelationshipReview) {
    && r.toTable in TableMap(schema.tables)
    && (forall k :: 0 <= k < |r.fromColumns| ==> r.fromColumns[k] in ColumnNames(t))
    && (forall k :: 0 <= k < |r.toColumns| ==> r.toColumns[k] in ColumnNames(TableMap(schema.tables)[r.toTable]))
  }

  lemma EndsExactly(schema: DatabaseSchema, t: TableSchema, r: RelationshipReview)
    requires ParserValid(schema)
    ensures EndsFound(schema, t, r) <==> Resolves(r, schema, t)
  {
    forall u: TableSchema { TableFound(schema, r.toTable, u); }
    forall u: TableSchema, name { NamesAreColumns(u, name); }
    hide TableMap, ParserValid, ColumnNames, HasColumn;
    if EndsFound(schema, t, r) {
      var u := TableMap(schema.tables)[r.toTable];
      forall c | c in r.toColumns ensures HasColumn(u, c) {
        var k :| 0 <= k < |r.toColumns| && r.toColumns[k] == c;
      }
      forall c | c in r.fromColumns ensures HasColumn(t, c) {
        var k :| 0 <= k < |r.fromColumns| && r.fromColumns[k] == c;
      }
    }
  }

  lemma SettledExactly(t: TableSchema, review: ReviewDocument)
    requires forall c :: c in review.columns ==> c in ColumnNames(t)
    ensures (forall place :: !IsConflicting(EvidenceAt(t, review, place))) <==> AllSettled(review)
  {
    hide ColumnNames;
    if forall place :: !IsConflicting(EvidenceAt(t, review, place)) {
      assert !IsConflicting(EvidenceAt(t, review, InBusiness));
      forall c | c in review.columns ensures Settled(review.columns[c].evidence) {
        assert !IsConflicting(EvidenceAt(t, review, InColumn(c)));
      }
      forall r | r in review.relationships ensures Settled(r.evidence) {
        var i :| 0 <= i < |review.relationships| && review.relationships[i] == r;
        assert !IsConflicting(EvidenceAt(t, review, InRelationship(i)));
      }
      forall r | r in review.businessRules ensures Settled(r.evidence) {
        var i :| 0 <= i < |review.businessRules| && review.businessRules[i] == r;
        assert !IsConflicting(EvidenceAt(t, review, InRule(i)));
      }
    }
    if AllSettled(review) {
      forall place ensures Settled(EvidenceAt(t, review, place)) {}
    }
  }

  /** Nothing the validator calls blocking holds. */
  ghost predicate NothingBlocks(schema: DatabaseSchema, contract: ReviewContract, review: ReviewDocument, hash: SchemaHasher) {
    && (forall field :: VersionOf(review, field) == ExpectedVersion(schema, contract, field))
    && review.table in TableMap(schema.tables)
    && var t := TableMap(schema.tables)[review.table];
       && review.schemaHash == TableSchemaHash(schema, t, hash)
       && (forall c :: c in review.columns <==> c in ColumnNames(t))
       && (forall i :: 0 <= i < |review.relationships| ==> EndsFound(schema, t, review.relationships[i]))
       && (forall place :: !IsConflicting(EvidenceAt(t, review, place)))
  }

  lemma BlockedAt(schema: DatabaseSchema, contract: ReviewContract, review: ReviewDocument, box: Toolbox, f: Finding)
    requires NothingBlocks(schema, contract, review, box.hash)
    ensures !BlockedBy(schema, contract, review, box, f)
  {
    hide TableSchemaHash, TableMap, DictBy, ColumnNames, EvidenceAt;
    match f
    case UnknownRelationshipTable(i) => if i < |review.relationships| { assert EndsFound(schema, TableMap(schema.tables)[review.table], review.relationships[i]); }
    case UnknownRelationshipColumn(i, _, _) => if i < |review.relationships| { assert EndsFound(schema, TableMap(schema.tables)[review.table], review.relationships[i]); }
    case _ =>
  }

  lemma UnblockedTable(schema: DatabaseSchema, contract: ReviewContract, review: ReviewDocument, box: Toolbox)
    requires Unblocked(schema, contract, review, box)
    ensures forall field :: VersionOf(review, field) == ExpectedVersion(schema, contract, field)
    ensures review.table in TableMap(schema.tables)
    ensures var t := TableMap(schema.tables)[review.table];
            && review.schemaHash == TableSchemaHash(schema, t, box.hash)
            && (forall c :: c in review.columns <==> c in ColumnNames(t))
            && (forall place :: !IsConflicting(EvidenceAt(t, review, place)))
  {
    hide TableSchemaHash, TableMap, DictBy, ColumnNames, EvidenceAt;
    forall field ensures VersionOf(review, field) == ExpectedVersion(schema, contract, field) {
      assert !BlockedBy(schema, contract, review, box, Unexpected(field));
    }
    assert !BlockedBy(schema, contract, review, box, UnknownTableFound);
    assert !BlockedBy(schema, contract, review, box, StaleHash);
    forall c ensures c in review.columns <==> c in ColumnNames(TableMap(schema.tables)[review.table]) {
      assert !BlockedBy(schema, contract, review, box, UnknownColumnFound(c));
      assert !BlockedBy(schema, contract, review, box, MissingColumnReview(c));
    }
    forall place ensures !IsConflicting(EvidenceAt(TableMap(schema.tables)[review.table], review, place)) {
      assert !BlockedBy(schema, contract, review, box, ConflictingEvidence(place));
    }
  }

  lemma UnblockedEnds(schema: DatabaseSchema, contract: ReviewContract, review: ReviewDocument, box: Toolbox, i: nat)
    requires Unblocked(schema, contract, review, box) && review.table in TableMap(schema.tables) && i < |review.relationships|
    ensures EndsFound(schema, TableMap(schema.tables)[review.table], review.relationships[i])
  {
    hide TableSchemaHash, TableMap, DictBy, ColumnNames, EvidenceAt;
    var r := review.relationships[i];
    assert !BlockedBy(schema, contract, review, box, UnknownRelationshipTable(i));
    forall k | 0 <= k < |r.fromColumns| ensures r.fromColumns[k] in ColumnNames(TableMap(schema.tables)[review.table]) {
      assert !BlockedBy(schema, contract, review, box, UnknownRelationshipColumn(i, FromSide, k));
    }
    forall k | 0 <= k < |r.toColumns| ensures r.toColumns[k] in ColumnNames(TableMap(schema.tables)[r.toTable]) {
      assert !BlockedBy(schema, contract, review, box, UnknownRelationshipColumn(i, ToSide, k));
    }
  }

  lemma UnblockedIsNothing(schema: DatabaseSchema, contract: ReviewContract, review: ReviewDocument, box: Toolbox)
    ensures Unblocked(schema, contract, review, box) <==> NothingBlocks(schema, contract, review, box.hash)
  {
    hide BlockedBy, TableMap, TableSchemaHash, ColumnNames, EvidenceAt, EndsFound;
    if Unblocked(schema, contract, review, box) {
      UnblockedTable(schema, contract, review, box);
      forall i | 0 <= i < |review.relationships| ensures EndsFound(schema, TableMap(schema.tables)[review.table], review.relationships[i]) {
        UnblockedEnds(schema, contract, review, box, i);
      }
    }
    if NothingBlocks(schema, contract, review, box.hash) {
      hide Unblocked, NothingBlocks;
      forall f ensures !BlockedBy(schema, contract, review, box, f) { BlockedAt(schema, contract, review, box, f); }
      NeverBlocked(schema, contract, review, box);
    }
  }

  lemma NeverBlocked(schema: DatabaseSchema, contract: ReviewContract, review: ReviewDocument, box: Toolbox)
    requires forall f :: !BlockedBy(schema, contract, review, box, f)
    ensures Unblocked(schema, contract, review, box)
  {
    hide BlockedBy;
  }

  /** The findings that block a sync are absent exactly for publishable reviews. */
  lemma UnblockedExactly(schema: DatabaseSchema, contract: ReviewContract, review: ReviewDocument, box: Toolbox)
    requires ParserValid(schema)
    ensures Unblocked(schema, contract, review, box) <==> Publishable(schema, contract, review, box.hash)
  {
    UnblockedIsNothing(schema, contract, review, box);
    VersionsExactly(schema, contract, review);
    forall u: TableSchema { TableFound(schema, review.table, u); }
    hide Unblocked, TableMap, ParserValid, TableSchemaHash, ColumnNames, HasColumn, OfVersion, AllSettled, Resolves, EndsFound, VersionOf, ExpectedVersion;
    if review.table in TableMap(schema.tables) {
      var t := TableMap(schema.tables)[review.table];
      forall name { NamesAreColumns(t, name); }
      forall r: RelationshipReview { EndsExactly(schema, t, r); }
      if forall c :: c in review.columns ==> c in ColumnNames(t) {
        SettledExactly(t, review);
      }
      assert (forall i :: 0 <= i < |review.relationships| ==> EndsFound(schema, t, review.relationships[i])) <==>
             (forall r :: r in review.relationships ==> Resolves(r, schema, t));
    }
  }

  // ---- what a clean preflight means ----

  /** A clean preflight is exactly a full set of publishable reviews, one for every table of the schema. */
  lemma CleanExactly(s: Sources, box: Toolbox)
    requires s.schema.Some? && s.contract.Some? && ParserValid(s.schema.value)
    ensures Clean(s, box) <==>
              && s.reviews != [] && DistinctKeys(s.reviews, ReviewTable)
              && (forall file :: file in s.reviews ==>
                    (file.content.Some? && Publishable(s.schema.value, s.contract.value, file.content.value, box.hash)))
              && (forall t :: t in s.schema.value.tables ==> exists file :: file in s.reviews && ReviewTable(file) == t.name)
  {
    hide Unblocked, Publishable, ParserValid, TableMap, DistinctKeys;
    ReviewsClean(s, box);
    TablesCovered(s);
  }

  lemma ReviewsClean(s: Sources, box: Toolbox)
    requires s.schema.Some? && s.contract.Some? && ParserValid(s.schema.value)
    ensures (forall file :: file in s.reviews && file.content.Some? ==>
               Unblocked(s.schema.value, s.contract.value, file.content.value, box)) <==>
            (forall file :: file in s.reviews && file.content.Some? ==>
               Publishable(s.schema.value, s.contract.value, file.content.value, box.hash))
  {
    forall file | file in s.reviews && file.content.Some?
      ensures Unblocked(s.schema.value, s.contract.value, file.content.value, box) <==>
                Publishable(s.schema.value, s.contract.value, file.content.value, box.hash)
    {
      UnblockedExactly(s.schema.value, s.contract.value, file.content.value, box);
    }
    hide Unblocked, Publishable, ParserValid;
  }

  lemma TablesCovered(s: Sources)
    requires s.schema.Some? && ParserValid(s.schema.value)
    ensures (forall t :: t in TableMap(s.schema.value.tables) ==> exists file :: file in s.reviews && ReviewTable(file) == t) <==>
            (forall t :: t in s.schema.value.tables ==> exists file :: file in s.reviews && ReviewTable(file) == t.name)
  {
    hide ParserValid, TableMap, ReviewTable;
    if forall t :: t in TableMap(s.schema.value.tables) ==> exists file :: file in s.reviews && ReviewTable(file) == t {
      forall t | t in s.schema.value.tables ensures exists file :: file in s.reviews && ReviewTable(file) == t.name {
        TableFound(s.schema.value, t.name, t);
      }
    }
    if forall t :: t in s.schema.value.tables ==> exists file :: file in s.reviews && ReviewTable(file) == t.name {
      forall name | name in TableMap(s.schema.value.tables) ensures exists file :: file in s.reviews && ReviewTable(file) == name {
        var t := TableMap(s.schema.value.tables)[name];
        TableFound(s.schema.value, name, t);
      }
    }
  }

  /** After a clean preflight no generation stops for a review that does not fit its table. */
  lemma CleanFits(s: Sources, box: Toolbox, file: Loaded, commit: string, context: PublicationContext)
    requires Clean(s, box) && s.schema.Some? && ParserValid(s.schema.value)
    requires file in Parsed(s.reviews) && IsContext(context, file, s, commit)
    ensures Fits(context, box.hash) && s.contract.Some? && OfVersion(file.review, s.contract.value)
  {
    CleanReview(s, box, file);
    UnblockedExactly(s.schema.value, s.contract.value, file.review, box);
    hide Clean, Unblocked, ParserValid, TableSchemaHash;
    var t :| t in s.schema.value.tables && t.name == file.review.table && Describes(file.review, s.schema.value, t, box.hash)
             && forall r :: r in file.review.relationships ==> Resolves(r, s.schema.value, t);
    TableFound(s.schema.value, file.review.table, t);
    TableFound(s.schema.value, file.review.table, context.table);
  }

  lemma CleanReview(s: Sources, box: Toolbox, file: Loaded)
    requires Clean(s, box) && file in Parsed(s.reviews)
    ensures s.schema.Some? && s.contract.Some? && Unblocked(s.schema.value, s.contract.value, file.review, box)
  {
    hide Unblocked, TableMap, DistinctKeys;
    ParsedAll(s.reviews);
    var i :| 0 <= i < |s.reviews| && Parsed(s.reviews)[i] == file;
    assert s.reviews[i] in s.reviews;
  }

  // ---- warnings ----

  /** The reviewed column of this name, in the table of the review. */
  ghost predicate IsReviewed(c: ColumnSchema, schema: DatabaseSchema, review: ReviewDocument) {
    c.name in review.columns && exists t :: t in schema.tables && t.name == review.table && c in t.columns
  }

  /** A unit that says nothing, whatever its case and white space. */
  predicate SaysNothing(unit: string, lower: string -> string) {
    var u := lower(Strip(unit));
    u == "" || u == "not_applicable" || u == "unknown" || u == "unknown — needs confirmation"
  }

  predicate NeedsTime(c: ColumnSchema, r: ColumnReview, lower: string -> string) {
    (Contains(lower(c.dataType), "datetime") || "date" <= lower(c.dataType)) && SaysNothing(r.unit, lower)
  }

  predicate NeedsUnit(r: ColumnReview, lower: string -> string) {
    var t := lower(r.semanticType);
    (t == "monetary_amount" || t == "measure" || t == "count" || t == "percentage" || t == "duration") && SaysNothing(r.unit, lower)
  }

  predicate NeedsValues(r: ColumnReview, lower: string -> string) {
    var t := lower(r.semanticType);
    (t == "categorical" || t == "status" || t == "code") && |r.allowedValues| == 0 && |r.caveats| == 0
  }

  predicate NeedsSensitivity(r: ColumnReview, lower: string -> string) {
    var t, s := lower(r.semanticType), lower(Strip(r.sensitivity));
    && (t == "email" || t == "person_name" || t == "phone" || t == "address")
    && (s == "" || s == "internal" || s == "unknown" || s == "not_applicable")
  }

  lemma ColumnFound(schema: DatabaseSchema, review: ReviewDocument, name: string)
    requires ParserValid(schema) && review.table in TableMap(schema.tables)
    ensures var columns := DictBy(TableMap(schema.tables)[review.table].columns, ColumnName);
            forall c: ColumnSchema :: c.name == name ==>
              (IsReviewed(c, schema, review) <==> name in review.columns && name in columns && columns[name] == c)
  {
    var t := TableMap(schema.tables)[review.table];
    forall u: TableSchema { TableFound(schema, review.table, u); }
    DictMembers(t.columns, ColumnName, name);
    assert DistinctKeys(t.columns, ColumnName);
    forall c | c in t.columns && c.name == name ensures name in DictBy(t.columns, ColumnName) && DictBy(t.columns, ColumnName)[name] == c {
      DictLookup(t.columns, ColumnName, c);
    }
    hide DictBy, ParserValid, DistinctKeys;
  }

  lemma WarningAt(column: ColumnSchema, r: ColumnReview, lower: string -> string)
    ensures LacksTime(column, r, lower) <==> NeedsTime(column, r, lower)
    ensures LacksUnit(r, lower) <==> NeedsUnit(r, lower)
    ensures LacksValues(r, lower) <==> NeedsValues(r, lower)
    ensures LacksSensitivity(r, lower) <==> NeedsSensitivity(r, lower)
  {
    hide Contains, Strip;
  }

  /** Each warning is given for exactly the reviewed columns it is about; none of them blocks. */
  lemma WarnsExactly(schema: DatabaseSchema, contract: ReviewContract, review: ReviewDocument, lower: string -> string,
                     hash: SchemaHasher, name: string)
    requires ParserValid(schema) && HasTable(schema, review.table)
    ensures Reports(schema, contract, review, lower, hash, MissingTimeSemantics(name)) <==>
              exists c :: IsReviewed(c, schema, review) && c.name == name && NeedsTime(c, review.columns[c.name], lower)
    ensures Reports(schema, contract, review, lower, hash, MissingMeasureUnit(name)) <==>
              exists c :: IsReviewed(c, schema, review) && c.name == name && NeedsUnit(review.columns[c.name], lower)
    ensures Reports(schema, contract, review, lower, hash, MissingAllowedValues(name)) <==>
              exists c :: IsReviewed(c, schema, review) && c.name == name && NeedsValues(review.columns[c.name], lower)
    ensures Reports(schema, contract, review, lower, hash, MissingSensitivity(name)) <==>
              exists c :: IsReviewed(c, schema, review) && c.name == name && NeedsSensitivity(review.columns[c.name], lower)
  {
    NamesAreTables(schema, review.table);
    ReportedAt(schema, contract, review, lower, hash, name);
    ColumnFound(schema, review, name);
    hide Reports, TableMap, DictBy, ParserValid, IsReviewed, NeedsTime, NeedsUnit, NeedsValues, NeedsSensitivity;
    var columns := DictBy(TableMap(schema.tables)[review.table].columns, ColumnName);
    if name in columns && name in review.columns {
      ColumnNamed(TableMap(schema.tables)[review.table], name);
      assert IsReviewed(columns[name], schema, review);
    }
  }

  lemma ReportedAt(schema: DatabaseSchema, contract: ReviewContract, review: ReviewDocument, lower: string -> string,
                   hash: SchemaHasher, name: string)
    requires review.table in TableMap(schema.tables)
    ensures var columns := DictBy(TableMap(schema.tables)[review.table].columns, ColumnName);
            var found := name in review.columns && name in columns;
            && (Reports(schema, contract, review, lower, hash, MissingTimeSemantics(name)) <==>
                  found && NeedsTime(columns[name], review.columns[name], lower))
            && (Reports(schema, contract, review, lower, hash, MissingMeasureUnit(name)) <==> found && NeedsUnit(review.columns[name], lower))
            && (Reports(schema, contract, review, lower, hash, MissingAllowedValues(name)) <==> found && NeedsValues(review.columns[name], lower))
            && (Reports(schema, contract, review, lower, hash, MissingSensitivity(name)) <==> found && NeedsSensitivity(review.columns[name], lower))
  {
    hide LacksTime, LacksUnit, LacksValues, LacksSensitivity, NeedsTime, NeedsUnit, NeedsValues, NeedsSensitivity;
    hide TableMap, DictBy, TableSchemaHash, ColumnNames;
    var columns := DictBy(TableMap(schema.tables)[review.table].columns, ColumnName);
    if name in columns && name in review.columns {
      ColumnNamed(TableMap(schema.tables)[review.table], name);
      WarningAt(columns[name], review.columns[name], lower);
    }
  }

  lemma ColumnNamed(t: TableSchema, name: string)
    ensures name in DictBy(t.columns, ColumnName) ==> DictBy(t.columns, ColumnName)[name].name == name
  {
    DictMembers(t.columns, ColumnName, name);
  }
}
