/** The validator of a reviewer file against the technical schema. */
module ReviewValidation {
  import opened Wrappers
  import opened Sorting
  import opened Dictionaries
  import opened Text
  import opened Models
  import opened TblsSchema
  import opened SchemaHashing

  datatype VersionField = ContractField | ReviewGuidelineField | TransformationGuidelineField | DatabaseField

  datatype Side = FromSide | ToSide

  datatype Place = InBusiness | InColumn(column: string) | InRelationship(relationship: nat) | InRule(rule: nat)

  /** One issue: its code together with the field it points at. */
  datatype Finding =
    | Unexpected(version: VersionField)
    | UnknownTableFound
    | StaleHash
    | UnknownColumnFound(column: string)
    | MissingColumnReview(column: string)
    | UnknownRelationshipTable(index: nat)
    | UnknownRelationshipColumn(index: nat, side: Side, position: nat)
    | ConflictingEvidence(place: Place)
    | MissingTimeSemantics(column: string)
    | MissingMeasureUnit(column: string)
    | MissingAllowedValues(column: string)
    | MissingSensitivity(column: string)
  {
    predicate IsError(status: DocumentStatus) {
      match this
      case ConflictingEvidence(_) => status.Approved?
      case MissingTimeSemantics(_) => false
      case MissingMeasureUnit(_) => false
      case MissingAllowedValues(_) => false
      case MissingSensitivity(_) => false
      case _ => true
    }

    /** What stops a candidate sync or a publication. */
    predicate Blocks(status: DocumentStatus) {
      IsError(status) || ConflictingEvidence?
    }
  }

  // ---- what there is to report ----

  function VersionOf(review: ReviewDocument, field: VersionField): string {
    match field
    case ContractField => review.contractVersion
    case ReviewGuidelineField => review.reviewGuidelineVersion
    case TransformationGuidelineField => review.transformationGuidelineVersion
    case DatabaseField => review.database
  }

  function ExpectedVersion(schema: DatabaseSchema, contract: ReviewContract, field: VersionField): string {
    match field
    case ContractField => contract.contractVersion
    case ReviewGuidelineField => contract.reviewGuidelineVersion
    case TransformationGuidelineField => contract.transformationGuidelineVersion
    case DatabaseField => schema.name
  }

  predicate IsConflicting(evidence: seq<Evidence>) {
    exists e :: e in evidence && e.status.Conflicting?
  }

  /** The evidence at a place of the review; a reviewed column counts only if the table has it. */
  function EvidenceAt(table: TableSchema, review: ReviewDocument, place: Place): seq<Evidence> {
    match place
    case InBusiness => review.business.evidence
    case InColumn(c) => if c in review.columns && c in ColumnNames(table) then review.columns[c].evidence else []
    case InRelationship(i) => if i < |review.relationships| then review.relationships[i].evidence else []
    case InRule(i) => if i < |review.businessRules| then review.businessRules[i].evidence else []
  }

  predicate IsTimestamp(dataType: string, lower: string -> string) {
    Contains(lower(dataType), "datetime") || "date" <= lower(dataType)
  }

  const UNKNOWN_TEXT := "unknown — needs confirmation"

  predicate IsUnknownUnit(unit: string) {
    unit in ["", "not_applicable", "unknown", UNKNOWN_TEXT]
  }

  function Unit(review: ColumnReview, lower: string -> string): string {
    lower(Strip(review.unit))
  }

  predicate LacksTime(column: ColumnSchema, review: ColumnReview, lower: string -> string) {
    IsTimestamp(column.dataType, lower) && IsUnknownUnit(Unit(review, lower))
  }

  predicate LacksUnit(review: ColumnReview, lower: string -> string) {
    lower(review.semanticType) in ["monetary_amount", "measure", "count", "percentage", "duration"]
    && IsUnknownUnit(Unit(review, lower))
  }

  predicate LacksValues(review: ColumnReview, lower: string -> string) {
    lower(review.semanticType) in ["categorical", "status", "code"] && review.allowedValues == map[] && review.caveats == []
  }

  predicate LacksSensitivity(review: ColumnReview, lower: string -> string) {
    lower(review.semanticType) in ["email", "person_name", "phone", "address"]
    && lower(Strip(review.sensitivity)) in ["", "internal", "unknown", "not_applicable"]
  }

  /** What is said about one reviewed column of the table. */
  predicate ColumnReports(column: ColumnSchema, review: ColumnReview, lower: string -> string, finding: Finding) {
    match finding
    case MissingTimeSemantics(c) => c == column.name && LacksTime(column, review, lower)
    case MissingMeasureUnit(c) => c == column.name && LacksUnit(review, lower)
    case MissingAllowedValues(c) => c == column.name && LacksValues(review, lower)
    case MissingSensitivity(c) => c == column.name && LacksSensitivity(review, lower)
    case ConflictingEvidence(place) => place == InColumn(column.name) && IsConflicting(review.evidence)
    case _ => false
  }

  /** What is said about a relationship's columns. */
  predicate RelationshipReports(tables: map<string, TableSchema>, table: TableSchema, r: RelationshipReview, index: nat, finding: Finding) {
    match finding
    case UnknownRelationshipTable(i) => i == index && r.toTable !in tables
    case UnknownRelationshipColumn(i, side, k) =>
      i == index &&
      (match side
       case FromSide => k < |r.fromColumns| && r.fromColumns[k] !in ColumnNames(table)
       case ToSide => r.toTable in tables && k < |r.toColumns| && r.toColumns[k] !in ColumnNames(tables[r.toTable]))
    case _ => false
  }

  /** What is said about a review whose table is in the schema. */
  predicate TableReports(schema: DatabaseSchema, table: TableSchema, review: ReviewDocument, lower: string -> string,
                         hash: SchemaHasher, finding: Finding) {
    match finding
    case Unexpected(_) => false
    case UnknownTableFound => false
    case StaleHash => review.schemaHash != TableSchemaHash(schema, table, hash)
    case UnknownColumnFound(c) => c in review.columns && c !in ColumnNames(table)
    case MissingColumnReview(c) => c in ColumnNames(table) && c !in review.columns
    case UnknownRelationshipTable(i) =>
      i < |review.relationships| && RelationshipReports(TableMap(schema.tables), table, review.relationships[i], i, finding)
    case UnknownRelationshipColumn(i, _, _) =>
      i < |review.relationships| && RelationshipReports(TableMap(schema.tables), table, review.relationships[i], i, finding)
    case ConflictingEvidence(place) => IsConflicting(EvidenceAt(table, review, place))
    case _ =>
      var c := finding.column;
      c in review.columns && c in DictBy(table.columns, ColumnName)
      && ColumnReports(DictBy(table.columns, ColumnName)[c], review.columns[c], lower, finding)
  }

  /** Whether validating `review` reports `finding`. */
  predicate Reports(schema: DatabaseSchema, contract: ReviewContract, review: ReviewDocument, lower: string -> string,
                    hash: SchemaHasher, finding: Finding) {
    match finding
    case Unexpected(field) => VersionOf(review, field) != ExpectedVersion(schema, contract, field)
    case UnknownTableFound => review.table !in TableMap(schema.tables)
    case _ =>
      review.table in TableMap(schema.tables)
      && TableReports(schema, TableMap(schema.tables)[review.table], review, lower, hash, finding)
  }

  // ---- duplicate-free lists of what holds ----

  ghost predicate Distinct(findings: seq<Finding>) {
    forall i, j :: 0 <= i < j < |findings| ==> findings[i] != findings[j]
  }

  /** `findings` lists exactly the findings of `p`, each once. */
  ghost predicate Lists(findings: seq<Finding>, p: Finding -> bool) {
    Distinct(findings) && forall f :: f in findings <==> p(f)
  }

  /** `after` is `before` with exactly the findings of `p` appended, each once, in some order. */
  ghost predicate Extends(before: seq<Finding>, after: seq<Finding>, p: Finding -> bool) {
    before <= after && Lists(after[|before|..], p)
  }

  lemma ExtendsNone(before: seq<Finding>, p: Finding -> bool)
    requires forall f :: !p(f)
    ensures Extends(before, before, p)
  {
  }

  lemma ExtendsOne(before: seq<Finding>, g: Finding, p: Finding -> bool)
    requires forall f :: p(f) <==> f == g
    ensures Extends(before, before + [g], p)
  {
    assert (before + [g])[|before|..] == [g];
  }

  /** One check after another. */
  lemma ExtendsThen(a: seq<Finding>, b: seq<Finding>, c: seq<Finding>,
                    p: Finding -> bool, q: Finding -> bool, r: Finding -> bool)
    requires Extends(a, b, p) && Extends(b, c, q)
    requires forall f :: !(p(f) && q(f))
    requires forall f :: r(f) <==> p(f) || q(f)
    ensures Extends(a, c, r)
  {
    var x, y := b[|a|..], c[|b|..];
    assert c[|a|..] == x + y;
    forall f ensures f in x + y <==> r(f) {
      assert f in x + y <==> f in x || f in y;
    }
    DistinctJoin(x, y, p, q);
  }

  lemma DistinctJoin(x: seq<Finding>, y: seq<Finding>, p: Finding -> bool, q: Finding -> bool)
    requires Lists(x, p) && Lists(y, q) && forall f :: !(p(f) && q(f))
    ensures Distinct(x + y)
  {
    var s := x + y;
    forall i, j | 0 <= i < j < |s| ensures s[i] != s[j] {
      if j < |x| {
      } else if i >= |x| {
        assert s[i] == y[i - |x|] && s[j] == y[j - |x|];
      } else {
        assert s[i] in x && s[j] == y[j - |x|] && s[j] in y;
      }
    }
  }

  /** The same findings under another description. */
  lemma ExtendsSame(a: seq<Finding>, b: seq<Finding>, p: Finding -> bool, q: Finding -> bool)
    requires Extends(a, b, p) && forall f :: p(f) <==> q(f)
    ensures Extends(a, b, q)
  {
  }

  // ---- the checks ----

  method ReportIf(list: SharedList<Finding>, condition: bool, finding: Finding)
    modifies list
    ensures Extends(old(list.items), list.items, f => condition && f == finding)
  {
    if condition {
      list.Append(finding);
      ExtendsOne(old(list.items), finding, f => condition && f == finding);
    } else {
      ExtendsNone(list.items, f => condition && f == finding);
    }
  }

  const VERSION_FIELDS := [ContractField, ReviewGuidelineField, TransformationGuidelineField, DatabaseField]

  predicate VersionReports(schema: DatabaseSchema, contract: ReviewContract, review: ReviewDocument,
                           fields: seq<VersionField>, finding: Finding) {
    finding.Unexpected? && finding.version in fields
    && VersionOf(review, finding.version) != ExpectedVersion(schema, contract, finding.version)
  }

  method CheckVersions(list: SharedList<Finding>, schema: DatabaseSchema, contract: ReviewContract, review: ReviewDocument)
    modifies list
    ensures Extends(old(list.items), list.items, f => VersionReports(schema, contract, review, VERSION_FIELDS, f))
  {
    hide Extends;
    ExtendsNone(list.items, f => VersionReports(schema, contract, review, [], f));
    for i := 0 to 4
      invariant Extends(old(list.items), list.items, f => VersionReports(schema, contract, review, VERSION_FIELDS[..i], f))
    {
      ghost var before := list.items;
      var field := VERSION_FIELDS[i];
      var differs := VersionOf(review, field) != ExpectedVersion(schema, contract, field);
      ReportIf(list, differs, Unexpected(field));
      assert VERSION_FIELDS[..i + 1] == VERSION_FIELDS[..i] + [field];
      assert field !in VERSION_FIELDS[..i];
      ExtendsThen(old(list.items), before, list.items,
                  f => VersionReports(schema, contract, review, VERSION_FIELDS[..i], f),
                  f => differs && f == Unexpected(field),
                  f => VersionReports(schema, contract, review, VERSION_FIELDS[..i + 1], f));
    }
    assert VERSION_FIELDS[..4] == VERSION_FIELDS;
  }

  predicate UnknownAmong(columns: set<string>, finding: Finding) {
    finding.UnknownColumnFound? && finding.column in columns
  }

  predicate MissingAmong(columns: set<string>, finding: Finding) {
    finding.MissingColumnReview? && finding.column in columns
  }

  /** In whatever order the set is iterated. */
  method CheckUnknownColumns(list: SharedList<Finding>, reviewed: set<string>, available: set<string>)
    modifies list
    ensures Extends(old(list.items), list.items, f => UnknownAmong(reviewed - available, f))
  {
    hide Extends;
    var left := reviewed;
    ExtendsNone(list.items, f => UnknownAmong(reviewed - left - available, f));
    while left != {}
      invariant left <= reviewed
      invariant Extends(old(list.items), list.items, f => UnknownAmong(reviewed - left - available, f))
      decreases left
    {
      ghost var before := list.items;
      ghost var was := left;
      var c :| c in left;
      ReportIf(list, c !in available, UnknownColumnFound(c));
      left := left - {c};
      ExtendsThen(old(list.items), before, list.items,
                  f => UnknownAmong(reviewed - was - available, f),
                  f => c !in available && f == UnknownColumnFound(c),
                  f => UnknownAmong(reviewed - left - available, f));
    }
    ExtendsSame(old(list.items), list.items,
                f => UnknownAmong(reviewed - left - available, f),
                f => UnknownAmong(reviewed - available, f));
  }

  method CheckMissingColumns(list: SharedList<Finding>, missing: set<string>)
    modifies list
    ensures Extends(old(list.items), list.items, f => MissingAmong(missing, f))
  {
    hide Extends, SortedSet;
    var names := SortedSet(missing);
    SortedSetSorted(missing);
    StrictlySortedDistinct(names);
    ExtendsNone(list.items, f => MissingAmong(Elements(names[..0]), f));
    for i := 0 to |names|
      invariant Extends(old(list.items), list.items, f => MissingAmong(Elements(names[..i]), f))
    {
      ghost var before := list.items;
      list.Append(MissingColumnReview(names[i]));
      ExtendsOne(before, MissingColumnReview(names[i]), f => f == MissingColumnReview(names[i]));
      assert names[..i + 1] == names[..i] + [names[i]];
      assert names[i] !in names[..i];
      ExtendsThen(old(list.items), before, list.items,
                  f => MissingAmong(Elements(names[..i]), f),
                  f => f == MissingColumnReview(names[i]),
                  f => MissingAmong(Elements(names[..i + 1]), f));
    }
    assert names[..|names|] == names;
    ExtendsSame(old(list.items), list.items,
                f => MissingAmong(Elements(names[..|names|]), f),
                f => MissingAmong(missing, f));
  }

  predicate ColumnAbsent(available: set<string>, columns: seq<string>, index: nat, side: Side, n: nat, finding: Finding) {
    finding.UnknownRelationshipColumn? && finding.index == index && finding.side == side
    && finding.position < n <= |columns| && columns[finding.position] !in available
  }

  method ValidateColumns(list: SharedList<Finding>, available: set<string>, columns: seq<string>, index: nat, side: Side)
    modifies list
    ensures Extends(old(list.items), list.items, f => ColumnAbsent(available, columns, index, side, |columns|, f))
  {
    hide Extends;
    ExtendsNone(list.items, f => ColumnAbsent(available, columns, index, side, 0, f));
    for k := 0 to |columns|
      invariant Extends(old(list.items), list.items, f => ColumnAbsent(available, columns, index, side, k, f))
    {
      ghost var before := list.items;
      var absent := columns[k] !in available;
      var finding := UnknownRelationshipColumn(index, side, k);
      ReportIf(list, absent, finding);
      ExtendsThen(old(list.items), before, list.items,
                  f => ColumnAbsent(available, columns, index, side, k, f),
                  f => absent && f == finding,
                  f => ColumnAbsent(available, columns, index, side, k + 1, f));
    }
  }

  method CheckRelationship(list: SharedList<Finding>, tables: map<string, TableSchema>, table: TableSchema, r: RelationshipReview, index: nat)
    modifies list
    ensures Extends(old(list.items), list.items, f => RelationshipReports(tables, table, r, index, f))
  {
    hide Extends;
    ValidateColumns(list, ColumnNames(table), r.fromColumns, index, FromSide);
    ghost var middle := list.items;
    if r.toTable !in tables {
      list.Append(UnknownRelationshipTable(index));
      ExtendsOne(middle, UnknownRelationshipTable(index), f => f == UnknownRelationshipTable(index));
      ExtendsThen(old(list.items), middle, list.items,
                  f => ColumnAbsent(ColumnNames(table), r.fromColumns, index, FromSide, |r.fromColumns|, f),
                  f => f == UnknownRelationshipTable(index),
                  f => RelationshipReports(tables, table, r, index, f));
    } else {
      ValidateColumns(list, ColumnNames(tables[r.toTable]), r.toColumns, index, ToSide);
      ExtendsThen(old(list.items), middle, list.items,
                  f => ColumnAbsent(ColumnNames(table), r.fromColumns, index, FromSide, |r.fromColumns|, f),
                  f => ColumnAbsent(ColumnNames(tables[r.toTable]), r.toColumns, index, ToSide, |r.toColumns|, f),
                  f => RelationshipReports(tables, table, r, index, f));
    }
  }

  predicate RelationshipsReport(tables: map<string, TableSchema>, table: TableSchema, rs: seq<RelationshipReview>, n: nat, finding: Finding) {
    (finding.UnknownRelationshipTable? || finding.UnknownRelationshipColumn?)
    && finding.index < n <= |rs| && RelationshipReports(tables, table, rs[finding.index], finding.index, finding)
  }

  method CheckRelationships(list: SharedList<Finding>, tables: map<string, TableSchema>, table: TableSchema, rs: seq<RelationshipReview>)
    modifies list
    ensures Extends(old(list.items), list.items, f => RelationshipsReport(tables, table, rs, |rs|, f))
  {
    hide Extends;
    ExtendsNone(list.items, f => RelationshipsReport(tables, table, rs, 0, f));
    for i := 0 to |rs|
      invariant Extends(old(list.items), list.items, f => RelationshipsReport(tables, table, rs, i, f))
    {
      ghost var before := list.items;
      CheckRelationship(list, tables, table, rs[i], i);
      ExtendsThen(old(list.items), before, list.items,
                  f => RelationshipsReport(tables, table, rs, i, f),
                  f => RelationshipReports(tables, table, rs[i], i, f),
                  f => RelationshipsReport(tables, table, rs, i + 1, f));
    }
  }

  method ValidateEvidence(list: SharedList<Finding>, place: Place, evidence: seq<Evidence>)
    modifies list
    ensures Extends(old(list.items), list.items, f => f == ConflictingEvidence(place) && IsConflicting(evidence))
  {
    hide Extends;
    ReportIf(list, IsConflicting(evidence), ConflictingEvidence(place));
    ExtendsSame(old(list.items), list.items,
                f => IsConflicting(evidence) && f == ConflictingEvidence(place),
                f => f == ConflictingEvidence(place) && IsConflicting(evidence));
  }

  /** The first `n` checks on one column, in the validator's order. */
  predicate ColumnPart(column: ColumnSchema, review: ColumnReview, lower: string -> string, n: nat, finding: Finding) {
    && ColumnReports(column, review, lower, finding)
    && (finding.MissingTimeSemantics? ==> n > 0)
    && (finding.MissingMeasureUnit? ==> n > 1)
    && (finding.MissingAllowedValues? ==> n > 2)
    && (finding.MissingSensitivity? ==> n > 3)
    && (finding.ConflictingEvidence? ==> n > 4)
  }

  lemma ColumnSteps(column: ColumnSchema, review: ColumnReview, lower: string -> string, f: Finding)
    ensures ColumnPart(column, review, lower, 1, f) <==> LacksTime(column, review, lower) && f == MissingTimeSemantics(column.name)
    ensures ColumnPart(column, review, lower, 2, f) <==>
              ColumnPart(column, review, lower, 1, f) || (LacksUnit(review, lower) && f == MissingMeasureUnit(column.name))
    ensures ColumnPart(column, review, lower, 3, f) <==>
              ColumnPart(column, review, lower, 2, f) || (LacksValues(review, lower) && f == MissingAllowedValues(column.name))
    ensures ColumnPart(column, review, lower, 4, f) <==>
              ColumnPart(column, review, lower, 3, f) || (LacksSensitivity(review, lower) && f == MissingSensitivity(column.name))
    ensures ColumnReports(column, review, lower, f) <==>
              ColumnPart(column, review, lower, 4, f)
              || (f == ConflictingEvidence(InColumn(column.name)) && IsConflicting(review.evidence))
    ensures ColumnPart(column, review, lower, 1, f) ==> f.MissingTimeSemantics?
    ensures ColumnPart(column, review, lower, 2, f) ==> f.MissingTimeSemantics? || f.MissingMeasureUnit?
    ensures ColumnPart(column, review, lower, 3, f) ==> !f.MissingSensitivity? && !f.ConflictingEvidence?
    ensures ColumnPart(column, review, lower, 4, f) ==> !f.ConflictingEvidence?
  {
    hide LacksTime, LacksUnit, LacksValues, LacksSensitivity, IsConflicting;
  }

  method CheckColumn(list: SharedList<Finding>, column: ColumnSchema, review: ColumnReview, lower: string -> string)
    modifies list
    ensures Extends(old(list.items), list.items, f => ColumnReports(column, review, lower, f))
  {
    hide Extends, LacksTime, LacksUnit, LacksValues, LacksSensitivity, IsConflicting, ColumnPart, ColumnReports;
    var c := column.name;
    forall f { ColumnSteps(column, review, lower, f); }
    ghost var p1: Finding -> bool := f => ColumnPart(column, review, lower, 1, f);
    ghost var p2: Finding -> bool := f => ColumnPart(column, review, lower, 2, f);
    ghost var p3: Finding -> bool := f => ColumnPart(column, review, lower, 3, f);
    ghost var p4: Finding -> bool := f => ColumnPart(column, review, lower, 4, f);
    ghost var start := list.items;
    var time, unit := LacksTime(column, review, lower), LacksUnit(review, lower);
    var values, sensitivity := LacksValues(review, lower), LacksSensitivity(review, lower);
    ReportIf(list, time, MissingTimeSemantics(c));
    ghost var one := list.items;
    ExtendsSame(start, one, f => time && f == MissingTimeSemantics(c), p1);
    ReportIf(list, unit, MissingMeasureUnit(c));
    ghost var two := list.items;
    ExtendsThen(start, one, two, p1, f => unit && f == MissingMeasureUnit(c), p2);
    ReportIf(list, values, MissingAllowedValues(c));
    ghost var three := list.items;
    ExtendsThen(start, two, three, p2, f => values && f == MissingAllowedValues(c), p3);
    ReportIf(list, sensitivity, MissingSensitivity(c));
    ghost var four := list.items;
    ExtendsThen(start, three, four, p3, f => sensitivity && f == MissingSensitivity(c), p4);
    ValidateEvidence(list, InColumn(c), review.evidence);
    ExtendsThen(start, four, list.items, p4, f => f == ConflictingEvidence(InColumn(c)) && IsConflicting(review.evidence),
                f => ColumnReports(column, review, lower, f));
  }

  /** The column a column finding is about. */
  function ColumnOf(finding: Finding): Option<string> {
    match finding
    case ConflictingEvidence(place) => if place.InColumn? then Some(place.column) else None
    case MissingTimeSemantics(c) => Some(c)
    case MissingMeasureUnit(c) => Some(c)
    case MissingAllowedValues(c) => Some(c)
    case MissingSensitivity(c) => Some(c)
    case _ => None
  }

  /** What is said about the reviewed columns in `names` that the table has. */
  predicate ColumnsReport(raw: map<string, ColumnSchema>, columns: map<string, ColumnReview>, lower: string -> string,
                          names: set<string>, finding: Finding) {
    var c := ColumnOf(finding);
    c.Some? && c.value in names && c.value in columns && c.value in raw
    && ColumnReports(raw[c.value], columns[c.value], lower, finding)
  }

  lemma ColumnReportsOwn(column: ColumnSchema, review: ColumnReview, lower: string -> string, finding: Finding)
    ensures ColumnReports(column, review, lower, finding) ==> ColumnOf(finding) == Some(column.name)
  {
  }

  method CheckColumns(list: SharedList<Finding>, table: TableSchema, columns: map<string, ColumnReview>, lower: string -> string)
    modifies list
    ensures var raw := DictBy(table.columns, ColumnName);
            Extends(old(list.items), list.items, f => ColumnsReport(raw, columns, lower, columns.Keys, f))
  {
    hide Extends, ColumnReports, ColumnOf, DictBy;
    var raw := DictBy(table.columns, ColumnName);
    var left := columns.Keys;
    ExtendsNone(list.items, f => ColumnsReport(raw, columns, lower, columns.Keys - left, f));
    while left != {}
      invariant left <= columns.Keys
      invariant Extends(old(list.items), list.items, f => ColumnsReport(raw, columns, lower, columns.Keys - left, f))
      decreases left
    {
      ghost var before := list.items;
      ghost var was := left;
      var c :| c in left;
      left := left - {c};
      if c in raw {
        DictMembers(table.columns, ColumnName, c);
        assert ColumnName(raw[c]) == raw[c].name == c;
        CheckColumn(list, raw[c], columns[c], lower);
        forall f ensures ColumnReports(raw[c], columns[c], lower, f) ==> ColumnOf(f) == Some(c) {
          ColumnReportsOwn(raw[c], columns[c], lower, f);
        }
        ExtendsThen(old(list.items), before, list.items,
                    f => ColumnsReport(raw, columns, lower, columns.Keys - was, f),
                    f => ColumnReports(raw[c], columns[c], lower, f),
                    f => ColumnsReport(raw, columns, lower, columns.Keys - left, f));
      } else {
        ExtendsSame(old(list.items), list.items,
                    f => ColumnsReport(raw, columns, lower, columns.Keys - was, f),
                    f => ColumnsReport(raw, columns, lower, columns.Keys - left, f));
      }
    }
    ExtendsSame(old(list.items), list.items,
                f => ColumnsReport(raw, columns, lower, columns.Keys - left, f),
                f => ColumnsReport(raw, columns, lower, columns.Keys, f));
  }

  predicate RelationshipConflict(rs: seq<RelationshipReview>, n: nat, finding: Finding) {
    finding.ConflictingEvidence? && finding.place.InRelationship? && finding.place.relationship < n <= |rs|
    && IsConflicting(rs[finding.place.relationship].evidence)
  }

  method CheckRelationshipEvidence(list: SharedList<Finding>, rs: seq<RelationshipReview>)
    modifies list
    ensures Extends(old(list.items), list.items, f => RelationshipConflict(rs, |rs|, f))
  {
    hide Extends, IsConflicting;
    ExtendsNone(list.items, f => RelationshipConflict(rs, 0, f));
    for i := 0 to |rs|
      invariant Extends(old(list.items), list.items, f => RelationshipConflict(rs, i, f))
    {
      ghost var before := list.items;
      ValidateEvidence(list, InRelationship(i), rs[i].evidence);
      ExtendsThen(old(list.items), before, list.items,
                  f => RelationshipConflict(rs, i, f),
                  f => f == ConflictingEvidence(InRelationship(i)) && IsConflicting(rs[i].evidence),
                  f => RelationshipConflict(rs, i + 1, f));
    }
  }

  predicate RuleConflict(rules: seq<BusinessRule>, n: nat, finding: Finding) {
    finding.ConflictingEvidence? && finding.place.InRule? && finding.place.rule < n <= |rules|
    && IsConflicting(rules[finding.place.rule].evidence)
  }

  method CheckRuleEvidence(list: SharedList<Finding>, rules: seq<BusinessRule>)
    modifies list
    ensures Extends(old(list.items), list.items, f => RuleConflict(rules, |rules|, f))
  {
    hide Extends, IsConflicting;
    ExtendsNone(list.items, f => RuleConflict(rules, 0, f));
    for i := 0 to |rules|
      invariant Extends(old(list.items), list.items, f => RuleConflict(rules, i, f))
    {
      ghost var before := list.items;
      ValidateEvidence(list, InRule(i), rules[i].evidence);
      ExtendsThen(old(list.items), before, list.items,
                  f => RuleConflict(rules, i, f),
                  f => f == ConflictingEvidence(InRule(i)) && IsConflicting(rules[i].evidence),
                  f => RuleConflict(rules, i + 1, f));
    }
  }

  /** The findings about what the review says, rather than what it names. */
  predicate IsSemantic(finding: Finding) {
    ColumnOf(finding).Some? || finding.ConflictingEvidence?
  }

  method CheckSemantics(list: SharedList<Finding>, schema: DatabaseSchema, table: TableSchema, review: ReviewDocument,
                        lower: string -> string, hash: SchemaHasher)
    modifies list
    ensures Extends(old(list.items), list.items, f => IsSemantic(f) && TableReports(schema, table, review, lower, hash, f))
  {
    hide Extends, IsConflicting, ColumnReports, DictBy, TableSchemaHash, RelationshipReports;
    var raw := DictBy(table.columns, ColumnName);
    ghost var start := list.items;
    ValidateEvidence(list, InBusiness, review.business.evidence);
    ghost var afterBusiness := list.items;
    CheckColumns(list, table, review.columns, lower);
    ghost var afterColumns := list.items;
    ExtendsThen(start, afterBusiness, afterColumns,
                f => f == ConflictingEvidence(InBusiness) && IsConflicting(review.business.evidence),
                f => ColumnsReport(raw, review.columns, lower, review.columns.Keys, f),
                f => SemanticPart(table, review, lower, 1, f));
    CheckRelationshipEvidence(list, review.relationships);
    ghost var afterRelationships := list.items;
    ExtendsThen(start, afterColumns, afterRelationships,
                f => SemanticPart(table, review, lower, 1, f),
                f => RelationshipConflict(review.relationships, |review.relationships|, f),
                f => SemanticPart(table, review, lower, 2, f));
    CheckRuleEvidence(list, review.businessRules);
    ExtendsThen(start, afterRelationships, list.items,
                f => SemanticPart(table, review, lower, 2, f),
                f => RuleConflict(review.businessRules, |review.businessRules|, f),
                f => SemanticPart(table, review, lower, 3, f));
    forall f ensures SemanticPart(table, review, lower, 3, f) <==> IsSemantic(f) && TableReports(schema, table, review, lower, hash, f) {
      SemanticMeans(schema, table, review, lower, hash, f);
    }
    ExtendsSame(start, list.items, f => SemanticPart(table, review, lower, 3, f),
                f => IsSemantic(f) && TableReports(schema, table, review, lower, hash, f));
  }

  /** The evidence of the table and the columns, then of the relationships, then of the rules. */
  predicate SemanticPart(table: TableSchema, review: ReviewDocument, lower: string -> string, n: nat, finding: Finding) {
    || (finding == ConflictingEvidence(InBusiness) && IsConflicting(review.business.evidence))
    || ColumnsReport(DictBy(table.columns, ColumnName), review.columns, lower, review.columns.Keys, finding)
    || (n > 1 && RelationshipConflict(review.relationships, |review.relationships|, finding))
    || (n > 2 && RuleConflict(review.businessRules, |review.businessRules|, finding))
  }

  lemma NamesAreKeys(table: TableSchema, c: string)
    ensures c in ColumnNames(table) <==> c in DictBy(table.columns, ColumnName)
    ensures c in DictBy(table.columns, ColumnName) ==> DictBy(table.columns, ColumnName)[c].name == c
  {
    DictMembers(table.columns, ColumnName, c);
    if c in ColumnNames(table) {
      var x :| x in table.columns && x.name == c;
      assert ColumnName(x) == c;
    }
    if HasKey(table.columns, ColumnName, c) {
      var x :| x in table.columns && ColumnName(x) == c;
      assert x.name == c;
    }
    if c in DictBy(table.columns, ColumnName) {
      assert ColumnName(DictBy(table.columns, ColumnName)[c]) == c;
    }
  }

  lemma SemanticMeans(schema: DatabaseSchema, table: TableSchema, review: ReviewDocument, lower: string -> string,
                      hash: SchemaHasher, finding: Finding)
    ensures SemanticPart(table, review, lower, 3, finding) <==>
              IsSemantic(finding) && TableReports(schema, table, review, lower, hash, finding)
  {
    hide DictBy, ColumnNames, LacksTime, LacksUnit, LacksValues, LacksSensitivity;
    assert !IsConflicting([]);
    if ColumnOf(finding).Some? {
      NamesAreKeys(table, ColumnOf(finding).value);
    }
  }

  // ---- the validator ----

  predicate NameReports(schema: DatabaseSchema, table: TableSchema, review: ReviewDocument, hash: SchemaHasher, n: nat, finding: Finding) {
    || (finding.StaleHash? && review.schemaHash != TableSchemaHash(schema, table, hash))
    || (n > 1 && UnknownAmong(review.columns.Keys - ColumnNames(table), finding))
    || (n > 2 && MissingAmong(ColumnNames(table) - review.columns.Keys, finding))
    || (n > 3 && RelationshipsReport(TableMap(schema.tables), table, review.relationships, |review.relationships|, finding))
  }

  method CheckNames(list: SharedList<Finding>, schema: DatabaseSchema, table: TableSchema, review: ReviewDocument, hash: SchemaHasher)
    modifies list
    ensures Extends(old(list.items), list.items, f => NameReports(schema, table, review, hash, 4, f))
  {
    hide Extends, TableSchemaHash, ColumnNames, TableMap, RelationshipsReport;
    ghost var start := list.items;
    var stale := review.schemaHash != TableSchemaHash(schema, table, hash);
    ReportIf(list, stale, StaleHash);
    ExtendsSame(start, list.items, f => stale && f == StaleHash, f => NameReports(schema, table, review, hash, 1, f));
    ghost var before := list.items;
    CheckUnknownColumns(list, review.columns.Keys, ColumnNames(table));
    ExtendsThen(start, before, list.items, f => NameReports(schema, table, review, hash, 1, f),
                f => UnknownAmong(review.columns.Keys - ColumnNames(table), f),
                f => NameReports(schema, table, review, hash, 2, f));
    before := list.items;
    CheckMissingColumns(list, ColumnNames(table) - review.columns.Keys);
    ExtendsThen(start, before, list.items, f => NameReports(schema, table, review, hash, 2, f),
                f => MissingAmong(ColumnNames(table) - review.columns.Keys, f),
                f => NameReports(schema, table, review, hash, 3, f));
    before := list.items;
    CheckRelationships(list, TableMap(schema.tables), table, review.relationships);
    forall f ensures RelationshipsReport(TableMap(schema.tables), table, review.relationships, |review.relationships|, f)
                     ==> f.UnknownRelationshipTable? || f.UnknownRelationshipColumn? {
      RelationshipsOwn(TableMap(schema.tables), table, review.relationships, f);
    }
    ExtendsThen(start, before, list.items, f => NameReports(schema, table, review, hash, 3, f),
                f => RelationshipsReport(TableMap(schema.tables), table, review.relationships, |review.relationships|, f),
                f => NameReports(schema, table, review, hash, 4, f));
  }

  lemma RelationshipsOwn(tables: map<string, TableSchema>, table: TableSchema, rs: seq<RelationshipReview>, f: Finding)
    ensures RelationshipsReport(tables, table, rs, |rs|, f) ==> f.UnknownRelationshipTable? || f.UnknownRelationshipColumn?
  {
  }

  method CheckTable(list: SharedList<Finding>, schema: DatabaseSchema, table: TableSchema, review: ReviewDocument,
                    lower: string -> string, hash: SchemaHasher)
    modifies list
    ensures Extends(old(list.items), list.items, f => TableReports(schema, table, review, lower, hash, f))
  {
    hide Extends, TableReports, NameReports, IsSemantic;
    ghost var start := list.items;
    CheckNames(list, schema, table, review, hash);
    ghost var before := list.items;
    CheckSemantics(list, schema, table, review, lower, hash);
    forall f
      ensures !(NameReports(schema, table, review, hash, 4, f) && IsSemantic(f))
      ensures TableReports(schema, table, review, lower, hash, f) <==>
                NameReports(schema, table, review, hash, 4, f)
                || (IsSemantic(f) && TableReports(schema, table, review, lower, hash, f))
    {
      NamesOrSemantics(schema, table, review, lower, hash, f);
    }
    ExtendsThen(start, before, list.items,
                f => NameReports(schema, table, review, hash, 4, f),
                f => IsSemantic(f) && TableReports(schema, table, review, lower, hash, f),
                f => TableReports(schema, table, review, lower, hash, f));
  }

  lemma NamesOrSemantics(schema: DatabaseSchema, table: TableSchema, review: ReviewDocument, lower: string -> string,
                         hash: SchemaHasher, f: Finding)
    ensures !(NameReports(schema, table, review, hash, 4, f) && IsSemantic(f))
    ensures TableReports(schema, table, review, lower, hash, f) <==>
              NameReports(schema, table, review, hash, 4, f) || (IsSemantic(f) && TableReports(schema, table, review, lower, hash, f))
  {
    hide TableSchemaHash, ColumnNames, TableMap, RelationshipReports, DictBy, ColumnReports;
  }

  /** Every finding that holds is reported, once, and nothing else is. */
  method ValidateReviewDocument(schema: DatabaseSchema, contract: ReviewContract, review: ReviewDocument,
                                lower: string -> string, hash: SchemaHasher) returns (findings: seq<Finding>)
    ensures Lists(findings, f => Reports(schema, contract, review, lower, hash, f))
  {
    hide Extends, TableReports, VersionReports, TableMap;
    var list := new SharedList<Finding>();
    CheckVersions(list, schema, contract, review);
    ghost var before := list.items;
    ghost var versions: Finding -> bool := f => VersionReports(schema, contract, review, VERSION_FIELDS, f);
    ghost var all: Finding -> bool := f => Reports(schema, contract, review, lower, hash, f);
    forall f { VersionsReport(schema, contract, review, f); }
    var tables := TableMap(schema.tables);
    if review.table !in tables {
      list.Append(UnknownTableFound);
      ExtendsOne(before, UnknownTableFound, f => f == UnknownTableFound);
      ExtendsThen([], before, list.items, versions, f => f == UnknownTableFound, all);
    } else {
      var table := tables[review.table];
      CheckTable(list, schema, table, review, lower, hash);
      forall f { TableOwn(schema, table, review, lower, hash, f); }
      ExtendsThen([], before, list.items, versions, f => TableReports(schema, table, review, lower, hash, f), all);
    }
    findings := list.items;
    ExtendsFromNone(findings, all);
  }

  lemma VersionsReport(schema: DatabaseSchema, contract: ReviewContract, review: ReviewDocument, f: Finding)
    ensures VersionReports(schema, contract, review, VERSION_FIELDS, f) <==>
              f.Unexpected? && VersionOf(review, f.version) != ExpectedVersion(schema, contract, f.version)
  {
    if f.Unexpected? {
      match f.version
      case ContractField => assert VERSION_FIELDS[0] == f.version;
      case ReviewGuidelineField => assert VERSION_FIELDS[1] == f.version;
      case TransformationGuidelineField => assert VERSION_FIELDS[2] == f.version;
      case DatabaseField => assert VERSION_FIELDS[3] == f.version;
    }
  }

  lemma TableOwn(schema: DatabaseSchema, table: TableSchema, review: ReviewDocument, lower: string -> string,
                 hash: SchemaHasher, f: Finding)
    ensures TableReports(schema, table, review, lower, hash, f) ==> !f.Unexpected? && !f.UnknownTableFound?
  {
  }

  lemma ExtendsFromNone(findings: seq<Finding>, p: Finding -> bool)
    requires Extends([], findings, p)
    ensures Lists(findings, p)
  {
    assert findings[0..] == findings;
  }
}
