/** The name and reference checks that make a parsed schema well formed. */
module TblsSchema {
  import opened Wrappers
  import opened Sorting
  import opened Dictionaries
  import opened Models

  datatype SchemaError = DuplicateName | UnknownTable | UnknownColumn | ColumnCountMismatch

  function ColumnName(c: ColumnSchema): string {
    c.name
  }

  function TableName(t: TableSchema): string {
    t.name
  }

  function TableMap(tables: seq<TableSchema>): map<string, TableSchema> {
    DictBy(tables, TableName)
  }

  function ColumnNames(table: TableSchema): set<string> {
    set c | c in table.columns :: c.name
  }

  /** Both ends of a relation are declared tables that have the columns it names, pairwise. */
  predicate RelationResolves(r: RelationSchema, tables: map<string, TableSchema>) {
    && |r.columns| == |r.parentColumns|
    && r.table in tables && r.parentTable in tables
    && (forall c :: c in r.columns ==> c in ColumnNames(tables[r.table]))
    && (forall c :: c in r.parentColumns ==> c in ColumnNames(tables[r.parentTable]))
  }

  /** What every schema the parser returns satisfies. */
  ghost predicate ParserValid(schema: DatabaseSchema) {
    && DistinctKeys(schema.tables, TableName)
    && (forall t :: t in schema.tables ==> DistinctKeys(t.columns, ColumnName))
    && (forall r :: r in schema.relations ==> RelationResolves(r, TableMap(schema.tables)))
  }

  method RejectDuplicateNames<T(!new)>(values: seq<T>, name: T -> string) returns (r: Result<(), SchemaError>)
    ensures r.Ok? <==> DistinctKeys(values, name)
    ensures r.Err? ==> r.error == DuplicateName
  {
    var names: set<string> := {};
    for i := 0 to |values|
      invariant forall n :: n in names <==> exists j :: 0 <= j < i && name(values[j]) == n
      invariant DistinctKeys(values[..i], name)
    {
      if name(values[i]) in names {
        return Err(DuplicateName);
      }
      names := names + {name(values[i])};
      assert values[..i + 1] == values[..i] + [values[i]];
    }
    assert values[..|values|] == values;
    return Ok(());
  }

  method RequireColumns(available: set<string>, columns: seq<string>) returns (ok: bool)
    ensures ok <==> forall c :: c in columns ==> c in available
  {
    for i := 0 to |columns|
      invariant forall j :: 0 <= j < i ==> columns[j] in available
    {
      if columns[i] !in available {
        return false;
      }
    }
    return true;
  }

  method ResolveRelation(r: RelationSchema, tables: map<string, TableSchema>) returns (result: Result<(), SchemaError>)
    ensures result.Ok? <==> RelationResolves(r, tables)
  {
    if |r.columns| != |r.parentColumns| {
      return Err(ColumnCountMismatch);
    }
    if r.table !in tables || r.parentTable !in tables {
      return Err(UnknownTable);
    }
    var own := RequireColumns(ColumnNames(tables[r.table]), r.columns);
    var parent := RequireColumns(ColumnNames(tables[r.parentTable]), r.parentColumns);
    if !own || !parent {
      return Err(UnknownColumn);
    }
    return Ok(());
  }

  /** Accepts exactly the well-formed schemas. */
  method ValidateSchema(schema: DatabaseSchema) returns (result: Result<(), SchemaError>)
    ensures result.Ok? <==> ParserValid(schema)
  {
    for i := 0 to |schema.tables|
      invariant forall j :: 0 <= j < i ==> DistinctKeys(schema.tables[j].columns, ColumnName)
    {
      var columns := RejectDuplicateNames(schema.tables[i].columns, ColumnName);
      if columns.Err? {
        assert schema.tables[i] in schema.tables;
        return columns;
      }
    }
    var tables := RejectDuplicateNames(schema.tables, TableName);
    if tables.Err? {
      return tables;
    }
    for i := 0 to |schema.relations|
      invariant forall j :: 0 <= j < i ==> RelationResolves(schema.relations[j], TableMap(schema.tables))
    {
      var relation := ResolveRelation(schema.relations[i], TableMap(schema.tables));
      if relation.Err? {
        assert schema.relations[i] in schema.relations;
        return relation;
      }
    }
    return Ok(());
  }

  lemma TwoTables(a: TableSchema, b: TableSchema)
    requires a.name != b.name
    ensures DistinctKeys([a, b], TableName)
    ensures TableMap([a, b]).Keys == {a.name, b.name} && TableMap([a, b])[a.name] == a && TableMap([a, b])[b.name] == b
  {
    DictLookup([a, b], TableName, a);
    DictLookup([a, b], TableName, b);
    forall k ensures k in TableMap([a, b]) <==> k == a.name || k == b.name {
      DictMembers([a, b], TableName, k);
    }
  }

  // ---- what the parser guarantees ----

  /** Some table of this name has a column for each of these names. */
  ghost predicate EndDeclared(schema: DatabaseSchema, name: string, columns: seq<string>) {
    exists t :: t in schema.tables && t.name == name && forall k :: 0 <= k < |columns| ==> Declared(t, columns[k])
  }

  ghost predicate Declared(t: TableSchema, column: string) {
    exists c :: c in t.columns && c.name == column
  }

  lemma EndExactly(schema: DatabaseSchema, name: string, columns: seq<string>)
    requires DistinctKeys(schema.tables, TableName)
    ensures EndDeclared(schema, name, columns) <==>
              name in TableMap(schema.tables) && forall c :: c in columns ==> c in ColumnNames(TableMap(schema.tables)[name])
  {
    DictMembers(schema.tables, TableName, name);
    forall t | t in schema.tables && t.name == name ensures name in TableMap(schema.tables) && TableMap(schema.tables)[name] == t {
      DictLookup(schema.tables, TableName, t);
    }
    hide DictBy, DistinctKeys;
    forall t: TableSchema, c ensures c in ColumnNames(t) <==> Declared(t, c) {}
    if name in TableMap(schema.tables) && forall c :: c in columns ==> c in ColumnNames(TableMap(schema.tables)[name]) {
      var t := TableMap(schema.tables)[name];
      forall k | 0 <= k < |columns| ensures Declared(t, columns[k]) { assert columns[k] in columns; }
      assert TableName(t) == t.name;
    }
    if EndDeclared(schema, name, columns) {
      forall c | c in columns ensures c in ColumnNames(TableMap(schema.tables)[name]) {
        var k :| 0 <= k < |columns| && columns[k] == c;
      }
    }
  }

  /**
   * A schema is accepted exactly when tables and the columns of each table have distinct names, and every
   * relation has as many columns at one end as at the other and finds them all in declared tables.
   */
  lemma ParserValidExactly(schema: DatabaseSchema)
    ensures ParserValid(schema) <==>
              && (forall i, j :: 0 <= i < j < |schema.tables| ==> schema.tables[i].name != schema.tables[j].name)
              && (forall t :: t in schema.tables ==> forall i, j :: 0 <= i < j < |t.columns| ==> t.columns[i].name != t.columns[j].name)
              && (forall r :: r in schema.relations ==>
                    |r.columns| == |r.parentColumns| && EndDeclared(schema, r.table, r.columns)
                    && EndDeclared(schema, r.parentTable, r.parentColumns))
  {
    TablesDistinctly(schema.tables);
    forall t: TableSchema { ColumnsDistinctly(t.columns); }
    if DistinctKeys(schema.tables, TableName) {
      forall r: RelationSchema
        ensures RelationResolves(r, TableMap(schema.tables)) <==>
                  |r.columns| == |r.parentColumns| && EndDeclared(schema, r.table, r.columns)
                  && EndDeclared(schema, r.parentTable, r.parentColumns)
      {
        EndExactly(schema, r.table, r.columns);
        EndExactly(schema, r.parentTable, r.parentColumns);
      }
    }
    hide TableMap, ColumnNames, EndDeclared, RelationResolves;
  }

  lemma TablesDistinctly(tables: seq<TableSchema>)
    ensures DistinctKeys(tables, TableName) <==> forall i, j :: 0 <= i < j < |tables| ==> tables[i].name != tables[j].name
  {
    assert forall i :: 0 <= i < |tables| ==> TableName(tables[i]) == tables[i].name;
  }

  lemma ColumnsDistinctly(columns: seq<ColumnSchema>)
    ensures DistinctKeys(columns, ColumnName) <==> forall i, j :: 0 <= i < j < |columns| ==> columns[i].name != columns[j].name
  {
    assert forall i :: 0 <= i < |columns| ==> ColumnName(columns[i]) == columns[i].name;
  }
}
