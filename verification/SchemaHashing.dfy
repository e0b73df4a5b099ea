/** The canonical payload that a table's schema hash is computed from. */
module SchemaHashing {
  import opened Wrappers
  import opened Ordering
  import opened Sorting
  import opened Models
  import opened TblsSchema

  /** The JSON object that is hashed, its column and relation lists in canonical order. */
  datatype TablePayload = TablePayload(
    database: string,
    name: string,
    tableType: string,
    comment: string,
    columns: seq<ColumnSchema>,
    relations: seq<RelationSchema>
  )

  type SchemaHasher = TablePayload -> string

  /** The relation sort key: both tables and both column lists, and nothing else of the relation. */
  function Endpoints(r: RelationSchema): seq<seq<string>> {
    [[r.table], r.columns, [r.parentTable], r.parentColumns]
  }

  predicate Touches(r: RelationSchema, table: string) {
    r.table == table || r.parentTable == table
  }

  /** The relations of one table, in schema order. */
  function Related(relations: seq<RelationSchema>, table: string): seq<RelationSchema> {
    if relations == [] then []
    else (if Touches(relations[0], table) then [relations[0]] else []) + Related(relations[1..], table)
  }

  function Payload(schema: DatabaseSchema, table: TableSchema): TablePayload {
    TablePayload(schema.name, table.name, table.tableType, table.comment,
                 SortBy(table.columns, ColumnName, StrLess),
                 SortBy(Related(schema.relations, table.name), Endpoints, NestedLess))
  }

  function TableSchemaHash(schema: DatabaseSchema, table: TableSchema, hash: SchemaHasher): string {
    hash(Payload(schema, table))
  }

  /** No two different relations of the table share both endpoints. */
  ghost predicate EndpointsDetermine(relations: seq<RelationSchema>, table: string) {
    forall r, s | r in relations && s in relations && Touches(r, table) && Touches(s, table) ::
      Endpoints(r) == Endpoints(s) ==> r == s
  }

  lemma {:induction false} RelatedCount(relations: seq<RelationSchema>, table: string, r: RelationSchema)
    ensures multiset(Related(relations, table))[r] == if Touches(r, table) then multiset(relations)[r] else 0
    decreases |relations|
  {
    if relations == [] {
    } else {
      var first, rest := relations[0], relations[1..];
      RelatedCount(rest, table, r);
      TailMultiset(relations);
      var kept := if Touches(first, table) then [first] else [];
      assert multiset(relations)[r] == multiset(rest)[r] + if first == r then 1 else 0;
      assert multiset(kept + Related(rest, table)) == multiset(kept) + multiset(Related(rest, table));
    }
  }

  lemma RelatedMembers(relations: seq<RelationSchema>, table: string)
    ensures forall r :: r in Related(relations, table) <==> r in relations && Touches(r, table)
  {
    forall r ensures r in Related(relations, table) <==> r in relations && Touches(r, table) {
      RelatedCount(relations, table, r);
      assert r in relations <==> r in multiset(relations);
      assert r in Related(relations, table) <==> r in multiset(Related(relations, table));
    }
  }

  lemma RelatedPermuted(a: seq<RelationSchema>, b: seq<RelationSchema>, table: string)
    requires multiset(a) == multiset(b)
    ensures multiset(Related(a, table)) == multiset(Related(b, table))
  {
    forall r ensures multiset(Related(a, table))[r] == multiset(Related(b, table))[r] {
      RelatedCount(a, table, r);
      RelatedCount(b, table, r);
    }
  }

  lemma RelatedDetermined(relations: seq<RelationSchema>, table: string)
    ensures EndpointsDetermine(relations, table) <==> KeyDetermines(Related(relations, table), Endpoints)
  {
    RelatedMembers(relations, table);
    hide Related;
    var related := Related(relations, table);
    if KeyDetermines(related, Endpoints) {
      forall r, s | r in relations && s in relations && Touches(r, table) && Touches(s, table) && Endpoints(r) == Endpoints(s)
        ensures r == s
      {
        assert r in related && s in related;
      }
    }
    if EndpointsDetermine(relations, table) {
      forall r, s | r in related && s in related && Endpoints(r) == Endpoints(s) ensures r == s {
        assert r in relations && Touches(r, table);
      }
    }
  }

  lemma SameRelations(a: seq<RelationSchema>, b: seq<RelationSchema>, table: string)
    requires multiset(Related(a, table)) == multiset(Related(b, table)) && EndpointsDetermine(a, table)
    ensures SortBy(Related(a, table), Endpoints, NestedLess) == SortBy(Related(b, table), Endpoints, NestedLess)
  {
    NestedLessTotal();
    RelatedDetermined(a, table);
    hide NestedLess, Related, Endpoints, StrictTotal, KeyDetermines;
    SortCanonical(Related(a, table), Related(b, table), Endpoints, NestedLess);
  }

  lemma SameColumns(a: seq<ColumnSchema>, b: seq<ColumnSchema>)
    requires multiset(a) == multiset(b) && DistinctKeys(a, ColumnName)
    ensures SortBy(a, ColumnName, StrLess) == SortBy(b, ColumnName, StrLess)
  {
    StrLessTotal();
    forall x, y | x in a && y in a && ColumnName(x) == ColumnName(y) ensures x == y {
      var i :| 0 <= i < |a| && a[i] == x;
      var j :| 0 <= j < |a| && a[j] == y;
      assert i == j;
    }
    assert KeyDetermines(a, ColumnName);
    hide StrLess, KeyDetermines, DistinctKeys, StrictTotal;
    SortCanonical(a, b, ColumnName, StrLess);
  }

  /**
   * Reordering columns, tables and relations does not change what is hashed, when column names are
   * distinct and no two different relations of the table share their endpoints.
   */
  lemma PayloadInvariant(a: DatabaseSchema, t: TableSchema, b: DatabaseSchema, u: TableSchema)
    requires a.name == b.name && multiset(a.tables) == multiset(b.tables) && multiset(a.relations) == multiset(b.relations)
    requires t.name == u.name && t.tableType == u.tableType && t.comment == u.comment
    requires multiset(t.columns) == multiset(u.columns)
    requires DistinctKeys(t.columns, ColumnName) && EndpointsDetermine(a.relations, t.name)
    ensures Payload(a, t) == Payload(b, u)
  {
    RelatedPermuted(a.relations, b.relations, t.name);
    SameRelations(a.relations, b.relations, t.name);
    SameColumns(t.columns, u.columns);
  }

  // ---- what a hash binds ----

  /** The same relations touch the table, each as often. */
  ghost predicate SameTouching(a: seq<RelationSchema>, b: seq<RelationSchema>, table: string) {
    forall r | Touches(r, table) :: multiset(a)[r] == multiset(b)[r]
  }

  /** Everything a table's hash is about: its database, itself, its columns and the relations touching it, in no order. */
  ghost predicate SameFacts(a: DatabaseSchema, t: TableSchema, b: DatabaseSchema, u: TableSchema) {
    && a.name == b.name && t.name == u.name && t.tableType == u.tableType && t.comment == u.comment
    && multiset(t.columns) == multiset(u.columns) && SameTouching(a.relations, b.relations, t.name)
  }

  lemma TouchingExactly(a: seq<RelationSchema>, b: seq<RelationSchema>, table: string)
    ensures multiset(Related(a, table)) == multiset(Related(b, table)) <==> SameTouching(a, b, table)
  {
    forall r
      ensures multiset(Related(a, table))[r] == if Touches(r, table) then multiset(a)[r] else 0
      ensures multiset(Related(b, table))[r] == if Touches(r, table) then multiset(b)[r] else 0
    {
      RelatedCount(a, table, r);
      RelatedCount(b, table, r);
    }
  }

  /** Equal payloads come from equal facts: a change of any of them changes what is hashed. */
  lemma PayloadDetermines(a: DatabaseSchema, t: TableSchema, b: DatabaseSchema, u: TableSchema)
    requires Payload(a, t) == Payload(b, u)
    ensures SameFacts(a, t, b, u)
  {
    hide Related, SortBy, Endpoints, NestedLess, StrLess, SameTouching;
    SortMultiset(t.columns, ColumnName, StrLess);
    SortMultiset(u.columns, ColumnName, StrLess);
    SortMultiset(Related(a.relations, t.name), Endpoints, NestedLess);
    SortMultiset(Related(b.relations, u.name), Endpoints, NestedLess);
    TouchingExactly(a.relations, b.relations, t.name);
  }

  /**
   * With a collision-free hash a table's schema hash stays the same exactly when its facts do, for distinct
   * column names and relations that their endpoints determine.
   */
  lemma HashUnchangedExactly(a: DatabaseSchema, t: TableSchema, b: DatabaseSchema, u: TableSchema, hash: SchemaHasher)
    requires Injective(hash) && DistinctKeys(t.columns, ColumnName) && EndpointsDetermine(a.relations, t.name)
    ensures TableSchemaHash(a, t, hash) == TableSchemaHash(b, u, hash) <==> SameFacts(a, t, b, u)
  {
    if SameFacts(a, t, b, u) {
      TouchingExactly(a.relations, b.relations, t.name);
      SameRelations(a.relations, b.relations, t.name);
      SameColumns(t.columns, u.columns);
    } else if Payload(a, t) == Payload(b, u) {
      PayloadDetermines(a, t, b, u);
    }
  }

  // ---- exactly when the relation order is immaterial ----

  /** Every reordering of the relations leaves the payload as it is. */
  ghost predicate OrderFree(schema: DatabaseSchema, table: TableSchema) {
    forall reordered :: multiset(reordered) == multiset(schema.relations) ==>
      Payload(schema.(relations := reordered), table) == Payload(schema, table)
  }

  /** The reordering that puts one relation first. */
  function MovedFirst(relations: seq<RelationSchema>, i: nat): seq<RelationSchema>
    requires i < |relations|
  {
    [relations[i]] + relations[..i] + relations[i + 1..]
  }

  lemma MovedFirstPermutes(relations: seq<RelationSchema>, i: nat)
    requires i < |relations|
    ensures multiset(MovedFirst(relations, i)) == multiset(relations)
  {
    assert relations == relations[..i] + [relations[i]] + relations[i + 1..];
  }

  /** A relation put first is the first with its endpoints in the payload. */
  lemma FirstInPayload(schema: DatabaseSchema, table: TableSchema, relations: seq<RelationSchema>)
    requires relations != [] && Touches(relations[0], table.name)
    ensures HasKey(Payload(schema.(relations := relations), table).relations, Endpoints, Endpoints(relations[0]))
    ensures FirstWith(Payload(schema.(relations := relations), table).relations, Endpoints, Endpoints(relations[0]))
         == relations[0]
  {
    NestedLessTotal();
    var related := Related(relations, table.name);
    assert related[0] == relations[0] && related[0] in related;
    hide NestedLess, StrictTotal, Endpoints;
    SortFirst(related, Endpoints, NestedLess, Endpoints(relations[0]));
  }

  lemma OrderFreeDetermines(schema: DatabaseSchema, table: TableSchema)
    requires OrderFree(schema, table)
    ensures EndpointsDetermine(schema.relations, table.name)
  {
    var relations := schema.relations;
    forall r, s | r in relations && s in relations && Touches(r, table.name) && Touches(s, table.name)
      && Endpoints(r) == Endpoints(s)
      ensures r == s
    {
      var i :| 0 <= i < |relations| && relations[i] == r;
      var j :| 0 <= j < |relations| && relations[j] == s;
      MovedFirstPermutes(relations, i);
      MovedFirstPermutes(relations, j);
      var one, two := MovedFirst(relations, i), MovedFirst(relations, j);
      assert Payload(schema.(relations := one), table) == Payload(schema.(relations := two), table);
      hide Payload, Endpoints, Touches;
      FirstInPayload(schema, table, one);
      FirstInPayload(schema, table, two);
    }
  }

  /** The relation order is immaterial to a table's hash exactly when endpoints determine its relations. */
  lemma OrderFreeExactly(schema: DatabaseSchema, table: TableSchema)
    ensures OrderFree(schema, table) <==> EndpointsDetermine(schema.relations, table.name)
  {
    if EndpointsDetermine(schema.relations, table.name) {
      forall reordered | multiset(reordered) == multiset(schema.relations)
        ensures Payload(schema.(relations := reordered), table) == Payload(schema, table)
      {
        RelatedPermuted(schema.relations, reordered, table.name);
        SameRelations(schema.relations, reordered, table.name);
      }
    }
    if OrderFree(schema, table) {
      OrderFreeDetermines(schema, table);
    }
  }

  // ---- a schema whose hash depends on the order ----

  function KeyColumn(name: string): ColumnSchema {
    ColumnSchema(name, "UInt64", false, "")
  }

  function Orders(): TableSchema {
    TableSchema("orders", "MergeTree", "", [KeyColumn("customer_id")])
  }

  function Customers(): TableSchema {
    TableSchema("customers", "MergeTree", "", [KeyColumn("id")])
  }

  function OrderCustomer(definition: string): RelationSchema {
    RelationSchema("orders", ["customer_id"], "customers", ["id"], definition, false)
  }

  /** Two relations that differ only in their definition. */
  function DoublyRelated(): DatabaseSchema {
    DatabaseSchema("shop", "", [Orders(), Customers()], [OrderCustomer("declared"), OrderCustomer("inferred")])
  }

  lemma DoublyRelatedValid()
    ensures ParserValid(DoublyRelated()) && Orders() in DoublyRelated().tables
  {
    TwoTables(Orders(), Customers());
    assert KeyColumn("customer_id") in Orders().columns && KeyColumn("id") in Customers().columns;
    assert "customer_id" in ColumnNames(Orders()) && "id" in ColumnNames(Customers());
    hide TableMap;
    forall definition ensures RelationResolves(OrderCustomer(definition), TableMap(DoublyRelated().tables)) {}
  }

  lemma DoublyRelatedClash()
    ensures !EndpointsDetermine(DoublyRelated().relations, Orders().name)
  {
    var r, s := OrderCustomer("declared"), OrderCustomer("inferred");
    assert r in DoublyRelated().relations && s in DoublyRelated().relations;
    assert Endpoints(r) == Endpoints(s) && r.definition[0] != s.definition[0];
  }

  /**
   * A schema the parser accepts, with two relations that differ only in their definition: swapping them
   * changes the payload of the table they start from.
   */
  lemma SwappedRelationsChangePayload() returns (schema: DatabaseSchema, table: TableSchema)
    ensures ParserValid(schema) && table in schema.tables
    ensures !OrderFree(schema, table)
  {
    hide ParserValid, OrderFree, EndpointsDetermine;
    schema, table := DoublyRelated(), Orders();
    DoublyRelatedValid();
    DoublyRelatedClash();
    OrderFreeExactly(schema, table);
  }
}
