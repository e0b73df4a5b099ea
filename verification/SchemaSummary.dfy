/** The table-level drift summary of two schemas. */
module SchemaSummary {
  import opened Wrappers
  import opened Ordering
  import opened Sorting
  import opened Dictionaries
  import opened Models
  import opened TblsSchema
  import opened SchemaHashing

  /** The textual form relations are sorted by; it shows every field, so it is injective. */
  type Repr = RelationSchema -> string

  datatype Summary = Summary(added: seq<string>, modified: seq<string>, deleted: seq<string>, reviewFiles: seq<string>) {
    predicate HasChanges() {
      added != [] || modified != [] || deleted != []
    }
  }

  /** The entries one relation adds to a table's list: one per end. */
  function Entries(r: RelationSchema, table: string): seq<RelationSchema> {
    (if r.table == table then [r] else []) + (if r.parentTable == table then [r] else [])
  }

  /** A table's list, in schema order; a self-relation is in it twice. */
  function Listed(relations: seq<RelationSchema>, table: string): seq<RelationSchema> {
    if relations == [] then []
    else Listed(relations[..|relations| - 1], table) + Entries(relations[|relations| - 1], table)
  }

  /** `_relations_by_table(schema).get(table, ())`. */
  function SortedRelations(schema: DatabaseSchema, table: string, repr: Repr): seq<RelationSchema> {
    SortBy(Listed(schema.relations, table), repr, StrLess)
  }

  function Names(schema: DatabaseSchema): set<string> {
    TableMap(schema.tables).Keys
  }

  /** A table in both schemas that is not the same, or whose relations are not. */
  predicate IsModified(before: DatabaseSchema, after: DatabaseSchema, name: string, repr: Repr) {
    && name in TableMap(before.tables) && name in TableMap(after.tables)
    && (TableMap(before.tables)[name] != TableMap(after.tables)[name] ||
        SortedRelations(before, name, repr) != SortedRelations(after, name, repr))
  }

  function ModifiedNames(before: DatabaseSchema, after: DatabaseSchema, repr: Repr): set<string> {
    set name | name in Names(before) * Names(after) && IsModified(before, after, name, repr)
  }

  function Affected(before: DatabaseSchema, after: DatabaseSchema, repr: Repr): set<string> {
    (Names(after) - Names(before)) + ModifiedNames(before, after, repr) + (Names(before) - Names(after))
  }

  function ReviewFile(database: string, table: string): string {
    "catalog/" + database + "/review/" + table + ".yml"
  }

  function ReviewFiles(database: string, tables: seq<string>): (files: seq<string>)
    ensures |files| == |tables| && forall i :: 0 <= i < |tables| ==> files[i] == ReviewFile(database, tables[i])
  {
    seq(|tables|, i requires 0 <= i < |tables| => ReviewFile(database, tables[i]))
  }

  function CatalogDatabase(after: DatabaseSchema, key: Option<string>): string {
    if key.Some? && key.value != "" then key.value else after.name
  }

  function SummaryOf(before: DatabaseSchema, after: DatabaseSchema, key: Option<string>, repr: Repr): Summary {
    Summary(SortedSet(Names(after) - Names(before)),
            SortedSet(ModifiedNames(before, after, repr)),
            SortedSet(Names(before) - Names(after)),
            ReviewFiles(CatalogDatabase(after, key), SortedSet(Affected(before, after, repr))))
  }

  // ---- the operation ----

  function ListAt(lists: map<string, seq<RelationSchema>>, name: string): seq<RelationSchema> {
    if name in lists then lists[name] else []
  }

  function AddRelation(values: map<string, seq<RelationSchema>>, r: RelationSchema): map<string, seq<RelationSchema>> {
    var once := values[r.table := ListAt(values, r.table) + [r]];
    once[r.parentTable := ListAt(once, r.parentTable) + [r]]
  }

  lemma AddRelationLists(values: map<string, seq<RelationSchema>>, r: RelationSchema, name: string)
    ensures ListAt(AddRelation(values, r), name) == ListAt(values, name) + Entries(r, name)
  {
  }

  lemma ListedNone()
    ensures forall name :: Listed([], name) == []
  {
  }

  lemma ListedNext(relations: seq<RelationSchema>, n: nat, name: string)
    requires n < |relations|
    ensures Listed(relations[..n + 1], name) == Listed(relations[..n], name) + Entries(relations[n], name)
  {
    assert relations[..n + 1][..n] == relations[..n];
  }

  method RelationsByTable(schema: DatabaseSchema, repr: Repr) returns (lists: map<string, seq<RelationSchema>>)
    ensures forall name :: ListAt(lists, name) == SortedRelations(schema, name, repr)
  {
    hide Listed, Entries, AddRelation, SortBy;
    var values: map<string, seq<RelationSchema>> := map[];
    ListedNone();
    for i := 0 to |schema.relations|
      invariant forall name :: ListAt(values, name) == Listed(schema.relations[..i], name)
    {
      ghost var before := values;
      values := AddRelation(values, schema.relations[i]);
      forall name ensures ListAt(values, name) == Listed(schema.relations[..i + 1], name) {
        AddRelationLists(before, schema.relations[i], name);
        ListedNext(schema.relations, i, name);
      }
    }
    assert schema.relations[..|schema.relations|] == schema.relations;
    lists := SortLists(values, repr);
    forall name ensures ListAt(lists, name) == SortedRelations(schema, name, repr) {
      assert ListAt(values, name) == Listed(schema.relations, name);
    }
  }

  function SortLists(values: map<string, seq<RelationSchema>>, repr: Repr): (lists: map<string, seq<RelationSchema>>)
    ensures forall name :: ListAt(lists, name) == SortBy(ListAt(values, name), repr, StrLess)
  {
    map name | name in values :: SortBy(values[name], repr, StrLess)
  }

  method SummarizeSchemaChange(before: DatabaseSchema, after: DatabaseSchema, key: Option<string>, repr: Repr)
    returns (summary: Summary)
    ensures summary == SummaryOf(before, after, key, repr)
  {
    hide SortedRelations, SortedSet, DictBy;
    var beforeTables, afterTables := TableMap(before.tables), TableMap(after.tables);
    var common := beforeTables.Keys * afterTables.Keys;
    var modified := set name | name in common && beforeTables[name] != afterTables[name];
    var beforeRelations := RelationsByTable(before, repr);
    var afterRelations := RelationsByTable(after, repr);
    var left := common;
    while left != {}
      invariant left <= common
      invariant modified == set name | name in common &&
                  (beforeTables[name] != afterTables[name] ||
                   (name !in left && SortedRelations(before, name, repr) != SortedRelations(after, name, repr)))
      decreases left
    {
      var name :| name in left;
      if ListAt(beforeRelations, name) != ListAt(afterRelations, name) {
        modified := modified + {name};
      }
      left := left - {name};
    }
    assert modified == ModifiedNames(before, after, repr);
    var added, deleted := afterTables.Keys - beforeTables.Keys, beforeTables.Keys - afterTables.Keys;
    summary := Summary(SortedSet(added), SortedSet(modified), SortedSet(deleted),
                       ReviewFiles(CatalogDatabase(after, key), SortedSet(added + modified + deleted)));
  }

  // ---- the summary is exact ----

  /** A table's list holds a relation once for each of its ends at the table. */
  function Times(count: nat, r: RelationSchema, table: string): nat {
    (if r.table == table then count else 0) + (if r.parentTable == table then count else 0)
  }

  lemma EntriesCount(x: RelationSchema, table: string, r: RelationSchema)
    ensures multiset(Entries(x, table))[r] == Times(if x == r then 1 else 0, r, table)
  {
  }

  lemma {:induction false} ListedCount(relations: seq<RelationSchema>, table: string, r: RelationSchema)
    ensures multiset(Listed(relations, table))[r] == Times(multiset(relations)[r], r, table)
    decreases |relations|
  {
    if relations == [] {
    } else {
      var init, last := relations[..|relations| - 1], relations[|relations| - 1];
      ListedCount(init, table, r);
      EntriesCount(last, table, r);
      LastCount(relations, r);
      ConcatCount(Listed(init, table), Entries(last, table), r);
      hide Entries;
    }
  }

  lemma ListedSame(a: seq<RelationSchema>, b: seq<RelationSchema>, table: string)
    requires multiset(a) == multiset(b)
    ensures multiset(Listed(a, table)) == multiset(Listed(b, table))
  {
    forall r ensures multiset(Listed(a, table))[r] == multiset(Listed(b, table))[r] {
      ListedCount(a, table, r);
      ListedCount(b, table, r);
    }
  }

  /** The sorted lists are equal exactly when the lists are equal as multisets. */
  lemma SortedSame(before: DatabaseSchema, after: DatabaseSchema, table: string, repr: Repr)
    requires Injective(repr)
    ensures SortedRelations(before, table, repr) == SortedRelations(after, table, repr) <==>
              multiset(Listed(before.relations, table)) == multiset(Listed(after.relations, table))
  {
    var a, b := Listed(before.relations, table), Listed(after.relations, table);
    StrLessTotal();
    SortMultiset(a, repr, StrLess);
    SortMultiset(b, repr, StrLess);
    hide StrLess, StrictTotal, Listed;
    if multiset(a) == multiset(b) {
      SortCanonical(a, b, repr, StrLess);
    }
  }

  lemma RelationCounted(before: DatabaseSchema, after: DatabaseSchema, r: RelationSchema)
    requires r.table in Names(before) && Names(before) == Names(after)
    requires forall name :: name in Names(before) ==>
               multiset(Listed(before.relations, name)) == multiset(Listed(after.relations, name))
    ensures multiset(before.relations)[r] == multiset(after.relations)[r]
  {
    hide Names, Listed;
    ListedCount(before.relations, r.table, r);
    ListedCount(after.relations, r.table, r);
  }

  lemma RelationKnown(schema: DatabaseSchema, r: RelationSchema)
    requires ParserValid(schema) && r in schema.relations
    ensures r.table in Names(schema)
  {
  }

  /** Two well-formed schemas whose per-table lists agree have the same relations with the same multiplicities. */
  lemma ListsDetermineRelations(before: DatabaseSchema, after: DatabaseSchema)
    requires ParserValid(before) && ParserValid(after) && Names(before) == Names(after)
    requires forall name :: name in Names(before) ==>
               multiset(Listed(before.relations, name)) == multiset(Listed(after.relations, name))
    ensures multiset(before.relations) == multiset(after.relations)
  {
    hide ParserValid, Names, Listed;
    forall r ensures multiset(before.relations)[r] == multiset(after.relations)[r] {
      if r in before.relations {
        RelationKnown(before, r);
        RelationCounted(before, after, r);
      } else if r in after.relations {
        RelationKnown(after, r);
        RelationCounted(before, after, r);
      }
    }
  }

  lemma NoChangesMeans(before: DatabaseSchema, after: DatabaseSchema, key: Option<string>, repr: Repr)
    ensures !SummaryOf(before, after, key, repr).HasChanges() <==> Affected(before, after, repr) == {}
  {
    hide Names, ModifiedNames;
    SortedEmpty(Names(after) - Names(before));
    SortedEmpty(ModifiedNames(before, after, repr));
    SortedEmpty(Names(before) - Names(after));
  }

  lemma SortedEmpty(s: set<string>)
    ensures SortedSet(s) == [] <==> s == {}
  {
  }

  /** The same tables and the same relations leave no table modified. */
  lemma SameUnaffected(before: DatabaseSchema, after: DatabaseSchema, repr: Repr)
    requires Injective(repr) && TableMap(before.tables) == TableMap(after.tables)
    requires multiset(before.relations) == multiset(after.relations)
    ensures Affected(before, after, repr) == {}
  {
    hide SortedRelations, TableMap, Listed, Injective;
    forall name ensures SortedRelations(before, name, repr) == SortedRelations(after, name, repr) {
      ListedSame(before.relations, after.relations, name);
      SortedSame(before, after, name, repr);
    }
  }

  lemma UnaffectedTables(before: DatabaseSchema, after: DatabaseSchema, repr: Repr)
    requires Affected(before, after, repr) == {}
    ensures TableMap(before.tables) == TableMap(after.tables)
    ensures forall name :: name in Names(before) ==> SortedRelations(before, name, repr) == SortedRelations(after, name, repr)
  {
    hide SortedRelations, TableMap;
    var b, a := TableMap(before.tables), TableMap(after.tables);
    assert b.Keys - a.Keys == {} && a.Keys - b.Keys == {};
    assert b.Keys == a.Keys;
    forall name | name in b ensures b[name] == a[name] && SortedRelations(before, name, repr) == SortedRelations(after, name, repr) {
      assert name !in ModifiedNames(before, after, repr);
    }
    assert b == a;
  }

  /**
   * Between schemas the parser accepts, the summary reports no change exactly when the tables are equal
   * by name and the relations are equal as multisets, self-relations included.
   */
  lemma NoChangesExactly(before: DatabaseSchema, after: DatabaseSchema, key: Option<string>, repr: Repr)
    requires ParserValid(before) && ParserValid(after) && Injective(repr)
    ensures !SummaryOf(before, after, key, repr).HasChanges() <==>
              TableMap(before.tables) == TableMap(after.tables) && multiset(before.relations) == multiset(after.relations)
  {
    hide SortedRelations, TableMap, Listed, Injective, ParserValid, Affected, SummaryOf;
    NoChangesMeans(before, after, key, repr);
    if TableMap(before.tables) == TableMap(after.tables) && multiset(before.relations) == multiset(after.relations) {
      SameUnaffected(before, after, repr);
    }
    if Affected(before, after, repr) == {} {
      UnaffectedTables(before, after, repr);
      forall name | name in Names(before) ensures multiset(Listed(before.relations, name)) == multiset(Listed(after.relations, name)) {
        SortedSame(before, after, name, repr);
      }
      ListsDetermineRelations(before, after);
    }
  }

  // ---- composition ----

  predicate SameTable(a: DatabaseSchema, b: DatabaseSchema, name: string, repr: Repr) {
    (name in Names(a) <==> name in Names(b)) &&
    (name in Names(a) && name in Names(b) ==>
       TableMap(a.tables)[name] == TableMap(b.tables)[name] && SortedRelations(a, name, repr) == SortedRelations(b, name, repr))
  }

  lemma AffectedExactly(a: DatabaseSchema, b: DatabaseSchema, name: string, repr: Repr)
    ensures name in Affected(a, b, repr) <==> !SameTable(a, b, name, repr)
  {
    hide SortedRelations, TableMap;
  }

  /** Along any chain of schemas, a table affected end to end is affected by some step. */
  lemma {:induction false} AffectedComposes(chain: seq<DatabaseSchema>, name: string, repr: Repr)
    requires chain != [] && name in Affected(chain[0], chain[|chain| - 1], repr)
    ensures exists i :: 0 <= i < |chain| - 1 && name in Affected(chain[i], chain[i + 1], repr)
    decreases |chain|
  {
    hide SortedRelations, TableMap, Affected;
    var last := |chain| - 1;
    AffectedExactly(chain[0], chain[last], name, repr);
    if last > 0 {
      AffectedExactly(chain[0], chain[last - 1], name, repr);
      AffectedExactly(chain[last - 1], chain[last], name, repr);
      if name in Affected(chain[0], chain[last - 1], repr) {
        var shorter := chain[..last];
        AffectedComposes(shorter, name, repr);
        var i :| 0 <= i < |shorter| - 1 && name in Affected(shorter[i], shorter[i + 1], repr);
        assert chain[i] == shorter[i] && chain[i + 1] == shorter[i + 1];
      } else {
        assert chain[last - 1 + 1] == chain[last];
      }
    }
  }

  // ---- the summary and the schema hash ----

  /** A table's list determines its related relations, whichever of its ends each one touches. */
  lemma ListedDeterminesRelated(a: seq<RelationSchema>, b: seq<RelationSchema>, name: string)
    requires multiset(Listed(a, name)) == multiset(Listed(b, name))
    ensures multiset(Related(a, name)) == multiset(Related(b, name))
  {
    forall r ensures multiset(Related(a, name))[r] == multiset(Related(b, name))[r] {
      ListedCount(a, name, r);
      ListedCount(b, name, r);
      RelatedCount(a, name, r);
      RelatedCount(b, name, r);
      hide Listed, Related;
    }
  }

  /** A table the summary does not list as modified keeps its schema hash. */
  lemma UnlistedKeepsHash(before: DatabaseSchema, after: DatabaseSchema, key: Option<string>, name: string, repr: Repr, hash: SchemaHasher)
    requires before.name == after.name && Injective(repr)
    requires name in Names(before) && name in Names(after) && name !in SummaryOf(before, after, key, repr).modified
    requires EndpointsDetermine(before.relations, name)
    ensures TableSchemaHash(before, TableMap(before.tables)[name], hash) == TableSchemaHash(after, TableMap(after.tables)[name], hash)
  {
    DictMembers(before.tables, TableName, name);
    assert TableMap(before.tables)[name].name == name;
    hide EndpointsDetermine, SortedRelations, TableMap, Listed, SortedSet;
    assert !IsModified(before, after, name, repr);
    SortedSame(before, after, name, repr);
    ListedDeterminesRelated(before.relations, after.relations, name);
    SameRelations(before.relations, after.relations, name);
  }

  // ---- what the summary lists ----

  ghost predicate HasTable(schema: DatabaseSchema, name: string) {
    exists t :: t in schema.tables && t.name == name
  }

  /** Some table of this name is the same in both schemas. */
  ghost predicate TableStays(before: DatabaseSchema, after: DatabaseSchema, name: string) {
    exists t :: t in before.tables && t in after.tables && t.name == name
  }

  lemma NamesAreTables(schema: DatabaseSchema, name: string)
    ensures name in Names(schema) <==> HasTable(schema, name)
  {
    DictMembers(schema.tables, TableName, name);
    hide DictBy;
    if HasTable(schema, name) {
      var t :| t in schema.tables && t.name == name;
      assert TableName(t) == name;
    }
  }

  lemma StaysExactly(before: DatabaseSchema, after: DatabaseSchema, name: string)
    requires ParserValid(before) && ParserValid(after) && HasTable(before, name) && HasTable(after, name)
    ensures name in Names(before) && name in Names(after)
    ensures TableMap(before.tables)[name] == TableMap(after.tables)[name] <==> TableStays(before, after, name)
  {
    NamesAreTables(before, name);
    NamesAreTables(after, name);
    DictMembers(before.tables, TableName, name);
    DictMembers(after.tables, TableName, name);
    hide DictBy;
    assert TableMap(before.tables)[name] in before.tables && TableMap(after.tables)[name] in after.tables;
    if t :| t in before.tables && t in after.tables && t.name == name {
      DictLookup(before.tables, TableName, t);
      DictLookup(after.tables, TableName, t);
    }
  }

  /** A table's lists agree exactly when the same relations touch it. */
  lemma ListsAgreeExactly(before: DatabaseSchema, after: DatabaseSchema, name: string, repr: Repr)
    requires Injective(repr)
    ensures SortedRelations(before, name, repr) == SortedRelations(after, name, repr) <==>
              SameTouching(before.relations, after.relations, name)
  {
    hide Listed, SortedRelations, Injective;
    SortedSame(before, after, name, repr);
    var a, b := Listed(before.relations, name), Listed(after.relations, name);
    forall r
      ensures multiset(a)[r] == Times(multiset(before.relations)[r], r, name)
      ensures multiset(b)[r] == Times(multiset(after.relations)[r], r, name)
    {
      ListedCount(before.relations, name, r);
      ListedCount(after.relations, name, r);
    }
    if SameTouching(before.relations, after.relations, name) {
      assert forall r :: multiset(a)[r] == multiset(b)[r];
      assert multiset(a) == multiset(b);
    }
  }

  ghost predicate IsAdded(before: DatabaseSchema, after: DatabaseSchema, name: string) {
    HasTable(after, name) && !HasTable(before, name)
  }

  /** In both schemas, but with another definition or other relations touching it. */
  ghost predicate Changed(before: DatabaseSchema, after: DatabaseSchema, name: string) {
    && HasTable(before, name) && HasTable(after, name)
    && !(TableStays(before, after, name) && SameTouching(before.relations, after.relations, name))
  }

  lemma ModifiedExactly(before: DatabaseSchema, after: DatabaseSchema, name: string, repr: Repr)
    requires ParserValid(before) && ParserValid(after) && Injective(repr)
    ensures name in ModifiedNames(before, after, repr) <==> Changed(before, after, name)
  {
    hide ParserValid, HasTable, TableStays, SameTouching, SortedRelations, TableMap, Injective;
    NamesAreTables(before, name);
    NamesAreTables(after, name);
    if HasTable(before, name) && HasTable(after, name) {
      StaysExactly(before, after, name);
      ListsAgreeExactly(before, after, name, repr);
    }
  }

  /** The directory name in review paths. */
  function KeyOr(key: Option<string>, name: string): string {
    match key
    case None => name
    case Some(k) => if k == "" then name else k
  }

  ghost predicate Drifted(before: DatabaseSchema, after: DatabaseSchema, name: string) {
    IsAdded(before, after, name) || IsAdded(after, before, name) || Changed(before, after, name)
  }

  /** One path for each drifted table, in name order. */
  ghost predicate OnePathEach(before: DatabaseSchema, after: DatabaseSchema, directory: string, files: seq<string>) {
    exists names: seq<string> :: StrictlySorted(names) && NamesDrifted(before, after, names) && PathsOf(directory, names, files)
  }

  ghost predicate NamesDrifted(before: DatabaseSchema, after: DatabaseSchema, names: seq<string>) {
    forall name :: name in names <==> Drifted(before, after, name)
  }

  ghost predicate PathsOf(directory: string, names: seq<string>, files: seq<string>) {
    && |files| == |names|
    && forall i :: 0 <= i < |names| ==> files[i] == "catalog/" + directory + "/review/" + names[i] + ".yml"
  }

  lemma SetsExactly(before: DatabaseSchema, after: DatabaseSchema, repr: Repr, name: string)
    requires ParserValid(before) && ParserValid(after) && Injective(repr)
    ensures name in Names(after) - Names(before) <==> IsAdded(before, after, name)
    ensures name in Names(before) - Names(after) <==> IsAdded(after, before, name)
    ensures name in ModifiedNames(before, after, repr) <==> Changed(before, after, name)
    ensures name in Affected(before, after, repr) <==> Drifted(before, after, name)
  {
    hide ParserValid, HasTable, Changed, ModifiedNames, Names;
    NamesAreTables(before, name);
    NamesAreTables(after, name);
    ModifiedExactly(before, after, name, repr);
  }

  /**
   * The summary says exactly what happened to each table between two schemas the parser accepts: the tables
   * only the later schema has, those only the earlier one has, those in both that differ, each list sorted
   * and without repeats, and one review path for each of them in name order.
   */
  lemma SummaryExact(before: DatabaseSchema, after: DatabaseSchema, key: Option<string>, repr: Repr)
    requires ParserValid(before) && ParserValid(after) && Injective(repr)
    ensures var s := SummaryOf(before, after, key, repr);
            && StrictlySorted(s.added) && StrictlySorted(s.modified) && StrictlySorted(s.deleted)
            && (forall name :: name in s.added <==> IsAdded(before, after, name))
            && (forall name :: name in s.deleted <==> IsAdded(after, before, name))
            && (forall name :: name in s.modified <==> Changed(before, after, name))
            && |s.reviewFiles| == |s.added| + |s.modified| + |s.deleted|
            && OnePathEach(before, after, KeyOr(key, after.name), s.reviewFiles)
  {
    hide ParserValid, HasTable, Changed, SortedSet, StrictlySorted, ModifiedNames, Names, Injective, IsAdded, Drifted, OnePathEach;
    var added, deleted := Names(after) - Names(before), Names(before) - Names(after);
    var modified := ModifiedNames(before, after, repr);
    SortedSetSorted(added);
    SortedSetSorted(deleted);
    SortedSetSorted(modified);
    forall name
      ensures name in added <==> IsAdded(before, after, name)
      ensures name in deleted <==> IsAdded(after, before, name)
      ensures name in modified <==> Changed(before, after, name)
    {
      SetsExactly(before, after, repr, name);
    }
    PathsExact(before, after, key, repr);
  }

  lemma PathsExact(before: DatabaseSchema, after: DatabaseSchema, key: Option<string>, repr: Repr)
    requires ParserValid(before) && ParserValid(after) && Injective(repr)
    ensures var s := SummaryOf(before, after, key, repr);
            |s.reviewFiles| == |s.added| + |s.modified| + |s.deleted|
            && OnePathEach(before, after, KeyOr(key, after.name), s.reviewFiles)
  {
    hide ParserValid, SortedSet, StrictlySorted, ModifiedNames, Names, Drifted, Injective;
    var affected := Affected(before, after, repr);
    var names := SortedSet(affected);
    SortedSetSorted(affected);
    AffectedCount(before, after, repr);
    hide Affected;
    forall name ensures name in names <==> Drifted(before, after, name) {
      SetsExactly(before, after, repr, name);
    }
    assert NamesDrifted(before, after, names);
    assert PathsOf(KeyOr(key, after.name), names, SummaryOf(before, after, key, repr).reviewFiles);
  }

  lemma AffectedCount(before: DatabaseSchema, after: DatabaseSchema, repr: Repr)
    ensures |Affected(before, after, repr)|
            == |Names(after) - Names(before)| + |ModifiedNames(before, after, repr)| + |Names(before) - Names(after)|
  {
    hide Names, ModifiedNames;
    ModifiedCommon(before, after, repr);
    DisjointCount(Names(after) - Names(before), ModifiedNames(before, after, repr), Names(before) - Names(after));
  }

  lemma ModifiedCommon(before: DatabaseSchema, after: DatabaseSchema, repr: Repr)
    ensures ModifiedNames(before, after, repr) <= Names(before) * Names(after)
  {
  }

  lemma DisjointCount(a: set<string>, b: set<string>, c: set<string>)
    requires a !! b && a !! c && b !! c
    ensures |a + b + c| == |a| + |b| + |c|
  {
  }
}
