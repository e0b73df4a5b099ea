/** The fact lock: a published document may differ from the deterministic one in its narrative only. */
module PublishedValidation {
  import opened Wrappers
  import opened Sorting
  import opened Dictionaries
  import opened Models
  import opened Dumps
  import opened SchemaHashing
  import opened Generators

  /** One step of a field path such as `$.columns.0.description`. */
  datatype Step = Key(name: string) | At(index: nat)

  type Path = seq<Step>

  datatype Issue =
    | InvalidPublicationContext(error: GenerationError)
    | PublishedSourceDrift(field: Path)

  // ---- the recursive comparison ----

  function Drift(path: Path): seq<Issue> {
    [PublishedSourceDrift(path)]
  }

  function Compare(path: Path, expected: Json, actual: Json): seq<Issue>
    decreases expected, 2, 0
  {
    if expected.JObj? && actual.JObj? then
      var keys := UnionKeys(expected, actual);
      CompareFields(path, expected, actual, keys, |keys|)
    else if expected.JList? && actual.JList? then
      if |expected.items| != |actual.items| then Drift(path)
      else CompareItems(path, expected, actual, |expected.items|)
    else if expected != actual then Drift(path)
    else []
  }

  function UnionKeys(expected: Json, actual: Json): (keys: seq<string>)
    requires expected.JObj? && actual.JObj?
    ensures forall k :: k in keys <==> k in expected.fields || k in actual.fields
  {
    SortedSet(expected.fields.Keys + actual.fields.Keys)
  }

  function CompareField(path: Path, expected: Json, actual: Json, key: string): seq<Issue>
    requires expected.JObj? && actual.JObj?
    decreases expected, 0, 0
  {
    if key !in expected.fields || key !in actual.fields then Drift(path + [Key(key)])
    else Compare(path + [Key(key)], expected.fields[key], actual.fields[key])
  }

  /** The first `n` keys. */
  function CompareFields(path: Path, expected: Json, actual: Json, keys: seq<string>, n: nat): seq<Issue>
    requires expected.JObj? && actual.JObj? && n <= |keys|
    decreases expected, 1, n
  {
    if n == 0 then []
    else CompareFields(path, expected, actual, keys, n - 1) + CompareField(path, expected, actual, keys[n - 1])
  }

  /** The first `n` items. */
  function CompareItems(path: Path, expected: Json, actual: Json, n: nat): seq<Issue>
    requires expected.JList? && actual.JList? && n <= |expected.items| == |actual.items|
    decreases expected, 1, n
  {
    if n == 0 then []
    else CompareItems(path, expected, actual, n - 1)
         + Compare(path + [At(n - 1)], expected.items[n - 1], actual.items[n - 1])
  }

  method CompareValues(issues: SharedList<Issue>, path: Path, expected: Json, actual: Json)
    modifies issues
    ensures issues.items == old(issues.items) + Compare(path, expected, actual)
    decreases expected, 1
  {
    hide UnionKeys, CompareFields, CompareItems;
    if expected.JObj? && actual.JObj? {
      CompareObjects(issues, path, expected, actual);
    } else if expected.JList? && actual.JList? {
      if |expected.items| != |actual.items| {
        issues.Append(PublishedSourceDrift(path));
      } else {
        CompareLists(issues, path, expected, actual);
      }
    } else if expected != actual {
      issues.Append(PublishedSourceDrift(path));
    }
  }

  method CompareLists(issues: SharedList<Issue>, path: Path, expected: Json, actual: Json)
    requires expected.JList? && actual.JList? && |expected.items| == |actual.items|
    modifies issues
    ensures issues.items == old(issues.items) + CompareItems(path, expected, actual, |expected.items|)
    decreases expected, 0
  {
    hide Compare;
    for i := 0 to |expected.items|
      invariant issues.items == old(issues.items) + CompareItems(path, expected, actual, i)
    {
      CompareValues(issues, path + [At(i)], expected.items[i], actual.items[i]);
    }
  }

  method CompareObjects(issues: SharedList<Issue>, path: Path, expected: Json, actual: Json)
    requires expected.JObj? && actual.JObj?
    modifies issues
    ensures var keys := UnionKeys(expected, actual);
            issues.items == old(issues.items) + CompareFields(path, expected, actual, keys, |keys|)
    decreases expected, 0
  {
    hide UnionKeys, Compare;
    var keys := UnionKeys(expected, actual);
    for i := 0 to |keys|
      invariant issues.items == old(issues.items) + CompareFields(path, expected, actual, keys, i)
    {
      var child := path + [Key(keys[i])];
      if keys[i] !in expected.fields || keys[i] !in actual.fields {
        issues.Append(PublishedSourceDrift(child));
      } else {
        CompareValues(issues, child, expected.fields[keys[i]], actual.fields[keys[i]]);
      }
    }
  }

  /** The value a path leads to. */
  function Lookup(json: Json, path: Path): Option<Json>
    decreases |path|
  {
    if path == [] then Some(json)
    else
      match path[0]
      case Key(name) =>
        if json.JObj? && name in json.fields then Lookup(json.fields[name], path[1..]) else None
      case At(index) =>
        if json.JList? && index < |json.items| then Lookup(json.items[index], path[1..]) else None
  }

  /** Every issue is a path below `path` at which the two trees differ. */
  ghost predicate Locates(issues: seq<Issue>, path: Path, expected: Json, actual: Json) {
    forall issue :: issue in issues ==>
      issue.PublishedSourceDrift? && exists rest ::
        issue.field == path + rest && Lookup(expected, rest) != Lookup(actual, rest)
  }

  lemma LocatesChild(issues: seq<Issue>, path: Path, step: Step, e: Json, a: Json, childE: Json, childA: Json)
    requires Locates(issues, path + [step], childE, childA)
    requires Lookup(e, [step]) == Some(childE) && Lookup(a, [step]) == Some(childA)
    ensures Locates(issues, path, e, a)
  {
    forall issue | issue in issues
      ensures issue.PublishedSourceDrift?
      ensures exists rest :: issue.field == path + rest && Lookup(e, rest) != Lookup(a, rest)
    {
      var rest :| issue.field == path + [step] + rest && Lookup(childE, rest) != Lookup(childA, rest);
      var full := [step] + rest;
      assert full[1..] == rest;
      assert issue.field == path + full && Lookup(e, full) != Lookup(a, full);
    }
  }

  lemma LocatesHere(path: Path, e: Json, a: Json)
    requires e != a
    ensures Locates(Drift(path), path, e, a)
  {
    assert path == path + [] && Lookup(e, []) != Lookup(a, []);
  }

  lemma FieldLocates(path: Path, e: Json, a: Json, key: string)
    requires e.JObj? && a.JObj? && (key in e.fields || key in a.fields)
    requires key in e.fields && key in a.fields ==>
      var issues := Compare(path + [Key(key)], e.fields[key], a.fields[key]);
      Locates(issues, path + [Key(key)], e.fields[key], a.fields[key])
    ensures Locates(CompareField(path, e, a, key), path, e, a)
  {
    var step := Key(key);
    if key in e.fields && key in a.fields {
      LocatesChild(CompareField(path, e, a, key), path, step, e, a, e.fields[key], a.fields[key]);
    } else {
      assert Lookup(e, [step]) != Lookup(a, [step]);
    }
  }

  /** The comparison only reports real differences. */
  lemma {:induction false} CompareSound(path: Path, expected: Json, actual: Json)
    ensures Locates(Compare(path, expected, actual), path, expected, actual)
    decreases expected, 1, 0
  {
    if expected.JObj? && actual.JObj? {
      var keys := UnionKeys(expected, actual);
      FieldsSound(path, expected, actual, keys, |keys|);
    } else if expected.JList? && actual.JList? && |expected.items| == |actual.items| {
      ItemsSound(path, expected, actual, |expected.items|);
    } else if expected != actual {
      LocatesHere(path, expected, actual);
    }
  }

  lemma {:induction false} FieldsSound(path: Path, e: Json, a: Json, keys: seq<string>, n: nat)
    requires e.JObj? && a.JObj? && n <= |keys|
    requires forall k :: k in keys ==> k in e.fields || k in a.fields
    ensures Locates(CompareFields(path, e, a, keys, n), path, e, a)
    decreases e, 0, n
  {
    if n > 0 {
      var key := keys[n - 1];
      FieldsSound(path, e, a, keys, n - 1);
      if key in e.fields && key in a.fields {
        CompareSound(path + [Key(key)], e.fields[key], a.fields[key]);
      }
      FieldLocates(path, e, a, key);
    }
  }

  lemma {:induction false} ItemsSound(path: Path, e: Json, a: Json, n: nat)
    requires e.JList? && a.JList? && n <= |e.items| == |a.items|
    ensures Locates(CompareItems(path, e, a, n), path, e, a)
    decreases e, 0, n
  {
    if n > 0 {
      ItemsSound(path, e, a, n - 1);
      CompareSound(path + [At(n - 1)], e.items[n - 1], a.items[n - 1]);
      LocatesChild(Compare(path + [At(n - 1)], e.items[n - 1], a.items[n - 1]), path, At(n - 1), e, a,
                   e.items[n - 1], a.items[n - 1]);
    }
  }

  predicate SameAt(e: map<string, Json>, a: map<string, Json>, key: string) {
    key in e && key in a && e[key] == a[key]
  }

  /** Agreement on every key of the union is equality. */
  lemma SameEverywhere(e: map<string, Json>, a: map<string, Json>, keys: seq<string>)
    requires forall k :: k in keys <==> k in e || k in a
    ensures (forall k :: k in keys ==> SameAt(e, a, k)) <==> e == a
  {
    if forall k :: k in keys ==> SameAt(e, a, k) {
      forall k ensures k in e <==> k in a {
        assert k in e || k in a ==> k in keys;
      }
      forall k | k in e ensures k in a && e[k] == a[k] {
        assert k in keys;
      }
    }
  }

  /** Nothing is reported exactly when the two trees are equal. */
  lemma {:induction false} CompareExact(path: Path, expected: Json, actual: Json)
    ensures Compare(path, expected, actual) == [] <==> expected == actual
    decreases expected, 1, 0
  {
    hide UnionKeys, SameAt;
    if expected.JObj? && actual.JObj? {
      var keys := UnionKeys(expected, actual);
      FieldsExact(path, expected, actual, keys, |keys|);
      assert keys[..|keys|] == keys;
      SameEverywhere(expected.fields, actual.fields, keys);
    } else if expected.JList? && actual.JList? && |expected.items| == |actual.items| {
      ItemsExact(path, expected, actual, |expected.items|);
      assert expected.items[..|expected.items|] == expected.items;
      assert actual.items[..|actual.items|] == actual.items;
    }
  }

  lemma {:induction false} FieldsExact(path: Path, e: Json, a: Json, keys: seq<string>, n: nat)
    requires e.JObj? && a.JObj? && n <= |keys|
    ensures CompareFields(path, e, a, keys, n) == [] <==> forall k :: k in keys[..n] ==> SameAt(e.fields, a.fields, k)
    decreases e, 0, n
  {
    if n > 0 {
      var key := keys[n - 1];
      assert keys[..n] == keys[..n - 1] + [key];
      FieldsExact(path, e, a, keys, n - 1);
      if key in e.fields && key in a.fields {
        CompareExact(path + [Key(key)], e.fields[key], a.fields[key]);
      }
      assert CompareField(path, e, a, key) == [] <==> SameAt(e.fields, a.fields, key);
    }
  }

  lemma {:induction false} ItemsExact(path: Path, e: Json, a: Json, n: nat)
    requires e.JList? && a.JList? && n <= |e.items| == |a.items|
    ensures CompareItems(path, e, a, n) == [] <==> e.items[..n] == a.items[..n]
    decreases e, 0, n
  {
    if n > 0 {
      ItemsExact(path, e, a, n - 1);
      CompareExact(path + [At(n - 1)], e.items[n - 1], a.items[n - 1]);
      assert e.items[..n] == e.items[..n - 1] + [e.items[n - 1]];
      assert a.items[..n] == a.items[..n - 1] + [a.items[n - 1]];
    }
  }

  // ---- the lock ----

  function ColumnKey(c: PublishedColumn): string {
    c.name
  }

  function RelationshipKey(r: PublishedRelationship): string {
    r.name
  }

  function RuleKey(r: PublishedRule): string {
    r.name
  }

  /** Only a live document of an approved review may be rewritten beyond its summary. */
  predicate WidelyRewritten(document: PublishedDocument) {
    document.provenance.generatorMode.Live? && document.documentStatus.Approved?
  }

  function AllowedColumns(baseline: seq<PublishedColumn>, actual: map<string, PublishedColumn>): (r: seq<PublishedColumn>)
    ensures |r| == |baseline|
    ensures forall i :: 0 <= i < |r| ==> r[i] == AllowedColumn(baseline[i], actual)
  {
    seq(|baseline|, i requires 0 <= i < |baseline| => AllowedColumn(baseline[i], actual))
  }

  function AllowedColumn(c: PublishedColumn, actual: map<string, PublishedColumn>): PublishedColumn {
    c.(description := if c.name in actual then actual[c.name].description else c.description)
  }

  function AllowedRelationships(baseline: seq<PublishedRelationship>, actual: map<string, PublishedRelationship>): (r: seq<PublishedRelationship>)
    ensures |r| == |baseline|
    ensures forall i :: 0 <= i < |r| ==> r[i] == AllowedRelationship(baseline[i], actual)
  {
    seq(|baseline|, i requires 0 <= i < |baseline| => AllowedRelationship(baseline[i], actual))
  }

  function AllowedRelationship(x: PublishedRelationship, actual: map<string, PublishedRelationship>): PublishedRelationship {
    x.(meaning := if x.name in actual then actual[x.name].meaning else x.meaning)
  }

  function AllowedRules(baseline: seq<PublishedRule>, actual: map<string, PublishedRule>): (r: seq<PublishedRule>)
    ensures |r| == |baseline|
    ensures forall i :: 0 <= i < |r| ==> r[i] == AllowedRule(baseline[i], actual)
  {
    seq(|baseline|, i requires 0 <= i < |baseline| => AllowedRule(baseline[i], actual))
  }

  function AllowedRule(x: PublishedRule, actual: map<string, PublishedRule>): PublishedRule {
    x.(description := if x.name in actual then actual[x.name].description else x.description)
  }

  function WithGenerator(p: Provenance, actual: Provenance): Provenance {
    p.(generatorMode := actual.generatorMode, generatorModel := actual.generatorModel, promptVersion := actual.promptVersion)
  }

  /** The baseline with every permitted field taken from the document. */
  function Expected(baseline: PublishedDocument, document: PublishedDocument): PublishedDocument {
    var updated := baseline.(summary := document.summary,
                             provenance := WithGenerator(baseline.provenance, document.provenance));
    if !WidelyRewritten(document) then updated
    else
      updated.(
        description := document.description,
        purpose := document.purpose,
        appropriateUse := document.appropriateUse,
        inappropriateUse := document.inappropriateUse,
        columns := AllowedColumns(baseline.columns, DictBy(document.columns, ColumnKey)),
        relationships := AllowedRelationships(baseline.relationships, DictBy(document.relationships, RelationshipKey)),
        businessRules := AllowedRules(baseline.businessRules, DictBy(document.businessRules, RuleKey)))
  }

  /** The issues validation reports. */
  function PublishedIssues(context: PublicationContext, document: PublishedDocument, hash: SchemaHasher): seq<Issue> {
    match Generate(context, hash)
    case Err(error) => [InvalidPublicationContext(error)]
    case Ok(baseline) => Compare([], DumpDocument(Expected(baseline, document)), DumpDocument(document))
  }

  method ValidatePublished(context: PublicationContext, document: PublishedDocument, hash: SchemaHasher) returns (issues: seq<Issue>)
    ensures issues == PublishedIssues(context, document, hash)
  {
    match Generate(context, hash)
    case Err(error) =>
      return [InvalidPublicationContext(error)];
    case Ok(baseline) =>
      var list := new SharedList<Issue>();
      CompareValues(list, [], DumpDocument(Expected(baseline, document)), DumpDocument(document));
      issues := list.items;
  }

  // ---- exactly which documents are accepted ----

  /** Item by item the same, except for the descriptions. */
  predicate SameColumns(baseline: seq<PublishedColumn>, actual: seq<PublishedColumn>) {
    |baseline| == |actual|
    && forall i :: 0 <= i < |baseline| ==> actual[i] == baseline[i].(description := actual[i].description)
  }

  /** Item by item the same, except for the meanings, which one name has one of. */
  predicate SameRelationships(baseline: seq<PublishedRelationship>, actual: seq<PublishedRelationship>) {
    && |baseline| == |actual|
    && (forall i :: 0 <= i < |baseline| ==> actual[i] == baseline[i].(meaning := actual[i].meaning))
    && (forall i, j :: 0 <= i < j < |actual| && actual[i].name == actual[j].name ==> actual[i].meaning == actual[j].meaning)
  }

  predicate SameRules(baseline: seq<PublishedRule>, actual: seq<PublishedRule>) {
    && |baseline| == |actual|
    && (forall i :: 0 <= i < |baseline| ==> actual[i] == baseline[i].(description := actual[i].description))
    && (forall i, j :: 0 <= i < j < |actual| && actual[i].name == actual[j].name ==> actual[i].description == actual[j].description)
  }

  /** Only the summary and the generator's name may change. */
  predicate DiffersInSummary(baseline: PublishedDocument, document: PublishedDocument) {
    document == baseline.(summary := document.summary, provenance := WithGenerator(baseline.provenance, document.provenance))
  }

  /** The table's narrative and the descriptions inside its parts may change too. */
  predicate DiffersInNarrative(baseline: PublishedDocument, document: PublishedDocument) {
    && document == baseline.(
         summary := document.summary, provenance := WithGenerator(baseline.provenance, document.provenance),
         description := document.description, purpose := document.purpose, appropriateUse := document.appropriateUse,
         inappropriateUse := document.inappropriateUse, columns := document.columns,
         relationships := document.relationships, businessRules := document.businessRules)
    && SameColumns(baseline.columns, document.columns)
    && SameRelationships(baseline.relationships, document.relationships)
    && SameRules(baseline.businessRules, document.businessRules)
  }

  predicate Permitted(baseline: PublishedDocument, document: PublishedDocument) {
    if WidelyRewritten(document) then DiffersInNarrative(baseline, document) else DiffersInSummary(baseline, document)
  }

  lemma SameNamesDistinct(baseline: seq<PublishedColumn>, actual: seq<PublishedColumn>)
    requires DistinctKeys(baseline, ColumnKey) && |baseline| == |actual|
    requires forall i :: 0 <= i < |baseline| ==> actual[i].name == baseline[i].name
    ensures DistinctKeys(actual, ColumnKey)
  {
    forall i, j | 0 <= i < j < |actual| ensures ColumnKey(actual[i]) != ColumnKey(actual[j]) {
      assert ColumnKey(baseline[i]) != ColumnKey(baseline[j]);
    }
  }

  lemma ColumnsExact(baseline: seq<PublishedColumn>, actual: seq<PublishedColumn>)
    requires DistinctKeys(baseline, ColumnKey)
    ensures AllowedColumns(baseline, DictBy(actual, ColumnKey)) == actual <==> SameColumns(baseline, actual)
  {
    hide DictBy, DistinctKeys;
    var dict := DictBy(actual, ColumnKey);
    var allowed := AllowedColumns(baseline, dict);
    if SameColumns(baseline, actual) {
      SameNamesDistinct(baseline, actual);
      forall i | 0 <= i < |actual| ensures allowed[i] == actual[i] {
        assert actual[i] == baseline[i].(description := actual[i].description);
        DictLookup(actual, ColumnKey, actual[i]);
        assert ColumnKey(actual[i]) == actual[i].name == baseline[i].name;
        assert dict[baseline[i].name] == actual[i];
      }
      assert allowed == actual;
    }
    if allowed == actual {
      forall i | 0 <= i < |baseline| ensures actual[i] == baseline[i].(description := actual[i].description) {
        assert allowed[i] == AllowedColumn(baseline[i], dict);
      }
    }
  }

  lemma RelationshipsExact(baseline: seq<PublishedRelationship>, actual: seq<PublishedRelationship>)
    ensures AllowedRelationships(baseline, DictBy(actual, RelationshipKey)) == actual <==> SameRelationships(baseline, actual)
  {
    hide DictBy;
    var dict := DictBy(actual, RelationshipKey);
    var allowed := AllowedRelationships(baseline, dict);
    if SameRelationships(baseline, actual) {
      forall i | 0 <= i < |actual| ensures allowed[i] == actual[i] {
        var k := actual[i].name;
        assert actual[i] == baseline[i].(meaning := actual[i].meaning);
        assert RelationshipKey(actual[i]) == k && HasKey(actual, RelationshipKey, k);
        DictMembers(actual, RelationshipKey, k);
        assert RelationshipKey(dict[k]) == dict[k].name;
        var j :| 0 <= j < |actual| && actual[j] == dict[k];
        assert actual[j].meaning == actual[i].meaning;
      }
      assert allowed == actual;
    }
    if allowed == actual {
      forall i | 0 <= i < |actual| ensures actual[i] == baseline[i].(meaning := actual[i].meaning)
                                   ensures actual[i].name in dict && actual[i].meaning == dict[actual[i].name].meaning {
        assert allowed[i] == AllowedRelationship(baseline[i], dict);
        assert RelationshipKey(actual[i]) == actual[i].name && HasKey(actual, RelationshipKey, actual[i].name);
        DictMembers(actual, RelationshipKey, actual[i].name);
      }
    }
  }

  lemma RulesExact(baseline: seq<PublishedRule>, actual: seq<PublishedRule>)
    ensures AllowedRules(baseline, DictBy(actual, RuleKey)) == actual <==> SameRules(baseline, actual)
  {
    hide DictBy;
    var dict := DictBy(actual, RuleKey);
    var allowed := AllowedRules(baseline, dict);
    if SameRules(baseline, actual) {
      forall i | 0 <= i < |actual| ensures allowed[i] == actual[i] {
        var k := actual[i].name;
        assert actual[i] == baseline[i].(description := actual[i].description);
        assert RuleKey(actual[i]) == k && HasKey(actual, RuleKey, k);
        DictMembers(actual, RuleKey, k);
        assert RuleKey(dict[k]) == dict[k].name;
        var j :| 0 <= j < |actual| && actual[j] == dict[k];
        assert actual[j].description == actual[i].description;
      }
      assert allowed == actual;
    }
    if allowed == actual {
      forall i | 0 <= i < |actual| ensures actual[i] == baseline[i].(description := actual[i].description)
                                   ensures actual[i].name in dict && actual[i].description == dict[actual[i].name].description {
        assert allowed[i] == AllowedRule(baseline[i], dict);
        assert RuleKey(actual[i]) == actual[i].name && HasKey(actual, RuleKey, actual[i].name);
        DictMembers(actual, RuleKey, actual[i].name);
      }
    }
  }

  lemma ExpectedExact(baseline: PublishedDocument, document: PublishedDocument)
    requires baseline.Consistent()
    ensures Expected(baseline, document) == document <==> Permitted(baseline, document)
  {
    if WidelyRewritten(document) {
      assert DistinctKeys(baseline.columns, ColumnKey);
      hide AllowedColumns, AllowedRelationships, AllowedRules, SameColumns, SameRelationships, SameRules, DictBy;
      ColumnsExact(baseline.columns, document.columns);
      RelationshipsExact(baseline.relationships, document.relationships);
      RulesExact(baseline.businessRules, document.businessRules);
    }
  }

  /** The lock accepts exactly the documents that keep every fact of the deterministic baseline. */
  lemma AcceptsExactly(context: PublicationContext, document: PublishedDocument, hash: SchemaHasher)
    ensures PublishedIssues(context, document, hash) == [] <==>
              Generate(context, hash).Ok? && Permitted(Generate(context, hash).value, document)
  {
    hide Compare, DumpDocument, Permitted, Expected, BaselineDocument, ContextError;
    if Generate(context, hash).Ok? {
      var baseline := Generate(context, hash).value;
      var expected := Expected(baseline, document);
      CompareExact([], DumpDocument(expected), DumpDocument(document));
      if DumpDocument(expected) == DumpDocument(document) {
        DocumentInjective(expected, document);
      }
      ExpectedExact(baseline, document);
    }
  }

  /** The deterministic document itself is accepted. */
  lemma BaselineAccepted(context: PublicationContext, hash: SchemaHasher)
    requires Generate(context, hash).Ok?
    ensures PublishedIssues(context, Generate(context, hash).value, hash) == []
  {
    hide Compare, DumpDocument, Expected, PublishedIssues, ContextError;
    var baseline := Generate(context, hash).value;
    AcceptsExactly(context, baseline, hash);
  }

  // ---- the live merge stays inside the lock ----

  lemma MergedPermitted(baseline: PublishedDocument, settings: LiveSettings, response: Narrative)
    requires response.ApprovedNarrative? && SameShape(LiveBaseline(baseline, settings), response)
    requires baseline.documentStatus.Approved?
    ensures Permitted(baseline, Merged(LiveBaseline(baseline, settings), response))
  {
    var expected := LiveBaseline(baseline, settings);
    var merged := Merged(expected, response);
    assert expected.columns == baseline.columns && expected.relationships == baseline.relationships;
    assert expected.businessRules == baseline.businessRules;
    hide SameShape;
    assert SameColumns(baseline.columns, merged.columns);
    assert SameRelationships(baseline.relationships, merged.relationships);
    assert SameRules(baseline.businessRules, merged.businessRules);
  }

  /** Every document the live generator returns, for any answer of the gateway, is accepted. */
  lemma LiveAccepted(context: PublicationContext, hash: SchemaHasher, settings: LiveSettings,
                     response: Option<Narrative>, casefold: string -> string, document: PublishedDocument)
    requires GenerateLive(context, hash, settings, response, casefold) == Ok(document)
    ensures PublishedIssues(context, document, hash) == []
  {
    hide Generate, MentionsWorkflow, PublishedIssues, NarrativeValues, DiffersInNarrative, SameShape, Merged;
    var baseline := Generate(context, hash).value;
    var expected := LiveBaseline(baseline, settings);
    AcceptsExactly(context, document, hash);
    if response.value.ApprovedNarrative? {
      assert document == Merged(expected, response.value);
      MergedPermitted(baseline, settings, response.value);
    } else {
      assert document == expected.(summary := response.value.summary);
    }
  }
}
