/** The cleanup entries of a scheduled sync, and exactly when two of them read the same. */
module CleanupEntries {
  import opened Ordering
  import opened Sorting
  import opened Models
  import opened TblsSchema
  import opened Drafts
  import opened DraftTheorems
  import opened SyncReports
  import opened ScheduledSync

  ghost predicate Distinct(texts: seq<string>) {
    DistinctKeys(texts, Itself)
  }

  lemma SortedTextsExact(texts: seq<string>)
    ensures SortedUnique(SortedTexts(texts)) <==> Distinct(texts)
  {
    hide SortBy, StrLess, SortedUnique;
    var sorted := SortedTexts(texts);
    StrLessTotal();
    SortOrdered(texts, Itself, StrLess);
    SortMultiset(texts, Itself, StrLess);
    SortedUniqueExact(sorted);
    if Distinct(texts) {
      DistinctPermuted(texts, sorted, Itself);
      OrderedDistinctIsStrict(sorted, Itself, StrLess);
      forall i, j | 0 <= i < j < |sorted| ensures StrLess(sorted[i], sorted[j]) {
        assert StrLess(Itself(sorted[i]), Itself(sorted[j]));
      }
    }
    if StrictlySorted(sorted) {
      StrictlySortedDistinct(sorted);
      forall i, j | 0 <= i < j < |sorted| ensures Itself(sorted[i]) != Itself(sorted[j]) {}
      DistinctPermuted(sorted, texts, Itself);
    }
  }

  predicate Lacks(s: string, c: char) {
    forall i :: 0 <= i < |s| ==> s[i] != c
  }

  /** The field before the first separator can be read back. */
  lemma FirstField(a: string, x: string, b: string, y: string, separator: char)
    requires Lacks(a, separator) && Lacks(b, separator) && a + [separator] + x == b + [separator] + y
    ensures a == b && x == y
  {
    var s, t := a + [separator] + x, b + [separator] + y;
    assert s[|a|] == separator && t[|b|] == separator;
    assert forall i :: 0 <= i < |a| ==> s[i] == a[i];
    assert forall i :: 0 <= i < |b| ==> t[i] == b[i];
    assert |a| == |b|;
    assert a == s[..|a|] && b == t[..|b|];
    assert x == s[|a| + 1..] && y == t[|b| + 1..];
  }

  function ResultTable(r: DraftResult): string {
    r.table
  }

  /** Results of different tables, each with different codes. */
  ghost predicate SoundResults(results: seq<DraftResult>) {
    DistinctKeys(results, ResultTable) && forall r :: r in results ==> Distinct(r.codes)
  }

  lemma CodeTextsDistinct(key: string, table: string, codes: seq<string>)
    requires Distinct(codes)
    ensures Distinct(CodeTexts(key, table, codes))
  {
    var texts := CodeTexts(key, table, codes);
    forall i, j | 0 <= i < j < |texts| ensures Itself(texts[i]) != Itself(texts[j]) {
      var prefix := key + "." + table + ":";
      assert Itself(codes[i]) != Itself(codes[j]);
      assert texts[i][|prefix|..] == codes[i] && texts[j][|prefix|..] == codes[j];
    }
  }

  // ---- within one database ----

  /** A result asks for this cleanup of this table. */
  ghost predicate Listed(results: seq<DraftResult>, t: string, code: string) {
    exists r :: r in results && r.action.RequiresManualReview? && r.table == t && code in r.codes
  }

  function EntryText(table: string, code: string): string {
    table + ":" + code
  }

  /** No two tables have an entry that reads the same. */
  ghost predicate Apart(results: seq<DraftResult>) {
    forall t, u, c, d :: Listed(results, t, c) && Listed(results, u, d) && t != u ==> EntryText(t, c) != EntryText(u, d)
  }

  lemma TextIsEntry(key: string, t: string, c: string, u: string, d: string)
    ensures CleanupText(key, t, c) == CleanupText(key, u, d) <==> EntryText(t, c) == EntryText(u, d)
  {
    var prefix := key + ".";
    assert CleanupText(key, t, c) == prefix + EntryText(t, c) && CleanupText(key, u, d) == prefix + EntryText(u, d);
    assert (prefix + EntryText(t, c))[|prefix|..] == EntryText(t, c) && (prefix + EntryText(u, d))[|prefix|..] == EntryText(u, d);
  }

  lemma ListedAppend(results: seq<DraftResult>, last: DraftResult, t: string, code: string)
    ensures Listed(results + [last], t, code) <==>
              Listed(results, t, code) || (last.action.RequiresManualReview? && last.table == t && code in last.codes)
  {
    if r :| r in results && r.action.RequiresManualReview? && r.table == t && code in r.codes {
      assert r in results + [last];
    }
    if last.action.RequiresManualReview? && last.table == t && code in last.codes {
      assert last in results + [last];
    }
  }

  /** The texts of one database are those of what is listed. */
  lemma {:induction false} ResultTextsListed(key: string, results: seq<DraftResult>, text: string)
    ensures text in ResultTexts(key, results) <==> exists t, c :: Listed(results, t, c) && text == CleanupText(key, t, c)
    decreases |results|
  {
    if results != [] {
      hide Listed, CleanupText;
      var init, last := results[..|results| - 1], results[|results| - 1];
      assert results == init + [last];
      ResultTextsListed(key, init, text);
      forall t, c { ListedAppend(init, last, t, c); }
      var texts := CodeTexts(key, last.table, last.codes);
      if text in texts {
        var i :| 0 <= i < |texts| && texts[i] == text;
        assert last.codes[i] in last.codes;
      }
      forall c | c in last.codes && text == CleanupText(key, last.table, c) ensures text in texts {
        var i :| 0 <= i < |last.codes| && last.codes[i] == c;
        assert texts[i] == text;
      }
    } else {
      assert forall t, c :: !Listed(results, t, c);
    }
  }

  /** The last result's texts differ from all earlier ones. */
  ghost predicate LastApart(results: seq<DraftResult>, last: DraftResult) {
    forall t, c, d :: Listed(results, t, c) && d in last.codes ==> EntryText(t, c) != EntryText(last.table, d)
  }

  lemma LastTextsApart(key: string, results: seq<DraftResult>, last: DraftResult)
    ensures LastApart(results, last) <==>
              forall x, y :: x in ResultTexts(key, results) && y in CodeTexts(key, last.table, last.codes) ==> Itself(x) != Itself(y)
  {
    hide Listed, CleanupText, EntryText;
    var texts := CodeTexts(key, last.table, last.codes);
    forall x { ResultTextsListed(key, results, x); }
    forall t, c, d { TextIsEntry(key, t, c, last.table, d); }
    if LastApart(results, last) {
      forall x, y | x in ResultTexts(key, results) && y in texts ensures Itself(x) != Itself(y) {
        var t, c :| Listed(results, t, c) && x == CleanupText(key, t, c);
        var i :| 0 <= i < |texts| && texts[i] == y;
        assert last.codes[i] in last.codes;
      }
    }
    if forall x, y :: x in ResultTexts(key, results) && y in texts ==> Itself(x) != Itself(y) {
      forall t, c, d | Listed(results, t, c) && d in last.codes ensures EntryText(t, c) != EntryText(last.table, d) {
        var i :| 0 <= i < |last.codes| && last.codes[i] == d;
        assert texts[i] in texts;
        assert CleanupText(key, t, c) in ResultTexts(key, results);
        assert Itself(CleanupText(key, t, c)) != Itself(texts[i]);
      }
    }
  }

  lemma ApartAppend(results: seq<DraftResult>, last: DraftResult)
    requires SoundResults(results + [last])
    ensures Apart(results + [last]) <==> Apart(results) && (last.action.RequiresManualReview? ==> LastApart(results, last))
  {
    DistinctAppend(results, last, ResultTable);
    forall t, c | Listed(results, t, c) ensures t != last.table {
      var r :| r in results && r.table == t;
      assert ResultTable(r) != ResultTable(last);
    }
    hide Listed, SoundResults, DistinctKeys, EntryText;
    forall t, c { ListedAppend(results, last, t, c); }
  }

  /** Within one database no text repeats exactly when no two tables have an entry that reads the same. */
  lemma {:induction false} ResultTextsExact(key: string, results: seq<DraftResult>)
    requires SoundResults(results)
    ensures Distinct(ResultTexts(key, results)) <==> Apart(results)
    decreases |results|
  {
    if results == [] {
    } else {
      var init, last := results[..|results| - 1], results[|results| - 1];
      assert results == init + [last];
      DistinctAppend(init, last, ResultTable);
      ApartAppend(init, last);
      hide DistinctKeys, CleanupText, Apart, LastApart;
      ResultTextsExact(key, init);
      if last.action.RequiresManualReview? {
        CodeTextsDistinct(key, last.table, last.codes);
        LastTextsApart(key, init, last);
        DistinctConcat(ResultTexts(key, init), CodeTexts(key, last.table, last.codes), Itself);
      } else {
        assert ResultTexts(key, init) + [] == ResultTexts(key, init);
      }
    }
  }

  // ---- across databases ----

  /** Profile keys contain no `.`, so that a text tells its database. */
  ghost predicate SoundKeys(profiles: seq<Profile>) {
    DistinctKeys(profiles, ProfileKey) && forall p :: p in profiles ==> Lacks(p.key, '.')
  }

  lemma KeyDecodes(k: string, t: string, c: string, l: string, u: string, d: string)
    requires Lacks(k, '.') && Lacks(l, '.') && CleanupText(k, t, c) == CleanupText(l, u, d)
    ensures k == l
  {
    assert CleanupText(k, t, c) == k + ['.'] + (t + ":" + c);
    assert CleanupText(l, u, d) == l + ['.'] + (u + ":" + d);
    FirstField(k, t + ":" + c, l, u + ":" + d, '.');
  }

  lemma {:induction false} CleanupFrom(profiles: seq<Profile>, prepared: seq<Prepared>, text: string)
    requires |profiles| == |prepared| && text in CleanupTexts(profiles, prepared)
    ensures exists p, t, c :: p in profiles && text == CleanupText(p.key, t, c)
    decreases |prepared|
  {
    hide CleanupText, Listed;
    var last := |prepared| - 1;
    if text in CleanupTexts(profiles[..last], prepared[..last]) {
      CleanupFrom(profiles[..last], prepared[..last], text);
      var p, t, c :| p in profiles[..last] && text == CleanupText(p.key, t, c);
      assert p in profiles;
    } else {
      ResultTextsListed(profiles[last].key, prepared[last].results, text);
      var t, c :| text == CleanupText(profiles[last].key, t, c);
      assert profiles[last] in profiles;
    }
  }

  lemma KeysTellApart(profiles: seq<Profile>, prepared: seq<Prepared>, x: string, y: string)
    requires |profiles| == |prepared| && SoundKeys(profiles) && prepared != []
    requires var last := |prepared| - 1;
             x in CleanupTexts(profiles[..last], prepared[..last]) && y in ResultTexts(profiles[last].key, prepared[last].results)
    ensures x != y
  {
    hide CleanupText, Listed, CleanupTexts, ResultTexts, Lacks;
    var last := |prepared| - 1;
    CleanupFrom(profiles[..last], prepared[..last], x);
    ResultTextsListed(profiles[last].key, prepared[last].results, y);
    var p, t, c :| p in profiles[..last] && x == CleanupText(p.key, t, c);
    var u, d :| y == CleanupText(profiles[last].key, u, d);
    var i :| 0 <= i < last && profiles[i] == p;
    assert p in profiles && profiles[last] in profiles;
    assert ProfileKey(profiles[i]) != ProfileKey(profiles[last]);
    if x == y {
      KeyDecodes(p.key, t, c, profiles[last].key, u, d);
    }
  }

  ghost predicate EachDistinct(profiles: seq<Profile>, prepared: seq<Prepared>)
    requires |profiles| == |prepared|
  {
    forall i :: 0 <= i < |prepared| && prepared[i].staged.summary.HasChanges() ==>
      Distinct(ResultTexts(profiles[i].key, prepared[i].results))
  }

  lemma EachDistinctInit(profiles: seq<Profile>, prepared: seq<Prepared>)
    requires |profiles| == |prepared| && prepared != []
    ensures var last := |prepared| - 1;
            EachDistinct(profiles, prepared) <==>
              EachDistinct(profiles[..last], prepared[..last])
              && (prepared[last].staged.summary.HasChanges() ==> Distinct(ResultTexts(profiles[last].key, prepared[last].results)))
  {
    hide Distinct, ResultTexts;
    var last := |prepared| - 1;
    assert forall i :: 0 <= i < last ==> prepared[..last][i] == prepared[i] && profiles[..last][i] == profiles[i];
  }

  /** Entries of different databases never read the same. */
  lemma {:induction false} CleanupTextsExact(profiles: seq<Profile>, prepared: seq<Prepared>)
    requires |profiles| == |prepared| && SoundKeys(profiles)
    ensures Distinct(CleanupTexts(profiles, prepared)) <==> EachDistinct(profiles, prepared)
    decreases |prepared|
  {
    if prepared == [] {
    } else {
      var last := |prepared| - 1;
      assert SoundKeys(profiles[..last]);
      hide DistinctKeys, ResultTexts, EachDistinct, SoundKeys;
      CleanupTextsExact(profiles[..last], prepared[..last]);
      EachDistinctInit(profiles, prepared);
      var a := CleanupTexts(profiles[..last], prepared[..last]);
      if prepared[last].staged.summary.HasChanges() {
        var b := ResultTexts(profiles[last].key, prepared[last].results);
        forall x, y | x in a && y in b ensures Itself(x) != Itself(y) {
          KeysTellApart(profiles, prepared, x, y);
        }
        DistinctConcat(a, b, Itself);
      } else {
        assert a + [] == a;
      }
    }
  }

  // ---- which names clash ----

  const ORPHAN_TABLE := "orphaned_review_table"
  const ORPHAN_COLUMN := "orphaned_review_column"

  /**
   * The entry for the orphaned column `column` of table `t` reads as the entry for code `d` of the longer
   * table `u`: `u` continues `t` with what the column's entry starts with, and the column ends in the rest.
   */
  predicate Extends(t: string, column: string, u: string, d: string) {
    var start := t + ":" + ORPHAN_COLUMN;
    || (u == start && column == d)
    || (start + ":" <= u && column == u[|start| + 1..] + ":" + d)
  }

  lemma CodeParts(column: string)
    ensures OrphanCode(column) == ORPHAN_COLUMN + ":" + column
    ensures |ORPHAN_COLUMN| == 22 && Lacks(ORPHAN_COLUMN, ':') && Lacks(ORPHAN_TABLE, ':')
  {
  }

  lemma ExtendsReadsSame(t: string, column: string, u: string, d: string)
    requires Extends(t, column, u, d)
    ensures EntryText(t, OrphanCode(column)) == EntryText(u, d) && t != u
  {
    CodeParts(column);
    var start := t + ":" + ORPHAN_COLUMN;
    if u == start && column == d {
    } else {
      var b := u[|start| + 1..];
      assert u == start + ":" + b;
    }
  }

  /** The rest of the shorter table's code after the longer table's extra characters. */
  lemma LongerTable(t: string, c: string, u: string, d: string)
    requires EntryText(t, c) == EntryText(u, d) && |t| < |u|
    ensures t + ":" <= u && c == u[|t| + 1..] + ":" + d
  {
    var s := EntryText(t, c);
    assert t == s[..|t|] && u == s[..|u|] && s[|t|] == ':';
    assert u[|t|] == s[|t|];
    assert c == s[|t| + 1..];
    assert s == u + ":" + d;
    assert s[|t| + 1..] == u[|t| + 1..] + ":" + d;
  }

  /** If a column's code reads as an infix and another code, the table continues as `Extends` says. */
  lemma ColumnSplits(t: string, column: string, u: string, d: string)
    requires t + ":" <= u && OrphanCode(column) == u[|t| + 1..] + ":" + d
    ensures Extends(t, column, u, d)
  {
    var x := u[|t| + 1..];
    assert u == t + ":" + x;
    CodeSplits(column, x, d);
    var start := t + ":" + ORPHAN_COLUMN;
    if x == ORPHAN_COLUMN {
      assert u == start;
    } else {
      var b := x[23..];
      assert u == start + ":" + b;
      assert u[|start| + 1..] == b;
    }
  }

  /** A column's code splits at a colon only after its fixed part. */
  lemma CodeSplits(column: string, x: string, d: string)
    requires OrphanCode(column) == x + ":" + d
    ensures if x == ORPHAN_COLUMN then column == d
            else ORPHAN_COLUMN + ":" <= x && column == x[23..] + ":" + d
  {
    CodeParts(column);
    hide ORPHAN_COLUMN, OrphanCode;
    var code := OrphanCode(column);
    assert code[|x|] == ':';
    assert forall i :: 0 <= i < 22 ==> code[i] == ORPHAN_COLUMN[i];
    assert |x| >= 22 && x == code[..|x|];
    assert column == code[23..];
    if |x| == 22 {
      assert x == ORPHAN_COLUMN;
    } else {
      assert x[..23] == code[..23] == ORPHAN_COLUMN + ":";
    }
  }

  /** What a code of a result can be. */
  ghost predicate IsCode(c: string) {
    c == ORPHAN_TABLE || exists column :: c == OrphanCode(column)
  }

  lemma ClashFromShorter(t: string, c: string, u: string, d: string)
    requires IsCode(c) && EntryText(t, c) == EntryText(u, d) && |t| < |u|
    ensures exists column :: c == OrphanCode(column) && Extends(t, column, u, d)
  {
    LongerTable(t, c, u, d);
    var x := u[|t| + 1..];
    assert c[|x|] == (x + ":" + d)[|x|] == ':';
    CodeParts("");
    if c != ORPHAN_TABLE {
      var column :| c == OrphanCode(column);
      ColumnSplits(t, column, u, d);
    }
  }

  lemma SameLength(t: string, c: string, u: string, d: string)
    requires EntryText(t, c) == EntryText(u, d) && |t| == |u|
    ensures t == u
  {
    assert t == EntryText(t, c)[..|t|] && u == EntryText(u, d)[..|u|];
  }

  /** Two entries of different tables read the same exactly when one table extends the other. */
  lemma ClashExactly(t: string, c: string, u: string, d: string)
    requires IsCode(c) && IsCode(d)
    ensures t != u && EntryText(t, c) == EntryText(u, d) <==>
              || (exists column :: c == OrphanCode(column) && Extends(t, column, u, d))
              || (exists column :: d == OrphanCode(column) && Extends(u, column, t, c))
  {
    hide EntryText, Extends, OrphanCode, IsCode;
    if t != u && EntryText(t, c) == EntryText(u, d) {
      if |t| < |u| {
        ClashFromShorter(t, c, u, d);
      } else if |u| < |t| {
        ClashFromShorter(u, d, t, c);
      } else {
        SameLength(t, c, u, d);
      }
    }
    if column :| c == OrphanCode(column) && Extends(t, column, u, d) {
      ExtendsReadsSame(t, column, u, d);
    }
    if column :| d == OrphanCode(column) && Extends(u, column, t, c) {
      ExtendsReadsSame(u, column, t, c);
    }
  }

  // ---- over the names of the reviews and of the schema ----

  /** A column reviewed for a table of the schema that no longer has it. */
  ghost predicate OrphanColumn(existing: map<string, Entry>, raw: map<string, TableSchema>, t: string, column: string) {
    t in raw && t in existing && column in Orphans(raw[t], existing[t].review)
  }

  /** What a run lists for a table: its orphaned columns, or the table itself. */
  ghost predicate Asked(existing: map<string, Entry>, raw: map<string, TableSchema>, t: string, code: string) {
    || (exists column :: OrphanColumn(existing, raw, t, column) && code == OrphanCode(column))
    || (t in existing && t !in raw && code == ORPHAN_TABLE)
  }

  /** No listed table name continues another with the entry of one of its orphaned columns. */
  ghost predicate NamesSeparate(existing: map<string, Entry>, raw: map<string, TableSchema>) {
    forall t, column, u, d :: OrphanColumn(existing, raw, t, column) && Asked(existing, raw, u, d) ==> !Extends(t, column, u, d)
  }

  lemma CodesExactly(columns: set<string>, code: string)
    ensures code in Codes(SortedSet(columns)) <==> exists column :: column in columns && code == OrphanCode(column)
  {
    hide SortedSet, OrphanCode;
    var names := SortedSet(columns);
    if code in Codes(names) {
      var i :| 0 <= i < |names| && Codes(names)[i] == code;
      assert names[i] in names;
    }
    if column :| column in columns && code == OrphanCode(column) {
      assert column in names;
      var i :| 0 <= i < |names| && names[i] == column;
      assert Codes(names)[i] == code;
    }
  }

  lemma ResultListed(table: TableSchema, existing: map<string, Entry>, source: Source, tools: DraftTools, code: string)
    requires table.name in RawTables(source) && RawTables(source)[table.name] == table
    ensures var r := ResultFor(table, existing, source, tools);
            r.action.RequiresManualReview? && code in r.codes <==>
              exists column :: OrphanColumn(existing, RawTables(source), table.name, column) && code == OrphanCode(column)
  {
    hide SortedSet, NeedsWrite, Orphans, OrphanCode, RawTables;
    if table.name in existing {
      CodesExactly(Orphans(table, existing[table.name].review), code);
    }
  }

  lemma TablesListed(existing: map<string, Entry>, source: Source, tools: DraftTools, t: string, code: string)
    ensures Listed(TableResults(Drafts.Names(source), existing, source, tools), t, code) <==>
              exists column :: OrphanColumn(existing, RawTables(source), t, column) && code == OrphanCode(column)
  {
    hide ResultFor, SortedSet, OrphanCode, Orphans, TableMap;
    var names := Drafts.Names(source);
    var results := TableResults(names, existing, source, tools);
    forall i | 0 <= i < |names|
      ensures names[i] in RawTables(source) && results[i] == ResultFor(RawTables(source)[names[i]], existing, source, tools)
      ensures results[i].table == names[i]
      ensures results[i].action.RequiresManualReview? && code in results[i].codes <==>
                exists column :: OrphanColumn(existing, RawTables(source), names[i], column) && code == OrphanCode(column)
    {
      assert names[i] in names;
      RawNamed(source, names[i]);
      ResultSound(RawTables(source)[names[i]], existing, source, tools);
      ResultListed(RawTables(source)[names[i]], existing, source, tools, code);
    }
    if r :| r in results && r.action.RequiresManualReview? && r.table == t && code in r.codes {
      var i :| 0 <= i < |names| && results[i] == r;
    }
    if column :| OrphanColumn(existing, RawTables(source), t, column) && code == OrphanCode(column) {
      assert t in names;
      var i :| 0 <= i < |names| && names[i] == t;
      assert results[i] in results;
    }
  }

  lemma OrphansListedExactly(existing: map<string, Entry>, raw: map<string, TableSchema>, t: string, code: string)
    ensures Listed(OrphanResults(SortedSet(existing.Keys - raw.Keys), existing), t, code) <==>
              t in existing && t !in raw && code == ORPHAN_TABLE
  {
    hide SortedSet;
    var names := SortedSet(existing.Keys - raw.Keys);
    assert forall n :: n in names <==> n in existing.Keys - raw.Keys;
    var results := OrphanResults(names, existing);
    if r :| r in results && r.action.RequiresManualReview? && r.table == t && code in r.codes {
      var i :| 0 <= i < |names| && results[i] == r;
      assert names[i] in names;
    }
    if t in existing && t !in raw && code == ORPHAN_TABLE {
      assert t in names;
      var i :| 0 <= i < |names| && names[i] == t;
      assert results[i] in results && code in results[i].codes;
    }
  }

  lemma ListedConcat(a: seq<DraftResult>, b: seq<DraftResult>, t: string, code: string)
    ensures Listed(a + b, t, code) <==> Listed(a, t, code) || Listed(b, t, code)
  {
    if r :| r in a && r.action.RequiresManualReview? && r.table == t && code in r.codes { assert r in a + b; }
    if r :| r in b && r.action.RequiresManualReview? && r.table == t && code in r.codes { assert r in a + b; }
  }

  lemma RunListed(existing: map<string, Entry>, source: Source, tools: DraftTools, t: string, code: string)
    ensures Listed(AllResults(existing, source, tools), t, code) <==> Asked(existing, RawTables(source), t, code)
  {
    hide TableResults, OrphanResults, Listed, RawTables, SortedSet, OrphanColumn, OrphanCode;
    TablesListed(existing, source, tools, t, code);
    OrphansListedExactly(existing, RawTables(source), t, code);
    ListedConcat(TableResults(Drafts.Names(source), existing, source, tools),
                 OrphanResults(SortedSet(existing.Keys - RawTables(source).Keys), existing), t, code);
  }

  /** The entries of one run read differently exactly when its names are separate. */
  lemma RunApartExactly(existing: map<string, Entry>, source: Source, tools: DraftTools)
    ensures Apart(AllResults(existing, source, tools)) <==> NamesSeparate(existing, RawTables(source))
  {
    hide AllResults, Listed, RawTables, OrphanColumn, OrphanCode, Extends, EntryText;
    var raw, results := RawTables(source), AllResults(existing, source, tools);
    forall t, c { RunListed(existing, source, tools, t, c); }
    if NamesSeparate(existing, raw) {
      forall t, u, c, d | Listed(results, t, c) && Listed(results, u, d) && t != u ensures EntryText(t, c) != EntryText(u, d) {
        SeparateApart(existing, raw, t, c, u, d);
      }
    }
    if Apart(results) {
      forall t, column, u, d | OrphanColumn(existing, raw, t, column) && Asked(existing, raw, u, d) ensures !Extends(t, column, u, d) {
        assert Asked(existing, raw, t, OrphanCode(column));
        if Extends(t, column, u, d) {
          ExtendsReadsSame(t, column, u, d);
        }
      }
    }
  }

  lemma SeparateApart(existing: map<string, Entry>, raw: map<string, TableSchema>, t: string, c: string, u: string, d: string)
    requires NamesSeparate(existing, raw) && Asked(existing, raw, t, c) && Asked(existing, raw, u, d) && t != u
    ensures EntryText(t, c) != EntryText(u, d)
  {
    hide OrphanColumn, Extends, EntryText;
    ClashExactly(t, c, u, d);
    CodeParts("");
    if column :| c == OrphanCode(column) && Extends(t, column, u, d) {
      AskedColumn(existing, raw, t, column);
    }
    if column :| d == OrphanCode(column) && Extends(u, column, t, c) {
      AskedColumn(existing, raw, u, column);
    }
  }

  lemma AskedColumn(existing: map<string, Entry>, raw: map<string, TableSchema>, t: string, column: string)
    requires Asked(existing, raw, t, OrphanCode(column))
    ensures OrphanColumn(existing, raw, t, column)
  {
    CodeParts(column);
    assert OrphanCode(column)[22] == ':';
    if other :| OrphanColumn(existing, raw, t, other) && OrphanCode(column) == OrphanCode(other) {
      CodeParts(other);
      assert column == OrphanCode(column)[23..] == other;
    }
  }

  // ---- the results of a draft run are sound ----

  lemma CodesDistinct(columns: set<string>)
    ensures Distinct(Codes(SortedSet(columns)))
  {
    hide SortedSet;
    var names := SortedSet(columns);
    SortedSetSorted(columns);
    StrictlySortedDistinct(names);
    var codes := Codes(names);
    forall i, j | 0 <= i < j < |codes| ensures Itself(codes[i]) != Itself(codes[j]) {
      assert OrphanCode(names[i])[23..] == names[i] && OrphanCode(names[j])[23..] == names[j];
    }
  }

  lemma ResultSound(table: TableSchema, existing: map<string, Entry>, source: Source, tools: DraftTools)
    ensures ResultFor(table, existing, source, tools).table == table.name
    ensures Distinct(ResultFor(table, existing, source, tools).codes)
  {
    hide SortedSet, NeedsWrite, Orphans;
    if table.name in existing {
      CodesDistinct(Orphans(table, existing[table.name].review));
    }
  }

  lemma TableResultsSound(existing: map<string, Entry>, source: Source, tools: DraftTools)
    ensures SoundResults(TableResults(Drafts.Names(source), existing, source, tools))
    ensures forall r :: r in TableResults(Drafts.Names(source), existing, source, tools) ==> r.table in RawTables(source)
  {
    hide ResultFor, SortedSet, Distinct;
    var names := Drafts.Names(source);
    var results := TableResults(names, existing, source, tools);
    NamesDistinct(source);
    forall i | 0 <= i < |names| ensures results[i].table == names[i] && Distinct(results[i].codes) {
      assert names[i] in names;
      RawNamed(source, names[i]);
      ResultSound(RawTables(source)[names[i]], existing, source, tools);
    }
    forall r | r in results ensures r.table in RawTables(source) && Distinct(r.codes) {
      var i :| 0 <= i < |names| && results[i] == r;
      assert names[i] in names;
    }
  }

  lemma OrphanResultsSound(existing: map<string, Entry>, source: Source)
    ensures var orphaned := existing.Keys - RawTables(source).Keys;
            SoundResults(OrphanResults(SortedSet(orphaned), existing))
            && forall r :: r in OrphanResults(SortedSet(orphaned), existing) ==> r.table in orphaned
  {
    hide SortedSet;
    var orphaned := existing.Keys - RawTables(source).Keys;
    var names := SortedSet(orphaned);
    SortedSetSorted(orphaned);
    StrictlySortedDistinct(names);
    var results := OrphanResults(names, existing);
    forall i | 0 <= i < |names| ensures results[i].table == names[i] && names[i] in orphaned {
      assert names[i] in names;
    }
  }

  lemma RunResultsSound(before: Files, after: Files, results: seq<DraftResult>, source: Source, tools: DraftTools)
    requires RunsTo(before, after, results, source, tools)
    ensures SoundResults(results)
  {
    hide FilesAfter, Loads, IsIndex, WritesValid, TableResults, OrphanResults, RawTables, SortedSet, DistinctKeys;
    var existing :| IsIndex(before, existing, tools) && WritesValid(Drafts.Names(source), existing, source, tools)
                    && after == FilesAfter(before, Drafts.Names(source), |Drafts.Names(source)|, existing, source, tools)
                    && results == AllResults(existing, source, tools);
    TableResultsSound(existing, source, tools);
    OrphanResultsSound(existing, source);
    DistinctConcat(TableResults(Drafts.Names(source), existing, source, tools),
                   OrphanResults(SortedSet(existing.Keys - RawTables(source).Keys), existing), ResultTable);
  }

  /** A run's texts repeat exactly when the names of its reviews and its schema are not separate. */
  lemma RunTextsExact(key: string, before: Files, after: Files, results: seq<DraftResult>, source: Source, tools: DraftTools)
    requires RunsTo(before, after, results, source, tools)
    ensures Distinct(ResultTexts(key, results)) <==>
              forall existing :: IsIndex(before, existing, tools) ==> NamesSeparate(existing, RawTables(source))
  {
    hide FilesAfter, Loads, IsIndex, WritesValid, AllResults, NamesSeparate, RawTables, ResultTexts, Distinct, Apart, SoundResults;
    RunResultsSound(before, after, results, source, tools);
    var existing :| IsIndex(before, existing, tools) && WritesValid(Drafts.Names(source), existing, source, tools)
                    && after == FilesAfter(before, Drafts.Names(source), |Drafts.Names(source)|, existing, source, tools)
                    && results == AllResults(existing, source, tools);
    RunApartExactly(existing, source, tools);
    ResultTextsExact(key, results);
    forall other | IsIndex(before, other, tools) ensures other == existing {
      IndexUnique(before, other, existing, tools);
    }
  }
}
