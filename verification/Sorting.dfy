/** Python's stable `sorted(values, key=...)` and `sorted(set(values))`. */
module Sorting {
  import opened Ordering

  function Insert<T, K(==)>(x: T, s: seq<T>, key: T -> K, lt: (K, K) -> bool): (r: seq<T>)
    ensures |r| == |s| + 1
  {
    if s == [] || !lt(key(s[0]), key(x)) then [x] + s
    else [s[0]] + Insert(x, s[1..], key, lt)
  }

  function SortBy<T, K(==)>(s: seq<T>, key: T -> K, lt: (K, K) -> bool): (r: seq<T>)
    ensures |r| == |s|
  {
    if s == [] then [] else Insert(s[0], SortBy(s[1..], key, lt), key, lt)
  }

  /** No element comes after one with a larger key. */
  ghost predicate Ordered<T(!new), K(!new)>(s: seq<T>, key: T -> K, lt: (K, K) -> bool) {
    forall i, j :: 0 <= i < j < |s| ==> !lt(key(s[j]), key(s[i]))
  }

  /** Keys strictly increase, so no two elements share one. */
  ghost predicate StrictlyOrdered<T(!new), K(!new)>(s: seq<T>, key: T -> K, lt: (K, K) -> bool) {
    forall i, j :: 0 <= i < j < |s| ==> lt(key(s[i]), key(s[j]))
  }

  /** Equal keys only on equal elements: nothing a stable sort could leave in input order. */
  ghost predicate KeyDetermines<T(!new), K(!new)>(s: seq<T>, key: T -> K) {
    forall x, y :: x in s && y in s && key(x) == key(y) ==> x == y
  }

  lemma {:induction false} InsertMultiset<T(!new), K(!new)>(x: T, s: seq<T>, key: T -> K, lt: (K, K) -> bool)
    ensures multiset(Insert(x, s, key, lt)) == multiset(s) + multiset{x}
  {
    if s != [] && lt(key(s[0]), key(x)) {
      InsertMultiset(x, s[1..], key, lt);
      assert s == [s[0]] + s[1..];
    }
  }

  lemma {:induction false} SortMultiset<T(!new), K(!new)>(s: seq<T>, key: T -> K, lt: (K, K) -> bool)
    ensures multiset(SortBy(s, key, lt)) == multiset(s)
  {
    if s != [] {
      SortMultiset(s[1..], key, lt);
      InsertMultiset(s[0], SortBy(s[1..], key, lt), key, lt);
      assert s == [s[0]] + s[1..];
    }
  }

  lemma SortMembers<T(!new), K(!new)>(s: seq<T>, key: T -> K, lt: (K, K) -> bool)
    ensures forall x :: x in SortBy(s, key, lt) <==> x in s
  {
    SortMultiset(s, key, lt);
    forall x ensures x in SortBy(s, key, lt) <==> x in s {
      assert x in SortBy(s, key, lt) <==> x in multiset(SortBy(s, key, lt));
      assert x in s <==> x in multiset(s);
    }
  }

  lemma {:induction false} InsertOrdered<T(!new), K(!new)>(x: T, s: seq<T>, key: T -> K, lt: (K, K) -> bool)
    requires StrictTotal(lt) && Ordered(s, key, lt)
    ensures Ordered(Insert(x, s, key, lt), key, lt)
  {
    if s != [] && lt(key(s[0]), key(x)) {
      var rest := Insert(x, s[1..], key, lt);
      InsertMultiset(x, s[1..], key, lt);
      forall j | 0 <= j < |rest| ensures !lt(key(rest[j]), key(s[0])) {
        assert rest[j] in multiset(rest);
        assert rest[j] in s[1..] || rest[j] == x;
      }
      TailOrdered(s, key, lt);
      hide StrictTotal;
      InsertOrdered(x, s[1..], key, lt);
      PrependOrdered(s[0], rest, key, lt);
    }
  }

  lemma PrependOrdered<T(!new), K(!new)>(x: T, rest: seq<T>, key: T -> K, lt: (K, K) -> bool)
    requires Ordered(rest, key, lt) && forall j :: 0 <= j < |rest| ==> !lt(key(rest[j]), key(x))
    ensures Ordered([x] + rest, key, lt)
  {
    var r := [x] + rest;
    forall i, j | 0 <= i < j < |r| ensures !lt(key(r[j]), key(r[i])) {
      assert r[j] == rest[j - 1];
    }
  }

  lemma {:induction false} SortOrdered<T(!new), K(!new)>(s: seq<T>, key: T -> K, lt: (K, K) -> bool)
    requires StrictTotal(lt)
    ensures Ordered(SortBy(s, key, lt), key, lt)
  {
    if s != [] {
      SortOrdered(s[1..], key, lt);
      InsertOrdered(s[0], SortBy(s[1..], key, lt), key, lt);
    }
  }

  lemma TailMultiset<T(!new)>(s: seq<T>)
    requires s != []
    ensures multiset(s[1..]) == multiset(s) - multiset{s[0]}
    ensures s == [s[0]] + s[1..]
  {
    assert s == [s[0]] + s[1..];
  }

  lemma ConcatCount<T(!new)>(a: seq<T>, b: seq<T>, x: T)
    ensures multiset(a + b)[x] == multiset(a)[x] + multiset(b)[x]
  {
  }

  lemma LastCount<T(!new)>(s: seq<T>, x: T)
    requires s != []
    ensures multiset(s)[x] == multiset(s[..|s| - 1])[x] + if s[|s| - 1] == x then 1 else 0
  {
    assert s == s[..|s| - 1] + [s[|s| - 1]];
  }

  lemma HeadsAgree<T(!new), K(!new)>(a: seq<T>, b: seq<T>, key: T -> K, lt: (K, K) -> bool)
    requires StrictTotal(lt) && Ordered(a, key, lt) && Ordered(b, key, lt)
    requires multiset(a) == multiset(b) && KeyDetermines(a, key) && a != [] && b != []
    ensures a[0] == b[0]
  {
    assert a[0] in multiset(b) && b[0] in multiset(a);
    var i :| 0 <= i < |b| && b[i] == a[0];
    var j :| 0 <= j < |a| && a[j] == b[0];
    assert !lt(key(b[i]), key(b[0])) && !lt(key(a[j]), key(a[0]));
  }

  lemma TailOrdered<T(!new), K(!new)>(s: seq<T>, key: T -> K, lt: (K, K) -> bool)
    requires s != []
    ensures Ordered(s, key, lt) ==> Ordered(s[1..], key, lt)
    ensures KeyDetermines(s, key) ==> KeyDetermines(s[1..], key)
  {
  }

  /** An ordered sequence is determined by its elements when keys determine elements. */
  lemma {:induction false} OrderedUnique<T(!new), K(!new)>(a: seq<T>, b: seq<T>, key: T -> K, lt: (K, K) -> bool)
    requires StrictTotal(lt) && Ordered(a, key, lt) && Ordered(b, key, lt)
    requires multiset(a) == multiset(b) && KeyDetermines(a, key)
    ensures a == b
    decreases |a|
  {
    hide StrictTotal, Ordered, KeyDetermines;
    assert |multiset(a)| == |a| && |multiset(b)| == |b|;
    if a != [] {
      HeadsAgree(a, b, key, lt);
      TailMultiset(a);
      TailMultiset(b);
      TailOrdered(a, key, lt);
      TailOrdered(b, key, lt);
      OrderedUnique(a[1..], b[1..], key, lt);
    }
  }

  lemma SortKeyDetermines<T(!new), K(!new)>(s: seq<T>, key: T -> K, lt: (K, K) -> bool)
    requires KeyDetermines(s, key)
    ensures KeyDetermines(SortBy(s, key, lt), key)
  {
    SortMembers(s, key, lt);
    var r := SortBy(s, key, lt);
    forall x, y | x in r && y in r && key(x) == key(y) ensures x == y {
      assert x in s && y in s;
    }
  }

  /** Sorting forgets the input order when keys determine elements. */
  lemma SortCanonical<T(!new), K(!new)>(a: seq<T>, b: seq<T>, key: T -> K, lt: (K, K) -> bool)
    requires StrictTotal(lt)
    requires multiset(a) == multiset(b) && KeyDetermines(a, key)
    ensures SortBy(a, key, lt) == SortBy(b, key, lt)
  {
    SortOrdered(a, key, lt);
    SortOrdered(b, key, lt);
    SortMultiset(a, key, lt);
    SortMultiset(b, key, lt);
    SortKeyDetermines(a, key, lt);
    OrderedUnique(SortBy(a, key, lt), SortBy(b, key, lt), key, lt);
  }

  /** Sorting an already ordered sequence with determining keys changes nothing. */
  lemma SortFixed<T(!new), K(!new)>(s: seq<T>, key: T -> K, lt: (K, K) -> bool)
    requires StrictTotal(lt) && Ordered(s, key, lt) && KeyDetermines(s, key)
    ensures SortBy(s, key, lt) == s
  {
    SortOrdered(s, key, lt);
    SortMultiset(s, key, lt);
    SortMembers(s, key, lt);
    OrderedUnique(SortBy(s, key, lt), s, key, lt);
  }

  ghost predicate DistinctKeys<T(!new), K(!new)>(s: seq<T>, key: T -> K) {
    forall i, j :: 0 <= i < j < |s| ==> key(s[i]) != key(s[j])
  }

  ghost predicate HasKey<T(!new), K(!new)>(s: seq<T>, key: T -> K, k: K) {
    exists x :: x in s && key(x) == k
  }

  lemma DistinctAppend<T(!new), K(!new)>(s: seq<T>, x: T, key: T -> K)
    ensures DistinctKeys(s + [x], key) <==> DistinctKeys(s, key) && forall y :: y in s ==> key(y) != key(x)
  {
    var t := s + [x];
    assert forall i :: 0 <= i < |s| ==> t[i] == s[i];
    if DistinctKeys(t, key) {
      forall y | y in s ensures key(y) != key(x) {
        var i :| 0 <= i < |s| && s[i] == y;
        assert key(t[i]) != key(t[|s|]);
      }
    }
  }

  lemma DistinctConcat<T(!new), K(!new)>(a: seq<T>, b: seq<T>, key: T -> K)
    ensures DistinctKeys(a + b, key) <==>
              DistinctKeys(a, key) && DistinctKeys(b, key) && forall x, y :: x in a && y in b ==> key(x) != key(y)
  {
    var s := a + b;
    assert forall i :: 0 <= i < |a| ==> s[i] == a[i];
    assert forall j :: 0 <= j < |b| ==> s[|a| + j] == b[j];
    if DistinctKeys(s, key) {
      forall x, y | x in a && y in b ensures key(x) != key(y) {
        var i :| 0 <= i < |a| && a[i] == x;
        var j :| 0 <= j < |b| && b[j] == y;
        assert key(s[i]) != key(s[|a| + j]);
      }
      forall i, j | 0 <= i < j < |b| ensures key(b[i]) != key(b[j]) {
        assert key(s[|a| + i]) != key(s[|a| + j]);
      }
    }
    if DistinctKeys(a, key) && DistinctKeys(b, key) && (forall x, y :: x in a && y in b ==> key(x) != key(y)) {
      forall i, j | 0 <= i < j < |s| ensures key(s[i]) != key(s[j]) {
        if i >= |a| {
          assert s[i] == b[i - |a|] && s[j] == b[j - |a|];
        } else if j >= |a| {
          assert s[i] in a && s[j] == b[j - |a|] && s[j] in b;
        }
      }
    }
  }

  /** Distinct keys are a property of the elements, not of their order. */
  lemma {:induction false} DistinctPermuted<T(!new), K(!new)>(a: seq<T>, b: seq<T>, key: T -> K)
    requires multiset(a) == multiset(b) && DistinctKeys(a, key)
    ensures DistinctKeys(b, key)
  {
    forall i, j | 0 <= i < j < |b| ensures key(b[i]) != key(b[j]) {
      if key(b[i]) == key(b[j]) {
        assert b[i] in multiset(a) && b[j] in multiset(a);
        var p :| 0 <= p < |a| && a[p] == b[i];
        var q :| 0 <= q < |a| && a[q] == b[j];
        assert p == q;
        TwiceIn(b, i, j);
        OnceIn(a, p, key);
      }
    }
  }

  lemma TwiceIn<T(!new)>(s: seq<T>, i: nat, j: nat)
    requires i < j < |s| && s[i] == s[j]
    ensures multiset(s)[s[i]] >= 2
  {
    assert s == s[..j] + s[j..];
    assert s[..j][i] == s[i] && s[j..][0] == s[i];
    assert s[i] in multiset(s[..j]) && s[i] in multiset(s[j..]);
  }

  lemma OnceIn<T(!new), K(!new)>(s: seq<T>, i: nat, key: T -> K)
    requires i < |s| && DistinctKeys(s, key)
    ensures multiset(s)[s[i]] == 1
  {
    assert s == s[..i] + [s[i]] + s[i + 1..];
    assert s[i] !in s[..i] && s[i] !in s[i + 1..];
  }

  lemma OrderedDistinctIsStrict<T(!new), K(!new)>(s: seq<T>, key: T -> K, lt: (K, K) -> bool)
    requires StrictTotal(lt) && Ordered(s, key, lt) && DistinctKeys(s, key)
    ensures StrictlyOrdered(s, key, lt)
  {
  }

  // ---- stability ----

  /** The first element with the given key. */
  function FirstWith<T, K(==)>(s: seq<T>, key: T -> K, k: K): (r: T)
    requires exists x :: x in s && key(x) == k
    ensures r in s && key(r) == k
  {
    if key(s[0]) == k then s[0] else FirstWith(s[1..], key, k)
  }

  lemma InsertHasKey<T(!new), K(!new)>(x: T, s: seq<T>, key: T -> K, lt: (K, K) -> bool, k: K)
    requires key(x) == k || HasKey(s, key, k)
    ensures HasKey(Insert(x, s, key, lt), key, k)
  {
    InsertMultiset(x, s, key, lt);
    var y :| (y == x || y in s) && key(y) == k;
    assert y in multiset(Insert(x, s, key, lt));
  }

  lemma {:induction false} InsertFirst<T(!new), K(!new)>(x: T, s: seq<T>, key: T -> K, lt: (K, K) -> bool, k: K)
    requires StrictTotal(lt)
    requires key(x) == k || HasKey(s, key, k)
    ensures HasKey(Insert(x, s, key, lt), key, k)
    ensures FirstWith(Insert(x, s, key, lt), key, k) == if key(x) == k then x else FirstWith(s, key, k)
  {
    InsertHasKey(x, s, key, lt, k);
    var r := Insert(x, s, key, lt);
    if s == [] || !lt(key(s[0]), key(x)) {
      assert r[1..] == s;
    } else {
      assert r[1..] == Insert(x, s[1..], key, lt);
      if key(x) == k || HasKey(s[1..], key, k) {
        InsertFirst(x, s[1..], key, lt, k);
      } else {
        assert key(s[0]) == k;
      }
    }
  }

  /** A stable sort keeps the first of several equal keys first. */
  lemma {:induction false} SortFirst<T(!new), K(!new)>(s: seq<T>, key: T -> K, lt: (K, K) -> bool, k: K)
    requires StrictTotal(lt)
    requires HasKey(s, key, k)
    ensures HasKey(SortBy(s, key, lt), key, k)
    ensures FirstWith(SortBy(s, key, lt), key, k) == FirstWith(s, key, k)
  {
    assert s == [s[0]] + s[1..];
    if HasKey(s[1..], key, k) {
      SortFirst(s[1..], key, lt, k);
    }
    InsertFirst(s[0], SortBy(s[1..], key, lt), key, lt, k);
  }

  // ---- sorted sets of strings ----

  /** The key of a plain `sorted(values)`. */
  function Itself(s: string): string {
    s
  }

  ghost predicate StrictlySorted(s: seq<string>) {
    forall i, j :: 0 <= i < j < |s| ==> StrLess(s[i], s[j])
  }

  function Elements<T(==)>(s: seq<T>): set<T> {
    set x | x in s
  }

  predicate IsLeast(x: string, s: set<string>) {
    x in s && forall y :: y in s ==> y == x || StrLess(x, y)
  }

  lemma {:induction false} FindLeast(s: set<string>) returns (least: string)
    requires s != {}
    ensures IsLeast(least, s)
    decreases s
  {
    least :| least in s;
    var x := least;
    if s != {x} {
      var m := FindLeast(s - {x});
      LexTrichotomy(x, m, CharLess);
      if !StrLess(x, m) {
        least := m;
      }
      forall y | y in s ensures y == least || StrLess(least, y) {
        if y != x && y != m {
          assert y in s - {x};
          if least == x { LexTransitive(x, m, y, CharLess); }
        }
      }
    }
  }

  lemma LeastUnique(s: set<string>)
    requires s != {}
    ensures exists x :: x in s && IsLeast(x, s)
    ensures forall x, z :: IsLeast(x, s) && IsLeast(z, s) ==> x == z
  {
    var least := FindLeast(s);
    forall x, z | IsLeast(x, s) && IsLeast(z, s) ensures x == z {
      if x != z {
        LexTransitive(x, z, x, CharLess);
        LexIrreflexive(x, CharLess);
      }
    }
  }

  /** `sorted(set)`. */
  function SortedSet(s: set<string>): (r: seq<string>)
    ensures forall x :: x in r <==> x in s
    ensures |r| == |s|
    decreases s
  {
    if s == {} then []
    else
      LeastUnique(s);
      var least :| least in s && IsLeast(least, s);
      [least] + SortedSet(s - {least})
  }

  lemma PrependLeast(least: string, rest: seq<string>)
    requires StrictlySorted(rest) && forall x :: x in rest ==> StrLess(least, x)
    ensures StrictlySorted([least] + rest)
  {
    hide StrLess;
    var r := [least] + rest;
    forall i, j | 0 <= i < j < |r| ensures StrLess(r[i], r[j]) {
      assert r[j] == rest[j - 1] && r[j] in rest;
      if i > 0 { assert r[i] == rest[i - 1]; }
    }
  }

  lemma {:induction false} SortedSetSorted(s: set<string>)
    ensures StrictlySorted(SortedSet(s))
    decreases s
  {
    if s == {} {
    } else {
      LeastUnique(s);
      hide StrLess;
      var least :| least in s && IsLeast(least, s);
      var rest := SortedSet(s - {least});
      SortedSetSorted(s - {least});
      assert forall x :: x in rest ==> x in s - {least};
      PrependLeast(least, rest);
      assert SortedSet(s) == [least] + rest;
    }
  }

  lemma {:induction false} StrictlySortedUnique(a: seq<string>, b: seq<string>)
    requires StrictlySorted(a) && StrictlySorted(b)
    requires forall x :: x in a <==> x in b
    ensures a == b
    decreases |a|
  {
    StrLessTotal();
    assert b != [] ==> b[0] in a;
    if a != [] {
      assert a[0] in b && b[0] in a;
      assert a[0] == b[0];
      forall x ensures x in a[1..] <==> x in b[1..] {
        if x in a[1..] { assert x in b; assert x != b[0]; }
        if x in b[1..] { assert x in a; assert x != a[0]; }
      }
      StrictlySortedUnique(a[1..], b[1..]);
    }
  }

  lemma SortedSetUnique(s: seq<string>, elements: set<string>)
    requires StrictlySorted(s) && forall x :: x in s <==> x in elements
    ensures s == SortedSet(elements)
  {
    SortedSetSorted(elements);
    StrictlySortedUnique(s, SortedSet(elements));
  }

  lemma StrictlySortedDistinct(s: seq<string>)
    requires StrictlySorted(s)
    ensures forall i, j :: 0 <= i < |s| && 0 <= j < |s| && s[i] == s[j] ==> i == j
  {
    StrLessTotal();
  }
}
