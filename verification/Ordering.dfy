/** Strict total orders, and the lexicographic order Python uses on strings and tuples. */
module Ordering {

  ghost predicate StrictTotal<T(!new)>(lt: (T, T) -> bool) {
    && (forall a :: !lt(a, a))
    && (forall a, b, c :: lt(a, b) && lt(b, c) ==> lt(a, c))
    && (forall a, b :: lt(a, b) || a == b || lt(b, a))
  }

  /** The first differing element decides; a proper prefix comes first. */
  predicate LexLess<T(==)>(a: seq<T>, b: seq<T>, lt: (T, T) -> bool) {
    if b == [] then false
    else if a == [] then true
    else if a[0] == b[0] then LexLess(a[1..], b[1..], lt)
    else lt(a[0], b[0])
  }

  lemma {:induction false} LexTransitive<T(!new)>(a: seq<T>, b: seq<T>, c: seq<T>, lt: (T, T) -> bool)
    requires StrictTotal(lt)
    requires LexLess(a, b, lt) && LexLess(b, c, lt)
    ensures LexLess(a, c, lt)
    decreases |a|
  {
    if a != [] && a[0] == b[0] && b[0] == c[0] {
      LexTransitive(a[1..], b[1..], c[1..], lt);
    }
  }

  lemma {:induction false} LexTrichotomy<T(!new)>(a: seq<T>, b: seq<T>, lt: (T, T) -> bool)
    requires StrictTotal(lt)
    ensures LexLess(a, b, lt) || a == b || LexLess(b, a, lt)
    decreases |a|
  {
    if a != [] && b != [] && a[0] == b[0] {
      LexTrichotomy(a[1..], b[1..], lt);
      assert a == [a[0]] + a[1..] && b == [b[0]] + b[1..];
    }
  }

  lemma {:induction false} LexIrreflexive<T(!new)>(a: seq<T>, lt: (T, T) -> bool)
    ensures !LexLess(a, a, lt)
    decreases |a|
  {
    if a != [] {
      LexIrreflexive(a[1..], lt);
    }
  }

  predicate CharLess(a: char, b: char) {
    a < b
  }

  /** Python's `<` on strings: by code point. */
  predicate StrLess(a: string, b: string) {
    LexLess(a, b, CharLess)
  }

  /** Python's `<` on tuples of strings. */
  predicate TupleLess(a: seq<string>, b: seq<string>) {
    LexLess(a, b, StrLess)
  }

  /** Python's `<` on tuples of such tuples. */
  predicate NestedLess(a: seq<seq<string>>, b: seq<seq<string>>) {
    LexLess(a, b, TupleLess)
  }

  lemma StrLessTotal()
    ensures StrictTotal(StrLess)
  {
    assert StrictTotal(CharLess);
    forall a: string { LexIrreflexive(a, CharLess); }
    forall a: string, b: string { LexTrichotomy(a, b, CharLess); }
    forall a: string, b: string, c: string | StrLess(a, b) && StrLess(b, c) {
      LexTransitive(a, b, c, CharLess);
    }
  }

  lemma TupleLessTotal()
    ensures StrictTotal(TupleLess)
  {
    StrLessTotal();
    forall a: seq<string> { LexIrreflexive(a, StrLess); }
    forall a: seq<string>, b: seq<string> { LexTrichotomy(a, b, StrLess); }
    forall a: seq<string>, b: seq<string>, c: seq<string> | TupleLess(a, b) && TupleLess(b, c) {
      LexTransitive(a, b, c, StrLess);
    }
  }

  lemma NestedLessTotal()
    ensures StrictTotal(NestedLess)
  {
    TupleLessTotal();
    forall a: seq<seq<string>> { LexIrreflexive(a, TupleLess); }
    forall a: seq<seq<string>>, b: seq<seq<string>> { LexTrichotomy(a, b, TupleLess); }
    forall a: seq<seq<string>>, b: seq<seq<string>>, c: seq<seq<string>> | NestedLess(a, b) && NestedLess(b, c) {
      LexTransitive(a, b, c, TupleLess);
    }
  }

  /** A common prefix does not change how two strings compare. */
  lemma {:induction false} LexCommonPrefix<T(!new)>(p: seq<T>, a: seq<T>, b: seq<T>, lt: (T, T) -> bool)
    ensures LexLess(p + a, p + b, lt) == LexLess(a, b, lt)
    decreases |p|
  {
    if p == [] {
      assert p + a == a && p + b == b;
    } else {
      assert (p + a)[1..] == p[1..] + a && (p + b)[1..] == p[1..] + b;
      LexCommonPrefix(p[1..], a, b, lt);
    }
  }
}
