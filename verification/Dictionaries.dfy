/** Python's `{key(item): item for item in items}` and the length test for duplicate keys. */
module Dictionaries {
  import opened Sorting

  /** The last of several items with one key wins. */
  function DictBy<T, K(==)>(items: seq<T>, key: T -> K): map<K, T> {
    if items == [] then map[]
    else DictBy(items[..|items| - 1], key)[key(items[|items| - 1]) := items[|items| - 1]]
  }

  /** The keys are exactly the items' keys, and each value is an item with that key. */
  lemma {:induction false} DictMembers<T(!new), K(!new)>(items: seq<T>, key: T -> K, k: K)
    ensures k in DictBy(items, key) <==> HasKey(items, key, k)
    ensures k in DictBy(items, key) ==> DictBy(items, key)[k] in items && key(DictBy(items, key)[k]) == k
    decreases |items|
  {
    if items == [] {
    } else {
      var init, last := items[..|items| - 1], items[|items| - 1];
      DictMembers(init, key, k);
      assert items == init + [last];
      if HasKey(init, key, k) {
        var x :| x in init && key(x) == k;
        assert x in items;
      }
      if HasKey(items, key, k) && key(last) != k {
        var x :| x in items && key(x) == k;
        assert x in init;
      }
    }
  }

  lemma CountAdded<K, V>(m: map<K, V>, k: K, v: V)
    ensures |m[k := v]| == if k in m then |m| else |m| + 1
  {
    assert m[k := v].Keys == m.Keys + {k};
    assert |m.Keys| == |m| && |m[k := v].Keys| == |m[k := v]|;
  }

  /** The length comparison is exactly a test for duplicate keys. */
  lemma {:induction false} DictCount<T(!new), K(!new)>(items: seq<T>, key: T -> K)
    ensures |DictBy(items, key)| <= |items|
    ensures |DictBy(items, key)| == |items| <==> DistinctKeys(items, key)
    decreases |items|
  {
    if items == [] {
    } else {
      var init, last := items[..|items| - 1], items[|items| - 1];
      var m := DictBy(init, key);
      DictCount(init, key);
      CountAdded(m, key(last), last);
      DictMembers(init, key, key(last));
      DistinctAppend(init, last, key);
      assert items == init + [last];
    }
  }

  /** Without duplicate keys the dictionary loses no item. */
  lemma {:induction false} DictLookup<T(!new), K(!new)>(items: seq<T>, key: T -> K, x: T)
    requires DistinctKeys(items, key) && x in items
    ensures key(x) in DictBy(items, key) && DictBy(items, key)[key(x)] == x
    decreases |items|
  {
    var init, last := items[..|items| - 1], items[|items| - 1];
    DistinctAppend(init, last, key);
    assert items == init + [last];
    if x in init {
      DictLookup(init, key, x);
    }
  }
}
