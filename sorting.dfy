/**
 * Python's `sorted(..., key=...)` on strings: a stable sort by a string key
 * under Python's string order (code point by code point, a proper prefix
 * first), and `sorted_items`, which sorts a dictionary's items by key.
 */
module Sorting {
  import opened PyDict

  /** Python's `a <= b` on strings. */
  predicate StrLe(a: string, b: string)
  {
    |a| == 0 || (|b| > 0 && (a[0] < b[0] || (a[0] == b[0] && StrLe(a[1..], b[1..]))))
  }

  /** Python's `a < b` on strings. */
  predicate StrLt(a: string, b: string)
  {
    StrLe(a, b) && a != b
  }

  lemma {:induction false} StrLeTotal(a: string, b: string)
    ensures StrLe(a, b) || StrLe(b, a)
  {
    if |a| > 0 && |b| > 0 && a[0] == b[0] {
      StrLeTotal(a[1..], b[1..]);
    }
  }

  lemma {:induction false} StrLeAntisymmetric(a: string, b: string)
    requires StrLe(a, b) && StrLe(b, a)
    ensures a == b
  {
    if |a| > 0 && |b| > 0 {
      StrLeAntisymmetric(a[1..], b[1..]);
      assert a == [a[0]] + a[1..];
      assert b == [b[0]] + b[1..];
    }
  }

  lemma {:induction false} StrLeTransitive(a: string, b: string, c: string)
    requires StrLe(a, b) && StrLe(b, c)
    ensures StrLe(a, c)
  {
    if |a| > 0 && a[0] == b[0] && b[0] == c[0] {
      StrLeTransitive(a[1..], b[1..], c[1..]);
    }
  }

  /** Every element's key is at most every later element's key. */
  ghost predicate SortedBy<T>(s: seq<T>, key: T -> string)
  {
    forall i, j :: 0 <= i < j < |s| ==> StrLe(key(s[i]), key(s[j]))
  }

  ghost predicate Distinct<T>(s: seq<T>)
  {
    forall i, j :: 0 <= i < j < |s| ==> s[i] != s[j]
  }

  /** Places `x` before the first element whose key is not below its own. */
  function Insert<T>(x: T, s: seq<T>, key: T -> string): (r: seq<T>)
    requires SortedBy(s, key)
    ensures multiset(r) == multiset(s) + multiset{x}
    ensures SortedBy(r, key)
  {
    if s == [] || StrLe(key(x), key(s[0])) then
      FirstBelowAll(x, s, key);
      PrependSorted(x, s, key);
      [x] + s
    else
      var rest := Insert(x, s[1..], key);
      HeadBelowInserted(x, s, rest, key);
      PrependSorted(s[0], rest, key);
      [s[0]] + rest
  }

  /** Prepending an element whose key is at most every key of a sorted sequence keeps it sorted. */
  lemma PrependSorted<T>(h: T, s: seq<T>, key: T -> string)
    requires SortedBy(s, key) && forall y :: y in multiset(s) ==> StrLe(key(h), key(y))
    ensures SortedBy([h] + s, key)
  {
    assert forall j :: 0 <= j < |s| ==> s[j] in multiset(s);
  }

  lemma FirstBelowAll<T>(x: T, s: seq<T>, key: T -> string)
    requires SortedBy(s, key) && (s == [] || StrLe(key(x), key(s[0])))
    ensures forall y :: y in multiset(s) ==> StrLe(key(x), key(y))
  {
    forall y | y in multiset(s) ensures StrLe(key(x), key(y)) {
      var j :| 0 <= j < |s| && s[j] == y;
      if j > 0 { StrLeTransitive(key(x), key(s[0]), key(s[j])); }
    }
  }

  lemma HeadBelowInserted<T>(x: T, s: seq<T>, rest: seq<T>, key: T -> string)
    requires SortedBy(s, key) && s != [] && !StrLe(key(x), key(s[0]))
    requires multiset(rest) == multiset(s[1..]) + multiset{x}
    ensures forall y :: y in multiset(rest) ==> StrLe(key(s[0]), key(y))
    ensures multiset([s[0]] + rest) == multiset(s) + multiset{x}
  {
    assert s == [s[0]] + s[1..];
    StrLeTotal(key(x), key(s[0]));
    forall y | y in multiset(rest) ensures StrLe(key(s[0]), key(y)) {
      if y != x {
        assert y in multiset(s[1..]);
        var j :| 0 <= j < |s[1..]| && s[1..][j] == y;
      }
    }
  }

  /**
   * `sorted(s, key=key)`: an insertion sort, stated as a sorted permutation.
   * Stability is not stated: every sort in the engine is over distinct keys.
   */
  function SortBy<T>(s: seq<T>, key: T -> string): (r: seq<T>)
    ensures multiset(r) == multiset(s)
    ensures SortedBy(r, key)
  {
    if s == [] then [] else
      assert s == [s[0]] + s[1..];
      Insert(s[0], SortBy(s[1..], key), key)
  }

  lemma {:induction false} DistinctCountsOnce<T>(s: seq<T>, x: T)
    requires Distinct(s)
    ensures multiset(s)[x] <= 1
  {
    if s != [] {
      assert s == [s[0]] + s[1..];
      assert s[0] !in s[1..];
      DistinctCountsOnce(s[1..], x);
    }
  }

  /** A permutation of a sequence without repetitions has none either. */
  lemma PermutationKeepsDistinct<T>(r: seq<T>, s: seq<T>)
    requires multiset(r) == multiset(s) && Distinct(s)
    ensures Distinct(r)
  {
    forall i, j | 0 <= i < j < |r| ensures r[i] != r[j] {
      if r[i] == r[j] {
        assert r == r[..j] + [r[j]] + r[j + 1..];
        assert r[i] in multiset(r[..j]);
        assert multiset(r)[r[i]] >= 2;
        DistinctCountsOnce(s, r[i]);
      }
    }
  }

  function KeyOf<V>(kv: (string, V)): string { kv.0 }

  /**
   * `sorted_items(dictionary)`: the dictionary's items, sorted by key. They
   * are a permutation of `items()` and the keys strictly ascend.
   */
  function SortedItems<V>(d: Dict<string, V>): (r: seq<(string, V)>)
    requires d.Valid()
    ensures multiset(r) == multiset(d.Items())
    ensures forall i, j :: 0 <= i < j < |r| ==> StrLt(r[i].0, r[j].0)
  {
    var r := SortBy(d.Items(), KeyOf);
    SortedKeysAscend(r, d);
    r
  }

  /** Sorted by key, the items of a dictionary have strictly ascending keys. */
  lemma SortedKeysAscend<V>(r: seq<(string, V)>, d: Dict<string, V>)
    requires d.Valid() && multiset(r) == multiset(d.Items()) && SortedBy(r, KeyOf)
    ensures forall i, j :: 0 <= i < j < |r| ==> StrLt(r[i].0, r[j].0)
  {
    var items := d.Items();
    ItemKeysDistinct(d);
    forall i, j | 0 <= i < j < |r| ensures r[i].0 != r[j].0 {
      assert r[i] in multiset(items) && r[j] in multiset(items);
      PermutationKeepsDistinct(r, items);
    }
    assert forall i, j :: 0 <= i < j < |r| ==> StrLe(KeyOf(r[i]), KeyOf(r[j]));
  }

  /** Two items of a dictionary with the same key are the same item. */
  lemma ItemKeysDistinct<V>(d: Dict<string, V>)
    requires d.Valid()
    ensures Distinct(d.Items())
    ensures forall x, y :: x in d.Items() && y in d.Items() && x.0 == y.0 ==> x == y
  {
  }
}
