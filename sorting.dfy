/** `Array.prototype.sort` with a consistent comparator, as the source uses it: the result is
    sorted, is a permutation of the input, and is stable (elements that compare equal keep their
    input order; a stable sort is required of JavaScript engines since ES2019).

    The comparators of the source (`localeCompare` with the Italian locale, with or without
    numeric collation) are platform collations; here each is an abstract total preorder `le`
    on sort keys ("sorts no later than"), with `le(a, b) <==> cmp(a, b) <= 0`. */
module Sorting {

  ghost predicate TotalPreorder<K(!new)>(le: (K, K) -> bool)
  {
    && (forall a, b :: le(a, b) || le(b, a))
    && (forall a, b, c :: le(a, b) && le(b, c) ==> le(a, c))
  }

  /** The comparator returns 0 for `a` and `b`. */
  predicate Equiv<K>(le: (K, K) -> bool, a: K, b: K)
  {
    le(a, b) && le(b, a)
  }

  predicate SortedBy<T, K>(s: seq<T>, key: T -> K, le: (K, K) -> bool)
  {
    forall i, j :: 0 <= i < j < |s| ==> le(key(s[i]), key(s[j]))
  }

  /** Inserts `x` before the first element it sorts no later than. */
  function Insert<T, K>(x: T, s: seq<T>, key: T -> K, le: (K, K) -> bool): (r: seq<T>)
    ensures multiset(r) == multiset(s) + multiset{x}
    ensures |r| == |s| + 1
  {
    if s == [] || le(key(x), key(s[0])) then [x] + s
    else
      assert s == [s[0]] + s[1..];
      [s[0]] + Insert(x, s[1..], key, le)
  }

  /** Stable insertion sort by `key` under `le`. */
  function SortBy<T, K>(s: seq<T>, key: T -> K, le: (K, K) -> bool): (r: seq<T>)
    ensures multiset(r) == multiset(s)
    ensures |r| == |s|
  {
    if s == [] then []
    else
      assert s == [s[0]] + s[1..];
      Insert(s[0], SortBy(s[1..], key, le), key, le)
  }

  lemma {:induction false} InsertSorted<T, K(!new)>(x: T, s: seq<T>, key: T -> K, le: (K, K) -> bool)
    requires TotalPreorder(le)
    requires SortedBy(s, key, le)
    ensures SortedBy(Insert(x, s, key, le), key, le)
  {
    if s != [] && !le(key(x), key(s[0])) {
      InsertSorted(x, s[1..], key, le);
      var t := Insert(x, s[1..], key, le);
      var r := [s[0]] + t;
      assert le(key(s[0]), key(x));
      forall j | 0 < j < |r|
        ensures le(key(s[0]), key(r[j]))
      {
        assert r[j] in multiset(t);
        assert r[j] in multiset(s[1..]) + multiset{x};
        if r[j] != x {
          assert r[j] in s[1..];
          var m :| 0 <= m < |s[1..]| && s[1..][m] == r[j];
          assert s[1 + m] == r[j];
        }
      }
    }
  }

  lemma {:induction false} SortBySorted<T, K(!new)>(s: seq<T>, key: T -> K, le: (K, K) -> bool)
    requires TotalPreorder(le)
    ensures SortedBy(SortBy(s, key, le), key, le)
  {
    if s != [] {
      SortBySorted(s[1..], key, le);
      InsertSorted(s[0], SortBy(s[1..], key, le), key, le);
    }
  }

  /** The elements of `s` whose key compares equal to `k`, in order. */
  function Equivalents<T, K>(s: seq<T>, key: T -> K, le: (K, K) -> bool, k: K): (r: seq<T>)
    ensures |r| <= |s|
  {
    if s == [] then []
    else (if Equiv(le, key(s[0]), k) then [s[0]] else []) + Equivalents(s[1..], key, le, k)
  }

  lemma {:induction false} InsertStable<T, K(!new)>(x: T, s: seq<T>, key: T -> K, le: (K, K) -> bool, k: K)
    requires TotalPreorder(le)
    ensures Equivalents(Insert(x, s, key, le), key, le, k)
         == (if Equiv(le, key(x), k) then [x] else []) + Equivalents(s, key, le, k)
  {
    if s == [] || le(key(x), key(s[0])) {
      assert ([x] + s)[1..] == s;
    } else {
      var t := Insert(x, s[1..], key, le);
      InsertStable(x, s[1..], key, le, k);
      var r := [s[0]] + t;
      assert r[0] == s[0] && r[1..] == t;
      assert Equivalents(r, key, le, k)
          == (if Equiv(le, key(s[0]), k) then [s[0]] else []) + Equivalents(t, key, le, k);
      assert Equivalents(s, key, le, k)
          == (if Equiv(le, key(s[0]), k) then [s[0]] else []) + Equivalents(s[1..], key, le, k);
    }
  }

  /** Stability: for every class of equal keys, the sort keeps that class in input order. */
  lemma {:induction false} SortByStable<T, K(!new)>(s: seq<T>, key: T -> K, le: (K, K) -> bool, k: K)
    requires TotalPreorder(le)
    ensures Equivalents(SortBy(s, key, le), key, le, k) == Equivalents(s, key, le, k)
  {
    if s != [] {
      SortByStable(s[1..], key, le, k);
      InsertStable(s[0], SortBy(s[1..], key, le), key, le, k);
    }
  }
}
