/**
 * Sequence helpers used by the grouping, sorting and truncation steps
 * of the attribution engine: duplicate-free key lists in order of first
 * appearance, head(n), a stable sort by a real-valued key, and the
 * sorted duplicate-free list of reals that np.unique returns.
 */
module Seqs {

  predicate NoDup<T(==)>(s: seq<T>)
  {
    forall i, j :: 0 <= i < j < |s| ==> s[i] != s[j]
  }

  /** The distinct elements of `s`, in order of first appearance. */
  function Distinct<T(==)>(s: seq<T>): (r: seq<T>)
    ensures NoDup(r)
    ensures forall i :: 0 <= i < |r| ==> r[i] in s
    ensures forall i :: 0 <= i < |s| ==> s[i] in r
    ensures |r| <= |s|
  {
    if s == [] then []
    else
      var p := Distinct(s[..|s| - 1]);
      if s[|s| - 1] in p then p else p + [s[|s| - 1]]
  }

  /** pandas' head(n): the first n elements, or all of them. */
  function Take<T>(s: seq<T>, n: nat): (r: seq<T>)
    ensures |r| <= n && |r| <= |s|
    ensures |r| == n || |r| == |s|
    ensures r <= s
  {
    if n < |s| then s[..n] else s
  }

  /** Number of occurrences of `x` in `s`. */
  function Count<T(==)>(s: seq<T>, x: T): nat
  {
    if s == [] then 0
    else Count(s[..|s| - 1], x) + (if s[|s| - 1] == x then 1 else 0)
  }

  // ---------------------------------------------------------------
  // Stable sort by a real key, ascending or descending
  // ---------------------------------------------------------------

  /** `a` may precede `b` in a `desc`-ending (or ascending) order. */
  predicate InOrder(a: real, b: real, desc: bool)
  {
    if desc then a >= b else a <= b
  }

  ghost predicate SortedBy<T>(s: seq<T>, key: T -> real, desc: bool)
  {
    forall i, j :: 0 <= i < j < |s| ==> InOrder(key(s[i]), key(s[j]), desc)
  }

  /** The elements of `s` whose key is `v`, in their order in `s`. */
  function WithKey<T>(s: seq<T>, key: T -> real, v: real): seq<T>
  {
    if s == [] then []
    else WithKey(s[..|s| - 1], key, v) + (if key(s[|s| - 1]) == v then [s[|s| - 1]] else [])
  }

  /** Inserts `x` after every element that may precede it. */
  function Insert<T>(x: T, s: seq<T>, key: T -> real, desc: bool): (r: seq<T>)
    ensures |r| == |s| + 1
    ensures multiset(r) == multiset(s) + multiset{x}
  {
    if s == [] then [x]
    else if InOrder(key(s[|s| - 1]), key(x), desc) then s + [x]
    else
      assert s == s[..|s| - 1] + [s[|s| - 1]];
      Insert(x, s[..|s| - 1], key, desc) + [s[|s| - 1]]
  }

  /** An element of Insert(x, s) is `x` or an element of `s`. */
  lemma InsertElement<T>(x: T, s: seq<T>, key: T -> real, desc: bool, i: nat)
    requires i < |Insert(x, s, key, desc)|
    ensures Insert(x, s, key, desc)[i] == x || Insert(x, s, key, desc)[i] in s
  {
    var y := Insert(x, s, key, desc)[i];
    assert y in multiset(Insert(x, s, key, desc));
  }

  lemma {:induction false} InsertSorted<T>(x: T, s: seq<T>, key: T -> real, desc: bool)
    requires SortedBy(s, key, desc)
    ensures SortedBy(Insert(x, s, key, desc), key, desc)
  {
    if s != [] && !InOrder(key(s[|s| - 1]), key(x), desc) {
      var p, l := s[..|s| - 1], s[|s| - 1];
      var q := Insert(x, p, key, desc);
      InsertSorted(x, p, key, desc);
      forall i | 0 <= i < |q| ensures InOrder(key(q[i]), key(l), desc) {
        InsertElement(x, p, key, desc, i);
        if q[i] != x {
          var k :| 0 <= k < |p| && p[k] == q[i];
          assert s[k] == q[i];
        }
      }
    }
  }

  /**
   * Stable insertion sort: the result is ordered by `key` (descending when
   * `desc`), is a permutation of `s`, and keeps elements with equal keys in
   * their input order (see SortStable).
   */
  function Sort<T>(s: seq<T>, key: T -> real, desc: bool): (r: seq<T>)
    ensures |r| == |s|
    ensures multiset(r) == multiset(s)
    ensures SortedBy(r, key, desc)
  {
    if s == [] then []
    else
      assert s == s[..|s| - 1] + [s[|s| - 1]];
      InsertSorted(s[|s| - 1], Sort(s[..|s| - 1], key, desc), key, desc);
      Insert(s[|s| - 1], Sort(s[..|s| - 1], key, desc), key, desc)
  }

  lemma WithKeySnoc<T>(s: seq<T>, y: T, key: T -> real, v: real)
    ensures WithKey(s + [y], key, v) == WithKey(s, key, v) + (if key(y) == v then [y] else [])
  {
    assert (s + [y])[..|s|] == s;
  }

  lemma {:induction false} InsertWithKey<T>(x: T, s: seq<T>, key: T -> real, desc: bool, v: real)
    ensures WithKey(Insert(x, s, key, desc), key, v)
         == WithKey(s, key, v) + (if key(x) == v then [x] else [])
  {
    if s == [] {
    } else if InOrder(key(s[|s| - 1]), key(x), desc) {
      WithKeySnoc(s, x, key, v);
    } else {
      var p, l := s[..|s| - 1], s[|s| - 1];
      InsertWithKey(x, p, key, desc, v);
      WithKeySnoc(Insert(x, p, key, desc), l, key, v);
      assert key(l) != key(x);
    }
  }

  /** Sorting is stable: for every key value, the elements carrying it keep their order. */
  lemma {:induction false} SortStable<T>(s: seq<T>, key: T -> real, desc: bool, v: real)
    ensures WithKey(Sort(s, key, desc), key, v) == WithKey(s, key, v)
  {
    if s != [] {
      SortStable(s[..|s| - 1], key, desc, v);
      InsertWithKey(s[|s| - 1], Sort(s[..|s| - 1], key, desc), key, desc, v);
    }
  }

  /** SortStable for every key value at once. */
  lemma SortStableAll<T>(s: seq<T>, key: T -> real, desc: bool)
    ensures forall v :: WithKey(Sort(s, key, desc), key, v) == WithKey(s, key, v)
  {
    forall v ensures WithKey(Sort(s, key, desc), key, v) == WithKey(s, key, v) {
      SortStable(s, key, desc, v);
    }
  }

  /**
   * head(n) of a sorted sequence keeps its top n: every element left out
   * may follow every element kept.
   */
  lemma TakeSortedTop<T>(s: seq<T>, key: T -> real, desc: bool, n: nat, x: T)
    requires SortedBy(s, key, desc) && x in s && x !in Take(s, n)
    ensures |Take(s, n)| == n
    ensures forall y :: y in Take(s, n) ==> InOrder(key(y), key(x), desc)
  {
    var t := Take(s, n);
    var rest := s[|t|..];
    assert s == t + rest;
    assert x in rest;
    var k :| 0 <= k < |rest| && rest[k] == x;
    assert s[|t| + k] == x;
    forall y | y in t ensures InOrder(key(y), key(x), desc) {
      var i :| 0 <= i < |t| && t[i] == y;
      assert s[i] == y;
    }
  }

  lemma {:induction false} NoDupCount<T>(s: seq<T>, x: T)
    requires NoDup(s)
    ensures multiset(s)[x] <= 1
  {
    if s != [] {
      var p := s[..|s| - 1];
      assert s == p + [s[|s| - 1]];
      NoDupCount(p, x);
      if s[|s| - 1] == x {
        assert x !in p;
      }
    }
  }

  lemma RepeatCount<T>(s: seq<T>, i: nat, j: nat)
    requires i < j < |s| && s[i] == s[j]
    ensures multiset(s)[s[i]] >= 2
  {
    assert s == s[..j] + [s[j]] + s[j + 1..];
    assert s[..j][i] == s[i];
  }

  /** A permutation of a duplicate-free sequence is duplicate-free. */
  lemma NoDupPermutation<T>(a: seq<T>, b: seq<T>)
    requires multiset(a) == multiset(b) && NoDup(a)
    ensures NoDup(b)
  {
    forall i, j | 0 <= i < j < |b| ensures b[i] != b[j] {
      if b[i] == b[j] {
        RepeatCount(b, i, j);
        NoDupCount(a, b[i]);
      }
    }
  }

  // ---------------------------------------------------------------
  // np.unique on reals
  // ---------------------------------------------------------------

  predicate StrictlyIncreasing(s: seq<real>)
  {
    forall i, j :: 0 <= i < j < |s| ==> s[i] < s[j]
  }

  function InsertUnique(x: real, s: seq<real>): (r: seq<real>)
    requires StrictlyIncreasing(s)
    ensures StrictlyIncreasing(r)
    ensures forall y :: y in r <==> y == x || y in s
  {
    if s == [] then [x]
    else if s[|s| - 1] < x then s + [x]
    else if s[|s| - 1] == x then s
    else
      var q := InsertUnique(x, s[..|s| - 1]);
      assert forall i :: 0 <= i < |q| ==> q[i] < s[|s| - 1] by {
        forall i | 0 <= i < |q| ensures q[i] < s[|s| - 1] {
          assert q[i] in q;
        }
      }
      q + [s[|s| - 1]]
  }

  /** np.unique: the distinct values of `s` in increasing order. */
  function Unique(s: seq<real>): (r: seq<real>)
    ensures StrictlyIncreasing(r)
    ensures forall y :: y in r <==> y in s
  {
    if s == [] then [] else InsertUnique(s[|s| - 1], Unique(s[..|s| - 1]))
  }
}
