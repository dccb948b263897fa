/**
 * Stable sorting and filtering of sequences, and Python's string order.
 *
 * Python's `sorted` and the engine's `heapq` selections are both modelled as
 * a stable insertion sort under a total preorder `le` ("`a` may come before `b`").
 */
module Sorting {

  /** `le` is total and transitive. */
  ghost predicate TotalPreorder<T(!new)>(le: (T, T) -> bool) {
    && (forall a, b :: le(a, b) || le(b, a))
    && (forall a, b, c :: le(a, b) && le(b, c) ==> le(a, c))
  }

  predicate SortedBy<T>(s: seq<T>, le: (T, T) -> bool) {
    forall i, j :: 0 <= i < j < |s| ==> le(s[i], s[j])
  }

  /**
   * Inserts `x` before the first element it may precede, so it lands before
   * its equals. `SortBy` inserts each element into the sorted rest of the
   * input, whose equals come later in the input, so the sort is stable.
   */
  function InsertBy<T>(x: T, s: seq<T>, le: (T, T) -> bool): (r: seq<T>)
    ensures multiset(r) == multiset(s) + multiset{x}
    ensures |r| == |s| + 1
  {
    if s == [] || le(x, s[0]) then [x] + s
    else
      assert s == [s[0]] + s[1..];
      [s[0]] + InsertBy(x, s[1..], le)
  }

  /** Stable insertion sort: a permutation of `s`. */
  function SortBy<T>(s: seq<T>, le: (T, T) -> bool): (r: seq<T>)
    ensures multiset(r) == multiset(s)
    ensures |r| == |s|
  {
    if s == [] then []
    else
      assert s == [s[0]] + s[1..];
      InsertBy(s[0], SortBy(s[1..], le), le)
  }

  lemma {:induction false} InsertBySorted<T(!new)>(x: T, s: seq<T>, le: (T, T) -> bool)
    requires TotalPreorder(le)
    requires SortedBy(s, le)
    ensures SortedBy(InsertBy(x, s, le), le)
  {
    if s == [] || le(x, s[0]) {
    } else {
      var tail := InsertBy(x, s[1..], le);
      InsertBySorted(x, s[1..], le);
      forall k | 0 <= k < |tail|
        ensures le(s[0], tail[k])
      {
        assert tail[k] in multiset(tail);
        if tail[k] != x {
          assert tail[k] in multiset(s[1..]);
          var j :| 0 <= j < |s[1..]| && s[1..][j] == tail[k];
          assert s[1 + j] == tail[k];
        }
      }
    }
  }

  /** The result of SortBy is ordered by `le`. */
  lemma {:induction false} SortBySorted<T(!new)>(s: seq<T>, le: (T, T) -> bool)
    requires TotalPreorder(le)
    ensures SortedBy(SortBy(s, le), le)
  {
    if s != [] {
      SortBySorted(s[1..], le);
      InsertBySorted(s[0], SortBy(s[1..], le), le);
    }
  }

  /** The elements of `s` that satisfy `p`, in their original order. */
  function Filter<T>(s: seq<T>, p: T -> bool): (r: seq<T>)
    ensures |r| <= |s|
    ensures forall i :: 0 <= i < |r| ==> r[i] in s && p(r[i])
    ensures forall i :: 0 <= i < |s| && p(s[i]) ==> s[i] in r
    ensures multiset(r) <= multiset(s)
  {
    if s == [] then []
    else
      assert s == [s[0]] + s[1..];
      (if p(s[0]) then [s[0]] else []) + Filter(s[1..], p)
  }

  /** Filtering leaves nothing exactly when no element satisfies the predicate. */
  lemma FilterEmpty<T>(s: seq<T>, p: T -> bool)
    ensures Filter(s, p) == [] <==> forall x :: x in s ==> !p(x)
  {
    if Filter(s, p) != [] {
      assert Filter(s, p)[0] in s;
    }
  }

  lemma {:induction false} FilterAppend<T>(a: seq<T>, b: seq<T>, p: T -> bool)
    ensures Filter(a + b, p) == Filter(a, p) + Filter(b, p)
  {
    if a == [] {
      assert a + b == b;
    } else {
      assert (a + b)[0] == a[0];
      assert (a + b)[1..] == a[1..] + b;
      FilterAppend(a[1..], b, p);
    }
  }

  /** Insertion adds `x` to every filter that keeps it and changes no other. */
  lemma {:induction false} FilterInsertBy<T>(x: T, s: seq<T>, le: (T, T) -> bool, p: T -> bool)
    ensures |Filter(InsertBy(x, s, le), p)| == |Filter(s, p)| + (if p(x) then 1 else 0)
  {
    var q := InsertBy(x, s, le);
    if s == [] || le(x, s[0]) {
      assert q[0] == x && q[1..] == s;
    } else {
      assert q[0] == s[0] && q[1..] == InsertBy(x, s[1..], le);
      FilterInsertBy(x, s[1..], le, p);
    }
  }

  /** Sorting does not change how many elements satisfy any predicate. */
  lemma {:induction false} SortByCount<T>(s: seq<T>, le: (T, T) -> bool, p: T -> bool)
    ensures |Filter(SortBy(s, le), p)| == |Filter(s, p)|
  {
    if s != [] {
      SortByCount(s[1..], le, p);
      FilterInsertBy(s[0], SortBy(s[1..], le), le, p);
    }
  }

  /** The elements of `s` that `le` ranks equal to `k`. */
  function Ties<T>(s: seq<T>, le: (T, T) -> bool, k: T): seq<T> {
    if s == [] then []
    else (if le(s[0], k) && le(k, s[0]) then [s[0]] else []) + Ties(s[1..], le, k)
  }

  lemma {:induction false} InsertByStable<T(!new)>(x: T, s: seq<T>, le: (T, T) -> bool, k: T)
    requires TotalPreorder(le)
    ensures Ties(InsertBy(x, s, le), le, k)
         == (if le(x, k) && le(k, x) then [x] else []) + Ties(s, le, k)
  {
    var q := InsertBy(x, s, le);
    var hx := if le(x, k) && le(k, x) then [x] else [];
    if s == [] || le(x, s[0]) {
      assert q[0] == x && q[1..] == s;
    } else {
      var t := InsertBy(x, s[1..], le);
      assert q[0] == s[0] && q[1..] == t;
      InsertByStable(x, s[1..], le, k);
      var h0 := if le(s[0], k) && le(k, s[0]) then [s[0]] else [];
      assert Ties(q, le, k) == h0 + (hx + Ties(s[1..], le, k));
      assert Ties(s, le, k) == h0 + Ties(s[1..], le, k);
      if hx != [] {
        // s[0] strictly precedes x, so it cannot tie with k
        assert !le(x, s[0]);
        assert h0 == [];
      }
    }
  }

  /** Stability: elements that `le` ranks equal keep their input order. */
  lemma {:induction false} SortByStable<T(!new)>(s: seq<T>, le: (T, T) -> bool, k: T)
    requires TotalPreorder(le)
    ensures Ties(SortBy(s, le), le, k) == Ties(s, le, k)
  {
    if s != [] {
      SortByStable(s[1..], le, k);
      InsertByStable(s[0], SortBy(s[1..], le), le, k);
    }
  }

  /** Two elements come out of the sort in input order exactly when the first may precede the second. */
  lemma SortPair<T>(x: T, y: T, le: (T, T) -> bool)
    ensures SortBy([x, y], le) == if le(x, y) then [x, y] else [y, x]
  {
    assert [x, y][1..] == [y] && [y][1..] == [];
    assert SortBy([y], le) == [y];
  }

  lemma FilterPair<T>(x: T, y: T, p: T -> bool)
    requires p(x) && p(y)
    ensures Filter([x, y], p) == [x, y]
  {
    assert [x, y][1..] == [y] && [y][1..] == [];
  }

  /** The first `n` elements, or all of them when there are fewer. */
  function Take<T>(s: seq<T>, n: nat): (r: seq<T>)
    ensures |r| == if |s| < n then |s| else n
    ensures r == s[..|r|]
  {
    if |s| <= n then s else s[..n]
  }

  lemma {:induction false} TakeSplit<T>(s: seq<T>, n: nat)
    ensures multiset(Take(s, n)) + multiset(s[|Take(s, n)|..]) == multiset(s)
    ensures forall p: T -> bool :: |Filter(Take(s, n), p)| <= |Filter(s, p)|
  {
    var t := Take(s, n);
    assert s == t + s[|t|..];
    forall p: T -> bool
      ensures |Filter(t, p)| <= |Filter(s, p)|
    {
      FilterAppend(t, s[|t|..], p);
    }
  }

  /** A prefix of a sorted sequence is sorted and may precede every element after it. */
  lemma PrefixIsTop<T>(t: seq<T>, le: (T, T) -> bool, n: nat)
    requires SortedBy(t, le)
    ensures SortedBy(Take(t, n), le)
    ensures forall x, y :: x in multiset(t) - multiset(Take(t, n)) && y in Take(t, n) ==> le(y, x)
  {
    var r := Take(t, n);
    var rest := t[|r|..];
    assert t == r + rest;
    assert multiset(t) == multiset(r) + multiset(rest);
    assert multiset(t) - multiset(r) == multiset(rest);
    forall x, y | x in multiset(t) - multiset(r) && y in r
      ensures le(y, x)
    {
      assert x in rest;
      var j :| 0 <= j < |rest| && rest[j] == x;
      var i :| 0 <= i < |r| && r[i] == y;
      assert t[i] == y;
      assert t[|r| + j] == x;
    }
  }

  /**
   * The first `n` elements of a sorted permutation of `s` are in order and
   * may precede every element left behind.
   */
  lemma TakeSortedIsTop<T(!new)>(s: seq<T>, le: (T, T) -> bool, n: nat)
    requires TotalPreorder(le)
    ensures SortedBy(Take(SortBy(s, le), n), le)
    ensures forall x, y :: x in multiset(s) - multiset(Take(SortBy(s, le), n)) && y in Take(SortBy(s, le), n)
                           ==> le(y, x)
  {
    SortBySorted(s, le);
    PrefixIsTop(SortBy(s, le), le, n);
  }

  /** Python's `<=` on `str`: lexicographic by code point. */
  predicate StrLe(a: string, b: string) {
    if a == [] then true
    else if b == [] then false
    else if a[0] != b[0] then a[0] < b[0]
    else StrLe(a[1..], b[1..])
  }

  /** Python's string order is a total order. */
  lemma {:induction false} StrLeTotalOrder(a: string, b: string, c: string)
    ensures StrLe(a, b) || StrLe(b, a)
    ensures StrLe(a, b) && StrLe(b, a) ==> a == b
    ensures StrLe(a, b) && StrLe(b, c) ==> StrLe(a, c)
  {
    if a != [] && b != [] && c != [] {
      StrLeTotalOrder(a[1..], b[1..], c[1..]);
      if a[0] == b[0] {
        assert a == [a[0]] + a[1..] && b == [b[0]] + b[1..];
      }
    } else if a != [] && b != [] {
      StrLeTotalOrder(a[1..], b[1..], a[1..]);
      if a[0] == b[0] {
        assert a == [a[0]] + a[1..] && b == [b[0]] + b[1..];
      }
    }
  }
}
