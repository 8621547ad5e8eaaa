/** The list operations the portal uses: `filter`, the left fold that sums a
    field (`reduce((sum, x) => sum + f(x), 0)`), and a stable sort by an
    integer key (the order a database query asks for). */
module Seqs {

  function Filter<T>(s: seq<T>, p: T -> bool): (r: seq<T>)
    ensures |r| <= |s|
    decreases |s|
  {
    if s == [] then [] else (if p(s[0]) then [s[0]] else []) + Filter(s[1..], p)
  }

  /** What the filter keeps: exactly the elements that satisfy the predicate. */
  lemma {:induction false} FilterMembership<T>(s: seq<T>, p: T -> bool, x: T)
    ensures x in Filter(s, p) <==> x in s && p(x)
    decreases |s|
  {
    if s != [] {
      FilterMembership(s[1..], p, x);
      assert s == [s[0]] + s[1..];
    }
  }

  /** `idx` picks out `r` from `s` in order: strictly increasing positions. */
  ghost predicate PicksOut<T>(r: seq<T>, s: seq<T>, idx: seq<nat>) {
    && |idx| == |r|
    && (forall k :: 0 <= k < |idx| ==> idx[k] < |s| && s[idx[k]] == r[k])
    && (forall k, l :: 0 <= k < l < |idx| ==> idx[k] < idx[l])
  }

  /** The filtered list keeps the original order: it is a subsequence. */
  lemma {:induction false} FilterIsSubsequence<T>(s: seq<T>, p: T -> bool) returns (idx: seq<nat>)
    ensures PicksOut(Filter(s, p), s, idx)
    decreases |s|
  {
    if s == [] {
      idx := [];
    } else {
      var rest := FilterIsSubsequence(s[1..], p);
      var tail := Filter(s[1..], p);
      var shifted := Shift(tail, s, rest);
      if p(s[0]) {
        idx := [0] + shifted;
        assert Filter(s, p) == [s[0]] + tail;
      } else {
        idx := shifted;
        assert Filter(s, p) == tail;
      }
    }
  }

  /** Positions picking `r` out of `s[1..]` pick it out of `s` one further on. */
  lemma Shift<T>(r: seq<T>, s: seq<T>, idx: seq<nat>) returns (shifted: seq<nat>)
    requires |s| > 0 && PicksOut(r, s[1..], idx)
    ensures PicksOut(r, s, shifted)
    ensures |shifted| == |idx| && forall k :: 0 <= k < |idx| ==> shifted[k] == idx[k] + 1
  {
    shifted := seq(|idx|, k requires 0 <= k < |idx| => idx[k] + 1);
    forall k | 0 <= k < |shifted|
      ensures shifted[k] < |s| && s[shifted[k]] == r[k]
    {
      assert s[shifted[k]] == s[1..][idx[k]];
    }
  }

  lemma {:induction false} FilterKeepsAll<T>(s: seq<T>, p: T -> bool)
    requires forall k :: 0 <= k < |s| ==> p(s[k])
    ensures Filter(s, p) == s
    decreases |s|
  {
    if s != [] {
      FilterKeepsAll(s[1..], p);
      assert s == [s[0]] + s[1..];
    }
  }

  lemma {:induction false} FilterAppend<T>(a: seq<T>, b: seq<T>, p: T -> bool)
    ensures Filter(a + b, p) == Filter(a, p) + Filter(b, p)
    decreases |a|
  {
    if a == [] {
      assert a + b == b;
    } else {
      var head := if p(a[0]) then [a[0]] else [];
      FilterAppend(a[1..], b, p);
      assert (a + b)[0] == a[0];
      assert (a + b)[1..] == a[1..] + b;
      calc {
        Filter(a + b, p);
        head + Filter((a + b)[1..], p);
        head + (Filter(a[1..], p) + Filter(b, p));
        (head + Filter(a[1..], p)) + Filter(b, p);
      }
    }
  }

  /** The last `n` elements of `s`, the last one first. */
  function Latest<T>(s: seq<T>, n: nat): (r: seq<T>)
    ensures |r| == if n < |s| then n else |s|
    ensures forall i :: 0 <= i < |r| ==> r[i] == s[|s| - 1 - i]
    decreases |s|
  {
    if n == 0 || s == [] then [] else [s[|s| - 1]] + Latest(s[..|s| - 1], n - 1)
  }

  lemma LatestSnoc<T>(s: seq<T>, x: T, n: nat)
    requires n > 0
    ensures Latest(s + [x], n) == [x] + Latest(s, n - 1)
  {
    assert (s + [x])[..|s|] == s;
  }

  /** Every element of `s` satisfies `p`, or `s` lacks it: `filter` keeps
      exactly the elements that satisfy the predicate. */
  lemma FilterMembershipAll<T>(s: seq<T>, p: T -> bool)
    ensures forall x :: x in Filter(s, p) <==> x in s && p(x)
  {
    forall x
      ensures x in Filter(s, p) <==> x in s && p(x)
    {
      FilterMembership(s, p, x);
    }
  }

  /** `s.reduce((sum, x) => sum + f(x), 0)`. */
  function Sum<T>(s: seq<T>, f: T -> int): int
    decreases |s|
  {
    if s == [] then 0 else Sum(s[..|s| - 1], f) + f(s[|s| - 1])
  }

  lemma {:induction false} SumAppend<T>(a: seq<T>, b: seq<T>, f: T -> int)
    ensures Sum(a + b, f) == Sum(a, f) + Sum(b, f)
    decreases |b|
  {
    if b == [] {
      assert a + b == a;
    } else {
      SumAppend(a, b[..|b| - 1], f);
      assert (a + b)[..|a + b| - 1] == a + b[..|b| - 1];
    }
  }

  /** A sum of non-negative terms bounds each term. */
  lemma {:induction false} SumBoundsTerms<T>(s: seq<T>, f: T -> int, k: nat)
    requires forall j :: 0 <= j < |s| ==> f(s[j]) >= 0
    requires k < |s|
    ensures 0 <= f(s[k]) <= Sum(s, f)
    decreases |s|
  {
    SumNonNegative(s[..|s| - 1], f);
    if k < |s| - 1 {
      SumBoundsTerms(s[..|s| - 1], f, k);
    }
  }

  lemma {:induction false} SumNonNegative<T>(s: seq<T>, f: T -> int)
    requires forall j :: 0 <= j < |s| ==> f(s[j]) >= 0
    ensures Sum(s, f) >= 0
    decreases |s|
  {
    if s != [] {
      SumNonNegative(s[..|s| - 1], f);
    }
  }

  ghost predicate SortedBy<T>(s: seq<T>, key: T -> int) {
    forall i, j :: 0 <= i < j < |s| ==> key(s[i]) <= key(s[j])
  }

  /** Insert x before the first element whose key is not smaller. */
  function Insert<T>(x: T, s: seq<T>, key: T -> int): (r: seq<T>)
    ensures multiset(r) == multiset(s) + multiset{x}
    ensures forall y :: y in r ==> y == x || y in s
    decreases |s|
  {
    if s == [] then [x]
    else if key(x) <= key(s[0]) then [x] + s
    else
      assert s == [s[0]] + s[1..];
      [s[0]] + Insert(x, s[1..], key)
  }

  lemma {:induction false} InsertKeepsSorted<T>(x: T, s: seq<T>, key: T -> int)
    requires SortedBy(s, key)
    ensures SortedBy(Insert(x, s, key), key)
    decreases |s|
  {
    if s != [] && key(x) > key(s[0]) {
      InsertKeepsSorted(x, s[1..], key);
      var r := Insert(x, s[1..], key);
      forall y | y in r
        ensures key(s[0]) <= key(y)
      {
        if y != x {
          var j :| 0 <= j < |s[1..]| && s[1..][j] == y;
          assert s[j + 1] == y;
        }
      }
      assert Insert(x, s, key) == [s[0]] + r;
      SortedCons(s[0], r, key);
    }
  }

  lemma SortedCons<T>(h: T, r: seq<T>, key: T -> int)
    requires SortedBy(r, key)
    requires forall y :: y in r ==> key(h) <= key(y)
    ensures SortedBy([h] + r, key)
  {
    var t := [h] + r;
    forall i, j | 0 <= i < j < |t|
      ensures key(t[i]) <= key(t[j])
    {
      assert t[j] == r[j - 1];
      if i > 0 {
        assert t[i] == r[i - 1];
      }
    }
  }

  /** Insertion sort by an integer key, ascending; equal keys keep their order. */
  function SortBy<T>(s: seq<T>, key: T -> int): (r: seq<T>)
    ensures multiset(r) == multiset(s)
    ensures SortedBy(r, key)
    decreases |s|
  {
    if s == [] then []
    else
      assert s == [s[0]] + s[1..];
      InsertKeepsSorted(s[0], SortBy(s[1..], key), key);
      Insert(s[0], SortBy(s[1..], key), key)
  }
}
