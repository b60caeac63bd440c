/** Python's `list.sort()` / `sorted()` as a stable insertion sort over an
    arbitrary "sorts no later than" relation `le`, plus the top-N selection
    `sorted(xs, ...)[:n]` that the aggregator and the deal matcher both use. */
module Sorting {
  import opened Sequences

  /** `le` is total and transitive: ties are allowed (sorting by one field). */
  ghost predicate TotalPreorder<T(!new)>(le: (T, T) -> bool) {
    && (forall x, y :: le(x, y) || le(y, x))
    && (forall x, y, z :: le(x, y) && le(y, z) ==> le(x, z))
  }

  /** A total preorder without ties between distinct values. */
  ghost predicate TotalOrder<T(!new)>(le: (T, T) -> bool) {
    && TotalPreorder(le)
    && (forall x, y :: le(x, y) && le(y, x) ==> x == y)
  }

  predicate SortedBy<T>(le: (T, T) -> bool, xs: seq<T>) {
    forall i, j :: 0 <= i < j < |xs| ==> le(xs[i], xs[j])
  }

  /** A lower bound of `s` and of `x` bounds every element of a list holding
      exactly them. */
  lemma InsertLowerBound<T>(le: (T, T) -> bool, b: T, s: seq<T>, x: T, r: seq<T>)
    requires forall j :: 0 <= j < |s| ==> le(b, s[j])
    requires le(b, x)
    requires multiset(r) == multiset(s) + multiset{x}
    ensures forall j :: 0 <= j < |r| ==> le(b, r[j])
  {
    forall j | 0 <= j < |r|
      ensures le(b, r[j])
    {
      assert r[j] in multiset(r);
      if r[j] != x {
        assert r[j] in multiset(s);
      }
    }
  }

  /** Inserts `x` after every element that sorts no later than it, which is
      what keeps the sort stable. */
  function Insert<T(!new)>(le: (T, T) -> bool, s: seq<T>, x: T): (r: seq<T>)
    requires TotalPreorder(le)
    requires SortedBy(le, s)
    ensures SortedBy(le, r)
    ensures multiset(r) == multiset(s) + multiset{x}
    decreases |s|
  {
    if |s| == 0 then [x]
    else if le(s[0], x) then
      var rest := Insert(le, s[1..], x);
      assert s == [s[0]] + s[1..];
      InsertLowerBound(le, s[0], s[1..], x, rest);
      [s[0]] + rest
    else
      [x] + s
  }

  function SortBy<T(!new)>(le: (T, T) -> bool, xs: seq<T>): (r: seq<T>)
    requires TotalPreorder(le)
    ensures SortedBy(le, r)
    ensures multiset(r) == multiset(xs)
    ensures |r| == |xs|
    decreases |xs|
  {
    if |xs| == 0 then []
    else
      var init, last := xs[..|xs| - 1], xs[|xs| - 1];
      assert xs == init + [last];
      var r := Insert(le, SortBy(le, init), last);
      assert |r| == |multiset(r)|;
      r
  }

  /** Under a total order a sorted list is determined by its multiset. */
  lemma {:induction false} SortedUnique<T(!new)>(le: (T, T) -> bool, a: seq<T>, b: seq<T>)
    requires TotalOrder(le)
    requires SortedBy(le, a) && SortedBy(le, b)
    requires multiset(a) == multiset(b)
    ensures a == b
    decreases |a|
  {
    if |a| == 0 {
      assert |b| == |multiset(b)| == 0;
    } else {
      assert |b| == |multiset(b)| == |a|;
      assert a[0] in multiset(b);
      assert b[0] in multiset(a);
      var i :| 0 <= i < |b| && b[i] == a[0];
      var j :| 0 <= j < |a| && a[j] == b[0];
      assert le(b[0], a[0]) by {
        if i > 0 {
          assert le(b[0], b[i]);
        }
      }
      assert le(a[0], b[0]) by {
        if j > 0 {
          assert le(a[0], a[j]);
        }
      }
      assert a[0] == b[0];
      assert a == [a[0]] + a[1..];
      assert b == [b[0]] + b[1..];
      assert multiset(a[1..]) == multiset(b[1..]) by {
        assert multiset(a) == multiset{a[0]} + multiset(a[1..]);
        assert multiset(b) == multiset{a[0]} + multiset(b[1..]);
        assert forall y :: multiset(a[1..])[y] == multiset(b[1..])[y] by {
          forall y ensures multiset(a[1..])[y] == multiset(b[1..])[y] {
            assert (multiset{a[0]} + multiset(a[1..]))[y] == (multiset{a[0]} + multiset(b[1..]))[y];
          }
        }
      }
      SortedUnique(le, a[1..], b[1..]);
    }
  }

  /** Sorting under a total order depends only on the multiset of the input. */
  lemma SortByPermutationInvariant<T(!new)>(le: (T, T) -> bool, xs: seq<T>, ys: seq<T>)
    requires TotalOrder(le)
    requires multiset(xs) == multiset(ys)
    ensures SortBy(le, xs) == SortBy(le, ys)
  {
    SortedUnique(le, SortBy(le, xs), SortBy(le, ys));
  }

  /** Sorting an already sorted list under a total order changes nothing. */
  lemma SortBySorted<T(!new)>(le: (T, T) -> bool, xs: seq<T>)
    requires TotalOrder(le)
    requires SortedBy(le, xs)
    ensures SortBy(le, xs) == xs
  {
    SortedUnique(le, SortBy(le, xs), xs);
  }

  /** `sorted(xs, ...)[:n]`: the first `n` elements in `le` order. */
  function TopBy<T(!new)>(le: (T, T) -> bool, xs: seq<T>, n: nat): (r: seq<T>)
    requires TotalPreorder(le)
    ensures |r| == if |xs| < n then |xs| else n
    ensures SortedBy(le, r)
    ensures multiset(r) <= multiset(xs)
  {
    var sorted := SortBy(le, xs);
    var r := Take(sorted, n);
    assert sorted == r + sorted[|r|..];
    r
  }

  /** Whatever `TopBy` leaves out sorts no earlier than anything it keeps. */
  lemma TopByKeepsBest<T(!new)>(le: (T, T) -> bool, xs: seq<T>, n: nat, x: T, y: T)
    requires TotalPreorder(le)
    requires x in multiset(xs) - multiset(TopBy(le, xs, n))
    requires y in TopBy(le, xs, n)
    ensures le(y, x)
  {
    var sorted := SortBy(le, xs);
    var r := TopBy(le, xs, n);
    assert r == sorted[..|r|];
    MultisetPrefixDifference(sorted, |r|);
    assert x in sorted[|r|..];
    var i :| |r| <= i < |sorted| && sorted[i] == x;
    var j :| 0 <= j < |r| && r[j] == y;
    assert le(sorted[j], sorted[i]);
  }

  /** A comprehension with a condition keeps a sorted list sorted. */
  lemma {:induction false} FilterSortedBy<T(!new)>(le: (T, T) -> bool, p: T -> bool, xs: seq<T>)
    requires SortedBy(le, xs)
    ensures SortedBy(le, Filter(p, xs))
    decreases |xs|
  {
    if |xs| > 0 {
      var init, last := xs[..|xs| - 1], xs[|xs| - 1];
      assert forall i :: 0 <= i < |init| ==> init[i] == xs[i];
      FilterSortedBy(le, p, init);
      var f := Filter(p, init);
      forall k | 0 <= k < |f| ensures le(f[k], last) {
        FilterMember(p, init, f[k]);
        var m :| 0 <= m < |init| && init[m] == f[k];
      }
    }
  }

  predicate IntLe(a: int, b: int) {
    a <= b
  }

  lemma IntLeIsTotalOrder()
    ensures TotalOrder(IntLe)
  {
  }
}
