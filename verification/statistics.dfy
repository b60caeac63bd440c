/** The two order statistics the aggregator computes over sample lists:
    Python's `statistics.median`, and the first-index rank
    `sorted(xs).index(x)` behind the sample-count percentile. */
module Statistics {
  import opened Sequences
  import opened Sorting

  /** `sorted(xs)` for integers. */
  function SortInts(xs: seq<int>): (r: seq<int>)
    ensures SortedBy(IntLe, r)
    ensures multiset(r) == multiset(xs)
    ensures |r| == |xs|
  {
    IntLeIsTotalOrder();
    SortBy(IntLe, xs)
  }

  /** Sorting integers depends only on the multiset of the input. */
  lemma SortIntsCanonical(xs: seq<int>, ys: seq<int>)
    requires multiset(xs) == multiset(ys)
    ensures SortInts(xs) == SortInts(ys)
  {
    IntLeIsTotalOrder();
    SortByPermutationInvariant(IntLe, xs, ys);
  }

  /** Sorting an already ascending list changes nothing. */
  lemma SortIntsSorted(xs: seq<int>)
    requires SortedBy(IntLe, xs)
    ensures SortInts(xs) == xs
  {
    IntLeIsTotalOrder();
    SortBySorted(IntLe, xs);
  }

  /** The middle sample of a sorted list, or the mean of the two middle
      samples when the length is even. */
  function MiddleOf(s: seq<int>): real
    requires |s| > 0
  {
    var n := |s|;
    if n % 2 == 1 then s[n / 2] as real
    else (s[n / 2 - 1] + s[n / 2]) as real / 2.0
  }

  /** `m` lies between the two sorted samples around the middle (it is the
      middle sample when the count is odd). */
  ghost predicate BetweenMiddles(xs: seq<int>, m: real)
    requires |xs| > 0
  {
    var s, k := SortInts(xs), (|xs| + 1) / 2;
    s[k - 1] as real <= m <= s[|xs| - k] as real
  }

  /** `statistics.median`: the middle of the sorted samples. Python raises
      `StatisticsError` on an empty list; the callers never pass one. */
  function Median(xs: seq<int>): (m: real)
    requires |xs| > 0
    ensures BetweenMiddles(xs, m)
  {
    MiddleBetween(xs);
    MiddleOf(SortInts(xs))
  }

  /** The median lies between the smallest and the largest sample. */
  lemma MedianWithinRange(xs: seq<int>)
    requires |xs| > 0
    ensures exists i :: 0 <= i < |xs| && xs[i] as real <= Median(xs)
    ensures exists j :: 0 <= j < |xs| && Median(xs) <= xs[j] as real
  {
    var s := SortInts(xs);
    var n, k := |s|, (|s| + 1) / 2;
    assert BetweenMiddles(xs, Median(xs));
    assert IntLe(s[0], s[k - 1]) && IntLe(s[n - k], s[n - 1]);
    assert s[0] in multiset(xs) && s[n - 1] in multiset(xs);
  }

  /** The median depends only on the multiset of samples, so the row order of
      the query feeding it does not matter. */
  lemma MedianPermutationInvariant(xs: seq<int>, ys: seq<int>)
    requires |xs| > 0
    requires multiset(xs) == multiset(ys)
    ensures |ys| > 0
    ensures Median(xs) == Median(ys)
  {
    assert |xs| == |multiset(xs)| == |multiset(ys)| == |ys|;
    SortIntsCanonical(xs, ys);
  }

  /** `x <= m`, as a filter condition. */
  function AtMost(m: real): int -> bool {
    x => x as real <= m
  }

  /** `x >= m`, as a filter condition. */
  function AtLeast(m: real): int -> bool {
    x => x as real >= m
  }

  /** A list whose first `k` elements satisfy `p` keeps at least `k`
      elements under `Filter(p, _)`. */
  lemma FilterPrefixCount<T(!new)>(p: T -> bool, s: seq<T>, k: nat)
    requires k <= |s|
    requires forall i :: 0 <= i < k ==> p(s[i])
    ensures |Filter(p, s)| >= k
  {
    assert s == s[..k] + s[k..];
    FilterAppend(p, s[..k], s[k..]);
    FilterAll(p, s[..k]);
  }

  /** A list whose last `k` elements satisfy `p` keeps at least `k`
      elements under `Filter(p, _)`. */
  lemma FilterSuffixCount<T(!new)>(p: T -> bool, s: seq<T>, k: nat)
    requires k <= |s|
    requires forall i :: |s| - k <= i < |s| ==> p(s[i])
    ensures |Filter(p, s)| >= k
  {
    var c := |s| - k;
    assert s == s[..c] + s[c..];
    FilterAppend(p, s[..c], s[c..]);
    assert forall i :: 0 <= i < |s[c..]| ==> p(s[c..][i]) by {
      forall i | 0 <= i < |s[c..]| ensures p(s[c..][i]) {
        assert s[c..][i] == s[c + i];
      }
    }
    FilterAll(p, s[c..]);
  }

  /** In an ascending list whose `k`-th element is at most `m`, at least
      `k` elements are at most `m`. */
  lemma SortedPrefixAtMost(s: seq<int>, m: real, k: nat)
    requires SortedBy(IntLe, s)
    requires 0 < k <= |s| && s[k - 1] as real <= m
    ensures |Filter(AtMost(m), s)| >= k
  {
    forall i | 0 <= i < k ensures AtMost(m)(s[i]) {
      assert IntLe(s[i], s[k - 1]);
    }
    FilterPrefixCount(AtMost(m), s, k);
  }

  /** In an ascending list whose `k`-th element from the end is at least
      `m`, at least `k` elements are at least `m`. */
  lemma SortedSuffixAtLeast(s: seq<int>, m: real, k: nat)
    requires SortedBy(IntLe, s)
    requires 0 < k <= |s| && m <= s[|s| - k] as real
    ensures |Filter(AtLeast(m), s)| >= k
  {
    forall i | |s| - k <= i < |s| ensures AtLeast(m)(s[i]) {
      assert IntLe(s[|s| - k], s[i]);
    }
    FilterSuffixCount(AtLeast(m), s, k);
  }

  /** The middle of a sorted list lies between its two samples around the
      middle. */
  lemma MiddleBetween(xs: seq<int>)
    requires |xs| > 0
    ensures BetweenMiddles(xs, MiddleOf(SortInts(xs)))
  {
    var s, n := SortInts(xs), |xs|;
    var k := (n + 1) / 2;
    if n % 2 == 0 {
      assert k - 1 == n / 2 - 1 && n - k == n / 2;
      assert IntLe(s[n / 2 - 1], s[n / 2]);
    } else {
      assert k - 1 == n / 2 == n - k;
    }
  }

  /** A value at or above the lower middle sample has at least half of the
      samples at or below it. */
  lemma MiddleAtMost(xs: seq<int>, m: real)
    requires |xs| > 0
    requires SortInts(xs)[(|xs| + 1) / 2 - 1] as real <= m
    ensures 2 * |Filter(AtMost(m), xs)| >= |xs|
  {
    var s := SortInts(xs);
    SortedPrefixAtMost(s, m, (|xs| + 1) / 2);
    FilterPreservesPermutation(AtMost(m), xs, s);
  }

  /** A value at or below the upper middle sample has at least half of the
      samples at or above it. */
  lemma MiddleAtLeast(xs: seq<int>, m: real)
    requires |xs| > 0
    requires m <= SortInts(xs)[|xs| - (|xs| + 1) / 2] as real
    ensures 2 * |Filter(AtLeast(m), xs)| >= |xs|
  {
    var s := SortInts(xs);
    SortedSuffixAtLeast(s, m, (|xs| + 1) / 2);
    FilterPreservesPermutation(AtLeast(m), xs, s);
  }

  /** At least half of the samples lie at or below the median. */
  lemma MedianHalfAtMost(xs: seq<int>)
    requires |xs| > 0
    ensures 2 * |Filter(AtMost(Median(xs)), xs)| >= |xs|
  {
    MiddleAtMost(xs, Median(xs));
  }

  /** At least half of the samples lie at or above the median. */
  lemma MedianHalfAtLeast(xs: seq<int>)
    requires |xs| > 0
    ensures 2 * |Filter(AtLeast(Median(xs)), xs)| >= |xs|
  {
    MiddleAtLeast(xs, Median(xs));
  }

  /** On an ascending list the median is read off the middle directly. */
  lemma MedianOfSorted(xs: seq<int>)
    requires |xs| > 0
    requires SortedBy(IntLe, xs)
    ensures |xs| % 2 == 1 ==> Median(xs) == xs[|xs| / 2] as real
    ensures |xs| % 2 == 0 ==> Median(xs) == (xs[|xs| / 2 - 1] + xs[|xs| / 2]) as real / 2.0
  {
    SortIntsSorted(xs);
  }

  /** Three ascending samples have the middle one as median: `[10, 20, 30]`
      gives 20. */
  lemma MedianOfThree(xs: seq<int>)
    requires |xs| == 3 && xs[0] <= xs[1] <= xs[2]
    ensures Median(xs) == xs[1] as real
  {
    assert SortedBy(IntLe, xs);
    MedianOfSorted(xs);
  }

  /** Five samples at one price and one far above: the median is the common
      price, unmoved by the outlier. */
  lemma MedianResistsOutlier(xs: seq<int>, a: int)
    requires |xs| == 6
    requires forall i :: 0 <= i < 5 ==> xs[i] == a
    requires a <= xs[5]
    ensures Median(xs) == a as real
  {
    assert SortedBy(IntLe, xs);
    MedianOfSorted(xs);
  }

  /** Two samples have their mean as median: `[10, 20]` gives 15. */
  lemma MedianOfTwo(xs: seq<int>)
    requires |xs| == 2 && xs[0] <= xs[1]
    ensures Median(xs) == (xs[0] + xs[1]) as real / 2.0
  {
    assert SortedBy(IntLe, xs);
    MedianOfSorted(xs);
  }

  /** `list.index`: the first position holding `x`. */
  function IndexOf(s: seq<int>, x: int): (r: nat)
    requires x in s
    ensures r < |s| && s[r] == x
    ensures forall j :: 0 <= j < r ==> s[j] != x
    decreases |s|
  {
    if s[0] == x then 0 else 1 + IndexOf(s[1..], x)
  }

  /** `y < x`, as a filter condition. */
  function Below(x: int): int -> bool {
    y => y < x
  }

  /** The number of samples strictly below `x`. */
  function CountBelow(xs: seq<int>, x: int): nat {
    |Filter(Below(x), xs)|
  }

  /** In an ascending list, everything before the first `x` is below it. */
  lemma SortedBelowBeforeIndex(s: seq<int>, x: int)
    requires SortedBy(IntLe, s)
    requires x in s
    ensures Filter(Below(x), s[..IndexOf(s, x)]) == s[..IndexOf(s, x)]
  {
    var r := IndexOf(s, x);
    var pre := s[..r];
    forall i | 0 <= i < |pre| ensures Below(x)(pre[i]) {
      assert IntLe(s[i], s[r]);
    }
    FilterAll(Below(x), pre);
  }

  /** In an ascending list, nothing from the first `x` on is below it. */
  lemma SortedNotBelowFromIndex(s: seq<int>, x: int)
    requires SortedBy(IntLe, s)
    requires x in s
    ensures Filter(Below(x), s[IndexOf(s, x)..]) == []
  {
    var r := IndexOf(s, x);
    var post := s[r..];
    forall i | 0 <= i < |post| ensures !Below(x)(post[i]) {
      assert post[i] == s[r + i];
      assert IntLe(s[r], s[r + i]);
    }
    FilterNone(Below(x), post);
  }

  /** In an ascending list, the first index of `x` is the number of
      elements strictly below it. */
  lemma SortedRank(s: seq<int>, x: int)
    requires SortedBy(IntLe, s)
    requires x in s
    ensures |Filter(Below(x), s)| == IndexOf(s, x)
  {
    var r := IndexOf(s, x);
    assert s == s[..r] + s[r..];
    FilterAppend(Below(x), s[..r], s[r..]);
    SortedBelowBeforeIndex(s, x);
    SortedNotBelowFromIndex(s, x);
  }

  /** The first index of `x` in the sorted samples is the number of samples
      strictly below it. */
  lemma RankIsCountBelow(xs: seq<int>, x: int)
    requires x in xs
    ensures x in SortInts(xs)
    ensures IndexOf(SortInts(xs), x) == CountBelow(xs, x)
  {
    var s := SortInts(xs);
    assert x in multiset(s);
    SortedRank(s, x);
    FilterPreservesPermutation(Below(x), xs, s);
  }

  /** `rank / len(samples) * 100` with `rank` the first index of `x` among
      the sorted samples: the share of samples strictly below `x`, in
      percent. */
  function Percentile(xs: seq<int>, x: int): (p: real)
    requires x in xs
    ensures p == (CountBelow(xs, x) as real / |xs| as real) * 100.0
    ensures 0.0 <= p < 100.0
  {
    var s := SortInts(xs);
    assert x in multiset(s);
    var rank := IndexOf(s, x);
    RankIsCountBelow(xs, x);
    PercentOfBelow(rank, |xs|);
    (rank as real / |xs| as real) * 100.0
  }

  /** A share `k / n` with `k < n` is below 100 percent. */
  lemma PercentOfBelow(k: nat, n: nat)
    requires k < n
    ensures 0.0 <= (k as real / n as real) * 100.0 < 100.0
  {
    var q := k as real / n as real;
    assert q * n as real == k as real;

  }

  /** Fewer samples below gives a lower share. */
  lemma PercentMonotone(a: nat, b: nat, n: nat)
    requires a <= b && n > 0
    ensures (a as real / n as real) * 100.0 <= (b as real / n as real) * 100.0
  {
    var qa, qb := a as real / n as real, b as real / n as real;
    assert qa * n as real == a as real;
    assert qb * n as real == b as real;

  }

  /** Every sample below `a` is below any `b >= a`. */
  lemma {:induction false} CountBelowMonotone(xs: seq<int>, a: int, b: int)
    requires a <= b
    ensures CountBelow(xs, a) <= CountBelow(xs, b)
    decreases |xs|
  {
    if |xs| > 0 {
      var init := xs[..|xs| - 1];
      CountBelowMonotone(init, a, b);
      assert Filter(Below(a), xs) == Filter(Below(a), init) + (if xs[|xs| - 1] < a then [xs[|xs| - 1]] else []);
      assert Filter(Below(b), xs) == Filter(Below(b), init) + (if xs[|xs| - 1] < b then [xs[|xs| - 1]] else []);
    }
  }

  /** A larger sample count never gets a lower percentile. */
  lemma PercentileMonotone(xs: seq<int>, a: int, b: int)
    requires a in xs && b in xs
    requires a <= b
    ensures Percentile(xs, a) <= Percentile(xs, b)
  {
    CountBelowMonotone(xs, a, b);
    PercentMonotone(CountBelow(xs, a), CountBelow(xs, b), |xs|);
  }

  /** Three of four distinct counts lie below the largest. */
  lemma CountBelowLargestOfFour(a: int, b: int, c: int, d: int)
    requires a < b < c < d
    ensures CountBelow([a, b, c, d], d) == 3
  {
    assert [a, b, c, d] == [a, b, c] + [d];
    FilterAppend(Below(d), [a, b, c], [d]);
    FilterAll(Below(d), [a, b, c]);
    FilterNone(Below(d), [d]);
  }

  /** With four distinct counts, the largest is at the 75th percentile
      (counts `[1, 5, 10, 20]` give 75 for 20). */
  lemma PercentileOfLargestOfFour(a: int, b: int, c: int, d: int)
    requires a < b < c < d
    ensures Percentile([a, b, c, d], d) == 75.0
  {
    CountBelowLargestOfFour(a, b, c, d);
    PercentileFromCount([a, b, c, d], d);
  }

  /** Percentile of a sample with three of four samples below it. */
  lemma PercentileFromCount(xs: seq<int>, x: int)
    requires x in xs
    requires |xs| == 4 && CountBelow(xs, x) == 3
    ensures Percentile(xs, x) == 75.0
  {
  }

  /** A weapon with a single profile puts it at the 0th percentile. */
  lemma PercentileOfSingle(c: int)
    ensures Percentile([c], c) == 0.0
  {
    FilterNone(Below(c), [c]);
  }
}
