/** Generic sequence operations shared by the pipeline: list comprehensions
    with a condition (`Filter`), element-wise mapping (`MapSeq`), Python's
    slice `xs[:n]` (`Take`) and `list.extend` over many lists (`Flatten`). */
module Sequences {

  /** `[x for x in xs if p(x)]`, keeping the input order. */
  function Filter<T(!new)>(p: T -> bool, xs: seq<T>): (r: seq<T>)
    ensures |r| <= |xs|
    decreases |xs|
  {
    if |xs| == 0 then []
    else
      var init, last := xs[..|xs| - 1], xs[|xs| - 1];
      Filter(p, init) + (if p(last) then [last] else [])
  }

  /** Filtering keeps every copy of a kept value and no copy of the others. */
  lemma {:induction false} FilterCount<T(!new)>(p: T -> bool, xs: seq<T>, x: T)
    ensures multiset(Filter(p, xs))[x] == if p(x) then multiset(xs)[x] else 0
    decreases |xs|
  {
    if |xs| > 0 {
      var init, last := xs[..|xs| - 1], xs[|xs| - 1];
      assert xs == init + [last];
      FilterCount(p, init, x);
    }
  }

  lemma FilterMember<T(!new)>(p: T -> bool, xs: seq<T>, x: T)
    ensures x in Filter(p, xs) <==> x in xs && p(x)
  {
    FilterCount(p, xs, x);
    assert x in Filter(p, xs) <==> x in multiset(Filter(p, xs));
    assert x in xs <==> x in multiset(xs);
  }

  /** `[f(x) for x in xs]`. */
  function MapSeq<T, U>(f: T -> U, xs: seq<T>): (r: seq<U>)
    ensures |r| == |xs|
    ensures forall i :: 0 <= i < |xs| ==> r[i] == f(xs[i])
  {
    seq(|xs|, i requires 0 <= i < |xs| => f(xs[i]))
  }

  /** Python's `xs[:n]`. */
  function Take<T>(xs: seq<T>, n: nat): (r: seq<T>)
    ensures |r| <= n && |r| <= |xs|
    ensures |xs| <= n ==> r == xs
    ensures |xs| > n ==> |r| == n
    ensures r <= xs
  {
    if |xs| <= n then xs else xs[..n]
  }

  /** Concatenation of a list of lists, in order. */
  function Flatten<T>(xss: seq<seq<T>>): (r: seq<T>)
    decreases |xss|
  {
    if |xss| == 0 then [] else Flatten(xss[..|xss| - 1]) + xss[|xss| - 1]
  }

  /** Every element of the flattened list comes from one of the lists. */
  lemma {:induction false} FlattenMember<T>(xss: seq<seq<T>>, x: T)
    requires x in Flatten(xss)
    ensures exists i :: 0 <= i < |xss| && x in xss[i]
    decreases |xss|
  {
    var init := xss[..|xss| - 1];
    if x in Flatten(init) {
      FlattenMember(init, x);
      var i :| 0 <= i < |init| && x in init[i];
      assert x in xss[i];
    } else {
      assert x in xss[|xss| - 1];
    }
  }

  /** Every element of one of the lists is in the flattened list. */
  lemma {:induction false} FlattenContains<T>(xss: seq<seq<T>>, i: nat, x: T)
    requires i < |xss| && x in xss[i]
    ensures x in Flatten(xss)
    decreases |xss|
  {
    if i < |xss| - 1 {
      FlattenContains(xss[..|xss| - 1], i, x);
    }
  }

  /** Filtering distributes over concatenation. */
  lemma {:induction false} FilterAppend<T(!new)>(p: T -> bool, xs: seq<T>, ys: seq<T>)
    ensures Filter(p, xs + ys) == Filter(p, xs) + Filter(p, ys)
    decreases |ys|
  {
    if |ys| == 0 {
      assert xs + ys == xs;
    } else {
      var ys' := ys[..|ys| - 1];
      assert (xs + ys)[..|xs + ys| - 1] == xs + ys';
      FilterAppend(p, xs, ys');
    }
  }

  /** Mapping distributes over concatenation. */
  lemma MapAppend<T, U>(f: T -> U, xs: seq<T>, ys: seq<T>)
    ensures MapSeq(f, xs + ys) == MapSeq(f, xs) + MapSeq(f, ys)
  {
  }

  /** Removing the element at `i` removes one occurrence of it. */
  lemma RemoveAt<T>(ys: seq<T>, i: nat)
    requires i < |ys|
    ensures multiset(ys) == multiset(ys[..i] + ys[i + 1..]) + multiset{ys[i]}
  {
    assert ys == ys[..i] + [ys[i]] + ys[i + 1..];
  }

  /** Removing the element at `i` before mapping removes its image after. */
  lemma MapRemoveAt<T, U>(f: T -> U, ys: seq<T>, i: nat)
    requires i < |ys|
    ensures multiset(MapSeq(f, ys)) == multiset(MapSeq(f, ys[..i] + ys[i + 1..])) + multiset{f(ys[i])}
  {
    var m := MapSeq(f, ys);
    assert MapSeq(f, ys[..i] + ys[i + 1..]) == m[..i] + m[i + 1..];
    RemoveAt(m, i);
  }

  /** Mapping a non-empty list maps its head, then its tail. */
  lemma MapCons<T, U>(f: T -> U, xs: seq<T>)
    requires |xs| > 0
    ensures MapSeq(f, xs) == [f(xs[0])] + MapSeq(f, xs[1..])
  {
    var m, tail := MapSeq(f, xs), MapSeq(f, xs[1..]);
    forall j | 0 < j < |xs|
      ensures m[j] == tail[j - 1]
    {
      assert xs[1..][j - 1] == xs[j];
    }
  }

  /** Multiset union cancels on the right. */
  lemma MultisetCancel<T>(a: multiset<T>, b: multiset<T>, c: multiset<T>)
    requires a + c == b + c
    ensures a == b
  {
    forall y ensures a[y] == b[y] {
      assert (a + c)[y] == (b + c)[y];
    }
  }

  /** Applying the same function to two permutations of a list gives two
      permutations of the result. */
  lemma {:induction false} MapPreservesPermutation<T, U>(f: T -> U, xs: seq<T>, ys: seq<T>)
    requires multiset(xs) == multiset(ys)
    ensures multiset(MapSeq(f, xs)) == multiset(MapSeq(f, ys))
    decreases |xs|
  {
    if |xs| == 0 {
      assert |ys| == |multiset(ys)| == 0;
    } else {
      var x := xs[0];
      assert x in multiset(ys);
      var i :| 0 <= i < |ys| && ys[i] == x;
      var rest := ys[..i] + ys[i + 1..];
      RemoveAt(ys, i);
      assert xs == [x] + xs[1..];
      MultisetCancel(multiset(xs[1..]), multiset(rest), multiset{x});
      MapPreservesPermutation(f, xs[1..], rest);
      MapRemoveAt(f, ys, i);
      MapCons(f, xs);
      calc {
        multiset(MapSeq(f, xs));
        multiset(MapSeq(f, xs[1..])) + multiset{f(x)};
        multiset(MapSeq(f, rest)) + multiset{f(x)};
        multiset(MapSeq(f, ys));
      }
    }
  }

  /** Two permutations filtered by the same condition stay permutations. */
  lemma FilterPreservesPermutation<T(!new)>(p: T -> bool, xs: seq<T>, ys: seq<T>)
    requires multiset(xs) == multiset(ys)
    ensures multiset(Filter(p, xs)) == multiset(Filter(p, ys))
    ensures |Filter(p, xs)| == |Filter(p, ys)|
  {
    forall x ensures multiset(Filter(p, xs))[x] == multiset(Filter(p, ys))[x] {
      FilterCount(p, xs, x);
      FilterCount(p, ys, x);
    }
    assert multiset(Filter(p, xs)) == multiset(Filter(p, ys));
    calc {
      |Filter(p, xs)|;
      |multiset(Filter(p, xs))|;
      |multiset(Filter(p, ys))|;
      |Filter(p, ys)|;
    }
  }

  /** A condition that holds of no element filters everything out. */
  lemma {:induction false} FilterNone<T(!new)>(p: T -> bool, xs: seq<T>)
    requires forall i :: 0 <= i < |xs| ==> !p(xs[i])
    ensures Filter(p, xs) == []
    decreases |xs|
  {
    if |xs| > 0 {
      FilterNone(p, xs[..|xs| - 1]);
    }
  }

  /** A condition that holds of every element keeps the list unchanged. */
  lemma {:induction false} FilterAll<T(!new)>(p: T -> bool, xs: seq<T>)
    requires forall i :: 0 <= i < |xs| ==> p(xs[i])
    ensures Filter(p, xs) == xs
    decreases |xs|
  {
    if |xs| > 0 {
      var init := xs[..|xs| - 1];
      FilterAll(p, init);
      assert xs == init + [xs[|xs| - 1]];
    }
  }

  /** Filtering after a map that keeps the filter's verdict on every
      element drops exactly as many elements. */
  lemma {:induction false} FilterMapLength<T(!new), U(!new)>(p: U -> bool, q: T -> bool, f: T -> U, xs: seq<T>)
    requires forall i :: 0 <= i < |xs| ==> (p(f(xs[i])) <==> q(xs[i]))
    ensures |Filter(p, MapSeq(f, xs))| == |Filter(q, xs)|
    decreases |xs|
  {
    if |xs| > 0 {
      var init := xs[..|xs| - 1];
      FilterMapLength(p, q, f, init);
      assert MapSeq(f, xs)[..|xs| - 1] == MapSeq(f, init);
    }
  }

  /** The multiset of a list splits along a concatenation. */
  lemma MultisetPrefixDifference<T>(xs: seq<T>, n: nat)
    requires n <= |xs|
    ensures multiset(xs) - multiset(xs[..n]) == multiset(xs[n..])
  {
    assert xs == xs[..n] + xs[n..];
  }

  /** No two positions of `xs` agree on `f`. */
  ghost predicate DistinctBy<T, K>(f: T -> K, xs: seq<T>) {
    forall i, j :: 0 <= i < j < |xs| ==> f(xs[i]) != f(xs[j])
  }

  /** Whatever is drawn from a filtered list satisfies the filter and is
      drawn from the list itself. */
  lemma SubMultisetOfFilter<T(!new)>(p: T -> bool, xs: seq<T>, r: seq<T>)
    requires multiset(r) <= multiset(Filter(p, xs))
    ensures forall i :: 0 <= i < |r| ==> p(r[i]) && r[i] in xs
    ensures multiset(r) <= multiset(xs)
  {
    var q := Filter(p, xs);
    forall i | 0 <= i < |r| ensures p(r[i]) && r[i] in xs {
      assert r[i] in multiset(q);
      FilterMember(p, xs, r[i]);
    }
    forall x ensures multiset(q)[x] <= multiset(xs)[x] {
      FilterCount(p, xs, x);
    }
  }

  /** A value at two positions occurs at least twice. */
  lemma OccursTwice<T>(xs: seq<T>, i: nat, j: nat)
    requires i < j < |xs| && xs[i] == xs[j]
    ensures multiset(xs)[xs[i]] >= 2
  {
    assert xs == xs[..j] + xs[j..];
    assert xs[i] in multiset(xs[..j]);
    assert xs[j] in multiset(xs[j..]);
  }

  /** A value occurring twice sits at two positions. */
  lemma TwoPositions<T>(xs: seq<T>, v: T)
    requires multiset(xs)[v] >= 2
    ensures exists i, j :: 0 <= i < j < |xs| && xs[i] == v && xs[j] == v
  {
    assert v in multiset(xs);
    var i :| 0 <= i < |xs| && xs[i] == v;
    var rest := xs[..i] + xs[i + 1..];
    RemoveAt(xs, i);
    assert v in multiset(rest);
    var k :| 0 <= k < |rest| && rest[k] == v;
    if k < i {
      assert xs[k] == v;
    } else {
      assert xs[k + 1] == v;
    }
  }

  /** Taking a sub-multiset keeps the elements apart on `f`. */
  lemma DistinctBySubMultiset<T, K>(f: T -> K, xs: seq<T>, ys: seq<T>)
    requires DistinctBy(f, xs)
    requires multiset(ys) <= multiset(xs)
    ensures DistinctBy(f, ys)
  {
    forall i, j | 0 <= i < j < |ys|
      ensures f(ys[i]) != f(ys[j])
    {
      if ys[i] == ys[j] {
        OccursTwice(ys, i, j);
        TwoPositions(xs, ys[i]);
      } else {
        assert ys[i] in multiset(xs) && ys[j] in multiset(xs);
      }
    }
  }

  /** If only one of the lists can hold elements satisfying `p`, and no list
      is longer than `n`, the concatenation holds at most `n` of them. */
  lemma {:induction false} FlattenFilterBound<T(!new)>(p: T -> bool, xss: seq<seq<T>>, n: nat)
    requires forall i :: 0 <= i < |xss| ==> |xss[i]| <= n
    requires forall i, j, x, y :: 0 <= i < |xss| && 0 <= j < |xss| && x in xss[i] && y in xss[j] && p(x) && p(y) ==> i == j
    ensures |Filter(p, Flatten(xss))| <= n
    decreases |xss|
  {
    if |xss| > 0 {
      var init, last := xss[..|xss| - 1], xss[|xss| - 1];
      assert Flatten(xss) == Flatten(init) + last;
      FilterAppend(p, Flatten(init), last);
      if Filter(p, last) == [] {
        FlattenFilterBound(p, init, n);
      } else {
        var y := Filter(p, last)[0];
        FilterMember(p, last, y);
        forall x | x in Flatten(init) ensures !p(x) {
          FlattenMember(init, x);
          var i :| 0 <= i < |init| && x in init[i];
          assert x in xss[i];
        }
        if Filter(p, Flatten(init)) != [] {
          var x := Filter(p, Flatten(init))[0];
          FilterMember(p, Flatten(init), x);
        }
      }
    }
  }

  /** Lists that are each apart on `f`, and apart from one another, flatten
      to a list apart on `f`. */
  lemma {:induction false} FlattenDistinctBy<T, K>(f: T -> K, xss: seq<seq<T>>)
    requires forall i :: 0 <= i < |xss| ==> DistinctBy(f, xss[i])
    requires forall i, j, x, y :: 0 <= i < |xss| && 0 <= j < |xss| && i != j && x in xss[i] && y in xss[j] ==> f(x) != f(y)
    ensures DistinctBy(f, Flatten(xss))
    decreases |xss|
  {
    if |xss| > 0 {
      var init, last := xss[..|xss| - 1], xss[|xss| - 1];
      FlattenDistinctBy(f, init);
      var left := Flatten(init);
      var r := Flatten(xss);
      assert r == left + last;
      forall a, b | 0 <= a < b < |r|
        ensures f(r[a]) != f(r[b])
      {
        if b >= |left| && a < |left| {
          assert r[a] == left[a];
          FlattenMember(init, r[a]);
          var i :| 0 <= i < |init| && r[a] in init[i];
          assert r[a] in xss[i];
          assert r[b] == last[b - |left|];
          assert r[b] in xss[|xss| - 1];
        } else if a >= |left| {
          assert r[a] == last[a - |left|] && r[b] == last[b - |left|];
        } else {
          assert r[a] == left[a] && r[b] == left[b];
        }
      }
    }
  }

  /** Taking a sub-multiset away leaves the difference of the sizes. */
  lemma SubMultisetDifferenceSize<T>(a: multiset<T>, b: multiset<T>)
    requires b <= a
    ensures |a - b| == |a| - |b|
  {
    assert a == (a - b) + b;
  }

  /** A condition that holds of no element of any list filters the
      flattened list to nothing. */
  lemma {:induction false} FlattenFilterNoneOf<T(!new)>(p: T -> bool, xss: seq<seq<T>>)
    requires forall j, x :: 0 <= j < |xss| && x in xss[j] ==> !p(x)
    ensures Filter(p, Flatten(xss)) == []
    decreases |xss|
  {
    if |xss| > 0 {
      var init, last := xss[..|xss| - 1], xss[|xss| - 1];
      FlattenFilterNoneOf(p, init);
      FilterAppend(p, Flatten(init), last);
      FilterNone(p, last);
    }
  }

  /** When only list `i` holds elements meeting the condition, filtering
      the flattened list is filtering list `i`. */
  lemma {:induction false} FlattenFilterOne<T(!new)>(p: T -> bool, xss: seq<seq<T>>, i: nat)
    requires i < |xss|
    requires forall j, x :: 0 <= j < |xss| && j != i && x in xss[j] ==> !p(x)
    ensures Filter(p, Flatten(xss)) == Filter(p, xss[i])
    decreases |xss|
  {
    var init, last := xss[..|xss| - 1], xss[|xss| - 1];
    FilterAppend(p, Flatten(init), last);
    if i == |xss| - 1 {
      FlattenFilterNoneOf(p, init);
    } else {
      FlattenFilterOne(p, init, i);
      FilterNone(p, last);
    }
  }
}
