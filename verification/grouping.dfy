/** Grouping values by key in order of first appearance: the
    `defaultdict(list)` idiom of the aggregator, and the row groups of an SQL
    `GROUP BY`. */
module Grouping {

  /** A key together with the values collected for it, in input order. */
  datatype Group<K, V> = Group(key: K, values: seq<V>)

  /** Appends `v` to the group of `k`, opening a new last group if there is
      none yet. */
  function Add<K(==), V>(gs: seq<Group<K, V>>, k: K, v: V): seq<Group<K, V>>
    decreases |gs|
  {
    if |gs| == 0 then [Group(k, [v])]
    else if gs[0].key == k then [Group(k, gs[0].values + [v])] + gs[1..]
    else [gs[0]] + Add(gs[1..], k, v)
  }

  /** `for k, v in pairs: groups[k].append(v)`. */
  function GroupBy<K(==), V>(pairs: seq<(K, V)>): seq<Group<K, V>>
    decreases |pairs|
  {
    if |pairs| == 0 then []
    else
      var last := pairs[|pairs| - 1];
      Add(GroupBy(pairs[..|pairs| - 1]), last.0, last.1)
  }

  /** Reference definition: the values paired with `k`, in input order. */
  ghost function ValuesOf<K, V>(pairs: seq<(K, V)>, k: K): seq<V>
    decreases |pairs|
  {
    if |pairs| == 0 then []
    else
      var last := pairs[|pairs| - 1];
      ValuesOf(pairs[..|pairs| - 1], k) + (if last.0 == k then [last.1] else [])
  }

  /** The keys occurring in the input. */
  function PairKeys<K, V>(pairs: seq<(K, V)>): set<K>
    decreases |pairs|
  {
    if |pairs| == 0 then {} else PairKeys(pairs[..|pairs| - 1]) + {pairs[|pairs| - 1].0}
  }

  /** The values of the group keyed `k`, or none. */
  function Lookup<K(==), V>(gs: seq<Group<K, V>>, k: K): seq<V>
    decreases |gs|
  {
    if |gs| == 0 then []
    else if gs[0].key == k then gs[0].values
    else Lookup(gs[1..], k)
  }

  function Keys<K, V>(gs: seq<Group<K, V>>): set<K>
    decreases |gs|
  {
    if |gs| == 0 then {} else {gs[0].key} + Keys(gs[1..])
  }

  ghost predicate DistinctKeys<K, V>(gs: seq<Group<K, V>>)
    decreases |gs|
  {
    |gs| == 0 || (gs[0].key !in Keys(gs[1..]) && DistinctKeys(gs[1..]))
  }

  ghost predicate WellFormed<K, V>(gs: seq<Group<K, V>>) {
    && DistinctKeys(gs)
    && forall i :: 0 <= i < |gs| ==> |gs[i].values| > 0
  }

  /** The number of values held by all groups together. */
  function TotalSize<K, V>(gs: seq<Group<K, V>>): nat
    decreases |gs|
  {
    if |gs| == 0 then 0 else |gs[0].values| + TotalSize(gs[1..])
  }

  lemma {:induction false} KeysMember<K, V>(gs: seq<Group<K, V>>, i: nat)
    requires i < |gs|
    ensures gs[i].key in Keys(gs)
    decreases i
  {
    if i > 0 {
      KeysMember(gs[1..], i - 1);
    }
  }

  lemma {:induction false} DistinctKeysPairwise<K, V>(gs: seq<Group<K, V>>, i: nat, j: nat)
    requires DistinctKeys(gs)
    requires i < j < |gs|
    ensures gs[i].key != gs[j].key
    decreases i
  {
    if i == 0 {
      KeysMember(gs[1..], j - 1);
    } else {
      DistinctKeysPairwise(gs[1..], i - 1, j - 1);
    }
  }

  lemma {:induction false} LookupMember<K, V>(gs: seq<Group<K, V>>, i: nat)
    requires DistinctKeys(gs)
    requires i < |gs|
    ensures Lookup(gs, gs[i].key) == gs[i].values
    decreases i
  {
    if i > 0 {
      DistinctKeysPairwise(gs, 0, i);
      LookupMember(gs[1..], i - 1);
    }
  }

  /** A key no group carries has no values. */
  lemma {:induction false} LookupAbsent<K, V>(gs: seq<Group<K, V>>, k: K)
    requires forall i :: 0 <= i < |gs| ==> gs[i].key != k
    ensures Lookup(gs, k) == []
    decreases |gs|
  {
    if |gs| > 0 {
      assert forall i :: 0 <= i < |gs[1..]| ==> gs[1..][i] == gs[i + 1];
      LookupAbsent(gs[1..], k);
    }
  }

  lemma {:induction false} AddKeys<K, V>(gs: seq<Group<K, V>>, k: K, v: V)
    ensures Keys(Add(gs, k, v)) == Keys(gs) + {k}
    decreases |gs|
  {
    if |gs| > 0 && gs[0].key != k {
      AddKeys(gs[1..], k, v);
      assert Add(gs, k, v)[1..] == Add(gs[1..], k, v);
    } else if |gs| > 0 {
      assert Add(gs, k, v)[1..] == gs[1..];
    }
  }

  lemma {:induction false} AddWellFormed<K, V>(gs: seq<Group<K, V>>, k: K, v: V)
    requires WellFormed(gs)
    ensures WellFormed(Add(gs, k, v))
    decreases |gs|
  {
    var r := Add(gs, k, v);
    if |gs| == 0 {
    } else if gs[0].key == k {
      assert r[1..] == gs[1..];
      assert forall i :: 0 < i < |r| ==> r[i] == gs[i];
    } else {
      assert forall i :: 0 <= i < |gs[1..]| ==> |gs[1..][i].values| > 0 by {
        forall i | 0 <= i < |gs[1..]| ensures |gs[1..][i].values| > 0 {
          assert gs[1..][i] == gs[i + 1];
        }
      }
      AddWellFormed(gs[1..], k, v);
      AddKeys(gs[1..], k, v);
      assert r[1..] == Add(gs[1..], k, v);
      assert forall i :: 0 < i < |r| ==> r[i] == r[1..][i - 1];
    }
  }

  lemma {:induction false} AddLookup<K, V>(gs: seq<Group<K, V>>, k: K, v: V, k': K)
    ensures Lookup(Add(gs, k, v), k') == Lookup(gs, k') + (if k' == k then [v] else [])
    decreases |gs|
  {
    if |gs| > 0 && gs[0].key != k {
      AddLookup(gs[1..], k, v, k');
      assert Add(gs, k, v)[1..] == Add(gs[1..], k, v);
    } else if |gs| > 0 {
      assert Add(gs, k, v)[1..] == gs[1..];
    }
  }

  lemma {:induction false} AddSize<K, V>(gs: seq<Group<K, V>>, k: K, v: V)
    ensures TotalSize(Add(gs, k, v)) == TotalSize(gs) + 1
    decreases |gs|
  {
    if |gs| > 0 && gs[0].key != k {
      AddSize(gs[1..], k, v);
      assert Add(gs, k, v)[1..] == Add(gs[1..], k, v);
    } else if |gs| > 0 {
      assert Add(gs, k, v)[1..] == gs[1..];
    }
  }

  /** Grouping partitions the input: the groups have distinct keys, exactly
      the keys of the input, each holds precisely the values paired with its
      key in input order, and together they hold every input value once. */
  lemma {:induction false} GroupByPartition<K, V>(pairs: seq<(K, V)>)
    ensures WellFormed(GroupBy(pairs))
    ensures Keys(GroupBy(pairs)) == PairKeys(pairs)
    ensures forall k :: Lookup(GroupBy(pairs), k) == ValuesOf(pairs, k)
    ensures TotalSize(GroupBy(pairs)) == |pairs|
    decreases |pairs|
  {
    if |pairs| > 0 {
      var init, last := pairs[..|pairs| - 1], pairs[|pairs| - 1];
      GroupByPartition(init);
      AddWellFormed(GroupBy(init), last.0, last.1);
      AddKeys(GroupBy(init), last.0, last.1);
      AddSize(GroupBy(init), last.0, last.1);
      forall k ensures Lookup(GroupBy(pairs), k) == ValuesOf(pairs, k) {
        AddLookup(GroupBy(init), last.0, last.1, k);
      }
    }
  }

  /** Each group holds exactly the values paired with its key, and none is
      empty. */
  lemma GroupValues<K, V>(pairs: seq<(K, V)>, i: nat)
    requires i < |GroupBy(pairs)|
    ensures GroupBy(pairs)[i].values == ValuesOf(pairs, GroupBy(pairs)[i].key)
    ensures |GroupBy(pairs)[i].values| > 0
  {
    var gs := GroupBy(pairs);
    GroupByPartition(pairs);
    LookupMember(gs, i);
    assert Lookup(gs, gs[i].key) == ValuesOf(pairs, gs[i].key);
  }

  /** A value collected for `k` was paired with `k` in the input. */
  lemma {:induction false} ValuesOfMember<K, V>(pairs: seq<(K, V)>, k: K, v: V)
    requires v in ValuesOf(pairs, k)
    ensures (k, v) in pairs
    decreases |pairs|
  {
    var init, last := pairs[..|pairs| - 1], pairs[|pairs| - 1];
    if v in ValuesOf(init, k) {
      ValuesOfMember(init, k, v);
    }
  }

  /** A key of the groups belongs to one of them. */
  lemma {:induction false} KeysIndex<K, V>(gs: seq<Group<K, V>>, k: K)
    requires k in Keys(gs)
    ensures exists i :: 0 <= i < |gs| && gs[i].key == k
    decreases |gs|
  {
    if gs[0].key != k {
      KeysIndex(gs[1..], k);
      var i :| 0 <= i < |gs[1..]| && gs[1..][i].key == k;
      assert gs[i + 1].key == k;
    }
  }

  /** Every key paired in the input is among the input's keys. */
  lemma {:induction false} PairKeysMember<K, V>(pairs: seq<(K, V)>, j: nat)
    requires j < |pairs|
    ensures pairs[j].0 in PairKeys(pairs)
    decreases |pairs|
  {
    if j < |pairs| - 1 {
      PairKeysMember(pairs[..|pairs| - 1], j);
    }
  }

  /** Every value paired in the input is collected for its key. */
  lemma {:induction false} ValuesOfComplete<K, V>(pairs: seq<(K, V)>, j: nat)
    requires j < |pairs|
    ensures pairs[j].1 in ValuesOf(pairs, pairs[j].0)
    decreases |pairs|
  {
    if j < |pairs| - 1 {
      ValuesOfComplete(pairs[..|pairs| - 1], j);
    }
  }

  /** Every input pair has a group keyed by its key. */
  lemma GroupOf<K, V>(pairs: seq<(K, V)>, j: nat)
    requires j < |pairs|
    ensures exists i :: 0 <= i < |GroupBy(pairs)| && GroupBy(pairs)[i].key == pairs[j].0
  {
    PairKeysMember(pairs, j);
    GroupByPartition(pairs);
    KeysIndex(GroupBy(pairs), pairs[j].0);
  }

  /** The second components of the pairs, in order. */
  function Seconds<K, V>(pairs: seq<(K, V)>): (r: seq<V>)
    ensures |r| == |pairs|
    ensures forall i :: 0 <= i < |pairs| ==> r[i] == pairs[i].1
  {
    seq(|pairs|, i requires 0 <= i < |pairs| => pairs[i].1)
  }

  /** The values collected for a key are a sub-multiset of all values. */
  lemma {:induction false} ValuesOfSubMultiset<K, V>(pairs: seq<(K, V)>, k: K)
    ensures multiset(ValuesOf(pairs, k)) <= multiset(Seconds(pairs))
    decreases |pairs|
  {
    if |pairs| > 0 {
      var init, last := pairs[..|pairs| - 1], pairs[|pairs| - 1];
      ValuesOfSubMultiset(init, k);
      SecondsSnoc(pairs);
      assert multiset(ValuesOf(pairs, k)) == multiset(ValuesOf(init, k)) + multiset(if last.0 == k then [last.1] else []);
    }
  }

  /** The second components of a non-empty list: those of all but the last
      pair, and the last one's. */
  lemma SecondsSnoc<K, V>(pairs: seq<(K, V)>)
    requires |pairs| > 0
    ensures multiset(Seconds(pairs)) == multiset(Seconds(pairs[..|pairs| - 1])) + multiset{pairs[|pairs| - 1].1}
  {
    assert Seconds(pairs) == Seconds(pairs[..|pairs| - 1]) + [pairs[|pairs| - 1].1];
  }
}
