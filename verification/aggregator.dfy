/** `src/aggregator.py`: from the stored listings to the per-weapon
    godrolls. The query, the profile grouping, the median, the sample-count
    percentile and the top-N selection are pure functions over sequences; a
    `Variant` carries the cut-offs and the two switches in which the older
    root `aggregator.py` differs. */
module Aggregator {
  import opened Sequences
  import opened Sorting
  import opened Grouping
  import opened Records
  import opened Statistics
  import Normalizer
  import Config

  /** The knobs of one revision of the aggregator. `dedupBySeller` keeps one
      (minimum) price per seller and profile; `sortStatsOnRead` sorts the
      positive slots while building profiles instead of trusting the stored
      order. */
  datatype Variant = Variant(
    maxPrice: int,
    sampleThreshold: real,
    godrollCount: nat,
    dedupBySeller: bool,
    sortStatsOnRead: bool)

  /** `src/aggregator.py` with the constants of `src/config.py`. */
  const Current := Variant(Config.MaxPrice, Config.SampleThreshold, Config.GodrollCount, true, false)

  /** One row of the aggregation query: `(weapon, stat1..stat4, price)`. */
  datatype Row = Row(key: Key, price: int)

  /** One group of the per-seller query, before `seller` is dropped. */
  datatype SellerRow = SellerRow(seller: string, key: Key, price: int)

  /** `(*key, median, sample_count)`. */
  datatype Profile = Profile(key: Key, median: real, sampleCount: nat)

  /** `(*key, median, sample_count, percentile)`: a row of `godrolls`. */
  datatype Godroll = Godroll(key: Key, median: real, sampleCount: nat, percentile: real)

  // ---------------------------------------------------------------------
  // The query

  /** `WHERE price > 0 AND price < max_price`. */
  function InRange(maxPrice: int): Listing -> bool {
    (l: Listing) => 0 < l.price < maxPrice
  }

  function InRangeListings(maxPrice: int, listings: seq<Listing>): seq<Listing> {
    Filter(InRange(maxPrice), listings)
  }

  /** The grouping columns `seller, weapon, stat1..stat4`, with the price. */
  function SellerEntry(l: Listing): ((string, Key), int) {
    ((l.seller, l.ProfileKey()), l.price)
  }

  function SellerPairs(maxPrice: int, listings: seq<Listing>): seq<((string, Key), int)> {
    MapSeq(SellerEntry, InRangeListings(maxPrice, listings))
  }

  /** `MIN(price)` of a non-empty group. */
  function MinOf(xs: seq<int>): (m: int)
    requires |xs| > 0
    ensures m in xs
    ensures forall i :: 0 <= i < |xs| ==> m <= xs[i]
    decreases |xs|
  {
    if |xs| == 1 then xs[0]
    else
      var rest := MinOf(xs[..|xs| - 1]);
      if xs[|xs| - 1] < rest then xs[|xs| - 1] else rest
  }

  /** The per-seller query of `src/aggregator.py`: one row per
      `(seller, weapon, stat1..stat4)` group of in-range listings, holding
      the group's minimum price. SQL leaves the row order open; groups come
      here in order of first appearance. */
  function SellerMinima(maxPrice: int, listings: seq<Listing>): (r: seq<SellerRow>)
    ensures |r| == |GroupBy(SellerPairs(maxPrice, listings))|
  {
    var pairs := SellerPairs(maxPrice, listings);
    var gs := GroupBy(pairs);
    GroupByPartition(pairs);
    seq(|gs|, i requires 0 <= i < |gs| => SellerRow(gs[i].key.0, gs[i].key.1, MinOf(gs[i].values)))
  }

  function DropSeller(r: SellerRow): Row {
    Row(r.key, r.price)
  }

  function ListingRow(l: Listing): Row {
    Row(l.ProfileKey(), l.price)
  }

  /** Some in-range listing has this row's profile and price. */
  ghost predicate FromInRange(maxPrice: int, listings: seq<Listing>, row: Row) {
    exists l :: l in listings && InRange(maxPrice)(l) && ListingRow(l) == row
  }

  /** The rows the aggregation query returns: each carries the profile and
      price of an in-range listing, and without deduplication there is one
      row per in-range listing. */
  function QueryRows(v: Variant, listings: seq<Listing>): (r: seq<Row>)
    ensures forall i :: 0 <= i < |r| ==> FromInRange(v.maxPrice, listings, r[i])
    ensures !v.dedupBySeller ==> |r| == |InRangeListings(v.maxPrice, listings)|
    ensures !v.dedupBySeller ==> forall l :: l in listings && InRange(v.maxPrice)(l) ==> ListingRow(l) in r
  {
    if v.dedupBySeller then
      SellerRowsFromInRange(v.maxPrice, listings);
      MapSeq(DropSeller, SellerMinima(v.maxPrice, listings))
    else
      InRangeRows(v.maxPrice, listings);
      MapSeq(ListingRow, InRangeListings(v.maxPrice, listings))
  }

  lemma InRangeRows(maxPrice: int, listings: seq<Listing>)
    ensures var r := MapSeq(ListingRow, InRangeListings(maxPrice, listings));
      && (forall i :: 0 <= i < |r| ==> FromInRange(maxPrice, listings, r[i]))
      && (forall l :: l in listings && InRange(maxPrice)(l) ==> ListingRow(l) in r)
  {
    var inRange := InRangeListings(maxPrice, listings);
    var r := MapSeq(ListingRow, inRange);
    forall i | 0 <= i < |inRange| ensures FromInRange(maxPrice, listings, ListingRow(inRange[i])) {
      FilterMember(InRange(maxPrice), listings, inRange[i]);
    }
    forall l | l in listings && InRange(maxPrice)(l) ensures ListingRow(l) in r {
      FilterMember(InRange(maxPrice), listings, l);
      var j :| 0 <= j < |inRange| && inRange[j] == l;
      assert r[j] == ListingRow(l);
    }
  }

  lemma SellerRowsFromInRange(maxPrice: int, listings: seq<Listing>)
    ensures var r := MapSeq(DropSeller, SellerMinima(maxPrice, listings));
      forall i :: 0 <= i < |r| ==> FromInRange(maxPrice, listings, r[i])
  {
    var rows := SellerMinima(maxPrice, listings);
    forall i | 0 <= i < |rows| ensures FromInRange(maxPrice, listings, DropSeller(rows[i])) {
      SellerMinimaAttained(maxPrice, listings, i);
    }
  }

  /** The group of row `i` of the per-seller query, and its position among the
      in-range listings' pairs. */
  lemma SellerMinimaGroup(maxPrice: int, listings: seq<Listing>, i: nat)
    requires i < |SellerMinima(maxPrice, listings)|
    ensures var g := GroupBy(SellerPairs(maxPrice, listings))[i];
      && |g.values| > 0
      && g.values == ValuesOf(SellerPairs(maxPrice, listings), g.key)
      && SellerMinima(maxPrice, listings)[i] == SellerRow(g.key.0, g.key.1, MinOf(g.values))
  {
    GroupValues(SellerPairs(maxPrice, listings), i);
  }

  /** A price collected for `(seller, key)` is the price of an in-range
      listing of that seller and profile. */
  lemma SellerPriceFromListing(maxPrice: int, listings: seq<Listing>, seller: string, key: Key, p: int)
    requires p in ValuesOf(SellerPairs(maxPrice, listings), (seller, key))
    ensures exists l :: l in listings && InRange(maxPrice)(l) && l.seller == seller && l.ProfileKey() == key && l.price == p
  {
    var inRange := InRangeListings(maxPrice, listings);
    var pairs := SellerPairs(maxPrice, listings);
    ValuesOfMember(pairs, (seller, key), p);
    var j :| 0 <= j < |pairs| && pairs[j] == ((seller, key), p);
    var l := inRange[j];
    assert l in inRange;
    FilterMember(InRange(maxPrice), listings, l);
  }

  /** Each per-seller row carries the price of one of that seller's in-range
      listings of that profile. */
  lemma SellerMinimaAttained(maxPrice: int, listings: seq<Listing>, i: nat)
    requires i < |SellerMinima(maxPrice, listings)|
    ensures var r := SellerMinima(maxPrice, listings)[i];
      exists l :: l in listings && InRange(maxPrice)(l) && l.seller == r.seller && l.ProfileKey() == r.key && l.price == r.price
  {
    var r := SellerMinima(maxPrice, listings)[i];
    var g := GroupBy(SellerPairs(maxPrice, listings))[i];
    SellerMinimaGroup(maxPrice, listings, i);
    SellerPriceFromListing(maxPrice, listings, r.seller, r.key, r.price);
  }

  /** No in-range listing of the same seller and profile is cheaper than the
      row's price. */
  lemma SellerMinimaIsMinimum(maxPrice: int, listings: seq<Listing>, i: nat, l: Listing)
    requires i < |SellerMinima(maxPrice, listings)|
    requires l in listings && InRange(maxPrice)(l)
    requires l.seller == SellerMinima(maxPrice, listings)[i].seller
    requires l.ProfileKey() == SellerMinima(maxPrice, listings)[i].key
    ensures SellerMinima(maxPrice, listings)[i].price <= l.price
  {
    var inRange := InRangeListings(maxPrice, listings);
    var pairs := SellerPairs(maxPrice, listings);
    var g := GroupBy(pairs)[i];
    SellerMinimaGroup(maxPrice, listings, i);
    FilterMember(InRange(maxPrice), listings, l);
    var j :| 0 <= j < |inRange| && inRange[j] == l;
    assert pairs[j] == ((l.seller, l.ProfileKey()), l.price);
    ValuesOfComplete(pairs, j);
    assert l.price in g.values;
  }

  /** Every in-range listing's seller and profile has a row. */
  lemma SellerMinimaCovers(maxPrice: int, listings: seq<Listing>, l: Listing)
    requires l in listings && InRange(maxPrice)(l)
    ensures exists i :: (0 <= i < |SellerMinima(maxPrice, listings)|
      && SellerMinima(maxPrice, listings)[i].seller == l.seller
      && SellerMinima(maxPrice, listings)[i].key == l.ProfileKey())
  {
    var inRange := InRangeListings(maxPrice, listings);
    var pairs := SellerPairs(maxPrice, listings);
    FilterMember(InRange(maxPrice), listings, l);
    var j :| 0 <= j < |inRange| && inRange[j] == l;
    assert pairs[j].0 == (l.seller, l.ProfileKey());
    GroupOf(pairs, j);
    var i :| 0 <= i < |GroupBy(pairs)| && GroupBy(pairs)[i].key == pairs[j].0;
    SellerMinimaGroup(maxPrice, listings, i);
  }

  /** No seller and profile has two rows. */
  lemma SellerMinimaDistinct(maxPrice: int, listings: seq<Listing>, i: nat, j: nat)
    requires i < j < |SellerMinima(maxPrice, listings)|
    ensures var r := SellerMinima(maxPrice, listings);
      r[i].seller != r[j].seller || r[i].key != r[j].key
  {
    var pairs := SellerPairs(maxPrice, listings);
    GroupByPartition(pairs);
    DistinctKeysPairwise(GroupBy(pairs), i, j);
    SellerMinimaGroup(maxPrice, listings, i);
    SellerMinimaGroup(maxPrice, listings, j);
  }

  /** One seller listing one profile at 100 and at 80 contributes the single
      row 80. */
  lemma SellerMinimaExample(a: Listing, b: Listing)
    requires a.seller == b.seller && a.ProfileKey() == b.ProfileKey()
    requires a.price == 100 && b.price == 80
    ensures SellerMinima(Config.MaxPrice, [a, b]) == [SellerRow(a.seller, a.ProfileKey(), 80)]
  {
    var inRange := InRangeListings(Config.MaxPrice, [a, b]);
    assert [a, b][..1] == [a];
    assert Filter(InRange(Config.MaxPrice), [a]) == [a] by {
      assert [a][..0] == [];
    }
    assert inRange == [a, b];
    var pairs := SellerPairs(Config.MaxPrice, [a, b]);
    var k := (a.seller, a.ProfileKey());
    assert pairs == [(k, 100), (k, 80)];
    assert pairs[..1] == [(k, 100)];
    assert [(k, 100)][..0] == [];
    assert GroupBy([(k, 100)]) == [Group(k, [100])];
    assert [100] + [80] == [100, 80];
    assert [Group(k, [100])][1..] == [];
    assert Add([Group(k, [100])], k, 80) == [Group(k, [100, 80])];
    assert GroupBy(pairs) == [Group(k, [100, 80])];
    assert MinOf([100, 80]) == 80 by {
      assert [100, 80][..1] == [100];
    }
  }

  // ---------------------------------------------------------------------
  // Profiles

  /** The profile key a row is counted under. */
  function ReadKey(v: Variant, k: Key): Key {
    if v.sortStatsOnRead then Key(k.weapon, Normalizer.SortPositiveStats(k.stats)) else k
  }

  function ProfileEntry(v: Variant): Row -> (Key, int) {
    (r: Row) => (ReadKey(v, r.key), r.price)
  }

  /** The `(key, price)` pairs `build_profiles_from_listings` reads. */
  function KeyedPrices(v: Variant, rows: seq<Row>): seq<(Key, int)> {
    MapSeq(ProfileEntry(v), rows)
  }

  /** `build_profiles_from_listings`: the price list of every profile key,
      keys in order of first appearance. The lists partition the rows: keys
      are distinct, no list is empty, each key's list holds exactly the
      prices of the rows read under that key, in row order, and the lists
      together hold every row once. */
  function BuildProfiles(v: Variant, rows: seq<Row>): (r: seq<Group<Key, int>>)
    ensures WellFormed(r)
    ensures forall k :: Lookup(r, k) == ValuesOf(KeyedPrices(v, rows), k)
    ensures TotalSize(r) == |rows|
  {
    GroupByPartition(KeyedPrices(v, rows));
    GroupBy(KeyedPrices(v, rows))
  }

  /** `aggregate_profiles`: one profile per price list, with its key, its
      sample count, and a median between the two middle prices of the
      sorted list. */
  function AggregateProfiles(gs: seq<Group<Key, int>>): (r: seq<Profile>)
    requires forall i :: 0 <= i < |gs| ==> |gs[i].values| > 0
    ensures |r| == |gs|
    ensures forall i :: 0 <= i < |gs| ==>
      && r[i].key == gs[i].key
      && r[i].sampleCount == |gs[i].values|
      && BetweenMiddles(gs[i].values, r[i].median)
  {
    seq(|gs|, i requires 0 <= i < |gs| => Profile(gs[i].key, Median(gs[i].values), |gs[i].values|))
  }

  function KeyOf(p: Profile): Key {
    p.key
  }

  function GodrollKey(g: Godroll): Key {
    g.key
  }

  /** Without deduplication, the price of every in-range listing is
      collected under the key its row is read with. */
  lemma ListingCollected(v: Variant, listings: seq<Listing>, l: Listing)
    requires !v.dedupBySeller
    requires l in listings && InRange(v.maxPrice)(l)
    ensures l.price in Lookup(BuildProfiles(v, QueryRows(v, listings)), ReadKey(v, l.ProfileKey()))
  {
    var rows := QueryRows(v, listings);
    var pairs := KeyedPrices(v, rows);
    var j :| 0 <= j < |rows| && rows[j] == ListingRow(l);
    assert pairs[j] == (ReadKey(v, l.ProfileKey()), l.price);
    ValuesOfComplete(pairs, j);
  }

  /** Profiles built from distinct keys have distinct keys. */
  lemma AggregateProfilesDistinct(gs: seq<Group<Key, int>>)
    requires forall i :: 0 <= i < |gs| ==> |gs[i].values| > 0
    requires DistinctKeys(gs)
    ensures DistinctBy(KeyOf, AggregateProfiles(gs))
  {
    var r := AggregateProfiles(gs);
    forall i, j | 0 <= i < j < |r| ensures KeyOf(r[i]) != KeyOf(r[j]) {
      DistinctKeysPairwise(gs, i, j);
    }
  }

  function WeaponEntry(p: Profile): (string, Profile) {
    (p.key.weapon, p)
  }

  function WeaponPairs(ps: seq<Profile>): seq<(string, Profile)> {
    MapSeq(WeaponEntry, ps)
  }

  /** A profile of weapon `w`. */
  function OfWeaponProfile(w: string): Profile -> bool {
    (p: Profile) => p.key.weapon == w
  }

  /** The profiles paired with weapon `w` are the input's profiles of that
      weapon, in input order. */
  lemma {:induction false} WeaponValues(ps: seq<Profile>, w: string)
    ensures ValuesOf(WeaponPairs(ps), w) == Filter(OfWeaponProfile(w), ps)
    decreases |ps|
  {
    if |ps| > 0 {
      var init := ps[..|ps| - 1];
      WeaponValues(init, w);
      assert WeaponPairs(ps)[..|ps| - 1] == WeaponPairs(init);
    }
  }

  /** `group_profiles_by_weapon`: one group per weapon, weapons distinct and
      in order of first appearance, each group holding exactly the input's
      profiles of its weapon in input order, every profile in one group. */
  function GroupByWeapon(ps: seq<Profile>): (r: seq<Group<string, Profile>>)
    ensures WellFormed(r)
    ensures forall w :: Lookup(r, w) == Filter(OfWeaponProfile(w), ps)
    ensures TotalSize(r) == |ps|
  {
    GroupByPartition(WeaponPairs(ps));
    AllWeaponValues(ps);
    GroupBy(WeaponPairs(ps))
  }

  lemma AllWeaponValues(ps: seq<Profile>)
    ensures forall w :: ValuesOf(WeaponPairs(ps), w) == Filter(OfWeaponProfile(w), ps)
  {
    forall w ensures ValuesOf(WeaponPairs(ps), w) == Filter(OfWeaponProfile(w), ps) {
      WeaponValues(ps, w);
    }
  }

  /** A weapon group holds profiles of that weapon, taken from the input. */
  lemma WeaponGroupMember(ps: seq<Profile>, w: string, p: Profile)
    requires p in ValuesOf(WeaponPairs(ps), w)
    ensures p in ps && p.key.weapon == w
  {
    ValuesOfMember(WeaponPairs(ps), w, p);
  }

  /** A weapon group of key-distinct profiles is key-distinct. */
  lemma WeaponGroupDistinct(ps: seq<Profile>, w: string)
    requires DistinctBy(KeyOf, ps)
    ensures DistinctBy(KeyOf, ValuesOf(WeaponPairs(ps), w))
  {
    ValuesOfSubMultiset(WeaponPairs(ps), w);
    assert Seconds(WeaponPairs(ps)) == ps;
    DistinctBySubMultiset(KeyOf, ps, ValuesOf(WeaponPairs(ps), w));
  }

  // ---------------------------------------------------------------------
  // Percentiles and selection

  function CountOf(p: Profile): int {
    p.sampleCount
  }

  /** The sample counts of one weapon's profiles. */
  function Counts(rolls: seq<Profile>): seq<int> {
    MapSeq(CountOf, rolls)
  }

  /** `calculate_percentiles`: every profile with the share of the weapon's
      profiles whose sample count is strictly lower, in percent. */
  function CalculatePercentiles(rolls: seq<Profile>): (r: seq<Godroll>)
    ensures |r| == |rolls|
    ensures forall i :: 0 <= i < |rolls| ==>
      && r[i].key == rolls[i].key
      && r[i].median == rolls[i].median
      && r[i].sampleCount == rolls[i].sampleCount
    ensures forall i :: 0 <= i < |rolls| ==>
      r[i].percentile == (CountBelow(Counts(rolls), rolls[i].sampleCount) as real / |rolls| as real) * 100.0
    ensures forall i :: 0 <= i < |rolls| ==> 0.0 <= r[i].percentile < 100.0
  {
    var counts := Counts(rolls);
    seq(|rolls|, i requires 0 <= i < |rolls| =>
      assert counts[i] == rolls[i].sampleCount;
      Godroll(rolls[i].key, rolls[i].median, rolls[i].sampleCount, Percentile(counts, rolls[i].sampleCount)))
  }

  /** Equal sample counts get equal percentiles, and a larger count never a
      lower one. */
  lemma PercentilesMonotone(rolls: seq<Profile>, i: nat, j: nat)
    requires i < |rolls| && j < |rolls|
    requires rolls[i].sampleCount <= rolls[j].sampleCount
    ensures CalculatePercentiles(rolls)[i].percentile <= CalculatePercentiles(rolls)[j].percentile
  {
    CountBelowMonotone(Counts(rolls), rolls[i].sampleCount, rolls[j].sampleCount);
    PercentMonotone(CountBelow(Counts(rolls), rolls[i].sampleCount), CountBelow(Counts(rolls), rolls[j].sampleCount), |rolls|);
  }

  /** "Sorts no later than" for `sort(key=median, reverse=True)`. */
  predicate MedianGe(a: Godroll, b: Godroll) {
    a.median >= b.median
  }

  lemma MedianGeIsPreorder()
    ensures TotalPreorder(MedianGe)
  {
  }

  function Qualifies(threshold: real): Godroll -> bool {
    (g: Godroll) => g.percentile >= threshold
  }

  /** `determine_godrolls`: the profiles at or above the percentile
      threshold, highest median first (ties in input order), at most
      `godroll_count` of them. */
  function DetermineGodrolls(v: Variant, gs: seq<Godroll>): (r: seq<Godroll>)
    ensures |r| <= v.godrollCount
    ensures |r| == |Filter(Qualifies(v.sampleThreshold), gs)| || |r| == v.godrollCount
    ensures forall i :: 0 <= i < |r| ==> r[i].percentile >= v.sampleThreshold
    ensures SortedBy(MedianGe, r)
    ensures multiset(r) <= multiset(gs)
  {
    MedianGeIsPreorder();
    var q := Filter(Qualifies(v.sampleThreshold), gs);
    var r := TopBy(MedianGe, q, v.godrollCount);
    SubMultisetOfFilter(Qualifies(v.sampleThreshold), gs, r);
    r
  }

  /** A qualifying profile left out has a median no higher than any kept
      one. */
  lemma DetermineGodrollsKeepsBest(v: Variant, gs: seq<Godroll>, x: Godroll, y: Godroll)
    requires x in gs && x.percentile >= v.sampleThreshold
    requires x !in DetermineGodrolls(v, gs)
    requires y in DetermineGodrolls(v, gs)
    ensures x.median <= y.median
  {
    MedianGeIsPreorder();
    var q := Filter(Qualifies(v.sampleThreshold), gs);
    FilterMember(Qualifies(v.sampleThreshold), gs, x);
    assert x in multiset(q) - multiset(TopBy(MedianGe, q, v.godrollCount));
    TopByKeepsBest(MedianGe, q, v.godrollCount, x, y);
  }

  // ---------------------------------------------------------------------
  // The whole run

  function WeaponGodrolls(v: Variant): Group<string, Profile> -> seq<Godroll> {
    (g: Group<string, Profile>) => DetermineGodrolls(v, CalculatePercentiles(g.values))
  }

  /** The profiles of a run, before the split by weapon. */
  function RunProfiles(v: Variant, listings: seq<Listing>): seq<Profile> {
    AggregateProfiles(BuildProfiles(v, QueryRows(v, listings)))
  }

  /** The godrolls picked from profiles `ps`, weapon by weapon. */
  function Selection(v: Variant, ps: seq<Profile>): seq<Godroll> {
    Flatten(MapSeq(WeaponGodrolls(v), GroupByWeapon(ps)))
  }

  /** `aggregate`: the godrolls of every weapon. Selection is per weapon, so
      no two godrolls share a key and no weapon gets more than
      `godroll_count` of them; each meets the percentile threshold. */
  function Aggregate(v: Variant, listings: seq<Listing>): (r: seq<Godroll>)
    ensures DistinctBy(GodrollKey, r)
    ensures forall w :: |Filter(OfWeapon(w), r)| <= v.godrollCount
    ensures forall x :: x in r ==> x.percentile >= v.sampleThreshold
  {
    var ps := RunProfiles(v, listings);
    RunProfilesDistinct(v, listings);
    SelectionDistinctKeys(v, ps);
    SelectionPerWeaponBound(v, ps);
    SelectionThreshold(v, ps);
    Selection(v, ps)
  }

  /** The profiles of a run have distinct keys. */
  lemma RunProfilesDistinct(v: Variant, listings: seq<Listing>)
    ensures DistinctBy(KeyOf, RunProfiles(v, listings))
  {
    var rows := QueryRows(v, listings);
    AggregateProfilesDistinct(BuildProfiles(v, rows));
  }

  /** The godrolls of one weapon group are profiles of that weapon with
      distinct keys. */
  lemma WeaponGodrollsFacts(v: Variant, ps: seq<Profile>, i: nat)
    requires DistinctBy(KeyOf, ps)
    requires i < |GroupByWeapon(ps)|
    ensures var g := GroupByWeapon(ps)[i];
      && DistinctBy(GodrollKey, WeaponGodrolls(v)(g))
      && forall x :: x in WeaponGodrolls(v)(g) ==> x.key.weapon == g.key
  {
    var g := GroupByWeapon(ps)[i];
    GroupValues(WeaponPairs(ps), i);
    WeaponGroupDistinct(ps, g.key);
    SelectedOfWeapon(v, ps, g.key, g.values);
    var c := CalculatePercentiles(g.values);
    assert DistinctBy(GodrollKey, c);
    DistinctBySubMultiset(GodrollKey, c, DetermineGodrolls(v, c));
  }

  /** The godrolls picked from the profiles paired with weapon `w` are of
      that weapon. */
  lemma SelectedOfWeapon(v: Variant, ps: seq<Profile>, w: string, values: seq<Profile>)
    requires values == ValuesOf(WeaponPairs(ps), w)
    ensures forall x :: x in DetermineGodrolls(v, CalculatePercentiles(values)) ==> x.key.weapon == w
  {
    var c := CalculatePercentiles(values);
    forall x | x in DetermineGodrolls(v, c) ensures x.key.weapon == w {
      assert x in multiset(c);
      var j :| 0 <= j < |c| && c[j] == x;
      WeaponGroupMember(ps, w, values[j]);
    }
  }

  /** Godrolls of two different weapon groups are of different weapons. */
  lemma WeaponGroupsApart(v: Variant, ps: seq<Profile>, i: nat, j: nat, x: Godroll, y: Godroll)
    requires DistinctBy(KeyOf, ps)
    requires i < |GroupByWeapon(ps)| && j < |GroupByWeapon(ps)| && i != j
    requires x in WeaponGodrolls(v)(GroupByWeapon(ps)[i])
    requires y in WeaponGodrolls(v)(GroupByWeapon(ps)[j])
    ensures x.key.weapon != y.key.weapon
  {
    var wg := GroupByWeapon(ps);
    WeaponGodrollsFacts(v, ps, i);
    WeaponGodrollsFacts(v, ps, j);
    GroupByPartition(WeaponPairs(ps));
    if i < j {
      DistinctKeysPairwise(wg, i, j);
    } else {
      DistinctKeysPairwise(wg, j, i);
    }
  }

  /** Profiles with distinct keys give godrolls with distinct keys. */
  lemma SelectionDistinctKeys(v: Variant, ps: seq<Profile>)
    requires DistinctBy(KeyOf, ps)
    ensures DistinctBy(GodrollKey, Selection(v, ps))
  {
    EachGroupDistinct(v, ps);
    GroupsKeyApart(v, ps);
    FlattenDistinctBy(GodrollKey, MapSeq(WeaponGodrolls(v), GroupByWeapon(ps)));
  }

  /** The godrolls of each weapon group have distinct keys. */
  lemma EachGroupDistinct(v: Variant, ps: seq<Profile>)
    requires DistinctBy(KeyOf, ps)
    ensures var xss := MapSeq(WeaponGodrolls(v), GroupByWeapon(ps));
      forall i :: 0 <= i < |xss| ==> DistinctBy(GodrollKey, xss[i])
  {
    var xss := MapSeq(WeaponGodrolls(v), GroupByWeapon(ps));
    forall i | 0 <= i < |xss| ensures DistinctBy(GodrollKey, xss[i]) {
      WeaponGodrollsFacts(v, ps, i);
    }
  }

  /** Godrolls of two different weapon groups have different keys. */
  lemma GroupsKeyApart(v: Variant, ps: seq<Profile>)
    requires DistinctBy(KeyOf, ps)
    ensures var xss := MapSeq(WeaponGodrolls(v), GroupByWeapon(ps));
      forall i, j, x, y :: 0 <= i < |xss| && 0 <= j < |xss| && i != j && x in xss[i] && y in xss[j] ==> GodrollKey(x) != GodrollKey(y)
  {
    var xss := MapSeq(WeaponGodrolls(v), GroupByWeapon(ps));
    forall i, j, x, y | 0 <= i < |xss| && 0 <= j < |xss| && i != j && x in xss[i] && y in xss[j]
      ensures GodrollKey(x) != GodrollKey(y)
    {
      WeaponGroupsApart(v, ps, i, j, x, y);
    }
  }

  function OfWeapon(w: string): Godroll -> bool {
    (g: Godroll) => g.key.weapon == w
  }

  /** From profiles with distinct keys, no weapon gets more than
      `godroll_count` godrolls. */
  lemma SelectionPerWeaponBound(v: Variant, ps: seq<Profile>)
    requires DistinctBy(KeyOf, ps)
    ensures forall w :: |Filter(OfWeapon(w), Selection(v, ps))| <= v.godrollCount
  {
    forall w ensures |Filter(OfWeapon(w), Selection(v, ps))| <= v.godrollCount {
      OneGroupPerWeapon(v, ps, w);
      FlattenFilterBound(OfWeapon(w), MapSeq(WeaponGodrolls(v), GroupByWeapon(ps)), v.godrollCount);
    }
  }

  /** The godrolls of one weapon all come from a single weapon group. */
  lemma OneGroupPerWeapon(v: Variant, ps: seq<Profile>, w: string)
    requires DistinctBy(KeyOf, ps)
    ensures var xss := MapSeq(WeaponGodrolls(v), GroupByWeapon(ps));
      forall i, j, x, y :: 0 <= i < |xss| && 0 <= j < |xss| && x in xss[i] && y in xss[j] && OfWeapon(w)(x) && OfWeapon(w)(y) ==> i == j
  {
    var xss := MapSeq(WeaponGodrolls(v), GroupByWeapon(ps));
    forall i, j, x, y | 0 <= i < |xss| && 0 <= j < |xss| && x in xss[i] && y in xss[j] && OfWeapon(w)(x) && OfWeapon(w)(y)
      ensures i == j
    {
      if i != j {
        WeaponGroupsApart(v, ps, i, j, x, y);
      }
    }
  }

  /** A godroll of one weapon group is a qualifying profile of that group,
      with its percentile added. */
  lemma WeaponGodrollFromProfile(v: Variant, ps: seq<Profile>, i: nat, x: Godroll)
    requires i < |GroupByWeapon(ps)|
    requires x in WeaponGodrolls(v)(GroupByWeapon(ps)[i])
    ensures x.percentile >= v.sampleThreshold
    ensures exists p :: p in ps && p.key == x.key && p.median == x.median && p.sampleCount == x.sampleCount
  {
    var g := GroupByWeapon(ps)[i];
    var c := CalculatePercentiles(g.values);
    assert x in multiset(c);
    var j :| 0 <= j < |c| && c[j] == x;
    GroupValues(WeaponPairs(ps), i);
    WeaponGroupMember(ps, g.key, g.values[j]);
  }

  /** Every selected godroll meets the percentile threshold. */
  lemma SelectionThreshold(v: Variant, ps: seq<Profile>)
    ensures forall x :: x in Selection(v, ps) ==> x.percentile >= v.sampleThreshold
  {
    var xss := MapSeq(WeaponGodrolls(v), GroupByWeapon(ps));
    forall x | x in Selection(v, ps) ensures x.percentile >= v.sampleThreshold {
      FlattenMember(xss, x);
      var i :| 0 <= i < |xss| && x in xss[i];
      WeaponGodrollFromProfile(v, ps, i, x);
    }
  }

  /** The godrolls picked from one weapon group are of that group's
      weapon. */
  lemma GroupGodrollsOfWeapon(v: Variant, ps: seq<Profile>, j: nat)
    requires j < |GroupByWeapon(ps)|
    ensures var g := GroupByWeapon(ps)[j];
      forall x :: x in WeaponGodrolls(v)(g) ==> x.key.weapon == g.key
  {
    var g := GroupByWeapon(ps)[j];
    GroupValues(WeaponPairs(ps), j);
    SelectedOfWeapon(v, ps, g.key, g.values);
  }

  /** The godrolls of weapon groups other than `i` are of other weapons
      than group `i`'s. */
  lemma OtherGroupsOtherWeapons(v: Variant, ps: seq<Profile>, i: nat)
    requires i < |GroupByWeapon(ps)|
    ensures var gs := GroupByWeapon(ps);
      var xss := MapSeq(WeaponGodrolls(v), gs);
      forall j, x :: 0 <= j < |xss| && j != i && x in xss[j] ==> !OfWeapon(gs[i].key)(x)
  {
    var gs := GroupByWeapon(ps);
    var xss := MapSeq(WeaponGodrolls(v), gs);
    forall j, x | 0 <= j < |xss| && j != i && x in xss[j] ensures !OfWeapon(gs[i].key)(x) {
      GroupGodrollsOfWeapon(v, ps, j);
      if j < i {
        DistinctKeysPairwise(gs, j, i);
      } else {
        DistinctKeysPairwise(gs, i, j);
      }
    }
  }

  /** With no group for weapon `w`, no godroll is of weapon `w`. */
  lemma NoGroupNoWeapon(v: Variant, ps: seq<Profile>, w: string)
    requires forall i :: 0 <= i < |GroupByWeapon(ps)| ==> GroupByWeapon(ps)[i].key != w
    ensures var xss := MapSeq(WeaponGodrolls(v), GroupByWeapon(ps));
      forall j, x :: 0 <= j < |xss| && x in xss[j] ==> !OfWeapon(w)(x)
  {
    var xss := MapSeq(WeaponGodrolls(v), GroupByWeapon(ps));
    forall j, x | 0 <= j < |xss| && x in xss[j] ensures !OfWeapon(w)(x) {
      GroupGodrollsOfWeapon(v, ps, j);
    }
  }

  /** The godrolls of the weapon of group `i` are those picked from that
      group. */
  lemma SelectionOfGroup(v: Variant, ps: seq<Profile>, i: nat)
    requires i < |GroupByWeapon(ps)|
    ensures var g := GroupByWeapon(ps)[i];
      Filter(OfWeapon(g.key), Selection(v, ps)) == WeaponGodrolls(v)(g)
  {
    var gs := GroupByWeapon(ps);
    var xss := MapSeq(WeaponGodrolls(v), gs);
    var w, mine := gs[i].key, xss[i];
    assert Selection(v, ps) == Flatten(xss);
    OtherGroupsOtherWeapons(v, ps, i);
    FlattenFilterOne(OfWeapon(w), xss, i);
    GroupGodrollsOfWeapon(v, ps, i);
    assert forall k :: 0 <= k < |mine| ==> OfWeapon(w)(mine[k]) by {
      forall k | 0 <= k < |mine| ensures OfWeapon(w)(mine[k]) {
        assert mine[k] in mine;
      }
    }
    FilterAll(OfWeapon(w), mine);
  }

  /** A weapon without a group has no godrolls. */
  lemma SelectionOfAbsentWeapon(v: Variant, ps: seq<Profile>, w: string)
    requires forall i :: 0 <= i < |GroupByWeapon(ps)| ==> GroupByWeapon(ps)[i].key != w
    ensures Filter(OfWeapon(w), Selection(v, ps)) == []
  {
    NoGroupNoWeapon(v, ps, w);
    FlattenFilterNoneOf(OfWeapon(w), MapSeq(WeaponGodrolls(v), GroupByWeapon(ps)));
  }

  /** Selection is per weapon: the godrolls of weapon `w` are exactly
      `determine_godrolls` applied to the percentiles of `w`'s profiles. */
  lemma SelectionOfWeapon(v: Variant, ps: seq<Profile>, w: string)
    ensures Filter(OfWeapon(w), Selection(v, ps))
      == DetermineGodrolls(v, CalculatePercentiles(Filter(OfWeaponProfile(w), ps)))
  {
    var gs := GroupByWeapon(ps);
    assert Lookup(gs, w) == Filter(OfWeaponProfile(w), ps);
    if i :| 0 <= i < |gs| && gs[i].key == w {
      SelectionOfGroup(v, ps, i);
      LookupMember(gs, i);
    } else {
      SelectionOfAbsentWeapon(v, ps, w);
      LookupAbsent(gs, w);
      var none := DetermineGodrolls(v, CalculatePercentiles([]));
      assert |multiset(none)| == 0;
    }
  }

  /** The godrolls of weapon `w` in a run are `determine_godrolls` applied
      to the percentiles of that weapon's profiles: whatever qualifies is
      kept, up to `godroll_count`, highest median first. */
  lemma AggregateOfWeapon(v: Variant, listings: seq<Listing>, w: string)
    ensures Filter(OfWeapon(w), Aggregate(v, listings))
      == DetermineGodrolls(v, CalculatePercentiles(Filter(OfWeaponProfile(w), RunProfiles(v, listings))))
  {
    SelectionOfWeapon(v, RunProfiles(v, listings), w);
  }

  /** Every godroll of a run is a qualifying profile of the run, with its
      percentile added. */
  lemma AggregateFromProfile(v: Variant, listings: seq<Listing>, x: Godroll)
    requires x in Aggregate(v, listings)
    ensures x.percentile >= v.sampleThreshold
    ensures exists p :: p in RunProfiles(v, listings) && p.key == x.key && p.median == x.median && p.sampleCount == x.sampleCount
  {
    SelectionFromProfile(v, RunProfiles(v, listings), x);
  }

  /** Every selected godroll is a qualifying profile with its percentile
      added. */
  lemma SelectionFromProfile(v: Variant, ps: seq<Profile>, x: Godroll)
    requires x in Selection(v, ps)
    ensures x.percentile >= v.sampleThreshold
    ensures exists p :: p in ps && p.key == x.key && p.median == x.median && p.sampleCount == x.sampleCount
  {
    var xss := MapSeq(WeaponGodrolls(v), GroupByWeapon(ps));
    FlattenMember(xss, x);
    var i :| 0 <= i < |xss| && x in xss[i];
    WeaponGodrollFromProfile(v, ps, i, x);
  }

  /** A profile of a run counts the query rows with its key and takes the
      median of their prices. */
  lemma RunProfileFromRows(v: Variant, listings: seq<Listing>, p: Profile)
    requires p in RunProfiles(v, listings)
    ensures var prices := ValuesOf(KeyedPrices(v, QueryRows(v, listings)), p.key);
      && |prices| == p.sampleCount > 0
      && p.median == Median(prices)
  {
    var gs := BuildProfiles(v, QueryRows(v, listings));
    ProfileFromGroup(gs, p);
  }

  /** A profile built from price lists with distinct keys counts and takes
      the median of its own key's list. */
  lemma ProfileFromGroup(gs: seq<Group<Key, int>>, p: Profile)
    requires WellFormed(gs)
    requires p in AggregateProfiles(gs)
    ensures |Lookup(gs, p.key)| == p.sampleCount > 0
    ensures p.median == Median(Lookup(gs, p.key))
  {
    var k :| 0 <= k < |gs| && AggregateProfiles(gs)[k] == p;
    LookupMember(gs, k);
  }

  /** Every godroll of a run is a profile of the query rows: its sample count
      is the number of rows with its key, its median the median of their
      prices, and it meets the percentile threshold. */
  lemma AggregateFromRows(v: Variant, listings: seq<Listing>, x: Godroll)
    requires x in Aggregate(v, listings)
    ensures var prices := ValuesOf(KeyedPrices(v, QueryRows(v, listings)), x.key);
      && |prices| == x.sampleCount > 0
      && x.median == Median(prices)
      && x.percentile >= v.sampleThreshold
  {
    AggregateFromProfile(v, listings, x);
    var p :| p in RunProfiles(v, listings) && p.key == x.key && p.median == x.median && p.sampleCount == x.sampleCount;
    RunProfileFromRows(v, listings, p);
  }
}
