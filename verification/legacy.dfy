/** The older root revisions `aggregator.py` and `monitor.py`: the same
    pipeline with hard-coded cut-offs, no stat-name mapping, positives sorted
    while profiles are built, no per-seller deduplication, and the
    riven.market spelling of the inverted stats. */
module Legacy {
  import opened Sequences
  import opened Records
  import opened Grouping
  import Aggregator
  import Monitor
  import Normalizer
  import Config
  import Sorting
  import Strings

  /** `WHERE price > 0 AND price < 50000`, `r[7] >= 80`, `[:5]`, no dedup,
      `normalize_riven_stats` at read time. */
  const LegacyAggregator := Aggregator.Variant(50000, 80.0, 5, false, true)

  /** `find_deals(database, threshold=0.60)`. */
  const LegacyDealThreshold: real := 0.60

  /** The inverted stats of the root `format_riven_stats`. */
  const LegacyInverted: set<string> := {"Reload", "Recoil"}

  /** The legacy `normalize_riven_stats`: the key a row is counted under has
      its positives sorted and padded and its negative unchanged. */
  lemma LegacyReadKeySorted(k: Key)
    ensures var r := Aggregator.ReadKey(LegacyAggregator, k);
      && r.weapon == k.weapon
      && r.stats.stat4 == k.stats.stat4
      && Normalizer.PaddedRight(r.stats.Positives())
      && Sorting.SortedBy(Strings.LexLe, Normalizer.Present(r.stats.Positives()))
      && multiset(Normalizer.Present(r.stats.Positives())) == multiset(Normalizer.Present(k.stats.Positives()))
  {
  }

  /** The legacy profile key does not depend on the order of stat1..stat3. */
  lemma LegacyKeyPermutationInvariant(a: Key, b: Key)
    requires a.weapon == b.weapon && a.stats.stat4 == b.stats.stat4
    requires multiset(a.stats.Positives()) == multiset(b.stats.Positives())
    ensures Aggregator.ReadKey(LegacyAggregator, a) == Aggregator.ReadKey(LegacyAggregator, b)
  {
    Normalizer.SortPositiveStatsPermutationInvariant(a.stats, b.stats);
  }

  /** Without deduplication every in-range listing is one sample: its
      price is collected under its read-time key, and there are as many
      samples as in-range listings. */
  lemma LegacyCountsEveryListing(listings: seq<Listing>)
    ensures var rows := Aggregator.QueryRows(LegacyAggregator, listings);
      TotalSize(Aggregator.BuildProfiles(LegacyAggregator, rows)) == |Aggregator.InRangeListings(50000, listings)|
    ensures var profiles := Aggregator.BuildProfiles(LegacyAggregator, Aggregator.QueryRows(LegacyAggregator, listings));
      forall l :: l in listings && Aggregator.InRange(50000)(l) ==>
        l.price in Lookup(profiles, Aggregator.ReadKey(LegacyAggregator, l.ProfileKey()))
  {
    var profiles := Aggregator.BuildProfiles(LegacyAggregator, Aggregator.QueryRows(LegacyAggregator, listings));
    forall l | l in listings && Aggregator.InRange(50000)(l)
      ensures l.price in Lookup(profiles, Aggregator.ReadKey(LegacyAggregator, l.ProfileKey()))
    {
      Aggregator.ListingCollected(LegacyAggregator, listings, l);
    }
  }

  /** Two listings of one seller and profile: the current query keeps the
      cheaper one, the legacy query keeps both. */
  lemma DedupDiffers(a: Listing, b: Listing)
    requires a.seller == b.seller && a.ProfileKey() == b.ProfileKey()
    requires a.price == 100 && b.price == 80
    ensures Aggregator.QueryRows(Aggregator.Current, [a, b]) == [Aggregator.Row(a.ProfileKey(), 80)]
    ensures Aggregator.QueryRows(LegacyAggregator, [a, b]) == [Aggregator.Row(a.ProfileKey(), 100), Aggregator.Row(b.ProfileKey(), 80)]
  {
    Aggregator.SellerMinimaExample(a, b);
    var inRange := Aggregator.InRangeListings(50000, [a, b]);
    assert [a, b][..1] == [a];
    assert Filter(Aggregator.InRange(50000), [a]) == [a] by {
      assert [a][..0] == [];
    }
    assert inRange == [a, b];
  }

  /** `get_top_rolls`: at most five rolls, each at or above the 80th
      percentile. */
  lemma LegacyTopRolls(gs: seq<Aggregator.Godroll>)
    ensures |Aggregator.DetermineGodrolls(LegacyAggregator, gs)| <= 5
    ensures forall g :: g in Aggregator.DetermineGodrolls(LegacyAggregator, gs) ==> g.percentile >= 80.0
  {
  }

  /** The two revisions differ only in how profiles are built: from the
      same profiles they select the same godrolls. */
  lemma SameSelection(ps: seq<Aggregator.Profile>)
    ensures Aggregator.Selection(Aggregator.Current, ps) == Aggregator.Selection(LegacyAggregator, ps)
  {
    var gs := Aggregator.GroupByWeapon(ps);
    assert MapSeq(Aggregator.WeaponGodrolls(Aggregator.Current), gs) == MapSeq(Aggregator.WeaponGodrolls(LegacyAggregator), gs);
  }

  /** At the default threshold every legacy deal is at least 40% below its
      median. */
  lemma LegacyDealDiscount(godrolls: seq<Aggregator.Godroll>, listings: seq<Listing>, alerted: set<string>, d: Monitor.Deal)
    requires d in Monitor.FindDeals(godrolls, listings, alerted, LegacyDealThreshold).0
    requires d.medianPrice > 0.0
    ensures 40.0 <= d.discountPct < 100.0
  {
    Monitor.DealDiscountBounds(godrolls, listings, alerted, LegacyDealThreshold, d);
  }

  /** Slots whose first filled positives are followed only by empty ones
      present exactly those. */
  lemma PresentPrefix(filled: seq<string>, empty: seq<string>)
    requires forall i :: 0 <= i < |filled| ==> filled[i] != ""
    requires forall i :: 0 <= i < |empty| ==> empty[i] == ""
    ensures Normalizer.Present(filled + empty) == filled
  {
    FilterAppend(Normalizer.Filled, filled, empty);
    FilterAll(Normalizer.Filled, filled);
    FilterNone(Normalizer.Filled, empty);
  }

  /** The tokens of a riven.market roll with an inverted positive and an
      inverted negative. */
  lemma LegacyTokensExample()
    ensures Monitor.FormatRivenStats(StatSlots("Damage", "Reload", "", "Recoil"), LegacyInverted) == ["+Damage", "-Reload", "+Recoil"]
  {
    var stats := StatSlots("Damage", "Reload", "", "Recoil");
    assert stats.Positives() == ["Damage", "Reload"] + [""];
    PresentPrefix(["Damage", "Reload"], [""]);
    assert "Damage" !in LegacyInverted;
    assert "+" + "Damage" == "+Damage";
    assert "-" + "Reload" == "-Reload";
    assert "+" + "Recoil" == "+Recoil";
    var positives := MapSeq(Monitor.PositiveToken(LegacyInverted), ["Damage", "Reload"]);
    assert positives[0] == "+Damage" && positives[1] == "-Reload";
    assert positives == ["+Damage", "-Reload"];
  }

  /** The legacy inverted names are not the canonical ones: the current
      formatter signs a riven.market `Reload` as an ordinary stat. */
  lemma InvertedSetsDiffer()
    ensures Monitor.FormatRivenStats(StatSlots("Reload", "", "", ""), LegacyInverted) == ["-Reload"]
    ensures Monitor.FormatRivenStats(StatSlots("Reload", "", "", ""), Monitor.Inverted) == ["+Reload"]
  {
    var stats := StatSlots("Reload", "", "", "");
    assert stats.Positives() == ["Reload"] + ["", ""];
    PresentPrefix(["Reload"], ["", ""]);
    assert "Reload" !in Monitor.Inverted;
    assert "+" + "Reload" == "+Reload";
    assert "-" + "Reload" == "-Reload";
    var current := MapSeq(Monitor.PositiveToken(Monitor.Inverted), ["Reload"]);
    var legacy := MapSeq(Monitor.PositiveToken(LegacyInverted), ["Reload"]);
    assert current[0] == "+Reload" && legacy[0] == "-Reload";
    assert current == ["+Reload"] && legacy == ["-Reload"];
  }
}
