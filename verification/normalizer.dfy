/** `src/normalizer.py`: turning the stat tokens of either marketplace into
    one canonical vocabulary, and into an order-independent profile key. */
module Normalizer {
  import opened Wrappers
  import opened Sequences
  import opened Sorting
  import opened Strings
  import opened Records

  const RivenMarket := "riven.market"
  const WarframeMarket := "warframe.market"

  const CanonicalStats: set<string> := {
    "ammo_max", "cold", "combo_count_chance", "combo_duration", "corpus_damage",
    "crit_chance", "crit_damage", "damage", "electric", "finisher", "fire_rate",
    "grineer_damage", "heat", "heavy_efficiency", "impact", "infested_damage",
    "initial_combo", "magazine", "multishot", "projectile_speed", "punch_through",
    "puncture", "range", "recoil", "reload_speed", "slash", "slide_crit_chance",
    "status_chance", "status_duration", "toxin", "zoom"
  }

  const RivenMarketToCanonical: map<string, string> := map[
    "Ammo" := "ammo_max",
    "ComboGainExtra" := "combo_count_chance",
    "Corpus" := "corpus_damage",
    "Grineer" := "grineer_damage",
    "Infested" := "infested_damage",
    "Cold" := "cold",
    "Combo" := "combo_duration",
    "CritChance" := "crit_chance",
    "Slide" := "slide_crit_chance",
    "CritDmg" := "crit_damage",
    "Damage" := "damage",
    "Electric" := "electric",
    "Heat" := "heat",
    "Finisher" := "finisher",
    "Speed" := "fire_rate",
    "Flight" := "projectile_speed",
    "InitC" := "initial_combo",
    "Impact" := "impact",
    "Magazine" := "magazine",
    "ComboEfficiency" := "heavy_efficiency",
    "Multi" := "multishot",
    "Toxin" := "toxin",
    "Punch" := "punch_through",
    "Puncture" := "puncture",
    "Reload" := "reload_speed",
    "Range" := "range",
    "Slash" := "slash",
    "StatusC" := "status_chance",
    "StatusD" := "status_duration",
    "Recoil" := "recoil",
    "Zoom" := "zoom"
  ]

  const WarframeMarketToCanonical: map<string, string> := map[
    "ammo_maximum" := "ammo_max",
    "chance_to_gain_extra_combo_count" := "combo_count_chance",
    "chance_to_gain_combo_count" := "combo_count_chance",
    "damage_vs_corpus" := "corpus_damage",
    "damage_vs_grineer" := "grineer_damage",
    "damage_vs_infested" := "infested_damage",
    "cold_damage" := "cold",
    "combo_duration" := "combo_duration",
    "critical_chance" := "crit_chance",
    "critical_chance_on_slide_attack" := "slide_crit_chance",
    "critical_damage" := "crit_damage",
    "base_damage_/_melee_damage" := "damage",
    "electric_damage" := "electric",
    "heat_damage" := "heat",
    "finisher_damage" := "finisher",
    "fire_rate_/_attack_speed" := "fire_rate",
    "projectile_speed" := "projectile_speed",
    "channeling_damage" := "initial_combo",
    "impact_damage" := "impact",
    "magazine_capacity" := "magazine",
    "channeling_efficiency" := "heavy_efficiency",
    "multishot" := "multishot",
    "toxin_damage" := "toxin",
    "punch_through" := "punch_through",
    "puncture_damage" := "puncture",
    "reload_speed" := "reload_speed",
    "range" := "range",
    "slash_damage" := "slash",
    "status_chance" := "status_chance",
    "status_duration" := "status_duration",
    "recoil" := "recoil",
    "zoom" := "zoom"
  ]

  /** The three tables the normalizer consults: the canonical vocabulary and
      one dictionary per marketplace. The operations below are stated over any
      well-formed tables; `Shipped` holds the module's own constants. */
  datatype StatTables = StatTables(
    canonical: set<string>,
    rivenMarket: map<string, string>,
    warframeMarket: map<string, string>)

  const Shipped := StatTables(CanonicalStats, RivenMarketToCanonical, WarframeMarketToCanonical)

  /** No canonical name is empty, and every dictionary maps into the
      vocabulary. */
  ghost predicate ValidTables(t: StatTables) {
    && "" !in t.canonical
    && (forall k :: k in t.rivenMarket ==> t.rivenMarket[k] in t.canonical)
    && (forall k :: k in t.warframeMarket ==> t.warframeMarket[k] in t.canonical)
  }

  /** The shipped dictionaries only produce canonical names. */
  lemma ShippedTablesValid()
    ensures ValidTables(Shipped)
  {
  }

  /** The warframe.market dictionary is not injective: two tokens name the
      same canonical stat, so normalization cannot be inverted. */
  lemma WarframeMarketNotInjective()
    ensures var a, b := "chance_to_gain_extra_combo_count", "chance_to_gain_combo_count";
      && a != b && a in WarframeMarketToCanonical && b in WarframeMarketToCanonical
      && WarframeMarketToCanonical[a] == WarframeMarketToCanonical[b] == "combo_count_chance"
  {
  }

  /** The dictionary of a source; an unknown source has none. */
  function SourceMap(t: StatTables, source: string): map<string, string> {
    if source == RivenMarket then t.rivenMarket
    else if source == WarframeMarket then t.warframeMarket
    else map[]
  }

  /** `normalize_stat_name`: the canonical name of a token, looked up in the
      dictionary of its own source only. */
  function NormalizeStatName(t: StatTables, stat: string, source: string): (r: Option<string>)
    requires ValidTables(t)
    ensures source != RivenMarket && source != WarframeMarket ==> r == None
    ensures r.Some? <==> stat in SourceMap(t, source)
    ensures r.Some? ==> r.value == SourceMap(t, source)[stat]
    ensures r.Some? ==> r.value in t.canonical && r.value != ""
  {
    if source == RivenMarket then
      if stat in t.rivenMarket then Some(t.rivenMarket[stat]) else None
    else if source == WarframeMarket then
      if stat in t.warframeMarket then Some(t.warframeMarket[stat]) else None
    else None
  }

  /** A slot is filled when it is not the empty string. */
  predicate Filled(stat: string) {
    stat != ""
  }

  /** The filled slots of a list of slots, in order. */
  function Present(stats: seq<string>): seq<string> {
    Filter(Filled, stats)
  }

  /** One slot normalizes: empty, or a token of the source's dictionary. */
  ghost predicate SlotMaps(t: StatTables, stat: string, source: string) {
    stat == "" || stat in SourceMap(t, source)
  }

  /** `raw` normalizes to `canonical`. */
  ghost predicate SlotMapsTo(t: StatTables, raw: string, canonical: string, source: string) {
    if raw == "" then canonical == ""
    else raw in SourceMap(t, source) && SourceMap(t, source)[raw] == canonical
  }

  ghost predicate AllSlotsMap(t: StatTables, stats: StatSlots, source: string) {
    && SlotMaps(t, stats.stat1, source) && SlotMaps(t, stats.stat2, source)
    && SlotMaps(t, stats.stat3, source) && SlotMaps(t, stats.stat4, source)
  }

  /** The canonical name of one slot, with empty passing through. */
  function NormalizeSlot(t: StatTables, stat: string, source: string): (r: Option<string>)
    requires ValidTables(t)
    ensures r.Some? <==> SlotMaps(t, stat, source)
    ensures r.Some? ==> SlotMapsTo(t, stat, r.value, source)
  {
    if stat == "" then Some("") else NormalizeStatName(t, stat, source)
  }

  /** `normalize_riven_stats`: every slot mapped through the source's
      dictionary; one unmapped token rejects the whole record. */
  function NormalizeRivenStats(t: StatTables, stats: StatSlots, source: string): (r: Option<StatSlots>)
    requires ValidTables(t)
    ensures r.Some? <==> AllSlotsMap(t, stats, source)
    ensures r.Some? ==>
      && SlotMapsTo(t, stats.stat1, r.value.stat1, source)
      && SlotMapsTo(t, stats.stat2, r.value.stat2, source)
      && SlotMapsTo(t, stats.stat3, r.value.stat3, source)
      && SlotMapsTo(t, stats.stat4, r.value.stat4, source)
  {
    var s1 :- NormalizeSlot(t, stats.stat1, source);
    var s2 :- NormalizeSlot(t, stats.stat2, source);
    var s3 :- NormalizeSlot(t, stats.stat3, source);
    var s4 :- NormalizeSlot(t, stats.stat4, source);
    Some(StatSlots(s1, s2, s3, s4))
  }

  /** Empty slots come after every filled one. */
  ghost predicate PaddedRight(xs: seq<string>) {
    forall i, j :: 0 <= i < j < |xs| && xs[i] == "" ==> xs[j] == ""
  }

  /** Python's `while len(xs) < n: xs.append("")`. */
  function PadRight(xs: seq<string>, n: nat): (r: seq<string>)
    requires |xs| <= n
    ensures |r| == n
    ensures r[..|xs|] == xs
    ensures forall i :: |xs| <= i < n ==> r[i] == ""
  {
    xs + seq(n - |xs|, _ => "")
  }

  /** Padding a list of filled slots keeps them in front, and filtering the
      padding away gives them back. */
  lemma PadRightFilled(xs: seq<string>, n: nat)
    requires |xs| <= n
    requires forall i :: 0 <= i < |xs| ==> xs[i] != ""
    ensures PaddedRight(PadRight(xs, n))
    ensures Present(PadRight(xs, n)) == xs
  {
    var padded := PadRight(xs, n);
    var pad := padded[|xs|..];
    assert padded == xs + pad;
    assert forall i :: 0 <= i < |pad| ==> !Filled(pad[i]) by {
      forall i | 0 <= i < |pad| ensures !Filled(pad[i]) {
        assert pad[i] == padded[|xs| + i];
      }
    }
    forall i, j | 0 <= i < j < |padded| && padded[i] == ""
      ensures padded[j] == ""
    {
    }
    FilterAppend(Filled, xs, pad);
    FilterAll(Filled, xs);
    FilterNone(Filled, pad);
  }

  /** `sort_positive_stats`: the filled positive slots in ascending order,
      then empty padding; the negative slot passes through. */
  function SortPositiveStats(stats: StatSlots): (r: StatSlots)
    ensures r.stat4 == stats.stat4
    ensures PaddedRight(r.Positives())
    ensures SortedBy(LexLe, Present(r.Positives()))
    ensures multiset(Present(r.Positives())) == multiset(Present(stats.Positives()))
  {
    var sorted := SortStrings(Present(stats.Positives()));
    var padded := PadRight(sorted, 3);
    var r := StatSlots(padded[0], padded[1], padded[2], stats.stat4);
    assert r.Positives() == padded;
    assert forall i :: 0 <= i < |sorted| ==> sorted[i] != "" by {
      forall i | 0 <= i < |sorted| ensures sorted[i] != "" {
        assert sorted[i] in multiset(sorted);
        FilterMember(Filled, stats.Positives(), sorted[i]);
      }
    }
    PadRightFilled(sorted, 3);
    r
  }

  /** Sorting invents no stat: a filled sorted slot was a filled slot. */
  lemma SortPositiveStatsMember(stats: StatSlots, s: string)
    requires s in SortPositiveStats(stats).Positives() && s != ""
    ensures s in stats.Positives()
  {
    var r := SortPositiveStats(stats);
    FilterMember(Filled, r.Positives(), s);
    assert s in multiset(Present(stats.Positives()));
    FilterMember(Filled, stats.Positives(), s);
  }

  /** The sorted key depends only on the multiset of filled positives and on
      the negative slot. */
  lemma SortPositiveStatsCanonical(a: StatSlots, b: StatSlots)
    requires multiset(Present(a.Positives())) == multiset(Present(b.Positives()))
    requires a.stat4 == b.stat4
    ensures SortPositiveStats(a) == SortPositiveStats(b)
  {
    SortStringsCanonical(Present(a.Positives()), Present(b.Positives()));
  }

  /** Sorting an already sorted key changes nothing. */
  lemma SortPositiveStatsIdempotent(stats: StatSlots)
    ensures SortPositiveStats(SortPositiveStats(stats)) == SortPositiveStats(stats)
  {
    SortPositiveStatsCanonical(SortPositiveStats(stats), stats);
  }

  /** Reordering the three positive slots does not change the sorted key. */
  lemma SortPositiveStatsPermutationInvariant(a: StatSlots, b: StatSlots)
    requires multiset(a.Positives()) == multiset(b.Positives())
    requires a.stat4 == b.stat4
    ensures SortPositiveStats(a) == SortPositiveStats(b)
  {
    FilterPreservesPermutation(Filled, a.Positives(), b.Positives());
    SortPositiveStatsCanonical(a, b);
  }

  /** `normalize`: name mapping, then positive sorting. */
  function Normalize(t: StatTables, stats: StatSlots, source: string): (r: Option<StatSlots>)
    requires ValidTables(t)
    ensures r.Some? <==> AllSlotsMap(t, stats, source)
    ensures r.Some? ==> PaddedRight(r.value.Positives())
    ensures r.Some? ==> SortedBy(LexLe, Present(r.value.Positives()))
    ensures r.Some? ==> SlotMapsTo(t, stats.stat4, r.value.stat4, source)
    ensures r.Some? ==> multiset(Present(r.value.Positives())) == multiset(Present(MapSeq(SlotValue(t, source), stats.Positives())))
  {
    var mapped :- NormalizeRivenStats(t, stats, source);
    NormalizeRivenStatsSlotwise(t, stats, source);
    Some(SortPositiveStats(mapped))
  }

  /** The slot normalization as a total function (an unmapped token is
      sent to `""`; only used where every slot maps). */
  function SlotValue(t: StatTables, source: string): string -> string
    requires ValidTables(t)
  {
    s => match NormalizeSlot(t, s, source) case Some(v) => v case None => ""
  }

  /** A mapped slot is empty exactly when the raw slot is, and otherwise
      canonical. */
  lemma SlotValueCanonical(t: StatTables, source: string, s: string)
    requires ValidTables(t)
    requires SlotMaps(t, s, source)
    ensures SlotValue(t, source)(s) == "" <==> s == ""
    ensures SlotValue(t, source)(s) in t.canonical + {""}
  {
  }

  /** `normalize_riven_stats` applies the slot normalization slot by slot. */
  lemma NormalizeRivenStatsSlotwise(t: StatTables, stats: StatSlots, source: string)
    requires ValidTables(t)
    requires AllSlotsMap(t, stats, source)
    ensures NormalizeRivenStats(t, stats, source).value.Positives() == MapSeq(SlotValue(t, source), stats.Positives())
    ensures NormalizeRivenStats(t, stats, source).value.stat4 == SlotValue(t, source)(stats.stat4)
  {
  }

  /** Every filled slot after slot mapping is a canonical stat. */
  lemma MappedIsCanonical(t: StatTables, stats: StatSlots, source: string)
    requires ValidTables(t)
    requires AllSlotsMap(t, stats, source)
    ensures forall i :: 0 <= i < 3 ==> Filled(NormalizeRivenStats(t, stats, source).value.Positives()[i]) ==>
      NormalizeRivenStats(t, stats, source).value.Positives()[i] in t.canonical
    ensures NormalizeRivenStats(t, stats, source).value.stat4 in t.canonical + {""}
  {
    NormalizeRivenStatsSlotwise(t, stats, source);
    SlotValueCanonical(t, source, stats.stat4);
    forall i | 0 <= i < 3 {
      SlotValueCanonical(t, source, stats.Positives()[i]);
    }
  }

  /** Every filled slot of a normalized key is a canonical stat. */
  lemma NormalizeIsCanonical(t: StatTables, stats: StatSlots, source: string)
    requires ValidTables(t)
    requires Normalize(t, stats, source).Some?
    ensures forall s :: s in Normalize(t, stats, source).value.Positives() && s != "" ==> s in t.canonical
    ensures Normalize(t, stats, source).value.stat4 in t.canonical + {""}
  {
    var mapped := NormalizeRivenStats(t, stats, source).value;
    MappedIsCanonical(t, stats, source);
    forall s | s in Normalize(t, stats, source).value.Positives() && s != ""
      ensures s in t.canonical
    {
      SortPositiveStatsMember(mapped, s);
      var i :| 0 <= i < 3 && mapped.Positives()[i] == s;
    }
  }

  /** Mapping the slots keeps exactly the filled ones filled. */
  lemma {:induction false} MappedKeepsPositiveCount(t: StatTables, stats: StatSlots, source: string)
    requires ValidTables(t)
    requires AllSlotsMap(t, stats, source)
    ensures |Present(NormalizeRivenStats(t, stats, source).value.Positives())| == |Present(stats.Positives())|
  {
    NormalizeRivenStatsSlotwise(t, stats, source);
    var raw := stats.Positives();
    forall i | 0 <= i < 3 ensures Filled(SlotValue(t, source)(raw[i])) <==> Filled(raw[i]) {
      SlotValueCanonical(t, source, raw[i]);
    }
    FilterMapLength(Filled, Filled, SlotValue(t, source), raw);
  }

  /** No positive stat is lost or invented by normalization. */
  lemma NormalizeKeepsPositiveCount(t: StatTables, stats: StatSlots, source: string)
    requires ValidTables(t)
    requires Normalize(t, stats, source).Some?
    ensures |Present(Normalize(t, stats, source).value.Positives())| == |Present(stats.Positives())|
  {
    var mapped := NormalizeRivenStats(t, stats, source).value;
    MappedKeepsPositiveCount(t, stats, source);
    var r := SortPositiveStats(mapped);
    assert multiset(Present(r.Positives())) == multiset(Present(mapped.Positives()));
    assert |Present(r.Positives())| == |multiset(Present(r.Positives()))|;
    assert |Present(mapped.Positives())| == |multiset(Present(mapped.Positives()))|;
  }

  /** Whether every slot maps does not depend on the order of the positives. */
  lemma AllSlotsMapPermutation(t: StatTables, a: StatSlots, b: StatSlots, source: string)
    requires multiset(a.Positives()) == multiset(b.Positives())
    requires a.stat4 == b.stat4
    ensures AllSlotsMap(t, a, source) <==> AllSlotsMap(t, b, source)
  {
    PositivesAmong(a, b);
    PositivesAmong(b, a);
  }

  /** Each positive of `a` is a positive of any reordering `b`. */
  lemma PositivesAmong(a: StatSlots, b: StatSlots)
    requires multiset(a.Positives()) == multiset(b.Positives())
    ensures a.stat1 in b.Positives() && a.stat2 in b.Positives() && a.stat3 in b.Positives()
  {
    var ms := multiset(b.Positives());
    assert a.Positives() == [a.stat1, a.stat2, a.stat3];
    assert a.stat1 in multiset(a.Positives()) && a.stat2 in multiset(a.Positives()) && a.stat3 in multiset(a.Positives());
    assert a.stat1 in ms && a.stat2 in ms && a.stat3 in ms;
  }

  /** Mapping two orderings of the positives gives two orderings of the
      mapped positives. */
  lemma NormalizeRivenStatsPermutation(t: StatTables, a: StatSlots, b: StatSlots, source: string)
    requires ValidTables(t)
    requires AllSlotsMap(t, a, source) && AllSlotsMap(t, b, source)
    requires multiset(a.Positives()) == multiset(b.Positives())
    requires a.stat4 == b.stat4
    ensures multiset(NormalizeRivenStats(t, a, source).value.Positives())
         == multiset(NormalizeRivenStats(t, b, source).value.Positives())
    ensures NormalizeRivenStats(t, a, source).value.stat4 == NormalizeRivenStats(t, b, source).value.stat4
  {
    NormalizeRivenStatsSlotwise(t, a, source);
    NormalizeRivenStatsSlotwise(t, b, source);
    MapPreservesPermutation(SlotValue(t, source), a.Positives(), b.Positives());
  }

  /** `normalize` gives the same key for any order of `stat1..stat3`. */
  lemma NormalizePermutationInvariant(t: StatTables, a: StatSlots, b: StatSlots, source: string)
    requires ValidTables(t)
    requires multiset(a.Positives()) == multiset(b.Positives())
    requires a.stat4 == b.stat4
    ensures Normalize(t, a, source) == Normalize(t, b, source)
  {
    AllSlotsMapPermutation(t, a, b, source);
    if AllSlotsMap(t, a, source) {
      NormalizeRivenStatsPermutation(t, a, b, source);
      SortPositiveStatsPermutationInvariant(
        NormalizeRivenStats(t, a, source).value, NormalizeRivenStats(t, b, source).value);
    }
  }
}
