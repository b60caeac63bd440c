/** `src/monitor.py`: matching stored listings against the godrolls, with
    the set of already-alerted listing ids threaded through as explicit
    state, and the signed stat tokens of an alert. The root `monitor.py` runs
    the same matcher; it differs only in the inverted-stat names of the
    formatter. */
module Monitor {
  import opened Sequences
  import opened Sorting
  import opened Records
  import opened Strings
  import Normalizer
  import Aggregator
  import Config

  /** One found deal: the listing's own columns, its godroll's columns, and
      the discount against the godroll's median. */
  datatype Deal = Deal(
    id: string,
    weapon: string,
    stats: StatSlots,
    price: int,
    medianPrice: real,
    discountPct: real,
    seller: string,
    source: string,
    scrapedAt: int,
    sampleCount: nat,
    percentile: real)

  /** `LIMIT 10`. */
  const CandidateLimit: nat := 10

  /** The `WHERE` clause of the candidate query: the five key columns equal
      the godroll's, and `0 < price <= median * threshold`. */
  function Matches(g: Aggregator.Godroll, threshold: real): Listing -> bool {
    (l: Listing) => l.ProfileKey() == g.key && 0 < l.price && l.price as real <= g.median * threshold
  }

  /** `ORDER BY scraped_at DESC`: `a` may come before `b`. */
  predicate MoreRecent(a: Listing, b: Listing) {
    a.scrapedAt >= b.scrapedAt
  }

  lemma MoreRecentIsPreorder()
    ensures TotalPreorder(MoreRecent)
  {
  }

  /** The candidate query: the (at most ten) most recent matching listings,
      newest first. */
  function Candidates(g: Aggregator.Godroll, listings: seq<Listing>, threshold: real): (r: seq<Listing>)
    ensures |r| <= CandidateLimit
    ensures |Filter(Matches(g, threshold), listings)| <= CandidateLimit ==> |r| == |Filter(Matches(g, threshold), listings)|
    ensures |Filter(Matches(g, threshold), listings)| > CandidateLimit ==> |r| == CandidateLimit
    ensures forall i :: 0 <= i < |r| ==> Matches(g, threshold)(r[i]) && r[i] in listings
    ensures SortedBy(MoreRecent, r)
    ensures multiset(r) <= multiset(listings)
  {
    MoreRecentIsPreorder();
    var r := TopBy(MoreRecent, Filter(Matches(g, threshold), listings), CandidateLimit);
    SubMultisetOfFilter(Matches(g, threshold), listings, r);
    r
  }

  /** A matching listing the query leaves out is no more recent than any
      listing it returns. */
  lemma CandidatesMostRecent(g: Aggregator.Godroll, listings: seq<Listing>, threshold: real, x: Listing, y: Listing)
    requires x in multiset(Filter(Matches(g, threshold), listings)) - multiset(Candidates(g, listings, threshold))
    requires y in Candidates(g, listings, threshold)
    ensures y.scrapedAt >= x.scrapedAt
  {
    MoreRecentIsPreorder();
    TopByKeepsBest(MoreRecent, Filter(Matches(g, threshold), listings), CandidateLimit, x, y);
  }

  /** A matching listing's godroll has a non-zero median, so the discount
      is defined. */
  lemma MatchedMedianNonZero(g: Aggregator.Godroll, threshold: real, l: Listing)
    requires Matches(g, threshold)(l)
    ensures g.median != 0.0
  {
  }

  /** `discount_pct = ((median_price - price) / median_price) * 100`. */
  function Discount(median: real, price: int): real
    requires median != 0.0
  {
    ((median - price as real) / median) * 100.0
  }

  /** Multiplying by a positive factor keeps order. */
  lemma ScaleMonotone(a: real, b: real, m: real)
    requires m > 0.0 && a <= b
    ensures a * m <= b * m
  {
    assert b * m - a * m == (b - a) * m;
  }

  /** With a positive median and `0 < price <= median * threshold`, the
      discount is at least `(1 - threshold) * 100` and below 100. */
  lemma DiscountBounds(median: real, price: int, threshold: real)
    requires median > 0.0
    requires 0 < price && price as real <= median * threshold
    ensures (1.0 - threshold) * 100.0 <= Discount(median, price) < 100.0
  {
    var r := (median - price as real) / median;
    assert r * median == median - price as real;
    if r >= 1.0 {
      ScaleMonotone(1.0, r, median);
    }
    if r < 1.0 - threshold {
      ScaleMonotone(r, 1.0 - threshold, median);
      assert (1.0 - threshold) * median == median - threshold * median;
    }
  }

  /** The deal emitted for listing `l` under godroll `g`. */
  function MakeDeal(g: Aggregator.Godroll, l: Listing): (r: Deal)
    requires g.median != 0.0
    ensures CopiedFrom(r, g, l)
  {
    Deal(l.id, g.key.weapon, g.key.stats, l.price, g.median, Discount(g.median, l.price),
         l.seller, l.source, l.scrapedAt, g.sampleCount, g.percentile)
  }

  /** The inner loop: every candidate whose id was not alerted when the run
      began becomes a deal, in candidate order. */
  function DealsFrom(g: Aggregator.Godroll, cands: seq<Listing>, alerted: set<string>, threshold: real): (r: seq<Deal>)
    requires forall i :: 0 <= i < |cands| ==> Matches(g, threshold)(cands[i])
    requires |cands| > 0 ==> g.median != 0.0
    ensures |r| <= |cands|
    ensures forall i :: 0 <= i < |r| ==> r[i].id !in alerted
    ensures forall i :: 0 <= i < |r| ==> exists j :: 0 <= j < |cands| && r[i] == MakeDeal(g, cands[j])
    ensures forall j :: 0 <= j < |cands| && cands[j].id !in alerted ==> MakeDeal(g, cands[j]) in r
    decreases |cands|
  {
    if |cands| == 0 then []
    else
      var rest := DealsFrom(g, cands[1..], alerted, threshold);
      if cands[0].id in alerted then rest
      else [MakeDeal(g, cands[0])] + rest
  }

  /** The deals of one godroll. */
  function GodrollDeals(g: Aggregator.Godroll, listings: seq<Listing>, alerted: set<string>, threshold: real): (r: seq<Deal>)
    ensures |r| <= CandidateLimit
  {
    var cands := Candidates(g, listings, threshold);
    assert |cands| > 0 ==> g.median != 0.0 by {
      if |cands| > 0 {
        MatchedMedianNonZero(g, threshold, cands[0]);
      }
    }
    DealsFrom(g, cands, alerted, threshold)
  }

  function DealsOf(listings: seq<Listing>, alerted: set<string>, threshold: real): Aggregator.Godroll -> seq<Deal> {
    (g: Aggregator.Godroll) => GodrollDeals(g, listings, alerted, threshold)
  }

  /** The outer loop over the godrolls, deals concatenated in godroll order. */
  function AllDeals(godrolls: seq<Aggregator.Godroll>, listings: seq<Listing>, alerted: set<string>, threshold: real): seq<Deal> {
    Flatten(MapSeq(DealsOf(listings, alerted, threshold), godrolls))
  }

  /** A deal of the outer loop is a deal of one godroll. */
  lemma AllDealsOrigin(godrolls: seq<Aggregator.Godroll>, listings: seq<Listing>, alerted: set<string>, threshold: real, d: Deal)
    requires d in AllDeals(godrolls, listings, alerted, threshold)
    ensures exists i :: 0 <= i < |godrolls| && d in GodrollDeals(godrolls[i], listings, alerted, threshold)
  {
    FlattenMember(MapSeq(DealsOf(listings, alerted, threshold), godrolls), d);
  }

  /** No deal of a run was alerted at entry. */
  lemma AllDealsNotAlerted(godrolls: seq<Aggregator.Godroll>, listings: seq<Listing>, alerted: set<string>, threshold: real)
    ensures forall d :: d in AllDeals(godrolls, listings, alerted, threshold) ==> d.id !in alerted
  {
    forall d | d in AllDeals(godrolls, listings, alerted, threshold) ensures d.id !in alerted {
      AllDealsOrigin(godrolls, listings, alerted, threshold, d);
    }
  }

  function DealIds(deals: seq<Deal>): set<string> {
    set d | d in deals :: d.id
  }

  /** `find_deals`: the deals, and the alerted set after the run. The skip
      test reads the set as it was at entry. */
  function FindDeals(godrolls: seq<Aggregator.Godroll>, listings: seq<Listing>, alerted: set<string>, threshold: real): (r: (seq<Deal>, set<string>))
    ensures forall d :: d in r.0 ==> d.id !in alerted && d.id in r.1
    ensures alerted <= r.1
    ensures forall x :: x in r.1 ==> x in alerted || exists d :: d in r.0 && d.id == x
  {
    var deals := AllDeals(godrolls, listings, alerted, threshold);
    AllDealsNotAlerted(godrolls, listings, alerted, threshold);
    (deals, alerted + DealIds(deals))
  }

  /** Running again on the same data with the updated set finds none of the
      deals already reported. */
  lemma FindDealsRepeat(godrolls: seq<Aggregator.Godroll>, listings: seq<Listing>, alerted: set<string>, threshold: real)
    ensures var first := FindDeals(godrolls, listings, alerted, threshold);
      forall d, e :: d in first.0 && e in FindDeals(godrolls, listings, first.1, threshold).0 ==> d.id != e.id
  {
  }

  /** What a deal carries over: the listing's own columns, the godroll's
      key, median, sample count and percentile unchanged, and the discount
      of the listing's price against that median. */
  ghost predicate CopiedFrom(d: Deal, g: Aggregator.Godroll, l: Listing) {
    && g.median != 0.0
    && d.id == l.id && d.price == l.price && d.seller == l.seller && d.source == l.source && d.scrapedAt == l.scrapedAt
    && d.weapon == g.key.weapon && d.stats == g.key.stats
    && d.medianPrice == g.median && d.sampleCount == g.sampleCount && d.percentile == g.percentile
    && d.discountPct == Discount(g.median, l.price)
  }

  /** A deal of the inner loop copies one of the candidates. */
  lemma DealsFromOrigin(g: Aggregator.Godroll, cands: seq<Listing>, alerted: set<string>, threshold: real, d: Deal)
    requires forall i :: 0 <= i < |cands| ==> Matches(g, threshold)(cands[i])
    requires |cands| > 0 ==> g.median != 0.0
    requires d in DealsFrom(g, cands, alerted, threshold)
    ensures exists l :: l in cands && CopiedFrom(d, g, l)
  {
    var r := DealsFrom(g, cands, alerted, threshold);
    var k :| 0 <= k < |r| && r[k] == d;
    var j :| 0 <= j < |cands| && d == MakeDeal(g, cands[j]);
    assert cands[j] in cands;
  }

  /** Every deal comes from a godroll and one of its candidates, whose
      columns it copies. */
  lemma DealOrigin(godrolls: seq<Aggregator.Godroll>, listings: seq<Listing>, alerted: set<string>, threshold: real, d: Deal)
    requires d in AllDeals(godrolls, listings, alerted, threshold)
    ensures exists i, l :: 0 <= i < |godrolls| && l in Candidates(godrolls[i], listings, threshold) && CopiedFrom(d, godrolls[i], l)
  {
    AllDealsOrigin(godrolls, listings, alerted, threshold, d);
    var i :| 0 <= i < |godrolls| && d in GodrollDeals(godrolls[i], listings, alerted, threshold);
    var cands := Candidates(godrolls[i], listings, threshold);
    if |cands| > 0 {
      MatchedMedianNonZero(godrolls[i], threshold, cands[0]);
    }
    DealsFromOrigin(godrolls[i], cands, alerted, threshold, d);
  }

  /** Every candidate of every godroll whose id was not alerted at entry is
      reported. */
  lemma DealComplete(godrolls: seq<Aggregator.Godroll>, listings: seq<Listing>, alerted: set<string>, threshold: real, i: nat, l: Listing)
    requires i < |godrolls|
    requires l in Candidates(godrolls[i], listings, threshold)
    requires l.id !in alerted
    ensures godrolls[i].median != 0.0
    ensures MakeDeal(godrolls[i], l) in AllDeals(godrolls, listings, alerted, threshold)
  {
    var cands := Candidates(godrolls[i], listings, threshold);
    var j :| 0 <= j < |cands| && cands[j] == l;
    MatchedMedianNonZero(godrolls[i], threshold, l);
    assert MakeDeal(godrolls[i], l) in GodrollDeals(godrolls[i], listings, alerted, threshold);
    FlattenContains(MapSeq(DealsOf(listings, alerted, threshold), godrolls), i, MakeDeal(godrolls[i], l));
  }

  /** A copied deal of a matching listing has its discount in the deal-price
      window. */
  lemma CopiedDiscountBounds(d: Deal, g: Aggregator.Godroll, l: Listing, threshold: real)
    requires CopiedFrom(d, g, l) && Matches(g, threshold)(l)
    requires d.medianPrice > 0.0
    ensures (1.0 - threshold) * 100.0 <= d.discountPct < 100.0
  {
    DiscountBounds(g.median, l.price, threshold);
  }

  /** The deal-price window: a deal's discount lies in
      `[(1 - threshold) * 100, 100)` whenever its median is positive. */
  lemma DealDiscountBounds(godrolls: seq<Aggregator.Godroll>, listings: seq<Listing>, alerted: set<string>, threshold: real, d: Deal)
    requires d in FindDeals(godrolls, listings, alerted, threshold).0
    requires d.medianPrice > 0.0
    ensures (1.0 - threshold) * 100.0 <= d.discountPct < 100.0
  {
    DealOrigin(godrolls, listings, alerted, threshold, d);
    var i, l :| 0 <= i < |godrolls| && l in Candidates(godrolls[i], listings, threshold) && CopiedFrom(d, godrolls[i], l);
    CopiedDiscountBounds(d, godrolls[i], l, threshold);
  }

  /** A listing at 55 against a median of 100 is a deal at the default
      threshold, 45% below the median. */
  lemma DealAtFiftyFive(g: Aggregator.Godroll, l: Listing, alerted: set<string>)
    requires g.median == 100.0
    requires l.ProfileKey() == g.key && l.price == 55 && l.id !in alerted
    ensures MakeDeal(g, l) in FindDeals([g], [l], alerted, Config.DealThreshold).0
    ensures MakeDeal(g, l).discountPct == 45.0
  {
    assert Matches(g, Config.DealThreshold)(l);
    SoleCandidate(g, l, Config.DealThreshold);
    DealComplete([g], [l], alerted, Config.DealThreshold, 0, l);
    assert Discount(100.0, 55) == 45.0;
  }

  /** A single matching listing is its godroll's only candidate. */
  lemma SoleCandidate(g: Aggregator.Godroll, l: Listing, threshold: real)
    requires Matches(g, threshold)(l)
    ensures Candidates(g, [l], threshold) == [l]
  {
    assert [l][..0] == [];
    assert Filter(Matches(g, threshold), [l]) == [l];
  }

  /** Starvation: the alerted-skip runs after `LIMIT 10`, so when the ten
      newest matches were all alerted, an older unalerted match is never
      reported. */
  lemma StarvedMatch(g: Aggregator.Godroll, newer: seq<Listing>, stale: Listing, alerted: set<string>, threshold: real)
    requires |newer| == CandidateLimit
    requires forall i :: 0 <= i < |newer| ==> Matches(g, threshold)(newer[i]) && newer[i].id in alerted && newer[i].scrapedAt > stale.scrapedAt
    requires Matches(g, threshold)(stale) && stale.id !in alerted
    ensures GodrollDeals(g, newer + [stale], alerted, threshold) == []
  {
    var xs := newer + [stale];
    var top := TopBy(MoreRecent, xs, CandidateLimit);
    StarvedCandidates(g, newer, stale, threshold);
    StarvedTopAlerted(g, newer, stale, alerted, threshold);
    NoneUnalerted(g, top, alerted, threshold);
  }

  /** When every listing matches, the candidates are the ten newest. */
  lemma StarvedCandidates(g: Aggregator.Godroll, newer: seq<Listing>, stale: Listing, threshold: real)
    requires forall i :: 0 <= i < |newer| ==> Matches(g, threshold)(newer[i])
    requires Matches(g, threshold)(stale)
    ensures Candidates(g, newer + [stale], threshold) == TopBy(MoreRecent, newer + [stale], CandidateLimit)
  {
    FilterAll(Matches(g, threshold), newer + [stale]);
  }

  /** The ten newest of the starved listings are all alerted matches. */
  lemma StarvedTopAlerted(g: Aggregator.Godroll, newer: seq<Listing>, stale: Listing, alerted: set<string>, threshold: real)
    requires |newer| == CandidateLimit
    requires forall i :: 0 <= i < |newer| ==> Matches(g, threshold)(newer[i]) && newer[i].id in alerted && newer[i].scrapedAt > stale.scrapedAt
    ensures var top := TopBy(MoreRecent, newer + [stale], CandidateLimit);
      forall i :: 0 <= i < |top| ==> Matches(g, threshold)(top[i]) && top[i].id in alerted
  {
    MoreRecentIsPreorder();
    var top := TopBy(MoreRecent, newer + [stale], CandidateLimit);
    OldNotCandidate(newer, stale, top);
    TopAmongNewer(newer, stale, top);
  }

  /** Ten of the eleven candidates, without the stale one, are newer ones. */
  lemma TopAmongNewer(newer: seq<Listing>, stale: Listing, top: seq<Listing>)
    requires multiset(top) <= multiset(newer + [stale])
    requires stale !in top
    ensures forall j :: 0 <= j < |top| ==> top[j] in newer
  {
    forall j | 0 <= j < |top| ensures top[j] in newer {
      assert top[j] in multiset(top);
      assert top[j] in multiset(newer + [stale]);
    }
  }

  /** Candidates that were all alerted yield no deal. */
  lemma NoneUnalerted(g: Aggregator.Godroll, cands: seq<Listing>, alerted: set<string>, threshold: real)
    requires forall i :: 0 <= i < |cands| ==> Matches(g, threshold)(cands[i]) && cands[i].id in alerted
    requires |cands| > 0 ==> g.median != 0.0
    ensures DealsFrom(g, cands, alerted, threshold) == []
  {
  }

  /** The oldest of eleven listings with distinct, strictly older time is not
      among the ten newest. */
  lemma OldNotCandidate(newer: seq<Listing>, stale: Listing, top: seq<Listing>)
    requires |newer| == CandidateLimit
    requires forall i :: 0 <= i < |newer| ==> newer[i].scrapedAt > stale.scrapedAt
    requires top == TopBy(MoreRecent, newer + [stale], CandidateLimit)
    ensures stale !in top
  {
    MoreRecentIsPreorder();
    var xs := newer + [stale];
    var left := multiset(xs) - multiset(top);
    SubMultisetDifferenceSize(multiset(xs), multiset(top));
    assert |multiset(xs)| == |xs| == CandidateLimit + 1;
    assert |left| == 1;
    var x :| x in left;
    assert stale !in multiset(newer);
    if stale in top && x != stale {
      assert x in multiset(newer);
      TopByKeepsBest(MoreRecent, xs, CandidateLimit, x, stale);
    }
  }

  // ---------------------------------------------------------------------
  // Alert text

  /** The stats whose sign reads the other way round in `src/monitor.py`. */
  const Inverted: set<string> := {"reload_speed", "recoil"}

  function PositiveToken(inverted: set<string>): string -> string {
    (s: string) => (if s in inverted then "-" else "+") + s
  }

  function NegativeToken(inverted: set<string>, s: string): string {
    (if s in inverted then "+" else "-") + s
  }


  /** The stat a token names, without its sign. */
  function TokenName(t: string): string {
    if |t| == 0 then t else t[1..]
  }

  /** Whether a token reads as a penalty. */
  predicate IsMinus(t: string) {
    |t| > 0 && t[0] == '-'
  }

  /** Stripping the sign from the positive tokens gives back the names. */
  lemma PositiveTokenNames(inverted: set<string>, p: seq<string>)
    ensures MapSeq(TokenName, MapSeq(PositiveToken(inverted), p)) == p
  {
    var r := MapSeq(PositiveToken(inverted), p);
    forall i | 0 <= i < |p| ensures TokenName(r[i]) == p[i] {
      assert r[i] == PositiveToken(inverted)(p[i]);
    }
  }

  /** `format_riven_stats` up to the join: one token per filled slot; the
      tokens name the filled positives in slot order and then the negative;
      a token reads as a penalty exactly when it is the negative slot's
      token or names an inverted stat, but not both; every token is a `+`
      or a `-` followed by the stat's name. */
  function FormatRivenStats(stats: StatSlots, inverted: set<string>): (r: seq<string>)
    ensures var p := Normalizer.Present(stats.Positives());
      && |r| == |p| + (if stats.stat4 != "" then 1 else 0)
      && MapSeq(TokenName, r) == p + (if stats.stat4 != "" then [stats.stat4] else [])
      && (forall i :: 0 <= i < |r| ==> (IsMinus(r[i]) <==> ((i == |p|) != (TokenName(r[i]) in inverted))))
      && (forall i :: 0 <= i < |r| ==> r[i] == (if IsMinus(r[i]) then "-" else "+") + TokenName(r[i]))
  {
    var p := Normalizer.Present(stats.Positives());
    var tokens := MapSeq(PositiveToken(inverted), p);
    var negative := if stats.stat4 != "" then [NegativeToken(inverted, stats.stat4)] else [];
    PositiveTokenNames(inverted, p);
    MapAppend(TokenName, tokens, negative);
    tokens + negative
  }

  /** `" ".join(formatted)` over the tokens. */
  function StatsLine(stats: StatSlots, inverted: set<string>): string {
    Join(FormatRivenStats(stats, inverted), ' ')
  }

  /** When no stat name holds a space, the joined line splits back into the
      tokens. */
  lemma StatsLineSplits(stats: StatSlots, inverted: set<string>)
    requires ' ' !in stats.stat1 && ' ' !in stats.stat2 && ' ' !in stats.stat3 && ' ' !in stats.stat4
    requires |FormatRivenStats(stats, inverted)| > 0
    ensures Split(StatsLine(stats, inverted), ' ') == FormatRivenStats(stats, inverted)
  {
    var r := FormatRivenStats(stats, inverted);
    var p := Normalizer.Present(stats.Positives());
    forall i | 0 <= i < |r| ensures ' ' !in r[i] {
      if i < |p| {
        assert p[i] in p;
        FilterMember(Normalizer.Filled, stats.Positives(), p[i]);
        assert r[i] == PositiveToken(inverted)(p[i]);
      }
    }
    SplitJoin(r, ' ');
  }
}
