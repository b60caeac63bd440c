/** `src/poller.py`: turning decoded warframe.market auctions into flat
    riven records, and the insert step that skips known ids and records whose
    stats do not normalize. The HTTP fetch and the sqlite cursor are not
    modelled: auctions arrive as values, the table is a map from id to row,
    and the clock is a sequence of readings. */
module Poller {
  import opened Wrappers
  import opened Sequences
  import opened Records
  import Normalizer
  import Sorting
  import Strings

  // ---------------------------------------------------------------------
  // Decoded auctions

  /** A member of a decoded JSON object: absent, present as `null`, or
      present with a value. */
  datatype Field<T> = Absent | Null | Value(value: T)

  datatype Attribute = Attribute(positive: Field<bool>, urlName: Option<string>)

  datatype Item = Item(kind: Option<string>, weaponUrlName: Option<string>, attributes: Option<seq<Attribute>>)

  datatype Owner = Owner(ingameName: Option<string>)

  datatype Auction = Auction(
    id: string,
    isDirectSell: Option<bool>,
    item: Option<Item>,
    owner: Option<Owner>,
    buyoutPrice: Field<int>)

  /** The `riven` dictionary built for one auction. Its price is `None` when
      the auction's `buyout_price` is JSON `null`. */
  datatype Riven = Riven(
    id: string,
    seller: string,
    source: string,
    weapon: string,
    stats: StatSlots,
    price: Option<int>,
    scrapedAt: int)

  function OrElse<T>(o: Option<T>, default: T): T {
    if o.Some? then o.value else default
  }

  /** `listing.get("is_direct_sell", False)` and
      `listing.get("item", {}).get("type") == "riven"`. */
  predicate Kept(a: Auction) {
    && OrElse(a.isDirectSell, false)
    && a.item.Some? && a.item.value.kind == Some("riven")
  }

  /** The truth of `attribute.get("positive", True)`: an attribute without
      the field is positive, one whose field is `null` is negative. */
  predicate IsPositive(at: Attribute) {
    match at.positive
    case Absent => true
    case Null => false
    case Value(b) => b
  }

  function UrlName(at: Attribute): string {
    OrElse(at.urlName, "")
  }

  function ItemOf(a: Auction): Item {
    OrElse(a.item, Item(None, None, None))
  }

  function AttributesOf(a: Auction): seq<Attribute> {
    OrElse(ItemOf(a).attributes, [])
  }

  /** The url names of the positive attributes, in input order. */
  function PositiveNames(attrs: seq<Attribute>): (r: seq<string>)
    ensures |r| <= |attrs|
  {
    MapSeq(UrlName, Filter(IsPositive, attrs))
  }

  /** The url name of the last negative attribute, if any. */
  function LastNegative(attrs: seq<Attribute>): Option<string>
    decreases |attrs|
  {
    if |attrs| == 0 then None
    else if !IsPositive(attrs[|attrs| - 1]) then Some(UrlName(attrs[|attrs| - 1]))
    else LastNegative(attrs[..|attrs| - 1])
  }

  /** `positives[i] if len(positives) > i else ""`. */
  function Slot(names: seq<string>, i: nat): string {
    if |names| > i then names[i] else ""
  }

  /** `negative if negative else ""`. */
  function NegativeSlot(negative: Option<string>): string {
    if negative.Some? && negative.value != "" then negative.value else ""
  }

  /** `listing.get("buyout_price", 0)`: 0 when the field is absent, `None`
      when it is `null`. */
  function PriceOf(b: Field<int>): Option<int> {
    match b
    case Absent => Some(0)
    case Null => None
    case Value(n) => Some(n)
  }

  /** The `wm_` prefix: stripping it gives back the auction id. */
  function StripPrefix(id: string): Option<string> {
    if |id| >= 3 && id[..3] == "wm_" then Some(id[3..]) else None
  }

  /** The three positive slots are the first three names, padded with `""`;
      further names are dropped. */
  lemma PaddedSlots(p: seq<string>)
    ensures [Slot(p, 0), Slot(p, 1), Slot(p, 2)] == Normalizer.PadRight(Take(p, 3), 3)
  {
    var padded := Normalizer.PadRight(Take(p, 3), 3);
    forall k | 0 <= k < 3 ensures Slot(p, k) == padded[k] {
      if k < |Take(p, 3)| {
        assert padded[..|Take(p, 3)|][k] == padded[k];
      }
    }
  }

  /** The riven record built from one auction and the clock reading taken
      when the loop reached it: it names the auction, comes from
      warframe.market, takes seller and weapon from the auction (`""` when
      missing), keeps the first three positive url names, takes the buyout
      price (0 when absent, `None` when `null`) and carries the reading as
      its timestamp. */
  function ToRiven(entry: (Auction, int)): (r: Riven)
    ensures StripPrefix(r.id) == Some(entry.0.id)
    ensures r.source == Normalizer.WarframeMarket
    ensures r.stats.Positives() == Normalizer.PadRight(Take(PositiveNames(AttributesOf(entry.0)), 3), 3)
    ensures r.price.None? <==> entry.0.buyoutPrice.Null?
    ensures entry.0.buyoutPrice.Absent? ==> r.price == Some(0)
    ensures entry.0.buyoutPrice.Value? ==> r.price == Some(entry.0.buyoutPrice.value)
    ensures entry.0.owner.Some? && entry.0.owner.value.ingameName.Some? ==> r.seller == entry.0.owner.value.ingameName.value
    ensures entry.0.owner.None? || entry.0.owner.value.ingameName.None? ==> r.seller == ""
    ensures entry.0.item.Some? && entry.0.item.value.weaponUrlName.Some? ==> r.weapon == entry.0.item.value.weaponUrlName.value
    ensures entry.0.item.None? || entry.0.item.value.weaponUrlName.None? ==> r.weapon == ""
    ensures r.scrapedAt == entry.1
  {
    var a := entry.0;
    var attrs := AttributesOf(a);
    var p := PositiveNames(attrs);
    PaddedSlots(p);
    var id := "wm_" + a.id;
    assert id[..3] == "wm_" && id[3..] == a.id;
    Riven(
      id,
      OrElse(OrElse(a.owner, Owner(None)).ingameName, ""),
      Normalizer.WarframeMarket,
      OrElse(ItemOf(a).weaponUrlName, ""),
      StatSlots(Slot(p, 0), Slot(p, 1), Slot(p, 2), NegativeSlot(LastNegative(attrs))),
      PriceOf(a.buyoutPrice),
      entry.1)
  }

  /** The attribute loop: positive url names in order, and the last negative
      one. */
  method SplitAttributes(attrs: seq<Attribute>) returns (positives: seq<string>, negative: Option<string>)
    ensures positives == PositiveNames(attrs)
    ensures negative == LastNegative(attrs)
  {
    positives := [];
    negative := None;
    var i := 0;
    while i < |attrs|
      invariant 0 <= i <= |attrs|
      invariant positives == PositiveNames(attrs[..i])
      invariant negative == LastNegative(attrs[..i])
    {
      var at := attrs[i];
      assert attrs[..i + 1][..i] == attrs[..i];
      MapAppend(UrlName, Filter(IsPositive, attrs[..i]), if IsPositive(at) then [at] else []);
      if IsPositive(at) {
        positives := positives + [OrElse(at.urlName, "")];
      } else {
        negative := Some(OrElse(at.urlName, ""));
      }
      i := i + 1;
    }
    assert attrs[..i] == attrs;
  }

  /** The riven record built from one kept auction: its id is the auction's
      with the `wm_` prefix, its positive slots are the first three positive
      url names padded with `""`, its negative slot is the last negative url
      name, seller and weapon are the auction's (`""` when missing), and its
      price is the buyout price, 0 when absent and `None` when `null`. */
  method BuildRiven(a: Auction, now: int) returns (riven: Riven)
    requires a.item.Some?
    ensures StripPrefix(riven.id) == Some(a.id)
    ensures riven.stats.Positives() == Normalizer.PadRight(Take(PositiveNames(AttributesOf(a)), 3), 3)
    ensures riven.stats.stat4 == NegativeSlot(LastNegative(AttributesOf(a)))
    ensures riven.price.None? <==> a.buyoutPrice.Null?
    ensures a.buyoutPrice.Absent? ==> riven.price == Some(0)
    ensures a.buyoutPrice.Value? ==> riven.price == Some(a.buyoutPrice.value)
    ensures a.owner.Some? && a.owner.value.ingameName.Some? ==> riven.seller == a.owner.value.ingameName.value
    ensures a.owner.None? || a.owner.value.ingameName.None? ==> riven.seller == ""
    ensures a.item.value.weaponUrlName.Some? ==> riven.weapon == a.item.value.weaponUrlName.value
    ensures a.item.value.weaponUrlName.None? ==> riven.weapon == ""
    ensures riven.scrapedAt == now
    ensures riven == ToRiven((a, now))
  {
    var item := a.item.value;
    assert OrElse(item.attributes, []) == AttributesOf(a);
    var positives, negative := SplitAttributes(OrElse(item.attributes, []));
    riven := Riven(
      "wm_" + a.id,
      OrElse(OrElse(a.owner, Owner(None)).ingameName, ""),
      "warframe.market",
      OrElse(item.weaponUrlName, ""),
      StatSlots(
        if |positives| > 0 then positives[0] else "",
        if |positives| > 1 then positives[1] else "",
        if |positives| > 2 then positives[2] else "",
        if negative.Some? && negative.value != "" then negative.value else ""),
      PriceOf(a.buyoutPrice),
      now);
    assert riven == ToRiven((a, now));
  }

  /** Each auction paired with the clock reading `datetime.now()` gives when
      the loop reaches it. */
  function Stamp(data: seq<Auction>, clock: seq<int>): (r: seq<(Auction, int)>)
    requires |clock| == |data|
    ensures |r| == |data|
    ensures forall i :: 0 <= i < |r| ==> r[i].0 == data[i] && r[i].1 == clock[i]
  {
    seq(|data|, i requires 0 <= i < |data| => (data[i], clock[i]))
  }

  predicate KeptEntry(entry: (Auction, int)) {
    Kept(entry.0)
  }

  /** One more auction extends the extracted prefix by its record when it is
      kept. */
  lemma ExtractStep(entries: seq<(Auction, int)>, i: nat)
    requires i < |entries|
    ensures MapSeq(ToRiven, Filter(KeptEntry, entries[..i + 1]))
      == MapSeq(ToRiven, Filter(KeptEntry, entries[..i])) + (if KeptEntry(entries[i]) then [ToRiven(entries[i])] else [])
  {
    assert entries[..i + 1][..i] == entries[..i];
    MapAppend(ToRiven, Filter(KeptEntry, entries[..i]), if KeptEntry(entries[i]) then [entries[i]] else []);
  }

  /** `extract_warframe_market_listings`: one record per kept auction, in
      input order; `clock[i]` is the reading taken if auction `i` is built. */
  method ExtractWarframeMarketListings(data: seq<Auction>, clock: seq<int>) returns (listings: seq<Riven>)
    requires |clock| == |data|
    ensures listings == MapSeq(ToRiven, Filter(KeptEntry, Stamp(data, clock)))
  {
    ghost var entries := Stamp(data, clock);
    listings := [];
    var i := 0;
    while i < |data|
      invariant 0 <= i <= |data|
      invariant listings == MapSeq(ToRiven, Filter(KeptEntry, entries[..i]))
    {
      var a := data[i];
      ExtractStep(entries, i);
      if !OrElse(a.isDirectSell, false) {
        i := i + 1;
        continue;
      }
      if a.item.None? || a.item.value.kind != Some("riven") {
        i := i + 1;
        continue;
      }
      var riven := BuildRiven(a, clock[i]);
      listings := listings + [riven];
      i := i + 1;
    }
    assert entries[..i] == entries;
  }

  /** There is no last negative exactly when every attribute is positive. */
  lemma {:induction false} LastNegativeNone(attrs: seq<Attribute>)
    ensures LastNegative(attrs).None? <==> forall j :: 0 <= j < |attrs| ==> IsPositive(attrs[j])
    decreases |attrs|
  {
    if |attrs| > 0 {
      var init := attrs[..|attrs| - 1];
      LastNegativeNone(init);
      assert forall j :: 0 <= j < |init| ==> init[j] == attrs[j];
    }
  }

  /** No negative attribute follows position `j`. */
  ghost predicate OnlyPositivesAfter(attrs: seq<Attribute>, j: nat) {
    forall k :: j < k < |attrs| ==> IsPositive(attrs[k])
  }

  /** The position of the last negative attribute. */
  lemma {:induction false} LastNegativeIndex(attrs: seq<Attribute>) returns (j: nat)
    requires LastNegative(attrs).Some?
    ensures j < |attrs| && !IsPositive(attrs[j])
    ensures LastNegative(attrs).value == UrlName(attrs[j])
    ensures OnlyPositivesAfter(attrs, j)
    decreases |attrs|
  {
    var last := |attrs| - 1;
    if IsPositive(attrs[last]) {
      var init := attrs[..last];
      j := LastNegativeIndex(init);
      assert attrs[j] == init[j];
      assert forall k :: j < k < last ==> attrs[k] == init[k];
    } else {
      j := last;
    }
  }

  /** The negative slot holds the url name of the last negative attribute,
      or `""` when there is none. */
  lemma NegativeSlotIsLast(entry: (Auction, int))
    ensures var attrs := AttributesOf(entry.0);
      (forall j :: 0 <= j < |attrs| ==> IsPositive(attrs[j])) ==> ToRiven(entry).stats.stat4 == ""
    ensures var attrs := AttributesOf(entry.0);
      ToRiven(entry).stats.stat4 != "" ==> exists j :: (0 <= j < |attrs| && !IsPositive(attrs[j])
        && ToRiven(entry).stats.stat4 == UrlName(attrs[j])
        && OnlyPositivesAfter(attrs, j))
  {
    var attrs := AttributesOf(entry.0);
    LastNegativeNone(attrs);
    if LastNegative(attrs).Some? {
      var j := LastNegativeIndex(attrs);
    }
  }

  /** Every extracted record comes from a kept auction of the input: it
      names that auction and carries the clock reading taken for it. */
  lemma ExtractedFromKept(data: seq<Auction>, clock: seq<int>)
    requires |clock| == |data|
    ensures var r := MapSeq(ToRiven, Filter(KeptEntry, Stamp(data, clock)));
      forall i :: 0 <= i < |r| ==> exists j :: (0 <= j < |data| && Kept(data[j])
        && StripPrefix(r[i].id) == Some(data[j].id)
        && r[i].scrapedAt == clock[j])
  {
    var entries := Stamp(data, clock);
    assert |entries| == |data|;
    var kept := Filter(KeptEntry, entries);
    var r := MapSeq(ToRiven, kept);
    forall i | 0 <= i < |r| ensures exists j :: (0 <= j < |data| && Kept(data[j])
        && StripPrefix(r[i].id) == Some(data[j].id)
        && r[i].scrapedAt == clock[j])
    {
      FilterMember(KeptEntry, entries, kept[i]);
      var j :| 0 <= j < |entries| && entries[j] == kept[i];
      assert r[i] == ToRiven(entries[j]);
      assert data[j] == entries[j].0 && clock[j] == entries[j].1;
    }
  }

  /** A clock that never runs backwards gives records in timestamp order,
      so the newest listings come last. */
  lemma ExtractedInClockOrder(data: seq<Auction>, clock: seq<int>)
    requires |clock| == |data|
    requires forall i, j :: 0 <= i < j < |clock| ==> clock[i] <= clock[j]
    ensures var r := MapSeq(ToRiven, Filter(KeptEntry, Stamp(data, clock)));
      forall i, j :: 0 <= i < j < |r| ==> r[i].scrapedAt <= r[j].scrapedAt
  {
    var earlier := (x: (Auction, int), y: (Auction, int)) => x.1 <= y.1;
    var entries := Stamp(data, clock);
    assert Sorting.SortedBy(earlier, entries);
    Sorting.FilterSortedBy(earlier, KeptEntry, entries);
  }

  // ---------------------------------------------------------------------
  // Insert

  /** The `listings` table keyed by id, and the in-memory `existing_ids`. */
  datatype Store = Store(rows: map<string, Listing>, existing: set<string>)

  /** `existing_ids` is read from the table at the start of a poll. */
  ghost predicate InSync(s: Store) {
    s.rows.Keys == s.existing
  }

  /** The stored row: the record with the normalized weapon and stats. */
  function Stored(l: Riven, k: Key, price: int): Listing {
    Listing(l.id, l.seller, l.source, k.weapon, k.stats, price, l.scrapedAt)
  }

  /** `insert_listing`, with the normalizer as a parameter: a known id, or a
      record whose stats do not normalize, changes nothing; a new record
      with a `null` price violates the `price INTEGER NOT NULL` column and
      raises (`None`); otherwise the normalized row is written and the id
      remembered. */
  function InsertListing(normalize: Riven -> Option<Key>, l: Riven, s: Store): (r: Option<Store>)
    ensures l.id in s.existing ==> r == Some(s)
    ensures normalize(l).None? ==> r == Some(s)
    ensures r.None? <==> l.id !in s.existing && normalize(l).Some? && l.price.None?
    ensures l.id !in s.existing && normalize(l).Some? && l.price.Some? ==>
      && r.Some?
      && r.value.existing == s.existing + {l.id}
      && l.id in r.value.rows && r.value.rows[l.id] == Stored(l, normalize(l).value, l.price.value)
      && forall id :: id in s.rows && id != l.id ==> id in r.value.rows && r.value.rows[id] == s.rows[id]
    ensures r.Some? && InSync(s) ==> InSync(r.value)
  {
    if l.id in s.existing then Some(s)
    else match normalize(l)
      case None => Some(s)
      case Some(k) =>
        if l.price.None? then None
        else Some(Store(s.rows[l.id := Stored(l, k, l.price.value)], s.existing + {l.id}))
  }

  /** Inserting the same record twice is inserting it once. */
  lemma InsertListingIdempotent(normalize: Riven -> Option<Key>, l: Riven, s: Store)
    ensures var r := InsertListing(normalize, l, s);
      r.Some? ==> InsertListing(normalize, l, r.value) == r
  {
  }

  /** `poll`'s `try` around the insert loop of one source: the first raised
      error ends the loop, and the store keeps what was written before it. */
  function InsertAll(normalize: Riven -> Option<Key>, ls: seq<Riven>, s: Store): (r: Store)
    ensures s.existing <= r.existing
    ensures InSync(s) ==> InSync(r)
    ensures forall id :: id in r.existing && id !in s.existing ==> exists l :: l in ls && l.id == id
    decreases |ls|
  {
    if |ls| == 0 then s
    else match InsertListing(normalize, ls[0], s)
      case None => s
      case Some(next) =>
        var r := InsertAll(normalize, ls[1..], next);
        assert ls[0] in ls && forall l :: l in ls[1..] ==> l in ls;
        assert forall id :: id in next.existing && id !in s.existing ==> id == ls[0].id;
        r
  }

  /** A new record with a `null` price loses every record after it in the
      same source, whatever was written before it. */
  lemma {:induction false} NullPriceDropsRest(normalize: Riven -> Option<Key>, before: seq<Riven>, l: Riven, after: seq<Riven>, s: Store)
    requires l.id !in InsertAll(normalize, before, s).existing
    requires normalize(l).Some? && l.price.None?
    ensures InsertAll(normalize, before + [l] + after, s) == InsertAll(normalize, before, s)
    decreases |before|
  {
    var ls := before + [l] + after;
    if |before| == 0 {
      assert ls[0] == l;
    } else {
      assert ls[0] == before[0];
      match InsertListing(normalize, before[0], s)
      case None =>
      case Some(next) =>
        assert ls[1..] == before[1..] + [l] + after;
        NullPriceDropsRest(normalize, before[1..], l, after, next);
    }
  }

  /** Records that all carry a price cannot raise, so running their loop
      and then another source's loop is one loop over both sources. */
  lemma {:induction false} PricedSourceFirst(normalize: Riven -> Option<Key>, a: seq<Riven>, b: seq<Riven>, s: Store)
    requires forall i :: 0 <= i < |a| ==> a[i].price.Some?
    ensures InsertAll(normalize, b, InsertAll(normalize, a, s)) == InsertAll(normalize, a + b, s)
    decreases |a|
  {
    if |a| > 0 {
      var ab := a + b;
      assert ab[0] == a[0] && ab[1..] == a[1..] + b;
      var next := InsertListing(normalize, a[0], s);
      assert next.Some?;
      PricedSourceFirst(normalize, a[1..], b, next.value);
    } else {
      assert a + b == b;
    }
  }

  /** `poll`'s loop over one source, counting the records actually written.
      The reported `new_count` (`len(existing_ids) - initial_count`) equals
      that count. */
  method Poll(normalize: Riven -> Option<Key>, ls: seq<Riven>, s: Store) returns (r: Store, newCount: nat)
    ensures r == InsertAll(normalize, ls, s)
    ensures newCount == |r.existing| - |s.existing|
    ensures newCount <= |ls|
  {
    r := s;
    newCount := 0;
    var i := 0;
    while i < |ls|
      invariant 0 <= i <= |ls|
      invariant InsertAll(normalize, ls[i..], r) == InsertAll(normalize, ls, s)
      invariant s.existing <= r.existing
      invariant newCount == |r.existing| - |s.existing|
      invariant newCount <= i
    {
      var l := ls[i];
      assert ls[i..][0] == l && ls[i..][1..] == ls[i + 1..];
      var next := InsertListing(normalize, l, r);
      if next.None? {
        break;
      }
      if next.value != r {
        assert next.value.existing == r.existing + {l.id} && l.id !in r.existing;
        newCount := newCount + 1;
      }
      r := next.value;
      i := i + 1;
    }
  }

  /** Stats normalization as `insert_listing` evidently intends to use it:
      the weapon is passed through unchanged (no weapon mapping exists), the
      stats go through `normalize` with the record's source. */
  function StatsNormalizer(t: Normalizer.StatTables): Riven -> Option<Key>
    requires Normalizer.ValidTables(t)
  {
    (l: Riven) =>
      var stats := Normalizer.Normalize(t, l.stats, l.source);
      if stats.Some? then Some(Key(l.weapon, stats.value)) else None
  }

  /** With that normalizer every stored row has sorted, padded positive
      stats. */
  lemma StoredRowsSorted(t: Normalizer.StatTables, l: Riven, s: Store)
    requires Normalizer.ValidTables(t)
    requires l.id !in s.existing && StatsNormalizer(t)(l).Some? && l.price.Some?
    ensures var row := InsertListing(StatsNormalizer(t), l, s).value.rows[l.id];
      && Normalizer.PaddedRight(row.stats.Positives())
      && Sorting.SortedBy(Strings.LexLe, Normalizer.Present(row.stats.Positives()))
      && row.weapon == l.weapon
  {
  }

  // ---------------------------------------------------------------------
  // As written

  /** `insert_listing` as written: for an unknown id it calls `normalize`
      with six arguments, but `normalize` takes five, so the call raises
      `TypeError` (`None` here); a known id returns before the call. */
  function InsertListingAsWritten(l: Riven, s: Store): Option<Store> {
    if l.id in s.existing then Some(s) else None
  }

  /** `poll`'s loop over one source as written, stopping at the first raised
      error. */
  function InsertAllAsWritten(ls: seq<Riven>, s: Store): Store
    decreases |ls|
  {
    if |ls| == 0 then s
    else match InsertListingAsWritten(ls[0], s)
      case None => s
      case Some(next) => InsertAllAsWritten(ls[1..], next)
  }

  /** As written, a poll never writes a row: `new_count` is always 0. */
  lemma {:induction false} AsWrittenInsertsNothing(ls: seq<Riven>, s: Store)
    ensures InsertAllAsWritten(ls, s) == s
    decreases |ls|
  {
    if |ls| > 0 && ls[0].id in s.existing {
      AsWrittenInsertsNothing(ls[1..], s);
    }
  }

  /** A single record with a new id that normalizes shows the discrepancy:
      the intended insert writes it, the code as written does not. */
  lemma AsWrittenMissesNewListing(normalize: Riven -> Option<Key>, l: Riven, s: Store)
    requires l.id !in s.existing && normalize(l).Some? && l.price.Some?
    ensures InsertAllAsWritten([l], s) == s
    ensures l.id in InsertAll(normalize, [l], s).existing
  {
    assert [l][1..] == [];
  }
}
