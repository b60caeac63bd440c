# riven_sniper pricing pipeline in Dafny

This project models the algorithmic core of riven_sniper. The tool scrapes
riven listings from two marketplaces (riven.market and warframe.market). It
computes a median price per riven profile and alerts on listings far below
that median. The core is a pure pipeline:

1. **Normalizer** (`normalizer.dfy`): maps each stat token through the
   dictionary of its own marketplace into one canonical vocabulary. One
   unmapped token rejects the record. The up to three positive stats are then
   sorted and right-padded with `""`, which gives a profile key that does not
   depend on stat order.
2. **Aggregator** (`aggregator.dfy`): models the aggregation query as a
   function over listings.
   - It keeps listings with `0 < price < MAX_PRICE`.
   - It reduces each `(seller, profile)` group to its cheapest price.
   - It groups prices by profile and computes median and sample count.
   - It ranks each weapon's profiles by sample count, as a first-index
     percentile.
   - It keeps, per weapon, the `GODROLL_COUNT` highest medians at or above
     `SAMPLE_THRESHOLD`.
3. **Deal matcher** (`monitor.dfy`).
   - For each godroll it takes the ten newest listings with the same profile
     key and `0 < price <= median * threshold`.
   - It skips ids already alerted and computes each remaining listing's
     discount.
   - It returns the deals together with the grown alerted set.
   - `format_riven_stats` is modelled as its list of signed tokens and their
     space-joined line.
4. **Poller** (`poller.dfy`).
   - `extract_warframe_market_listings` maps decoded auctions to flat
     listings.
   - `insert_listing` is a state step over the listings table and the
     `existing_ids` set.
5. **Legacy revisions** (`legacy.dfy`): the root `aggregator.py` and
   `monitor.py`. They are one parameterised aggregator (`Aggregator.Variant`)
   with two instances, plus the other inverted-stat set of the old formatter.
   The root `find_deals` (`monitor.py:32-100`) differs from the current one
   only in its default threshold, so it is `Monitor.FindDeals` at
   `Legacy.LegacyDealThreshold`.

Shared building blocks:

| file | contents |
|---|---|
| `sequences.dfy` | filter, map, slice and flatten |
| `sorting.dfy` | stable insertion sort and a top-n by a total preorder |
| `strings.dfy` | lexicographic order, join and split |
| `grouping.dfy` | first-appearance grouping, i.e. `defaultdict(list)` and SQL `GROUP BY` |
| `statistics.dfy` | `statistics.median` and the rank percentile |
| `records.dfy` | the listing and key records |
| `config.dfy` | the constants of `src/config.py` |
| `wrappers.dfy` | `Option` |

The model works on values, not on a database.

- A table is a sequence of records, or a map keyed by id.
- Prices are integers.
- Medians, thresholds, percentiles and discounts are `real`.
- `scraped_at` is an integer timestamp. The extractor takes a caller-supplied
  sequence of clock readings, one slot per input auction.
- The stat dictionaries are a `StatTables` parameter with one well-formedness
  predicate. `Normalizer.Shipped` is the instance built from the module's
  literal tables. Stating the lemmas over any well-formed tables keeps them
  independent of the 94 table entries.

## Design choices

- `normalize` takes the four stats and a source and returns four stats
  (`src/normalizer.py:137-144`). The weapon passes through unchanged.
- `insert_listing` receives its normalizer as a parameter. See "Findings".
- Percentile ties use the code's first-index rank. The model proves that this
  rank equals the number of strictly smaller counts
  (`Statistics.RankIsCountBelow`).
- `Statistics.Median` is stated by where it lies: between the two middle
  sorted samples. `Statistics.MedianOfSorted` pins its exact value.

## Model

| member | source | states |
|---|---|---|
| Normalizer.ShippedTablesValid | src/normalizer.py:1-102 | every value of both source dictionaries belongs to the canonical vocabulary, and no canonical name is empty |
| Normalizer.WarframeMarketNotInjective | src/normalizer.py:69-72 | two distinct warframe.market tokens map to `combo_count_chance`, so the dictionary cannot be inverted |
| Normalizer.NormalizeStatName | src/normalizer.py:105-110 | a token is looked up only in its own source's dictionary; any other source yields None; a hit is that dictionary's entry for the token, a non-empty canonical name |
| Normalizer.NormalizeSlot | src/normalizer.py:116-124 | an empty slot passes through as `""`; a non-empty slot succeeds exactly when its token is in the source's dictionary, giving its mapped name |
| Normalizer.NormalizeRivenStats | src/normalizer.py:113-126 | the result exists iff every slot maps, and then each of the four slots holds its own slot's mapping |
| Normalizer.NormalizeRivenStatsSlotwise | src/normalizer.py:116-126 | the mapped record is the slot-wise mapping of the input, the negative included |
| Normalizer.MappedIsCanonical | src/normalizer.py:113-126 | every non-empty slot after mapping is a canonical name |
| Normalizer.MappedKeepsPositiveCount | src/normalizer.py:116-124 | mapping keeps the number of filled positive slots |
| Normalizer.PadRightFilled | src/normalizer.py:132-133 | padding filled names gives a list whose filled entries are exactly the input, with all blanks at the end |
| Normalizer.SortPositiveStats | src/normalizer.py:129-134 | the negative slot is unchanged; the positives are padded right, in ascending order, and keep the multiset of filled positives |
| Normalizer.SortPositiveStatsMember | src/normalizer.py:130 | every filled sorted positive was an input positive |
| Normalizer.SortPositiveStatsCanonical | src/normalizer.py:129-134 | two records with the same filled positives and the same negative sort to the same record |
| Normalizer.SortPositiveStatsIdempotent | src/normalizer.py:129-134 | sorting a sorted record changes nothing |
| Normalizer.SortPositiveStatsPermutationInvariant | src/normalizer.py:129-134 | any reordering of stat1..stat3 sorts to the same record |
| Normalizer.Normalize | src/normalizer.py:137-144 | succeeds iff every slot maps; then the positives are padded and sorted, their filled names are, as a multiset, the mappings of the input's filled positives, and slot 4 is the mapped negative |
| Normalizer.NormalizeIsCanonical | src/normalizer.py:137-144 | every non-empty normalized stat is canonical |
| Normalizer.NormalizeKeepsPositiveCount | src/normalizer.py:137-144 | normalization keeps the number of filled positives |
| Normalizer.AllSlotsMapPermutation | src/normalizer.py:116-123 | whether a record normalizes does not depend on the order of its positives |
| Normalizer.NormalizeRivenStatsPermutation | src/normalizer.py:113-126 | mapping two orderings of the positives gives two orderings of the mapped positives |
| Normalizer.NormalizePermutationInvariant | src/normalizer.py:137-144 | `normalize` gives the same result, or the same failure, for every permutation of stat1..stat3 |
| Statistics.SortInts | src/aggregator.py:71 | the sorted counts are ascending and a permutation of the input |
| Statistics.SortIntsCanonical | src/aggregator.py:71 | two permutations of one list sort to the same list |
| Statistics.MedianWithinRange | src/aggregator.py:50 | the median lies between some sample and some sample, hence between min and max |
| Statistics.MedianPermutationInvariant | src/aggregator.py:50 | the median does not depend on the order in which prices were collected |
| Statistics.Median | src/aggregator.py:50 | the median lies between the two middle samples of the sorted list |
| Statistics.MedianHalfAtMost | src/aggregator.py:50 | at least half the samples are at or below the median |
| Statistics.MedianHalfAtLeast | src/aggregator.py:50 | at least half the samples are at or above the median |
| Statistics.MedianOfSorted | src/aggregator.py:50 | on a sorted list the median is the middle sample, or the mean of the two middle samples |
| Statistics.MedianOfThree | src/aggregator.py:50 | three ascending prices have the middle one as median |
| Statistics.MedianOfTwo | src/aggregator.py:50 | two ascending prices have their mean as median |
| Statistics.MedianResistsOutlier | src/aggregator.py:50 | five equal prices followed by one at least as high have the common price as median |
| Statistics.IndexOf | src/aggregator.py:75 | `list.index`: the first position holding the value |
| Statistics.RankIsCountBelow | src/aggregator.py:71-75 | the first index of a count in the sorted counts is the number of counts strictly below it |
| Statistics.Percentile | src/aggregator.py:74-76 | the percentile is 100 times the share of strictly smaller counts, and lies in [0, 100) |
| Statistics.PercentileMonotone | src/aggregator.py:74-76 | a larger count never gets a smaller percentile; equal counts get equal ones |
| Statistics.PercentileOfLargestOfFour | src/aggregator.py:74-76 | counts `[1, 5, 10, 20]`-shaped give 75 for the largest |
| Statistics.PercentileOfSingle | src/aggregator.py:74-76 | a weapon with one profile gets percentile 0 |
| Aggregator.MinOf | src/aggregator.py:105 | `MIN(price)` is one of the group's prices and at most every one of them |
| Aggregator.SellerMinimaAttained | src/aggregator.py:103-111 | every deduplicated row's price is the price of an in-range listing of that seller and profile |
| Aggregator.SellerMinimaIsMinimum | src/aggregator.py:103-111 | every deduplicated row's price is at most every in-range price of its seller and profile |
| Aggregator.SellerMinimaCovers | src/aggregator.py:103-111 | every in-range listing has a row for its seller and profile |
| Aggregator.SellerMinimaDistinct | src/aggregator.py:108 | no two rows share seller and profile, so each group contributes exactly one price |
| Aggregator.QueryRows | src/aggregator.py:103-111 | every row carries the profile and price of an in-range listing; without per-seller deduplication there are exactly as many rows as in-range listings and every in-range listing's row is among them |
| Aggregator.SellerMinimaExample | src/aggregator.py:103-111 | one seller listing a profile at 100 and at 80 contributes the single price 80 |
| Aggregator.BuildProfiles | src/aggregator.py:33-42 | the price lists have distinct keys; each key's list holds exactly the prices of rows with that key, in row order; the list lengths sum to the number of rows |
| Aggregator.AggregateProfiles | src/aggregator.py:45-52 | one profile per price list, in order, with that list's key, its length as sample count and a median between its two middle prices |
| Aggregator.AggregateProfilesDistinct | src/aggregator.py:45-52 | the aggregated profiles have distinct keys |
| Aggregator.RunProfileFromRows | src/aggregator.py:45-52 | every profile's sample count is the length of its key's price list and its median that list's median |
| Aggregator.GroupByWeapon | src/aggregator.py:55-63 | the weapon groups have distinct weapons; each holds exactly the profiles of its weapon, in input order; together they hold every profile once |
| Aggregator.WeaponGroupMember | src/aggregator.py:55-63 | a weapon group holds only input profiles of that weapon |
| Aggregator.WeaponGroupDistinct | src/aggregator.py:55-63 | a weapon group of distinct-key profiles has distinct keys |
| Aggregator.CalculatePercentiles | src/aggregator.py:66-78 | each profile is copied with percentile `100 * #(smaller counts) / n`, which lies in [0, 100) |
| Aggregator.PercentilesMonotone | src/aggregator.py:66-78 | within a weapon, a profile with more samples never ranks lower |
| Aggregator.DetermineGodrolls | src/aggregator.py:81-87 | at most `godroll_count` profiles, all at or above the threshold, in non-increasing median order, drawn from the input; either all qualifying ones or exactly `godroll_count` |
| Aggregator.DetermineGodrollsKeepsBest | src/aggregator.py:81-87 | a qualifying profile that was left out has a median no higher than any kept one |
| Aggregator.Aggregate | src/aggregator.py:114-122 | the whole godroll list has distinct profile keys, as the table's primary key requires; no weapon has more than `godroll_count` godrolls; each meets the percentile threshold |
| Aggregator.AggregateOfWeapon | src/aggregator.py:114-122 | the godrolls of each weapon are exactly `determine_godrolls` over the percentiles of that weapon's profiles, so every qualifying profile is kept up to `godroll_count`, highest median first |
| Aggregator.ListingCollected | aggregator.py:121-127 | without per-seller deduplication the price of every in-range listing is in the price list of its read-time key |
| Aggregator.AggregateFromProfile | src/aggregator.py:114-122 | every godroll reaches the threshold and carries key, median and count of a profile of the run |
| Aggregator.AggregateFromRows | src/aggregator.py:103-122 | every godroll's count and median are those of the prices its key collected from the query rows |
| Monitor.Candidates | src/monitor.py:43-56 | at most ten listings, each with the godroll's exact key and `0 < price <= median * threshold`, newest first, drawn from the table; all matches when there are at most ten, exactly ten otherwise |
| Monitor.CandidatesMostRecent | src/monitor.py:50-51 | a matching listing left out of the ten is no newer than any listing kept |
| Monitor.MatchedMedianNonZero | src/monitor.py:48-49 | a match implies a non-zero median, so the discount division is defined |
| Monitor.DiscountBounds | src/monitor.py:66 | with a positive median, a matching price gives a discount in [(1 - threshold) * 100, 100) |
| Monitor.DealsFrom | src/monitor.py:58-82 | the deals of one godroll skip alerted ids, each is built from a candidate, and every unalerted candidate yields one |
| Monitor.MakeDeal | src/monitor.py:66-82 | a deal copies id, price, seller, source and time from the listing, and weapon, stats, median, count and percentile from the godroll |
| Monitor.AllDealsNotAlerted | src/monitor.py:32-64 | no returned deal's id was alerted at entry |
| Monitor.FindDeals | src/monitor.py:25-93 | returned ids were not alerted at entry and are alerted after; the set only grows, and only by returned ids |
| Monitor.FindDealsRepeat | src/monitor.py:85-88 | a second run on the same data with the updated set returns none of the first run's ids |
| Monitor.DealOrigin | src/monitor.py:38-82 | every deal was copied from a candidate of some godroll |
| Monitor.DealComplete | src/monitor.py:58-82 | every unalerted candidate of every godroll is reported |
| Monitor.DealDiscountBounds | src/monitor.py:66 | every reported deal with a positive median has a discount in [(1 - threshold) * 100, 100) |
| Monitor.DealAtFiftyFive | src/monitor.py:43-82 | a listing at 55 against a median of 100 is reported at the default threshold with a 45% discount |
| Monitor.StarvedMatch | src/monitor.py:50-64 | ten newer alerted matches hide an older unalerted match: the godroll yields no deal |
| Monitor.FormatRivenStats | src/monitor.py:96-111 | one token per filled slot, naming the filled positives then the negative; a token is negative iff it is the negative slot's token xor names an inverted stat; every token is `+` or `-` followed by the stat name |
| Monitor.StatsLineSplits | src/monitor.py:113 | the space-joined line splits back into the tokens when no stat holds a space |
| Poller.SplitAttributes | src/poller.py:188-195 | the loop collects the positive url names in order and the last negative one |
| Poller.BuildRiven | src/poller.py:184-209 | the record's id is `wm_` and the auction id; stat1..stat3 are the first three positive url names padded with `""`; stat4 is the last negative url name; seller and weapon are the auction's `ingame_name` and `weapon_url_name`, `""` when missing; the price is the buyout price, 0 when the field is absent and missing when it is `null`; the timestamp is the clock reading |
| Poller.ExtractWarframeMarketListings | src/poller.py:169-212 | the output is the kept auctions, in order, each mapped to its listing |
| Poller.ToRiven | src/poller.py:184-209 | the record names its auction with the `wm_` prefix, comes from warframe.market, takes seller and weapon from the auction (`""` when missing), keeps the first three positive url names padded with `""`, takes the buyout price (0 when absent, none when `null`), and carries its clock reading |
| Poller.LastNegativeNone | src/poller.py:189-195 | there is no negative exactly when every attribute is positive, a missing `positive` field counting as positive |
| Poller.LastNegativeIndex | src/poller.py:191-195 | the negative found is the url name of the last non-positive attribute |
| Poller.NegativeSlotIsLast | src/poller.py:189-206 | stat4 is `""` without negatives, and otherwise the url name of the last negative attribute |
| Poller.ExtractedFromKept | src/poller.py:175-210 | each output record names a kept auction of the input and carries the clock reading taken for that auction |
| Poller.ExtractedInClockOrder | src/poller.py:175-208 | a clock that never runs backwards gives output records in timestamp order |
| Poller.InsertListing | src/poller.py:223-265 | a known id, or a failed normalization, changes nothing; a new record without a price fails, as the `price` column is NOT NULL; otherwise the normalized row is written under the id, the id is remembered, other rows are kept, and table and id set stay in step |
| Poller.InsertListingIdempotent | src/poller.py:227 | inserting a listing twice is inserting it once |
| Poller.InsertAll | src/poller.py:280-293 | the insert loop of one source only adds ids, each the id of one of its records, and keeps table and id set in step |
| Poller.NullPriceDropsRest | src/poller.py:32 | a new record with a `null` price ends its source's loop: nothing after it is stored |
| Poller.PricedSourceFirst | src/poller.py:280-293 | when every record of the first source has a price, its `try` loop followed by the second source's is one loop over both sources; riven.market prices always exist, so the two `try` blocks of `poll` are one `InsertAll` |
| Poller.Poll | src/poller.py:275-298 | the insert loop over the listings of both sources, riven.market first (see `Poller.PricedSourceFirst`): the reported new count equals the growth of `existing_ids` and is at most the number of listings |
| Poller.StoredRowsSorted | src/poller.py:229-263 | with the stat normalizer, a stored row has sorted, padded positives and its own weapon |
| Poller.AsWrittenInsertsNothing | src/poller.py:229-293 | as written, every poll leaves the store unchanged |
| Poller.AsWrittenMissesNewListing | src/poller.py:227-265 | a new listing that normalizes is stored by the intended insert and lost as written |
| Legacy.LegacyReadKeySorted | aggregator.py:42-61 | the legacy profile key keeps weapon and negative and has sorted, padded positives with the same filled multiset |
| Legacy.LegacyKeyPermutationInvariant | aggregator.py:42-61 | the legacy key does not depend on the order of stat1..stat3 |
| Legacy.LegacyCountsEveryListing | aggregator.py:121-127 | without per-seller deduplication every in-range listing is one sample: its price is in its read-time key's list, and the lists hold as many prices as there are in-range listings |
| Legacy.DedupDiffers | aggregator.py:121-127 | prices 100 and 80 from one seller: the current query keeps 80 only, the legacy one keeps both |
| Legacy.LegacyTopRolls | aggregator.py:101-104 | `get_top_rolls` returns at most five rolls, each at or above 80 |
| Legacy.SameSelection | aggregator.py:101-104 | from the same profiles the legacy and current revisions select the same godrolls |
| Legacy.LegacyDealDiscount | monitor.py:74 | at the legacy default threshold 0.60 every deal is between 40% and 100% below its median |
| Legacy.LegacyTokensExample | monitor.py:103-119 | the legacy formatter signs `Reload` in a positive slot as `-` and `Recoil` in the negative slot as `+` |
| Legacy.InvertedSetsDiffer | monitor.py:109 | a riven.market `Reload` is inverted by the legacy formatter but not by the current one |

## Left out

- HTTP fetching, retries, headers and JSON decoding are network I/O. The
  extractor starts from already decoded auctions.
- `extract_riven_market_listings` depends on an HTML parser's node API, which
  is not part of this model.
- The root `poller.py`, `snapshot.py`, the scrapers and `build_godrolls` in
  `riven_sniper.py`, and `insert_batch` in `src/scraper.py` are left out.
  `build_godrolls` repeats the legacy aggregator, and `insert_batch` repeats
  the insert step.
- The sqlite schema, `DROP`/`CREATE`, indexes, commits and transactions are
  storage concerns. Tables are sequences and maps.
- `send_alert`, `push_notification` and the Discord webhook are outbound I/O,
  and so are the timestamp formatting and `time.sleep`.
- `should_aggregate` and the jittered poll loop in `src/riven_sniper.py` are
  scheduling around side effects.
- Monitor.StatsLine: models `" ".join(formatted)` only. The
  `.replace("_", " ").title()` at `src/monitor.py:113` is left out, because
  Unicode case rules are out of scope.
- Floating point is modelled as `real`, with no rounding. This covers
  `median * threshold`, the median mean, the percentile and the discount.
- `datetime.now().isoformat()`, called once per kept auction, is that
  auction's entry of a `clock` sequence of integers; the readings of skipped
  auctions go unused. Timestamps are compared as integers, standing
  in for the ISO strings' order.
- Poller: `null` values of `owner`, `item`, `attributes`, `url_name`,
  `ingame_name` and `weapon_url_name` are not represented; the model reads a
  missing or `null` field as `""` or `[]`. In Python:
  - a `null` `owner` or `item` raises `AttributeError` in the extractor, and
    `null` `attributes` raise `TypeError`;
  - a `null` `ingame_name` becomes a `None` seller, and the insert into the
    NOT NULL `seller` column raises `IntegrityError`, which ends that
    source's loop as a `null` price does;
  - a `null` positive `url_name` becomes the stat `"None"`, which does not
    normalize, so the record is skipped;
  - a `null` negative `url_name` becomes `""`;
  - a `null` `weapon_url_name` reaches the normalizer as `"None"`.

  A missing auction `id` raises `KeyError`; the model always has one.
- Aggregator.SellerMinima: the SQL `GROUP BY` returns groups in an
  unspecified order; the model picks first appearance. Medians are proved
  independent of collection order. Profile order can still matter: with tied
  medians, the stable sort in `determine_godrolls` keeps the earlier profile
  at the `[:GODROLL_COUNT]` cut.
- Monitor.Candidates: rows with equal `scraped_at` are kept in table order,
  which is one permitted SQL order.
- Monitor.FindDeals: the alerted set is returned, not written. `INSERT OR
  IGNORE` into a set is set union.
- Weapon names pass through unchanged. The weapon mapping
  `.lower().replace(" ", "_")` lives inline in `riven_sniper.py` and
  `snapshot.py`, both outside the core, so `insert_listing` takes its
  normalizer as a parameter.
- Legacy.LegacyTokensExample: the legacy formatter's joined string is stated
  through its token list. Its join is the current one,
  `Monitor.StatsLineSplits`.

## Findings

| source | as written | input that shows it | evidently intended | confidence | as-written member | corrected member |
|---|---|---|---|---|---|---|
| src/poller.py:229-236 | `insert_listing` calls `normalize` with six arguments, weapon first, and unpacks five results (line 245). `normalize` at `src/normalizer.py:137` takes five parameters and returns four stats, so the call raises `TypeError`. `poll` catches it (lines 285-286, 292-293) and abandons the rest of that source, so no new listing is ever stored. | any listing whose id is not yet in `existing_ids` | normalize the stats with the listing's source, keep the weapon, store the row and remember the id | high (not executed) | Poller.AsWrittenInsertsNothing, Poller.AsWrittenMissesNewListing | Poller.InsertListing, Poller.Poll, Poller.StoredRowsSorted |
