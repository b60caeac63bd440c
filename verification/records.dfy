/** The records that flow through the pipeline: the four stat slots of a
    riven, its profile key, and one row of the `listings` table. */
module Records {

  /** `stat1`..`stat3` hold positive stats, `stat4` the single negative stat;
      `""` marks an empty slot. */
  datatype StatSlots = StatSlots(stat1: string, stat2: string, stat3: string, stat4: string) {

    /** The three positive slots, in slot order. */
    function Positives(): seq<string> {
      [stat1, stat2, stat3]
    }
  }

  /** The identity of a riven profile: `(weapon, stat1, stat2, stat3, stat4)`. */
  datatype Key = Key(weapon: string, stats: StatSlots)

  /** One listing, as scraped and as stored in the `listings` table.
      `scrapedAt` stands for the ISO timestamp the scraper records; only its
      order matters. */
  datatype Listing = Listing(
    id: string,
    seller: string,
    source: string,
    weapon: string,
    stats: StatSlots,
    price: int,
    scrapedAt: int)
  {
    function ProfileKey(): Key {
      Key(weapon, stats)
    }
  }
}
