/** The tuning constants of `src/config.py`. */
module Config {

  /** Listings at or above this price are treated as troll listings. */
  const MaxPrice: int := 50000

  /** Minimum sample-count percentile for a profile to become a godroll. */
  const SampleThreshold: real := 80.0

  /** Godrolls kept per weapon. */
  const GodrollCount: nat := 5

  /** A deal costs at most this fraction of its godroll's median. */
  const DealThreshold: real := 0.60
}
