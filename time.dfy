/**
 * Wall-clock readings. The detector reads the clock itself; in this model
 * every reading is an integer number of milliseconds handed in by the caller.
 */
module Time {
  /**
   * A remembered instant: either `MinValue` (the initial "never happened",
   * older than any reading) or a reading in milliseconds.
   */
  datatype Stamp = MinValue | At(ms: int)

  /** More than `ms` milliseconds separate `since` from `now`. */
  predicate ElapsedExceeds(since: Stamp, now: int, ms: int)
  {
    since.MinValue? || now - since.ms > ms
  }

  /** At least `ms` milliseconds separate `since` from `now`. */
  predicate ElapsedAtLeast(since: Stamp, now: int, ms: int)
  {
    since.MinValue? || now - since.ms >= ms
  }
}
