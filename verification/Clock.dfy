/** Times and durations are whole nanoseconds. */
module Clock {

  const SECOND: int := 1_000_000_000
  const MILLISECOND: int := 1_000_000
}
