/** Instants and durations, in nanoseconds. */
module Clock {
  type Time = int

  const SECOND: int := 1_000_000_000
}
