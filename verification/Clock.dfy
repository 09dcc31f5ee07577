/** Units of the clock readings, in nanoseconds. */
module Clock {
  const SECOND: int := 1_000_000_000
  const MINUTE: int := 60 * SECOND
}
