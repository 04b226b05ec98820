/** Durations in nanoseconds. */
module Time {
  const SECOND: int := 1_000_000_000
  const DAY: int := 86_400_000_000_000
}
