/** Moments and spans of time, in nanoseconds. */
module Clocks {
  type Time = int      // 0 is the zero time
  type Duration = int

  const MINUTE: Duration := 60_000_000_000
  const HOUR: Duration := 60 * MINUTE
}
