/** Go's `time.Time` and `time.Duration` as far as the engine uses them. */
module Clock {

  /** Nanoseconds since Go's zero time (January 1, year 1, UTC); `IsZero()` is `== ZERO_TIME`. */
  type Time = int

  const MIN_DURATION := -0x8000_0000_0000_0000
  const MAX_DURATION := 0x7FFF_FFFF_FFFF_FFFF

  /** A signed 64-bit count of nanoseconds. */
  type Duration = d: int | MIN_DURATION <= d <= MAX_DURATION

  const ZERO_TIME: Time := 0
  const NANOSECOND: Duration := 1
  const SECOND: Duration := 1_000_000_000
  const MINUTE: Duration := 60 * SECOND
  const HOUR: Duration := 60 * MINUTE

  /** `t.Sub(u)`: the difference saturates at the ends of the duration range. */
  function Sub(t: Time, u: Time): Duration {
    if t - u < MIN_DURATION then MIN_DURATION
    else if t - u > MAX_DURATION then MAX_DURATION
    else t - u
  }

  /** Saturation does not disturb a comparison with a non-negative duration. */
  lemma SubAtLeast(t: Time, u: Time, c: Duration)
    requires 0 <= c
    ensures Sub(t, u) >= c <==> t - u >= c
  {}

  /** `t.Truncate(d)`: rounds down to a multiple of `d`; a non-positive `d` leaves `t` alone. */
  function Truncate(t: Time, d: Duration): Time {
    if d <= 0 then t else t - t % d
  }

  /** `t.Unix()`, counted from the zero time instead of from 1970. */
  function UnixSecond(t: Time): int {
    t / SECOND
  }

  /** `d.Seconds()` */
  function Seconds(d: Duration): (s: real)
    ensures d > 0 ==> s > 0.0
    ensures s * SECOND as real == d as real
  {
    d as real / SECOND as real
  }
}
