/**
 * Go's time.Duration as a mathematical integer count of nanoseconds, the unit
 * constants the controllers use, and the 64-bit two's-complement range that a
 * Go Duration actually lives in.
 */
module Durations {

  /** A span of time in nanoseconds (Go's time.Duration). */
  type Duration = int

  /** An instant in nanoseconds counted from Go's zero time.Time. */
  type Time = int

  const Nanosecond: Duration := 1
  const Microsecond: Duration := 1000 * Nanosecond
  const Millisecond: Duration := 1000 * Microsecond
  const Second: Duration := 1000 * Millisecond
  const Minute: Duration := 60 * Second
  const Hour: Duration := 60 * Minute

  const MinInt64: int := -0x8000_0000_0000_0000
  const MaxInt64: int := 0x7fff_ffff_ffff_ffff
  const TwoTo64: int := 0x1_0000_0000_0000_0000

  /** True if `x` is representable as a Go int64 (and so as a time.Duration). */
  predicate InInt64(x: int) {
    MinInt64 <= x <= MaxInt64
  }

  /** Go's time.Time.IsZero on the nanosecond model of instants. */
  predicate IsZeroTime(t: Time) {
    t == 0
  }

  /**
   * The int64 value Go produces for the mathematical result `x` of an int64
   * operation: `x` reduced modulo 2^64 into the signed range.
   */
  function WrapInt64(x: int): (r: int)
    ensures InInt64(r)
    ensures (x - r) % TwoTo64 == 0
    ensures InInt64(x) ==> r == x
  {
    (x - MinInt64) % TwoTo64 + MinInt64
  }
}
