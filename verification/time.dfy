/** Go's `int64` nanosecond timestamps and `time.Duration` values. */
module Time {

  const MinInt64: int := -0x8000_0000_0000_0000
  const MaxInt64: int := 0x7FFF_FFFF_FFFF_FFFF

  /** A Go `int64`: a `time.Duration`, or an instant as `UnixNano` reports it. */
  type Int64 = x: int | -0x8000_0000_0000_0000 <= x <= 0x7FFF_FFFF_FFFF_FFFF

  /** Two's-complement wrap-around of an `int64` computation. */
  function Wrap64(x: int): (r: Int64)
    ensures MinInt64 <= x <= MaxInt64 ==> r == x
    ensures MaxInt64 < x <= MaxInt64 + 0x1_0000_0000_0000_0000 ==> r == x - 0x1_0000_0000_0000_0000
    ensures x < MinInt64 && x >= MinInt64 - 0x1_0000_0000_0000_0000 ==> r == x + 0x1_0000_0000_0000_0000
  {
    (x - MinInt64) % 0x1_0000_0000_0000_0000 + MinInt64
  }

  /** `time.Minute` and `time.Hour`, in nanoseconds. */
  const Minute: Int64 := 60_000_000_000
  const Hour: Int64 := 3_600_000_000_000
}
