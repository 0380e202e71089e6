/** Go's 64-bit integers, which also count the nanoseconds of a duration. */
module Int64 {
  const MAX_INT64: int := 0x7fff_ffff_ffff_ffff
  const MIN_INT64: int := -0x8000_0000_0000_0000
  const TWO_64: int := 0x1_0000_0000_0000_0000

  predicate IsInt64(x: int) {
    MIN_INT64 <= x <= MAX_INT64
  }

  /** The value an int64 addition leaves of an exact sum. */
  function Wrap(x: int): (w: int)
    ensures IsInt64(w)
    ensures IsInt64(x) ==> w == x
  {
    (x - MIN_INT64) % TWO_64 + MIN_INT64
  }

  /** time.Time.Sub saturates at the bounds of a duration. */
  function Sub(t: int, u: int): (d: int)
    ensures IsInt64(d)
  {
    if t - u > MAX_INT64 then MAX_INT64 else if t - u < MIN_INT64 then MIN_INT64 else t - u
  }
}
