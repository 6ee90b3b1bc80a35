/** Fixed-width integer ranges used by the engine: int16 samples, int32 frame
    positions and lengths, and the int64 frame clock with its wrap-around. */
module Bounded {

  const INT16_MIN: int := -0x8000
  const INT16_MAX: int := 0x7FFF
  const INT32_MIN: int := -0x8000_0000
  const INT32_MAX: int := 0x7FFF_FFFF
  const INT64_MIN: int := -0x8000_0000_0000_0000
  const INT64_MAX: int := 0x7FFF_FFFF_FFFF_FFFF
  const TWO_TO_THE_64: int := 0x1_0000_0000_0000_0000

  /** A raw 16-bit PCM sample. A loaded track stores the float value
      sample / 32768, which is exact, so the model keeps the raw value. */
  type Sample = x: int | INT16_MIN <= x <= INT16_MAX

  predicate IsInt32(x: int) { INT32_MIN <= x <= INT32_MAX }

  predicate IsInt64(x: int) { INT64_MIN <= x <= INT64_MAX }

  /** Two's-complement wrap-around of an atomic int64 addition. */
  function Wrap64(x: int): (r: int)
    ensures IsInt64(r)
    ensures IsInt64(x) ==> r == x
    ensures (r - x) % TWO_TO_THE_64 == 0
  {
    (x - INT64_MIN) % TWO_TO_THE_64 + INT64_MIN
  }
}
