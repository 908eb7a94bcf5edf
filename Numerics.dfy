/** The fixed-width integers of C# that the model needs: `int` (32 bits) and `long` (64 bits). */
module Numerics {

  newtype int32 = x: int | -0x8000_0000 <= x < 0x8000_0000

  newtype int64 = x: int | -0x8000_0000_0000_0000 <= x < 0x8000_0000_0000_0000

  const MinInt64: int64 := -0x8000_0000_0000_0000
  const MaxInt64: int64 := 0x7FFF_FFFF_FFFF_FFFF

  /** `x + 1` on a `long` in C#'s default unchecked context: arithmetic modulo 2^64. */
  function WrappingIncrement(x: int64): (r: int64)
    ensures x < MaxInt64 ==> r as int == x as int + 1
    ensures x == MaxInt64 ==> r == MinInt64
  {
    ((x as int + 1 - MinInt64 as int) % 0x1_0000_0000_0000_0000 + MinInt64 as int) as int64
  }
}
