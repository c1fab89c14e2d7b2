/** The fixed-width integer types of the Go code, with their conversions written out. */
module Ints {

  newtype byte = x: int | 0 <= x < 0x100
  newtype int32 = x: int | -0x8000_0000 <= x < 0x8000_0000
  newtype int64 = x: int | -0x8000_0000_0000_0000 <= x < 0x8000_0000_0000_0000

  const TwoTo64: nat := 0x1_0000_0000_0000_0000

  /** Go's `uint(x)` for an int64 on a 64-bit platform: two's-complement reinterpretation. */
  function ToUint(x: int64): (r: nat)
    ensures r < TwoTo64
    ensures x >= 0 ==> r == x as int
    ensures x < 0 ==> r == TwoTo64 + x as int
  {
    (x as int) % TwoTo64
  }
}
