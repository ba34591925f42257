/** The C integer types of a 64-bit (LP64) kernel build that the module's
    arithmetic passes through, and the conversions C applies between them.
    `long`, `time64_t` and `unsigned long` are 64 bits wide; the kernel is
    built so that signed overflow wraps around in two's complement. */
module CInt {

  const TWO_TO_THE_32: int := 0x1_0000_0000
  const TWO_TO_THE_63: int := 0x8000_0000_0000_0000
  const TWO_TO_THE_64: int := 0x1_0000_0000_0000_0000

  /** u32 */
  type U32 = x: int | 0 <= x < TWO_TO_THE_32
  /** u64 and unsigned long */
  type U64 = x: int | 0 <= x < TWO_TO_THE_64
  /** long and time64_t */
  type S64 = x: int | -TWO_TO_THE_63 <= x < TWO_TO_THE_63

  /** The value a u64 variable holds after being assigned the mathematical `x`. */
  function WrapU64(x: int): (r: U64)
    ensures exists k: int :: x == r + k * TWO_TO_THE_64
    ensures 0 <= x < TWO_TO_THE_64 ==> r == x
  {
    var r := x % TWO_TO_THE_64;
    assert x == r + (x / TWO_TO_THE_64) * TWO_TO_THE_64;
    r
  }

  /** The value a 64-bit signed variable holds after being assigned the
      mathematical `x` (two's-complement wrap-around). */
  function WrapS64(x: int): (r: S64)
    ensures exists k: int :: x == r + k * TWO_TO_THE_64
    ensures -TWO_TO_THE_63 <= x < TWO_TO_THE_63 ==> r == x
  {
    var r := (x + TWO_TO_THE_63) % TWO_TO_THE_64 - TWO_TO_THE_63;
    assert x == r + ((x + TWO_TO_THE_63) / TWO_TO_THE_64) * TWO_TO_THE_64;
    r
  }

  /** The C cast `(unsigned long) x` of a signed 64-bit value. */
  function AsUnsignedLong(x: S64): (r: U64)
    ensures r == x % TWO_TO_THE_64
  {
    if x < 0 then x + TWO_TO_THE_64 else x
  }

  /** A signed addition that wraps, followed by a cast to unsigned long, gives
      the mathematical sum reduced modulo 2^64, whatever the signs. */
  lemma AddThenCast(a: S64, b: S64)
    ensures AsUnsignedLong(WrapS64(a + b)) == (a + b) % TWO_TO_THE_64
  {
  }

  /** Accumulating into a u64 one term at a time is addition modulo 2^64. */
  lemma AccumulateU64(acc: int, x: int)
    ensures WrapU64(acc % TWO_TO_THE_64 + x) == (acc + x) % TWO_TO_THE_64
  {
  }

  /** Reducing a value within 2^64 of the u64 range: non-negative values are
      kept, negative ones move up by 2^64. */
  lemma ResidueNearRange(x: int)
    requires -TWO_TO_THE_64 <= x < TWO_TO_THE_64
    ensures 0 <= x ==> x % TWO_TO_THE_64 == x
    ensures x < 0 ==> x % TWO_TO_THE_64 == x + TWO_TO_THE_64
  {
  }
}
