/**
 Java's fixed-width integers. Dafny's `int` is unbounded, so the 32-bit
 wrap-around of Java `int` addition is written out explicitly.
 */
module JavaInt {

  const INT_MIN: int := -0x8000_0000
  const INT_MAX: int := 0x7fff_ffff
  const LONG_MIN: int := -0x8000_0000_0000_0000
  const LONG_MAX: int := 0x7fff_ffff_ffff_ffff

  /** 2^32, the modulus of Java `int` arithmetic */
  const INT_RANGE: int := 0x1_0000_0000

  /** A value of Java type `int` */
  type Int32 = x: int | INT_MIN <= x <= INT_MAX

  /** A value of Java type `long` */
  type Int64 = x: int | LONG_MIN <= x <= LONG_MAX

  /** A reading of System.currentTimeMillis(): a non-negative `long` of milliseconds since the epoch */
  type Millis = x: int | 0 <= x <= LONG_MAX

  /** The two's-complement reduction of an exact integer to 32 bits: what Java's `int` `+` yields */
  function Wrap32(x: int): (r: Int32)
    ensures (r - x) % INT_RANGE == 0
    ensures INT_MIN <= x <= INT_MAX ==> r == x
  {
    (x - INT_MIN) % INT_RANGE + INT_MIN
  }

  /** Wrapping an intermediate sum does not change the final wrapped result */
  lemma Wrap32Absorbs(a: int, b: int)
    ensures Wrap32(Wrap32(a) + b) == Wrap32(a + b)
  {
  }
}
