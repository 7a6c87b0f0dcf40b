/**
 The C type int: 32 bits, two's complement.
 */
module CInt {

  const TWO31: int := 0x8000_0000
  const TWO32: int := 0x1_0000_0000

  predicate FitsInt(x: int) { -TWO31 <= x < TWO31 }

  /** Conversion of an integer to int; also what int arithmetic gives where it wraps around. */
  function ToInt(x: int): (r: int)
    ensures FitsInt(r)
  {
    (x + TWO31) % TWO32 - TWO31
  }

  /** Which stretch of 2^32 integers the conversion maps x in. */
  function Window(x: int): int { (x + TWO31) / TWO32 }

  /** The conversion changes a number by a multiple of 2^32. */
  lemma Converted(x: int)
    ensures ToInt(x) == x - TWO32 * Window(x)
    ensures FitsInt(x) <==> ToInt(x) == x
  {
  }

  lemma SameConversion(x: int, y: int, k: int)
    requires x - y == TWO32 * k && FitsInt(y)
    ensures ToInt(x) == y
  {
    Converted(x);
    assert x + TWO31 == TWO32 * k + (y + TWO31);
  }
}
