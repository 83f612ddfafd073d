/** Java's 32-bit two's-complement `int`, as far as the widget needs it. */
module JavaInt {

  const MIN_INT: int := -0x8000_0000
  const MAX_INT: int := 0x7fff_ffff
  const INT_MODULUS: int := 0x1_0000_0000

  /** The values a Java `int` can hold. */
  type int32 = x: int | -0x8000_0000 <= x <= 0x7fff_ffff

  /** The value a Java `int` expression takes when its mathematical value is `v`:
      `v` itself when it fits, otherwise `v` wrapped around modulo 2^32. */
  function Wrap(v: int): (r: int32)
    ensures (r - v) % INT_MODULUS == 0
    ensures MIN_INT <= v <= MAX_INT ==> r == v
  {
    (v - MIN_INT) % INT_MODULUS + MIN_INT
  }
}
