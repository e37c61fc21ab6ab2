/** Kotlin's fixed-width integers and the library helpers the game uses on them.
    Dafny integers are unbounded, so every wrap-around is written out here. */
module Numeric {

  const INT32_MIN: int := -0x8000_0000
  const INT32_MAX: int := 0x7FFF_FFFF
  const INT64_MIN: int := -0x8000_0000_0000_0000
  const INT64_MAX: int := 0x7FFF_FFFF_FFFF_FFFF

  /** Kotlin `Int`. */
  type Int32 = x: int | -0x8000_0000 <= x <= 0x7FFF_FFFF

  /** Kotlin `Long`. */
  type Int64 = x: int | -0x8000_0000_0000_0000 <= x <= 0x7FFF_FFFF_FFFF_FFFF

  /** `Long.toInt()`, and the result of an `Int` addition: keeps the low 32 bits. */
  function ToInt32(x: int): (r: Int32)
    ensures INT32_MIN <= x <= INT32_MAX ==> r == x
    ensures (x - r) % 0x1_0000_0000 == 0
  {
    var k := (x - INT32_MIN) / 0x1_0000_0000;
    var r := (x - INT32_MIN) % 0x1_0000_0000 + INT32_MIN;
    assert x - r == k * 0x1_0000_0000;
    r
  }

  /** The result of a `Long` subtraction: keeps the low 64 bits. */
  function ToInt64(x: int): (r: Int64)
    ensures INT64_MIN <= x <= INT64_MAX ==> r == x
    ensures (x - r) % 0x1_0000_0000_0000_0000 == 0
  {
    var k := (x - INT64_MIN) / 0x1_0000_0000_0000_0000;
    var r := (x - INT64_MIN) % 0x1_0000_0000_0000_0000 + INT64_MIN;
    assert x - r == k * 0x1_0000_0000_0000_0000;
    r
  }

  /** Kotlin's `/` on integers, which rounds toward zero (Dafny's `/` is Euclidean). */
  function TruncDiv(a: int, b: int): (q: int)
    requires b > 0
    ensures 0 <= a ==> 0 <= a - q * b < b
    ensures a < 0 ==> -b < a - q * b <= 0
  {
    if a >= 0 then a / b else -((-a) / b)
  }

  /** Kotlin `coerceIn(lo, hi)`. */
  function CoerceIn(x: int, lo: int, hi: int): (r: int)
    requires lo <= hi
    ensures lo <= r <= hi
    ensures lo <= x <= hi ==> r == x
    ensures x < lo ==> r == lo
    ensures hi < x ==> r == hi
  {
    if x < lo then lo else if x > hi then hi else x
  }

  /** Kotlin `coerceAtLeast(lo)`. */
  function CoerceAtLeast(x: int, lo: int): (r: int)
    ensures lo <= r && x <= r
    ensures r == x || r == lo
  {
    if x < lo then lo else x
  }
}
