/** Java's 32-bit `int`, and the wrap-around its arithmetic performs. */
module JavaInt {

  const TWO_32: int := 0x1_0000_0000
  const MIN_INT: int := -0x8000_0000
  const MAX_INT: int := 0x7FFF_FFFF

  type int32 = x: int | MIN_INT <= x <= MAX_INT

  /** The value Java's `int` arithmetic yields for the mathematical result `v`. */
  function Wrap(v: int): (r: int32)
    ensures r == v <==> MIN_INT <= v <= MAX_INT
    ensures (r - v) % TWO_32 == 0
  {
    (v - MIN_INT) % TWO_32 + MIN_INT
  }

  const TWO_64: int := 0x1_0000_0000_0000_0000
  const MIN_LONG: int := -0x8000_0000_0000_0000
  const MAX_LONG: int := 0x7FFF_FFFF_FFFF_FFFF

  type int64 = x: int | MIN_LONG <= x <= MAX_LONG

  /** The value Java's `long` arithmetic yields for the mathematical result `v`. */
  function Wrap64(v: int): (r: int64)
    ensures r == v <==> MIN_LONG <= v <= MAX_LONG
    ensures (r - v) % TWO_64 == 0
  {
    (v - MIN_LONG) % TWO_64 + MIN_LONG
  }

  /** `a + b` on Java ints. */
  function Add(a: int32, b: int32): int32 {
    Wrap(a + b)
  }

  /**
   * Java's `a % b` for `b > 0`: the remainder of division truncated toward
   * zero, so it takes the sign of `a`.
   */
  function JavaRem(a: int, b: int): (r: int)
    requires b > 0
    ensures -b < r < b
    ensures a >= 0 ==> r == a % b
    ensures a < 0 ==> r <= 0
  {
    if a >= 0 then a % b else -((-a) % b)
  }

  /** Shifting the argument by a multiple of 2^32 does not change the wrapped value. */
  lemma WrapCongruent(u: int, v: int)
    requires (u - v) % TWO_32 == 0
    ensures Wrap(u) == Wrap(v)
  {
    var k := (u - v) / TWO_32;
    assert u == v + k * TWO_32;
    assert (u - MIN_INT) % TWO_32 == (v - MIN_INT) % TWO_32 by {
      ModShift(v - MIN_INT, k);
    }
  }

  lemma ModShift(a: int, k: int)
    ensures (a + k * TWO_32) % TWO_32 == a % TWO_32
  {
    var q := a / TWO_32;
    var r := a % TWO_32;
    assert a == q * TWO_32 + r;
    assert a + k * TWO_32 == (q + k) * TWO_32 + r;
  }
}

/** The optional value that stands for Java's nullable references to values. */
module Wrappers {
  datatype Option<+T> = None | Some(value: T)
}
