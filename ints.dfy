/**
 * Fixed-width integer arithmetic of the driver's C++ target, written out over
 * Dafny's unbounded `int`. The target is assumed to have a 32-bit `int`, so every
 * `uint8_t`, `uint16_t` and `int16_t` operand is promoted to a 32-bit `int` before
 * arithmetic, and results are narrowed again when they are stored.
 */
module Ints {

  type uint8 = x: int | 0 <= x < 0x100
  type uint16 = x: int | 0 <= x < 0x1_0000
  type int16 = x: int | -0x8000 <= x < 0x8000
  type int32 = x: int | -0x8000_0000 <= x < 0x8000_0000

  /** `abs` of the C library on a promoted `int`. */
  function Abs(v: int): (r: int)
    ensures r >= 0 && (r == v || r == -v)
  {
    if v < 0 then -v else v
  }

  /** Conversion of an `int` to `int16_t`: keeps the value modulo 2^16 (two's complement). */
  function Wrap16(v: int): (r: int16)
    ensures (v - r) % 0x1_0000 == 0
    ensures -0x8000 <= v < 0x8000 ==> r == v
  {
    (v + 0x8000) % 0x1_0000 - 0x8000
  }

  /**
   * A 32-bit signed result. C++ leaves signed overflow undefined; the model
   * assumes the two's complement wrap-around of the targets the driver runs on.
   */
  function Wrap32(v: int): (r: int32)
    ensures (v - r) % 0x1_0000_0000 == 0
    ensures -0x8000_0000 <= v < 0x8000_0000 ==> r == v
  {
    (v + 0x8000_0000) % 0x1_0000_0000 - 0x8000_0000
  }

  /** Narrowing a 32-bit intermediate to 16 bits is the same as narrowing the exact value. */
  lemma Wrap16OfWrap32(v: int)
    ensures Wrap16(Wrap32(v)) == Wrap16(v)
  {
    var k := (v + 0x8000_0000) / 0x1_0000_0000;
    assert Wrap32(v) == v - k * 0x1_0000_0000;
    assert Wrap32(v) + 0x8000 == (v + 0x8000) + (-k * 0x1_0000) * 0x1_0000;
  }

  /**
   * C++ `/` on signed integers: the quotient is truncated toward zero, so the
   * remainder `a - q * b` has the sign of `a` and is smaller than `b` in magnitude.
   * (Dafny's own `/` is Euclidean and differs when `a` or `b` is negative.)
   */
  function TDiv(a: int, b: int): (q: int)
    requires b != 0
    ensures a >= 0 ==> 0 <= a - q * b < Abs(b)
    ensures a < 0 ==> -Abs(b) < a - q * b <= 0
  {
    if a >= 0 then
      if b > 0 then a / b else -(a / -b)
    else
      if b > 0 then -(-a / b) else -a / -b
  }

  /** Only a zero factor keeps a multiple of `b` below `b`. */
  lemma SmallMultiple(m: int, b: int)
    requires b > 0 && 0 <= m * b < b
    ensures m == 0
  {
  }

  /** Euclidean division of an exact multiple by a positive divisor. */
  lemma DivExact(k: int, b: int)
    requires b > 0
    ensures (k * b) / b == k
  {
    var q, r := (k * b) / b, (k * b) % b;
    assert q * b + r == k * b;
    assert (k - q) * b == r by {
      assert (k - q) * b == k * b - q * b;
    }
    SmallMultiple(k - q, b);
  }

  /** Dividing an exact multiple gives back the factor. */
  lemma TDivExact(k: int, b: int)
    requires b != 0
    ensures TDiv(k * b, b) == k
  {
    if b > 0 {
      DivExact(k, b);
      if k * b < 0 {
        assert -(k * b) == (-k) * b;
        DivExact(-k, b);
      }
    } else {
      assert k * b == (-k) * (-b);
      DivExact(-k, -b);
      if k * b < 0 {
        assert -(k * b) == k * (-b);
        DivExact(k, -b);
      }
    }
  }
}
