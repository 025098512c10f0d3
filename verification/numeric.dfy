/** Fixed-width integer conversions and the C library arithmetic the sketch
    relies on: unsigned 32-bit subtraction, narrowing to int16_t, truncating
    division and round(). */
module Numeric {

  const TWO_32: int := 0x1_0000_0000
  const TWO_16: int := 0x1_0000

  /** Values of a uint32_t (millis(), timestamps). */
  type U32 = x: int | 0 <= x < TWO_32

  /** Values of an int16_t (cursor coordinates, pixel offsets). */
  type I16 = x: int | -0x8000 <= x < 0x8000

  /** The conversion `(uint32_t) x`: reduction modulo 2^32. */
  function ToU32(x: int): (r: U32)
    ensures (x - r) % TWO_32 == 0
    ensures 0 <= x < TWO_32 ==> r == x
  {
    x % TWO_32
  }

  /** The conversion `(int16_t) x`, which wraps modulo 2^16 on the target. */
  function ToI16(x: int): (r: I16)
    ensures (x - r) % TWO_16 == 0
    ensures -0x8000 <= x < 0x8000 ==> r == x
  {
    (x + 0x8000) % TWO_16 - 0x8000
  }

  /** The uint32_t subtraction `a - b`, which wraps around below zero. */
  function SubU32(a: U32, b: U32): (r: U32)
    ensures b <= a ==> r == a - b
    ensures a < b ==> r == a - b + TWO_32
  {
    (a - b) % TWO_32
  }

  /** The wrapped difference of two readings of a free-running 32-bit
      millisecond counter is the true elapsed time, provided less than 2^32 ms
      (about 49.7 days) passed between them. */
  lemma ElapsedSurvivesWrap(t0: int, t1: int)
    requires 0 <= t0 && t0 <= t1 < t0 + TWO_32
    ensures SubU32(ToU32(t1), ToU32(t0)) == t1 - t0
  {
    var q0, q1 := t0 / TWO_32, t1 / TWO_32;
    assert t0 == q0 * TWO_32 + ToU32(t0);
    assert t1 == q1 * TWO_32 + ToU32(t1);
    if q1 == q0 {
      assert ToU32(t1) - ToU32(t0) == t1 - t0;
    } else {
      assert q1 == q0 + 1;
      assert ToU32(t1) - ToU32(t0) == t1 - t0 - TWO_32;
    }
  }

  /** C integer division of `a` by a positive `b`: the quotient is truncated
      toward zero, so the remainder takes the sign of the dividend. */
  function CDiv(a: int, b: int): (q: int)
    requires b > 0
    ensures a >= 0 ==> 0 <= a - q * b < b
    ensures a < 0 ==> -b < a - q * b <= 0
  {
    if a >= 0 then a / b else -((-a) / b)
  }

  /** Halving an even number is exact, so truncation and Dafny's (flooring)
      division agree on it. */
  lemma CDivOfDouble(k: int)
    ensures CDiv(2 * k, 2) == k
    ensures (2 * k) / 2 == k
  {
  }

  /** C `round()`: nearest integer, halfway cases away from zero. */
  function Round(x: real): (r: int)
    ensures x >= 0.0 ==> r as real - 0.5 <= x < r as real + 0.5
    ensures x < 0.0 ==> r as real - 0.5 < x <= r as real + 0.5
  {
    if x >= 0.0 then (x + 0.5).Floor else -((0.5 - x).Floor)
  }

  /** Rounding is monotone: it cannot swap the order of two readings. */
  lemma RoundMonotone(x: real, y: real)
    requires x <= y
    ensures Round(x) <= Round(y)
  {
  }

  /** Rounding never moves a value by more than one half, and integers are fixed. */
  lemma RoundNearest(x: real, k: int)
    ensures Round(k as real) == k
    ensures -0.5 <= x - Round(x) as real <= 0.5
  {
  }
}
