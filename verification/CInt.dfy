/** C integer arithmetic as the sources use it: two's complement int64 wrap-around,
    division that truncates toward zero, and arithmetic right shift that floors. */
module CInt {

  const TWO_63: int := 0x8000_0000_0000_0000
  const TWO_64: int := 0x1_0000_0000_0000_0000
  const MAX_TIME: int := TWO_63 - 1
  const MIN_TIME: int := -TWO_63

  /** The value of a time-stamp that is not known. */
  const TIME_UNKNOWN: int := MIN_TIME

  type byte = x: int | 0 <= x < 256

  predicate InRange(x: int) {
    MIN_TIME <= x <= MAX_TIME
  }

  /** The int64 value congruent to x modulo 2^64. */
  function Wrap(x: int): (r: int)
    ensures InRange(r)
    ensures InRange(x) ==> r == x
    ensures TWO_63 <= x < TWO_63 + TWO_64 ==> r == x - TWO_64
    ensures -TWO_63 - TWO_64 <= x < -TWO_63 ==> r == x + TWO_64
  {
    (x + TWO_63) % TWO_64 - TWO_63
  }

  function Abs(x: int): int {
    if x < 0 then -x else x
  }

  function Min(a: int, b: int): int {
    if a < b then a else b
  }

  function Max(a: int, b: int): int {
    if a > b then a else b
  }

  /** C division. */
  function DivTrunc(a: int, b: int): int
    requires b > 0
  {
    if a >= 0 then a / b else -((-a) / b)
  }

  /** C arithmetic shift right: Dafny's division by a positive number already floors. */
  function ShiftRight(x: int, d: int): int
    requires d > 0
  {
    x / d
  }

  function Pow2(n: nat): (p: int)
    ensures p >= 1
  {
    if n == 0 then 1 else 2 * Pow2(n - 1)
  }

  lemma Pow2Doubles(n: nat)
    ensures Pow2(0) == 1 && Pow2(n + 1) == 2 * Pow2(n)
  {
  }

  function SaturateAdd(a: int, b: int): int
    requires InRange(a) && InRange(b)
  {
    var sum := Wrap(a + b);
    if a > 0 && b > 0 && sum < 0 then MAX_TIME
    else if a < 0 && b < 0 && sum > 0 then MIN_TIME
    else sum
  }

  function Clamp(x: int, lo: int, hi: int): int {
    if x < lo then lo else if x > hi then hi else x
  }

  /** The addition saturates on every pair of int64 values except one: two copies of the
      most negative value wrap to 0, which the test for a positive sum does not see. */
  lemma SaturateAddIsClamp(a: int, b: int)
    requires InRange(a) && InRange(b)
    ensures SaturateAdd(a, b) == Clamp(a + b, MIN_TIME, MAX_TIME) <==> !(a == MIN_TIME && b == MIN_TIME)
    ensures a == MIN_TIME && b == MIN_TIME ==> SaturateAdd(a, b) == 0
    ensures SaturateAdd(a, b) == a + b <==> InRange(a + b)
  {
    assert Wrap(a + b) == if a + b > MAX_TIME then a + b - TWO_64 else if a + b < MIN_TIME then a + b + TWO_64 else a + b;
  }

  lemma MulMono(x: int, y: int, b: int)
    requires x <= y && 0 <= b
    ensures x * b <= y * b
  {
  }

  lemma DivAtMost(a: int, b: int, hi: int)
    requires b > 0 && a <= hi * b
    ensures a / b <= hi
  {
    if hi + 1 <= a / b {
      MulMono(hi + 1, a / b, b);
      assert false;
    }
  }

  lemma DivBelow(a: int, b: int, hi: int)
    requires b > 0 && a < hi * b
    ensures a / b < hi
  {
    if hi <= a / b {
      MulMono(hi, a / b, b);
      assert false;
    }
  }

  lemma DivAtLeast(a: int, b: int, lo: int)
    requires b > 0 && lo * b <= a
    ensures lo <= a / b
  {
    if a / b + 1 <= lo {
      MulMono(a / b + 1, lo, b);
      assert false;
    }
  }

  /** Truncated division keeps bounds that are integers. */
  lemma DivTruncBounds(a: int, b: int, lo: int, hi: int)
    requires b > 0 && lo * b <= a <= hi * b
    ensures lo <= DivTrunc(a, b) <= hi
  {
    if a >= 0 {
      DivAtMost(a, b, hi);
      DivAtLeast(a, b, lo);
    } else {
      assert -a <= (-lo) * b && (-hi) * b <= -a;
      DivAtMost(-a, b, -lo);
      DivAtLeast(-a, b, -hi);
    }
  }
}
