/** The clock component's power-of-two approximation of the frame rate, on 32-bit words. */
module FrameRateLog {

  /** Round x up to the next power of two. */
  function NextPow2(x: bv32): bv32 {
    var a := x - 1;
    var b := (a >> 1) | a;
    var c := (b >> 2) | b;
    var d := (c >> 4) | c;
    var e := (d >> 8) | d;
    var f := (e >> 16) | e;
    f + 1
  }

  const BIT_POSITIONS: seq<nat> := [
    0, 1, 28, 2, 29, 14, 24, 3, 30, 22, 20, 15, 25, 17, 4, 8,
    31, 27, 13, 23, 21, 19, 16, 7, 26, 12, 18, 6, 11, 5, 10, 9]

  /** The table index of a word: a multiplicative hash of its lowest set bit. */
  function BitHash(x: bv32): bv32 {
    ((x & (0 - x)) * 0x077CB531) >> 27
  }

  lemma HashIsIndex(x: bv32)
    ensures BitHash(x) < 32
  {
  }

  function Pow2Shift(x: bv32): (r: nat)
    ensures r < 32
  {
    HashIsIndex(x);
    var i := BitHash(x) as int;
    BIT_POSITIONS[i]
  }

  lemma ShiftOfBit(k: nat)
    requires k < 32
    ensures Pow2Shift(1 << k) == k
  {
    match k {
      case 0 => case 1 => case 2 => case 3 => case 4 => case 5 => case 6 => case 7 =>
      case 8 => case 9 => case 10 => case 11 => case 12 => case 13 => case 14 => case 15 =>
      case 16 => case 17 => case 18 => case 19 => case 20 => case 21 => case 22 => case 23 =>
      case 24 => case 25 => case 26 => case 27 => case 28 => case 29 => case 30 => case 31 =>
    }
  }

  /** Smearing the bits of x - 1 downwards and adding one gives the next power of two. */
  lemma NextPow2Rounds(x: bv32, w: bv32)
    requires w != 0 && w & (w - 1) == 0 && w >> 1 < x <= w
    ensures NextPow2(x) == w
  {
  }

  lemma BitIsPower(k: nat)
    requires 1 <= k < 32
    ensures var w: bv32 := 1 << k; w != 0 && w & (w - 1) == 0 && w >> 1 == 1 << (k - 1)
  {
  }

  /** The composition is the logarithm to base two, rounded up: whichever k has
      2^(k-1) < x <= 2^k is the result; for 1 the result is 0. */
  lemma LogRoundsUp(x: bv32, k: nat)
    requires 1 <= k < 32 && 1 << (k - 1) < x <= 1 << k
    ensures Pow2Shift(NextPow2(x)) == k && Pow2Shift(NextPow2(1)) == 0
  {
    BitIsPower(k);
    NextPow2Rounds(x, 1 << k);
    ShiftOfBit(k);
    LogOfOne();
  }

  lemma LogOfOne()
    ensures Pow2Shift(NextPow2(1)) == 0 && Pow2Shift(NextPow2(0)) == 0
  {
    assert NextPow2(1) == 1 && BitHash(1) == 0;
    assert NextPow2(0) == 0 && BitHash(0) == 0;
  }
}
