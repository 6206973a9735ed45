/** Fixed-width C integers and the tile round-up idiom `(x + (t - 1)) & -t`. */
module Bits {

  const TWO32: int := 0x1_0000_0000
  const TWO63: int := 0x8000_0000_0000_0000
  const TWO64: int := 0x1_0000_0000_0000_0000
  /** `SIZE_MAX` of a 64-bit `size_t`. */
  const SIZE_MAX: int := 0xFFFF_FFFF_FFFF_FFFF

  type u8 = x: int | 0 <= x < 0x100
  type u32 = x: int | 0 <= x < 0x1_0000_0000
  type usize = x: int | 0 <= x < 0x1_0000_0000_0000_0000
  type i32 = x: int | -0x8000_0000 <= x < 0x8000_0000
  type i64 = x: int | -0x8000_0000_0000_0000 <= x < 0x8000_0000_0000_0000

  function Pow2(k: nat): (r: nat)
    ensures r >= 1
  {
    if k == 0 then 1 else 2 * Pow2(k - 1)
  }

  /** t is 1, 2, 4, 8, ... */
  predicate IsPow2(t: nat)
  {
    t == 1 || (t >= 2 && t % 2 == 0 && IsPow2(t / 2))
  }

  /** Bitwise AND of two non-negative integers, one binary digit at a time. */
  function BitAnd(a: nat, b: nat): (r: nat)
    ensures r <= a && r <= b
  {
    if a == 0 || b == 0 then 0
    else 2 * BitAnd(a / 2, b / 2) + (if a % 2 == 1 && b % 2 == 1 then 1 else 0)
  }

  /** Bitwise OR of two non-negative integers, one binary digit at a time. */
  function BitOr(a: nat, b: nat): (r: nat)
    ensures r == 0 <==> a == 0 && b == 0
    ensures r >= a && r >= b
  {
    if a == 0 then b
    else if b == 0 then a
    else 2 * BitOr(a / 2, b / 2) + (if a % 2 == 1 || b % 2 == 1 then 1 else 0)
  }

  /** Unsigned 32-bit negation `-t`. */
  function Neg32(t: u32): u32
  {
    (TWO32 - t) % TWO32
  }

  /** Conversion of a `size_t` to `int64_t` (two's complement). */
  function ToInt64(x: usize): (r: i64)
    ensures x < TWO63 ==> r == x
    ensures x >= TWO63 ==> r < 0 && r + TWO64 == x
  {
    if x < TWO63 then x else x - TWO64
  }

  /**
   * The value `(x + (t - 1)) & -t` stored into a `uint32_t`, where `t` is a
   * `uint32_t`: the additions and the negation wrap modulo 2^32, and only the
   * low 32 bits of `x` reach the result (`-t` is zero-extended before the AND).
   */
  function RoundUpTile(x: nat, t: u32): (r: u32)
    ensures r <= Neg32(t)
    ensures t == 0 ==> r == 0
  {
    BitAnd((x + (t + TWO32 - 1) % TWO32) % TWO32, Neg32(t))
  }

  lemma {:induction false} Pow2Add(a: nat, b: nat)
    ensures Pow2(a + b) == Pow2(a) * Pow2(b)
  {
    if a > 0 {
      Pow2Add(a - 1, b);
      assert Pow2(a + b) == 2 * Pow2(a - 1 + b);
    }
  }

  lemma Pow2At32()
    ensures Pow2(32) == TWO32
  {
    assert Pow2(4) == 16;
    Pow2Add(4, 4);
    Pow2Add(8, 8);
    Pow2Add(16, 16);
  }

  lemma MulAwayFromZero(h: int, e: int)
    requires h > 0
    ensures e >= 1 ==> h * e >= h
    ensures e <= -1 ==> h * e <= -h
  {
  }

  /** Euclidean division is unique. */
  lemma ModUnique(a: int, h: int, q: int, s: int)
    requires h > 0 && a == h * q + s && 0 <= s < h
    ensures a % h == s && a / h == q
  {
    var d, m := a / h, a % h;
    assert a == h * d + m;
    assert h * (q - d) == m - s;
    MulAwayFromZero(h, q - d);
  }

  lemma HalfMod(y: nat, t: nat)
    requires t >= 2 && t % 2 == 0
    ensures y % t == 2 * ((y / 2) % (t / 2)) + y % 2
  {
    var q, r, h := y / t, y % t, t / 2;
    assert y == t * q + r;
    assert t * q == 2 * (h * q);
    assert y / 2 == h * q + r / 2;
    ModUnique(y / 2, h, q, r / 2);
  }

  lemma {:induction false} AllOnes(y: nat, n: nat)
    requires y < Pow2(n)
    ensures BitAnd(y, Pow2(n) - 1) == y
  {
    if n > 0 && y > 0 {
      AllOnes(y / 2, n - 1);
    }
  }

  /** ANDing with `2^n - t` clears the bits of `y` below the power of two `t`. */
  lemma {:induction false} ClearLow(y: nat, n: nat, t: nat)
    requires IsPow2(t) && t <= Pow2(n) && y < Pow2(n)
    ensures BitAnd(y, Pow2(n) - t) == y - y % t
  {
    if t == 1 {
      AllOnes(y, n);
    } else if t == Pow2(n) {
      ClearAll(y, t);
    } else if y > 0 {
      assert t >= 2 && t % 2 == 0 && IsPow2(t / 2);
      var m := Pow2(n) - t;
      assert n >= 1 && m % 2 == 0 && m / 2 == Pow2(n - 1) - t / 2
             && t / 2 <= Pow2(n - 1) && y / 2 < Pow2(n - 1) by {
        assert Pow2(n) == 2 * Pow2(n - 1);
      }
      HalfStep(y, m, t, BitAnd(y / 2, m / 2));
      ClearLow(y / 2, n - 1, t / 2);
    } else {
      ClearAll(y, t);
    }
  }

  lemma ClearAll(y: nat, t: nat)
    requires y < t
    ensures y - y % t == 0
  {
    ModUnique(y, t, 0, y);
  }

  lemma HalfStep(y: nat, m: nat, t: nat, half: nat)
    requires y > 0 && m > 0 && m % 2 == 0 && t >= 2 && t % 2 == 0
    requires half == BitAnd(y / 2, m / 2)
    ensures half == y / 2 - (y / 2) % (t / 2) ==> BitAnd(y, m) == y - y % t
  {
    assert BitAnd(y, m) == 2 * half;
    HalfMod(y, t);
  }

  /**
   * When `t` is a power of two and `x + t - 1` fits in 32 bits, the round-up
   * idiom yields the least multiple of `t` that is at least `x`.
   */
  lemma RoundUpTileIsLeastMultiple(x: nat, t: u32)
    requires IsPow2(t) && x + t - 1 < TWO32
    ensures RoundUpTile(x, t) % t == 0
    ensures x <= RoundUpTile(x, t) < x + t
    ensures forall k: nat :: x <= k * t ==> RoundUpTile(x, t) <= k * t
  {
    RoundUpTileValue(x, t);
    LeastMultiple(x, t);
  }

  lemma RoundUpTileValue(x: nat, t: u32)
    requires IsPow2(t) && x + t - 1 < TWO32
    ensures RoundUpTile(x, t) == x + t - 1 - (x + t - 1) % t
  {
    RoundUpTileOperands(x, t);
    ClearLow32(x + t - 1, t);
  }

  /** Without wrap-around, the operands of the AND are `x + t - 1` and `2^32 - t`. */
  lemma RoundUpTileOperands(x: nat, t: u32)
    requires 1 <= t && x + t - 1 < TWO32
    ensures RoundUpTile(x, t) == BitAnd(x + t - 1, TWO32 - t)
  {
    var y := x + t - 1;
    ModUnique(t + TWO32 - 1, TWO32, 1, t - 1);
    ModUnique(y, TWO32, 0, y);
    ModUnique(TWO32 - t, TWO32, 0, TWO32 - t);
  }

  lemma ClearLow32(y: nat, t: nat)
    requires IsPow2(t) && t <= TWO32 && y < TWO32
    ensures BitAnd(y, TWO32 - t) == y - y % t
  {
    Pow2At32();
    ClearLow(y, 32, t);
  }

  /** `y - y % t` with `y = x + t - 1` is the least multiple of `t` reaching `x`. */
  lemma LeastMultiple(x: nat, t: nat)
    requires t >= 1
    ensures (x + t - 1 - (x + t - 1) % t) % t == 0
    ensures x <= x + t - 1 - (x + t - 1) % t < x + t
    ensures forall k: nat :: x <= k * t ==> x + t - 1 - (x + t - 1) % t <= k * t
  {
    var y := x + t - 1;
    var q := y / t;
    var r := y - y % t;
    assert r == t * q by {
      assert y == t * q + y % t;
    }
    ModUnique(r, t, q, 0);
    forall k: nat | x <= k * t
      ensures r <= k * t
    {
      MulMono(t, k, q);
    }
  }

  lemma MulMono(t: nat, k: nat, q: nat)
    ensures k < q ==> k * t <= q * t - t
    ensures k >= q ==> k * t >= q * t
  {
    if k < q {
      assert (q - k) * t >= t by {
        if t > 0 {
          MulAwayFromZero(t, q - k);
        }
      }
      assert q * t - k * t == (q - k) * t;
    } else {
      assert k * t - q * t == (k - q) * t;
    }
  }

  lemma MulLe(a: nat, b: nat, r: nat)
    requires a <= b
    ensures a * r <= b * r
  {
    MulMono(r, a, b);
  }

  lemma MulAssoc(a: int, b: int, c: int)
    ensures a * b * c == a * (b * c)
  {
  }

  lemma MulDistrib(a: int, b: int, r: int)
    ensures a * r + b * r == (a + b) * r
  {
  }

  lemma MulNonneg(a: nat, b: nat)
    ensures a * b >= 0
  {
  }

  lemma MulZero(a: int, b: int)
    ensures b == 0 ==> a * b == 0
  {
  }

  /** The same fact on 32-bit machine words. */
  lemma RoundUpMaskBv(x: bv32, t: bv32)
    requires t != 0 && t & (t - 1) == 0
    requires x <= x + (t - 1)
    ensures (x + (t - 1)) & -t & (t - 1) == 0
    ensures x <= (x + (t - 1)) & -t
    ensures ((x + (t - 1)) & -t) - x < t
  {
  }
}
