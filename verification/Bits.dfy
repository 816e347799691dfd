/**
 Bit-level arithmetic on unsigned 64-bit quantities, kept as mathematical integers.

 The kernel aligns addresses and tests alignment with masks (`x & !(align - 1)`,
 `base & (size - 1) == 0`). The masks are modelled bit by bit here and proved to be the
 quotients and remainders that the rest of the project reasons with.
 */
module Bits {

  const TWO_64: nat := 0x1_0000_0000_0000_0000

  type u64 = x: int | 0 <= x < TWO_64

  /** Wrap-around of one 64-bit addition or subtraction. */
  function Wrap(x: int): u64
    requires 0 <= x + TWO_64 < 3 * TWO_64
  {
    if x < 0 then x + TWO_64 else if x >= TWO_64 then x - TWO_64 else x
  }

  function Pow2(k: nat): (p: nat)
    ensures p >= 1
  {
    if k == 0 then 1 else 2 * Pow2(k - 1)
  }

  /** `u64::is_power_of_two`. */
  predicate IsPowerOfTwo(n: nat) {
    n == 1 || (n > 1 && n % 2 == 0 && IsPowerOfTwo(n / 2))
  }

  function Log2(n: nat): (k: nat)
    requires IsPowerOfTwo(n)
    ensures Pow2(k) == n
  {
    if n == 1 then 0 else 1 + Log2(n / 2)
  }

  lemma {:induction false} Pow2IsPowerOfTwo(k: nat)
    ensures IsPowerOfTwo(Pow2(k))
    ensures Log2(Pow2(k)) == k
  {
    if k > 0 {
      Pow2IsPowerOfTwo(k - 1);
      var p := Pow2(k - 1);
      assert 2 * p / 2 == p && 2 * p % 2 == 0;
    }
  }

  lemma {:induction false} Pow2Add(a: nat, b: nat)
    ensures Pow2(a + b) == Pow2(a) * Pow2(b)
  {
    if a > 0 {
      Pow2Add(a - 1, b);
      assert Pow2(a) * Pow2(b) == 2 * (Pow2(a - 1) * Pow2(b));
    }
  }

  lemma {:induction false} Pow2Strict(a: nat, b: nat)
    requires a < b
    ensures Pow2(a) < Pow2(b)
  {
    if a + 1 < b {
      Pow2Strict(a, b - 1);
    }
  }

  lemma MultipleBound(e: int, d: int)
    requires d > 0
    ensures e >= 1 ==> e * d >= d
    ensures e <= -1 ==> e * d <= -d
  {
  }

  /** Quotient and remainder are determined by the division equation. */
  lemma DivModUnique(n: int, d: int, q: int, r: int)
    requires d > 0 && 0 <= r < d && n == q * d + r
    ensures n / d == q && n % d == r
  {
    var e := n / d - q;
    assert e * d == r - n % d by {
      assert n == d * (n / d) + n % d;
    }
    MultipleBound(e, d);
  }

  lemma RemainderBound(x: nat, d: nat)
    requires d > 0
    ensures x % d <= x
  {
    assert x == d * (x / d) + x % d;
    MultipleBound(x / d, d);
  }

  lemma RoundDownIsMultiple(x: nat, a: nat)
    requires a > 0
    ensures (x - x % a) % a == 0 && x - x % a == x / a * a
  {
    assert x == x / a * a + x % a;
    DivModUnique(x - x % a, a, x / a, 0);
  }

  /** Adding multiples of `d` to a multiple of `d`. */
  lemma MultipleSum(x: nat, k: nat, d: nat)
    requires d > 0 && x % d == 0
    ensures (x + k * d) % d == 0
  {
    assert x + k * d == (x / d + k) * d;
    DivModUnique(x + k * d, d, x / d + k, 0);
  }

  /** The multiple of `a` that `c + a - 1` rounds down to. */
  function RoundUp(c: nat, a: nat): nat
    requires a > 0
  {
    c + a - 1 - (c + a - 1) % a
  }

  lemma RoundUpBounds(c: nat, a: nat)
    requires a > 0
    ensures RoundUp(c, a) % a == 0 && c <= RoundUp(c, a) < c + a
  {
    RoundDownIsMultiple(c + a - 1, a);
  }

  /** It is the least multiple of `a` from `c` on. */
  lemma RoundUpLeast(c: nat, a: nat, m: nat)
    requires a > 0 && m % a == 0 && m >= c
    ensures RoundUp(c, a) <= m
  {
    var x := c + a - 1;
    RoundDownIsMultiple(x, a);
    RoundDownIsMultiple(m, a);
    var e := m / a - x / a;
    assert e * a == m / a * a - x / a * a;
    MultipleBound(e, a);
  }

  /** Peeling the lowest bit off a remainder modulo an even number. */
  lemma ModPeel(x: nat, p: nat)
    requires p > 0
    ensures x % (2 * p) == 2 * (x / 2 % p) + x % 2
  {
    var q, r := x / 2 / p, x / 2 % p;
    assert x / 2 == q * p + r;
    assert x == q * (2 * p) + (2 * r + x % 2);
    DivModUnique(x, 2 * p, q, 2 * r + x % 2);
  }

  /** A quotient is the multiple of the divisor just below the dividend. */
  lemma QuotientRange(n: int, d: int, q: int)
    requires d > 0
    ensures n / d == q <==> q * d <= n < q * d + d
  {
    assert n == n / d * d + n % d;
    if q * d <= n < q * d + d {
      DivModUnique(n, d, q, n - q * d);
    }
  }

  /** Bitwise and of two unsigned integers, bit by bit. */
  function And(x: nat, y: nat): (r: nat)
    ensures r <= x
  {
    if x == 0 || y == 0 then 0
    else 2 * And(x / 2, y / 2) + (if x % 2 == 1 && y % 2 == 1 then 1 else 0)
  }

  /** 64-bit complement. */
  function Not(x: u64): u64 {
    TWO_64 - 1 - x
  }

  lemma {:induction false} AndEven(x: nat, m: nat)
    ensures And(x, 2 * m) == 2 * And(x / 2, m)
  {
    var y := 2 * m;
    assert y / 2 == m && y % 2 == 0;
    if x == 0 || m == 0 {
      assert And(x, y) == 0 && And(x / 2, m) == 0;
    } else {
      assert And(x, y) == 2 * And(x / 2, y / 2);
    }
  }

  lemma {:induction false} AndOdd(x: nat, m: nat)
    ensures And(x, 2 * m + 1) == 2 * And(x / 2, m) + x % 2
  {
    var y := 2 * m + 1;
    assert y / 2 == m && y % 2 == 1;
    if x == 0 {
      assert And(x, y) == 0 && And(x / 2, m) == 0;
    } else {
      assert And(x, y) == 2 * And(x / 2, y / 2) + x % 2;
    }
  }

  /** The low `k` bits of a number. */
  function LowBits(x: nat, k: nat): nat {
    if k == 0 then 0 else 2 * LowBits(x / 2, k - 1) + x % 2
  }

  /** A number with its low `k` bits cleared. */
  function ClearLow(x: nat, k: nat): nat {
    if k == 0 then x else 2 * ClearLow(x / 2, k - 1)
  }

  /** The low bits are the remainder modulo `2^k`. */
  lemma {:induction false} LowBitsIsRemainder(x: nat, k: nat)
    ensures LowBits(x, k) == x % Pow2(k)
  {
    if k > 0 {
      LowBitsIsRemainder(x / 2, k - 1);
      ModPeel(x, Pow2(k - 1));
    }
  }

  lemma {:induction false} ClearLowPlusLowBits(x: nat, k: nat)
    ensures ClearLow(x, k) + LowBits(x, k) == x
  {
    if k > 0 {
      ClearLowPlusLowBits(x / 2, k - 1);
    }
  }

  lemma ClearLowRoundsDown(x: nat, k: nat)
    ensures ClearLow(x, k) == x - x % Pow2(k)
  {
    ClearLowPlusLowBits(x, k);
    LowBitsIsRemainder(x, k);
  }

  lemma {:induction false} ClearLowZero(x: nat, k: nat)
    requires x < Pow2(k)
    ensures ClearLow(x, k) == 0
  {
    if k > 0 {
      ClearLowZero(x / 2, k - 1);
    }
  }

  /** Masking with `2^k - 1` keeps the low `k` bits. */
  lemma {:induction false} AndLowMask(x: nat, k: nat)
    ensures And(x, Pow2(k) - 1) == LowBits(x, k)
  {
    if k > 0 {
      AndLowMask(x / 2, k - 1);
      AndOdd(x, Pow2(k - 1) - 1);
      assert Pow2(k) - 1 == 2 * (Pow2(k - 1) - 1) + 1;
    }
  }

  lemma {:induction false} Pow2Mono(a: nat, b: nat)
    requires a <= b
    ensures Pow2(a) <= Pow2(b)
  {
    if a < b {
      Pow2Strict(a, b);
    }
  }

  /** The ones from bit `k` up to bit `w - 1`. */
  function HighMask(k: nat, w: nat): nat
    requires k <= w
  {
    Pow2Mono(k, w);
    Pow2(w) - Pow2(k)
  }

  /** Masking with `HighMask(k, w)` clears the low `k` bits of a `w`-bit number. */
  lemma {:induction false} AndHighMask(x: nat, k: nat, w: nat)
    requires k <= w && x < Pow2(w)
    ensures And(x, HighMask(k, w)) == ClearLow(x, k)
  {
    if k == w {
      ClearLowZero(x, k);
    } else if k == 0 {
      AndHighMask(x / 2, 0, w - 1);
      AndOdd(x, HighMask(0, w - 1));
      assert HighMask(0, w) == 2 * HighMask(0, w - 1) + 1;
    } else {
      AndHighMask(x / 2, k - 1, w - 1);
      AndEven(x, HighMask(k - 1, w - 1));
      assert HighMask(k, w) == 2 * HighMask(k - 1, w - 1);
    }
  }

  lemma Pow2Double(k: nat, p: nat)
    requires Pow2(k) == p
    ensures Pow2(k + k) == p * p
  {
    Pow2Add(k, k);
  }

  lemma Pow2Of16()
    ensures Pow2(16) == 0x1_0000
  {
    assert Pow2(2) == 4;
    Pow2Double(2, 4);
    Pow2Double(4, 16);
    Pow2Double(8, 256);
  }

  lemma Pow2Of64()
    ensures Pow2(64) == TWO_64
  {
    Pow2Of16();
    Pow2Double(16, 0x1_0000);
    Pow2Double(32, 0x1_0000_0000);
  }

  /** The complemented mask of a power of two clears the bits below it. */
  lemma AndNotMask(x: u64, align: u64)
    requires IsPowerOfTwo(align)
    ensures And(x, Not(align - 1)) == ClearLow(x, Log2(align))
  {
    var k := Log2(align);
    Pow2Of64();
    if k > 64 {
      Pow2Strict(64, k);
    }
    AndHighMask(x, k, 64);
    assert Not(align - 1) == HighMask(k, 64);
  }

  /** `x & (a - 1) == 0`: the kernel's alignment test. */
  predicate Aligned(x: nat, a: nat)
    requires a > 0
  {
    And(x, a - 1) == 0
  }

  /** The alignment test is divisibility, for a power of two. */
  lemma AlignedIsMultiple(x: nat, a: nat)
    requires IsPowerOfTwo(a)
    ensures Aligned(x, a) <==> x % a == 0
  {
    AndLowMask(x, Log2(a));
    LowBitsIsRemainder(x, Log2(a));
  }

  /** `(c + a - 1) & !(a - 1)` is the multiple of `a` that `c` rounds up to. */
  lemma MaskIsRoundUp(c: u64, a: u64)
    requires IsPowerOfTwo(a) && c + a - 1 < TWO_64
    ensures And(c + a - 1, Not(a - 1)) == RoundUp(c, a)
  {
    AndNotMask(c + a - 1, a);
    ClearLowRoundsDown(c + a - 1, Log2(a));
  }
}
