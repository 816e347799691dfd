/**
 The naturally-aligned-power-of-two (NAPOT) encoding of PMP address registers.

 `Encode` is the kernel's arithmetic. `Base`, `Size` and `Matches` are the hardware's reading
 of a register, by the trailing-ones rule in "Address Matching" of section 3.7.1 of the
 RISC-V Privileged Specification v1.12.
 */
module Napot {
  import opened Bits

  /** A region that the kernel's NAPOT encoding represents: power-of-two size, aligned base. */
  predicate Encodable(base: nat, size: nat) {
    size >= 8 && IsPowerOfTwo(size) && Aligned(base, size)
  }

  /** `(base + (size/2 - 1)) >> 2`, in wrapping 64-bit arithmetic. */
  function Encode(base: u64, size: u64): u64 {
    Wrap(base + (size / 2 - 1)) / 4
  }

  function TrailingOnes(a: nat): nat {
    if a % 2 == 1 then 1 + TrailingOnes(a / 2) else 0
  }

  /** Weight of the lowest bit above the run of ones and the zero that ends it. */
  function Span(a: nat): (p: nat)
    ensures p >= 2
  {
    2 * Pow2(TrailingOnes(a))
  }

  /** Hardware reading: a run of `t` ones selects a block of `2^(t+3)` bytes. */
  function Size(a: nat): nat {
    4 * Span(a)
  }

  /** Hardware reading: the run of ones is not part of the block's address. */
  function Base(a: nat): nat {
    RemainderBound(a, Span(a));
    4 * (a - a % Span(a))
  }

  /** Hardware comparison: the bits above the run of ones agree. */
  predicate Matches(a: nat, y: nat) {
    y / 4 / Span(a) == a / Span(a)
  }

  lemma MultipleBelow(a: int, p: int, w: int)
    requires p > 0
    ensures w / p == a / p <==> a - a % p <= w < a - a % p + p
  {
    QuotientRange(w, p, a / p);
  }

  /** The comparison of high bits is membership in the block the register denotes. */
  lemma MatchesIsInterval(a: nat, y: nat)
    ensures Matches(a, y) <==> Base(a) <= y < Base(a) + Size(a)
  {
    MultipleBelow(a, Span(a), y / 4);
  }

  /** The bits of `q`, a zero, and a run of `m` ones. */
  function WithOnes(q: nat, m: nat): nat {
    if m == 0 then 2 * q else 2 * WithOnes(q, m - 1) + 1
  }

  lemma {:induction false} WithOnesRun(q: nat, m: nat)
    ensures TrailingOnes(WithOnes(q, m)) == m
  {
    if m == 0 {
      assert 2 * q % 2 == 0;
    } else {
      var half := WithOnes(q, m - 1);
      WithOnesRun(q, m - 1);
      assert (2 * half + 1) / 2 == half;
      assert TrailingOnes(2 * half + 1) == 1 + TrailingOnes(half);
    }
  }

  lemma Doubled(q: nat, p: nat)
    ensures q * (2 * p) == 2 * (q * p)
  {
  }

  lemma {:induction false} WithOnesValue(q: nat, m: nat)
    ensures WithOnes(q, m) == q * (2 * Pow2(m)) + Pow2(m) - 1
  {
    if m > 0 {
      var p := Pow2(m - 1);
      WithOnesValue(q, m - 1);
      Doubled(q, 2 * p);
      assert 2 * Pow2(m) == 2 * (2 * p);
    }
  }

  /** A power of two from 8 on is four times an even power of two. */
  lemma SizeExponent(size: nat) returns (m: nat)
    requires size >= 8 && IsPowerOfTwo(size)
    ensures size == 8 * Pow2(m)
  {
    assert IsPowerOfTwo(size / 2);
    assert IsPowerOfTwo(size / 2 / 2);
    m := Log2(size / 2 / 2 / 2);
  }

  /** The encoding puts one run of ones below the block number. */
  lemma EncodeIsWithOnes(base: u64, size: u64, q: nat, m: nat)
    requires size == 8 * Pow2(m) && base == 4 * (q * (2 * Pow2(m))) && base + size <= TWO_64
    ensures Encode(base, size) == WithOnes(q, m)
  {
    WithOnesValue(q, m);
  }

  lemma ReadWithOnes(q: nat, m: nat)
    ensures Size(WithOnes(q, m)) == 8 * Pow2(m)
    ensures Base(WithOnes(q, m)) == 4 * (q * (2 * Pow2(m)))
  {
    WithOnesRun(q, m);
    WithOnesValue(q, m);
    DivModUnique(WithOnes(q, m), 2 * Pow2(m), q, Pow2(m) - 1);
  }

  lemma BlockNumber(base: nat, size: nat, p: nat) returns (q: nat)
    requires size == 4 * p && p > 0 && base % size == 0
    ensures base == 4 * (q * p)
  {
    q := base / size;
    assert base == q * size;
    assert q * (4 * p) == 4 * (q * p);
  }

  /** Round trip: the hardware reads an encoded region back as exactly that region. */
  lemma RoundTrip(base: u64, size: u64)
    requires Encodable(base, size) && base + size <= TWO_64
    ensures Base(Encode(base, size)) == base && Size(Encode(base, size)) == size
  {
    AlignedIsMultiple(base, size);
    var m := SizeExponent(size);
    var q := BlockNumber(base, size, 2 * Pow2(m));
    EncodeIsWithOnes(base, size, q, m);
    ReadWithOnes(q, m);
  }

  /** Distinct encodable regions get distinct register values. */
  lemma EncodeInjective(base: u64, size: u64, base': u64, size': u64)
    requires Encodable(base, size) && base + size <= TWO_64
    requires Encodable(base', size') && base' + size' <= TWO_64
    requires Encode(base, size) == Encode(base', size')
    ensures base == base' && size == size'
  {
    RoundTrip(base, size);
    RoundTrip(base', size');
  }
}
