/**
 The 64-bit pmpcfg registers. Entry `k` of a register occupies bits `8k .. 8k+7`. The kernel
 combines whole registers with or, and, complement and shifts by multiples of eight; this
 module proves what each of those expressions does to the eight entries.
 */
module CfgWord {

  /** A 64-bit register value. */
  datatype Word = Word(bits: bv64)

  const ZERO := Word(0)

  const LOW_HALF := Word(0x0000_0000_FFFF_FFFF)

  function WordOr(v: Word, w: Word): Word {
    Word(v.bits | w.bits)
  }

  function WordAnd(v: Word, w: Word): Word {
    Word(v.bits & w.bits)
  }

  function WordNot(w: Word): Word {
    Word(!w.bits)
  }

  /** `(b as u64) << (8 * k)`, with the shift amounts written out. */
  function Shifted(b: bv8, k: nat): Word
    requires k < 8
  {
    match k
    case 0 => Word(b as bv64)
    case 1 => Word((b as bv64) << 8)
    case 2 => Word((b as bv64) << 16)
    case 3 => Word((b as bv64) << 24)
    case 4 => Word((b as bv64) << 32)
    case 5 => Word((b as bv64) << 40)
    case 6 => Word((b as bv64) << 48)
    case 7 => Word((b as bv64) << 56)
  }

  lemma ShiftTable(b: bv8, k: nat)
    requires k < 8
    ensures (b as bv64) << (8 * k) == match k
              case 0 => b as bv64
              case 1 => (b as bv64) << 8
              case 2 => (b as bv64) << 16
              case 3 => (b as bv64) << 24
              case 4 => (b as bv64) << 32
              case 5 => (b as bv64) << 40
              case 6 => (b as bv64) << 48
              case 7 => (b as bv64) << 56
  {
  }

  /** The amounts in `Shifted` are those of the kernel's shift by `8 * k`. */
  lemma ShiftAmounts(b: bv8, k: nat)
    requires k < 8
    ensures Shifted(b, k).bits == (b as bv64) << (8 * k)
  {
    ShiftTable(b, k);
  }

  /** The eight entries of a register, least significant first. */
  datatype Octet<T> = Octet(b0: T, b1: T, b2: T, b3: T, b4: T, b5: T, b6: T, b7: T)

  function Listed<T>(o: Octet<T>): (s: seq<T>)
    ensures |s| == 8
  {
    [o.b0, o.b1, o.b2, o.b3, o.b4, o.b5, o.b6, o.b7]
  }

  /** Entry `k` replaced by `b`. */
  function With<T>(o: Octet<T>, k: nat, b: T): Octet<T>
    requires k < 8
  {
    match k
    case 0 => o.(b0 := b)
    case 1 => o.(b1 := b)
    case 2 => o.(b2 := b)
    case 3 => o.(b3 := b)
    case 4 => o.(b4 := b)
    case 5 => o.(b5 := b)
    case 6 => o.(b6 := b)
    case 7 => o.(b7 := b)
  }

  lemma ListedWith<T>(o: Octet<T>, k: nat, b: T)
    requires k < 8
    ensures Listed(With(o, k, b)) == Listed(o)[k := b]
  {
  }

  /** Byte `k` of a word is `(w >> 8k) & 0xFF`. */
  function Split(w: Word): Octet<bv8> {
    var x := w.bits;
    Octet((x & 0xFF) as bv8, ((x >> 8) & 0xFF) as bv8, ((x >> 16) & 0xFF) as bv8, ((x >> 24) & 0xFF) as bv8,
          ((x >> 32) & 0xFF) as bv8, ((x >> 40) & 0xFF) as bv8, ((x >> 48) & 0xFF) as bv8, ((x >> 56) & 0xFF) as bv8)
  }

  function Bytes(w: Word): (s: seq<bv8>)
    ensures |s| == 8
  {
    Listed(Split(w))
  }

  /** The register that holds the given bytes. */
  function FromBytes(s: seq<bv8>): Word
    requires |s| == 8
  {
    Word(s[0] as bv64 | (s[1] as bv64 << 8) | (s[2] as bv64 << 16) | (s[3] as bv64 << 24) |
         (s[4] as bv64 << 32) | (s[5] as bv64 << 40) | (s[6] as bv64 << 48) | (s[7] as bv64 << 56))
  }

  lemma BytesFromBytes(s: seq<bv8>)
    requires |s| == 8
    ensures Bytes(FromBytes(s)) == s
  {
  }

  // --- One entry, for each of the eight positions ---

  lemma Lane0(w: Word, b: bv8)
    ensures Split(WordAnd(w, WordNot(Shifted(0xFF, 0)))) == Split(w).(b0 := 0)
    ensures With(Split(w), 0, 0) == Split(w) ==> Split(WordOr(w, Shifted(b, 0))) == With(Split(w), 0, b)
  {
  }

  lemma Lane1(w: Word, b: bv8)
    ensures Split(WordAnd(w, WordNot(Shifted(0xFF, 1)))) == Split(w).(b1 := 0)
    ensures With(Split(w), 1, 0) == Split(w) ==> Split(WordOr(w, Shifted(b, 1))) == With(Split(w), 1, b)
  {
  }

  lemma Lane2(w: Word, b: bv8)
    ensures Split(WordAnd(w, WordNot(Shifted(0xFF, 2)))) == Split(w).(b2 := 0)
    ensures With(Split(w), 2, 0) == Split(w) ==> Split(WordOr(w, Shifted(b, 2))) == With(Split(w), 2, b)
  {
  }

  lemma Lane3(w: Word, b: bv8)
    ensures Split(WordAnd(w, WordNot(Shifted(0xFF, 3)))) == Split(w).(b3 := 0)
    ensures With(Split(w), 3, 0) == Split(w) ==> Split(WordOr(w, Shifted(b, 3))) == With(Split(w), 3, b)
  {
  }

  lemma Lane4(w: Word, b: bv8)
    ensures Split(WordAnd(w, WordNot(Shifted(0xFF, 4)))) == Split(w).(b4 := 0)
    ensures With(Split(w), 4, 0) == Split(w) ==> Split(WordOr(w, Shifted(b, 4))) == With(Split(w), 4, b)
  {
  }

  lemma Lane5(w: Word, b: bv8)
    ensures Split(WordAnd(w, WordNot(Shifted(0xFF, 5)))) == Split(w).(b5 := 0)
    ensures With(Split(w), 5, 0) == Split(w) ==> Split(WordOr(w, Shifted(b, 5))) == With(Split(w), 5, b)
  {
  }

  lemma Lane6(w: Word, b: bv8)
    ensures Split(WordAnd(w, WordNot(Shifted(0xFF, 6)))) == Split(w).(b6 := 0)
    ensures With(Split(w), 6, 0) == Split(w) ==> Split(WordOr(w, Shifted(b, 6))) == With(Split(w), 6, b)
  {
  }

  lemma Lane7(w: Word, b: bv8)
    ensures Split(WordAnd(w, WordNot(Shifted(0xFF, 7)))) == Split(w).(b7 := 0)
    ensures With(Split(w), 7, 0) == Split(w) ==> Split(WordOr(w, Shifted(b, 7))) == With(Split(w), 7, b)
  {
  }

  // --- The kernel's expressions, for any position ---

  /** Masking with the complement of a shifted 0xFF clears that entry. */
  lemma ClearLane(w: Word, k: nat)
    requires k < 8
    ensures Split(WordAnd(w, WordNot(Shifted(0xFF, k)))) == With(Split(w), k, 0)
  {
    match k {
      case 0 => Lane0(w, 0);
      case 1 => Lane1(w, 0);
      case 2 => Lane2(w, 0);
      case 3 => Lane3(w, 0);
      case 4 => Lane4(w, 0);
      case 5 => Lane5(w, 0);
      case 6 => Lane6(w, 0);
      case 7 => Lane7(w, 0);
    }
  }

  /** Or-ing a shifted byte fills a clear entry. */
  lemma FillLane(w: Word, b: bv8, k: nat)
    requires k < 8 && With(Split(w), k, 0) == Split(w)
    ensures Split(WordOr(w, Shifted(b, k))) == With(Split(w), k, b)
  {
    match k {
      case 0 => Lane0(w, b);
      case 1 => Lane1(w, b);
      case 2 => Lane2(w, b);
      case 3 => Lane3(w, b);
      case 4 => Lane4(w, b);
      case 5 => Lane5(w, b);
      case 6 => Lane6(w, b);
      case 7 => Lane7(w, b);
    }
  }

  lemma ListedInjective<T>(o: Octet<T>, p: Octet<T>)
    requires Listed(o) == Listed(p)
    ensures o == p
  {
    forall k | 0 <= k < 8
      ensures Listed(o)[k] == Listed(p)[k]
    {
    }
  }

  /** Or-ing a byte into a free position sets that byte and no other. */
  lemma OrIntoFree(w: Word, b: bv8, k: nat)
    requires k < 8 && Bytes(w)[k] == 0
    ensures Bytes(WordOr(w, Shifted(b, k))) == Bytes(w)[k := b]
  {
    ListedWith(Split(w), k, 0);
    ListedInjective(Split(w), With(Split(w), k, 0));
    FillLane(w, b, k);
    ListedWith(Split(w), k, b);
  }

  /** Masking a byte out and or-ing a new one in replaces exactly that byte. */
  lemma ReplaceByte(w: Word, b: bv8, k: nat)
    requires k < 8
    ensures Bytes(WordOr(WordAnd(w, WordNot(Shifted(0xFF, k))), Shifted(b, k))) == Bytes(w)[k := b]
  {
    ClearLane(w, k);
    ListedWith(Split(w), k, 0);
    OrIntoFree(WordAnd(w, WordNot(Shifted(0xFF, k))), b, k);
  }

  lemma LowSplit(w: Word)
    ensures Split(WordAnd(w, LOW_HALF)) == Split(w).(b4 := 0, b5 := 0, b6 := 0, b7 := 0)
  {
  }

  lemma HalvesSplit(v: Word, w: Word)
    requires var o, p := Split(v), Split(w);
             o.b4 == o.b5 == o.b6 == o.b7 == 0 && p.b0 == p.b1 == p.b2 == p.b3 == 0
    ensures var o, p := Split(v), Split(w);
            Split(WordOr(v, w)) == Octet(o.b0, o.b1, o.b2, o.b3, p.b4, p.b5, p.b6, p.b7)
  {
  }

  /** Keeping the low 32 bits keeps bytes 0-3 and clears bytes 4-7. */
  lemma KeepLowHalf(w: Word)
    ensures Bytes(WordAnd(w, LOW_HALF)) == Bytes(w)[..4] + [0, 0, 0, 0]
  {
    LowSplit(w);
  }

  lemma ListedHalves<T>(o: Octet<T>)
    ensures Listed(o)[..4] == [o.b0, o.b1, o.b2, o.b3] && Listed(o)[4..] == [o.b4, o.b5, o.b6, o.b7]
  {
  }

  /** Words with complementary halves zero join without interference. */
  lemma JoinHalves(lo: Word, hi: Word)
    requires Bytes(lo)[4..] == [0, 0, 0, 0] && Bytes(hi)[..4] == [0, 0, 0, 0]
    ensures Bytes(WordOr(lo, hi)) == Bytes(lo)[..4] + Bytes(hi)[4..]
  {
    ListedHalves(Split(lo));
    ListedHalves(Split(hi));
    HalvesSplit(lo, hi);
  }

  lemma ZeroBytes()
    ensures Bytes(ZERO) == [0, 0, 0, 0, 0, 0, 0, 0]
  {
  }
}
