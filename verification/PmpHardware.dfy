/**
 The PMP unit of a 64-bit hart with 16 entries and 4-byte grain: register writes under
 locking, address matching, and the access decision. Written from section 3.7.1 of the RISC-V
 Privileged Specification v1.12 ("Address Matching", "Locking and Privilege Mode", "Priority
 and Matching Logic"). Accesses are decided byte by byte.
 */
module PmpHardware {
  import opened Bits
  import opened CfgWord
  import Napot

  const PMP_COUNT: nat := 16

  /** Address registers hold bits 55:2 of a physical address. */
  const ADDR_LIMIT: nat := 0x40_0000_0000_0000

  /** One past the largest physical byte address. */
  const PHYS_LIMIT: nat := 0x100_0000_0000_0000

  const R: bv8 := 0x01
  const W: bv8 := 0x02
  const X: bv8 := 0x04
  const A_MASK: bv8 := 0x18
  const A_OFF: bv8 := 0x00
  const A_TOR: bv8 := 0x08
  const A_NA4: bv8 := 0x10
  const A_NAPOT: bv8 := 0x18
  const L: bv8 := 0x80

  datatype Mode = U | M

  datatype Access = Read | Write | Execute

  /** The 16 configuration bytes and the 16 address registers. */
  datatype Regs = Regs(cfg: seq<bv8>, addr: seq<nat>)

  predicate Locked(b: bv8) {
    b & L != 0
  }

  /** Bits 5 and 6 of a configuration byte are hardwired to zero. */
  function Legal(b: bv8): bv8 {
    b & 0x9F
  }

  predicate WellFormed(p: Regs) {
    && |p.cfg| == PMP_COUNT
    && |p.addr| == PMP_COUNT
    && forall i :: 0 <= i < PMP_COUNT ==> Legal(p.cfg[i]) == p.cfg[i]
  }

  /** Of a written byte the rights, the matching mode and the lock bit are kept. */
  lemma LegalBits(b: bv8)
    ensures Legal(b) & 0x9F == b & 0x9F && Legal(b) & 0x60 == 0
    ensures Locked(Legal(b)) == Locked(b) && Legal(b) & A_MASK == b & A_MASK
    ensures Permits(Legal(b), Read) == Permits(b, Read) && Permits(Legal(b), Write) == Permits(b, Write)
    ensures Permits(Legal(b), Execute) == Permits(b, Execute)
  {
  }

  // --- Register access ---

  /** Reading pmpcfg0 (`base == 0`) or pmpcfg2 (`base == 8`). */
  function ReadCfg(p: Regs, base: nat): Word
    requires WellFormed(p) && (base == 0 || base == 8)
  {
    FromBytes(p.cfg[base..base + 8])
  }

  /** Writing the given bytes to pmpcfg0 or pmpcfg2: locked entries keep their value. */
  function WriteCfg(p: Regs, base: nat, bytes: seq<bv8>): (r: Regs)
    requires WellFormed(p) && (base == 0 || base == 8) && |bytes| == 8
    ensures WellFormed(r)
  {
    var cfg := seq(PMP_COUNT, i requires 0 <= i < PMP_COUNT =>
      if base <= i < base + 8 && !Locked(p.cfg[i]) then Legal(bytes[i - base]) else p.cfg[i]);
    assert forall b: bv8 {:trigger Legal(b)} :: Legal(Legal(b)) == Legal(b);
    p.(cfg := cfg)
  }

  /** An address register is frozen by its own lock, and by a locked TOR entry above it. */
  predicate AddrFrozen(p: Regs, i: nat)
    requires WellFormed(p) && i < PMP_COUNT
  {
    || Locked(p.cfg[i])
    || (i + 1 < PMP_COUNT && Locked(p.cfg[i + 1]) && p.cfg[i + 1] & A_MASK == A_TOR)
  }

  function WriteAddr(p: Regs, i: nat, v: u64): (r: Regs)
    requires WellFormed(p) && i < PMP_COUNT
    ensures WellFormed(r)
  {
    if AddrFrozen(p, i) then p else p.(addr := p.addr[i := v % ADDR_LIMIT])
  }

  /** What no register write can undo: locked bytes and frozen addresses are as they were. */
  predicate KeepsLocked(p: Regs, q: Regs)
    requires WellFormed(p) && WellFormed(q)
  {
    && (forall i :: 0 <= i < PMP_COUNT && Locked(p.cfg[i]) ==> q.cfg[i] == p.cfg[i])
    && forall i :: 0 <= i < PMP_COUNT && AddrFrozen(p, i) ==> q.addr[i] == p.addr[i]
  }

  lemma KeepsLockedTwice(p: Regs, q: Regs, r: Regs)
    requires WellFormed(p) && WellFormed(q) && WellFormed(r) && KeepsLocked(p, q) && KeepsLocked(q, r)
    ensures KeepsLocked(p, r)
  {
    forall i | 0 <= i < PMP_COUNT && AddrFrozen(p, i)
      ensures AddrFrozen(q, i)
    {
    }
  }

  /** Any write of a PMP register. */
  datatype CsrWrite = CfgWrite(high: bool, bytes: seq<bv8>) | AddrWrite(i: nat, v: u64)

  function Written(p: Regs, w: CsrWrite): (q: Regs)
    requires WellFormed(p)
    ensures WellFormed(q)
  {
    match w
    case CfgWrite(high, bytes) => if |bytes| == 8 then WriteCfg(p, if high then 8 else 0, bytes) else p
    case AddrWrite(i, v) => if i < PMP_COUNT then WriteAddr(p, i, v) else p
  }

  function AllWritten(p: Regs, ws: seq<CsrWrite>): (q: Regs)
    requires WellFormed(p)
    ensures WellFormed(q)
    decreases |ws|
  {
    if ws == [] then p else AllWritten(Written(p, ws[0]), ws[1..])
  }

  /** Whatever code machine mode executes, locked entries stay as they are. */
  lemma {:induction false} LocksOutliveAnyCode(p: Regs, ws: seq<CsrWrite>)
    requires WellFormed(p)
    ensures KeepsLocked(p, AllWritten(p, ws))
    decreases |ws|
  {
    if ws != [] {
      var q := Written(p, ws[0]);
      assert KeepsLocked(p, q);
      LocksOutliveAnyCode(q, ws[1..]);
      KeepsLockedTwice(p, q, AllWritten(p, ws));
    }
  }

  // --- Matching and the access decision ---

  /** Does entry `i` match the byte at physical address `y`? */
  predicate EntryMatches(p: Regs, i: nat, y: nat)
    requires WellFormed(p) && i < PMP_COUNT
  {
    var a := p.cfg[i] & A_MASK;
    if a == A_TOR then (if i == 0 then 0 else 4 * p.addr[i - 1]) <= y < 4 * p.addr[i]
    else if a == A_NA4 then 4 * p.addr[i] <= y < 4 * p.addr[i] + 4
    else if a == A_NAPOT then Napot.Matches(p.addr[i], y)
    else false
  }

  /**
   The bytes an entry matches, by bits 4:3 of its configuration: none; from the address register
   below it (from zero for entry 0) up to its own; one word; or a naturally aligned block.
   */
  lemma MatchesInNumbers(p: Regs, i: nat, y: nat)
    requires WellFormed(p) && i < PMP_COUNT
    ensures p.cfg[i] & 0x18 == 0x00 ==> !EntryMatches(p, i, y)
    ensures p.cfg[0] & 0x18 == 0x08 ==> (EntryMatches(p, 0, y) <==> y < 4 * p.addr[0])
    ensures p.cfg[i] & 0x18 == 0x08 && i > 0 ==> (EntryMatches(p, i, y) <==> 4 * p.addr[i - 1] <= y < 4 * p.addr[i])
    ensures p.cfg[i] & 0x18 == 0x10 ==> (EntryMatches(p, i, y) <==> y / 4 == p.addr[i])
    ensures p.cfg[i] & 0x18 == 0x18 ==>
            (EntryMatches(p, i, y) <==> Napot.Base(p.addr[i]) <= y < Napot.Base(p.addr[i]) + Napot.Size(p.addr[i]))
  {
    Napot.MatchesIsInterval(p.addr[i], y);
  }

  predicate Permits(b: bv8, k: Access) {
    match k
    case Read => b & R != 0
    case Write => b & W != 0
    case Execute => b & X != 0
  }

  /** The decision of the lowest-numbered matching entry from `i` on. */
  predicate DecideFrom(p: Regs, i: nat, mode: Mode, y: nat, k: Access)
    requires WellFormed(p) && i <= PMP_COUNT
    decreases PMP_COUNT - i
  {
    if i == PMP_COUNT then mode.M?
    else if EntryMatches(p, i, y) then (mode.M? && !Locked(p.cfg[i])) || Permits(p.cfg[i], k)
    else DecideFrom(p, i + 1, mode, y, k)
  }

  /** May `mode` access the byte at `y`? */
  predicate Allows(p: Regs, mode: Mode, y: nat, k: Access)
    requires WellFormed(p)
  {
    DecideFrom(p, 0, mode, y, k)
  }
}
