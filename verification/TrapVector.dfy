/**
 The trap vector (`trap_vector` in crates/kernel/src/trap.rs) as a program over registers and
 memory: what the handler finds in the frame, and what the interrupted context gets back.
 Memory is addressed in aligned doublewords; address arithmetic wraps at 64 bits.
 */
module TrapVector {
  import opened Bits
  import opened Registers

  // --- Register numbers of the standard calling convention ---

  const RA: nat := 1
  const SP: nat := 2
  const GP: nat := 3
  const TP: nat := 4
  const T0: nat := 5
  const T1: nat := 6
  const T2: nat := 7
  const S0: nat := 8
  const S1: nat := 9
  const A0: nat := 10
  const A1: nat := 11
  const A2: nat := 12
  const A3: nat := 13
  const A4: nat := 14
  const A5: nat := 15
  const A6: nat := 16
  const A7: nat := 17
  const S2: nat := 18
  const S3: nat := 19
  const S4: nat := 20
  const S5: nat := 21
  const S6: nat := 22
  const S7: nat := 23
  const S8: nat := 24
  const S9: nat := 25
  const S10: nat := 26
  const S11: nat := 27
  const T3: nat := 28
  const T4: nat := 29
  const T5: nat := 30
  const T6: nat := 31

  datatype Instr =
    | CsrwMscratchSp                  // csrw mscratch, sp
    | AddiSp(imm: int)                // addi sp, sp, imm
    | Sd(rs: nat, off: nat)           // sd rs, off(sp)
    | Ld(rd: nat, off: nat)           // ld rd, off(sp)
    | CsrrMscratch(rd: nat)           // csrr rd, mscratch
    | MvSp(rd: nat)                   // mv rd, sp

  /** Doublewords by address; an address never written reads as zero. */
  type Memory = map<u64, u64>

  datatype Core = Core(x: seq<u64>, mscratch: u64, mem: Memory)

  function Load(m: Memory, a: u64): u64 {
    if a in m then m[a] else 0
  }

  /** A 64-bit address plus a 12-bit immediate, with wrap-around. */
  function Plus(a: u64, imm: int): u64
    requires -2048 <= imm < 2048
  {
    Wrap(a + imm)
  }

  predicate WellFormed(c: Core) {
    |c.x| == 32
  }

  predicate InRange(i: Instr) {
    match i
    case AddiSp(imm) => -2048 <= imm < 2048
    case Sd(rs, off) => rs < 32 && off < 2048
    case Ld(rd, off) => 0 < rd < 32 && off < 2048
    case CsrrMscratch(rd) => 0 < rd < 32
    case MvSp(rd) => 0 < rd < 32
    case _ => true
  }

  function Step(c: Core, i: Instr): (r: Core)
    requires WellFormed(c)
    ensures WellFormed(r)
  {
    if !InRange(i) then c else
    match i
    case CsrwMscratchSp => c.(mscratch := c.x[SP])
    case AddiSp(imm) => c.(x := c.x[SP := Plus(c.x[SP], imm)])
    case Sd(rs, off) => c.(mem := c.mem[Plus(c.x[SP], off) := c.x[rs]])
    case Ld(rd, off) => c.(x := c.x[rd := Load(c.mem, Plus(c.x[SP], off))])
    case CsrrMscratch(rd) => c.(x := c.x[rd := c.mscratch])
    case MvSp(rd) => c.(x := c.x[rd := c.x[SP]])
  }

  /** The instructions `prog[lo..hi]`, executed in order. */
  function Steps(prog: seq<Instr>, lo: nat, hi: nat, c: Core): (r: Core)
    requires lo <= hi <= |prog| && WellFormed(c)
    ensures WellFormed(r)
    decreases hi
  {
    if lo == hi then c else Step(Steps(prog, lo, hi - 1, c), prog[hi - 1])
  }

  const SAVE: seq<Instr> := [
    CsrwMscratchSp, AddiSp(-256),
    Sd(RA, 0), Sd(T0, 8), Sd(T1, 16), Sd(T2, 24),
    Sd(T3, 32), Sd(T4, 40), Sd(T5, 48), Sd(T6, 56),
    Sd(A0, 64), Sd(A1, 72), Sd(A2, 80), Sd(A3, 88),
    Sd(A4, 96), Sd(A5, 104), Sd(A6, 112), Sd(A7, 120),
    Sd(S0, 128), Sd(S1, 136), Sd(S2, 144), Sd(S3, 152),
    Sd(S4, 160), Sd(S5, 168), Sd(S6, 176), Sd(S7, 184),
    Sd(S8, 192), Sd(S9, 200), Sd(S10, 208), Sd(S11, 216),
    Sd(GP, 224), Sd(TP, 232),
    CsrrMscratch(T0), Sd(T0, 240), MvSp(A0)]

  const RESTORE: seq<Instr> := [
    Ld(RA, 0), Ld(T0, 8), Ld(T1, 16), Ld(T2, 24),
    Ld(T3, 32), Ld(T4, 40), Ld(T5, 48), Ld(T6, 56),
    Ld(A0, 64), Ld(A1, 72), Ld(A2, 80), Ld(A3, 88),
    Ld(A4, 96), Ld(A5, 104), Ld(A6, 112), Ld(A7, 120),
    Ld(S0, 128), Ld(S1, 136), Ld(S2, 144), Ld(S3, 152),
    Ld(S4, 160), Ld(S5, 168), Ld(S6, 176), Ld(S7, 184),
    Ld(S8, 192), Ld(S9, 200), Ld(S10, 208), Ld(S11, 216),
    Ld(GP, 224), Ld(TP, 232),
    Ld(SP, 240)]

  // --- The frame layout ---

  /** The register saved in frame slot `k`. */
  function RegOfSlot(k: nat): (r: nat)
    requires k < 31
    ensures 0 < r < 32
  {
    if k == 0 then RA
    else if k <= 3 then k + 4        // t0-t2
    else if k <= 7 then k + 24       // t3-t6
    else if k <= 15 then k + 2       // a0-a7
    else if k <= 17 then k - 8       // s0, s1
    else if k <= 27 then k           // s2-s11
    else if k == 28 then GP
    else if k == 29 then TP
    else SP
  }

  function SlotOfReg(r: nat): (k: nat)
    requires 0 < r < 32
    ensures k < 31 && RegOfSlot(k) == r
  {
    if r == RA then 0
    else if r == SP then 30
    else if r == GP then 28
    else if r == TP then 29
    else if r <= 7 then r - 4
    else if r <= 9 then r + 8
    else if r <= 17 then r - 2
    else if r <= 27 then r
    else r - 24
  }

  lemma SlotOfRegOfSlot(k: nat)
    requires k < 31
    ensures SlotOfReg(RegOfSlot(k)) == k
  {
  }

  lemma RegOfSlotDistinct(j: nat, k: nat)
    requires j < k < 31
    ensures RegOfSlot(j) != RegOfSlot(k)
  {
  }

  /** The saved register of every slot. */
  const ORDER: seq<nat> := [
    RA, T0, T1, T2, T3, T4, T5, T6,
    A0, A1, A2, A3, A4, A5, A6, A7,
    S0, S1, S2, S3, S4, S5, S6, S7,
    S8, S9, S10, S11, GP, TP, SP]

  lemma OrderAt(k: nat)
    requires k < 31
    ensures ORDER[k] == RegOfSlot(k)
  {
  }

  /** An order of the 31 registers with the stack pointer last. */
  predicate FrameOrder(order: seq<nat>) {
    && |order| == 31 && order[30] == SP
    && (forall k :: 0 <= k < 31 ==> 0 < order[k] < 32)
    && forall j, k :: 0 <= j < k < 31 ==> order[j] != order[k]
  }

  lemma OrderIsFrameOrder()
    ensures FrameOrder(ORDER)
  {
    forall j, k | 0 <= j < k < 31
      ensures ORDER[j] != ORDER[k]
    {
      OrderAt(j);
      OrderAt(k);
      RegOfSlotDistinct(j, k);
    }
  }

  /** The register file holding `g`. */
  function RegFile(g: Gprs): (x: seq<u64>)
    ensures |x| == 32
  {
    seq(32, r requires 0 <= r < 32 => if r == 0 then 0 else SlotsOf(g)[SlotOfReg(r)])
  }

  /** The registers of a register file, in the given order. */
  function SlotsBy(order: seq<nat>, x: seq<u64>): (s: seq<u64>)
    requires |order| == 31 && |x| == 32 && forall k :: 0 <= k < 31 ==> order[k] < 32
    ensures |s| == 31
  {
    seq(31, k requires 0 <= k < 31 => x[order[k]])
  }

  function GprsOf(x: seq<u64>): Gprs
    requires |x| == 32
  {
    FromSlots(SlotsBy(ORDER, x))
  }

  function SlotAddr(sp: u64, k: nat): u64
    requires k < 32
  {
    Plus(sp, 8 * k)
  }

  /** The 31 doublewords from address `sp` on. */
  function SlotsAt(m: Memory, sp: u64): (s: seq<u64>)
    ensures |s| == 31
  {
    seq(31, k requires 0 <= k < 31 => Load(m, SlotAddr(sp, k)))
  }

  /** The `TrapFrame` at address `sp`. */
  function FrameAt(m: Memory, sp: u64): Gprs {
    FromSlots(SlotsAt(m, sp))
  }

  /** The shape of the save sequence: slot by slot, then the original stack pointer. */
  predicate SavesFrame(prog: seq<Instr>, order: seq<nat>) {
    && |prog| == 35 && |order| == 31
    && prog[0] == CsrwMscratchSp && prog[1] == AddiSp(-256)
    && (forall k :: 0 <= k < 30 ==> prog[2 + k] == Sd(order[k], 8 * k))
    && prog[32] == CsrrMscratch(T0) && prog[33] == Sd(T0, 240) && prog[34] == MvSp(A0)
  }

  /** The shape of the restore sequence: slot by slot, the stack pointer last. */
  predicate RestoresFrame(prog: seq<Instr>, order: seq<nat>) {
    && |prog| == |order| == 31
    && forall k :: 0 <= k < 31 ==> prog[k] == Ld(order[k], 8 * k)
  }

  lemma SaveShapeAt(k: nat)
    requires k < 30
    ensures SAVE[2 + k] == Sd(RegOfSlot(k), 8 * k)
  {
  }

  lemma SaveShape()
    ensures SavesFrame(SAVE, ORDER)
  {
    forall k | 0 <= k < 30
      ensures SAVE[2 + k] == Sd(ORDER[k], 8 * k)
    {
      SaveShapeAt(k);
      OrderAt(k);
    }
    SaveEnds();
  }

  lemma SaveEnds()
    ensures |SAVE| == 35 && SAVE[0] == CsrwMscratchSp && SAVE[1] == AddiSp(-256)
    ensures SAVE[32] == CsrrMscratch(T0) && SAVE[33] == Sd(T0, 240) && SAVE[34] == MvSp(A0)
  {
  }

  lemma RestoreShapeAt(k: nat)
    requires k < 31
    ensures RESTORE[k] == Ld(RegOfSlot(k), 8 * k)
  {
  }

  lemma RestoreShape()
    ensures RestoresFrame(RESTORE, ORDER)
  {
    forall k | 0 <= k < 31
      ensures RESTORE[k] == Ld(ORDER[k], 8 * k)
    {
      RestoreShapeAt(k);
      OrderAt(k);
    }
  }

  /** Slots of one frame do not overlap, even across the 64-bit wrap. */
  lemma SlotAddrDistinct(sp: u64, j: nat, k: nat)
    requires j < k < 32
    ensures SlotAddr(sp, j) != SlotAddr(sp, k)
  {
  }

  lemma {:induction false} StepsSplit(prog: seq<Instr>, lo: nat, mid: nat, hi: nat, c: Core)
    requires lo <= mid <= hi <= |prog| && WellFormed(c)
    ensures Steps(prog, lo, hi, c) == Steps(prog, mid, hi, Steps(prog, lo, mid, c))
  {
    if mid < hi {
      StepsSplit(prog, lo, mid, hi - 1, c);
    }
  }

  // --- Saving ---

  lemma StoreStep(prog: seq<Instr>, c: Core, k: nat, rs: nat)
    requires WellFormed(c) && k < 30 && 2 + k < |prog| && prog[2 + k] == Sd(rs, 8 * k) && rs < 32
    ensures var m := Steps(prog, 2, 2 + k, c);
            Steps(prog, 2, 3 + k, c) == m.(mem := m.mem[SlotAddr(m.x[SP], k) := m.x[rs]])
  {
  }

  lemma {:induction false} StoreLoop(prog: seq<Instr>, order: seq<nat>, c: Core, n: nat)
    requires WellFormed(c) && n <= 30 && SavesFrame(prog, order) && FrameOrder(order)
    ensures var r := Steps(prog, 2, 2 + n, c);
            && r.x == c.x && r.mscratch == c.mscratch
            && forall k :: 0 <= k < n ==> Load(r.mem, SlotAddr(c.x[SP], k)) == c.x[order[k]]
  {
    if n > 0 {
      StoreLoop(prog, order, c, n - 1);
      StoreStep(prog, c, n - 1, order[n - 1]);
      forall k | 0 <= k < n - 1
        ensures SlotAddr(c.x[SP], k) != SlotAddr(c.x[SP], n - 1)
      {
        SlotAddrDistinct(c.x[SP], k, n - 1);
      }
    }
  }

  lemma Prologue(prog: seq<Instr>, order: seq<nat>, c: Core)
    requires WellFormed(c) && SavesFrame(prog, order)
    ensures Steps(prog, 0, 2, c) == Core(c.x[SP := Plus(c.x[SP], -256)], c.x[SP], c.mem)
  {
  }

  lemma Epilogue(prog: seq<Instr>, c: Core)
    requires WellFormed(c) && |prog| == 35
    requires prog[32] == CsrrMscratch(T0) && prog[33] == Sd(T0, 240) && prog[34] == MvSp(A0)
    ensures var r := Steps(prog, 32, |prog|, c);
            && r.x[SP] == r.x[A0] == c.x[SP]
            && r.mem == c.mem[SlotAddr(c.x[SP], 30) := c.mscratch]
  {
  }

  /** After the save sequence, slot by slot. */
  lemma SaveLoads(prog: seq<Instr>, order: seq<nat>, c: Core, k: nat)
    requires SavesFrame(prog, order) && FrameOrder(order) && WellFormed(c) && k < 31
    ensures Steps(prog, 0, |prog|, c).x[SP] == Steps(prog, 0, |prog|, c).x[A0] == Plus(c.x[SP], -256)
    ensures Load(Steps(prog, 0, |prog|, c).mem, SlotAddr(Plus(c.x[SP], -256), k)) == c.x[order[k]]
  {
    var fp := Plus(c.x[SP], -256);
    StepsSplit(prog, 0, 2, |prog|, c);
    Prologue(prog, order, c);
    var c1 := Steps(prog, 0, 2, c);
    StepsSplit(prog, 2, 32, |prog|, c1);
    StoreLoop(prog, order, c1, 30);
    Epilogue(prog, Steps(prog, 2, 32, c1));
    if k < 30 {
      SlotAddrDistinct(fp, k, 30);
    }
  }

  lemma SaveSlots(prog: seq<Instr>, order: seq<nat>, c: Core)
    requires SavesFrame(prog, order) && FrameOrder(order) && WellFormed(c)
    ensures Steps(prog, 0, |prog|, c).x[SP] == Steps(prog, 0, |prog|, c).x[A0] == Plus(c.x[SP], -256)
    ensures SlotsAt(Steps(prog, 0, |prog|, c).mem, Plus(c.x[SP], -256)) == SlotsBy(order, c.x)
  {
    SaveLoads(prog, order, c, 0);
    forall k | 0 <= k < 31
      ensures Load(Steps(prog, 0, |prog|, c).mem, SlotAddr(Plus(c.x[SP], -256), k)) == c.x[order[k]]
    {
      SaveLoads(prog, order, c, k);
    }
  }

  /** The frame pointer the handler is called with. */
  function FramePointer(g: Gprs): u64 {
    Plus(g.sp, -256)
  }

  lemma RegFileSlots(g: Gprs)
    requires FrameOrder(ORDER)
    ensures SlotsBy(ORDER, RegFile(g)) == SlotsOf(g)
  {
    forall k | 0 <= k < 31
      ensures RegFile(g)[ORDER[k]] == SlotsOf(g)[k]
    {
      OrderAt(k);
      SlotOfRegOfSlot(k);
    }
  }

  lemma SpInRegFile(g: Gprs)
    ensures RegFile(g)[SP] == g.sp
  {
  }

  lemma SavedSlots(g: Gprs, mem: Memory)
    ensures AtHandler(g, mem).x[SP] == AtHandler(g, mem).x[A0] == FramePointer(g)
    ensures SlotsAt(AtHandler(g, mem).mem, FramePointer(g)) == SlotsOf(g)
  {
    SaveShape();
    OrderIsFrameOrder();
    SpInRegFile(g);
    SaveSlots(SAVE, ORDER, Core(RegFile(g), 0, mem));
    RegFileSlots(g);
  }

  /**
   After the save sequence the handler's argument and the stack pointer address a frame whose
   31 fields are the interrupted registers, the original stack pointer among them.
   */
  lemma SaveMeaning(g: Gprs, mem: Memory)
    ensures AtHandler(g, mem).x[SP] == AtHandler(g, mem).x[A0] == FramePointer(g)
    ensures FrameAt(AtHandler(g, mem).mem, FramePointer(g)) == g
  {
    SavedSlots(g, mem);
    SlotsRoundTrip(g);
  }

  // --- Restoring ---

  lemma LoadStep(prog: seq<Instr>, c: Core, k: nat, rd: nat)
    requires WellFormed(c) && k < 31 && k < |prog| && prog[k] == Ld(rd, 8 * k) && 0 < rd < 32
    ensures var m := Steps(prog, 0, k, c);
            Steps(prog, 0, k + 1, c) == m.(x := m.x[rd := Load(m.mem, SlotAddr(m.x[SP], k))])
  {
  }

  lemma {:induction false} LoadLoop(prog: seq<Instr>, order: seq<nat>, c: Core, n: nat)
    requires WellFormed(c) && n <= 31 && RestoresFrame(prog, order) && FrameOrder(order)
    ensures var r := Steps(prog, 0, n, c);
            && r.mem == c.mem
            && (n < 31 ==> r.x[SP] == c.x[SP])
            && forall k :: 0 <= k < n ==> r.x[order[k]] == Load(c.mem, SlotAddr(c.x[SP], k))
  {
    if n > 0 {
      LoadLoop(prog, order, c, n - 1);
      LoadStep(prog, c, n - 1, order[n - 1]);
    }
  }

  lemma RestoreSlots(prog: seq<Instr>, order: seq<nat>, c: Core)
    requires WellFormed(c) && RestoresFrame(prog, order) && FrameOrder(order)
    ensures SlotsBy(order, Steps(prog, 0, |prog|, c).x) == SlotsAt(c.mem, c.x[SP])
  {
    LoadLoop(prog, order, c, |prog|);
  }

  /**
   Whatever else the handler left in the registers, the restore sequence gives every register
   the value of its field in the frame at the stack pointer.
   */
  lemma RestoreMeaning(c: Core)
    requires WellFormed(c)
    ensures GprsOf(Steps(RESTORE, 0, |RESTORE|, c).x) == FrameAt(c.mem, c.x[SP])
  {
    RestoreShape();
    OrderIsFrameOrder();
    RestoreSlots(RESTORE, ORDER, c);
  }

  // --- The vector around a handler ---

  /** The doublewords of `s` below index `n`, written from address `sp` on. */
  function WriteSlots(m: Memory, sp: u64, s: seq<u64>, n: nat): Memory
    requires n <= |s| <= 31
  {
    if n == 0 then m else WriteSlots(m, sp, s, n - 1)[SlotAddr(sp, n - 1) := s[n - 1]]
  }

  lemma {:induction false} WrittenSlot(m: Memory, sp: u64, s: seq<u64>, n: nat, k: nat)
    requires k < n <= |s| <= 31
    ensures Load(WriteSlots(m, sp, s, n), SlotAddr(sp, k)) == s[k]
  {
    if k < n - 1 {
      WrittenSlot(m, sp, s, n - 1, k);
      SlotAddrDistinct(sp, k, n - 1);
    }
  }

  lemma FrameWritten(m: Memory, sp: u64, f: Gprs)
    ensures FrameAt(WriteSlots(m, sp, SlotsOf(f), 31), sp) == f
  {
    SlotsWritten(m, sp, SlotsOf(f));
    SlotsRoundTrip(f);
  }

  lemma SlotsWritten(m: Memory, sp: u64, s: seq<u64>)
    requires |s| == 31
    ensures SlotsAt(WriteSlots(m, sp, s, 31), sp) == s
  {
    forall k | 0 <= k < 31
      ensures Load(WriteSlots(m, sp, s, 31), SlotAddr(sp, k)) == s[k]
    {
      WrittenSlot(m, sp, s, 31, k);
    }
  }

  /** The core when the vector calls the handler. */
  function AtHandler(g: Gprs, mem: Memory): (r: Core)
    ensures WellFormed(r)
  {
    Steps(SAVE, 0, |SAVE|, Core(RegFile(g), 0, mem))
  }

  /** What the vector hands to the handler: the frame its argument points to. */
  function FrameSeen(g: Gprs, mem: Memory): Gprs {
    FrameAt(AtHandler(g, mem).mem, AtHandler(g, mem).x[A0])
  }

  /** The core when a handler returns that wrote `f` into the frame at `sp`. */
  function AfterHandler(sp: u64, f: Gprs, memAfter: Memory, scratch: seq<u64>): (r: Core)
    requires |scratch| == 32
    ensures WellFormed(r)
  {
    Core(scratch[SP := sp], 0, WriteSlots(memAfter, sp, SlotsOf(f), 31))
  }

  /**
   What the interrupted context resumes with, when the handler leaves `f` in the frame, other
   memory as in `memAfter`, and `scratch` in every register but the callee-saved stack pointer.
   */
  function Resumed(g: Gprs, mem: Memory, f: Gprs, memAfter: Memory, scratch: seq<u64>): Gprs
    requires |scratch| == 32
  {
    GprsOf(Steps(RESTORE, 0, |RESTORE|, AfterHandler(AtHandler(g, mem).x[SP], f, memAfter, scratch)).x)
  }

  /** The vector is transparent: the handler edits exactly the interrupted registers. */
  lemma VectorMeaning(g: Gprs, mem: Memory, f: Gprs, memAfter: Memory, scratch: seq<u64>)
    requires |scratch| == 32
    ensures FrameSeen(g, mem) == g
    ensures Resumed(g, mem, f, memAfter, scratch) == f
  {
    SaveMeaning(g, mem);
    FrameWritten(memAfter, FramePointer(g), f);
    RestoreMeaning(AfterHandler(FramePointer(g), f, memAfter, scratch));
  }
}
