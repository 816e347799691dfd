/**
 The machine-mode control state of the hart that trap handling touches, and the interrupt
 masking of `IrqCell` (crates/kernel/src/sync/irq_cell.rs). Trap entry and return follow
 sections 3.1.6.1 and 3.3.2 of the RISC-V Privileged Specification v1.12.
 */
module Hart {
  import opened Bits
  import opened PmpHardware
  import opened Registers

  /**
   The mstatus register by field: MIE (bit 3), MPIE (bit 7), MPP (bits 12:11, which hold 00 or
   11 on a hart running only machine and user mode), and the bits the kernel never looks at.
   */
  datatype Mstatus = Mstatus(mie: bool, mpie: bool, mpp: Mode, other: nat)

  /** Taking a trap from `mode`. */
  function TrapEntry(s: Mstatus, mode: Mode): Mstatus {
    s.(mpp := mode, mpie := s.mie, mie := false)
  }

  /** mstatus after `mret`; the mode becomes the old MPP. */
  function Mret(s: Mstatus): Mstatus {
    s.(mie := s.mpie, mpie := true, mpp := U)
  }

  /**
   Entry masks interrupts and remembers whether they were on, and in which mode; the return gives
   MIE back and leaves MPIE set and MPP at the lowest mode.
   */
  lemma TrapAndReturn(s: Mstatus, mode: Mode)
    ensures TrapEntry(s, mode) == Mstatus(false, s.mie, mode, s.other)
    ensures Mret(TrapEntry(s, mode)) == Mstatus(s.mie, true, U, s.other)
  {
  }

  /** mstatus after the entry half of `IrqCell::with_lock`. */
  function LockStatus(s: Mstatus): Mstatus {
    s.(mie := false)
  }

  /** mstatus after the exit half, which re-enables only what was enabled on entry. */
  function UnlockStatus(saved: Mstatus, s: Mstatus): Mstatus {
    if saved.mie then s.(mie := true) else s
  }

  // --- Mutable machine state seen by the handlers ---

  class TrapFrame {
    var gprs: Gprs
  }

  class Csrs {
    var mepc: u64
    var mstatus: Mstatus
    var mcause: u64

    /** Entry half of `IrqCell::with_lock`. */
    method Lock() returns (saved: Mstatus)
      modifies this`mstatus
      ensures saved == old(mstatus) && mstatus == LockStatus(saved)
    {
      saved := mstatus;
      mstatus := mstatus.(mie := false);
    }

    /** Exit half of `IrqCell::with_lock`. */
    method Unlock(saved: Mstatus)
      modifies this`mstatus
      ensures mstatus == UnlockStatus(saved, old(mstatus))
    {
      if saved.mie {
        mstatus := mstatus.(mie := true);
      }
    }
  }

  // --- Nested critical sections ---

  /**
   Code that touches shared cells, with any nesting of `with_lock`. A `Point` is an instruction
   boundary, where an interrupt is taken if interrupts are enabled.
   */
  datatype Code = Skip | Touch | Point | Then(first: Code, second: Code) | WithLock(body: Code)

  /**
   What happens, in order: accesses, with the interrupt-enable bit and whether they are inside
   a critical section, and interrupts, in which the scheduler may run.
   */
  datatype Mark = Access(mie: bool, locked: bool) | Interrupted

  /** mstatus after machine-mode code was interrupted and resumed. */
  function AfterInterrupt(s: Mstatus): Mstatus {
    Mret(TrapEntry(s, M))
  }

  /** mstatus after running `c`, when an interrupt is pending at every point. */
  function Status(c: Code, s: Mstatus): Mstatus {
    match c
    case Skip => s
    case Touch => s
    case Point => if s.mie then AfterInterrupt(s) else s
    case Then(a, b) => Status(b, Status(a, s))
    case WithLock(body) => UnlockStatus(s, Status(body, LockStatus(s)))
  }

  /** The marks of `c` when an interrupt is pending at every point. */
  function Trace(c: Code, s: Mstatus, locked: bool): seq<Mark> {
    match c
    case Skip => []
    case Touch => [Access(s.mie, locked)]
    case Point => if s.mie then [Interrupted] else []
    case Then(a, b) => Trace(a, s, locked) + Trace(b, Status(a, s), locked)
    case WithLock(body) => Trace(body, LockStatus(s), true)
  }

  /** There is an instruction boundary outside every critical section. */
  predicate OpenPoint(c: Code) {
    match c
    case Skip => false
    case Touch => false
    case Point => true
    case Then(a, b) => OpenPoint(a) || OpenPoint(b)
    case WithLock(_) => false
  }

  /**
   Every nesting restores mstatus exactly, but for what the interrupts taken outside every
   critical section leave in it; the interrupt-enable bit is restored always.
   */
  lemma {:induction false} WithLockRestores(c: Code, s: Mstatus)
    ensures Status(c, s) == if s.mie && OpenPoint(c) then s.(mpie := true, mpp := U) else s
    ensures Status(c, s).mie == s.mie
  {
    match c
    case Skip =>
    case Touch =>
    case Point =>
    case Then(a, b) =>
      WithLockRestores(a, s);
      WithLockRestores(b, Status(a, s));
    case WithLock(body) =>
      WithLockRestores(body, LockStatus(s));
  }

  /**
   At every access inside a critical section, at any depth, interrupts are off; accesses
   outside one see the interrupt-enable bit the code started with.
   */
  lemma {:induction false} NoInterruptInside(c: Code, s: Mstatus, locked: bool, k: nat)
    requires k < |Trace(c, s, locked)| && Trace(c, s, locked)[k].Access? && (locked ==> !s.mie)
    ensures var seen := Trace(c, s, locked)[k];
            && (seen.locked ==> !seen.mie)
            && (!seen.locked ==> seen.mie == s.mie)
  {
    match c
    case Touch =>
    case Then(a, b) =>
      WithLockRestores(a, s);
      if k < |Trace(a, s, locked)| {
        NoInterruptInside(a, s, locked, k);
      } else {
        NoInterruptInside(b, Status(a, s), locked, k - |Trace(a, s, locked)|);
      }
    case WithLock(body) =>
      NoInterruptInside(body, LockStatus(s), true, k);
      InsideIsLocked(body, LockStatus(s), k);
  }

  lemma {:induction false} InsideIsLocked(c: Code, s: Mstatus, k: nat)
    requires k < |Trace(c, s, true)| && Trace(c, s, true)[k].Access?
    ensures Trace(c, s, true)[k].locked
  {
    match c
    case Touch =>
    case Then(a, b) =>
      if k < |Trace(a, s, true)| {
        InsideIsLocked(a, s, k);
      } else {
        InsideIsLocked(b, Status(a, s), k - |Trace(a, s, true)|);
      }
    case WithLock(body) =>
      InsideIsLocked(body, LockStatus(s), k);
  }

  /** Code is interrupted exactly when interrupts are on and it has a boundary outside its sections. */
  lemma {:induction false} InterruptedExactly(c: Code, s: Mstatus, locked: bool)
    ensures Interrupted in Trace(c, s, locked) <==> s.mie && OpenPoint(c)
  {
    match c
    case Skip =>
    case Touch =>
    case Point =>
    case Then(a, b) =>
      WithLockRestores(a, s);
      InterruptedExactly(a, s, locked);
      InterruptedExactly(b, Status(a, s), locked);
    case WithLock(body) =>
      InterruptedExactly(body, LockStatus(s), true);
  }

  /** A critical section is atomic: no scheduler call falls between its accesses, whatever it nests. */
  lemma SectionIsAtomic(before: Code, body: Code, after: Code, s: Mstatus)
    ensures var s1 := Status(before, s);
            var section := Trace(WithLock(body), s1, false);
            && Trace(Then(before, Then(WithLock(body), after)), s, false) ==
               Trace(before, s, false) + (section + Trace(after, s1, false))
            && Interrupted !in section
  {
    WithLockRestores(WithLock(body), Status(before, s));
    InterruptedExactly(WithLock(body), Status(before, s), false);
  }
}
