/**
 The trap step of the transition system, taken through the trap vector's instructions, with
 every store and load of the vector subject to the PMP.
 */
module VectorRefinement {
  import opened Bits
  import opened PmpHardware
  import opened Registers
  import opened Pmp
  import opened PmpSafety
  import opened Policy
  import opened Trap
  import opened System
  import opened TrapVector
  import opened Isolation

  // --- The vector under the PMP ---

  /** Byte `b` of the doubleword at `a`. */
  function ByteAt(a: u64, b: nat): u64
    requires b < 8
  {
    Wrap(a + b)
  }

  /** Machine mode may access the eight bytes of the doubleword at `a`. */
  predicate DoubleAllowed(p: Regs, a: u64, k: Access)
    requires PmpHardware.WellFormed(p)
  {
    forall b: nat :: b < 8 ==> Allows(p, M, ByteAt(a, b), k)
  }

  /** Every store among the first `n` instructions is allowed, so that none of them faults. */
  predicate StoresAllowed(prog: seq<Instr>, n: nat, c: Core, p: Regs)
    requires n <= |prog| && TrapVector.WellFormed(c) && PmpHardware.WellFormed(p)
  {
    n > 0 ==>
    && StoresAllowed(prog, n - 1, c, p)
    && (prog[n - 1].Sd? && InRange(prog[n - 1]) ==>
          DoubleAllowed(p, Plus(Steps(prog, 0, n - 1, c).x[SP], prog[n - 1].off), Write))
  }

  predicate LoadsAllowed(prog: seq<Instr>, n: nat, c: Core, p: Regs)
    requires n <= |prog| && TrapVector.WellFormed(c) && PmpHardware.WellFormed(p)
  {
    n > 0 ==>
    && LoadsAllowed(prog, n - 1, c, p)
    && (prog[n - 1].Ld? && InRange(prog[n - 1]) ==>
          DoubleAllowed(p, Plus(Steps(prog, 0, n - 1, c).x[SP], prog[n - 1].off), Read))
  }

  /** The 31 doublewords of the frame at `fp` are accessible. */
  predicate FrameAllowed(p: Regs, fp: u64, n: nat, k: Access)
    requires PmpHardware.WellFormed(p) && n <= 31
  {
    forall i: nat :: i < n ==> DoubleAllowed(p, SlotAddr(fp, i), k)
  }

  lemma FrameAllowedStep(p: Regs, fp: u64, n: nat, k: Access)
    requires PmpHardware.WellFormed(p) && n < 31
    ensures FrameAllowed(p, fp, n + 1, k) <==> FrameAllowed(p, fp, n, k) && DoubleAllowed(p, SlotAddr(fp, n), k)
  {
  }

  /** During the stores the stack pointer is the frame pointer. */
  lemma SpWhileStoring(prog: seq<Instr>, order: seq<nat>, c: Core, n: nat)
    requires SavesFrame(prog, order) && FrameOrder(order) && TrapVector.WellFormed(c) && n <= 30
    ensures Steps(prog, 0, 2 + n, c).x[SP] == Plus(c.x[SP], -256)
    ensures n == 30 ==> Steps(prog, 0, 33, c).x[SP] == Plus(c.x[SP], -256)
  {
    StepsSplit(prog, 0, 2, 2 + n, c);
    Prologue(prog, order, c);
    StoreLoop(prog, order, Steps(prog, 0, 2, c), n);
  }

  lemma {:induction false} StoresUpTo(prog: seq<Instr>, order: seq<nat>, c: Core, p: Regs, n: nat)
    requires SavesFrame(prog, order) && FrameOrder(order) && TrapVector.WellFormed(c)
    requires PmpHardware.WellFormed(p) && n <= 30
    ensures StoresAllowed(prog, 2 + n, c, p) <==> FrameAllowed(p, Plus(c.x[SP], -256), n, Write)
  {
    if n == 0 {
      assert StoresAllowed(prog, 0, c, p);
      assert StoresAllowed(prog, 1, c, p);
    } else {
      FrameAllowedStep(p, Plus(c.x[SP], -256), n - 1, Write);
      StoresUpTo(prog, order, c, p, n - 1);
      SpWhileStoring(prog, order, c, n - 1);
      assert prog[2 + (n - 1)] == Sd(order[n - 1], 8 * (n - 1));
    }
  }

  lemma SaveStores(prog: seq<Instr>, order: seq<nat>, c: Core, p: Regs)
    requires SavesFrame(prog, order) && FrameOrder(order) && TrapVector.WellFormed(c) && PmpHardware.WellFormed(p)
    ensures StoresAllowed(prog, |prog|, c, p) <==> FrameAllowed(p, Plus(c.x[SP], -256), 31, Write)
  {
    FrameAllowedStep(p, Plus(c.x[SP], -256), 30, Write);
    StoresUpTo(prog, order, c, p, 30);
    SpWhileStoring(prog, order, c, 30);
    assert StoresAllowed(prog, 33, c, p) == StoresAllowed(prog, 32, c, p);
    assert StoresAllowed(prog, 35, c, p) == StoresAllowed(prog, 34, c, p);
  }

  lemma {:induction false} RestoreLoads(prog: seq<Instr>, order: seq<nat>, c: Core, p: Regs, n: nat)
    requires RestoresFrame(prog, order) && FrameOrder(order) && TrapVector.WellFormed(c)
    requires PmpHardware.WellFormed(p) && n <= 31
    ensures LoadsAllowed(prog, n, c, p) <==> FrameAllowed(p, c.x[SP], n, Read)
  {
    if n > 0 {
      FrameAllowedStep(p, c.x[SP], n - 1, Read);
      RestoreLoads(prog, order, c, p, n - 1);
      LoadLoop(prog, order, c, n - 1);
      assert prog[n - 1] == Ld(order[n - 1], 8 * (n - 1));
    }
  }

  // --- Frame bytes by their distance from the stack pointer ---

  lemma FrameByte(sp: u64, i: nat, b: nat)
    requires i < 31 && b < 8
    ensures ByteAt(SlotAddr(Plus(sp, -256), i), b) == Below(sp, 256 - 8 * i - b)
  {
  }

  lemma FrameBytes(p: Regs, sp: u64, k: Access)
    requires PmpHardware.WellFormed(p)
    ensures FrameAllowed(p, Plus(sp, -256), 31, k) <==>
            forall d: nat :: 8 < d <= 256 ==> Allows(p, M, Below(sp, d), k)
  {
    if FrameAllowed(p, Plus(sp, -256), 31, k) {
      forall d: nat | 8 < d <= 256
        ensures Allows(p, M, Below(sp, d), k)
      {
        var i, b := (256 - d) / 8, (256 - d) % 8;
        assert DoubleAllowed(p, SlotAddr(Plus(sp, -256), i), k);
        FrameByte(sp, i, b);
      }
    } else {
      var i: nat :| i < 31 && !DoubleAllowed(p, SlotAddr(Plus(sp, -256), i), k);
      var b: nat :| b < 8 && !Allows(p, M, ByteAt(SlotAddr(Plus(sp, -256), i), b), k);
      FrameByte(sp, i, b);
    }
  }

  // --- The trap step ---

  /** The save sequence starts with the interrupted registers. */
  function AtEntry(g: Gprs, mem: Memory): (c: Core)
    ensures TrapVector.WellFormed(c)
  {
    Core(RegFile(g), 0, mem)
  }

  /** The handler's own frames, below the trap frame, may be written. */
  predicate HandlerStackWritable(s: Sys)
    requires Ok(s)
  {
    forall d: nat :: 256 < d <= s.home.depth ==> Allows(s.pmp, M, Below(s.gprs.sp, d), Write)
  }

  /** Returning through the vector: the registers come back through its loads. */
  function ReturnThroughVector(s: Sys, out: Outcome, mem: Memory, memAfter: Memory, scratch: seq<u64>): Sys
    requires |scratch| == 32 && (out.Return? ==> KernelOk(out.kernel))
  {
    match out
    case Panic => s.(halted := true)
    case Return(k) =>
      var c := AfterHandler(AtHandler(s.gprs, mem).x[SP], k.cpu.frame, memAfter, scratch);
      if LoadsAllowed(RESTORE, |RESTORE|, c, k.cpu.pmp)
      then Resume(k, Resumed(s.gprs, mem, k.cpu.frame, memAfter, scratch), s.home)
      else s.(halted := true)
  }

  /**
   A trap step instruction by instruction: the handler works on the frame that the vector
   stored in memory, if the PMP lets it. Memory holds `mem` when the trap is taken; the
   handler's code leaves `memAfter` outside the frame and `scratch` in the registers it may
   clobber.
   */
  function VectorStep(s: Sys, mcause: u64, rx: Option<nat>, mem: Memory, memAfter: Memory, scratch: seq<u64>): Sys
    requires Ok(s) && |scratch| == 32
  {
    if StoresAllowed(SAVE, |SAVE|, AtEntry(s.gprs, mem), s.pmp) && HandlerStackWritable(s) then
      HandleOk(Trapped(s, FrameSeen(s.gprs, mem)), mcause, rx);
      ReturnThroughVector(s, Handle(Trapped(s, FrameSeen(s.gprs, mem)), mcause, rx), mem, memAfter, scratch)
    else s.(halted := true)
  }

  /** The vector and the handler can do their stores exactly when the system calls the frame writable. */
  lemma VectorStores(s: Sys, mem: Memory)
    requires Ok(s)
    ensures StoresAllowed(SAVE, |SAVE|, AtEntry(s.gprs, mem), s.pmp) && HandlerStackWritable(s) <==> FrameWritable(s)
  {
    SaveShape();
    OrderIsFrameOrder();
    SpInRegFile(s.gprs);
    SaveStores(SAVE, ORDER, AtEntry(s.gprs, mem), s.pmp);
    FrameBytes(s.pmp, s.gprs.sp, Write);
  }

  /** What could be stored can be loaded again, whatever table the handler loaded. */
  lemma VectorLoads(s: Sys, c: Core, p: Regs, lay: Layout, modes: seq<Mode>)
    requires Inv(s, lay, modes) && LayoutOk(lay) && FrameWritable(s)
    requires TrapVector.WellFormed(c) && c.x[SP] == FramePointer(s.gprs)
    requires PmpHardware.WellFormed(p) && KernelImage(p, lay) && TaskUnlocked(p)
    ensures LoadsAllowed(RESTORE, |RESTORE|, c, p)
  {
    forall d: nat | 8 < d <= 256
      ensures Allows(p, M, Below(s.gprs.sp, d), Read)
    {
      MachineData(s.pmp, lay, Below(s.gprs.sp, d), Write);
      MachineData(p, lay, Below(s.gprs.sp, d), Read);
    }
    FrameBytes(p, s.gprs.sp, Read);
    RestoreShape();
    OrderIsFrameOrder();
    RestoreLoads(RESTORE, ORDER, c, p, |RESTORE|);
  }

  lemma ReturnMeaning(s: Sys, out: Outcome, mem: Memory, memAfter: Memory, scratch: seq<u64>,
                      lay: Layout, modes: seq<Mode>)
    requires Inv(s, lay, modes) && LayoutOk(lay) && FrameWritable(s) && |scratch| == 32
    requires out.Return? ==> Resumable(out.kernel, lay, modes)
    ensures ReturnThroughVector(s, out, mem, memAfter, scratch) ==
            match out
            case Panic => s.(halted := true)
            case Return(k) => Resume(k, k.cpu.frame, s.home)
  {
    if out.Return? {
      var f := out.kernel.cpu.frame;
      SaveMeaning(s.gprs, mem);
      VectorMeaning(s.gprs, mem, f, memAfter, scratch);
      VectorLoads(s, AfterHandler(FramePointer(s.gprs), f, memAfter, scratch), out.kernel.cpu.pmp, lay, modes);
    }
  }

  /**
   With its frame in ordinary memory, going through the vector is the trap step, whatever memory
   held and the handler clobbered: it resumes the context with the handler's edits if and only
   if the PMP allows the frame.
   */
  lemma VectorStepIsStep(s: Sys, mcause: u64, rx: Option<nat>, mem: Memory, memAfter: Memory, scratch: seq<u64>,
                         damage: Damage, lay: Layout, modes: seq<Mode>)
    requires Inv(s, lay, modes) && LayoutOk(lay) && |scratch| == 32
    requires Enabled(s, TakeTrap(mcause, rx, damage)) && (FrameWritable(s) ==> FrameIsMemory(s))
    ensures VectorStep(s, mcause, rx, mem, memAfter, scratch) == System.Step(s, TakeTrap(mcause, rx, damage))
  {
    VectorStores(s, mem);
    if FrameWritable(s) {
      var k := Trapped(s, s.gprs);
      VectorMeaning(s.gprs, mem, s.gprs, memAfter, scratch);
      TrappedIsResumable(s, s.gprs, lay, modes);
      HandleKeepsResumable(k, mcause, rx, lay, modes);
      ReturnMeaning(s, Handle(k, mcause, rx), mem, memAfter, scratch, lay, modes);
    }
  }

  /** The save sequence completes exactly when none of its 248 bytes lies in the text range. */
  lemma SaveCompletesExactly(s: Sys, mem: Memory, lay: Layout, modes: seq<Mode>)
    requires Inv(s, lay, modes) && LayoutOk(lay)
    ensures StoresAllowed(SAVE, |SAVE|, AtEntry(s.gprs, mem), s.pmp) <==>
            forall d: nat :: 8 < d <= 256 ==> !In(Below(s.gprs.sp, d), Extent(lay.stext, lay.userTextEnd))
  {
    SaveShape();
    OrderIsFrameOrder();
    SpInRegFile(s.gprs);
    SaveStores(SAVE, ORDER, AtEntry(s.gprs, mem), s.pmp);
    FrameBytes(s.pmp, s.gprs.sp, Write);
    forall d: nat | 8 < d <= 256
      ensures Allows(s.pmp, M, Below(s.gprs.sp, d), Write) <==>
              !In(Below(s.gprs.sp, d), Extent(lay.stext, lay.userTextEnd))
    {
      MachineData(s.pmp, lay, Below(s.gprs.sp, d), Write);
    }
  }
}
