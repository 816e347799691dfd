/**
 What the PMP does and does not protect, over every run, including the runs in which user tasks
 overwrite the kernel's memory. The locked entries survive everything. The task table and what
 the handlers rely on do not: they lie in a range that user mode may write, so the results about
 the table hold exactly as long as no store and no trap frame hits either; and a trap reaches
 its handler exactly when its frame stays out of the execute-only text range.
 */
module Isolation {
  import opened Bits
  import opened PmpHardware
  import opened Pmp
  import opened PmpSafety
  import opened Policy
  import opened Scheduler
  import opened Timer
  import opened Trap
  import opened System
  import Napot

  /** The kernel's variables and read-only data lie in its data range. */
  predicate HomeOk(h: Home, lay: Layout) {
    && lay.userTextEnd <= h.table.lo < h.table.hi <= lay.eheap
    && lay.userTextEnd <= h.ticks.lo < h.ticks.hi <= lay.eheap
    && lay.userTextEnd <= h.relied.lo < h.relied.hi <= lay.eheap
  }

  // --- Where machine mode may write ---

  lemma {:induction false} MachineBeyondKernel(p: Regs, i: nat, y: nat, k: Access)
    requires PmpHardware.WellFormed(p) && TaskUnlocked(p) && 4 <= i <= PMP_COUNT
    ensures DecideFrom(p, i, M, y, k)
    decreases PMP_COUNT - i
  {
    if i < PMP_COUNT {
      MachineBeyondKernel(p, i + 1, y, k);
    }
  }

  /** Machine mode reads and writes everything but the text range. */
  lemma MachineData(p: Regs, lay: Layout, y: nat, k: Access)
    requires PmpHardware.WellFormed(p) && KernelImage(p, lay) && TaskUnlocked(p) && LayoutOk(lay) && !k.Execute?
    ensures Allows(p, M, y, k) <==> !(lay.stext <= y < lay.userTextEnd)
  {
    KernelDecision(p, lay, M, y, k);
    MachineBeyondKernel(p, 4, y, k);
  }

  /** A trap is delivered exactly when what it writes below the stack pointer avoids the text range. */
  lemma FrameWritableExactly(s: Sys, lay: Layout, modes: seq<Mode>)
    requires Inv(s, lay, modes) && LayoutOk(lay)
    ensures FrameWritable(s) <==> !FrameHits(s, Extent(lay.stext, lay.userTextEnd))
  {
    forall d: nat | 8 < d <= s.home.depth
      ensures Allows(s.pmp, M, Below(s.gprs.sp, d), Write) <==>
              !In(Below(s.gprs.sp, d), Extent(lay.stext, lay.userTextEnd))
    {
      MachineData(s.pmp, lay, Below(s.gprs.sp, d), Write);
    }
  }

  /** The input that is lost: with the frame at the start of the text, no trap returns. */
  lemma FrameInTextIsLost(s: Sys, lay: Layout, modes: seq<Mode>, e: Event)
    requires Inv(s, lay, modes) && LayoutOk(lay) && lay.stext < lay.userTextEnd
    requires s.gprs.sp == lay.stext + 256 && e.TakeTrap? && Enabled(s, e)
    ensures !Allows(s.pmp, M, Below(s.gprs.sp, 256), Write)
    ensures Step(s, e) == s.(halted := true)
  {
    MachineData(s.pmp, lay, Below(s.gprs.sp, 256), Write);
  }

  // --- What survives every run ---

  /** The registers of entries 0-3. */
  predicate SameKernelEntries(p: Regs, q: Regs)
    requires PmpHardware.WellFormed(p) && PmpHardware.WellFormed(q)
  {
    forall i :: 0 <= i < 4 ==> q.cfg[i] == p.cfg[i] && q.addr[i] == p.addr[i]
  }

  lemma RescheduleKeepsEntries(k: Kernel)
    requires KernelOk(k)
    ensures KernelOk(Reschedule(k)) && SameKernelEntries(k.cpu.pmp, Reschedule(k).cpu.pmp)
  {
    RescheduleOk(k);
  }

  /** The handlers never change entries 0-3, whatever the table and the frame say. */
  lemma HandleKeepsEntries(k: Kernel, mcause: u64, rx: Option<nat>)
    requires KernelOk(k)
    ensures var out := Handle(k, mcause, rx);
            out.Return? ==> KernelOk(out.kernel) && SameKernelEntries(k.cpu.pmp, out.kernel.cpu.pmp)
  {
    HandleOk(k, mcause, rx);
    if mcause == INTERRUPT + MACHINE_TIMER {
      RescheduleKeepsEntries(k.(clock := Ticked(k.clock)));
    } else if IsAccessFault(mcause) && k.cpu.mstatus.mpp == U {
      RescheduleKeepsEntries(k.(sched := MarkDead(k.sched)));
    }
  }

  lemma StepKeepsEntries(s: Sys, e: Event)
    requires Ok(s) && (e.TakeTrap? ==> !Hijacked(s))
    ensures SameKernelEntries(s.pmp, Step(s, e).pmp)
  {
    if Delivered(s, e) {
      HandleKeepsEntries(Entry(s, e.damage), e.mcause, e.rx);
    }
  }

  /** As long as the handlers are what was compiled, entries 0-3 stay the kernel's. */
  lemma {:induction false} RunKeepsKernel(s: Sys, es: seq<Event>, lay: Layout)
    requires Ok(s) && s.intact && KernelImage(s.pmp, lay) && Spares(s, es, HandlerCode)
    ensures KernelImage(Run(s, es).pmp, lay)
    decreases |es|
  {
    if es != [] {
      if !Enabled(s, es[0]) {
        RunKeepsKernel(s, es[1..], lay);
      } else {
        StepKeepsIntact(s, es[0], HandlerCode);
        StepKeepsEntries(s, es[0]);
        RunKeepsKernel(Step(s, es[0]), es[1..], lay);
      }
    }
  }

  /**
   In every state of every run that spares what the handlers rely on, whatever happens to the
   task table, both modes may execute the text range and nothing else in it, and both may read
   and write the kernel's data range and the UART page and not execute them.
   */
  lemma KernelRangesInEveryRun(s: Sys, es: seq<Event>, lay: Layout, mode: Mode, y: nat, k: Access)
    requires Ok(s) && s.intact && KernelImage(s.pmp, lay) && LayoutOk(lay) && Spares(s, es, HandlerCode)
    requires In(y, Extent(lay.stext, lay.eheap)) || In(y, UART)
    ensures Allows(Run(s, es).pmp, mode, y, k) <==>
            if In(y, Extent(lay.stext, lay.userTextEnd)) then k.Execute? else !k.Execute?
  {
    RunKeepsKernel(s, es, lay);
    KernelDecision(Run(s, es).pmp, lay, mode, y, k);
  }

  /** What of the kernel entries the lock bits cover: everything but the byte of entry 0. */
  predicate LockedImage(p: Regs, lay: Layout)
    requires PmpHardware.WellFormed(p)
  {
    && (forall i :: 1 <= i < 4 ==> p.cfg[i] == KERNEL_CFG[i])
    && forall i :: 0 <= i < 4 ==> p.addr[i] == KernelAddr(lay)[i]
  }

  lemma LocksKeepImage(p: Regs, q: Regs, lay: Layout)
    requires PmpHardware.WellFormed(p) && PmpHardware.WellFormed(q) && LockedImage(p, lay) && KeepsLocked(p, q)
    ensures LockedImage(q, lay)
  {
    KernelCfgBits();
    assert KERNEL_CFG[1] == 0x8C && KERNEL_CFG[2] == 0x8B && KERNEL_CFG[3] == 0x9B;
    assert Locked(p.cfg[1]) && Locked(p.cfg[2]) && Locked(p.cfg[3]);
    assert p.cfg[1] & A_MASK == A_TOR;
    assert AddrFrozen(p, 0) && AddrFrozen(p, 1) && AddrFrozen(p, 2) && AddrFrozen(p, 3);
  }

  lemma StepKeepsLocks(s: Sys, e: Event, lay: Layout)
    requires Ok(s) && LockedImage(s.pmp, lay)
    ensures LockedImage(Step(s, e).pmp, lay)
  {
    if Enabled(s, e) && e.TakeTrap? && Hijacked(s) {
      LocksKeepImage(s.pmp, e.damage.after.pmp, lay);
    } else if Enabled(s, e) {
      StepKeepsEntries(s, e);
    }
  }

  /** The locked registers survive every run, arbitrary machine-mode code included. */
  lemma {:induction false} RunKeepsLocks(s: Sys, es: seq<Event>, lay: Layout)
    requires Ok(s) && LockedImage(s.pmp, lay)
    ensures LockedImage(Run(s, es).pmp, lay)
    decreases |es|
  {
    if es != [] {
      StepKeepsLocks(s, es[0], lay);
      RunKeepsLocks(Step(s, es[0]), es[1..], lay);
    }
  }

  /** Entry 0, however its unlocked byte is set, matches nothing from eight bytes into the text on. */
  lemma AnchorReach(p: Regs, lay: Layout, y: nat)
    requires PmpHardware.WellFormed(p) && LockedImage(p, lay) && LayoutOk(lay) && y >= lay.stext + 8
    ensures !EntryMatches(p, 0, y)
  {
    PageIsWords(lay.stext);
    AnchorBlock(lay.stext, y);
  }

  /** Read as NAPOT, the page-aligned anchor denotes eight bytes. */
  lemma AnchorBlock(stext: nat, y: nat)
    requires stext % 4096 == 0
    ensures Napot.Matches(stext / 4, y) <==> stext <= y < stext + 8
  {
    assert stext / 4 % 2 == 0;
    assert Napot.Span(stext / 4) == 2;
    Napot.MatchesIsInterval(stext / 4, y);
  }

  lemma LockedDecision(p: Regs, lay: Layout, mode: Mode, y: nat, k: Access)
    requires PmpHardware.WellFormed(p) && LockedImage(p, lay) && LayoutOk(lay)
    requires lay.stext + 8 <= y < lay.eheap
    ensures Allows(p, mode, y, k) <==> if y < lay.userTextEnd then k.Execute? else !k.Execute?
  {
    AnchorReach(p, lay, y);
    KernelCfgBits();
    PageIsWords(lay.stext);
    PageIsWords(lay.userTextEnd);
    PageIsWords(lay.eheap);
    assert p.addr[1] == lay.userTextEnd / 4 && p.addr[2] == lay.eheap / 4;
    assert Allows(p, mode, y, k) == DecideFrom(p, 1, mode, y, k);
    assert EntryMatches(p, 1, y) <==> y < lay.userTextEnd;
    assert EntryMatches(p, 2, y) <==> lay.userTextEnd <= y;
  }

  /**
   In every state of every run whatsoever, the text from its ninth byte on is execute-only and
   the kernel's data and heap are readable and writable, for both modes.
   */
  lemma LockedRangesInEveryRun(s: Sys, es: seq<Event>, lay: Layout, mode: Mode, y: nat, k: Access)
    requires Ok(s) && LockedImage(s.pmp, lay) && LayoutOk(lay) && lay.stext + 8 <= y < lay.eheap
    ensures Allows(Run(s, es).pmp, mode, y, k) <==> if y < lay.userTextEnd then k.Execute? else !k.Execute?
  {
    RunKeepsLocks(s, es, lay);
    LockedDecision(Run(s, es).pmp, lay, mode, y, k);
  }

  /** The eight bytes before that are what the missing lock on entry 0 exposes to such code. */
  lemma AnchorExposes(p: Regs, lay: Layout, y: nat)
    requires PmpHardware.WellFormed(p) && KernelImage(p, lay) && LayoutOk(lay) && lay.stext <= y < lay.stext + 8
    ensures Allows(Written(p, CfgWrite(false, [0x1F, 0, 0, 0, 0, 0, 0, 0])), U, y, Write)
  {
    var q := Written(p, CfgWrite(false, [0x1F, 0, 0, 0, 0, 0, 0, 0]));
    KernelCfgBits();
    FirstFour(p, lay, 0);
    assert !Locked(p.cfg[0]);
    assert q.cfg[0] == 0x1F && q.addr[0] == lay.stext / 4;
    AnchorBlock(lay.stext, y);
    assert EntryMatches(q, 0, y);
  }
}
