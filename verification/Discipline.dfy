/**
 What user tasks owe the kernel. The PMP does not keep a task from pointing its stack pointer, or
 a store, at the kernel's variables and read-only data; this module shows that tasks which keep
 their stack pointers inside their own stacks and their stores away from those can do no harm.
 Their runs spare every part of the kernel, and no trap in them is lost.
 */
module Discipline {
  import opened Bits
  import opened PmpHardware
  import opened Pmp
  import opened Policy
  import opened Task
  import opened Trap
  import opened System
  import opened VirtualCpu
  import opened Safety
  import opened Isolation

  /** Memory for stacks: no kernel variable or read-only data, no device register and no text in it. */
  ghost predicate StackArea(area: Extent, h: Home, lay: Layout) {
    && area.hi <= TWO_64
    && forall y: nat :: In(y, area) ==>
         !KernelByte(h, y) && !In(y, UART) && !(lay.stext <= y < lay.userTextEnd)
  }

  predicate Inside(e: Extent, area: Extent) {
    area.lo <= e.lo && e.hi <= area.hi
  }

  /** The stack pointer is in the stack, with room below it for a trap. */
  predicate OnStack(h: Home, sp: u64, stack: Extent) {
    stack.lo + h.depth <= sp <= stack.hi
  }

  function StackOf(t: Task): Extent {
    Extent(t.stackBottom, t.stackTop)
  }

  predicate TaskOnStack(s: Sys, i: nat, area: Extent)
    requires i < |s.sched.tasks|
  {
    s.sched.tasks[i].Some? ==>
      var stack := StackOf(s.sched.tasks[i].value);
      Inside(stack, area) && OnStack(s.home, View(s, i).value.gprs.sp, stack)
  }

  /** Every task, running or stored, is on its own stack; before the first dispatch boot is on its. */
  predicate AllOnStacks(s: Sys, boot: Extent, area: Extent) {
    && Inside(boot, area)
    && (s.sched.current.None? ==> OnStack(s.home, s.gprs.sp, boot))
    && forall i :: 0 <= i < |s.sched.tasks| ==> TaskOnStack(s, i, area)
  }

  /** The stack of the running context. */
  function LiveStack(s: Sys, boot: Extent): Extent
    requires Ok(s)
  {
    if s.sched.current.Some? && s.sched.tasks[s.sched.current.value].Some?
    then StackOf(s.sched.tasks[s.sched.current.value].value) else boot
  }

  /** The event keeps the running context on its stack, and its stores away from the kernel's memory. */
  predicate Disciplined(s: Sys, e: Event, boot: Extent)
    requires Ok(s)
  {
    match e
    case Execute(gprs, _) => OnStack(s.home, gprs.sp, LiveStack(s, boot))
    case Store(addr, _) => !KernelByte(s.home, addr)
    case _ => true
  }

  predicate DisciplinedRun(s: Sys, es: seq<Event>, boot: Extent)
    requires Ok(s)
    decreases |es|
  {
    es == [] || (Disciplined(s, es[0], boot) && DisciplinedRun(Step(s, es[0]), es[1..], boot))
  }

  /** The event overwrites no part of the kernel. */
  predicate SparesAll(s: Sys, e: Event)
    requires Ok(s)
  {
    !Overwrites(s, e, TaskTable) && !Overwrites(s, e, TrapFrames) && !Overwrites(s, e, TimeKeeping)
  }

  // --- One step ---

  /** A trap taken on a stack writes ordinary memory that the PMP lets it write. */
  lemma FrameOnStack(s: Sys, boot: Extent, area: Extent, lay: Layout, modes: seq<Mode>)
    requires Inv(s, lay, modes) && LayoutOk(lay) && StackArea(area, s.home, lay) && AllOnStacks(s, boot, area)
    ensures FrameWritable(s) && FrameIsMemory(s)
  {
    if s.sched.current.Some? {
      assert TaskOnStack(s, s.sched.current.value, area);
    }
    var stack := LiveStack(s, boot);
    assert Inside(stack, area) && OnStack(s.home, s.gprs.sp, stack);
    forall d: nat | 8 < d <= s.home.depth
      ensures In(Below(s.gprs.sp, d), area)
    {
    }
    FrameWritableExactly(s, lay, modes);
  }

  /** Handlers that do not schedule leave the stack pointer in the frame alone. */
  lemma HandleKeepsSp(k: Kernel, mcause: u64, rx: Option<nat>)
    requires KernelOk(k) && mcause != INTERRUPT + MACHINE_TIMER && !(IsAccessFault(mcause) && k.cpu.mstatus.mpp == U)
    ensures var out := Handle(k, mcause, rx);
            out.Return? ==> out.kernel.cpu.frame.sp == k.cpu.frame.sp
  {
  }

  lemma BootStaysOnStack(s: Sys, e: Event, boot: Extent, area: Extent, lay: Layout, modes: seq<Mode>)
    requires Inv(s, lay, modes) && SparesAll(s, e) && AllOnStacks(s, boot, area) && Disciplined(s, e, boot)
    requires s.sched.current.None? && Step(s, e).sched.current.None?
    ensures OnStack(s.home, Step(s, e).gprs.sp, boot)
  {
    StepTable(s, e, lay, modes);
    if Delivered(s, e) {
      HandleReturns(Entry(s, e.damage), e.mcause, e.rx);
      HandleKeepsSp(Entry(s, e.damage), e.mcause, e.rx);
    }
  }

  lemma TaskStaysOnStack(s: Sys, e: Event, boot: Extent, area: Extent, lay: Layout, modes: seq<Mode>, i: nat)
    requires Inv(s, lay, modes) && SparesAll(s, e) && AllOnStacks(s, boot, area) && Disciplined(s, e, boot)
    requires i < |s.sched.tasks|
    ensures |Step(s, e).sched.tasks| == |s.sched.tasks| && TaskOnStack(Step(s, e), i, area)
  {
    assert TaskOnStack(s, i, area);
    StepTask(s, e, lay, modes, i);
    StepView(s, e, lay, modes, i);
    if s.sched.tasks[i].Some? {
      SpAfterStep(s, e, boot, i);
    }
  }

  /** Only executing moves a task's stack pointer, and then by the task's own doing. */
  lemma SpAfterStep(s: Sys, e: Event, boot: Extent, i: nat)
    requires Ok(s) && i < |s.sched.tasks| && s.sched.tasks[i].Some? && Disciplined(s, e, boot)
    ensures var v := View(s, i).value;
            var act := ActOf(s.gprs, s.mode, e);
            var v' := Expected(Some(v), Acts(s, e) && s.sched.current == Some(i), act).value;
            OnStack(s.home, v.gprs.sp, StackOf(s.sched.tasks[i].value)) ==>
            OnStack(s.home, v'.gprs.sp, StackOf(s.sched.tasks[i].value))
  {
  }

  lemma DisciplinedStep(s: Sys, e: Event, boot: Extent, area: Extent, lay: Layout, modes: seq<Mode>)
    requires Inv(s, lay, modes) && LayoutOk(lay) && StackArea(area, s.home, lay) && AllOnStacks(s, boot, area)
    requires Disciplined(s, e, boot)
    ensures SparesAll(s, e) && AllOnStacks(Step(s, e), boot, area)
  {
    FrameOnStack(s, boot, area, lay, modes);
    StepTask(s, e, lay, modes, IDLE);
    if s.sched.current.None? && Step(s, e).sched.current.None? {
      BootStaysOnStack(s, e, boot, area, lay, modes);
    }
    forall i | 0 <= i < |Step(s, e).sched.tasks|
      ensures TaskOnStack(Step(s, e), i, area)
    {
      TaskStaysOnStack(s, e, boot, area, lay, modes, i);
    }
  }

  // --- Every run ---

  /**
   Disciplined tasks overwrite nothing of the kernel, and in every state every trap that can be
   taken reaches its handler.
   */
  lemma {:induction false} DisciplinedRunSparesAll(s: Sys, es: seq<Event>, boot: Extent, area: Extent,
                                                   lay: Layout, modes: seq<Mode>)
    requires Inv(s, lay, modes) && LayoutOk(lay) && StackArea(area, s.home, lay) && AllOnStacks(s, boot, area)
    requires DisciplinedRun(s, es, boot)
    ensures Spares(s, es, TaskTable) && Spares(s, es, TrapFrames) && Spares(s, es, TimeKeeping)
    ensures AllOnStacks(Run(s, es), boot, area)
    ensures FrameWritable(Run(s, es)) && FrameIsMemory(Run(s, es))
    decreases |es|
  {
    FrameOnStack(s, boot, area, lay, modes);
    if es != [] {
      DisciplinedStep(s, es[0], boot, area, lay, modes);
      StepKeepsInv(s, es[0], lay, modes);
      DisciplinedRunSparesAll(Step(s, es[0]), es[1..], boot, area, lay, modes);
    }
  }
}
