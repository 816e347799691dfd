/**
 The refinement theorem: one hart and the kernel behave like independent virtual CPUs, one per
 task. A task's virtual CPU is the live registers while it runs and its stored context while
 it does not. Traps and context switches are invisible to it, except for what its own system
 calls, breakpoints and faults do to it.
 */
module VirtualCpu {
  import opened Bits
  import opened PmpHardware
  import opened Registers
  import opened Pmp
  import opened Policy
  import opened Task
  import opened Scheduler
  import opened Timer
  import opened Trap
  import opened System

  /** Registers, pc and mode of a task, the mstatus bits the kernel never looks at, and whether it lives. */
  datatype VCpu = VCpu(gprs: Gprs, pc: u64, mode: Mode, other: nat, alive: bool)

  /** The virtual CPU in a control block. */
  function StoredCpu(t: Task): VCpu {
    VCpu(t.context.gprs, t.context.mepc, t.context.mstatus.mpp, t.context.mstatus.other, t.state != Dead)
  }

  /** Task `i`'s virtual CPU. */
  function View(s: Sys, i: nat): Option<VCpu>
    requires i < |s.sched.tasks|
  {
    if s.sched.tasks[i].None? then None
    else
      var t := s.sched.tasks[i].value;
      if s.sched.current == Some(i) then Some(VCpu(s.gprs, s.pc, s.mode, s.mstatus.other, t.state != Dead))
      else Some(StoredCpu(t))
  }

  /** The same while a handler is at work: the live registers are in the frame and the CSRs. */
  function KernelView(k: Kernel, i: nat): Option<VCpu>
    requires i < |k.sched.tasks|
  {
    if k.sched.tasks[i].None? then None
    else
      var t := k.sched.tasks[i].value;
      if k.sched.current == Some(i)
      then Some(VCpu(k.cpu.frame, k.cpu.mepc, k.cpu.mstatus.mpp, k.cpu.mstatus.other, t.state != Dead))
      else Some(StoredCpu(t))
  }

  // --- The virtual machine ---

  /** What can happen to a virtual CPU. */
  datatype Act =
    | Ran(gprs: Gprs, pc: u64)      // it executed
    | Advanced                      // it trapped for a service and moves past the instruction
    | GotByte(byte: u64)            // the same, with an answer in a0
    | Killed                        // it faulted

  function Perform(v: VCpu, a: Act): VCpu {
    match a
    case Ran(gprs, pc) => v.(gprs := gprs, pc := pc)
    case Advanced => v.(pc := Plus4(v.pc))
    case GotByte(byte) => v.(gprs := v.gprs.(a0 := byte), pc := Plus4(v.pc))
    case Killed => v.(alive := false)
  }

  function PerformAll(v: VCpu, acts: seq<Act>): VCpu
    decreases |acts|
  {
    if acts == [] then v else PerformAll(Perform(v, acts[0]), acts[1..])
  }

  /** What a trap means to the virtual CPU that is running, given only that CPU. */
  function TrapAct(gprs: Gprs, mode: Mode, mcause: u64, rx: Option<nat>): Option<Act> {
    if mcause == 1 || mcause == 5 || mcause == 7 then (if mode == U then Some(Killed) else None)
    else if mcause == 3 || mcause == 9 || mcause == 11 then Some(Advanced)
    else if mcause == ECALL_FROM_U then
      if gprs.a7 == SYS_GETC then Some(GotByte(if rx.Some? then rx.value % 256 else 0xFF)) else Some(Advanced)
    else None
  }

  function ActOf(gprs: Gprs, mode: Mode, e: Event): Option<Act> {
    match e
    case Execute(g, pc) => Some(Ran(g, pc))
    case Elapse(_) => None
    case Store(_, _) => None
    case TakeTrap(mcause, rx, _) => TrapAct(gprs, mode, mcause, rx)
  }

  // --- Scheduling is invisible ---

  lemma TrappedView(s: Sys, i: nat)
    requires Ok(s) && i < |s.sched.tasks|
    ensures KernelView(Trapped(s, s.gprs), i) == View(s, i)
  {
  }

  lemma ReturnView(k: Kernel, home: Home, i: nat)
    requires i < |k.sched.tasks|
    ensures View(Resume(k, k.cpu.frame, home), i) == KernelView(k, i)
  {
  }

  /** A context switch changes no virtual CPU. */
  lemma RescheduleView(k: Kernel, modes: seq<Mode>, i: nat)
    requires KernelOk(k) && Schedulable(k.sched, modes) && i < |k.sched.tasks|
    requires k.sched.current.Some? ==> StatusOk(k.cpu.mstatus, modes[k.sched.current.value])
    requires k.sched.current.Some? ==> k.sched.tasks[k.sched.current.value].Some?
    ensures KernelView(Reschedule(k), i) == KernelView(k, i)
  {
  }

  // --- One step ---

  lemma TimerView(k: Kernel, lay: Layout, modes: seq<Mode>, i: nat)
    requires Resumable(k, lay, modes) && i < |k.sched.tasks|
    ensures KernelView(Interrupt(k, MACHINE_TIMER), i) == KernelView(k, i)
  {
    RescheduleView(k.(clock := Ticked(k.clock)), modes, i);
  }

  lemma FaultView(k: Kernel, lay: Layout, modes: seq<Mode>, i: nat)
    requires Resumable(k, lay, modes) && i < |k.sched.tasks| && k.cpu.mstatus.mpp == U
    ensures k.sched.current.Some? && AccessFault(k).Return?
    ensures KernelView(AccessFault(k).kernel, i) ==
            if k.sched.current == Some(i) then Some(Perform(KernelView(k, i).value, Killed)) else KernelView(k, i)
  {
    MarkDeadKeeps(k.sched, modes);
    RescheduleView(k.(sched := MarkDead(k.sched)), modes, i);
  }

  lemma ServiceView(k: Kernel, rx: Option<nat>, lay: Layout, modes: seq<Mode>, i: nat)
    requires Resumable(k, lay, modes) && i < |k.sched.tasks|
    ensures KernelView(Advance(k), i) ==
            if k.sched.current == Some(i) then Some(Perform(KernelView(k, i).value, Advanced)) else KernelView(k, i)
    ensures KernelView(Advance(Syscall(k, rx)), i) ==
            if k.sched.current == Some(i) then
              var byte := if rx.Some? then rx.value % 256 else 0xFF;
              Some(Perform(KernelView(k, i).value, if k.cpu.frame.a7 == SYS_GETC then GotByte(byte) else Advanced))
            else KernelView(k, i)
  {
  }

  /** The virtual CPU `i` after an event that happened while `current` was running. */
  function Expected(v: Option<VCpu>, mine: bool, act: Option<Act>): Option<VCpu> {
    if v.Some? && mine && act.Some? then Some(Perform(v.value, act.value)) else v
  }

  lemma HandleView(k: Kernel, mcause: u64, rx: Option<nat>, lay: Layout, modes: seq<Mode>, i: nat)
    requires Resumable(k, lay, modes) && i < |k.sched.tasks|
    ensures var out := Handle(k, mcause, rx);
            var act := TrapAct(k.cpu.frame, k.cpu.mstatus.mpp, mcause, rx);
            && (out.Panic? ==> act.None?)
            && (out.Return? ==>
                  && |out.kernel.sched.tasks| == |k.sched.tasks|
                  && KernelView(out.kernel, i) == Expected(KernelView(k, i), k.sched.current == Some(i), act))
  {
    if mcause == INTERRUPT + MACHINE_TIMER {
      TimerView(k, lay, modes, i);
    } else if mcause == 1 || mcause == 5 || mcause == 7 {
      assert Handle(k, mcause, rx) == AccessFault(k);
      if k.cpu.mstatus.mpp == U {
        FaultView(k, lay, modes, i);
      }
    } else {
      ServiceView(k, rx, lay, modes, i);
    }
  }

  lemma TrapView(s: Sys, e: Event, lay: Layout, modes: seq<Mode>, i: nat)
    requires Inv(s, lay, modes) && Delivered(s, e) && FrameIsMemory(s) && i < |s.sched.tasks|
    ensures |Step(s, e).sched.tasks| == |s.sched.tasks|
    ensures View(Step(s, e), i) == Expected(View(s, i), s.sched.current == Some(i), ActOf(s.gprs, s.mode, e))
  {
    var k := Trapped(s, s.gprs);
    TrappedView(s, i);
    TrappedIsResumable(s, s.gprs, lay, modes);
    HandleView(k, e.mcause, e.rx, lay, modes, i);
    var out := Handle(k, e.mcause, e.rx);
    if out.Return? {
      ReturnView(out.kernel, s.home, i);
    }
  }

  /** Does this event act on the running virtual CPU? All but a trap that never reaches its handler. */
  predicate Acts(s: Sys, e: Event)
    requires Ok(s)
  {
    Enabled(s, e) && (e.TakeTrap? ==> Delivered(s, e))
  }

  /** One step changes the running task's virtual CPU as the event says, and no other. */
  lemma StepView(s: Sys, e: Event, lay: Layout, modes: seq<Mode>, i: nat)
    requires Inv(s, lay, modes) && !Overwrites(s, e, TaskTable) && !Overwrites(s, e, TrapFrames) && i < |s.sched.tasks|
    ensures |Step(s, e).sched.tasks| == |s.sched.tasks|
    ensures View(Step(s, e), i) ==
            Expected(View(s, i), Acts(s, e) && s.sched.current == Some(i), ActOf(s.gprs, s.mode, e))
  {
    if Delivered(s, e) {
      TrapView(s, e, lay, modes, i);
    }
  }

  /** The same in numbers, for each cause the running task can trap with. */
  lemma TrapInNumbers(s: Sys, e: Event, lay: Layout, modes: seq<Mode>, i: nat)
    requires Inv(s, lay, modes) && Delivered(s, e) && FrameIsMemory(s) && s.sched.current == Some(i)
    ensures View(s, i) == Some(VCpu(s.gprs, s.pc, s.mode, s.mstatus.other, true))
    ensures |Step(s, e).sched.tasks| == |s.sched.tasks|
    ensures var v := VCpu(s.gprs, s.pc, s.mode, s.mstatus.other, true);
            var next := (s.pc + 4) % TWO_64;
            var byte := if e.rx.Some? then e.rx.value % 256 else 255;
            && (e.mcause == 3 || e.mcause == 11 ==> View(Step(s, e), i) == Some(v.(pc := next)))
            && (e.mcause == 8 && s.gprs.a7 == 0 ==>
                  View(Step(s, e), i) == Some(v.(pc := next, gprs := s.gprs.(a0 := byte))))
            && (e.mcause == 8 && s.gprs.a7 != 0 ==> View(Step(s, e), i) == Some(v.(pc := next)))
            && (e.mcause >= 0x8000_0000_0000_0000 ==> View(Step(s, e), i) == Some(v))
            && (e.mcause in {1, 5, 7} && s.mode == U ==> View(Step(s, e), i) == Some(v.(alive := false)))
  {
    TrapView(s, e, lay, modes, i);
  }

  // --- Every run ---

  /** The acts of task `i` in a run: the events that took place while it was running. */
  function History(s: Sys, es: seq<Event>, i: nat): seq<Act>
    requires Ok(s)
    decreases |es|
  {
    if es == [] then []
    else
      var act := ActOf(s.gprs, s.mode, es[0]);
      (if Acts(s, es[0]) && s.sched.current == Some(i) && act.Some? then [act.value] else [])
      + History(Step(s, es[0]), es[1..], i)
  }

  /**
   Refinement: over every run that spares the task table and its trap frames, each task's virtual
   CPU is the result of its own acts alone, in order, whatever the interleaving with other
   tasks, ticks, kills and system calls.
   */
  lemma {:induction false} Refinement(s: Sys, es: seq<Event>, lay: Layout, modes: seq<Mode>, i: nat)
    requires Inv(s, lay, modes) && Spares(s, es, TaskTable) && Spares(s, es, TrapFrames)
    requires i < |s.sched.tasks| && s.sched.tasks[i].Some?
    ensures |Run(s, es).sched.tasks| == |s.sched.tasks|
    ensures View(Run(s, es), i) == Some(PerformAll(View(s, i).value, History(s, es, i)))
    decreases |es|
  {
    if es != [] {
      var s1 := Step(s, es[0]);
      StepKeepsInv(s, es[0], lay, modes);
      StepView(s, es[0], lay, modes, i);
      Refinement(s1, es[1..], lay, modes, i);
      var rest := History(s1, es[1..], i);
      var act := ActOf(s.gprs, s.mode, es[0]);
      if Acts(s, es[0]) && s.sched.current == Some(i) && act.Some? {
        assert ([act.value] + rest)[1..] == rest;
      } else {
        assert [] + rest == rest;
      }
    }
  }

  /** The kernel moves no register between tasks: equal histories from equal virtual CPUs end in equal ones. */
  lemma NonInterference(s: Sys, es: seq<Event>, lay: Layout, modes: seq<Mode>,
                        s': Sys, es': seq<Event>, lay': Layout, modes': seq<Mode>, i: nat)
    requires Inv(s, lay, modes) && Spares(s, es, TaskTable) && Spares(s, es, TrapFrames)
    requires Inv(s', lay', modes') && Spares(s', es', TaskTable) && Spares(s', es', TrapFrames)
    requires i < |s.sched.tasks| && s.sched.tasks[i].Some? && i < |s'.sched.tasks| && s'.sched.tasks[i].Some?
    requires View(s, i) == View(s', i) && History(s, es, i) == History(s', es', i)
    ensures i < |Run(s, es).sched.tasks| && i < |Run(s', es').sched.tasks|
    ensures View(Run(s, es), i) == View(Run(s', es'), i)
  {
    Refinement(s, es, lay, modes, i);
    Refinement(s', es', lay', modes', i);
  }
}
