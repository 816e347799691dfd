/**
 The whole system as a transition system: one hart, its PMP unit and timer, and the kernel.
 A trap runs the trap vector and the handlers to completion as one step, because trap entry
 clears MIE and nothing on the handler's path sets it again before `mret`. Between traps the
 running context executes, and may change its registers and pc in any way; the mode, the CSRs
 and the PMP registers are out of reach of a user task, and the idle and boot contexts only
 wait for interrupts.

 The kernel's memory is not out of reach. Its read-only data and its variables lie in RAM that
 the PMP lets user mode write, and a trap writes its frame wherever the interrupted stack
 pointer says. So runs contain user stores and trap frames that overwrite them. What an
 overwrite leaves is arbitrary, as far as the bytes hit reach: the task table, the clock, the
 frame itself, or, where the handlers' compiled code relies on the bytes, the outcome of every
 later trap. A trap whose frame the PMP denies never reaches the handler.

 `Spares` says that a run leaves one of these parts alone; every result about runs names the
 part it needs, and Isolation.dfy shows that for the task table the condition is exact.
 */
module System {
  import opened Bits
  import opened PmpHardware
  import opened Registers
  import opened Hart
  import opened Pmp
  import opened PmpSafety
  import opened Policy
  import opened Task
  import opened Scheduler
  import opened Timer
  import opened Trap

  // --- State and events ---

  /** The bytes from `lo` up to, not including, `hi`. */
  datatype Extent = Extent(lo: nat, hi: nat)

  predicate In(y: nat, e: Extent) {
    e.lo <= y < e.hi
  }

  /** A trap writes a frame of 256 bytes below the stack pointer, and the handler's own frames. */
  type Depth = d: nat | 256 <= d <= 0x10_0000 witness 256

  /**
   Where the kernel's state lies: the task table, the tick counter, and the read-only data and
   other variables that the compiled handlers rely on; and how far below the stack pointer a
   trap writes.
   */
  datatype Home = Home(table: Extent, ticks: Extent, relied: Extent, depth: Depth)

  const CLINT := Extent(0x0200_0000, 0x0201_0000)
  const UART := Extent(UART_BASE, UART_BASE + UART_SIZE)

  /** `intact` holds until something the handlers rely on is overwritten. */
  datatype Sys = Sys(
    gprs: Gprs, pc: u64, mode: Mode, mstatus: Mstatus, pmp: Regs,
    sched: SchedState, clock: Clock, output: seq<nat>, halted: bool, intact: bool, home: Home)

  /**
   What overwrites leave, where they happen: the table seen by the handler and the table left
   after it, the clock, the frame seen by the handler and the registers loaded from it, and the
   outcome of a trap whose handlers can no longer be relied on.
   */
  datatype Damage = Damage(
    sched: SchedState, left: SchedState, clock: Clock, frame: Gprs, resumed: Gprs, after: Sys)

  datatype Event =
      /** The running context executes and leaves these registers. */
    | Execute(gprs: Gprs, pc: u64)
      /** Time passes. */
    | Elapse(dt: nat)
      /** A user task writes the byte at this address. */
    | Store(addr: nat, damage: Damage)
      /** A trap with this cause, while `rx` waits in the UART. */
    | TakeTrap(mcause: u64, rx: Option<nat>, damage: Damage)

  predicate Ok(s: Sys) {
    PmpHardware.WellFormed(s.pmp) && InTable(s.sched)
  }

  predicate ClockByte(h: Home, y: nat) {
    In(y, h.ticks) || In(y, CLINT)
  }

  predicate KernelByte(h: Home, y: nat) {
    In(y, h.table) || In(y, h.relied) || ClockByte(h, y)
  }

  /** The address `d` bytes below the stack pointer. */
  function Below(sp: u64, d: nat): u64
    requires d <= TWO_64
  {
    Wrap(sp - d)
  }

  /** The vector and the handler may write everything they write below the stack pointer. */
  predicate FrameWritable(s: Sys)
    requires Ok(s)
  {
    forall d: nat :: 8 < d <= s.home.depth ==> Allows(s.pmp, M, Below(s.gprs.sp, d), Write)
  }

  /** Some of what they write there lands in the given bytes. */
  predicate FrameHits(s: Sys, e: Extent) {
    exists d: nat :: 8 < d <= s.home.depth && In(Below(s.gprs.sp, d), e)
  }

  predicate FrameHitsClock(s: Sys) {
    FrameHits(s, s.home.ticks) || FrameHits(s, CLINT)
  }

  /** What they write there is ordinary memory: nothing of the kernel's, and no device. */
  predicate FrameIsMemory(s: Sys) {
    && !FrameHits(s, s.home.table) && !FrameHits(s, s.home.relied)
    && !FrameHitsClock(s) && !FrameHits(s, UART)
  }

  /** An overwritten table is still a table of the same size, with its current index in range. */
  predicate Fits(s: SchedState, s': SchedState) {
    InTable(s') && |s'.tasks| == |s.tasks|
  }

  /** What arbitrary machine-mode code can lead to: anything the PMP locks permit. */
  predicate Conceivable(s: Sys, after: Sys)
    requires Ok(s)
  {
    && Ok(after) && Fits(s.sched, after.sched) && after.home == s.home && !after.intact
    && KeepsLocked(s.pmp, after.pmp)
  }

  /**
   Can the hart take this trap? Interrupts need the user mode or MIE; the timer interrupt needs
   an expired comparator; environment calls come from the mode their cause names.
   */
  predicate CanTrap(s: Sys, mcause: u64) {
    if mcause >= INTERRUPT then
      (s.mode == U || s.mstatus.mie) &&
      (mcause - INTERRUPT == MACHINE_TIMER ==> s.clock.mtime >= s.clock.mtimecmp)
    else
      (mcause == ECALL_FROM_U ==> s.mode == U) && (mcause == 11 ==> s.mode == M) && mcause != 9
  }

  /** A trap that runs code which can no longer be relied on. */
  predicate Hijacked(s: Sys)
    requires Ok(s)
  {
    !s.intact || (FrameWritable(s) && FrameHits(s, s.home.relied))
  }

  predicate Enabled(s: Sys, e: Event)
    requires Ok(s)
  {
    && !s.halted
    && match e
       case Execute(_, _) => true
       case Elapse(_) => true
       case Store(addr, damage) => s.mode == U && Allows(s.pmp, U, addr, Write) && Fits(s.sched, damage.sched)
       case TakeTrap(mcause, _, damage) =>
         && CanTrap(s, mcause)
         && (Hijacked(s) ==> Conceivable(s, damage.after))
         && (FrameHits(s, s.home.table) ==> Fits(s.sched, damage.sched) && Fits(s.sched, damage.left))
  }

  /** Does this event run the handler as it was compiled? A denied frame faults in the vector instead. */
  predicate Delivered(s: Sys, e: Event)
    requires Ok(s)
  {
    Enabled(s, e) && e.TakeTrap? && !Hijacked(s) && FrameWritable(s)
  }

  // --- Overwrites ---

  /** What a run can leave alone. Each part includes what the compiled handlers rely on. */
  datatype Part = HandlerCode | TaskTable | TrapFrames | TimeKeeping

  /** Does a store to `addr` overwrite that part? */
  predicate StoreHits(h: Home, addr: nat, part: Part) {
    || In(addr, h.relied)
    || match part
       case HandlerCode => false
       case TaskTable => In(addr, h.table)
       case TrapFrames => false
       case TimeKeeping => ClockByte(h, addr)
  }

  /** Does a trap with this cause overwrite it, by what it writes below the stack pointer? */
  predicate TrapHits(s: Sys, mcause: u64, part: Part)
    requires Ok(s)
  {
    FrameWritable(s) &&
    (|| FrameHits(s, s.home.relied)
     || match part
        case HandlerCode => false
        case TaskTable => FrameHits(s, s.home.table) && Returns(s.mode, mcause)
        case TrapFrames => !FrameIsMemory(s)
        case TimeKeeping => FrameHitsClock(s))
  }

  predicate Overwrites(s: Sys, e: Event, part: Part)
    requires Ok(s)
  {
    Enabled(s, e) && match e
      case Store(addr, _) => StoreHits(s.home, addr, part)
      case TakeTrap(mcause, _, _) => s.intact && TrapHits(s, mcause, part)
      case _ => false
  }

  /** The kernel's state when the handler starts, given the frame it is handed. */
  function Trapped(s: Sys, frame: Gprs): (k: Kernel)
    requires Ok(s)
    ensures KernelOk(k)
  {
    Kernel(Cpu(frame, s.pc, TrapEntry(s.mstatus, s.mode), s.pmp), s.sched, s.clock, s.output)
  }

  /** `mret` out of the vector with the given registers. */
  function Resume(k: Kernel, gprs: Gprs, home: Home): Sys {
    Sys(gprs, k.cpu.mepc, k.cpu.mstatus.mpp, Mret(k.cpu.mstatus), k.cpu.pmp, k.sched, k.clock, k.output,
        false, true, home)
  }

  lemma HandleOk(k: Kernel, mcause: u64, rx: Option<nat>)
    requires KernelOk(k)
    ensures Handle(k, mcause, rx).Return? ==> KernelOk(Handle(k, mcause, rx).kernel)
  {
  }

  lemma RescheduleOk(k: Kernel)
    requires KernelOk(k)
    ensures KernelOk(Reschedule(k))
  {
  }

  /** A store changes what the byte is part of; other memory is not part of the state. */
  function Stored(s: Sys, addr: nat, damage: Damage): Sys {
    s.(sched := if In(addr, s.home.table) then damage.sched else s.sched,
       clock := if ClockByte(s.home, addr) then damage.clock else s.clock,
       intact := s.intact && !In(addr, s.home.relied))
  }

  /** The frame the handler finds: the interrupted registers, if it was written to ordinary memory. */
  function SeenFrame(s: Sys, damage: Damage): Gprs {
    if FrameIsMemory(s) then s.gprs else damage.frame
  }

  /** The kernel's state when the handler starts, given what the frame overwrote. */
  function Entry(s: Sys, damage: Damage): (k: Kernel)
    requires Ok(s) && (FrameHits(s, s.home.table) ==> Fits(s.sched, damage.sched))
    ensures KernelOk(k)
  {
    Trapped(s.(sched := if FrameHits(s, s.home.table) then damage.sched else s.sched), SeenFrame(s, damage))
  }

  /** The state when the handler is done, given what the frame and its own stack overwrote. */
  function Leave(s: Sys, out: Outcome, damage: Damage): (r: Sys)
    requires Ok(s) && (out.Return? ==> KernelOk(out.kernel))
    requires FrameHits(s, s.home.table) ==> Fits(s.sched, damage.left)
    ensures Ok(r) && r.home == s.home
  {
    match out
    case Panic => s.(halted := true)
    case Return(k) =>
      Resume(k.(sched := if FrameHits(s, s.home.table) then damage.left else k.sched,
                clock := if FrameHitsClock(s) then damage.clock else k.clock),
             if FrameIsMemory(s) then k.cpu.frame else damage.resumed, s.home)
  }

  function TrapStep(s: Sys, mcause: u64, rx: Option<nat>, damage: Damage): (r: Sys)
    requires Ok(s) && Enabled(s, TakeTrap(mcause, rx, damage))
    ensures Ok(r) && r.home == s.home
  {
    if Hijacked(s) then damage.after
    else if !FrameWritable(s) then s.(halted := true)
    else
      HandleOk(Entry(s, damage), mcause, rx);
      Leave(s, Handle(Entry(s, damage), mcause, rx), damage)
  }

  /**
   One step. A store that the vector is denied is an access fault in machine mode: it re-enters
   the vector with the stack pointer lower still, and the handler, if it is ever reached, panics.
   */
  function Step(s: Sys, e: Event): (r: Sys)
    requires Ok(s)
    ensures Ok(r) && r.home == s.home
  {
    if !Enabled(s, e) then s
    else match e
      case Execute(gprs, pc) => s.(gprs := gprs, pc := pc)
      case Elapse(dt) => s.(clock := s.clock.(mtime := s.clock.mtime + dt))
      case Store(addr, damage) => Stored(s, addr, damage)
      case TakeTrap(mcause, rx, damage) => TrapStep(s, mcause, rx, damage)
  }

  function Run(s: Sys, es: seq<Event>): (r: Sys)
    requires Ok(s)
    ensures Ok(r) && r.home == s.home
    decreases |es|
  {
    if es == [] then s else Run(Step(s, es[0]), es[1..])
  }

  /** No event of the run overwrites that part. */
  predicate Spares(s: Sys, es: seq<Event>, part: Part)
    requires Ok(s)
    decreases |es|
  {
    es == [] || (!Overwrites(s, es[0], part) && Spares(Step(s, es[0]), es[1..], part))
  }

  lemma StepKeepsIntact(s: Sys, e: Event, part: Part)
    requires Ok(s) && s.intact && !Overwrites(s, e, part)
    ensures Step(s, e).intact
  {
  }

  lemma {:induction false} RunConcat(s: Sys, es: seq<Event>, more: seq<Event>)
    requires Ok(s)
    ensures Run(s, es + more) == Run(Run(s, es), more)
    decreases |es|
  {
    if es == [] {
      assert es + more == more;
    } else {
      assert (es + more)[0] == es[0] && (es + more)[1..] == es[1..] + more;
      RunConcat(Step(s, es[0]), es[1..], more);
    }
  }

  // --- The invariant ---

  /** A stored context that resumes in `mode` with interrupts enabled. */
  predicate StatusOk(st: Mstatus, mode: Mode) {
    !st.mie && st.mpie && st.mpp == mode
  }

  predicate TaskOk(t: Option<Task>, mode: Mode) {
    t.Some? ==> StatusOk(t.value.context.mstatus, mode) && t.value.state != Created && NoLock(t.value.pmpConfig)
  }

  predicate HasState(s: SchedState, i: nat, state: TaskState) {
    i < |s.tasks| && s.tasks[i].Some? && s.tasks[i].value.state == state
  }

  /** What holds of the table when `schedule` is entered: nothing but the current task runs. */
  predicate Schedulable(s: SchedState, modes: seq<Mode>) {
    && InTable(s)
    && |modes| == |s.tasks| > 0 && modes[IDLE] == M
    && s.tasks[IDLE].Some? && s.tasks[IDLE].value.state != Dead
    && (forall i :: 0 <= i < |s.tasks| ==> TaskOk(s.tasks[i], modes[i]))
    && forall i :: 0 <= i < |s.tasks| && HasState(s, i, Running) ==> s.current == Some(i)
  }

  /** Between traps the current task, and no other, is Running. */
  predicate TableInv(s: SchedState, modes: seq<Mode>) {
    && Schedulable(s, modes)
    && (s.current.Some? ==> HasState(s, s.current.value, Running))
  }

  function LoadedTable(s: SchedState): seq<Region>
    requires InTable(s)
  {
    if s.current.Some? && s.tasks[s.current.value].Some? then s.tasks[s.current.value].value.pmpConfig else []
  }

  /** The mode the hart runs in: the current task's, or machine mode during boot. */
  function LiveMode(s: SchedState, modes: seq<Mode>): Mode
    requires InTable(s) && |modes| == |s.tasks|
  {
    if s.current.Some? then modes[s.current.value] else M
  }

  /** Table, mode, status and PMP registers agree, for the modes the tasks were created with. */
  predicate Coherent(s: Sys, lay: Layout, modes: seq<Mode>) {
    && Ok(s)
    && TableInv(s.sched, modes)
    && s.mstatus.mie
    && s.mode == LiveMode(s.sched, modes)
    && KernelImage(s.pmp, lay) && TaskUnlocked(s.pmp)
    && TaskImage(s.pmp, LoadedTable(s.sched))
  }

  /** The system invariant. */
  predicate Inv(s: Sys, lay: Layout, modes: seq<Mode>) {
    Coherent(s, lay, modes) && s.intact
  }

  // --- One scheduler call ---

  /** Saving leaves no task Running, and idle Ready. */
  lemma SaveKeeps(s: SchedState, modes: seq<Mode>, ctx: TaskContext)
    requires Schedulable(s, modes)
    requires s.current.Some? ==> StatusOk(ctx.mstatus, modes[s.current.value])
    ensures var r := SaveCurrent(s, ctx);
            && Schedulable(r, modes)
            && (forall i :: 0 <= i < |r.tasks| ==> !HasState(r, i, Running))
            && HasState(r, IDLE, Ready)
  {
    assert TaskOk(s.tasks[IDLE], modes[IDLE]);
    assert HasState(s, IDLE, Running) ==> s.current == Some(IDLE);
  }

  /** Selection never comes back empty-handed. */
  lemma NextExists(s: SchedState, modes: seq<Mode>)
    requires Schedulable(s, modes) && HasState(s, IDLE, Ready)
    ensures NextSlot(s).Some?
  {
    SelectMeaning(|s.tasks|, s.current, ReadySet(s.tasks));
    assert IDLE in ReadySet(s.tasks);
  }

  lemma DispatchKeeps(s: SchedState, modes: seq<Mode>, i: nat)
    requires Schedulable(s, modes) && HasState(s, i, Ready)
    requires forall j :: 0 <= j < |s.tasks| ==> !HasState(s, j, Running)
    ensures TableInv(Dispatch(s, i), modes)
  {
  }

  /** The slot that `schedule` picks when entered in state `s`. */
  function Picked(s: SchedState, ctx: TaskContext): Option<nat>
    requires InTable(s)
  {
    NextSlot(SaveCurrent(s, ctx))
  }

  /** A scheduler call re-establishes the table invariant and always switches. */
  lemma ScheduleKeeps(k: Kernel, lay: Layout, modes: seq<Mode>)
    requires KernelOk(k) && Schedulable(k.sched, modes)
    requires k.sched.current.Some? ==> StatusOk(k.cpu.mstatus, modes[k.sched.current.value])
    requires KernelImage(k.cpu.pmp, lay) && TaskUnlocked(k.cpu.pmp)
    ensures var r := Reschedule(k);
            && Picked(k.sched, Context(k.cpu)).Some?
            && TableInv(r.sched, modes)
            && r.sched.current == Picked(k.sched, Context(k.cpu))
            && StatusOk(r.cpu.mstatus, modes[r.sched.current.value])
            && KernelOk(r)
            && KernelImage(r.cpu.pmp, lay) && TaskUnlocked(r.cpu.pmp)
            && TaskImage(r.cpu.pmp, LoadedTable(r.sched))
  {
    var saved := SaveCurrent(k.sched, Context(k.cpu));
    SaveKeeps(k.sched, modes, Context(k.cpu));
    NextExists(saved, modes);
    var i := NextSlot(saved).value;
    DispatchKeeps(saved, modes, i);
    RescheduleOk(k);
    var t := saved.tasks[i].value;
    assert TaskOk(saved.tasks[i], modes[i]);
    ApplyKeepsKernel(k.cpu.pmp, lay, LoadTaskConfig(t.pmpConfig));
    ApplyKeepsTaskUnlocked(k.cpu.pmp, LoadTaskConfig(t.pmpConfig));
    LoadTakesEffect(k.cpu.pmp, t.pmpConfig);
  }

  /** Killing the running user task leaves a table that `schedule` accepts. */
  lemma MarkDeadKeeps(s: SchedState, modes: seq<Mode>)
    requires TableInv(s, modes) && s.current.Some? && modes[s.current.value] == U
    ensures Schedulable(MarkDead(s), modes)
  {
  }

  // --- One step, every run ---

  /** What the handlers must leave for `mret` to re-establish the invariant. */
  predicate Resumable(k: Kernel, lay: Layout, modes: seq<Mode>) {
    && KernelOk(k)
    && TableInv(k.sched, modes)
    && StatusOk(k.cpu.mstatus, LiveMode(k.sched, modes))
    && KernelImage(k.cpu.pmp, lay) && TaskUnlocked(k.cpu.pmp)
    && TaskImage(k.cpu.pmp, LoadedTable(k.sched))
  }

  lemma ReturnEstablishesInv(k: Kernel, gprs: Gprs, home: Home, lay: Layout, modes: seq<Mode>)
    requires Resumable(k, lay, modes)
    ensures Inv(Resume(k, gprs, home), lay, modes)
  {
  }

  lemma TrappedIsResumable(s: Sys, frame: Gprs, lay: Layout, modes: seq<Mode>)
    requires Inv(s, lay, modes)
    ensures Resumable(Trapped(s, frame), lay, modes)
  {
  }

  lemma TimerKeepsResumable(k: Kernel, lay: Layout, modes: seq<Mode>)
    requires Resumable(k, lay, modes)
    ensures Resumable(Reschedule(k.(clock := Ticked(k.clock))), lay, modes)
  {
    ScheduleKeeps(k.(clock := Ticked(k.clock)), lay, modes);
  }

  lemma FaultKeepsResumable(k: Kernel, lay: Layout, modes: seq<Mode>)
    requires Resumable(k, lay, modes)
    ensures AccessFault(k).Return? ==> Resumable(AccessFault(k).kernel, lay, modes)
  {
    if k.cpu.mstatus.mpp == U {
      MarkDeadKeeps(k.sched, modes);
      ScheduleKeeps(k.(sched := MarkDead(k.sched)), lay, modes);
    }
  }

  lemma AdvanceKeepsResumable(k: Kernel, rx: Option<nat>, lay: Layout, modes: seq<Mode>)
    requires Resumable(k, lay, modes)
    ensures Resumable(Advance(k), lay, modes) && Resumable(Advance(Syscall(k, rx)), lay, modes)
  {
  }

  /** Every handler that returns leaves a resumable kernel. */
  lemma HandleKeepsResumable(k: Kernel, mcause: u64, rx: Option<nat>, lay: Layout, modes: seq<Mode>)
    requires Resumable(k, lay, modes)
    ensures Handle(k, mcause, rx).Return? ==> Resumable(Handle(k, mcause, rx).kernel, lay, modes)
  {
    if mcause == INTERRUPT + MACHINE_TIMER {
      TimerKeepsResumable(k, lay, modes);
    } else if mcause == 1 || mcause == 5 || mcause == 7 {
      FaultKeepsResumable(k, lay, modes);
      assert Handle(k, mcause, rx) == AccessFault(k);
    } else {
      AdvanceKeepsResumable(k, rx, lay, modes);
    }
  }

  lemma TrapKeepsInv(s: Sys, e: Event, lay: Layout, modes: seq<Mode>)
    requires Inv(s, lay, modes) && Delivered(s, e) && !FrameHits(s, s.home.table)
    ensures Inv(Step(s, e), lay, modes)
  {
    var k := Trapped(s, SeenFrame(s, e.damage));
    TrappedIsResumable(s, SeenFrame(s, e.damage), lay, modes);
    HandleKeepsResumable(k, e.mcause, e.rx, lay, modes);
    var out := Handle(k, e.mcause, e.rx);
    if out.Return? {
      var k' := out.kernel.(clock := if FrameHitsClock(s) then e.damage.clock else out.kernel.clock);
      var gprs := if FrameIsMemory(s) then out.kernel.cpu.frame else e.damage.resumed;
      ReturnEstablishesInv(k', gprs, s.home, lay, modes);
    }
  }

  lemma StepKeepsInv(s: Sys, e: Event, lay: Layout, modes: seq<Mode>)
    requires Inv(s, lay, modes) && !Overwrites(s, e, TaskTable)
    ensures Inv(Step(s, e), lay, modes)
  {
    if Delivered(s, e) {
      if FrameHits(s, s.home.table) {
        HandleReturns(Entry(s, e.damage), e.mcause, e.rx);
      } else {
        TrapKeepsInv(s, e, lay, modes);
      }
    }
  }

  /** The invariant holds in every state of every run that spares the task table. */
  lemma {:induction false} RunKeepsInv(s: Sys, es: seq<Event>, lay: Layout, modes: seq<Mode>)
    requires Inv(s, lay, modes) && Spares(s, es, TaskTable)
    ensures Inv(Run(s, es), lay, modes)
    decreases |es|
  {
    if es != [] {
      StepKeepsInv(s, es[0], lay, modes);
      RunKeepsInv(Step(s, es[0]), es[1..], lay, modes);
    }
  }
}
