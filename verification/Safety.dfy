/**
 Safety over every run that spares the task table: task lifecycle, status bits and PMP
 coherence; and output and the timer over the runs that spare trap frames or the clock.
 */
module Safety {
  import opened Bits
  import opened PmpHardware
  import opened Hart
  import opened Pmp
  import opened PmpSafety
  import opened Policy
  import opened Task
  import opened Scheduler
  import opened Timer
  import opened Trap
  import opened System

  // --- How one event changes the table ---

  /** Does this event end in a call of `schedule`? */
  predicate CallsSchedule(s: Sys, e: Event)
    requires Ok(s)
  {
    Delivered(s, e) &&
    (e.mcause == INTERRUPT + MACHINE_TIMER || Faults(s, e))
  }

  /** Does this event kill the running task? */
  predicate Faults(s: Sys, e: Event)
    requires Ok(s)
  {
    Delivered(s, e) && IsAccessFault(e.mcause) && s.mode == U
  }

  /** The table when `schedule` is entered. */
  function Entering(s: Sys, e: Event): SchedState
    requires Ok(s)
  {
    if Faults(s, e) then MarkDead(s.sched) else s.sched
  }

  /** The context `schedule` saves: the registers as the handler finds them. */
  function TrapContext(s: Sys, e: Event): TaskContext {
    TaskContext(if e.TakeTrap? then SeenFrame(s, e.damage) else s.gprs, s.pc, TrapEntry(s.mstatus, s.mode))
  }

  /** How the handlers reach the scheduler and the clock. */
  lemma HandleParts(k: Kernel, mcause: u64, rx: Option<nat>)
    requires KernelOk(k)
    ensures var out := Handle(k, mcause, rx);
            if mcause == INTERRUPT + MACHINE_TIMER then
              && out.Return?
              && out.kernel.sched == ScheduleState(k.sched, k.cpu)
              && out.kernel.clock == Ticked(k.clock)
            else if IsAccessFault(mcause) && k.cpu.mstatus.mpp == U then
              && out.Return?
              && out.kernel.sched == ScheduleState(MarkDead(k.sched), k.cpu)
              && out.kernel.clock == k.clock
            else
              out.Return? ==> out.kernel.sched == k.sched && out.kernel.clock == k.clock
  {
  }

  lemma EnteringIsSchedulable(s: Sys, e: Event, lay: Layout, modes: seq<Mode>)
    requires Inv(s, lay, modes)
    ensures Schedulable(Entering(s, e), modes)
    ensures NextSlot(SaveCurrent(Entering(s, e), TrapContext(s, e))).Some?
  {
    if Faults(s, e) {
      MarkDeadKeeps(s.sched, modes);
    }
    SaveKeeps(Entering(s, e), modes, TrapContext(s, e));
    NextExists(SaveCurrent(Entering(s, e), TrapContext(s, e)), modes);
  }

  /** The table changes only through `schedule`, and then exactly by save and dispatch. */
  lemma StepTable(s: Sys, e: Event, lay: Layout, modes: seq<Mode>)
    requires Inv(s, lay, modes) && !Overwrites(s, e, TaskTable)
    ensures !CallsSchedule(s, e) ==> Step(s, e).sched == s.sched
    ensures CallsSchedule(s, e) ==>
            var saved := SaveCurrent(Entering(s, e), TrapContext(s, e));
            NextSlot(saved).Some? && Step(s, e).sched == Dispatch(saved, NextSlot(saved).value)
  {
    if Delivered(s, e) {
      HandleReturns(Entry(s, e.damage), e.mcause, e.rx);
      HandleParts(Entry(s, e.damage), e.mcause, e.rx);
      EnteringIsSchedulable(s, e, lay, modes);
    }
  }

  /** What a run never changes about a task. */
  predicate SameTask(t: Option<Task>, t': Option<Task>) {
    if t.None? then t'.None?
    else
      && t'.Some?
      && t'.value == t.value.(state := t'.value.state, context := t'.value.context)
      && (t.value.state == Dead ==> t' == t)
  }

  lemma SwitchTask(s: SchedState, ctx: TaskContext, i: nat)
    requires InTable(s) && i < |s.tasks| && NextSlot(SaveCurrent(s, ctx)).Some?
    requires s.current == Some(i) ==> !HasState(s, i, Dead)
    ensures var saved := SaveCurrent(s, ctx);
            var r := Dispatch(saved, NextSlot(saved).value);
            && SameTask(s.tasks[i], r.tasks[i])
            && (s.current != Some(i) && s.tasks[i].Some? ==> r.tasks[i].value.context == s.tasks[i].value.context)
  {
  }

  lemma KilledTask(s: SchedState, ctx: TaskContext, i: nat)
    requires InTable(s) && s.current == Some(i) && HasState(s, i, Running)
    requires NextSlot(SaveCurrent(MarkDead(s), ctx)).Some?
    ensures var saved := SaveCurrent(MarkDead(s), ctx);
            var r := Dispatch(saved, NextSlot(saved).value);
            SameTask(s.tasks[i], r.tasks[i]) && HasState(r, i, Dead)
  {
  }

  lemma StepTask(s: Sys, e: Event, lay: Layout, modes: seq<Mode>, i: nat)
    requires Inv(s, lay, modes) && !Overwrites(s, e, TaskTable) && i < |s.sched.tasks|
    ensures |Step(s, e).sched.tasks| == |s.sched.tasks|
    ensures SameTask(s.sched.tasks[i], Step(s, e).sched.tasks[i])
    ensures s.sched.current.Some? ==> Step(s, e).sched.current.Some?
    ensures s.sched.current.None? && s.sched.tasks[i].Some? ==>
            Step(s, e).sched.tasks[i].value.context == s.sched.tasks[i].value.context
  {
    StepTable(s, e, lay, modes);
    if CallsSchedule(s, e) {
      if Faults(s, e) && s.sched.current == Some(i) {
        KilledTask(s.sched, TrapContext(s, e), i);
      } else {
        SwitchTask(Entering(s, e), TrapContext(s, e), i);
      }
    }
  }

  /**
   Identity, entry point, stack bounds and PMP table of a task are fixed for life; a dead task
   stays dead with nothing in it changing again; and once a task runs, some task always does.
   */
  lemma {:induction false} RunTask(s: Sys, es: seq<Event>, lay: Layout, modes: seq<Mode>, i: nat)
    requires Inv(s, lay, modes) && Spares(s, es, TaskTable) && i < |s.sched.tasks|
    ensures |Run(s, es).sched.tasks| == |s.sched.tasks|
    ensures SameTask(s.sched.tasks[i], Run(s, es).sched.tasks[i])
    ensures s.sched.current.Some? ==> Run(s, es).sched.current.Some?
    decreases |es|
  {
    if es != [] {
      StepTask(s, es[0], lay, modes, i);
      StepKeepsInv(s, es[0], lay, modes);
      RunTask(Step(s, es[0]), es[1..], lay, modes, i);
    }
  }

  /** A dead task is never resumed. */
  lemma DeadIsNeverResumed(s: Sys, es: seq<Event>, lay: Layout, modes: seq<Mode>, i: nat)
    requires Inv(s, lay, modes) && Spares(s, es, TaskTable) && HasState(s.sched, i, Dead)
    ensures HasState(Run(s, es).sched, i, Dead) && Run(s, es).sched.current != Some(i)
  {
    RunTask(s, es, lay, modes, i);
    RunKeepsInv(s, es, lay, modes);
  }

  lemma {:induction false} BootKeepsContexts(s: Sys, es: seq<Event>, lay: Layout, modes: seq<Mode>, i: nat)
    requires Inv(s, lay, modes) && Spares(s, es, TaskTable) && Run(s, es).sched.current.None?
    requires i < |s.sched.tasks| && s.sched.tasks[i].Some?
    ensures s.sched.current.None?
    ensures i < |Run(s, es).sched.tasks| && Run(s, es).sched.tasks[i].Some?
    ensures Run(s, es).sched.tasks[i].value.context == s.sched.tasks[i].value.context
    decreases |es|
  {
    if es != [] {
      StepTask(s, es[0], lay, modes, i);
      StepKeepsInv(s, es[0], lay, modes);
      BootKeepsContexts(Step(s, es[0]), es[1..], lay, modes, i);
    }
  }

  /** The boot context is never stored: the event that dispatches the first task leaves every context as built. */
  lemma BootContextIsDropped(s: Sys, es: seq<Event>, e: Event, lay: Layout, modes: seq<Mode>, i: nat)
    requires Inv(s, lay, modes) && Spares(s, es, TaskTable) && !Overwrites(Run(s, es), e, TaskTable)
    requires Run(s, es).sched.current.None?
    requires i < |s.sched.tasks| && s.sched.tasks[i].Some?
    ensures var r := Run(s, es + [e]);
            && i < |r.sched.tasks| && r.sched.tasks[i].Some?
            && r.sched.tasks[i].value.context == s.sched.tasks[i].value.context
  {
    BootKeepsContexts(s, es, lay, modes, i);
    RunKeepsInv(s, es, lay, modes);
    StepTask(Run(s, es), e, lay, modes, i);
    RunConcat(s, es, [e]);
    assert Run(Run(s, es), [e]) == Step(Run(s, es), e);
  }

  // --- What every reachable state looks like ---

  /**
   In every state of every run: idle is there and not dead; exactly the current task is Running;
   every stored context resumes in the mode its task was created with and with interrupts on;
   the hart runs in the current task's mode with interrupts on; and PMP entries 4-15 encode the
   current task's table, or nothing during boot.
   */
  lemma EveryState(s: Sys, es: seq<Event>, lay: Layout, modes: seq<Mode>, i: nat)
    requires Inv(s, lay, modes) && Spares(s, es, TaskTable) && i < |modes|
    ensures var r := Run(s, es);
            && |r.sched.tasks| == |modes|
            && r.sched.tasks[IDLE].Some? && r.sched.tasks[IDLE].value.state != Dead
            && (HasState(r.sched, i, Running) <==> r.sched.current == Some(i))
            && (r.sched.tasks[i].Some? ==> StatusOk(r.sched.tasks[i].value.context.mstatus, modes[i]))
            && r.mstatus.mie
            && (r.sched.current == Some(i) ==> r.mode == modes[i] && TaskImage(r.pmp, r.sched.tasks[i].value.pmpConfig))
            && (r.sched.current.None? ==> r.mode == M && TaskImage(r.pmp, []))
            && KernelImage(r.pmp, lay)
  {
    RunKeepsInv(s, es, lay, modes);
  }

  /** Every byte access in every state of every run is decided by the layout and the running task's table. */
  lemma EveryAccess(s: Sys, es: seq<Event>, lay: Layout, modes: seq<Mode>, c: nat, y: nat, k: Access)
    requires Inv(s, lay, modes) && Spares(s, es, TaskTable) && LayoutOk(lay)
    requires c < |s.sched.tasks| && s.sched.tasks[c].Some?
    requires TableOk(s.sched.tasks[c].value.pmpConfig)
    requires Run(s, es).sched.current == Some(c)
    ensures Allows(Run(s, es).pmp, Run(s, es).mode, y, k)
            <==> Decision(lay, s.sched.tasks[c].value.pmpConfig, modes[c], y, k)
  {
    RunKeepsInv(s, es, lay, modes);
    RunTask(s, es, lay, modes, c);
    var r := Run(s, es);
    AccessDecision(r.pmp, lay, s.sched.tasks[c].value.pmpConfig, r.mode, y, k);
  }

  // --- Output and panics ---

  /** The byte an event sends to the UART: a0 of the running task, on its write system call. */
  function Sent(s: Sys, e: Event): seq<nat>
    requires Ok(s)
  {
    if Delivered(s, e) && e.mcause == ECALL_FROM_U && s.gprs.a7 == SYS_PUTC then [s.gprs.a0 % 256] else []
  }

  function SentAll(s: Sys, es: seq<Event>): seq<nat>
    requires Ok(s)
    decreases |es|
  {
    if es == [] then [] else Sent(s, es[0]) + SentAll(Step(s, es[0]), es[1..])
  }

  lemma StepOutput(s: Sys, e: Event)
    requires Ok(s) && s.intact && !Overwrites(s, e, TrapFrames)
    ensures Step(s, e).output == s.output + Sent(s, e)
  {
  }

  lemma Appended(a: seq<nat>, b: seq<nat>, c: seq<nat>)
    ensures (a + b) + c == a + (b + c)
  {
  }

  /** System calls send to the UART the bytes of the write calls, in order, and nothing else from them. */
  lemma {:induction false} RunOutput(s: Sys, es: seq<Event>)
    requires Ok(s) && s.intact && Spares(s, es, TrapFrames)
    ensures Run(s, es).output == s.output + SentAll(s, es)
    decreases |es|
  {
    if es != [] {
      var s1, rest := Step(s, es[0]), es[1..];
      StepOutput(s, es[0]);
      StepKeepsIntact(s, es[0], TrapFrames);
      RunOutput(s1, rest);
      Appended(s.output, Sent(s, es[0]), SentAll(s1, rest));
    }
  }

  /**
   As long as the handlers are what was compiled, an event halts the kernel exactly when it is a
   trap whose frame may not be written, an unhandled cause, or an access fault in machine mode.
   */
  lemma PanicsExactly(s: Sys, e: Event)
    requires Ok(s) && !s.halted && !Hijacked(s)
    ensures Step(s, e).halted <==>
            Enabled(s, e) && e.TakeTrap? &&
            (!FrameWritable(s) || (!Survivable(e.mcause) && (IsAccessFault(e.mcause) ==> s.mode == M)))
  {
  }

  /** Out of every trap that returns, interrupts are on, MPIE is set and MPP is at the lowest mode. */
  lemma StatusAfterTrap(s: Sys, e: Event, lay: Layout, modes: seq<Mode>)
    requires Inv(s, lay, modes) && Delivered(s, e) && !FrameHits(s, s.home.table) && Returns(s.mode, e.mcause)
    ensures var st := Step(s, e).mstatus; st.mie && st.mpie && st.mpp == U
  {
    TrappedIsResumable(s, SeenFrame(s, e.damage), lay, modes);
    HandleKeepsResumable(Trapped(s, SeenFrame(s, e.damage)), e.mcause, e.rx, lay, modes);
    HandleReturns(Trapped(s, SeenFrame(s, e.damage)), e.mcause, e.rx);
  }

  // --- Time ---

  /** The timer was armed at `armed`, and every tick since took at least one interval. */
  predicate ClockInv(c: Clock, armed: nat) {
    && c.mtimecmp >= armed + (c.ticks + 1) * TICK
    && c.mtime + TICK >= c.mtimecmp
  }

  predicate IsTick(s: Sys, e: Event)
    requires Ok(s)
  {
    Delivered(s, e) && e.mcause == INTERRUPT + MACHINE_TIMER
  }

  function TickCalls(s: Sys, es: seq<Event>): nat
    requires Ok(s)
    decreases |es|
  {
    if es == [] then 0
    else (if IsTick(s, es[0]) then 1 else 0) + TickCalls(Step(s, es[0]), es[1..])
  }

  lemma StepClock(s: Sys, e: Event, armed: nat)
    requires Ok(s) && s.intact && !Overwrites(s, e, TimeKeeping) && ClockInv(s.clock, armed)
    ensures ClockInv(Step(s, e).clock, armed)
    ensures Step(s, e).clock.ticks == s.clock.ticks + (if IsTick(s, e) then 1 else 0)
    ensures Step(s, e).clock.mtime >= s.clock.mtime
  {
    if Delivered(s, e) {
      HandleParts(Entry(s, e.damage), e.mcause, e.rx);
    }
  }

  /**
   The tick count is the number of timer-driven scheduler calls, and never runs ahead of the
   clock: that many intervals have really passed since the timer was armed.
   */
  lemma {:induction false} TickBound(s: Sys, es: seq<Event>, armed: nat)
    requires Ok(s) && s.intact && Spares(s, es, TimeKeeping) && ClockInv(s.clock, armed)
    ensures Run(s, es).clock.ticks == s.clock.ticks + TickCalls(s, es)
    ensures armed + Run(s, es).clock.ticks * TICK <= Run(s, es).clock.mtime
    decreases |es|
  {
    if es != [] {
      StepClock(s, es[0], armed);
      StepKeepsIntact(s, es[0], TimeKeeping);
      TickBound(Step(s, es[0]), es[1..], armed);
    }
  }
}
