/**
 Exactly when an overwrite does harm. A user store or a trap frame is harmless if the table,
 mode, status and PMP registers stay coherent in every continuation that overwrites nothing
 more; that is the case if and only if it misses the task table and what the handlers rely on.
 */
module Overwriting {
  import opened Bits
  import opened PmpHardware
  import opened Pmp
  import opened PmpSafety
  import opened Policy
  import opened Task
  import opened Scheduler
  import opened Trap
  import opened System
  import opened Safety
  import opened Isolation

  /** Every continuation that spares the task table is coherent. */
  ghost predicate Safe(s: Sys, lay: Layout, modes: seq<Mode>)
    requires Ok(s)
  {
    forall es: seq<Event> :: Spares(s, es, TaskTable) ==> Coherent(Run(s, es), lay, modes)
  }

  lemma InvIsSafe(s: Sys, lay: Layout, modes: seq<Mode>)
    requires Inv(s, lay, modes)
    ensures Safe(s, lay, modes)
  {
    forall es: seq<Event> | Spares(s, es, TaskTable)
      ensures Coherent(Run(s, es), lay, modes)
    {
      RunKeepsInv(s, es, lay, modes);
    }
  }

  lemma IncoherentIsUnsafe(s: Sys, lay: Layout, modes: seq<Mode>)
    requires Ok(s) && !Coherent(s, lay, modes)
    ensures !Safe(s, lay, modes)
  {
    assert Spares(s, [], TaskTable) && Run(s, []) == s;
  }

  /** An overwrite with no effect but the given ones. */
  function Leaving(s: Sys, sched: SchedState, after: Sys): Damage {
    Damage(sched, sched, s.clock, s.gprs, s.gprs, after)
  }

  /** A system call that ends in machine mode, although the table says user mode. */
  function EscapingCall(s: Sys): Event {
    TakeTrap(ECALL_FROM_U, None, Leaving(s, s.sched, s.(mode := M, intact := false)))
  }

  /** Once what the handlers rely on is overwritten, the next system call can end anywhere. */
  lemma TaintedIsUnsafe(s: Sys, lay: Layout, modes: seq<Mode>)
    requires Coherent(s, lay, modes) && !s.intact && !s.halted && s.mode == U
    ensures Step(s, EscapingCall(s)) == s.(mode := M)
    ensures !Safe(s, lay, modes)
  {
    var e := EscapingCall(s);
    assert Enabled(s, e) && !Overwrites(s, e, TaskTable);
    assert Step(s, e) == s.(mode := M);
    assert Run(s, [e]) == Run(Step(s, e), []);
    assert Spares(s, [e], TaskTable);
    assert !Coherent(Run(s, [e]), lay, modes);
  }

  // --- Stores ---

  /** Whatever a write to `addr` leaves of what the byte is part of, nothing incoherent follows. */
  ghost predicate StoreIsHarmless(s: Sys, addr: nat, lay: Layout, modes: seq<Mode>)
    requires Ok(s)
  {
    forall damage: Damage :: Safe(Step(s, Store(addr, damage)), lay, modes)
  }

  /** The table with its idle task marked dead: a change of one byte. */
  function IdleDead(s: SchedState): SchedState
    requires InTable(s) && |s.tasks| > 0 && s.tasks[IDLE].Some?
  {
    s.(tasks := s.tasks[IDLE := Some(s.tasks[IDLE].value.(state := Dead))])
  }

  lemma StoreHarms(s: Sys, addr: nat, lay: Layout, modes: seq<Mode>)
    requires Inv(s, lay, modes) && LayoutOk(lay) && HomeOk(s.home, lay) && !s.halted && s.mode == U
    requires In(addr, s.home.table) || In(addr, s.home.relied)
    ensures !StoreIsHarmless(s, addr, lay, modes)
  {
    KernelDecision(s.pmp, lay, U, addr, Write);
    var damage := Leaving(s, if In(addr, s.home.table) then IdleDead(s.sched) else s.sched, s);
    assert Enabled(s, Store(addr, damage));
    var r := Step(s, Store(addr, damage));
    if In(addr, s.home.table) {
      IncoherentIsUnsafe(r, lay, modes);
    } else {
      TaintedIsUnsafe(r, lay, modes);
    }
  }

  /** A user store is harmless exactly when it misses the task table and what the handlers rely on. */
  lemma StoreIsHarmlessExactly(s: Sys, addr: nat, lay: Layout, modes: seq<Mode>)
    requires Inv(s, lay, modes) && LayoutOk(lay) && HomeOk(s.home, lay) && !s.halted && s.mode == U
    ensures StoreIsHarmless(s, addr, lay, modes) <==> !StoreHits(s.home, addr, TaskTable)
  {
    if StoreHits(s.home, addr, TaskTable) {
      StoreHarms(s, addr, lay, modes);
    } else {
      forall damage: Damage
        ensures Safe(Step(s, Store(addr, damage)), lay, modes)
      {
        StepKeepsInv(s, Store(addr, damage), lay, modes);
        InvIsSafe(Step(s, Store(addr, damage)), lay, modes);
      }
    }
  }

  // --- Trap frames ---

  ghost predicate TrapIsHarmless(s: Sys, mcause: u64, rx: Option<nat>, lay: Layout, modes: seq<Mode>)
    requires Ok(s)
  {
    forall damage: Damage :: Safe(Step(s, TakeTrap(mcause, rx, damage)), lay, modes)
  }

  lemma TrapHarms(s: Sys, mcause: u64, rx: Option<nat>, lay: Layout, modes: seq<Mode>)
    requires Inv(s, lay, modes) && !s.halted && CanTrap(s, mcause) && TrapHits(s, mcause, TaskTable)
    ensures !TrapIsHarmless(s, mcause, rx, lay, modes)
  {
    var bad := IdleDead(s.sched);
    var damage := Leaving(s, bad, s.(sched := bad, intact := false));
    var e := TakeTrap(mcause, rx, damage);
    assert Enabled(s, e);
    if !Hijacked(s) {
      HandleReturns(Entry(s, damage), mcause, rx);
    }
    assert Step(s, e).sched == bad;
    IncoherentIsUnsafe(Step(s, e), lay, modes);
  }

  /**
   A trap is harmless exactly when the PMP denies its frame, or the frame misses what the
   handlers rely on and, if they return at all, the task table.
   */
  lemma TrapIsHarmlessExactly(s: Sys, mcause: u64, rx: Option<nat>, lay: Layout, modes: seq<Mode>)
    requires Inv(s, lay, modes) && !s.halted && CanTrap(s, mcause)
    ensures TrapIsHarmless(s, mcause, rx, lay, modes) <==> !TrapHits(s, mcause, TaskTable)
  {
    if TrapHits(s, mcause, TaskTable) {
      TrapHarms(s, mcause, rx, lay, modes);
    } else {
      forall damage: Damage
        ensures Safe(Step(s, TakeTrap(mcause, rx, damage)), lay, modes)
      {
        StepKeepsInv(s, TakeTrap(mcause, rx, damage), lay, modes);
        InvIsSafe(Step(s, TakeTrap(mcause, rx, damage)), lay, modes);
      }
    }
  }

  /** A frame in the task table that does harm: the stack pointer just above the table's first byte. */
  lemma FrameInTableHarms(s: Sys, mcause: u64, rx: Option<nat>, lay: Layout, modes: seq<Mode>)
    requires Inv(s, lay, modes) && LayoutOk(lay) && HomeOk(s.home, lay) && !s.halted && CanTrap(s, mcause)
    requires Returns(s.mode, mcause) && s.gprs.sp == s.home.table.lo + 256 && FrameWritable(s)
    ensures !TrapIsHarmless(s, mcause, rx, lay, modes)
  {
    assert In(Below(s.gprs.sp, 256), s.home.table);
    TrapHarms(s, mcause, rx, lay, modes);
  }

  // --- Over runs ---

  /**
   The premise of the results about the task table is exact: after every run that meets it, a
   store or a trap is harmless if and only if it meets it too.
   */
  lemma SparesIsExact(s: Sys, es: seq<Event>, addr: nat, mcause: u64, rx: Option<nat>, lay: Layout, modes: seq<Mode>)
    requires Inv(s, lay, modes) && LayoutOk(lay) && HomeOk(s.home, lay)
    requires Spares(s, es, TaskTable) && !Run(s, es).halted
    ensures Run(s, es).mode == U ==>
            (StoreIsHarmless(Run(s, es), addr, lay, modes) <==> !StoreHits(s.home, addr, TaskTable))
    ensures CanTrap(Run(s, es), mcause) ==>
            (TrapIsHarmless(Run(s, es), mcause, rx, lay, modes) <==> !TrapHits(Run(s, es), mcause, TaskTable))
  {
    RunKeepsInv(s, es, lay, modes);
    if Run(s, es).mode == U {
      StoreIsHarmlessExactly(Run(s, es), addr, lay, modes);
    }
    if CanTrap(Run(s, es), mcause) {
      TrapIsHarmlessExactly(Run(s, es), mcause, rx, lay, modes);
    }
  }

  // --- Failing runs in full ---

  /**
   One store to a byte the handlers rely on and outside the task table, and the next system call
   leaves the running user task in machine mode.
   */
  lemma RelianceBreaksModes(s: Sys, addr: nat, lay: Layout, modes: seq<Mode>)
    requires Inv(s, lay, modes) && LayoutOk(lay) && HomeOk(s.home, lay) && !s.halted && s.mode == U
    requires In(addr, s.home.relied) && !In(addr, s.home.table)
    ensures var e := Store(addr, Leaving(s, s.sched, s));
            var r := Run(s, [e, EscapingCall(Step(s, e))]);
            r.sched == s.sched && r.mode == M
  {
    KernelDecision(s.pmp, lay, U, addr, Write);
    var e := Store(addr, Leaving(s, s.sched, s));
    var s1 := Step(s, e);
    assert s1 == Stored(s, addr, e.damage);
    TaintedIsUnsafe(s1, lay, modes);
    RunFirst(s, e, [EscapingCall(s1)]);
    RunFirst(s1, EscapingCall(s1), []);
    assert [e] + [EscapingCall(s1)] == [e, EscapingCall(s1)] && [EscapingCall(s1)] + [] == [EscapingCall(s1)];
  }

  /** The table with the saved MPP of slot `j` set to machine mode. */
  function Promoted(s: SchedState, j: nat): SchedState
    requires InTable(s) && j < |s.tasks| && s.tasks[j].Some?
  {
    var t := s.tasks[j].value;
    s.(tasks := s.tasks[j := Some(t.(context := t.context.(mstatus := t.context.mstatus.(mpp := M))))])
  }

  /** A store into the table, time, and a tick that resumes the next task. */
  function PromotingRun(s: Sys, j: nat): seq<Event>
    requires Ok(s) && j < |s.sched.tasks| && s.sched.tasks[j].Some?
  {
    [Store(s.home.table.lo, Leaving(s, Promoted(s.sched, j), s)),
     Elapse(s.clock.mtimecmp),
     TakeTrap(INTERRUPT + MACHINE_TIMER, None, Leaving(s, s.sched, s))]
  }

  /** One store into the table, and a task created for user mode is resumed in machine mode. */
  lemma OverwriteBreaksModes(s: Sys, lay: Layout, modes: seq<Mode>, j: nat)
    requires Inv(s, lay, modes) && LayoutOk(lay) && HomeOk(s.home, lay) && !s.halted && s.mode == U
    requires FrameWritable(s) && FrameIsMemory(s) && !In(s.home.table.lo, s.home.relied)
    requires !ClockByte(s.home, s.home.table.lo)
    requires s.sched.current != Some(j) && Picked(s.sched, TrapContext(s, Elapse(0))) == Some(j) && modes[j] == U
    ensures var r := Run(s, PromotingRun(s, j));
            r.sched.current == Some(j) && r.mode == M
  {
    var es := PromotingRun(s, j);
    KernelDecision(s.pmp, lay, U, s.home.table.lo, Write);
    var s1 := s.(sched := Promoted(s.sched, j));
    assert Step(s, es[0]) == s1;
    var s2 := s1.(clock := s1.clock.(mtime := s1.clock.mtime + s1.clock.mtimecmp));
    assert Step(s1, es[1]) == s2;
    PromotedPick(s.sched, TrapContext(s, Elapse(0)), j);
    TickResumes(s2, es[2], j);
    RunOfThree(s, es[0], es[1], es[2]);
  }

  lemma RunOfThree(s: Sys, a: Event, b: Event, c: Event)
    requires Ok(s)
    ensures Run(s, [a, b, c]) == Step(Step(Step(s, a), b), c)
  {
    RunFirst(s, a, [b, c]);
    RunFirst(Step(s, a), b, [c]);
    RunFirst(Step(Step(s, a), b), c, []);
    assert [a] + [b, c] == [a, b, c] && [b] + [c] == [b, c] && [c] + [] == [c];
  }

  lemma RunFirst(s: Sys, e: Event, es: seq<Event>)
    requires Ok(s)
    ensures Run(s, [e] + es) == Run(Step(s, e), es)
  {
    assert ([e] + es)[1..] == es;
  }

  /** A tick resumes the picked task in the mode its saved context says. */
  lemma TickResumes(s: Sys, e: Event, j: nat)
    requires Ok(s) && Delivered(s, e) && FrameIsMemory(s) && e.mcause == INTERRUPT + MACHINE_TIMER
    requires Picked(s.sched, TrapContext(s, e)) == Some(j)
    ensures var r := Step(s, e);
            && r.sched.current == Some(j)
            && r.mode == SaveCurrent(s.sched, TrapContext(s, e)).tasks[j].value.context.mstatus.mpp
  {
  }

  lemma PromotedPick(s: SchedState, ctx: TaskContext, j: nat)
    requires InTable(s) && s.current != Some(j) && NextSlot(SaveCurrent(s, ctx)) == Some(j)
    ensures NextSlot(SaveCurrent(Promoted(s, j), ctx)) == Some(j)
    ensures SaveCurrent(Promoted(s, j), ctx).tasks[j].value.context.mstatus.mpp == M
  {
    assert ReadySet(SaveCurrent(Promoted(s, j), ctx).tasks) == ReadySet(SaveCurrent(s, ctx).tasks);
  }
}
