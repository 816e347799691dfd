/**
 From boot to every task's first instruction: each spawned task is dispatched after finitely many
 scheduler calls, and starts at its entry point, in its mode, on its own stack, with every other
 register zero.
 */
module Startup {
  import opened Bits
  import opened PmpHardware
  import opened Registers
  import opened Pmp
  import opened Policy
  import opened Task
  import opened Scheduler
  import opened Trap
  import opened System
  import opened Safety
  import opened VirtualCpu
  import opened Fairness
  import opened Allocator
  import opened Spawn
  import opened BootSequence

  // --- Runs and their prefixes ---

  lemma {:induction false} SparesPrefix(s: Sys, es: seq<Event>, part: Part, k: nat)
    requires Ok(s) && Spares(s, es, part) && k <= |es|
    ensures Spares(s, es[..k], part)
    decreases |es|
  {
    if k > 0 {
      assert es[..k][0] == es[0] && es[..k][1..] == es[1..][..k - 1];
      SparesPrefix(Step(s, es[0]), es[1..], part, k - 1);
    }
  }

  /** Task `j` has not been dispatched before the end of the run. */
  predicate NotYet(s: Sys, es: seq<Event>, j: nat)
    requires Ok(s)
    decreases |es|
  {
    es == [] || (s.sched.current != Some(j) && NotYet(Step(s, es[0]), es[1..], j))
  }

  /** The first prefix after which task `j` is current. */
  lemma {:induction false} FirstTime(s: Sys, es: seq<Event>, j: nat, k: nat) returns (first: nat)
    requires Ok(s) && k <= |es| && Run(s, es[..k]).sched.current == Some(j)
    ensures first <= k && Run(s, es[..first]).sched.current == Some(j) && NotYet(s, es[..first], j)
    decreases |es|
  {
    if s.sched.current == Some(j) {
      first := 0;
    } else {
      assert es[..k][0] == es[0] && es[..k][1..] == es[1..][..k - 1];
      var rest := FirstTime(Step(s, es[0]), es[1..], j, k - 1);
      first := rest + 1;
      assert es[..first][0] == es[0] && es[..first][1..] == es[1..][..rest];
    }
  }

  lemma {:induction false} NoHistoryYet(s: Sys, es: seq<Event>, j: nat)
    requires Ok(s) && NotYet(s, es, j)
    ensures History(s, es, j) == []
    decreases |es|
  {
    if es != [] {
      NoHistoryYet(Step(s, es[0]), es[1..], j);
    }
  }

  /** A task that has not been dispatched is as it was. */
  lemma UntouchedUntilDispatched(s: Sys, es: seq<Event>, lay: Layout, modes: seq<Mode>, j: nat)
    requires Inv(s, lay, modes) && Spares(s, es, TaskTable) && Spares(s, es, TrapFrames) && NotYet(s, es, j)
    requires j < |s.sched.tasks| && s.sched.tasks[j].Some?
    ensures j < |Run(s, es).sched.tasks| && View(Run(s, es), j) == View(s, j)
  {
    NoHistoryYet(s, es, j);
    Refinement(s, es, lay, modes, j);
  }

  // --- From boot ---

  /** The virtual CPU a task starts with. */
  predicate FreshCpu(v: VCpu, spec: Spec, stackTop: nat) {
    && v.pc == spec.entry && v.gprs.sp == stackTop && OnlySp(v.gprs, v.gprs.sp)
    && v.mode == (if spec.User? then U else M) && v.other == 0 && v.alive
  }

  lemma BootCpu(s: Sys, lay: Layout, next: u64, specs: seq<Spec>, c: nat)
    requires Booted(s, lay, next, specs) && AllOk(specs) && c < |specs|
    ensures View(s, c).Some? && FreshCpu(View(s, c).value, specs[c], StackBottom(next, c) + 8192)
  {
    BootSlots(s, lay, next, specs, c);
  }

  /** Whenever a task is dispatched for the first time, it starts fresh. */
  lemma FirstDispatchIsFresh(s: Sys, es: seq<Event>, lay: Layout, next: u64, specs: seq<Spec>, j: nat)
    requires Booted(s, lay, next, specs) && AllOk(specs) && j < |specs|
    requires Spares(s, es, TaskTable) && Spares(s, es, TrapFrames)
    requires NotYet(s, es, j) && Run(s, es).sched.current == Some(j)
    ensures var r := Run(s, es);
            && r.pc == specs[j].entry && r.mode == (if specs[j].User? then U else M)
            && r.gprs.sp == StackBottom(next, j) + 8192 && OnlySp(r.gprs, r.gprs.sp)
  {
    BootEstablishesInv(s, lay, next, specs);
    BootCpu(s, lay, next, specs, j);
    UntouchedUntilDispatched(s, es, lay, ModesOf(specs, |s.sched.tasks|), j);
  }

  /**
   Every task starts: in every run after boot with one scheduler call fewer than there are
   slots, each spawned task but idle is dispatched, and then it starts fresh.
   */
  lemma EveryTaskStarts(s: Sys, es: seq<Event>, lay: Layout, next: u64, specs: seq<Spec>, j: nat) returns (k: nat)
    requires Booted(s, lay, next, specs) && AllOk(specs) && IDLE < j < |specs|
    requires Spares(s, es, TaskTable) && Spares(s, es, TrapFrames)
    requires |Dispatched(s, es)| >= |s.sched.tasks| - 1
    ensures k <= |es| && NotYet(s, es[..k], j)
    ensures var r := Run(s, es[..k]);
            && r.sched.current == Some(j)
            && r.pc == specs[j].entry && r.mode == (if specs[j].User? then U else M)
            && r.gprs.sp == StackBottom(next, j) + 8192 && OnlySp(r.gprs, r.gprs.sp)
  {
    k := DispatchedFromBoot(s, es, lay, next, specs, j);
    SparesPrefix(s, es, TaskTable, k);
    SparesPrefix(s, es, TrapFrames, k);
    FirstDispatchIsFresh(s, es[..k], lay, next, specs, j);
  }

  lemma DispatchedFromBoot(s: Sys, es: seq<Event>, lay: Layout, next: u64, specs: seq<Spec>, j: nat)
    returns (k: nat)
    requires Booted(s, lay, next, specs) && AllOk(specs) && IDLE < j < |specs| && Spares(s, es, TaskTable)
    requires |Dispatched(s, es)| >= |s.sched.tasks| - 1
    ensures k <= |es| && Run(s, es[..k]).sched.current == Some(j) && NotYet(s, es[..k], j)
  {
    var modes := ModesOf(specs, |s.sched.tasks|);
    BootEstablishesInv(s, lay, next, specs);
    BootSlots(s, lay, next, specs, j);
    GapBound(|modes|, s.sched.current, j);
    var m := WaitingTime(s, es, lay, modes, j);
    k := FirstTime(s, es, j, m);
  }

  /** The first tick after boot is one such call: it dispatches the task in slot 1. */
  lemma FirstTick(s: Sys, lay: Layout, next: u64, specs: seq<Spec>, e: Event)
    requires Booted(s, lay, next, specs) && AllOk(specs) && |specs| > 1
    requires FrameWritable(s) && FrameIsMemory(s) && s.clock.mtime >= s.clock.mtimecmp
    requires e.TakeTrap? && e.mcause == 0x8000_0000_0000_0007
    ensures var r := Step(s, e);
            && r.sched.current == Some(1) && r.pc == specs[1].entry && r.mode == (if specs[1].User? then U else M)
  {
    var modes := ModesOf(specs, |s.sched.tasks|);
    BootEstablishesInv(s, lay, next, specs);
    BootSlots(s, lay, next, specs, 1);
    assert Delivered(s, e) && !Overwrites(s, e, TaskTable) && !Overwrites(s, e, TrapFrames);
    FirstPick(s, e, lay, modes);
    BootCpu(s, lay, next, specs, 1);
    StepView(s, e, lay, modes, 1);
  }

  lemma FirstPick(s: Sys, e: Event, lay: Layout, modes: seq<Mode>)
    requires Inv(s, lay, modes) && !Overwrites(s, e, TaskTable) && CallsSchedule(s, e)
    requires s.sched.current.None? && HasState(s.sched, 1, Ready)
    ensures Step(s, e).sched.current == Some(1)
  {
    ScheduleSelects(s, e, lay, modes);
    WaiterAfterCall(s, e, lay, modes, 1);
    SelectFirst(|modes|, AliveSet(Step(s, e).sched));
  }
}
