/**
 Fairness of the running system: the dispatches of any run are a dispatch sequence of the
 policy, so its bounds and its exact round robin hold for tasks under arbitrary interleavings
 of ticks, faults, system calls and execution.
 */
module Fairness {
  import opened PmpHardware
  import opened Pmp
  import opened Policy
  import opened Task
  import opened Scheduler
  import opened System
  import opened Safety

  predicate Alive(s: SchedState, i: nat) {
    i < |s.tasks| && s.tasks[i].Some? && s.tasks[i].value.state != Dead
  }

  function AliveSet(s: SchedState): set<nat> {
    set i: nat | i < |s.tasks| && Alive(s, i)
  }

  /** The slots dispatched by the scheduler calls of a run, in order. */
  function Dispatched(s: Sys, es: seq<Event>): seq<nat>
    requires Ok(s)
    decreases |es|
  {
    if es == [] then []
    else
      var s1 := Step(s, es[0]);
      (if CallsSchedule(s, es[0]) && s1.sched.current.Some? then [s1.sched.current.value] else [])
      + Dispatched(s1, es[1..])
  }

  /** The slots that were ready at each of those calls. */
  function ReadySets(s: Sys, es: seq<Event>): seq<set<nat>>
    requires Ok(s)
    decreases |es|
  {
    if es == [] then []
    else
      var s1 := Step(s, es[0]);
      (if CallsSchedule(s, es[0]) && s1.sched.current.Some? then [AliveSet(s1.sched)] else [])
      + ReadySets(s1, es[1..])
  }

  // --- One scheduler call ---

  /** After saving, ready and alive are the same, and dispatching keeps everyone alive. */
  lemma SavedReadyIsAlive(s: SchedState, modes: seq<Mode>, ctx: TaskContext)
    requires Schedulable(s, modes) && NextSlot(SaveCurrent(s, ctx)).Some?
    requires s.current.Some? ==> StatusOk(ctx.mstatus, modes[s.current.value])
    ensures var saved := SaveCurrent(s, ctx);
            ReadySet(saved.tasks) == AliveSet(Dispatch(saved, NextSlot(saved).value))
  {
    SaveKeeps(s, modes, ctx);
    var saved := SaveCurrent(s, ctx);
    forall i: nat | i < |saved.tasks|
      ensures i in ReadySet(saved.tasks) <==> Alive(Dispatch(saved, NextSlot(saved).value), i)
    {
      assert TaskOk(saved.tasks[i], modes[i]);
      assert !HasState(saved, i, Running);
    }
  }

  /** What is ready when the policy is asked is exactly what is alive when the call is over. */
  lemma ReadyIsAlive(s: Sys, e: Event, lay: Layout, modes: seq<Mode>)
    requires Inv(s, lay, modes) && !Overwrites(s, e, TaskTable) && CallsSchedule(s, e)
    ensures ReadySet(SaveCurrent(Entering(s, e), TrapContext(s, e)).tasks) == AliveSet(Step(s, e).sched)
  {
    StepTable(s, e, lay, modes);
    EnteringIsSchedulable(s, e, lay, modes);
    SavedReadyIsAlive(Entering(s, e), modes, TrapContext(s, e));
  }

  /** A scheduler call dispatches what the policy selects among the tasks that survive it. */
  lemma ScheduleSelects(s: Sys, e: Event, lay: Layout, modes: seq<Mode>)
    requires Inv(s, lay, modes) && !Overwrites(s, e, TaskTable) && CallsSchedule(s, e)
    ensures var s1 := Step(s, e).sched;
            && |s1.tasks| == |s.sched.tasks|
            && s1.current.Some?
            && Select(|s.sched.tasks|, s.sched.current, AliveSet(s1)) == s1.current
  {
    StepTable(s, e, lay, modes);
    ReadyIsAlive(s, e, lay, modes);
  }

  lemma NoCallKeepsSched(s: Sys, e: Event, lay: Layout, modes: seq<Mode>)
    requires Inv(s, lay, modes) && !Overwrites(s, e, TaskTable) && !CallsSchedule(s, e)
    ensures Step(s, e).sched == s.sched
  {
  }

  /** Idle is dispatched exactly when no other task is left alive. */
  lemma IdleIsFallback(s: Sys, e: Event, lay: Layout, modes: seq<Mode>)
    requires Inv(s, lay, modes) && !Overwrites(s, e, TaskTable) && CallsSchedule(s, e)
    ensures Step(s, e).sched.current == Some(IDLE) <==> AliveSet(Step(s, e).sched) == {IDLE}
  {
    var s1 := Step(s, e);
    ScheduleSelects(s, e, lay, modes);
    StepKeepsInv(s, e, lay, modes);
    SelectMeaning(|modes|, s.sched.current, AliveSet(s1.sched));
    assert IDLE in AliveSet(s1.sched);
  }

  // --- Bounded waiting ---

  /** A waiting task survives a scheduler call, and is then running or still waiting. */
  lemma WaiterAfterCall(s: Sys, e: Event, lay: Layout, modes: seq<Mode>, j: nat)
    requires Inv(s, lay, modes) && !Overwrites(s, e, TaskTable) && CallsSchedule(s, e) && HasState(s.sched, j, Ready)
    ensures j in AliveSet(Step(s, e).sched)
    ensures Step(s, e).sched.current == Some(j) || HasState(Step(s, e).sched, j, Ready)
  {
    StepTable(s, e, lay, modes);
    WaiterKept(Entering(s, e), TrapContext(s, e), j);
  }

  lemma WaiterKept(s: SchedState, ctx: TaskContext, j: nat)
    requires InTable(s) && HasState(s, j, Ready) && NextSlot(SaveCurrent(s, ctx)).Some?
    ensures var saved := SaveCurrent(s, ctx);
            var r := Dispatch(saved, NextSlot(saved).value);
            j in AliveSet(r) && (r.current == Some(j) || HasState(r, j, Ready))
  {
  }

  /** A scheduler call dispatches a waiting task or brings it nearer; other events change nothing for it. */
  lemma WaitStep(s: Sys, e: Event, lay: Layout, modes: seq<Mode>, j: nat)
    requires Inv(s, lay, modes) && !Overwrites(s, e, TaskTable)
    requires IDLE < j && HasState(s.sched, j, Ready)
    ensures var s1 := Step(s, e).sched;
            if !CallsSchedule(s, e) then s1 == s.sched
            else
              || s1.current == Some(j)
              || (&& HasState(s1, j, Ready) && s1.current.Some?
                  && Gap(|modes|, s1.current, j) < Gap(|modes|, s.sched.current, j))
  {
    if CallsSchedule(s, e) {
      ScheduleSelects(s, e, lay, modes);
      WaiterAfterCall(s, e, lay, modes, j);
      GapDecreases(|modes|, s.sched.current, AliveSet(Step(s, e).sched), j);
    } else {
      NoCallKeepsSched(s, e, lay, modes);
    }
  }

  /** A task that waits with gap `g` is dispatched by one of the next `g + 1` scheduler calls. */
  lemma {:induction false} WaitingTime(s: Sys, es: seq<Event>, lay: Layout, modes: seq<Mode>, j: nat) returns (k: nat)
    requires Inv(s, lay, modes) && Spares(s, es, TaskTable) && j != IDLE && HasState(s.sched, j, Ready)
    requires |Dispatched(s, es)| > Gap(|s.sched.tasks|, s.sched.current, j)
    ensures k <= |es| && Run(s, es[..k]).sched.current == Some(j)
    ensures |Dispatched(s, es[..k])| <= Gap(|s.sched.tasks|, s.sched.current, j) + 1
    decreases |es|
  {
    var e := es[0];
    var s1 := Step(s, e);
    StepKeepsInv(s, e, lay, modes);
    WaitStep(s, e, lay, modes, j);
    if s1.sched.current == Some(j) {
      k := 1;
      assert es[..1][0] == e && es[..1][1..] == [];
      assert Dispatched(s1, []) == [];
      return;
    }
    var k' := WaitingTime(s1, es[1..], lay, modes, j);
    k := k' + 1;
    assert es[..k][0] == e && es[..k][1..] == es[1..][..k'];
  }

  /**
   Bounded waiting: in a table of `n` slots a Ready task other than idle is running after at
   most `n - 1` scheduler calls, whatever else happens in a run that spares the task
   table.
   */
  lemma BoundedWaiting(s: Sys, es: seq<Event>, lay: Layout, modes: seq<Mode>, j: nat)
    requires Inv(s, lay, modes) && Spares(s, es, TaskTable) && j != IDLE && HasState(s.sched, j, Ready)
    requires |Dispatched(s, es)| >= |modes| - 1
    ensures exists k :: 0 <= k <= |es| && Run(s, es[..k]).sched.current == Some(j)
                        && |Dispatched(s, es[..k])| <= |modes| - 1
  {
    GapBound(|modes|, s.sched.current, j);
    var k := WaitingTime(s, es, lay, modes, j);
  }

  // --- Round robin ---

  /** The dispatches of a run are a dispatch sequence of the policy. */
  lemma {:induction false} RunDispatches(s: Sys, es: seq<Event>, lay: Layout, modes: seq<Mode>)
    requires Inv(s, lay, modes) && Spares(s, es, TaskTable) && s.sched.current.Some?
    ensures Dispatches(|modes|, [s.sched.current.value] + Dispatched(s, es), ReadySets(s, es))
    decreases |es|
  {
    if es != [] {
      var e := es[0];
      var s1 := Step(s, e);
      StepKeepsInv(s, e, lay, modes);
      if CallsSchedule(s, e) {
        ScheduleSelects(s, e, lay, modes);
        RunDispatches(s1, es[1..], lay, modes);
        PrependDispatch(|modes|, s.sched.current.value, AliveSet(s1.sched),
                        [s1.sched.current.value] + Dispatched(s1, es[1..]), ReadySets(s1, es[1..]));
      } else {
        NoCallKeepsSched(s, e, lay, modes);
        RunDispatches(s1, es[1..], lay, modes);
        assert [] + Dispatched(s1, es[1..]) == Dispatched(s1, es[1..]);
        assert [] + ReadySets(s1, es[1..]) == ReadySets(s1, es[1..]);
      }
    }
  }

  lemma PrependDispatch(n: nat, c: nat, ready: set<nat>, d: seq<nat>, rest: seq<set<nat>>)
    requires Dispatches(n, d, rest) && c < n && Select(n, Some(c), ready) == Some(d[0])
    ensures Dispatches(n, [c] + d, [ready] + rest)
  {
  }

  /** Nobody comes back to life. */
  lemma StepAlive(s: Sys, e: Event, lay: Layout, modes: seq<Mode>, i: nat)
    requires Inv(s, lay, modes) && !Overwrites(s, e, TaskTable) && Alive(Step(s, e).sched, i)
    ensures Alive(s.sched, i)
  {
    StepTask(s, e, lay, modes, IDLE);
    StepTask(s, e, lay, modes, i);
  }

  /** A task alive at the end of a run was schedulable at every scheduler call in it. */
  lemma {:induction false} AliveThroughout(s: Sys, es: seq<Event>, lay: Layout, modes: seq<Mode>, i: nat)
    requires Inv(s, lay, modes) && Spares(s, es, TaskTable) && Alive(Run(s, es).sched, i)
    ensures Alive(s.sched, i)
    ensures forall k :: 0 <= k < |ReadySets(s, es)| ==> i in ReadySets(s, es)[k]
    decreases |es|
  {
    if es != [] {
      StepKeepsInv(s, es[0], lay, modes);
      AliveThroughout(Step(s, es[0]), es[1..], lay, modes, i);
      StepAlive(s, es[0], lay, modes, i);
    }
  }

  /**
   Exact round robin: when a run starts with task `j` running and dispatches it again for the
   first time with its last scheduler call, it dispatches every other task that is still alive
   exactly once in between, and idle not at all.
   */
  lemma RoundRobin(s: Sys, es: seq<Event>, lay: Layout, modes: seq<Mode>, j: nat, i: nat)
    requires Inv(s, lay, modes) && Spares(s, es, TaskTable)
    requires s.sched.current == Some(j) && j != IDLE && i != IDLE && i != j
    requires Alive(Run(s, es).sched, i) && Alive(Run(s, es).sched, j)
    requires var d := Dispatched(s, es);
             d != [] && d[|d| - 1] == j && forall k :: 0 <= k < |d| - 1 ==> d[k] != j
    ensures multiset(Dispatched(s, es))[i] == 1 && IDLE !in Dispatched(s, es)
  {
    RunDispatches(s, es, lay, modes);
    AliveThroughout(s, es, lay, modes, i);
    AliveThroughout(s, es, lay, modes, j);
    RoundAfter(|modes|, j, Dispatched(s, es), ReadySets(s, es), i);
  }

  /** The policy's round robin, for the dispatches that follow one of `j`. */
  lemma RoundAfter(n: nat, j: nat, d: seq<nat>, ready: seq<set<nat>>, i: nat)
    requires Dispatches(n, [j] + d, ready) && IDLE < j < n && IDLE < i < n && i != j
    requires forall k :: 0 <= k < |ready| ==> i in ready[k] && j in ready[k]
    requires d != [] && d[|d| - 1] == j && forall k :: 0 <= k < |d| - 1 ==> d[k] != j
    ensures multiset(d)[i] == 1 && IDLE !in d
  {
    var all := [j] + d;
    forall k | 1 <= k < |all| - 1
      ensures all[k] != j
    {
      assert all[k] == d[k - 1];
    }
    ExactRoundRobin(n, all, ready, j, i);
    assert multiset(all) == multiset{j} + multiset(d);
  }

  /** While nobody dies, every scheduler call sees the same ready set. */
  lemma {:induction false} FixedReadySet(s: Sys, es: seq<Event>, lay: Layout, modes: seq<Mode>)
    requires Inv(s, lay, modes) && Spares(s, es, TaskTable) && AliveSet(Run(s, es).sched) == AliveSet(s.sched)
    ensures forall k :: 0 <= k < |ReadySets(s, es)| ==> ReadySets(s, es)[k] == AliveSet(s.sched)
    decreases |es|
  {
    if es != [] {
      var s1 := Step(s, es[0]);
      StepKeepsInv(s, es[0], lay, modes);
      AliveShrinks(s1, es[1..], lay, modes);
      StepAliveShrinks(s, es[0], lay, modes);
      FixedReadySet(s1, es[1..], lay, modes);
    }
  }

  lemma StepAliveShrinks(s: Sys, e: Event, lay: Layout, modes: seq<Mode>)
    requires Inv(s, lay, modes) && !Overwrites(s, e, TaskTable)
    ensures AliveSet(Step(s, e).sched) <= AliveSet(s.sched)
  {
    forall i | i in AliveSet(Step(s, e).sched)
      ensures i in AliveSet(s.sched)
    {
      StepAlive(s, e, lay, modes, i);
    }
  }

  lemma AliveShrinks(s: Sys, es: seq<Event>, lay: Layout, modes: seq<Mode>)
    requires Inv(s, lay, modes) && Spares(s, es, TaskTable)
    ensures AliveSet(Run(s, es).sched) <= AliveSet(s.sched)
  {
    forall i | i in AliveSet(Run(s, es).sched)
      ensures i in AliveSet(s.sched)
    {
      AliveThroughout(s, es, lay, modes, i);
    }
  }

  /**
   In any stretch of a run without a death that makes as many scheduler calls as there are
   live tasks besides idle, each of those tasks is dispatched exactly once.
   */
  lemma Window(s: Sys, es: seq<Event>, lay: Layout, modes: seq<Mode>)
    requires Inv(s, lay, modes) && Spares(s, es, TaskTable) && s.sched.current.Some?
    requires AliveSet(Run(s, es).sched) == AliveSet(s.sched)
    requires |Dispatched(s, es)| == |AliveSet(s.sched) - {IDLE}|
    ensures multiset(Dispatched(s, es)) == multiset(AliveSet(s.sched) - {IDLE})
  {
    RunDispatches(s, es, lay, modes);
    FixedReadySet(s, es, lay, modes);
    WindowAfter(|modes|, s.sched.current.value, Dispatched(s, es), ReadySets(s, es), AliveSet(s.sched));
  }

  /** The policy's window, for the dispatches that follow one of `c`. */
  lemma WindowAfter(n: nat, c: nat, d: seq<nat>, ready: seq<set<nat>>, fixed: set<nat>)
    requires Dispatches(n, [c] + d, ready) && (forall x :: x in fixed ==> x < n)
    requires forall k :: 0 <= k < |ready| ==> ready[k] == fixed
    requires |d| == |fixed - {IDLE}|
    ensures multiset(d) == multiset(fixed - {IDLE})
  {
    assert (set x | x in fixed && IDLE < x < n) == fixed - {IDLE};
    WindowIsPermutation(n, [c] + d, ready, fixed);
    assert ([c] + d)[1..] == d;
  }
}
