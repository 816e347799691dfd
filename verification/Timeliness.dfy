/**
 Waiting in real time. If the hart takes every expired timer interrupt within a fixed number of
 counts, the bound on scheduler calls becomes a bound on the timer's clock.
 */
module Timeliness {
  import opened PmpHardware
  import opened Pmp
  import opened Policy
  import opened Task
  import opened Timer
  import opened System
  import opened Safety
  import opened Fairness

  /** In no state of the run has the timer been expired for more than `delta` counts. */
  predicate Prompt(s: Sys, es: seq<Event>, delta: nat)
    requires Ok(s)
    decreases |es|
  {
    && s.clock.mtime <= s.clock.mtimecmp + delta
    && (es != [] ==> Prompt(Step(s, es[0]), es[1..], delta))
  }

  /** The time of `g` ticks, each taken as late as allowed. */
  function Periods(g: nat, delta: nat): nat {
    if g == 0 then 0 else TICK + delta + Periods(g - 1, delta)
  }

  lemma {:induction false} PeriodsIsProduct(g: nat, delta: nat)
    ensures Periods(g, delta) == g * (TICK + delta)
  {
    if g > 0 {
      PeriodsIsProduct(g - 1, delta);
      OneMore(g - 1, TICK + delta);
    }
  }

  lemma OneMore(g: nat, period: nat)
    ensures (g + 1) * period == g * period + period
  {
  }

  lemma {:induction false} OneNearer(g: nat, g': nat, delta: nat)
    requires g' < g
    ensures Periods(g', delta) + TICK + delta <= Periods(g, delta)
  {
    if g' < g - 1 {
      OneNearer(g - 1, g', delta);
    }
  }

  /** The latest time at which a task `g` slots away is dispatched. */
  function Deadline(c: Clock, g: nat, delta: nat): nat {
    c.mtimecmp + delta + Periods(g, delta)
  }

  /** How an event moves the comparator, and which events leave the time alone. */
  lemma StepDue(s: Sys, e: Event)
    requires Ok(s) && s.intact && !Overwrites(s, e, TimeKeeping)
    ensures Step(s, e).clock.mtimecmp == if IsTick(s, e) then s.clock.mtime + TICK else s.clock.mtimecmp
    ensures CallsSchedule(s, e) ==> Step(s, e).clock.mtime == s.clock.mtime
  {
    if Delivered(s, e) {
      HandleParts(Entry(s, e.damage), e.mcause, e.rx);
    }
  }

  /** An event dispatches the waiting task by its deadline, or its new deadline is no later. */
  lemma StepMeetsDeadline(s: Sys, e: Event, lay: Layout, modes: seq<Mode>, j: nat, delta: nat)
    requires Inv(s, lay, modes) && !Overwrites(s, e, TaskTable) && !Overwrites(s, e, TimeKeeping)
    requires IDLE < j && HasState(s.sched, j, Ready) && s.clock.mtime <= s.clock.mtimecmp + delta
    ensures var s1 := Step(s, e);
            var deadline := Deadline(s.clock, Gap(|modes|, s.sched.current, j), delta);
            if s1.sched.current == Some(j) then s1.clock.mtime <= deadline
            else
              && HasState(s1.sched, j, Ready)
              && Deadline(s1.clock, Gap(|modes|, s1.sched.current, j), delta) <= deadline
  {
    StepDue(s, e);
    WaitStep(s, e, lay, modes, j);
    if CallsSchedule(s, e) && Step(s, e).sched.current != Some(j) {
      OneNearer(Gap(|modes|, s.sched.current, j), Gap(|modes|, Step(s, e).sched.current, j), delta);
    }
  }

  lemma {:induction false} MeetsDeadline(s: Sys, es: seq<Event>, lay: Layout, modes: seq<Mode>, j: nat, delta: nat)
    returns (k: nat)
    requires Inv(s, lay, modes) && Spares(s, es, TaskTable) && Spares(s, es, TimeKeeping)
    requires Prompt(s, es, delta) && IDLE < j && HasState(s.sched, j, Ready)
    requires Run(s, es).clock.mtime > Deadline(s.clock, Gap(|modes|, s.sched.current, j), delta)
    ensures k <= |es| && Run(s, es[..k]).sched.current == Some(j)
    ensures Run(s, es[..k]).clock.mtime <= Deadline(s.clock, Gap(|modes|, s.sched.current, j), delta)
    decreases |es|
  {
    var e := es[0];
    var s1 := Step(s, e);
    StepKeepsInv(s, e, lay, modes);
    StepMeetsDeadline(s, e, lay, modes, j, delta);
    if s1.sched.current == Some(j) {
      k := 1;
      assert es[..1][0] == e && es[..1][1..] == [];
      return;
    }
    var k' := MeetsDeadline(s1, es[1..], lay, modes, j, delta);
    k := k' + 1;
    assert es[..k][0] == e && es[..k][1..] == es[1..][..k'];
  }

  /**
   A Ready task other than idle runs within `n - 1` periods of the tick interval plus the delay
   of interrupts, in every run long enough, whatever faults and system calls it contains.
   */
  lemma TimedWaiting(s: Sys, es: seq<Event>, lay: Layout, modes: seq<Mode>, j: nat, delta: nat) returns (k: nat)
    requires Inv(s, lay, modes) && Spares(s, es, TaskTable) && Spares(s, es, TimeKeeping)
    requires s.clock.mtimecmp <= s.clock.mtime + TICK && Prompt(s, es, delta)
    requires j != IDLE && HasState(s.sched, j, Ready)
    requires Run(s, es).clock.mtime > s.clock.mtime + (|modes| - 1) * (TICK + delta)
    ensures k <= |es| && Run(s, es[..k]).sched.current == Some(j)
    ensures Run(s, es[..k]).clock.mtime <= s.clock.mtime + (|modes| - 1) * (TICK + delta)
  {
    GapBound(|modes|, s.sched.current, j);
    DeadlineBound(s.clock, |modes|, Gap(|modes|, s.sched.current, j), delta);
    k := MeetsDeadline(s, es, lay, modes, j, delta);
  }

  lemma DeadlineBound(c: Clock, n: nat, g: nat, delta: nat)
    requires g + 2 <= n && c.mtimecmp <= c.mtime + TICK
    ensures Deadline(c, g, delta) <= c.mtime + (n - 1) * (TICK + delta)
  {
    OneNearer(n - 1, g, delta);
    PeriodsIsProduct(n - 1, delta);
  }
}
