/**
 The round-robin scheduler (crates/kernel/src/sched/scheduler.rs): its state as a value, what
 each entry point does to that value and to the trapped context, and the imperative code
 proved against it. The table size is arbitrary; the kernel's is `Task.MAX_TASKS`.
 */
module Scheduler {
  import opened Bits
  import opened PmpHardware
  import opened Registers
  import opened Hart
  import opened Pmp
  import opened Policy
  import opened Task

  datatype SchedState = SchedState(current: Option<nat>, tasks: seq<Option<Task>>)

  predicate InTable(s: SchedState) {
    s.current.Some? ==> s.current.value < |s.tasks|
  }

  /** The trapped context as the handlers see it: frame, CSRs and PMP registers. */
  datatype Cpu = Cpu(frame: Gprs, mepc: u64, mstatus: Mstatus, pmp: Regs)

  function Context(c: Cpu): TaskContext {
    TaskContext(c.frame, c.mepc, c.mstatus)
  }

  function ReadySet(tasks: seq<Option<Task>>): set<nat> {
    set i: nat | i < |tasks| && tasks[i].Some? && tasks[i].value.state == Ready
  }

  /** `init`: Created tasks become Ready. */
  function Prepared(tasks: seq<Option<Task>>): (r: seq<Option<Task>>)
    ensures |r| == |tasks|
  {
    seq(|tasks|, i requires 0 <= i < |tasks| =>
      if tasks[i].Some? && tasks[i].value.state == Created
      then Some(tasks[i].value.(state := Ready)) else tasks[i])
  }

  /** Step 1 of `schedule`: the running task's registers go into its control block. */
  function SaveCurrent(s: SchedState, context: TaskContext): (r: SchedState)
    requires InTable(s)
    ensures InTable(r) && r.current == s.current && |r.tasks| == |s.tasks|
  {
    if s.current.Some? && s.tasks[s.current.value].Some? then
      var i := s.current.value;
      var t := s.tasks[i].value;
      var state := if t.state == Running then Ready else t.state;
      s.(tasks := s.tasks[i := Some(t.(state := state, context := context))])
    else s
  }

  /** Step 2: the slot to run next. */
  function NextSlot(s: SchedState): (r: Option<nat>)
    ensures r.Some? ==> r.value < |s.tasks| && s.tasks[r.value].Some? && s.tasks[r.value].value.state == Ready
  {
    if |s.tasks| == 0 then None
    else
      SelectMeaning(|s.tasks|, s.current, ReadySet(s.tasks));
      Select(|s.tasks|, s.current, ReadySet(s.tasks))
  }

  /** Step 3: that slot becomes the running one. */
  function Dispatch(s: SchedState, i: nat): SchedState
    requires i < |s.tasks| && s.tasks[i].Some?
  {
    SchedState(Some(i), s.tasks[i := Some(s.tasks[i].value.(state := Running))])
  }

  /** Steps 4-6: PMP entries, frame and CSRs of the chosen task. */
  function SwitchTo(c: Cpu, t: Task): Cpu
    requires WellFormed(c.pmp)
  {
    Cpu(t.context.gprs, t.context.mepc, t.context.mstatus, Installed(c.pmp, t.pmpConfig))
  }

  /** `schedule`, on the scheduler's state. */
  function ScheduleState(s: SchedState, c: Cpu): (r: SchedState)
    requires InTable(s)
    ensures InTable(r) && |r.tasks| == |s.tasks|
  {
    var saved := SaveCurrent(s, Context(c));
    var next := NextSlot(saved);
    if next.Some? then Dispatch(saved, next.value) else saved
  }

  /** `schedule`, on the trapped context. */
  function ScheduleCpu(s: SchedState, c: Cpu): Cpu
    requires InTable(s) && WellFormed(c.pmp)
  {
    var saved := SaveCurrent(s, Context(c));
    var next := NextSlot(saved);
    if next.Some? then SwitchTo(c, saved.tasks[next.value].value) else c
  }

  /** First half of `kill_current`: the running task is marked Dead. */
  function MarkDead(s: SchedState): (r: SchedState)
    requires InTable(s)
    ensures InTable(r) && r.current == s.current && |r.tasks| == |s.tasks|
  {
    if s.current.Some? && s.tasks[s.current.value].Some? then
      s.(tasks := s.tasks[s.current.value := Some(s.tasks[s.current.value].value.(state := Dead))])
    else s
  }

  /** The lowest free slot from `i` on. */
  function FirstFree(tasks: seq<Option<Task>>, i: nat): (r: Option<nat>)
    requires i <= |tasks|
    ensures r.Some? ==> i <= r.value < |tasks| && tasks[r.value].None? &&
                        forall j :: i <= j < r.value ==> tasks[j].Some?
    ensures r.None? ==> forall j :: i <= j < |tasks| ==> tasks[j].Some?
    decreases |tasks| - i
  {
    if i == |tasks| then None else if tasks[i].None? then Some(i) else FirstFree(tasks, i + 1)
  }

  /** Copying a region slice over an empty configuration, at most 16 entries of it. */
  function Padded(regions: seq<Region>): (t: seq<Region>)
    ensures |t| == PMP_COUNT
    ensures |regions| == PMP_COUNT ==> t == regions
  {
    seq(PMP_COUNT, i requires 0 <= i < PMP_COUNT => RegionAt(regions, i))
  }

  function UserTask(id: nat, entry: u64, stackTop: u64, regions: seq<Region>): Task {
    NewTask(id, entry, stackTop).(pmpConfig := Padded(regions))
  }

  function MachineTask(id: nat, entry: u64, stackTop: u64): Task {
    NewTask(id, entry, stackTop).(context := NewContext(entry, stackTop, M))
  }

  /** The control blocks the two creation calls make, field by field. */
  lemma CreatedTasks(id: nat, entry: u64, stackTop: u64, regions: seq<Region>)
    ensures var u := UserTask(id, entry, stackTop, regions);
            var m := MachineTask(id, entry, stackTop);
            && u.id == m.id == id && u.state == m.state == Created
            && u.entryPoint == m.entryPoint == u.context.mepc == m.context.mepc == entry
            && u.stackTop == m.stackTop == stackTop
            && OnlySp(u.context.gprs, stackTop) && OnlySp(m.context.gprs, stackTop)
            && u.stackBottom == m.stackBottom == (stackTop - 8192) % TWO_64
            && u.context.mstatus == Mstatus(false, true, U, 0) && m.context.mstatus == Mstatus(false, true, M, 0)
            && |u.pmpConfig| == |m.pmpConfig| == 16
            && (forall i :: 0 <= i < 16 ==> m.pmpConfig[i] == Region(0, 0, 0))
            && forall i :: 0 <= i < 16 ==> u.pmpConfig[i] == if i < |regions| then regions[i] else Region(0, 0, 0)
  {
    assert OnlySp(ZERO_GPRS.(sp := stackTop), stackTop) by {
      ZeroSlots(stackTop);
    }
  }

  lemma ZeroSlots(sp: u64)
    ensures OnlySp(ZERO_GPRS.(sp := sp), sp)
  {
  }

  // --- The code ---

  class Scheduler {
    var current: Option<nat>
    var tasks: seq<Option<Task>>

    ghost predicate Valid()
      reads this
    {
      InTable(State())
    }

    function State(): SchedState
      reads this
    {
      SchedState(current, tasks)
    }

    constructor (n: nat)
      ensures Valid() && State() == SchedState(None, seq(n, i => None))
    {
      current := None;
      tasks := seq(n, i => None);
    }

    /** `init`. */
    method Init(csrs: Csrs)
      requires Valid()
      modifies this, csrs
      ensures Valid() && csrs.mstatus == old(csrs.mstatus) && csrs.mepc == old(csrs.mepc)
      ensures State() == old(State()).(tasks := Prepared(old(tasks)))
      ensures forall i :: 0 <= i < |tasks| ==>
        tasks[i] == if old(tasks)[i].Some? && old(tasks)[i].value.state == Created
                    then Some(old(tasks)[i].value.(state := Ready)) else old(tasks)[i]
    {
      var saved := csrs.Lock();
      PrepareCreated(csrs);
      csrs.Unlock(saved);
    }

    // The sections of `with_lock` that change the table: each needs interrupts off.

    /** The section of `init`. */
    method PrepareCreated(csrs: Csrs)
      requires Valid() && !csrs.mstatus.mie
      modifies this
      ensures Valid() && State() == old(State()).(tasks := Prepared(old(tasks)))
    {
      for i := 0 to |tasks|
        invariant |tasks| == |old(tasks)| && current == old(current)
        invariant forall j :: 0 <= j < |tasks| ==>
          tasks[j] == if j < i then Prepared(old(tasks))[j] else old(tasks)[j]
      {
        if tasks[i].Some? && tasks[i].value.state == Created {
          tasks := tasks[i := Some(tasks[i].value.(state := Ready))];
        }
      }
      assert tasks == Prepared(old(tasks));
    }

    /** The section of `kill_current`. */
    method MarkCurrentDead(csrs: Csrs)
      requires Valid() && !csrs.mstatus.mie
      modifies this
      ensures Valid() && State() == MarkDead(old(State()))
    {
      if current.Some? && tasks[current.value].Some? {
        tasks := tasks[current.value := Some(tasks[current.value].value.(state := Dead))];
      }
    }

    /** The end of the sections of the two creation calls. */
    method Place(idx: nat, task: Task, csrs: Csrs)
      requires Valid() && !csrs.mstatus.mie && idx < |tasks|
      modifies this
      ensures Valid() && State() == old(State()).(tasks := old(tasks)[idx := Some(task)])
    {
      tasks := tasks[idx := Some(task)];
    }

    /** `schedule`. */
    method Schedule(frame: TrapFrame, csrs: Csrs, pmp: PmpUnit)
      requires Valid() && WellFormed(pmp.regs)
      modifies this, frame, csrs, pmp
      ensures Valid() && WellFormed(pmp.regs)
      ensures State() == ScheduleState(old(State()), old(Cpu(frame.gprs, csrs.mepc, csrs.mstatus, pmp.regs)))
      ensures Cpu(frame.gprs, csrs.mepc, csrs.mstatus, pmp.regs) ==
              ScheduleCpu(old(State()), old(Cpu(frame.gprs, csrs.mepc, csrs.mstatus, pmp.regs)))
    {
      var mepc := csrs.mepc;
      var mstatus := csrs.mstatus;

      var saved := csrs.Lock();
      SaveContext(frame.gprs, mepc, mstatus, csrs);
      var target := TakeNext(csrs);
      csrs.Unlock(saved);

      if target.Some? {
        // Steps 4-6: install its PMP entries, registers and CSRs.
        pmp.LoadTaskConfig(target.value.pmpConfig);
        frame.gprs := CopyGprFields(target.value.context.gprs, frame.gprs);
        csrs.mepc := target.value.context.mepc;
        csrs.mstatus := target.value.context.mstatus;
      }
    }

    /** Step 1 of `schedule`: save the current task's context; a Dead task stays Dead. */
    method SaveContext(frame: Gprs, mepc: u64, mstatus: Mstatus, csrs: Csrs)
      requires Valid() && !csrs.mstatus.mie
      modifies this
      ensures Valid() && State() == SaveCurrent(old(State()), TaskContext(frame, mepc, mstatus))
    {
      if current.Some? && tasks[current.value].Some? {
        var task := tasks[current.value].value;
        var gprs := CopyGprFields(frame, task.context.gprs);
        task := task.(context := task.context.(gprs := gprs));
        task := task.(context := task.context.(mepc := mepc));
        task := task.(context := task.context.(mstatus := mstatus));
        if task.state == Running {
          task := task.(state := Ready);
        }
        tasks := tasks[current.value := Some(task)];
      }
    }

    /** Steps 2-3 of `schedule`: find the next ready task and mark it running. */
    method TakeNext(csrs: Csrs) returns (target: Option<Task>)
      requires Valid() && !csrs.mstatus.mie
      modifies this
      ensures Valid()
      ensures var next := NextSlot(old(State()));
              && State() == (if next.Some? then Dispatch(old(State()), next.value) else old(State()))
              && target == (if next.Some? then old(tasks)[next.value] else None)
    {
      var ready := set i: nat | i < |tasks| && tasks[i].Some? && tasks[i].value.state == Ready;
      var next := SelectNextReady(|tasks|, current, ready);
      assert next == NextSlot(State());
      target := None;
      if next.Some? {
        target := tasks[next.value];
        tasks := tasks[next.value := Some(tasks[next.value].value.(state := Running))];
        current := next;
      }
    }

    /** `kill_current`. */
    method KillCurrent(frame: TrapFrame, csrs: Csrs, pmp: PmpUnit)
      requires Valid() && WellFormed(pmp.regs)
      modifies this, frame, csrs, pmp
      ensures Valid() && WellFormed(pmp.regs)
      ensures State() == ScheduleState(MarkDead(old(State())), old(Cpu(frame.gprs, csrs.mepc, csrs.mstatus, pmp.regs)))
      ensures Cpu(frame.gprs, csrs.mepc, csrs.mstatus, pmp.regs) ==
              ScheduleCpu(MarkDead(old(State())), old(Cpu(frame.gprs, csrs.mepc, csrs.mstatus, pmp.regs)))
    {
      var saved := csrs.Lock();
      MarkCurrentDead(csrs);
      csrs.Unlock(saved);
      Schedule(frame, csrs, pmp);
    }

    /** `create_task`: takes the lowest free slot; `None` is the "task table full" panic. */
    method CreateTask(entry: u64, stackTop: u64, regions: seq<Region>, csrs: Csrs) returns (id: Option<nat>)
      requires Valid()
      modifies this, csrs
      ensures Valid() && csrs.mepc == old(csrs.mepc) && current == old(current)
      ensures id == FirstFree(old(tasks), 0)
      ensures tasks == if id.Some? then old(tasks)[id.value := Some(UserTask(id.value, entry, stackTop, regions))]
                       else old(tasks)
      ensures id.Some? ==> csrs.mstatus == old(csrs.mstatus)
    {
      var saved := csrs.Lock();
      for idx := 0 to |tasks|
        invariant State() == old(State()) && csrs.mepc == old(csrs.mepc) && csrs.mstatus == saved.(mie := false)
        invariant FirstFree(tasks, 0) == FirstFree(tasks, idx)
      {
        if tasks[idx].None? {
          var task := NewTask(idx, entry, stackTop);
          var config := task.pmpConfig;
          for i := 0 to if |regions| < PMP_COUNT then |regions| else PMP_COUNT
            invariant |config| == PMP_COUNT
            invariant forall k :: 0 <= k < PMP_COUNT ==> config[k] == if k < i then regions[k] else EMPTY
          {
            config := config[i := regions[i]];
          }
          assert config == Padded(regions);
          Place(idx, task.(pmpConfig := config), csrs);
          csrs.Unlock(saved);
          return Some(idx);
        }
      }
      return None;
    }

    /** `create_task_mmode`. */
    method CreateTaskMMode(entry: u64, stackTop: u64, csrs: Csrs) returns (id: Option<nat>)
      requires Valid()
      modifies this, csrs
      ensures Valid() && csrs.mepc == old(csrs.mepc) && current == old(current)
      ensures id == FirstFree(old(tasks), 0)
      ensures tasks == if id.Some? then old(tasks)[id.value := Some(MachineTask(id.value, entry, stackTop))]
                       else old(tasks)
      ensures id.Some? ==> csrs.mstatus == old(csrs.mstatus)
    {
      var saved := csrs.Lock();
      for idx := 0 to |tasks|
        invariant State() == old(State()) && csrs.mepc == old(csrs.mepc) && csrs.mstatus == saved.(mie := false)
        invariant FirstFree(tasks, 0) == FirstFree(tasks, idx)
      {
        if tasks[idx].None? {
          var task := NewTask(idx, entry, stackTop);
          Place(idx, task.(context := NewContext(entry, stackTop, M)), csrs);
          csrs.Unlock(saved);
          return Some(idx);
        }
      }
      return None;
    }
  }
}
