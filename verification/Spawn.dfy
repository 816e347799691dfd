/**
 Task creation (crates/kernel/src/sched/task/spec.rs): stack allocation, PMP table and
 registration, and the exact outcome of every sequence of spawns.
 */
module Spawn {
  import opened Bits
  import opened PmpHardware
  import opened Registers
  import opened Pmp
  import opened Policy
  import opened Hart
  import opened Task
  import opened Scheduler
  import opened Allocator
  import Napot

  /** `TaskSpec`. */
  datatype Spec =
    | Machine(entry: u64)
    | User(entry: u64, codeBase: u64, codeSize: u64, mmio: seq<(u64, u64)>)

  const STACK: Request := Request(TASK_STACK_SIZE, TASK_STACK_ALIGN)

  /** What spawning works on: the bump pointer, the heap end and the task table. */
  datatype Boot = Boot(next: u64, end: u64, tasks: seq<Option<Task>>)

  /** The conditions the builder asserts about the caller's regions. */
  predicate SpecOk(spec: Spec) {
    spec.User? ==>
      && Napot.Encodable(spec.codeBase, spec.codeSize)
      && MmioOk(spec.mmio, PMP_COUNT - 6)
  }

  /** The MMIO regions fit into `room` entries and are encodable. */
  predicate MmioOk(mmio: seq<(u64, u64)>, room: int) {
    |mmio| <= room && forall j :: 0 <= j < |mmio| ==> Napot.Encodable(mmio[j].0, mmio[j].1)
  }

  /** The first `n` MMIO regions. */
  function MmioRegions(mmio: seq<(u64, u64)>, n: nat): (r: seq<Region>)
    requires n <= |mmio|
    ensures |r| == n
  {
    seq(n, j requires 0 <= j < n => Region(mmio[j].0, mmio[j].1, RW))
  }

  /** The regions of a user task: code, stack, then MMIO. */
  function UserRegions(spec: Spec, bottom: u64): seq<Region>
    requires spec.User?
  {
    [Region(spec.codeBase, spec.codeSize, RX), Region(bottom, TASK_STACK_SIZE, RW)]
    + MmioRegions(spec.mmio, |spec.mmio|)
  }

  function UserTable(spec: Spec, bottom: u64): seq<Region>
    requires spec.User?
  {
    Table(UserRegions(spec, bottom))
  }

  /** The control block of a task spawned with its stack at `bottom`. */
  function TaskFor(spec: Spec, id: nat, bottom: u64): Task
    requires bottom <= HALF
  {
    match spec
    case Machine(entry) => MachineTask(id, entry, bottom + TASK_STACK_SIZE)
    case User(entry, _, _, _) => UserTask(id, entry, bottom + TASK_STACK_SIZE, UserTable(spec, bottom))
  }

  lemma StackRequest()
    ensures RequestOk(STACK)
  {
  }

  /** Where the next stack goes. */
  function StackAt(next: u64): (r: u64)
    requires next <= HALF
    ensures next <= r < next + TASK_STACK_SIZE && Aligned(r, TASK_STACK_SIZE)
  {
    StackRequest();
    AlignUpBounds(next, TASK_STACK_ALIGN);
    AlignUp(next, TASK_STACK_ALIGN)
  }

  /** From a page boundary and the three bytes of the boot-time check, it is one page or two further on. */
  lemma StackAtInPage(base: u64)
    requires base % 4096 == 0 && base + 3 <= HALF
    ensures StackAt(base + 3) == base + (if base % 8192 == 0 then 8192 else 4096)
  {
    AlignedIsMultiple(StackAt(base + 3), TASK_STACK_SIZE);
    NextMultiple(base, StackAt(base + 3));
  }

  lemma NextMultiple(base: nat, r: nat)
    requires base % 4096 == 0 && r % 8192 == 0 && base + 3 <= r < base + 3 + 8192
    ensures r == base + (if base % 8192 == 0 then 8192 else 4096)
  {
    var c := base / 8192;
    HalfMultiple(base, c, base % 8192);
    MultipleBetween(c, r / 8192, base % 8192);
  }

  lemma HalfMultiple(base: nat, c: nat, d: nat)
    requires base % 4096 == 0 && base == 8192 * c + d && d < 8192
    ensures d == 0 || d == 4096
  {
    DivModUnique(base, 4096, if d < 4096 then 2 * c else 2 * c + 1, if d < 4096 then d else d - 4096);
  }

  lemma MultipleBetween(c: nat, q: nat, d: nat)
    requires (d == 0 || d == 4096) && 8192 * c + d + 3 <= 8192 * q < 8192 * c + d + 3 + 8192
    ensures q == c + 1
  {
  }

  /** An aligned stack, as `StackAt` returns it, never trips the builder's size and alignment assertions. */
  lemma StackIsEncodable(bottom: nat)
    requires Aligned(bottom, TASK_STACK_SIZE)
    ensures Napot.Encodable(bottom, TASK_STACK_SIZE)
  {
    StackRequest();
  }

  /** `spawn`; `None` where the kernel panics. */
  function Spawned(b: Boot, spec: Spec): Option<Boot>
    requires b.next <= b.end <= HALF
  {
    var bottom := StackAt(b.next);
    var slot := FirstFree(b.tasks, 0);
    if bottom + TASK_STACK_SIZE <= b.end && SpecOk(spec) && slot.Some? then
      Some(Boot(bottom + TASK_STACK_SIZE, b.end, b.tasks[slot.value := Some(TaskFor(spec, slot.value, bottom))]))
    else None
  }

  /** `TaskSpec::spawn`, with nobody else allocating: no trap handler does. */
  method SpawnTask(spec: Spec, alloc: BumpAllocator, sched: Scheduler, csrs: Csrs) returns (id: Option<nat>)
    requires alloc.Valid() && sched.Valid()
    modifies alloc, sched, csrs
    ensures alloc.Valid() && sched.Valid() && sched.current == old(sched.current)
    ensures alloc.heapEnd == old(alloc.heapEnd) && alloc.heapStart == old(alloc.heapStart)
    ensures var r := Spawned(old(Boot(alloc.next, alloc.heapEnd, sched.tasks)), spec);
            && (id.Some? <==> r.Some?)
            && (id.Some? ==> id == FirstFree(old(sched.tasks), 0) &&
                             Boot(alloc.next, alloc.heapEnd, sched.tasks) == r.value)
    ensures id.Some? ==> csrs.mstatus == old(csrs.mstatus)
  {
    var stack := AllocTaskStack(alloc);
    if stack.None? {
      return None;
    }
    id := RegisterTask(spec, stack.value, sched, csrs);
  }

  /** `alloc_task_stack`; `None` where the allocation fails. */
  method AllocTaskStack(alloc: BumpAllocator) returns (bottom: Option<u64>)
    requires alloc.Valid()
    modifies alloc`next
    ensures alloc.Valid()
    ensures bottom == if StackAt(old(alloc.next)) + TASK_STACK_SIZE <= alloc.heapEnd
                      then Some(StackAt(old(alloc.next))) else None
    ensures bottom.Some? ==> alloc.next == bottom.value + TASK_STACK_SIZE
  {
    StackRequest();
    bottom := alloc.Alloc(STACK, []);
  }

  /** The mode-dependent half of `spawn`: PMP table and registration. */
  method RegisterTask(spec: Spec, stackBottom: u64, sched: Scheduler, csrs: Csrs) returns (id: Option<nat>)
    requires sched.Valid() && stackBottom <= HALF && Aligned(stackBottom, TASK_STACK_SIZE)
    modifies sched, csrs
    ensures sched.Valid() && sched.current == old(sched.current)
    ensures id == if SpecOk(spec) then FirstFree(old(sched.tasks), 0) else None
    ensures id.Some? ==> sched.tasks == old(sched.tasks)[id.value := Some(TaskFor(spec, id.value, stackBottom))]
    ensures id.Some? ==> csrs.mstatus == old(csrs.mstatus)
  {
    if spec.Machine? {
      id := sched.CreateTaskMMode(spec.entry, stackBottom + TASK_STACK_SIZE, csrs);
    } else {
      id := RegisterUserTask(spec, stackBottom, sched, csrs);
    }
  }

  method RegisterUserTask(spec: Spec, stackBottom: u64, sched: Scheduler, csrs: Csrs) returns (id: Option<nat>)
    requires spec.User?
    requires sched.Valid() && stackBottom <= HALF && Aligned(stackBottom, TASK_STACK_SIZE)
    modifies sched, csrs
    ensures sched.Valid() && sched.current == old(sched.current)
    ensures id == if SpecOk(spec) then FirstFree(old(sched.tasks), 0) else None
    ensures id.Some? ==> sched.tasks == old(sched.tasks)[id.value := Some(TaskFor(spec, id.value, stackBottom))]
    ensures id.Some? ==> csrs.mstatus == old(csrs.mstatus)
  {
    var regions := BuildTable(spec, stackBottom);
    if regions.None? {
      return None;
    }
    id := sched.CreateTask(spec.entry, stackBottom + TASK_STACK_SIZE, regions.value, csrs);
  }

  /** The builder calls of `spawn`; `None` where one of the builder's assertions fails. */
  method BuildTable(spec: Spec, stackBottom: u64) returns (table: Option<seq<Region>>)
    requires spec.User? && Aligned(stackBottom, TASK_STACK_SIZE)
    ensures table == if SpecOk(spec) then Some(UserTable(spec, stackBottom)) else None
  {
    StackIsEncodable(stackBottom);
    var builder := new PmpConfigBuilder();
    var ok := builder.CodeRegion(spec.codeBase, spec.codeSize);
    if !ok {
      return None;
    }
    ok := builder.DataRegion(stackBottom, TASK_STACK_SIZE);
    ghost var first := [Region(spec.codeBase, spec.codeSize, RX), Region(stackBottom, TASK_STACK_SIZE, RW)];
    ok := AddMmio(builder, spec.mmio, first);
    table := if ok then Some(builder.regions) else None;
  }

  /** The MMIO loop of `spawn`. */
  method AddMmio(builder: PmpConfigBuilder, mmio: seq<(u64, u64)>, ghost first: seq<Region>) returns (ok: bool)
    requires builder.Valid() && builder.entries == first
    modifies builder
    ensures builder.Valid()
    ensures ok <==> MmioOk(mmio, PMP_COUNT - 4 - |first|)
    ensures ok ==> builder.entries == first + MmioRegions(mmio, |mmio|)
  {
    for i := 0 to |mmio|
      invariant builder.Valid() && builder.entries == first + MmioRegions(mmio, i)
      invariant forall j :: 0 <= j < i ==> Napot.Encodable(mmio[j].0, mmio[j].1)
    {
      ok := builder.DataRegion(mmio[i].0, mmio[i].1);
      if !ok {
        return;
      }
      assert MmioRegions(mmio, i + 1) == MmioRegions(mmio, i) + [Region(mmio[i].0, mmio[i].1, RW)];
    }
    ok := true;
  }

  // --- Sequences of spawns ---

  function SpawnAll(b: Boot, specs: seq<Spec>): Option<Boot>
    requires b.next <= b.end <= HALF
    ensures SpawnAll(b, specs).Some? ==> SpawnAll(b, specs).value.next <= SpawnAll(b, specs).value.end == b.end
    decreases |specs|
  {
    if specs == [] then Some(b)
    else
      var r := SpawnAll(b, specs[..|specs| - 1]);
      if r.Some? then Spawned(r.value, specs[|specs| - 1]) else None
  }

  /** Bottom of the stack of the `k`-th task. */
  function StackBottom(next: u64, k: nat): nat
    requires next <= HALF
  {
    StackAt(next) + k * TASK_STACK_SIZE
  }

  /** The room a sequence of spawns needs: table slots and consecutive stacks. */
  predicate Room(b: Boot, count: nat)
    requires b.next <= b.end <= HALF
  {
    count <= |b.tasks| && (count > 0 ==> StackBottom(b.next, count) <= b.end)
  }

  /** A fresh table with the first tasks filled in. */
  function Filled(next: u64, n: nat, specs: seq<Spec>): (t: seq<Option<Task>>)
    requires next <= HALF && |specs| <= n && (specs != [] ==> StackBottom(next, |specs|) <= HALF)
    ensures |t| == n
  {
    seq(n, i requires 0 <= i < n =>
      if i < |specs| then Some(TaskFor(specs[i], i, StackBottom(next, i))) else None)
  }

  function EmptyTable(n: nat): (t: seq<Option<Task>>)
    ensures |t| == n
  {
    seq(n, i => None)
  }

  lemma FreeSlot(tasks: seq<Option<Task>>, i: nat, k: nat)
    requires i <= k <= |tasks|
    requires forall j :: 0 <= j < |tasks| ==> (tasks[j].Some? <==> j < k)
    ensures FirstFree(tasks, i) == if k < |tasks| then Some(k) else None
    decreases k - i
  {
    if i < k {
      FreeSlot(tasks, i + 1, k);
    }
  }

  lemma AlignedStays(next: u64)
    requires next <= HALF && Aligned(next, TASK_STACK_SIZE)
    ensures StackAt(next) == next
  {
    StackRequest();
    AlignedIsMultiple(next, TASK_STACK_SIZE);
    AlignUpLeast(next, TASK_STACK_ALIGN, next);
    AlignUpBounds(next, TASK_STACK_ALIGN);
  }

  lemma StackBottomAligned(next: u64, k: nat)
    requires next <= HALF
    ensures Aligned(StackBottom(next, k), TASK_STACK_SIZE)
  {
    StackRequest();
    AlignedIsMultiple(StackAt(next), TASK_STACK_SIZE);
    MultipleSum(StackAt(next), k, TASK_STACK_SIZE);
    AlignedIsMultiple(StackBottom(next, k), TASK_STACK_SIZE);
  }

  lemma NextStack(next: u64, k: nat)
    requires next <= HALF && StackBottom(next, k) <= HALF
    ensures StackAt(StackBottom(next, k)) == StackBottom(next, k)
  {
    StackBottomAligned(next, k);
    AlignedStays(StackBottom(next, k));
  }

  predicate AllOk(specs: seq<Spec>) {
    forall k :: 0 <= k < |specs| ==> SpecOk(specs[k])
  }

  /**
   The outcome in closed form: success exactly when every specification is valid and there is
   room; then task `k` sits in slot `k`, with its stack directly above the previous one.
   */
  function Planned(b: Boot, specs: seq<Spec>): Option<Boot>
    requires b.next <= b.end <= HALF
  {
    if Room(b, |specs|) && AllOk(specs) then
      var next := if specs == [] then b.next else StackBottom(b.next, |specs|);
      Some(Boot(next, b.end, Filled(b.next, |b.tasks|, specs)))
    else None
  }

  lemma PlannedStep(b: Boot, front: seq<Spec>, spec: Spec)
    requires b.next <= b.end <= HALF
    ensures Planned(b, front + [spec]) ==
            if Planned(b, front).Some? then Spawned(Planned(b, front).value, spec) else None
  {
    assert AllOk(front + [spec]) <==> AllOk(front) && SpecOk(spec) by {
      AllOkSplit(front, spec);
    }
    if Room(b, |front|) && AllOk(front) {
      SpawnNext(b, front, spec);
    }
  }

  lemma AllOkSplit(front: seq<Spec>, spec: Spec)
    ensures AllOk(front + [spec]) <==> AllOk(front) && SpecOk(spec)
  {
    if AllOk(front + [spec]) {
      assert (front + [spec])[|front|] == spec;
      assert forall k :: 0 <= k < |front| ==> (front + [spec])[k] == front[k];
    }
  }

  /** Spawning one task after the other into an empty table gives the planned outcome. */
  lemma {:induction false} SpawnAllOutcome(b: Boot, specs: seq<Spec>)
    requires b.next <= b.end <= HALF && b.tasks == EmptyTable(|b.tasks|)
    ensures SpawnAll(b, specs) == Planned(b, specs)
    decreases |specs|
  {
    if specs == [] {
      assert b.tasks == Filled(b.next, |b.tasks|, specs);
    } else {
      var k := |specs| - 1;
      SpawnAllOutcome(b, specs[..k]);
      PlannedStep(b, specs[..k], specs[k]);
      assert specs[..k] + [specs[k]] == specs;
    }
  }

  lemma SpawnNext(b: Boot, front: seq<Spec>, spec: Spec)
    requires b.next <= b.end <= HALF && Room(b, |front|)
    requires forall k :: 0 <= k < |front| ==> SpecOk(front[k])
    ensures var n0 := if front == [] then b.next else StackBottom(b.next, |front|);
            var r := Spawned(Boot(n0, b.end, Filled(b.next, |b.tasks|, front)), spec);
            && (r.Some? <==> Room(b, |front| + 1) && SpecOk(spec))
            && (r.Some? ==> r.value == Boot(StackBottom(b.next, |front| + 1), b.end,
                                            Filled(b.next, |b.tasks|, front + [spec])))
  {
    var k := |front|;
    var n0 := if front == [] then b.next else StackBottom(b.next, k);
    if front != [] {
      NextStack(b.next, k);
    }
    assert StackAt(n0) == StackBottom(b.next, k);
    var tasks := Filled(b.next, |b.tasks|, front);
    FreeSlot(tasks, 0, k);
    if Room(b, k + 1) {
      assert tasks[k := Some(TaskFor(spec, k, StackBottom(b.next, k)))] == Filled(b.next, |b.tasks|, front + [spec]);
    }
  }

  /** A freshly spawned task, field by field: `Machine` tasks get a stack but no regions. */
  predicate FreshTask(t: Task, spec: Spec, id: nat, bottom: nat) {
    && t.id == id && t.state == Created
    && t.entryPoint == spec.entry && t.context.mepc == spec.entry
    && t.stackBottom == bottom && t.stackTop == bottom + 8192 && OnlySp(t.context.gprs, t.stackTop)
    && t.context.mstatus == Mstatus(false, true, if spec.User? then U else M, 0)
    && |t.pmpConfig| == 16
    && (forall i :: 0 <= i < 16 && (i < 4 || spec.Machine?) ==> t.pmpConfig[i] == Region(0, 0, 0))
    && (spec.User? ==>
          && t.pmpConfig[4] == Region(spec.codeBase, spec.codeSize, 5)
          && t.pmpConfig[5] == Region(bottom, 8192, 3)
          && forall i :: 6 <= i < 16 ==>
               t.pmpConfig[i] == if i - 6 < |spec.mmio| then Region(spec.mmio[i - 6].0, spec.mmio[i - 6].1, 3)
                                 else Region(0, 0, 0))
  }

  lemma TaskForIsFresh(spec: Spec, id: nat, bottom: u64)
    requires bottom <= HALF && (spec.User? ==> |spec.mmio| <= PMP_COUNT - 6)
    ensures FreshTask(TaskFor(spec, id, bottom), spec, id, bottom)
  {
    assert RX == 5 && RW == 3;
    CreatedTasks(id, spec.entry, bottom + TASK_STACK_SIZE, if spec.User? then UserTable(spec, bottom) else []);
  }

  /** Task `k` of a sequence of spawns, in slot `k` with the `k`-th stack; the other slots stay free. */
  lemma FilledSlot(next: u64, n: nat, specs: seq<Spec>, k: nat)
    requires next <= HALF && |specs| <= n && (specs != [] ==> StackBottom(next, |specs|) <= HALF)
    requires AllOk(specs) && k < n
    ensures var slot := Filled(next, n, specs)[k];
            if k < |specs| then slot.Some? && FreshTask(slot.value, specs[k], k, StackBottom(next, k)) else slot.None?
  {
    if k < |specs| {
      TaskForIsFresh(specs[k], k, StackBottom(next, k));
    }
  }

  /** The stacks in the control blocks of different tasks are disjoint, and each is inside the heap. */
  lemma StacksDisjoint(b: Boot, specs: seq<Spec>, i: nat, j: nat)
    requires b.next <= b.end <= HALF && Room(b, |specs|) && AllOk(specs) && i < j < |specs|
    ensures Filled(b.next, |b.tasks|, specs)[i].Some? && Filled(b.next, |b.tasks|, specs)[j].Some?
    ensures var t := Filled(b.next, |b.tasks|, specs)[i].value;
            var u := Filled(b.next, |b.tasks|, specs)[j].value;
            && b.next <= t.stackBottom && t.stackTop <= u.stackBottom && u.stackTop <= b.end
            && t.stackTop - t.stackBottom == u.stackTop - u.stackBottom == 8192
            && t.context.gprs.sp == t.stackTop && u.context.gprs.sp == u.stackTop
  {
    FilledSlot(b.next, |b.tasks|, specs, i);
    FilledSlot(b.next, |b.tasks|, specs, j);
  }
}
