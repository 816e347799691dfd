/**
 The boot sequence (`kmain` in crates/kernel/src/main.rs): it establishes the system invariant,
 for any sequence of spawned tasks that starts with the idle task, and the whole path from a
 task's stack allocation to the hardware's reading of its PMP entry.
 */
module BootSequence {
  import opened Bits
  import opened PmpHardware
  import opened Hart
  import opened Pmp
  import opened PmpSafety
  import opened Policy
  import opened Task
  import opened Scheduler
  import opened Timer
  import opened System
  import opened Safety
  import opened Allocator
  import opened Spawn
  import Napot

  /** The mode each slot's task is created with. */
  function ModesOf(specs: seq<Spec>, n: nat): (m: seq<Mode>)
    ensures |m| == n
  {
    seq(n, i requires 0 <= i < n => if i < |specs| && specs[i].User? then U else M)
  }

  /** What boot leaves in the PMP registers, the task table and the status register. */
  predicate BootImage(pmp: Regs, sched: SchedState, mstatus: Mstatus, lay: Layout, next: u64, specs: seq<Spec>) {
    && PmpHardware.WellFormed(pmp) && KernelImage(pmp, lay) && TaskImage(pmp, [])
    && 0 < |specs| <= |sched.tasks| && specs[IDLE].Machine?
    && next <= HALF && StackBottom(next, |specs|) <= HALF
    && sched == SchedState(None, Prepared(Filled(next, |sched.tasks|, specs)))
    && mstatus.mie
  }

  /** What the system looks like when interrupts are first enabled. */
  predicate Booted(s: Sys, lay: Layout, next: u64, specs: seq<Spec>) {
    BootImage(s.pmp, s.sched, s.mstatus, lay, next, specs) && s.mode == M && !s.halted && s.intact
  }

  lemma SpawnedTaskOk(spec: Spec, id: nat, bottom: u64)
    requires bottom <= HALF
    ensures TaskOk(Some(TaskFor(spec, id, bottom).(state := Ready)), if spec.User? then U else M)
    ensures TaskFor(spec, id, bottom).state == Created
  {
    assert RX & L == 0 && RW & L == 0;
    TableNoLock([]);
    if spec.User? {
      TableNoLock(UserRegions(spec, bottom));
    }
  }

  /** Boot establishes the invariant. */
  lemma BootEstablishesInv(s: Sys, lay: Layout, next: u64, specs: seq<Spec>)
    requires Booted(s, lay, next, specs)
    ensures Inv(s, lay, ModesOf(specs, |s.sched.tasks|))
  {
    var n := |s.sched.tasks|;
    var modes := ModesOf(specs, n);
    forall i | 0 <= i < n
      ensures TaskOk(s.sched.tasks[i], modes[i]) && !HasState(s.sched, i, Running)
      ensures i < |specs| ==> HasState(s.sched, i, Ready)
    {
      if i < |specs| {
        SpawnedTaskOk(specs[i], i, StackBottom(next, i));
      }
    }
    forall i | 4 <= i < PMP_COUNT
      ensures !Locked(s.pmp.cfg[i])
    {
      EncCfgBits(EMPTY);
      assert EMPTY.flags & L == 0;
    }
  }

  /** Slot by slot: every spawned task is Ready and otherwise as it was created; the other slots are free. */
  lemma BootSlots(s: Sys, lay: Layout, next: u64, specs: seq<Spec>, c: nat)
    requires Booted(s, lay, next, specs) && AllOk(specs) && c < |s.sched.tasks|
    ensures c < |specs| ==> HasState(s.sched, c, Ready)
    ensures c < |specs| ==> FreshTask(s.sched.tasks[c].value.(state := Created), specs[c], c, StackBottom(next, c))
    ensures c >= |specs| ==> s.sched.tasks[c].None?
  {
    FilledSlot(next, |s.sched.tasks|, specs, c);
  }

  // --- From allocation to hardware ---

  /** What a run never changes about a slot: all but state and context is as it was created. */
  lemma SlotAfterRun(s: Sys, es: seq<Event>, lay: Layout, next: u64, specs: seq<Spec>, c: nat)
    requires Booted(s, lay, next, specs) && Spares(s, es, TaskTable) && c < |specs|
    ensures var r := Run(s, es);
            && c < |r.sched.tasks| && r.sched.tasks[c].Some?
            && var t := r.sched.tasks[c].value;
               t == TaskFor(specs[c], c, StackBottom(next, c)).(state := t.state, context := t.context)
  {
    BootEstablishesInv(s, lay, next, specs);
    SpawnedTaskOk(specs[c], c, StackBottom(next, c));
    RunTask(s, es, lay, ModesOf(specs, |s.sched.tasks|), c);
  }

  /** Entry `i` has this configuration byte, and the hardware reads its address as this region. */
  predicate Denotes(p: Regs, i: nat, base: nat, size: nat, byte: bv8)
    requires PmpHardware.WellFormed(p) && i < PMP_COUNT
  {
    p.cfg[i] == byte && Napot.Base(p.addr[i]) == base && Napot.Size(p.addr[i]) == size
  }

  lemma EntryDenotes(p: Regs, regions: seq<Region>, i: nat)
    requires PmpHardware.WellFormed(p) && TaskImage(p, regions) && 4 <= i < PMP_COUNT
    requires RegionAt(regions, i).size != 0 && RegionOk(RegionAt(regions, i))
    ensures var r := RegionAt(regions, i);
            && (r.flags == 5 ==> Denotes(p, i, r.base, r.size, 0x1D))
            && (r.flags == 3 ==> Denotes(p, i, r.base, r.size, 0x1B))
  {
    var r := RegionAt(regions, i);
    EncodedInRange(r);
    Napot.RoundTrip(r.base, r.size);
  }

  /** The region the table of a user task holds at index `i`, in numbers. */
  function ExpectedRegion(spec: Spec, bottom: u64, i: nat): Region
    requires spec.User?
  {
    if i == 4 then Region(spec.codeBase, spec.codeSize, 5)
    else if i == 5 then Region(bottom, 8192, 3)
    else if 6 <= i < 6 + |spec.mmio| then Region(spec.mmio[i - 6].0, spec.mmio[i - 6].1, 3)
    else Region(0, 0, 0)
  }

  lemma ExpectedRegionOk(spec: Spec, next: u64, c: nat, i: nat)
    requires spec.User? && SpecOk(spec) && next <= HALF && StackBottom(next, c) + TASK_STACK_SIZE <= PHYS_LIMIT
    requires var r := ExpectedRegion(spec, StackBottom(next, c), i); r.base + r.size <= PHYS_LIMIT
    ensures RegionOk(ExpectedRegion(spec, StackBottom(next, c), i))
  {
    StackBottomAligned(next, c);
    StackIsEncodable(StackBottom(next, c));
    assert 5 & L == 0 && 3 & L == 0 && 0 & L == 0;
  }

  lemma LoadedRegion(s: Sys, es: seq<Event>, lay: Layout, next: u64, specs: seq<Spec>, c: nat, i: nat)
    requires Booted(s, lay, next, specs) && Spares(s, es, TaskTable)
    requires c < |specs| && specs[c].User? && SpecOk(specs[c]) && 4 <= i < PMP_COUNT
    requires Run(s, es).sched.current == Some(c)
    ensures Run(s, es).mode == U && TaskImage(Run(s, es).pmp, LoadedTable(Run(s, es).sched))
    ensures RegionAt(LoadedTable(Run(s, es).sched), i) == ExpectedRegion(specs[c], StackBottom(next, c), i)
  {
    BootEstablishesInv(s, lay, next, specs);
    RunKeepsInv(s, es, lay, ModesOf(specs, |s.sched.tasks|));
    SlotAfterRun(s, es, lay, next, specs, c);
    TaskForIsFresh(specs[c], c, StackBottom(next, c));
  }

  /**
   End to end: in every state of every run after boot in which a user task runs, it runs in user
   mode, and each hardware entry from 4 on denotes exactly the task's region, with its rights:
   its code to read and execute, the stack the allocator gave it and its devices to read and
   write, and nothing else.
   */
  lemma EntriesInHardware(s: Sys, es: seq<Event>, lay: Layout, next: u64, specs: seq<Spec>, c: nat, i: nat)
    requires Booted(s, lay, next, specs) && Spares(s, es, TaskTable)
    requires c < |specs| && specs[c].User? && SpecOk(specs[c]) && 4 <= i < PMP_COUNT
    requires StackBottom(next, |specs|) <= PHYS_LIMIT && Run(s, es).sched.current == Some(c)
    requires var r := ExpectedRegion(specs[c], StackBottom(next, c), i); r.base + r.size <= PHYS_LIMIT
    ensures var r := Run(s, es);
            && r.mode == U
            && (i == 4 ==> Denotes(r.pmp, 4, specs[c].codeBase, specs[c].codeSize, 0x1D))
            && (i == 5 ==> Denotes(r.pmp, 5, StackBottom(next, c), 8192, 0x1B))
            && (6 <= i < 6 + |specs[c].mmio| ==>
                  Denotes(r.pmp, i, specs[c].mmio[i - 6].0, specs[c].mmio[i - 6].1, 0x1B))
            && (i >= 6 + |specs[c].mmio| ==> r.pmp.cfg[i] == 0)
  {
    LoadedRegion(s, es, lay, next, specs, c, i);
    ExpectedRegionOk(specs[c], next, c, i);
    var table := LoadedTable(Run(s, es).sched);
    if RegionAt(table, i).size != 0 {
      EntryDenotes(Run(s, es).pmp, table, i);
    }
  }

  // --- The kernel's own boot ---

  const RAM_BASE: u64 := 0x8000_0000
  const BOOT_STACK_SIZE: u64 := 0x1_0000
  const HEAP_SIZE: u64 := 0x100_0000
  const PAGE: u64 := 0x1000

  /** The linker symbols that matter to `kmain`. */
  datatype Linker = Linker(lay: Layout, userTextStart: u64, sstack: u64, estack: u64, sheap: u64)

  /** The linker script: text with the user pages last, data, a 64 KB boot stack and a 16 MB heap. */
  predicate LinkerOk(l: Linker) {
    && LayoutOk(l.lay)
    && RAM_BASE <= l.lay.stext <= l.userTextStart && l.userTextStart + PAGE <= l.lay.userTextEnd <= l.sstack
    && l.sstack + BOOT_STACK_SIZE == l.estack <= l.sheap
    && l.sheap + HEAP_SIZE == l.lay.eheap
    && l.userTextStart % PAGE == 0
  }

  /** The tasks `kmain` spawns: idle, echo with the UART page, and the faulting demonstration task. */
  function KernelSpecs(l: Linker, idle: u64, echo: u64, violation: u64): seq<Spec> {
    [Machine(idle),
     User(echo, l.userTextStart, PAGE, [(UART_BASE, PAGE)]),
     User(violation, l.userTextStart, PAGE, [])]
  }

  /** The boot-time heap check leaves the bump pointer three bytes into the heap. */
  lemma HeapCheck(sheap: u64)
    requires sheap <= HALF
    ensures RequestOk(Request(3, 1)) && AlignUp(sheap, 1) == sheap && EndOf(sheap, Request(3, 1)) == sheap + 3
  {
    AlignUpBounds(sheap, 1);
  }

  /** Task by task, in numbers: entry point, mode and regions. */
  lemma KernelTasks(l: Linker, idle: u64, echo: u64, violation: u64, k: nat, bottom: u64)
    requires k < 3 && bottom <= HALF
    ensures var t := TaskFor(KernelSpecs(l, idle, echo, violation)[k], k, bottom);
            && |t.pmpConfig| == 16
            && t.context.mepc == (if k == 0 then idle else if k == 1 then echo else violation)
            && t.context.mstatus.mpp == (if k == 0 then M else U)
            && t.pmpConfig[4] == (if k == 0 then Region(0, 0, 0) else Region(l.userTextStart, 0x1000, 5))
            && t.pmpConfig[5] == (if k == 0 then Region(0, 0, 0) else Region(bottom, 8192, 3))
            && t.pmpConfig[6] == (if k == 1 then Region(0x1000_0000, 0x1000, 3) else Region(0, 0, 0))
            && forall i :: 0 <= i < 4 || 7 <= i < 16 ==> t.pmpConfig[i] == Region(0, 0, 0)
  {
    TaskForIsFresh(KernelSpecs(l, idle, echo, violation)[k], k, bottom);
  }

  lemma KernelSpecsOk(l: Linker, idle: u64, echo: u64, violation: u64)
    requires LinkerOk(l)
    ensures AllOk(KernelSpecs(l, idle, echo, violation))
  {
    UartEncoding();
    assert UART_SIZE == PAGE;
    AlignedIsMultiple(l.userTextStart, UART_SIZE);
  }

  /** `init_heap`: the heap bounds, and a three-byte allocation to check the allocator. */
  method InitHeap(l: Linker, alloc: BumpAllocator)
    requires LinkerOk(l)
    modifies alloc
    ensures alloc.Valid() && alloc.heapStart == l.sheap && alloc.heapEnd == l.lay.eheap && alloc.next == l.sheap + 3
  {
    alloc.Init(l.sheap, l.lay.eheap);
    HeapCheck(l.sheap);
    var check := alloc.Alloc(Request(3, 1), []);
  }

  /**
   `kmain` up to the point where it waits for the first timer interrupt. It is entered with
   interrupts off, and they stay off until its last statement.
   */
  method KMain(l: Linker, idle: u64, echo: u64, violation: u64,
               alloc: BumpAllocator, pmp: PmpUnit, clint: Clint, sched: Scheduler, csrs: Csrs)
    requires LinkerOk(l)
    requires PmpHardware.WellFormed(pmp.regs) && Unlocked(pmp.regs)
    requires sched.State() == SchedState(None, EmptyTable(MAX_TASKS)) && clint.ticks == 0
    requires !csrs.mstatus.mie
    modifies alloc, pmp, clint, sched, csrs
    ensures csrs.mstatus == old(csrs.mstatus).(mie := true)
    ensures clint.mtime == old(clint.mtime) && ClockInv(clint.Value(), clint.mtime)
    ensures BootImage(pmp.regs, sched.State(), csrs.mstatus, l.lay, l.sheap + 3,
                      KernelSpecs(l, idle, echo, violation))
    ensures |sched.tasks| == 4 && clint.mtimecmp == clint.mtime + 100_000 && clint.ticks == 0
  {
    KernelSpecsFit(l, idle, echo, violation);
    BootWith(l, KernelSpecs(l, idle, echo, violation), alloc, pmp, clint, sched, csrs);
  }

  /** The statements of `kmain`, for any three tasks. */
  method BootWith(l: Linker, specs: seq<Spec>,
                  alloc: BumpAllocator, pmp: PmpUnit, clint: Clint, sched: Scheduler, csrs: Csrs)
    requires LinkerOk(l) && |specs| == 3 && specs[IDLE].Machine? && AllOk(specs)
    requires l.lay.eheap <= HALF && Room(Boot(l.sheap + 3, l.lay.eheap, EmptyTable(MAX_TASKS)), 3)
    requires PmpHardware.WellFormed(pmp.regs) && Unlocked(pmp.regs)
    requires sched.State() == SchedState(None, EmptyTable(MAX_TASKS)) && clint.ticks == 0
    requires !csrs.mstatus.mie
    modifies alloc, pmp, clint, sched, csrs
    ensures csrs.mstatus == old(csrs.mstatus).(mie := true)
    ensures clint.mtime == old(clint.mtime) && ClockInv(clint.Value(), clint.mtime)
    ensures BootImage(pmp.regs, sched.State(), csrs.mstatus, l.lay, l.sheap + 3, specs)
    ensures |sched.tasks| == 4 && clint.mtimecmp == clint.mtime + 100_000 && clint.ticks == 0
  {
    InitHeap(l, alloc);
    pmp.Init(l.lay);
    clint.Init();
    SpawnAndPrepare(specs, alloc, sched, csrs);
    csrs.mstatus := csrs.mstatus.(mie := true);
  }

  /** The three spawns, none of which panics, and `scheduler::init`, before interrupts are enabled. */
  method SpawnAndPrepare(specs: seq<Spec>, alloc: BumpAllocator, sched: Scheduler, csrs: Csrs)
    requires alloc.Valid() && sched.State() == SchedState(None, EmptyTable(|sched.tasks|)) && |specs| == 3
    requires alloc.next <= alloc.heapEnd <= HALF && Room(Boot(alloc.next, alloc.heapEnd, sched.tasks), 3)
    requires AllOk(specs) && !csrs.mstatus.mie
    modifies alloc, sched, csrs
    ensures csrs.mstatus == old(csrs.mstatus)
    ensures sched.State() == SchedState(None, Prepared(Filled(old(alloc.next), |old(sched.tasks)|, specs)))
  {
    SpawnThree(specs, alloc, sched, csrs);
    sched.Init(csrs);
  }

  /** Three spawns in a row into an empty table, with room for them. */
  method SpawnThree(specs: seq<Spec>, alloc: BumpAllocator, sched: Scheduler, csrs: Csrs)
    requires alloc.Valid() && sched.State() == SchedState(None, EmptyTable(|sched.tasks|)) && |specs| == 3
    requires alloc.next <= alloc.heapEnd <= HALF && Room(Boot(alloc.next, alloc.heapEnd, sched.tasks), 3)
    requires AllOk(specs)
    modifies alloc, sched, csrs
    ensures csrs.mstatus == old(csrs.mstatus)
    ensures sched.Valid() && sched.State() == SchedState(None, Filled(old(alloc.next), |old(sched.tasks)|, specs))
  {
    ghost var b := Boot(alloc.next, alloc.heapEnd, sched.tasks);
    SpawnAllOutcome(b, specs);
    SpawnAllEmpty(b, specs);
    SpawnNth(specs[0], b, specs, 0, alloc, sched, csrs);
    SpawnNth(specs[1], b, specs, 1, alloc, sched, csrs);
    SpawnNth(specs[2], b, specs, 2, alloc, sched, csrs);
    assert specs[..3] == specs;
  }

  /** The kernel's three tasks are valid and fit the table and the heap. */
  lemma KernelSpecsFit(l: Linker, idle: u64, echo: u64, violation: u64)
    requires LinkerOk(l)
    ensures l.lay.eheap <= HALF && Room(Boot(l.sheap + 3, l.lay.eheap, EmptyTable(MAX_TASKS)), 3)
    ensures AllOk(KernelSpecs(l, idle, echo, violation))
  {
    KernelSpecsOk(l, idle, echo, violation);
  }

  /** One spawn of a sequence that succeeds as a whole. */
  method SpawnNth(spec: Spec, ghost b: Boot, ghost specs: seq<Spec>, ghost k: nat,
                  alloc: BumpAllocator, sched: Scheduler, csrs: Csrs)
    requires alloc.Valid() && sched.Valid() && b.next <= b.end <= HALF
    requires k < |specs| && specs[k] == spec && SpawnAll(b, specs).Some?
    requires SpawnAll(b, specs[..k]) == Some(Boot(alloc.next, alloc.heapEnd, sched.tasks))
    modifies alloc, sched, csrs
    ensures csrs.mstatus == old(csrs.mstatus)
    ensures alloc.Valid() && sched.Valid() && sched.current == old(sched.current)
    ensures SpawnAll(b, specs[..k + 1]) == Some(Boot(alloc.next, alloc.heapEnd, sched.tasks))
  {
    SpawnAllPrefix(b, specs, k);
    var id := SpawnTask(spec, alloc, sched, csrs);
  }

  lemma SpawnAllEmpty(b: Boot, specs: seq<Spec>)
    requires b.next <= b.end <= HALF
    ensures SpawnAll(b, specs[..0]) == Some(b)
  {
  }

  /** If a sequence of spawns succeeds then so does each of its prefixes, one spawn at a time. */
  lemma {:induction false} SpawnAllPrefix(b: Boot, specs: seq<Spec>, k: nat)
    requires b.next <= b.end <= HALF && SpawnAll(b, specs).Some? && k < |specs|
    ensures SpawnAll(b, specs[..k]).Some? && SpawnAll(b, specs[..k + 1]).Some?
    ensures SpawnAll(b, specs[..k + 1]) == Spawned(SpawnAll(b, specs[..k]).value, specs[k])
    decreases |specs|
  {
    if k + 1 == |specs| {
      assert specs[..k + 1] == specs;
    } else {
      var front := specs[..|specs| - 1];
      assert front[..k] == specs[..k] && front[..k + 1] == specs[..k + 1];
      SpawnAllPrefix(b, front, k);
    }
  }
}
