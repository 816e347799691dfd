/**
 Runs of the kernel as its linker script lays it out, with user tasks like those `kmain` spawns:
 what they may access, and what keeping to their stacks gains.
 */
module KernelRuns {
  import opened Bits
  import opened PmpHardware
  import opened Pmp
  import opened PmpSafety
  import opened Policy
  import opened Task
  import opened Scheduler
  import opened System
  import opened Safety
  import opened Discipline
  import opened Spawn
  import opened BootSequence

  /** A user task whose code is the user text page and whose device, if any, is the UART. */
  predicate Ordinary(l: Linker, spec: Spec) {
    && spec.User? && spec.codeBase == l.userTextStart && spec.codeSize == PAGE && |spec.mmio| <= PMP_COUNT - 6
    && forall j :: 0 <= j < |spec.mmio| ==> spec.mmio[j] == (UART_BASE, PAGE)
  }

  /** Tasks that boot from the heap's start, each a machine task or an ordinary user task. */
  predicate Fitting(l: Linker, specs: seq<Spec>)
    requires LinkerOk(l)
  {
    && StackBottom(l.sheap + 3, |specs|) <= l.lay.eheap
    && forall c :: 0 <= c < |specs| ==> specs[c].Machine? || Ordinary(l, specs[c])
  }

  /** The tasks of `kmain` are such tasks. */
  lemma KernelSpecsAreFitting(l: Linker, idle: u64, echo: u64, violation: u64)
    requires LinkerOk(l)
    ensures Fitting(l, KernelSpecs(l, idle, echo, violation))
  {
    assert UART_SIZE == PAGE;
  }

  /** The linker script in numbers, and how many 8 KB stacks its heap holds after the boot-time check. */
  lemma HeapHoldsStacks(l: Linker, n: nat)
    requires LinkerOk(l)
    ensures 0x8000_0000 <= l.lay.stext && l.estack == l.sstack + 65536 && l.lay.eheap == l.sheap + 16777216
    ensures StackBottom(l.sheap + 3, n) <= l.lay.eheap <==> n <= 2047
  {
    HeapStartsOnPage(l.sheap, l.lay.eheap);
    StackAtInPage(l.sheap);
    StacksInHeap(l.sheap, StackAt(l.sheap + 3), n);
  }

  lemma HeapStartsOnPage(sheap: nat, eheap: nat)
    requires eheap % 4096 == 0 && sheap + 0x100_0000 == eheap
    ensures sheap % 4096 == 0
  {
  }

  lemma StacksInHeap(sheap: nat, first: nat, n: nat)
    requires first == sheap + 4096 || first == sheap + 8192
    ensures first + n * 8192 <= sheap + 0x100_0000 <==> n <= 2047
  {
  }

  // --- What the user tasks may access ---

  lemma {:induction false} NothingGranted(regions: seq<Region>, i: nat, y: nat, k: Access)
    requires i <= PMP_COUNT && forall j :: i <= j < PMP_COUNT ==> !Covers(RegionAt(regions, j), y)
    ensures !TableGrants(regions, i, y, k)
    decreases PMP_COUNT - i
  {
    if i < PMP_COUNT {
      NothingGranted(regions, i + 1, y, k);
    }
  }

  /** Every region of an ordinary task's table lies where the kernel entries decide already. */
  lemma TableInKernelRanges(l: Linker, spec: Spec, bottom: u64, i: nat, y: nat, k: Access)
    requires LinkerOk(l) && Ordinary(l, spec) && l.sheap <= bottom && bottom + TASK_STACK_SIZE <= l.lay.eheap
    requires 4 <= i < PMP_COUNT && Covers(RegionAt(UserTable(spec, bottom), i), y)
    ensures KernelVerdict(l.lay, y, k).Decided?
  {
    assert UART_SIZE == PAGE;
  }

  /** The task's table changes no decision: its rights are exactly those the kernel entries give. */
  lemma TableChangesNothing(l: Linker, spec: Spec, bottom: u64, y: nat, k: Access)
    requires LinkerOk(l) && Ordinary(l, spec) && l.sheap <= bottom && bottom + TASK_STACK_SIZE <= l.lay.eheap
    ensures Decision(l.lay, UserTable(spec, bottom), U, y, k) <==> KernelVerdict(l.lay, y, k) == Decided(true)
  {
    var t := UserTable(spec, bottom);
    if KernelVerdict(l.lay, y, k).Undecided? {
      forall i | 4 <= i < PMP_COUNT
        ensures !Covers(RegionAt(t, i), y)
      {
        if Covers(RegionAt(t, i), y) {
          TableInKernelRanges(l, spec, bottom, i, y, k);
        }
      }
      NothingGranted(t, 4, y, k);
    }
  }

  lemma PageRegionOk(base: u64, flags: bv8)
    requires base % PAGE == 0 && base + PAGE <= PHYS_LIMIT && flags & L == 0
    ensures RegionOk(Region(base, PAGE, flags))
  {
    PageEncodable(base);
  }

  lemma OrdinaryRegionOk(l: Linker, spec: Spec, bottom: u64, i: nat)
    requires LinkerOk(l) && Ordinary(l, spec) && Aligned(bottom, TASK_STACK_SIZE)
    requires bottom + TASK_STACK_SIZE <= l.lay.eheap && i < PMP_COUNT
    ensures RegionOk(UserTable(spec, bottom)[i])
  {
    assert RX & L == 0 && RW & L == 0 && EMPTY.flags & L == 0;
    if i == 4 {
      PageRegionOk(l.userTextStart, RX);
    } else if i == 5 {
      StackIsEncodable(bottom);
    } else if 6 <= i < 6 + |spec.mmio| {
      PageRegionOk(UART_BASE, RW);
    }
  }

  lemma OrdinaryTableOk(l: Linker, spec: Spec, bottom: u64)
    requires LinkerOk(l) && Ordinary(l, spec) && Aligned(bottom, TASK_STACK_SIZE)
    requires bottom + TASK_STACK_SIZE <= l.lay.eheap
    ensures TableOk(UserTable(spec, bottom))
  {
    forall i | 0 <= i < PMP_COUNT
      ensures RegionOk(UserTable(spec, bottom)[i])
    {
      OrdinaryRegionOk(l, spec, bottom, i);
    }
  }

  lemma StackInHeap(l: Linker, specs: seq<Spec>, c: nat)
    requires LinkerOk(l) && Fitting(l, specs) && c < |specs|
    ensures l.sheap <= StackBottom(l.sheap + 3, c) && StackBottom(l.sheap + 3, c) + TASK_STACK_SIZE <= l.lay.eheap
    ensures Aligned(StackBottom(l.sheap + 3, c), TASK_STACK_SIZE)
  {
    StackBottomAligned(l.sheap + 3, c);
  }

  /** Slot `c` holds an ordinary user task with its stack in the heap. */
  predicate HoldsOrdinary(s: SchedState, l: Linker, c: nat, spec: Spec, bottom: u64) {
    && c < |s.tasks| && s.tasks[c].Some? && Ordinary(l, spec)
    && s.tasks[c].value.pmpConfig == UserTable(spec, bottom)
    && Aligned(bottom, TASK_STACK_SIZE) && l.sheap <= bottom && bottom + TASK_STACK_SIZE <= l.lay.eheap
  }

  /** After boot the slots of the user tasks do. */
  lemma BootHoldsOrdinary(s: Sys, l: Linker, specs: seq<Spec>, c: nat)
    requires LinkerOk(l) && Fitting(l, specs) && Booted(s, l.lay, l.sheap + 3, specs)
    requires c < |specs| && specs[c].User?
    ensures HoldsOrdinary(s.sched, l, c, specs[c], StackBottom(l.sheap + 3, c))
    ensures ModesOf(specs, |s.sched.tasks|)[c] == U
  {
    StackInHeap(l, specs, c);
    SpawnedTaskOk(specs[c], c, StackBottom(l.sheap + 3, c));
  }

  /**
   In every state of every run that spares the task table, such a task, while it runs, may access
   exactly what the kernel entries grant: execute text, and read and write kernel data, heap and
   UART. All user tasks have the same rights.
   */
  lemma UserRightsInEveryRun(s: Sys, es: seq<Event>, l: Linker, modes: seq<Mode>,
                             c: nat, spec: Spec, bottom: u64, y: nat, k: Access)
    requires LinkerOk(l) && Inv(s, l.lay, modes) && Spares(s, es, TaskTable)
    requires HoldsOrdinary(s.sched, l, c, spec, bottom) && modes[c] == U && Run(s, es).sched.current == Some(c)
    ensures Allows(Run(s, es).pmp, Run(s, es).mode, y, k) <==> KernelVerdict(l.lay, y, k) == Decided(true)
  {
    OrdinaryTableOk(l, spec, bottom);
    TableChangesNothing(l, spec, bottom, y, k);
    EveryAccess(s, es, l.lay, modes, c, y, k);
  }

  // --- Tasks that keep to their stacks ---

  /** The boot stack and the heap, where the kernel's variables and read-only data are not. */
  function StackMemory(l: Linker): Extent {
    Extent(l.sstack, l.lay.eheap)
  }

  function BootStack(l: Linker): Extent {
    Extent(l.sstack, l.estack)
  }

  /** The kernel's variables and read-only data are in its data sections, below the boot stack. */
  predicate DataHome(h: Home, l: Linker) {
    && l.lay.userTextEnd <= h.table.lo < h.table.hi <= l.sstack
    && l.lay.userTextEnd <= h.ticks.lo < h.ticks.hi <= l.sstack
    && l.lay.userTextEnd <= h.relied.lo < h.relied.hi <= l.sstack
    && h.depth <= TASK_STACK_SIZE
  }

  lemma StackMemoryIsSafe(l: Linker, h: Home)
    requires LinkerOk(l) && DataHome(h, l)
    ensures StackArea(StackMemory(l), h, l.lay)
  {
  }

  lemma BootOnStacks(s: Sys, l: Linker, specs: seq<Spec>)
    requires LinkerOk(l) && Fitting(l, specs) && Booted(s, l.lay, l.sheap + 3, specs) && DataHome(s.home, l)
    requires OnStack(s.home, s.gprs.sp, BootStack(l))
    ensures AllOnStacks(s, BootStack(l), StackMemory(l))
  {
    forall i | 0 <= i < |s.sched.tasks|
      ensures TaskOnStack(s, i, StackMemory(l))
    {
      if i < |specs| {
        StackInHeap(l, specs, i);
        SpawnedTaskOk(specs[i], i, StackBottom(l.sheap + 3, i));
      }
    }
  }

  /**
   After boot, a run in which every context keeps to its own stack and no store hits the kernel's
   memory spares every part of it: the invariant and all that follows from it hold throughout,
   and every trap is handled.
   */
  lemma DisciplinedKernel(s: Sys, es: seq<Event>, l: Linker, specs: seq<Spec>)
    requires LinkerOk(l) && Fitting(l, specs) && Booted(s, l.lay, l.sheap + 3, specs) && DataHome(s.home, l)
    requires OnStack(s.home, s.gprs.sp, BootStack(l)) && DisciplinedRun(s, es, BootStack(l))
    ensures Spares(s, es, TaskTable) && Spares(s, es, TrapFrames) && Spares(s, es, TimeKeeping)
    ensures Inv(Run(s, es), l.lay, ModesOf(specs, |s.sched.tasks|))
    ensures FrameWritable(Run(s, es)) && FrameIsMemory(Run(s, es))
  {
    var modes := ModesOf(specs, |s.sched.tasks|);
    BootEstablishesInv(s, l.lay, l.sheap + 3, specs);
    BootOnStacks(s, l, specs);
    StackMemoryIsSafe(l, s.home);
    DisciplinedRunSparesAll(s, es, BootStack(l), StackMemory(l), l.lay, modes);
    RunKeepsInv(s, es, l.lay, modes);
  }
}
