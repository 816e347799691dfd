/**
 Task control blocks (crates/kernel/src/sched/task.rs): contexts, states and the PMP table
 builder.
 */
module Task {
  import opened Bits
  import opened PmpHardware
  import opened Registers
  import opened Hart
  import opened Pmp
  import opened PmpSafety
  import Napot

  const MAX_TASKS: nat := 4
  const TASK_STACK_SIZE: u64 := 8192
  const TASK_STACK_ALIGN: u64 := 8192

  datatype TaskState = Created | Ready | Running | Dead

  /** Saved registers, resume address and status. */
  datatype TaskContext = TaskContext(gprs: Gprs, mepc: u64, mstatus: Mstatus)

  /** `TaskContext::new_mmode` and `new_umode`: everything zero but sp, mepc, MPIE and MPP. */
  function NewContext(entry: u64, stackTop: u64, mode: Mode): TaskContext {
    TaskContext(ZERO_GPRS.(sp := stackTop), entry, Mstatus(false, true, mode, 0))
  }

  datatype Task = Task(
    id: nat, state: TaskState, context: TaskContext, pmpConfig: seq<Region>,
    stackBottom: u64, stackTop: u64, entryPoint: u64)

  /** `PmpConfig::empty`. */
  function EmptyConfig(): (t: seq<Region>)
    ensures |t| == PMP_COUNT && t == Table([])
  {
    seq(PMP_COUNT, i => EMPTY)
  }

  /** `Task::new`. */
  function NewTask(id: nat, entry: u64, stackTop: u64): Task {
    var bottom := if stackTop >= TASK_STACK_SIZE then stackTop - TASK_STACK_SIZE
                  else stackTop - TASK_STACK_SIZE + TWO_64;
    Task(id, Created, NewContext(entry, stackTop, U), EmptyConfig(), bottom, stackTop, entry)
  }

  // --- The PMP table builder ---

  /** The table after the given regions were added: entries 0-3 empty, region `j` at index `4 + j`. */
  function Table(entries: seq<Region>): (t: seq<Region>)
    ensures |t| == PMP_COUNT
  {
    seq(PMP_COUNT, i requires 0 <= i < PMP_COUNT => if 4 <= i < 4 + |entries| then entries[i - 4] else EMPTY)
  }

  class PmpConfigBuilder {
    var regions: seq<Region>
    var nextIdx: nat
    /** The regions added so far. */
    ghost var entries: seq<Region>

    ghost predicate Valid()
      reads this
    {
      nextIdx == 4 + |entries| <= PMP_COUNT && regions == Table(entries)
    }

    /** `PmpConfig::builder`. */
    constructor ()
      ensures Valid() && entries == []
    {
      regions := EmptyConfig();
      nextIdx := 4;
      entries := [];
    }

    /** `region`: appends one entry; `ok` is false where the source's assertions panic. */
    method AddRegion(base: u64, size: u64, flags: bv8) returns (ok: bool)
      requires Valid()
      modifies this
      ensures Valid()
      ensures ok <==> |old(entries)| < PMP_COUNT - 4 && Napot.Encodable(base, size)
      ensures entries == if ok then old(entries) + [Region(base, size, flags)] else old(entries)
    {
      if nextIdx >= PMP_COUNT {
        return false;
      }
      if !(size >= 8 && IsPowerOfTwo(size)) {
        return false;
      }
      if Bits.And(base, size - 1) != 0 {
        return false;
      }
      regions := regions[nextIdx := Region(base, size, flags)];
      nextIdx := nextIdx + 1;
      entries := entries + [Region(base, size, flags)];
      return true;
    }

    /** `code_region`. */
    method CodeRegion(base: u64, size: u64) returns (ok: bool)
      requires Valid()
      modifies this
      ensures Valid()
      ensures ok <==> |old(entries)| < PMP_COUNT - 4 && Napot.Encodable(base, size)
      ensures entries == if ok then old(entries) + [Region(base, size, RX)] else old(entries)
    {
      ok := AddRegion(base, size, RX);
    }

    /** `stack_region` and `mmio_region`, which grant the same rights. */
    method DataRegion(base: u64, size: u64) returns (ok: bool)
      requires Valid()
      modifies this
      ensures Valid()
      ensures ok <==> |old(entries)| < PMP_COUNT - 4 && Napot.Encodable(base, size)
      ensures entries == if ok then old(entries) + [Region(base, size, RW)] else old(entries)
    {
      ok := AddRegion(base, size, RW);
    }
  }

  const RX: bv8 := R | X
  const RW: bv8 := R | W

  /** Tables made from unlocked regions hold no lock bit anywhere. */
  lemma TableNoLock(entries: seq<Region>)
    requires forall j :: 0 <= j < |entries| ==> entries[j].flags & L == 0
    ensures NoLock(Table(entries))
  {
  }
}
