# A verified model of the CyptOS kernel core

CyptOS is a single-hart RISC-V 64-bit kernel: user tasks run in U-mode, and every timer tick,
fault and system call enters machine mode through one trap path, which may switch tasks,
reprogram the PMP (Physical Memory Protection) registers and resume. This project models that
path in Dafny 4.11 and proves what every run keeps. `dafny verify dfyconfig.toml` checks it.

| files | what they hold |
|---|---|
| `Bits`, `Napot`, `CfgWord` | masks as quotients and remainders, the NAPOT address code, the bytes of the 64-bit pmpcfg registers |
| `PmpHardware` | the PMP unit: locked writes, address matching, priority, the access decision (section 3.7.1 of the RISC-V Privileged Specification v1.12) |
| `Pmp`, `PmpSafety` | the PMP driver as code on that unit, and what it guarantees over every sequence of calls |
| `Policy`, `Task`, `Scheduler` | task selection, control blocks and table builder, the scheduler |
| `Registers`, `TrapVector` | the 31 registers and the trap vector as an instruction list over memory |
| `Hart`, `Timer`, `Trap` | mstatus, trap entry, `mret` and interrupt masking (sections 3.1.6.1 and 3.3.2), the CLINT driver, the trap handlers |
| `System`, `VectorRefinement` | the whole system as a transition system, and its trap step taken instruction by instruction under the PMP |
| `VirtualCpu`, `Safety`, `Fairness`, `Timeliness` | the refinement to independent virtual CPUs, safety, fairness and waiting times over runs |
| `Isolation`, `Overwriting`, `Exposure`, `Discipline` | what the PMP protects in every run, exactly when an overwrite does harm to the table, to registers, output and time, and what tasks must do to avoid it |
| `Allocator`, `Spawn`, `BootSequence` | the bump allocator under interleaving, task creation, the boot sequence |
| `Startup`, `KernelRuns` | how every task starts after boot, and the runs of the kernel as it is linked |

How it is put together:

- Code that changes state is imperative here too: `PmpUnit`, `Scheduler`, `TrapHandlers`,
  `PmpConfigBuilder`, `BumpAllocator` and `Clint` are classes whose methods follow the source
  statement by statement. Each is proved equal to a function on values, and the theorems are
  about those functions.
- A trap is one step of the system, because trap entry clears MIE and the handlers return with
  `mret`. For a frame in ordinary memory `VectorRefinement.VectorStepIsStep` shows that the step
  is the same when it goes through the save and restore instructions, with every store and load
  checked by the PMP.
- Between traps the running context may change its registers and pc in any way. Time passes in
  arbitrary amounts. An event that the hart cannot take leaves the state alone, so theorems
  about runs hold for every sequence of events.
- The kernel's variables and read-only data are ordinary RAM. PMP entry 2 lets user mode write
  them, and a trap stores its frame wherever the interrupted stack pointer says. Runs contain
  such overwrites. What one leaves is arbitrary as far as the bytes hit reach: the task table, the
  clock, the frame, or, where the compiled handlers rely on the bytes (read-only data, with its
  vtables and jump tables, and the remaining variables), the outcome of every later trap.
- Every result about runs says which part of the kernel the run must spare: `Spares(s, es,
  TaskTable)`, `TrapFrames`, `TimeKeeping` or `HandlerCode`. For the task table
  `Overwriting.SparesIsExact` shows that the condition is exact, for stores and for trap frames;
  `OverwriteBreaksModes` and `RelianceBreaksModes` give runs that fail without it. `Exposure`
  shows the same for registers, output and clock, and `Discipline.DisciplinedRunSparesAll` gives
  a condition on tasks that implies all of them.
- The scheduler's table is written only by methods that require interrupts to be off, which is
  what `IrqCell` is for; the callers go through `Lock` and `Unlock`.
- Functions that only compute are pinned by lemmas that say in numbers what they lead to
  (`Trap.HandleInNumbers`, `VirtualCpu.TrapInNumbers`, `Spawn.TaskForIsFresh` and others).
- A trap whose frame the PMP denies faults inside the vector and is lost; the system halts.
- The table size is arbitrary; `MAX_TASKS = 4` is used only by the boot sequence.
- Where the kernel panics, functions return `None` or `Panic` and the system halts.

The main results, with the invariant `System.Inv` that `BootSequence` establishes:

1. `VirtualCpu.Refinement`: each task's registers, pc and mode depend on its own acts alone.
2. `Safety.EveryState`, `Safety.RunTask`: lifecycle, privilege, interrupt and PMP coherence.
3. `Fairness.BoundedWaiting`, `Fairness.RoundRobin`, `Fairness.Window`: waiting time and order.
4. `PmpSafety.AccessDecisionAfterRun`, `Safety.EveryAccess`: the access decision over runs.
5. `Timeliness.TimedWaiting`: the waiting time in counts of the timer.
6. `Overwriting.SparesIsExact`, `Isolation.LockedRangesInEveryRun`,
   `Isolation.FrameWritableExactly`: exactly which stores and frames do harm, what survives even
   arbitrary machine-mode code, and which stack pointers lose a trap.
7. `Discipline.DisciplinedRunSparesAll`, `KernelRuns.UserRightsInEveryRun`: what tasks owe the
   kernel, and what its user tasks may access.
8. `Allocator.EveryInterleaving`, `Allocator.AllocTerminates`: concurrent allocation is some
   sequential one, and ends.
9. `Startup.EveryTaskStarts`: from boot every spawned task is dispatched within n-1 scheduler
   calls, and starts at its entry point, in its mode, on its own stack, with registers zero.
10. `BootSequence.EntriesInHardware`: from a specification to the hardware's reading of it.

Assumptions taken from outside the kernel: 16 PMP entries with 4-byte grain; linker symbols in
the order of board/qemu-virt/linker.ld, page-aligned, with a nonempty user text section;
PMP registers unlocked and interrupts off at reset; heap addresses below 2^63; memory present
wherever the PMP allows an access, misaligned stores carried out, the UART accepting what the
kernel prints. The compiled handlers use no register of the interrupted context but sp. An
overwrite of the task table leaves a table whose current index is in range. Where the table, the
tick counter and what the handlers rely on lie, and how far below the stack pointer a trap
writes, are parameters (`System.Home`), because they depend on compilation and linking.

Where code and documentation differ the model follows the code. docs/architecture.md describes
`usize::MAX` as the idle marker, a permissive PMP entry 0, and a `clear_all` on each switch; the
code has an `Option`, an address anchor in entry 0, and no `clear_all` after boot. The comment on
`kernel_entry_regions` speaks of four locked entries that leave kernel RAM uncovered; the code
locks entries 1-3, whose ranges include kernel RAM, and entry 0 is protected only by the locked
TOR entry above it.

## Model

| member | source | states |
|---|---|---|
| Napot.RoundTrip | crates/kernel/src/pmp.rs:41-47 | for every power-of-two size from 8 and aligned base, the hardware's trailing-ones reading of `napot_addr` is exactly that base and size |
| Napot.MatchesIsInterval | crates/kernel/src/pmp.rs:41-47 | comparing the bits above the run of ones is membership in the block, for every register value and byte |
| Napot.EncodeInjective | crates/kernel/src/pmp.rs:41-47 | distinct valid regions never share a register value |
| CfgWord.ReplaceByte | crates/kernel/src/pmp.rs:240-252 | on 64-bit registers, masking with `!(0xFF << 8k)` and or-ing in `cfg << 8k` replaces exactly byte k, for every k |
| CfgWord.OrIntoFree | crates/kernel/src/pmp.rs:173-182 | on 64-bit registers, or-ing `cfg << 8k` into a register whose byte k is zero sets that byte and no other |
| CfgWord.KeepLowHalf | crates/kernel/src/pmp.rs:145-148 | masking with `0x0000_0000_FFFF_FFFF` keeps entries 0-3 and clears entries 4-7 |
| CfgWord.JoinHalves | crates/kernel/src/pmp.rs:186-186 | or-ing registers whose complementary halves are zero joins the halves |
| CfgWord.ShiftAmounts | crates/kernel/src/pmp.rs:240-243 | `Shifted(b, k)` is the shift by the computed amount 8k |
| Pmp.PmpUnit.SetPmpCfg | crates/kernel/src/pmp.rs:240-252 | one configuration byte is replaced unless its entry is locked, and nothing else changes |
| Pmp.PmpUnit.ConfigureRegion | crates/kernel/src/pmp.rs:215-237 | succeeds exactly for a valid index and an encodable region, writes address then byte, and otherwise changes nothing |
| Pmp.PmpUnit.ClearAll | crates/kernel/src/pmp.rs:255-261 | zeroes every register that no lock freezes and keeps the frozen ones |
| Pmp.PmpUnit.LoadTaskConfig | crates/kernel/src/pmp.rs:142-188 | leaves entries 0-3 alone and entries 4-15 as the encoding of the table; the register states on the way are one register write apart, end in that state, and never mix an old byte with a new address or the reverse |
| Pmp.PmpUnit.DisableTaskEntries | crates/kernel/src/pmp.rs:143-150 | step 1 turns every unlocked task entry off and nothing else |
| Pmp.PmpUnit.WriteTaskAddresses | crates/kernel/src/pmp.rs:152-183 | the loop writes the address of every entry and collects exactly the configuration bytes, short tables padded with empty entries |
| Pmp.PmpUnit.CollectCfg | crates/kernel/src/pmp.rs:173-182 | the byte of one entry joins the collected words and leaves the bytes of the others |
| Pmp.PmpUnit.EnableTaskEntries | crates/kernel/src/pmp.rs:185-187 | step 3 arrives at the encoding of the whole table |
| Pmp.PmpUnit.Init | crates/kernel/src/pmp.rs:315-335 | on an unlocked unit none of the writes is lost to a lock set earlier in the loop: entries 0-3 are the kernel's and 4-15 are off |
| Pmp.PmpUnit.InstallEntry | crates/kernel/src/pmp.rs:319-332 | the flag and size tests of the loop body lead each kernel descriptor to its register values |
| Pmp.KernelRegionModes | crates/kernel/src/pmp.rs:271-307 | which branch of `init` each kernel descriptor takes and the byte it encodes to |
| PmpSafety.LockedForever | crates/kernel/src/pmp.rs:132-141 | after `init`, no sequence of loads and clears changes entries 0-3, address 0 included, and builder-made tables never lock a task entry |
| PmpSafety.LoadTakesEffectExactlyWhenUnlocked | crates/kernel/src/pmp.rs:142-188 | a load installs the whole table if and only if no task entry is locked |
| PmpSafety.LoadLoad | crates/kernel/src/pmp.rs:142-188 | loading A then B gives the registers of loading B alone |
| PmpSafety.NoMixedEntry | crates/kernel/src/pmp.rs:142-188 | at every CSR write of a load, a task entry that matches a byte is an outgoing or an incoming region with that region's rights |
| PmpSafety.AccessDecision | crates/kernel/src/pmp.rs:271-307 | entries 1-3 decide their ranges for both modes; elsewhere machine mode is allowed and user mode follows the lowest table region containing the byte |
| PmpSafety.AccessDecisionAfterRun | crates/kernel/src/pmp.rs:142-188 | the same after any sequence of loads and clears: the decision depends on the layout and the last table alone |
| PmpSafety.TextIsNeverData | crates/kernel/src/pmp.rs:283-301 | user mode never reads or writes the text range, whatever is loaded |
| PmpSafety.UartInNumbers | crates/kernel/src/pmp.rs:304-305 | entry 3 holds address value 0x0400_01FF and byte 0x9B, which the hardware reads as the page at 0x1000_0000 |
| PmpHardware.MatchesInNumbers | crates/kernel/src/pmp.rs:10-19 | which bytes an entry matches for each value of bits 4:3 of its configuration byte, entry 0 with no address below it included |
| PmpHardware.LegalBits | crates/kernel/src/pmp.rs:10-19 | a written configuration byte keeps rights, matching mode and lock, and nothing else |
| Policy.SelectNextReady | crates/kernel/src/sched/policy.rs:9-27 | the search loop computes the recursive specification, for every table size including zero |
| Policy.SelectMeaning | crates/kernel/src/sched/policy.rs:5-8 | a normal slot is chosen exactly when one is ready and then the cyclically nearest; idle exactly when it alone is ready; none exactly when nothing is |
| Policy.SelectFirst | crates/kernel/src/sched/policy.rs:17-24 | out of boot slot 1 is selected if it is ready |
| Policy.GapDecreases | crates/kernel/src/sched/policy.rs:17-24 | every selection picks a ready slot or brings it strictly nearer |
| Policy.ExactRoundRobin | crates/kernel/src/sched/policy.rs:17-26 | between two dispatches of a slot every other slot ready throughout is dispatched exactly once and idle never |
| Policy.WindowIsPermutation | crates/kernel/src/sched/policy.rs:17-26 | with a fixed ready set, as many dispatches as normal ready slots dispatch each exactly once |
| Registers.CopyGprFields | crates/kernel/src/arch/register.rs:11-45 | the 31 assignments transfer the whole register file |
| TrapVector.SaveMeaning | crates/kernel/src/trap.rs:120-166 | the handler's argument points to a frame whose 31 fields are the interrupted registers, the original sp among them, for every sp with wrap-around |
| TrapVector.RestoreMeaning | crates/kernel/src/trap.rs:168-204 | every register gets its frame field, although sp is the base and is overwritten last |
| TrapVector.VectorMeaning | crates/kernel/src/trap.rs:120-208 | the vector is transparent: the handler sees the interrupted registers and the context resumes with what the handler left |
| VectorRefinement.VectorStepIsStep | crates/kernel/src/trap.rs:120-208 | with its frame in ordinary memory, the system's trap step equals the one through the vector's instructions with every store and load subject to the PMP, for all memory contents and clobbered registers; a denied frame is lost in both |
| VectorRefinement.SaveCompletesExactly | crates/kernel/src/trap.rs:120-166 | the save sequence stores its whole frame if and only if none of its 248 bytes lies in the text range |
| Hart.Csrs.Lock | crates/kernel/src/sync/irq_cell.rs:31-34 | saves mstatus and clears MIE |
| Hart.Csrs.Unlock | crates/kernel/src/sync/irq_cell.rs:38-41 | sets MIE again only if it was set |
| Hart.TrapAndReturn | crates/kernel/src/trap.rs:120-208 | trap entry clears MIE and remembers it with the mode; `mret` gives it back, whatever it was, and sets MPIE and the lowest MPP |
| Hart.WithLockRestores | crates/kernel/src/sync/irq_cell.rs:29-44 | every nesting of `with_lock` restores MIE always, and mstatus exactly unless an interrupt is taken outside every section, which leaves exactly its MPIE and MPP |
| Hart.NoInterruptInside | crates/kernel/src/sync/irq_cell.rs:29-44 | interrupts are off at every access inside a critical section at any depth |
| Hart.InterruptedExactly | crates/kernel/src/sync/irq_cell.rs:29-44 | with an interrupt always pending, code is interrupted if and only if interrupts are on and it has an instruction boundary outside every critical section |
| Hart.SectionIsAtomic | crates/kernel/src/sync/irq_cell.rs:29-44 | no scheduler call falls between two accesses of one critical section, wherever it stands and whatever it nests |
| Task.PmpConfigBuilder.constructor | crates/kernel/src/sched/task.rs:202-207 | the builder starts with an empty table |
| Task.PmpConfigBuilder.AddRegion | crates/kernel/src/sched/task.rs:220-233 | the j-th region lands at index 4+j, entries 0-3 stay empty, and it fails exactly on a full table or a region that is not encodable |
| Task.PmpConfigBuilder.CodeRegion | crates/kernel/src/sched/task.rs:236-238 | adds a read-execute region |
| Task.PmpConfigBuilder.DataRegion | crates/kernel/src/sched/task.rs:241-248 | adds a read-write region, for stacks and for MMIO |
| Task.TableNoLock | crates/kernel/src/sched/task.rs:235-248 | tables of unlocked regions hold no lock bit |
| Scheduler.Scheduler.Init | crates/kernel/src/sched/scheduler.rs:30-41 | slot by slot: every Created task becomes Ready with nothing else of it changed, and every other slot is as it was; interrupts are off meanwhile and as before afterwards |
| Scheduler.Scheduler.PrepareCreated | crates/kernel/src/sched/scheduler.rs:32-39 | the loop, inside the critical section |
| Scheduler.Scheduler.Schedule | crates/kernel/src/sched/scheduler.rs:55-124 | scheduler state, frame, CSRs and PMP registers are exactly save, select, dispatch and switch; without a ready task nothing is switched |
| Scheduler.Scheduler.SaveContext | crates/kernel/src/sched/scheduler.rs:66-81 | the running task's block receives all registers, mepc and mstatus; Running becomes Ready and Dead stays Dead |
| Scheduler.Scheduler.TakeNext | crates/kernel/src/sched/scheduler.rs:83-103 | the selected slot becomes current and Running |
| Scheduler.Scheduler.KillCurrent | crates/kernel/src/sched/scheduler.rs:172-185 | marks the current task Dead and then schedules |
| Scheduler.Scheduler.MarkCurrentDead | crates/kernel/src/sched/scheduler.rs:173-182 | inside the critical section the current task, and nothing else, becomes Dead |
| Scheduler.Scheduler.CreateTask | crates/kernel/src/sched/scheduler.rs:132-147 | fills the lowest free slot with a user task holding the given regions, or reports a full table |
| Scheduler.Scheduler.CreateTaskMMode | crates/kernel/src/sched/scheduler.rs:152-165 | fills the lowest free slot with a machine-mode task without regions, or reports a full table |
| Scheduler.CreatedTasks | crates/kernel/src/sched/task.rs:74-161 | field by field, the control blocks both calls make: entry, MPIE and mode bits, zero registers but sp, stack bounds, regions |
| Timer.UsToTicks | crates/kernel/src/timer.rs:45-49 | ten counts to the microsecond whenever the 64-bit product does not wrap |
| Timer.Clint.SetTimerUs | crates/kernel/src/timer.rs:52-56 | arms the comparator the converted interval after the current time |
| Timer.Clint.ScheduleNextTick | crates/kernel/src/timer.rs:64-66 | arms it one interval ahead |
| Timer.Clint.IncrementTick | crates/kernel/src/timer.rs:76-78 | counts one tick |
| Timer.Clint.Init | crates/kernel/src/timer.rs:81-84 | ends armed one interval ahead |
| Trap.TrapHandlers.TrapHandler | crates/kernel/src/trap.rs:213-226 | dispatch on bit 63 of mcause: the whole kernel state after a trap, or a panic, is `Handle` |
| Trap.TrapHandlers.HandleInterrupt | crates/kernel/src/trap.rs:229-256 | the timer counts, rearms and schedules; other interrupts change nothing |
| Trap.TrapHandlers.HandleAccessFault | crates/kernel/src/trap.rs:269-284 | a user fault kills and reschedules, a machine fault panics |
| Trap.TrapHandlers.HandleSyscall | crates/kernel/src/trap.rs:288-306 | reads take the waiting byte and answer in a0 (0xFF when there is none), writes emit the low byte of a0, other numbers change nothing |
| Trap.TrapHandlers.HandleException | crates/kernel/src/trap.rs:309-345 | which causes advance mepc, which kill, which panic |
| Trap.HandleInNumbers | crates/kernel/src/trap.rs:213-345 | for every value of mcause and a7, by number: what is returned, where mepc goes (plus four, wrapping), what a0, output, clock and table become, and what panics |
| Trap.Plus4 | crates/kernel/src/trap.rs:314-335 | mepc plus four modulo 2^64 |
| System.SaveKeeps | crates/kernel/src/sched/scheduler.rs:66-81 | after saving, no task is Running and idle is Ready |
| System.NextExists | crates/kernel/src/sched/scheduler.rs:83-92 | selection never comes back empty |
| System.ScheduleKeeps | crates/kernel/src/sched/scheduler.rs:55-124 | a scheduler call re-establishes the table invariant, resumes with the chosen task's mode and interrupts on, and leaves its table in the PMP registers |
| System.HandleKeepsResumable | crates/kernel/src/trap.rs:213-345 | every handler that returns leaves a state from which `mret` restores the invariant |
| System.RunKeepsInv | crates/kernel/src/trap.rs:213-345 | the invariant holds in every state of every run that spares the task table |
| VirtualCpu.RescheduleView | crates/kernel/src/sched/scheduler.rs:55-124 | a context switch changes no task's virtual CPU |
| VirtualCpu.StepView | crates/kernel/src/trap.rs:213-345 | one event changes the running task's virtual CPU as it should (nothing on a tick, pc+4 and a0 on a system call, death on a fault) and no other |
| VirtualCpu.TrapInNumbers | crates/kernel/src/trap.rs:213-345 | the same by number of cause and system call: pc plus four modulo 2^64, the byte or 255 in a0, untouched on every interrupt, dead after a user fault |
| VirtualCpu.Refinement | crates/kernel/src/sched/scheduler.rs:55-124 | over every run that spares the task table and the trap frames each virtual CPU is the result of its own acts in order |
| VirtualCpu.NonInterference | crates/kernel/src/sched/scheduler.rs:55-124 | the kernel moves no register between tasks: equal virtual CPUs with equal acts stay equal in any two such runs of any two systems |
| Safety.StepTable | crates/kernel/src/trap.rs:231-284 | the task table changes only on ticks and user faults, and then by exactly save and dispatch |
| Safety.RunTask | crates/kernel/src/sched/scheduler.rs:66-103 | in runs that spare the task table, identity, entry, stack bounds and PMP table are fixed for life, Dead is absorbing, and `current` never returns to none |
| Safety.DeadIsNeverResumed | crates/kernel/src/sched/scheduler.rs:167-185 | in runs that spare the task table a dead task is never current again |
| Safety.BootContextIsDropped | crates/kernel/src/sched/scheduler.rs:51-54 | the first dispatch leaves every prebuilt context as it was |
| Safety.EveryState | crates/kernel/src/sched/scheduler.rs:11-18 | in every state of every run that spares the task table: idle lives, exactly the current task is Running, every stored context has MIE=0, MPIE=1 and the creation mode, the hart runs in that mode, and entries 4-15 encode the current table |
| Safety.EveryAccess | crates/kernel/src/sched/scheduler.rs:112-115 | every access in every state of every run that spares the task table is decided by the layout and the running task's table |
| Safety.RunOutput | crates/kernel/src/trap.rs:294-297 | in runs that spare the trap frames, system calls send to the UART the bytes of the write calls in order and nothing else from them |
| Safety.PanicsExactly | crates/kernel/src/trap.rs:309-345 | exactly which traps halt the kernel: a frame that may not be written, an unhandled cause, an access fault in machine mode |
| Safety.StatusAfterTrap | crates/kernel/src/trap.rs:204-204 | out of every trap that returns, MIE and MPIE are set and MPP is the lowest mode |
| Safety.TickBound | crates/kernel/src/timer.rs:63-90 | in runs that spare the clock the tick count is the number of timer-driven scheduler calls and never runs ahead of the elapsed intervals |
| Fairness.ScheduleSelects | crates/kernel/src/sched/scheduler.rs:83-98 | a scheduler call dispatches what the policy selects among the tasks that survive it |
| Fairness.IdleIsFallback | crates/kernel/src/sched/scheduler.rs:52-54 | idle is dispatched exactly when no other task is alive |
| Fairness.WaitingTime | crates/kernel/src/sched/policy.rs:17-24 | a waiting task runs within its cyclic distance plus one scheduler calls |
| Fairness.BoundedWaiting | crates/kernel/src/sched/policy.rs:9-27 | within n-1 scheduler calls in a table of n slots, under every interleaving of events that spares the task table |
| Fairness.RoundRobin | crates/kernel/src/sched/policy.rs:17-26 | between two dispatches of a task every other task still alive is dispatched exactly once and idle never |
| Fairness.Window | crates/kernel/src/sched/policy.rs:17-26 | without deaths, as many scheduler calls as live tasks besides idle dispatch each exactly once |
| Timeliness.TimedWaiting | crates/kernel/src/timer.rs:51-66 | if every expired timer interrupt is taken within delta counts, a Ready task runs within (n-1) * (TICK + delta) counts of mtime, whatever else happens |
| Timeliness.StepMeetsDeadline | crates/kernel/src/trap.rs:231-284 | every tick and every fault either dispatches a waiting task by its deadline or leaves the deadline no later |
| Isolation.MachineData | crates/kernel/src/pmp.rs:283-303 | with unlocked task entries machine mode reads and writes every byte except those of the text range |
| Isolation.FrameWritableExactly | crates/kernel/src/trap.rs:120-166 | a trap reaches its handler if and only if everything it writes below the stack pointer avoids the text range |
| Isolation.FrameInTextIsLost | crates/kernel/src/trap.rs:124-129 | with the frame at the start of the text range the first store is denied and no trap returns |
| Isolation.RunKeepsKernel | crates/kernel/src/pmp.rs:311-335 | entries 0-3 stay the kernel's in every run that spares what the handlers rely on, whatever happens to the task table |
| Isolation.KernelRangesInEveryRun | crates/kernel/src/pmp.rs:271-307 | in every state of every such run, for both modes, the text range is execute-only, and kernel data, heap and UART are readable and writable, the task table and read-only data among them |
| PmpHardware.LocksOutliveAnyCode | crates/kernel/src/pmp.rs:311-314 | no sequence of PMP register writes, by whatever code, changes a locked entry or a frozen address |
| Isolation.RunKeepsLocks | crates/kernel/src/pmp.rs:311-314 | so entries 1-3 and the address of entry 0 survive every run, hijacked handlers included |
| Isolation.LockedRangesInEveryRun | crates/kernel/src/pmp.rs:283-303 | in every state of every run whatsoever the text from its ninth byte on is execute-only and kernel data and heap are readable and writable, for both modes |
| Isolation.AnchorExposes | crates/kernel/src/pmp.rs:283-298 | the eight bytes before that are not covered: the byte of entry 0 is not locked |
| Overwriting.StoreIsHarmlessExactly | crates/kernel/src/sched/scheduler.rs:11-23 | a user store, whatever it leaves of what its byte is part of, keeps every continuation coherent if and only if it misses the task table and what the handlers rely on |
| Overwriting.TrapIsHarmlessExactly | crates/kernel/src/trap.rs:120-166 | a trap keeps every continuation coherent if and only if its frame is denied, or misses what the handlers rely on and, if they return, the task table |
| Overwriting.FrameInTableHarms | crates/kernel/src/trap.rs:126-129 | a failing input: a stack pointer 256 bytes above the first byte of the table |
| Overwriting.SparesIsExact | crates/kernel/src/trap.rs:120-166 | after every run that spares the task table, the next store or trap is harmless if and only if it spares it too |
| Overwriting.OverwriteBreaksModes | crates/kernel/src/pmp.rs:302-303 | a failing run: one store into the table, and the next tick resumes a user task in machine mode |
| Overwriting.RelianceBreaksModes | crates/kernel/src/pmp.rs:302-303 | a failing run outside the table: one store to a byte the handlers rely on, and the next system call leaves the task in machine mode |
| Exposure.StoreSparesClockExactly | crates/kernel/src/timer.rs:12-21 | a permitted store leaves the clock alone in every outcome if and only if it hits neither the tick counter nor 0x0200_0000-0x0200_FFFF |
| Exposure.DeniedStoreIsLost | crates/kernel/src/pmp.rs:283-303 | a store that the PMP denies changes nothing |
| Exposure.FrameSparesRegistersExactly | crates/kernel/src/trap.rs:120-204 | a breakpoint gives the registers back in every outcome if and only if its frame hits no kernel byte, no CLINT register and no byte of the UART page |
| Exposure.FrameSparesOutputExactly | crates/kernel/src/trap.rs:120-166 | a write call sends the caller's byte in every outcome under exactly the same condition |
| Exposure.FrameSparesClockExactly | crates/kernel/src/trap.rs:231-243 | a tick is counted and rearmed in every outcome if and only if its frame hits no byte of the clock |
| Exposure.AnyCodeIsConceivable | crates/kernel/src/pmp.rs:311-314 | once the handlers are overwritten, every mode, register file and PMP state that any sequence of register writes leads to is an outcome of the next trap |
| Exposure.CanTrapInNumbers | crates/kernel/src/trap.rs:213-345 | by number of cause, exactly when the hart can take the trap |
| Discipline.DisciplinedRunSparesAll | crates/kernel/src/trap.rs:120-166 | if every context keeps its stack pointer in its own stack and its stores off the kernel's memory, the run spares every part of the kernel and every trap in it is handled |
| Allocator.AlignUpLeast | crates/kernel/src/allocator.rs:44-46 | the mask computes the least multiple of the alignment from the pointer on |
| Allocator.Candidate | crates/kernel/src/allocator.rs:43-47 | neither addition overflows 64 bits |
| Allocator.BumpAllocator.Init | crates/kernel/src/allocator.rs:30-34 | the pointer starts at the heap start |
| Allocator.BumpAllocator.Alloc | crates/kernel/src/allocator.rs:40-61 | an aligned block that ends at the new pointer, or null only when the request does not fit; terminates whatever other callers do; alone, exactly the first fit |
| Allocator.AllocatorSafety | crates/kernel/src/allocator.rs:40-61 | under every interleaving blocks are aligned, inside the heap and disjoint, and the pointer only grows |
| Allocator.EveryInterleaving | crates/kernel/src/allocator.rs:30-61 | from initialisation on, under every interleaving, the granted blocks are those of an allocator that serves the same requests one after the other: each at the first aligned address from the end of the one before, with the pointer at the end of the last; all of HeapOk holds, every caller keeps its request, and no more bytes are handed out than the pointer moved |
| Allocator.RunKeepsPacked | crates/kernel/src/allocator.rs:42-60 | every interleaving only appends blocks to that sequence |
| Allocator.CallAlone | crates/kernel/src/allocator.rs:42-60 | load and exchange without interference: the first aligned address if the block fits, null otherwise, and the pointer at the block's end or unmoved |
| Allocator.AllocTerminates | crates/kernel/src/allocator.rs:42-60 | a call returns after a bounded number of its own actions under any interference |
| Spawn.AllocTaskStack | crates/kernel/src/sched/task/spec.rs:76-84 | the stack is the next aligned block, and fails exactly when it does not fit |
| Spawn.StackIsEncodable | crates/kernel/src/sched/task/spec.rs:63-65 | a stack aligned as allocated never trips the builder's assertions |
| Spawn.BuildTable | crates/kernel/src/sched/task/spec.rs:63-69 | code at entry 4, stack at entry 5, MMIO after; fails exactly when a region is not encodable or there are too many |
| Spawn.SpawnTask | crates/kernel/src/sched/task/spec.rs:53-74 | allocation, table and registration together, and exactly when it panics |
| Spawn.TaskForIsFresh | crates/kernel/src/sched/task/spec.rs:53-74 | for every specification, in numbers: entry point, mode, stack of 8192 bytes above the allocation, sp at its top, other registers zero, regions with rights 5 and 3 |
| Spawn.FilledSlot | crates/kernel/src/sched/task/spec.rs:53-74 | such a task in slot k with the k-th stack, and free slots after the last |
| Spawn.SpawnAllOutcome | crates/kernel/src/sched/task/spec.rs:53-74 | a sequence of spawns succeeds if and only if every specification is valid and heap and table have room; then task k is in slot k with consecutive stacks |
| Spawn.StacksDisjoint | crates/kernel/src/sched/task/spec.rs:76-84 | the stack bounds in the control blocks of any two tasks are 8192 bytes apart, disjoint and inside the heap, and each sp is the top of its own |
| BootSequence.BootEstablishesInv | crates/kernel/src/main.rs:139-152 | the booted state satisfies the system invariant, for any spawned tasks after idle |
| BootSequence.BootSlots | crates/kernel/src/sched/scheduler.rs:30-41 | after boot every spawned task is Ready and otherwise as its specification says, in numbers, and the other slots are free |
| BootSequence.InitHeap | crates/kernel/src/main.rs:98-110 | the check allocation succeeds and leaves the pointer three bytes into the heap |
| BootSequence.KMain | crates/kernel/src/main.rs:154-179 | entered with interrupts off, the boot order panics nowhere, keeps them off until its last statement and ends in a booted state: four slots, no tick counted, the first one due 100,000 counts ahead |
| BootSequence.KernelTasks | crates/kernel/src/main.rs:112-137 | task by task: idle in machine mode without regions; echo and the faulting task with the user text page, their stacks, and the UART page for echo alone |
| BootSequence.EntriesInHardware | crates/kernel/src/sched/task/spec.rs:63-70 | in every state of every run that spares the task table in which a user task runs, the hardware reads entry 4 as its code (byte 0x1D), entry 5 as its allocated stack and entries from 6 on as its devices (byte 0x1B), and the rest are off |
| Startup.EveryTaskStarts | crates/kernel/src/sched/scheduler.rs:51-124 | in every run after boot with n-1 scheduler calls that spares table and frames, each spawned task but idle is dispatched, and then runs at its entry point, in its mode, with sp at the top of its own stack and every other register zero |
| Startup.FirstDispatchIsFresh | crates/kernel/src/sched/task.rs:74-161 | whenever a task is dispatched for the first time it starts so, idle included |
| Startup.FirstTick | crates/kernel/src/sched/scheduler.rs:51-54 | the first tick after boot starts the task in slot 1 |
| KernelRuns.TableChangesNothing | crates/kernel/src/sched/task/spec.rs:63-69 | for a user task with the user text page, a heap stack and at most the UART, the PMP table changes no decision |
| KernelRuns.UserRightsInEveryRun | crates/kernel/src/pmp.rs:283-305 | in every state of every run that spares the task table in which such a task runs, it may access exactly what entries 1-3 grant, the same for all tasks |
| KernelRuns.BootHoldsOrdinary | crates/kernel/src/sched/task/spec.rs:53-74 | boot gives every such task that table |
| KernelRuns.KernelSpecsAreFitting | crates/kernel/src/main.rs:112-137 | the tasks of `kmain` are such tasks and fit the heap |
| KernelRuns.HeapHoldsStacks | board/qemu-virt/linker.ld:12-80 | the linker sizes in numbers, and the heap holds n task stacks if and only if n is at most 2047 |
| KernelRuns.DisciplinedKernel | crates/kernel/src/main.rs:154-179 | from boot on, tasks that keep to their stacks and off the kernel's memory keep the invariant and lose no trap |

## Left out

- UART drivers, printing and `serial.rs`: device output; the UART is a byte waiting to be read and the bytes sent by system calls.
- `context_switch` and `do_context_switch_asm`: not on the executed switch path.
- `save_current_config` and `dump_config`: debugging aids.
- User task bodies, `_start`, `clear_bss` and secondary harts: user execution is an arbitrary change of registers and pc, and arbitrary stores.
- Memory other than the trap frame and the kernel's own: task memory is not part of the state, and a user store into it changes nothing here.
- The bytes of the task table one by one: an overwrite may leave any table, although a byte of a field that nothing reads cannot do harm.
- What user mode can read: it may read the task table and other tasks' memory, which is part of a task's arbitrary execution here.
- What a nested fault in the vector does after the first denied store: the system halts there, although the hart goes on faulting or reaches the panic.
- Accesses that straddle entries: the access decision is per byte.
- `mie`, `mtvec` and `mtval`: the timer interrupt is taken as enabled and the vector as installed after boot, and the fault address is only printed.
- Builds with overflow checks: there `mepc + 4` at the top of the address space panics; here it wraps.
- Compressed breakpoints: a breakpoint advances by four, as in the code.
- Timer.Clint.SetTimerUs: time is unbounded, so the 64-bit wrap of mtime is not modelled.
- Timer.Clint.IncrementTick: the 64-bit wrap of the tick counter is not modelled.
- Allocator.BumpAllocator.Alloc: interference is given per round as the values other callers move the pointer to; the calls themselves interleave step by step in `Allocator.AllocatorSafety`.
- The test crates, build files and container: not kernel code.
