/**
 The trap handlers (crates/kernel/src/trap.rs): dispatch on mcause, system calls, access
 faults and the timer interrupt, as functions on the kernel's state and as the code proved
 against them.
 */
module Trap {
  import opened Bits
  import opened PmpHardware
  import opened Hart
  import opened Pmp
  import opened Policy
  import opened Scheduler
  import opened Timer

  const SYS_GETC: u64 := 0
  const SYS_PUTC: u64 := 1

  /** Bit 63 of mcause. */
  const INTERRUPT: u64 := 0x8000_0000_0000_0000

  const MACHINE_TIMER: nat := 7
  const ECALL_FROM_U: nat := 8

  /** Everything a handler can touch. `output` is what was sent to the UART by system calls. */
  datatype Kernel = Kernel(cpu: Cpu, sched: SchedState, clock: Clock, output: seq<nat>)

  predicate KernelOk(k: Kernel) {
    WellFormed(k.cpu.pmp) && InTable(k.sched)
  }

  /** A handler returns, or panics and never does. */
  datatype Outcome = Panic | Return(kernel: Kernel)

  /** `mepc + 4`, wrapping. */
  function Plus4(a: u64): (r: u64)
    ensures r == (a + 4) % TWO_64
  {
    if a + 4 < TWO_64 then a + 4 else a + 4 - TWO_64
  }

  function Advance(k: Kernel): Kernel {
    k.(cpu := k.cpu.(mepc := Plus4(k.cpu.mepc)))
  }

  /** `handle_syscall`: `rx` is the byte waiting in the UART, if any. */
  function Syscall(k: Kernel, rx: Option<nat>): Kernel {
    var f := k.cpu.frame;
    if f.a7 == SYS_GETC then
      var byte := if rx.Some? then rx.value % 256 else 0xFF;
      k.(cpu := k.cpu.(frame := f.(a0 := byte)))
    else if f.a7 == SYS_PUTC then k.(output := k.output + [f.a0 % 256])
    else k
  }

  /** `schedule`, on the whole kernel. */
  function Reschedule(k: Kernel): Kernel
    requires KernelOk(k)
  {
    k.(cpu := ScheduleCpu(k.sched, k.cpu), sched := ScheduleState(k.sched, k.cpu))
  }

  /** `handle_access_fault`. */
  function AccessFault(k: Kernel): Outcome
    requires KernelOk(k)
  {
    if k.cpu.mstatus.mpp == U then Return(Reschedule(k.(sched := MarkDead(k.sched)))) else Panic
  }

  /** `handle_exception`. */
  function Exception(k: Kernel, cause: nat, rx: Option<nat>): Outcome
    requires KernelOk(k)
  {
    if cause == 1 || cause == 5 || cause == 7 then AccessFault(k)
    else if cause == 3 || cause == 9 || cause == 11 then Return(Advance(k))
    else if cause == ECALL_FROM_U then Return(Advance(Syscall(k, rx)))
    else Panic
  }

  /** `handle_interrupt`. */
  function Interrupt(k: Kernel, cause: nat): Kernel
    requires KernelOk(k)
  {
    if cause == MACHINE_TIMER then Reschedule(k.(clock := Ticked(k.clock))) else k
  }

  /** `trap_handler`. */
  function Handle(k: Kernel, mcause: u64, rx: Option<nat>): Outcome
    requires KernelOk(k)
  {
    if mcause >= INTERRUPT then Return(Interrupt(k, mcause - INTERRUPT)) else Exception(k, mcause, rx)
  }

  /** Causes the handlers survive in either mode: services, breakpoints and interrupts. */
  predicate Survivable(mcause: u64) {
    mcause >= INTERRUPT || mcause == 3 || mcause == ECALL_FROM_U || mcause == 9 || mcause == 11
  }

  predicate IsAccessFault(mcause: u64) {
    mcause == 1 || mcause == 5 || mcause == 7
  }

  /** Do the handlers return from a trap with this cause taken in this mode? */
  predicate Returns(mode: Mode, mcause: u64) {
    Survivable(mcause) || (IsAccessFault(mcause) && mode == U)
  }

  lemma HandleReturns(k: Kernel, mcause: u64, rx: Option<nat>)
    requires KernelOk(k)
    ensures Handle(k, mcause, rx).Return? <==> Returns(k.cpu.mstatus.mpp, mcause)
  {
  }

  /** The handlers at the cause and system call numbers of the architecture and the kernel's interface. */
  lemma HandleInNumbers(k: Kernel, mcause: u64, rx: Option<nat>)
    requires KernelOk(k)
    ensures mcause == 0x8000_0000_0000_0007 ==>
            Handle(k, mcause, rx) == Return(Reschedule(k.(clock := Clock(k.clock.mtime, k.clock.mtime + 100_000,
                                                                         k.clock.ticks + 1))))
    ensures mcause >= 0x8000_0000_0000_0000 && mcause != 0x8000_0000_0000_0007 ==> Handle(k, mcause, rx) == Return(k)
    ensures mcause == 3 || mcause == 8 || mcause == 9 || mcause == 11 ==>
            && Handle(k, mcause, rx).Return?
            && var r := Handle(k, mcause, rx).kernel;
               && r.cpu.mepc == (k.cpu.mepc + 4) % TWO_64
               && r.cpu.mstatus == k.cpu.mstatus && r.cpu.pmp == k.cpu.pmp && r.sched == k.sched && r.clock == k.clock
               && (mcause == 8 && k.cpu.frame.a7 == 0 ==>
                     && r.cpu.frame == k.cpu.frame.(a0 := if rx.Some? then rx.value % 256 else 255)
                     && r.output == k.output)
               && (mcause == 8 && k.cpu.frame.a7 == 1 ==>
                     r.cpu.frame == k.cpu.frame && r.output == k.output + [k.cpu.frame.a0 % 256])
               && (mcause != 8 || k.cpu.frame.a7 > 1 ==> r.cpu.frame == k.cpu.frame && r.output == k.output)
    ensures (mcause == 1 || mcause == 5 || mcause == 7) && k.cpu.mstatus.mpp == U ==>
            Handle(k, mcause, rx) == Return(Reschedule(k.(sched := MarkDead(k.sched))))
    ensures (mcause == 1 || mcause == 5 || mcause == 7) && k.cpu.mstatus.mpp == M ==> Handle(k, mcause, rx).Panic?
    ensures mcause in {0, 2, 4, 6, 10} || 12 <= mcause < 0x8000_0000_0000_0000 ==> Handle(k, mcause, rx).Panic?
  {
  }

  // --- The code ---

  class Uart {
    /** The byte waiting to be read, if any. */
    var rx: Option<nat>
    var output: seq<nat>
  }

  class TrapHandlers {
    const frame: TrapFrame
    const csrs: Csrs
    const pmp: PmpUnit
    const sched: Scheduler
    const clint: Clint
    const uart: Uart

    constructor (frame: TrapFrame, csrs: Csrs, pmp: PmpUnit, sched: Scheduler, clint: Clint, uart: Uart)
      ensures this.frame == frame && this.csrs == csrs && this.pmp == pmp
      ensures this.sched == sched && this.clint == clint && this.uart == uart
    {
      this.frame, this.csrs, this.pmp := frame, csrs, pmp;
      this.sched, this.clint, this.uart := sched, clint, uart;
    }

    function Value(): Kernel
      reads frame, csrs, pmp, sched, clint, uart
    {
      Kernel(Cpu(frame.gprs, csrs.mepc, csrs.mstatus, pmp.regs), sched.State(), clint.Value(), uart.output)
    }

    ghost predicate Valid()
      reads frame, csrs, pmp, sched, clint, uart
    {
      KernelOk(Value())
    }

    /** A read system call takes the waiting byte; the other calls leave it. */
    method HandleSyscall()
      requires Valid()
      modifies frame, uart
      ensures Value() == Syscall(old(Value()), old(uart.rx))
      ensures uart.rx == if old(frame.gprs.a7) == SYS_GETC then None else old(uart.rx)
    {
      if frame.gprs.a7 == SYS_GETC {
        frame.gprs := frame.gprs.(a0 := if uart.rx.Some? then uart.rx.value % 256 else 0xFF);
        uart.rx := None;
      } else if frame.gprs.a7 == SYS_PUTC {
        uart.output := uart.output + [frame.gprs.a0 % 256];
      }
    }

    method HandleAccessFault() returns (panicked: bool)
      requires Valid()
      modifies frame, csrs, pmp, sched
      ensures panicked <==> AccessFault(old(Value())).Panic?
      ensures !panicked ==> Valid() && Value() == AccessFault(old(Value())).kernel
    {
      if csrs.mstatus.mpp == U {
        sched.KillCurrent(frame, csrs, pmp);
        return false;
      } else {
        return true;
      }
    }

    method HandleException(cause: nat) returns (panicked: bool)
      requires Valid()
      modifies frame, csrs, pmp, sched, uart
      ensures panicked <==> Exception(old(Value()), cause, old(uart.rx)).Panic?
      ensures !panicked ==> Valid() && Value() == Exception(old(Value()), cause, old(uart.rx)).kernel
      ensures uart.rx == if cause == ECALL_FROM_U && old(frame.gprs.a7) == SYS_GETC then None else old(uart.rx)
    {
      var mepc := csrs.mepc;
      match cause {
        case 1 =>
          panicked := HandleAccessFault();
        case 3 =>
          csrs.mepc := Plus4(mepc);
          panicked := false;
        case 5 =>
          panicked := HandleAccessFault();
        case 7 =>
          panicked := HandleAccessFault();
        case 8 =>
          HandleSyscall();
          csrs.mepc := Plus4(mepc);
          panicked := false;
        case 9 =>
          csrs.mepc := Plus4(mepc);
          panicked := false;
        case 11 =>
          csrs.mepc := Plus4(mepc);
          panicked := false;
        case _ =>
          panicked := true;
      }
    }

    method HandleInterrupt(cause: nat)
      requires Valid()
      modifies frame, csrs, pmp, sched, clint
      ensures Valid() && Value() == Interrupt(old(Value()), cause)
    {
      if cause == MACHINE_TIMER {
        clint.IncrementTick();
        clint.ScheduleNextTick();
        sched.Schedule(frame, csrs, pmp);
      }
    }

    method TrapHandler() returns (panicked: bool)
      requires Valid()
      modifies frame, csrs, pmp, sched, clint, uart
      ensures panicked <==> Handle(old(Value()), old(csrs.mcause), old(uart.rx)).Panic?
      ensures !panicked ==> Valid() && Value() == Handle(old(Value()), old(csrs.mcause), old(uart.rx)).kernel
      ensures uart.rx ==
              if old(csrs.mcause) == ECALL_FROM_U && old(frame.gprs.a7) == SYS_GETC then None else old(uart.rx)
    {
      var mcause := csrs.mcause;
      var isInterrupt := mcause / INTERRUPT % 2 == 1;
      var causeCode := mcause % INTERRUPT;
      if isInterrupt {
        HandleInterrupt(causeCode);
        panicked := false;
      } else {
        panicked := HandleException(causeCode);
      }
    }
  }
}
