/**
 The premises of the results about time and about registers are exact too. A store changes the
 clock, and a trap frame changes registers, output or clock, in some outcome if and only if it
 hits the bytes named here, which for the devices are given as addresses. A trap whose handlers
 were overwritten can end in every state that machine-mode code can reach.
 */
module Exposure {
  import opened Bits
  import opened PmpHardware
  import opened Registers
  import opened Policy
  import opened Timer
  import opened System

  /** A byte the clock depends on: the tick counter's or the interrupt controller's. */
  predicate TimeByte(h: Home, y: nat) {
    h.ticks.lo <= y < h.ticks.hi || 0x0200_0000 <= y < 0x0201_0000
  }

  /** A byte that is neither the kernel's nor a device's. */
  predicate PlainByte(h: Home, y: nat) {
    && !(h.table.lo <= y < h.table.hi) && !(h.relied.lo <= y < h.relied.hi)
    && !TimeByte(h, y) && !(0x1000_0000 <= y < 0x1000_1000)
  }

  /** All bytes a trap writes below the stack pointer are plain. */
  predicate PlainFrame(s: Sys) {
    forall d: nat :: 8 < d <= s.home.depth ==> PlainByte(s.home, Below(s.gprs.sp, d))
  }

  lemma PlainFrameIsMemory(s: Sys)
    ensures PlainFrame(s) <==> FrameIsMemory(s)
  {
    forall d: nat | 8 < d <= s.home.depth && FrameIsMemory(s)
      ensures PlainByte(s.home, Below(s.gprs.sp, d))
    {
      var y := Below(s.gprs.sp, d);
      assert !In(y, s.home.table) && !In(y, s.home.relied) && !In(y, s.home.ticks) && !In(y, CLINT) && !In(y, UART);
    }
    assert PlainFrame(s) ==> FrameIsMemory(s) by {
      assert forall y: nat :: PlainByte(s.home, y) ==>
        !In(y, s.home.table) && !In(y, s.home.relied) && !In(y, s.home.ticks) && !In(y, CLINT) && !In(y, UART);
    }
  }

  /** An outcome that changes nothing but what the arguments say. */
  function Leaving(s: Sys, clock: Clock, frame: Gprs, resumed: Gprs): Damage {
    Damage(s.sched, s.sched, clock, frame, resumed, s)
  }

  /** Registers other than the given ones. */
  function Other(g: Gprs): (r: Gprs)
    ensures r != g
  {
    g.(ra := if g.ra == 0 then 1 else 0)
  }

  // --- Stores ---

  /** What the PMP denies has no effect, and neither has a store outside user mode. */
  lemma DeniedStoreIsLost(s: Sys, addr: nat, damage: Damage)
    requires Ok(s) && (s.mode == M || !Allows(s.pmp, U, addr, Write))
    ensures Step(s, Store(addr, damage)) == s
  {
  }

  /** A permitted store leaves the clock alone, whatever it writes, exactly when it hits no byte of it. */
  lemma StoreSparesClockExactly(s: Sys, addr: nat)
    requires Ok(s) && !s.halted && s.mode == U && Allows(s.pmp, U, addr, Write)
    ensures (forall damage: Damage :: Step(s, Store(addr, damage)).clock == s.clock) <==> !TimeByte(s.home, addr)
  {
    if TimeByte(s.home, addr) {
      var damage := Leaving(s, s.clock.(ticks := s.clock.ticks + 1), s.gprs, s.gprs);
      assert Step(s, Store(addr, damage)).clock != s.clock;
    }
  }

  // --- Trap frames ---

  /** Whatever the trap overwrites, the registers after this trap are those before it. */
  ghost predicate KeepsRegisters(s: Sys, mcause: u64)
    requires Ok(s)
  {
    forall damage: Damage :: Step(s, TakeTrap(mcause, None, damage)).gprs == s.gprs
  }

  /** A breakpoint gives the registers back in every outcome exactly when its frame is plain. */
  lemma FrameSparesRegistersExactly(s: Sys)
    requires Ok(s) && !s.halted && FrameWritable(s) && !Hijacked(s)
    ensures KeepsRegisters(s, 3) <==> PlainFrame(s)
  {
    PlainFrameIsMemory(s);
    if !FrameIsMemory(s) {
      var damage := Leaving(s, s.clock, s.gprs, Other(s.gprs));
      assert Step(s, TakeTrap(3, None, damage)).gprs == Other(s.gprs);
    }
  }

  /** Whatever the trap overwrites, this write call sends the byte in a0. */
  ghost predicate SendsItsByte(s: Sys)
    requires Ok(s)
  {
    forall damage: Damage :: Enabled(s, TakeTrap(8, None, damage)) ==>
      Step(s, TakeTrap(8, None, damage)).output == s.output + [s.gprs.a0 % 256]
  }

  /** A write call sends the caller's byte in every outcome exactly when its frame is plain. */
  lemma FrameSparesOutputExactly(s: Sys)
    requires Ok(s) && !s.halted && s.mode == U && FrameWritable(s) && !Hijacked(s) && s.gprs.a7 == 1
    ensures SendsItsByte(s) <==> PlainFrame(s)
  {
    PlainFrameIsMemory(s);
    if !FrameIsMemory(s) {
      var damage := Leaving(s, s.clock, s.gprs.(a7 := 2), s.gprs);
      assert Enabled(s, TakeTrap(8, None, damage));
      assert Step(s, TakeTrap(8, None, damage)).output == s.output;
      assert |s.output| != |s.output + [s.gprs.a0 % 256]|;
    }
  }

  /** Whatever the trap overwrites, this tick is counted and the next one armed. */
  ghost predicate CountsTheTick(s: Sys)
    requires Ok(s)
  {
    forall damage: Damage :: Enabled(s, TakeTrap(0x8000_0000_0000_0007, None, damage)) ==>
      Step(s, TakeTrap(0x8000_0000_0000_0007, None, damage)).clock ==
      Clock(s.clock.mtime, s.clock.mtime + 100_000, s.clock.ticks + 1)
  }

  /** A tick is counted in every outcome exactly when its frame hits no byte of the clock. */
  lemma FrameSparesClockExactly(s: Sys)
    requires Ok(s) && !s.halted && (s.mode == U || s.mstatus.mie) && s.clock.mtime >= s.clock.mtimecmp
    requires FrameWritable(s) && !Hijacked(s)
    ensures CountsTheTick(s) <==> forall d: nat :: 8 < d <= s.home.depth ==> !TimeByte(s.home, Below(s.gprs.sp, d))
  {
    if d: nat :| 8 < d <= s.home.depth && TimeByte(s.home, Below(s.gprs.sp, d)) {
      assert In(Below(s.gprs.sp, d), s.home.ticks) || In(Below(s.gprs.sp, d), CLINT);
      var damage := Leaving(s, s.clock, s.gprs, s.gprs);
      assert Enabled(s, TakeTrap(0x8000_0000_0000_0007, None, damage));
      assert Step(s, TakeTrap(0x8000_0000_0000_0007, None, damage)).clock == s.clock;
    } else {
      assert !FrameHitsClock(s);
    }
  }

  // --- Overwritten handlers ---

  /** Everything that register writes of machine-mode code can lead to is an outcome of such a trap. */
  lemma AnyCodeIsConceivable(s: Sys, mcause: u64, ws: seq<CsrWrite>, mode: Mode, gprs: Gprs, pc: u64)
    requires Ok(s) && !s.halted && CanTrap(s, mcause) && Hijacked(s)
    ensures var after := s.(pmp := AllWritten(s.pmp, ws), mode := mode, gprs := gprs, pc := pc, intact := false);
            Step(s, TakeTrap(mcause, None, Damage(s.sched, s.sched, s.clock, gprs, gprs, after))) == after
  {
    LocksOutliveAnyCode(s.pmp, ws);
  }

  // --- Which traps can be taken ---

  /**
   In numbers: interrupts are masked by a clear MIE in machine mode only, and the timer's waits
   for the comparator; calls come from the mode of their cause, and supervisor calls from none;
   every other exception can happen at any time.
   */
  lemma CanTrapInNumbers(s: Sys, mcause: u64)
    ensures mcause == 0x8000_0000_0000_0007 ==>
            (CanTrap(s, mcause) <==> (s.mode == M ==> s.mstatus.mie) && s.clock.mtimecmp <= s.clock.mtime)
    ensures mcause >= 0x8000_0000_0000_0000 && mcause != 0x8000_0000_0000_0007 ==>
            (CanTrap(s, mcause) <==> (s.mode == M ==> s.mstatus.mie))
    ensures CanTrap(s, 8) <==> s.mode == U
    ensures CanTrap(s, 11) <==> s.mode == M
    ensures !CanTrap(s, 9)
    ensures mcause < 0x8000_0000_0000_0000 && mcause !in {8, 9, 11} ==> CanTrap(s, mcause)
  {
  }
}
