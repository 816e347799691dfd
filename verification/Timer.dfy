/**
 The CLINT timer driver (crates/kernel/src/timer.rs). Time is unbounded here.
 */
module Timer {
  import opened Bits

  const TIMER_FREQ_HZ: nat := 10_000_000
  const TICK_INTERVAL_US: u64 := 10_000

  /** Timer counts per scheduling tick. */
  const TICK: nat := 100_000

  datatype Clock = Clock(mtime: nat, mtimecmp: nat, ticks: nat)

  /** `us_to_ticks`: ten counts to the microsecond, as long as the 64-bit product does not wrap. */
  function UsToTicks(us: u64): (t: u64)
    ensures us * TIMER_FREQ_HZ < TWO_64 ==> t == 10 * us
  {
    us * TIMER_FREQ_HZ % TWO_64 / 1_000_000
  }

  /** The clock after a timer interrupt was handled: one tick counted, the next one armed. */
  function Ticked(c: Clock): Clock {
    Clock(c.mtime, c.mtime + TICK, c.ticks + 1)
  }

  class Clint {
    var mtime: nat
    var mtimecmp: nat
    var ticks: nat

    function Value(): Clock
      reads this
    {
      Clock(mtime, mtimecmp, ticks)
    }

    method SetTimerUs(delta: u64)
      modifies this`mtimecmp
      ensures mtimecmp == mtime + UsToTicks(delta)
    {
      var current := mtime;
      mtimecmp := current + UsToTicks(delta);
    }

    /** `schedule_next_tick`. */
    method ScheduleNextTick()
      modifies this`mtimecmp
      ensures mtimecmp == mtime + TICK
    {
      SetTimerUs(TICK_INTERVAL_US);
    }

    /** `increment_tick`. */
    method IncrementTick()
      modifies this`ticks
      ensures ticks == old(ticks) + 1
    {
      ticks := ticks + 1;
    }

    /** `init`: disarm, then arm the first tick. */
    method Init()
      modifies this`mtimecmp
      ensures mtimecmp == mtime + TICK
    {
      mtimecmp := 0xFFFF_FFFF_FFFF_FFFF;
      SetTimerUs(TICK_INTERVAL_US);
    }
  }
}
