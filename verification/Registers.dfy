/**
 The 31 general-purpose registers as the kernel stores them: the fields of `TrapFrame`
 (crates/kernel/src/trap.rs) in memory order, which are also the first fields of `TaskContext`.
 */
module Registers {
  import opened Bits

  datatype Gprs = Gprs(
    ra: u64, t0: u64, t1: u64, t2: u64, t3: u64, t4: u64, t5: u64, t6: u64,
    a0: u64, a1: u64, a2: u64, a3: u64, a4: u64, a5: u64, a6: u64, a7: u64,
    s0: u64, s1: u64, s2: u64, s3: u64, s4: u64, s5: u64, s6: u64, s7: u64,
    s8: u64, s9: u64, s10: u64, s11: u64, gp: u64, tp: u64, sp: u64)

  const ZERO_GPRS: Gprs := Gprs(0, 0, 0, 0, 0, 0, 0, 0, 0, 0, 0, 0, 0, 0, 0, 0,
                                0, 0, 0, 0, 0, 0, 0, 0, 0, 0, 0, 0, 0, 0, 0)

  /** The registers in frame order: slot `k` is at byte offset `8 * k`. */
  function SlotsOf(g: Gprs): (s: seq<u64>)
    ensures |s| == 31
  {
    [g.ra, g.t0, g.t1, g.t2, g.t3, g.t4, g.t5, g.t6,
     g.a0, g.a1, g.a2, g.a3, g.a4, g.a5, g.a6, g.a7,
     g.s0, g.s1, g.s2, g.s3, g.s4, g.s5, g.s6, g.s7,
     g.s8, g.s9, g.s10, g.s11, g.gp, g.tp, g.sp]
  }

  function FromSlots(s: seq<u64>): Gprs
    requires |s| == 31
  {
    Gprs(s[0], s[1], s[2], s[3], s[4], s[5], s[6], s[7],
         s[8], s[9], s[10], s[11], s[12], s[13], s[14], s[15],
         s[16], s[17], s[18], s[19], s[20], s[21], s[22], s[23],
         s[24], s[25], s[26], s[27], s[28], s[29], s[30])
  }

  /** Every register is zero but the stack pointer. */
  predicate OnlySp(g: Gprs, sp: u64) {
    g.sp == sp && forall k :: 0 <= k < 30 ==> SlotsOf(g)[k] == 0
  }

  lemma SlotsRoundTrip(g: Gprs)
    ensures FromSlots(SlotsOf(g)) == g
  {
  }

  /** `copy_gpr_fields!`: the 31 assignments, in the order of the macro. */
  method CopyGprFields(src: Gprs, dst: Gprs) returns (r: Gprs)
    ensures r == src
  {
    r := dst;
    r := r.(ra := src.ra);
    r := r.(t0 := src.t0);
    r := r.(t1 := src.t1);
    r := r.(t2 := src.t2);
    r := r.(t3 := src.t3);
    r := r.(t4 := src.t4);
    r := r.(t5 := src.t5);
    r := r.(t6 := src.t6);
    r := r.(a0 := src.a0);
    r := r.(a1 := src.a1);
    r := r.(a2 := src.a2);
    r := r.(a3 := src.a3);
    r := r.(a4 := src.a4);
    r := r.(a5 := src.a5);
    r := r.(a6 := src.a6);
    r := r.(a7 := src.a7);
    r := r.(s0 := src.s0);
    r := r.(s1 := src.s1);
    r := r.(s2 := src.s2);
    r := r.(s3 := src.s3);
    r := r.(s4 := src.s4);
    r := r.(s5 := src.s5);
    r := r.(s6 := src.s6);
    r := r.(s7 := src.s7);
    r := r.(s8 := src.s8);
    r := r.(s9 := src.s9);
    r := r.(s10 := src.s10);
    r := r.(s11 := src.s11);
    r := r.(gp := src.gp);
    r := r.(tp := src.tp);
    r := r.(sp := src.sp);
  }
}
