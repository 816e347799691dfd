/**
 The kernel's PMP driver (crates/kernel/src/pmp.rs): the register-level routines as methods of
 the unit they program, each against a function giving the registers it leaves, and what those
 functions keep over every sequence of calls.
 */
module Pmp {
  import opened Bits
  import opened CfgWord
  import opened PmpHardware
  import Napot

  /** A region descriptor. */
  datatype Region = Region(base: u64, size: u64, flags: bv8)

  const EMPTY: Region := Region(0, 0, 0)

  const UART_BASE: u64 := 0x1000_0000
  const UART_SIZE: u64 := 0x1000

  /** The linker symbols the kernel entries are made from. */
  datatype Layout = Layout(stext: u64, userTextEnd: u64, eheap: u64)

  /** What the linker script guarantees: ascending page-aligned physical addresses. */
  predicate LayoutOk(lay: Layout) {
    && 0 < lay.stext <= lay.userTextEnd <= lay.eheap <= PHYS_LIMIT - 4
    && lay.stext % 4096 == 0 && lay.userTextEnd % 4096 == 0 && lay.eheap % 4096 == 0
  }

  // --- Register values ---

  /** The entry a table gives for index `i`; a short table is padded with empty entries. */
  function RegionAt(regions: seq<Region>, i: nat): Region {
    if i < |regions| then regions[i] else EMPTY
  }

  /** Configuration byte for a task region. */
  function RawCfg(r: Region): bv8 {
    if r.size == 0 then 0 else r.flags | A_NAPOT
  }

  /** Address register value for a task region, before truncation by the hardware. */
  function RawAddr(r: Region): u64 {
    if r.size == 0 then 0 else Napot.Encode(r.base, r.size)
  }

  function EncCfg(r: Region): bv8 {
    Legal(RawCfg(r))
  }

  function EncAddr(r: Region): nat {
    RawAddr(r) % ADDR_LIMIT
  }

  /** The registers after a load: entries 0-3 and frozen registers kept, the rest encode the table. */
  function Installed(p: Regs, regions: seq<Region>): Regs
    requires WellFormed(p)
  {
    Regs(seq(PMP_COUNT, i requires 0 <= i < PMP_COUNT =>
           if i < 4 || Locked(p.cfg[i]) then p.cfg[i] else EncCfg(RegionAt(regions, i))),
         seq(PMP_COUNT, i requires 0 <= i < PMP_COUNT =>
           if i < 4 || AddrFrozen(p, i) then p.addr[i] else EncAddr(RegionAt(regions, i))))
  }

  /** The registers after `clear_all`: whatever is not frozen becomes zero. */
  function Cleared(p: Regs): Regs
    requires WellFormed(p)
  {
    Regs(seq(PMP_COUNT, i requires 0 <= i < PMP_COUNT => if Locked(p.cfg[i]) then p.cfg[i] else 0),
         seq(PMP_COUNT, i requires 0 <= i < PMP_COUNT => if AddrFrozen(p, i) then p.addr[i] else 0))
  }

  /** One configuration byte replaced, unless its entry is locked. */
  function WithCfg(p: Regs, i: nat, b: bv8): Regs
    requires WellFormed(p) && i < PMP_COUNT
  {
    if Locked(p.cfg[i]) then p else p.(cfg := p.cfg[i := Legal(b)])
  }

  /**
   In register state `q`, met while `before` is being replaced by `after`, the kernel entries
   are `before`'s and every task entry is off, or has configuration and address of `before`, or
   configuration and address of `after`.
   */
  predicate Unmixed(before: Regs, after: Regs, q: Regs)
    requires WellFormed(before) && WellFormed(after)
  {
    && WellFormed(q)
    && (forall i :: 0 <= i < 4 ==> q.cfg[i] == before.cfg[i] && q.addr[i] == before.addr[i])
    && forall i :: 4 <= i < PMP_COUNT ==>
         || q.cfg[i] & A_MASK == A_OFF
         || (q.cfg[i] == before.cfg[i] && q.addr[i] == before.addr[i])
         || (q.cfg[i] == after.cfg[i] && q.addr[i] == after.addr[i])
  }

  // --- Bit facts about configuration bytes ---

  lemma EncCfgBits(r: Region)
    ensures Legal(EncCfg(r)) == EncCfg(r)
    ensures r.size != 0 ==> EncCfg(r) & A_MASK == A_NAPOT
    ensures r.size == 0 ==> EncCfg(r) == 0 && EncCfg(r) & A_MASK == A_OFF
    ensures r.flags & L == 0 ==> !Locked(EncCfg(r))
    ensures r.size != 0 ==> forall k :: Permits(EncCfg(r), k) <==> Permits(r.flags, k)
  {
  }

  lemma InstalledWellFormed(p: Regs, regions: seq<Region>)
    requires WellFormed(p)
    ensures WellFormed(Installed(p, regions))
  {
  }

  // --- Single register writes ---

  /** One write of a PMP register leads from `p` to `q`. */
  ghost predicate OneWrite(p: Regs, q: Regs)
    requires WellFormed(p)
  {
    exists w: CsrWrite :: Written(p, w) == q
  }

  /** Entry `k` of the log is one write after the entry before it, or after `before` if it is entry `n`. */
  ghost predicate WriteAt(before: Regs, log: seq<Regs>, n: nat, k: nat)
    requires n <= k < |log|
  {
    var from := if k == n then before else log[k - 1];
    WellFormed(from) && WellFormed(log[k]) && OneWrite(from, log[k])
  }

  /** From entry `n` on, the log holds every state on the way from `before` to `now`, one write apart. */
  ghost predicate Traced(before: Regs, log: seq<Regs>, n: nat, now: Regs) {
    && n <= |log|
    && (forall k :: n <= k < |log| ==> WriteAt(before, log, n, k))
    && now == if |log| == n then before else log[|log| - 1]
  }

  lemma CfgWriteIsTraced(p: Regs, base: nat, bytes: seq<bv8>, log: seq<Regs>)
    requires WellFormed(p) && (base == 0 || base == 8) && |bytes| == 8
    ensures Traced(p, log + [WriteCfg(p, base, bytes)], |log|, WriteCfg(p, base, bytes))
  {
    assert Written(p, CfgWrite(base == 8, bytes)) == WriteCfg(p, base, bytes);
    assert WriteAt(p, log + [WriteCfg(p, base, bytes)], |log|, |log|);
  }

  lemma AddrWriteIsTraced(p: Regs, i: nat, v: u64, log: seq<Regs>)
    requires WellFormed(p) && i < PMP_COUNT
    ensures Traced(p, log + [WriteAddr(p, i, v)], |log|, WriteAddr(p, i, v))
  {
    assert Written(p, AddrWrite(i, v)) == WriteAddr(p, i, v);
    assert WriteAt(p, log + [WriteAddr(p, i, v)], |log|, |log|);
  }

  lemma TracedOn(before: Regs, log: seq<Regs>, n: nat, mid: Regs, more: seq<Regs>, now: Regs)
    requires Traced(before, log, n, mid) && log <= more && Traced(mid, more, |log|, now)
    ensures Traced(before, more, n, now)
  {
    forall k | n <= k < |more|
      ensures WriteAt(before, more, n, k)
    {
      if k < |log| {
        assert WriteAt(before, log, n, k);
      } else {
        assert WriteAt(mid, more, |log|, k);
      }
    }
  }

  // --- The driver ---

  class PmpUnit {
    var regs: Regs
    /** The register states this driver has led the unit through, one for each CSR it wrote. */
    ghost var log: seq<Regs>

    method ReadCfgWord(base: nat) returns (w: Word)
      requires WellFormed(regs) && (base == 0 || base == 8)
      ensures w == ReadCfg(regs, base) && Bytes(w) == regs.cfg[base..base + 8]
    {
      w := ReadCfg(regs, base);
      BytesFromBytes(regs.cfg[base..base + 8]);
    }

    method WriteCfgWord(base: nat, w: Word)
      requires WellFormed(regs) && (base == 0 || base == 8)
      modifies this
      ensures regs == WriteCfg(old(regs), base, Bytes(w)) && WellFormed(regs)
      ensures log == old(log) + [regs] && Traced(old(regs), log, |old(log)|, regs)
    {
      CfgWriteIsTraced(regs, base, Bytes(w), log);
      regs := WriteCfg(regs, base, Bytes(w));
      log := log + [regs];
    }

    method WritePmpAddr(i: nat, v: u64)
      requires WellFormed(regs) && i < PMP_COUNT
      modifies this
      ensures regs == WriteAddr(old(regs), i, v) && WellFormed(regs)
      ensures log == old(log) + [regs] && Traced(old(regs), log, |old(log)|, regs)
    {
      AddrWriteIsTraced(regs, i, v, log);
      regs := WriteAddr(regs, i, v);
      log := log + [regs];
    }

    /** `set_pmpcfg`: read, mask, or and write back one configuration byte. */
    method SetPmpCfg(idx: nat, cfg: bv8)
      requires WellFormed(regs) && idx < PMP_COUNT
      modifies this
      ensures regs == WithCfg(old(regs), idx, cfg) && WellFormed(regs)
    {
      var base := if idx < 8 then 0 else 8;
      var mask := WordNot(Shifted(0xFF, idx % 8));
      var val := Shifted(cfg, idx % 8);
      var current := ReadCfgWord(base);
      ReplaceByte(current, cfg, idx % 8);
      ByteWritten(regs, idx, cfg);
      WriteCfgWord(base, WordOr(WordAnd(current, mask), val));
    }

    /** `configure_region`: validates, then programs one NAPOT entry. */
    method ConfigureRegion(idx: nat, region: Region) returns (ok: bool)
      requires WellFormed(regs)
      modifies this
      ensures WellFormed(regs)
      ensures ok <==> idx < PMP_COUNT && Napot.Encodable(region.base, region.size)
      ensures !ok ==> regs == old(regs)
      ensures ok ==> regs == WithCfg(WriteAddr(old(regs), idx, Napot.Encode(region.base, region.size)),
                                     idx, region.flags | A_NAPOT)
    {
      if idx >= PMP_COUNT {
        return false;
      }
      if !IsPowerOfTwo(region.size) || region.size < 8 {
        return false;
      }
      if Bits.And(region.base, region.size - 1) != 0 {
        return false;
      }
      WritePmpAddr(idx, Napot.Encode(region.base, region.size));
      SetPmpCfg(idx, region.flags | A_NAPOT);
      return true;
    }

    /** `clear_all`. */
    method ClearAll()
      requires WellFormed(regs)
      modifies this
      ensures regs == Cleared(old(regs)) && WellFormed(regs)
    {
      ZeroBytes();
      WriteCfgWord(0, ZERO);
      WriteCfgWord(8, ZERO);
      ghost var cfg := Cleared(old(regs)).cfg;
      assert regs.cfg == cfg by {
        assert Legal(0) == 0;
      }
      for i := 0 to PMP_COUNT
        invariant WellFormed(regs) && regs.cfg == cfg
        invariant forall j :: 0 <= j < PMP_COUNT ==>
          regs.addr[j] == if j < i then Cleared(old(regs)).addr[j] else old(regs).addr[j]
      {
        FrozenByCfg(old(regs), regs, i);
        WritePmpAddr(i, 0);
      }
      assert regs.addr == Cleared(old(regs)).addr;
    }

    /** `load_task_config`: replaces the task entries 4-15 by those of a region table. */
    method LoadTaskConfig(regions: seq<Region>)
      requires WellFormed(regs)
      modifies this
      ensures WellFormed(regs)
      ensures regs == Installed(old(regs), regions)
      ensures old(log) <= log && Traced(old(regs), log, |old(log)|, regs)
      ensures forall k :: |old(log)| <= k < |log| ==> Unmixed(old(regs), regs, log[k])
    {
      ghost var p, n := regs, |log|;
      InstalledWellFormed(p, regions);
      var kernelCfg0 := DisableTaskEntries(regions);
      ghost var off, log1 := regs, log;
      var taskCfg0High, cfg2 := WriteTaskAddresses(regions, p);
      TracedOn(p, log1, n, off, log, regs);
      ghost var addressed, log2 := regs, log;
      EnableTaskEntries(kernelCfg0, taskCfg0High, cfg2, regions, p);
      TracedOn(p, log2, n, addressed, log, regs);
    }

    method ReadKernelHalf() returns (w: Word)
      requires WellFormed(regs)
      ensures Bytes(w) == regs.cfg[..4] + [0, 0, 0, 0]
    {
      var currentCfg0 := ReadCfgWord(0);
      w := WordAnd(currentCfg0, LOW_HALF);
      KeepLowHalf(currentCfg0);
      assert Bytes(currentCfg0)[..4] == regs.cfg[..4];
    }

    /** Step 1: disable the task entries, keeping the kernel half of pmpcfg0. */
    method DisableTaskEntries(ghost regions: seq<Region>) returns (kernelCfg0: Word)
      requires WellFormed(regs) && WellFormed(Installed(regs, regions))
      modifies this
      ensures WellFormed(regs) && regs == old(regs).(cfg := TaskOffCfg(old(regs)))
      ensures Bytes(kernelCfg0) == old(regs).cfg[..4] + [0, 0, 0, 0]
      ensures old(log) <= log && Traced(old(regs), log, |old(log)|, regs)
      ensures forall k :: |old(log)| <= k < |log| ==> Unmixed(old(regs), Installed(old(regs), regions), log[k])
    {
      ghost var p := regs;
      DisableStages(p, regions);
      ZeroBytes();
      kernelCfg0 := ReadKernelHalf();
      WriteCfgWord(0, kernelCfg0);
      ghost var half, log1 := regs, log;
      WriteCfgWord(8, ZERO);
      TracedOn(p, log1, |old(log)|, half, log, regs);
    }

    /** Step 3: enable the new entries, keeping the kernel half of pmpcfg0. */
    method EnableTaskEntries(kernelCfg0: Word, taskCfg0High: Word, cfg2: Word,
                             ghost regions: seq<Region>, ghost p: Regs)
      requires WellFormed(regs) && WellFormed(p) && WellFormed(Installed(p, regions))
      requires regs == Regs(TaskOffCfg(p), Installed(p, regions).addr)
      requires Bytes(kernelCfg0) == p.cfg[..4] + [0, 0, 0, 0]
      requires CfgBytesUpTo(regions, Bytes(taskCfg0High), Bytes(cfg2), PMP_COUNT)
      modifies this
      ensures WellFormed(regs) && regs == Installed(p, regions)
      ensures old(log) <= log && Traced(old(regs), log, |old(log)|, regs)
      ensures forall k :: |old(log)| <= k < |log| ==> Unmixed(p, Installed(p, regions), log[k])
    {
      JoinHalves(kernelCfg0, taskCfg0High);
      WriteCfgWord(0, WordOr(kernelCfg0, taskCfg0High));
      ghost var half, log1 := regs, log;
      LowEnabled(p, regions, Bytes(taskCfg0High), Bytes(cfg2), regs.addr);
      WriteCfgWord(8, cfg2);
      AllEnabled(p, regions, Bytes(taskCfg0High), Bytes(cfg2), regs.addr);
      TracedOn(old(regs), log1, |old(log)|, half, log, regs);
    }

    /**
     Step 2, the loop: write the address registers and collect the configuration bytes. `p` is
     the register state the load started from.
     */
    method WriteTaskAddresses(regions: seq<Region>, ghost p: Regs) returns (taskCfg0High: Word, cfg2: Word)
      requires WellFormed(regs) && WellFormed(p) && WellFormed(Installed(p, regions))
      requires regs == p.(cfg := TaskOffCfg(p))
      modifies this
      ensures WellFormed(regs) && regs == Regs(TaskOffCfg(p), Installed(p, regions).addr)
      ensures CfgBytesUpTo(regions, Bytes(taskCfg0High), Bytes(cfg2), PMP_COUNT)
      ensures old(log) <= log && Traced(old(regs), log, |old(log)|, regs)
      ensures forall k :: |old(log)| <= k < |log| ==> Unmixed(p, Installed(p, regions), log[k])
    {
      taskCfg0High, cfg2 := ZERO, ZERO;
      ZeroBytes();
      for idx := 4 to PMP_COUNT
        invariant WellFormed(regs) && regs.cfg == TaskOffCfg(p) && AddrsUpTo(p, regions, regs, idx)
        invariant CfgBytesUpTo(regions, Bytes(taskCfg0High), Bytes(cfg2), idx)
        invariant old(log) <= log && Traced(old(regs), log, |old(log)|, regs)
        invariant forall k :: |old(log)| <= k < |log| ==> Unmixed(p, Installed(p, regions), log[k])
      {
        ghost var q, log1 := regs, log;
        var region := if idx < |regions| then regions[idx] else Region(0, 0, 0);
        AddrStep(p, regions, regs, idx);
        CfgBytesStep(regions, Bytes(taskCfg0High), Bytes(cfg2), idx);
        if region.size == 0 {
          WritePmpAddr(idx, 0);
        } else {
          WritePmpAddr(idx, Napot.Encode(region.base, region.size));
          taskCfg0High, cfg2 := CollectCfg(taskCfg0High, cfg2, region.flags | A_NAPOT, idx, regions);
        }
        TracedOn(old(regs), log1, |old(log)|, q, log, regs);
        UnmixedWhileOff(p, regions, regs, idx + 1);
      }
      assert regs.addr == Installed(p, regions).addr;
    }

    /** The configuration byte of entry `idx` joins the words collected so far. */
    method CollectCfg(high: Word, low: Word, cfgByte: bv8, idx: nat, ghost regions: seq<Region>)
      returns (taskCfg0High: Word, cfg2: Word)
      requires 4 <= idx < PMP_COUNT && CfgBytesUpTo(regions, Bytes(high), Bytes(low), idx)
      requires cfgByte == RawCfg(RegionAt(regions, idx))
      ensures CfgBytesUpTo(regions, Bytes(taskCfg0High), Bytes(cfg2), idx + 1)
    {
      taskCfg0High, cfg2 := high, low;
      CfgBytesStep(regions, Bytes(high), Bytes(low), idx);
      if idx < 8 {
        OrIntoFree(taskCfg0High, cfgByte, idx % 8);
        taskCfg0High := WordOr(taskCfg0High, Shifted(cfgByte, idx % 8));
      } else {
        OrIntoFree(cfg2, cfgByte, idx % 8);
        cfg2 := WordOr(cfg2, Shifted(cfgByte, idx % 8));
      }
    }

    /** `init`: installs the four kernel entries into a unit that has no locked entry yet. */
    method Init(lay: Layout)
      requires WellFormed(regs) && Unlocked(regs) && LayoutOk(lay)
      modifies this
      ensures WellFormed(regs)
      ensures KernelImage(regs, lay) && TaskImage(regs, [])
    {
      ClearAll();
      var regions := KernelRegions(lay);
      for i := 0 to 4
        invariant WellFormed(regs) && KernelUpTo(regs, lay, i)
      {
        InstallEntry(lay, i, regions[i]);
      }
      assert EncCfg(EMPTY) == 0 && EncAddr(EMPTY) == 0;
    }

    /** The loop body of `init`: the descriptor's flags choose how the entry is programmed. */
    method InstallEntry(lay: Layout, i: nat, region: Region)
      requires WellFormed(regs) && LayoutOk(lay) && i < 4 && region == KernelRegions(lay)[i]
      requires KernelUpTo(regs, lay, i)
      modifies this
      ensures WellFormed(regs) && KernelUpTo(regs, lay, i + 1)
    {
      KernelRegionModes(lay, i);
      var addrMode := region.flags & 0x18;
      if addrMode == A_TOR {
        KernelStep(regs, lay, i, region.flags);
        WritePmpAddr(i, region.base / 4);
        SetPmpCfg(i, region.flags);
      } else if region.size > 0 {
        UartEncoding();
        KernelStep(regs, lay, i, region.flags | A_NAPOT);
        var _ := ConfigureRegion(i, region);
      } else if addrMode == A_OFF && region.base > 0 {
        AnchorStep(regs, lay);
        WritePmpAddr(i, region.base / 4);
      }
    }
  }

  /** Writing a register back with one byte replaced changes that entry alone. */
  lemma ByteWritten(p: Regs, idx: nat, b: bv8)
    requires WellFormed(p) && idx < PMP_COUNT
    ensures var base := if idx < 8 then 0 else 8;
            WriteCfg(p, base, p.cfg[base..base + 8][idx % 8 := b]) == WithCfg(p, idx, b)
  {
    var base := if idx < 8 then 0 else 8;
    assert WriteCfg(p, base, p.cfg[base..base + 8][idx % 8 := b]).cfg == WithCfg(p, idx, b).cfg;
  }

  /** Freezing looks only at locked configuration bytes. */
  lemma FrozenByCfg(p: Regs, q: Regs, i: nat)
    requires WellFormed(p) && WellFormed(q) && i < PMP_COUNT
    requires forall j :: 0 <= j < PMP_COUNT && Locked(p.cfg[j]) ==> q.cfg[j] == p.cfg[j]
    requires forall j :: i <= j < PMP_COUNT && j <= i + 1 && !Locked(p.cfg[j]) ==> q.cfg[j] == 0
    ensures AddrFrozen(q, i) == AddrFrozen(p, i)
  {
  }

  // --- Stages of a load ---

  /** The configuration bytes while the task entries are disabled. */
  function TaskOffCfg(p: Regs): seq<bv8>
    requires WellFormed(p)
  {
    seq(PMP_COUNT, i requires 0 <= i < PMP_COUNT => if i < 4 || Locked(p.cfg[i]) then p.cfg[i] else 0)
  }

  /** Address registers below `n` already have their final value, those from `n` on are untouched. */
  predicate AddrsUpTo(p: Regs, regions: seq<Region>, q: Regs, n: nat)
    requires WellFormed(p) && WellFormed(q)
  {
    forall i :: 0 <= i < PMP_COUNT ==>
      q.addr[i] == if i < n then Installed(p, regions).addr[i] else p.addr[i]
  }

  /** The bytes of the two collected words are the configuration bytes of the entries from 4 to `n - 1`. */
  predicate CfgBytesUpTo(regions: seq<Region>, high: seq<bv8>, cfg2: seq<bv8>, n: nat) {
    && |high| == |cfg2| == 8
    && (forall j :: 0 <= j < 8 ==> high[j] == if 4 <= j < n then RawCfg(RegionAt(regions, j)) else 0)
    && (forall j :: 0 <= j < 8 ==> cfg2[j] == if 8 + j < n then RawCfg(RegionAt(regions, 8 + j)) else 0)
  }

  lemma AddrStep(p: Regs, regions: seq<Region>, q: Regs, i: nat)
    requires WellFormed(p) && WellFormed(q) && 4 <= i < PMP_COUNT
    requires q.cfg == TaskOffCfg(p) && AddrsUpTo(p, regions, q, i)
    ensures var q' := WriteAddr(q, i, RawAddr(RegionAt(regions, i)));
            q'.cfg == q.cfg && AddrsUpTo(p, regions, q', i + 1)
  {
  }

  lemma CfgBytesStep(regions: seq<Region>, high: seq<bv8>, cfg2: seq<bv8>, i: nat)
    requires 4 <= i < PMP_COUNT && CfgBytesUpTo(regions, high, cfg2, i)
    ensures var b := RawCfg(RegionAt(regions, i));
            && (i < 8 ==> high[i % 8] == 0 && CfgBytesUpTo(regions, high[i % 8 := b], cfg2, i + 1))
            && (i >= 8 ==> cfg2[i % 8] == 0 && CfgBytesUpTo(regions, high, cfg2[i % 8 := b], i + 1))
            && (b == 0 ==> CfgBytesUpTo(regions, high, cfg2, i + 1))
  {
  }

  lemma UnmixedWhileOff(p: Regs, regions: seq<Region>, q: Regs, n: nat)
    requires WellFormed(p) && WellFormed(q) && WellFormed(Installed(p, regions))
    requires q.cfg == TaskOffCfg(p) && AddrsUpTo(p, regions, q, n)
    ensures Unmixed(p, Installed(p, regions), q)
  {
  }

  /** The two register states of step 1. */
  lemma DisableStages(p: Regs, regions: seq<Region>)
    requires WellFormed(p) && WellFormed(Installed(p, regions))
    ensures var half := WriteCfg(p, 0, p.cfg[..4] + [0, 0, 0, 0]);
            var off := WriteCfg(half, 8, [0, 0, 0, 0, 0, 0, 0, 0]);
            && off == p.(cfg := TaskOffCfg(p))
            && Unmixed(p, Installed(p, regions), half)
            && Unmixed(p, Installed(p, regions), off)
  {
    var off := WriteCfg(WriteCfg(p, 0, p.cfg[..4] + [0, 0, 0, 0]), 8, [0, 0, 0, 0, 0, 0, 0, 0]);
    assert off.cfg == TaskOffCfg(p);
  }

  lemma LowEnabled(p: Regs, regions: seq<Region>, high: seq<bv8>, cfg2: seq<bv8>, addr: seq<nat>)
    requires WellFormed(p) && CfgBytesUpTo(regions, high, cfg2, PMP_COUNT)
    requires WellFormed(p.(cfg := TaskOffCfg(p))) && WellFormed(Installed(p, regions))
    requires addr == Installed(p, regions).addr
    ensures WriteCfg(Regs(TaskOffCfg(p), addr), 0, p.cfg[..4] + high[4..]) ==
            Regs(Installed(p, regions).cfg[..8] + TaskOffCfg(p)[8..], addr)
    ensures Unmixed(p, Installed(p, regions), Regs(Installed(p, regions).cfg[..8] + TaskOffCfg(p)[8..], addr))
  {
  }

  lemma AllEnabled(p: Regs, regions: seq<Region>, high: seq<bv8>, cfg2: seq<bv8>, addr: seq<nat>)
    requires WellFormed(p) && CfgBytesUpTo(regions, high, cfg2, PMP_COUNT)
    requires addr == Installed(p, regions).addr
    requires WellFormed(Regs(Installed(p, regions).cfg[..8] + TaskOffCfg(p)[8..], addr))
    ensures WriteCfg(Regs(Installed(p, regions).cfg[..8] + TaskOffCfg(p)[8..], addr), 8, cfg2) ==
            Installed(p, regions)
  {
  }

  // --- The kernel entries ---

  predicate Unlocked(p: Regs)
    requires WellFormed(p)
  {
    forall i :: 0 <= i < PMP_COUNT ==> !Locked(p.cfg[i])
  }

  /** `kernel_entry_regions`. A TOR entry is described by its top address and a zero size. */
  function KernelRegions(lay: Layout): (rs: seq<Region>)
    ensures |rs| == 4
  {
    [Region(lay.stext, 0, A_OFF),
     Region(lay.userTextEnd, 0, X | L | A_TOR),
     Region(lay.eheap, 0, R | W | L | A_TOR),
     Region(UART_BASE, UART_SIZE, R | W | L)]
  }

  /** Configuration bytes of the kernel entries. */
  const KERNEL_CFG: seq<bv8> := [0, 0x8C, 0x8B, 0x9B]

  function KernelAddr(lay: Layout): seq<nat> {
    [lay.stext / 4, lay.userTextEnd / 4, lay.eheap / 4, Napot.Encode(UART_BASE, UART_SIZE)]
  }

  /** How each kernel descriptor reads its flags, and the byte it leads to. */
  lemma KernelRegionModes(lay: Layout, i: nat)
    requires i < 4 && LayoutOk(lay)
    ensures var r := KernelRegions(lay)[i];
            && (r.flags & 0x18 == A_TOR <==> i == 1 || i == 2)
            && (r.flags & 0x18 == A_OFF <==> i == 0 || i == 3)
            && (r.size > 0 <==> i == 3)
            && (i == 1 || i == 2 ==> Legal(r.flags) == KERNEL_CFG[i])
            && (i == 3 ==> Legal(r.flags | A_NAPOT) == KERNEL_CFG[i])
            && r.base / 4 < ADDR_LIMIT
  {
  }

  lemma PageEncodable(base: nat)
    requires base % 4096 == 0
    ensures Napot.Encodable(base, 4096)
  {
    Pow2IsPowerOfTwo(12);
    AlignedIsMultiple(base, 4096);
  }

  lemma UartEncoding()
    ensures Napot.Encodable(UART_BASE, UART_SIZE)
    ensures Napot.Encode(UART_BASE, UART_SIZE) < ADDR_LIMIT
  {
    PageEncodable(UART_BASE);
    EncodeInRange(UART_BASE, UART_SIZE);
  }

  lemma EncodeInRange(base: u64, size: u64)
    requires 0 < size && base + size <= PHYS_LIMIT
    ensures size >= 2 ==> Napot.Encode(base, size) < ADDR_LIMIT
  {
  }

  /** Entries 0-3 are the four kernel entries. */
  predicate KernelImage(p: Regs, lay: Layout)
    requires WellFormed(p)
  {
    p.cfg[..4] == KERNEL_CFG && p.addr[..4] == KernelAddr(lay)
  }

  /** Entries 4-15 encode a region table. */
  predicate TaskImage(p: Regs, regions: seq<Region>)
    requires WellFormed(p)
  {
    forall i :: 4 <= i < PMP_COUNT ==>
      p.cfg[i] == EncCfg(RegionAt(regions, i)) && p.addr[i] == EncAddr(RegionAt(regions, i))
  }

  /** The first `n` kernel entries are in place and everything above is zero. */
  predicate KernelUpTo(p: Regs, lay: Layout, n: nat)
    requires WellFormed(p) && n <= 4
  {
    && p.cfg[..n] == KERNEL_CFG[..n] && p.addr[..n] == KernelAddr(lay)[..n]
    && forall i :: n <= i < PMP_COUNT ==> p.cfg[i] == 0 && p.addr[i] == 0
  }

  lemma KernelStep(p: Regs, lay: Layout, i: nat, b: bv8)
    requires WellFormed(p) && 1 <= i < 4 && KernelUpTo(p, lay, i)
    requires Legal(b) == KERNEL_CFG[i] && KernelAddr(lay)[i] < ADDR_LIMIT
    ensures KernelUpTo(WithCfg(WriteAddr(p, i, KernelAddr(lay)[i]), i, b), lay, i + 1)
  {
    assert !Locked(0);
    var q := WithCfg(WriteAddr(p, i, KernelAddr(lay)[i]), i, b);
    assert q.cfg[..i + 1] == p.cfg[..i] + [KERNEL_CFG[i]];
    assert q.addr[..i + 1] == p.addr[..i] + [KernelAddr(lay)[i]];
  }

  lemma AnchorStep(p: Regs, lay: Layout)
    requires WellFormed(p) && KernelUpTo(p, lay, 0) && lay.stext / 4 < ADDR_LIMIT
    ensures KernelUpTo(WriteAddr(p, 0, lay.stext / 4), lay, 1)
  {
  }
}
