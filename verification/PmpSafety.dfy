/**
 What the kernel's PMP programming guarantees over every sequence of driver calls after boot:
 the kernel entries never change, a load leaves no residue of earlier tables, and the access
 decision is a function of the memory layout and of the loaded table alone.
 */
module PmpSafety {
  import opened Bits
  import opened PmpHardware
  import opened Pmp
  import Napot

  // --- Sequences of driver calls ---

  datatype Call = LoadTaskConfig(regions: seq<Region>) | ClearAll

  function Apply(p: Regs, c: Call): (r: Regs)
    requires WellFormed(p)
    ensures WellFormed(r)
  {
    match c
    case LoadTaskConfig(regions) =>
      InstalledWellFormed(p, regions);
      Installed(p, regions)
    case ClearAll =>
      assert Legal(0) == 0;
      Cleared(p)
  }

  function ApplyAll(p: Regs, calls: seq<Call>): (r: Regs)
    requires WellFormed(p)
    ensures WellFormed(r)
    decreases |calls|
  {
    if calls == [] then p else ApplyAll(Apply(p, calls[0]), calls[1..])
  }

  /** A table whose entries carry no lock bit, as every table from the builder. */
  predicate NoLock(regions: seq<Region>) {
    forall i :: 0 <= i < |regions| ==> regions[i].flags & L == 0
  }

  predicate NoLockCalls(calls: seq<Call>) {
    forall k :: 0 <= k < |calls| && calls[k].LoadTaskConfig? ==> NoLock(calls[k].regions)
  }

  predicate TaskUnlocked(p: Regs)
    requires WellFormed(p)
  {
    forall i :: 4 <= i < PMP_COUNT ==> !Locked(p.cfg[i])
  }

  // --- Locking ---

  lemma KernelCfgBits()
    ensures !Locked(KERNEL_CFG[0]) && Locked(KERNEL_CFG[1]) && Locked(KERNEL_CFG[2]) && Locked(KERNEL_CFG[3])
    ensures KERNEL_CFG[0] & A_MASK == A_OFF && KERNEL_CFG[1] & A_MASK == A_TOR
    ensures KERNEL_CFG[2] & A_MASK == A_TOR && KERNEL_CFG[3] & A_MASK == A_NAPOT
    ensures forall k :: Permits(KERNEL_CFG[1], k) <==> k.Execute?
    ensures forall k :: Permits(KERNEL_CFG[2], k) <==> !k.Execute?
    ensures forall k :: Permits(KERNEL_CFG[3], k) <==> !k.Execute?
  {
  }

  lemma FirstFour(p: Regs, lay: Layout, i: nat)
    requires WellFormed(p) && KernelImage(p, lay) && i < 4
    ensures p.cfg[i] == KERNEL_CFG[i] && p.addr[i] == KernelAddr(lay)[i]
    ensures i == 0 ==> p.addr[i] == lay.stext / 4
    ensures i == 1 ==> p.addr[i] == lay.userTextEnd / 4
    ensures i == 2 ==> p.addr[i] == lay.eheap / 4
  {
  }

  /** Entry 0 is not locked, but the locked TOR entry above it freezes its address. */
  lemma ApplyKeepsKernel(p: Regs, lay: Layout, c: Call)
    requires WellFormed(p) && KernelImage(p, lay)
    ensures KernelImage(Apply(p, c), lay)
  {
  }

  lemma ApplyKeepsTaskUnlocked(p: Regs, c: Call)
    requires WellFormed(p) && TaskUnlocked(p)
    requires c.LoadTaskConfig? ==> NoLock(c.regions)
    ensures TaskUnlocked(Apply(p, c))
  {
  }

  /**
   Over every sequence of calls the kernel entries stay exactly as `init` left them, and no
   task entry becomes locked.
   */
  lemma {:induction false} LockedForever(p: Regs, lay: Layout, calls: seq<Call>)
    requires WellFormed(p) && KernelImage(p, lay)
    ensures KernelImage(ApplyAll(p, calls), lay)
    ensures TaskUnlocked(p) && NoLockCalls(calls) ==> TaskUnlocked(ApplyAll(p, calls))
    decreases |calls|
  {
    if calls != [] {
      ApplyKeepsKernel(p, lay, calls[0]);
      if TaskUnlocked(p) && NoLockCalls(calls) {
        ApplyKeepsTaskUnlocked(p, calls[0]);
        assert NoLockCalls(calls[1..]);
      }
      LockedForever(Apply(p, calls[0]), lay, calls[1..]);
    }
  }

  // --- Loading ---

  /** A load takes full effect on every unit whose task entries are unlocked. */
  lemma LoadTakesEffect(p: Regs, regions: seq<Region>)
    requires WellFormed(p) && TaskUnlocked(p)
    ensures WellFormed(Installed(p, regions)) && TaskImage(Installed(p, regions), regions)
  {
  }

  /** A locked task entry is the one thing that defeats a load: its byte keeps its old value. */
  lemma LoadTakesEffectExactlyWhenUnlocked(p: Regs, regions: seq<Region>)
    requires WellFormed(p) && NoLock(regions)
    ensures WellFormed(Installed(p, regions))
    ensures TaskImage(Installed(p, regions), regions) <==> TaskUnlocked(p)
  {
    InstalledWellFormed(p, regions);
    if TaskUnlocked(p) {
      LoadTakesEffect(p, regions);
    } else {
      var i :| 4 <= i < PMP_COUNT && Locked(p.cfg[i]);
      EncCfgBits(RegionAt(regions, i));
      assert EMPTY.flags & L == 0;
      assert Installed(p, regions).cfg[i] == p.cfg[i];
    }
  }

  /** No residue: what was loaded before does not show in the registers. */
  lemma LoadLoad(p: Regs, a: seq<Region>, b: seq<Region>)
    requires WellFormed(p) && TaskUnlocked(p) && NoLock(a)
    ensures WellFormed(Installed(p, a))
    ensures Installed(Installed(p, a), b) == Installed(p, b)
  {
  }

  // --- The access decision ---

  /** A table entry is empty or a NAPOT region inside the physical address space. */
  predicate RegionOk(r: Region) {
    && r.flags & L == 0
    && (r.size != 0 ==> Napot.Encodable(r.base, r.size) && r.base + r.size <= PHYS_LIMIT)
  }

  predicate TableOk(regions: seq<Region>) {
    forall i :: 0 <= i < |regions| ==> RegionOk(regions[i])
  }

  predicate Covers(r: Region, y: nat) {
    r.size != 0 && r.base <= y < r.base + r.size
  }

  datatype Verdict = Undecided | Decided(granted: bool)

  /** What the kernel entries say about a byte: they decide for both modes wherever they match. */
  function KernelVerdict(lay: Layout, y: nat, k: Access): Verdict {
    if lay.stext <= y < lay.userTextEnd then Decided(k.Execute?)
    else if lay.userTextEnd <= y < lay.eheap then Decided(!k.Execute?)
    else if UART_BASE <= y < UART_BASE + UART_SIZE then Decided(!k.Execute?)
    else Undecided
  }

  /** The lowest-numbered region of the table from `i` on that contains the byte grants it. */
  predicate TableGrants(regions: seq<Region>, i: nat, y: nat, k: Access)
    requires i <= PMP_COUNT
    decreases PMP_COUNT - i
  {
    if i == PMP_COUNT then false
    else if Covers(RegionAt(regions, i), y) then Permits(RegionAt(regions, i).flags, k)
    else TableGrants(regions, i + 1, y, k)
  }

  function Decision(lay: Layout, regions: seq<Region>, mode: Mode, y: nat, k: Access): bool {
    match KernelVerdict(lay, y, k)
    case Decided(g) => g
    case Undecided => mode.M? || TableGrants(regions, 4, y, k)
  }

  lemma EncodedInRange(r: Region)
    requires RegionOk(r) && r.size != 0
    ensures EncAddr(r) == Napot.Encode(r.base, r.size)
  {
    var a := Napot.Encode(r.base, r.size);
    EncodeInRange(r.base, r.size);
    DivModUnique(a, ADDR_LIMIT, 0, a);
  }

  /** A task entry matches exactly the bytes of its region. */
  lemma TaskEntryMatches(p: Regs, regions: seq<Region>, i: nat, y: nat)
    requires WellFormed(p) && TaskImage(p, regions) && RegionOk(RegionAt(regions, i)) && 4 <= i < PMP_COUNT
    ensures EntryMatches(p, i, y) <==> Covers(RegionAt(regions, i), y)
  {
    var r := RegionAt(regions, i);
    EncCfgBits(r);
    if r.size != 0 {
      EncodedInRange(r);
      Napot.RoundTrip(r.base, r.size);
      Napot.MatchesIsInterval(p.addr[i], y);
    }
  }

  lemma {:induction false} TaskDecision(p: Regs, regions: seq<Region>, i: nat, mode: Mode, y: nat, k: Access)
    requires WellFormed(p) && TaskImage(p, regions) && TableOk(regions) && 4 <= i <= PMP_COUNT
    ensures DecideFrom(p, i, mode, y, k) <==> mode.M? || TableGrants(regions, i, y, k)
    decreases PMP_COUNT - i
  {
    if i < PMP_COUNT {
      var r := RegionAt(regions, i);
      assert EMPTY.flags & L == 0;
      TaskEntryMatches(p, regions, i, y);
      EncCfgBits(r);
      TaskDecision(p, regions, i + 1, mode, y, k);
    }
  }

  /**
   At every single CSR write of a load, a task entry that matches a byte is an entry of the
   outgoing table or of the incoming one, with that table's rights: never a mixture.
   */
  lemma NoMixedEntry(p: Regs, q: Regs, outgoing: seq<Region>, incoming: seq<Region>, i: nat, y: nat)
    requires WellFormed(p) && TaskUnlocked(p) && TaskImage(p, outgoing)
    requires TableOk(outgoing) && TableOk(incoming) && 4 <= i < PMP_COUNT
    requires WellFormed(Installed(p, incoming)) && Unmixed(p, Installed(p, incoming), q)
    requires EntryMatches(q, i, y)
    ensures || (Covers(RegionAt(outgoing, i), y) && q.cfg[i] == EncCfg(RegionAt(outgoing, i)))
            || (Covers(RegionAt(incoming, i), y) && q.cfg[i] == EncCfg(RegionAt(incoming, i)))
  {
    assert EMPTY.flags & L == 0;
    LoadTakesEffect(p, incoming);
    EncCfgBits(RegionAt(outgoing, i));
    EncCfgBits(RegionAt(incoming, i));
    TaskEntryMatches(p, outgoing, i, y);
    TaskEntryMatches(Installed(p, incoming), incoming, i, y);
  }

  /** The UART entry in numbers: 4 KB at 0x1000_0000. */
  lemma UartInNumbers(lay: Layout)
    ensures KernelAddr(lay)[3] == 0x0400_01FF && KERNEL_CFG[3] == 0x9B
    ensures Napot.Base(0x0400_01FF) == 0x1000_0000 && Napot.Size(0x0400_01FF) == 0x1000
  {
    UartEncoding();
    Napot.RoundTrip(UART_BASE, UART_SIZE);
  }

  lemma UartEntryMatches(p: Regs, lay: Layout, y: nat)
    requires WellFormed(p) && KernelImage(p, lay)
    ensures EntryMatches(p, 3, y) <==> UART_BASE <= y < UART_BASE + UART_SIZE
  {
    KernelCfgBits();
    FirstFour(p, lay, 3);
    UartEncoding();
    Napot.RoundTrip(UART_BASE, UART_SIZE);
    Napot.MatchesIsInterval(p.addr[3], y);
  }

  /** A page-aligned address survives the two-bit shift of an address register. */
  lemma PageIsWords(x: nat)
    requires x % 4096 == 0
    ensures 4 * (x / 4) == x
  {
  }

  lemma KernelEntryMatches(p: Regs, lay: Layout, y: nat)
    requires WellFormed(p) && KernelImage(p, lay) && LayoutOk(lay)
    ensures !EntryMatches(p, 0, y)
    ensures EntryMatches(p, 1, y) <==> lay.stext <= y < lay.userTextEnd
    ensures EntryMatches(p, 2, y) <==> lay.userTextEnd <= y < lay.eheap
  {
    KernelCfgBits();
    FirstFour(p, lay, 0);
    FirstFour(p, lay, 1);
    FirstFour(p, lay, 2);
    PageIsWords(lay.stext);
    PageIsWords(lay.userTextEnd);
    PageIsWords(lay.eheap);
  }

  lemma KernelDecision(p: Regs, lay: Layout, mode: Mode, y: nat, k: Access)
    requires WellFormed(p) && KernelImage(p, lay) && LayoutOk(lay)
    ensures Allows(p, mode, y, k) <==>
            match KernelVerdict(lay, y, k)
            case Decided(g) => g
            case Undecided => DecideFrom(p, 4, mode, y, k)
  {
    KernelEntryMatches(p, lay, y);
    UartEntryMatches(p, lay, y);
    KernelCfgBits();
    FirstFour(p, lay, 1);
    FirstFour(p, lay, 2);
    FirstFour(p, lay, 3);
    assert Allows(p, mode, y, k) == DecideFrom(p, 1, mode, y, k);
    assert !EntryMatches(p, 1, y) ==> DecideFrom(p, 1, mode, y, k) == DecideFrom(p, 2, mode, y, k);
    assert !EntryMatches(p, 2, y) ==> DecideFrom(p, 2, mode, y, k) == DecideFrom(p, 3, mode, y, k);
    assert !EntryMatches(p, 3, y) ==> DecideFrom(p, 3, mode, y, k) == DecideFrom(p, 4, mode, y, k);
  }

  /** The hardware's decision, for any registers holding the kernel entries and a task table. */
  lemma AccessDecision(p: Regs, lay: Layout, regions: seq<Region>, mode: Mode, y: nat, k: Access)
    requires WellFormed(p) && KernelImage(p, lay) && LayoutOk(lay)
    requires TaskImage(p, regions) && TableOk(regions)
    ensures Allows(p, mode, y, k) <==> Decision(lay, regions, mode, y, k)
  {
    KernelDecision(p, lay, mode, y, k);
    TaskDecision(p, regions, 4, mode, y, k);
  }

  /**
   The same over runs: after any calls on a booted unit, the decision under the last loaded
   table depends on nothing that was loaded or cleared before.
   */
  lemma AccessDecisionAfterRun(p: Regs, lay: Layout, calls: seq<Call>, regions: seq<Region>,
                               mode: Mode, y: nat, k: Access)
    requires WellFormed(p) && KernelImage(p, lay) && TaskUnlocked(p) && LayoutOk(lay)
    requires NoLockCalls(calls) && TableOk(regions)
    ensures Allows(Apply(ApplyAll(p, calls), LoadTaskConfig(regions)), mode, y, k)
            <==> Decision(lay, regions, mode, y, k)
  {
    var q := ApplyAll(p, calls);
    LockedForever(p, lay, calls);
    LoadTakesEffect(q, regions);
    ApplyKeepsKernel(q, lay, LoadTaskConfig(regions));
    AccessDecision(Apply(q, LoadTaskConfig(regions)), lay, regions, mode, y, k);
  }

  /** User code never reads or writes the text range, whatever table is loaded. */
  lemma TextIsNeverData(p: Regs, lay: Layout, calls: seq<Call>, y: nat, k: Access)
    requires WellFormed(p) && KernelImage(p, lay) && LayoutOk(lay)
    requires lay.stext <= y < lay.userTextEnd && !k.Execute?
    ensures !Allows(ApplyAll(p, calls), U, y, k)
  {
    LockedForever(p, lay, calls);
    KernelDecision(ApplyAll(p, calls), lay, U, y, k);
  }
}
