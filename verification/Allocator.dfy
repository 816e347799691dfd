/**
 The bump allocator (crates/kernel/src/allocator.rs): the align-up mask, the retry loop around
 compare-and-exchange, and its safety and termination under any interleaving of callers.
 */
module Allocator {
  import opened Bits
  import opened Policy

  /** Addresses and sizes stay below half of the 64-bit range. */
  const HALF: u64 := 0x8000_0000_0000_0000

  /** `core::alloc::Layout`: a power-of-two alignment, and a size that can be rounded up to it. */
  datatype Request = Request(size: u64, align: u64)

  predicate RequestOk(q: Request) {
    IsPowerOfTwo(q.align) && q.size + q.align <= HALF
  }

  // --- The align-up mask ---

  /** `(current + align - 1) & !(align - 1)`. */
  function AlignUp(current: u64, align: u64): u64
    requires IsPowerOfTwo(align) && current + align - 1 < TWO_64
  {
    And(current + align - 1, Not(align - 1))
  }

  lemma AlignUpBounds(current: u64, align: u64)
    requires IsPowerOfTwo(align) && current + align - 1 < TWO_64
    ensures Aligned(AlignUp(current, align), align)
    ensures current <= AlignUp(current, align) < current + align
  {
    MaskIsRoundUp(current, align);
    RoundUpBounds(current, align);
    AlignedIsMultiple(AlignUp(current, align), align);
  }

  /** The mask computes the least multiple of the alignment that is not below the pointer. */
  lemma AlignUpLeast(current: u64, align: u64, m: nat)
    requires IsPowerOfTwo(align) && current + align - 1 < TWO_64
    requires m % align == 0 && m >= current
    ensures AlignUp(current, align) % align == 0 && current <= AlignUp(current, align) <= m
  {
    MaskIsRoundUp(current, align);
    RoundUpBounds(current, align);
    RoundUpLeast(current, align, m);
  }

  lemma AlignUpMonotone(a: u64, b: u64, align: u64)
    requires IsPowerOfTwo(align) && a <= b && b + align - 1 < TWO_64
    ensures AlignUp(a, align) <= AlignUp(b, align)
  {
    AlignUpBounds(b, align);
    AlignedIsMultiple(AlignUp(b, align), align);
    AlignUpLeast(a, align, AlignUp(b, align));
  }

  // --- One call, alone ---

  /** Where the request would end if the bump pointer were `next`. */
  function EndOf(next: u64, q: Request): (r: u64)
    requires RequestOk(q) && next <= HALF
    ensures next <= r
  {
    AlignUpBounds(next, q.align);
    AlignUp(next, q.align) + q.size
  }

  predicate Fits(next: u64, end: u64, q: Request)
    requires RequestOk(q) && next <= HALF
  {
    EndOf(next, q) <= end
  }

  /** A request that does not fit never fits again. */
  lemma FitsShrinks(a: u64, b: u64, end: u64, q: Request)
    requires RequestOk(q) && a <= b <= HALF && Fits(b, end, q)
    ensures Fits(a, end, q)
  {
    AlignUpMonotone(a, b, q.align);
  }

  /** The local computation of one round; no addition overflows. */
  method Candidate(current: u64, q: Request) returns (aligned: u64, newNext: u64)
    requires RequestOk(q) && current <= HALF
    ensures aligned == AlignUp(current, q.align) && Aligned(aligned, q.align) && current <= aligned
    ensures newNext == EndOf(current, q) == aligned + q.size
  {
    AlignUpBounds(current, q.align);
    var sum: u64 := current + q.align - 1;
    aligned := And(sum, Not(q.align - 1));
    newNext := aligned + q.size;
  }

  class BumpAllocator {
    var heapStart: u64
    var heapEnd: u64
    var next: u64

    ghost predicate Valid()
      reads this
    {
      heapStart <= next <= heapEnd <= HALF
    }

    /** `init`. */
    method Init(start: u64, end: u64)
      requires start <= end <= HALF
      modifies this
      ensures Valid() && heapStart == start && heapEnd == end && next == start
    {
      heapStart := start;
      heapEnd := end;
      next := start;
    }

    /**
     `alloc`. Between the load and the exchange other callers may have moved the pointer: in
     the k-th round to `others[k]`, where that is a move they can make. `None` is the null
     pointer. Neither addition overflows, and the loop ends whatever the others do.
     */
    method Alloc(q: Request, others: seq<u64>) returns (r: Option<u64>)
      requires Valid() && RequestOk(q)
      modifies this`next
      ensures Valid() && old(next) <= next
      ensures r.Some? ==> Aligned(r.value, q.align) && old(next) <= r.value && next == r.value + q.size
      ensures r.None? ==> !Fits(next, heapEnd, q)
      ensures others == [] ==>
              if Fits(old(next), heapEnd, q)
              then r == Some(AlignUp(old(next), q.align)) && next == EndOf(old(next), q)
              else r.None? && next == old(next)
    {
      var end := heapEnd;
      var round := 0;
      while true
        invariant Valid() && old(next) <= next
        invariant others == [] ==> next == old(next)
        decreases heapEnd - next
      {
        var current := next;
        if round < |others| && next <= others[round] <= heapEnd {
          next := others[round];
        }
        round := round + 1;
        AlignUpMonotone(current, next, q.align);
        var aligned, newNext := Candidate(current, q);
        if newNext > end {
          return None;
        }
        if next == current {
          next := newNext;
          return Some(aligned);
        }
      }
    }
  }

  // --- Any number of concurrent calls ---

  /** Where a call stands: about to load the pointer, holding a loaded value, or returned. */
  datatype Caller =
    | Starting(q: Request)
    | Loaded(q: Request, current: u64)
    | Done(q: Request, result: Option<u64>)

  datatype Heap = Heap(start: u64, end: u64, next: u64, callers: seq<Caller>)

  /** One atomic action of caller `t`: the load, or the exchange after the local computation. */
  function Act(h: Heap, t: nat): Heap
    requires HeapOk(h)
  {
    if t >= |h.callers| then h
    else match h.callers[t]
      case Starting(q) => h.(callers := h.callers[t := Loaded(q, h.next)])
      case Loaded(q, current) =>
        if !Fits(current, h.end, q) then h.(callers := h.callers[t := Done(q, None)])
        else if h.next == current then
          AlignUpBounds(current, q.align);
          h.(next := EndOf(current, q), callers := h.callers[t := Done(q, Some(AlignUp(current, q.align)))])
        else h.(callers := h.callers[t := Starting(q)])
      case Done(_, _) => h
  }

  predicate CallerOk(h: Heap, c: Caller) {
    && RequestOk(c.q)
    && h.start <= h.next <= h.end <= HALF
    && (c.Loaded? ==> h.start <= c.current <= h.next)
    && (c.Done? && c.result.Some? ==>
          Aligned(c.result.value, c.q.align) && h.start <= c.result.value && c.result.value + c.q.size <= h.next)
    && (c.Done? && c.result.None? ==> !Fits(h.next, h.end, c.q))
  }

  predicate DisjointBlocks(c: Caller, d: Caller) {
    c.Done? && d.Done? && c.result.Some? && d.result.Some? ==>
      || c.result.value + c.q.size <= d.result.value
      || d.result.value + d.q.size <= c.result.value
  }

  /**
   Every block handed out is aligned, inside the heap and disjoint from every other; every null
   pointer was for a request that does not fit; the pointer is inside the heap.
   */
  predicate HeapOk(h: Heap) {
    && h.start <= h.next <= h.end <= HALF
    && (forall i :: 0 <= i < |h.callers| ==> CallerOk(h, h.callers[i]))
    && forall i, j :: 0 <= i < j < |h.callers| ==> DisjointBlocks(h.callers[i], h.callers[j])
  }

  lemma ActKeepsCallers(h: Heap, t: nat, i: nat)
    requires HeapOk(h) && i < |h.callers|
    ensures var h' := Act(h, t);
            && h'.start == h.start && h'.end == h.end && h.next <= h'.next <= h'.end
            && |h'.callers| == |h.callers|
            && CallerOk(h', h'.callers[i])
            && h'.callers[i].q == h.callers[i].q
            && (i != t ==> h'.callers[i] == h.callers[i])
  {
    var h' := Act(h, t);
    if t < |h.callers| {
      assert CallerOk(h, h.callers[t]);
      if h.callers[t].Loaded? {
        AlignUpBounds(h.callers[t].current, h.callers[t].q.align);
      }
    }
    var c := h.callers[i];
    assert CallerOk(h, c);
    if c.Done? && c.result.None? && Fits(h'.next, h.end, c.q) {
      FitsShrinks(h.next, h'.next, h.end, c.q);
    }
    if i == t && c.Loaded? && Fits(h.next, h.end, c.q) {
      FitsShrinks(c.current, h.next, h.end, c.q);
    }
  }

  /** Safety of one action. */
  lemma ActKeepsHeapOk(h: Heap, t: nat)
    requires HeapOk(h)
    ensures HeapOk(Act(h, t)) && Act(h, t).next >= h.next
    ensures |Act(h, t).callers| == |h.callers| && Act(h, t).end == h.end && Act(h, t).start == h.start
  {
    var h' := Act(h, t);
    forall i | 0 <= i < |h.callers|
      ensures |h'.callers| == |h.callers| && CallerOk(h', h'.callers[i])
      ensures h'.start == h.start && h'.end == h.end && h.next <= h'.next <= h'.end
    {
      ActKeepsCallers(h, t, i);
    }
    forall i, j | 0 <= i < j < |h'.callers|
      ensures DisjointBlocks(h'.callers[i], h'.callers[j])
    {
      NewBlockDisjoint(h, t, i, j);
      NewBlockDisjoint(h, t, j, i);
    }
  }

  /** A block is handed out at or above the pointer, so above every block handed out before. */
  lemma NewBlockDisjoint(h: Heap, t: nat, i: nat, j: nat)
    requires HeapOk(h) && i < |h.callers| && j < |h.callers| && i != j
    ensures |Act(h, t).callers| == |h.callers|
    ensures j != t ==> DisjointBlocks(Act(h, t).callers[i], Act(h, t).callers[j])
  {
    var h' := Act(h, t);
    assert CallerOk(h, h.callers[i]) && CallerOk(h, h.callers[j]);
    if i < j {
      assert DisjointBlocks(h.callers[i], h.callers[j]);
    } else {
      assert DisjointBlocks(h.callers[j], h.callers[i]);
    }
    if i == t && h.callers[i].Loaded? {
      AlignUpBounds(h.callers[i].current, h.callers[i].q.align);
    }
  }

  function RunActs(h: Heap, ts: seq<nat>): (r: Heap)
    requires HeapOk(h)
    ensures HeapOk(r)
    decreases |ts|
  {
    if ts == [] then h
    else
      ActKeepsHeapOk(h, ts[0]);
      RunActs(Act(h, ts[0]), ts[1..])
  }

  /** Safety under every interleaving, and the pointer only grows. */
  lemma {:induction false} AllocatorSafety(h: Heap, ts: seq<nat>)
    requires HeapOk(h)
    ensures var r := RunActs(h, ts);
            && HeapOk(r)
            && h.next <= r.next <= r.end && r.start == h.start && r.end == h.end
            && |r.callers| == |h.callers|
    decreases |ts|
  {
    if ts != [] {
      ActKeepsHeapOk(h, ts[0]);
      AllocatorSafety(Act(h, ts[0]), ts[1..]);
    }
  }

  // --- Termination under interference ---

  /** How many more actions caller `t` can take before it returns. */
  function Remaining(h: Heap, t: nat): nat
    requires HeapOk(h) && t < |h.callers|
  {
    assert CallerOk(h, h.callers[t]);
    match h.callers[t]
    case Done(_, _) => 0
    case Starting(_) => 2 * (h.end - h.next) + 2
    case Loaded(_, current) => 2 * (h.end - current) + 1
  }

  /** Its own actions shorten what remains; a failed exchange does so because the pointer moved up. */
  lemma RemainingShrinks(h: Heap, t: nat, u: nat)
    requires HeapOk(h) && t < |h.callers|
    ensures HeapOk(Act(h, u)) && t < |Act(h, u).callers|
    ensures Remaining(Act(h, u), t) <= Remaining(h, t)
    ensures u == t && Remaining(h, t) > 0 ==> Remaining(Act(h, u), t) < Remaining(h, t)
  {
    ActKeepsHeapOk(h, u);
    ActKeepsCallers(h, u, t);
    assert CallerOk(h, h.callers[t]);
  }

  /**
   Termination: a call returns after at most `2 * (end - next) + 2` of its own actions, however
   many actions of other callers are interleaved with them.
   */
  lemma {:induction false} AllocTerminates(h: Heap, ts: seq<nat>, t: nat)
    requires HeapOk(h) && t < |h.callers|
    requires multiset(ts)[t] >= Remaining(h, t)
    ensures t < |RunActs(h, ts).callers| && RunActs(h, ts).callers[t].Done?
    decreases |ts|
  {
    AllocatorSafety(h, ts);
    if ts != [] {
      assert ts == [ts[0]] + ts[1..];
      RemainingShrinks(h, t, ts[0]);
      AllocTerminates(Act(h, ts[0]), ts[1..], t);
    }
  }

  // --- From initialisation on ---

  /** An initialised heap with any requests about to be made. */
  function FreshHeap(start: u64, end: u64, requests: seq<Request>): Heap {
    Heap(start, end, start, seq(|requests|, i requires 0 <= i < |requests| => Starting(requests[i])))
  }

  /** Bytes handed out. */
  function HandedOut(callers: seq<Caller>): nat {
    if callers == [] then 0
    else HandedOut(callers[..|callers| - 1]) + Granted(callers[|callers| - 1])
  }

  function Granted(c: Caller): nat {
    if c.Done? && c.result.Some? then c.q.size else 0
  }

  lemma {:induction false} HandedOutUpdate(callers: seq<Caller>, t: nat, c: Caller)
    requires t < |callers|
    ensures HandedOut(callers[t := c]) == HandedOut(callers) - Granted(callers[t]) + Granted(c)
    decreases |callers|
  {
    var n := |callers| - 1;
    if t == n {
      assert callers[t := c][..n] == callers[..n];
    } else {
      assert callers[t := c][..n] == callers[..n][t := c];
      HandedOutUpdate(callers[..n], t, c);
    }
  }

  /** The pointer moves exactly when a block is granted, and then by at least its size. */
  lemma ActGrants(h: Heap, t: nat)
    requires HeapOk(h)
    ensures HandedOut(Act(h, t).callers) - HandedOut(h.callers) <= Act(h, t).next - h.next
    ensures Act(h, t).next != h.next ==> t < |h.callers| == |Act(h, t).callers| && Act(h, t).callers[t].Done?
                                         && Act(h, t).callers[t].result.Some?
  {
    if t < |h.callers| {
      assert CallerOk(h, h.callers[t]);
      if h.callers[t].Loaded? {
        AlignUpBounds(h.callers[t].current, h.callers[t].q.align);
      }
      HandedOutUpdate(h.callers, t, Act(h, t).callers[t]);
    }
  }

  lemma {:induction false} RunGrants(h: Heap, ts: seq<nat>)
    requires HeapOk(h)
    ensures HandedOut(RunActs(h, ts).callers) - HandedOut(h.callers) <= RunActs(h, ts).next - h.next
    decreases |ts|
  {
    if ts != [] {
      ActGrants(h, ts[0]);
      ActKeepsHeapOk(h, ts[0]);
      RunGrants(Act(h, ts[0]), ts[1..]);
    }
  }

  lemma {:induction false} NothingHandedOut(callers: seq<Caller>)
    requires forall i :: 0 <= i < |callers| ==> callers[i].Starting?
    ensures HandedOut(callers) == 0
    decreases |callers|
  {
    if callers != [] {
      NothingHandedOut(callers[..|callers| - 1]);
    }
  }

  // --- The heap as a sequence of blocks ---

  /** Caller `t` has been granted a block. */
  predicate HasBlock(h: Heap, t: nat) {
    t < |h.callers| && h.callers[t].Done? && h.callers[t].result.Some?
  }

  datatype Block = Block(owner: nat, base: nat, size: nat, align: nat)

  /** Where the block after the first `k` can start: the end of the block before, or the heap's start. */
  function BlockEnd(start: nat, blocks: seq<Block>, k: nat): nat
    requires k <= |blocks|
  {
    if k == 0 then start else blocks[k - 1].base + blocks[k - 1].size
  }

  /**
   Blocks of a bump allocator that serves one request after the other: each is the first aligned
   address from the end of the block before, and the pointer is the end of the last.
   */
  predicate Packed(start: nat, blocks: seq<Block>, next: nat) {
    && (forall k :: 0 <= k < |blocks| ==>
          && blocks[k].align > 0 && blocks[k].base % blocks[k].align == 0
          && BlockEnd(start, blocks, k) <= blocks[k].base < BlockEnd(start, blocks, k) + blocks[k].align)
    && next == BlockEnd(start, blocks, |blocks|)
  }

  predicate IsBlockOf(h: Heap, b: Block) {
    && HasBlock(h, b.owner)
    && var c := h.callers[b.owner];
       b.base == c.result.value && b.size == c.q.size && b.align == c.q.align
  }

  /** These are the blocks granted so far, one for each caller that has one. */
  predicate AreBlocks(h: Heap, blocks: seq<Block>) {
    && (forall k :: 0 <= k < |blocks| ==> IsBlockOf(h, blocks[k]))
    && (forall i, j :: 0 <= i < j < |blocks| ==> blocks[i].owner != blocks[j].owner)
    && forall t :: 0 <= t < |h.callers| && HasBlock(h, t) ==> exists k :: 0 <= k < |blocks| && blocks[k].owner == t
  }

  /** Does this action grant a block? */
  predicate Exchanges(h: Heap, t: nat)
    requires HeapOk(h)
  {
    && t < |h.callers| && h.callers[t].Loaded? && h.next == h.callers[t].current
    && assert CallerOk(h, h.callers[t]); Fits(h.next, h.end, h.callers[t].q)
  }

  /** The granted blocks after the action. */
  function BlocksAfter(h: Heap, t: nat, blocks: seq<Block>): seq<Block>
    requires HeapOk(h)
  {
    if Exchanges(h, t) then
      assert CallerOk(h, h.callers[t]);
      var q := h.callers[t].q;
      blocks + [Block(t, AlignUp(h.next, q.align), q.size, q.align)]
    else blocks
  }

  lemma AppendPacked(start: nat, blocks: seq<Block>, next: nat, b: Block)
    requires Packed(start, blocks, next) && b.align > 0 && b.base % b.align == 0 && next <= b.base < next + b.align
    ensures Packed(start, blocks + [b], b.base + b.size)
  {
    var more := blocks + [b];
    assert forall k :: 0 <= k <= |blocks| ==> BlockEnd(start, more, k) == BlockEnd(start, blocks, k);
  }

  lemma ActKeepsPacked(h: Heap, t: nat, blocks: seq<Block>)
    requires HeapOk(h) && Packed(h.start, blocks, h.next)
    ensures Packed(h.start, BlocksAfter(h, t, blocks), Act(h, t).next)
  {
    if t < |h.callers| {
      assert CallerOk(h, h.callers[t]);
    }
    if Exchanges(h, t) {
      var q := h.callers[t].q;
      AlignUpBounds(h.next, q.align);
      AlignedIsMultiple(AlignUp(h.next, q.align), q.align);
      AppendPacked(h.start, blocks, h.next, Block(t, AlignUp(h.next, q.align), q.size, q.align));
    }
  }

  lemma ActKeepsBlocks(h: Heap, t: nat, blocks: seq<Block>)
    requires HeapOk(h) && AreBlocks(h, blocks)
    ensures AreBlocks(Act(h, t), BlocksAfter(h, t, blocks))
  {
    var h', blocks' := Act(h, t), BlocksAfter(h, t, blocks);
    if t < |h.callers| {
      assert CallerOk(h, h.callers[t]);
    }
    forall k | 0 <= k < |blocks|
      ensures IsBlockOf(h', blocks[k]) && (Exchanges(h, t) ==> blocks[k].owner != t)
    {
      assert IsBlockOf(h, blocks[k]);
    }
    forall u | 0 <= u < |h'.callers| && HasBlock(h', u)
      ensures exists k :: 0 <= k < |blocks'| && blocks'[k].owner == u
    {
      if HasBlock(h, u) {
        var k :| 0 <= k < |blocks| && blocks[k].owner == u;
        assert blocks'[k].owner == u;
      } else {
        assert Exchanges(h, t) && u == t;
        assert blocks'[|blocks|].owner == u;
      }
    }
  }

  /** Under every interleaving the granted blocks, in the order of the exchanges, are packed. */
  lemma {:induction false} RunKeepsPacked(h: Heap, ts: seq<nat>, blocks: seq<Block>) returns (r: seq<Block>)
    requires HeapOk(h) && Packed(h.start, blocks, h.next) && AreBlocks(h, blocks)
    ensures Packed(h.start, r, RunActs(h, ts).next) && AreBlocks(RunActs(h, ts), r) && blocks <= r
    decreases |ts|
  {
    if ts == [] {
      r := blocks;
    } else {
      ActKeepsHeapOk(h, ts[0]);
      ActKeepsPacked(h, ts[0], blocks);
      ActKeepsBlocks(h, ts[0], blocks);
      r := RunKeepsPacked(Act(h, ts[0]), ts[1..], BlocksAfter(h, ts[0], blocks));
    }
  }

  /** Every caller is served the request it made. */
  lemma {:induction false} RunKeepsRequests(h: Heap, ts: seq<nat>, i: nat)
    requires HeapOk(h) && i < |h.callers|
    ensures i < |RunActs(h, ts).callers| && RunActs(h, ts).callers[i].q == h.callers[i].q
    decreases |ts|
  {
    if ts != [] {
      ActKeepsHeapOk(h, ts[0]);
      ActKeepsCallers(h, ts[0], i);
      RunKeepsRequests(Act(h, ts[0]), ts[1..], i);
    }
  }

  /**
   A caller that loads and exchanges without interference gets the first aligned address if the
   block fits there, and null otherwise; the pointer moves to the block's end or not at all.
   */
  lemma CallAlone(h: Heap, t: nat)
    requires HeapOk(h) && t < |h.callers| && h.callers[t].Starting?
    ensures HeapOk(Act(h, t)) && RequestOk(h.callers[t].q)
    ensures var q := h.callers[t].q;
            var aligned := AlignUp(h.next, q.align);
            Act(Act(h, t), t) ==
            if aligned + q.size <= h.end
            then h.(next := aligned + q.size, callers := h.callers[t := Done(q, Some(aligned))])
            else h.(callers := h.callers[t := Done(q, None)])
  {
    ActKeepsHeapOk(h, t);
    assert CallerOk(h, h.callers[t]);
    AlignUpBounds(h.next, h.callers[t].q.align);
  }

  /**
   From initialisation on, under every interleaving of any requests: the blocks handed out are
   those of a bump allocator serving the granted requests one after the other; they are aligned,
   inside the heap and pairwise disjoint, null answers only requests that do not fit, and no
   more is handed out than the pointer has moved.
   */
  lemma EveryInterleaving(start: u64, end: u64, requests: seq<Request>, ts: seq<nat>)
    requires start <= end <= HALF
    requires forall i :: 0 <= i < |requests| ==> RequestOk(requests[i])
    ensures HeapOk(FreshHeap(start, end, requests))
    ensures var r := RunActs(FreshHeap(start, end, requests), ts);
            && HeapOk(r) && r.start == start && r.end == end && |r.callers| == |requests|
            && HandedOut(r.callers) <= r.next - start <= end - start
            && (exists blocks :: Packed(start, blocks, r.next) && AreBlocks(r, blocks))
            && forall i :: 0 <= i < |requests| ==> r.callers[i].q == requests[i]
  {
    var h := FreshHeap(start, end, requests);
    var blocks := RunKeepsPacked(h, ts, []);
    forall i | 0 <= i < |requests|
      ensures i < |RunActs(h, ts).callers| && RunActs(h, ts).callers[i].q == requests[i]
    {
      RunKeepsRequests(h, ts, i);
    }
    AllocatorSafety(h, ts);
    RunGrants(h, ts);
    NothingHandedOut(h.callers);
  }
}
