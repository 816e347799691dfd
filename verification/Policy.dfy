/**
 The task-selection policy (crates/kernel/src/sched/policy.rs), for any table size: the search
 loop, its meaning as "nearest ready slot in cyclic order, idle only as a fallback", and the
 fairness of the dispatch sequences it produces. The readiness probe is membership in a set.
 */
module Policy {
  import opened Bits

  datatype Option<+T> = None | Some(value: T)

  const IDLE: nat := 0

  /** Slot at which the search begins. */
  function Start(n: nat, current: Option<nat>): (s: nat)
    requires n > 0
    ensures s < n
  {
    match current
    case None => (IDLE + 1) % n
    case Some(c) => (c + 1) % n
  }

  /** The search from a given offset on: the specification of the loop. */
  function Search(n: nat, start: nat, offset: nat, ready: set<nat>): Option<nat>
    requires n > 0 && offset <= n
    decreases n - offset
  {
    if offset == n then (if IDLE in ready then Some(IDLE) else None)
    else
      var idx := (start + offset) % n;
      if idx != IDLE && idx in ready then Some(idx) else Search(n, start, offset + 1, ready)
  }

  function Select(n: nat, current: Option<nat>, ready: set<nat>): Option<nat> {
    if n == 0 then None else Search(n, Start(n, current), 0, ready)
  }

  /** `select_next_ready`. */
  method SelectNextReady(n: nat, current: Option<nat>, ready: set<nat>) returns (r: Option<nat>)
    ensures r == Select(n, current, ready)
  {
    if n == 0 {
      return None;
    }
    var start := match current case None => (IDLE + 1) % n case Some(c) => (c + 1) % n;
    for offset := 0 to n
      invariant Select(n, current, ready) == Search(n, start, offset, ready)
    {
      var idx := (start + offset) % n;
      if idx != IDLE && idx in ready {
        return Some(idx);
      }
    }
    return if IDLE in ready then Some(IDLE) else None;
  }

  // --- Cyclic distance ---

  /** Steps forward from slot `s` to slot `i` in a table of `n` slots. */
  function Dist(n: nat, s: nat, i: nat): (d: nat)
    requires s < n && i < n
    ensures d < n
  {
    if s <= i then i - s else i + n - s
  }

  lemma Offset(n: nat, s: nat, d: nat)
    requires s < n && d < n
    ensures (s + d) % n == (if s + d < n then s + d else s + d - n)
    ensures Dist(n, s, (s + d) % n) == d
  {
    if s + d < n {
      DivModUnique(s + d, n, 0, s + d);
    } else {
      DivModUnique(s + d, n, 1, s + d - n);
    }
  }

  /** Distances seen from the slot after `c`, in terms of distances seen from `s`. */
  lemma DistShift(n: nat, s: nat, c: nat, x: nat)
    requires s < n && c < n && x < n
    ensures Dist(n, Start(n, Some(c)), x) ==
            if Dist(n, s, x) > Dist(n, s, c) then Dist(n, s, x) - Dist(n, s, c) - 1
            else Dist(n, s, x) + n - Dist(n, s, c) - 1
  {
    assert (c + 1) % n == if c + 1 == n then 0 else c + 1;
  }

  // --- What the search finds ---

  lemma {:induction false} SearchNearest(n: nat, s: nat, offset: nat, ready: set<nat>)
    requires s < n && offset <= n
    ensures var r := Search(n, s, offset, ready);
            && (r.Some? ==> r.value < n && r.value in ready)
            && (r.Some? && r.value != IDLE ==>
                  && Dist(n, s, r.value) >= offset
                  && forall x :: x in ready && x < n && x != IDLE && Dist(n, s, x) >= offset ==>
                       Dist(n, s, r.value) <= Dist(n, s, x))
            && (r.None? || r.value == IDLE ==>
                  forall x :: x in ready && x < n && x != IDLE ==> Dist(n, s, x) < offset)
            && (r.None? ==> IDLE !in ready)
    decreases n - offset
  {
    if offset < n {
      Offset(n, s, offset);
      SearchNearest(n, s, offset + 1, ready);
      forall x | x in ready && x < n && x != IDLE && Dist(n, s, x) == offset
        ensures x == (s + offset) % n
      {
      }
    }
  }

  /** A normal slot is chosen exactly when one is ready, and then the cyclically nearest one. */
  lemma SelectMeaning(n: nat, current: Option<nat>, ready: set<nat>)
    requires n > 0
    ensures var r := Select(n, current, ready);
            && (r.None? <==> forall x :: x in ready ==> x >= n)
            && (r == Some(IDLE) <==> IDLE in ready && forall x :: x in ready && x < n ==> x == IDLE)
            && (r.Some? ==> r.value < n && r.value in ready)
            && (r.Some? && r.value != IDLE ==>
                  forall x :: x in ready && x < n && x != IDLE ==>
                    Dist(n, Start(n, current), r.value) <= Dist(n, Start(n, current), x))
  {
    SearchNearest(n, Start(n, current), 0, ready);
  }

  /** Out of boot the search starts at slot 1. */
  lemma SelectFirst(n: nat, ready: set<nat>)
    requires n > 1 && 1 in ready
    ensures Select(n, None, ready) == Some(1)
  {
    assert (IDLE + 1) % n == 1;
  }

  // --- Waiting time ---

  /** How far slot `j` is from being chosen: the search passes this many slots before it. */
  function Gap(n: nat, current: Option<nat>, j: nat): nat
    requires j < n
  {
    Dist(n, Start(n, current), j)
  }

  /** Every selection made while `j` is ready picks `j` or brings it strictly nearer. */
  lemma GapDecreases(n: nat, current: Option<nat>, ready: set<nat>, j: nat)
    requires IDLE < j < n && j in ready
    ensures var r := Select(n, current, ready);
            && r.Some? && r.value < n && r.value != IDLE && r.value in ready
            && (r.value != j ==> Gap(n, r, j) < Gap(n, current, j))
  {
    SelectMeaning(n, current, ready);
    DistShift(n, Start(n, current), Select(n, current, ready).value, j);
  }

  /** A waiting slot is never more than `n - 2` slots away. */
  lemma GapBound(n: nat, current: Option<nat>, j: nat)
    requires IDLE < j < n && current != Some(j)
    requires current.Some? ==> current.value < n
    ensures Gap(n, current, j) <= n - 2
  {
    match current
    case None =>
      assert (IDLE + 1) % n == 1;
    case Some(c) =>
      DistShift(n, j, c, j);
  }

  // --- Dispatch sequences ---

  /** `d[k+1]` is what the policy selects after `d[k]` when the slots in `ready[k]` are ready. */
  predicate Dispatches(n: nat, d: seq<nat>, ready: seq<set<nat>>) {
    && |d| == |ready| + 1
    && (forall k :: 0 <= k < |d| ==> d[k] < n)
    && forall k :: 0 <= k < |ready| ==> Select(n, Some(d[k]), ready[k]) == Some(d[k + 1])
  }

  lemma DispatchesTail(n: nat, d: seq<nat>, ready: seq<set<nat>>)
    requires Dispatches(n, d, ready) && |ready| > 0
    ensures Dispatches(n, d[1..], ready[1..])
  {
  }

  /**
   One selection, seen on a dial that starts at slot `s`: if a ready normal slot lies beyond
   the current position `t`, the nearest such slot is chosen.
   */
  lemma NextOnDial(n: nat, s: nat, c: nat, t: int, ready: set<nat>, j: nat)
    requires s < n && c < n && IDLE < j < n && j in ready
    requires t == Dist(n, s, c) || (t == -1 && Dist(n, s, c) == n - 1)
    requires Dist(n, s, j) > t
    ensures var r := Select(n, Some(c), ready);
            && r.Some? && r.value < n && r.value != IDLE && r.value in ready
            && t < Dist(n, s, r.value)
            && forall x :: x in ready && IDLE < x < n && Dist(n, s, x) > t ==>
                 Dist(n, s, r.value) <= Dist(n, s, x)
  {
    SelectMeaning(n, Some(c), ready);
    var v := Select(n, Some(c), ready).value;
    DistShift(n, s, c, v);
    forall x | x in ready && IDLE < x < n && Dist(n, s, x) > t
      ensures t < Dist(n, s, v) <= Dist(n, s, x)
    {
      DistShift(n, s, c, x);
    }
  }

  lemma DialInjective(n: nat, s: nat, x: nat, y: nat)
    requires s < n && x < n && y < n && Dist(n, s, x) == Dist(n, s, y)
    ensures x == y
  {
  }

  /** The rest of a sweep of the dial, up to the next dispatch of `j`. */
  lemma {:induction false} Sweep(n: nat, d: seq<nat>, ready: seq<set<nat>>, j: nat, i: nat, t: int)
    requires Dispatches(n, d, ready) && |d| >= 2
    requires IDLE < j < n && IDLE < i < n && i != j
    requires forall k :: 0 <= k < |ready| ==> i in ready[k] && j in ready[k]
    requires d[|d| - 1] == j && forall k :: 1 <= k < |d| - 1 ==> d[k] != j
    requires (t == -1 && d[0] == j) || (t == Dist(n, Start(n, Some(j)), d[0]) && d[0] != j)
    ensures multiset(d[1..])[i] == if t < Dist(n, Start(n, Some(j)), i) then 1 else 0
    ensures IDLE !in d[1..]
    decreases |d|
  {
    var s := Start(n, Some(j));
    DistShift(n, j, j, j);
    assert Dist(n, s, j) == n - 1;
    if d[0] != j && t == n - 1 {
      DialInjective(n, s, d[0], j);
    }
    var v := d[1];
    assert Select(n, Some(d[0]), ready[0]) == Some(v);
    NextOnDial(n, s, d[0], t, ready[0], j);
    assert d[1..] == [v] + d[2..];
    if v == j {
      assert d[2..] == [];
      if t < Dist(n, s, i) && Dist(n, s, i) == n - 1 {
        DialInjective(n, s, i, j);
      }
    } else {
      assert d[1..][1..] == d[2..];
      DispatchesTail(n, d, ready);
      Sweep(n, d[1..], ready[1..], j, i, Dist(n, s, v));
      if v != i && Dist(n, s, v) == Dist(n, s, i) {
        DialInjective(n, s, v, i);
      }
    }
  }

  /**
   Exact round robin: between two consecutive dispatches of a normal slot `j`, every other
   normal slot that stays schedulable is dispatched exactly once, and idle not at all.
   */
  lemma ExactRoundRobin(n: nat, d: seq<nat>, ready: seq<set<nat>>, j: nat, i: nat)
    requires Dispatches(n, d, ready) && |d| >= 2
    requires IDLE < j < n && IDLE < i < n && i != j
    requires forall k :: 0 <= k < |ready| ==> i in ready[k] && j in ready[k]
    requires d[0] == j && d[|d| - 1] == j && forall k :: 1 <= k < |d| - 1 ==> d[k] != j
    ensures multiset(d)[i] == 1 && IDLE !in d
  {
    Sweep(n, d, ready, j, i, -1);
    assert d == [j] + d[1..];
  }

  /** The ready normal slots beyond position `t` of the dial that starts at `s`. */
  ghost function Ahead(n: nat, s: nat, t: int, ready: set<nat>): set<nat>
    requires s < n
  {
    set x | x in ready && IDLE < x < n && Dist(n, s, x) > t
  }

  lemma {:induction false} AheadInOrder(n: nat, s: nat, d: seq<nat>, ready: seq<set<nat>>, fixed: set<nat>, t: int)
    requires Dispatches(n, d, ready) && s < n
    requires forall k :: 0 <= k < |ready| ==> ready[k] == fixed
    requires t == Dist(n, s, d[0]) || (t == -1 && Dist(n, s, d[0]) == n - 1)
    requires |d| == |Ahead(n, s, t, fixed)| + 1
    ensures multiset(d[1..]) == multiset(Ahead(n, s, t, fixed))
    decreases |d|
  {
    var rest := Ahead(n, s, t, fixed);
    if rest == {} {
      assert d[1..] == [];
    } else {
      var j :| j in rest;
      var v := d[1];
      assert Select(n, Some(d[0]), ready[0]) == Some(v);
      NextOnDial(n, s, d[0], t, fixed, j);
      var t' := Dist(n, s, v);
      forall x | x in rest
        ensures x == v || x in Ahead(n, s, t', fixed)
      {
        if Dist(n, s, x) == t' {
          DialInjective(n, s, x, v);
        }
      }
      assert rest == {v} + Ahead(n, s, t', fixed) && v !in Ahead(n, s, t', fixed);
      DispatchesTail(n, d, ready);
      AheadInOrder(n, s, d[1..], ready[1..], fixed, t');
      assert d[1..] == [v] + d[1..][1..];
      assert multiset(rest) == multiset{v} + multiset(Ahead(n, s, t', fixed));
    }
  }

  /**
   With a fixed set of ready slots, any window of as many dispatches as there are ready normal
   slots dispatches each of them exactly once.
   */
  lemma WindowIsPermutation(n: nat, d: seq<nat>, ready: seq<set<nat>>, fixed: set<nat>)
    requires Dispatches(n, d, ready)
    requires forall k :: 0 <= k < |ready| ==> ready[k] == fixed
    requires |ready| == |set x | x in fixed && IDLE < x < n|
    ensures multiset(d[1..]) == multiset(set x | x in fixed && IDLE < x < n)
  {
    var s := Start(n, Some(d[0]));
    DistShift(n, d[0], d[0], d[0]);
    assert Ahead(n, s, -1, fixed) == set x | x in fixed && IDLE < x < n;
    AheadInOrder(n, s, d, ready, fixed, -1);
  }
}
