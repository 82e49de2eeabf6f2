/** The pointer-chase list of the memory benchmark, with a fixed stride: built in place, then walked. */
module Chase {
  import opened CpuSet
  import opened Balance

  const WIDTH: nat := 8
  const HOPS_PER_LOOP: nat := 16

  /** Where slot `k` starts. */
  function Slot(k: nat, step: nat): nat { if k == 0 then 0 else Slot(k - 1, step) + step }

  lemma {:induction false} SlotMono(j: nat, k: nat, step: nat)
    requires j < k
    ensures Slot(j, step) + step <= Slot(k, step)
  {
    if j < k - 1 { SlotMono(j, k - 1, step); }
  }

  lemma {:induction false} SlotIs(k: nat, step: nat)
    ensures Slot(k, step) == k * step
  {
    if k > 0 { SlotIs(k - 1, step); }
  }

  /** All slots of the buffer fit the list. */
  lemma SlotsFit(size: nat, stride: nat)
    requires stride > 0 && stride % WIDTH == 0
    ensures Slot(size / stride, stride / WIDTH) <= size / WIDTH
  {
    var m, step := size / stride, stride / WIDTH;
    SlotIs(m, step);
    assert m * (WIDTH * step) == WIDTH * (m * step);
  }

  /** The first `n` links lead from each slot to the next. */
  ghost predicate Linked(list: seq<int>, n: nat, step: nat) {
    && Slot(n, step) < |list|
    && forall k: nat | k < n :: Slot(k, step) < |list| && list[Slot(k, step)] == Slot(k + 1, step)
  }

  ghost predicate IsSlot(i: nat, m: nat, step: nat) { exists k: nat :: k < m && i == Slot(k, step) }

  /** Outside the first `m` slots the list is as it was filled. */
  ghost predicate Untouched(list: seq<int>, m: nat, step: nat) {
    forall i: nat | i < |list| && !IsSlot(i, m, step) :: list[i] == -1
  }

  /** `list` is one cycle through `m` slots, and nothing else. */
  ghost predicate IsCycle(list: seq<int>, m: nat, step: nat) {
    m > 0 && Linked(list, m - 1, step) && list[Slot(m - 1, step)] == 0 && Untouched(list, m, step)
  }

  /** The slot after those linked so far is inside the list and free. */
  lemma NextFree(list: seq<int>, k: nat, m: nat, step: nat)
    requires k < m && step > 0 && Slot(m, step) <= |list| && Untouched(list, k, step)
    ensures Slot(k, step) < |list| && list[Slot(k, step)] == -1
    ensures forall j: nat | j < k :: Slot(j, step) < Slot(k, step)
  {
    SlotMono(k, m, step);
    forall j: nat | j < k
      ensures Slot(j, step) < Slot(k, step)
    {
      SlotMono(j, k, step);
    }
  }

  /** Storing the link of slot `k`. */
  lemma LinkNext(list: seq<int>, k: nat, m: nat, step: nat, to: int)
    requires k < m && step > 0 && Slot(m, step) <= |list| && Untouched(list, k, step) && Linked(list, k, step)
    ensures Slot(k, step) < |list| && Untouched(list[Slot(k, step) := to], k + 1, step)
    ensures if k + 1 < m then to == Slot(k + 1, step) ==> Linked(list[Slot(k, step) := to], k + 1, step)
            else Linked(list[Slot(k, step) := to], k, step)
  {
    NextFree(list, k, m, step);
    if k + 1 < m { SlotMono(k + 1, m, step); }
    var after := list[Slot(k, step) := to];
    forall i: nat | i < |after| && !IsSlot(i, k + 1, step)
      ensures after[i] == -1
    {
      assert i != Slot(k, step);
      assert !IsSlot(i, k, step);
    }
  }

  lemma SmallMod(x: nat, n: nat)
    requires x < n
    ensures x % n == x
  {
  }

  /** The next position, one step on and short of the end. */
  method Advance(pos: nat, step: nat, length: nat) returns (next: nat)
    requires pos + step < length
    ensures next == pos + step
  {
    SmallMod(pos + step, length);
    next := (pos + step) % length;
  }

  /** The loop of `init_circular_list`.  Each slot is free when it is reached, so the probing loop for a taken
      slot is never entered. */
  method Fill(list: array<int>, m: nat, step: nat)
    requires m > 0 && step > 0 && Slot(m, step) <= list.Length
    requires forall i | 0 <= i < list.Length :: list[i] == -1
    modifies list
    ensures IsCycle(list[..], m, step)
  {
    var resident, pos := m - 1, 0;
    ghost var k := 0;
    SlotMono(0, m, step);
    while resident > 0
      invariant k + resident == m - 1 && pos == Slot(k, step) && Linked(list[..], k, step)
      invariant Untouched(list[..], k, step)
    {
      LinkNext(list[..], k, m, step, Slot(k + 1, step));
      SlotMono(k + 1, m, step);
      var next := Advance(pos, step, list.Length);
      ghost var before := list[..];
      list[pos] := next;
      assert list[..] == before[pos := next];
      NextFree(list[..], k + 1, m, step);
      assert list[next] == -1;
      pos := next;
      resident, k := resident - 1, k + 1;
    }
    LinkNext(list[..], k, m, step, 0);
    ghost var before := list[..];
    list[pos] := 0;
    assert list[..] == before[pos := 0];
  }

  /** `init_circular_list` without random access, on a buffer filled with -1. */
  method Init(list: array<int>, size: nat, stride: nat)
    requires 0 < stride <= size && stride % WIDTH == 0 && list.Length == size / WIDTH
    requires forall i | 0 <= i < list.Length :: list[i] == -1
    modifies list
    ensures IsCycle(list[..], size / stride, stride / WIDTH)
  {
    SlotsFit(size, stride);
    AtLeastOne(size, stride);
    Fill(list, size / stride, stride / WIDTH);
  }

  // -------- walking --------

  /** The slot reached after `n` hops round a cycle of `m`. */
  function Phase(n: nat, m: nat): (p: nat)
    requires m > 0
    ensures p < m
  {
    if n == 0 then 0 else if Phase(n - 1, m) + 1 == m then 0 else Phase(n - 1, m) + 1
  }

  /** It is `n` modulo the number of slots. */
  lemma {:induction false} PhaseIsMod(n: nat, m: nat)
    requires m > 0
    ensures Phase(n, m) == n % m
  {
    if n == 0 {
      DivModUnique(0, m, 0, 0);
    } else {
      PhaseIsMod(n - 1, m);
      var q, r := (n - 1) / m, (n - 1) % m;
      if r + 1 == m {
        assert (q + 1) * m == q * m + m;
        DivModUnique(n, m, q + 1, 0);
      } else {
        DivModUnique(n, m, q, r + 1);
      }
    }
  }

  lemma {:induction false} PhaseLow(n: nat, m: nat)
    requires n < m
    ensures Phase(n, m) == n
  {
    if n > 0 { PhaseLow(n - 1, m); }
  }

  /** A lap of `m` hops ends where it began. */
  lemma {:induction false} PhaseLap(n: nat, m: nat)
    requires m > 0
    ensures Phase(n + m, m) == Phase(n, m)
  {
    if n == 0 {
      PhaseLow(m - 1, m);
    } else {
      PhaseLap(n - 1, m);
    }
  }

  lemma {:induction false} PhaseLaps(laps: nat, m: nat)
    requires m > 0
    ensures Phase(laps * m, m) == 0
  {
    if laps > 0 {
      PhaseLaps(laps - 1, m);
      PhaseLap((laps - 1) * m, m);
      assert laps * m == (laps - 1) * m + m;
    }
  }

  /** One hop goes to the next slot, the last one back to the first. */
  lemma Hop(list: seq<int>, m: nat, step: nat, n: nat)
    requires IsCycle(list, m, step)
    ensures 0 <= Slot(Phase(n, m), step) < |list| && list[Slot(Phase(n, m), step)] == Slot(Phase(n + 1, m), step)
  {
    var p := Phase(n, m);
    if p < m - 1 { SlotMono(p, m - 1, step); }
  }

  /** The walk so far: hop `n` landed on slot `n` modulo the slot count. */
  ghost predicate Visits(visited: seq<nat>, m: nat, step: nat)
    requires m > 0
  {
    forall n: nat | n < |visited| :: visited[n] == Slot(Phase(n + 1, m), step)
  }

  lemma VisitNext(visited: seq<nat>, m: nat, step: nat, pos: nat)
    requires m > 0 && Visits(visited, m, step) && pos == Slot(Phase(|visited| + 1, m), step)
    ensures Visits(visited + [pos], m, step)
  {
  }

  /** One round of the walking loop: 16 hops. */
  method Round(list: array<int>, from: nat, ghost m: nat, ghost step: nat, ghost visited: seq<nat>)
    returns (pos: nat, ghost visited': seq<nat>)
    requires IsCycle(list[..], m, step) && Visits(visited, m, step) && from == Slot(Phase(|visited|, m), step)
    ensures |visited'| == |visited| + HOPS_PER_LOOP && Visits(visited', m, step)
    ensures pos == Slot(Phase(|visited'|, m), step)
  {
    pos, visited' := from, visited;
    for hop := 0 to HOPS_PER_LOOP
      invariant |visited'| == |visited| + hop && Visits(visited', m, step) && pos == Slot(Phase(|visited'|, m), step)
    {
      Hop(list[..], m, step, |visited'|);
      pos := list[pos];
      VisitNext(visited', m, step, pos);
      visited' := visited' + [pos];
    }
  }

  /** `walk_circular_list` with the hop count the benchmark computes for `m` slots: hop n lands on slot n modulo m,
      for exactly 16 laps, ending at slot 0. */
  method Walk(list: array<int>, m: nat, ghost step: nat) returns (pos: nat, ghost visited: seq<nat>)
    requires IsCycle(list[..], m, step)
    ensures pos == 0 && |visited| == HOPS_PER_LOOP * m
    ensures forall n: nat | n < |visited| :: visited[n] == (n + 1) % m * step
  {
    var count := m * HOPS_PER_LOOP;
    pos, visited := 0, [];
    var i := 0;
    ghost var rounds := 0;
    while i < count
      invariant i == rounds * HOPS_PER_LOOP == |visited| && rounds <= m
      invariant Visits(visited, m, step) && pos == Slot(Phase(|visited|, m), step)
      decreases count - i
    {
      pos, visited := Round(list, pos, m, step, visited);
      i := i + HOPS_PER_LOOP;
      rounds := rounds + 1;
    }
    PhaseLaps(HOPS_PER_LOOP, m);
    forall n: nat | n < |visited|
      ensures visited[n] == (n + 1) % m * step
    {
      PhaseIsMod(n + 1, m);
      SlotIs(Phase(n + 1, m), step);
    }
  }

  /** Hops less than a lap apart land on different slots, wherever the lap begins. */
  lemma LapDistinct(m: nat, step: nat, a: nat, b: nat)
    requires step > 0 && a < b < a + m
    ensures Slot(Phase(a, m), step) != Slot(Phase(b, m), step)
  {
    PhaseIsMod(a, m);
    PhaseIsMod(b, m);
    ModsApart(a, b, m);
    var p, q := Phase(a, m), Phase(b, m);
    if p < q { SlotMono(p, q, step); } else { SlotMono(q, p, step); }
  }

  lemma ModsApart(a: nat, b: nat, m: nat)
    requires a < b < a + m
    ensures a % m != b % m
  {
    var p, q := a / m, b / m;
    assert a == p * m + a % m && b == q * m + b % m;
    assert q > p ==> q * m >= p * m + m by { if q > p { MulLe(p + 1, q, m); } }
    assert q <= p ==> q * m <= p * m by { if q <= p { MulLe(q, p, m); } }
  }
}
