/** The loops over the per-CPU load table: updating it and finding the idlest CPUs. */
module LoadTable {
  import opened CpuSet
  import opened Topology
  import opened Allocator
  import opened Library
  import opened CpuScan

  /** `wayca_thread_update_load`: add or take off a thread's load on each of its CPUs. */
  method UpdateLoad(loads: array<int>, cpus: set<nat>, add: bool)
    requires InRange(cpus, loads.Length) && loads.Length <= CPU_SETSIZE
    modifies loads
    ensures loads[..] == if add then AddLoad(old(loads[..]), cpus) else SubLoad(old(loads[..]), cpus)
  {
    var cnt := |cpus|;
    if cnt == 0 {
      assert loads[..] == AddLoad(loads[..], cpus) && loads[..] == SubLoad(loads[..], cpus);
      return;
    }
    var load: int := LoadOf(loads.Length, cpus);
    ShiftLoads(loads, cpus, if add then load else -load);
  }

  /** The CPUs of `cpus` below `pos` have been shifted. */
  ghost predicate Shifted(before: seq<int>, now: seq<int>, cpus: set<nat>, load: int, pos: nat) {
    |now| == |before| && forall c: nat | c < |now| :: now[c] == before[c] + if c in cpus && c < pos then load else 0
  }

  lemma ShiftedNext(before: seq<int>, now: seq<int>, cpus: set<nat>, load: int, pos: nat, next: nat)
    requires Shifted(before, now, cpus, load, pos) && pos < |now| && pos in cpus && pos < next
    requires forall c: nat | pos < c < next && c < |now| :: c !in cpus
    ensures Shifted(before, now[pos := now[pos] + load], cpus, load, next)
  {
  }

  method ShiftLoads(loads: array<int>, cpus: set<nat>, load: int)
    requires InRange(cpus, loads.Length) && loads.Length <= CPU_SETSIZE
    modifies loads
    ensures loads[..] == Shift(old(loads[..]), cpus, load)
  {
    ghost var before := loads[..];
    var pos := FindFrom(cpus, 0);
    while pos >= 0
      invariant -1 <= pos < loads.Length && (pos >= 0 ==> pos in cpus)
      invariant Shifted(before, loads[..], cpus, load, if pos == -1 then loads.Length else pos)
      decreases if pos < 0 then 0 else loads.Length - pos
    {
      ghost var now := loads[..];
      loads[pos] := loads[pos] + load;
      var next := FindFrom(cpus, pos + 1);
      ShiftedNext(before, now, cpus, load, pos, if next == -1 then loads.Length else next);
      assert loads[..] == now[pos := now[pos] + load];
      pos := next;
    }
  }

  /** `find_idlest_core`: the lowest-numbered CPU of least load. */
  method FindIdlestCore(loads: array<int>, x: set<nat>) returns (idlest: nat)
    requires x != {} && InRange(x, loads.Length) && loads.Length <= CPU_SETSIZE
    ensures idlest == Pick(x, loads[..])
  {
    var pos := FindFrom(x, 0);
    var some :| some in x;
    idlest := pos;
    var load := loads[pos];
    while pos <= FindLast(x) && pos >= 0
      invariant -1 <= pos < loads.Length && (pos >= 0 ==> pos in x)
      invariant idlest in x && load == loads[idlest]
      invariant forall d | d in x && (pos == -1 || d < pos) :: load <= loads[d] && (d < idlest ==> load < loads[d])
      invariant pos >= 0 ==> idlest <= pos
      decreases if pos < 0 then 0 else loads.Length - pos
    {
      if load > loads[pos] {
        load := loads[pos];
        idlest := pos;
      }
      pos := FindFrom(x, pos + 1);
    }
    PickUnique(x, loads[..], idlest);
  }

  /** The candidates below `pos`. */
  ghost function Seen(loads: seq<int>, free: set<nat>, s: nat, pos: int): set<nat>
    requires s > 0 && InRange(free, |loads|)
  {
    set a | a in Candidates(loads, free, s) && a < pos
  }

  lemma SeenNext(loads: seq<int>, free: set<nat>, s: nat, pos: nat)
    requires s > 0 && InRange(free, |loads|) && pos % s == 0
    ensures Seen(loads, free, s, pos + s) ==
      Seen(loads, free, s, pos) + if pos in Candidates(loads, free, s) then {pos} else {}
  {
    forall a | a in Candidates(loads, free, s) && pos <= a < pos + s
      ensures a == pos
    {
      MultiplesApart(a, pos, s);
    }
  }

  /** The remainder as C takes it, towards zero. */
  function Rem(a: int, s: nat): int
    requires s > 0
  {
    if a >= 0 then a % s else -((-a) % s)
  }

  /** Where the search starts: at the first block with an available CPU, or at CPU 0. */
  ghost function FirstPos(free: set<nat>, s: nat): nat
    requires s > 0
  {
    if free == {} then 0 else Start(Min(free), s)
  }

  lemma FirstPosIs(free: set<nat>, s: nat)
    requires s > 0 && (free != {} || s > 1)
    ensures var first := if free == {} then -1 else Min(free);
      first - Rem(first, s) == FirstPos(free, s) && FirstPos(free, s) % s == 0
  {
    if free == {} { assert 1 % s == 1; } else { StartFacts(Min(free), s); }
  }

  /** With nothing available the first set CPU is -1; unless blocks are single CPUs, taking off its remainder gives
      0. */
  method FirstBlock(free: set<nat>, s: nat) returns (pos: nat)
    requires s > 0 && InRange(free, CPU_SETSIZE) && (free != {} || s > 1)
    ensures pos == FirstPos(free, s) && pos % s == 0
  {
    var first := FindFrom(free, 0);
    FirstPosIs(free, s);
    assert first == if free == {} then -1 else Min(free);
    pos := first - Rem(first, s);
  }

  /** The least loaded of the blocks below `pos` whose first CPU is available, or the start. */
  ghost predicate IdlestSoFar(loads: seq<int>, free: set<nat>, s: nat, pos: int, idlest: int, load: int)
    requires s > 0 && InRange(free, |loads|)
  {
    var seen, w := Seen(loads, free, s, pos), BlockLoads(loads, s);
    if seen == {} then idlest == FirstPos(free, s) && load == INT_MAX
    else idlest in seen && load == w[idlest] && forall d | d in seen :: load <= w[d] && (d < idlest ==> load < w[d])
  }

  lemma IdlestEnd(loads: seq<int>, free: set<nat>, s: nat, pos: nat, idlest: int, load: int)
    requires s > 0 && |loads| > 0 && |loads| % s == 0 && InRange(free, |loads|)
    requires IdlestSoFar(loads, free, s, pos, idlest, load)
    requires forall c | c in free :: c < pos
    ensures idlest == NextBlock(loads, free, s)
  {
    assert Seen(loads, free, s, pos) == Candidates(loads, free, s);
    if Candidates(loads, free, s) != {} { PickUnique(Candidates(loads, free, s), BlockLoads(loads, s), idlest); }
  }

  /** `find_idlest_set`: the block of `s` CPUs the next member gets. */
  method FindIdlestSet(loads: array<int>, s: nat, free: set<nat>) returns (block: set<nat>)
    requires s > 0 && InRange(free, loads.Length) && 0 < loads.Length <= CPU_SETSIZE && loads.Length % s == 0
    requires free != {} || s > 1
    ensures block == Block(NextBlock(loads[..], free, s), s)
  {
    var pos := FirstBlock(free, s);
    var idlest, load := pos, INT_MAX;
    assert Seen(loads[..], free, s, pos) == {} by { SeenNone(loads[..], free, s); }
    while pos <= FindLast(free)
      invariant 0 <= pos && pos % s == 0 && IdlestSoFar(loads[..], free, s, pos, idlest, load)
      decreases CPU_SETSIZE - pos
    {
      SeenNext(loads[..], free, s, pos);
      AddMod(pos, s, s);
      if pos in free {
        AlignedInside(pos, s, loads.Length);
        var tload := SumBlock(loads, pos, s);
        if tload < load {
          idlest := pos;
          load := tload;
        }
      }
      pos := pos + s;
    }
    IdlestEnd(loads[..], free, s, pos, idlest, load);
    block := MakeBlock(idlest, s);
  }

  lemma SeenNone(loads: seq<int>, free: set<nat>, s: nat)
    requires s > 0 && InRange(free, |loads|)
    ensures Seen(loads, free, s, FirstPos(free, s)) == {}
  {
    if free != {} { StartFacts(Min(free), s); }
  }

  method SumBlock(loads: array<int>, pos: nat, s: nat) returns (sum: int)
    requires pos + s <= loads.Length
    ensures sum == SumLoads(loads[..], pos, s)
  {
    sum := 0;
    for i := 0 to s
      invariant sum == SumLoads(loads[..], pos, i)
    {
      sum := sum + loads[pos + i];
    }
  }

  method MakeBlock(pos: nat, s: nat) returns (block: set<nat>)
    ensures block == Block(pos, s)
  {
    block := {};
    for i := pos to pos + s
      invariant block == Block(pos, i - pos)
    {
      block := block + {i};
    }
  }

  const ENODATA: int := 61

  /** Whole blocks, or a part of one. */
  ghost predicate Chunky(x: set<nat>, s: nat)
    requires s > 0
  {
    Blocky(x, s) || exists b: nat :: PartOf(x, b, s)
  }

  ghost predicate PartOf(x: set<nat>, b: nat, s: nat)
    requires s > 0
  {
    b % s == 0 && x <= Block(b, s)
  }

  /** The first available CPU at or after `anchor` is the first loose one, and it is within the next `s`. */
  ghost predicate Anchors(anchor: int, free: set<nat>, s: nat)
    requires s > 0 && Loose(free, s) != {}
  {
    0 <= anchor <= Min(Loose(free, s)) < anchor + s && forall c | c in free && anchor <= c :: Min(Loose(free, s)) <= c
  }

  /** Nothing loose before `pos`, and `pos` is where a stretch starts. */
  ghost predicate SearchedTo(total: set<nat>, free: set<nat>, s: nat, pos: nat)
    requires s > 0 && total != {}
  {
    if Blocky(total, s) then pos % s == 0 && forall c | c in Loose(free, s) :: pos <= c
    else pos == Min(total) || (pos == Min(total) + s && Loose(free, s) == {})
  }

  lemma SearchStart(total: set<nat>, free: set<nat>, s: nat)
    requires s > 0 && total != {} && free <= total
    ensures SearchedTo(total, free, s, Min(total))
  {
    if Blocky(total, s) {
      StartFacts(Min(total), s);
      assert Start(Min(total), s) in Block(Start(Min(total), s), s);
    }
  }

  lemma SearchNext(total: set<nat>, free: set<nat>, s: nat, pos: nat)
    requires s > 0 && total != {} && Chunky(total, s) && free <= total && SearchedTo(total, free, s, pos)
    requires Blocky(total, s) || pos == Min(total)
    ensures var k := |Block(pos, s) * free|;
      if k != s && k != 0 then Loose(free, s) != {} && Anchors(pos, free, s) else SearchedTo(total, free, s, pos + s)
  {
    if Blocky(total, s) {
      PartlyFree(free, s, pos);
      AddMod(pos, s, s);
      if |Block(pos, s) * free| != s && |Block(pos, s) * free| != 0 { AnchorsAt(free, s, pos); }
    } else {
      PartlyFreeInside(total, free, s);
    }
  }

  /** Part of a block does not reach as far as `s` CPUs after its first. */
  lemma PartShort(total: set<nat>, s: nat)
    requires s > 0 && total != {} && Chunky(total, s) && !Blocky(total, s)
    ensures forall c | c in total :: c < Min(total) + s
  {
  }

  /** `find_incomplete_set`: where the first stretch of `total` starts that is partly, but not wholly, in `free`. */
  method FindIncompleteSet(s: nat, total: set<nat>, free: set<nat>) returns (anchor: int)
    requires s > 0 && total != {} && Chunky(total, s) && free <= total && InRange(total, CPU_SETSIZE)
    ensures if Loose(free, s) == {} then anchor == -ENODATA else Anchors(anchor, free, s)
  {
    var pos := FindFrom(total, 0);
    assert pos == Min(total);
    SearchStart(total, free, s);
    while pos <= FindLast(total)
      invariant 0 <= pos && SearchedTo(total, free, s, pos)
      decreases CPU_SETSIZE - pos
    {
      if !Blocky(total, s) { PartShort(total, s); }
      SearchNext(total, free, s, pos);
      var tset := MakeBlock(pos, s);
      tset := tset * free;
      if |tset| != s && |tset| != 0 {
        anchor := pos;
        return;
      }
      pos := pos + s;
    }
    assert forall c | c in Loose(free, s) :: c in total;
    anchor := -ENODATA;
  }

  lemma AnchorsAt(free: set<nat>, s: nat, pos: nat)
    requires s > 0 && pos % s == 0 && (forall c | c in Loose(free, s) :: pos <= c)
    requires exists c :: c in Loose(free, s) && c in Block(pos, s)
    ensures Anchors(pos, free, s)
  {
    var first := Min(Loose(free, s));
    StartUnique(pos, first, s);
    forall c | c in free && pos <= c
      ensures c < pos + s ==> c in Loose(free, s)
    {
      if c < pos + s { StartUnique(pos, c, s); }
    }
  }

  /** Inside one block, what is free is loose unless it is the whole block. */
  lemma PartlyFreeInside(total: set<nat>, free: set<nat>, s: nat)
    requires s > 0 && total != {} && Chunky(total, s) && !Blocky(total, s) && free <= total
    ensures var k := |Block(Min(total), s) * free|;
      if k != s && k != 0 then Loose(free, s) != {} && Anchors(Min(total), free, s) else Loose(free, s) == {}
  {
    var b: nat :| PartOf(total, b, s);
    BlockCard(b, s);
    SubsetCard(free, Block(b, s));
    assert Block(Min(total), s) * free == free;
    forall c | c in free
      ensures Start(c, s) == b
    {
      StartUnique(b, c, s);
    }
    RangeBlocky(b, s, s);
    assert |free| != s ==> Loose(free, s) == free;
  }

  /** A block is partly free exactly when it holds loose CPUs. */
  lemma PartlyFree(free: set<nat>, s: nat, pos: nat)
    requires s > 0 && pos % s == 0
    ensures var k := |Block(pos, s) * free|;
      if k != s && k != 0 then exists c :: c in Loose(free, s) && c in Block(pos, s)
      else forall c | c in Loose(free, s) :: c !in Block(pos, s)
    ensures forall c | c in Block(pos, s) :: Start(c, s) == pos
  {
    var b := Block(pos, s);
    BlockCard(pos, s);
    SubsetCard(b * free, b);
    assert b <= free <==> b * free == b;
    forall c | c in b
      ensures Start(c, s) == pos
    {
      StartUnique(pos, c, s);
    }
    if |b * free| != s && |b * free| != 0 {
      var c :| c in b * free;
      assert c in Loose(free, s);
    } else {
      assert forall c | c in b && c in free :: c in b * free;
    }
  }

  /** The compact choice: the first available CPU of the first incomplete stretch. */
  method FindInIncomplete(s: nat, total: set<nat>, free: set<nat>) returns (target: nat)
    requires s > 0 && total != {} && Chunky(total, s) && free <= total && InRange(total, CPU_SETSIZE)
    requires Loose(free, s) != {}
    ensures target == Min(Loose(free, s))
  {
    ghost var first := Min(Loose(free, s));
    var anchor := FindIncompleteSet(s, total, free);
    target := anchor;
    while target < anchor + s && target !in free
      invariant anchor <= target <= first
    {
      target := target + 1;
    }
  }

  /** What the searches need of a group: CPUs of the machine, in whole blocks or part of one, and something
      unclaimed if they are single CPUs. */
  ghost predicate Searchable(s: nat, c: Claims, n: nat) {
    Workable(s, c, n) && n <= CPU_SETSIZE && c.total != {} && Chunky(c.total, s) && (Ready(c) || s > 1)
  }

  /** The idlest CPU of the idlest block. */
  method FindIdlest(loads: array<int>, s: nat, free: set<nat>) returns (target: nat)
    requires s > 0 && InRange(free, loads.Length) && 0 < loads.Length <= CPU_SETSIZE && loads.Length % s == 0
    requires free != {} || s > 1
    ensures Block(NextBlock(loads[..], free, s), s) != {}
    ensures target == Pick(Block(NextBlock(loads[..], free, s), s), loads[..])
  {
    var block := FindIdlestSet(loads, s, free);
    assert NextBlock(loads[..], free, s) in block;
    target := FindIdlestCore(loads, block);
  }

  /** Its first half: which CPU the next thread is aimed at. */
  method ChooseTarget(loads: array<int>, m: Mode, c: Claims) returns (target: nat)
    requires Searchable(m.s, c, loads.Length)
    ensures target == Target(m, c, loads[..]) && Aims(m, c, loads[..], target)
  {
    TargetMeaning(m, c, loads[..]);
    var free := c.total - c.used;
    if |free| % m.s != 0 && m.compact {
      LooseCount(free, m.s);
      target := FindInIncomplete(m.s, c.total, free);
    } else {
      target := FindIdlest(loads, m.s, free);
    }
  }

  /** Its second half: the seat at that CPU, and the new marks. */
  method TakeSeat(m: Mode, c: Claims, target: nat) returns (seat: Seat, c': Claims)
    requires m.s > 0
    ensures seat == SeatAt(m, target) && c' == Claim(c, ClaimAt(m, target))
  {
    var block := MakeBlock(target - target % m.s, m.s);
    seat := Seat(target, if m.perCpu then {target} else block);
    var used := c.used + if m.compact then {target} else if m.perCpu then block else seat.cpus;
    if used == c.total {
      c' := Claims(c.total, {}, c.roll + 1);
    } else {
      c' := c.(used := used);
    }
  }

  /** `wayca_group_assign_thread_resource` on the group's bookkeeping: the seat and the new marks. */
  method AssignSeat(loads: array<int>, m: Mode, c: Claims) returns (seat: Seat, c': Claims)
    requires Searchable(m.s, c, loads.Length)
    ensures var t := Target(m, c, loads[..]);
      seat == SeatAt(m, t) && c' == Claim(c, ClaimAt(m, t)) && Aims(m, c, loads[..], seat.target)
  {
    var target := ChooseTarget(loads, m, c);
    seat, c' := TakeSeat(m, c, target);
  }
}
