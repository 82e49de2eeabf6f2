/** How one group hands CPUs to its members.

    A group owns `total`, marks `used` CPUs as claimed, and starts a new round
    (`roll` + 1, nothing used) whenever everything is claimed. */
module Allocator {
  import opened CpuSet

  const INT_MAX: int := 0x7fff_ffff

  /** The part of a group's attribute that steers placement: `s` CPUs per topology block. */
  datatype Mode = Mode(s: nat, perCpu: bool, compact: bool)

  datatype Claims = Claims(total: set<nat>, used: set<nat>, roll: int)

  /** Where a thread goes: its position and the CPUs it may run on. */
  datatype Seat = Seat(target: nat, cpus: set<nat>)

  function Free(c: Claims): set<nat> { c.total - c.used }

  function SumLoads(loads: seq<int>, a: nat, k: nat): int
    requires a + k <= |loads|
  {
    if k == 0 then 0 else SumLoads(loads, a, k - 1) + loads[a + k - 1]
  }

  /** For each CPU the summed load of the `s` CPUs from it on. */
  function BlockLoads(loads: seq<int>, s: nat): seq<int> {
    seq(|loads|, a requires 0 <= a < |loads| => if a + s <= |loads| then SumLoads(loads, a, s) else 0)
  }

  ghost predicate InRange(x: set<nat>, n: nat) {
    forall c | c in x :: c < n
  }

  /** The blocks `find_idlest_set` compares: first CPU available, load below the initial bound. */
  ghost function Candidates(loads: seq<int>, free: set<nat>, s: nat): set<nat>
    requires s > 0 && InRange(free, |loads|)
  {
    set a | a in free && a % s == 0 && BlockLoads(loads, s)[a] < INT_MAX
  }

  /** First CPU of the block `find_idlest_set` returns. */
  ghost function IdlestBlock(loads: seq<int>, free: set<nat>, s: nat): nat
    requires s > 0 && free != {} && InRange(free, |loads|)
  {
    var cand := Candidates(loads, free, s);
    if cand == {} then Start(Min(free), s) else Pick(cand, BlockLoads(loads, s))
  }

  /** What the search loops need: whole blocks of CPUs the machine has. */
  ghost predicate Workable(s: nat, c: Claims, n: nat) {
    s > 0 && n > 0 && n % s == 0 && InRange(c.total, n)
  }

  /** First CPU of the block handed out next.  With nothing unclaimed the search ends at CPU 0 when a block has
      several CPUs; for single CPUs the original then reads outside its load table. */
  ghost function NextBlock(loads: seq<int>, free: set<nat>, s: nat): (a: nat)
    requires s > 0 && |loads| > 0 && |loads| % s == 0 && InRange(free, |loads|)
    ensures a % s == 0 && a + s <= |loads|
  {
    if free == {} then
      AlignedInside(0, s, |loads|);
      0
    else
      IdlestBlockAligned(loads, free, s);
      IdlestBlock(loads, free, s)
  }

  /** What a group that is in order keeps. */
  ghost predicate Sound(s: nat, c: Claims, n: nat) {
    && s > 0 && n % s == 0
    && c.total != {} && InRange(c.total, n) && Blocky(c.total, s)
    && c.used <= c.total
  }

  /** Some CPU is unclaimed. */
  ghost predicate Ready(c: Claims) { Free(c) != {} }

  /** The next placement stays inside: some CPU is unclaimed, or the block the search ends at is the group's. */
  ghost predicate Open(c: Claims) { Ready(c) || 0 in c.total }

  function BlockOf(m: Mode, target: nat): set<nat>
    requires m.s > 0
  {
    Block(Start(target, m.s), m.s)
  }

  /** The CPU `wayca_group_assign_thread_resource` aims at. */
  ghost function Target(m: Mode, c: Claims, loads: seq<int>): (t: nat)
    requires Workable(m.s, c, |loads|)
    ensures t < |loads|
  {
    var free := Free(c);
    if |free| % m.s != 0 && m.compact then
      LooseCount(free, m.s);
      Min(Loose(free, m.s))
    else
      var a := NextBlock(loads, free, m.s);
      assert a in Block(a, m.s);
      Pick(Block(a, m.s), loads)
  }

  function SeatAt(m: Mode, target: nat): Seat
    requires m.s > 0
  {
    Seat(target, if m.perCpu then {target} else BlockOf(m, target))
  }

  /** The CPUs a thread at `target` marks as used. */
  function ClaimAt(m: Mode, target: nat): set<nat>
    requires m.s > 0
  {
    if m.compact then {target} else BlockOf(m, target)
  }

  function Claim(c: Claims, x: set<nat>): Claims {
    if c.used + x == c.total then Claims(c.total, {}, c.roll + 1) else c.(used := c.used + x)
  }

  /** Taking CPUs back starts by reopening the last round when nothing is marked used. */
  function Reopen(c: Claims): Claims {
    if c.used == {} then Claims(c.total, c.total, c.roll - 1) else c
  }

  function Xor(x: set<nat>, y: set<nat>): set<nat> { (x - y) + (y - x) }

  function ReleaseThread(m: Mode, c: Claims, seat: Seat): Claims {
    var o := Reopen(c);
    if m.compact && !m.perCpu then o.(used := o.used - {seat.target}) else o.(used := Xor(o.used, seat.cpus))
  }

  function ReleaseGroup(c: Claims, x: set<nat>): Claims {
    var o := Reopen(c);
    o.(used := Xor(o.used, x))
  }

  // -------- idlest choice --------

  lemma AlignedInside(a: nat, s: nat, n: nat)
    requires s > 0 && n % s == 0 && a % s == 0 && a < n
    ensures a + s <= n
  {
    MultiplesApart(a, n, s);
  }

  lemma IdlestBlockAligned(loads: seq<int>, free: set<nat>, s: nat)
    requires s > 0 && |loads| % s == 0 && free != {} && InRange(free, |loads|)
    ensures var a := IdlestBlock(loads, free, s);
      a % s == 0 && a + s <= |loads| && exists d :: d in free && Start(d, s) == a
  {
    var cand := Candidates(loads, free, s);
    var d := if cand == {} then Min(free) else Pick(cand, BlockLoads(loads, s));
    assert d in free;
    StartFacts(d, s);
    if cand != {} { StartUnique(d, d, s); }
    AlignedInside(Start(d, s), s, |loads|);
  }

  /** In a group that is open the block is wholly inside it; in one that is not, wholly outside. */
  lemma NextBlockInside(loads: seq<int>, c: Claims, s: nat)
    requires Sound(s, c, |loads|)
    ensures |loads| > 0
    ensures var a := NextBlock(loads, Free(c), s);
      if Open(c) then a in c.total && Block(a, s) <= c.total else Block(a, s) !! c.total
  {
    var free := Free(c);
    var a := NextBlock(loads, free, s);
    if free == {} {
      StartUnique(0, 0, s);
      forall d | d in Block(0, s) && d in c.total
        ensures 0 in c.total
      {
        StartUnique(0, d, s);
        assert 0 in Block(Start(d, s), s);
      }
    } else {
      IdlestBlockAligned(loads, free, s);
      var d :| d in free && Start(d, s) == a;
      assert a in Block(Start(d, s), s);
    }
  }

  /** `find_idlest_set` in words: the lowest-numbered block of least summed load among the blocks
      whose first CPU is available, as long as some such sum is below `INT_MAX`, and else the block of the first
      available CPU. */
  ghost predicate IsIdlest(loads: seq<int>, free: set<nat>, s: nat, a: nat)
    requires s > 0 && free != {}
  {
    if exists b :: b in free && b % s == 0 && b + s <= |loads| && SumLoads(loads, b, s) < INT_MAX then
      && a in free && a % s == 0 && a + s <= |loads|
      && (forall b | b in free && b % s == 0 :: b + s <= |loads| && SumLoads(loads, a, s) <= SumLoads(loads, b, s)
            && (b < a ==> SumLoads(loads, a, s) < SumLoads(loads, b, s)))
    else
      a == Start(Min(free), s)
  }

  lemma IdlestBlockMeaning(loads: seq<int>, free: set<nat>, s: nat)
    requires s > 0 && |loads| % s == 0 && free != {} && InRange(free, |loads|)
    ensures IsIdlest(loads, free, s, IdlestBlock(loads, free, s))
  {
    var w := BlockLoads(loads, s);
    forall b | b in free && b % s == 0
      ensures b + s <= |loads| && w[b] == SumLoads(loads, b, s)
    {
      AlignedInside(b, s, |loads|);
    }
    var cand := Candidates(loads, free, s);
    forall b | b in free && b % s == 0 && b !in cand
      ensures SumLoads(loads, b, s) >= INT_MAX
    {
    }
    if b :| b in free && b % s == 0 && b + s <= |loads| && SumLoads(loads, b, s) < INT_MAX {
      assert b in cand;
    }
  }

  // -------- which CPU a thread is aimed at --------

  /** CPU `t` has the least load of the block from `a`, and no CPU before it has as little. */
  ghost predicate IdlestIn(loads: seq<int>, a: nat, s: nat, t: nat) {
    && a + s <= |loads| && a <= t < a + s
    && forall d | a <= d < a + s :: loads[t] <= loads[d] && (d < t ==> loads[t] < loads[d])
  }

  /** The block the search among the unclaimed CPUs ends at: the idlest, or with nothing unclaimed the first. */
  ghost predicate Chosen(loads: seq<int>, free: set<nat>, s: nat, a: nat)
    requires s > 0
  {
    if free == {} then a == 0 else IsIdlest(loads, free, s, a)
  }

  /** Where the next thread belongs: in a compact group with a block claimed in part, on the first unclaimed CPU of
      such a block, and else on the idlest CPU of the chosen block. */
  ghost predicate Aims(m: Mode, c: Claims, loads: seq<int>, t: nat)
    requires m.s > 0
  {
    var free := c.total - c.used;
    if m.compact && |free| % m.s != 0 then
      && t in free && !(Block(Start(t, m.s), m.s) <= free)
      && forall d | d in free && !(Block(Start(d, m.s), m.s) <= free) :: t <= d
    else
      exists a :: Chosen(loads, free, m.s, a) && IdlestIn(loads, a, m.s, t)
  }

  /** The thread is aimed there. */
  lemma TargetMeaning(m: Mode, c: Claims, loads: seq<int>)
    requires Workable(m.s, c, |loads|)
    ensures Aims(m, c, loads, Target(m, c, loads))
  {
    var free := Free(c);
    if |free| % m.s != 0 && m.compact {
      LooseMin(free, m.s);
    } else {
      var a := NextBlock(loads, free, m.s);
      NextBlockChosen(loads, free, m.s);
      PickIdlest(loads, a, m.s);
    }
  }

  lemma LooseMin(free: set<nat>, s: nat)
    requires s > 0 && |free| % s != 0
    ensures Loose(free, s) != {}
    ensures var t := Min(Loose(free, s));
      && t in free && !(Block(Start(t, s), s) <= free)
      && forall d | d in free && !(Block(Start(d, s), s) <= free) :: t <= d
  {
    LooseCount(free, s);
    forall d | d in free && !(Block(Start(d, s), s) <= free)
      ensures d in Loose(free, s)
    {
    }
  }

  lemma NextBlockChosen(loads: seq<int>, free: set<nat>, s: nat)
    requires s > 0 && |loads| > 0 && |loads| % s == 0 && InRange(free, |loads|)
    ensures Chosen(loads, free, s, NextBlock(loads, free, s))
  {
    if free != {} { IdlestBlockMeaning(loads, free, s); }
  }

  lemma PickIdlest(loads: seq<int>, a: nat, s: nat)
    requires s > 0 && a + s <= |loads|
    ensures Block(a, s) != {} && IdlestIn(loads, a, s, Pick(Block(a, s), loads))
  {
    assert a in Block(a, s);
    forall d | a <= d < a + s
      ensures d in Block(a, s)
    {
    }
  }

  /** There is one such CPU only. */
  lemma AimsUnique(m: Mode, c: Claims, loads: seq<int>, t: nat, t': nat)
    requires Workable(m.s, c, |loads|) && Aims(m, c, loads, t) && Aims(m, c, loads, t')
    ensures t == t'
  {
    var free := c.total - c.used;
    if !(m.compact && |free| % m.s != 0) {
      var a :| Chosen(loads, free, m.s, a) && IdlestIn(loads, a, m.s, t);
      var b :| Chosen(loads, free, m.s, b) && IdlestIn(loads, b, m.s, t');
      ChosenUnique(loads, free, m.s, a, b);
      IdlestUnique(loads, a, m.s, t, t');
    }
  }

  lemma IdlestUnique(loads: seq<int>, a: nat, s: nat, t: nat, t': nat)
    requires IdlestIn(loads, a, s, t) && IdlestIn(loads, a, s, t')
    ensures t == t'
  {
    assert loads[t] <= loads[t'] <= loads[t];
  }

  lemma ChosenUnique(loads: seq<int>, free: set<nat>, s: nat, a: nat, b: nat)
    requires s > 0 && Chosen(loads, free, s, a) && Chosen(loads, free, s, b)
    ensures a == b
  {
    if e :| free != {} && e in free && e % s == 0 && e + s <= |loads| && SumLoads(loads, e, s) < INT_MAX {
      assert a in free && a % s == 0 && b in free && b % s == 0;
      assert SumLoads(loads, a, s) <= SumLoads(loads, b, s) <= SumLoads(loads, a, s);
    }
  }

  // -------- one placement --------

  lemma TargetInside(m: Mode, c: Claims, loads: seq<int>)
    requires Sound(m.s, c, |loads|)
    ensures |loads| > 0 && (Target(m, c, loads) in c.total <==> Open(c))
  {
    var free := Free(c);
    if |free| % m.s != 0 && m.compact {
      LooseCount(free, m.s);
    } else {
      NextBlockInside(loads, c, m.s);
    }
  }

  /** Claiming a block when nothing is unclaimed starts a new round. */
  lemma ClaimWhenFull(c: Claims, x: set<nat>)
    requires c.used <= c.total && !Ready(c)
    ensures c.used == c.total && (x <= c.total ==> Claim(c, x) == Claims(c.total, {}, c.roll + 1))
    ensures !(x <= c.total) ==> !(Claim(c, x).used <= c.total)
  {
    forall d | d in c.total
      ensures d in c.used
    {
      assert d !in Free(c);
    }
  }

  /** A placement in an open group stays inside it, and leaves it with an unclaimed CPU. */
  lemma PlacementInside(m: Mode, c: Claims, loads: seq<int>)
    requires Sound(m.s, c, |loads|) && Open(c)
    ensures |loads| > 0
    ensures var t := Target(m, c, loads);
      && t in SeatAt(m, t).cpus && SeatAt(m, t).cpus <= c.total
      && t in ClaimAt(m, t) && ClaimAt(m, t) <= c.total
      && Sound(m.s, Claim(c, ClaimAt(m, t)), |loads|)
      && Ready(Claim(c, ClaimAt(m, t)))
  {
    TargetInside(m, c, loads);
    var t := Target(m, c, loads);
    StartFacts(t, m.s);
    ClaimInside(m.s, c, ClaimAt(m, t), |loads|);
  }

  /** In a group that is not open it goes outside, and the marks with it. */
  lemma PlacementOutside(m: Mode, c: Claims, loads: seq<int>)
    requires Sound(m.s, c, |loads|) && !Open(c)
    ensures |loads| > 0
    ensures var t := Target(m, c, loads);
      !(SeatAt(m, t).cpus <= c.total) && !Sound(m.s, Claim(c, ClaimAt(m, t)), |loads|)
  {
    TargetInside(m, c, loads);
    var t := Target(m, c, loads);
    StartFacts(t, m.s);
    ClaimWhenFull(c, ClaimAt(m, t));
  }

  lemma ClaimInside(s: nat, c: Claims, x: set<nat>, n: nat)
    requires Sound(s, c, n) && x <= c.total
    ensures Sound(s, Claim(c, x), n)
    ensures Ready(Claim(c, x))
  {
    if c.used + x != c.total {
      var d :| d in c.total && d !in c.used + x;
      assert d in Free(Claim(c, x));
    } else {
      assert Free(Claim(c, x)) == c.total;
    }
  }
}
