/** Changing the attribute of a group: exactly when the group, its threads and its children end up where the
    documentation says.  The original checks the granularity the group had before, so nothing else ensures it. */
module Attributes {
  import opened CpuSet
  import opened Topology
  import opened Allocator
  import opened Balance
  import opened Library
  import opened Api
  import opened Frames
  import opened Containment
  import opened Runs
  import opened Order

  /** The documented ranges: the group owns one block of its father, its threads run inside it, and each child owns
      one block of it. */
  ghost predicate Contained(f: Forest, p: Places, g: nat)
    requires Fit(f, p) && LiveGroup(f, g)
  {
    var x := NodeOf(f, g);
    && (x.father.Some? ==>
          var h := x.father.value;
          LiveGroup(f, h) && IsBlock(p.claims[g].total, NodeOf(f, h).s) && p.claims[g].total <= p.claims[h].total)
    && (forall u | u in x.threads :: ThreadInside(p, u, g))
    && (forall c | c in x.groups ::
       c < |p.claims| && IsBlock(p.claims[c].total, x.s) && p.claims[c].total <= p.claims[g].total)
  }

  ghost predicate ThreadInside(p: Places, u: nat, g: nat)
    requires g < |p.claims|
  {
    u < |p.seats| && p.seats[u].cpus != {} && p.seats[u].cpus <= p.claims[g].total
  }

  // -------- threads of a group whose blocks overhang it --------

  /** The group's CPUs are a proper part of one block. */
  ghost predicate Overhung(total: set<nat>, s: nat) {
    total != {} && |total| < s && total <= Block(Start(Min(total), s), s)
  }

  lemma OverhungBlock(total: set<nat>, s: nat, d: nat)
    requires Overhung(total, s) && d in total
    ensures Start(d, s) == Start(Min(total), s)
  {
    StartFacts(Min(total), s);
    StartUnique(Start(Min(total), s), d, s);
  }

  lemma RegionInBlock(a: nat, k: nat, s: nat)
    requires k > 0 && s > 0 && a % k == 0 && s % k == 0
    ensures Block(a, k) <= Block(Start(a, s), s)
  {
    StartFacts(a, s);
    ModTrans(Start(a, s), s, k);
    RangeBlocky(Start(a, s), s, k);
    StartUnique(a, a, k);
  }

  lemma RegionOverhung(a: nat, k: nat, s: nat)
    requires 0 < k < s && a % k == 0 && s % k == 0
    ensures Overhung(Block(a, k), s)
  {
    RegionInBlock(a, k, s);
    BlockCard(a, k);
    assert a in Block(a, k);
    assert Min(Block(a, k)) == a;
  }

  // compact and per CPU: every thread takes the first unclaimed CPU

  ghost predicate Partly(c: Claims, s: nat) { Overhung(c.total, s) && c.used <= c.total && Ready(c) }

  lemma FirstFree(m: Mode, c: Claims, loads: seq<int>)
    requires m.compact && Partly(c, m.s) && Workable(m.s, c, |loads|)
    ensures Target(m, c, loads) in c.total && Partly(Claim(c, ClaimAt(m, Target(m, c, loads))), m.s)
  {
    var free := Free(c);
    SubsetCard(free, c.total);
    SmallMod(|free|, m.s);
    LooseCount(free, m.s);
    var t := Target(m, c, loads);
    assert t in Loose(free, m.s);
    PartlyAfter(c, t, m.s);
  }

  lemma PartlyAfter(c: Claims, t: nat, s: nat)
    requires Partly(c, s) && t in c.total
    ensures Partly(Claim(c, {t}), s)
  {
    if c.used + {t} == c.total {
      assert Free(Claim(c, {t})) == c.total;
    } else {
      var d :| d in c.total && d !in c.used + {t};
      assert d in Free(Claim(c, {t}));
    }
  }

  lemma SmallMod(k: nat, s: nat)
    requires 0 < k < s
    ensures k % s != 0
  {
  }

  lemma {:induction false} CompactInside(m: Mode, p: Places, g: nat, ts: seq<nat>)
    requires m.compact && m.perCpu && g < |p.claims| && Partly(p.claims[g], m.s)
    requires Workable(m.s, p.claims[g], |p.loads|)
    requires forall i | 0 <= i < |ts| :: ts[i] < |p.seats|
    ensures var r := SeatThreads(m, p, g, ts);
      && Partly(r.claims[g], m.s) && Workable(m.s, r.claims[g], |r.loads|) && r.claims[g].total == p.claims[g].total
      && forall u | u in ts :: ThreadInside(r, u, g)
  {
    if ts != [] {
      var ts', u := ts[..|ts| - 1], ts[|ts| - 1];
      var q := SeatThreads(m, p, g, ts');
      CompactInside(m, p, g, ts');
      FirstFree(m, q.claims[g], SubLoad(q.loads, q.seats[u].cpus));
      var r := SeatThread(m, q, g, u);
      forall v | v in ts
        ensures ThreadInside(r, v, g)
      {
        assert v in ts' || v == u;
      }
    }
  }

  // scattered and per CPU: the first thread takes the idlest CPU of the block that overhangs the group, the
  // others that of the first block of the machine

  ghost function Window(total: set<nat>, s: nat, i: nat): set<nat>
    requires Overhung(total, s)
  {
    if i == 0 then Block(Start(Min(total), s), s) else Block(0, s)
  }

  ghost predicate Windows(total: set<nat>, s: nat, n: nat) {
    Overhung(total, s) && s > 0 && n > 0 && n % s == 0 && InRange(total, n)
  }

  lemma WindowInside(total: set<nat>, s: nat, n: nat, i: nat)
    requires Windows(total, s, n)
    ensures Window(total, s, i) != {} && InRange(Window(total, s, i), n)
  {
    var a := if i == 0 then Start(Min(total), s) else 0;
    StartFacts(Min(total), s);
    AlignedInside(a, s, n);
    assert a in Block(a, s);
  }

  /** The loads after `k` of the threads moved, and where thread `i` goes: `olds` are the CPUs they come from. */
  ghost function LoadsThen(loads: seq<int>, olds: seq<set<nat>>, total: set<nat>, s: nat, k: nat): (r: seq<int>)
    requires Windows(total, s, |loads|) && k <= |olds|
    ensures |r| == |loads|
  {
    if k == 0 then loads
    else
      var l := SubLoad(LoadsThen(loads, olds, total, s, k - 1), olds[k - 1]);
      WindowInside(total, s, |loads|, k - 1);
      AddLoad(l, {Pick(Window(total, s, k - 1), l)})
  }

  ghost function PickAt(loads: seq<int>, olds: seq<set<nat>>, total: set<nat>, s: nat, i: nat): nat
    requires Windows(total, s, |loads|) && i < |olds|
  {
    WindowInside(total, s, |loads|, i);
    Pick(Window(total, s, i), SubLoad(LoadsThen(loads, olds, total, s, i), olds[i]))
  }

  ghost predicate PicksInside(loads: seq<int>, olds: seq<set<nat>>, total: set<nat>, s: nat) {
    Windows(total, s, |loads|) && forall i | 0 <= i < |olds| :: PickAt(loads, olds, total, s, i) in total
  }

  /** What a caller can check of it: from the second thread on the search ends at block [0, s), so with two or more
      threads the group must lie in that block. */
  lemma SecondPick(loads: seq<int>, olds: seq<set<nat>>, total: set<nat>, s: nat)
    requires PicksInside(loads, olds, total, s) && |olds| > 1
    ensures total <= Block(0, s)
  {
    var d := PickAt(loads, olds, total, s, 1);
    StartUnique(0, d, s);
    OverhungBlock(total, s, d);
  }

  /** What the group has marked after `k` threads: nothing, then the whole block that overhangs it. */
  ghost predicate Swamped(c: Claims, total: set<nat>, s: nat, k: nat) {
    && Overhung(total, s) && c.total == total
    && if k == 0 then c.used == {} else Block(Start(Min(total), s), s) <= c.used
  }

  lemma SwampedNext(m: Mode, c: Claims, total: set<nat>, k: nat, loads: seq<int>)
    requires !m.compact && Windows(total, m.s, |loads|) && Swamped(c, total, m.s, k)
    ensures Workable(m.s, c, |loads|) && Window(total, m.s, k) != {} && InRange(Window(total, m.s, k), |loads|)
    ensures Target(m, c, loads) == Pick(Window(total, m.s, k), loads)
    ensures Swamped(Claim(c, ClaimAt(m, Target(m, c, loads))), total, m.s, k + 1)
  {
    var s, home := m.s, Block(Start(Min(total), m.s), m.s);
    WindowInside(total, s, |loads|, k);
    StartFacts(Min(total), s);
    BlockCard(Start(Min(total), s), s);
    if k == 0 {
      assert Free(c) == total;
      IdlestBlockAligned(loads, total, s);
      var d :| d in total && Start(d, s) == NextBlock(loads, total, s);
      OverhungBlock(total, s, d);
    } else {
      assert Free(c) == {};
    }
    ScatterClaim(m, c, loads);
    var x := ClaimAt(m, Target(m, c, loads));
    assert home <= c.used + x;
    if c.used + x == total { SubsetCard(home, total); }
  }

  /** The threads `ts` come from the CPUs `olds`. */
  ghost predicate ComeFrom(p: Places, ts: seq<nat>, olds: seq<set<nat>>) {
    Distinct(ts) && |olds| == |ts| && forall i | 0 <= i < |ts| :: ts[i] < |p.seats| && p.seats[ts[i]].cpus == olds[i]
  }

  /** What holds after the first `k` of them are seated. */
  ghost predicate Picked(loads: seq<int>, r: Places, g: nat, ts: seq<nat>, olds: seq<set<nat>>, total: set<nat>, s: nat,
        k: nat)
    requires Windows(total, s, |loads|) && k <= |ts| == |olds|
  {
    && g < |r.claims| && Swamped(r.claims[g], total, s, k) && r.loads == LoadsThen(loads, olds, total, s, k)
    && (forall i | 0 <= i < k :: ts[i] < |r.seats| && r.seats[ts[i]].cpus == {PickAt(loads, olds, total, s, i)})
    && (forall i | k <= i < |ts| :: ts[i] < |r.seats| && r.seats[ts[i]].cpus == olds[i])
  }

  lemma PickedNext(loads: seq<int>, m: Mode, q: Places, g: nat, ts: seq<nat>, olds: seq<set<nat>>, total: set<nat>,
        k: nat)
    requires !m.compact && m.perCpu && Windows(total, m.s, |loads|) && k < |ts| == |olds| && Distinct(ts)
    requires Picked(loads, q, g, ts, olds, total, m.s, k)
    ensures ts[k] < |q.seats| && Picked(loads, SeatThread(m, q, g, ts[k]), g, ts, olds, total, m.s, k + 1)
  {
    var l := SubLoad(q.loads, olds[k]);
    SwampedNext(m, q.claims[g], total, k, l);
    var r := SeatThread(m, q, g, ts[k]);
    assert r.seats[ts[k]].cpus == {PickAt(loads, olds, total, m.s, k)};
    forall i | 0 <= i < |ts| && i != k
      ensures r.seats[ts[i]] == q.seats[ts[i]]
    {
      assert ts[i] != ts[k];
    }
  }

  lemma PickNext(m: Mode, p: Places, g: nat, ts: seq<nat>, olds: seq<set<nat>>, total: set<nat>, k: nat, q: Places)
    returns (r: Places)
    requires !m.compact && m.perCpu && g < |p.claims| && Windows(total, m.s, |p.loads|) && ComeFrom(p, ts, olds)
    requires k < |ts|
    requires q in PickedOnes(m, p, g, ts, olds, total, k)
    ensures r in PickedOnes(m, p, g, ts, olds, total, k + 1)
  {
    SeatThreadsNext(m, p, g, ts, k);
    PickedNext(p.loads, m, q, g, ts, olds, total, k);
    r := SeatThread(m, q, g, ts[k]);
  }

  lemma PickedFirst(p: Places, g: nat, ts: seq<nat>, olds: seq<set<nat>>, total: set<nat>, s: nat)
    requires g < |p.claims| && Windows(total, s, |p.loads|) && Swamped(p.claims[g], total, s, 0)
    requires ComeFrom(p, ts, olds)
    ensures Picked(p.loads, p, g, ts, olds, total, s, 0)
  {
  }

  lemma ScatterPicks(m: Mode, p: Places, g: nat, ts: seq<nat>, olds: seq<set<nat>>, total: set<nat>) returns (r: Places)
    requires !m.compact && m.perCpu && g < |p.claims| && Windows(total, m.s, |p.loads|)
    requires Swamped(p.claims[g], total, m.s, 0)
    requires ComeFrom(p, ts, olds)
    ensures r == SeatThreads(m, p, g, ts) && Picked(p.loads, r, g, ts, olds, total, m.s, |ts|)
  {
    Ends(ts);
    PickedFirst(p, g, ts, olds, total, m.s);
    r := p;
    for k := 0 to |ts|
      invariant r in PickedOnes(m, p, g, ts, olds, total, k)
    {
      r := PickNext(m, p, g, ts, olds, total, k, r);
    }
  }

  /** What seating the first `k` threads can lead to. */
  ghost function PickedOnes(m: Mode, p: Places, g: nat, ts: seq<nat>, olds: seq<set<nat>>, total: set<nat>,
        k: nat): iset<Places>
    requires m.s > 0 && g < |p.claims| && Windows(total, m.s, |p.loads|) && ComeFrom(p, ts, olds) && k <= |ts|
  {
    iset r: Places | r == SeatThreads(m, p, g, ts[..k]) && Picked(p.loads, r, g, ts, olds, total, m.s, k)
  }

  lemma Ends(ts: seq<nat>)
    ensures ts[..0] == [] && ts[..|ts|] == ts
  {
  }

  // bound to whole blocks: too many CPUs

  lemma {:induction false} SeatForm(m: Mode, p: Places, g: nat, ts: seq<nat>, u: nat)
    requires m.s > 0 && g < |p.claims| && u in ts && forall i | 0 <= i < |ts| :: ts[i] < |p.seats|
    ensures u < |p.seats| && exists t: nat :: SeatThreads(m, p, g, ts).seats[u] == SeatAt(m, t)
  {
    var ts', v := ts[..|ts| - 1], ts[|ts| - 1];
    var q := SeatThreads(m, p, g, ts');
    var a := Aim(m, q.claims[g], SubLoad(q.loads, q.seats[v].cpus));
    if u == v {
      assert SeatThreads(m, p, g, ts).seats[u] == SeatAt(m, a);
    } else {
      SeatForm(m, p, g, ts', u);
    }
  }

  lemma WholeBlockOverhangs(m: Mode, p: Places, g: nat, ts: seq<nat>)
    requires m.s > 0 && !m.perCpu && g < |p.claims| && ts != [] && (forall i | 0 <= i < |ts| :: ts[i] < |p.seats|)
    requires |p.claims[g].total| < m.s
    ensures !ThreadInside(SeatThreads(m, p, g, ts), ts[0], g)
  {
    var r := SeatThreads(m, p, g, ts);
    SeatForm(m, p, g, ts, ts[0]);
    SeatThreadsKeepClaims(m, p, g, ts, g);
    var t: nat :| r.seats[ts[0]] == SeatAt(m, t);
    BlockCard(Start(t, m.s), m.s);
    if r.seats[ts[0]].cpus <= r.claims[g].total { SubsetCard(r.seats[ts[0]].cpus, r.claims[g].total); }
  }

  // -------- threads, in all modes --------

  function CpusOf(p: Places, ts: seq<nat>): (r: seq<set<nat>>)
    requires forall i | 0 <= i < |ts| :: ts[i] < |p.seats|
    ensures |r| == |ts|
  {
    seq(|ts|, i requires 0 <= i < |ts| => p.seats[ts[i]].cpus)
  }

  /** Threads end up inside a group freshly given the region `total` of `room` CPUs: if a block fits, in compact
      per-CPU mode, and in scattered per-CPU mode as far as the idlest CPUs happen to lie inside. */
  ghost predicate ThreadsFit(m: Mode, p: Places, ts: seq<nat>, total: set<nat>, room: nat)
    requires forall i | 0 <= i < |ts| :: ts[i] < |p.seats|
  {
    ts == [] || m.s <= room || (m.perCpu && (m.compact || PicksInside(p.loads, CpusOf(p, ts), total, m.s)))
  }

  ghost predicate AllInside(p: Places, ts: seq<nat>, g: nat)
    requires g < |p.claims|
  {
    forall u | u in ts :: ThreadInside(p, u, g)
  }

  /** The group was just given the region [b, b + room) of a machine whose blocks nest with it. */
  ghost predicate Given(t: Topo, s: nat, p: Places, g: nat, b: nat, room: nat) {
    && Regular(t) && IsLevel(t, s) && |p.loads| == t.n && g < |p.claims|
    && IsRegion(t, Block(b, room), b, room) && p.claims[g] == Claims(Block(b, room), {}, 0)
  }

  lemma GivenSound(t: Topo, s: nat, p: Places, g: nat, b: nat, room: nat)
    requires Given(t, s, p, g, b, room)
    ensures Workable(s, p.claims[g], t.n) && Ready(p.claims[g]) && |Block(b, room)| == room
    ensures s <= room ==> Sound(s, p.claims[g], t.n)
    ensures room < s ==> Overhung(Block(b, room), s) && Windows(Block(b, room), s, t.n)
  {
    LevelDivides(t, s);
    BlockCard(b, room);
    assert b in Block(b, room) && Free(p.claims[g]) == Block(b, room);
    if s <= room {
      LevelsNest(t, s, room);
      ModTrans(b, room, s);
      RangeBlocky(b, room, s);
    } else {
      LevelsNest(t, room, s);
      RegionOverhung(b, room, s);
    }
  }

  lemma ThreadsContained(t: Topo, m: Mode, p: Places, g: nat, ts: seq<nat>, b: nat, room: nat)
    requires Given(t, m.s, p, g, b, room) && Distinct(ts) && forall i | 0 <= i < |ts| :: ts[i] < |p.seats|
    ensures AllInside(SeatThreads(m, p, g, ts), ts, g) <==> ThreadsFit(m, p, ts, Block(b, room), room)
  {
    GivenSound(t, m.s, p, g, b, room);
    if ts != [] {
      if m.s <= room {
        SeatThreadsInside(m, p, g, ts);
      } else if !m.perCpu {
        WholeBlockOverhangs(m, p, g, ts);
        assert ts[0] in ts;
      } else if m.compact {
        CompactInside(m, p, g, ts);
      } else {
        ScatterContained(m, p, g, ts, Block(b, room));
      }
    }
  }

  lemma ScatterContained(m: Mode, p: Places, g: nat, ts: seq<nat>, total: set<nat>)
    requires !m.compact && m.perCpu && g < |p.claims| && Windows(total, m.s, |p.loads|)
    requires p.claims[g] == Claims(total, {}, 0)
    requires Distinct(ts) && forall i | 0 <= i < |ts| :: ts[i] < |p.seats|
    ensures AllInside(SeatThreads(m, p, g, ts), ts, g) <==> PicksInside(p.loads, CpusOf(p, ts), total, m.s)
  {
    var r := ScatterPicks(m, p, g, ts, CpusOf(p, ts), total);
    PickedInside(p.loads, r, g, ts, CpusOf(p, ts), total, m.s);
  }

  lemma PickedInside(loads: seq<int>, r: Places, g: nat, ts: seq<nat>, olds: seq<set<nat>>, total: set<nat>, s: nat)
    requires Windows(total, s, |loads|) && |ts| == |olds| && Picked(loads, r, g, ts, olds, total, s, |ts|)
    ensures AllInside(r, ts, g) <==> PicksInside(loads, olds, total, s)
  {
    if AllInside(r, ts, g) {
      forall i | 0 <= i < |ts|
        ensures PickAt(loads, olds, total, s, i) in total
      {
        assert ts[i] in ts && ThreadInside(r, ts[i], g);
        assert PickAt(loads, olds, total, s, i) in r.seats[ts[i]].cpus;
      }
    }
    if PicksInside(loads, olds, total, s) {
      forall u | u in ts
        ensures ThreadInside(r, u, g)
      {
        var i :| 0 <= i < |ts| && ts[i] == u;
        assert PickAt(loads, olds, total, s, i) in total;
      }
    }
  }

  // -------- children --------

  ghost predicate ChildInside(p: Places, c: nat, g: nat, s: nat)
    requires g < |p.claims|
  {
    c < |p.claims| && IsBlock(p.claims[c].total, s) && p.claims[c].total <= p.claims[g].total
  }

  ghost predicate AllChildren(p: Places, gs: seq<nat>, g: nat, s: nat)
    requires g < |p.claims|
  {
    forall c | c in gs :: ChildInside(p, c, g, s)
  }

  lemma BlockSize(x: set<nat>, s: nat)
    requires IsBlock(x, s)
    ensures |x| == s
  {
    var a: nat :| a % s == 0 && x == Block(a, s);
    BlockCard(a, s);
  }

  /** One more child gets its block; the others keep theirs. */
  lemma ChildGets(t: Topo, f: Forest, p: Places, g: nat, c: nat)
    requires Woven(t, f) && Fit(f, p) && |p.loads| == t.n && LiveGroup(f, g) && LiveGroup(f, c)
    requires c in NodeOf(f, g).groups
    requires NodeOf(f, c).father == Some(g) && NodeOf(f, c).s < NodeOf(f, g).s
    requires Workable(NodeOf(f, g).s, p.claims[g], t.n)
    ensures var s, r := NodeOf(f, g).s, Replace(t, f, p, c);
      && r.claims[c].total == AimBlock(s, p.claims[g], p.loads) && IsBlock(r.claims[c].total, s)
      && r.claims[g] == Claim(p.claims[g], AimBlock(s, p.claims[g], p.loads))
      && forall d | d in NodeOf(f, g).groups && d != c :: d < |p.claims| && r.claims[d].total == p.claims[d].total
  {
    var s := NodeOf(f, g).s;
    ReplaceTotal(t, f, p, c);
    ReplaceKeepsBeyond(t, f, p, c, g);
    assert Knit(t, f, g);
    forall d | d in NodeOf(f, g).groups && d != c
      ensures d < |p.claims| && Replace(t, f, p, c).claims[d].total == p.claims[d].total
    {
      assert Knit(t, f, d);
      ReplaceKeepsBeyond(t, f, p, c, d);
    }
    assert AimBlock(s, p.claims[g], p.loads) == Block(NextBlock(p.loads, Free(p.claims[g]), s), s);
  }

  /** One more child. */
  lemma ChildNext(t: Topo, f: Forest, r: Places, g: nat, k: nat)
    requires Woven(t, f) && Fit(f, r) && |r.loads| == t.n && LiveGroup(f, g) && k < |NodeOf(f, g).groups|
    requires Sound(NodeOf(f, g).s, r.claims[g], t.n) && Ready(r.claims[g])
    requires AllChildren(r, NodeOf(f, g).groups[..k], g, NodeOf(f, g).s)
    requires var c := NodeOf(f, g).groups[k]; LiveGroup(f, c) && Knit(t, f, c) && !Refused(f, c)
    ensures var r', s := Replace(t, f, r, NodeOf(f, g).groups[k]), NodeOf(f, g).s;
      && Fit(f, r') && |r'.loads| == t.n && Sound(s, r'.claims[g], t.n) && Ready(r'.claims[g])
      && AllChildren(r', NodeOf(f, g).groups[..k + 1], g, s)
  {
    var gs, s := NodeOf(f, g).groups, NodeOf(f, g).s;
    var c := gs[k];
    assert Knit(t, f, g) && c in gs;
    ChildGets(t, f, r, g, c);
    NextBlockInside(r.loads, r.claims[g], s);
    ClaimInside(s, r.claims[g], AimBlock(s, r.claims[g], r.loads), t.n);
    var r' := Replace(t, f, r, c);
    forall d | d in gs[..k + 1]
      ensures ChildInside(r', d, g, s)
    {
      if d != c { assert d in gs[..k] && ChildInside(r, d, g, s); }
    }
  }

  /** Children that are not refused are given blocks of a group that is in order. */
  lemma ChildrenInside(t: Topo, f: Forest, p: Places, g: nat) returns (r: Places)
    requires Woven(t, f) && Fit(f, p) && |p.loads| == t.n && LiveGroup(f, g)
    requires Sound(NodeOf(f, g).s, p.claims[g], t.n) && Ready(p.claims[g])
    requires forall c | c in NodeOf(f, g).groups :: Knit(t, f, c) && !Refused(f, c)
    ensures r == ReplaceAll(t, f, p, g, NodeOf(f, g).groups) && AllChildren(r, NodeOf(f, g).groups, g, NodeOf(f, g).s)
  {
    var gs, s, k := NodeOf(f, g).groups, NodeOf(f, g).s, 0;
    assert Knit(t, f, g);
    r := p;
    while k < |gs|
      invariant k <= |gs| && Fit(f, r) && |r.loads| == t.n && r == ReplaceAll(t, f, p, g, gs[..k])
      invariant Sound(s, r.claims[g], t.n) && Ready(r.claims[g]) && AllChildren(r, gs[..k], g, s)
    {
      assert gs[k] in gs && gs[..k + 1][..k] == gs[..k];
      ChildNext(t, f, r, g, k);
      r, k := Replace(t, f, r, gs[k]), k + 1;
    }
    assert gs[..k] == gs;
  }

  lemma KeptOneMore(t: Topo, f: Forest, p: Places, g: nat, c: nat, d: nat) returns (r: Places)
    requires Woven(t, f) && Fit(f, p) && LiveGroup(f, g) && Knit(t, f, g) && c in NodeOf(f, g).groups
    requires d in NodeOf(f, g).groups
    requires Knit(t, f, c) && Refused(f, c)
    ensures Knit(t, f, d) && r == (if Refused(f, d) then p else Replace(t, f, p, d)) && Fit(f, r)
    ensures r.claims[c].total == p.claims[c].total
  {
    assert Knit(t, f, d);
    r := p;
    if !Refused(f, d) {
      ReplaceKeepsBeyond(t, f, p, d, c);
      r := Replace(t, f, p, d);
    }
  }

  /** A refused child keeps its CPUs. */
  lemma RefusedKeeps(t: Topo, f: Forest, p: Places, g: nat, c: nat) returns (r: Places)
    requires Woven(t, f) && Fit(f, p) && LiveGroup(f, g) && c in NodeOf(f, g).groups && Knit(t, f, g) && Knit(t, f, c)
    requires Refused(f, c)
    ensures r == ReplaceAll(t, f, p, g, NodeOf(f, g).groups) && Fit(f, r) && r.claims[c].total == p.claims[c].total
  {
    var gs, k := NodeOf(f, g).groups, 0;
    r := p;
    while k < |gs|
      invariant k <= |gs| && Fit(f, r) && r == ReplaceAll(t, f, p, g, gs[..k]) && r.claims[c].total == p.claims[c].total
    {
      assert gs[..k + 1][..k] == gs[..k];
      r := KeptOneMore(t, f, r, g, c, gs[k]);
      k := k + 1;
    }
    assert gs[..k] == gs;
  }

  /** A child of a group whose blocks overhang it gets more CPUs than the group has. */
  lemma ChildOverhangs(t: Topo, f: Forest, p: Places, g: nat)
    requires Woven(t, f) && Fit(f, p) && |p.loads| == t.n && Shaped(t, f, p) && LiveGroup(f, g)
    requires NodeOf(f, g).groups != []
    requires |p.claims[g].total| < NodeOf(f, g).s
    requires forall c | c in NodeOf(f, g).groups :: Knit(t, f, c) && !Refused(f, c)
    ensures var gs := NodeOf(f, g).groups;
      !ChildInside(ReplaceAll(t, f, p, g, gs), gs[|gs| - 1], g, NodeOf(f, g).s)
  {
    var gs, s := NodeOf(f, g).groups, NodeOf(f, g).s;
    var gs', c := gs[..|gs| - 1], gs[|gs| - 1];
    assert Knit(t, f, g) && c in gs && Knit(t, f, c);
    ReplaceAllShaped(t, f, p, g, gs');
    ReplaceAllKeepsTotal(t, f, p, g, gs');
    var q := ReplaceAll(t, f, p, g, gs');
    ShapeWorkable(t, f, q, g);
    ChildGets(t, f, q, g, c);
    var r := Replace(t, f, q, c);
    BlockSize(r.claims[c].total, s);
    if r.claims[c].total <= r.claims[g].total { SubsetCard(r.claims[c].total, r.claims[g].total); }
  }

  // -------- the call --------

  /** How many CPUs the group is given: its father's block, or the machine. */
  ghost function Room(st: State, g: nat): nat
    requires Usable(st) && LiveGroup(st.forest, g)
  {
    assert Knit(st.topo, st.forest, g);
    var x := NodeOf(st.forest, g);
    if x.father.Some? then NodeOf(st.forest, x.father.value).s else st.topo.n
  }

  /** Which CPUs it is given. */
  ghost function Region(st: State, g: nat): set<nat>
    requires Usable(st) && LiveGroup(st.forest, g)
  {
    assert Knit(st.topo, st.forest, g);
    var x := NodeOf(st.forest, g);
    if x.father.Some? then
      AimBlock(NodeOf(st.forest, x.father.value).s, st.places.claims[x.father.value], st.places.loads)
    else AllCpus(st.topo.n)
  }

  /** What a caller can check before giving group `g` the granularity and binding of `m`: the father has a block
      left, the granularity is above the children's and at most the father's if there are children, and the threads
      fit the block. */
  ghost predicate Fitting(st: State, g: nat, m: Mode)
    requires Usable(st) && LiveGroup(st.forest, g)
  {
    var f, p, x := st.forest, st.places, NodeOf(st.forest, g);
    assert Knit(st.topo, f, g) && forall i | 0 <= i < |x.threads| :: x.threads[i] in x.threads;
    && (x.father.Some? ==> Open(p.claims[x.father.value]))
    && (x.groups == [] || MaxChild(f, x.groups) < m.s <= Room(st, g))
    && ThreadsFit(m, p, x.threads, Region(st, g), Room(st, g))
  }

  function NewMode(r: Arranged): Mode
    requires r.Arranged?
  {
    Mode(r.s, IsPerCpu(r.attribute), IsCompact(r.attribute))
  }

  /** In a library in order only unknown groups and attributes fail. */
  lemma AttributeAccepted(st: State, g: nat, a: bv64)
    requires Inv(st)
    ensures SetAttribute(st, g, a).Done? <==> LiveGroup(st.forest, g) && Arrange(st.topo, a).Arranged?
  {
    if LiveGroup(st.forest, g) { NeverRefused(st.topo, st.forest, g); }
  }

  /** The state between the request and the re-placing of the members. */
  lemma AfterRequest(st: State, g: nat, a: bv64) returns (q: Places, b: nat)
    requires Inv(st) && LiveGroup(st.forest, g) && Arrange(st.topo, a).Arranged?
    ensures var r, p := Arrange(st.topo, a), st.places;
      var f' := Retag(st.forest, g, r.attribute, r.s);
      && Woven(st.topo, f') && Linked(f') && q == Request(f', p, g) && Shaped(st.topo, f', q)
      && Given(st.topo, r.s, q, g, b, Room(st, g)) && Block(b, Room(st, g)) == Region(st, g)
      && q.seats == p.seats && q.loads == p.loads
      && forall c | c in NodeOf(st.forest, g).groups :: c < |p.claims| && q.claims[c] == p.claims[c]
  {
    var t, f, p, r := st.topo, st.forest, st.places, Arrange(st.topo, a);
    var f', x := Retag(f, g, r.attribute, r.s), NodeOf(f, g);
    RetagWoven(st, g, a);
    WovenLinked(t, f');
    SameShape(t, f, f', p);
    assert Knit(t, f', g) && NodeOk(t, f, g);
    RequestShaped(t, f', p, g);
    q := Request(f', p, g);
    ArrangedLevel(t, a);
    b := 0;
    if x.father.Some? {
      var h := x.father.value;
      LevelOf(t, f, h);
      ShapeWorkable(t, f, p, h);
      b := NextBlock(p.loads, Free(p.claims[h]), NodeOf(f, h).s);
    } else {
      DividesEnds(t.n);
    }
    forall c | c in x.groups
      ensures c < |p.claims| && q.claims[c] == p.claims[c]
    {
      assert NodeOk(t, f, c);
    }
  }

  /** Whether a child is refused depends on the new granularity alone. */
  lemma ChildRefused(st: State, g: nat, a: bv64, c: nat)
    requires Inv(st) && LiveGroup(st.forest, g) && Arrange(st.topo, a).Arranged? && c in NodeOf(st.forest, g).groups
    ensures var r := Arrange(st.topo, a);
      var f' := Retag(st.forest, g, r.attribute, r.s);
      LiveGroup(f', c) && NodeOf(f', c) == NodeOf(st.forest, c) && Knit(st.topo, f', c)
        && (Refused(f', c) <==> NodeOf(st.forest, c).s >= r.s)
  {
    var t, f, r := st.topo, st.forest, Arrange(st.topo, a);
    var f' := Retag(f, g, r.attribute, r.s);
    assert NodeOk(t, f, g) && NodeOk(t, f, c);
    RetagKnit(st, g, a, c);
    NeverRefused(t, f, c);
    forall d | d in NodeOf(f, c).groups
      ensures LiveGroup(f, d) && LiveGroup(f', d) && NodeOf(f', d).s == NodeOf(f, d).s
    {
      assert NodeOk(t, f, d);
    }
    MaxChildSame(f, f', NodeOf(f, c).groups);
  }

  /** Children that are not refused are inside if and only if the group's blocks are. */
  lemma FinerContained(t: Topo, f: Forest, q: Places, g: nat, b: nat, room: nat)
    requires Woven(t, f) && Fit(f, q) && |q.loads| == t.n && Shaped(t, f, q) && LiveGroup(f, g)
    requires NodeOf(f, g).groups != []
    requires Given(t, NodeOf(f, g).s, q, g, b, room)
    requires forall c | c in NodeOf(f, g).groups :: Knit(t, f, c) && !Refused(f, c)
    ensures AllChildren(ReplaceAll(t, f, q, g, NodeOf(f, g).groups), NodeOf(f, g).groups, g, NodeOf(f, g).s) <==>
      NodeOf(f, g).s <= room
  {
    var gs := NodeOf(f, g).groups;
    GivenSound(t, NodeOf(f, g).s, q, g, b, room);
    if NodeOf(f, g).s <= room {
      var after := ChildrenInside(t, f, q, g);
    } else {
      ChildOverhangs(t, f, q, g);
      assert gs[|gs| - 1] in gs;
    }
  }

  lemma ChildrenContained(st: State, g: nat, a: bv64, q: Places)
    requires Inv(st) && LiveGroup(st.forest, g) && Arrange(st.topo, a).Arranged? && NodeOf(st.forest, g).groups != []
    requires var r := Arrange(st.topo, a);
      var f' := Retag(st.forest, g, r.attribute, r.s);
      && Woven(st.topo, f') && Fit(f', q) && |q.loads| == st.topo.n && Shaped(st.topo, f', q)
      && exists b :: Given(st.topo, r.s, q, g, b, Room(st, g))
    requires forall c | c in NodeOf(st.forest, g).groups ::
      c < |st.places.claims| && c < |q.claims| && q.claims[c] == st.places.claims[c]
    ensures var r, x := Arrange(st.topo, a), NodeOf(st.forest, g);
      var f' := Retag(st.forest, g, r.attribute, r.s);
      && (forall c | c in x.groups :: LiveGroup(st.forest, c))
      && (AllChildren(ReplaceAll(st.topo, f', q, g, x.groups), x.groups, g, r.s) <==>
         MaxChild(st.forest, x.groups) < r.s <= Room(st, g))
  {
    var t, f, p, r, x := st.topo, st.forest, st.places, Arrange(st.topo, a), NodeOf(st.forest, g);
    var f' := Retag(f, g, r.attribute, r.s);
    assert Knit(t, f, g) && Knit(t, f', g);
    forall c | c in x.groups { ChildRefused(st, g, a, c); }
    if forall c | c in x.groups :: NodeOf(f, c).s < r.s {
      MaxChildBelow(f, x.groups, r.s);
      var b :| Given(t, r.s, q, g, b, Room(st, g));
      FinerContained(t, f', q, g, b, Room(st, g));
    } else {
      var c :| c in x.groups && NodeOf(f, c).s >= r.s;
      MaxChildOf(f, x.groups, c);
      var after := RefusedKeeps(t, f', q, g, c);
      RefusedOutside(st, g, c, r.s, after);
    }
  }

  /** A refused child keeps its block of the old granularity, which is none of the new one. */
  lemma RefusedOutside(st: State, g: nat, c: nat, s: nat, after: Places)
    requires Inv(st) && LiveGroup(st.forest, g) && c in NodeOf(st.forest, g).groups && LiveGroup(st.forest, c)
    requires 0 < s <= NodeOf(st.forest, c).s
    requires g < |after.claims| && c < |after.claims| && c < |st.places.claims|
    requires after.claims[c].total == st.places.claims[c].total
    ensures !ChildInside(after, c, g, s)
  {
    var x := NodeOf(st.forest, g);
    assert Knit(st.topo, st.forest, g) && Placed(st.forest, st.places, c) && NodeOk(st.topo, st.forest, c);
    BlockSize(st.places.claims[c].total, x.s);
    if ChildInside(after, c, g, s) { BlockSize(after.claims[c].total, s); }
  }

  /** The father keeps its CPUs, so the group is inside them exactly when the father was open. */
  lemma RegionContained(st: State, g: nat, a: bv64)
    requires Inv(st) && LiveGroup(st.forest, g) && Arrange(st.topo, a).Arranged? && NodeOf(st.forest, g).father.Some?
    ensures var r, p, h := Arrange(st.topo, a), st.places, NodeOf(st.forest, g).father.value;
      var f' := Retag(st.forest, g, r.attribute, r.s);
      && Woven(st.topo, f') && LiveGroup(st.forest, h)
      && var p' := Replace(st.topo, f', p, g);
         && IsBlock(p'.claims[g].total, NodeOf(f', h).s)
         && (p'.claims[g].total <= p'.claims[h].total <==> Open(p.claims[h]))
  {
    var t, f, p, r := st.topo, st.forest, st.places, Arrange(st.topo, a);
    var f', h := Retag(f, g, r.attribute, r.s), NodeOf(f, g).father.value;
    RetagWoven(st, g, a);
    assert NodeOk(t, f, g) && Knit(t, f', g) && Placed(f, p, h);
    ReplaceTotal(t, f', p, g);
    if Under(f', h, g) {
      UnderSame(f, f', h, g);
      UnderFiner(t, f, h, g);
    }
    ReplaceKeeps(t, f', p, g, h);
    var s := NodeOf(f, h).s;
    NextBlockInside(p.loads, p.claims[h], s);
    var b := NextBlock(p.loads, Free(p.claims[h]), s);
    assert b in Block(b, s) && b % s == 0;
  }

  /** From a library in order, giving group `g` a known attribute leaves the group, its threads and its children
      in their documented ranges if and only if the attribute is fitting. */
  lemma AttributeContains(st: State, g: nat, a: bv64)
    requires Inv(st) && LiveGroup(st.forest, g) && Arrange(st.topo, a).Arranged?
    ensures SetAttribute(st, g, a).Done?
    ensures var st' := SetAttribute(st, g, a).st;
      Fit(st'.forest, st'.places) && LiveGroup(st'.forest, g) &&
      (Contained(st'.forest, st'.places, g) <==> Fitting(st, g, NewMode(Arrange(st.topo, a))))
  {
    AttributeAccepted(st, g, a);
    RetagWoven(st, g, a);
    if NodeOf(st.forest, g).father.Some? { RegionContained(st, g, a); }
    MembersContained(st, g, a);
  }

  /** The members' part of it. */
  lemma MembersContained(st: State, g: nat, a: bv64)
    requires Inv(st) && LiveGroup(st.forest, g) && Arrange(st.topo, a).Arranged?
    ensures var r, f, x, p := Arrange(st.topo, a), st.forest, NodeOf(st.forest, g), st.places;
      var f', m := Retag(f, g, r.attribute, r.s), NewMode(r);
      && Woven(st.topo, f') && (forall c | c in x.groups :: LiveGroup(f, c))
      && (forall i | 0 <= i < |x.threads| :: x.threads[i] < |p.seats|)
      && var p' := Replace(st.topo, f', p, g);
         && (AllInside(p', x.threads, g) <==> ThreadsFit(m, p, x.threads, Region(st, g), Room(st, g)))
         && (AllChildren(p', x.groups, g, r.s) <==> x.groups == [] || MaxChild(f, x.groups) < m.s <= Room(st, g))
  {
    var t, f, p, r := st.topo, st.forest, st.places, Arrange(st.topo, a);
    var q, b := AfterRequest(st, g, a);
    var f', x := Retag(f, g, r.attribute, r.s), NodeOf(f, g);
    assert Knit(t, f, g) && Knit(t, f', g) && forall i | 0 <= i < |x.threads| :: x.threads[i] in x.threads;
    if x.threads != [] {
      ThreadsContained(t, NewMode(r), q, g, x.threads, b, Room(st, g));
      assert CpusOf(q, x.threads) == CpusOf(p, x.threads);
    } else if x.groups != [] {
      ChildrenContained(st, g, a, q);
    }
  }

  /** Scattered, per CPU and coarser than the block it is given: a group with two or more threads can only be in its
      documented ranges if that block is part of the first one of the new granularity. */
  lemma OverhangsAtStart(st: State, g: nat, a: bv64)
    requires Inv(st) && LiveGroup(st.forest, g) && Arrange(st.topo, a).Arranged? && |NodeOf(st.forest, g).threads| > 1
    requires var m := NewMode(Arrange(st.topo, a)); !m.compact && m.perCpu && m.s > Room(st, g)
    requires Fitting(st, g, NewMode(Arrange(st.topo, a)))
    ensures Region(st, g) <= Block(0, Arrange(st.topo, a).s)
  {
    var x := NodeOf(st.forest, g);
    assert Knit(st.topo, st.forest, g) && forall i | 0 <= i < |x.threads| :: x.threads[i] in x.threads;
    SecondPick(st.places.loads, CpusOf(st.places, x.threads), Region(st, g), Arrange(st.topo, a).s);
  }
}
