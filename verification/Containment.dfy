/** Re-placing a subtree puts every group inside its father and every thread inside its group. */
module Containment {
  import opened CpuSet
  import opened Topology
  import opened Allocator
  import opened Library
  import opened Api

  ghost predicate IsBlock(x: set<nat>, s: nat) {
    s > 0 && exists a: nat :: a % s == 0 && x == Block(a, s)
  }

  /** A group's CPUs are sound and, below a father, one aligned block of the father's. */
  ghost predicate Housed(f: Forest, p: Places, g: nat)
    requires Fit(f, p) && LiveGroup(f, g)
    requires NodeOf(f, g).father.Some? ==> LiveGroup(f, NodeOf(f, g).father.value)
  {
    var x, c := NodeOf(f, g), p.claims[g];
    && Sound(x.s, c, |p.loads|)
    && (x.father.Some? ==>
          IsBlock(c.total, NodeOf(f, x.father.value).s) && c.total <= p.claims[x.father.value].total)
  }

  /** The thread sits where the mode says, inside `total`. */
  ghost predicate SeatOk(m: Mode, seat: Seat, total: set<nat>) {
    m.s > 0 && seat == SeatAt(m, seat.target) && seat.target in seat.cpus && seat.cpus <= total
  }

  ghost predicate Placed(f: Forest, p: Places, g: nat)
    requires Fit(f, p) && LiveGroup(f, g)
    requires NodeOf(f, g).father.Some? ==> LiveGroup(f, NodeOf(f, g).father.value)
  {
    && Housed(f, p, g)
    && forall u | u in NodeOf(f, g).threads ::
       u < |p.seats| && SeatOk(ModeOf(NodeOf(f, g)), p.seats[u], p.claims[g].total)
  }

  /** The links `Placed` looks at. */
  ghost predicate Linked(f: Forest) {
    forall g | LiveGroup(f, g) :: NodeOf(f, g).father.Some? ==> LiveGroup(f, NodeOf(f, g).father.value)
  }

  lemma WovenLinked(t: Topo, f: Forest)
    requires Woven(t, f)
    ensures Linked(f)
  {
    forall g | LiveGroup(f, g)
      ensures NodeOf(f, g).father.Some? ==> LiveGroup(f, NodeOf(f, g).father.value)
    {
      assert Knit(t, f, g);
    }
  }

  /** Every live group outside `pending` is placed. */
  ghost predicate PlacedBut(f: Forest, p: Places, pending: set<nat>)
    requires Linked(f) && Fit(f, p)
  {
    forall g | LiveGroup(f, g) && g !in pending :: Placed(f, p, g)
  }

  ghost predicate KeepsReady(p: Places, r: Places) {
    |p.claims| == |r.claims| && forall y | 0 <= y < |p.claims| && Ready(p.claims[y]) :: Ready(r.claims[y])
  }

  ghost function Elems(xs: seq<nat>): set<nat> { set x | x in xs }

  // -------- one request --------

  lemma BlockHoused(t: Topo, f: Forest, g: nat, h: nat, c: Claims, loads: seq<int>)
    requires WellFormed(t, f) && LiveGroup(f, g) && NodeOf(f, g).father == Some(h)
    requires LiveGroup(f, h) && |loads| == t.n && Sound(NodeOf(f, h).s, c, |loads|) && Open(c)
    ensures var b := AimBlock(NodeOf(f, h).s, c, loads);
      && b <= c.total && IsBlock(b, NodeOf(f, h).s)
      && Sound(NodeOf(f, g).s, Claims(b, {}, 0), |loads|) && Ready(Claims(b, {}, 0))
      && Sound(NodeOf(f, h).s, Claim(c, b), |loads|) && Ready(Claim(c, b))
  {
    assert NodeOk(t, f, g) && NodeOk(t, f, h);
    var s, sh := NodeOf(f, g).s, NodeOf(f, h).s;
    ArrangedLevel(t, NodeOf(f, g).attribute);
    ArrangedLevel(t, NodeOf(f, h).attribute);
    LevelsNest(t, s, sh);
    NextBlockInside(loads, c, sh);
    var a := NextBlock(loads, Free(c), sh);
    ModTrans(a, sh, s);
    RangeBlocky(a, sh, s);
    ClaimInside(sh, c, Block(a, sh), |loads|);
    assert a in Free(Claims(Block(a, sh), {}, 0));
  }

  lemma RootHoused(t: Topo, f: Forest, g: nat)
    requires WellFormed(t, f) && LiveGroup(f, g)
    ensures Sound(NodeOf(f, g).s, Claims(AllCpus(t.n), {}, 0), t.n) && Ready(Claims(AllCpus(t.n), {}, 0))
  {
    assert NodeOk(t, f, g);
    RangeBlocky(0, t.n, NodeOf(f, g).s);
    assert 0 in Free(Claims(AllCpus(t.n), {}, 0));
  }

  /** A request houses the group; only its own members may be misplaced afterwards. */
  lemma RequestHouses(t: Topo, f: Forest, p: Places, g: nat, pending: set<nat>)
    requires WellFormed(t, f) && Linked(f) && Fit(f, p) && |p.loads| == t.n && LiveGroup(f, g)
    requires PlacedBut(f, p, pending + {g}) && g !in pending
    requires NodeOf(f, g).father.Some? ==>
      NodeOf(f, g).father.value !in pending && Open(p.claims[NodeOf(f, g).father.value])
    ensures var r := Request(f, p, g);
      && Housed(f, r, g) && Ready(r.claims[g]) && KeepsReady(p, r)
      && PlacedBut(f, r, pending + {g} + Elems(NodeOf(f, g).groups))
  {
    var r, x := Request(f, p, g), NodeOf(f, g);
    assert NodeOk(t, f, g);
    if x.father.Some? {
      var h := x.father.value;
      assert NodeOk(t, f, h) && h != g && Placed(f, p, h);
      BlockHoused(t, f, g, h, p.claims[h], p.loads);
    } else {
      RootHoused(t, f, g);
    }
    forall y | LiveGroup(f, y) && y !in pending + {g} + Elems(x.groups)
      ensures Placed(f, r, y)
    {
      assert Placed(f, p, y) && NodeOk(t, f, y);
    }
  }

  // -------- the threads of a group --------

  /** Seating one thread: it sits inside the group, which stays sound and ready. */
  lemma SeatThreadInside(m: Mode, p: Places, g: nat, u: nat)
    requires g < |p.claims| && u < |p.seats| && Sound(m.s, p.claims[g], |p.loads|) && Open(p.claims[g])
    ensures var r := SeatThread(m, p, g, u);
      && SeatOk(m, r.seats[u], p.claims[g].total)
      && Sound(m.s, r.claims[g], |r.loads|) && Ready(r.claims[g]) && r.claims[g].total == p.claims[g].total
      && (forall y | 0 <= y < |p.claims| && y != g :: r.claims[y] == p.claims[y])
      && (forall v | 0 <= v < |p.seats| && v != u :: r.seats[v] == p.seats[v])
  {
    PlacementInside(m, p.claims[g], SubLoad(p.loads, p.seats[u].cpus));
  }

  /** Only group `g` and the threads `ts` are touched, and those end up inside `g`. */
  lemma {:induction false} SeatThreadsInside(m: Mode, p: Places, g: nat, ts: seq<nat>)
    requires g < |p.claims| && Sound(m.s, p.claims[g], |p.loads|) && Ready(p.claims[g])
    requires forall i | 0 <= i < |ts| :: ts[i] < |p.seats|
    ensures var r := SeatThreads(m, p, g, ts);
      && Sound(m.s, r.claims[g], |r.loads|) && Ready(r.claims[g]) && r.claims[g].total == p.claims[g].total
      && (forall y | 0 <= y < |p.claims| && y != g :: r.claims[y] == p.claims[y])
      && (forall v | 0 <= v < |p.seats| && v !in ts :: r.seats[v] == p.seats[v])
      && (forall v | v in ts :: v < |r.seats| && SeatOk(m, r.seats[v], r.claims[g].total))
  {
    if ts != [] {
      var ts', u := ts[..|ts| - 1], ts[|ts| - 1];
      var q := SeatThreads(m, p, g, ts');
      SeatThreadsInside(m, p, g, ts');
      SeatThreadInside(m, q, g, u);
      var r := SeatThread(m, q, g, u);
      assert r == SeatThreads(m, p, g, ts);
      forall v | v in ts
        ensures v < |r.seats| && SeatOk(m, r.seats[v], r.claims[g].total)
      {
        assert v in ts' || v == u;
      }
    }
  }

  lemma ThreadsPlaced(t: Topo, f: Forest, p: Places, g: nat, pending: set<nat>)
    requires WellFormed(t, f) && Linked(f) && Fit(f, p) && LiveGroup(f, g)
    requires Housed(f, p, g) && Ready(p.claims[g]) && PlacedBut(f, p, pending + {g})
    requires forall i | 0 <= i < |NodeOf(f, g).threads| :: NodeOf(f, g).threads[i] < |p.seats|
    requires NodeOf(f, g).s > 0
    ensures var r := SeatThreads(ModeOf(NodeOf(f, g)), p, g, NodeOf(f, g).threads);
      PlacedBut(f, r, pending) && KeepsReady(p, r) && Ready(r.claims[g])
  {
    var ts := NodeOf(f, g).threads;
    var r := SeatThreads(ModeOf(NodeOf(f, g)), p, g, ts);
    SeatThreadsInside(ModeOf(NodeOf(f, g)), p, g, ts);
    assert NodeOk(t, f, g);
    forall y | LiveGroup(f, y) && y !in pending
      ensures Placed(f, r, y)
    {
      assert NodeOk(t, f, y);
      if y != g {
        assert Placed(f, p, y);
        forall v | v in NodeOf(f, y).threads
          ensures v !in ts
        {
          assert f.threads[v].group == Some(y);
        }
      }
    }
  }

  // -------- the whole subtree --------

  /** Re-placing a group puts its whole subtree in place and disturbs nothing else that was. */
  lemma {:induction false} ReplacePlaced(t: Topo, f: Forest, p: Places, g: nat, pending: set<nat>)
    requires WellFormed(t, f) && Linked(f) && Fit(f, p) && |p.loads| == t.n && LiveGroup(f, g)
    requires PlacedBut(f, p, pending + {g}) && g !in pending
    requires NodeOf(f, g).father.Some? ==>
      NodeOf(f, g).father.value !in pending && Open(p.claims[NodeOf(f, g).father.value])
    ensures var r := Replace(t, f, p, g);
      PlacedBut(f, r, pending - Elems(NodeOf(f, g).groups)) && KeepsReady(p, r) && Ready(r.claims[g])
    decreases NodeOf(f, g).s, 1, 0
  {
    var x, q := NodeOf(f, g), Request(f, p, g);
    assert NodeOk(t, f, g);
    RequestHouses(t, f, p, g, pending);
    assert forall i | 0 <= i < |x.threads| :: x.threads[i] in x.threads;
    if x.threads != [] {
      assert x.groups == [] && Elems(x.groups) == {};
      ThreadsPlaced(t, f, q, g, pending);
    } else {
      var rest := pending - Elems(x.groups);
      assert g !in Elems(x.groups) by { assert forall c | c in x.groups :: NodeOk(t, f, c); }
      assert Placed(f, q, g);
      assert PlacedBut(f, q, rest + Elems(x.groups));
      ReplaceAllPlaced(t, f, q, g, x.groups, rest);
    }
  }

  lemma {:induction false} ReplaceAllPlaced(t: Topo, f: Forest, p: Places, g: nat, gs: seq<nat>, pending: set<nat>)
    requires WellFormed(t, f) && Linked(f) && Fit(f, p) && |p.loads| == t.n && LiveGroup(f, g)
    requires gs <= NodeOf(f, g).groups && forall c | c in gs :: c in NodeOf(f, g).groups
    requires PlacedBut(f, p, pending + Elems(gs)) && pending !! Elems(gs)
    requires g !in pending && Ready(p.claims[g])
    ensures var r := ReplaceAll(t, f, p, g, gs);
      PlacedBut(f, r, pending) && KeepsReady(p, r)
    decreases NodeOf(f, g).s, 0, |gs|
  {
    if gs == [] {
      assert pending + Elems(gs) == pending;
    } else {
      var gs', c := gs[..|gs| - 1], gs[|gs| - 1];
      assert NodeOk(t, f, g) && c in gs && NodeOk(t, f, c);
      assert c !in gs';
      assert Elems(gs) == Elems(gs') + {c};
      assert pending + Elems(gs) == (pending + {c}) + Elems(gs');
      ReplaceAllPlaced(t, f, p, g, gs', pending + {c});
      NeverRefused(t, f, c);
      ReplacePlaced(t, f, ReplaceAll(t, f, p, g, gs'), c, pending);
    }
  }

  // -------- every thread stays on the machine's CPUs --------

  ghost predicate OnMachine(p: Places) {
    forall u: nat | u < |p.seats| :: InRange(p.seats[u].cpus, |p.loads|)
  }

  lemma SeatThreadOnMachine(m: Mode, p: Places, g: nat, u: nat)
    requires m.s > 0 && |p.loads| > 0 && |p.loads| % m.s == 0 && g < |p.claims| && u < |p.seats| && OnMachine(p)
    ensures OnMachine(SeatThread(m, p, g, u))
  {
    var a := Aim(m, p.claims[g], SubLoad(p.loads, p.seats[u].cpus));
    StartFacts(a, m.s);
    AlignedInside(Start(a, m.s), m.s, |p.loads|);
  }

  lemma {:induction false} SeatThreadsOnMachine(m: Mode, p: Places, g: nat, ts: seq<nat>)
    requires m.s > 0 && |p.loads| > 0 && |p.loads| % m.s == 0 && g < |p.claims| && OnMachine(p)
    requires forall i | 0 <= i < |ts| :: ts[i] < |p.seats|
    ensures OnMachine(SeatThreads(m, p, g, ts))
  {
    if ts != [] {
      SeatThreadsOnMachine(m, p, g, ts[..|ts| - 1]);
      SeatThreadOnMachine(m, SeatThreads(m, p, g, ts[..|ts| - 1]), g, ts[|ts| - 1]);
    }
  }

  lemma {:induction false} ReplaceOnMachine(t: Topo, f: Forest, p: Places, g: nat)
    requires Woven(t, f) && Fit(f, p) && LiveGroup(f, g) && |p.loads| == t.n && OnMachine(p)
    ensures OnMachine(Replace(t, f, p, g))
    decreases NodeOf(f, g).s, 1, 0
  {
    var x, q := NodeOf(f, g), Request(f, p, g);
    assert Knit(t, f, g) && OnMachine(q);
    assert forall i | 0 <= i < |x.threads| :: x.threads[i] in x.threads;
    if x.threads != [] {
      SeatThreadsOnMachine(ModeOf(x), q, g, x.threads);
    } else {
      ReplaceAllOnMachine(t, f, q, g, x.groups);
    }
  }

  lemma {:induction false} ReplaceAllOnMachine(t: Topo, f: Forest, p: Places, g: nat, gs: seq<nat>)
    requires Woven(t, f) && Fit(f, p) && LiveGroup(f, g) && |p.loads| == t.n && OnMachine(p)
    requires forall c | c in gs :: c in NodeOf(f, g).groups
    ensures OnMachine(ReplaceAll(t, f, p, g, gs))
    decreases NodeOf(f, g).s, 0, |gs|
  {
    if gs != [] {
      var gs', c := gs[..|gs| - 1], gs[|gs| - 1];
      assert Knit(t, f, g) && c in gs && Knit(t, f, c);
      ReplaceAllOnMachine(t, f, p, g, gs');
      if !Refused(f, c) { ReplaceOnMachine(t, f, ReplaceAll(t, f, p, g, gs'), c); }
    }
  }
}
