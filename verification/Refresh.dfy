/** Re-placing a group gives it exact books: its members are seated one after the other on fresh CPUs. */
module Refresh {
  import opened Topology
  import opened Allocator
  import opened Library
  import opened Api
  import opened Containment
  import opened Frames
  import opened Runs
  import opened Order
  import opened Crews
  import opened Sessions
  import D = Detach

  /** The roster after the first `k` members have been seated. */
  ghost predicate SeatedTo(q: Places, kind: Kind, crew: seq<nat>, k: nat, m: Mode, y: nat, r: D.Roster)
    requires k <= |crew|
  {
    y < |q.claims| && r.c == q.claims[y] && Crews.Seated(q, kind, crew[..k], r.seats) && D.Exact(m, |q.loads|, r)
  }

  lemma NobodySeated(q: Places, kind: Kind, crew: seq<nat>, m: Mode, y: nat)
    requires y < |q.claims| && Sound(m.s, q.claims[y], |q.loads|) && q.claims[y].used == {} && q.claims[y].roll == 0
    ensures SeatedTo(q, kind, crew, 0, m, y, D.Roster(q.claims[y], []))
  {
    var c := q.claims[y];
    D.FreshExact(m, |q.loads|, c.total);
    assert c == Claims(c.total, {}, 0);
  }

  /** One more member on the next seat, the others where they were. */
  lemma OneMoreSeated(q: Places, q': Places, kind: Kind, crew: seq<nat>, k: nat, m: Mode, y: nat, r: D.Roster,
        loads: seq<int>) returns (r': D.Roster)
    requires k < |crew| && SeatedTo(q, kind, crew, k, m, y, r) && |loads| == |q.loads| == |q'.loads|
    requires |q'.claims| == |q.claims|
    requires var t := Target(m, r.c, loads);
      && q'.claims[y] == Claim(r.c, ClaimAt(m, t)) && Holds(q', kind, crew[k], SeatAt(m, t))
    requires forall i, seat | 0 <= i < k && Holds(q, kind, crew[i], seat) :: Holds(q', kind, crew[i], seat)
    ensures SeatedTo(q', kind, crew, k + 1, m, y, r')
  {
    r' := D.Attached(m, r, loads);
    D.AttachExact(m, |q.loads|, r, loads);
    SeatedNext(q, q', kind, crew, k, r.seats, SeatAt(m, Target(m, r.c, loads)));
  }

  lemma SeatedNext(q: Places, q': Places, kind: Kind, crew: seq<nat>, k: nat, seats: seq<Seat>, seat: Seat)
    requires k < |crew| && Crews.Seated(q, kind, crew[..k], seats) && Holds(q', kind, crew[k], seat)
    requires forall i, s | 0 <= i < k && Holds(q, kind, crew[i], s) :: Holds(q', kind, crew[i], s)
    ensures Crews.Seated(q', kind, crew[..k + 1], seats + [seat])
  {
    assert forall i | 0 <= i < k :: Holds(q, kind, crew[..k][i], seats[i]);
    SeatedThen(q, q', kind, crew[..k], seats, crew[k], seat);
    assert crew[..k] + [crew[k]] == crew[..k + 1];
  }

  // -------- threads --------

  lemma ThreadSeated(m: Mode, q: Places, y: nat, ts: seq<nat>, k: nat, r: D.Roster) returns (r': D.Roster)
    requires k < |ts| && SeatedTo(q, OfThreads, ts, k, m, y, r) && Distinct(ts) && ts[k] < |q.seats|
    ensures SeatedTo(SeatThread(m, q, y, ts[k]), OfThreads, ts, k + 1, m, y, r')
  {
    var loads := SubLoad(q.loads, q.seats[ts[k]].cpus);
    r' := OneMoreSeated(q, SeatThread(m, q, y, ts[k]), OfThreads, ts, k, m, y, r, loads);
  }

  lemma ThreadsSeated(m: Mode, q: Places, y: nat, ts: seq<nat>) returns (r: D.Roster)
    requires y < |q.claims| && Sound(m.s, q.claims[y], |q.loads|) && q.claims[y].used == {} && q.claims[y].roll == 0
    requires Distinct(ts) && forall i | 0 <= i < |ts| :: ts[i] < |q.seats|
    ensures SeatedTo(SeatThreads(m, q, y, ts), OfThreads, ts, |ts|, m, y, r)
  {
    var k, now := 0, q;
    r := D.Roster(q.claims[y], []);
    NobodySeated(q, OfThreads, ts, m, y);
    assert ts[..0] == [];
    while k < |ts|
      invariant k <= |ts| && now == SeatThreads(m, q, y, ts[..k]) && SeatedTo(now, OfThreads, ts, k, m, y, r)
    {
      SeatThreadsNext(m, q, y, ts, k);
      r := ThreadSeated(m, now, y, ts, k, r);
      now, k := SeatThread(m, now, y, ts[k]), k + 1;
    }
    assert ts[..k] == ts;
  }

  // -------- child groups --------

  /** In a forest in order no group is below its own child. */
  lemma NotBelowChild(t: Topo, f: Forest, y: nat, c: nat)
    requires WellFormed(t, f) && LiveGroup(f, y) && c in NodeOf(f, y).groups
    ensures LiveGroup(f, c) && NodeOf(f, c).father == Some(y) && !Under(f, y, c) && Knit(t, f, c) && !Refused(f, c)
  {
    assert Knit(t, f, y) && NodeOk(t, f, c);
    NeverRefused(t, f, c);
    if Under(f, y, c) { UnderFiner(t, f, y, c); }
  }

  lemma ChildSeated(t: Topo, f: Forest, q: Places, y: nat, k: nat, r: D.Roster) returns (r': D.Roster)
    requires WellFormed(t, f) && Fit(f, q) && LiveGroup(f, y) && |q.loads| == t.n && k < |NodeOf(f, y).groups|
    requires SeatedTo(q, OfGroups, NodeOf(f, y).groups, k, Mode(NodeOf(f, y).s, false, false), y, r)
    ensures LiveGroup(f, NodeOf(f, y).groups[k])
    ensures SeatedTo(Replace(t, f, q, NodeOf(f, y).groups[k]), OfGroups, NodeOf(f, y).groups, k + 1,
      Mode(NodeOf(f, y).s, false, false), y, r')
  {
    var gs, s := NodeOf(f, y).groups, NodeOf(f, y).s;
    var c := gs[k];
    assert c in gs && Knit(t, f, y);
    NotBelowChild(t, f, y, c);
    GroupSeated(t, f, q, c, y);
    BlockIsSeat(s, r.c, q.loads);
    forall i, seat | 0 <= i < k && Holds(q, OfGroups, gs[i], seat)
      ensures Holds(Replace(t, f, q, c), OfGroups, gs[i], seat)
    {
      assert gs[i] in gs && gs[i] != c;
    }
    r' := OneMoreSeated(q, Replace(t, f, q, c), OfGroups, gs, k, Mode(s, false, false), y, r, q.loads);
  }

  lemma ChildrenSeated(t: Topo, f: Forest, q: Places, y: nat) returns (r: D.Roster)
    requires WellFormed(t, f) && Fit(f, q) && LiveGroup(f, y) && |q.loads| == t.n
    requires Sound(NodeOf(f, y).s, q.claims[y], t.n) && q.claims[y].used == {} && q.claims[y].roll == 0
    ensures var gs := NodeOf(f, y).groups;
      SeatedTo(ReplaceAll(t, f, q, y, gs), OfGroups, gs, |gs|, Mode(NodeOf(f, y).s, false, false), y, r)
  {
    var gs, m := NodeOf(f, y).groups, Mode(NodeOf(f, y).s, false, false);
    var k, now := 0, q;
    r := D.Roster(q.claims[y], []);
    NobodySeated(q, OfGroups, gs, m, y);
    while k < |gs|
      invariant k <= |gs| && Fit(f, now) && |now.loads| == t.n && now == ReplaceAll(t, f, q, y, gs[..k])
      invariant SeatedTo(now, OfGroups, gs, k, m, y, r)
    {
      NotBelowChild(t, f, y, gs[k]);
      assert gs[..k + 1][..k] == gs[..k];
      r := ChildSeated(t, f, now, y, k, r);
      now, k := Replace(t, f, now, gs[k]), k + 1;
    }
    assert gs[..k] == gs;
  }

  // -------- calls --------

  /** Its members are all of that kind. */
  predicate OnlyKind(x: Node, kind: Kind) { if kind == OfThreads then x.groups == [] else x.threads == [] }

  lemma ReplacedSeated(t: Topo, f: Forest, p: Places, y: nat, kind: Kind) returns (r: D.Roster)
    requires WellFormed(t, f) && Fit(f, p) && LiveGroup(f, y) && |p.loads| == t.n && OnlyKind(NodeOf(f, y), kind)
    requires NodeOf(f, y).father.Some? ==> LiveGroup(f, NodeOf(f, y).father.value)
    requires Sound(NodeOf(f, y).s, Request(f, p, y).claims[y], t.n)
    ensures var crew := CrewOf(NodeOf(f, y), kind);
      SeatedTo(Replace(t, f, p, y), kind, crew, |crew|, KindMode(NodeOf(f, y), kind), y, r)
  {
    var x, q := NodeOf(f, y), Request(f, p, y);
    assert Knit(t, f, y) && forall i | 0 <= i < |x.threads| :: x.threads[i] in x.threads;
    if kind == OfThreads {
      r := ThreadsSeated(ModeOf(x), q, y, x.threads);
    } else {
      r := ChildrenSeated(t, f, q, y);
    }
  }

  lemma ReplacedExact(st: State, st': State, y: nat, kind: Kind)
    requires Inv(st') && Fit(st'.forest, st.places) && |st.places.loads| == st'.topo.n && LiveGroup(st'.forest, y)
    requires OnlyKind(NodeOf(st'.forest, y), kind)
    requires st'.places == Replace(st'.topo, st'.forest, st.places, y)
    ensures ExactBooks(st', y, kind)
  {
    var t, f, p := st'.topo, st'.forest, st.places;
    assert Knit(t, f, y);
    RequestSound(st, st', y);
    var r := ReplacedSeated(t, f, p, y, kind);
    var crew := CrewOf(NodeOf(f, y), kind);
    assert crew[..|crew|] == crew;
    assert Mirrors(st', y, kind, r);
  }

  lemma RequestSound(st: State, st': State, y: nat)
    requires Inv(st') && Fit(st'.forest, st.places) && |st.places.loads| == st'.topo.n && LiveGroup(st'.forest, y)
    requires st'.places == Replace(st'.topo, st'.forest, st.places, y)
    requires NodeOf(st'.forest, y).father.Some? ==> LiveGroup(st'.forest, NodeOf(st'.forest, y).father.value)
    ensures Sound(NodeOf(st'.forest, y).s, Request(st'.forest, st.places, y).claims[y], st'.topo.n)
  {
    assert Placed(st'.forest, st'.places, y);
    ReplaceTotal(st'.topo, st'.forest, st.places, y);
  }

  /** Attaching a group to a father, or giving it another attribute, in order: its own books are exact afterwards,
      whatever they were, for its threads or for its child groups. */
  lemma RearrangedExact(st: State, call: Call, y: nat, kind: Kind)
    requires Inv(st) && Defined(st, call) && Orderly(st, call) && Perform(st, call).Done?
    requires (call.GroupAttach? || call.GroupSetAttr?) && call.g == y && OnlyKind(NodeOf(st.forest, y), kind)
    ensures ExactBooks(After(st, call), y, kind)
  {
    StepInv(st, call);
    if call.GroupAttach? {
      AddGroupWoven(st.topo, st.forest, y, call.h);
      AddGroupLists(st.forest, y, call.h);
    } else {
      RetagWoven(st, y, call.attribute);
    }
    ReplacedExact(st, After(st, call), y, kind);
  }
}
