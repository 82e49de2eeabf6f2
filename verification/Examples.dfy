/** Short runs from the initial state in which the library falls short of what it promises. */
module Examples {
  import opened CpuSet
  import opened Topology
  import opened Allocator
  import opened Balance
  import opened Library
  import opened Api
  import opened Runs
  import opened Order
  import opened Containment
  import opened Detach
  import A = Attributes
  import B = Batches
  import C = Crews
  import F = Frames
  import K = Books
  import S = Sessions
  import P = Placement
  import T = Theorems

  /** Four CPUs in two clusters, one NUMA node, one package. */
  const SMALL := Topo(4, 2, 4, 4)

  lemma SmallRegular()
    ensures Regular(SMALL)
  {
  }

  /** The calls lead from `st` to `st'`, all of them calls the original survives. */
  ghost predicate Leads(st: State, calls: seq<Call>, st': State) {
    exists sts :: T.Run(sts, calls) && sts[0] == st && sts[|calls|] == st'
  }

  lemma LeadsOn(st: State, calls: seq<Call>, st1: State, call: Call)
    requires Leads(st, calls, st1) && Usable(st1) && Defined(st1, call)
    ensures Leads(st, calls + [call], After(st1, call))
  {
    var sts :| T.Run(sts, calls) && sts[0] == st && sts[|calls|] == st1;
    T.RunOn(sts, calls, call, After(st1, call));
    assert (sts + [After(st1, call)])[0] == st;
  }

  /** In order, with room in every group, reached from the initial state. */
  ghost predicate Reached(st0: State, calls: seq<Call>, st: State) {
    Leads(st0, calls, st) && Inv(st) && T.Roomy(st)
  }

  lemma Start(t: Topo, threads: nat, groups: nat)
    requires Regular(t)
    ensures Reached(Initial(t, threads, groups), [], Initial(t, threads, groups))
  {
    var st := Initial(t, threads, groups);
    InitialInv(t, threads, groups);
    assert T.Run([st], []);
  }

  /** Calls that neither take members out nor leave the order of granularities. */
  lemma Onward(st0: State, calls: seq<Call>, st: State, call: Call)
    requires Reached(st0, calls, st)
    requires match call
      case ThreadCreate(affinity) => affinity != {} && InRange(affinity, st.topo.n)
      case GroupSetAttr(g, a) =>
        LiveGroup(st.forest, g) && (Arrange(st.topo, a).Arranged? ==> Nests(st, g, Arrange(st.topo, a).s))
      case GroupAttach(g, h) => g != h
      case ThreadAttach(_, _) => true
      case GroupCreate => true
      case _ => false
    ensures Usable(st) && Defined(st, call) && Reached(st0, calls + [call], After(st, call))
  {
    assert Defined(st, call) && Orderly(st, call) && !T.Exhausts(st, call);
    LeadsOn(st0, calls, st, call);
    StepInv(st, call);
    T.RoomLost(st, call);
  }

  /** Such a state, with that forest. */
  ghost predicate Built(st0: State, calls: seq<Call>, st: State, f: Forest) {
    Reached(st0, calls, st) && st.topo == st0.topo && st.forest == f
  }

  lemma NewGroup(st0: State, calls: seq<Call>, st: State, f: Forest, g: nat) returns (st': State)
    requires Built(st0, calls, st, f) && g < |f.groups| && f.groups[g] == None
    requires forall x | 0 <= x < g :: f.groups[x].Some?
    ensures Built(st0, calls + [GroupCreate], st', SetNode(f, g, DEFAULT))
    ensures st'.places == st.places.(claims := st.places.claims[g := Claims(AllCpus(|st.places.loads|), {}, 0)])
  {
    Onward(st0, calls, st, GroupCreate);
    st' := After(st, GroupCreate);
    assert VacantGroup(f.groups, 0) == g;
  }

  lemma NewThread(st0: State, calls: seq<Call>, st: State, f: Forest, u: nat, affinity: set<nat>) returns (st': State)
    requires Built(st0, calls, st, f) && u < |f.threads| && f.threads[u] == Vacant
    requires forall x | 0 <= x < u :: f.threads[x].Live?
    requires affinity != {} && InRange(affinity, st0.topo.n)
    ensures Built(st0, calls + [ThreadCreate(affinity)], st', SetSlot(f, u, None))
    ensures st'.places ==
      Places(AddLoad(st.places.loads, affinity), st.places.claims, st.places.seats[u := Seat(0, affinity)])
  {
    Onward(st0, calls, st, ThreadCreate(affinity));
    st' := After(st, ThreadCreate(affinity));
    assert VacantThread(f.threads, 0) == u;
  }

  lemma NewAttribute(st0: State, calls: seq<Call>, st: State, f: Forest, g: nat, a: bv64, s: nat) returns (st': State)
    requires Built(st0, calls, st, f) && LiveGroup(f, g) && Arrange(st.topo, a) == Arranged(a, s) && s > 0
    requires NodeOf(f, g).father == None && NodeOf(f, g).groups == [] && NodeOf(f, g).threads == []
    ensures Built(st0, calls + [GroupSetAttr(g, a)], st', Retag(f, g, a, s))
    ensures st'.places == st.places.(claims := st.places.claims[g := Claims(AllCpus(|st.places.loads|), {}, 0)])
  {
    Onward(st0, calls, st, GroupSetAttr(g, a));
    A.AttributeAccepted(st, g, a);
    st' := After(st, GroupSetAttr(g, a));
    RetagWoven(st, g, a);
    EmptyRoot(st.topo, Retag(f, g, a, s), st.places, g);
  }

  lemma EmptyRoot(t: Topo, f: Forest, p: Places, g: nat)
    requires Woven(t, f) && Fit(f, p) && LiveGroup(f, g)
    requires NodeOf(f, g).father == None && NodeOf(f, g).groups == [] && NodeOf(f, g).threads == []
    ensures Replace(t, f, p, g) == p.(claims := p.claims[g := Claims(AllCpus(|p.loads|), {}, 0)])
  {
  }

  lemma NewChild(st0: State, calls: seq<Call>, st: State, f: Forest, g: nat, h: nat) returns (st': State)
    requires Built(st0, calls, st, f) && LiveGroup(f, g) && LiveGroup(f, h) && g != h
    requires NodeOf(f, g).father == None && NodeOf(f, g).groups == [] && NodeOf(f, g).s < NodeOf(f, h).s
    requires g !in NodeOf(f, h).groups && NodeOf(f, h).threads == []
    ensures Built(st0, calls + [GroupAttach(g, h)], st', AddGroup(f, g, h))
    ensures AttachGroup(st, g, h) == Done(st')
  {
    Onward(st0, calls, st, GroupAttach(g, h));
    st' := After(st, GroupAttach(g, h));
    assert Knit(st.topo, f, g);
    AttributePositive(st.topo, NodeOf(f, g));
  }

  lemma AttributePositive(t: Topo, x: Node)
    requires Regular(t) && Arrange(t, x.attribute) == Arranged(x.attribute, x.s)
    ensures x.s > 0
  {
  }

  lemma NewMember(st0: State, calls: seq<Call>, st: State, f: Forest, u: nat, g: nat) returns (st': State)
    requires Built(st0, calls, st, f) && LiveThread(f, u) && LiveGroup(f, g) && f.threads[u].group == None
    requires NodeOf(f, g).groups == []
    ensures Built(st0, calls + [ThreadAttach(u, g)], st', AddThread(f, u, g))
    ensures AttachThread(st, u, g) == Done(st')
  {
    Onward(st0, calls, st, ThreadAttach(u, g));
    st' := After(st, ThreadAttach(u, g));
    assert Knit(st.topo, f, g);
  }

  const CLUSTERS: Node := Node(WT_GF_CCL, 2, None, [], [])

  lemma TwoGroups() returns (st: State)
    ensures Built(Initial(SMALL, 1, 2), [GroupCreate, GroupCreate], st,
      Forest([Some(DEFAULT), Some(DEFAULT)], [Vacant]))
  {
    var st0 := Initial(SMALL, 1, 2);
    SmallRegular();
    Start(SMALL, 1, 2);
    assert st0.forest == Forest([None, None], [Vacant]);
    st := NewGroup(st0, [], st0, Forest([None, None], [Vacant]), 0);
    assert [] + [GroupCreate] == [GroupCreate] && [GroupCreate] + [GroupCreate] == [GroupCreate, GroupCreate];
    st := NewGroup(st0, [GroupCreate], st, Forest([Some(DEFAULT), None], [Vacant]), 1);
  }

  const APART: seq<Call> := [GroupCreate, GroupCreate] + [GroupSetAttr(0, WT_GF_CCL)]

  lemma ClustersApart() returns (st: State)
    ensures Built(Initial(SMALL, 1, 2), APART, st, Forest([Some(CLUSTERS), Some(DEFAULT)], [Vacant]))
    ensures |st.places.claims| == 2 && st.places.claims[0] == Claims(AllCpus(4), {}, 0)
  {
    var f := Forest([Some(DEFAULT), Some(DEFAULT)], [Vacant]);
    st := TwoGroups();
    st := NewAttribute(Initial(SMALL, 1, 2), [GroupCreate, GroupCreate], st, f, 0, WT_GF_CCL, 2);
    assert Retag(f, 0, WT_GF_CCL, 2) == Forest([Some(CLUSTERS), Some(DEFAULT)], [Vacant]);
  }

  const NESTED: seq<Call> := APART + [GroupAttach(1, 0)]
  const OUTER: Node := CLUSTERS.(groups := [1])
  const INNER: Node := DEFAULT.(father := Some(0))

  lemma ClustersNested() returns (st: State)
    ensures Built(Initial(SMALL, 1, 2), NESTED, st, Forest([Some(OUTER), Some(INNER)], [Vacant]))
    ensures S.ExactBooks(st, 0, C.OfGroups)
  {
    var f := Forest([Some(CLUSTERS), Some(DEFAULT)], [Vacant]);
    var st1 := ClustersApart();
    st := NewChild(Initial(SMALL, 1, 2), APART, st1, f, 1, 0);
    InnerAdded();
    FreshApart(st1);
    ArrivalExact(st1, 1, 0);
  }

  lemma FreshApart(st: State)
    requires Inv(st) && st.forest == Forest([Some(CLUSTERS), Some(DEFAULT)], [Vacant])
    requires st.places.claims[0] == Claims(AllCpus(4), {}, 0)
    ensures S.ExactBooks(st, 0, C.OfGroups)
  {
    RangeBlocky(0, 4, 2);
    S.FreshBooks(st, 0, C.OfGroups);
  }

  /** A child group that arrives keeps its father's books exact. */
  lemma ArrivalExact(st: State, x: nat, y: nat)
    requires S.ExactBooks(st, y, C.OfGroups) && x != y && AttachGroup(st, x, y).Done?
    requires NodeOf(st.forest, y).father == None
    ensures S.ExactBooks(AttachGroup(st, x, y).st, y, C.OfGroups)
  {
    NotBelow(st.forest, y, x);
    var call := GroupAttach(x, y);
    assert C.Arrives(st, call, y, C.OfGroups, x);
    C.GraftSeated(st, x, y);
    var sts := [st, After(st, call)];
    assert T.Step(sts[0], call, sts[1]) && T.Run(sts, [call]) && C.Minds(sts[0], call, y, C.OfGroups);
    S.FairSession(sts, [call], y, C.OfGroups, 1);
  }

  /** A group without father is below no other. */
  lemma NotBelow(f: Forest, y: nat, x: nat)
    requires LiveGroup(f, y) && NodeOf(f, y).father == None && y != x
    ensures !F.Under(f, y, x)
  {
    if F.Under(f, y, x) { F.UnderStep(f, y, x); }
  }

  lemma InnerAdded()
    ensures AddGroup(Forest([Some(CLUSTERS), Some(DEFAULT)], [Vacant]), 1, 0) ==
      Forest([Some(OUTER), Some(INNER)], [Vacant])
  {
    var f := Forest([Some(CLUSTERS), Some(DEFAULT)], [Vacant]);
    assert NodeOf(f, 0).groups + [1] == [1];
    assert AddGroup(f, 1, 0).groups == [Some(OUTER), Some(INNER)];
  }

  const ONE_THREAD: seq<Call> := NESTED + [ThreadCreate({0})]

  lemma ThreadApart() returns (st: State)
    ensures Built(Initial(SMALL, 1, 2), ONE_THREAD, st, Forest([Some(OUTER), Some(INNER)], [Live(None)]))
  {
    var f := Forest([Some(OUTER), Some(INNER)], [Vacant]);
    st := ClustersNested();
    st := NewThread(Initial(SMALL, 1, 2), NESTED, st, f, 0, {0});
    assert SetSlot(f, 0, None) == Forest([Some(OUTER), Some(INNER)], [Live(None)]);
  }

  /** A group of single CPUs with one thread, inside a group of clusters. */
  const NARROW: seq<Call> := ONE_THREAD + [ThreadAttach(0, 1)]

  lemma NarrowReached() returns (st: State)
    ensures Built(Initial(SMALL, 1, 2), NARROW, st,
      Forest([Some(OUTER), Some(INNER.(threads := [0]))], [Live(Some(1))]))
  {
    var f := Forest([Some(OUTER), Some(INNER)], [Live(None)]);
    st := ThreadApart();
    st := NewMember(Initial(SMALL, 1, 2), ONE_THREAD, st, f, 0, 1);
    ThreadAdded();
  }

  lemma ThreadAdded()
    ensures AddThread(Forest([Some(OUTER), Some(INNER)], [Live(None)]), 0, 1) ==
      Forest([Some(OUTER), Some(INNER.(threads := [0]))], [Live(Some(1))])
  {
    var f := Forest([Some(OUTER), Some(INNER)], [Live(None)]);
    assert NodeOf(f, 1).threads + [0] == [0];
    assert AddThread(f, 0, 1).groups == [Some(OUTER), Some(INNER.(threads := [0]))];
  }

  lemma ThreadEscapes(st: State)
    requires Inv(st) && st.topo == SMALL
    requires st.forest == Forest([Some(OUTER), Some(INNER.(threads := [0]))], [Live(Some(1))])
    ensures var st' := SetAttribute(st, 1, WT_GF_NUMA);
      st'.Done? && st'.st.forest.threads == [Live(Some(1))] && |st'.st.places.seats| == 1 && |st'.st.places.claims| == 2
      && LiveGroup(st'.st.forest, 1) && NodeOf(st'.st.forest, 1).threads == [0]
      && !(st'.st.places.seats[0].cpus <= st'.st.places.claims[1].total)
  {
    assert Arrange(SMALL, WT_GF_NUMA) == Arranged(WT_GF_NUMA, 4);
    A.AttributeAccepted(st, 1, WT_GF_NUMA);
    StepBase(st, GroupSetAttr(1, WT_GF_NUMA));
    A.MembersContained(st, 1, WT_GF_NUMA);
    var st' := SetAttribute(st, 1, WT_GF_NUMA).st;
    assert LiveThread(st'.forest, 0);
  }

  /** Giving the inner group NUMA granularity is accepted and moves its thread out of the group's CPUs. */
  lemma WidenedEscapes() returns (st: State)
    ensures Leads(Initial(SMALL, 1, 2), NARROW + [GroupSetAttr(1, WT_GF_NUMA)], st)
    ensures Fit(st.forest, st.places) && LiveGroup(st.forest, 1) && 0 in NodeOf(st.forest, 1).threads
    ensures |st.places.seats| > 0 && !(st.places.seats[0].cpus <= st.places.claims[1].total)
  {
    var st1 := NarrowReached();
    ThreadEscapes(st1);
    LeadsOn(Initial(SMALL, 1, 2), NARROW, st1, GroupSetAttr(1, WT_GF_NUMA));
    st := SetAttribute(st1, 1, WT_GF_NUMA).st;
  }

  // -------- detached groups and second blocks --------

  lemma InnerBlock(st: State)
    requires Inv(st) && st.topo == SMALL && st.forest == Forest([Some(OUTER), Some(INNER)], [Vacant])
    ensures |st.places.claims[1].total| == 2 && st.places.claims[1].total < AllCpus(4)
  {
    assert Placed(st.forest, st.places, 1);
    A.BlockSize(st.places.claims[1].total, 2);
    TwoOfFour(st.places.claims[1].total);
  }

  lemma TwoOfFour(a: set<nat>)
    requires |a| == 2 && a <= AllCpus(4)
    ensures a < AllCpus(4)
  {
    BlockCard(0, 4);
    assert a != AllCpus(4);
    assert !(AllCpus(4) <= a);
  }

  /** The inner group leaves the group of clusters: it has no father and two of the four CPUs. */
  lemma OrphanKeepsBlock() returns (st: State)
    ensures Leads(Initial(SMALL, 1, 2), NESTED + [GroupDetach(1, 0)], st)
    ensures Fit(st.forest, st.places) && LiveGroup(st.forest, 1) && NodeOf(st.forest, 1).father == None
    ensures |st.places.claims[1].total| == 2 && st.places.claims[1].total < AllCpus(SMALL.n)
  {
    var st1 := ClustersNested();
    InnerBlock(st1);
    LeadsOn(Initial(SMALL, 1, 2), NESTED, st1, GroupDetach(1, 0));
    st := DetachGroup(st1, 1, 0).st;
  }

  /** The inner group gets another attribute of the same granularity: its father is left with the claim to its first
      block. */
  lemma SecondBlockLeaks() returns (st: State, first: set<nat>)
    ensures Leads(Initial(SMALL, 1, 2), NESTED + [GroupSetAttr(1, WT_GF_CPU)], st)
    ensures K.Owes(st, 0, first) && K.Excess(st, 0, first) && !K.Balances(st, 0, C.OfGroups)
  {
    var call := GroupSetAttr(1, WT_GF_CPU);
    var st1 := ClustersNested();
    A.AttributeAccepted(st1, 1, WT_GF_CPU);
    NotBelow(st1.forest, 0, 1);
    LeadsOn(Initial(SMALL, 1, 2), NESTED, st1, call);
    K.AttributeLeaks(st1, call, 0);
    st, first := After(st1, call), st1.places.claims[1].total;
    K.OwesExcess(st, 0, first);
  }

  // -------- a group without an unclaimed CPU --------

  /** One group, and `k` of the 2n threads, in no group and free to run on all n CPUs. */
  ghost predicate Roaming(t: Topo, calls: seq<Call>, st: State, k: nat) {
    && k <= 2 * t.n && Built(Initial(t, 2 * t.n, 1), calls, st, Crowd(t, k))
    && (forall c: nat | c < t.n :: st.places.loads[c] == k) && st.places.claims == [Claims(AllCpus(t.n), {}, 0)]
    && forall u | 0 <= u < k :: st.places.seats[u].cpus == AllCpus(t.n)
  }

  function Crowd(t: Topo, k: nat): Forest {
    Forest([Some(DEFAULT)], seq(2 * t.n, i => if i < k then Live(None) else Vacant))
  }

  lemma NobodyRoams(t: Topo) returns (st: State)
    requires Regular(t)
    ensures Roaming(t, [GroupCreate], st, 0)
  {
    var st0 := Initial(t, 2 * t.n, 1);
    Start(t, 2 * t.n, 1);
    st := NewGroup(st0, [], st0, st0.forest, 0);
    assert SetNode(st0.forest, 0, DEFAULT) == Crowd(t, 0);
    assert [] + [GroupCreate] == [GroupCreate];
  }

  /** A thread that may run everywhere weighs one unit on each CPU. */
  lemma RoamingLoad(n: nat)
    requires n > 0
    ensures AllCpus(n) != {} && LoadOf(n, AllCpus(n)) == 1
  {
    BlockCard(0, n);
    assert 0 in AllCpus(n);
    assert n + n - 1 == n * 1 + (n - 1);
  }

  lemma OneMoreRoams(t: Topo, calls: seq<Call>, st: State, k: nat) returns (st': State)
    requires Regular(t) && Roaming(t, calls, st, k) && k < 2 * t.n
    ensures Roaming(t, calls + [ThreadCreate(AllCpus(t.n))], st', k + 1)
  {
    RoamingLoad(t.n);
    st' := NewThread(Initial(t, 2 * t.n, 1), calls, st, st.forest, k, AllCpus(t.n));
    assert SetSlot(Crowd(t, k), k, None) == Crowd(t, k + 1);
  }

  /** Create the group and then `k` threads. */
  function Creates(n: nat, k: nat): seq<Call> {
    if k == 0 then [GroupCreate] else Creates(n, k - 1) + [ThreadCreate(AllCpus(n))]
  }

  lemma {:induction false} SomeRoam(t: Topo, k: nat) returns (st: State)
    requires Regular(t) && k <= 2 * t.n
    ensures Roaming(t, Creates(t.n, k), st, k)
  {
    if k == 0 {
      st := NobodyRoams(t);
    } else {
      st := SomeRoam(t, k - 1);
      st := OneMoreRoams(t, Creates(t.n, k - 1), st, k - 1);
    }
  }

  /** The numbers below `k`. */
  function First(k: nat): (us: seq<nat>)
    ensures |us| == k && forall i | 0 <= i < k :: us[i] == i
  {
    seq(k, i => i)
  }

  lemma RoamersReady(t: Topo, calls: seq<Call>, st: State)
    requires Regular(t) && Roaming(t, calls, st, 2 * t.n)
    ensures Reached(Initial(t, 2 * t.n, 1), calls, st) && st.topo == t && |st.forest.threads| == 2 * t.n
    ensures B.FreshGroup(st, 0, 0, t.n, 2 * t.n) && B.Roamers(st, First(2 * t.n), AllCpus(t.n))
    ensures ModeOf(NodeOf(st.forest, 0)) == Mode(1, true, true)
  {
    assert ModeOf(DEFAULT) == Mode(1, true, true);
  }

  /** The thread sits on all unclaimed CPUs of its group of single CPUs, and another thread is in no group. */
  ghost predicate LastSeat(st: State, u: nat, g: nat, v: nat) {
    && Inv(st) && DetachThread(st, u, g).Done? && T.ThreadExhausts(st, u, g) && NodeOf(st.forest, g).s == 1
    && LiveThread(st.forest, v) && v != u && st.forest.threads[v].group == None
  }

  /** The group has no unclaimed CPU, and the original cannot attach the thread to it. */
  ghost predicate Stuck(st: State, g: nat, v: nat) {
    Usable(st) && LiveGroup(st.forest, g) && !Ready(st.places.claims[g]) && !Defined(st, ThreadAttach(v, g))
  }

  /** In a group of single CPUs, a detach that uses it up makes attaching a thread impossible. */
  lemma NoFurtherThread(st: State, u: nat, g: nat, v: nat)
    requires LastSeat(st, u, g, v)
    ensures Stuck(DetachThread(st, u, g).st, g, v)
  {
    var f, st' := st.forest, DetachThread(st, u, g).st;
    assert Knit(st.topo, f, g) && Placed(f, st.places, g);
    LeaveBase(st, u, g);
    DetachExhausts(ModeOf(NodeOf(f, g)), st.places.claims[g], st.places.seats[u]);
    assert Knit(st.topo, st'.forest, g);
  }

  /** The bookkeeping of a group of n single CPUs after 2n - 1 threads. */
  lemma AlmostTwoRounds(n: nat)
    requires n > 1
    ensures var m, k := Mode(1, true, true), 2 * n - 1;
      && P.Blocks(m, n) > 0 && P.ClosedClaims(m, 0, n, k).used != {}
      && SeatAt(m, P.ClosedTarget(m, 0, n, n - 1)).cpus == Free(P.ClosedClaims(m, 0, n, k))
  {
    DivModUnique(2 * n - 1, n, 1, n - 1);
    DivModUnique(n - 1, n, 0, n - 1);
    AllButLast(n);
  }

  lemma AllButLast(n: nat)
    requires n > 1
    ensures Block(0, n - 1) != {} && Block(0, n) - Block(0, n - 1) == {n - 1}
  {
    assert 0 in Block(0, n - 1);
  }

  /** Group 0 is one of single CPUs. */
  ghost predicate Singles(st: State) {
    && Usable(st) && LiveGroup(st.forest, 0) && ModeOf(NodeOf(st.forest, 0)) == Mode(1, true, true)
    && st.topo.n > 1 && P.Blocks(Mode(1, true, true), st.topo.n) > 0
  }

  lemma ProgressMembers(st: State, st': State, v: int)
    requires Singles(st) && B.Progress(st, st', First(2 * st.topo.n), 2 * st.topo.n - 1, 0, 0, st.topo.n, v)
    ensures var n := st.topo.n;
      && LiveThread(st'.forest, n - 1) && n - 1 in NodeOf(st'.forest, 0).threads
      && LiveThread(st'.forest, 2 * n - 1) && st'.forest.threads[2 * n - 1].group == None
  {
    var n := st.topo.n;
    var us := First(2 * n);
    assert us[2 * n - 1] == 2 * n - 1 && us[..2 * n - 1][n - 1] == n - 1;
    assert n - 1 in us[..2 * n - 1] && Knit(st'.topo, st'.forest, 0);
  }

  lemma ProgressSeat(st: State, st': State, v: int)
    requires Singles(st) && B.Progress(st, st', First(2 * st.topo.n), 2 * st.topo.n - 1, 0, 0, st.topo.n, v)
    ensures var n := st.topo.n;
      |st'.places.seats| > n - 1 && st'.places.claims[0].used != {}
      && st'.places.seats[n - 1].cpus == Free(st'.places.claims[0])
  {
    var n := st.topo.n;
    AlmostTwoRounds(n);
    assert First(2 * n)[n - 1] == n - 1;
  }

  lemma ProgressLast(st: State, st': State, v: int)
    requires Singles(st) && B.Progress(st, st', First(2 * st.topo.n), 2 * st.topo.n - 1, 0, 0, st.topo.n, v)
    ensures LastSeat(st', st.topo.n - 1, 0, 2 * st.topo.n - 1)
  {
    ProgressSeat(st, st', v);
    ProgressMembers(st, st', v);
  }

  /** Attach the first `k` threads. */
  function Attaches(k: nat): seq<Call> { if k == 0 then [] else Attaches(k - 1) + [ThreadAttach(k - 1, 0)] }

  /** All 2n threads roam, the group is fresh. */
  ghost predicate Crowded(t: Topo, calls: seq<Call>, st: State) {
    && Reached(Initial(t, 2 * t.n, 1), calls, st) && st.topo == t && Singles(st)
    && B.FreshGroup(st, 0, 0, t.n, 2 * t.n) && B.Roamers(st, First(2 * t.n), AllCpus(t.n))
  }

  lemma AllRoam(t: Topo) returns (st: State)
    requires Regular(t) && t.n > 1
    ensures Crowded(t, Creates(t.n, 2 * t.n), st)
  {
    st := SomeRoam(t, 2 * t.n);
    AlmostTwoRounds(t.n);
    RoamersReady(t, Creates(t.n, 2 * t.n), st);
  }

  /** The state after `k` of them have been attached. */
  ghost predicate Partly(t: Topo, calls: seq<Call>, st: State, k: nat, st1: State, v: int) {
    && st.topo == t && Singles(st) && k <= 2 * t.n
    && Reached(Initial(t, 2 * t.n, 1), calls + Attaches(k), st1) && B.Progress(st, st1, First(2 * t.n), k, 0, 0, t.n, v)
  }

  lemma FillNext(t: Topo, calls: seq<Call>, st: State, k: nat, st1: State, v: int) returns (st2: State, w: int)
    requires Partly(t, calls, st, k, st1, v) && k < 2 * t.n && B.Roamers(st, First(2 * t.n), AllCpus(t.n))
    ensures Partly(t, calls, st, k + 1, st2, w)
  {
    w := B.ProgressStep(st, st1, First(2 * t.n), k, 0, 0, t.n, v);
    NextAttached(Initial(t, 2 * t.n, 1), calls, k, st1);
    st2 := AttachThread(st1, k, 0).st;
  }

  lemma NextAttached(st0: State, calls: seq<Call>, k: nat, st: State)
    requires Reached(st0, calls + Attaches(k), st) && AttachThread(st, k, 0).Done?
    ensures Reached(st0, calls + Attaches(k + 1), AttachThread(st, k, 0).st)
  {
    Onward(st0, calls + Attaches(k), st, ThreadAttach(k, 0));
    assert calls + Attaches(k) + [ThreadAttach(k, 0)] == calls + Attaches(k + 1);
  }

  lemma FillNone(t: Topo, calls: seq<Call>, st: State)
    requires Crowded(t, calls, st)
    ensures Partly(t, calls, st, 0, st, 2 * t.n)
  {
    B.ProgressStart(st, First(2 * t.n), 0, 0, t.n, 2 * t.n);
    assert calls + Attaches(0) == calls;
  }

  /** What can be made one step further can be made all the way. */
  lemma {:induction false} AllTheWay<S(!new)>(ok: iset<(nat, S)>, n: nat, s: S) returns (r: S)
    requires (0, s) in ok && forall k: nat, x | k < n && (k, x) in ok :: exists y :: Next(ok, k, y)
    ensures (n, r) in ok
  {
    if n == 0 {
      r := s;
    } else {
      var x := AllTheWay(ok, n - 1, s);
      r :| Next(ok, n - 1, r);
    }
  }

  ghost predicate Next<S(!new)>(ok: iset<(nat, S)>, k: nat, x: S) { (k + 1, x) in ok }

  ghost function Partlies(t: Topo, calls: seq<Call>, st: State): iset<(nat, (State, int))> {
    iset k: nat, st1: State, v: int | Partly(t, calls, st, k, st1, v) :: (k, (st1, v))
  }

  lemma FillSome(t: Topo, calls: seq<Call>, st: State, n: nat, v0: int) returns (st1: State, v: int)
    requires Partly(t, calls, st, 0, st, v0) && B.Roamers(st, First(2 * t.n), AllCpus(t.n)) && n <= 2 * t.n
    ensures Partly(t, calls, st, n, st1, v)
  {
    var ok := Partlies(t, calls, st);
    forall k: nat, x: (State, int) | k < n && (k, x) in ok
      ensures exists y :: Next(ok, k, y)
    {
      var a, b := FillNext(t, calls, st, k, x.0, x.1);
      assert Next(ok, k, (a, b));
    }
    assert (0, (st, v0)) in ok;
    var r := AllTheWay(ok, n, (st, v0));
    st1, v := r.0, r.1;
  }

  lemma PartlyLast(t: Topo, calls: seq<Call>, st: State, st1: State, v: int)
    requires t.n > 0 && Partly(t, calls, st, 2 * t.n - 1, st1, v)
    ensures Leads(Initial(t, 2 * t.n, 1), calls + Attaches(2 * t.n - 1), st1) && LastSeat(st1, t.n - 1, 0, 2 * t.n - 1)
  {
    ProgressLast(st, st1, v);
  }

  lemma FillAll(t: Topo, calls: seq<Call>, st: State) returns (st1: State)
    requires Crowded(t, calls, st)
    ensures Leads(Initial(t, 2 * t.n, 1), calls + Attaches(2 * t.n - 1), st1) && LastSeat(st1, t.n - 1, 0, 2 * t.n - 1)
  {
    FillNone(t, calls, st);
    var a, v := FillSome(t, calls, st, 2 * t.n - 1, 2 * t.n);
    PartlyLast(t, calls, st, a, v);
    st1 := a;
  }

  lemma Filled(t: Topo) returns (st: State)
    requires Regular(t) && t.n > 1
    ensures Leads(Initial(t, 2 * t.n, 1), Creates(t.n, 2 * t.n) + Attaches(2 * t.n - 1), st)
    ensures LastSeat(st, t.n - 1, 0, 2 * t.n - 1)
  {
    var st0 := AllRoam(t);
    st := FillAll(t, Creates(t.n, 2 * t.n), st0);
  }

  /** On every machine with n > 1 CPUs: create a group and 2n threads, attach 2n - 1 of them, detach the n-th.  The
      group then has members and no unclaimed CPU, and attaching the last thread makes the original read outside
      its load table. */
  lemma UsedUp(t: Topo) returns (st: State)
    requires Regular(t) && t.n > 1
    ensures Leads(Initial(t, 2 * t.n, 1), Creates(t.n, 2 * t.n) + Attaches(2 * t.n - 1) + [ThreadDetach(t.n - 1, 0)],
      st) && Stuck(st, 0, 2 * t.n - 1)
  {
    var st1 := Filled(t);
    st := ThenStuck(Initial(t, 2 * t.n, 1), Creates(t.n, 2 * t.n) + Attaches(2 * t.n - 1), st1, t.n - 1, 0,
      2 * t.n - 1);
  }

  lemma ThenStuck(st0: State, calls: seq<Call>, st: State, u: nat, g: nat, v: nat) returns (st': State)
    requires Leads(st0, calls, st) && LastSeat(st, u, g, v)
    ensures Leads(st0, calls + [ThreadDetach(u, g)], st') && Stuck(st', g, v)
  {
    NoFurtherThread(st, u, g, v);
    LeadsOn(st0, calls, st, ThreadDetach(u, g));
    st' := DetachThread(st, u, g).st;
  }
}
