/** A run after which a thread attached to a group is placed outside it.

    Eight CPUs, two to a cluster and four to a NUMA node.  A group of clusters owns the second node, three threads fill
    it once and a half, the second leaves, and the exclusive-or marks its CPUs instead of freeing them.  Nothing is
    unclaimed then, and the search for the fourth thread ends at CPU 0. */
module Straying {
  import opened CpuSet
  import opened Topology
  import opened Allocator
  import opened Library
  import opened Api
  import opened Runs
  import opened Order
  import opened Examples
  import B = Batches
  import P = Placement

  const BOARD := Topo(8, 2, 4, 8)
  const START: State := Initial(BOARD, 4, 3)
  const IDLE: seq<Slot> := [Vacant, Vacant, Vacant, Vacant]

  const NODES: Node := Node(WT_GF_NUMA, 4, None, [], [])

  lemma BoardRegular()
    ensures Regular(BOARD)
  {
  }

  /** No load yet, and the groups have these CPUs. */
  ghost predicate Still(st: State, cs: seq<Claims>) { st.places.claims == cs && st.places.loads == seq(8, _ => 0) }

  const WHOLE: Claims := Claims(AllCpus(8), {}, 0)

  const CREATED: seq<Call> := [] + [GroupCreate] + [GroupCreate] + [GroupCreate]

  lemma Created() returns (st: State)
    ensures Built(START, CREATED, st, Forest([Some(DEFAULT), Some(DEFAULT), Some(DEFAULT)], IDLE))
    ensures Still(st, [WHOLE, WHOLE, WHOLE])
  {
    BoardRegular();
    Examples.Start(BOARD, 4, 3);
    st := START;
    var f := Forest([None, None, None], IDLE);
    assert st.forest == f;
    st := NewGroup(START, [], st, f, 0);
    f := Forest([Some(DEFAULT), None, None], IDLE);
    st := NewGroup(START, [] + [GroupCreate], st, f, 1);
    f := Forest([Some(DEFAULT), Some(DEFAULT), None], IDLE);
    st := NewGroup(START, [] + [GroupCreate] + [GroupCreate], st, f, 2);
  }

  const TAGGED: seq<Call> :=
    CREATED + [GroupSetAttr(0, WT_GF_NUMA)] + [GroupSetAttr(1, WT_GF_CCL)] + [GroupSetAttr(2, WT_GF_CCL)]

  lemma Tagged() returns (st: State)
    ensures Built(START, TAGGED, st, Forest([Some(NODES), Some(CLUSTERS), Some(CLUSTERS)], IDLE))
    ensures Still(st, [WHOLE, WHOLE, WHOLE])
  {
    st := Created();
    var f := Forest([Some(DEFAULT), Some(DEFAULT), Some(DEFAULT)], IDLE);
    st := NewAttribute(START, CREATED, st, f, 0, WT_GF_NUMA, 4);
    f := Forest([Some(NODES), Some(DEFAULT), Some(DEFAULT)], IDLE);
    st := NewAttribute(START, CREATED + [GroupSetAttr(0, WT_GF_NUMA)], st, f, 1, WT_GF_CCL, 2);
    f := Forest([Some(NODES), Some(CLUSTERS), Some(DEFAULT)], IDLE);
    st := NewAttribute(START, CREATED + [GroupSetAttr(0, WT_GF_NUMA)] + [GroupSetAttr(1, WT_GF_CCL)], st, f, 2,
      WT_GF_CCL, 2);
  }

  /** Attaching a group without members gives it the father's next block and does nothing else. */
  lemma NewLeaf(st0: State, calls: seq<Call>, st: State, f: Forest, g: nat, h: nat, b: set<nat>) returns (st': State)
    requires Built(st0, calls, st, f) && LiveGroup(f, g) && LiveGroup(f, h) && g != h
    requires NodeOf(f, g).father == None && NodeOf(f, g).groups == [] && NodeOf(f, g).threads == []
    requires NodeOf(f, g).s < NodeOf(f, h).s
    requires g !in NodeOf(f, h).groups && NodeOf(f, h).threads == []
    requires b == AimBlock(NodeOf(f, h).s, st.places.claims[h], st.places.loads)
    ensures Built(st0, calls + [GroupAttach(g, h)], st', AddGroup(f, g, h))
    ensures st'.places ==
      st.places.(claims := st.places.claims[h := Claim(st.places.claims[h], b)][g := Claims(b, {}, 0)])
  {
    st' := NewChild(st0, calls, st, f, g, h);
    LeafAttached(st, g, h, b);
  }

  lemma LeafAttached(st: State, g: nat, h: nat, b: set<nat>)
    requires Usable(st) && AttachGroup(st, g, h).Done? && g != h && NodeOf(st.forest, g).groups == []
    requires NodeOf(st.forest, g).threads == []
    requires b == AimBlock(NodeOf(st.forest, h).s, st.places.claims[h], st.places.loads)
    ensures var p := st.places;
      AttachGroup(st, g, h).st.places == p.(claims := p.claims[h := Claim(p.claims[h], b)][g := Claims(b, {}, 0)])
  {
    AddGroupWoven(st.topo, st.forest, g, h);
    AddGroupNodes(st.forest, g, h, g);
    AddGroupNodes(st.forest, g, h, h);
    LeafReplaced(st.topo, AddGroup(st.forest, g, h), st.places, g, h, b);
  }

  lemma LeafReplaced(t: Topo, f: Forest, p: Places, g: nat, h: nat, b: set<nat>)
    requires Woven(t, f) && Fit(f, p) && LiveGroup(f, g) && LiveGroup(f, h) && NodeOf(f, g).father == Some(h)
    requires NodeOf(f, g).groups == [] && NodeOf(f, g).threads == []
    requires b == AimBlock(NodeOf(f, h).s, p.claims[h], p.loads)
    ensures Replace(t, f, p, g) == p.(claims := p.claims[h := Claim(p.claims[h], b)][g := Claims(b, {}, 0)])
  {
  }

  /** With equal loads a father hands out the first of its free blocks. */
  lemma FirstFreeBlock(c: Claims, a: nat, k: nat)
    requires Free(c) == Block(a, k) && k > 0 && a % 4 == 0 && k % 4 == 0 && a + k <= 8 && InRange(c.total, 8)
    ensures AimBlock(4, c, seq(8, _ => 0)) == Block(a, 4)
  {
    var loads := seq(8, _ => 0);
    P.FirstBlock(loads, a, k, 4);
    assert a in Block(a, k);
  }

  lemma HalfTaken()
    ensures var c := Claim(WHOLE, Block(0, 4));
      c == Claims(AllCpus(8), Block(0, 4), 0) && Free(c) == Block(4, 4) && Free(WHOLE) == Block(0, 8)
  {
    assert 7 in AllCpus(8) && 7 !in Block(0, 4);
  }

  const FIRST_IN: seq<Call> := TAGGED + [GroupAttach(1, 0)]
  const INSIDE: Node := CLUSTERS.(father := Some(0))

  lemma FirstIn() returns (st: State)
    ensures Built(START, FIRST_IN, st, Forest([Some(NODES.(groups := [1])), Some(INSIDE), Some(CLUSTERS)], IDLE))
    ensures Still(st, [Claims(AllCpus(8), Block(0, 4), 0), Claims(Block(0, 4), {}, 0), WHOLE])
  {
    var f := Forest([Some(NODES), Some(CLUSTERS), Some(CLUSTERS)], IDLE);
    st := Tagged();
    HalfTaken();
    FirstFreeBlock(WHOLE, 0, 8);
    st := NewLeaf(START, TAGGED, st, f, 1, 0, Block(0, 4));
    FirstAdded();
  }

  lemma FirstAdded()
    ensures AddGroup(Forest([Some(NODES), Some(CLUSTERS), Some(CLUSTERS)], IDLE), 1, 0)
            == Forest([Some(NODES.(groups := [1])), Some(INSIDE), Some(CLUSTERS)], IDLE)
  {
    var f := Forest([Some(NODES), Some(CLUSTERS), Some(CLUSTERS)], IDLE);
    assert NodeOf(f, 0).groups + [1] == [1];
    assert AddGroup(f, 1, 0).groups == [Some(NODES.(groups := [1])), Some(INSIDE), Some(CLUSTERS)];
  }

  const BOTH_IN: seq<Call> := FIRST_IN + [GroupAttach(2, 0)]
  const HOME: Claims := Claims(Block(4, 4), {}, 0)

  lemma BothIn() returns (st: State)
    ensures Built(START, BOTH_IN, st, Forest([Some(NODES.(groups := [1, 2])), Some(INSIDE), Some(INSIDE)], IDLE))
    ensures |st.places.claims| == 3 && st.places.claims[2] == HOME && st.places.loads == seq(8, _ => 0)
  {
    var f := Forest([Some(NODES.(groups := [1])), Some(INSIDE), Some(CLUSTERS)], IDLE);
    st := FirstIn();
    HalfTaken();
    FirstFreeBlock(Claims(AllCpus(8), Block(0, 4), 0), 4, 4);
    st := NewLeaf(START, FIRST_IN, st, f, 2, 0, Block(4, 4));
    SecondAdded();
    assert Claim(Claims(AllCpus(8), Block(0, 4), 0), Block(4, 4)).total == AllCpus(8);
  }

  lemma SecondAdded()
    ensures AddGroup(Forest([Some(NODES.(groups := [1])), Some(INSIDE), Some(CLUSTERS)], IDLE), 2, 0)
            == Forest([Some(NODES.(groups := [1, 2])), Some(INSIDE), Some(INSIDE)], IDLE)
  {
    var f := Forest([Some(NODES.(groups := [1])), Some(INSIDE), Some(CLUSTERS)], IDLE);
    assert NodeOf(f, 0).groups + [2] == [1, 2];
    assert AddGroup(f, 2, 0).groups == [Some(NODES.(groups := [1, 2])), Some(INSIDE), Some(INSIDE)];
  }

  // -------- four threads --------

  const EVERYWHERE: Call := ThreadCreate(AllCpus(8))

  function Crew(k: nat): Forest {
    Forest([Some(NODES.(groups := [1, 2])), Some(INSIDE), Some(INSIDE)],
      seq(4, i => if i < k then Live(None) else Vacant))
  }

  /** `k` threads are in no group and free to run everywhere. */
  ghost predicate Waiting(calls: seq<Call>, st: State, k: nat) {
    && k <= 4 && Built(START, calls, st, Crew(k)) && st.places.claims[2] == HOME
    && (forall c: nat | c < 8 :: st.places.loads[c] == k)
    && forall u | 0 <= u < k :: st.places.seats[u].cpus == AllCpus(8)
  }

  lemma NobodyWaits() returns (st: State)
    ensures Waiting(BOTH_IN, st, 0)
  {
    st := BothIn();
    assert Crew(0).threads == IDLE;
  }

  lemma OneMoreWaits(calls: seq<Call>, st: State, k: nat) returns (st': State)
    requires Waiting(calls, st, k) && k < 4
    ensures Waiting(calls + [EVERYWHERE], st', k + 1)
  {
    RoamingLoad(8);
    st' := NewThread(START, calls, st, Crew(k), k, AllCpus(8));
    assert SetSlot(Crew(k), k, None) == Crew(k + 1);
  }

  const READY: seq<Call> := BOTH_IN + [EVERYWHERE] + [EVERYWHERE] + [EVERYWHERE] + [EVERYWHERE]

  lemma AllWait() returns (st: State)
    ensures Waiting(READY, st, 4)
  {
    st := NobodyWaits();
    st := OneMoreWaits(BOTH_IN, st, 0);
    st := OneMoreWaits(BOTH_IN + [EVERYWHERE], st, 1);
    st := OneMoreWaits(BOTH_IN + [EVERYWHERE] + [EVERYWHERE], st, 2);
    st := OneMoreWaits(BOTH_IN + [EVERYWHERE] + [EVERYWHERE] + [EVERYWHERE], st, 3);
  }

  // -------- three of them in the group --------

  const THREADS: seq<nat> := [0, 1, 2, 3]
  const BLOCKS: Mode := Mode(2, false, false)

  ghost predicate Set(st: State) {
    && Inv(st) && LiveGroup(st.forest, 2) && ModeOf(NodeOf(st.forest, 2)) == BLOCKS && st.topo == BOARD
    && |st.forest.threads| == 4
    && B.FreshGroup(st, 2, 4, 4, 4) && B.Roamers(st, THREADS, Block(4, 4))
  }

  lemma WaitingSet(st: State)
    requires Waiting(READY, st, 4)
    ensures Set(st)
  {
    assert ModeOf(INSIDE) == BLOCKS;
    forall i | 0 <= i < 4
      ensures THREADS[i] == i && LiveThread(st.forest, i) && Block(4, 4) <= st.places.seats[i].cpus
    {
    }
  }

  /** The first `k` threads are in the group. */
  ghost predicate Joined(calls: seq<Call>, st: State, k: nat, st1: State, v: int) {
    && k <= 4 && Set(st) && P.Blocks(BLOCKS, 4) > 0
    && Reached(START, calls, st1) && B.Progress(st, st1, THREADS, k, 2, 4, 4, v)
  }

  lemma NobodyJoined(st: State)
    requires Waiting(READY, st, 4)
    ensures Joined(READY, st, 0, st, 4)
  {
    WaitingSet(st);
    B.ProgressStart(st, THREADS, 2, 4, 4, 4);
  }

  lemma OneMoreJoins(calls: seq<Call>, st: State, k: nat, st1: State, v: int) returns (st2: State, w: int)
    requires Joined(calls, st, k, st1, v) && k < 4
    ensures Joined(calls + [ThreadAttach(k, 2)], st, k + 1, st2, w)
  {
    assert THREADS[k] == k;
    w := B.ProgressStep(st, st1, THREADS, k, 2, 4, 4, v);
    ReachedOn(calls, st1, k);
    st2 := AttachThread(st1, k, 2).st;
  }

  lemma ReachedOn(calls: seq<Call>, st: State, k: nat)
    requires Reached(START, calls, st) && AttachThread(st, k, 2).Done?
    ensures Reached(START, calls + [ThreadAttach(k, 2)], AttachThread(st, k, 2).st)
  {
    Onward(START, calls, st, ThreadAttach(k, 2));
  }

  const JOINED: seq<Call> := READY + [ThreadAttach(0, 2)] + [ThreadAttach(1, 2)] + [ThreadAttach(2, 2)]

  lemma ThreeJoin() returns (st: State, st1: State, v: int)
    ensures Joined(JOINED, st, 3, st1, v)
  {
    st := AllWait();
    NobodyJoined(st);
    st1, v := OneMoreJoins(READY, st, 0, st, 4);
    st1, v := OneMoreJoins(READY + [ThreadAttach(0, 2)], st, 1, st1, v);
    st1, v := OneMoreJoins(READY + [ThreadAttach(0, 2)] + [ThreadAttach(1, 2)], st, 2, st1, v);
  }

  // -------- the second leaves, the fourth comes --------

  /** Three threads in the group of two clusters: the first and the third on one, the second on the other. */
  ghost predicate OnceAndAHalf(st: State) {
    && Inv(st) && st.topo == BOARD && LiveGroup(st.forest, 2) && NodeOf(st.forest, 2).s == 2
    && ModeOf(NodeOf(st.forest, 2)) == BLOCKS
    && NodeOf(st.forest, 2).threads == [0, 1, 2] && NodeOf(st.forest, 2).groups == []
    && |st.forest.threads| == 4 && st.forest.threads[3] == Live(None)
    && st.places.claims[2] == Claims(Block(4, 4), Block(4, 2), 1) && st.places.seats[1].cpus == Block(6, 2)
  }

  lemma ThreeSeats(calls: seq<Call>, st: State, st1: State, v: int)
    requires Joined(calls, st, 3, st1, v)
    ensures OnceAndAHalf(st1)
  {
    assert THREADS[..3] == [0, 1, 2] && THREADS[1] == 1 && THREADS[3] == 3;
    assert P.ClosedClaims(BLOCKS, 4, 4, 3) == Claims(Block(4, 4), Block(4, 2), 1);
    assert P.ClosedTarget(BLOCKS, 4, 4, 1) == 6;
  }

  /** The exclusive-or marks all CPUs of the group. */
  lemma AllMarked(seat: Seat)
    requires seat.cpus == Block(6, 2)
    ensures ReleaseThread(BLOCKS, Claims(Block(4, 4), Block(4, 2), 1), seat) == Claims(Block(4, 4), Block(4, 4), 1)
  {
    assert 4 in Block(4, 2);
    assert Xor(Block(4, 2), Block(6, 2)) == Block(4, 4);
  }

  /** Nothing is unclaimed, and the fourth thread is in no group. */
  ghost predicate Swamped(st: State) {
    && Base(st) && st.topo == BOARD && LiveGroup(st.forest, 2) && ModeOf(NodeOf(st.forest, 2)) == BLOCKS
    && NodeOf(st.forest, 2).threads == [0, 2] && NodeOf(st.forest, 2).groups == []
    && LiveThread(st.forest, 3) && st.forest.threads[3] == Live(None)
    && st.places.claims[2] == Claims(Block(4, 4), Block(4, 4), 1)
  }

  lemma SecondLeaves(st: State)
    requires OnceAndAHalf(st)
    ensures DetachThread(st, 1, 2).Done? && Swamped(DetachThread(st, 1, 2).st)
  {
    assert 1 in [0, 1, 2];
    assert Knit(BOARD, st.forest, 2);
    LeaveBase(st, 1, 2);
    AllMarked(st.places.seats[1]);
    RemoveOne();
  }

  lemma RemoveOne()
    ensures Remove([0, 1, 2], 1) == [0, 2]
  {
    assert [0, 1, 2][1..] == [1, 2] && [1, 2][1..] == [2];
    assert [0] + [2] == [0, 2];
  }

  /** Where the next thread goes when all CPUs of the group are marked. */
  lemma GoesOutside(loads: seq<int>)
    requires |loads| == 8
    ensures Workable(2, Claims(Block(4, 4), Block(4, 4), 1), 8)
    ensures SeatAt(BLOCKS, Target(BLOCKS, Claims(Block(4, 4), Block(4, 4), 1), loads)).cpus == Block(0, 2)
  {
    var c := Claims(Block(4, 4), Block(4, 4), 1);
    assert Free(c) == {};
    StartUnique(0, Target(BLOCKS, c, loads), 2);
  }

  /** The fourth thread is attached to the group and runs on CPUs 0 and 1, while the group owns CPUs 4 to 7. */
  lemma FourthStrays() returns (st: State)
    ensures Leads(START, JOINED + [ThreadDetach(1, 2)] + [ThreadAttach(3, 2)], st)
    ensures Fit(st.forest, st.places) && LiveGroup(st.forest, 2) && 3 in NodeOf(st.forest, 2).threads
    ensures 3 < |st.places.seats|
    ensures st.places.claims[2].total == Block(4, 4) && st.places.seats[3].cpus == Block(0, 2)
  {
    var st0, st1, v := ThreeJoin();
    ThreeSeats(JOINED, st0, st1, v);
    SecondLeaves(st1);
    LeadsOn(START, JOINED, st1, ThreadDetach(1, 2));
    st := Strays(JOINED + [ThreadDetach(1, 2)], DetachThread(st1, 1, 2).st);
  }

  lemma Strays(calls: seq<Call>, st: State) returns (st': State)
    requires Leads(START, calls, st) && Swamped(st)
    ensures Leads(START, calls + [ThreadAttach(3, 2)], st')
    ensures Fit(st'.forest, st'.places) && LiveGroup(st'.forest, 2) && 3 in NodeOf(st'.forest, 2).threads
    ensures 3 < |st'.places.seats|
    ensures st'.places.claims[2].total == Block(4, 4) && st'.places.seats[3].cpus == Block(0, 2)
  {
    LeadsOn(START, calls, st, ThreadAttach(3, 2));
    st' := AttachThread(st, 3, 2).st;
    GoesOutside(SubLoad(st.places.loads, st.places.seats[3].cpus));
    assert NodeOf(st'.forest, 2).threads == [0, 2] + [3];
  }
}
