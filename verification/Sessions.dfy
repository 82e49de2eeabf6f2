/** One group's members over whole runs: the results about a single group carried over to the library.

    They hold for threads in a group and for child groups of a father alike, with any other calls in between. */
module Sessions {
  import opened CpuSet
  import opened Allocator
  import opened Balance
  import opened Library
  import opened Api
  import opened Frames
  import opened Runs
  import opened Crews
  import D = Detach
  import T = Theorems

  /** A run in which the group is not re-placed and all its members are of one kind: they come and go, by
      attaching, detaching, joining and destroying, while any calls are made on other groups and threads. */
  ghost predicate Session(sts: seq<State>, calls: seq<Call>, y: nat, kind: Kind) {
    && T.Run(sts, calls) && Base(sts[0]) && LiveGroup(sts[0].forest, y)
    && forall k | 0 <= k < |calls| :: Minds(sts[k], calls[k], y, kind)
  }

  ghost predicate TurnAt(sts: seq<State>, y: nat, kind: Kind, m: Mode, n: nat, rs: seq<D.Roster>, es: seq<D.Event>,
        k: nat)
    requires k + 1 < |sts| && k < |es| && |rs| == |es| + 1
  {
    Turn(sts[k], sts[k + 1], y, kind, m, n, rs[k], es[k], rs[k + 1])
  }

  /** Rosters and events that follow the run, up to some point. */
  ghost predicate Follows(sts: seq<State>, y: nat, kind: Kind, m: Mode, n: nat, rs: seq<D.Roster>, es: seq<D.Event>) {
    && |rs| == |es| + 1 <= |sts| && Shown(sts[0], y, kind, m, n, rs[0])
    && forall k | 0 <= k < |es| :: TurnAt(sts, y, kind, m, n, rs, es, k)
  }

  lemma ShownAt(sts: seq<State>, y: nat, kind: Kind, m: Mode, n: nat, rs: seq<D.Roster>, es: seq<D.Event>, k: nat)
    requires Follows(sts, y, kind, m, n, rs, es) && k < |rs|
    ensures Shown(sts[k], y, kind, m, n, rs[k])
  {
    if k > 0 { assert TurnAt(sts, y, kind, m, n, rs, es, k - 1); }
  }

  lemma FollowOn(sts: seq<State>, y: nat, kind: Kind, m: Mode, n: nat, rs: seq<D.Roster>, es: seq<D.Event>, e: D.Event,
        r: D.Roster)
    requires Follows(sts, y, kind, m, n, rs, es) && |rs| < |sts|
    requires Turn(sts[|es|], sts[|rs|], y, kind, m, n, rs[|es|], e, r)
    ensures Follows(sts, y, kind, m, n, rs + [r], es + [e])
  {
    assert (rs + [r])[0] == rs[0];
    LastTurn(sts, y, kind, m, n, rs, es, e, r);
    AllTurns(sts, y, kind, m, n, rs, es, rs + [r], es + [e]);
  }

  lemma AllTurns(sts: seq<State>, y: nat, kind: Kind, m: Mode, n: nat, rs: seq<D.Roster>, es: seq<D.Event>,
        rs': seq<D.Roster>, es': seq<D.Event>)
    requires |rs| == |es| + 1 < |sts| && |rs'| == |es'| + 1 == |rs| + 1 && rs <= rs' && es <= es'
    requires forall k | 0 <= k < |es| :: TurnAt(sts, y, kind, m, n, rs, es, k)
    requires TurnAt(sts, y, kind, m, n, rs', es', |es|)
    ensures forall k | 0 <= k < |es'| :: TurnAt(sts, y, kind, m, n, rs', es', k)
  {
    forall k | 0 <= k < |es'|
      ensures TurnAt(sts, y, kind, m, n, rs', es', k)
    {
      if k < |es| { SameTurn(sts, y, kind, m, n, rs, es, rs', es', k); }
    }
  }

  lemma LastTurn(sts: seq<State>, y: nat, kind: Kind, m: Mode, n: nat, rs: seq<D.Roster>, es: seq<D.Event>, e: D.Event,
        r: D.Roster)
    requires |rs| == |es| + 1 < |sts| && Turn(sts[|es|], sts[|rs|], y, kind, m, n, rs[|es|], e, r)
    ensures TurnAt(sts, y, kind, m, n, rs + [r], es + [e], |es|)
  {
    assert (rs + [r])[|es|] == rs[|es|] && (rs + [r])[|es| + 1] == r && (es + [e])[|es|] == e;
  }

  lemma SameTurn(sts: seq<State>, y: nat, kind: Kind, m: Mode, n: nat, rs: seq<D.Roster>, es: seq<D.Event>,
        rs': seq<D.Roster>, es': seq<D.Event>, k: nat)
    requires k + 1 < |sts| && k < |es| && |rs| == |es| + 1 && k < |es'| && |rs'| == |es'| + 1
    requires TurnAt(sts, y, kind, m, n, rs, es, k)
    requires rs'[k] == rs[k] && rs'[k + 1] == rs[k + 1] && es'[k] == es[k]
    ensures TurnAt(sts, y, kind, m, n, rs', es', k)
  {
  }

  lemma SessionTurn(sts: seq<State>, calls: seq<Call>, y: nat, kind: Kind, m: Mode, n: nat, k: nat, r: D.Roster)
    returns (e: D.Event, r': D.Roster)
    requires Session(sts, calls, y, kind) && k < |calls| && Shown(sts[k], y, kind, m, n, r)
    ensures Turn(sts[k], sts[k + 1], y, kind, m, n, r, e, r')
  {
    assert Minds(sts[k], calls[k], y, kind) && T.Step(sts[k], calls[k], sts[k + 1]);
    e, r' := CallIsEvent(sts[k], calls[k], y, kind, m, n, r);
  }

  /** A session is a run of the group's roster. */
  lemma SessionFollows(sts: seq<State>, calls: seq<Call>, y: nat, kind: Kind, m: Mode, n: nat, r: D.Roster)
    returns (rs: seq<D.Roster>, es: seq<D.Event>)
    requires Session(sts, calls, y, kind) && Shown(sts[0], y, kind, m, n, r)
    ensures |es| == |calls| && Follows(sts, y, kind, m, n, rs, es) && rs[0] == r
  {
    rs, es := [r], [];
    while |es| < |calls|
      invariant |es| <= |calls| && Follows(sts, y, kind, m, n, rs, es) && rs[0] == r
    {
      var k := |es|;
      ShownAt(sts, y, kind, m, n, rs, es, k);
      var e, r' := SessionTurn(sts, calls, y, kind, m, n, k, rs[k]);
      FollowOn(sts, y, kind, m, n, rs, es, e, r');
      rs, es := rs + [r'], es + [e];
    }
  }

  lemma FollowsIsRun(sts: seq<State>, y: nat, kind: Kind, m: Mode, n: nat, rs: seq<D.Roster>, es: seq<D.Event>)
    requires Follows(sts, y, kind, m, n, rs, es)
    ensures D.Run(m, n, rs, es)
  {
    forall k | 0 <= k < |es|
      ensures D.Step(m, n, rs[k], es[k], rs[k + 1])
    {
      assert TurnAt(sts, y, kind, m, n, rs, es, k);
    }
  }

  lemma CrewSize(sts: seq<State>, y: nat, kind: Kind, m: Mode, n: nat, rs: seq<D.Roster>, es: seq<D.Event>, k: nat)
    requires Follows(sts, y, kind, m, n, rs, es) && k < |rs|
    ensures |rs[k].seats| == |CrewIn(sts[k], y, kind)|
  {
    ShownAt(sts, y, kind, m, n, rs, es, k);
  }

  // -------- exact bookkeeping --------

  /** What each member has claimed, oldest first. */
  ghost function MemberClaims(st: State, y: nat, kind: Kind): (xs: seq<set<nat>>)
    requires Base(st) && LiveGroup(st.forest, y)
    ensures |xs| == |CrewIn(st, y, kind)|
  {
    var f, p := st.forest, st.places;
    assert Knit(st.topo, f, y);
    ShapeWorkable(st.topo, f, p, y);
    var m, crew := KindMode(NodeOf(f, y), kind), CrewOf(NodeOf(f, y), kind);
    seq(|crew|, i requires 0 <= i < |crew| =>
      assert crew[i] in crew;
        if kind == OfThreads then ClaimAt(m, p.seats[crew[i]].target) else p.claims[crew[i]].total)
  }

  lemma ClaimsAgree(st: State, y: nat, kind: Kind, m: Mode, n: nat, r: D.Roster)
    requires Shown(st, y, kind, m, n, r) && m.s > 0
    requires forall i | 0 <= i < |r.seats| :: r.seats[i] == SeatAt(m, r.seats[i].target)
    ensures D.ClaimsOf(m, r.seats) == MemberClaims(st, y, kind)
  {
    var crew := CrewOf(NodeOf(st.forest, y), kind);
    forall i | 0 <= i < |crew|
      ensures D.ClaimsOf(m, r.seats)[i] == MemberClaims(st, y, kind)[i]
    {
      assert Holds(st.places, kind, crew[i], r.seats[i]) && crew[i] in crew;
    }
  }

  /** The group's rounds and marks are exactly its members' claims, and as tidy as its way of seating leaves them. */
  ghost predicate ExactBooks(st: State, y: nat, kind: Kind) {
    && Base(st) && LiveGroup(st.forest, y)
    && exists r :: Mirrors(st, y, kind, r) && D.Exact(KindMode(NodeOf(st.forest, y), kind), st.topo.n, r)
  }

  /** A group that has just got its CPUs and has no members yet. */
  lemma FreshBooks(st: State, y: nat, kind: Kind)
    requires Base(st) && LiveGroup(st.forest, y) && CrewIn(st, y, kind) == []
    requires var c := st.places.claims[y]; c.used == {} && c.roll == 0 && Blocky(c.total, NodeOf(st.forest, y).s)
    ensures ExactBooks(st, y, kind)
  {
    var c, m := st.places.claims[y], KindMode(NodeOf(st.forest, y), kind);
    ShapeWorkable(st.topo, st.forest, st.places, y);
    ShapeInRange(st.topo, c.total);
    D.FreshExact(m, st.topo.n, c.total);
    assert c == Claims(c.total, {}, 0);
    assert Mirrors(st, y, kind, D.Roster(c, []));
  }

  lemma BooksRoster(st: State, y: nat, kind: Kind) returns (r: D.Roster)
    requires ExactBooks(st, y, kind)
    ensures Shown(st, y, kind, KindMode(NodeOf(st.forest, y), kind), st.topo.n, r)
    ensures D.Exact(KindMode(NodeOf(st.forest, y), kind), st.topo.n, r)
  {
    r :| Mirrors(st, y, kind, r) && D.Exact(KindMode(NodeOf(st.forest, y), kind), st.topo.n, r);
  }

  // -------- exact books are fair shares --------

  /** Members with claims of `size` CPUs each: every CPU of the group is claimed the floor or the ceiling of the
      average number of times, and the rounds and marks account for exactly the members' claims. */
  ghost predicate FairlyShared(c: Claims, xs: seq<set<nat>>, size: nat)
    requires |c.total| > 0
  {
    var q, left := (size * |xs|) / |c.total|, (size * |xs|) % |c.total|;
    && c.roll == q && |c.used| == left
    && forall d | d in c.total :: Cover(xs, d) == q || (Cover(xs, d) == q + 1 && left != 0)
  }

  /** Exact books that share out the CPUs fairly. */
  ghost predicate FairBooks(st: State, y: nat, kind: Kind) {
    && ExactBooks(st, y, kind) && |st.places.claims[y].total| > 0
    && FairlyShared(st.places.claims[y], MemberClaims(st, y, kind), D.ClaimSize(KindMode(NodeOf(st.forest, y), kind)))
  }

  /** Exact books are fair, whether members only came or some have left. */
  lemma ExactIsFair(st: State, y: nat, kind: Kind)
    requires ExactBooks(st, y, kind)
    ensures FairBooks(st, y, kind)
  {
    var m, n := KindMode(NodeOf(st.forest, y), kind), st.topo.n;
    var r := BooksRoster(st, y, kind);
    ClaimsAgree(st, y, kind, m, n, r);
    var some :| some in r.c.total;
    D.FairSeats(m, n, r, |r.seats|, |r.c.total|, some);
    forall d | d in r.c.total
      ensures var q, left := (D.ClaimSize(m) * |r.seats|) / |r.c.total|, (D.ClaimSize(m) * |r.seats|) % |r.c.total|;
        var xs := MemberClaims(st, y, kind); Cover(xs, d) == q || (Cover(xs, d) == q + 1 && left != 0)
    {
      D.FairSeats(m, n, r, |r.seats|, |r.c.total|, d);
    }
  }

  // -------- last in, first out --------

  /** Whenever the membership shrinks, its newest member has left. */
  ghost predicate NewestLeaves(sts: seq<State>, y: nat, kind: Kind) {
    forall k | 0 <= k < |sts| - 1 :: NewestLeft(CrewIn(sts[k], y, kind), CrewIn(sts[k + 1], y, kind))
  }

  ghost predicate NewestLeft(crew: seq<nat>, crew': seq<nat>) { |crew'| < |crew| ==> crew' == crew[..|crew| - 1] }

  /** Between `i` and `j` there are never fewer members than at `i`. */
  ghost predicate NotBelow(sts: seq<State>, y: nat, kind: Kind, i: nat, j: nat)
    requires i <= j < |sts|
  {
    forall k | i <= k <= j :: |CrewIn(sts[i], y, kind)| <= |CrewIn(sts[k], y, kind)|
  }

  lemma LastOut(crew: seq<nat>, i: nat)
    requires Distinct(crew) && i < |crew|
    ensures Without(crew, i) == crew[..|crew| - 1] ==> i == |crew| - 1
  {
    if i < |crew| - 1 { assert Without(crew, i)[i] == crew[i + 1]; }
  }

  lemma FollowsLifo(sts: seq<State>, y: nat, kind: Kind, m: Mode, n: nat, rs: seq<D.Roster>, es: seq<D.Event>)
    requires Follows(sts, y, kind, m, n, rs, es) && |rs| == |sts| && NewestLeaves(sts, y, kind)
    ensures D.LastInFirstOut(rs, es)
  {
    forall k | 0 <= k < |es| && es[k].Detach?
      ensures es[k].i == |rs[k].seats| - 1
    {
      assert TurnAt(sts, y, kind, m, n, rs, es, k) && NewestLeft(CrewIn(sts[k], y, kind), CrewIn(sts[k + 1], y, kind));
      CrewSize(sts, y, kind, m, n, rs, es, k);
      LastOut(CrewIn(sts[k], y, kind), es[k].i);
    }
  }

  ghost function CrewsIn(sts: seq<State>, y: nat, kind: Kind): (crews: seq<seq<nat>>)
    ensures |crews| == |sts| && forall k | 0 <= k < |sts| :: crews[k] == CrewIn(sts[k], y, kind)
  {
    seq(|sts|, k requires 0 <= k < |sts| => CrewIn(sts[k], y, kind))
  }

  /** A list that is only extended or cut at its end keeps what it held as long as it is not cut below. */
  lemma {:induction false} PrefixStays(xs: seq<seq<nat>>, i: nat, k: nat)
    requires i <= k < |xs| && forall x | i <= x <= k :: |xs[i]| <= |xs[x]|
    requires forall x {:trigger xs[x]} | i < x <= k :: xs[x - 1] <= xs[x] || xs[x] <= xs[x - 1]
    ensures xs[i] <= xs[k]
    decreases k
  {
    if i < k { PrefixStays(xs, i, k - 1); }
  }

  lemma TurnExtendsOrCuts(crew: seq<nat>, crew': seq<nat>, e: D.Event)
    requires CrewTurn(crew, crew', e) && NewestLeft(crew, crew')
    ensures crew <= crew' || crew' <= crew
  {
  }

  lemma MembersStay(sts: seq<State>, y: nat, kind: Kind, m: Mode, n: nat, rs: seq<D.Roster>, es: seq<D.Event>, i: nat,
        k: nat)
    requires Follows(sts, y, kind, m, n, rs, es) && |rs| == |sts| && NewestLeaves(sts, y, kind)
    requires i <= k < |sts| && NotBelow(sts, y, kind, i, k)
    ensures CrewIn(sts[i], y, kind) <= CrewIn(sts[k], y, kind)
  {
    var crews := CrewsIn(sts, y, kind);
    forall x {:trigger crews[x]} | i < x <= k
      ensures crews[x - 1] <= crews[x] || crews[x] <= crews[x - 1]
    {
      assert TurnAt(sts, y, kind, m, n, rs, es, x - 1)
        && NewestLeft(CrewIn(sts[x - 1], y, kind), CrewIn(sts[x - 1 + 1], y, kind));
      TurnExtendsOrCuts(CrewIn(sts[x - 1], y, kind), CrewIn(sts[x], y, kind), es[x - 1]);
    }
    PrefixStays(crews, i, k);
  }

  lemma NestedFollows(sts: seq<State>, y: nat, kind: Kind, m: Mode, n: nat, rs: seq<D.Roster>, es: seq<D.Event>, i: nat,
        j: nat)
    requires Follows(sts, y, kind, m, n, rs, es) && |rs| == |sts| && NewestLeaves(sts, y, kind)
    requires NotBelow(sts, y, kind, 0, |sts| - 1)
    requires D.Reversible(m) && D.Exact(m, n, rs[0])
    requires i <= j < |sts| && NotBelow(sts, y, kind, i, j) && |CrewIn(sts[j], y, kind)| == |CrewIn(sts[i], y, kind)|
    ensures rs[j] == rs[i] && D.Exact(m, n, rs[j])
  {
    FollowsIsRun(sts, y, kind, m, n, rs, es);
    FollowsLifo(sts, y, kind, m, n, rs, es);
    forall k | 0 <= k < |rs|
      ensures |rs[k].seats| == |CrewIn(sts[k], y, kind)|
    {
      CrewSize(sts, y, kind, m, n, rs, es, k);
    }
    D.LastInFirstOutExact(m, n, rs, es, i);
    D.NestedDetachRestores(m, n, rs, es, i, j);
  }

  /** The CPUs of a member: where the thread may run, or what the child group owns. */
  ghost function CpusIn(st: State, kind: Kind, x: nat): set<nat> {
    if kind == OfThreads then if x < |st.places.seats| then st.places.seats[x].cpus else {}
    else if x < |st.places.claims| then st.places.claims[x].total else {}
  }

  lemma SameRoster(st: State, st': State, y: nat, kind: Kind, m: Mode, n: nat, r: D.Roster)
    requires Shown(st, y, kind, m, n, r) && Shown(st', y, kind, m, n, r) && D.Exact(m, n, r)
    requires CrewIn(st, y, kind) <= CrewIn(st', y, kind)
    ensures SameMembers(st, st', y, kind) && ExactBooks(st', y, kind)
  {
    var crew := CrewIn(st, y, kind);
    assert CrewIn(st', y, kind) == crew;
    forall i | 0 <= i < |crew|
      ensures CpusIn(st', kind, crew[i]) == CpusIn(st, kind, crew[i])
    {
      assert Holds(st.places, kind, crew[i], r.seats[i]) && Holds(st'.places, kind, crew[i], r.seats[i]);
    }
  }

  /** The same claims and rounds, the same members, and the same CPUs for each of them. */
  ghost predicate SameMembers(st: State, st': State, y: nat, kind: Kind) {
    && y < |st.places.claims| && y < |st'.places.claims| && st'.places.claims[y] == st.places.claims[y]
    && CrewIn(st', y, kind) == CrewIn(st, y, kind)
    && forall x | x in CrewIn(st, y, kind) :: CpusIn(st', kind, x) == CpusIn(st, kind, x)
  }

  /** From exact books members come and only the newest ever leaves.  Whenever the membership is back at an earlier
      size without having been below it, the group's claims and rounds, its member list and its members' CPUs are
      what they were, across any number of roll-overs and whatever the loads, and the books are exact and fair. */
  lemma NestedSession(sts: seq<State>, calls: seq<Call>, y: nat, kind: Kind, i: nat, j: nat)
    requires Session(sts, calls, y, kind) && ExactBooks(sts[0], y, kind)
    requires D.Reversible(KindMode(NodeOf(sts[0].forest, y), kind))
    requires NewestLeaves(sts, y, kind) && NotBelow(sts, y, kind, 0, |sts| - 1)
    requires i <= j < |sts| && NotBelow(sts, y, kind, i, j) && |CrewIn(sts[j], y, kind)| == |CrewIn(sts[i], y, kind)|
    ensures SameMembers(sts[i], sts[j], y, kind) && FairBooks(sts[j], y, kind)
  {
    var m, n := KindMode(NodeOf(sts[0].forest, y), kind), sts[0].topo.n;
    var r := BooksRoster(sts[0], y, kind);
    var rs, es := SessionFollows(sts, calls, y, kind, m, n, r);
    NestedFollows(sts, y, kind, m, n, rs, es, i, j);
    MembersStay(sts, y, kind, m, n, rs, es, i, j);
    ShownAt(sts, y, kind, m, n, rs, es, i);
    ShownAt(sts, y, kind, m, n, rs, es, j);
    SameRoster(sts[i], sts[j], y, kind, m, n, rs[i]);
    ExactIsFair(sts[j], y, kind);
  }

  // -------- members leaving in any order --------

  /** No more members than blocks. */
  ghost predicate Roomed(st: State, y: nat, kind: Kind)
    requires Fit(st.forest, st.places)
  {
    LiveGroup(st.forest, y) ==> NodeOf(st.forest, y).s * |CrewIn(st, y, kind)| <= |st.places.claims[y].total|
  }

  /** The members' claims do not overlap and are together exactly what the group holds as claimed. */
  ghost predicate Apart(c: Claims, xs: seq<set<nat>>) {
    && (c.roll == 0 || (c.roll == 1 && c.used == {}))
    && (forall i, j | 0 <= i < j < |xs| :: xs[i] !! xs[j])
    && (forall d | d in c.total :: d in D.Held(c) <==> exists i :: 0 <= i < |xs| && d in xs[i])
  }

  lemma FollowsFits(sts: seq<State>, y: nat, kind: Kind, m: Mode, n: nat, rs: seq<D.Roster>, es: seq<D.Event>)
    requires Follows(sts, y, kind, m, n, rs, es) && |rs| == |sts|
    requires forall st | st in sts :: Fit(st.forest, st.places) && Roomed(st, y, kind)
    ensures forall r | r in rs :: D.Fits(m, r)
  {
    forall r | r in rs
      ensures D.Fits(m, r)
    {
      var k :| 0 <= k < |rs| && rs[k] == r;
      assert sts[k] in sts;
      ShownAt(sts, y, kind, m, n, rs, es, k);
    }
  }

  lemma PartitionedApart(st: State, y: nat, kind: Kind, m: Mode, n: nat, r: D.Roster)
    requires Shown(st, y, kind, m, n, r) && D.Exact(m, n, r) && D.Partitioned(m, r)
    ensures ExactBooks(st, y, kind) && Apart(st.places.claims[y], MemberClaims(st, y, kind))
  {
    ClaimsAgree(st, y, kind, m, n, r);
  }

  /** Where every claim is one whole block, as with child groups, members may leave in any order: while there are
      never more of them than blocks, their claims never overlap and are together exactly what the group holds, and
      the CPUs are shared out fairly. */
  lemma AnyOrderSession(sts: seq<State>, calls: seq<Call>, y: nat, kind: Kind, k: nat)
    requires Session(sts, calls, y, kind) && ExactBooks(sts[0], y, kind)
    requires D.WholeBlocks(KindMode(NodeOf(sts[0].forest, y), kind))
    requires forall st | st in sts :: Fit(st.forest, st.places) && Roomed(st, y, kind)
    requires k < |sts|
    ensures FairBooks(sts[k], y, kind) && Apart(sts[k].places.claims[y], MemberClaims(sts[k], y, kind))
  {
    var m, n := KindMode(NodeOf(sts[0].forest, y), kind), sts[0].topo.n;
    var r := BooksRoster(sts[0], y, kind);
    var rs, es := SessionFollows(sts, calls, y, kind, m, n, r);
    FollowsIsRun(sts, y, kind, m, n, rs, es);
    FollowsFits(sts, y, kind, m, n, rs, es);
    D.AnyOrderExact(m, n, rs, es, k);
    D.AnyOrderWithinCapacity(m, n, rs, es, k);
    ShownAt(sts, y, kind, m, n, rs, es, k);
    PartitionedApart(sts[k], y, kind, m, n, rs[k]);
    ExactIsFair(sts[k], y, kind);
  }

  // -------- members only coming --------

  lemma OnlyComing(sts: seq<State>, y: nat, kind: Kind, m: Mode, n: nat, rs: seq<D.Roster>, es: seq<D.Event>)
    requires Follows(sts, y, kind, m, n, rs, es) && |rs| == |sts|
    requires forall k | 0 <= k < |sts| - 1 :: |CrewIn(sts[k], y, kind)| <= |CrewIn(sts[k + 1], y, kind)|
    ensures forall e | e in es :: !e.Detach?
  {
    forall e | e in es
      ensures !e.Detach?
    {
      var k :| 0 <= k < |es| && es[k] == e;
      assert TurnAt(sts, y, kind, m, n, rs, es, k);
      assert |CrewIn(sts[k], y, kind)| <= |CrewIn(sts[k + 1], y, kind)|;
    }
  }

  /** From exact books, as long as members only come, the CPUs are shared out fairly, whatever the loads. */
  lemma FairSession(sts: seq<State>, calls: seq<Call>, y: nat, kind: Kind, k: nat)
    requires Session(sts, calls, y, kind) && ExactBooks(sts[0], y, kind) && k < |sts|
    requires forall k | 0 <= k < |sts| - 1 :: |CrewIn(sts[k], y, kind)| <= |CrewIn(sts[k + 1], y, kind)|
    ensures FairBooks(sts[k], y, kind)
  {
    var m, n := KindMode(NodeOf(sts[0].forest, y), kind), sts[0].topo.n;
    var r := BooksRoster(sts[0], y, kind);
    var rs, es := SessionFollows(sts, calls, y, kind, m, n, r);
    FollowsIsRun(sts, y, kind, m, n, rs, es);
    OnlyComing(sts, y, kind, m, n, rs, es);
    D.AttachRunExact(m, n, rs, es, k);
    ShownAt(sts, y, kind, m, n, rs, es, k);
    assert Mirrors(sts[k], y, kind, rs[k]);
    ExactIsFair(sts[k], y, kind);
  }
}
