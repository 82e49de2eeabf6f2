/** One group and its members, seen through any API call.

    A group's members are threads or child groups.  Both are seated the same way: a father hands out blocks to
    child groups as a scattered group does to threads bound to a whole block.  So either kind of crew is a
    `Detach.Roster`, and every call that does not re-place the group is one event of it. */
module Crews {
  import opened Topology
  import opened Allocator
  import opened Balance
  import opened Library
  import opened Api
  import opened Frames
  import opened Runs
  import D = Detach
  import S = Siblings

  datatype Kind = OfThreads | OfGroups

  /** How the group seats members of that kind. */
  function KindMode(x: Node, kind: Kind): Mode { if kind == OfThreads then ModeOf(x) else Mode(x.s, false, false) }

  function CrewOf(x: Node, kind: Kind): seq<nat> { if kind == OfThreads then x.threads else x.groups }

  /** Member `x` holds that seat; of a child group only the CPUs are recorded. */
  ghost predicate Holds(p: Places, kind: Kind, x: nat, seat: Seat) {
    if kind == OfThreads then x < |p.seats| && p.seats[x] == seat else x < |p.claims| && p.claims[x].total == seat.cpus
  }

  ghost predicate Seated(p: Places, kind: Kind, crew: seq<nat>, seats: seq<Seat>) {
    |seats| == |crew| && forall i | 0 <= i < |crew| :: Holds(p, kind, crew[i], seats[i])
  }

  /** The roster says what the library's records say. */
  ghost predicate Mirrors(st: State, y: nat, kind: Kind, r: D.Roster)
    requires Fit(st.forest, st.places) && LiveGroup(st.forest, y)
  {
    r.c == st.places.claims[y] && Seated(st.places, kind, CrewOf(NodeOf(st.forest, y), kind), r.seats)
  }

  // -------- what a call means to the group --------

  /** The call makes `x` a member of `y`. */
  ghost predicate Arrives(st: State, call: Call, y: nat, kind: Kind, x: nat)
    requires Usable(st)
  {
    match kind
    case OfThreads => call == ThreadAttach(x, y) && AttachThread(st, x, y).Done?
    case OfGroups => call == GroupAttach(x, y) && AttachGroup(st, x, y).Done? && !Under(st.forest, y, x)
  }

  /** The call takes member `x` out of `y`. */
  ghost predicate Departs(st: State, call: Call, y: nat, kind: Kind, x: nat)
    requires Usable(st)
  {
    var f := st.forest;
    match kind
    case OfThreads =>
      || (call == ThreadDetach(x, y) && DetachThread(st, x, y).Done?)
      || (call == ThreadJoin(x) && LiveThread(f, x) && f.threads[x].group == Some(y))
    case OfGroups =>
      || (call == GroupDetach(x, y) && DetachGroup(st, x, y).Done?)
      || (call == GroupDestroy(x) && DestroyGroup(st, x).Done? && NodeOf(f, x).father == Some(y))
  }

  /** The call removes `y` or gives it, or one of its child groups, other CPUs. */
  ghost predicate Replaces(st: State, call: Call, y: nat)
    requires Usable(st)
  {
    var f := st.forest;
    match call
    case GroupDestroy(x) => x == y && DestroyGroup(st, x).Done?
    case GroupSetAttr(x, a) => SetAttribute(st, x, a).Done? && (Under(f, y, x) || NodeOf(f, x).father == Some(y))
    case GroupAttach(x, h) => AttachGroup(st, x, h).Done? && Under(f, y, x)
    case _ => false
  }

  /** The call is other groups' business. */
  ghost predicate Passes(st: State, call: Call, y: nat)
    requires Usable(st)
  {
    !Replaces(st, call, y) && forall kind, x: nat :: !Arrives(st, call, y, kind, x) && !Departs(st, call, y, kind, x)
  }

  // -------- calls that pass --------

  /** Group `y`, its bookkeeping and its members' seats are the same in both states. */
  ghost predicate SameCrew(st: State, st': State, y: nat)
    requires Fit(st.forest, st.places) && LiveGroup(st.forest, y)
  {
    var f, f', p, p' := st.forest, st'.forest, st.places, st'.places;
    && Fit(f', p') && LiveGroup(f', y) && st'.topo == st.topo
    && |p'.seats| == |p.seats| && |p'.claims| == |p.claims|
    && SameNode(NodeOf(f, y), NodeOf(f', y)) && p'.claims[y] == p.claims[y]
    && (forall u: nat | u in NodeOf(f, y).threads && u < |p.seats| :: p'.seats[u] == p.seats[u])
    && (forall c: nat | c in NodeOf(f, y).groups && c < |p.claims| :: p'.claims[c].total == p.claims[c].total)
  }

  predicate SameNode(x: Node, x': Node) {
    x'.attribute == x.attribute && x'.s == x.s && x'.threads == x.threads && x'.groups == x.groups
  }

  lemma SameCrewMirrors(st: State, st': State, y: nat, kind: Kind, r: D.Roster)
    requires Usable(st) && LiveGroup(st.forest, y) && SameCrew(st, st', y) && Mirrors(st, y, kind, r)
    ensures Mirrors(st', y, kind, r)
  {
    var crew := CrewOf(NodeOf(st.forest, y), kind);
    forall i | 0 <= i < |crew|
      ensures Holds(st'.places, kind, crew[i], r.seats[i])
    {
      assert crew[i] in crew && Holds(st.places, kind, crew[i], r.seats[i]);
    }
  }

  lemma LeavePasses(st: State, u: nat, g: nat, y: nat)
    requires Usable(st) && LiveThread(st.forest, u) && LiveGroup(st.forest, g) && LiveGroup(st.forest, y) && g != y
    ensures SameCrew(st, Leave(st, u, g), y)
  {
  }

  lemma FreeThreadPasses(st: State, u: nat, y: nat)
    requires Fit(st.forest, st.places) && LiveGroup(st.forest, y) && u < |st.forest.threads|
    requires u !in NodeOf(st.forest, y).threads
    ensures SameCrew(st, FreeThread(st, u), y)
  {
  }

  lemma JoinPasses(st: State, u: nat, y: nat)
    requires Usable(st) && LiveGroup(st.forest, y) && LiveThread(st.forest, u) && st.forest.threads[u].group != Some(y)
    ensures SameCrew(st, JoinThread(st, u).st, y)
  {
    var f := st.forest;
    assert SlotOk(f, u) && Knit(st.topo, f, y);
    match f.threads[u].group
    case None => FreeThreadPasses(st, u, y);
    case Some(g) =>
      LeavePasses(st, u, g, y);
      FreeThreadPasses(Leave(st, u, g), u, y);
  }

  lemma AttachThreadPasses(st: State, u: nat, g: nat, y: nat)
    requires Usable(st) && LiveGroup(st.forest, y) && AttachThread(st, u, g).Done? && g != y
    ensures SameCrew(st, AttachThread(st, u, g).st, y)
  {
    assert Knit(st.topo, st.forest, y) && u !in NodeOf(st.forest, y).threads;
  }

  lemma CreateThreadPasses(st: State, affinity: set<nat>, y: nat)
    requires Usable(st) && LiveGroup(st.forest, y) && CreateThread(st, affinity).Done?
    ensures SameCrew(st, CreateThread(st, affinity).st, y)
  {
    assert Knit(st.topo, st.forest, y) && VacantThread(st.forest.threads, 0) !in NodeOf(st.forest, y).threads;
  }

  lemma ThreadPasses(st: State, call: Call, y: nat)
    requires Base(st) && Defined(st, call) && LiveGroup(st.forest, y) && Passes(st, call, y) && Perform(st, call).Done?
    requires call.ThreadCreate? || call.ThreadJoin? || call.ThreadAttach? || call.ThreadDetach?
    ensures SameCrew(st, After(st, call), y)
  {
    match call
    case ThreadCreate(affinity) => CreateThreadPasses(st, affinity, y);
    case ThreadJoin(u) =>
      assert !Departs(st, call, y, OfThreads, u);
      JoinPasses(st, u, y);
    case ThreadAttach(u, g) =>
      assert !Arrives(st, call, y, OfThreads, u);
      AttachThreadPasses(st, u, g, y);
    case ThreadDetach(u, g) =>
      assert !Departs(st, call, y, OfThreads, u);
      LeavePasses(st, u, g, y);
  }

  lemma LeaveGroupPasses(st: State, x: nat, h: nat, y: nat)
    requires Usable(st) && LiveGroup(st.forest, x) && LiveGroup(st.forest, h) && LiveGroup(st.forest, y) && h != y
    ensures SameCrew(st, LeaveGroup(st, x, h), y)
  {
  }

  lemma FreeGroupPasses(st: State, x: nat, y: nat)
    requires Fit(st.forest, st.places) && LiveGroup(st.forest, y) && LiveGroup(st.forest, x) && x != y
    requires x !in NodeOf(st.forest, y).groups
    ensures SameCrew(st, FreeGroup(st, x), y)
  {
  }

  lemma DestroyPasses(st: State, x: nat, y: nat)
    requires Usable(st) && LiveGroup(st.forest, y) && DestroyGroup(st, x).Done? && x != y
    requires NodeOf(st.forest, x).father != Some(y)
    ensures SameCrew(st, DestroyGroup(st, x).st, y)
  {
    var f := st.forest;
    assert Knit(st.topo, f, x) && Knit(st.topo, f, y);
    match NodeOf(f, x).father
    case None => FreeGroupPasses(st, x, y);
    case Some(h) =>
      LeaveGroupPasses(st, x, h, y);
      FreeGroupPasses(LeaveGroup(st, x, h), x, y);
  }

  lemma CreateGroupPasses(st: State, y: nat)
    requires Usable(st) && LiveGroup(st.forest, y) && CreateGroup(st).Done?
    ensures SameCrew(st, CreateGroup(st).st, y)
  {
    assert Knit(st.topo, st.forest, y) && VacantGroup(st.forest.groups, 0) !in NodeOf(st.forest, y).groups;
  }

  lemma LinkPasses(st: State, call: Call, y: nat)
    requires Base(st) && Defined(st, call) && LiveGroup(st.forest, y) && Passes(st, call, y) && Perform(st, call).Done?
    requires call.GroupCreate? || call.GroupDestroy? || call.GroupDetach?
    ensures SameCrew(st, After(st, call), y)
  {
    match call
    case GroupCreate => CreateGroupPasses(st, y);
    case GroupDestroy(x) =>
      assert !Departs(st, call, y, OfGroups, x);
      DestroyPasses(st, x, y);
    case GroupDetach(x, h) =>
      assert !Departs(st, call, y, OfGroups, x);
      LeaveGroupPasses(st, x, h, y);
  }

  /** Re-placing another group leaves `y` alone unless it is below. */
  lemma ReplacePasses(t: Topo, f: Forest, p: Places, x: nat, y: nat)
    requires Woven(t, f) && Fit(f, p) && LiveGroup(f, x) && LiveGroup(f, y) && !Under(f, y, x)
    requires NodeOf(f, x).father != Some(y)
    ensures SameCrew(State(t, f, p), State(t, f, Replace(t, f, p, x)), y)
  {
    var q := Replace(t, f, p, x);
    assert Knit(t, f, y);
    ReplaceKeeps(t, f, p, x, y);
    forall u: nat | u in NodeOf(f, y).threads && u < |p.seats|
      ensures q.seats[u] == p.seats[u]
    {
      ReplaceKeepsSeat(t, f, p, x, u);
    }
    forall c: nat | c in NodeOf(f, y).groups && c < |p.claims|
      ensures q.claims[c].total == p.claims[c].total
    {
      ChildApart(t, f, x, y, c);
      ReplaceKeeps(t, f, p, x, c);
    }
  }

  lemma ChildApart(t: Topo, f: Forest, x: nat, y: nat, c: nat)
    requires Woven(t, f) && LiveGroup(f, x) && LiveGroup(f, y) && !Under(f, y, x) && c != x && c in NodeOf(f, y).groups
    ensures !Under(f, c, x)
  {
    assert Knit(t, f, y);
    if Under(f, c, x) { UnderStep(f, c, x); }
  }

  lemma SetAttributePasses(st: State, y: nat, x: nat, a: bv64)
    requires Base(st) && LiveGroup(st.forest, y) && SetAttribute(st, x, a).Done?
    requires !Under(st.forest, y, x) && NodeOf(st.forest, x).father != Some(y)
    ensures SameCrew(st, SetAttribute(st, x, a).st, y)
  {
    var f, r := st.forest, Arrange(st.topo, a);
    var f' := Retag(f, x, r.attribute, r.s);
    RetagWoven(st, x, a);
    UnderSelf(f, x);
    if Under(f', y, x) { UnderSame(f, f', y, x); }
    ReplacePasses(st.topo, f', st.places, x, y);
  }

  lemma AttachGroupPasses(st: State, y: nat, x: nat, h: nat)
    requires Base(st) && LiveGroup(st.forest, y) && AttachGroup(st, x, h).Done?
    requires !Under(st.forest, y, x) && h != y
    ensures SameCrew(st, AttachGroup(st, x, h).st, y)
  {
    var f := st.forest;
    var f' := AddGroup(f, x, h);
    AddGroupWoven(st.topo, f, x, h);
    UnderSelf(f, x);
    if Under(f', y, x) { UnderSame(f, f', y, x); }
    ReplacePasses(st.topo, f', st.places, x, y);
  }

  /** A call that is other groups' business leaves the group, its bookkeeping and its members alone. */
  lemma PassingKeeps(st: State, call: Call, y: nat)
    requires Base(st) && Defined(st, call) && LiveGroup(st.forest, y) && Passes(st, call, y)
    ensures SameCrew(st, After(st, call), y)
  {
    if Perform(st, call).Done? {
      match call
      case GroupSetAttr(x, a) => SetAttributePasses(st, y, x, a);
      case GroupAttach(x, h) =>
        assert !Arrives(st, call, y, OfGroups, x);
        AttachGroupPasses(st, y, x, h);
      case GroupCreate => LinkPasses(st, call, y);
      case GroupDestroy(_) => LinkPasses(st, call, y);
      case GroupDetach(_, _) => LinkPasses(st, call, y);
      case _ => ThreadPasses(st, call, y);
    }
  }

  // -------- arrivals --------

  /** What a call does to the list of members. */
  ghost predicate CrewTurn(crew: seq<nat>, crew': seq<nat>, e: D.Event) {
    match e
    case Attach(_) => |crew'| == |crew| + 1 && crew <= crew'
    case Detach(i) => i < |crew| && Distinct(crew) && crew' == Without(crew, i)
    case Idle => crew' == crew
  }

  /** The group is live, seats members of that kind as `m` says, and its records are `r`. */
  ghost predicate Shown(st: State, y: nat, kind: Kind, m: Mode, n: nat, r: D.Roster) {
    && Base(st) && st.topo.n == n && LiveGroup(st.forest, y) && KindMode(NodeOf(st.forest, y), kind) == m
    && Mirrors(st, y, kind, r)
  }

  ghost function CrewIn(st: State, y: nat, kind: Kind): seq<nat> {
    if LiveGroup(st.forest, y) then CrewOf(NodeOf(st.forest, y), kind) else []
  }

  /** One event: in the library's records, in the roster and in the member list. */
  ghost predicate Turn(st: State, st': State, y: nat, kind: Kind, m: Mode, n: nat, r: D.Roster, e: D.Event,
        r': D.Roster) {
    Shown(st', y, kind, m, n, r') && D.Step(m, n, r, e, r') && CrewTurn(CrewIn(st, y, kind), CrewIn(st', y, kind), e)
  }

  lemma SeatedThen(p: Places, p': Places, kind: Kind, crew: seq<nat>, seats: seq<Seat>, x: nat, seat: Seat)
    requires Seated(p, kind, crew, seats) && Holds(p', kind, x, seat)
    requires forall i | 0 <= i < |crew| :: Holds(p, kind, crew[i], seats[i]) ==> Holds(p', kind, crew[i], seats[i])
    ensures Seated(p', kind, crew + [x], seats + [seat])
  {
  }

  lemma ThreadArrives(st: State, u: nat, y: nat, m: Mode, n: nat, r: D.Roster) returns (e: D.Event, r': D.Roster)
    requires Shown(st, y, OfThreads, m, n, r) && Defined(st, ThreadAttach(u, y)) && AttachThread(st, u, y).Done?
    ensures Turn(st, AttachThread(st, u, y).st, y, OfThreads, m, n, r, e, r') && e.Attach?
  {
    var f, p, st' := st.forest, st.places, AttachThread(st, u, y).st;
    var crew, loads := NodeOf(f, y).threads, SubLoad(p.loads, p.seats[u].cpus);
    StepBase(st, ThreadAttach(u, y));
    ShapeWorkable(st.topo, f, p, y);
    e := D.Attach(loads);
    r' := D.Attached(m, r, loads);
    assert Knit(st.topo, f, y) && u !in crew;
    assert NodeOf(st'.forest, y).threads == crew + [u];
    assert forall i | 0 <= i < |crew| :: crew[i] in crew;
    SeatedThen(p, st'.places, OfThreads, crew, r.seats, u, SeatAt(m, Target(m, r.c, loads)));
  }

  /** A father hands the next block to a child group exactly as a scattered group does to a thread. */
  lemma BlockIsSeat(s: nat, c: Claims, loads: seq<int>)
    requires Workable(s, c, |loads|)
    ensures var m := Mode(s, false, false);
      var t := Target(m, c, loads);
      AimBlock(s, c, loads) == ClaimAt(m, t) == SeatAt(m, t).cpus
  {
    ScatterClaim(Mode(s, false, false), c, loads);
  }

  /** The newcomer gets the father's next block, the father marks it, and its other children stay. */
  lemma GroupSeated(t: Topo, f: Forest, p: Places, x: nat, y: nat)
    requires Woven(t, f) && Fit(f, p) && LiveGroup(f, x) && LiveGroup(f, y) && NodeOf(f, x).father == Some(y)
    requires !Under(f, y, x)
    ensures var q, b := Replace(t, f, p, x), AimBlock(NodeOf(f, y).s, p.claims[y], p.loads);
      && q.claims[y] == Claim(p.claims[y], b) && q.claims[x].total == b
      && forall c | c in NodeOf(f, y).groups && c != x && c < |p.claims| :: q.claims[c].total == p.claims[c].total
  {
    var q := Replace(t, f, p, x);
    assert Knit(t, f, x) && Knit(t, f, y);
    ReplaceKeeps(t, f, p, x, y);
    ReplaceTotal(t, f, p, x);
    forall c | c in NodeOf(f, y).groups && c != x && c < |p.claims|
      ensures q.claims[c].total == p.claims[c].total
    {
      ChildApart(t, f, x, y, c);
      ReplaceKeeps(t, f, p, x, c);
    }
  }

  /** The state after a group arrived, as far as its new father is concerned. */
  lemma GraftSeated(st: State, x: nat, y: nat)
    requires Base(st) && AttachGroup(st, x, y).Done? && !Under(st.forest, y, x)
    ensures var f, p, st' := st.forest, st.places, AttachGroup(st, x, y).st;
      var b := AimBlock(NodeOf(f, y).s, p.claims[y], p.loads);
      && |st'.places.claims| == |p.claims| && LiveGroup(st'.forest, y)
      && NodeOf(st'.forest, y) == NodeOf(f, y).(groups := NodeOf(f, y).groups + [x])
      && st'.places.claims[y] == Claim(p.claims[y], b) && st'.places.claims[x].total == b
      && forall c: nat | c in NodeOf(f, y).groups && c < |p.claims| :: st'.places.claims[c].total == p.claims[c].total
  {
    var f := st.forest;
    var f' := AddGroup(f, x, y);
    UnderSelf(f, x);
    if Under(f', y, x) { UnderSame(f, f', y, x); }
    AddGroupWoven(st.topo, f, x, y);
    AddGroupLists(f, x, y);
    GroupSeated(st.topo, f', st.places, x, y);
  }

  lemma GroupArrives(st: State, x: nat, y: nat, m: Mode, n: nat, r: D.Roster) returns (e: D.Event, r': D.Roster)
    requires Shown(st, y, OfGroups, m, n, r) && Defined(st, GroupAttach(x, y)) && AttachGroup(st, x, y).Done?
    requires !Under(st.forest, y, x)
    ensures Turn(st, AttachGroup(st, x, y).st, y, OfGroups, m, n, r, e, r') && e.Attach?
  {
    var f, p, st' := st.forest, st.places, AttachGroup(st, x, y).st;
    var crew := NodeOf(f, y).groups;
    GraftSeated(st, x, y);
    StepBase(st, GroupAttach(x, y));
    ShapeWorkable(st.topo, f, p, y);
    BlockIsSeat(m.s, r.c, p.loads);
    e := D.Attach(p.loads);
    r' := D.Attached(m, r, p.loads);
    assert forall i | 0 <= i < |crew| :: crew[i] in crew;
    SeatedThen(p, st'.places, OfGroups, crew, r.seats, x, SeatAt(m, Target(m, r.c, p.loads)));
  }

  // -------- departures --------

  lemma SeatedWithout(p: Places, p': Places, kind: Kind, crew: seq<nat>, seats: seq<Seat>, i: nat)
    requires Seated(p, kind, crew, seats) && i < |crew|
    requires forall k | 0 <= k < |crew| && k != i ::
      Holds(p, kind, crew[k], seats[k]) ==> Holds(p', kind, crew[k], seats[k])
    ensures Seated(p', kind, Without(crew, i), Without(seats, i))
  {
    var ys, zs := Without(crew, i), Without(seats, i);
    forall k | 0 <= k < |ys|
      ensures Holds(p', kind, ys[k], zs[k])
    {
      var j := if k < i then k else k + 1;
      assert ys[k] == crew[j] && zs[k] == seats[j] && Holds(p, kind, crew[j], seats[j]);
    }
  }

  lemma IndexIn(xs: seq<nat>, x: nat) returns (i: nat)
    requires x in xs && Distinct(xs)
    ensures i < |xs| && xs[i] == x && Remove(xs, x) == Without(xs, i)
  {
    i :| 0 <= i < |xs| && xs[i] == x;
    S.RemoveAt(xs, i);
  }

  /** The seats of a leaving member's companions do not change. */
  ghost predicate Companions(p: Places, p': Places, kind: Kind, crew: seq<nat>, x: nat) {
    && |p'.seats| == |p.seats| && |p'.claims| == |p.claims|
    && forall z: nat | z in crew && z != x ::
         if kind == OfThreads then z < |p.seats| ==> p'.seats[z] == p.seats[z]
         else z < |p.claims| ==> p'.claims[z].total == p.claims[z].total
  }

  /** Event `e` is `x` leaving. */
  ghost predicate Leaver(st: State, y: nat, kind: Kind, e: D.Event, x: nat) {
    e.Detach? && e.i < |CrewIn(st, y, kind)| && CrewIn(st, y, kind)[e.i] == x
  }

  /** Member `x` is gone from the records, its claim taken back, all else the same. */
  lemma MemberDeparts(st: State, st': State, y: nat, kind: Kind, m: Mode, n: nat, r: D.Roster, x: nat)
    returns (e: D.Event, r': D.Roster)
    requires Shown(st, y, kind, m, n, r) && Base(st') && st'.topo.n == n && LiveGroup(st'.forest, y)
    requires var a, b := NodeOf(st.forest, y), NodeOf(st'.forest, y);
      && x in CrewOf(a, kind) && Distinct(CrewOf(a, kind)) && CrewOf(b, kind) == Remove(CrewOf(a, kind), x)
      && KindMode(b, kind) == m
      && Companions(st.places, st'.places, kind, CrewOf(a, kind), x)
    requires forall seat | Holds(st.places, kind, x, seat) ::
      st'.places.claims[y] == ReleaseThread(m, st.places.claims[y], seat)
    ensures Turn(st, st', y, kind, m, n, r, e, r') && Leaver(st, y, kind, e, x)
  {
    var i := IndexIn(CrewOf(NodeOf(st.forest, y), kind), x);
    e := D.Detach(i);
    r' := D.Detached(m, r, i);
    CompanionsSeated(st.places, st'.places, kind, CrewOf(NodeOf(st.forest, y), kind), r.seats, i);
  }

  lemma CompanionsSeated(p: Places, p': Places, kind: Kind, crew: seq<nat>, seats: seq<Seat>, i: nat)
    requires Seated(p, kind, crew, seats) && i < |crew| && Distinct(crew) && Companions(p, p', kind, crew, crew[i])
    ensures Seated(p', kind, Without(crew, i), Without(seats, i)) && Holds(p, kind, crew[i], seats[i])
  {
    forall k | 0 <= k < |crew| && k != i
      ensures Holds(p, kind, crew[k], seats[k]) ==> Holds(p', kind, crew[k], seats[k])
    {
      assert crew[k] in crew && crew[k] != crew[i];
    }
    SeatedWithout(p, p', kind, crew, seats, i);
  }

  lemma ThreadDeparts(st: State, call: Call, u: nat, y: nat, m: Mode, n: nat, r: D.Roster)
    returns (e: D.Event, r': D.Roster)
    requires Shown(st, y, OfThreads, m, n, r) && Defined(st, call) && Departs(st, call, y, OfThreads, u)
    ensures Turn(st, After(st, call), y, OfThreads, m, n, r, e, r') && Leaver(st, y, OfThreads, e, u)
  {
    StepBase(st, call);
    assert Knit(st.topo, st.forest, y);
    if call.ThreadJoin? { assert SlotOk(st.forest, u); }
    e, r' := MemberDeparts(st, After(st, call), y, OfThreads, m, n, r, u);
  }

  lemma GroupDeparts(st: State, call: Call, x: nat, y: nat, m: Mode, n: nat, r: D.Roster)
    returns (e: D.Event, r': D.Roster)
    requires Shown(st, y, OfGroups, m, n, r) && Defined(st, call) && Departs(st, call, y, OfGroups, x)
    ensures Turn(st, After(st, call), y, OfGroups, m, n, r, e, r') && Leaver(st, y, OfGroups, e, x)
  {
    StepBase(st, call);
    assert Knit(st.topo, st.forest, y) && Knit(st.topo, st.forest, x);
    e, r' := MemberDeparts(st, After(st, call), y, OfGroups, m, n, r, x);
  }

  lemma Departure(st: State, call: Call, x: nat, y: nat, kind: Kind, m: Mode, n: nat, r: D.Roster)
    returns (e: D.Event, r': D.Roster)
    requires Shown(st, y, kind, m, n, r) && Defined(st, call) && Departs(st, call, y, kind, x)
    ensures Turn(st, After(st, call), y, kind, m, n, r, e, r') && Leaver(st, y, kind, e, x)
  {
    if kind == OfThreads {
      e, r' := ThreadDeparts(st, call, x, y, m, n, r);
    } else {
      e, r' := GroupDeparts(st, call, x, y, m, n, r);
    }
  }

  // -------- any call --------

  /** The call is about one member of that kind, or none of the group's business. */
  ghost predicate Minds(st: State, call: Call, y: nat, kind: Kind)
    requires Usable(st)
  {
    || (exists x: nat :: Arrives(st, call, y, kind, x))
    || (exists x: nat :: Departs(st, call, y, kind, x))
    || Passes(st, call, y)
  }

  /** Every call that does not re-place the group is one event of its roster. */
  lemma CallIsEvent(st: State, call: Call, y: nat, kind: Kind, m: Mode, n: nat, r: D.Roster)
    returns (e: D.Event, r': D.Roster)
    requires Shown(st, y, kind, m, n, r) && Defined(st, call) && Minds(st, call, y, kind)
    ensures Turn(st, After(st, call), y, kind, m, n, r, e, r')
    ensures e.Detach? ==> exists x: nat :: Departs(st, call, y, kind, x)
  {
    if x: nat :| Arrives(st, call, y, kind, x) {
      if kind == OfThreads {
        e, r' := ThreadArrives(st, x, y, m, n, r);
      } else {
        e, r' := GroupArrives(st, x, y, m, n, r);
      }
    } else if x: nat :| Departs(st, call, y, kind, x) {
      e, r' := Departure(st, call, x, y, kind, m, n, r);
    } else {
      e, r' := D.Idle, r;
      StepBase(st, call);
      PassingKeeps(st, call, y);
      SameCrewMirrors(st, After(st, call), y, kind, r);
    }
  }
}
