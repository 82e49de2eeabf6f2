/** The group mutexes the API calls take: which calls can block each other, and what one call changes without the
    mutex that guards it. */
module LockOrder {
  import opened CpuSet
  import opened Topology
  import opened Allocator
  import opened Library
  import opened Api
  import opened Runs
  import opened Order
  import opened Containment
  import A = Answers
  import C = Crews
  import E = Examples
  import F = Frames
  import K = Books
  import L = Locks
  import R = Refresh

  /** The sections of a call that starts in this forest. Group `g`'s mutex is number `g`. */
  function Sections(f: Forest, call: Call): seq<L.Section> {
    match call
    case ThreadCreate(_) => []
    case ThreadJoin(u) =>
      if LiveThread(f, u) && f.threads[u].group.Some? then [L.One(f.threads[u].group.value)] else []
    case ThreadAttach(u, g) =>
      if LiveThread(f, u) && LiveGroup(f, g) && f.threads[u].group == None then [L.One(g)] else []
    case ThreadDetach(u, g) => if LiveThread(f, u) && LiveGroup(f, g) then [L.One(g)] else []
    case GroupCreate => []
    case GroupDestroy(g) =>
      if !LiveGroup(f, g) then [] else
      var x := NodeOf(f, g);
      [L.One(g)] + if x.threads == [] && x.groups == [] && x.father.Some? then [L.Two(g, x.father.value)] else []
    case GroupSetAttr(g, _) => if LiveGroup(f, g) then [L.One(g)] else []
    case GroupAttach(g, h) =>
      if LiveGroup(f, g) && LiveGroup(f, h) && NodeOf(f, g).father == None then [L.Two(g, h)] else []
    case GroupDetach(g, h) => if LiveGroup(f, g) && LiveGroup(f, h) then [L.Two(g, h)] else []
  }

  /** The sections of several calls, each made by a caller of its own. */
  function Together(f: Forest, calls: seq<Call>): seq<seq<L.Section>> {
    seq(|calls|, i requires 0 <= i < |calls| => Sections(f, calls[i]))
  }

  lemma DestroyApart(st: State, call: Call)
    requires Usable(st) && !call.GroupAttach? && !call.GroupDetach?
    ensures forall x | x in Sections(st.forest, call) :: !L.Self(x)
  {
    if call.GroupDestroy? && LiveGroup(st.forest, call.g) { assert Knit(st.topo, st.forest, call.g); }
  }

  lemma NoSelf(st: State, call: Call)
    requires Usable(st) && Defined(st, call)
    ensures forall x | x in Sections(st.forest, call) :: !L.Self(x)
  {
    if !call.GroupAttach? && !call.GroupDetach? { DestroyApart(st, call); }
  }

  /** A call that is alone hangs if and only if it attaches a group without father to itself or detaches a group from
      itself. */
  lemma HangsIff(st: State, call: Call)
    requires Usable(st)
    ensures L.CanBlock([Sections(st.forest, call)]) <==> (call.GroupAttach? || call.GroupDetach?) && !Defined(st, call)
  {
    L.AloneIff(Sections(st.forest, call));
    if Defined(st, call) {
      NoSelf(st, call);
    } else if call.GroupAttach? || call.GroupDetach? {
      assert Sections(st.forest, call)[0] in Sections(st.forest, call) && L.Self(Sections(st.forest, call)[0]);
    } else {
      DestroyApart(st, call);
    }
  }

  /** Two calls that do not hang alone can block each other if and only if they lock the same two groups in opposite
      order. */
  lemma PairBlocksIff(st: State, call: Call, other: Call)
    requires Usable(st) && Defined(st, call) && Defined(st, other)
    ensures L.CanBlock([Sections(st.forest, call), Sections(st.forest, other)]) <==>
      exists g, h :: L.Two(g, h) in Sections(st.forest, call) && L.Two(h, g) in Sections(st.forest, other)
  {
    var xs, ys := Sections(st.forest, call), Sections(st.forest, other);
    L.PairIff(xs, ys);
    NoSelf(st, call);
    NoSelf(st, other);
    if x, y :| x in xs && y in ys && L.Opposite(x, y) {
      assert x == L.Two(x.first, x.second) && y == L.Two(x.second, x.first);
    }
    if g, h :| L.Two(g, h) in xs && L.Two(h, g) in ys { assert L.Opposite(L.Two(g, h), L.Two(h, g)); }
  }

  /** Detaching a child group can block, and be blocked by, a call that tries to attach the father to the child, which
      alone would be refused. */
  lemma OppositeBlocks() returns (st: State)
    ensures E.Leads(Initial(E.SMALL, 1, 2), E.NESTED, st) && Usable(st)
    ensures Defined(st, GroupDetach(1, 0)) && Perform(st, GroupDetach(1, 0)).Done?
    ensures Defined(st, GroupAttach(0, 1)) && Perform(st, GroupAttach(0, 1)) == Fail(ERANGE)
    ensures L.CanBlock(Together(st.forest, [GroupDetach(1, 0), GroupAttach(0, 1)]))
  {
    st := E.ClustersNested();
    NestedAnswers(st);
    NestedBlocks(st.forest);
  }

  lemma NestedAnswers(st: State)
    requires Usable(st) && st.forest == Forest([Some(E.OUTER), Some(E.INNER)], [Vacant])
    ensures Defined(st, GroupDetach(1, 0)) && Perform(st, GroupDetach(1, 0)).Done?
    ensures Defined(st, GroupAttach(0, 1)) && Perform(st, GroupAttach(0, 1)) == Fail(ERANGE)
  {
  }

  lemma NestedBlocks(f: Forest)
    requires f == Forest([Some(E.OUTER), Some(E.INNER)], [Vacant])
    ensures L.CanBlock(Together(f, [GroupDetach(1, 0), GroupAttach(0, 1)]))
  {
    L.PairIff([L.Two(1, 0)], [L.Two(0, 1)]);
    assert L.Two(1, 0) in [L.Two(1, 0)] && L.Two(0, 1) in [L.Two(0, 1)] && L.Opposite(L.Two(1, 0), L.Two(0, 1));
    assert Together(f, [GroupDetach(1, 0), GroupAttach(0, 1)]) == [[L.Two(1, 0)], [L.Two(0, 1)]];
  }

  // -------- calls that never block --------

  /** A call that locks two groups locks the one of smaller granularity first. */
  predicate Upward(f: Forest, call: Call) {
    forall x | x in Sections(f, call) && x.Two? ::
      LiveGroup(f, x.first) && LiveGroup(f, x.second) && NodeOf(f, x.first).s < NodeOf(f, x.second).s
  }

  lemma FatherWider(t: Topo, f: Forest, g: nat)
    requires WellFormed(t, f) && LiveGroup(f, g) && NodeOf(f, g).father.Some?
    ensures LiveGroup(f, NodeOf(f, g).father.value) && NodeOf(f, g).s < NodeOf(f, NodeOf(f, g).father.value).s
  {
    assert NodeOk(t, f, g);
  }

  lemma MemberFather(t: Topo, f: Forest, g: nat, h: nat)
    requires WellFormed(t, f) && LiveGroup(f, h) && g in NodeOf(f, h).groups
    ensures LiveGroup(f, g) && NodeOf(f, g).father == Some(h)
  {
    assert Knit(t, f, h);
  }

  lemma DestroyUpward(t: Topo, f: Forest, g: nat)
    requires WellFormed(t, f)
    ensures Upward(f, GroupDestroy(g))
  {
    if LiveGroup(f, g) && NodeOf(f, g).father.Some? { FatherWider(t, f, g); }
  }

  lemma DetachUpward(t: Topo, f: Forest, g: nat, h: nat)
    requires WellFormed(t, f) && LiveGroup(f, h) && g in NodeOf(f, h).groups
    ensures Upward(f, GroupDetach(g, h))
  {
    MemberFather(t, f, g, h);
    FatherWider(t, f, g);
  }

  lemma AcceptedUpward(st: State, call: Call)
    requires Inv(st) && Defined(st, call) && Perform(st, call).Done?
    ensures Upward(st.forest, call)
  {
    match call
    case GroupDestroy(g) => DestroyUpward(st.topo, st.forest, g);
    case GroupDetach(g, h) => DetachUpward(st.topo, st.forest, g, h);
    case _ =>
  }

  /** Calls at the same time that lock upward never block, and every run of them ends with all of them done. */
  lemma UpwardNeverBlocks(f: Forest, calls: seq<Call>)
    requires forall i | 0 <= i < |calls| :: Upward(f, calls[i])
    ensures !L.CanBlock(Together(f, calls))
    ensures forall cs | L.Leads(L.Start(Together(f, calls)), cs) :: exists end :: L.Leads(cs, end) && L.Finished(end)
  {
    var programs: seq<seq<L.Section>> := Together(f, calls);
    var rank := (g: nat) => if LiveGroup(f, g) then NodeOf(f, g).s else 0;
    forall i, k | 0 <= i < |programs| && 0 <= k < |programs[i]|
      ensures programs[i][k].Two? ==> rank(programs[i][k].first) < rank(programs[i][k].second)
    {
      assert Upward(f, calls[i]) && programs[i][k] in Sections(f, calls[i]);
    }
    L.AscendingNeverBlocks(programs, rank);
    forall cs | L.Leads(L.Start(programs), cs)
      ensures exists end :: L.Leads(cs, end) && L.Finished(end)
    {
      L.LeadsSane(programs, cs);
      var end := L.Finishes(programs, cs);
    }
  }

  /** In a library in order, calls that would each be accepted never block each other. */
  lemma AcceptedNeverBlock(st: State, calls: seq<Call>)
    requires Inv(st) && forall i | 0 <= i < |calls| :: Defined(st, calls[i]) && Perform(st, calls[i]).Done?
    ensures !L.CanBlock(Together(st.forest, calls))
    ensures forall cs | L.Leads(L.Start(Together(st.forest, calls)), cs) ::
      exists end :: L.Leads(cs, end) && L.Finished(end)
  {
    forall i | 0 <= i < |calls|
      ensures Upward(st.forest, calls[i])
    {
      AcceptedUpward(st, calls[i]);
    }
    UpwardNeverBlocks(st.forest, calls);
  }

  // -------- what is changed without its mutex --------

  /** Asking a group for a block always changes its marks. */
  lemma RequestMarks(s: nat, c: Claims, loads: seq<int>)
    requires Sound(s, c, |loads|)
    ensures Claim(c, AimBlock(s, c, loads)) != c
  {
    NextBlockInside(loads, c, s);
    var a := NextBlock(loads, Free(c), s);
    if Ready(c) {
      IdlestBlockAligned(loads, Free(c), s);
      var d :| d in Free(c) && Start(d, s) == a;
      assert d in Block(a, s);
    } else if Open(c) {
      assert forall d | d in c.total :: d in c.used || d in Free(c);
      assert c.used + Block(a, s) == c.total;
    } else {
      assert a in Block(a, s) && a !in c.used;
    }
  }

  /** Changing a group's attribute changes the marks of its father, and locks only the group. */
  lemma AttributeWritesFather(st: State, g: nat, h: nat, a: bv64)
    requires Inv(st) && LiveGroup(st.forest, g) && NodeOf(st.forest, g).father == Some(h)
    requires SetAttribute(st, g, a).Done?
    ensures LiveGroup(st.forest, h) && h != g && Sections(st.forest, GroupSetAttr(g, a)) == [L.One(g)]
    ensures var p' := SetAttribute(st, g, a).st.places;
      |p'.claims| == |st.places.claims| && p'.claims[h] != st.places.claims[h]
  {
    assert Knit(st.topo, st.forest, g);
    R.NotBelowChild(st.topo, st.forest, h, g);
    K.RetagSeated(st, GroupSetAttr(g, a), h);
    InvSound(st, h);
    RequestMarks(NodeOf(st.forest, h).s, st.places.claims[h], st.places.loads);
  }

  lemma AttachWritesFather(st: State, c: nat, h: nat)
    requires Inv(st) && Defined(st, GroupAttach(c, h)) && AttachGroup(st, c, h).Done?
    ensures c != h && Sections(st.forest, GroupAttach(c, h)) == [L.Two(c, h)]
    ensures var p' := AttachGroup(st, c, h).st.places;
      |p'.claims| == |st.places.claims| && p'.claims[h] != st.places.claims[h]
  {
    if F.Under(st.forest, h, c) { F.UnderFiner(st.topo, st.forest, h, c); }
    C.GraftSeated(st, c, h);
    InvSound(st, h);
    RequestMarks(NodeOf(st.forest, h).s, st.places.claims[h], st.places.loads);
  }

  lemma MutexesApart(f: Forest, g: nat, h: nat, a: bv64, c: nat)
    requires Sections(f, GroupSetAttr(g, a)) == [L.One(g)] && Sections(f, GroupAttach(c, h)) == [L.Two(c, h)]
    requires g != h && g != c && c != h
    ensures L.CanMeet(Together(f, [GroupSetAttr(g, a), GroupAttach(c, h)]))
  {
    L.TogetherIff(L.One(g), L.Two(c, h));
    assert Together(f, [GroupSetAttr(g, a), GroupAttach(c, h)]) == [[L.One(g)], [L.Two(c, h)]];
  }

  /** So it can be between the two at the same time as a call that attaches another group to that father, and both
      change the father's marks. */
  lemma AttributeRaces(st: State, g: nat, h: nat, a: bv64, c: nat)
    requires Inv(st) && LiveGroup(st.forest, g) && NodeOf(st.forest, g).father == Some(h)
    requires SetAttribute(st, g, a).Done?
    requires AttachGroup(st, c, h).Done?
    ensures var p, q, r := st.places, SetAttribute(st, g, a).st.places, AttachGroup(st, c, h).st.places;
      |p.claims| == |q.claims| == |r.claims| && h < |p.claims| && q.claims[h] != p.claims[h]
        && r.claims[h] != p.claims[h]
    ensures L.CanMeet(Together(st.forest, [GroupSetAttr(g, a), GroupAttach(c, h)]))
  {
    AttributeWritesFather(st, g, h, a);
    AttachWritesFather(st, c, h);
    MutexesApart(st.forest, g, h, a, c);
  }

  // -------- what is changed with its mutex --------

  /** The call has the group's mutex at some time. */
  ghost predicate Takes(f: Forest, call: Call, x: nat) {
    exists s :: s in Sections(f, call) && x in L.Names(s)
  }

  /** The call leaves the group's record as it is. */
  ghost predicate Untouched(st: State, st': State, x: nat) {
    && x < |st.forest.groups| == |st'.forest.groups| && st'.forest.groups[x] == st.forest.groups[x]
    && x < |st.places.claims| == |st'.places.claims| && st'.places.claims[x] == st.places.claims[x]
  }

  lemma TakesOne(f: Forest, call: Call, s: L.Section)
    requires s in Sections(f, call)
    ensures forall x | x in L.Names(s) :: Takes(f, call, x)
  {
  }

  /** The calls about threads take the mutex of every group they change. */
  lemma ThreadCallsLock(st: State, call: Call, x: nat)
    requires Base(st) && Defined(st, call) && LiveGroup(st.forest, x)
    requires call.ThreadCreate? || call.ThreadJoin? || call.ThreadAttach? || call.ThreadDetach?
    ensures Untouched(st, After(st, call), x) || Takes(st.forest, call, x)
  {
    var f := st.forest;
    match call
    case ThreadCreate(affinity) => A.CreateThreadAnswer(st, affinity);
    case ThreadJoin(u) =>
      A.JoinThreadAnswer(st, u);
      if Sections(f, call) != [] { TakesOne(f, call, Sections(f, call)[0]); }
    case ThreadAttach(u, g) =>
      A.AttachThreadAnswer(st, u, g);
      if Sections(f, call) != [] { TakesOne(f, call, L.One(g)); }
    case ThreadDetach(u, g) =>
      A.DetachThreadAnswer(st, u, g);
      if Sections(f, call) != [] { TakesOne(f, call, L.One(g)); }
    case _ =>
  }

  /** So do creating, destroying and detaching a group. */
  lemma GroupCallsLock(st: State, call: Call, x: nat)
    requires Base(st) && Defined(st, call) && LiveGroup(st.forest, x)
    requires call.GroupCreate? || call.GroupDestroy? || call.GroupDetach?
    ensures Untouched(st, After(st, call), x) || Takes(st.forest, call, x)
  {
    var f := st.forest;
    match call
    case GroupCreate => A.CreateGroupAnswer(st);
    case GroupDestroy(g) =>
      A.DestroyGroupAnswer(st, g);
      if LiveGroup(f, g) { TakesOne(f, call, L.One(g)); }
      if |Sections(f, call)| > 1 { TakesOne(f, call, Sections(f, call)[1]); }
    case GroupDetach(g, h) =>
      A.DetachGroupAnswer(st, g, h);
      if Sections(f, call) != [] { TakesOne(f, call, L.Two(g, h)); }
    case _ =>
  }

  /** Attaching a group takes the mutexes of all groups it changes but those below the group, ... */
  lemma AttachGroupLocks(st: State, g: nat, h: nat, x: nat)
    requires Base(st) && Defined(st, GroupAttach(g, h)) && LiveGroup(st.forest, x)
    ensures var st' := After(st, GroupAttach(g, h));
      Untouched(st, st', x) || Takes(st.forest, GroupAttach(g, h), x) || F.Under(st'.forest, x, g)
  {
    A.AttachGroupAnswer(st, g, h);
    if Perform(st, GroupAttach(g, h)).Done? {
      var f' := AddGroup(st.forest, g, h);
      AddGroupWoven(st.topo, st.forest, g, h);
      TakesOne(st.forest, GroupAttach(g, h), L.Two(g, h));
      if x != g && x != h && !F.Under(f', x, g) { F.ReplaceKeeps(st.topo, f', st.places, g, x); }
    }
  }

  /** ... and changing an attribute those of all but the groups below and the father. */
  lemma SetAttributeLocks(st: State, g: nat, a: bv64, x: nat)
    requires Base(st) && Defined(st, GroupSetAttr(g, a)) && LiveGroup(st.forest, x)
    ensures var st' := After(st, GroupSetAttr(g, a));
      || Untouched(st, st', x) || Takes(st.forest, GroupSetAttr(g, a), x) || F.Under(st'.forest, x, g)
      || (LiveGroup(st.forest, g) && NodeOf(st.forest, g).father == Some(x))
  {
    A.SetAttributeAnswer(st, g, a);
    if Perform(st, GroupSetAttr(g, a)).Done? {
      var r := Arrange(st.topo, a);
      var f' := Retag(st.forest, g, r.attribute, r.s);
      RetagWoven(st, g, a);
      TakesOne(st.forest, GroupSetAttr(g, a), L.One(g));
      if x != g && !F.Under(f', x, g) { F.ReplaceKeeps(st.topo, f', st.places, g, x); }
    }
  }
}
