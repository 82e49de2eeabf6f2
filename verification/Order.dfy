/** The library in order: what orderly calls keep, and exactly which calls are orderly. */
module Order {
  import opened CpuSet
  import opened Topology
  import opened Allocator
  import opened Library
  import opened Api
  import opened Frames
  import opened Containment
  import opened Runs

  /** Granularity falls from father to child, every child group owns one block of its father, and every thread
      sits inside its group. */
  ghost predicate Inv(st: State) {
    Base(st) && WellFormed(st.topo, st.forest) && Linked(st.forest) && PlacedBut(st.forest, st.places, {})
  }

  /** What a caller can check before the call: a member is placed by a group that has an unclaimed CPU or owns the
      block the search ends at, and a new granularity lies between those of children and father. */
  ghost predicate Orderly(st: State, call: Call)
    requires Usable(st)
  {
    var f, p := st.forest, st.places;
    match call
    case ThreadAttach(u, g) => AttachThread(st, u, g).Done? ==> Open(p.claims[g])
    case GroupAttach(g, h) => AttachGroup(st, g, h).Done? ==> Open(p.claims[h])
    case GroupSetAttr(g, a) => SetAttribute(st, g, a).Done? ==> FitsIn(st, g, Arrange(st.topo, a).s)
    case _ => true
  }

  ghost predicate FitsIn(st: State, g: nat, s: nat)
    requires Usable(st) && LiveGroup(st.forest, g)
  {
    assert Knit(st.topo, st.forest, g);
    Nests(st, g, s) && (NodeOf(st.forest, g).father.Some? ==> Open(st.places.claims[NodeOf(st.forest, g).father.value]))
  }

  lemma InitialInv(topo: Topo, threads: nat, groups: nat)
    requires Regular(topo)
    ensures Inv(Initial(topo, threads, groups))
  {
    InitialBase(topo, threads, groups);
  }

  lemma InvSound(st: State, g: nat)
    requires LiveGroup(st.forest, g) && Fit(st.forest, st.places)
    ensures Inv(st) ==> Sound(NodeOf(st.forest, g).s, st.places.claims[g], |st.places.loads|)
  {
    if Inv(st) { assert Placed(st.forest, st.places, g); }
  }

  // -------- staying placed --------

  /** A group stays placed when it keeps its CPUs, members and granularity, and its father, if any, does too. */
  lemma StillPlaced(f: Forest, p: Places, f': Forest, p': Places, x: nat)
    requires Fit(f, p) && Fit(f', p') && Linked(f) && Linked(f') && LiveGroup(f, x) && LiveGroup(f', x)
    requires Placed(f, p, x) && |p'.loads| == |p.loads| && p'.seats == p.seats
    requires NodeOf(f', x).(father := None, groups := []) == NodeOf(f, x).(father := None, groups := [])
    requires p'.claims[x].total == p.claims[x].total && p'.claims[x].used <= p.claims[x].total
    requires NodeOf(f', x).father.Some? ==>
      var h := NodeOf(f', x).father.value;
      && NodeOf(f, x).father == Some(h) && NodeOf(f', h).s == NodeOf(f, h).s && p'.claims[h].total == p.claims[h].total
    ensures Placed(f', p', x)
  {
  }

  lemma LeaveGroupPlaced(st: State, g: nat, h: nat, x: nat)
    requires Fit(st.forest, st.places) && Linked(st.forest) && LiveGroup(st.forest, x)
    requires LiveGroup(st.forest, g) && LiveGroup(st.forest, h) && Linked(DropGroup(st.forest, g, h))
    requires NodeOf(st.forest, g).father == Some(h) && g != h
    requires Placed(st.forest, st.places, g) && Placed(st.forest, st.places, h) && Placed(st.forest, st.places, x)
    ensures Placed(DropGroup(st.forest, g, h), LeaveGroup(st, g, h).places, x)
  {
    var f, p := st.forest, st.places;
    var f', p' := DropGroup(f, g, h), LeaveGroup(st, g, h).places;
    assert p'.claims[h].total == p.claims[h].total && p'.claims[h].used <= p.claims[h].total;
    if x == g {
      assert NodeOf(f', x) == NodeOf(f, x).(father := None);
    } else if x == h {
      assert NodeOf(f', x).(groups := []) == NodeOf(f, x).(groups := []);
      assert NodeOf(f', x).father.Some? ==>
        NodeOf(f', NodeOf(f', x).father.value).s == NodeOf(f, NodeOf(f', x).father.value).s;
    } else {
      assert NodeOf(f', x) == NodeOf(f, x);
      assert NodeOf(f', x).father.Some? ==>
        NodeOf(f', NodeOf(f', x).father.value).s == NodeOf(f, NodeOf(f', x).father.value).s;
    }
    StillPlaced(f, p, f', p', x);
  }

  /** The same with threads of other groups moved or gone. */
  lemma StillSeated(f: Forest, p: Places, f': Forest, p': Places, x: nat)
    requires Fit(f, p) && Fit(f', p') && Linked(f) && Linked(f') && LiveGroup(f, x) && LiveGroup(f', x)
    requires Placed(f, p, x) && |p'.loads| == |p.loads| && NodeOf(f', x) == NodeOf(f, x) && p'.claims[x] == p.claims[x]
    requires forall u | u in NodeOf(f, x).threads :: u < |p'.seats| && p'.seats[u] == p.seats[u]
    requires NodeOf(f, x).father.Some? ==>
      var h := NodeOf(f, x).father.value;
      NodeOf(f', h).s == NodeOf(f, h).s && p'.claims[h].total == p.claims[h].total
    ensures Placed(f', p', x)
  {
  }

  // -------- threads --------

  lemma CreateThreadInv(st: State, affinity: set<nat>)
    requires Inv(st) && Defined(st, ThreadCreate(affinity))
    ensures Inv(After(st, ThreadCreate(affinity)))
  {
    var f, p, st' := st.forest, st.places, After(st, ThreadCreate(affinity));
    StepBase(st, ThreadCreate(affinity));
    SameSteps(f, st'.forest);
    WovenLinked(st.topo, st'.forest);
    forall g: nat | LiveGroup(st'.forest, g)
      ensures Placed(st'.forest, st'.places, g)
    {
      assert Placed(f, p, g) && Knit(st.topo, f, g);
      StillSeated(f, p, st'.forest, st'.places, g);
    }
  }

  lemma ReleaseSound(m: Mode, c: Claims, seat: Seat, n: nat)
    requires Sound(m.s, c, n) && seat.cpus <= c.total
    ensures Sound(m.s, ReleaseThread(m, c, seat), n)
  {
  }

  lemma LeaveInv(st: State, u: nat, g: nat)
    requires Inv(st) && LiveThread(st.forest, u) && LiveGroup(st.forest, g) && u in NodeOf(st.forest, g).threads
    ensures Inv(Leave(st, u, g))
  {
    var f, p, st' := st.forest, st.places, Leave(st, u, g);
    LeaveBase(st, u, g);
    SameSteps(f, st'.forest);
    WovenLinked(st.topo, st'.forest);
    forall x: nat | LiveGroup(st'.forest, x)
      ensures Placed(st'.forest, st'.places, x)
    {
      LeaveStillPlaced(st, u, g, x);
    }
  }

  lemma LeaveStillPlaced(st: State, u: nat, g: nat, x: nat)
    requires Inv(st) && LiveThread(st.forest, u) && LiveGroup(st.forest, g) && u in NodeOf(st.forest, g).threads
    requires LiveGroup(st.forest, x)
    ensures Placed(Leave(st, u, g).forest, Leave(st, u, g).places, x)
  {
    var f, p, st' := st.forest, st.places, Leave(st, u, g);
    assert Placed(f, p, x) && Knit(st.topo, f, x);
    assert st'.places.claims[x].total == p.claims[x].total && ModeOf(NodeOf(st'.forest, x)) == ModeOf(NodeOf(f, x));
    if x == g { ReleaseSound(ModeOf(NodeOf(f, g)), p.claims[g], p.seats[u], |p.loads|); }
    assert Housed(st'.forest, st'.places, x);
    assert forall v | v in NodeOf(st'.forest, x).threads :: v in NodeOf(f, x).threads;
  }

  lemma FreeThreadInv(st: State, u: nat)
    requires Inv(st) && LiveThread(st.forest, u) && st.forest.threads[u].group == None
    ensures Inv(FreeThread(st, u))
  {
    var f, p, st' := st.forest, st.places, FreeThread(st, u);
    FreeThreadBase(st, u);
    SameSteps(f, st'.forest);
    WovenLinked(st.topo, st'.forest);
    forall x: nat | LiveGroup(st'.forest, x)
      ensures Placed(st'.forest, st'.places, x)
    {
      assert Placed(f, p, x) && Knit(st.topo, f, x);
      StillSeated(f, p, st'.forest, st'.places, x);
    }
  }

  lemma JoinThreadInv(st: State, u: nat)
    requires Inv(st)
    ensures Inv(After(st, ThreadJoin(u)))
  {
    if LiveThread(st.forest, u) {
      assert SlotOk(st.forest, u);
      match st.forest.threads[u].group
      case None => FreeThreadInv(st, u);
      case Some(g) =>
        LeaveInv(st, u, g);
        FreeThreadInv(Leave(st, u, g), u);
    }
  }

  /** Seating a thread that was in no group leaves every group placed. */
  lemma JoinStillPlaced(f: Forest, p: Places, u: nat, g: nat, x: nat)
    requires Fit(f, p) && Linked(f) && LiveThread(f, u) && LiveGroup(f, g) && LiveGroup(f, x)
    requires Linked(AddThread(f, u, g))
    requires Placed(f, p, g) && Placed(f, p, x) && Open(p.claims[g])
    requires u !in NodeOf(f, x).threads
    requires NodeOf(f, x).father.Some? ==> NodeOf(f, x).father.value != x
    ensures NodeOf(f, g).s > 0 && Placed(AddThread(f, u, g), SeatThread(ModeOf(NodeOf(f, g)), p, g, u), x)
  {
    var m, f' := ModeOf(NodeOf(f, g)), AddThread(f, u, g);
    var r := SeatThread(m, p, g, u);
    SeatThreadInside(m, p, g, u);
    assert NodeOf(f', x).(threads := []) == NodeOf(f, x).(threads := []);
    if NodeOf(f, x).father.Some? {
      assert NodeOf(f', NodeOf(f, x).father.value).s == NodeOf(f, NodeOf(f, x).father.value).s;
    }
  }

  lemma AttachThreadInv(st: State, u: nat, g: nat)
    requires Inv(st) && AttachThread(st, u, g).Done? && Open(st.places.claims[g])
    ensures Inv(AttachThread(st, u, g).st)
  {
    var f, p, st' := st.forest, st.places, AttachThread(st, u, g).st;
    AttachThreadBase(st, u, g);
    SameSteps(f, st'.forest);
    WovenLinked(st.topo, st'.forest);
    forall x: nat | LiveGroup(st'.forest, x)
      ensures Placed(st'.forest, st'.places, x)
    {
      assert Placed(f, p, x) && Placed(f, p, g) && Knit(st.topo, f, x);
      JoinStillPlaced(f, p, u, g, x);
    }
  }

  /** A thread attached to a group that is not open sits outside it. */
  lemma AttachThreadOutside(st: State, u: nat, g: nat)
    requires Inv(st) && AttachThread(st, u, g).Done? && !Open(st.places.claims[g])
    ensures !Inv(AttachThread(st, u, g).st)
  {
    var f, p, st' := st.forest, st.places, AttachThread(st, u, g).st;
    assert Placed(f, p, g);
    PlacementOutside(ModeOf(NodeOf(f, g)), p.claims[g], SubLoad(p.loads, p.seats[u].cpus));
    InvSound(st', g);
  }

  // -------- groups --------

  lemma CreateGroupInv(st: State)
    requires Inv(st)
    ensures Inv(After(st, GroupCreate))
  {
    var f, p := st.forest, st.places;
    var g, st' := VacantGroup(f.groups, 0), After(st, GroupCreate);
    StepBase(st, GroupCreate);
    if g < |f.groups| {
      forall x: nat | LiveGroup(st'.forest, x)
        ensures Steps(st'.forest, x)
      {
        if x != g { assert Steps(f, x) && Knit(st.topo, f, x); }
      }
      WovenLinked(st.topo, st'.forest);
      RootHoused(st.topo, st'.forest, g);
      forall x: nat | LiveGroup(st'.forest, x)
        ensures Placed(st'.forest, st'.places, x)
      {
        if x != g {
          assert Placed(f, p, x) && Knit(st.topo, f, x);
          StillSeated(f, p, st'.forest, st'.places, x);
        }
      }
    }
  }

  lemma LeaveGroupInv(st: State, g: nat, h: nat)
    requires Inv(st) && LiveGroup(st.forest, g) && LiveGroup(st.forest, h) && g in NodeOf(st.forest, h).groups
    ensures Inv(LeaveGroup(st, g, h))
  {
    var st' := LeaveGroup(st, g, h);
    assert Knit(st.topo, st.forest, h) && Knit(st.topo, st.forest, g);
    LeaveGroupBase(st, g, h);
    DropGroupLists(st.forest, g, h);
    SameSteps(st.forest, st'.forest);
    WovenLinked(st.topo, st'.forest);
    forall x: nat | LiveGroup(st'.forest, x)
      ensures Placed(st'.forest, st'.places, x)
    {
      LeaveGroupPlaced(st, g, h, x);
    }
  }

  lemma FreeGroupInv(st: State, g: nat)
    requires Inv(st) && LiveGroup(st.forest, g) && NodeOf(st.forest, g).father == None
    requires NodeOf(st.forest, g).threads == [] && NodeOf(st.forest, g).groups == []
    ensures Inv(FreeGroup(st, g))
  {
    var f, p, st' := st.forest, st.places, FreeGroup(st, g);
    FreeGroupBase(st, g);
    SameSteps(f, st'.forest);
    WovenLinked(st.topo, st'.forest);
    forall x: nat | LiveGroup(st'.forest, x)
      ensures Placed(st'.forest, st'.places, x)
    {
      assert Placed(f, p, x) && Knit(st.topo, f, x);
      assert NodeOf(f, x).father != Some(g);
      StillSeated(f, p, st'.forest, st'.places, x);
    }
  }

  lemma DestroyGroupInv(st: State, g: nat)
    requires Inv(st)
    ensures Inv(After(st, GroupDestroy(g)))
  {
    var f := st.forest;
    if DestroyGroup(st, g).Done? {
      assert Knit(st.topo, f, g);
      match NodeOf(f, g).father
      case None => FreeGroupInv(st, g);
      case Some(h) =>
        LeaveGroupInv(st, g, h);
        DropGroupNodes(f, g, h, g);
        FreeGroupInv(LeaveGroup(st, g, h), g);
    }
  }

  // -------- re-placing --------

  /** Any state whose forest is in order and in which at most `g` and its members are out of place is repaired by
      re-placing `g`. */
  lemma ReplaceInv(st: State, g: nat)
    requires Base(st) && WellFormed(st.topo, st.forest) && Linked(st.forest) && LiveGroup(st.forest, g)
    requires PlacedBut(st.forest, st.places, Elems(NodeOf(st.forest, g).groups) + {g})
    requires NodeOf(st.forest, g).father.Some? ==> Open(st.places.claims[NodeOf(st.forest, g).father.value])
    ensures Inv(st.(places := Replace(st.topo, st.forest, st.places, g)))
  {
    var f, p := st.forest, st.places;
    var members := Elems(NodeOf(f, g).groups);
    assert NodeOk(st.topo, f, g) && forall c | c in members :: NodeOk(st.topo, f, c);
    ReplaceBase(st, g);
    ReplacePlaced(st.topo, f, p, g, members);
    assert members - members == {};
  }

  /** A group whose father is not open is put outside it. */
  lemma ReplaceOutside(st: State, g: nat, h: nat)
    requires Usable(st) && Linked(st.forest) && LiveGroup(st.forest, g) && LiveGroup(st.forest, h)
    requires NodeOf(st.forest, g).father == Some(h) && NodeOf(st.forest, h).s > NodeOf(st.forest, g).s
    requires Sound(NodeOf(st.forest, h).s, st.places.claims[h], st.topo.n) && !Open(st.places.claims[h])
    ensures var r := Replace(st.topo, st.forest, st.places, g);
      !(r.claims[g].total <= r.claims[h].total)
  {
    var f, p := st.forest, st.places;
    ReplaceTotal(st.topo, f, p, g);
    ReplaceKeepsBeyond(st.topo, f, p, g, h);
    NextBlockInside(p.loads, p.claims[h], NodeOf(f, h).s);
    var a := NextBlock(p.loads, Free(p.claims[h]), NodeOf(f, h).s);
    assert a in Block(a, NodeOf(f, h).s);
  }

  lemma GraftStillPlaced(f: Forest, p: Places, g: nat, h: nat, x: nat)
    requires LiveGroup(f, g) && LiveGroup(f, h) && LiveGroup(f, x) && x != g
    requires Fit(f, p) && Linked(f) && Linked(AddGroup(f, g, h)) && Placed(f, p, x)
    ensures Placed(AddGroup(f, g, h), p, x)
  {
    var f' := AddGroup(f, g, h);
    assert NodeOf(f', x).(groups := []) == NodeOf(f, x).(groups := []);
    if NodeOf(f, x).father.Some? {
      assert NodeOf(f', NodeOf(f, x).father.value).s == NodeOf(f, NodeOf(f, x).father.value).s;
    }
    StillPlaced(f, p, f', p, x);
  }

  /** After linking `g` under `h`, at most `g` and its members are out of place. */
  lemma GraftPlaced(st: State, g: nat, h: nat)
    requires Inv(st) && AttachGroup(st, g, h).Done?
    ensures var f' := AddGroup(st.forest, g, h);
      && WellFormed(st.topo, f') && Linked(f')
      && PlacedBut(f', st.places, Elems(NodeOf(f', g).groups) + {g})
      && forall x | LiveGroup(f', x) :: LiveGroup(st.forest, x)
  {
    GraftInOrder(st, g, h);
    var f' := AddGroup(st.forest, g, h);
    forall x | LiveGroup(f', x) && x !in Elems(NodeOf(f', g).groups) + {g}
      ensures Placed(f', st.places, x)
    {
      GraftStillPlaced(st.forest, st.places, g, h, x);
    }
  }

  lemma GraftInOrder(st: State, g: nat, h: nat)
    requires Inv(st) && AttachGroup(st, g, h).Done?
    ensures WellFormed(st.topo, AddGroup(st.forest, g, h)) && Linked(AddGroup(st.forest, g, h))
  {
    AddGroupWf(st.topo, st.forest, g, h);
    WovenLinked(st.topo, AddGroup(st.forest, g, h));
  }

  lemma GroupAttachInv(st: State, g: nat, h: nat)
    requires Inv(st) && AttachGroup(st, g, h).Done?
    ensures Inv(AttachGroup(st, g, h).st) <==> Open(st.places.claims[h])
  {
    var st1 := st.(forest := AddGroup(st.forest, g, h));
    GraftPlaced(st, g, h);
    AddGroupNodes(st.forest, g, h, g);
    AddGroupNodes(st.forest, g, h, h);
    SameShape(st.topo, st.forest, st1.forest, st.places);
    if Open(st.places.claims[h]) {
      ReplaceInv(st1, g);
    } else {
      assert Placed(st.forest, st.places, h);
      ReplaceOutside(st1, g, h);
      assert Inv(AttachGroup(st, g, h).st) ==> Placed(st1.forest, AttachGroup(st, g, h).st.places, g);
    }
  }

  /** After changing the attribute of `g`, at most `g` and its members are out of place. */
  lemma RetagPlaced(st: State, g: nat, a: bv64)
    requires Inv(st) && LiveGroup(st.forest, g) && Arrange(st.topo, a).Arranged?
    ensures var r := Arrange(st.topo, a);
      var f' := Retag(st.forest, g, r.attribute, r.s);
      && Woven(st.topo, f') && Linked(f')
      && PlacedBut(f', st.places, Elems(NodeOf(f', g).groups) + {g})
  {
    var f, p, r := st.forest, st.places, Arrange(st.topo, a);
    var f' := Retag(f, g, r.attribute, r.s);
    RetagWoven(st, g, a);
    WovenLinked(st.topo, f');
    forall x: nat | LiveGroup(f', x) && x !in Elems(NodeOf(f', g).groups) + {g}
      ensures Placed(f', p, x)
    {
      assert Placed(f, p, x) && Knit(st.topo, f, x);
      StillSeated(f, p, f', p, x);
    }
  }

  lemma SetAttributeInv(st: State, g: nat, a: bv64)
    requires Inv(st) && SetAttribute(st, g, a).Done?
    ensures Inv(SetAttribute(st, g, a).st) <==> FitsIn(st, g, Arrange(st.topo, a).s)
  {
    var r := Arrange(st.topo, a);
    var st1 := st.(forest := Retag(st.forest, g, r.attribute, r.s));
    RetagPlaced(st, g, a);
    RetagWf(st, g, a);
    SameShape(st.topo, st.forest, st1.forest, st.places);
    if Nests(st, g, r.s) {
      if FitsIn(st, g, r.s) {
        ReplaceInv(st1, g);
      } else {
        var h := NodeOf(st.forest, g).father.value;
        assert Knit(st.topo, st.forest, g) && Placed(st.forest, st.places, h);
        ReplaceOutside(st1, g, h);
        assert Inv(SetAttribute(st, g, a).st) ==> Placed(st1.forest, SetAttribute(st, g, a).st.places, g);
      }
    }
  }

  // -------- all calls --------

  /** From a library in order, a call leads to one in order if and only if it is orderly. */
  lemma StepInv(st: State, call: Call)
    requires Inv(st) && Defined(st, call)
    ensures Inv(After(st, call)) <==> Orderly(st, call)
  {
    match call
    case ThreadCreate(affinity) => CreateThreadInv(st, affinity);
    case ThreadJoin(u) => JoinThreadInv(st, u);
    case ThreadAttach(u, g) =>
      if AttachThread(st, u, g).Done? {
        if Open(st.places.claims[g]) { AttachThreadInv(st, u, g); } else { AttachThreadOutside(st, u, g); }
      }
    case ThreadDetach(u, g) => if DetachThread(st, u, g).Done? { LeaveInv(st, u, g); }
    case GroupCreate => CreateGroupInv(st);
    case GroupDestroy(g) => DestroyGroupInv(st, g);
    case GroupSetAttr(g, a) => if SetAttribute(st, g, a).Done? { SetAttributeInv(st, g, a); }
    case GroupAttach(g, h) => if AttachGroup(st, g, h).Done? { GroupAttachInv(st, g, h); }
    case GroupDetach(g, h) => if DetachGroup(st, g, h).Done? { LeaveGroupInv(st, g, h); }
  }
}
