/** The API calls as functions on the library state. */
module Api {
  import opened Topology
  import opened Allocator
  import opened Library

  /** Least vacant slot at or after `i`, or the table size. */
  function VacantThread(ts: seq<Slot>, i: nat): (j: nat)
    requires i <= |ts|
    ensures i <= j <= |ts| && (j < |ts| ==> ts[j].Vacant?)
    ensures forall k | i <= k < j :: ts[k].Live?
    decreases |ts| - i
  {
    if i == |ts| || ts[i].Vacant? then i else VacantThread(ts, i + 1)
  }

  function VacantGroup(gs: seq<Option<Node>>, i: nat): (j: nat)
    requires i <= |gs|
    ensures i <= j <= |gs| && (j < |gs| ==> gs[j].None?)
    ensures forall k | i <= k < j :: gs[k].Some?
    decreases |gs| - i
  {
    if i == |gs| || gs[i].None? then i else VacantGroup(gs, i + 1)
  }

  ghost predicate Usable(st: State) {
    && Woven(st.topo, st.forest) && Fit(st.forest, st.places)
    && |st.places.loads| == st.topo.n
  }

  // -------- threads --------

  /** The new thread starts with the affinity it inherits. */
  function CreateThread(st: State, affinity: set<nat>): Outcome
    requires Fit(st.forest, st.places)
  {
    var f, p := st.forest, st.places;
    var u := VacantThread(f.threads, 0);
    if u == |f.threads| then Fail(ENOMEM)
    else Done(State(st.topo, SetSlot(f, u, None),
                    Places(AddLoad(p.loads, affinity), p.claims, p.seats[u := Seat(0, affinity)])))
  }

  /** A member leaves: its claim is taken back, its affinity and load stay as they are. */
  function Leave(st: State, u: nat, g: nat): State
    requires Fit(st.forest, st.places) && LiveThread(st.forest, u) && LiveGroup(st.forest, g)
  {
    var f, p := st.forest, st.places;
    State(st.topo, DropThread(f, u, g),
          p.(claims := p.claims[g := ReleaseThread(ModeOf(NodeOf(f, g)), p.claims[g], p.seats[u])]))
  }

  function FreeThread(st: State, u: nat): State
    requires Fit(st.forest, st.places) && u < |st.forest.threads|
  {
    var f, p := st.forest, st.places;
    State(st.topo, f.(threads := f.threads[u := Vacant]),
          Places(SubLoad(p.loads, p.seats[u].cpus), p.claims, p.seats[u := NOBODY]))
  }

  ghost function JoinThread(st: State, u: nat): Outcome
    requires Usable(st)
  {
    if !LiveThread(st.forest, u) then Fail(EINVAL)
    else match st.forest.threads[u].group
      case None => Done(FreeThread(st, u))
      case Some(g) => assert SlotOk(st.forest, u); Done(FreeThread(Leave(st, u, g), u))
  }

  ghost function AttachThread(st: State, u: nat, g: nat): Outcome
    requires Usable(st)
  {
    var f := st.forest;
    if !LiveThread(f, u) || !LiveGroup(f, g) then Fail(EINVAL)
    else if f.threads[u].group.Some? then Fail(EINVAL)
    else if u in NodeOf(f, g).threads || NodeOf(f, g).groups != [] then Fail(EINVAL)
    else
      assert Knit(st.topo, f, g);
      Done(State(st.topo, AddThread(f, u, g), SeatThread(ModeOf(NodeOf(f, g)), st.places, g, u)))
  }

  function DetachThread(st: State, u: nat, g: nat): Outcome
    requires Fit(st.forest, st.places)
  {
    var f := st.forest;
    if !LiveThread(f, u) || !LiveGroup(f, g) || u !in NodeOf(f, g).threads then Fail(EINVAL)
    else Done(Leave(st, u, g))
  }

  // -------- groups --------

  /** A new group: single CPUs, compact, bound per CPU. */
  const DEFAULT: Node := Node(WT_GF_CPU | WT_GF_COMPACT | WT_GF_PERCPU, 1, None, [], [])

  function CreateGroup(st: State): Outcome
    requires Fit(st.forest, st.places)
  {
    var f, p := st.forest, st.places;
    var g := VacantGroup(f.groups, 0);
    if g == |f.groups| then Fail(ENOMEM)
    else Done(State(st.topo, SetNode(f, g, DEFAULT),
                    p.(claims := p.claims[g := Claims(AllCpus(|p.loads|), {}, 0)])))
  }

  function LeaveGroup(st: State, g: nat, h: nat): State
    requires Fit(st.forest, st.places) && LiveGroup(st.forest, g) && LiveGroup(st.forest, h)
  {
    var f, p := st.forest, st.places;
    State(st.topo, DropGroup(f, g, h),
          p.(claims := p.claims[h := ReleaseGroup(p.claims[h], p.claims[g].total)]))
  }

  function FreeGroup(st: State, g: nat): State
    requires Fit(st.forest, st.places) && LiveGroup(st.forest, g)
  {
    State(st.topo, st.forest.(groups := st.forest.groups[g := None]),
          st.places.(claims := st.places.claims[g := NOTHING]))
  }

  ghost function DestroyGroup(st: State, g: nat): Outcome
    requires Usable(st)
  {
    var f := st.forest;
    if !LiveGroup(f, g) then Fail(EINVAL)
    else if NodeOf(f, g).threads != [] || NodeOf(f, g).groups != [] then Fail(EBUSY)
    else
      assert Knit(st.topo, f, g);
      var st' := if NodeOf(f, g).father.Some? then LeaveGroup(st, g, NodeOf(f, g).father.value) else st;
      Done(FreeGroup(st', g))
  }

  ghost function AttachGroup(st: State, g: nat, h: nat): Outcome
    requires Usable(st)
  {
    var f := st.forest;
    if !LiveGroup(f, g) || !LiveGroup(f, h) then Fail(EINVAL)
    else if NodeOf(f, g).father.Some? then Fail(EINVAL)
    else if g in NodeOf(f, h).groups || NodeOf(f, h).threads != [] then Fail(EINVAL)
    else
      assert Knit(st.topo, f, g);
      if NodeOf(f, g).s >= NodeOf(f, h).s || NodeOf(f, g).s <= MaxChild(f, NodeOf(f, g).groups) then Fail(ERANGE)
      else
        AddGroupWoven(st.topo, f, g, h);
        Done(State(st.topo, AddGroup(f, g, h), Replace(st.topo, AddGroup(f, g, h), st.places, g)))
  }

  function DetachGroup(st: State, g: nat, h: nat): Outcome
    requires Fit(st.forest, st.places)
  {
    var f := st.forest;
    if !LiveGroup(f, g) || !LiveGroup(f, h) || g !in NodeOf(f, h).groups then Fail(EINVAL)
    else Done(LeaveGroup(st, g, h))
  }

  /** The granularity `s` lies strictly between those of the members and of the father. */
  ghost predicate Nests(st: State, g: nat, s: nat)
    requires Usable(st) && LiveGroup(st.forest, g)
  {
    var f := st.forest;
    assert Knit(st.topo, f, g);
    && (NodeOf(f, g).father.Some? ==> s < NodeOf(f, NodeOf(f, g).father.value).s)
    && MaxChild(f, NodeOf(f, g).groups) < s
  }

  function Retag(f: Forest, g: nat, attribute: bv64, s: nat): Forest
    requires LiveGroup(f, g)
  {
    SetNode(f, g, NodeOf(f, g).(attribute := attribute, s := s))
  }

  /** Change a group's attribute and re-place it.  The checks look at the granularity the group had before. */
  ghost function SetAttribute(st: State, g: nat, attribute: bv64): Outcome
    requires Usable(st)
  {
    var f := st.forest;
    if !LiveGroup(f, g) then Fail(EINVAL)
    else if (assert Knit(st.topo, f, g); Refused(f, g)) then Fail(ERANGE)
    else match Arrange(st.topo, attribute)
      case Invalid => Fail(EINVAL)
      case Arranged(a, s) =>
        RetagWoven(st, g, attribute);
        Done(State(st.topo, Retag(f, g, a, s), Replace(st.topo, Retag(f, g, a, s), st.places, g)))
  }

  lemma {:induction false} MaxChildBounds(f: Forest, gs: seq<nat>, i: nat)
    requires forall x | x in gs :: LiveGroup(f, x)
    requires i < |gs|
    ensures NodeOf(f, gs[i]).s <= MaxChild(f, gs)
  {
    if i < |gs| - 1 { MaxChildBounds(f, gs[..|gs| - 1], i); }
  }

  lemma {:induction false} MaxChildBelow(f: Forest, gs: seq<nat>, s: nat)
    requires forall x | x in gs :: LiveGroup(f, x) && NodeOf(f, x).s < s
    requires s > 0
    ensures MaxChild(f, gs) < s
  {
    if gs != [] {
      assert gs[|gs| - 1] in gs;
      MaxChildBelow(f, gs[..|gs| - 1], s);
    }
  }

  lemma RetagKnit(st: State, g: nat, attribute: bv64, x: nat)
    requires Usable(st) && LiveGroup(st.forest, g) && LiveGroup(st.forest, x) && Arrange(st.topo, attribute).Arranged?
    ensures var r := Arrange(st.topo, attribute);
      Knit(st.topo, Retag(st.forest, g, r.attribute, r.s), x)
  {
    ArrangeStable(st.topo, attribute);
    assert Knit(st.topo, st.forest, x);
  }

  lemma RetagWoven(st: State, g: nat, attribute: bv64)
    requires Usable(st) && LiveGroup(st.forest, g) && Arrange(st.topo, attribute).Arranged?
    ensures var r := Arrange(st.topo, attribute);
      Woven(st.topo, Retag(st.forest, g, r.attribute, r.s))
  {
    var r := Arrange(st.topo, attribute);
    var f' := Retag(st.forest, g, r.attribute, r.s);
    forall x: nat | LiveGroup(f', x)
      ensures Knit(st.topo, f', x)
    {
      RetagKnit(st, g, attribute, x);
    }
    forall v: nat | LiveThread(f', v)
      ensures SlotOk(f', v)
    {
      assert SlotOk(st.forest, v);
    }
  }

  /** With a new granularity the forest stays in order if and only if it lies between the children's and the
      father's. */
  lemma RetagWf(st: State, g: nat, attribute: bv64)
    requires Usable(st) && WellFormed(st.topo, st.forest) && LiveGroup(st.forest, g)
    requires Arrange(st.topo, attribute).Arranged?
    ensures var r := Arrange(st.topo, attribute);
      WellFormed(st.topo, Retag(st.forest, g, r.attribute, r.s)) <==> Nests(st, g, r.s)
  {
    var t, f, r := st.topo, st.forest, Arrange(st.topo, attribute);
    var f' := Retag(f, g, r.attribute, r.s);
    RetagWoven(st, g, attribute);
    assert Knit(t, f, g);
    if Nests(st, g, r.s) {
      forall x: nat | LiveGroup(f', x)
        ensures Steps(f', x)
      {
        assert Steps(f, x) && Knit(t, f, x);
        if NodeOf(f, x).father == Some(g) { MaxChildOf(f, NodeOf(f, g).groups, x); }
      }
    }
    if WellFormed(t, f') {
      assert Steps(f', g);
      forall c | c in NodeOf(f, g).groups
        ensures LiveGroup(f, c) && NodeOf(f, c).s < r.s
      {
        assert Knit(t, f, c) && Steps(f', c);
      }
      MaxChildBelow(f, NodeOf(f, g).groups, r.s);
    }
  }

  lemma MaxChildOf(f: Forest, gs: seq<nat>, c: nat)
    requires (forall x | x in gs :: LiveGroup(f, x)) && c in gs
    ensures NodeOf(f, c).s <= MaxChild(f, gs)
  {
    var i :| 0 <= i < |gs| && gs[i] == c;
    MaxChildBounds(f, gs, i);
  }

  /** In a forest in order re-placing a group is never refused. */
  lemma NeverRefused(t: Topo, f: Forest, g: nat)
    requires WellFormed(t, f) && LiveGroup(f, g)
    ensures Knit(t, f, g) && !Refused(f, g)
  {
    assert NodeOk(t, f, g);
    forall c | c in NodeOf(f, g).groups
      ensures LiveGroup(f, c) && NodeOf(f, c).s < NodeOf(f, g).s
    {
      assert NodeOk(t, f, c);
    }
    MaxChildBelow(f, NodeOf(f, g).groups, NodeOf(f, g).s);
  }

  lemma {:induction false} MaxChildSame(f: Forest, f': Forest, gs: seq<nat>)
    requires forall x | x in gs :: LiveGroup(f, x) && LiveGroup(f', x) && NodeOf(f', x).s == NodeOf(f, x).s
    ensures MaxChild(f', gs) == MaxChild(f, gs)
  {
    if gs != [] {
      assert gs[|gs| - 1] in gs;
      MaxChildSame(f, f', gs[..|gs| - 1]);
    }
  }
}
