/** Changing the attribute of a group: what becomes of the groups below it. */
module Subtrees {
  import opened Topology
  import opened Allocator
  import opened Library
  import opened Api
  import opened Frames
  import opened Containment
  import opened Runs
  import opened Order
  import opened Attributes

  // -------- re-placing looks at the groups below only --------

  /** The same granularities, and the same groups as far as these are below `limit`. */
  ghost predicate Alike(f: Forest, f0: Forest, limit: nat) {
    && |f0.groups| == |f.groups| && f0.threads == f.threads
    && forall x: nat | LiveGroup(f, x) ::
       LiveGroup(f0, x) && NodeOf(f0, x).s == NodeOf(f, x).s
       && (NodeOf(f, x).s < limit ==> NodeOf(f0, x) == NodeOf(f, x))
  }

  /** A child is refused in both forests or in none, and in both if it is not finer. */
  lemma RefusedAlike(t: Topo, f: Forest, f0: Forest, limit: nat, c: nat, d: nat)
    requires Woven(t, f) && Woven(t, f0) && Alike(f, f0, limit) && LiveGroup(f, c) && NodeOf(f, c).s <= limit
    requires d in NodeOf(f, c).groups && d in NodeOf(f0, c).groups
    ensures Knit(t, f, c) && Knit(t, f0, c) && LiveGroup(f, d) && Knit(t, f, d) && Knit(t, f0, d)
    ensures (Refused(f, d) <==> Refused(f0, d)) && (!Refused(f, d) ==> NodeOf(f, d).s < NodeOf(f, c).s)
  {
    assert Knit(t, f, c) && Knit(t, f0, c);
    assert Knit(t, f, d) && Knit(t, f0, d);
    if NodeOf(f, d).s < NodeOf(f, c).s { MaxChildSame(f, f0, NodeOf(f, d).groups); }
  }

  lemma RequestAlike(t: Topo, f: Forest, f0: Forest, p: Places, limit: nat, c: nat)
    requires Woven(t, f) && Woven(t, f0) && Alike(f, f0, limit) && Fit(f, p) && LiveGroup(f, c)
    requires NodeOf(f, c).s < limit
    ensures Knit(t, f, c) && Knit(t, f0, c) && Request(f0, p, c) == Request(f, p, c)
  {
    assert Knit(t, f, c) && Knit(t, f0, c);
  }

  lemma {:induction false} ReplaceAlike(t: Topo, f: Forest, f0: Forest, p: Places, limit: nat, c: nat)
    requires Woven(t, f) && Woven(t, f0) && Alike(f, f0, limit) && Fit(f, p) && LiveGroup(f, c)
    requires NodeOf(f, c).s < limit
    ensures Replace(t, f0, p, c) == Replace(t, f, p, c)
    decreases NodeOf(f, c).s, 1, 0
  {
    var x := NodeOf(f, c);
    RequestAlike(t, f, f0, p, limit, c);
    assert forall i | 0 <= i < |x.threads| :: x.threads[i] in x.threads;
    if x.threads == [] { ReplaceAllAlike(t, f, f0, Request(f, p, c), limit, c, x.groups); }
  }

  lemma {:induction false} ReplaceAllAlike(t: Topo, f: Forest, f0: Forest, p: Places, limit: nat, c: nat, gs: seq<nat>)
    requires Woven(t, f) && Woven(t, f0) && Alike(f, f0, limit) && Fit(f, p) && LiveGroup(f, c)
    requires NodeOf(f, c).s <= limit
    requires forall d | d in gs :: d in NodeOf(f, c).groups && d in NodeOf(f0, c).groups
    ensures ReplaceAll(t, f0, p, c, gs) == ReplaceAll(t, f, p, c, gs)
    decreases NodeOf(f, c).s, 0, |gs|
  {
    if gs != [] {
      var gs', d := gs[..|gs| - 1], gs[|gs| - 1];
      assert d in gs;
      ReplaceAllAlike(t, f, f0, p, limit, c, gs');
      RefusedAlike(t, f, f0, limit, c, d);
      if !Refused(f, d) { ReplaceAlike(t, f, f0, ReplaceAll(t, f, p, c, gs'), limit, d); }
    }
  }

  // -------- the group cut off from its father --------

  /** Group `g` has father `h`, and its new granularity is above its children's and at most the father's. */
  ghost predicate Widened(st: State, g: nat, h: nat, a: bv64) {
    && Inv(st) && LiveGroup(st.forest, g) && Arrange(st.topo, a).Arranged?
    && NodeOf(st.forest, g).father == Some(h) && NodeOf(st.forest, g).groups != []
    && LiveGroup(st.forest, h) && (forall c | c in NodeOf(st.forest, g).groups :: LiveGroup(st.forest, c))
    && MaxChild(st.forest, NodeOf(st.forest, g).groups) < Arrange(st.topo, a).s <= NodeOf(st.forest, h).s
  }

  ghost function Tagged(st: State, g: nat, a: bv64): Forest
    requires Base(st) && LiveGroup(st.forest, g) && Arrange(st.topo, a).Arranged?
  {
    Retag(st.forest, g, Arrange(st.topo, a).attribute, Arrange(st.topo, a).s)
  }

  lemma FatherApart(t: Topo, f: Forest, g: nat, h: nat)
    requires WellFormed(t, f) && LiveGroup(f, g) && NodeOf(f, g).father == Some(h)
    ensures LiveGroup(f, h) && h != g && g in NodeOf(f, h).groups && NodeOf(f, h).threads == []
    ensures NodeOf(f, g).s < NodeOf(f, h).s
    ensures h !in NodeOf(f, g).groups && NodeOf(f, h).father != Some(g)
  {
    assert NodeOk(t, f, g) && NodeOk(t, f, h);
  }

  /** What changing `g`'s attribute and cutting it off from `h` does to each group. */
  lemma CutNode(f: Forest, g: nat, h: nat, attribute: bv64, s: nat, x: nat)
    requires LiveGroup(f, g) && LiveGroup(f, h) && g != h && LiveGroup(f, x)
    ensures var f' := Retag(f, g, attribute, s);
      NodeOf(DropGroup(f', g, h), x) ==
        if x == g then NodeOf(f', g).(father := None)
        else if x == h then NodeOf(f, h).(groups := Remove(NodeOf(f, h).groups, g)) else NodeOf(f, x)
  {
    DropGroupNodes(Retag(f, g, attribute, s), g, h, x);
  }

  lemma CutAlike(f: Forest, g: nat, h: nat, attribute: bv64, s: nat)
    requires LiveGroup(f, g) && LiveGroup(f, h) && g != h && s <= NodeOf(f, h).s
    ensures var f' := Retag(f, g, attribute, s); Alike(f', DropGroup(f', g, h), s)
  {
    var f' := Retag(f, g, attribute, s);
    forall x: nat | LiveGroup(f', x)
      ensures var f0 := DropGroup(f', g, h);
        LiveGroup(f0, x) && NodeOf(f0, x).s == NodeOf(f', x).s
          && (NodeOf(f', x).s < s ==> NodeOf(f0, x) == NodeOf(f', x))
    {
      CutNode(f, g, h, attribute, s, x);
    }
  }

  lemma CutWoven(st: State, g: nat, h: nat, a: bv64)
    requires Widened(st, g, h, a)
    ensures var f' := Tagged(st, g, a);
      Woven(st.topo, f') && Woven(st.topo, DropGroup(f', g, h)) && Linked(DropGroup(f', g, h))
        && Alike(f', DropGroup(f', g, h), Arrange(st.topo, a).s)
  {
    var f', r := Tagged(st, g, a), Arrange(st.topo, a);
    FatherApart(st.topo, st.forest, g, h);
    RetagWoven(st, g, a);
    DropGroupWoven(st.topo, f', g, h);
    WovenLinked(st.topo, DropGroup(f', g, h));
    CutAlike(st.forest, g, h, r.attribute, r.s);
  }

  lemma CutSteps(f: Forest, g: nat, h: nat, attribute: bv64, s: nat, x: nat)
    requires LiveGroup(f, g) && LiveGroup(f, h) && g != h && LiveGroup(f, x) && Steps(f, x)
    requires NodeOf(f, x).father == Some(g) ==> NodeOf(f, x).s < s && x != h
    ensures Steps(DropGroup(Retag(f, g, attribute, s), g, h), x)
  {
    CutNode(f, g, h, attribute, s, x);
    if NodeOf(f, x).father.Some? && LiveGroup(f, NodeOf(f, x).father.value) {
      CutNode(f, g, h, attribute, s, NodeOf(f, x).father.value);
    }
  }

  lemma CutStepped(st: State, g: nat, h: nat, a: bv64)
    requires Widened(st, g, h, a)
    ensures WellFormed(st.topo, DropGroup(Tagged(st, g, a), g, h))
  {
    var t, f, r := st.topo, st.forest, Arrange(st.topo, a);
    CutWoven(st, g, h, a);
    FatherApart(t, f, g, h);
    forall x: nat | LiveGroup(DropGroup(Tagged(st, g, a), g, h), x)
      ensures Steps(DropGroup(Tagged(st, g, a), g, h), x)
    {
      assert NodeOk(t, f, x);
      if NodeOf(f, x).father == Some(g) { MaxChildOf(f, NodeOf(f, g).groups, x); }
      CutSteps(f, g, h, r.attribute, r.s, x);
    }
  }

  /** A request of `g` gives only `g` other CPUs, and only `g` and its father `h` other marks. */
  ghost predicate Moved(p: Places, q: Places, g: nat, h: nat) {
    && |q.claims| == |p.claims| && q.seats == p.seats && |q.loads| == |p.loads|
    && (forall x: nat | x < |p.claims| && x != g :: q.claims[x].total == p.claims[x].total)
    && (forall x: nat | x < |p.claims| && x != g && x != h :: q.claims[x] == p.claims[x])
  }

  lemma RequestMoves(f: Forest, p: Places, g: nat, h: nat)
    requires Fit(f, p) && LiveGroup(f, g) && LiveGroup(f, h) && NodeOf(f, g).father == Some(h)
    ensures Moved(p, Request(f, p, g), g, h)
  {
  }

  lemma OtherPlaced(f: Forest, p: Places, f0: Forest, q: Places, g: nat, h: nat, y: nat)
    requires Fit(f, p) && Fit(f0, q) && Linked(f) && Linked(f0) && LiveGroup(f, y) && LiveGroup(f0, y)
    requires Placed(f, p, y)
    requires Moved(p, q, g, h) && y != g && y != h && NodeOf(f0, y) == NodeOf(f, y) && NodeOf(f, y).father != Some(g)
    requires NodeOf(f, y).father.Some? ==>
      NodeOf(f0, NodeOf(f, y).father.value).s == NodeOf(f, NodeOf(f, y).father.value).s
    requires forall u | u in NodeOf(f, y).threads :: u < |p.seats|
    ensures Placed(f0, q, y)
  {
    StillSeated(f, p, f0, q, y);
  }

  lemma FatherPlaced(f: Forest, p: Places, f0: Forest, q: Places, g: nat, h: nat)
    requires Fit(f, p) && Fit(f0, q) && Linked(f) && Linked(f0) && LiveGroup(f, h) && LiveGroup(f0, h)
    requires Placed(f, p, h)
    requires Moved(p, q, g, h) && h != g && NodeOf(f0, h).(groups := []) == NodeOf(f, h).(groups := [])
    requires NodeOf(f, h).father != Some(g)
    requires NodeOf(f, h).father.Some? ==>
      NodeOf(f0, NodeOf(f, h).father.value).s == NodeOf(f, NodeOf(f, h).father.value).s
    requires q.claims[h].used <= p.claims[h].total
    ensures Placed(f0, q, h)
  {
    StillPlaced(f, p, f0, q, h);
  }

  /** The father's marks stay inside. */
  lemma RequestInside(f: Forest, p: Places, g: nat, h: nat)
    requires Fit(f, p) && LiveGroup(f, g) && LiveGroup(f, h) && NodeOf(f, g).father == Some(h) && g != h
    requires Sound(NodeOf(f, h).s, p.claims[h], |p.loads|) && Open(p.claims[h])
    ensures Request(f, p, g).claims[h].used <= p.claims[h].total
  {
    NextBlockInside(p.loads, p.claims[h], NodeOf(f, h).s);
  }

  /** After the request, all groups but the children are in place in the forest with `g` cut off. */
  lemma CutPlaced(st: State, g: nat, h: nat, a: bv64, q: Places, y: nat)
    requires Widened(st, g, h, a) && Moved(st.places, q, g, h) && q.claims[h].used <= st.places.claims[h].total
    requires Sound(Arrange(st.topo, a).s, q.claims[g], |q.loads|)
    requires y !in NodeOf(st.forest, g).groups && LiveGroup(DropGroup(Tagged(st, g, a), g, h), y)
    requires Linked(DropGroup(Tagged(st, g, a), g, h))
    ensures Fit(DropGroup(Tagged(st, g, a), g, h), q) && Placed(DropGroup(Tagged(st, g, a), g, h), q, y)
  {
    var f, r := st.forest, Arrange(st.topo, a);
    FatherApart(st.topo, f, g, h);
    assert Knit(st.topo, f, y) && Placed(f, st.places, y);
    PlacedApart(f, st.places, g, h, r.attribute, r.s, q, y);
  }

  lemma PlacedApart(f: Forest, p: Places, g: nat, h: nat, attribute: bv64, s: nat, q: Places, y: nat)
    requires LiveGroup(f, g) && LiveGroup(f, h) && g != h && LiveGroup(f, y) && Fit(f, p) && Linked(f)
    requires Placed(f, p, y)
    requires Linked(DropGroup(Retag(f, g, attribute, s), g, h)) && Moved(p, q, g, h)
    requires q.claims[h].used <= p.claims[h].total
    requires Sound(s, q.claims[g], |q.loads|) && NodeOf(f, y).father != Some(g) && NodeOf(f, g).threads == []
    ensures var f0 := DropGroup(Retag(f, g, attribute, s), g, h); Fit(f0, q) && LiveGroup(f0, y) && Placed(f0, q, y)
  {
    var f0 := DropGroup(Retag(f, g, attribute, s), g, h);
    CutNode(f, g, h, attribute, s, y);
    if NodeOf(f, y).father.Some? { CutNode(f, g, h, attribute, s, NodeOf(f, y).father.value); }
    if y == h {
      FatherPlaced(f, p, f0, q, g, h);
    } else if y != g {
      OtherPlaced(f, p, f0, q, g, h, y);
    }
  }

  /** The request gives `g` a sound block and leaves its father's marks inside. */
  lemma RequestSound(st: State, g: nat, h: nat, a: bv64) returns (q: Places)
    requires Widened(st, g, h, a) && Open(st.places.claims[h])
    ensures Woven(st.topo, Tagged(st, g, a)) && Fit(Tagged(st, g, a), st.places)
    ensures q == Request(Tagged(st, g, a), st.places, g) && Moved(st.places, q, g, h)
    ensures q.claims[h].used <= st.places.claims[h].total && Sound(Arrange(st.topo, a).s, q.claims[g], |q.loads|)
    ensures Ready(q.claims[g]) && |q.loads| == st.topo.n
  {
    var t, f', b := st.topo, Tagged(st, g, a), 0;
    FatherApart(t, st.forest, g, h);
    q, b := AfterRequest(st, g, a);
    GivenSound(t, Arrange(t, a).s, q, g, b, Room(st, g));
    assert Placed(st.forest, st.places, h);
    RequestMoves(f', st.places, g, h);
    RequestInside(f', st.places, g, h);
  }

  /** Re-placing the children is the same in the forest with `g` cut off, and puts everything there in place. */
  lemma CutReplaced(t: Topo, f: Forest, f0: Forest, p: Places, s: nat, g: nat)
    requires Woven(t, f) && WellFormed(t, f0) && Linked(f0) && Alike(f, f0, s) && Fit(f, p) && LiveGroup(f, g)
    requires NodeOf(f, g).s <= s && NodeOf(f, g).threads == [] && NodeOf(f0, g).groups == NodeOf(f, g).groups
    requires var q := Request(f, p, g);
      && Fit(f0, q) && |q.loads| == t.n && PlacedBut(f0, q, {} + Elems(NodeOf(f, g).groups)) && Ready(q.claims[g])
    ensures var r := Replace(t, f, p, g); Fit(f0, r) && PlacedBut(f0, r, {})
  {
    var q, gs := Request(f, p, g), NodeOf(f, g).groups;
    ReplaceAllPlaced(t, f0, q, g, gs, {});
    ReplaceAllAlike(t, f, f0, q, s, g, gs);
  }

  /** So re-placing the children puts everything below `g` in place. */
  lemma BelowPlaced(st: State, g: nat, h: nat, a: bv64) returns (r: Places)
    requires Widened(st, g, h, a) && Open(st.places.claims[h])
    ensures Woven(st.topo, Tagged(st, g, a)) && r == Replace(st.topo, Tagged(st, g, a), st.places, g)
    ensures var f0 := DropGroup(Tagged(st, g, a), g, h); Linked(f0) && Fit(f0, r) && PlacedBut(f0, r, {})
  {
    var t, f', arranged := st.topo, Tagged(st, g, a), Arrange(st.topo, a);
    CutWoven(st, g, h, a);
    CutStepped(st, g, h, a);
    var q := RequestSound(st, g, h, a);
    RestPlaced(st, g, h, a, q);
    TaggedNode(st, g, h, a);
    CutReplaced(t, f', DropGroup(f', g, h), st.places, arranged.s, g);
    r := Replace(t, f', st.places, g);
  }

  /** The group itself, with its new attribute and cut off. */
  lemma TaggedNode(st: State, g: nat, h: nat, a: bv64)
    requires Widened(st, g, h, a)
    ensures var f' := Tagged(st, g, a);
      && LiveGroup(f', g) && NodeOf(f', g).s == Arrange(st.topo, a).s && NodeOf(f', g).threads == []
      && LiveGroup(DropGroup(f', g, h), g) && NodeOf(DropGroup(f', g, h), g).groups == NodeOf(f', g).groups
      && NodeOf(f', g).groups == NodeOf(st.forest, g).groups
  {
    FatherApart(st.topo, st.forest, g, h);
    assert NodeOk(st.topo, st.forest, g);
    CutNode(st.forest, g, h, Arrange(st.topo, a).attribute, Arrange(st.topo, a).s, g);
  }

  lemma RestPlaced(st: State, g: nat, h: nat, a: bv64, q: Places)
    requires Widened(st, g, h, a) && Moved(st.places, q, g, h) && q.claims[h].used <= st.places.claims[h].total
    requires Sound(Arrange(st.topo, a).s, q.claims[g], |q.loads|)
    ensures var f0 := DropGroup(Tagged(st, g, a), g, h);
      Linked(f0) && Fit(f0, q) && PlacedBut(f0, q, {} + Elems(NodeOf(st.forest, g).groups))
  {
    CutWoven(st, g, h, a);
    forall y: nat | LiveGroup(DropGroup(Tagged(st, g, a), g, h), y) && y !in {} + Elems(NodeOf(st.forest, g).groups)
      ensures Placed(DropGroup(Tagged(st, g, a), g, h), q, y)
    {
      CutPlaced(st, g, h, a, q, y);
    }
  }

  // -------- every group below --------

  /** A group in place, with children in place, is in its documented ranges. */
  lemma PlacedContained(f: Forest, p: Places, y: nat)
    requires Fit(f, p) && Linked(f) && PlacedBut(f, p, {}) && LiveGroup(f, y)
    requires forall c | c in NodeOf(f, y).groups :: LiveGroup(f, c) && NodeOf(f, c).father == Some(y)
    ensures Contained(f, p, y)
  {
    assert Placed(f, p, y);
    forall u | u in NodeOf(f, y).threads
      ensures ThreadInside(p, u, y)
    {
      assert SeatOk(ModeOf(NodeOf(f, y)), p.seats[u], p.claims[y].total);
    }
    forall c | c in NodeOf(f, y).groups
      ensures c < |p.claims| && IsBlock(p.claims[c].total, NodeOf(f, y).s) && p.claims[c].total <= p.claims[y].total
    {
      assert Placed(f, p, c);
    }
  }

  lemma InvContained(st: State, y: nat)
    requires Inv(st) && LiveGroup(st.forest, y)
    ensures Contained(st.forest, st.places, y)
  {
    assert Knit(st.topo, st.forest, y);
    PlacedContained(st.forest, st.places, y);
  }

  /** Who is below a group but not the group is below one of its children. */
  lemma SomeChild(t: Topo, f: Forest, y: nat, g: nat)
    requires Woven(t, f) && Under(f, y, g) && y != g
    ensures LiveGroup(f, y) && LiveGroup(f, g) && NodeOf(f, g).groups != []
  {
    var path :| Climb(f, path) && path[0] == y && path[|path| - 1] == g;
    var c := path[|path| - 2];
    assert NodeOf(f, path[|path| - 2]).father == Some(path[|path| - 2 + 1]);
    assert Knit(t, f, c);
  }

  /** A group below `g` is the same in all three forests. */
  lemma BelowSame(st: State, g: nat, h: nat, a: bv64, y: nat)
    requires Widened(st, g, h, a) && Under(Tagged(st, g, a), y, g) && y != g
    ensures var f, f' := st.forest, Tagged(st, g, a);
      && LiveGroup(f, y) && LiveGroup(f', y) && y != h && g != h && LiveGroup(DropGroup(f', g, h), y)
      && forall c | c in NodeOf(DropGroup(f', g, h), y).groups ::
           LiveGroup(DropGroup(f', g, h), c) && NodeOf(DropGroup(f', g, h), c).father == Some(y)
  {
    var f, r := st.forest, Arrange(st.topo, a);
    CutWoven(st, g, h, a);
    FatherApart(st.topo, f, g, h);
    BelowHere(st.topo, f, g, h, r.attribute, r.s, y);
  }

  lemma BelowHere(t: Topo, f: Forest, g: nat, h: nat, attribute: bv64, s: nat, y: nat)
    requires WellFormed(t, f) && LiveGroup(f, g) && LiveGroup(f, h) && NodeOf(f, g).s < NodeOf(f, h).s
    requires Under(Retag(f, g, attribute, s), y, g) && Woven(t, DropGroup(Retag(f, g, attribute, s), g, h))
    ensures var f0 := DropGroup(Retag(f, g, attribute, s), g, h);
      && LiveGroup(f, y) && y != h && LiveGroup(f0, y)
      && forall c | c in NodeOf(f0, y).groups :: LiveGroup(f0, c) && NodeOf(f0, c).father == Some(y)
  {
    UnderSame(f, Retag(f, g, attribute, s), y, g);
    UnderFiner(t, f, y, g);
    assert Knit(t, DropGroup(Retag(f, g, attribute, s), g, h), y);
  }

  lemma BelowContained(st: State, g: nat, h: nat, a: bv64, y: nat)
    requires Widened(st, g, h, a) && Open(st.places.claims[h]) && Under(Tagged(st, g, a), y, g) && y != g
    ensures Woven(st.topo, Tagged(st, g, a)) && LiveGroup(Tagged(st, g, a), y)
    ensures Contained(Tagged(st, g, a), Replace(st.topo, Tagged(st, g, a), st.places, g), y)
  {
    var r := BelowPlaced(st, g, h, a);
    BelowSame(st, g, h, a, y);
    PlacedContained(DropGroup(Tagged(st, g, a), g, h), r, y);
    CutContained(st.forest, g, h, Arrange(st.topo, a).attribute, Arrange(st.topo, a).s, r, y);
  }

  lemma CutContained(f: Forest, g: nat, h: nat, attribute: bv64, s: nat, p: Places, y: nat)
    requires LiveGroup(f, g) && LiveGroup(f, h) && g != h && LiveGroup(f, y) && y != g && y != h && Fit(f, p)
    requires var f0 := DropGroup(Retag(f, g, attribute, s), g, h); LiveGroup(f0, y) && Contained(f0, p, y)
    ensures Contained(Retag(f, g, attribute, s), p, y)
  {
    CutNode(f, g, h, attribute, s, y);
    if NodeOf(f, y).father.Some? && LiveGroup(f, NodeOf(f, y).father.value) {
      CutNode(f, g, h, attribute, s, NodeOf(f, y).father.value);
    }
  }

  /** From a library in order, giving group `g` a known attribute leaves every group below it, its threads and its
      children in their documented ranges if and only if the attribute is fitting. */
  lemma SubtreeContained(st: State, g: nat, a: bv64)
    requires Inv(st) && LiveGroup(st.forest, g) && Arrange(st.topo, a).Arranged?
    ensures SetAttribute(st, g, a).Done?
    ensures var st' := SetAttribute(st, g, a).st;
      && Fit(st'.forest, st'.places)
      && ((forall y: nat | Under(st'.forest, y, g) :: LiveGroup(st'.forest, y) && Contained(st'.forest, st'.places, y))
          <==> Fitting(st, g, NewMode(Arrange(st.topo, a))))
  {
    AttributeContains(st, g, a);
    var st' := SetAttribute(st, g, a).st;
    UnderSelf(st'.forest, g);
    if Fitting(st, g, NewMode(Arrange(st.topo, a))) {
      forall y: nat | Under(st'.forest, y, g)
        ensures LiveGroup(st'.forest, y) && Contained(st'.forest, st'.places, y)
      {
        if y != g { DescendantContained(st, g, a, y); }
      }
    }
  }

  lemma DescendantContained(st: State, g: nat, a: bv64, y: nat)
    requires Inv(st) && LiveGroup(st.forest, g) && Arrange(st.topo, a).Arranged?
    requires Fitting(st, g, NewMode(Arrange(st.topo, a)))
    requires SetAttribute(st, g, a).Done? && Under(SetAttribute(st, g, a).st.forest, y, g) && y != g
    ensures var st' := SetAttribute(st, g, a).st;
      Fit(st'.forest, st'.places) && LiveGroup(st'.forest, y) && Contained(st'.forest, st'.places, y)
  {
    var st', x := SetAttribute(st, g, a).st, NodeOf(st.forest, g);
    RetagWoven(st, g, a);
    SomeChild(st.topo, st'.forest, y, g);
    assert Knit(st.topo, st.forest, g);
    if x.father.Some? {
      BelowContained(st, g, x.father.value, a, y);
    } else {
      SetAttributeInv(st, g, a);
      InvContained(st', y);
    }
  }
}
