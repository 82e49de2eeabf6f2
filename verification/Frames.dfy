/** What re-placing a group leaves alone. */
module Frames {
  import opened Topology
  import opened Allocator
  import opened Library

  /** Going from father to father. */
  ghost predicate Climb(f: Forest, path: seq<nat>) {
    && path != []
    && (forall i | 0 <= i < |path| :: LiveGroup(f, path[i]))
    && (forall i | 0 <= i < |path| - 1 :: NodeOf(f, path[i]).father == Some(path[i + 1]))
  }

  /** Group `y` is `g` or one of its descendants. */
  ghost predicate Under(f: Forest, y: nat, g: nat) {
    exists path :: Climb(f, path) && path[0] == y && path[|path| - 1] == g
  }

  lemma UnderSelf(f: Forest, g: nat)
    requires LiveGroup(f, g)
    ensures Under(f, g, g)
  {
    assert Climb(f, [g]);
  }

  lemma UnderFather(f: Forest, y: nat, c: nat, g: nat)
    requires Under(f, y, c) && LiveGroup(f, c) && LiveGroup(f, g) && NodeOf(f, c).father == Some(g)
    ensures Under(f, y, g)
  {
    var path :| Climb(f, path) && path[0] == y && path[|path| - 1] == c;
    assert Climb(f, path + [g]);
  }

  /** Who is under a group, without climbing to the end: the group itself or whoever's father is. */
  lemma UnderStep(f: Forest, y: nat, g: nat)
    requires Under(f, y, g) && y != g
    ensures LiveGroup(f, y) && NodeOf(f, y).father.Some? && Under(f, NodeOf(f, y).father.value, g)
  {
    var path :| Climb(f, path) && path[0] == y && path[|path| - 1] == g;
    assert |path| > 1 && NodeOf(f, path[0]).father == Some(path[0 + 1]);
    assert Climb(f, path[1..]) && path[1..][|path| - 2] == g;
  }

  /** Only the groups under `g` get new CPUs, and only they and `g`'s father get new marks. */
  lemma {:induction false} ReplaceKeeps(t: Topo, f: Forest, p: Places, g: nat, y: nat)
    requires Woven(t, f) && Fit(f, p) && LiveGroup(f, g) && y < |p.claims| && !Under(f, y, g)
    ensures Replace(t, f, p, g).claims[y].total == p.claims[y].total
    ensures NodeOf(f, g).father != Some(y) ==> Replace(t, f, p, g).claims[y] == p.claims[y]
    ensures NodeOf(f, g).father == Some(y) && LiveGroup(f, y) ==>
      Replace(t, f, p, g).claims[y] == Request(f, p, g).claims[y]
    decreases NodeOf(f, g).s, 1, 0
  {
    var x, q := NodeOf(f, g), Request(f, p, g);
    assert Knit(t, f, g);
    UnderSelf(f, g);
    assert forall i | 0 <= i < |x.threads| :: x.threads[i] in x.threads;
    if x.threads != [] {
      SeatThreadsKeepClaims(ModeOf(x), q, g, x.threads, y);
    } else {
      ReplaceAllKeeps(t, f, q, g, x.groups, y);
    }
  }

  lemma {:induction false} SeatThreadsKeepClaims(m: Mode, p: Places, g: nat, ts: seq<nat>, y: nat)
    requires m.s > 0 && g < |p.claims| && y < |p.claims| && forall i | 0 <= i < |ts| :: ts[i] < |p.seats|
    ensures SeatThreads(m, p, g, ts).claims[y].total == p.claims[y].total
    ensures y != g ==> SeatThreads(m, p, g, ts).claims[y] == p.claims[y]
  {
    if ts != [] { SeatThreadsKeepClaims(m, p, g, ts[..|ts| - 1], y); }
  }

  lemma {:induction false} ReplaceAllKeeps(t: Topo, f: Forest, p: Places, g: nat, gs: seq<nat>, y: nat)
    requires Woven(t, f) && Fit(f, p) && LiveGroup(f, g) && y < |p.claims| && !Under(f, y, g)
    requires forall c | c in gs :: c in NodeOf(f, g).groups
    ensures ReplaceAll(t, f, p, g, gs).claims[y] == p.claims[y]
    decreases NodeOf(f, g).s, 0, |gs|
  {
    if gs != [] {
      var gs', c := gs[..|gs| - 1], gs[|gs| - 1];
      assert Knit(t, f, g) && c in gs && Knit(t, f, c);
      ReplaceAllKeeps(t, f, p, g, gs', y);
      UnderSelf(f, g);
      if Under(f, y, c) { UnderFather(f, y, c, g); }
      if !Refused(f, c) { ReplaceKeeps(t, f, ReplaceAll(t, f, p, g, gs'), c, y); }
    }
  }

  /** A thread outside the groups under `g`. */
  ghost predicate Outside(f: Forest, u: nat, g: nat) {
    LiveThread(f, u) && f.threads[u].group.Some? ==> !Under(f, f.threads[u].group.value, g)
  }

  /** Only the threads of the groups under `g` move. */
  lemma {:induction false} ReplaceKeepsSeat(t: Topo, f: Forest, p: Places, g: nat, u: nat)
    requires Woven(t, f) && Fit(f, p) && LiveGroup(f, g) && u < |p.seats| && Outside(f, u, g)
    ensures Replace(t, f, p, g).seats[u] == p.seats[u]
    decreases NodeOf(f, g).s, 1, 0
  {
    var x, q := NodeOf(f, g), Request(f, p, g);
    assert Knit(t, f, g);
    UnderSelf(f, g);
    assert forall i | 0 <= i < |x.threads| :: x.threads[i] in x.threads;
    if x.threads != [] {
      SeatThreadsKeepSeat(ModeOf(x), q, g, x.threads, u);
    } else {
      ReplaceAllKeepsSeat(t, f, q, g, x.groups, u);
    }
  }

  lemma {:induction false} SeatThreadsKeepSeat(m: Mode, p: Places, g: nat, ts: seq<nat>, u: nat)
    requires m.s > 0 && g < |p.claims| && u < |p.seats| && u !in ts && forall i | 0 <= i < |ts| :: ts[i] < |p.seats|
    ensures SeatThreads(m, p, g, ts).seats[u] == p.seats[u]
  {
    if ts != [] { SeatThreadsKeepSeat(m, p, g, ts[..|ts| - 1], u); }
  }

  lemma {:induction false} ReplaceAllKeepsSeat(t: Topo, f: Forest, p: Places, g: nat, gs: seq<nat>, u: nat)
    requires Woven(t, f) && Fit(f, p) && LiveGroup(f, g) && u < |p.seats| && Outside(f, u, g)
    requires forall c | c in gs :: c in NodeOf(f, g).groups
    ensures ReplaceAll(t, f, p, g, gs).seats[u] == p.seats[u]
    decreases NodeOf(f, g).s, 0, |gs|
  {
    if gs != [] {
      var gs', c := gs[..|gs| - 1], gs[|gs| - 1];
      assert Knit(t, f, g) && c in gs && Knit(t, f, c);
      ReplaceAllKeepsSeat(t, f, p, g, gs', u);
      if LiveThread(f, u) && f.threads[u].group.Some? && Under(f, f.threads[u].group.value, c) {
        UnderFather(f, f.threads[u].group.value, c, g);
      }
      if !Refused(f, c) { ReplaceKeepsSeat(t, f, ReplaceAll(t, f, p, g, gs'), c, u); }
    }
  }

  // -------- by granularity --------

  /** Group `y` is coarser than `c`, or sits below a group that is. */
  ghost predicate Beyond(f: Forest, y: nat, c: nat)
    requires LiveGroup(f, c)
  {
    && LiveGroup(f, y) && y != c
    && (NodeOf(f, y).s > NodeOf(f, c).s
        || (NodeOf(f, y).father.Some? && LiveGroup(f, NodeOf(f, y).father.value)
            && NodeOf(f, NodeOf(f, y).father.value).s > NodeOf(f, c).s))
  }

  /** Re-placing `c` only descends to finer groups, so it gives no new CPUs to groups beyond it, and new marks to
      none of them but `c`'s father. */
  lemma {:induction false} ReplaceKeepsBeyond(t: Topo, f: Forest, p: Places, c: nat, y: nat)
    requires Woven(t, f) && Fit(f, p) && LiveGroup(f, c) && Beyond(f, y, c)
    ensures Replace(t, f, p, c).claims[y].total == p.claims[y].total
    ensures NodeOf(f, c).father != Some(y) ==> Replace(t, f, p, c).claims[y] == p.claims[y]
    ensures NodeOf(f, c).father == Some(y) ==> Replace(t, f, p, c).claims[y] == Request(f, p, c).claims[y]
    decreases NodeOf(f, c).s, 1, 0
  {
    var x, q := NodeOf(f, c), Request(f, p, c);
    assert Knit(t, f, c);
    assert forall i | 0 <= i < |x.threads| :: x.threads[i] in x.threads;
    if x.threads != [] {
      SeatThreadsKeepClaims(ModeOf(x), q, c, x.threads, y);
    } else {
      ReplaceAllKeepsBeyond(t, f, q, c, x.groups, y);
    }
  }

  lemma {:induction false} ReplaceAllKeepsBeyond(t: Topo, f: Forest, p: Places, c: nat, gs: seq<nat>, y: nat)
    requires Woven(t, f) && Fit(f, p) && LiveGroup(f, c) && Beyond(f, y, c)
    requires forall d | d in gs :: d in NodeOf(f, c).groups
    ensures ReplaceAll(t, f, p, c, gs).claims[y] == p.claims[y]
    decreases NodeOf(f, c).s, 0, |gs|
  {
    if gs != [] {
      var gs', d := gs[..|gs| - 1], gs[|gs| - 1];
      assert Knit(t, f, c) && d in gs && Knit(t, f, d);
      ReplaceAllKeepsBeyond(t, f, p, c, gs', y);
      if !Refused(f, d) { ReplaceKeepsBeyond(t, f, ReplaceAll(t, f, p, c, gs'), d, y); }
    }
  }

  /** Its own CPUs are those of the request. */
  lemma ReplaceTotal(t: Topo, f: Forest, p: Places, g: nat)
    requires Woven(t, f) && Fit(f, p) && LiveGroup(f, g)
    requires NodeOf(f, g).father.Some? ==> LiveGroup(f, NodeOf(f, g).father.value)
    ensures Replace(t, f, p, g).claims[g].total == Request(f, p, g).claims[g].total
  {
    var x, q := NodeOf(f, g), Request(f, p, g);
    assert Knit(t, f, g);
    assert forall i | 0 <= i < |x.threads| :: x.threads[i] in x.threads;
    if x.threads != [] {
      SeatThreadsKeepClaims(ModeOf(x), q, g, x.threads, g);
    } else {
      ReplaceAllKeepsTotal(t, f, q, g, x.groups);
    }
  }

  lemma {:induction false} ReplaceAllKeepsTotal(t: Topo, f: Forest, p: Places, g: nat, gs: seq<nat>)
    requires Woven(t, f) && Fit(f, p) && LiveGroup(f, g)
    requires forall d | d in gs :: d in NodeOf(f, g).groups
    ensures ReplaceAll(t, f, p, g, gs).claims[g].total == p.claims[g].total
  {
    if gs != [] {
      var gs', d := gs[..|gs| - 1], gs[|gs| - 1];
      assert Knit(t, f, g) && d in gs && Knit(t, f, d);
      ReplaceAllKeepsTotal(t, f, p, g, gs');
      if !Refused(f, d) { ReplaceKeepsBeyond(t, f, ReplaceAll(t, f, p, g, gs'), d, g); }
    }
  }

  // -------- a forest in order is acyclic --------

  /** The granularity strictly grows towards the root. */
  lemma {:induction false} ClimbGrows(t: Topo, f: Forest, path: seq<nat>, i: nat, j: nat)
    requires WellFormed(t, f) && Climb(f, path) && i < j < |path|
    ensures NodeOf(f, path[i]).s < NodeOf(f, path[j]).s
    decreases j
  {
    assert NodeOk(t, f, path[j - 1]) && NodeOf(f, path[j - 1]).father == Some(path[j - 1 + 1]);
    if i < j - 1 { ClimbGrows(t, f, path, i, j - 1); }
  }

  lemma UnderFiner(t: Topo, f: Forest, y: nat, g: nat)
    requires WellFormed(t, f) && Under(f, y, g)
    ensures LiveGroup(f, y) && LiveGroup(f, g) && NodeOf(f, y).s <= NodeOf(f, g).s
  {
    var path :| Climb(f, path) && path[0] == y && path[|path| - 1] == g;
    if |path| > 1 { ClimbGrows(t, f, path, 0, |path| - 1); }
  }

  /** Who is under `g` depends only on the fathers of the others. */
  lemma UnderSame(f: Forest, f': Forest, y: nat, g: nat)
    requires Under(f', y, g) && LiveGroup(f, g)
    requires forall x: nat | LiveGroup(f', x) && x != g ::
      LiveGroup(f, x) && NodeOf(f', x).father == NodeOf(f, x).father
    ensures Under(f, y, g)
  {
    var path :| Climb(f', path) && path[0] == y && path[|path| - 1] == g;
    ClimbSame(f, f', path);
  }

  lemma {:induction false} ClimbSame(f: Forest, f': Forest, path: seq<nat>)
    requires Climb(f', path) && LiveGroup(f, path[|path| - 1])
    requires forall x: nat | LiveGroup(f', x) && x != path[|path| - 1] ::
      LiveGroup(f, x) && NodeOf(f', x).father == NodeOf(f, x).father
    ensures Under(f, path[0], path[|path| - 1])
    decreases |path|
  {
    var y, g := path[0], path[|path| - 1];
    if y == g {
      UnderSelf(f, g);
    } else {
      var rest := path[1..];
      assert NodeOf(f', path[0]).father == Some(path[0 + 1]);
      assert Climb(f', rest) && rest[|rest| - 1] == g;
      ClimbSame(f, f', rest);
      UnderBelow(f, y, rest[0], g);
    }
  }

  lemma UnderBelow(f: Forest, y: nat, h: nat, g: nat)
    requires LiveGroup(f, y) && NodeOf(f, y).father == Some(h) && Under(f, h, g)
    ensures Under(f, y, g)
  {
    var path :| Climb(f, path) && path[0] == h && path[|path| - 1] == g;
    assert Climb(f, [y] + path);
  }
}
