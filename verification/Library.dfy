/** The scheduler library's state, and what the API calls are made of: placing, linking and unlinking.

    Threads and groups live in fixed tables and are named by their slot.  The state has two parts:
    the `Forest` (who is a member of what, and the attributes) and the `Places` (the per-CPU load
    table, each group's CPU bookkeeping, each thread's seat).  Re-placing a group and everything
    below it changes only the places. */
module Library {
  import opened CpuSet
  import opened Topology
  import opened Allocator

  datatype Option<+T> = None | Some(value: T)

  /** A group: its attribute, CPUs per member, father, and members (threads or groups, oldest first). */
  datatype Node = Node(attribute: bv64, s: nat, father: Option<nat>, threads: seq<nat>, groups: seq<nat>)

  datatype Slot = Vacant | Live(group: Option<nat>)

  datatype Forest = Forest(groups: seq<Option<Node>>, threads: seq<Slot>)

  datatype Places = Places(loads: seq<int>, claims: seq<Claims>, seats: seq<Seat>)

  datatype State = State(topo: Topo, forest: Forest, places: Places)

  datatype Errno = EINVAL | ERANGE | EBUSY | ENOMEM

  /** A call either fails and leaves the state alone, or succeeds with a new state. */
  datatype Outcome = Fail(errno: Errno) | Done(st: State)

  const NOBODY := Seat(0, {})
  const NOTHING := Claims({}, {}, 0)

  predicate LiveGroup(f: Forest, g: nat) { g < |f.groups| && f.groups[g].Some? }
  predicate LiveThread(f: Forest, t: nat) { t < |f.threads| && f.threads[t].Live? }

  function NodeOf(f: Forest, g: nat): Node
    requires LiveGroup(f, g)
  {
    f.groups[g].value
  }

  function ModeOf(x: Node): Mode { Mode(x.s, IsPerCpu(x.attribute), IsCompact(x.attribute)) }

  function AllCpus(n: nat): set<nat> { Block(0, n) }

  // -------- loads --------

  /** What a thread adds to each of its CPUs: ceil(n / number of its CPUs). */
  function LoadOf(n: nat, cpus: set<nat>): nat {
    if |cpus| == 0 then 0 else (n + |cpus| - 1) / |cpus|
  }

  function Shift(loads: seq<int>, cpus: set<nat>, w: int): (r: seq<int>)
    ensures |r| == |loads|
  {
    seq(|loads|, c requires 0 <= c < |loads| => loads[c] + if c in cpus then w else 0)
  }

  function AddLoad(loads: seq<int>, cpus: set<nat>): (r: seq<int>)
    ensures |r| == |loads|
  {
    Shift(loads, cpus, LoadOf(|loads|, cpus))
  }

  function SubLoad(loads: seq<int>, cpus: set<nat>): (r: seq<int>)
    ensures |r| == |loads|
  {
    Shift(loads, cpus, 0 - LoadOf(|loads|, cpus))
  }

  // -------- placing --------

  /** Where the next thread goes. */
  ghost function Aim(m: Mode, c: Claims, loads: seq<int>): nat {
    if Workable(m.s, c, |loads|) then Target(m, c, loads) else 0
  }

  /** The block the next child group gets. */
  ghost function AimBlock(s: nat, c: Claims, loads: seq<int>): set<nat> {
    if Workable(s, c, |loads|) then Block(NextBlock(loads, Free(c), s), s) else {}
  }

  predicate Fit(f: Forest, p: Places) { |p.claims| == |f.groups| && |p.seats| == |f.threads| }

  /** Move thread `t` to the next seat of group `g`, and its load with it. */
  ghost function SeatThread(m: Mode, p: Places, g: nat, t: nat): (r: Places)
    requires m.s > 0 && g < |p.claims| && t < |p.seats|
    ensures |r.claims| == |p.claims| && |r.seats| == |p.seats| && |r.loads| == |p.loads|
  {
    var loads := SubLoad(p.loads, p.seats[t].cpus);
    var a := Aim(m, p.claims[g], loads);
    Places(AddLoad(loads, SeatAt(m, a).cpus),
           p.claims[g := Claim(p.claims[g], ClaimAt(m, a))],
           p.seats[t := SeatAt(m, a)])
  }

  ghost function SeatThreads(m: Mode, p: Places, g: nat, ts: seq<nat>): (r: Places)
    requires m.s > 0 && g < |p.claims| && forall i | 0 <= i < |ts| :: ts[i] < |p.seats|
    ensures |r.claims| == |p.claims| && |r.seats| == |p.seats| && |r.loads| == |p.loads|
  {
    if ts == [] then p
    else
      SeatThread(m, SeatThreads(m, p, g, ts[..|ts| - 1]), g, ts[|ts| - 1])
  }

  lemma SeatThreadsNext(m: Mode, p: Places, g: nat, ts: seq<nat>, k: nat)
    requires m.s > 0 && g < |p.claims| && k < |ts| && forall i | 0 <= i < |ts| :: ts[i] < |p.seats|
    ensures SeatThreads(m, p, g, ts[..k + 1]) == SeatThread(m, SeatThreads(m, p, g, ts[..k]), g, ts[k])
  {
    assert ts[..k + 1][..k] == ts[..k];
  }

  /** Give group `g` its CPUs afresh: all of them, or the next block of its father. */
  ghost function Request(f: Forest, p: Places, g: nat): (r: Places)
    requires Fit(f, p) && LiveGroup(f, g)
    requires NodeOf(f, g).father.Some? ==> LiveGroup(f, NodeOf(f, g).father.value)
    ensures Fit(f, r) && |r.loads| == |p.loads|
  {
    match NodeOf(f, g).father
    case None => p.(claims := p.claims[g := Claims(AllCpus(|p.loads|), {}, 0)])
    case Some(h) =>
      var b := AimBlock(NodeOf(f, h).s, p.claims[h], p.loads);
      p.(claims := p.claims[h := Claim(p.claims[h], b)][g := Claims(b, {}, 0)])
  }

  function MaxChild(f: Forest, gs: seq<nat>): nat
    requires forall x | x in gs :: LiveGroup(f, x)
  {
    if gs == [] then 0
    else
      var a, b := MaxChild(f, gs[..|gs| - 1]), NodeOf(f, gs[|gs| - 1]).s;
      if a > b then a else b
  }

  // -------- what the forest keeps --------

  ghost predicate Distinct(xs: seq<nat>) {
    forall i, j | 0 <= i < j < |xs| :: xs[i] != xs[j]
  }

  /** One group's part: granularity as the attribute says, links to father and members that agree in both
      directions, members of one kind. */
  ghost predicate Knit(t: Topo, f: Forest, g: nat)
    requires Regular(t) && LiveGroup(f, g)
  {
    var x := NodeOf(f, g);
    && Arrange(t, x.attribute) == Arranged(x.attribute, x.s)
    && (x.father.Some? ==> x.father.value != g && LiveGroup(f, x.father.value) && g in NodeOf(f, x.father.value).groups)
    && (forall c | c in x.groups :: LiveGroup(f, c) && NodeOf(f, c).father == Some(g))
    && (forall u | u in x.threads :: LiveThread(f, u) && f.threads[u].group == Some(g))
    && Distinct(x.groups) && Distinct(x.threads)
    && (x.groups == [] || x.threads == [])
  }

  ghost predicate SlotOk(f: Forest, u: nat)
    requires LiveThread(f, u)
  {
    f.threads[u].group.Some? ==>
      LiveGroup(f, f.threads[u].group.value) && u in NodeOf(f, f.threads[u].group.value).threads
  }

  /** What every call keeps of the forest. */
  ghost predicate Woven(t: Topo, f: Forest) {
    && Regular(t)
    && (forall g | LiveGroup(f, g) :: Knit(t, f, g))
    && (forall u | LiveThread(f, u) :: SlotOk(f, u))
  }

  /** A granularity strictly below the father's. */
  ghost predicate Steps(f: Forest, g: nat)
    requires LiveGroup(f, g)
  {
    var x := NodeOf(f, g);
    x.father.Some? && LiveGroup(f, x.father.value) ==> x.s < NodeOf(f, x.father.value).s
  }

  ghost predicate Stepped(f: Forest) { forall g | LiveGroup(f, g) :: Steps(f, g) }

  ghost predicate NodeOk(t: Topo, f: Forest, g: nat)
    requires Regular(t) && LiveGroup(f, g)
  {
    Knit(t, f, g) && Steps(f, g)
  }

  /** A forest in order: granularity strictly falls from father to child. */
  ghost predicate WellFormed(t: Topo, f: Forest) { Woven(t, f) && Stepped(f) }

  /** The two checks of `wayca_group_rearrange_group`. */
  ghost predicate Refused(f: Forest, g: nat)
    requires LiveGroup(f, g)
    requires NodeOf(f, g).father.Some? ==> LiveGroup(f, NodeOf(f, g).father.value)
    requires forall c | c in NodeOf(f, g).groups :: LiveGroup(f, c)
  {
    var x := NodeOf(f, g);
    || (x.father.Some? && x.s >= NodeOf(f, x.father.value).s)
    || x.s <= MaxChild(f, x.groups)
  }

  /** Re-place group `g` and, recursively, the children that are not refused.  Those have a smaller
      granularity, so this ends even in a forest that is out of order. */
  ghost function Replace(t: Topo, f: Forest, p: Places, g: nat): (r: Places)
    requires Woven(t, f) && Fit(f, p) && LiveGroup(f, g)
    ensures Fit(f, r) && |r.loads| == |p.loads|
    decreases NodeOf(f, g).s, 1, 0
  {
    assert Knit(t, f, g);
    var x, q := NodeOf(f, g), Request(f, p, g);
    assert forall i | 0 <= i < |x.threads| :: x.threads[i] in x.threads;
    if x.threads != [] then SeatThreads(ModeOf(x), q, g, x.threads) else ReplaceAll(t, f, q, g, x.groups)
  }

  ghost function ReplaceAll(t: Topo, f: Forest, p: Places, g: nat, gs: seq<nat>): (r: Places)
    requires Woven(t, f) && Fit(f, p) && LiveGroup(f, g)
    requires forall c | c in gs :: c in NodeOf(f, g).groups
    ensures Fit(f, r) && |r.loads| == |p.loads|
    decreases NodeOf(f, g).s, 0, |gs|
  {
    if gs == [] then p
    else
      assert Knit(t, f, g) && gs[|gs| - 1] in gs && Knit(t, f, gs[|gs| - 1]);
      var q, c := ReplaceAll(t, f, p, g, gs[..|gs| - 1]), gs[|gs| - 1];
      if Refused(f, c) then q else Replace(t, f, q, c)
  }

  // -------- membership --------

  function Remove(xs: seq<nat>, x: nat): (r: seq<nat>)
    ensures forall y | y in r :: y in xs
  {
    if xs == [] then [] else if xs[0] == x then xs[1..] else [xs[0]] + Remove(xs[1..], x)
  }

  function SetNode(f: Forest, g: nat, x: Node): Forest
    requires g < |f.groups|
  {
    f.(groups := f.groups[g := Some(x)])
  }

  function SetSlot(f: Forest, u: nat, group: Option<nat>): Forest
    requires u < |f.threads|
  {
    f.(threads := f.threads[u := Live(group)])
  }

  function AddThread(f: Forest, u: nat, g: nat): Forest
    requires LiveThread(f, u) && LiveGroup(f, g)
  {
    var x := NodeOf(f, g);
    SetSlot(SetNode(f, g, x.(threads := x.threads + [u])), u, Some(g))
  }

  function DropThread(f: Forest, u: nat, g: nat): Forest
    requires LiveThread(f, u) && LiveGroup(f, g)
  {
    var x := NodeOf(f, g);
    SetSlot(SetNode(f, g, x.(threads := Remove(x.threads, u))), u, None)
  }

  function AddGroup(f: Forest, g: nat, h: nat): Forest
    requires LiveGroup(f, g) && LiveGroup(f, h)
  {
    var x := NodeOf(f, h);
    var f' := SetNode(f, h, x.(groups := x.groups + [g]));
    SetNode(f', g, NodeOf(f', g).(father := Some(h)))
  }

  function DropGroup(f: Forest, g: nat, h: nat): Forest
    requires LiveGroup(f, g) && LiveGroup(f, h)
  {
    var x := NodeOf(f, h);
    var f' := SetNode(f, h, x.(groups := Remove(x.groups, g)));
    SetNode(f', g, NodeOf(f', g).(father := None))
  }

  // -------- keeping the forest well formed --------

  lemma {:induction false} RemoveFacts(xs: seq<nat>, x: nat)
    requires Distinct(xs)
    ensures Distinct(Remove(xs, x)) && x !in Remove(xs, x)
    ensures forall y | y in xs && y != x :: y in Remove(xs, x)
  {
    if xs != [] && xs[0] != x {
      var r := Remove(xs[1..], x);
      RemoveFacts(xs[1..], x);
      assert xs[0] !in r by { assert forall y | y in r :: y in xs[1..]; }
      assert xs == [xs[0]] + xs[1..];
    }
  }

  lemma AddThreadKnit(t: Topo, f: Forest, u: nat, g: nat, x: nat)
    requires Woven(t, f) && LiveThread(f, u) && LiveGroup(f, g) && LiveGroup(f, x)
    requires f.threads[u].group == None && NodeOf(f, g).groups == []
    ensures Knit(t, AddThread(f, u, g), x)
  {
    var f' := AddThread(f, u, g);
    assert Knit(t, f, x);
    assert f'.threads[u].group == Some(g);
    if x == g {
      assert NodeOf(f', x) == NodeOf(f, x).(threads := NodeOf(f, x).threads + [u]);
      assert u !in NodeOf(f, x).threads;
    } else {
      assert NodeOf(f', x) == NodeOf(f, x);
      assert u !in NodeOf(f, x).threads;
    }
  }

  lemma AddThreadWoven(t: Topo, f: Forest, u: nat, g: nat)
    requires Woven(t, f) && LiveThread(f, u) && LiveGroup(f, g)
    requires f.threads[u].group == None && NodeOf(f, g).groups == []
    ensures Woven(t, AddThread(f, u, g))
  {
    var f' := AddThread(f, u, g);
    forall x | LiveGroup(f', x)
      ensures Knit(t, f', x)
    {
      AddThreadKnit(t, f, u, g, x);
    }
    forall v | LiveThread(f', v)
      ensures SlotOk(f', v)
    {
      if v != u { assert SlotOk(f, v); }
    }
  }

  /** The same fathers and granularities, so the same steps. */
  lemma SameSteps(f: Forest, f': Forest)
    requires Stepped(f) && |f'.groups| == |f.groups|
    requires forall x | LiveGroup(f', x) ::
               LiveGroup(f, x) && NodeOf(f', x).s == NodeOf(f, x).s
                 && (NodeOf(f', x).father == None || NodeOf(f', x).father == NodeOf(f, x).father)
    ensures Stepped(f')
  {
    forall x | LiveGroup(f', x)
      ensures Steps(f', x)
    {
      assert Steps(f, x);
    }
  }

  lemma DropThreadKnit(t: Topo, f: Forest, u: nat, g: nat, x: nat)
    requires Woven(t, f) && LiveThread(f, u) && LiveGroup(f, g) && LiveGroup(f, x) && u in NodeOf(f, g).threads
    ensures Knit(t, DropThread(f, u, g), x)
  {
    var f' := DropThread(f, u, g);
    assert Knit(t, f, x) && Knit(t, f, g);
    if x == g {
      RemoveFacts(NodeOf(f, g).threads, u);
      assert NodeOf(f', x) == NodeOf(f, x).(threads := Remove(NodeOf(f, x).threads, u));
    } else {
      assert NodeOf(f', x) == NodeOf(f, x) && u !in NodeOf(f, x).threads;
    }
  }

  lemma DropThreadWoven(t: Topo, f: Forest, u: nat, g: nat)
    requires Woven(t, f) && LiveThread(f, u) && LiveGroup(f, g) && u in NodeOf(f, g).threads
    ensures Woven(t, DropThread(f, u, g))
  {
    var f' := DropThread(f, u, g);
    forall x | LiveGroup(f', x)
      ensures Knit(t, f', x)
    {
      DropThreadKnit(t, f, u, g, x);
    }
    assert Knit(t, f, g);
    RemoveFacts(NodeOf(f, g).threads, u);
    forall v | LiveThread(f', v)
      ensures SlotOk(f', v)
    {
      if v != u { assert SlotOk(f, v); }
    }
  }

  /** What linking `g` below `h` does to each node. */
  lemma AddGroupNodes(f: Forest, g: nat, h: nat, x: nat)
    requires LiveGroup(f, g) && LiveGroup(f, h) && LiveGroup(f, x) && g != h
    ensures NodeOf(AddGroup(f, g, h), x) ==
      if x == h then NodeOf(f, h).(groups := NodeOf(f, h).groups + [g])
      else if x == g then NodeOf(f, g).(father := Some(h))
      else NodeOf(f, x)
  {
  }

  lemma AddGroupLists(f: Forest, g: nat, h: nat)
    requires LiveGroup(f, g) && LiveGroup(f, h) && g != h
    ensures var f' := AddGroup(f, g, h);
      forall x | LiveGroup(f, x) :: LiveGroup(f', x) && NodeOf(f', x).s == NodeOf(f, x).s
        && NodeOf(f', x).father == (if x == g then Some(h) else NodeOf(f, x).father)
        && NodeOf(f', x).groups == (if x == h then NodeOf(f, x).groups + [g] else NodeOf(f, x).groups)
  {
    forall x | LiveGroup(f, x) { AddGroupNodes(f, g, h, x); }
  }

  lemma AddGroupKnit(t: Topo, f: Forest, g: nat, h: nat, x: nat)
    requires Woven(t, f) && LiveGroup(f, g) && LiveGroup(f, h) && LiveGroup(f, x) && g != h
    requires NodeOf(f, g).father == None && NodeOf(f, h).threads == []
    ensures Knit(t, AddGroup(f, g, h), x)
  {
    var f' := AddGroup(f, g, h);
    AddGroupNodes(f, g, h, x);
    AddGroupLists(f, g, h);
    assert Knit(t, f, x);
    assert g !in NodeOf(f, x).groups;
  }

  lemma AddGroupWoven(t: Topo, f: Forest, g: nat, h: nat)
    requires Woven(t, f) && LiveGroup(f, g) && LiveGroup(f, h) && g != h
    requires NodeOf(f, g).father == None && NodeOf(f, h).threads == []
    ensures Woven(t, AddGroup(f, g, h))
  {
    var f' := AddGroup(f, g, h);
    forall x | LiveGroup(f', x)
      ensures Knit(t, f', x)
    {
      AddGroupKnit(t, f, g, h, x);
    }
    forall v: nat | LiveThread(f', v)
      ensures SlotOk(f', v)
    {
      assert SlotOk(f, v);
      if f.threads[v].group.Some? { AddGroupNodes(f, g, h, f.threads[v].group.value); }
    }
  }

  /** Linking a group below one of coarser granularity keeps the forest in order. */
  lemma AddGroupWf(t: Topo, f: Forest, g: nat, h: nat)
    requires WellFormed(t, f) && LiveGroup(f, g) && LiveGroup(f, h)
    requires NodeOf(f, g).father == None && NodeOf(f, h).threads == [] && NodeOf(f, g).s < NodeOf(f, h).s
    ensures WellFormed(t, AddGroup(f, g, h))
  {
    var f' := AddGroup(f, g, h);
    AddGroupWoven(t, f, g, h);
    AddGroupLists(f, g, h);
    forall x | LiveGroup(f', x)
      ensures Steps(f', x)
    {
      assert Steps(f, x);
    }
  }

  lemma DropGroupNodes(f: Forest, g: nat, h: nat, x: nat)
    requires LiveGroup(f, g) && LiveGroup(f, h) && LiveGroup(f, x) && g != h
    ensures NodeOf(DropGroup(f, g, h), x) ==
      if x == h then NodeOf(f, h).(groups := Remove(NodeOf(f, h).groups, g))
      else if x == g then NodeOf(f, g).(father := None)
      else NodeOf(f, x)
  {
  }

  lemma DropGroupLists(f: Forest, g: nat, h: nat)
    requires LiveGroup(f, g) && LiveGroup(f, h) && g != h
    ensures var f' := DropGroup(f, g, h);
      forall x | LiveGroup(f, x) :: LiveGroup(f', x) && NodeOf(f', x).s == NodeOf(f, x).s
        && NodeOf(f', x).father == (if x == g then None else NodeOf(f, x).father)
        && NodeOf(f', x).groups == (if x == h then Remove(NodeOf(f, x).groups, g) else NodeOf(f, x).groups)
  {
    forall x | LiveGroup(f, x) { DropGroupNodes(f, g, h, x); }
  }

  lemma DropGroupKnit(t: Topo, f: Forest, g: nat, h: nat, x: nat)
    requires Woven(t, f) && LiveGroup(f, g) && LiveGroup(f, h) && LiveGroup(f, x) && g != h && g in NodeOf(f, h).groups
    ensures Knit(t, DropGroup(f, g, h), x)
  {
    var f' := DropGroup(f, g, h);
    assert Knit(t, f, x) && Knit(t, f, h);
    DropGroupNodes(f, g, h, x);
    DropGroupLists(f, g, h);
    RemoveFacts(NodeOf(f, h).groups, g);
    assert x != h ==> g !in NodeOf(f, x).groups;
  }

  lemma DropGroupWoven(t: Topo, f: Forest, g: nat, h: nat)
    requires Woven(t, f) && LiveGroup(f, g) && LiveGroup(f, h) && g != h && g in NodeOf(f, h).groups
    ensures Woven(t, DropGroup(f, g, h))
  {
    var f' := DropGroup(f, g, h);
    forall x | LiveGroup(f', x)
      ensures Knit(t, f', x)
    {
      DropGroupKnit(t, f, g, h, x);
    }
    forall v: nat | LiveThread(f', v)
      ensures SlotOk(f', v)
    {
      assert SlotOk(f, v);
      if f.threads[v].group.Some? { DropGroupNodes(f, g, h, f.threads[v].group.value); }
    }
  }
}
