/** What each API call answers and what it changes, call by call: exactly when it succeeds, the error it returns
    otherwise, and everything that is different afterwards. */
module Answers {
  import opened CpuSet
  import opened Topology
  import opened Allocator
  import opened Library
  import opened Api
  import opened Runs
  import F = Frames
  import L = Ledger

  // -------- what stays --------

  ghost predicate NodesBut(f: Forest, f': Forest, xs: set<nat>) {
    |f'.groups| == |f.groups| && forall x: nat | x < |f.groups| && x !in xs :: f'.groups[x] == f.groups[x]
  }

  ghost predicate ClaimsBut(p: Places, p': Places, xs: set<nat>) {
    && |p'.claims| == |p.claims|
    && (forall x: nat | x < |p.claims| && x !in xs :: p'.claims[x] == p.claims[x])
    && forall x: nat | x < |p.claims| && x in xs :: p'.claims[x].total == p.claims[x].total
  }

  /** `ys` is `xs` without its element `x`. */
  ghost predicate OneLess(xs: seq<nat>, x: nat, ys: seq<nat>) {
    exists i :: 0 <= i < |xs| && xs[i] == x && ys == xs[..i] + xs[i + 1..]
  }

  lemma {:induction false} RemoveFirst(xs: seq<nat>, x: nat) returns (i: nat)
    requires x in xs
    ensures i < |xs| && xs[i] == x && Remove(xs, x) == xs[..i] + xs[i + 1..]
  {
    if xs[0] == x {
      i := 0;
    } else {
      var j := RemoveFirst(xs[1..], x);
      i := j + 1;
      assert xs[i + 1..] == xs[1..][j + 1..];
      assert xs[..i] == [xs[0]] + xs[1..][..j];
    }
  }

  lemma RemoveIsOneLess(xs: seq<nat>, x: nat)
    requires x in xs
    ensures OneLess(xs, x, Remove(xs, x))
  {
    var i := RemoveFirst(xs, x);
  }

  /** A thread that may run on k CPUs weighs the least number on each of them that makes up the n CPUs of the machine:
      n divided by k, rounded up. */
  lemma WeightIsCeiling(n: nat, cpus: set<nat>)
    requires n > 0 && cpus != {}
    ensures var k, w := |cpus|, LoadOf(n, cpus); w > 0 && (w - 1) * k < n <= w * k
  {
    var k, x := |cpus|, n + |cpus| - 1;
    assert x == k * (x / k) + x % k;
    assert (x / k - 1) * k == k * (x / k) - k;
  }

  /** The thread's weight is taken from or put on each of its CPUs, and no other. */
  ghost predicate Weighed(loads: seq<int>, loads': seq<int>, off: set<nat>, on: set<nat>) {
    && |loads'| == |loads|
    && forall c: nat | c < |loads| ::
       loads'[c] == loads[c] - L.Share(|loads|, off, c) + L.Share(|loads|, on, c)
  }

  // -------- threads --------

  /** Slot `u` is the first vacant one. */
  ghost predicate FirstVacant(ts: seq<Slot>, u: nat) {
    u < |ts| && ts[u].Vacant? && forall v: nat | v < u :: ts[v].Live?
  }

  /** The new thread is in no group and runs where it may; nothing else is different. */
  ghost predicate ThreadMade(st: State, st': State, u: nat, affinity: set<nat>) {
    var f, p, p' := st.forest, st.places, st'.places;
    && FirstVacant(f.threads, u) && st'.topo == st.topo && st'.forest == Forest(f.groups, f.threads[u := Live(None)])
    && p'.claims == p.claims && u < |p.seats| && p'.seats == p.seats[u := Seat(0, affinity)]
    && Weighed(p.loads, p'.loads, {}, affinity)
  }

  /** Creating a thread takes the first vacant slot, and fails only when there is none. */
  lemma CreateThreadAnswer(st: State, affinity: set<nat>)
    requires Usable(st) && Defined(st, ThreadCreate(affinity))
    ensures var r, ts := Perform(st, ThreadCreate(affinity)), st.forest.threads;
      if r.Done? then exists u :: ThreadMade(st, r.st, u, affinity)
      else r == Fail(ENOMEM) && forall v: nat | v < |ts| :: ts[v].Live?
  {
    var u := VacantThread(st.forest.threads, 0);
    if u < |st.forest.threads| { assert ThreadMade(st, CreateThread(st, affinity).st, u, affinity); }
  }

  /** A thread that was a member of `g` is in no group: the member list is one shorter, the group takes its marks back;
      its CPUs, the loads and all other threads and groups are as before. */
  ghost predicate ThreadLeft(st: State, st': State, u: nat, g: nat) {
    var f, f', p, p' := st.forest, st'.forest, st.places, st'.places;
    && LiveThread(f, u) && LiveGroup(f, g) && st'.topo == st.topo
    && var m := ModeOf(NodeOf(f, g));
    && f'.threads == f.threads[u := Live(None)] && NodesBut(f, f', {g}) && LiveGroup(f', g)
    && OneLess(NodeOf(f, g).threads, u, NodeOf(f', g).threads)
    && NodeOf(f', g) == NodeOf(f, g).(threads := NodeOf(f', g).threads)
    && p'.loads == p.loads && p'.seats == p.seats && ClaimsBut(p, p', {g}) && g < |p.claims| && u < |p.seats|
    && Uncounted(p.claims[g], p'.claims[g], if m.compact && !m.perCpu then {p.seats[u].target} else {},
                 if m.compact && !m.perCpu then {} else p.seats[u].cpus)
  }

  /** With nothing marked the last round is opened again.  Then the CPUs `clear` lose their mark, and the marks of the
      CPUs `flip` are inverted. */
  ghost predicate Uncounted(c: Claims, c': Claims, clear: set<nat>, flip: set<nat>) {
    var before := if c.used == {} then c.total else c.used;
    && c'.roll == c.roll - (if c.used == {} then 1 else 0)
    && forall d :: d in c'.used <==> d !in clear && (d in before <==> d !in flip)
  }

  lemma LeaveIs(st: State, u: nat, g: nat)
    requires Usable(st) && LiveThread(st.forest, u) && LiveGroup(st.forest, g) && u in NodeOf(st.forest, g).threads
    ensures ThreadLeft(st, Leave(st, u, g), u, g)
  {
    RemoveIsOneLess(NodeOf(st.forest, g).threads, u);
  }

  /** The two ways to say that a thread is in a group. */
  lemma MemberIff(st: State, u: nat, g: nat)
    requires Usable(st) && LiveThread(st.forest, u) && LiveGroup(st.forest, g)
    ensures u in NodeOf(st.forest, g).threads <==> st.forest.threads[u].group == Some(g)
  {
    assert Knit(st.topo, st.forest, g) && SlotOk(st.forest, u);
  }

  /** Detaching a thread succeeds if and only if it is in the group. */
  lemma DetachThreadAnswer(st: State, u: nat, g: nat)
    requires Usable(st) && Defined(st, ThreadDetach(u, g))
    ensures var r, f := Perform(st, ThreadDetach(u, g)), st.forest;
      if LiveThread(f, u) && LiveGroup(f, g) && f.threads[u].group == Some(g) then r.Done? && ThreadLeft(st, r.st, u, g)
      else r == Fail(EINVAL)
  {
    if LiveThread(st.forest, u) && LiveGroup(st.forest, g) {
      MemberIff(st, u, g);
      if u in NodeOf(st.forest, g).threads { LeaveIs(st, u, g); }
    }
  }

  /** A thread is gone: its slot is vacant and its weight is off its CPUs, and nothing else changed since. */
  ghost predicate ThreadGone(st: State, st': State, u: nat) {
    var f, p, p' := st.forest, st.places, st'.places;
    && u < |f.threads| && u < |p.seats| && st'.topo == st.topo
    && st'.forest == Forest(f.groups, f.threads[u := Vacant])
    && p'.claims == p.claims && p'.seats == p.seats[u := NOBODY] && Weighed(p.loads, p'.loads, p.seats[u].cpus, {})
  }

  /** Joining succeeds for every live thread; it leaves its group first. */
  lemma JoinThreadAnswer(st: State, u: nat)
    requires Usable(st) && Defined(st, ThreadJoin(u))
    ensures var r, f := Perform(st, ThreadJoin(u)), st.forest;
      if !LiveThread(f, u) then r == Fail(EINVAL)
      else if f.threads[u].group == None then r.Done? && ThreadGone(st, r.st, u)
      else r.Done? && exists mid :: ThreadLeft(st, mid, u, f.threads[u].group.value) && ThreadGone(mid, r.st, u)
  {
    var f := st.forest;
    if LiveThread(f, u) && f.threads[u].group.Some? {
      var g := f.threads[u].group.value;
      assert SlotOk(f, u);
      LeaveIs(st, u, g);
      assert ThreadLeft(st, Leave(st, u, g), u, g) && ThreadGone(Leave(st, u, g), JoinThread(st, u).st, u);
    }
  }

  /** The thread is the group's newest member and sits where it belongs: the load table is looked at without its own
      weight. */
  ghost predicate ThreadSeated(p: Places, p': Places, m: Mode, u: nat, g: nat)
    requires m.s > 0
  {
    && u < |p.seats| && g < |p.claims| && ClaimsBut(p, p', {g})
    && |p'.seats| == |p.seats| && (forall v: nat | v < |p.seats| && v != u :: p'.seats[v] == p.seats[v])
    && Weighed(p.loads, p'.loads, p.seats[u].cpus, p'.seats[u].cpus)
    && var t, lifted := p'.seats[u].target, SubLoad(p.loads, p.seats[u].cpus);
       && Aims(m, p.claims[g], lifted, t)
       && p'.seats[u].cpus == (if m.perCpu then {t} else Block(Start(t, m.s), m.s))
       && Counted(p.claims[g], p'.claims[g], if m.compact then {t} else Block(Start(t, m.s), m.s))
  }

  /** The group marks the CPUs `x`, and starts a new round with nothing marked when that makes all of them. */
  ghost predicate Counted(c: Claims, c': Claims, x: set<nat>) {
    if c.used + x == c.total then c'.used == {} && c'.roll == c.roll + 1
    else c'.used == c.used + x && c'.roll == c.roll
  }

  lemma ClaimCounts(c: Claims, x: set<nat>)
    ensures Counted(c, Claim(c, x), x)
  {
  }

  lemma SeatThreadIs(p: Places, m: Mode, u: nat, g: nat)
    requires u < |p.seats| && g < |p.claims| && Workable(m.s, p.claims[g], |p.loads|)
    ensures ThreadSeated(p, SeatThread(m, p, g, u), m, u, g)
  {
    var lifted := SubLoad(p.loads, p.seats[u].cpus);
    TargetMeaning(m, p.claims[g], lifted);
    ClaimCounts(p.claims[g], ClaimAt(m, Target(m, p.claims[g], lifted)));
  }

  /** Attaching succeeds if and only if the thread is in no group and the group has no child groups. */
  lemma AttachThreadAnswer(st: State, u: nat, g: nat)
    requires Base(st) && Defined(st, ThreadAttach(u, g))
    ensures var r, f := Perform(st, ThreadAttach(u, g)), st.forest;
      if LiveThread(f, u) && LiveGroup(f, g) && f.threads[u].group == None && NodeOf(f, g).groups == [] then
        && r.Done? && r.st.topo == st.topo && r.st.forest.threads == f.threads[u := Live(Some(g))]
        && r.st.forest.groups == f.groups[g := Some(NodeOf(f, g).(threads := NodeOf(f, g).threads + [u]))]
        && NodeOf(f, g).s > 0 && ThreadSeated(st.places, r.st.places, ModeOf(NodeOf(f, g)), u, g)
      else r == Fail(EINVAL)
  {
    var f := st.forest;
    if LiveThread(f, u) && LiveGroup(f, g) {
      MemberIff(st, u, g);
      ShapeWorkable(st.topo, f, st.places, g);
      SeatThreadIs(st.places, ModeOf(NodeOf(f, g)), u, g);
    }
  }

  // -------- groups --------

  ghost predicate FirstVacantGroup(gs: seq<Option<Node>>, g: nat) {
    g < |gs| && gs[g].None? && forall h: nat | h < g :: gs[h].Some?
  }

  /** A group of single CPUs bound compactly and per CPU, without father and members, that covers the machine. */
  ghost predicate GroupMade(st: State, st': State, g: nat) {
    var f, p, p' := st.forest, st.places, st'.places;
    && FirstVacantGroup(f.groups, g) && st'.topo == st.topo && st'.forest.threads == f.threads
    && st'.forest.groups == f.groups[g := Some(Node(WT_GF_CPU | WT_GF_COMPACT | WT_GF_PERCPU, 1, None, [], []))]
    && p'.loads == p.loads && p'.seats == p.seats
    && g < |p.claims| && p'.claims == p.claims[g := Claims(Block(0, st.topo.n), {}, 0)]
  }

  lemma CreateGroupAnswer(st: State)
    requires Usable(st) && Defined(st, GroupCreate)
    ensures var r, gs := Perform(st, GroupCreate), st.forest.groups;
      if r.Done? then exists g :: GroupMade(st, r.st, g)
      else r == Fail(ENOMEM) && forall h: nat | h < |gs| :: gs[h].Some?
  {
    var g := VacantGroup(st.forest.groups, 0);
    if g < |st.forest.groups| { assert GroupMade(st, CreateGroup(st).st, g); }
  }

  /** A group that was a child of `h` has no father: the father's list is one shorter and it takes back the marks on the
      group's CPUs; the group keeps its CPUs and members, and everything else is as before. */
  ghost predicate GroupLeft(st: State, st': State, g: nat, h: nat) {
    var f, f', p, p' := st.forest, st'.forest, st.places, st'.places;
    && LiveGroup(f, g) && LiveGroup(f, h) && g != h && st'.topo == st.topo
    && f'.threads == f.threads && NodesBut(f, f', {g, h}) && LiveGroup(f', g) && LiveGroup(f', h)
    && NodeOf(f', g) == NodeOf(f, g).(father := None)
    && OneLess(NodeOf(f, h).groups, g, NodeOf(f', h).groups)
    && NodeOf(f', h) == NodeOf(f, h).(groups := NodeOf(f', h).groups)
    && p'.loads == p.loads && p'.seats == p.seats && ClaimsBut(p, p', {h}) && g < |p.claims| && h < |p.claims|
    && Uncounted(p.claims[h], p'.claims[h], {}, p.claims[g].total)
  }

  lemma LeaveGroupIs(st: State, g: nat, h: nat)
    requires Usable(st) && LiveGroup(st.forest, g) && LiveGroup(st.forest, h) && g in NodeOf(st.forest, h).groups
    ensures GroupLeft(st, LeaveGroup(st, g, h), g, h)
  {
    var f := st.forest;
    assert Knit(st.topo, f, h) && Knit(st.topo, f, g);
    RemoveIsOneLess(NodeOf(f, h).groups, g);
  }

  lemma ChildIff(st: State, g: nat, h: nat)
    requires Usable(st) && LiveGroup(st.forest, g) && LiveGroup(st.forest, h)
    ensures g in NodeOf(st.forest, h).groups <==> NodeOf(st.forest, g).father == Some(h)
  {
    assert Knit(st.topo, st.forest, g) && Knit(st.topo, st.forest, h);
  }

  /** Detaching a group succeeds if and only if it is a child of the group named. */
  lemma DetachGroupAnswer(st: State, g: nat, h: nat)
    requires Usable(st) && Defined(st, GroupDetach(g, h))
    ensures var r, f := Perform(st, GroupDetach(g, h)), st.forest;
      if LiveGroup(f, g) && LiveGroup(f, h) && NodeOf(f, g).father == Some(h) then r.Done? && GroupLeft(st, r.st, g, h)
      else r == Fail(EINVAL)
  {
    if LiveGroup(st.forest, g) && LiveGroup(st.forest, h) {
      ChildIff(st, g, h);
      if g in NodeOf(st.forest, h).groups { LeaveGroupIs(st, g, h); }
    }
  }

  /** A group is gone: its slot is vacant, and nothing else changed since. */
  ghost predicate GroupGone(st: State, st': State, g: nat) {
    var f, p, p' := st.forest, st.places, st'.places;
    && g < |f.groups| && g < |p.claims| && st'.topo == st.topo
    && st'.forest == Forest(f.groups[g := None], f.threads)
    && p'.loads == p.loads && p'.seats == p.seats && p'.claims == p.claims[g := NOTHING]
  }

  /** Destroying succeeds if and only if the group has no members; it leaves its father first. */
  lemma DestroyGroupAnswer(st: State, g: nat)
    requires Usable(st) && Defined(st, GroupDestroy(g))
    ensures var r, f := Perform(st, GroupDestroy(g)), st.forest;
      if !LiveGroup(f, g) then r == Fail(EINVAL)
      else if NodeOf(f, g).threads != [] || NodeOf(f, g).groups != [] then r == Fail(EBUSY)
      else if NodeOf(f, g).father == None then r.Done? && GroupGone(st, r.st, g)
      else r.Done? && exists mid :: GroupLeft(st, mid, g, NodeOf(f, g).father.value) && GroupGone(mid, r.st, g)
  {
    var f := st.forest;
    if LiveGroup(f, g) && NodeOf(f, g).threads == [] && NodeOf(f, g).groups == [] && NodeOf(f, g).father.Some? {
      var h := NodeOf(f, g).father.value;
      assert Knit(st.topo, f, g);
      LeaveGroupIs(st, g, h);
      assert GroupLeft(st, LeaveGroup(st, g, h), g, h);
      assert GroupGone(LeaveGroup(st, g, h), DestroyGroup(st, g).st, g);
    }
  }

  /** The granularity is above those of all the groups listed. */
  lemma {:induction false} AboveAll(f: Forest, gs: seq<nat>, s: nat)
    requires s > 0 && forall x | x in gs :: LiveGroup(f, x)
    ensures s > MaxChild(f, gs) <==> forall x | x in gs :: s > NodeOf(f, x).s
  {
    if gs != [] {
      var gs', x := gs[..|gs| - 1], gs[|gs| - 1];
      AboveAll(f, gs', s);
      assert gs == gs' + [x];
    }
  }

  /** Attaching a group succeeds if and only if it has no father, the other group has no threads, and its granularity
      is below that of the father and above those of its children.  It becomes the father's newest child; where
      everything in it goes is said elsewhere. */
  lemma AttachGroupAnswer(st: State, g: nat, h: nat)
    requires Base(st) && Defined(st, GroupAttach(g, h))
    ensures var r, f := Perform(st, GroupAttach(g, h)), st.forest;
      if !(LiveGroup(f, g) && LiveGroup(f, h) && NodeOf(f, g).father == None && NodeOf(f, h).threads == []) then
        r == Fail(EINVAL)
      else if !(NodeOf(f, g).s < NodeOf(f, h).s
                && forall c | c in NodeOf(f, g).groups :: LiveGroup(f, c) && NodeOf(f, c).s < NodeOf(f, g).s) then
        r == Fail(ERANGE)
      else
        && r.Done? && r.st.topo == st.topo && r.st.forest.threads == f.threads && g != h
        && r.st.forest.groups == f.groups[h := Some(NodeOf(f, h).(groups := NodeOf(f, h).groups + [g]))]
                                         [g := Some(NodeOf(f, g).(father := Some(h)))]
  {
    var f := st.forest;
    if LiveGroup(f, g) && LiveGroup(f, h) {
      assert Knit(st.topo, f, g);
      ChildIff(st, g, h);
      ShapeWorkable(st.topo, f, st.places, g);
      AboveAll(f, NodeOf(f, g).groups, NodeOf(f, g).s);
    }
  }

  /** Changing the attribute succeeds if and only if the granularity the group had is below that of its father and
      above those of its children, and the word names a level.  Of the forest only the group's attribute and
      granularity change. */
  lemma SetAttributeAnswer(st: State, g: nat, a: bv64)
    requires Base(st) && Defined(st, GroupSetAttr(g, a))
    ensures var r, f := Perform(st, GroupSetAttr(g, a)), st.forest;
      if !LiveGroup(f, g) then r == Fail(EINVAL)
      else if !Between(f, g) then r == Fail(ERANGE)
      else match Arrange(st.topo, a)
        case Invalid => r == Fail(EINVAL)
        case Arranged(a', s) =>
          && r.Done? && r.st.topo == st.topo && r.st.forest.threads == f.threads
          && r.st.forest.groups == f.groups[g := Some(NodeOf(f, g).(attribute := a', s := s))]
  {
    var f := st.forest;
    if LiveGroup(f, g) {
      assert Knit(st.topo, f, g);
      ShapeWorkable(st.topo, f, st.places, g);
      AboveAll(f, NodeOf(f, g).groups, NodeOf(f, g).s);
    }
  }

  ghost predicate Between(f: Forest, g: nat)
    requires LiveGroup(f, g)
  {
    var x := NodeOf(f, g);
    && (x.father.Some? ==> LiveGroup(f, x.father.value) && x.s < NodeOf(f, x.father.value).s)
    && forall c | c in x.groups :: LiveGroup(f, c) && NodeOf(f, c).s < x.s
  }

  // -------- where everything goes --------

  /** A group gets its CPUs afresh, with nothing marked: the whole machine, or the block its father chooses, which the
      father marks. */
  ghost predicate Requested(f: Forest, p: Places, p': Places, g: nat)
    requires LiveGroup(f, g)
  {
    && p'.loads == p.loads && p'.seats == p.seats && |p'.claims| == |p.claims| && g < |p.claims|
    && match NodeOf(f, g).father
       case None => p'.claims == p.claims[g := Claims(Block(0, |p.loads|), {}, 0)]
       case Some(h) =>
         && LiveGroup(f, h) && h < |p.claims| && h != g && NodeOf(f, h).s > 0
         && exists a :: ChildServed(p, p', g, h, NodeOf(f, h).s, a)
  }

  ghost predicate ChildServed(p: Places, p': Places, g: nat, h: nat, s: nat, a: nat)
    requires s > 0 && g < |p.claims| == |p'.claims| && h < |p.claims|
  {
    && Chosen(p.loads, p.claims[h].total - p.claims[h].used, s, a)
    && p'.claims[g] == Claims(Block(a, s), {}, 0)
    && p'.claims[h].total == p.claims[h].total && Counted(p.claims[h], p'.claims[h], Block(a, s))
    && forall x: nat | x < |p.claims| && x != g && x != h :: p'.claims[x] == p.claims[x]
  }

  lemma RequestIs(t: Topo, f: Forest, p: Places, g: nat)
    requires Woven(t, f) && Fit(f, p) && |p.loads| == t.n && Shaped(t, f, p) && LiveGroup(f, g) && Knit(t, f, g)
    ensures Requested(f, p, Request(f, p, g), g)
  {
    if NodeOf(f, g).father.Some? {
      var h := NodeOf(f, g).father.value;
      var s, c := NodeOf(f, h).s, p.claims[h];
      ShapeWorkable(t, f, p, h);
      NextBlockChosen(p.loads, Free(c), s);
      ClaimCounts(c, AimBlock(s, c, p.loads));
      assert ChildServed(p, Request(f, p, g), g, h, s, NextBlock(p.loads, Free(c), s));
    }
  }

  /** The threads are seated one after the other, oldest member first. */
  ghost predicate SeatedInTurn(ps: seq<Places>, m: Mode, ts: seq<nat>, g: nat)
    requires m.s > 0
  {
    |ps| == |ts| + 1 && forall i | 0 <= i < |ts| :: ThreadSeated(ps[i], ps[i + 1], m, ts[i], g)
  }

  lemma SeatThreadsInTurn(m: Mode, p: Places, g: nat, ts: seq<nat>) returns (ps: seq<Places>)
    requires g < |p.claims| && Workable(m.s, p.claims[g], |p.loads|) && forall i | 0 <= i < |ts| :: ts[i] < |p.seats|
    ensures SeatedInTurn(ps, m, ts, g) && ps[0] == p && ps[|ts|] == SeatThreads(m, p, g, ts)
  {
    ps := seq(|ts| + 1, i requires 0 <= i <= |ts| => SeatThreads(m, p, g, ts[..i]));
    forall i | 0 <= i < |ts|
      ensures ThreadSeated(ps[i], ps[i + 1], m, ts[i], g)
    {
      SeatThreadsNext(m, p, g, ts, i);
      F.SeatThreadsKeepClaims(m, p, g, ts[..i], g);
      SeatThreadIs(ps[i], m, ts[i], g);
    }
    assert ts[..|ts|] == ts;
  }

  /** The child groups are re-placed one after the other, oldest first, but for those whose granularity does not
      fit. */
  ghost predicate ReplacedInTurn(t: Topo, f: Forest, ps: seq<Places>, gs: seq<nat>)
    requires Woven(t, f) && forall i | 0 <= i < |gs| :: LiveGroup(f, gs[i])
  {
    && |ps| == |gs| + 1 && (forall i | 0 <= i < |ps| :: Fit(f, ps[i]) && |ps[i].loads| == t.n && Shaped(t, f, ps[i]))
    && forall i | 0 <= i < |gs| :: ChildReplaced(t, f, ps[i], ps[i + 1], gs[i])
  }

  ghost predicate ChildReplaced(t: Topo, f: Forest, p: Places, p': Places, c: nat)
    requires Woven(t, f) && Fit(f, p) && LiveGroup(f, c)
  {
    p' == if Between(f, c) then Replace(t, f, p, c) else p
  }

  lemma BetweenIff(t: Topo, f: Forest, g: nat)
    requires Woven(t, f) && LiveGroup(f, g) && Knit(t, f, g)
    ensures Refused(f, g) <==> !Between(f, g)
  {
    ArrangedLevel(t, NodeOf(f, g).attribute);
    AboveAll(f, NodeOf(f, g).groups, NodeOf(f, g).s);
  }

  /** The places after the first `i` children. */
  ghost function Stage(t: Topo, f: Forest, p: Places, g: nat, gs: seq<nat>, i: nat): (r: Places)
    requires Woven(t, f) && Fit(f, p) && LiveGroup(f, g) && i <= |gs| && forall c | c in gs :: c in NodeOf(f, g).groups
    ensures Fit(f, r) && |r.loads| == |p.loads|
  {
    assert forall c | c in gs[..i] :: c in gs;
    ReplaceAll(t, f, p, g, gs[..i])
  }

  lemma StageNext(t: Topo, f: Forest, p: Places, g: nat, gs: seq<nat>, i: nat)
    requires Woven(t, f) && Fit(f, p) && LiveGroup(f, g) && i < |gs| && forall c | c in gs :: c in NodeOf(f, g).groups
    requires |p.loads| == t.n && Shaped(t, f, p)
    ensures LiveGroup(f, gs[i]) && ChildReplaced(t, f, Stage(t, f, p, g, gs, i), Stage(t, f, p, g, gs, i + 1), gs[i])
  {
    assert gs[i] in gs && Knit(t, f, g) && Knit(t, f, gs[i]);
    BetweenIff(t, f, gs[i]);
    assert gs[..i + 1][..i] == gs[..i];
  }

  lemma StageShaped(t: Topo, f: Forest, p: Places, g: nat, gs: seq<nat>, i: nat)
    requires Woven(t, f) && Fit(f, p) && LiveGroup(f, g) && i <= |gs| && forall c | c in gs :: c in NodeOf(f, g).groups
    requires |p.loads| == t.n && Shaped(t, f, p)
    ensures Shaped(t, f, Stage(t, f, p, g, gs, i))
  {
    ReplaceAllShaped(t, f, p, g, gs[..i]);
  }

  lemma ReplaceAllInTurn(t: Topo, f: Forest, p: Places, g: nat, gs: seq<nat>) returns (ps: seq<Places>)
    requires Woven(t, f) && Fit(f, p) && |p.loads| == t.n && Shaped(t, f, p) && LiveGroup(f, g)
    requires forall c | c in gs :: c in NodeOf(f, g).groups
    ensures (forall i | 0 <= i < |gs| :: LiveGroup(f, gs[i])) && ReplacedInTurn(t, f, ps, gs)
    ensures ps[0] == p && ps[|gs|] == ReplaceAll(t, f, p, g, gs)
  {
    ps := seq(|gs| + 1, i requires 0 <= i <= |gs| => Stage(t, f, p, g, gs, i));
    forall i | 0 <= i < |gs|
      ensures LiveGroup(f, gs[i]) && ChildReplaced(t, f, ps[i], ps[i + 1], gs[i])
    {
      StageNext(t, f, p, g, gs, i);
    }
    forall i | 0 <= i < |ps|
      ensures Shaped(t, f, ps[i])
    {
      StageShaped(t, f, p, g, gs, i);
    }
    assert gs[..|gs|] == gs;
  }

  /** A group is re-placed: it gets its CPUs, and then its members get theirs in turn. */
  ghost predicate Rearranged(t: Topo, f: Forest, p: Places, p': Places, g: nat, ps: seq<Places>)
    requires Woven(t, f) && LiveGroup(f, g)
  {
    var x := NodeOf(f, g);
    && |ps| > 0 && Requested(f, p, ps[0], g) && ps[|ps| - 1] == p' && x.s > 0
    && (forall i | 0 <= i < |x.groups| :: LiveGroup(f, x.groups[i]))
    && if x.threads != [] then SeatedInTurn(ps, ModeOf(x), x.threads, g) else ReplacedInTurn(t, f, ps, x.groups)
  }

  lemma ReplaceInTurn(t: Topo, f: Forest, p: Places, g: nat) returns (ps: seq<Places>)
    requires Woven(t, f) && Fit(f, p) && |p.loads| == t.n && Shaped(t, f, p) && LiveGroup(f, g)
    ensures Rearranged(t, f, p, Replace(t, f, p, g), g, ps)
  {
    var x, q := NodeOf(f, g), Request(f, p, g);
    assert Knit(t, f, g);
    assert forall i | 0 <= i < |x.threads| :: x.threads[i] in x.threads;
    assert forall i | 0 <= i < |x.groups| :: x.groups[i] in x.groups;
    RequestIs(t, f, p, g);
    RequestShaped(t, f, p, g);
    ShapeWorkable(t, f, q, g);
    if x.threads != [] {
      ps := SeatThreadsInTurn(ModeOf(x), q, g, x.threads);
    } else {
      ps := ReplaceAllInTurn(t, f, q, g, x.groups);
    }
  }

  lemma StillShaped(t: Topo, f: Forest, f': Forest, p: Places)
    requires Fit(f, p) && Fit(f', p) && Shaped(t, f, p) && forall x: nat | LiveGroup(f', x) :: LiveGroup(f, x)
    ensures Shaped(t, f', p)
  {
  }

  /** Attaching a group and changing an attribute re-place the group in this way. */
  lemma AttachGroupRearranges(st: State, g: nat, h: nat) returns (ps: seq<Places>)
    requires Base(st) && Defined(st, GroupAttach(g, h)) && Perform(st, GroupAttach(g, h)).Done?
    ensures var st' := After(st, GroupAttach(g, h));
      Woven(st'.topo, st'.forest) && LiveGroup(st'.forest, g)
      && Rearranged(st'.topo, st'.forest, st.places, st'.places, g, ps)
  {
    AddGroupWoven(st.topo, st.forest, g, h);
    StillShaped(st.topo, st.forest, AddGroup(st.forest, g, h), st.places);
    ps := ReplaceInTurn(st.topo, AddGroup(st.forest, g, h), st.places, g);
  }

  lemma SetAttributeRearranges(st: State, g: nat, a: bv64) returns (ps: seq<Places>)
    requires Base(st) && Defined(st, GroupSetAttr(g, a)) && Perform(st, GroupSetAttr(g, a)).Done?
    ensures var st' := After(st, GroupSetAttr(g, a));
      Woven(st'.topo, st'.forest) && LiveGroup(st'.forest, g)
      && Rearranged(st'.topo, st'.forest, st.places, st'.places, g, ps)
  {
    var r := Arrange(st.topo, a);
    RetagWoven(st, g, a);
    StillShaped(st.topo, st.forest, Retag(st.forest, g, r.attribute, r.s), st.places);
    ps := ReplaceInTurn(st.topo, Retag(st.forest, g, r.attribute, r.s), st.places, g);
  }
}
