/** What holds after any run of API calls. */
module Theorems {
  import opened CpuSet
  import opened Topology
  import opened Allocator
  import opened Library
  import opened Api
  import opened Containment
  import opened Frames
  import opened Ledger
  import opened Runs
  import opened Order
  import D = Detach

  /** One call the original survives. */
  ghost predicate Step(st: State, call: Call, st': State) { Usable(st) && Defined(st, call) && st' == After(st, call) }

  ghost predicate Run(sts: seq<State>, calls: seq<Call>) {
    |sts| == |calls| + 1 && forall i {:trigger calls[i]} | 0 <= i < |calls| :: Step(sts[i], calls[i], sts[i + 1])
  }

  lemma RunOn(sts: seq<State>, calls: seq<Call>, call: Call, st: State)
    requires Run(sts, calls) && Step(sts[|calls|], call, st)
    ensures Run(sts + [st], calls + [call])
  {
    var sts', calls' := sts + [st], calls + [call];
    forall i | 0 <= i < |calls'|
      ensures Step(sts'[i], calls'[i], sts'[i + 1])
    {
      if i < |calls| { assert Step(sts[i], calls[i], sts[i + 1]); }
    }
  }

  lemma {:induction false} RunBase(sts: seq<State>, calls: seq<Call>, k: nat)
    requires Run(sts, calls) && k < |sts| && Base(sts[0])
    ensures Base(sts[k])
  {
    if k > 0 {
      RunBase(sts, calls, k - 1);
      StepBase(sts[k - 1], calls[k - 1]);
    }
  }

  /** After any run, each CPU's load is the sum of ceil(n / |cpus|) over the live threads on it, and T
      live threads load the machine with at least T*n and at most T*(2n - 1). */
  lemma RunLedger(topo: Topo, threads: nat, groups: nat, sts: seq<State>, calls: seq<Call>)
    requires Regular(topo) && Run(sts, calls) && sts[0] == Initial(topo, threads, groups)
    ensures var p, n := sts[|calls|].places, |sts[|calls|].places.loads|;
      && (forall c: nat | c < n :: p.loads[c] == LoadSum(n, p.seats, c))
      && var live := Living(sts[|calls|].forest.threads);
         live * n <= SumLoads(p.loads, 0, n) <= live * (2 * n - 1)
  {
    InitialBase(topo, threads, groups);
    RunBase(sts, calls, |calls|);
    TotalLoad(sts[|calls|].places);
    LivingPresent(sts[|calls|].forest.threads, sts[|calls|].places.seats);
  }

  /** How many threads are live. */
  function Living(ts: seq<Slot>): nat {
    if ts == [] then 0 else Living(ts[..|ts| - 1]) + if ts[|ts| - 1].Live? then 1 else 0
  }

  /** The live threads are those with CPUs. */
  lemma {:induction false} LivingPresent(ts: seq<Slot>, seats: seq<Seat>)
    requires |ts| == |seats| && forall i | 0 <= i < |ts| :: ts[i].Live? <==> seats[i].cpus != {}
    ensures Living(ts) == Present(seats)
  {
    if ts != [] { LivingPresent(ts[..|ts| - 1], seats[..|seats| - 1]); }
  }

  // -------- runs of orderly calls --------

  /** The first `k` calls are orderly. */
  ghost predicate OrderlyRun(sts: seq<State>, calls: seq<Call>, k: nat)
    requires Run(sts, calls)
  {
    k <= |calls| && forall i | 0 <= i < k :: Orderly(sts[i], calls[i])
  }

  lemma {:induction false} RunInv(sts: seq<State>, calls: seq<Call>, k: nat)
    requires Run(sts, calls) && Inv(sts[0]) && OrderlyRun(sts, calls, k)
    ensures Inv(sts[k])
  {
    if k > 0 {
      RunInv(sts, calls, k - 1);
      StepInv(sts[k - 1], calls[k - 1]);
    }
  }

  /** The library is in order after every call of a run if and only if every call is orderly. */
  lemma OrderKept(sts: seq<State>, calls: seq<Call>)
    requires Run(sts, calls) && Inv(sts[0])
    ensures (forall k | 0 <= k < |sts| :: Inv(sts[k])) <==> OrderlyRun(sts, calls, |calls|)
  {
    if OrderlyRun(sts, calls, |calls|) {
      forall k | 0 <= k < |sts|
        ensures Inv(sts[k])
      {
        RunInv(sts, calls, k);
      }
    }
    if forall k | 0 <= k < |sts| :: Inv(sts[k]) {
      forall i | 0 <= i < |calls|
        ensures Orderly(sts[i], calls[i])
      {
        assert Inv(sts[i]) && Inv(sts[i + 1]);
        StepInv(sts[i], calls[i]);
      }
    }
  }

  /** The documented ranges: the group owns one aligned block of its father's CPUs, of the father's granularity, and
      its threads run on some CPUs, all of them the group's. */
  ghost predicate InPlace(st: State, g: nat)
    requires Fit(st.forest, st.places) && Linked(st.forest) && LiveGroup(st.forest, g)
  {
    var f, p := st.forest, st.places;
    && (NodeOf(f, g).father.Some? ==>
          var h := NodeOf(f, g).father.value;
          IsBlock(p.claims[g].total, NodeOf(f, h).s) && p.claims[g].total <= p.claims[h].total)
    && (forall u | u in NodeOf(f, g).threads ::
          u < |p.seats| && p.seats[u].cpus != {} && p.seats[u].cpus <= p.claims[g].total)
  }

  /** After any run of orderly calls every group and every member thread is in its range. */
  lemma RunContainment(topo: Topo, threads: nat, groups: nat, sts: seq<State>, calls: seq<Call>, g: nat)
    requires Regular(topo) && Run(sts, calls) && OrderlyRun(sts, calls, |calls|)
    requires sts[0] == Initial(topo, threads, groups)
    requires LiveGroup(sts[|calls|].forest, g)
    ensures var st := sts[|calls|]; Fit(st.forest, st.places) && Linked(st.forest) && InPlace(st, g)
  {
    InitialInv(topo, threads, groups);
    RunInv(sts, calls, |calls|);
    InvInPlace(sts[|calls|], g);
  }

  lemma InvInPlace(st: State, g: nat)
    requires Inv(st) && LiveGroup(st.forest, g)
    ensures InPlace(st, g)
  {
    assert Placed(st.forest, st.places, g);
    forall u | u in NodeOf(st.forest, g).threads
      ensures u < |st.places.seats| && st.places.seats[u].cpus != {}
      ensures st.places.seats[u].cpus <= st.places.claims[g].total
    {
      assert SeatOk(ModeOf(NodeOf(st.forest, g)), st.places.seats[u], st.places.claims[g].total);
    }
  }

  // -------- groups without father --------

  /** Every group without father covers the whole machine. */
  ghost predicate RootsWhole(st: State)
    requires Fit(st.forest, st.places)
  {
    forall g: nat | LiveGroup(st.forest, g) && NodeOf(st.forest, g).father == None ::
      st.places.claims[g].total == AllCpus(|st.places.loads|)
  }

  /** A call that takes a group out of a father that hands out less than the machine. */
  ghost predicate Orphans(st: State, call: Call)
    requires Usable(st)
  {
    call.GroupDetach? && DetachGroup(st, call.g, call.h).Done? && NodeOf(st.forest, call.h).s < st.topo.n
  }

  /** A re-placed root covers the machine, and the others keep their CPUs. */
  lemma ReplaceRoots(t: Topo, f: Forest, p: Places, g: nat)
    requires Woven(t, f) && Fit(f, p) && LiveGroup(f, g) && |p.loads| == t.n
    requires forall x: nat | LiveGroup(f, x) && x != g && NodeOf(f, x).father == None ::
      p.claims[x].total == AllCpus(t.n)
    ensures RootsWhole(State(t, f, Replace(t, f, p, g)))
  {
    assert Knit(t, f, g);
    ReplaceTotal(t, f, p, g);
    forall x: nat | LiveGroup(f, x) && NodeOf(f, x).father == None
      ensures Replace(t, f, p, g).claims[x].total == AllCpus(t.n)
    {
      if x != g {
        if Under(f, x, g) { UnderStep(f, x, g); }
        ReplaceKeeps(t, f, p, g, x);
      }
    }
  }

  lemma AllOfThem(t: Topo, x: set<nat>, s: nat)
    requires Regular(t) && IsBlock(x, s) && InRange(x, t.n) && IsLevel(t, s)
    ensures x == AllCpus(t.n) <==> s == t.n
  {
    var a: nat :| a % s == 0 && x == Block(a, s);
    BlockCard(a, s);
    BlockCard(0, t.n);
    if s == t.n { SubsetCard(x, AllCpus(t.n)); }
  }

  lemma DetachRoots(st: State, g: nat, h: nat)
    requires Inv(st) && RootsWhole(st) && DetachGroup(st, g, h).Done?
    ensures var st' := DetachGroup(st, g, h).st;
      Fit(st'.forest, st'.places) && (RootsWhole(st') <==> NodeOf(st.forest, h).s == st.topo.n)
  {
    var t, f, st' := st.topo, st.forest, DetachGroup(st, g, h).st;
    assert NodeOk(t, f, h) && NodeOk(t, f, g) && Placed(f, st.places, g);
    LeaveGroupBase(st, g, h);
    DropGroupLists(f, g, h);
    LevelOf(t, f, h);
    AllOfThem(t, st.places.claims[g].total, NodeOf(f, h).s);
  }

  lemma AttachRoots(st: State, g: nat, h: nat)
    requires Base(st) && RootsWhole(st) && AttachGroup(st, g, h).Done?
    ensures var st' := AttachGroup(st, g, h).st; Fit(st'.forest, st'.places) && RootsWhole(st')
  {
    AddGroupWoven(st.topo, st.forest, g, h);
    AddGroupLists(st.forest, g, h);
    ReplaceRoots(st.topo, AddGroup(st.forest, g, h), st.places, g);
  }

  lemma SetAttributeRoots(st: State, g: nat, a: bv64)
    requires Base(st) && RootsWhole(st) && SetAttribute(st, g, a).Done?
    ensures var st' := SetAttribute(st, g, a).st; Fit(st'.forest, st'.places) && RootsWhole(st')
  {
    var r := Arrange(st.topo, a);
    RetagWoven(st, g, a);
    ReplaceRoots(st.topo, Retag(st.forest, g, r.attribute, r.s), st.places, g);
  }

  lemma DestroyRoots(st: State, g: nat)
    requires Base(st) && RootsWhole(st) && DestroyGroup(st, g).Done?
    ensures var st' := DestroyGroup(st, g).st; Fit(st'.forest, st'.places) && RootsWhole(st')
  {
    var f := st.forest;
    assert Knit(st.topo, f, g);
    if NodeOf(f, g).father.Some? { DropGroupLists(f, g, NodeOf(f, g).father.value); }
    SameRoots(st, DestroyGroup(st, g).st);
  }

  /** Whoever is live and without father afterwards was so before, with the same CPUs, or has all of them. */
  lemma SameRoots(st: State, st': State)
    requires Fit(st.forest, st.places) && Fit(st'.forest, st'.places) && RootsWhole(st)
    requires |st'.places.loads| == |st.places.loads|
    requires forall x: nat | LiveGroup(st'.forest, x) && NodeOf(st'.forest, x).father == None ::
               || st'.places.claims[x].total == AllCpus(|st.places.loads|)
               || (LiveGroup(st.forest, x) && NodeOf(st.forest, x).father == None
                  && st'.places.claims[x].total == st.places.claims[x].total)
    ensures RootsWhole(st')
  {
  }

  lemma JoinRoots(st: State, u: nat)
    requires Base(st) && RootsWhole(st) && JoinThread(st, u).Done?
    ensures var st' := JoinThread(st, u).st; Fit(st'.forest, st'.places) && RootsWhole(st')
  {
    assert SlotOk(st.forest, u);
    SameRoots(st, JoinThread(st, u).st);
  }

  lemma SeatRoots(st: State, u: nat, g: nat)
    requires Base(st) && RootsWhole(st) && AttachThread(st, u, g).Done?
    ensures var st' := AttachThread(st, u, g).st; Fit(st'.forest, st'.places) && RootsWhole(st')
  {
    assert Knit(st.topo, st.forest, g);
    SameRoots(st, AttachThread(st, u, g).st);
  }

  lemma ThreadRoots(st: State, call: Call)
    requires Base(st) && RootsWhole(st) && Defined(st, call) && Perform(st, call).Done?
    requires call.ThreadCreate? || call.ThreadJoin? || call.ThreadAttach? || call.ThreadDetach? || call.GroupCreate?
    ensures Fit(After(st, call).forest, After(st, call).places) && RootsWhole(After(st, call))
  {
    match call
    case ThreadJoin(u) => JoinRoots(st, u);
    case ThreadAttach(u, g) => SeatRoots(st, u, g);
    case ThreadDetach(u, g) => SameRoots(st, DetachThread(st, u, g).st);
    case ThreadCreate(affinity) => SameRoots(st, CreateThread(st, affinity).st);
    case GroupCreate => SameRoots(st, CreateGroup(st).st);
  }

  /** A group without father covers all CPUs until it leaves a father that hands out less: the only call that
      breaks it, and no other call does. */
  lemma RootsKept(st: State, call: Call)
    requires Inv(st) && RootsWhole(st) && Defined(st, call)
    ensures Fit(After(st, call).forest, After(st, call).places)
    ensures RootsWhole(After(st, call)) <==> !Orphans(st, call)
  {
    StepBase(st, call);
    match call
    case GroupDetach(g, h) =>
      if DetachGroup(st, g, h).Done? {
        DetachRoots(st, g, h);
        LevelOf(st.topo, st.forest, h);
        LevelBelow(NodeOf(st.forest, h).s, st.topo.n);
      }
    case GroupAttach(g, h) => if AttachGroup(st, g, h).Done? { AttachRoots(st, g, h); }
    case GroupSetAttr(g, a) => if SetAttribute(st, g, a).Done? { SetAttributeRoots(st, g, a); }
    case GroupDestroy(g) => if DestroyGroup(st, g).Done? { DestroyRoots(st, g); }
    case _ => if Perform(st, call).Done? { ThreadRoots(st, call); }
  }

  lemma {:induction false} RunRoots(sts: seq<State>, calls: seq<Call>, k: nat)
    requires Run(sts, calls) && Inv(sts[0]) && RootsWhole(sts[0]) && OrderlyRun(sts, calls, k)
    requires forall i | 0 <= i < k :: !Orphans(sts[i], calls[i])
    ensures Inv(sts[k]) && RootsWhole(sts[k])
  {
    if k > 0 {
      RunRoots(sts, calls, k - 1);
      assert Step(sts[k - 1], calls[k - 1], sts[k]);
      StepInv(sts[k - 1], calls[k - 1]);
      RootsKept(sts[k - 1], calls[k - 1]);
    }
  }

  lemma LevelBelow(s: int, n: int)
    requires Divides(s, n) && n > 0
    ensures s <= n
  {
    if s > n { NoBackward(n, s); }
  }

  // -------- the group graph is a forest --------

  /** In a forest in order no group is its own ancestor. */
  lemma Acyclic(t: Topo, f: Forest, path: seq<nat>)
    requires WellFormed(t, f) && Climb(f, path) && |path| > 1
    ensures path[0] != path[|path| - 1]
  {
    ClimbGrows(t, f, path, 0, |path| - 1);
  }

  /** There, attaching a group below one of its descendants is refused. */
  lemma DescendantRefused(st: State, g: nat, h: nat, path: seq<nat>)
    requires Inv(st) && Climb(st.forest, path) && |path| > 1 && path[0] == h && path[|path| - 1] == g
    ensures AttachGroup(st, g, h).Fail?
  {
    ClimbGrows(st.topo, st.forest, path, 0, |path| - 1);
  }

  // -------- every group keeps an unclaimed CPU --------

  ghost predicate Roomy(st: State)
    requires Fit(st.forest, st.places)
  {
    forall g: nat | LiveGroup(st.forest, g) :: Ready(st.places.claims[g])
  }

  /** The member leaving sits on exactly the CPUs that are unclaimed. */
  ghost predicate ThreadExhausts(st: State, u: nat, g: nat)
    requires Fit(st.forest, st.places) && LiveThread(st.forest, u) && LiveGroup(st.forest, g)
  {
    var m, c := ModeOf(NodeOf(st.forest, g)), st.places.claims[g];
    !(m.compact && !m.perCpu) && c.used != {} && st.places.seats[u].cpus == Free(c)
  }

  ghost predicate GroupExhausts(st: State, g: nat, h: nat)
    requires Fit(st.forest, st.places) && LiveGroup(st.forest, g) && LiveGroup(st.forest, h)
  {
    var c := st.places.claims[h];
    c.used != {} && st.places.claims[g].total == Free(c)
  }

  /** The calls that leave some group without an unclaimed CPU. */
  ghost predicate Exhausts(st: State, call: Call)
    requires Usable(st)
  {
    var f := st.forest;
    match call
    case ThreadJoin(u) =>
      LiveThread(f, u) && f.threads[u].group.Some? &&
      (assert SlotOk(f, u); ThreadExhausts(st, u, f.threads[u].group.value))
    case ThreadDetach(u, g) =>
      LiveThread(f, u) && LiveGroup(f, g) && u in NodeOf(f, g).threads && ThreadExhausts(st, u, g)
    case GroupDestroy(g) =>
      LiveGroup(f, g) && DestroyGroup(st, g).Done? && NodeOf(f, g).father.Some? &&
      (assert Knit(st.topo, f, g); GroupExhausts(st, g, NodeOf(f, g).father.value))
    case GroupDetach(g, h) => LiveGroup(f, g) && LiveGroup(f, h) && g in NodeOf(f, h).groups && GroupExhausts(st, g, h)
    case _ => false
  }

  lemma GroupReleaseExhausts(c: Claims, x: set<nat>)
    requires c.used <= c.total && x != {} && x <= c.total
    ensures !Ready(ReleaseGroup(c, x)) <==> c.used != {} && x == Free(c)
  {
    var d :| d in x;
    D.DetachExhausts(Mode(1, true, true), c, Seat(d, x));
  }

  /** If only group `g`'s bookkeeping changed, only `g` can have run out of room. */
  lemma RoomyAt(st: State, st': State, g: nat)
    requires Fit(st.forest, st.places) && Fit(st'.forest, st'.places) && Roomy(st)
    requires LiveGroup(st'.forest, g) && |st'.forest.groups| == |st.forest.groups|
    requires forall x: nat | LiveGroup(st'.forest, x) :: LiveGroup(st.forest, x)
    requires forall x: nat | x < |st.places.claims| && x != g :: st'.places.claims[x] == st.places.claims[x]
    ensures Roomy(st') <==> Ready(st'.places.claims[g])
  {
  }

  lemma LeaveRoomy(st: State, u: nat, g: nat)
    requires Fit(st.forest, st.places) && Roomy(st) && LiveThread(st.forest, u) && LiveGroup(st.forest, g)
    requires SeatOk(ModeOf(NodeOf(st.forest, g)), st.places.seats[u], st.places.claims[g].total)
    requires st.places.claims[g].used <= st.places.claims[g].total
    ensures Roomy(Leave(st, u, g)) <==> !ThreadExhausts(st, u, g)
  {
    D.DetachExhausts(ModeOf(NodeOf(st.forest, g)), st.places.claims[g], st.places.seats[u]);
    RoomyAt(st, Leave(st, u, g), g);
  }

  lemma LeaveGroupRoomy(st: State, g: nat, h: nat)
    requires Fit(st.forest, st.places) && Roomy(st) && LiveGroup(st.forest, g) && LiveGroup(st.forest, h)
    requires st.places.claims[g].total != {} && st.places.claims[g].total <= st.places.claims[h].total
    requires st.places.claims[h].used <= st.places.claims[h].total
    ensures Roomy(LeaveGroup(st, g, h)) <==> !GroupExhausts(st, g, h)
  {
    GroupReleaseExhausts(st.places.claims[h], st.places.claims[g].total);
    RoomyAt(st, LeaveGroup(st, g, h), h);
  }

  lemma ReplaceRoomy(t: Topo, f: Forest, p: Places, g: nat)
    requires WellFormed(t, f) && Linked(f) && Fit(f, p) && |p.loads| == t.n && LiveGroup(f, g)
    requires forall x: nat | LiveGroup(f, x) :: Ready(p.claims[x])
    requires PlacedBut(f, p, Elems(NodeOf(f, g).groups) + {g})
    ensures Roomy(State(t, f, Replace(t, f, p, g)))
  {
    MembersApart(t, f, g);
    ReplacePlaced(t, f, p, g, Elems(NodeOf(f, g).groups));
  }

  lemma MembersApart(t: Topo, f: Forest, g: nat)
    requires WellFormed(t, f) && LiveGroup(f, g)
    ensures var members := Elems(NodeOf(f, g).groups);
      g !in members && (NodeOf(f, g).father.Some? ==> NodeOf(f, g).father.value !in members)
  {
    assert NodeOk(t, f, g);
    forall c | c in NodeOf(f, g).groups
      ensures LiveGroup(f, c) && NodeOf(f, c).s < NodeOf(f, g).s
    {
      assert NodeOk(t, f, c);
    }
  }

  lemma ThreadCallsRoomy(st: State, call: Call)
    requires Inv(st) && Roomy(st) && Defined(st, call) && (call.ThreadJoin? || call.ThreadDetach?)
    ensures Fit(After(st, call).forest, After(st, call).places)
    ensures Roomy(After(st, call)) <==> !Exhausts(st, call)
  {
    var f, p, u := st.forest, st.places, call.u;
    StepInv(st, call);
    if LiveThread(f, u) && f.threads[u].group.Some? {
      var g := f.threads[u].group.value;
      assert SlotOk(f, u) && NodeOk(st.topo, f, g) && Placed(f, p, g);
      LeaveRoomy(st, u, g);
      if call.ThreadDetach? && LiveGroup(f, call.g) && u in NodeOf(f, call.g).threads {
        assert NodeOk(st.topo, f, call.g);
      }
    } else if call.ThreadDetach? && LiveGroup(f, call.g) {
      assert NodeOk(st.topo, f, call.g);
    }
  }

  lemma DetachGroupRoomy(st: State, g: nat, h: nat)
    requires Inv(st) && Roomy(st) && DetachGroup(st, g, h).Done?
    ensures Roomy(DetachGroup(st, g, h).st) <==> !GroupExhausts(st, g, h)
  {
    assert NodeOk(st.topo, st.forest, h) && NodeOk(st.topo, st.forest, g);
    assert Placed(st.forest, st.places, g) && Placed(st.forest, st.places, h);
    LeaveGroupRoomy(st, g, h);
  }

  lemma FreeGroupRoomy(st: State, g: nat)
    requires Fit(st.forest, st.places) && LiveGroup(st.forest, g)
    ensures Fit(FreeGroup(st, g).forest, FreeGroup(st, g).places)
    ensures Ready(st.places.claims[g]) ==> (Roomy(FreeGroup(st, g)) <==> Roomy(st))
  {
    var st' := FreeGroup(st, g);
    assert forall x: nat | LiveGroup(st'.forest, x) ::
      LiveGroup(st.forest, x) && st'.places.claims[x] == st.places.claims[x];
    assert forall x: nat | LiveGroup(st.forest, x) && x != g ::
      LiveGroup(st'.forest, x) && st'.places.claims[x] == st.places.claims[x];
  }

  lemma DestroyGroupRoomy(st: State, g: nat)
    requires Inv(st) && Roomy(st) && DestroyGroup(st, g).Done?
    ensures Fit(DestroyGroup(st, g).st.forest, DestroyGroup(st, g).st.places)
    ensures Roomy(DestroyGroup(st, g).st) <==> !Exhausts(st, GroupDestroy(g))
  {
    var f := st.forest;
    assert Knit(st.topo, f, g);
    match NodeOf(f, g).father
    case None => FreeGroupRoomy(st, g);
    case Some(h) =>
      assert Placed(f, st.places, g) && Placed(f, st.places, h);
      LeaveGroupRoomy(st, g, h);
      FreeGroupRoomy(LeaveGroup(st, g, h), g);
  }

  lemma PlacingCallsRoomy(st: State, call: Call)
    requires Inv(st) && Roomy(st) && Defined(st, call)
    requires call.ThreadCreate? || call.ThreadAttach? || call.GroupCreate?
    ensures Fit(After(st, call).forest, After(st, call).places)
    ensures Roomy(After(st, call))
  {
    StepInv(st, call);
    if Perform(st, call).Done? {
      match call
      case ThreadCreate(_) =>
      case ThreadAttach(u, g) =>
        assert Placed(st.forest, st.places, g);
        SeatThreadInside(ModeOf(NodeOf(st.forest, g)), st.places, g, u);
        RoomyAt(st, After(st, call), g);
      case GroupCreate =>
        var g := VacantGroup(st.forest.groups, 0);
        RootHoused(st.topo, After(st, call).forest, g);
    }
  }

  lemma GraftRoomy(st: State, g: nat, h: nat)
    requires Inv(st) && Roomy(st) && AttachGroup(st, g, h).Done?
    ensures Fit(AttachGroup(st, g, h).st.forest, AttachGroup(st, g, h).st.places)
    ensures Roomy(AttachGroup(st, g, h).st)
  {
    GraftPlaced(st, g, h);
    ReplaceRoomy(st.topo, AddGroup(st.forest, g, h), st.places, g);
  }

  lemma SetAttributeRoomy(st: State, g: nat, a: bv64)
    requires Inv(st) && Roomy(st) && SetAttribute(st, g, a).Done? && Nests(st, g, Arrange(st.topo, a).s)
    ensures var st' := SetAttribute(st, g, a).st; Fit(st'.forest, st'.places) && Roomy(st')
  {
    var r := Arrange(st.topo, a);
    var f' := Retag(st.forest, g, r.attribute, r.s);
    RetagPlaced(st, g, a);
    RetagWf(st, g, a);
    ReplaceRoomy(st.topo, f', st.places, g);
  }

  /** From a state where every group has an unclaimed CPU, a call leads to one where some group has
      none exactly when the leaving member sits on all the unclaimed CPUs of its group. */
  lemma RoomLost(st: State, call: Call)
    requires Inv(st) && Roomy(st) && Defined(st, call) && Orderly(st, call)
    ensures Fit(After(st, call).forest, After(st, call).places)
    ensures Roomy(After(st, call)) <==> !Exhausts(st, call)
  {
    StepInv(st, call);
    match call
    case ThreadCreate(_) => PlacingCallsRoomy(st, call);
    case ThreadAttach(_, _) => PlacingCallsRoomy(st, call);
    case GroupCreate => PlacingCallsRoomy(st, call);
    case ThreadJoin(_) => ThreadCallsRoomy(st, call);
    case ThreadDetach(_, _) => ThreadCallsRoomy(st, call);
    case GroupDestroy(g) => if DestroyGroup(st, g).Done? { DestroyGroupRoomy(st, g); }
    case GroupDetach(g, h) => if DetachGroup(st, g, h).Done? { DetachGroupRoomy(st, g, h); }
    case GroupSetAttr(g, a) => if SetAttribute(st, g, a).Done? { SetAttributeRoomy(st, g, a); }
    case GroupAttach(g, h) => if AttachGroup(st, g, h).Done? { GraftRoomy(st, g, h); }
  }

  /** The first `k` calls are orderly, and none of them uses up a group's CPUs. */
  ghost predicate SparingRun(sts: seq<State>, calls: seq<Call>, k: nat)
    requires Run(sts, calls)
  {
    k <= |calls| && forall i | 0 <= i < k :: Orderly(sts[i], calls[i]) && !Exhausts(sts[i], calls[i])
  }

  lemma {:induction false} RunRoomy(sts: seq<State>, calls: seq<Call>, k: nat)
    requires Run(sts, calls) && Inv(sts[0]) && Roomy(sts[0]) && SparingRun(sts, calls, k)
    ensures Inv(sts[k]) && Roomy(sts[k])
  {
    if k > 0 {
      RunRoomy(sts, calls, k - 1);
      StepInv(sts[k - 1], calls[k - 1]);
      RoomLost(sts[k - 1], calls[k - 1]);
    }
  }

  /** As long as no call exhausts a group, attaching a thread or a group always finds a place inside. */
  lemma RunNeverStuck(topo: Topo, threads: nat, groups: nat, sts: seq<State>, calls: seq<Call>, u: nat, g: nat)
    requires Regular(topo) && Run(sts, calls) && sts[0] == Initial(topo, threads, groups)
    requires SparingRun(sts, calls, |calls|)
    ensures var st := sts[|calls|];
      && Usable(st) && Defined(st, ThreadAttach(u, g))
      && Orderly(st, ThreadAttach(u, g)) && Orderly(st, GroupAttach(u, g))
  {
    InitialInv(topo, threads, groups);
    RunRoomy(sts, calls, |calls|);
  }

  // -------- runs that only build up --------

  /** Create, attach, and attributes of groups that have neither father nor child groups. */
  ghost predicate Builds(st: State, call: Call) {
    match call
    case ThreadCreate(_) => true
    case ThreadAttach(_, _) => true
    case GroupCreate => true
    case GroupAttach(_, _) => true
    case GroupSetAttr(g, _) =>
      LiveGroup(st.forest, g) ==> NodeOf(st.forest, g).father == None && NodeOf(st.forest, g).groups == []
    case _ => false
  }

  lemma BuildingSpares(st: State, call: Call)
    requires Inv(st) && Roomy(st) && Defined(st, call) && Builds(st, call)
    ensures Orderly(st, call) && !Exhausts(st, call)
  {
    if call.GroupSetAttr? && SetAttribute(st, call.g, call.attribute).Done? {
      assert MaxChild(st.forest, NodeOf(st.forest, call.g).groups) == 0;
      ArrangedLevel(st.topo, call.attribute);
    }
  }

  lemma {:induction false} BuildingRun(sts: seq<State>, calls: seq<Call>, k: nat)
    requires Run(sts, calls) && Inv(sts[0]) && Roomy(sts[0]) && k <= |calls|
    requires forall i | 0 <= i < |calls| :: Builds(sts[i], calls[i])
    ensures SparingRun(sts, calls, k)
  {
    if k > 0 {
      BuildingRun(sts, calls, k - 1);
      BuildingOn(sts, calls, k - 1);
    }
  }

  lemma BuildingOn(sts: seq<State>, calls: seq<Call>, k: nat)
    requires Run(sts, calls) && Inv(sts[0]) && Roomy(sts[0]) && SparingRun(sts, calls, k) && k < |calls|
    requires Builds(sts[k], calls[k])
    ensures SparingRun(sts, calls, k + 1)
  {
    RunRoomy(sts, calls, k);
    assert Step(sts[k], calls[k], sts[k + 1]);
    BuildingSpares(sts[k], calls[k]);
  }

  /** Without any further condition: after a run of such calls every group and every member thread is in its range,
      and the next thread or group attached gets a place inside. */
  lemma BuildingContained(topo: Topo, threads: nat, groups: nat, sts: seq<State>, calls: seq<Call>, u: nat, g: nat)
    requires Regular(topo) && Run(sts, calls) && sts[0] == Initial(topo, threads, groups)
    requires (forall i | 0 <= i < |calls| :: Builds(sts[i], calls[i])) && LiveGroup(sts[|calls|].forest, g)
    ensures var st := sts[|calls|]; Fit(st.forest, st.places) && Linked(st.forest) && InPlace(st, g)
    ensures var st := sts[|calls|];
      Usable(st) && Defined(st, ThreadAttach(u, g)) && Orderly(st, ThreadAttach(u, g)) && Orderly(st, GroupAttach(u, g))
  {
    InitialInv(topo, threads, groups);
    BuildingRun(sts, calls, |calls|);
    RunRoomy(sts, calls, |calls|);
    InvInPlace(sts[|calls|], g);
    RunNeverStuck(topo, threads, groups, sts, calls, u, g);
  }

  // -------- detaching a process --------

  /** `wayca_sc_pid_detach_thread`: the thread leaves its group, and its load is taken off twice, once here and
      once when it is freed. */
  ghost function PidDetach(st: State, u: nat): State
    requires Usable(st) && LiveThread(st.forest, u)
  {
    assert SlotOk(st.forest, u);
    var group := st.forest.threads[u].group;
    var st1 := if group.Some? then Leave(st, u, group.value) else st;
    FreeThread(st1.(places := st1.places.(loads := SubLoad(st1.places.loads, st1.places.seats[u].cpus))), u)
  }

  /** So the ledger is short by the thread's load on each of its CPUs and exact on the others. */
  lemma PidDetachUnbalances(st: State, u: nat, c: nat)
    requires Base(st) && LiveThread(st.forest, u) && c < st.topo.n
    ensures var p, n, cpus := PidDetach(st, u).places, st.topo.n, st.places.seats[u].cpus;
      && p.loads[c] == LoadSum(n, p.seats, c) - Share(n, cpus, c)
      && (p.loads[c] == LoadSum(n, p.seats, c) <==> c !in cpus)
  {
    var p, n, cpus := st.places, st.topo.n, st.places.seats[u].cpus;
    assert SlotOk(st.forest, u);
    LoadSumUpdate(n, p.seats, u, NOBODY, c);
    if c in cpus {
      SubsetCard({c}, cpus);
      CeilAtLeastOne(n, |cpus|);
    }
  }

  lemma CeilAtLeastOne(n: nat, k: nat)
    requires n > 0 && k > 0
    ensures (n + k - 1) / k >= 1
  {
  }
}
