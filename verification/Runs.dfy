/** The API calls as steps of a run, and what every one of them keeps. */
module Runs {
  import opened CpuSet
  import opened Topology
  import opened Allocator
  import opened Library
  import opened Api
  import opened Containment
  import opened Frames
  import opened Ledger

  datatype Call =
    | ThreadCreate(affinity: set<nat>)
    | ThreadJoin(u: nat)
    | ThreadAttach(u: nat, g: nat)
    | ThreadDetach(u: nat, g: nat)
    | GroupCreate
    | GroupDestroy(g: nat)
    | GroupSetAttr(g: nat, attribute: bv64)
    | GroupAttach(g: nat, h: nat)
    | GroupDetach(g: nat, h: nat)

  /** The calls the original survives: it does not search the CPUs of a group of single CPUs that has none
      unclaimed, does not lock one mutex twice, and starts threads somewhere on the machine. */
  ghost predicate Defined(st: State, call: Call)
    requires Usable(st)
  {
    var f, p := st.forest, st.places;
    match call
    case ThreadCreate(affinity) => affinity != {} && InRange(affinity, st.topo.n)
    case ThreadAttach(u, g) => AttachThread(st, u, g).Done? ==> Ready(p.claims[g]) || NodeOf(f, g).s > 1
    case GroupAttach(g, h) => g == h && LiveGroup(f, g) ==> NodeOf(f, g).father.Some?
    case GroupDetach(g, h) => g == h ==> !LiveGroup(f, g)
    case _ => true
  }

  ghost function Perform(st: State, call: Call): Outcome
    requires Usable(st) && Defined(st, call)
  {
    match call
    case ThreadCreate(affinity) => CreateThread(st, affinity)
    case ThreadJoin(u) => JoinThread(st, u)
    case ThreadAttach(u, g) => AttachThread(st, u, g)
    case ThreadDetach(u, g) => DetachThread(st, u, g)
    case GroupCreate => CreateGroup(st)
    case GroupDestroy(g) => DestroyGroup(st, g)
    case GroupSetAttr(g, a) => SetAttribute(st, g, a)
    case GroupAttach(g, h) => AttachGroup(st, g, h)
    case GroupDetach(g, h) => DetachGroup(st, g, h)
  }

  /** The state after a call: a failed call changes nothing. */
  ghost function After(st: State, call: Call): State
    requires Usable(st) && Defined(st, call)
  {
    match Perform(st, call)
    case Fail(_) => st
    case Done(st') => st'
  }

  /** Live threads run on some CPUs of the machine, vacant slots hold nobody. */
  ghost predicate SeatsOk(st: State)
    requires Fit(st.forest, st.places)
  {
    forall u: nat | u < |st.places.seats| ::
      && InRange(st.places.seats[u].cpus, |st.places.loads|)
      && if LiveThread(st.forest, u) then st.places.seats[u].cpus != {} else st.places.seats[u] == NOBODY
  }

  /** `x` is one region of a topology level. */
  ghost predicate IsRegion(t: Topo, x: set<nat>, a: nat, k: nat) {
    IsLevel(t, k) && a % k == 0 && a + k <= t.n && x == Block(a, k)
  }

  ghost predicate HasShape(t: Topo, x: set<nat>) { exists a: nat, k: nat :: IsRegion(t, x, a, k) }

  /** Every group's CPUs are one region. */
  ghost predicate Shaped(t: Topo, f: Forest, p: Places)
    requires Fit(f, p)
  {
    forall g: nat | LiveGroup(f, g) :: HasShape(t, p.claims[g].total)
  }

  /** What holds in every state of every run: the forest's links agree, each CPU's load is the sum over the live
      threads on it, live threads run somewhere on the machine, and groups own regions. */
  ghost predicate Base(st: State) {
    Usable(st) && Balanced(st.places) && SeatsOk(st) && Shaped(st.topo, st.forest, st.places)
  }

  /** The state `wayca_thread_init` leaves. */
  function Initial(topo: Topo, threads: nat, groups: nat): State {
    State(topo,
          Forest(seq(groups, _ => None), seq(threads, _ => Vacant)),
          Places(seq(topo.n, _ => 0), seq(groups, _ => NOTHING), seq(threads, _ => NOBODY)))
  }

  lemma {:induction false} LoadSumNobody(n: nat, seats: seq<Seat>, c: nat)
    requires forall i | 0 <= i < |seats| :: seats[i] == NOBODY
    ensures LoadSum(n, seats, c) == 0
  {
    if seats != [] { LoadSumNobody(n, seats[..|seats| - 1], c); }
  }

  lemma InitialBase(topo: Topo, threads: nat, groups: nat)
    requires Regular(topo)
    ensures Base(Initial(topo, threads, groups))
  {
    var st := Initial(topo, threads, groups);
    forall c: nat | c < topo.n
      ensures LoadSum(topo.n, st.places.seats, c) == 0
    {
      LoadSumNobody(topo.n, st.places.seats, c);
    }
  }

  // -------- regions --------

  lemma WholeShape(t: Topo)
    requires Regular(t)
    ensures HasShape(t, AllCpus(t.n))
  {
    DividesEnds(t.n);
    assert IsRegion(t, AllCpus(t.n), 0, t.n);
  }

  lemma ShapeInRange(t: Topo, x: set<nat>)
    requires HasShape(t, x)
    ensures InRange(x, t.n) && x != {}
  {
    var a: nat, k: nat :| IsRegion(t, x, a, k);
    assert a in x;
  }

  /** A live group's bookkeeping can be searched. */
  lemma ShapeWorkable(t: Topo, f: Forest, p: Places, g: nat)
    requires Woven(t, f) && Fit(f, p) && LiveGroup(f, g) && |p.loads| == t.n && HasShape(t, p.claims[g].total)
    ensures Workable(NodeOf(f, g).s, p.claims[g], t.n) && IsLevel(t, NodeOf(f, g).s)
  {
    assert Knit(t, f, g);
    ShapeInRange(t, p.claims[g].total);
    ArrangedLevel(t, NodeOf(f, g).attribute);
    LevelDivides(t, NodeOf(f, g).s);
  }

  /** A block handed out is a region. */
  lemma BlockShape(t: Topo, s: nat, c: Claims, loads: seq<int>)
    requires Regular(t) && |loads| == t.n && Workable(s, c, t.n) && IsLevel(t, s)
    ensures HasShape(t, AimBlock(s, c, loads))
  {
    assert IsRegion(t, AimBlock(s, c, loads), NextBlock(loads, Free(c), s), s);
  }

  lemma RequestShaped(t: Topo, f: Forest, p: Places, g: nat)
    requires Woven(t, f) && Fit(f, p) && LiveGroup(f, g) && |p.loads| == t.n && Shaped(t, f, p)
    requires NodeOf(f, g).father.Some? ==> LiveGroup(f, NodeOf(f, g).father.value)
    ensures Shaped(t, f, Request(f, p, g))
  {
    if NodeOf(f, g).father.Some? {
      var h := NodeOf(f, g).father.value;
      ShapeWorkable(t, f, p, h);
      BlockShape(t, NodeOf(f, h).s, p.claims[h], p.loads);
    } else {
      WholeShape(t);
    }
  }

  lemma SeatThreadsShaped(t: Topo, f: Forest, m: Mode, p: Places, g: nat, ts: seq<nat>)
    requires Fit(f, p) && Shaped(t, f, p) && m.s > 0 && g < |p.claims| && forall i | 0 <= i < |ts| :: ts[i] < |p.seats|
    ensures Shaped(t, f, SeatThreads(m, p, g, ts))
  {
    forall y: nat | LiveGroup(f, y)
      ensures HasShape(t, SeatThreads(m, p, g, ts).claims[y].total)
    {
      SeatThreadsKeepClaims(m, p, g, ts, y);
    }
  }

  /** Re-placing gives out regions only. */
  lemma {:induction false} ReplaceShaped(t: Topo, f: Forest, p: Places, g: nat)
    requires Woven(t, f) && Fit(f, p) && LiveGroup(f, g) && |p.loads| == t.n && Shaped(t, f, p)
    ensures Shaped(t, f, Replace(t, f, p, g))
    decreases NodeOf(f, g).s, 1, 0
  {
    var x, q := NodeOf(f, g), Request(f, p, g);
    assert Knit(t, f, g);
    assert forall i | 0 <= i < |x.threads| :: x.threads[i] in x.threads;
    RequestShaped(t, f, p, g);
    if x.threads != [] {
      SeatThreadsShaped(t, f, ModeOf(x), q, g, x.threads);
    } else {
      ReplaceAllShaped(t, f, q, g, x.groups);
    }
  }

  lemma {:induction false} ReplaceAllShaped(t: Topo, f: Forest, p: Places, g: nat, gs: seq<nat>)
    requires Woven(t, f) && Fit(f, p) && LiveGroup(f, g) && |p.loads| == t.n && Shaped(t, f, p)
    requires forall c | c in gs :: c in NodeOf(f, g).groups
    ensures Shaped(t, f, ReplaceAll(t, f, p, g, gs))
    decreases NodeOf(f, g).s, 0, |gs|
  {
    if gs != [] {
      var gs', c := gs[..|gs| - 1], gs[|gs| - 1];
      assert Knit(t, f, g) && c in gs && Knit(t, f, c);
      ReplaceAllShaped(t, f, p, g, gs');
      if !Refused(f, c) { ReplaceShaped(t, f, ReplaceAll(t, f, p, g, gs'), c); }
    }
  }

  // -------- seats --------

  ghost predicate Seated(p: Places, u: nat)
    requires u < |p.seats|
  {
    p.seats[u].cpus != {}
  }

  lemma {:induction false} SeatThreadsSeated(m: Mode, p: Places, g: nat, ts: seq<nat>, u: nat)
    requires m.s > 0 && g < |p.claims| && u < |p.seats| && (forall i | 0 <= i < |ts| :: ts[i] < |p.seats|)
    requires Seated(p, u)
    ensures Seated(SeatThreads(m, p, g, ts), u)
  {
    if ts != [] {
      SeatThreadsSeated(m, p, g, ts[..|ts| - 1], u);
      var q := SeatThreads(m, p, g, ts[..|ts| - 1]);
      StartFacts(Aim(m, q.claims[g], SubLoad(q.loads, q.seats[ts[|ts| - 1]].cpus)), m.s);
    }
  }

  /** Re-placing leaves no thread without CPUs. */
  lemma {:induction false} ReplaceSeated(t: Topo, f: Forest, p: Places, g: nat, u: nat)
    requires Woven(t, f) && Fit(f, p) && LiveGroup(f, g) && u < |p.seats| && Seated(p, u)
    ensures Seated(Replace(t, f, p, g), u)
    decreases NodeOf(f, g).s, 1, 0
  {
    var x, q := NodeOf(f, g), Request(f, p, g);
    assert Knit(t, f, g);
    assert forall i | 0 <= i < |x.threads| :: x.threads[i] in x.threads;
    if x.threads != [] {
      SeatThreadsSeated(ModeOf(x), q, g, x.threads, u);
    } else {
      ReplaceAllSeated(t, f, q, g, x.groups, u);
    }
  }

  lemma {:induction false} ReplaceAllSeated(t: Topo, f: Forest, p: Places, g: nat, gs: seq<nat>, u: nat)
    requires Woven(t, f) && Fit(f, p) && LiveGroup(f, g) && u < |p.seats| && Seated(p, u)
    requires forall c | c in gs :: c in NodeOf(f, g).groups
    ensures Seated(ReplaceAll(t, f, p, g, gs), u)
    decreases NodeOf(f, g).s, 0, |gs|
  {
    if gs != [] {
      var gs', c := gs[..|gs| - 1], gs[|gs| - 1];
      assert Knit(t, f, g) && c in gs && Knit(t, f, c);
      ReplaceAllSeated(t, f, p, g, gs', u);
      if !Refused(f, c) { ReplaceSeated(t, f, ReplaceAll(t, f, p, g, gs'), c, u); }
    }
  }

  // -------- one call --------

  lemma FreshThreadWoven(t: Topo, f: Forest, u: nat)
    requires Woven(t, f) && u < |f.threads| && f.threads[u].Vacant?
    ensures Woven(t, SetSlot(f, u, None))
  {
    var f' := SetSlot(f, u, None);
    forall x: nat | LiveGroup(f', x)
      ensures Knit(t, f', x)
    {
      assert Knit(t, f, x);
    }
    forall v: nat | LiveThread(f', v)
      ensures SlotOk(f', v)
    {
      if v != u { assert SlotOk(f, v); }
    }
  }

  lemma CreateThreadBase(st: State, affinity: set<nat>)
    requires Base(st) && Defined(st, ThreadCreate(affinity))
    ensures Base(After(st, ThreadCreate(affinity)))
  {
    var f, p := st.forest, st.places;
    var u := VacantThread(f.threads, 0);
    if u < |f.threads| {
      assert p.seats[u] == NOBODY;
      FreshThreadWoven(st.topo, f, u);
      assert SubLoad(p.loads, NOBODY.cpus) == p.loads;
      MoveBalanced(p, u, Seat(0, affinity), p.claims);
    }
  }

  lemma LeaveBase(st: State, u: nat, g: nat)
    requires Base(st) && LiveThread(st.forest, u) && LiveGroup(st.forest, g) && u in NodeOf(st.forest, g).threads
    ensures Base(Leave(st, u, g))
  {
    var st' := Leave(st, u, g);
    DropThreadWoven(st.topo, st.forest, u, g);
    forall x: nat | LiveGroup(st'.forest, x)
      ensures HasShape(st.topo, st'.places.claims[x].total)
    {
      assert LiveGroup(st.forest, x);
    }
  }

  lemma VacateWoven(t: Topo, f: Forest, u: nat)
    requires Woven(t, f) && LiveThread(f, u) && f.threads[u].group == None
    ensures Woven(t, f.(threads := f.threads[u := Vacant]))
  {
    var f' := f.(threads := f.threads[u := Vacant]);
    forall x: nat | LiveGroup(f', x)
      ensures Knit(t, f', x)
    {
      assert Knit(t, f, x);
    }
    forall v: nat | LiveThread(f', v)
      ensures SlotOk(f', v)
    {
      assert SlotOk(f, v);
    }
  }

  lemma FreeThreadBase(st: State, u: nat)
    requires Base(st) && LiveThread(st.forest, u) && st.forest.threads[u].group == None
    ensures Base(FreeThread(st, u))
  {
    var p := st.places;
    VacateWoven(st.topo, st.forest, u);
    MoveBalanced(p, u, NOBODY, p.claims);
    assert AddLoad(SubLoad(p.loads, p.seats[u].cpus), NOBODY.cpus) == SubLoad(p.loads, p.seats[u].cpus);
  }

  lemma JoinThreadBase(st: State, u: nat)
    requires Base(st)
    ensures Base(After(st, ThreadJoin(u)))
  {
    if LiveThread(st.forest, u) {
      assert SlotOk(st.forest, u);
      match st.forest.threads[u].group
      case None => FreeThreadBase(st, u);
      case Some(g) =>
        LeaveBase(st, u, g);
        FreeThreadBase(Leave(st, u, g), u);
    }
  }

  lemma AttachThreadBase(st: State, u: nat, g: nat)
    requires Base(st) && AttachThread(st, u, g).Done?
    ensures Base(AttachThread(st, u, g).st)
  {
    var f, p := st.forest, st.places;
    var st', m := AttachThread(st, u, g).st, ModeOf(NodeOf(f, g));
    assert Knit(st.topo, f, g);
    AddThreadWoven(st.topo, f, u, g);
    SeatThreadBalanced(m, p, g, u);
    LevelOf(st.topo, f, g);
    SeatThreadOnMachine(m, p, g, u);
    StartFacts(Aim(m, p.claims[g], SubLoad(p.loads, p.seats[u].cpus)), m.s);
    forall x: nat | LiveGroup(st'.forest, x)
      ensures HasShape(st.topo, st'.places.claims[x].total)
    {
      assert LiveGroup(f, x);
    }
  }

  lemma LevelOf(t: Topo, f: Forest, g: nat)
    requires Woven(t, f) && LiveGroup(f, g)
    ensures IsLevel(t, NodeOf(f, g).s) && Divides(NodeOf(f, g).s, t.n)
  {
    assert Knit(t, f, g);
    ArrangedLevel(t, NodeOf(f, g).attribute);
    LevelDivides(t, NodeOf(f, g).s);
  }

  lemma FreshGroupWoven(t: Topo, f: Forest, g: nat)
    requires Woven(t, f) && g < |f.groups| && f.groups[g].None?
    ensures Woven(t, SetNode(f, g, DEFAULT))
  {
    var f' := SetNode(f, g, DEFAULT);
    forall x: nat | LiveGroup(f', x)
      ensures Knit(t, f', x)
    {
      if x != g { assert Knit(t, f, x); }
    }
    forall v: nat | LiveThread(f', v)
      ensures SlotOk(f', v)
    {
      assert SlotOk(f, v);
    }
  }

  lemma CreateGroupBase(st: State)
    requires Base(st)
    ensures Base(After(st, GroupCreate))
  {
    var g := VacantGroup(st.forest.groups, 0);
    if g < |st.forest.groups| {
      FreshGroupWoven(st.topo, st.forest, g);
      WholeShape(st.topo);
      var st' := After(st, GroupCreate);
      forall x: nat | LiveGroup(st'.forest, x)
        ensures HasShape(st.topo, st'.places.claims[x].total)
      {
        assert x != g ==> LiveGroup(st.forest, x);
      }
    }
  }

  lemma LeaveGroupBase(st: State, g: nat, h: nat)
    requires Base(st) && LiveGroup(st.forest, g) && LiveGroup(st.forest, h) && g in NodeOf(st.forest, h).groups
    ensures Base(LeaveGroup(st, g, h))
  {
    var st' := LeaveGroup(st, g, h);
    assert Knit(st.topo, st.forest, h) && Knit(st.topo, st.forest, g);
    DropGroupWoven(st.topo, st.forest, g, h);
    forall x: nat | LiveGroup(st'.forest, x)
      ensures HasShape(st.topo, st'.places.claims[x].total)
    {
      assert LiveGroup(st.forest, x);
    }
  }

  lemma RemoveGroupWoven(t: Topo, f: Forest, g: nat)
    requires Woven(t, f) && LiveGroup(f, g) && NodeOf(f, g).father == None && NodeOf(f, g).threads == []
    requires NodeOf(f, g).groups == []
    ensures Woven(t, f.(groups := f.groups[g := None]))
  {
    var f' := f.(groups := f.groups[g := None]);
    forall x: nat | LiveGroup(f', x)
      ensures Knit(t, f', x)
    {
      assert Knit(t, f, x);
    }
    forall v: nat | LiveThread(f', v)
      ensures SlotOk(f', v)
    {
      assert SlotOk(f, v);
    }
  }

  lemma FreeGroupBase(st: State, g: nat)
    requires Base(st) && LiveGroup(st.forest, g) && NodeOf(st.forest, g).father == None
    requires NodeOf(st.forest, g).threads == [] && NodeOf(st.forest, g).groups == []
    ensures Base(FreeGroup(st, g))
  {
    RemoveGroupWoven(st.topo, st.forest, g);
  }

  lemma DestroyGroupBase(st: State, g: nat)
    requires Base(st)
    ensures Base(After(st, GroupDestroy(g)))
  {
    var f := st.forest;
    if DestroyGroup(st, g).Done? {
      assert Knit(st.topo, f, g);
      match NodeOf(f, g).father
      case None => FreeGroupBase(st, g);
      case Some(h) =>
        LeaveGroupBase(st, g, h);
        DropGroupNodes(f, g, h, g);
        FreeGroupBase(LeaveGroup(st, g, h), g);
    }
  }

  lemma SameShape(t: Topo, f: Forest, f': Forest, p: Places)
    requires Fit(f, p) && Fit(f', p) && Shaped(t, f, p) && forall x: nat | LiveGroup(f', x) :: LiveGroup(f, x)
    ensures Shaped(t, f', p)
  {
  }

  /** Re-placing a group keeps all of it, in any forest whose links agree. */
  lemma ReplaceBase(st: State, g: nat)
    requires Base(st) && LiveGroup(st.forest, g)
    ensures Base(st.(places := Replace(st.topo, st.forest, st.places, g)))
  {
    var f, p := st.forest, st.places;
    var r := Replace(st.topo, f, p, g);
    ReplaceBalanced(st.topo, f, p, g);
    ReplaceShaped(st.topo, f, p, g);
    ReplaceOnMachine(st.topo, f, p, g);
    forall u: nat | u < |r.seats|
      ensures InRange(r.seats[u].cpus, |r.loads|)
      ensures if LiveThread(f, u) then r.seats[u].cpus != {} else r.seats[u] == NOBODY
    {
      if LiveThread(f, u) { ReplaceSeated(st.topo, f, p, g, u); } else { ReplaceKeepsSeat(st.topo, f, p, g, u); }
    }
  }

  lemma AttachGroupBase(st: State, g: nat, h: nat)
    requires Base(st) && AttachGroup(st, g, h).Done?
    ensures Base(AttachGroup(st, g, h).st)
  {
    var f' := AddGroup(st.forest, g, h);
    AddGroupWoven(st.topo, st.forest, g, h);
    SameShape(st.topo, st.forest, f', st.places);
    ReplaceBase(st.(forest := f'), g);
  }

  lemma SetAttributeBase(st: State, g: nat, a: bv64)
    requires Base(st) && SetAttribute(st, g, a).Done?
    ensures Base(SetAttribute(st, g, a).st)
  {
    var r := Arrange(st.topo, a);
    var f' := Retag(st.forest, g, r.attribute, r.s);
    RetagWoven(st, g, a);
    SameShape(st.topo, st.forest, f', st.places);
    ReplaceBase(st.(forest := f'), g);
  }

  /** Every call keeps it, orderly or not. */
  lemma StepBase(st: State, call: Call)
    requires Base(st) && Defined(st, call)
    ensures Base(After(st, call))
  {
    match call
    case ThreadCreate(affinity) => CreateThreadBase(st, affinity);
    case ThreadJoin(u) => JoinThreadBase(st, u);
    case ThreadAttach(u, g) => if AttachThread(st, u, g).Done? { AttachThreadBase(st, u, g); }
    case ThreadDetach(u, g) => if DetachThread(st, u, g).Done? { LeaveBase(st, u, g); }
    case GroupCreate => CreateGroupBase(st);
    case GroupDestroy(g) => DestroyGroupBase(st, g);
    case GroupSetAttr(g, a) => if SetAttribute(st, g, a).Done? { SetAttributeBase(st, g, a); }
    case GroupAttach(g, h) => if AttachGroup(st, g, h).Done? { AttachGroupBase(st, g, h); }
    case GroupDetach(g, h) => if DetachGroup(st, g, h).Done? { LeaveGroupBase(st, g, h); }
  }
}
