/** The library as the C code runs it: records updated in place, member lists walked link by link, the
    load table an array.  Every call is proved to do what its function in `Api` says. */
module Scheduler {
  import opened CpuSet
  import opened Topology
  import opened Allocator
  import opened Balance
  import opened Library
  import opened Siblings
  import opened Records
  import opened Containment
  import opened Frames
  import opened Runs
  import opened LoadTable
  import Api

  /** The negative error numbers the calls return. */
  function Code(e: Errno): int {
    match e
    case EINVAL => -22
    case ERANGE => -34
    case EBUSY => -16
    case ENOMEM => -12
  }

  function Status(o: Outcome): int { if o.Fail? then Code(o.errno) else 0 }

  /** In a woven forest the lists hold live records only, and no group lists itself. */
  lemma MembersLive(t: Topo, ts: Threads, gs: Groups, ms: Lists, cs: Lists, g: nat)
    requires ListsOk(ts, gs, ms, cs) && Woven(t, ForestOf(ts, gs, ms, cs)) && IsG(gs, g)
    ensures AllT(ts, ms[g]) && AllG(gs, cs[g], g)
    ensures NodeOf(ForestOf(ts, gs, ms, cs), g) ==
      Node(gs[g].value.attribute, gs[g].value.s, gs[g].value.father, ms[g], cs[g])
  {
    var f := ForestOf(ts, gs, ms, cs);
    assert Knit(t, f, g);
    forall k | 0 <= k < |ms[g]|
      ensures ms[g][k] < |ts| && ts[ms[g][k]].Some?
    {
      assert ms[g][k] in NodeOf(f, g).threads;
    }
    forall k | 0 <= k < |cs[g]|
      ensures cs[g][k] < |gs| && gs[cs[g][k]].Some? && cs[g][k] != g
    {
      assert cs[g][k] in NodeOf(f, g).groups;
      assert Knit(t, f, cs[g][k]);
    }
  }

  /** A group's region is whole blocks of any level, or part of one. */
  lemma ShapeChunky(t: Topo, x: set<nat>, s: nat)
    requires Regular(t) && HasShape(t, x) && IsLevel(t, s)
    ensures s > 0 && Chunky(x, s)
  {
    var a: nat, k: nat :| IsRegion(t, x, a, k);
    LevelsComparable(t, s, k);
    if Divides(s, k) {
      ModTrans(a, k, s);
      RangeBlocky(a, k, s);
    } else {
      StartFacts(a, s);
      InsideOneBlock(a, k, s);
      assert PartOf(x, Start(a, s), s);
    }
  }

  lemma InsideOneBlock(a: nat, k: nat, s: nat)
    requires Divides(k, s) && s > 0 && a % k == 0
    ensures a + k <= Start(a, s) + s
  {
    StartFacts(a, s);
    ModTrans(Start(a, s), s, k);
    AddMod(Start(a, s), s, k);
    MultiplesApart(a, Start(a, s) + s, k);
  }

  /** A live group's CPUs can be searched, if something is unclaimed or blocks are more than single CPUs. */
  lemma CanSearch(t: Topo, f: Forest, p: Places, g: nat)
    requires Woven(t, f) && Fit(f, p) && LiveGroup(f, g) && |p.loads| == t.n && HasShape(t, p.claims[g].total)
    requires Ready(p.claims[g]) || NodeOf(f, g).s > 1
    ensures Searchable(NodeOf(f, g).s, p.claims[g], t.n)
  {
    ShapeWorkable(t, f, p, g);
    ShapeInRange(t, p.claims[g].total);
    ShapeChunky(t, p.claims[g].total, NodeOf(f, g).s);
  }

  lemma SeatThreadIs(m: Mode, p: Places, g: nat, u: nat)
    requires g < |p.claims| && u < |p.seats| && Workable(m.s, p.claims[g], |p.loads|)
    ensures var loads := SubLoad(p.loads, p.seats[u].cpus);
      var t := Target(m, p.claims[g], loads);
      && SeatThread(m, p, g, u) ==
           Places(AddLoad(loads, SeatAt(m, t).cpus), p.claims[g := Claim(p.claims[g], ClaimAt(m, t))],
             p.seats[u := SeatAt(m, t)])
      && InRange(SeatAt(m, t).cpus, |p.loads|)
  {
    var t := Target(m, p.claims[g], SubLoad(p.loads, p.seats[u].cpus));
    StartFacts(t, m.s);
    AlignedInside(Start(t, m.s), m.s, |p.loads|);
  }

  lemma SubAdd(loads: seq<int>, cpus: set<nat>)
    ensures AddLoad(SubLoad(loads, cpus), cpus) == loads
  {
  }

  /** What destroying a live, empty group does, and in which state the group is freed. */
  lemma DestroySteps(st: State, g: nat)
    requires Base(st) && LiveGroup(st.forest, g) && NodeOf(st.forest, g).threads == []
    requires NodeOf(st.forest, g).groups == []
    ensures var x := NodeOf(st.forest, g);
      && (x.father.Some? ==> LiveGroup(st.forest, x.father.value) && g in NodeOf(st.forest, x.father.value).groups)
      && var st' := if x.father.Some? then Api.LeaveGroup(st, g, x.father.value) else st;
         && LiveGroup(st'.forest, g) && NodeOf(st'.forest, g) == x.(father := None)
         && Perform(st, GroupDestroy(g)) == Done(Api.FreeGroup(st', g))
  {
    assert Knit(st.topo, st.forest, g);
  }

  // -------- what re-placing a group relies on --------

  /** Links that agree, threads on the machine, groups that own regions, and a father that hands out more than
      single CPUs. */
  ghost predicate Replaceable(t: Topo, f: Forest, p: Places, g: nat) {
    && Woven(t, f) && Fit(f, p) && |p.loads| == t.n && LiveGroup(f, g) && OnMachine(p) && Shaped(t, f, p)
    && (NodeOf(f, g).father.Some? ==>
       LiveGroup(f, NodeOf(f, g).father.value) && NodeOf(f, NodeOf(f, g).father.value).s > 1)
  }

  /** After the request the first `i` threads are seated. */
  ghost function SeatFirst(t: Topo, f: Forest, q: Places, g: nat, i: nat): (r: Places)
    requires Woven(t, f) && Fit(f, q) && LiveGroup(f, g) && i <= |NodeOf(f, g).threads|
    ensures Fit(f, r)
  {
    var x := NodeOf(f, g);
    assert Knit(t, f, g) && forall k | 0 <= k < |x.threads| :: x.threads[k] in x.threads;
    SeatThreads(ModeOf(x), q, g, x.threads[..i])
  }

  /** After the request the first `i` children are re-placed. */
  ghost function ReplaceFirst(t: Topo, f: Forest, q: Places, g: nat, i: nat): (r: Places)
    requires Woven(t, f) && Fit(f, q) && LiveGroup(f, g) && i <= |NodeOf(f, g).groups|
    ensures Fit(f, r)
  {
    ReplaceAll(t, f, q, g, NodeOf(f, g).groups[..i])
  }

  lemma SeatFirstNext(t: Topo, f: Forest, q: Places, g: nat, i: nat)
    requires Woven(t, f) && Fit(f, q) && LiveGroup(f, g) && i < |NodeOf(f, g).threads|
    ensures var x := NodeOf(f, g);
      && x.s > 0 && LiveThread(f, x.threads[i])
      && SeatFirst(t, f, q, g, i + 1) == SeatThread(ModeOf(x), SeatFirst(t, f, q, g, i), g, x.threads[i])
  {
    var x := NodeOf(f, g);
    assert Knit(t, f, g) && x.threads[i] in x.threads;
    assert x.threads[..i + 1][..i] == x.threads[..i];
  }

  /** The group has just been given CPUs. */
  ghost predicate Fresh(c: Claims) { c.used == {} && c.roll == 0 }

  /** Single CPUs: as long as threads are only seated, one is left unclaimed. */
  lemma SinglesLeft(t: Topo, f: Forest, q: Places, g: nat, i: nat)
    requires Woven(t, f) && Fit(f, q) && LiveGroup(f, g) && i <= |NodeOf(f, g).threads| && |q.loads| == t.n
    requires HasShape(t, q.claims[g].total) && Fresh(q.claims[g]) && NodeOf(f, g).s == 1
    ensures Ready(SeatFirst(t, f, q, g, i).claims[g])
  {
    var x, c := NodeOf(f, g), q.claims[g];
    assert Knit(t, f, g) && forall k | 0 <= k < |x.threads| :: x.threads[k] in x.threads;
    ShapeInRange(t, c.total);
    assert Free(c) == c.total;
    SingleBlocky(c.total);
    SeatThreadsInside(ModeOf(x), q, g, x.threads[..i]);
  }

  lemma SingleBlocky(x: set<nat>)
    ensures Blocky(x, 1)
  {
    forall c | c in x
      ensures Block(Start(c, 1), 1) <= x
    {
      assert Start(c, 1) == c;
    }
  }

  /** Until all threads are seated the group can be searched for the next. */
  lemma SeatPrefix(t: Topo, f: Forest, q: Places, g: nat, i: nat)
    requires Replaceable(t, f, q, g) && i <= |NodeOf(f, g).threads| && Fresh(q.claims[g])
    ensures var r := SeatFirst(t, f, q, g, i);
      Searchable(NodeOf(f, g).s, r.claims[g], t.n) && OnMachine(r) && |r.loads| == t.n
  {
    var x := NodeOf(f, g);
    assert Knit(t, f, g) && forall k | 0 <= k < |x.threads| :: x.threads[k] in x.threads;
    ShapeWorkable(t, f, q, g);
    SeatThreadsKeepClaims(ModeOf(x), q, g, x.threads[..i], g);
    SeatThreadsOnMachine(ModeOf(x), q, g, x.threads[..i]);
    if x.s == 1 { SinglesLeft(t, f, q, g, i); }
    CanSearch(t, f, SeatFirst(t, f, q, g, i), g);
  }

  /** The request leaves everything else a re-placing needs. */
  lemma RequestReplaceable(t: Topo, f: Forest, p: Places, g: nat)
    requires Replaceable(t, f, p, g)
    ensures var q := Request(f, p, g); Replaceable(t, f, q, g) && Fresh(q.claims[g])
  {
    assert Knit(t, f, g);
    RequestShaped(t, f, p, g);
  }

  /** After the first `i` children the next one can be re-placed, unless it is refused. */
  lemma ChildReplaceable(t: Topo, f: Forest, q: Places, g: nat, i: nat)
    requires Replaceable(t, f, q, g) && i < |NodeOf(f, g).groups|
    ensures var r, c := ReplaceFirst(t, f, q, g, i), NodeOf(f, g).groups[i];
      CanRearrange(t, f, r, c) && Depth(t, f, c) < NodeOf(f, g).s
  {
    var xs := NodeOf(f, g).groups;
    assert Knit(t, f, g) && xs[i] in xs && Knit(t, f, xs[i]);
    ReplaceAllShaped(t, f, q, g, xs[..i]);
    ReplaceAllOnMachine(t, f, q, g, xs[..i]);
    RetagSame(t, f, xs[i]);
    LevelOf(t, f, xs[i]);
  }

  lemma RetagSame(t: Topo, f: Forest, g: nat)
    requires Woven(t, f) && LiveGroup(f, g)
    ensures Arrange(t, NodeOf(f, g).attribute) == Arranged(NodeOf(f, g).attribute, NodeOf(f, g).s)
    ensures Api.Retag(f, g, NodeOf(f, g).attribute, NodeOf(f, g).s) == f
    ensures NodeOf(f, g).father.Some? ==> LiveGroup(f, NodeOf(f, g).father.value)
    ensures forall c | c in NodeOf(f, g).groups :: LiveGroup(f, c) && c != g
    ensures NodeOf(f, g).s > 0 && forall k | 0 <= k < |NodeOf(f, g).threads| :: NodeOf(f, g).threads[k] < |f.threads|
  {
    var x := NodeOf(f, g);
    assert Knit(t, f, g);
    forall c | c in x.groups
      ensures LiveGroup(f, c) && c != g
    {
      assert Knit(t, f, c);
    }
    forall k | 0 <= k < |x.threads|
      ensures x.threads[k] < |f.threads|
    {
      assert x.threads[k] in x.threads;
    }
    assert f.groups[g := Some(x)] == f.groups;
  }

  /** Re-placing a group is the request, then all its threads or all its children. */
  lemma ReplaceIs(t: Topo, f: Forest, p: Places, g: nat)
    requires Woven(t, f) && Fit(f, p) && LiveGroup(f, g)
    requires NodeOf(f, g).father.Some? ==> LiveGroup(f, NodeOf(f, g).father.value)
    ensures var x, q := NodeOf(f, g), Request(f, p, g);
      Replace(t, f, p, g) == if x.threads != [] then SeatFirst(t, f, q, g, |x.threads|)
        else ReplaceFirst(t, f, q, g, |x.groups|)
  {
    var x := NodeOf(f, g);
    assert x.threads[..|x.threads|] == x.threads && x.groups[..|x.groups|] == x.groups;
  }

  lemma ReplaceFirstNext(t: Topo, f: Forest, q: Places, g: nat, i: nat)
    requires Woven(t, f) && Fit(f, q) && LiveGroup(f, g) && i < |NodeOf(f, g).groups|
    ensures var xs, r := NodeOf(f, g).groups, ReplaceFirst(t, f, q, g, i);
      && LiveGroup(f, xs[i])
      && (NodeOf(f, xs[i]).father.Some? ==> LiveGroup(f, NodeOf(f, xs[i]).father.value))
      && (forall c | c in NodeOf(f, xs[i]).groups :: LiveGroup(f, c))
      && ReplaceFirst(t, f, q, g, i + 1) == if Refused(f, xs[i]) then r else Replace(t, f, r, xs[i])
  {
    var xs := NodeOf(f, g).groups;
    RetagSame(t, f, g);
    assert xs[i] in xs && xs[..i + 1][..i] == xs[..i];
    RetagSame(t, f, xs[i]);
  }

  /** How far down re-placing `g` can still go: not at all if it is refused. */
  ghost function Depth(t: Topo, f: Forest, g: nat): nat
    requires Regular(t) && LiveGroup(f, g)
    requires NodeOf(f, g).father.Some? ==> LiveGroup(f, NodeOf(f, g).father.value)
    requires forall c | c in NodeOf(f, g).groups :: LiveGroup(f, c)
  {
    var r := Arrange(t, NodeOf(f, g).attribute);
    if !Refused(f, g) && r.Arranged? then r.s else 0
  }

  /** What `wayca_group_rearrange_group` needs of group `g`: its links, and, unless it refuses, a forest in which
      it can be re-placed once it has its new parameters. */
  ghost predicate CanRearrange(t: Topo, f: Forest, p: Places, g: nat) {
    && Regular(t) && LiveGroup(f, g)
    && (NodeOf(f, g).father.Some? ==> LiveGroup(f, NodeOf(f, g).father.value))
    && (forall c | c in NodeOf(f, g).groups :: LiveGroup(f, c) && c != g)
    && (!Refused(f, g) ==>
          match Arrange(t, NodeOf(f, g).attribute)
          case Invalid => true
          case Arranged(a, s) => Replaceable(t, Api.Retag(f, g, a, s), p, g))
  }

  /** Its result, and the forest and places it leaves. */
  ghost predicate Rearranged(t: Topo, f: Forest, p: Places, g: nat, ret: int, f': Forest, p': Places)
    requires CanRearrange(t, f, p, g)
  {
    if Refused(f, g) then ret == -34 && f' == f && p' == p
    else
      match Arrange(t, NodeOf(f, g).attribute)
      case Invalid => ret == -22 && f' == f && p' == p
      case Arranged(a, s) => ret == 0 && f' == Api.Retag(f, g, a, s) && p' == Replace(t, f', p, g)
  }

  // -------- attaching a group, and changing its attribute --------

  lemma {:induction false} RemoveLast(xs: seq<nat>, x: nat)
    requires x !in xs
    ensures Remove(xs + [x], x) == xs
  {
    if xs != [] {
      assert (xs + [x])[1..] == xs[1..] + [x];
      RemoveLast(xs[1..], x);
    }
  }

  /** Unlinking a group right after linking it restores the forest. */
  lemma UndoGraft(f: Forest, g: nat, h: nat)
    requires LiveGroup(f, g) && LiveGroup(f, h) && g != h && NodeOf(f, g).father == None && g !in NodeOf(f, h).groups
    ensures DropGroup(AddGroup(f, g, h), g, h) == f
  {
    RemoveLast(NodeOf(f, h).groups, g);
    assert DropGroup(AddGroup(f, g, h), g, h).groups == f.groups;
  }

  /** A group that can be linked can be rearranged right after. */
  lemma GraftCan(st: State, g: nat, h: nat)
    requires Base(st) && LiveGroup(st.forest, g) && LiveGroup(st.forest, h) && g != h
    requires NodeOf(st.forest, g).father == None && g !in NodeOf(st.forest, h).groups
    requires NodeOf(st.forest, h).threads == []
    ensures var f, f' := st.forest, AddGroup(st.forest, g, h);
      && CanRearrange(st.topo, f', st.places, g)
      && (Api.AttachGroup(st, g, h).Fail? <==> Refused(f', g))
      && (Api.AttachGroup(st, g, h).Fail? ==> Api.AttachGroup(st, g, h).errno == ERANGE)
      && Arrange(st.topo, NodeOf(f', g).attribute) == Arranged(NodeOf(f', g).attribute, NodeOf(f', g).s)
      && Api.Retag(f', g, NodeOf(f', g).attribute, NodeOf(f', g).s) == f'
  {
    var f, f' := st.forest, AddGroup(st.forest, g, h);
    RetagSame(st.topo, f, g);
    AddGroupWoven(st.topo, f, g, h);
    RetagSame(st.topo, f', g);
    AddGroupLists(f, g, h);
    Api.MaxChildSame(f, f', NodeOf(f, g).groups);
  }

  /** A new attribute can be arranged on any live group. */
  lemma RetagCan(st: State, g: nat, a: bv64)
    requires Base(st) && LiveGroup(st.forest, g)
    ensures var f, f1 := st.forest, Api.Retag(st.forest, g, a, NodeOf(st.forest, g).s);
      && CanRearrange(st.topo, f1, st.places, g)
      && (NodeOf(f, g).father.Some? ==> LiveGroup(f, NodeOf(f, g).father.value))
      && (forall c | c in NodeOf(f, g).groups :: LiveGroup(f, c))
      && (Refused(f1, g) <==> Refused(f, g))
      && forall b, s :: Api.Retag(f1, g, b, s) == Api.Retag(f, g, b, s)
    ensures var f := st.forest; Api.Retag(f, g, NodeOf(f, g).attribute, NodeOf(f, g).s) == f
  {
    var f, x := st.forest, NodeOf(st.forest, g);
    var f1 := Api.Retag(f, g, a, x.s);
    RetagSame(st.topo, f, g);
    Api.MaxChildSame(f, f1, x.groups);
    forall b, s
      ensures Api.Retag(f1, g, b, s) == Api.Retag(f, g, b, s)
    {
      assert Api.Retag(f1, g, b, s).groups == Api.Retag(f, g, b, s).groups;
    }
    if Arrange(st.topo, a).Arranged? { Api.RetagWoven(st, g, a); }
  }

  class Wayca {
    const topo: Topo
    const loads: array<int>
    var threads: Threads
    var groups: Groups
    ghost var members: Lists
    ghost var children: Lists

    ghost predicate Linked()
      reads this
    {
      ListsOk(threads, groups, members, children)
    }

    ghost function TheForest(): Forest
      requires Linked()
      reads this
    {
      ForestOf(threads, groups, members, children)
    }

    ghost function ThePlaces(): Places
      reads this, loads
    {
      PlacesOf(loads[..], threads, groups)
    }

    ghost function View(): State
      requires Linked()
      reads this, loads
    {
      State(topo, TheForest(), ThePlaces())
    }

    ghost predicate Valid()
      reads this, loads
    {
      Linked() && loads.Length == topo.n && Base(View())
    }

    constructor (topo: Topo, threadNum: nat, groupNum: nat)
      requires Regular(topo)
      ensures Valid() && View() == Initial(topo, threadNum, groupNum) && fresh(loads)
    {
      this.topo := topo;
      this.loads := new int[topo.n](_ => 0);
      this.threads := seq(threadNum, _ => None);
      this.groups := seq(groupNum, _ => None);
      this.members := seq(groupNum, _ => []);
      this.children := seq(groupNum, _ => []);
      new;
      InitialBase(topo, threadNum, groupNum);
      assert View() == Initial(topo, threadNum, groupNum);
    }

    // -------- walking a group's threads --------

    /** Set a group's CPU bookkeeping. */
    method Mark(g: nat, total: set<nat>, used: set<nat>, roll: int)
      requires Linked() && IsG(groups, g)
      modifies this`groups
      ensures Linked() && TheForest() == old(TheForest())
      ensures ThePlaces() == old(ThePlaces()).(claims := old(ThePlaces()).claims[g := Claims(total, used, roll)])
    {
      RemarkOk(threads, groups, members, children, g, Claims(total, used, roll));
      groups := SetG(groups, g, groups[g].value.(total := total, used := used, roll := roll));
    }

    /** `is_thread_in_group` */
    method IsThreadInGroup(g: nat, u: nat) returns (found: bool)
      requires Linked() && IsG(groups, g) && AllT(threads, members[g])
      ensures found <==> u in members[g]
    {
      ghost var xs, i := members[g], 0;
      assert Chain(NextT(threads), HeadsT(groups)[g], xs);
      var member := groups[g].value.threads;
      while member.Some?
        invariant 0 <= i <= |xs| && member == (if i < |xs| then Some(xs[i]) else None)
        invariant u !in xs[..i]
        decreases |xs| - i
      {
        if member.value == u {
          assert xs[i] in xs;
          return true;
        }
        assert NextT(threads)[xs[i]] == NextOf(xs, i);
        member := threads[member.value].value.siblings;
        i := i + 1;
      }
      assert xs == xs[..i];
      return false;
    }

    /** The links from group `g` on run through the threads `xs`. */
    ghost predicate ThreadChain(g: nat, xs: seq<nat>)
      reads this
    {
      IsG(groups, g) && AllT(threads, xs) && Chain(NextT(threads), HeadsT(groups)[g], xs) && Distinct(xs)
    }

    lemma ThreadNext(g: nat, xs: seq<nat>, i: nat)
      requires ThreadChain(g, xs) && i < |xs|
      ensures xs[i] < |threads| && threads[xs[i]].Some?
      ensures threads[xs[i]].value.siblings == if i + 1 < |xs| then Some(xs[i + 1]) else None
    {
      assert NextT(threads)[xs[i]] == NextOf(xs, i);
    }

    /** The walk of `group_thread_add_to_tail`. */
    method TailThread(g: nat, ghost xs: seq<nat>) returns (tail: nat)
      requires ThreadChain(g, xs) && xs != []
      ensures tail == xs[|xs| - 1]
    {
      ghost var i := 0;
      tail := groups[g].value.threads.value;
      while threads[tail].value.siblings.Some?
        invariant 0 <= i < |xs| && tail == xs[i]
        decreases |xs| - i
      {
        ThreadNext(g, xs, i);
        tail := threads[tail].value.siblings.value;
        i := i + 1;
      }
      ThreadNext(g, xs, i);
    }

    /** The walk of `group_thread_delete_thread`: the member before `u`, which is not the first. */
    method BeforeThread(g: nat, u: nat, ghost xs: seq<nat>) returns (prev: nat, ghost i: nat)
      requires ThreadChain(g, xs) && u in xs && xs[0] != u
      ensures 0 < i < |xs| && xs[i] == u && prev == xs[i - 1]
    {
      prev := groups[g].value.threads.value;
      i := 1;
      ghost var j :| 0 <= j < |xs| && xs[j] == u;
      while threads[prev].value.siblings != Some(u)
        invariant 0 < i <= j && prev == xs[i - 1]
        decreases j - i
      {
        ThreadNext(g, xs, i - 1);
        prev := threads[prev].value.siblings.value;
        i := i + 1;
      }
      ThreadNext(g, xs, i - 1);
    }

    /** `group_thread_add_to_tail` and the bookkeeping around it, on the records. */
    method Enlist(g: nat, u: nat, ghost xs: seq<nat>) returns (ts: Threads, gs: Groups)
      requires ThreadChain(g, xs) && IsT(threads, u)
      ensures xs != [] ==> IsT(threads, xs[|xs| - 1])
      ensures ts == LinkThreadT(threads, xs, g, u) && gs == LinkThreadG(groups, xs, g, u)
    {
      assert HeadsT(groups)[g] == HeadOf(xs);
      var r := groups[g].value;
      ts, gs := threads, groups;
      if r.threads == None {
        gs := SetG(gs, g, r.(nrThreads := r.nrThreads + 1, threads := Some(u)));
      } else {
        var tail := TailThread(g, xs);
        gs := SetG(gs, g, r.(nrThreads := r.nrThreads + 1, threads := r.threads));
        ts := SetT(ts, tail, ts[tail].value.(siblings := Some(u)));
      }
      ts := SetT(ts, u, ts[u].value.(group := Some(g)));
    }

    method LinkThread(g: nat, u: nat)
      requires Linked() && IsG(groups, g) && IsT(threads, u) && threads[u].value.group == None
      requires AllT(threads, members[g])
      modifies this`threads, this`groups, this`members
      ensures Linked() && TheForest() == Library.AddThread(old(TheForest()), u, g) && ThePlaces() == old(ThePlaces())
      ensures IsT(threads, u) && IsG(groups, g)
      ensures groups[g].value.s == old(groups[g].value.s) && groups[g].value.attribute == old(groups[g].value.attribute)
    {
      ghost var xs := members[g];
      var ts, gs := Enlist(g, u, xs);
      LinkThreadOk(threads, groups, members, children, g, u);
      LinkThreadForest(threads, groups, members, children, g, u);
      LinkThreadPlaces(loads[..], threads, groups, xs, g, u);
      threads, groups := ts, gs;
      members := members[g := xs + [u]];
    }

    /** `wayca_group_assign_thread_resource` */
    method SeatMember(g: nat, u: nat)
      requires Linked() && IsG(groups, g) && IsT(threads, u)
      requires Searchable(groups[g].value.s, ClaimsIn(groups[g].value), loads.Length)
      modifies this`threads, this`groups
      ensures Linked() && TheForest() == old(TheForest()) && IsT(threads, u) && IsG(groups, g)
      ensures var m := ModeOf(NodeOf(old(TheForest()), g));
        var p := old(ThePlaces());
        var t := Target(m, p.claims[g], loads[..]);
        ThePlaces() ==
          p.(claims := p.claims[g := Claim(p.claims[g], ClaimAt(m, t))], seats := p.seats[u := SeatAt(m, t)])
    {
      var r := groups[g].value;
      var m := Mode(r.s, IsPerCpu(r.attribute), IsCompact(r.attribute));
      var seat, c := AssignSeat(loads, m, Claims(r.total, r.used, r.roll));
      ReseatOk(threads, groups, members, children, u, seat);
      threads := SetT(threads, u, threads[u].value.(target := seat.target, cpus := seat.cpus));
      RemarkOk(threads, groups, members, children, g, c);
      groups := SetG(groups, g, r.(total := c.total, used := c.used, roll := c.roll));
    }

    /** `wayca_group_add_thread`: link the thread behind the members and give it a seat. */
    method AddThread(g: nat, u: nat) returns (ret: int)
      requires Linked() && Woven(topo, TheForest()) && loads.Length == topo.n
      requires IsG(groups, g) && IsT(threads, u) && threads[u].value.group == None
      requires Workable(groups[g].value.s, ClaimsIn(groups[g].value), loads.Length)
      requires NodeOf(TheForest(), g).groups == [] && u !in NodeOf(TheForest(), g).threads ==>
                 Searchable(groups[g].value.s, ClaimsIn(groups[g].value), loads.Length)
      modifies this`threads, this`groups, this`members
      ensures Linked() && IsT(threads, u) && IsG(groups, g)
      ensures if u in NodeOf(old(TheForest()), g).threads || NodeOf(old(TheForest()), g).groups != [] then
                ret == -22 && TheForest() == old(TheForest()) && ThePlaces() == old(ThePlaces())
              else
                var m := ModeOf(NodeOf(old(TheForest()), g));
                var p := old(ThePlaces());
                var t := Target(m, p.claims[g], loads[..]);
                && ret == 0 && TheForest() == Library.AddThread(old(TheForest()), u, g)
                && ThePlaces() ==
                   p.(claims := p.claims[g := Claim(p.claims[g], ClaimAt(m, t))], seats := p.seats[u := SeatAt(m, t)])
    {
      MembersLive(topo, threads, groups, members, children, g);
      var present := IsThreadInGroup(g, u);
      if present { return -22; }
      if groups[g].value.nrGroups != 0 { return -22; }
      ghost var c := ClaimsIn(groups[g].value);
      assert c == ThePlaces().claims[g];
      LinkThread(g, u);
      assert ThePlaces().claims[g] == ClaimsIn(groups[g].value);
      SeatMember(g, u);
      ret := 0;
    }

    // -------- thread calls --------

    /** What the records say about a live group and thread, in a valid library. */
    lemma Facts(u: nat, g: nat)
      requires Valid()
      ensures IsG(groups, g) <==> LiveGroup(TheForest(), g)
      ensures IsT(threads, u) <==> LiveThread(TheForest(), u)
      ensures IsT(threads, u) ==>
        InRange(threads[u].value.cpus, loads.Length)
        && ThePlaces().seats[u] == Seat(threads[u].value.target, threads[u].value.cpus)
      ensures IsG(groups, g) ==> Workable(groups[g].value.s, ClaimsIn(groups[g].value), loads.Length)
      ensures IsG(groups, g) && (Ready(ClaimsIn(groups[g].value)) || groups[g].value.s > 1) ==>
                Searchable(groups[g].value.s, ClaimsIn(groups[g].value), loads.Length)
      ensures IsG(groups, g) ==> ThePlaces().claims[g] == ClaimsIn(groups[g].value)
    {
      if IsG(groups, g) {
        ShapeWorkable(topo, TheForest(), ThePlaces(), g);
        if Ready(ClaimsIn(groups[g].value)) || groups[g].value.s > 1 { CanSearch(topo, TheForest(), ThePlaces(), g); }
      }
    }

    /** The thread's load leaves its old CPUs, and settles on its new ones or goes back. */
    method MoveIn(u: nat, g: nat) returns (ret: int)
      requires Linked() && Woven(topo, TheForest()) && loads.Length == topo.n
      requires IsG(groups, g) && IsT(threads, u) && threads[u].value.group == None
      requires InRange(threads[u].value.cpus, loads.Length)
      requires Workable(groups[g].value.s, ClaimsIn(groups[g].value), loads.Length)
      requires NodeOf(TheForest(), g).groups == [] && u !in NodeOf(TheForest(), g).threads ==>
                 Searchable(groups[g].value.s, ClaimsIn(groups[g].value), loads.Length)
      modifies this`threads, this`groups, this`members, loads
      ensures Linked()
      ensures if u in NodeOf(old(TheForest()), g).threads || NodeOf(old(TheForest()), g).groups != [] then
                ret == -22 && TheForest() == old(TheForest()) && ThePlaces() == old(ThePlaces())
              else
                && ret == 0 && TheForest() == Library.AddThread(old(TheForest()), u, g)
                && ThePlaces() == SeatThread(ModeOf(NodeOf(old(TheForest()), g)), old(ThePlaces()), g, u)
    {
      ghost var f, p := TheForest(), ThePlaces();
      ghost var m := ModeOf(NodeOf(f, g));
      var cpus := threads[u].value.cpus;
      assert p.seats[u].cpus == cpus && p.claims[g] == ClaimsIn(groups[g].value);
      SeatThreadIs(m, p, g, u);
      UpdateLoad(loads, cpus, false);
      ghost var q := ThePlaces();
      assert q == p.(loads := SubLoad(p.loads, cpus));
      ret := AddThread(g, u);
      if ret != 0 {
        UpdateLoad(loads, cpus, true);
        SubAdd(p.loads, cpus);
        assert ThePlaces() == p;
      } else {
        ghost var r := ThePlaces();
        assert r.seats[u] == Seat(threads[u].value.target, threads[u].value.cpus);
        UpdateLoad(loads, threads[u].value.cpus, true);
        assert ThePlaces() == r.(loads := AddLoad(r.loads, r.seats[u].cpus));
      }
    }

    /** `wayca_sc_thread_attach_group` */
    method AttachThread(u: nat, g: nat) returns (ret: int)
      requires Valid() && Defined(View(), ThreadAttach(u, g))
      modifies this`threads, this`groups, this`members, loads
      ensures Valid() && View() == After(old(View()), ThreadAttach(u, g))
      ensures ret == Status(Perform(old(View()), ThreadAttach(u, g)))
    {
      ghost var st := View();
      Facts(u, g);
      StepBase(st, ThreadAttach(u, g));
      if !(u < |threads| && threads[u].Some?) || !(g < |groups| && groups[g].Some?) { return -22; }
      if threads[u].value.group.Some? { return -22; }
      ret := MoveIn(u, g);
    }

    /** `group_thread_delete_thread` and the bookkeeping around it, on the records. */
    method Discharge(g: nat, u: nat, ghost xs: seq<nat>) returns (ts: Threads, gs: Groups, ghost i: nat)
      requires ThreadChain(g, xs) && u in xs && groups[g].value.nrThreads > 0
      ensures i < |xs| && xs[i] == u
      ensures ts == UnlinkThreadT(threads, xs, i) && gs == UnlinkThreadG(groups, threads[u].value.siblings, i, g)
    {
      assert HeadsT(groups)[g] == HeadOf(xs);
      var r, next := groups[g].value, threads[u].value.siblings;
      ts, gs, i := threads, groups, 0;
      if r.threads == Some(u) {
        gs := SetG(gs, g, r.(nrThreads := r.nrThreads - 1, threads := next));
      } else {
        var prev;
        prev, i := BeforeThread(g, u, xs);
        ts := SetT(ts, prev, ts[prev].value.(siblings := next));
        gs := SetG(gs, g, r.(nrThreads := r.nrThreads - 1, threads := r.threads));
      }
      ts := SetT(ts, u, ts[u].value.(siblings := None, group := None));
    }

    method UnlinkThread(g: nat, u: nat)
      requires Linked() && IsG(groups, g) && AllT(threads, members[g]) && u in members[g]
      modifies this`threads, this`groups, this`members
      ensures Linked() && TheForest() == DropThread(old(TheForest()), u, g) && ThePlaces() == old(ThePlaces())
      ensures IsT(threads, u) && threads[u].value.group == None
    {
      ghost var xs := members[g];
      ghost var i;
      var ts, gs;
      ts, gs, i := Discharge(g, u, xs);
      UnlinkThreadOk(threads, groups, members, children, g, i);
      UnlinkThreadForest(threads, groups, members, children, g, i);
      UnlinkThreadPlaces(loads[..], threads, groups, xs, i, threads[u].value.siblings, g);
      threads, groups := ts, gs;
      members := members[g := Without(xs, i)];
    }

    /** `wayca_group_delete_thread`: take the claim back and unlink the member. */
    method DeleteThread(g: nat, u: nat) returns (ret: int)
      requires Linked() && Woven(topo, TheForest()) && IsG(groups, g) && IsT(threads, u)
      modifies this`threads, this`groups, this`members
      ensures Linked()
      ensures if u !in NodeOf(old(TheForest()), g).threads then
                ret == -22 && TheForest() == old(TheForest()) && ThePlaces() == old(ThePlaces())
              else
                var p := old(ThePlaces());
                var c := ReleaseThread(ModeOf(NodeOf(old(TheForest()), g)), p.claims[g], p.seats[u]);
                && ret == 0 && TheForest() == DropThread(old(TheForest()), u, g)
                && ThePlaces() == p.(claims := p.claims[g := c])
                && IsT(threads, u) && threads[u].value.group == None
    {
      MembersLive(topo, threads, groups, members, children, g);
      var present := IsThreadInGroup(g, u);
      if !present { return -22; }
      var r := groups[g].value;
      if |r.used| == 0 {
        r := r.(roll := r.roll - 1, used := r.used + r.total);
      }
      if IsCompact(r.attribute) && !IsPerCpu(r.attribute) {
        r := r.(used := r.used - {threads[u].value.target});
      } else {
        r := r.(used := Xor(r.used, threads[u].value.cpus));
      }
      assert {} + groups[g].value.total == groups[g].value.total;
      assert Claims(r.total, r.used, r.roll) ==
        ReleaseThread(ModeOf(NodeOf(TheForest(), g)), ThePlaces().claims[g], ThePlaces().seats[u]);
      Mark(g, r.total, r.used, r.roll);
      MembersLive(topo, threads, groups, members, children, g);
      UnlinkThread(g, u);
      ret := 0;
    }

    /** `wayca_sc_thread_detach_group` */
    method DetachThread(u: nat, g: nat) returns (ret: int)
      requires Valid()
      modifies this`threads, this`groups, this`members
      ensures Valid() && View() == After(old(View()), ThreadDetach(u, g))
      ensures ret == Status(Perform(old(View()), ThreadDetach(u, g)))
    {
      Facts(u, g);
      StepBase(View(), ThreadDetach(u, g));
      if !(u < |threads| && threads[u].Some?) || !(g < |groups| && groups[g].Some?) { return -22; }
      ret := DeleteThread(g, u);
    }

    /** `find_free_thread_id_locked`: the first free slot, or the table size. */
    method FindFreeThread() returns (u: nat)
      requires Linked()
      ensures u == Api.VacantThread(TheForest().threads, 0)
    {
      u := 0;
      while u < |threads| && threads[u].Some?
        invariant u <= |threads| && Api.VacantThread(TheForest().threads, 0) == Api.VacantThread(TheForest().threads, u)
      {
        u := u + 1;
      }
    }

    /** `wayca_sc_thread_create`: the thread starts with the affinity it inherits. */
    method CreateThread(affinity: set<nat>) returns (ret: int, u: nat)
      requires Valid() && Defined(View(), ThreadCreate(affinity))
      modifies this`threads, loads
      ensures Valid() && View() == After(old(View()), ThreadCreate(affinity))
      ensures ret == Status(Perform(old(View()), ThreadCreate(affinity)))
      ensures u == Api.VacantThread(old(TheForest()).threads, 0)
    {
      StepBase(View(), ThreadCreate(affinity));
      u := FindFreeThread();
      if u == |threads| { return -12, u; }
      VacantNowhere(topo, threads, groups, members, children, u);
      FreshThreadOk(threads, groups, members, children, u, affinity);
      threads := SetT(threads, u, ThreadRec(affinity, 0, None, None));
      UpdateLoad(loads, affinity, true);
      ret := 0;
    }

    /** `wayca_thread_free` */
    method FreeThread(u: nat)
      requires Linked() && IsT(threads, u) && threads[u].value.group == None
      requires InRange(threads[u].value.cpus, loads.Length) && loads.Length <= CPU_SETSIZE
      modifies this`threads, loads
      ensures Linked() && View() == Api.FreeThread(old(View()), u)
    {
      UpdateLoad(loads, threads[u].value.cpus, false);
      FreeThreadOk(threads, groups, members, children, u);
      threads := threads[u := None];
    }

    /** `wayca_sc_thread_join`, after the thread has ended: it leaves its group and is freed. */
    method JoinThread(u: nat) returns (ret: int)
      requires Valid()
      modifies this`threads, this`groups, this`members, loads
      ensures Valid() && View() == After(old(View()), ThreadJoin(u))
      ensures ret == Status(Perform(old(View()), ThreadJoin(u)))
    {
      ghost var st := View();
      Facts(u, 0);
      StepBase(st, ThreadJoin(u));
      if !(u < |threads| && threads[u].Some?) { return -22; }
      if threads[u].value.group.Some? {
        assert SlotOk(st.forest, u);
        var detached := DetachThread(u, threads[u].value.group.value);
        Facts(u, 0);
      }
      FreeThread(u);
      ret := 0;
    }

    // -------- walking a group's child groups --------

    /** `is_group_in_father` */
    method IsGroupInFather(g: nat, h: nat) returns (found: bool)
      requires Linked() && IsG(groups, h) && AllG(groups, children[h], h)
      ensures found <==> g in children[h]
    {
      ghost var xs, i := children[h], 0;
      assert Chain(NextG(groups), HeadsG(groups)[h], xs);
      var member := groups[h].value.groups;
      while member.Some?
        invariant 0 <= i <= |xs| && member == (if i < |xs| then Some(xs[i]) else None)
        invariant g !in xs[..i]
        decreases |xs| - i
      {
        if member.value == g {
          assert xs[i] in xs;
          return true;
        }
        assert NextG(groups)[xs[i]] == NextOf(xs, i);
        member := groups[member.value].value.siblings;
        i := i + 1;
      }
      assert xs == xs[..i];
      return false;
    }

    /** The links from group `h` on run through the child groups `xs`. */
    ghost predicate GroupChain(h: nat, xs: seq<nat>)
      reads this
    {
      IsG(groups, h) && AllG(groups, xs, h) && Chain(NextG(groups), HeadsG(groups)[h], xs) && Distinct(xs)
    }

    lemma GroupNext(h: nat, xs: seq<nat>, i: nat)
      requires GroupChain(h, xs) && i < |xs|
      ensures xs[i] < |groups| && groups[xs[i]].Some?
      ensures groups[xs[i]].value.siblings == if i + 1 < |xs| then Some(xs[i + 1]) else None
    {
      assert NextG(groups)[xs[i]] == NextOf(xs, i);
    }

    /** The walk of `group_group_add_to_tail`. */
    method TailGroup(h: nat, ghost xs: seq<nat>) returns (tail: nat)
      requires GroupChain(h, xs) && xs != []
      ensures tail == xs[|xs| - 1]
    {
      ghost var i := 0;
      tail := groups[h].value.groups.value;
      while groups[tail].value.siblings.Some?
        invariant 0 <= i < |xs| && tail == xs[i]
        decreases |xs| - i
      {
        GroupNext(h, xs, i);
        tail := groups[tail].value.siblings.value;
        i := i + 1;
      }
      GroupNext(h, xs, i);
    }

    /** The walk of `group_group_delete_group`. */
    method BeforeGroup(h: nat, g: nat, ghost xs: seq<nat>) returns (prev: nat, ghost i: nat)
      requires GroupChain(h, xs) && g in xs && xs[0] != g
      ensures 0 < i < |xs| && xs[i] == g && prev == xs[i - 1]
    {
      prev := groups[h].value.groups.value;
      i := 1;
      ghost var j :| 0 <= j < |xs| && xs[j] == g;
      while groups[prev].value.siblings != Some(g)
        invariant 0 < i <= j && prev == xs[i - 1]
        decreases j - i
      {
        GroupNext(h, xs, i - 1);
        prev := groups[prev].value.siblings.value;
        i := i + 1;
      }
      GroupNext(h, xs, i - 1);
    }

    /** `max_topo_cpus_in_child_groups` */
    method MaxTopoCpusInChildren(g: nat) returns (most: nat)
      requires Linked() && IsG(groups, g) && AllG(groups, children[g], g)
      requires forall x | x in children[g] :: LiveGroup(TheForest(), x)
      ensures most == MaxChild(TheForest(), children[g])
    {
      ghost var xs, i := children[g], 0;
      assert Chain(NextG(groups), HeadsG(groups)[g], xs);
      most := 0;
      var child := groups[g].value.groups;
      while child.Some?
        invariant 0 <= i <= |xs| && child == (if i < |xs| then Some(xs[i]) else None)
        invariant (forall x | x in xs[..i] :: LiveGroup(TheForest(), x)) && most == MaxChild(TheForest(), xs[..i])
        decreases |xs| - i
      {
        assert NextG(groups)[xs[i]] == NextOf(xs, i);
        assert xs[..i + 1][..i] == xs[..i] && xs[i] in xs;
        if groups[child.value].value.s >= most { most := groups[child.value].value.s; }
        child := groups[child.value].value.siblings;
        i := i + 1;
      }
      assert xs == xs[..i];
    }

    // -------- group calls without re-placing --------

    /** `find_free_group_id_locked` */
    method FindFreeGroup() returns (g: nat)
      requires Linked()
      ensures g == Api.VacantGroup(TheForest().groups, 0)
    {
      g := 0;
      while g < |groups| && groups[g].Some?
        invariant g <= |groups| && Api.VacantGroup(TheForest().groups, 0) == Api.VacantGroup(TheForest().groups, g)
      {
        g := g + 1;
      }
    }

    /** `wayca_sc_group_create`: a compact per-CPU group over the whole machine. */
    method CreateGroup() returns (ret: int, g: nat)
      requires Valid()
      modifies this`groups
      ensures Valid() && View() == After(old(View()), GroupCreate)
      ensures ret == Status(Perform(old(View()), GroupCreate))
      ensures g == Api.VacantGroup(old(TheForest()).groups, 0)
    {
      StepBase(View(), GroupCreate);
      g := FindFreeGroup();
      if g == |groups| { return -12, g; }
      VacantGroupNowhere(topo, threads, groups, members, children, g);
      var r := GroupRec(WT_GF_CPU | WT_GF_COMPACT | WT_GF_PERCPU, 1, AllCpus(topo.n), {}, 0, None, None, None, 0, None,
        0);
      FreshGroupOk(threads, groups, members, children, g, r);
      groups := SetG(groups, g, r);
      ret := 0;
    }

    /** `group_group_delete_group` and the bookkeeping around it, on the records. */
    method Expel(g: nat, h: nat, ghost xs: seq<nat>) returns (gs: Groups, ghost i: nat)
      requires GroupChain(h, xs) && g in xs && groups[h].value.nrGroups > 0
      ensures i < |xs| && xs[i] == g && gs == Records.UnlinkGroup(groups, xs, i, h)
    {
      assert HeadsG(groups)[h] == HeadOf(xs);
      var next := groups[g].value.siblings;
      gs, i := groups, 0;
      var first := groups[h].value.groups == Some(g);
      if !first {
        var prev;
        prev, i := BeforeGroup(h, g, xs);
        gs := SetG(gs, prev, gs[prev].value.(siblings := next));
      }
      gs := SetG(gs, h,
        gs[h].value.(nrGroups := gs[h].value.nrGroups - 1, groups := if first then next else gs[h].value.groups));
      gs := SetG(gs, g, gs[g].value.(siblings := None, father := None));
    }

    method UnlinkGroup(g: nat, h: nat)
      requires Linked() && IsG(groups, h) && AllG(groups, children[h], h) && g in children[h]
      modifies this`groups, this`children
      ensures Linked() && TheForest() == DropGroup(old(TheForest()), g, h) && ThePlaces() == old(ThePlaces())
    {
      ghost var xs := children[h];
      ghost var i;
      var gs;
      gs, i := Expel(g, h, xs);
      UnlinkGroupOk(threads, groups, members, children, h, i);
      UnlinkGroupForest(threads, groups, members, children, h, i);
      UnlinkGroupPlaces(loads[..], threads, groups, xs, i, h);
      groups := gs;
      children := children[h := Without(xs, i)];
    }

    /** `wayca_group_delete_group`: the father takes the block back and unlinks the child. */
    method DeleteGroup(g: nat, h: nat) returns (ret: int)
      requires Linked() && Woven(topo, TheForest()) && IsG(groups, g) && IsG(groups, h)
      modifies this`groups, this`children
      ensures Linked()
      ensures if g !in NodeOf(old(TheForest()), h).groups then
                ret == -22 && TheForest() == old(TheForest()) && ThePlaces() == old(ThePlaces())
              else
                ret == 0 && View() == Api.LeaveGroup(old(View()), g, h)
    {
      MembersLive(topo, threads, groups, members, children, h);
      var present := IsGroupInFather(g, h);
      if !present { return -22; }
      var r := groups[h].value;
      if |r.used| == 0 {
        r := r.(roll := r.roll - 1, used := r.used + r.total);
      }
      r := r.(used := Xor(r.used, groups[g].value.total));
      assert {} + groups[h].value.total == groups[h].value.total;
      assert Claims(r.total, r.used, r.roll) == ReleaseGroup(ThePlaces().claims[h], ThePlaces().claims[g].total);
      Mark(h, r.total, r.used, r.roll);
      MembersLive(topo, threads, groups, members, children, h);
      UnlinkGroup(g, h);
      ret := 0;
    }

    /** `wayca_sc_group_detach_group` */
    method DetachGroup(g: nat, h: nat) returns (ret: int)
      requires Valid() && Defined(View(), GroupDetach(g, h))
      modifies this`groups, this`children
      ensures Valid() && View() == After(old(View()), GroupDetach(g, h))
      ensures ret == Status(Perform(old(View()), GroupDetach(g, h)))
    {
      StepBase(View(), GroupDetach(g, h));
      if !(g < |groups| && groups[g].Some?) || !(h < |groups| && groups[h].Some?) { return -22; }
      ret := DeleteGroup(g, h);
    }

    /** What a live group's record says about its place in the forest. */
    lemma GroupFacts(g: nat)
      requires Linked()
      ensures LiveGroup(TheForest(), g) <==> IsG(groups, g)
      ensures IsG(groups, g) ==>
                var r := groups[g].value;
                && NodeOf(TheForest(), g) == Node(r.attribute, r.s, r.father, members[g], children[g])
                && r.nrThreads == |members[g]| && r.nrGroups == |children[g]|
    {
    }

    /** `wayca_group_free` */
    method FreeGroup(g: nat)
      requires Linked() && LiveGroup(TheForest(), g)
      requires NodeOf(TheForest(), g).father == None && NodeOf(TheForest(), g).threads == []
      requires NodeOf(TheForest(), g).groups == []
      modifies this`groups
      ensures Linked() && View() == Api.FreeGroup(old(View()), g)
    {
      GroupFacts(g);
      FreeGroupOk(threads, groups, members, children, g);
      groups := groups[g := None];
    }

    /** The end of `wayca_sc_group_destroy`: an empty group leaves its father and is freed. */
    method RetireGroup(g: nat)
      requires Linked() && Woven(topo, TheForest()) && LiveGroup(TheForest(), g)
      requires NodeOf(TheForest(), g).threads == [] && NodeOf(TheForest(), g).groups == []
      requires NodeOf(TheForest(), g).father.Some? ==>
                 LiveGroup(TheForest(), NodeOf(TheForest(), g).father.value)
                   && g in NodeOf(TheForest(), NodeOf(TheForest(), g).father.value).groups
      modifies this`groups, this`children
      ensures Linked()
      ensures var st, x := old(View()), NodeOf(old(TheForest()), g);
        View() == Api.FreeGroup(if x.father.Some? then Api.LeaveGroup(st, g, x.father.value) else st, g)
    {
      GroupFacts(g);
      if groups[g].value.father.Some? {
        GroupFacts(groups[g].value.father.value);
        var deleted := DeleteGroup(g, groups[g].value.father.value);
      }
      FreeGroup(g);
    }

    /** `wayca_sc_group_destroy` */
    method DestroyGroup(g: nat) returns (ret: int)
      requires Valid()
      modifies this`groups, this`children
      ensures Valid() && View() == After(old(View()), GroupDestroy(g))
      ensures ret == Status(Perform(old(View()), GroupDestroy(g)))
    {
      ghost var st := View();
      StepBase(st, GroupDestroy(g));
      GroupFacts(g);
      if !(g < |groups| && groups[g].Some?) { return -22; }
      if groups[g].value.nrThreads != 0 || groups[g].value.nrGroups != 0 { return -16; }
      DestroySteps(st, g);
      RetireGroup(g);
      ret := 0;
    }

    // -------- re-placing a group and everything below it --------

    /** `group_group_add_to_tail` and the bookkeeping around it, on the records. */
    method Adopt(g: nat, h: nat, ghost xs: seq<nat>) returns (gs: Groups)
      requires GroupChain(h, xs) && IsG(groups, g) && g != h && g !in xs
      ensures (xs != [] ==> IsG(groups, xs[|xs| - 1])) && gs == Records.LinkGroup(groups, xs, g, h)
    {
      assert HeadsG(groups)[h] == HeadOf(xs);
      gs := groups;
      var first := groups[h].value.groups == None;
      if !first {
        var tail := TailGroup(h, xs);
        gs := SetG(gs, tail, gs[tail].value.(siblings := Some(g)));
      }
      gs := SetG(gs, h,
        gs[h].value.(nrGroups := gs[h].value.nrGroups + 1, groups := if first then Some(g) else gs[h].value.groups));
      gs := SetG(gs, g, gs[g].value.(father := Some(h)));
    }

    method LinkGroup(g: nat, h: nat)
      requires Linked() && IsG(groups, g) && IsG(groups, h) && g != h && groups[g].value.father == None
      requires AllG(groups, children[h], h)
      modifies this`groups, this`children
      ensures Linked() && TheForest() == Library.AddGroup(old(TheForest()), g, h) && ThePlaces() == old(ThePlaces())
    {
      assert Alone(NextG(groups), children, g);
      var gs := Adopt(g, h, children[h]);
      LinkGroupOk(threads, groups, members, children, g, h);
      LinkGroupForest(threads, groups, members, children, g, h);
      LinkGroupPlaces(loads[..], threads, groups, children[h], g, h);
      groups := gs;
      children := children[h := children[h] + [g]];
    }

    /** The father's part of it, on its record. */
    method NextBlock(r: GroupRec) returns (block: set<nat>, used: set<nat>, roll: int)
      requires loads.Length <= CPU_SETSIZE && Workable(r.s, ClaimsIn(r), loads.Length) && r.s > 1
      ensures block == AimBlock(r.s, ClaimsIn(r), loads[..]) && Claims(r.total, used, roll) == Claim(ClaimsIn(r), block)
    {
      block := FindIdlestSet(loads, r.s, r.total - r.used);
      used, roll := r.used + block, r.roll;
      if used == r.total {
        roll := roll + 1;
        used := {};
      }
    }

    /** `wayca_group_request_resource_from_father`: the next block of group `h`. */
    method RequestFromFather(h: nat) returns (block: set<nat>)
      requires Linked() && LiveGroup(TheForest(), h) && loads.Length <= CPU_SETSIZE
      requires Workable(NodeOf(TheForest(), h).s, ThePlaces().claims[h], loads.Length) && NodeOf(TheForest(), h).s > 1
      modifies this`groups
      ensures Linked() && TheForest() == old(TheForest())
      ensures block == AimBlock(NodeOf(TheForest(), h).s, old(ThePlaces()).claims[h], loads[..])
      ensures ThePlaces() ==
        old(ThePlaces()).(claims := old(ThePlaces()).claims[h := Claim(old(ThePlaces()).claims[h], block)])
    {
      GroupFacts(h);
      var r := groups[h].value;
      assert ThePlaces().claims[h] == ClaimsIn(r);
      var used, roll;
      block, used, roll := NextBlock(r);
      Mark(h, r.total, used, roll);
    }

    /** `wayca_group_request_resource`, and the marks cleared after it: the whole machine, or the father's
        next block. */
    method RequestResource(g: nat)
      requires Linked() && LiveGroup(TheForest(), g) && loads.Length == topo.n <= CPU_SETSIZE
      requires NodeOf(TheForest(), g).father.Some? ==>
                 var h := NodeOf(TheForest(), g).father.value;
                 && LiveGroup(TheForest(), h)
                 && Workable(NodeOf(TheForest(), h).s, ThePlaces().claims[h], loads.Length)
                 && NodeOf(TheForest(), h).s > 1
      modifies this`groups
      ensures Linked() && TheForest() == old(TheForest())
      ensures ThePlaces() == Request(TheForest(), old(ThePlaces()), g)
    {
      GroupFacts(g);
      var total := AllCpus(topo.n);
      if groups[g].value.father.Some? {
        total := RequestFromFather(groups[g].value.father.value);
      }
      GroupFacts(g);
      Mark(g, total, {}, 0);
    }

    /** One step of re-placing a group's threads: unload, reseat, load. */
    method MoveMember(g: nat, u: nat)
      requires Linked() && IsG(groups, g) && IsT(threads, u) && OnMachine(ThePlaces())
      requires Searchable(groups[g].value.s, ThePlaces().claims[g], loads.Length)
      modifies this`threads, this`groups, loads
      ensures Linked() && TheForest() == old(TheForest())
      ensures ThePlaces() == SeatThread(ModeOf(NodeOf(TheForest(), g)), old(ThePlaces()), g, u)
    {
      ghost var f, p := TheForest(), ThePlaces();
      ghost var m := ModeOf(NodeOf(f, g));
      var cpus := threads[u].value.cpus;
      assert p.seats[u].cpus == cpus && p.claims[g] == ClaimsIn(groups[g].value);
      SeatThreadIs(m, p, g, u);
      UpdateLoad(loads, cpus, false);
      ghost var q := ThePlaces();
      assert q == p.(loads := SubLoad(p.loads, cpus));
      SeatMember(g, u);
      ghost var r := ThePlaces();
      assert r.seats[u] == Seat(threads[u].value.target, threads[u].value.cpus);
      UpdateLoad(loads, threads[u].value.cpus, true);
      assert ThePlaces() == r.(loads := AddLoad(r.loads, r.seats[u].cpus));
    }

    method FirstThread(g: nat) returns (u: Option<nat>)
      requires Linked() && LiveGroup(TheForest(), g)
      ensures u == HeadOf(NodeOf(TheForest(), g).threads)
    {
      GroupFacts(g);
      assert Chain(NextT(threads), HeadsT(groups)[g], members[g]);
      u := groups[g].value.threads;
    }

    method NextThread(g: nat, u: nat, ghost i: nat) returns (next: Option<nat>)
      requires Linked() && LiveGroup(TheForest(), g) && i < |NodeOf(TheForest(), g).threads|
      requires LiveThread(TheForest(), u)
      requires u == NodeOf(TheForest(), g).threads[i]
      ensures next == NextOf(NodeOf(TheForest(), g).threads, i)
    {
      GroupFacts(g);
      assert Chain(NextT(threads), HeadsT(groups)[g], members[g]);
      assert NextT(threads)[members[g][i]] == NextOf(members[g], i);
      next := threads[u].value.siblings;
    }

    /** One turn of the loop: reseat the thread and go to its sibling. */
    method MoveNext(g: nat, u: nat, ghost q: Places, ghost i: nat) returns (next: Option<nat>)
      requires Linked() && loads.Length == topo.n && Replaceable(topo, TheForest(), q, g) && Fresh(q.claims[g])
      requires i < |NodeOf(TheForest(), g).threads| && u == NodeOf(TheForest(), g).threads[i]
      requires ThePlaces() == SeatFirst(topo, TheForest(), q, g, i)
      modifies this`threads, this`groups, loads
      ensures Linked() && TheForest() == old(TheForest()) && ThePlaces() == SeatFirst(topo, TheForest(), q, g, i + 1)
      ensures next == NextOf(NodeOf(TheForest(), g).threads, i)
    {
      SeatPrefix(topo, TheForest(), q, g, i);
      SeatFirstNext(topo, TheForest(), q, g, i);
      GroupFacts(g);
      MoveMember(g, u);
      next := NextThread(g, u, i);
    }

    /** The thread loop of `wayca_group_rearrange_group`. */
    method SeatMembers(g: nat)
      requires Linked() && loads.Length == topo.n && Replaceable(topo, TheForest(), ThePlaces(), g)
      requires Fresh(ThePlaces().claims[g])
      modifies this`threads, this`groups, loads
      ensures Linked() && TheForest() == old(TheForest())
      ensures ThePlaces() == SeatFirst(topo, TheForest(), old(ThePlaces()), g, |NodeOf(TheForest(), g).threads|)
    {
      ghost var f, q := TheForest(), ThePlaces();
      ghost var xs, i := NodeOf(f, g).threads, 0;
      var u := FirstThread(g);
      while u.Some?
        invariant 0 <= i <= |xs| && u == (if i < |xs| then Some(xs[i]) else None)
        invariant Linked() && TheForest() == f && ThePlaces() == SeatFirst(topo, f, q, g, i)
        decreases |xs| - i
      {
        u := MoveNext(g, u.value, q, i);
        i := i + 1;
      }
    }

    method FirstChild(g: nat) returns (c: Option<nat>)
      requires Linked() && LiveGroup(TheForest(), g)
      ensures c == HeadOf(NodeOf(TheForest(), g).groups)
    {
      GroupFacts(g);
      assert Chain(NextG(groups), HeadsG(groups)[g], children[g]);
      c := groups[g].value.groups;
    }

    method NextChild(g: nat, c: nat, ghost i: nat) returns (next: Option<nat>)
      requires Linked() && LiveGroup(TheForest(), g) && i < |NodeOf(TheForest(), g).groups| && LiveGroup(TheForest(), c)
      requires c == NodeOf(TheForest(), g).groups[i]
      ensures next == NextOf(NodeOf(TheForest(), g).groups, i)
    {
      GroupFacts(g);
      assert Chain(NextG(groups), HeadsG(groups)[g], children[g]);
      assert NextG(groups)[children[g][i]] == NextOf(children[g], i);
      next := groups[c].value.siblings;
    }

    /** The child loop of `wayca_group_rearrange_group`; it ignores the children's results. */
    method RearrangeChildren(g: nat)
      requires Linked() && loads.Length == topo.n && Replaceable(topo, TheForest(), ThePlaces(), g)
      modifies this`threads, this`groups, loads
      ensures Linked() && TheForest() == old(TheForest())
      ensures ThePlaces() == ReplaceFirst(topo, TheForest(), old(ThePlaces()), g, |NodeOf(TheForest(), g).groups|)
      decreases NodeOf(TheForest(), g).s, 0
    {
      ghost var f, q := TheForest(), ThePlaces();
      ghost var xs, i := NodeOf(f, g).groups, 0;
      var c := FirstChild(g);
      while c.Some?
        invariant 0 <= i <= |xs| && c == (if i < |xs| then Some(xs[i]) else None)
        invariant Linked() && TheForest() == f && ThePlaces() == ReplaceFirst(topo, f, q, g, i)
        decreases |xs| - i
      {
        ChildReplaceable(topo, f, q, g, i);
        ReplaceFirstNext(topo, f, q, g, i);
        RetagSame(topo, f, c.value);
        var ret := RearrangeGroup(c.value);
        c := NextChild(g, c.value, i);
        i := i + 1;
      }
    }

    /** The rest of `wayca_group_rearrange_group` once the group has its parameters. */
    method PlaceGroup(g: nat)
      requires Linked() && loads.Length == topo.n && Replaceable(topo, TheForest(), ThePlaces(), g)
      modifies this`threads, this`groups, loads
      ensures Linked() && TheForest() == old(TheForest())
      ensures ThePlaces() == Replace(topo, TheForest(), old(ThePlaces()), g)
      decreases NodeOf(TheForest(), g).s, 1
    {
      ghost var f, p := TheForest(), ThePlaces();
      if NodeOf(f, g).father.Some? { ShapeWorkable(topo, f, p, NodeOf(f, g).father.value); }
      RequestReplaceable(topo, f, p, g);
      RequestResource(g);
      GroupFacts(g);
      if groups[g].value.nrThreads != 0 {
        SeatMembers(g);
      } else {
        RearrangeChildren(g);
      }
      ReplaceIs(topo, f, p, g);
    }

    /** The two checks of `wayca_group_rearrange_group`, on the granularity the group has. */
    method TooCoarseOrFine(g: nat) returns (refused: bool)
      requires Linked() && LiveGroup(TheForest(), g)
      requires NodeOf(TheForest(), g).father.Some? ==> LiveGroup(TheForest(), NodeOf(TheForest(), g).father.value)
      requires forall c | c in NodeOf(TheForest(), g).groups :: LiveGroup(TheForest(), c) && c != g
      ensures refused == Refused(TheForest(), g)
    {
      GroupFacts(g);
      assert AllG(groups, children[g], g) by {
        assert forall k | 0 <= k < |children[g]| :: children[g][k] in NodeOf(TheForest(), g).groups;
      }
      if groups[g].value.father.Some? {
        GroupFacts(groups[g].value.father.value);
        if groups[g].value.s >= groups[groups[g].value.father.value].value.s { return true; }
      }
      var most := MaxTopoCpusInChildren(g);
      refused := groups[g].value.s <= most;
    }

    /** `wayca_group_rearrange_group`: check the granularity the group has, arrange its parameters, and
        place it and everything below it again. */
    method RearrangeGroup(g: nat) returns (ret: int)
      requires Linked() && loads.Length == topo.n && CanRearrange(topo, TheForest(), ThePlaces(), g)
      modifies this`threads, this`groups, loads
      ensures Linked()
      ensures Rearranged(topo, old(TheForest()), old(ThePlaces()), g, ret, TheForest(), ThePlaces())
      decreases Depth(topo, TheForest(), g), 2
    {
      var refused := TooCoarseOrFine(g);
      if refused { return -34; }
      GroupFacts(g);
      var r := Arrange(topo, groups[g].value.attribute);
      if r.Invalid? { return -22; }
      SetParameters(g, r.attribute, r.s);
      PlaceGroup(g);
      ret := 0;
    }

    /** What `wayca_group_arrange` stores in the group. */
    method SetParameters(g: nat, attribute: bv64, s: nat)
      requires Linked() && LiveGroup(TheForest(), g)
      modifies this`groups
      ensures Linked() && TheForest() == Api.Retag(old(TheForest()), g, attribute, s) && ThePlaces() == old(ThePlaces())
    {
      GroupFacts(g);
      RetagOk(threads, groups, members, children, g, attribute, s);
      groups := SetG(groups, g, groups[g].value.(attribute := attribute, s := s));
    }

    // -------- group calls that re-place --------

    /** `wayca_group_add_group`: link the group and rearrange it, or unlink it again. */
    method AddGroup(g: nat, h: nat) returns (ret: int)
      requires Linked() && Woven(topo, TheForest()) && loads.Length == topo.n
      requires LiveGroup(TheForest(), g) && LiveGroup(TheForest(), h) && g != h && NodeOf(TheForest(), g).father == None
      requires g !in NodeOf(TheForest(), h).groups && NodeOf(TheForest(), h).threads == [] ==>
                 CanRearrange(topo, Library.AddGroup(TheForest(), g, h), ThePlaces(), g)
      modifies this`threads, this`groups, this`children, loads
      ensures Linked()
      ensures var f, p := old(TheForest()), old(ThePlaces());
        if g in NodeOf(f, h).groups || NodeOf(f, h).threads != [] then
          ret == -22 && TheForest() == f && ThePlaces() == p
        else
          var f' := Library.AddGroup(f, g, h);
          if ret < 0 then TheForest() == f && ThePlaces() == p && Rearranged(topo, f', p, g, ret, f', p)
          else Rearranged(topo, f', p, g, ret, TheForest(), ThePlaces())
    {
      ghost var f := TheForest();
      GroupFacts(g);
      GroupFacts(h);
      MembersLive(topo, threads, groups, members, children, h);
      var present := IsGroupInFather(g, h);
      if present { return -22; }
      if groups[h].value.nrThreads != 0 { return -22; }
      LinkGroup(g, h);
      ret := RearrangeGroup(g);
      if ret < 0 {
        UndoGraft(f, g, h);
        Unlink(f, g, h);
      }
    }

    /** Take the group just linked off its father's list again. */
    method Unlink(ghost f: Forest, g: nat, h: nat)
      requires Linked() && Woven(topo, f) && LiveGroup(f, g) && LiveGroup(f, h) && g != h
      requires TheForest() == Library.AddGroup(f, g, h)
      modifies this`groups, this`children
      ensures Linked() && TheForest() == DropGroup(old(TheForest()), g, h) && ThePlaces() == old(ThePlaces())
    {
      GroupFacts(h);
      assert Knit(topo, f, h);
      forall k | 0 <= k < |children[h]|
        ensures children[h][k] < |groups| && groups[children[h][k]].Some? && children[h][k] != h
      {
        GroupFacts(children[h][k]);
        assert k < |children[h]| - 1 ==> children[h][k] in NodeOf(f, h).groups;
        if k < |children[h]| - 1 { assert Knit(topo, f, children[h][k]); }
      }
      assert children[h][|children[h]| - 1] == g;
      UnlinkGroup(g, h);
    }

    /** `wayca_sc_group_attach_group`.  Attaching a group to itself blocks on the group's own lock. */
    method AttachGroup(g: nat, h: nat) returns (ret: int)
      requires Valid() && Defined(View(), GroupAttach(g, h))
      modifies this`threads, this`groups, this`children, loads
      ensures Valid() && View() == After(old(View()), GroupAttach(g, h))
      ensures ret == Status(Perform(old(View()), GroupAttach(g, h)))
    {
      ghost var st := View();
      StepBase(st, GroupAttach(g, h));
      GroupFacts(g);
      GroupFacts(h);
      if !(g < |groups| && groups[g].Some?) || !(h < |groups| && groups[h].Some?) { return -22; }
      if groups[g].value.father.Some? { return -22; }
      if g !in NodeOf(st.forest, h).groups && NodeOf(st.forest, h).threads == [] { GraftCan(st, g, h); }
      ret := AddGroup(g, h);
    }

    /** `wayca_sc_group_set_attr` */
    method SetAttribute(g: nat, attribute: bv64) returns (ret: int)
      requires Valid()
      modifies this`threads, this`groups, loads
      ensures Valid() && View() == After(old(View()), GroupSetAttr(g, attribute))
      ensures ret == Status(Perform(old(View()), GroupSetAttr(g, attribute)))
    {
      ghost var st := View();
      StepBase(st, GroupSetAttr(g, attribute));
      GroupFacts(g);
      if !(g < |groups| && groups[g].Some?) { return -22; }
      RetagCan(st, g, attribute);
      ret := ChangeAttribute(g, attribute);
    }

    /** Try the new attribute; the old one comes back when it is refused. */
    method ChangeAttribute(g: nat, attribute: bv64) returns (ret: int)
      requires Linked() && loads.Length == topo.n && LiveGroup(TheForest(), g)
      requires var f := TheForest();
        var f1 := Api.Retag(f, g, attribute, NodeOf(f, g).s);
        && CanRearrange(topo, f1, ThePlaces(), g)
        && (NodeOf(f, g).father.Some? ==> LiveGroup(f, NodeOf(f, g).father.value))
        && (forall c | c in NodeOf(f, g).groups :: LiveGroup(f, c))
        && (Refused(f1, g) <==> Refused(f, g))
        && (forall b, s :: Api.Retag(f1, g, b, s) == Api.Retag(f, g, b, s))
        && Api.Retag(f, g, NodeOf(f, g).attribute, NodeOf(f, g).s) == f
      modifies this`threads, this`groups, loads
      ensures Linked()
      ensures var f, p := old(TheForest()), old(ThePlaces());
        if Refused(f, g) then ret == -34 && TheForest() == f && ThePlaces() == p
        else match Arrange(topo, attribute)
        case Invalid => ret == -22 && TheForest() == f && ThePlaces() == p
        case Arranged(a, s) =>
          ret == 0 && TheForest() == Api.Retag(f, g, a, s) && ThePlaces() == Replace(topo, TheForest(), p, g)
    {
      ghost var f := TheForest();
      GroupFacts(g);
      var before := groups[g].value.attribute;
      SetParameters(g, attribute, groups[g].value.s);
      ret := RearrangeGroup(g);
      if ret < 0 {
        GroupFacts(g);
        SetParameters(g, before, groups[g].value.s);
      }
    }
  }
}
