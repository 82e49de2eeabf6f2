/** Attaching child groups one after the other to a fresh father: the documented ranges of the groups. */
module Families {
  import opened CpuSet
  import opened Topology
  import opened Allocator
  import opened Library
  import opened Api
  import opened Runs
  import B = Batches
  import C = Crews
  import P = Placement

  /** Attach the groups `gs` to group `h`, in order. */
  ghost function AttachGroups(st: State, gs: seq<nat>, h: nat): State
    requires Usable(st)
    decreases |gs|
  {
    if gs == [] then st
    else
      var st1 := AttachGroups(st, gs[..|gs| - 1], h);
      if Usable(st1) && AttachGroup(st1, gs[|gs| - 1], h).Done? then AttachGroup(st1, gs[|gs| - 1], h).st else st1
  }

  /** A father serves its children like a scattered group its threads. */
  function Serving(f: Forest, h: nat): Mode
    requires LiveGroup(f, h)
  {
    Mode(NodeOf(f, h).s, false, false)
  }

  /** A father without members, on `len` equally loaded CPUs from `lo`. */
  ghost predicate FreshFather(st: State, h: nat, lo: nat, len: nat, u: int)
    requires Usable(st)
  {
    && LiveGroup(st.forest, h) && NodeOf(st.forest, h).threads == [] && NodeOf(st.forest, h).groups == []
    && P.Frame(Serving(st.forest, h), lo, len) && lo + len <= st.topo.n
    && st.places.claims[h] == Claims(Block(lo, len), {}, 0)
    && forall d: nat | d < len :: P.At(st.places.loads, lo, d) == u
  }

  /** A group that may become a child of `h`: no members, no father, and finer. */
  ghost predicate Orphan(f: Forest, g: nat, h: nat) {
    && LiveGroup(f, g) && LiveGroup(f, h) && g != h && NodeOf(f, g).s < NodeOf(f, h).s
    && NodeOf(f, g).father == None && NodeOf(f, g).threads == [] && NodeOf(f, g).groups == []
  }

  /** An empty group gets the father's next block, and nothing else moves. */
  lemma OrphanServed(st: State, g: nat, h: nat)
    requires Base(st) && Orphan(st.forest, g, h) && NodeOf(st.forest, h).threads == []
    ensures AttachGroup(st, g, h).Done? && Defined(st, GroupAttach(g, h))
    ensures var st' := AttachGroup(st, g, h).st;
      var b := AimBlock(NodeOf(st.forest, h).s, st.places.claims[h], st.places.loads);
      && st'.topo == st.topo && st'.forest == AddGroup(st.forest, g, h)
      && st'.places == st.places.(claims := st.places.claims[h := Claim(st.places.claims[h], b)][g := Claims(b, {}, 0)])
  {
    var f := st.forest;
    OrphanAccepted(st, g, h);
    AddGroupWoven(st.topo, f, g, h);
    AddedNodes(f, g, h);
    EmptyReplaced(st.topo, AddGroup(f, g, h), st.places, g, h);
  }

  lemma OrphanAccepted(st: State, g: nat, h: nat)
    requires Base(st) && Orphan(st.forest, g, h) && NodeOf(st.forest, h).threads == []
    ensures AttachGroup(st, g, h).Done? && Defined(st, GroupAttach(g, h)) && g !in NodeOf(st.forest, h).groups
  {
    assert Knit(st.topo, st.forest, h) && Knit(st.topo, st.forest, g);
    ShapeWorkable(st.topo, st.forest, st.places, g);
  }

  lemma AddedNodes(f: Forest, g: nat, h: nat)
    requires LiveGroup(f, g) && LiveGroup(f, h) && g != h
    ensures var f' := AddGroup(f, g, h);
      && LiveGroup(f', g) && NodeOf(f', g) == NodeOf(f, g).(father := Some(h))
      && LiveGroup(f', h) && NodeOf(f', h).s == NodeOf(f, h).s && |f'.groups| == |f.groups| && f'.threads == f.threads
  {
  }

  lemma EmptyReplaced(t: Topo, f: Forest, p: Places, g: nat, h: nat)
    requires Woven(t, f) && Fit(f, p) && LiveGroup(f, g) && LiveGroup(f, h)
    requires NodeOf(f, g).father == Some(h) && NodeOf(f, g).threads == [] && NodeOf(f, g).groups == []
    ensures Replace(t, f, p, g) == Request(f, p, g)
  {
  }

  /** On equally loaded CPUs the first unclaimed one is aimed at. */
  lemma EqualTarget(m: Mode, c: Claims, loads: seq<int>, lo: nat, done: nat, len: nat, u: int)
    requires !m.compact && Workable(m.s, c, |loads|) && done < len && lo + len <= |loads|
    requires Free(c) == Block(lo + done, len - done) && (lo + done) % m.s == 0 && (len - done) % m.s == 0
    requires forall d: nat | d < len :: P.At(loads, lo, d) == u
    ensures Target(m, c, loads) == lo + done
  {
    forall d: nat | d < len - done
      ensures P.At(loads, lo + done, d) == u + if P.Off(d, m.s) < 0 then 1 else 0
    {
      assert P.At(loads, lo, done + d) == u;
    }
    P.PatternTarget(m, c, loads, lo + done, len - done, u, 1, 0);
  }

  /** The k-th block of the father. */
  lemma KthBlock(m: Mode, lo: nat, len: nat, k: nat, loads: seq<int>, u: int)
    requires !m.compact && !m.perCpu && P.Frame(m, lo, len) && P.Blocks(m, len) > 0
    requires lo + len <= |loads| && |loads| % m.s == 0 && forall d: nat | d < len :: P.At(loads, lo, d) == u
    ensures var c, b := P.ClosedClaims(m, lo, len, k), B.TableCpus(m, lo, len, k);
      AimBlock(m.s, c, loads) == b && Claim(c, b) == P.ClosedClaims(m, lo, len, k + 1)
  {
    var c := P.ClosedClaims(m, lo, len, k);
    P.ClosedSound(m, lo, len, k, |loads|);
    var done, full, off := P.Position(m, lo, len, k);
    P.ScatterFree(m, lo, len, k);
    EqualTarget(m, c, loads, lo, done, len, u);
    C.BlockIsSeat(m.s, c, loads);
    P.ClosedStep(m, lo, len, k);
    B.SeatIsTable(m, lo, len, k);
  }

  /** What holds after k of the groups are attached. */
  ghost predicate Progress(st: State, st': State, gs: seq<nat>, k: nat, h: nat, lo: nat, len: nat)
    requires Usable(st) && k <= |gs| && LiveGroup(st.forest, h) && P.Frame(Serving(st.forest, h), lo, len)
    requires P.Blocks(Serving(st.forest, h), len) > 0
  {
    var m := Serving(st.forest, h);
    && Base(st') && st'.topo == st.topo && LiveGroup(st'.forest, h) && Serving(st'.forest, h) == m
    && NodeOf(st'.forest, h).threads == [] && st'.places.loads == st.places.loads
    && st'.places.claims[h] == P.ClosedClaims(m, lo, len, k)
    && (forall i | 0 <= i < k :: LiveGroup(st'.forest, gs[i]) && NodeOf(st'.forest, gs[i]).father == Some(h)
          && st'.places.claims[gs[i]].total == B.TableCpus(m, lo, len, i))
    && forall i | k <= i < |gs| :: Orphan(st'.forest, gs[i], h)
  }

  lemma ProgressStart(st: State, gs: seq<nat>, h: nat, lo: nat, len: nat, u: int)
    requires Base(st) && FreshFather(st, h, lo, len, u) && forall i | 0 <= i < |gs| :: Orphan(st.forest, gs[i], h)
    ensures P.Blocks(Serving(st.forest, h), len) > 0 && Progress(st, st, gs, 0, h, lo, len)
  {
    var m := Serving(st.forest, h);
    P.FrameFacts(m, lo, len);
    P.InBlockMod(0, P.Blocks(m, len));
    assert Block(lo, 0) == {};
  }

  lemma ServedBlock(st: State, g: nat, h: nat, m: Mode, lo: nat, len: nat, k: nat, u: int)
    requires Base(st) && Orphan(st.forest, g, h) && m == Serving(st.forest, h) && NodeOf(st.forest, h).threads == []
    requires P.Frame(m, lo, len) && P.Blocks(m, len) > 0 && lo + len <= st.topo.n
    requires st.places.claims[h] == P.ClosedClaims(m, lo, len, k)
    requires forall d: nat | d < len :: P.At(st.places.loads, lo, d) == u
    ensures AttachGroup(st, g, h).Done? && Base(AttachGroup(st, g, h).st)
    ensures var st', b := AttachGroup(st, g, h).st, B.TableCpus(m, lo, len, k);
      && st'.topo == st.topo && st'.forest == AddGroup(st.forest, g, h) && st'.places.loads == st.places.loads
      && st'.places.claims == st.places.claims[h := P.ClosedClaims(m, lo, len, k + 1)][g := Claims(b, {}, 0)]
  {
    OrphanServed(st, g, h);
    ShapeWorkable(st.topo, st.forest, st.places, h);
    KthBlock(m, lo, len, k, st.places.loads, u);
    StepBase(st, GroupAttach(g, h));
  }

  /** What attaching `g` changes for another group. */
  lemma OthersSame(f: Forest, g: nat, h: nat, x: nat)
    requires LiveGroup(f, g) && LiveGroup(f, h) && g != h && LiveGroup(f, x) && x != g
    ensures var f' := AddGroup(f, g, h);
      && LiveGroup(f', x) && (x != h ==> NodeOf(f', x) == NodeOf(f, x))
      && (x == h ==> NodeOf(f', x).(groups := []) == NodeOf(f, x).(groups := []))
  {
  }

  lemma ProgressStep(st: State, st1: State, gs: seq<nat>, k: nat, h: nat, lo: nat, len: nat, u: int)
    requires Usable(st) && FreshFather(st, h, lo, len, u) && k < |gs| && Distinct(gs)
    requires P.Blocks(Serving(st.forest, h), len) > 0 && Progress(st, st1, gs, k, h, lo, len)
    ensures AttachGroup(st1, gs[k], h).Done? && Progress(st, AttachGroup(st1, gs[k], h).st, gs, k + 1, h, lo, len)
  {
    var m, g := Serving(st.forest, h), gs[k];
    ServedBlock(st1, g, h, m, lo, len, k, u);
    var st2 := AttachGroup(st1, g, h).st;
    OthersSame(st1.forest, g, h, h);
    forall i | 0 <= i < k
      ensures LiveGroup(st2.forest, gs[i]) && NodeOf(st2.forest, gs[i]).father == Some(h)
      ensures st2.places.claims[gs[i]].total == B.TableCpus(m, lo, len, i)
    {
      assert gs[i] != h by { assert Knit(st1.topo, st1.forest, gs[i]); }
      OthersSame(st1.forest, g, h, gs[i]);
    }
    forall i | k + 1 <= i < |gs|
      ensures Orphan(st2.forest, gs[i], h)
    {
      OthersSame(st1.forest, g, h, gs[i]);
    }
  }

  lemma OneMore(st: State, xs: seq<nat>, x: nat, h: nat)
    requires Usable(st) && Usable(AttachGroups(st, xs, h)) && AttachGroup(AttachGroups(st, xs, h), x, h).Done?
    ensures AttachGroups(st, xs + [x], h) == AttachGroup(AttachGroups(st, xs, h), x, h).st
  {
    assert (xs + [x])[..|xs|] == xs;
  }

  lemma ProgressNext(st: State, gs: seq<nat>, k: nat, h: nat, lo: nat, len: nat, u: int)
    requires Usable(st) && FreshFather(st, h, lo, len, u) && k < |gs| && Distinct(gs)
    requires P.Blocks(Serving(st.forest, h), len) > 0 && Progress(st, AttachGroups(st, gs[..k], h), gs, k, h, lo, len)
    ensures Progress(st, AttachGroups(st, gs[..k + 1], h), gs, k + 1, h, lo, len)
  {
    ProgressStep(st, AttachGroups(st, gs[..k], h), gs, k, h, lo, len, u);
    OneMore(st, gs[..k], gs[k], h);
    assert gs[..k] + [gs[k]] == gs[..k + 1];
  }

  lemma {:induction false} ProgressAll(st: State, gs: seq<nat>, k: nat, h: nat, lo: nat, len: nat, u: int)
    requires Base(st) && FreshFather(st, h, lo, len, u) && (forall i | 0 <= i < |gs| :: Orphan(st.forest, gs[i], h))
    requires Distinct(gs) && k <= |gs| && P.Blocks(Serving(st.forest, h), len) > 0
    ensures Progress(st, AttachGroups(st, gs[..k], h), gs, k, h, lo, len)
  {
    if k == 0 {
      ProgressStart(st, gs, h, lo, len, u);
    } else {
      ProgressAll(st, gs, k - 1, h, lo, len, u);
      ProgressNext(st, gs, k - 1, h, lo, len, u);
    }
  }

  /** Attach any number of empty groups to a fresh father on equally loaded CPUs, whose attribute names a level of `k`
      CPUs: the i-th of them covers block i, counted round and round. */
  lemma GroupTable(st: State, gs: seq<nat>, h: nat, level: bv64, b: bv64, k: nat, lo: nat, len: nat, u: int, i: nat)
    requires Base(st) && FreshFather(st, h, lo, len, u) && (forall j | 0 <= j < |gs| :: Orphan(st.forest, gs[j], h))
    requires Distinct(gs) && i < |gs| && IsCount(st.topo, level, k) && k > 0 && IsBinding(b)
    requires NodeOf(st.forest, h).attribute == level | b
    ensures len / k > 0 && gs[i] < |AttachGroups(st, gs, h).places.claims|
    ensures AttachGroups(st, gs, h).places.claims[gs[i]].total == Block(lo + B.Times(i % (len / k), k), k)
  {
    B.WordGranularity(st, h, level, k, b);
    P.FrameFacts(Serving(st.forest, h), lo, len);
    ProgressAll(st, gs, |gs|, h, lo, len, u);
    assert gs[..|gs|] == gs;
  }
}
