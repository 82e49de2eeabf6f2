/** Attaching a batch of threads to a fresh group: the documented placement table. */
module Batches {
  import opened CpuSet
  import opened Topology
  import opened Allocator
  import opened Library
  import opened Api
  import opened Runs
  import opened Order
  import P = Placement

  /** Attach the threads `us` to group `g`, in order. */
  ghost function AttachAll(st: State, us: seq<nat>, g: nat): State
    requires Usable(st)
    decreases |us|
  {
    if us == [] then st
    else
      var st1 := AttachAll(st, us[..|us| - 1], g);
      if Usable(st1) && AttachThread(st1, us[|us| - 1], g).Done? then AttachThread(st1, us[|us| - 1], g).st else st1
  }

  /** The load each thread of the group adds per CPU. */
  function SeatLoad(m: Mode, n: nat): nat
    requires m.s > 0
  {
    if m.perCpu then n else (n + m.s - 1) / m.s
  }

  lemma SeatLoadIs(m: Mode, n: nat, t: nat)
    requires m.s > 0 && n > 0
    ensures LoadOf(n, SeatAt(m, t).cpus) == SeatLoad(m, n) > 0
  {
    BlockCard(Start(t, m.s), m.s);
    CeilPositive(n, m.s);
  }

  lemma CeilPositive(n: nat, s: nat)
    requires s > 0 && n > 0
    ensures (n + s - 1) / s > 0
  {
  }

  /** A fresh group without members, on `len` equally loaded CPUs from `lo`. */
  ghost predicate FreshGroup(st: State, g: nat, lo: nat, len: nat, u: int)
    requires Usable(st)
  {
    && LiveGroup(st.forest, g) && NodeOf(st.forest, g).threads == [] && NodeOf(st.forest, g).groups == []
    && P.Frame(ModeOf(NodeOf(st.forest, g)), lo, len) && lo + len <= st.topo.n
    && st.places.claims[g] == Claims(Block(lo, len), {}, 0)
    && forall d: nat | d < len :: P.At(st.places.loads, lo, d) == u
  }

  /** Distinct threads in no group, each free to run on all the group's CPUs. */
  ghost predicate Roamers(st: State, us: seq<nat>, total: set<nat>)
    requires Usable(st)
  {
    && Distinct(us)
    && forall i | 0 <= i < |us| ::
       LiveThread(st.forest, us[i]) && st.forest.threads[us[i]] == Live(None) && total <= st.places.seats[us[i]].cpus
  }

  /** What holds after k of the threads are attached. */
  ghost predicate Progress(st: State, st': State, us: seq<nat>, k: nat, g: nat, lo: nat, len: nat, u: int)
    requires Usable(st) && k <= |us| && LiveGroup(st.forest, g)
    requires P.Frame(ModeOf(NodeOf(st.forest, g)), lo, len) && lo + len <= st.topo.n
    requires P.Blocks(ModeOf(NodeOf(st.forest, g)), len) > 0
  {
    var m := ModeOf(NodeOf(st.forest, g));
    && Inv(st') && st'.topo == st.topo && LiveGroup(st'.forest, g)
    && ModeOf(NodeOf(st'.forest, g)) == m && NodeOf(st'.forest, g).groups == []
    && NodeOf(st'.forest, g).threads == us[..k]
    && |st'.forest.threads| == |st.forest.threads|
    && st'.places.claims[g] == P.ClosedClaims(m, lo, len, k)
    && P.LoadsAfter(m, lo, len, k, st'.places.loads, u, SeatLoad(m, st.topo.n))
    && (forall i | 0 <= i < k ::
       us[i] < |st'.places.seats| && st'.places.seats[us[i]] == SeatAt(m, P.ClosedTarget(m, lo, len, i)))
    && (forall i | k <= i < |us| :: us[i] < |st'.places.seats| && st'.forest.threads[us[i]] == Live(None)
          && st'.places.seats[us[i]] == st.places.seats[us[i]])
  }

  lemma ProgressStart(st: State, us: seq<nat>, g: nat, lo: nat, len: nat, u: int)
    requires Inv(st) && FreshGroup(st, g, lo, len, u) && Roamers(st, us, Block(lo, len))
    ensures P.Blocks(ModeOf(NodeOf(st.forest, g)), len) > 0
    ensures Progress(st, st, us, 0, g, lo, len, u)
  {
    var m := ModeOf(NodeOf(st.forest, g));
    P.FrameFacts(m, lo, len);
    assert P.ClosedClaims(m, lo, len, 0) == Claims(Block(lo, len), {}, 0) by {
      P.InBlockMod(0, len);
      P.InBlockMod(0, P.Blocks(m, len));
      assert Block(lo, 0) == {};
    }
    assert us[..0] == [];
  }

  /** Taking away the roaming thread's load, the group's CPUs are as equally loaded as before. */
  lemma RoamerLifts(m: Mode, lo: nat, len: nat, k: nat, loads: seq<int>, cpus: set<nat>, u: int, w: nat)
    requires P.Frame(m, lo, len) && lo + len <= |loads| && P.Blocks(m, len) > 0
    requires P.LoadsAfter(m, lo, len, k, loads, u, w) && Block(lo, len) <= cpus
    ensures P.LoadsAfter(m, lo, len, k, SubLoad(loads, cpus), u - LoadOf(|loads|, cpus), w)
  {
    forall d: nat | d < len
      ensures P.At(SubLoad(loads, cpus), lo, d) == u - LoadOf(|loads|, cpus) + w * P.Hits(m, lo, len, k, lo + d)
    {
      assert lo + d in Block(lo, len);
      assert P.At(loads, lo, d) == u + w * P.Hits(m, lo, len, k, lo + d);
    }
  }

  lemma SeatLands(m: Mode, lo: nat, len: nat, k: nat, loads: seq<int>, u: int)
    requires P.Frame(m, lo, len) && lo + len <= |loads| && P.Blocks(m, len) > 0
    requires P.LoadsAfter(m, lo, len, k, loads, u, SeatLoad(m, |loads|))
    ensures P.LoadsAfter(m, lo, len, k + 1, AddLoad(loads, SeatAt(m, P.ClosedTarget(m, lo, len, k)).cpus), u,
      SeatLoad(m, |loads|))
  {
    var t := P.ClosedTarget(m, lo, len, k);
    SeatLoadIs(m, |loads|, t);
    P.LoadsStep(m, lo, len, k, loads, AddLoad(loads, SeatAt(m, t).cpus), u, u, SeatLoad(m, |loads|));
  }

  /** One more thread: the places after it. */
  lemma SeatStep(m: Mode, p: Places, g: nat, x: nat, lo: nat, len: nat, k: nat, u: int) returns (v: int)
    requires g < |p.claims| && x < |p.seats| && P.Frame(m, lo, len) && lo + len <= |p.loads| && P.Blocks(m, len) > 0
    requires |p.loads| % m.s == 0
    requires p.claims[g] == P.ClosedClaims(m, lo, len, k) && Block(lo, len) <= p.seats[x].cpus
    requires P.LoadsAfter(m, lo, len, k, p.loads, u, SeatLoad(m, |p.loads|))
    ensures Sound(m.s, p.claims[g], |p.loads|) && Ready(p.claims[g])
    ensures var r := SeatThread(m, p, g, x);
      && r.claims[g] == P.ClosedClaims(m, lo, len, k + 1)
      && r.seats == p.seats[x := SeatAt(m, P.ClosedTarget(m, lo, len, k))]
      && P.LoadsAfter(m, lo, len, k + 1, r.loads, v, SeatLoad(m, |p.loads|))
  {
    var n, cpus := |p.loads|, p.seats[x].cpus;
    v := u - LoadOf(n, cpus);
    RoamerLifts(m, lo, len, k, p.loads, cpus, u, SeatLoad(m, n));
    SeatLoadIs(m, n, 0);
    P.KthPlacement(m, lo, len, k, SubLoad(p.loads, cpus), v, SeatLoad(m, n));
    SeatLands(m, lo, len, k, SubLoad(p.loads, cpus), v);
  }

  lemma ProgressStep(st: State, st1: State, us: seq<nat>, k: nat, g: nat, lo: nat, len: nat, u: int) returns (v: int)
    requires Usable(st) && k < |us| && LiveGroup(st.forest, g) && Roamers(st, us, Block(lo, len))
    requires P.Frame(ModeOf(NodeOf(st.forest, g)), lo, len) && lo + len <= st.topo.n
    requires P.Blocks(ModeOf(NodeOf(st.forest, g)), len) > 0
    requires Progress(st, st1, us, k, g, lo, len, u)
    ensures AttachThread(st1, us[k], g).Done?
    ensures Progress(st, AttachThread(st1, us[k], g).st, us, k + 1, g, lo, len, v)
  {
    var m, x := ModeOf(NodeOf(st.forest, g)), us[k];
    assert NodeOk(st1.topo, st1.forest, g);
    v := SeatStep(m, st1.places, g, x, lo, len, k, u);
    assert x !in us[..k];
    assert Defined(st1, ThreadAttach(x, g));
    AttachThreadInv(st1, x, g);
    assert us[..k] + [x] == us[..k + 1];
  }

  lemma AttachAllSnoc(st: State, xs: seq<nat>, x: nat, g: nat)
    requires Usable(st) && Usable(AttachAll(st, xs, g)) && AttachThread(AttachAll(st, xs, g), x, g).Done?
    ensures AttachAll(st, xs + [x], g) == AttachThread(AttachAll(st, xs, g), x, g).st
  {
    assert (xs + [x])[..|xs|] == xs;
  }

  lemma ProgressNext(st: State, us: seq<nat>, k: nat, g: nat, lo: nat, len: nat, u: int) returns (v: int)
    requires Usable(st) && k < |us| && LiveGroup(st.forest, g) && Roamers(st, us, Block(lo, len))
    requires P.Frame(ModeOf(NodeOf(st.forest, g)), lo, len) && lo + len <= st.topo.n
    requires P.Blocks(ModeOf(NodeOf(st.forest, g)), len) > 0
    requires Progress(st, AttachAll(st, us[..k], g), us, k, g, lo, len, u)
    ensures Progress(st, AttachAll(st, us[..k + 1], g), us, k + 1, g, lo, len, v)
  {
    v := ProgressStep(st, AttachAll(st, us[..k], g), us, k, g, lo, len, u);
    AttachAllSnoc(st, us[..k], us[k], g);
    assert us[..k] + [us[k]] == us[..k + 1];
  }

  lemma {:induction false} ProgressAll(st: State, us: seq<nat>, k: nat, g: nat, lo: nat, len: nat, u: int)
    returns (v: int)
    requires Inv(st) && FreshGroup(st, g, lo, len, u) && Roamers(st, us, Block(lo, len)) && k <= |us|
    requires P.Blocks(ModeOf(NodeOf(st.forest, g)), len) > 0
    ensures Progress(st, AttachAll(st, us[..k], g), us, k, g, lo, len, v)
  {
    if k == 0 {
      ProgressStart(st, us, g, lo, len, u);
      v := u;
    } else {
      var w := ProgressAll(st, us, k - 1, g, lo, len, u);
      v := ProgressNext(st, us, k - 1, g, lo, len, w);
    }
  }

  /** The documented placement table for every size: block i mod B when scattered, CPU
      (i mod B)*s + (i div B) mod s when scattered per CPU, block (i mod len) div s when compact, CPU
      i mod len when compact per CPU. */
  function TableCpus(m: Mode, lo: nat, len: nat, i: nat): set<nat>
    requires m.s > 0 && len > 0 && len / m.s > 0
  {
    var b := len / m.s;
    if m.compact then
      if m.perCpu then {lo + i % len} else Block(lo + Times((i % len) / m.s, m.s), m.s)
    else
      if m.perCpu then {lo + Times(i % b, m.s) + (i / b) % m.s} else Block(lo + Times(i % b, m.s), m.s)
  }

  function Times(a: nat, b: nat): nat { a * b }

  lemma SeatIsTable(m: Mode, lo: nat, len: nat, i: nat)
    requires P.Frame(m, lo, len) && P.Blocks(m, len) > 0
    ensures SeatAt(m, P.ClosedTarget(m, lo, len, i)).cpus == TableCpus(m, lo, len, i)
  {
    if !m.perCpu {
      var p := P.ClosedTarget(m, lo, len, i) - lo;
      var j := p / m.s;
      P.BlockIndex(p, j, m.s);
      P.BlockAligned(m, lo, j);
      StartUnique(lo + j * m.s, lo + p, m.s);
      if !m.compact { P.DivPos(i % P.Blocks(m, len), 0, m.s); }
    }
  }

  /** Attach any number of freely roaming threads to a fresh group on equally loaded CPUs: the i-th of
      them sits exactly where the table says. */
  lemma PlacementTable(st: State, us: seq<nat>, g: nat, lo: nat, len: nat, u: int, i: nat)
    requires Inv(st) && FreshGroup(st, g, lo, len, u) && Roamers(st, us, Block(lo, len)) && i < |us|
    ensures len / ModeOf(NodeOf(st.forest, g)).s > 0 && us[i] < |AttachAll(st, us, g).places.seats|
    ensures AttachAll(st, us, g).places.seats[us[i]].cpus == TableCpus(ModeOf(NodeOf(st.forest, g)), lo, len, i)
  {
    var m := ModeOf(NodeOf(st.forest, g));
    P.FrameFacts(m, lo, len);
    var v := ProgressAll(st, us, |us|, g, lo, len, u);
    assert us[..|us|] == us;
    SeatIsTable(m, lo, len, i);
  }

  /** A group whose attribute names a level of the machine has that many CPUs per member. */
  lemma WordGranularity(st: State, g: nat, level: bv64, k: nat, b: bv64)
    requires Usable(st) && LiveGroup(st.forest, g) && NodeOf(st.forest, g).attribute == level | b
    requires IsCount(st.topo, level, k) && k > 0 && IsBinding(b)
    ensures NodeOf(st.forest, g).s == k
  {
    assert Knit(st.topo, st.forest, g);
    ArrangeWords(st.topo, level, k, b);
  }

  /** The mode a documented word stands for. */
  lemma PlainMode(st: State, g: nat, level: bv64, k: nat)
    requires Usable(st) && LiveGroup(st.forest, g) && IsCount(st.topo, level, k) && k > 0
    requires NodeOf(st.forest, g).attribute == level
    ensures ModeOf(NodeOf(st.forest, g)) == Mode(k, false, false)
  {
    CountFacts(st.topo, level, k);
    BindingWords(level);
    assert level | 0 == level;
    WordGranularity(st, g, level, k, 0);
  }

  lemma PerCpuMode(st: State, g: nat, level: bv64, k: nat)
    requires Usable(st) && LiveGroup(st.forest, g) && IsCount(st.topo, level, k) && k > 0
    requires NodeOf(st.forest, g).attribute == level | WT_GF_PERCPU
    ensures ModeOf(NodeOf(st.forest, g)) == Mode(k, true, false)
  {
    CountFacts(st.topo, level, k);
    BindingWords(level);
    WordGranularity(st, g, level, k, WT_GF_PERCPU);
  }

  lemma CompactMode(st: State, g: nat, level: bv64, k: nat)
    requires Usable(st) && LiveGroup(st.forest, g) && IsCount(st.topo, level, k) && k > 0
    requires NodeOf(st.forest, g).attribute == level | WT_GF_COMPACT
    ensures ModeOf(NodeOf(st.forest, g)) == Mode(k, false, true)
  {
    CountFacts(st.topo, level, k);
    BindingWords(level);
    WordGranularity(st, g, level, k, WT_GF_COMPACT);
  }

  lemma CompactPerCpuMode(st: State, g: nat, level: bv64, k: nat)
    requires Usable(st) && LiveGroup(st.forest, g) && IsCount(st.topo, level, k) && k > 0
    requires NodeOf(st.forest, g).attribute == level | WT_GF_PERCPU | WT_GF_COMPACT
    ensures ModeOf(NodeOf(st.forest, g)) == Mode(k, true, true)
  {
    CountFacts(st.topo, level, k);
    BindingWords(level);
    assert level | WT_GF_PERCPU | WT_GF_COMPACT == level | (WT_GF_PERCPU | WT_GF_COMPACT);
    WordGranularity(st, g, level, k, WT_GF_PERCPU | WT_GF_COMPACT);
  }

  /** The situation of the table, for a level of the machine of `k` CPUs. */
  ghost predicate Tabled(st: State, us: seq<nat>, g: nat, level: bv64, k: nat, lo: nat, len: nat, u: int, i: nat) {
    && Inv(st) && FreshGroup(st, g, lo, len, u) && Roamers(st, us, Block(lo, len)) && i < |us|
    && IsCount(st.topo, level, k) && k > 0
  }

  /** The CPUs thread `i` gets, if it gets any. */
  ghost function CpusAfter(st: State, us: seq<nat>, g: nat, i: nat): set<nat>
    requires Usable(st) && i < |us|
  {
    var p := AttachAll(st, us, g).places;
    if us[i] < |p.seats| then p.seats[us[i]].cpus else {}
  }

  function BlockNumber(d: nat, k: nat): nat
    requires k > 0
  {
    d / k
  }

  /** The documented rows, for the words as they are written. */
  lemma PlainRow(st: State, us: seq<nat>, g: nat, level: bv64, k: nat, lo: nat, len: nat, u: int, i: nat)
    requires Tabled(st, us, g, level, k, lo, len, u, i) && NodeOf(st.forest, g).attribute == level
    ensures len / k > 0 && CpusAfter(st, us, g, i) == Block(lo + Times(i % (len / k), k), k)
  {
    PlainMode(st, g, level, k);
    PlacementTable(st, us, g, lo, len, u, i);
  }

  lemma PerCpuRow(st: State, us: seq<nat>, g: nat, level: bv64, k: nat, lo: nat, len: nat, u: int, i: nat)
    requires Tabled(st, us, g, level, k, lo, len, u, i) && NodeOf(st.forest, g).attribute == level | WT_GF_PERCPU
    ensures len / k > 0 && CpusAfter(st, us, g, i) == {lo + Times(i % (len / k), k) + (i / (len / k)) % k}
  {
    PerCpuMode(st, g, level, k);
    PlacementTable(st, us, g, lo, len, u, i);
  }

  lemma CompactRow(st: State, us: seq<nat>, g: nat, level: bv64, k: nat, lo: nat, len: nat, u: int, i: nat)
    requires Tabled(st, us, g, level, k, lo, len, u, i) && NodeOf(st.forest, g).attribute == level | WT_GF_COMPACT
    ensures CpusAfter(st, us, g, i) == Block(lo + Times(BlockNumber(i % len, k), k), k)
  {
    CompactMode(st, g, level, k);
    PlacementTable(st, us, g, lo, len, u, i);
  }

  lemma CompactPerCpuRow(st: State, us: seq<nat>, g: nat, level: bv64, k: nat, lo: nat, len: nat, u: int, i: nat)
    requires Tabled(st, us, g, level, k, lo, len, u, i)
    requires NodeOf(st.forest, g).attribute == level | WT_GF_PERCPU | WT_GF_COMPACT
    ensures CpusAfter(st, us, g, i) == {lo + i % len}
  {
    CompactPerCpuMode(st, g, level, k);
    PlacementTable(st, us, g, lo, len, u, i);
  }
}
