/** Fairness of one group's placements, under any loads: who claimed what, and how often.

    `Cover(xs, d)` counts the member claims that hold CPU `d`.  The bookkeeping of a group
    (`used`, `roll`) is exact when it equals that count on every CPU of the group. */
module Balance {
  import opened CpuSet
  import opened Allocator

  function Cover(xs: seq<set<nat>>, d: nat): nat {
    if xs == [] then 0 else Cover(xs[..|xs| - 1], d) + if d in xs[|xs| - 1] then 1 else 0
  }

  function Weight(xs: seq<set<nat>>): nat {
    if xs == [] then 0 else Weight(xs[..|xs| - 1]) + |xs[|xs| - 1]|
  }

  function Without<T>(xs: seq<T>, i: nat): seq<T> {
    if i < |xs| then xs[..i] + xs[i + 1..] else xs
  }

  function Mark(c: Claims, d: nat): int { if d in c.used then 1 else 0 }

  ghost predicate Inside(xs: seq<set<nat>>, total: set<nat>) {
    forall x | x in xs :: x != {} && x <= total
  }

  /** The claims of the members are exactly what the bookkeeping says. */
  ghost predicate Covered(c: Claims, xs: seq<set<nat>>) {
    && c.used <= c.total
    && Inside(xs, c.total)
    && (forall d | d in c.total :: Cover(xs, d) == c.roll + Mark(c, d))
  }

  /** At most one block is partly claimed. */
  ghost predicate OnePartial(x: set<nat>, s: nat)
    requires s > 0
  {
    forall c, d | c in Loose(x, s) && d in Loose(x, s) :: Start(c, s) == Start(d, s)
  }

  /** Compact groups have at most one partly claimed block, the others none. */
  ghost predicate Tidy(m: Mode, c: Claims)
    requires m.s > 0
  {
    if m.compact then OnePartial(Free(c), m.s) else Blocky(c.used, m.s)
  }

  // -------- claiming and releasing --------

  lemma CoverAppend(xs: seq<set<nat>>, x: set<nat>, d: nat)
    ensures Cover(xs + [x], d) == Cover(xs, d) + if d in x then 1 else 0
  {
    assert (xs + [x])[..|xs|] == xs;
  }

  /** A claim on unclaimed CPUs keeps the bookkeeping exact. */
  lemma ClaimExact(c: Claims, xs: seq<set<nat>>, x: set<nat>)
    requires Covered(c, xs) && x != {} && x <= c.total && x !! c.used
    ensures Covered(Claim(c, x), xs + [x])
  {
    forall d | d in c.total
      ensures Cover(xs + [x], d) == Claim(c, x).roll + Mark(Claim(c, x), d)
    {
      CoverAppend(xs, x, d);
    }
  }

  lemma ReopenExact(c: Claims, xs: seq<set<nat>>)
    requires Covered(c, xs)
    ensures Covered(Reopen(c), xs)
  {
  }

  lemma WithoutInner<T>(xs: seq<T>, i: nat)
    requires i < |xs| - 1
    ensures var k := |xs| - 1;
      |Without(xs, i)| == k && Without(xs, i)[..k - 1] == Without(xs[..k], i) && Without(xs, i)[k - 1] == xs[k]
  {
  }

  lemma {:induction false} CoverWithout(xs: seq<set<nat>>, i: nat, d: nat)
    requires i < |xs|
    ensures Cover(xs, d) == Cover(Without(xs, i), d) + if d in xs[i] then 1 else 0
  {
    var k := |xs| - 1;
    if i < k {
      CoverWithout(xs[..k], i, d);
      WithoutInner(xs, i);
    } else {
      assert Without(xs, i) == xs[..k];
    }
  }

  /** Taking back a claim keeps the bookkeeping exact if and only if the claim is still marked. */
  lemma ReleaseExact(c: Claims, xs: seq<set<nat>>, i: nat)
    requires Covered(c, xs) && i < |xs|
    ensures Covered(ReleaseGroup(c, xs[i]), Without(xs, i)) <==> xs[i] <= Reopen(c).used
  {
    if xs[i] <= Reopen(c).used { ReleaseMarked(c, xs, i); }
    if Covered(ReleaseGroup(c, xs[i]), Without(xs, i)) {
      forall d | d in xs[i]
        ensures d in Reopen(c).used
      {
        ReleasedWasMarked(c, xs, i, d);
      }
    }
  }

  lemma ReleasedWasMarked(c: Claims, xs: seq<set<nat>>, i: nat, d: nat)
    requires Covered(c, xs) && i < |xs| && Covered(ReleaseGroup(c, xs[i]), Without(xs, i)) && d in xs[i]
    ensures d in Reopen(c).used
  {
    var o, r := Reopen(c), ReleaseGroup(c, xs[i]);
    ReopenExact(c, xs);
    assert xs[i] in xs && d in c.total;
    CoverWithout(xs, i, d);
    assert Cover(xs, d) == o.roll + Mark(o, d) && Cover(Without(xs, i), d) == r.roll + Mark(r, d);
  }

  lemma ReleaseMarked(c: Claims, xs: seq<set<nat>>, i: nat)
    requires Covered(c, xs) && i < |xs| && xs[i] <= Reopen(c).used
    ensures Covered(ReleaseGroup(c, xs[i]), Without(xs, i))
  {
    ReopenExact(c, xs);
    var o, r := Reopen(c), ReleaseGroup(c, xs[i]);
    assert xs[i] in xs;
    assert r.used == o.used - xs[i];
    forall d | d in c.total
      ensures Cover(Without(xs, i), d) == r.roll + Mark(r, d)
    {
      CoverWithout(xs, i, d);
    }
    assert forall y | y in Without(xs, i) :: y in xs;
  }

  // -------- every placement of a tidy group lands on unclaimed CPUs --------

  lemma BlockClaimFresh(s: nat, c: Claims, loads: seq<int>)
    requires Sound(s, c, |loads|) && Ready(c) && Blocky(c.used, s)
    ensures |loads| > 0
    ensures var x := Block(NextBlock(loads, Free(c), s), s);
      x != {} && x !! c.used && x <= c.total && Blocky(Claim(c, x).used, s)
  {
    NextBlockInside(loads, c, s);
    var a := NextBlock(loads, Free(c), s);
    StartUnique(a, a, s);
    BlockyPlus(c.used, a, s);
    IdlestBlockAligned(loads, Free(c), s);
    var f :| f in Free(c) && Start(f, s) == a;
    assert a in Block(a, s);
    StartFacts(f, s);
    forall d | d in Block(a, s)
      ensures d !in c.used
    {
      StartUnique(a, d, s);
      assert f in Block(Start(d, s), s);
    }
  }

  lemma ScatterClaim(m: Mode, c: Claims, loads: seq<int>)
    requires Workable(m.s, c, |loads|) && !m.compact
    ensures ClaimAt(m, Target(m, c, loads)) == Block(NextBlock(loads, Free(c), m.s), m.s)
  {
    StartUnique(NextBlock(loads, Free(c), m.s), Target(m, c, loads), m.s);
  }

  /** With at most one partly free block, a free count that is a multiple of `s` leaves none. */
  lemma WholeBlocksFree(x: set<nat>, s: nat)
    requires s > 0 && OnePartial(x, s) && |x| % s == 0
    ensures Blocky(x, s)
  {
    LooseCount(x, s);
    var l := Loose(x, s);
    BlockyCard(x - l, s);
    assert |x| == |x - l| + |l| by { assert x == (x - l) + l; }
    if c :| c in l {
      LooseSmall(x, s, c);
      SmallRemainder(|x - l|, |l|, s);
    }
  }

  lemma LooseSmall(x: set<nat>, s: nat, c: nat)
    requires s > 0 && OnePartial(x, s) && c in Loose(x, s)
    ensures 0 < |Loose(x, s)| < s
  {
    var l, b := Loose(x, s), Block(Start(c, s), s);
    forall d | d in l
      ensures d in b * x
    {
      StartFacts(d, s);
    }
    SubsetCard(l, b * x);
    SubsetCard(b * x, b);
    BlockCard(Start(c, s), s);
  }

  lemma SmallRemainder(a: nat, b: nat, s: nat)
    requires s > 0 && a % s == 0 && 0 < b < s
    ensures (a + b) % s != 0
  {
    if (a + b) % s == 0 {
      MultiplesApart(a, a + b, s);
      assert false;
    }
  }

  lemma CompactTargetFree(m: Mode, c: Claims, loads: seq<int>)
    requires Sound(m.s, c, |loads|) && Ready(c) && m.compact && Tidy(m, c)
    ensures |loads| > 0 && Target(m, c, loads) in Free(c)
    ensures forall d | d in Loose(Free(c), m.s) :: Start(d, m.s) == Start(Target(m, c, loads), m.s)
  {
    var free, s := Free(c), m.s;
    var t := Target(m, c, loads);
    if |free| % s != 0 {
      LooseCount(free, s);
      assert t in Loose(free, s);
    } else {
      WholeBlocksFree(free, s);
      LooseCount(free, s);
      IdlestBlockAligned(loads, free, s);
      var f :| f in free && Start(f, s) == NextBlock(loads, free, s);
      StartFacts(f, s);
    }
  }

  lemma CompactStaysTidy(m: Mode, c: Claims, t: nat)
    requires m.s > 0 && m.compact && c.used <= c.total && Blocky(c.total, m.s) && t in Free(c)
    requires forall d | d in Loose(Free(c), m.s) :: Start(d, m.s) == Start(t, m.s)
    ensures Tidy(m, Claim(c, {t}))
  {
    var s, c' := m.s, Claim(c, {t});
    if c.used + {t} == c.total {
      assert Free(c') == c.total;
      LooseCount(c.total, s);
    } else {
      assert Free(c') == Free(c) - {t};
      forall d | d in Loose(Free(c'), s)
        ensures Start(d, s) == Start(t, s)
      {
        var e :| e in Block(Start(d, s), s) && e !in Free(c');
        StartFacts(d, s);
        StartUnique(Start(d, s), e, s);
      }
    }
  }

  /** The step every fairness and undo result rests on: a placement in a tidy group claims only
      unclaimed CPUs, keeps the bookkeeping exact and the group tidy. */
  lemma PlacementFresh(m: Mode, c: Claims, xs: seq<set<nat>>, loads: seq<int>)
    requires Sound(m.s, c, |loads|) && Ready(c) && Tidy(m, c) && Covered(c, xs)
    ensures |loads| > 0
    ensures var x := ClaimAt(m, Target(m, c, loads));
      && x != {} && x <= c.total && x !! c.used
      && Covered(Claim(c, x), xs + [x])
      && Tidy(m, Claim(c, x))
  {
    PlacementInside(m, c, loads);
    if m.compact {
      CompactTargetFree(m, c, loads);
      CompactStaysTidy(m, c, Target(m, c, loads));
    } else {
      ScatterClaim(m, c, loads);
      BlockClaimFresh(m.s, c, loads);
    }
    ClaimExact(c, xs, ClaimAt(m, Target(m, c, loads)));
  }

  // -------- fairness --------

  /** Exact bookkeeping means fair shares: with `k` CPUs per claim, every CPU is claimed the floor
      or the ceiling of the average number of times. */
  lemma FairShare(c: Claims, xs: seq<set<nat>>, k: nat, d: nat)
    requires Covered(c, xs) && Ready(c) && d in c.total
    requires forall x | x in xs :: |x| == k
    ensures var q, r := (k * |xs|) / |c.total|, (k * |xs|) % |c.total|;
      && q == c.roll
      && r == |c.used|
      && (Cover(xs, d) == q || (Cover(xs, d) == q + 1 && r != 0))
  {
    UniformWeight(xs, k);
    CoverWeight(c, xs);
    var f :| f in Free(c);
    assert Cover(xs, f) == c.roll;
    SubsetCard(c.used, c.total);
    DivModUnique(k * |xs|, |c.total|, c.roll, |c.used|);
    assert d in c.used ==> |c.used| != 0;
  }

  lemma MulApart(p: nat, q: nat, b: nat)
    ensures p < q ==> p * b + b <= q * b
    ensures q < p ==> q * b + b <= p * b
  {
    if p < q {
      MulLe(p + 1, q, b);
    } else if q < p {
      MulLe(q + 1, p, b);
    }
  }

  lemma MulLe(p: nat, q: nat, b: nat)
    requires p <= q
    ensures p * b <= q * b
  {
    assert q * b == p * b + (q - p) * b;
  }

  lemma MulSucc(r: int, k: nat)
    ensures r * (k + 1) == r * k + r
  {
  }

  lemma {:induction false} UniformWeight(xs: seq<set<nat>>, k: nat)
    requires forall x | x in xs :: |x| == k
    ensures Weight(xs) == k * |xs|
  {
    if xs != [] {
      UniformWeight(xs[..|xs| - 1], k);
      assert xs[|xs| - 1] in xs;
      assert k * |xs| == k * (|xs| - 1) + k;
    }
  }

  // -------- counting the claims both ways --------

  /** The claims that meet `ds`, counted CPU by CPU. */
  ghost function CoverSum(xs: seq<set<nat>>, ds: set<nat>): int
    decreases |ds|
  {
    if ds == {} then 0 else var d := Min(ds); CoverSum(xs, ds - {d}) + Cover(xs, d)
  }

  lemma OneLess(x: set<nat>, ds: set<nat>, d: nat)
    requires d in ds
    ensures |ds| == |ds - {d}| + 1 && |x * ds| == |x * (ds - {d})| + if d in x then 1 else 0
  {
    assert x * ds == (x * (ds - {d})) + if d in x then {d} else {};
  }

  lemma {:induction false} CoverSumAppend(xs: seq<set<nat>>, x: set<nat>, ds: set<nat>)
    ensures CoverSum(xs + [x], ds) == CoverSum(xs, ds) + |x * ds|
    decreases |ds|
  {
    if ds != {} {
      var d := Min(ds);
      CoverSumAppend(xs, x, ds - {d});
      CoverAppend(xs, x, d);
      OneLess(x, ds, d);
    }
  }

  lemma {:induction false} CoverSumWeight(xs: seq<set<nat>>, ds: set<nat>)
    requires Inside(xs, ds)
    ensures CoverSum(xs, ds) == Weight(xs)
    decreases |xs|
  {
    if xs == [] {
      CoverSumEmpty(ds);
    } else {
      var ys, x := xs[..|xs| - 1], xs[|xs| - 1];
      assert x in xs && x * ds == x && xs == ys + [x];
      CoverSumWeight(ys, ds);
      CoverSumAppend(ys, x, ds);
    }
  }

  lemma {:induction false} CoverSumEmpty(ds: set<nat>)
    ensures CoverSum([], ds) == 0
    decreases |ds|
  {
    if ds != {} { CoverSumEmpty(ds - {Min(ds)}); }
  }

  lemma {:induction false} CoverSumUniform(c: Claims, xs: seq<set<nat>>, ds: set<nat>)
    requires Covered(c, xs) && ds <= c.total
    ensures CoverSum(xs, ds) == c.roll * |ds| + |c.used * ds|
    decreases |ds|
  {
    if ds != {} {
      var d := Min(ds);
      CoverSumUniform(c, xs, ds - {d});
      OneLess(c.used, ds, d);
      MulSucc(c.roll, |ds - {d}|);
      assert Cover(xs, d) == c.roll + Mark(c, d);
    }
  }

  /** Rounds times CPUs, plus what is marked now, is everything the members claimed. */
  lemma CoverWeight(c: Claims, xs: seq<set<nat>>)
    requires Covered(c, xs)
    ensures Weight(xs) == c.roll * |c.total| + |c.used|
  {
    CoverSumWeight(xs, c.total);
    CoverSumUniform(c, xs, c.total);
    assert c.used * c.total == c.used;
  }
}
