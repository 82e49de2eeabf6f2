/** What detaching a thread undoes, and when it does not. */
module Detach {
  import opened CpuSet
  import opened Allocator
  import opened Balance

  /** A thread group: its bookkeeping and the seats of its members, oldest first. */
  datatype Roster = Roster(c: Claims, seats: seq<Seat>)

  /** Attaching sees the loads of that moment, detaching names a member; other groups' business leaves the group
      alone. */
  datatype Event = Attach(loads: seq<int>) | Detach(i: nat) | Idle

  function ClaimsOf(m: Mode, seats: seq<Seat>): (xs: seq<set<nat>>)
    requires m.s > 0
    ensures |xs| == |seats|
  {
    seq(|seats|, i requires 0 <= i < |seats| => ClaimAt(m, seats[i].target))
  }

  ghost function Attached(m: Mode, r: Roster, loads: seq<int>): Roster
    requires Workable(m.s, r.c, |loads|)
  {
    var t := Target(m, r.c, loads);
    Roster(Claim(r.c, ClaimAt(m, t)), r.seats + [SeatAt(m, t)])
  }

  function Detached(m: Mode, r: Roster, i: nat): Roster
    requires i < |r.seats|
  {
    Roster(ReleaseThread(m, r.c, r.seats[i]), Without(r.seats, i))
  }

  ghost predicate Step(m: Mode, n: nat, r: Roster, e: Event, r': Roster) {
    match e
    case Attach(loads) => |loads| == n && Workable(m.s, r.c, n) && r' == Attached(m, r, loads)
    case Detach(i) => i < |r.seats| && r' == Detached(m, r, i)
    case Idle => r' == r
  }

  ghost predicate Run(m: Mode, n: nat, rs: seq<Roster>, es: seq<Event>) {
    |rs| == |es| + 1 && forall i {:trigger es[i]} | 0 <= i < |es| :: Step(m, n, rs[i], es[i], rs[i + 1])
  }

  lemma StepAt(m: Mode, n: nat, rs: seq<Roster>, es: seq<Event>, k: nat)
    requires Run(m, n, rs, es) && k < |es|
    ensures Step(m, n, rs[k], es[k], rs[k + 1])
  {
  }

  /** The bookkeeping is exact and tidy, and the seats are of the group's mode. */
  ghost predicate Exact(m: Mode, n: nat, r: Roster) {
    && Sound(m.s, r.c, n) && Ready(r.c) && Tidy(m, r.c)
    && Covered(r.c, ClaimsOf(m, r.seats))
    && forall i | 0 <= i < |r.seats| :: r.seats[i] == SeatAt(m, r.seats[i].target)
  }

  /** Only a scattered per-CPU thread claims more than the CPUs it is bound to. */
  predicate Reversible(m: Mode) { m.compact || !m.perCpu || m.s == 1 }

  lemma AttachExact(m: Mode, n: nat, r: Roster, loads: seq<int>)
    requires Exact(m, n, r) && |loads| == n
    ensures Exact(m, n, Attached(m, r, loads))
  {
    var t := Target(m, r.c, loads);
    PlacementInside(m, r.c, loads);
    PlacementFresh(m, r.c, ClaimsOf(m, r.seats), loads);
    assert ClaimsOf(m, r.seats + [SeatAt(m, t)]) == ClaimsOf(m, r.seats) + [ClaimAt(m, t)];
  }

  /** CPUs one member claims. */
  function ClaimSize(m: Mode): nat { if m.compact then 1 else m.s }

  lemma ClaimSizes(m: Mode, seats: seq<Seat>)
    requires m.s > 0
    ensures forall x | x in ClaimsOf(m, seats) :: |x| == ClaimSize(m)
  {
    forall x | x in ClaimsOf(m, seats)
      ensures |x| == ClaimSize(m)
    {
      var i :| 0 <= i < |seats| && ClaimsOf(m, seats)[i] == x;
      BlockCard(Start(seats[i].target, m.s), m.s);
    }
  }

  lemma FreshExact(m: Mode, n: nat, total: set<nat>)
    requires Sound(m.s, Claims(total, {}, 0), n)
    ensures Exact(m, n, Roster(Claims(total, {}, 0), []))
  {
    assert Free(Claims(total, {}, 0)) == total;
    LooseCount(total, m.s);
  }

  lemma GrowingStepExact(m: Mode, n: nat, r: Roster, e: Event, r': Roster)
    requires Exact(m, n, r) && Step(m, n, r, e, r') && !e.Detach?
    ensures Exact(m, n, r') && r'.c.total == r.c.total
  {
    if e.Attach? { AttachExact(m, n, r, e.loads); }
  }

  lemma {:induction false} AttachRunExact(m: Mode, n: nat, rs: seq<Roster>, es: seq<Event>, k: nat)
    requires Run(m, n, rs, es) && k < |rs| && Exact(m, n, rs[0])
    requires forall e | e in es :: !e.Detach?
    ensures Exact(m, n, rs[k]) && rs[k].c.total == rs[0].c.total
  {
    if k > 0 {
      StepAt(m, n, rs, es, k - 1);
      assert es[k - 1] in es;
      AttachRunExact(m, n, rs, es, k - 1);
      GrowingStepExact(m, n, rs[k - 1], es[k - 1], rs[k]);
    }
  }

  lemma FairSeats(m: Mode, n: nat, r: Roster, k: nat, size: nat, d: nat)
    requires Exact(m, n, r) && d in r.c.total && k == |r.seats| && size == |r.c.total|
    ensures size > 0
    ensures var xs := ClaimsOf(m, r.seats);
      var q, left := (ClaimSize(m) * k) / size, (ClaimSize(m) * k) % size;
      && r.c.roll == q && |r.c.used| == left
      && (Cover(xs, d) == q || (Cover(xs, d) == q + 1 && left != 0))
  {
    ClaimSizes(m, r.seats);
    FairShare(r.c, ClaimsOf(m, r.seats), ClaimSize(m), d);
  }

  /** Fairness, whatever the loads: while members only come to a freshly arranged group, the rounds and marks
      account for exactly their claims, and every CPU was claimed the floor or the ceiling of the average. */
  lemma FairRun(m: Mode, n: nat, rs: seq<Roster>, es: seq<Event>, k: nat, d: nat)
    requires Run(m, n, rs, es) && k < |rs| && Exact(m, n, rs[0])
    requires d in rs[0].c.total && forall e | e in es :: !e.Detach?
    ensures var c, xs, size := rs[k].c, ClaimsOf(m, rs[k].seats), |rs[0].c.total|;
      var q, r := (ClaimSize(m) * |xs|) / size, (ClaimSize(m) * |xs|) % size;
      && c.roll == q && |c.used| == r
      && (Cover(xs, d) == q || (Cover(xs, d) == q + 1 && r != 0))
  {
    AttachRunExact(m, n, rs, es, k);
    FairSeats(m, n, rs[k], |rs[k].seats|, |rs[0].c.total|, d);
  }

  lemma SingleBlock(m: Mode, t: nat)
    requires m.s == 1
    ensures BlockOf(m, t) == {t}
  {
    assert Start(t, 1) == t;
  }

  /** In a reversible group, a marked claim is taken back as a whole. */
  lemma ReleaseWhole(m: Mode, c: Claims, t: nat)
    requires m.s > 0 && Reversible(m) && ClaimAt(m, t) <= Reopen(c).used
    ensures ReleaseThread(m, c, SeatAt(m, t)) == ReleaseGroup(c, ClaimAt(m, t))
  {
    if m.s == 1 { SingleBlock(m, t); }
    if m.compact && !m.perCpu { assert Xor(Reopen(c).used, {t}) == Reopen(c).used - {t}; }
  }

  /** Detaching the thread just attached restores the group exactly when the mode is reversible. */
  lemma DetachUndoesAttach(m: Mode, n: nat, r: Roster, loads: seq<int>)
    requires Exact(m, n, r) && |loads| == n
    ensures Detached(m, Attached(m, r, loads), |r.seats|) == r <==> Reversible(m)
  {
    var t := Target(m, r.c, loads);
    var x, a := ClaimAt(m, t), Attached(m, r, loads);
    PlacementInside(m, r.c, loads);
    PlacementFresh(m, r.c, ClaimsOf(m, r.seats), loads);
    assert Reopen(a.c) == r.c.(used := r.c.used + x);
    assert a.seats[|r.seats|] == SeatAt(m, t);
    assert Without(a.seats, |r.seats|) == r.seats;
    if Reversible(m) {
      ReleaseWhole(m, a.c, t);
      assert Xor(r.c.used + x, x) == r.c.used;
    } else {
      OtherInBlock(m, t);
      var d :| d in x && d != t;
      assert d in ReleaseThread(m, a.c, SeatAt(m, t)).used;
    }
  }

  lemma OtherInBlock(m: Mode, t: nat)
    requires m.s > 1
    ensures exists d :: d in BlockOf(m, t) && d != t
  {
    StartFacts(t, m.s);
    var a := Start(t, m.s);
    assert a in BlockOf(m, t) && a + 1 in BlockOf(m, t);
  }

  // -------- nested attaching and detaching --------

  /** Between `i` and `j` members come and go, only the newest ever leaves, and none of those
      present at `i` does. */
  ghost predicate Nested(rs: seq<Roster>, es: seq<Event>, i: nat, j: nat)
    requires |rs| == |es| + 1 && i <= j <= |es|
  {
    && (forall k {:trigger es[k]} | i <= k < j :: es[k].Detach? ==> es[k].i == |rs[k].seats| - 1)
    && (forall k | i <= k <= j :: |rs[i].seats| <= |rs[k].seats|)
  }

  /** One step of a nesting process: it stays, or grows by one and keeps `ok`, or shrinks by one. */
  ghost predicate Moves<T>(ok: iset<T>, xs: seq<T>, size: seq<nat>, k: nat)
    requires k + 1 < |xs| == |size|
  {
    || (size[k + 1] == size[k] && xs[k + 1] == xs[k])
    || (size[k + 1] == size[k] + 1 && (xs[k] in ok ==> xs[k + 1] in ok))
    || size[k + 1] + 1 == size[k]
  }

  /** Shrinking from where the process has grown to undoes the growth. */
  ghost predicate Undoes<T>(ok: iset<T>, xs: seq<T>, size: seq<nat>, k: nat, l: nat)
    requires k + 1 < |xs| == |size| && l + 1 < |xs|
  {
    size[k + 1] == size[k] + 1 && size[l + 1] + 1 == size[l] && xs[k] in ok && xs[l] == xs[k + 1] ==> xs[l + 1] == xs[k]
  }

  lemma {:induction false} NestedReturn<T>(ok: iset<T>, xs: seq<T>, size: seq<nat>, i: nat, j: nat)
    requires i <= j < |xs| == |size| && xs[i] in ok && size[j] == size[i]
    requires forall k | i <= k <= j :: size[i] <= size[k]
    requires forall k | i <= k < j :: Moves(ok, xs, size, k)
    requires forall k, l | i <= k < l < j :: Undoes(ok, xs, size, k, l)
    ensures xs[j] == xs[i]
    decreases j - i
  {
    if i < j {
      assert Moves(ok, xs, size, i);
      if size[i + 1] == size[i] {
        NestedReturn(ok, xs, size, i + 1, j);
      } else {
        var k := FirstReturn(size, i, j);
        assert Moves(ok, xs, size, k - 1) && Undoes(ok, xs, size, i, k - 1);
        NestedReturn(ok, xs, size, i + 1, k - 1);
        NestedReturn(ok, xs, size, k, j);
      }
    }
  }

  lemma FirstReturn(size: seq<nat>, i: nat, j: nat) returns (k: nat)
    requires i + 1 < j < |size| && size[j] == size[i] && size[i + 1] > size[i]
    ensures i + 1 < k <= j && size[k] == size[i] && forall h | i < h < k :: size[h] != size[i]
  {
    k := i + 2;
    while size[k] != size[i]
      invariant i + 1 < k <= j && forall h | i < h < k :: size[h] != size[i]
      decreases j - k
    {
      k := k + 1;
    }
  }

  /** The last time before `k` that the size was the same. */
  lemma LastReturn<T>(ok: iset<T>, xs: seq<T>, size: seq<nat>, k: nat) returns (h: nat)
    requires 0 < k < |xs| == |size| && size[k - 1] > size[k] >= size[0]
    requires forall x | 0 <= x < k :: Moves(ok, xs, size, x)
    ensures h < k && size[h] == size[k] && forall x | h <= x <= k :: size[h] <= size[x]
  {
    h := k - 1;
    while size[h] != size[k]
      invariant h < k && size[h] >= size[k] && forall x | h <= x <= k :: size[k] <= size[x]
      decreases h
    {
      assert Moves(ok, xs, size, h - 1);
      h := h - 1;
    }
  }

  /** A nesting process that never shrinks below its start is always where it was or where it has grown to. */
  lemma {:induction false} NestedOk<T>(ok: iset<T>, xs: seq<T>, size: seq<nat>, k: nat)
    requires k < |xs| == |size| && xs[0] in ok && forall x | 0 <= x < |xs| :: size[0] <= size[x]
    requires forall x | 0 <= x < |xs| - 1 :: Moves(ok, xs, size, x)
    requires forall x, y | 0 <= x < y < |xs| - 1 :: Undoes(ok, xs, size, x, y)
    ensures xs[k] in ok
    decreases k
  {
    if k > 0 {
      assert Moves(ok, xs, size, k - 1);
      if size[k - 1] > size[k] {
        var h := LastReturn(ok, xs, size, k);
        NestedOk(ok, xs, size, h);
        NestedReturn(ok, xs, size, h, k);
      } else {
        NestedOk(ok, xs, size, k - 1);
      }
    }
  }

  function Sizes(rs: seq<Roster>): (size: seq<nat>)
    ensures |size| == |rs| && forall k | 0 <= k < |rs| :: size[k] == |rs[k].seats|
  {
    seq(|rs|, k requires 0 <= k < |rs| => |rs[k].seats|)
  }

  ghost function ExactOnes(m: Mode, n: nat): iset<Roster> { iset r: Roster | Exact(m, n, r) }

  lemma StepMoves(m: Mode, n: nat, rs: seq<Roster>, es: seq<Event>, k: nat)
    requires Run(m, n, rs, es) && k < |es|
    ensures Moves(ExactOnes(m, n), rs, Sizes(rs), k)
  {
    StepAt(m, n, rs, es, k);
    if es[k].Attach? && Exact(m, n, rs[k]) { AttachExact(m, n, rs[k], es[k].loads); }
  }

  lemma StepUndoes(m: Mode, n: nat, rs: seq<Roster>, es: seq<Event>, k: nat, l: nat)
    requires Run(m, n, rs, es) && k < l < |es| && Reversible(m)
    requires es[l].Detach? ==> es[l].i == |rs[l].seats| - 1
    ensures Undoes(ExactOnes(m, n), rs, Sizes(rs), k, l)
  {
    var size := Sizes(rs);
    assert size[k + 1] == |rs[k + 1].seats| && size[k] == |rs[k].seats| && size[l + 1] == |rs[l + 1].seats|
      && size[l] == |rs[l].seats|;
    if size[k + 1] == size[k] + 1 && size[l + 1] + 1 == size[l] && Exact(m, n, rs[k]) && rs[l] == rs[k + 1] {
      StepAt(m, n, rs, es, k);
      StepAt(m, n, rs, es, l);
      UndoneStep(m, n, rs[k], es[k], rs[l], es[l], rs[l + 1]);
    }
  }

  lemma UndoneStep(m: Mode, n: nat, r: Roster, e: Event, a: Roster, e': Event, b: Roster)
    requires Reversible(m) && Exact(m, n, r) && Step(m, n, r, e, a) && Step(m, n, a, e', b)
    requires |a.seats| == |r.seats| + 1 && |b.seats| + 1 == |a.seats|
    requires e'.Detach? ==> e'.i == |a.seats| - 1
    ensures b == r
  {
    DetachUndoesAttach(m, n, r, e.loads);
  }

  /** Whenever the membership returns to its old size in last-in-first-out order, across any number
      of roll-overs and whatever the loads, the whole group state is the old one again. */
  lemma NestedDetachRestores(m: Mode, n: nat, rs: seq<Roster>, es: seq<Event>, i: nat, j: nat)
    requires Run(m, n, rs, es) && i <= j <= |es| && Nested(rs, es, i, j)
    requires Reversible(m) && Exact(m, n, rs[i]) && |rs[j].seats| == |rs[i].seats|
    ensures rs[j] == rs[i]
  {
    var ok := ExactOnes(m, n);
    forall k | i <= k < j
      ensures Moves(ok, rs, Sizes(rs), k)
    {
      StepMoves(m, n, rs, es, k);
    }
    forall k, l | i <= k < l < j
      ensures Undoes(ok, rs, Sizes(rs), k, l)
    {
      StepUndoes(m, n, rs, es, k, l);
    }
    NestedReturn(ok, rs, Sizes(rs), i, j);
  }

  /** Only the newest member ever leaves. */
  ghost predicate LastInFirstOut(rs: seq<Roster>, es: seq<Event>) {
    |rs| == |es| + 1 && forall k {:trigger es[k]} | 0 <= k < |es| :: es[k].Detach? ==> es[k].i == |rs[k].seats| - 1
  }

  /** There were never fewer members than at the start. */
  ghost predicate NoneOfTheFirst(rs: seq<Roster>) {
    rs != [] && forall k | 0 <= k < |rs| :: |rs[0].seats| <= |rs[k].seats|
  }

  /** In a reversible group where only the newest member leaves, the bookkeeping is exact at all times. */
  lemma LastInFirstOutExact(m: Mode, n: nat, rs: seq<Roster>, es: seq<Event>, k: nat)
    requires Run(m, n, rs, es) && LastInFirstOut(rs, es) && k < |rs|
    requires Reversible(m) && Exact(m, n, rs[0]) && NoneOfTheFirst(rs)
    ensures Exact(m, n, rs[k])
  {
    var ok := ExactOnes(m, n);
    forall x | 0 <= x < |es|
      ensures Moves(ok, rs, Sizes(rs), x)
    {
      StepMoves(m, n, rs, es, x);
    }
    forall x, y | 0 <= x < y < |es|
      ensures Undoes(ok, rs, Sizes(rs), x, y)
    {
      StepUndoes(m, n, rs, es, x, y);
    }
    NestedOk(ok, rs, Sizes(rs), k);
  }

  // -------- detaching in any order --------

  lemma CoverWitness(xs: seq<set<nat>>, d: nat) returns (i: nat)
    requires Cover(xs, d) > 0
    ensures i < |xs| && d in xs[i]
  {
    if d in xs[|xs| - 1] {
      i := |xs| - 1;
    } else {
      i := CoverWitness(xs[..|xs| - 1], d);
    }
  }

  /** The member's claim is still marked, counting the round just completed. */
  predicate StillMarked(m: Mode, r: Roster, i: nat)
    requires m.s > 0 && i < |r.seats|
  {
    ClaimAt(m, r.seats[i].target) <= Reopen(r.c).used
  }

  /** If the bookkeeping is exact after a member left, its CPUs were marked before and are not any more. */
  lemma CoveredAfter(m: Mode, r: Roster, i: nat, d: nat)
    requires m.s > 0 && i < |r.seats| && Covered(r.c, ClaimsOf(m, r.seats)) && d in ClaimAt(m, r.seats[i].target)
    requires Covered(Detached(m, r, i).c, ClaimsOf(m, Detached(m, r, i).seats))
    ensures d in Reopen(r.c).used && d !in Detached(m, r, i).c.used
  {
    var xs, r' := ClaimsOf(m, r.seats), Detached(m, r, i);
    assert xs[i] in xs;
    ReopenExact(r.c, xs);
    CoverWithout(xs, i, d);
    assert ClaimsOf(m, r'.seats) == Without(xs, i);
    assert Cover(xs, d) == Reopen(r.c).roll + Mark(Reopen(r.c), d);
    assert Cover(Without(xs, i), d) == r'.c.roll + Mark(r'.c, d);
  }

  lemma KeptIfMarked(m: Mode, r: Roster, i: nat)
    requires m.s > 0 && i < |r.seats| && Covered(r.c, ClaimsOf(m, r.seats))
    requires r.seats[i] == SeatAt(m, r.seats[i].target)
    requires Reversible(m) && StillMarked(m, r, i)
    ensures Covered(Detached(m, r, i).c, ClaimsOf(m, Detached(m, r, i).seats))
  {
    var xs := ClaimsOf(m, r.seats);
    assert xs[i] == ClaimAt(m, r.seats[i].target);
    ReleaseWhole(m, r.c, r.seats[i].target);
    ReleaseExact(r.c, xs, i);
    assert ClaimsOf(m, Detached(m, r, i).seats) == Without(xs, i);
  }

  lemma MarkedIfKept(m: Mode, r: Roster, i: nat)
    requires m.s > 0 && i < |r.seats| && Covered(r.c, ClaimsOf(m, r.seats))
    requires r.seats[i] == SeatAt(m, r.seats[i].target)
    requires Covered(Detached(m, r, i).c, ClaimsOf(m, Detached(m, r, i).seats))
    ensures Reversible(m) && StillMarked(m, r, i)
  {
    var t := r.seats[i].target;
    forall d | d in ClaimAt(m, t)
      ensures d in Reopen(r.c).used && d !in Detached(m, r, i).c.used
    {
      CoveredAfter(m, r, i, d);
    }
    if !Reversible(m) {
      OtherInBlock(m, t);
      assert false;
    }
  }

  /** A detach keeps the bookkeeping exact if and only if the mode is reversible and the claim is still marked.
      In all other cases it marks or leaves marked CPUs nobody claims, or forgets a claim. */
  lemma DetachKeepsExact(m: Mode, n: nat, r: Roster, i: nat)
    requires Exact(m, n, r) && i < |r.seats|
    ensures Covered(Detached(m, r, i).c, ClaimsOf(m, Detached(m, r, i).seats)) <==>
      Reversible(m) && StillMarked(m, r, i)
  {
    if Reversible(m) && StillMarked(m, r, i) {
      KeptIfMarked(m, r, i);
    } else if Covered(Detached(m, r, i).c, ClaimsOf(m, Detached(m, r, i).seats)) {
      MarkedIfKept(m, r, i);
    }
  }

  /** A member may leave in any order as long as its claim is still marked. */
  lemma DetachExact(m: Mode, n: nat, r: Roster, i: nat)
    requires Exact(m, n, r) && Reversible(m) && i < |r.seats| && StillMarked(m, r, i)
    requires Tidy(m, Detached(m, r, i).c)
    ensures Exact(m, n, Detached(m, r, i))
  {
    var x := ClaimAt(m, r.seats[i].target);
    KeptIfMarked(m, r, i);
    ReleaseWhole(m, r.c, r.seats[i].target);
    StartFacts(r.seats[i].target, m.s);
    assert r.seats[i].target in Free(Detached(m, r, i).c) by { ReleaseFrees(r.c, x, r.seats[i].target); }
  }

  lemma ReleaseFrees(c: Claims, x: set<nat>, d: nat)
    requires c.used <= c.total && x <= Reopen(c).used && d in x
    ensures d in Free(ReleaseGroup(c, x))
  {
  }

  /** Every claim is one whole block. */
  predicate WholeBlocks(m: Mode) { (!m.compact && !m.perCpu) || m.s == 1 }

  lemma WholeBlockClaim(m: Mode, t: nat)
    requires m.s > 0 && WholeBlocks(m)
    ensures ClaimAt(m, t) == BlockOf(m, t) && |BlockOf(m, t)| == m.s
  {
    BlockCard(Start(t, m.s), m.s);
    if m.s == 1 { SingleBlock(m, t); }
  }

  lemma SinglesTidy(m: Mode, c: Claims)
    requires m.s == 1
    ensures Tidy(m, c)
  {
    forall d: nat
      ensures Block(Start(d, 1), 1) == {d}
    {
      SingleBlock(m, d);
    }
  }

  /** The CPUs held by members of a group that is not oversubscribed. */
  function Held(c: Claims): set<nat> { if c.roll == 1 then c.total else c.used }

  /** Claims do not overlap and together are exactly what is held. */
  ghost predicate Partitioned(m: Mode, r: Roster)
    requires m.s > 0
  {
    var xs := ClaimsOf(m, r.seats);
    && (r.c.roll == 0 || (r.c.roll == 1 && r.c.used == {}))
    && (forall i, j | 0 <= i < j < |xs| :: xs[i] !! xs[j])
    && (forall d | d in r.c.total :: d in Held(r.c) <==> exists i :: 0 <= i < |xs| && d in xs[i])
  }

  /** No more members than blocks. */
  predicate Fits(m: Mode, r: Roster) { m.s * |r.seats| <= |r.c.total| }

  lemma WholeBlockSizes(m: Mode, seats: seq<Seat>)
    requires m.s > 0 && WholeBlocks(m)
    ensures forall x | x in ClaimsOf(m, seats) :: |x| == m.s
  {
    forall x | x in ClaimsOf(m, seats)
      ensures |x| == m.s
    {
      var i :| 0 <= i < |seats| && ClaimsOf(m, seats)[i] == x;
      WholeBlockClaim(m, seats[i].target);
    }
  }

  lemma AtMostOneRound(c: Claims, xs: seq<set<nat>>, s: nat)
    requires Covered(c, xs) && Ready(c) && (forall x | x in xs :: |x| == s) && s * |xs| <= |c.total|
    ensures c.roll == 0 || (c.roll == 1 && c.used == {})
  {
    var f :| f in c.total;
    FairShare(c, xs, s, f);
    SmallQuotient(s * |xs|, |c.total|);
  }

  lemma WithinCapacity(m: Mode, n: nat, r: Roster)
    requires Exact(m, n, r) && WholeBlocks(m) && Fits(m, r)
    ensures Partitioned(m, r)
  {
    WholeBlockSizes(m, r.seats);
    AtMostOneRound(r.c, ClaimsOf(m, r.seats), m.s);
    OnceEach(r.c, ClaimsOf(m, r.seats));
  }

  /** Exact bookkeeping of at most one round: no CPU is claimed twice, and the held ones once. */
  lemma OnceEach(c: Claims, xs: seq<set<nat>>)
    requires Covered(c, xs) && (c.roll == 0 || (c.roll == 1 && c.used == {}))
    ensures forall i, j | 0 <= i < j < |xs| :: xs[i] !! xs[j]
    ensures forall d | d in c.total :: d in Held(c) <==> exists i :: 0 <= i < |xs| && d in xs[i]
  {
    forall i, j | 0 <= i < j < |xs|
      ensures xs[i] !! xs[j]
    {
      forall d | d in xs[i]
        ensures d !in xs[j]
      {
        assert xs[i] in xs;
        CoverWithout(xs, j, d);
        CoverWithout(Without(xs, j), i, d);
      }
    }
    forall d | d in c.total
      ensures d in Held(c) <==> exists i :: 0 <= i < |xs| && d in xs[i]
    {
      if d in Held(c) {
        var i := CoverWitness(xs, d);
      } else {
        forall i | 0 <= i < |xs|
          ensures d !in xs[i]
        {
          CoverWithout(xs, i, d);
        }
      }
    }
  }

  lemma SmallQuotient(a: nat, b: nat)
    requires a <= b && b > 0
    ensures a / b == 0 || (a / b == 1 && a % b == 0)
  {
  }

  /** Where claims are whole blocks, a member whose claim is still marked may leave. */
  lemma MarkedDetachExact(m: Mode, n: nat, r: Roster, i: nat)
    requires Exact(m, n, r) && WholeBlocks(m) && i < |r.seats| && StillMarked(m, r, i)
    ensures Exact(m, n, Detached(m, r, i))
  {
    var t := r.seats[i].target;
    WholeBlockClaim(m, t);
    if m.s == 1 {
      SinglesTidy(m, Detached(m, r, i).c);
    } else {
      ReleaseWhole(m, r.c, t);
      assert Detached(m, r, i).c.used == Reopen(r.c).used - BlockOf(m, t);
      BlockyMinus(Reopen(r.c).used, t, m.s);
    }
    DetachExact(m, n, r, i);
  }

  lemma AnyDetachExact(m: Mode, n: nat, r: Roster, i: nat)
    requires Exact(m, n, r) && WholeBlocks(m) && Fits(m, r) && i < |r.seats|
    ensures Exact(m, n, Detached(m, r, i))
  {
    var xs := ClaimsOf(m, r.seats);
    WithinCapacity(m, n, r);
    assert xs[i] in xs;
    assert StillMarked(m, r, i);
    MarkedDetachExact(m, n, r, i);
  }

  lemma StepWithinCapacity(m: Mode, n: nat, r: Roster, e: Event, r': Roster)
    requires Exact(m, n, r) && WholeBlocks(m) && Fits(m, r) && Step(m, n, r, e, r')
    ensures Exact(m, n, r')
  {
    match e
    case Attach(loads) => AttachExact(m, n, r, loads);
    case Detach(i) => AnyDetachExact(m, n, r, i);
    case Idle =>
  }

  lemma {:induction false} AnyOrderExact(m: Mode, n: nat, rs: seq<Roster>, es: seq<Event>, k: nat)
    requires Run(m, n, rs, es) && k < |rs|
    requires Exact(m, n, rs[0]) && WholeBlocks(m)
    requires forall r | r in rs :: Fits(m, r)
    ensures Exact(m, n, rs[k])
  {
    if k > 0 {
      StepAt(m, n, rs, es, k - 1);
      AnyOrderExact(m, n, rs, es, k - 1);
      StepWithinCapacity(m, n, rs[k - 1], es[k - 1], rs[k]);
    }
  }

  /** While there are never more members than blocks, whatever order they come and go in, the
      claims stay disjoint and the bookkeeping is exactly their union. */
  lemma AnyOrderWithinCapacity(m: Mode, n: nat, rs: seq<Roster>, es: seq<Event>, k: nat)
    requires Run(m, n, rs, es) && k < |rs|
    requires Exact(m, n, rs[0]) && WholeBlocks(m)
    requires forall r | r in rs :: Fits(m, r)
    ensures Partitioned(m, rs[k])
  {
    AnyOrderExact(m, n, rs, es, k);
    WithinCapacity(m, n, rs[k]);
  }

  // -------- detaching from an oversubscribed group --------

  /** Detaching leaves no CPU to place the next member on exactly when the thread sits on all the
      CPUs that are unclaimed, which only an oversubscribed group has. */
  lemma DetachExhausts(m: Mode, c: Claims, seat: Seat)
    requires c.used <= c.total && seat.target in seat.cpus && seat.cpus <= c.total
    ensures !Ready(ReleaseThread(m, c, seat)) <==>
            !(m.compact && !m.perCpu) && c.used != {} && seat.cpus == Free(c)
  {
    var r := ReleaseThread(m, c, seat);
    if m.compact && !m.perCpu {
      assert seat.target in Free(r);
    } else if c.used == {} {
      assert seat.target in Free(r);
    } else if seat.cpus == Free(c) {
      assert Free(r) == {};
    } else if d :| d in seat.cpus && d !in Free(c) {
      assert d in Free(r);
    } else {
      var d :| d in Free(c) && d !in seat.cpus;
      assert d in Free(r);
    }
  }

  /** CPUs one member is bound to. */
  function SeatSize(m: Mode): nat { if m.perCpu then 1 else m.s }

  lemma SeatCard(m: Mode, t: nat)
    requires m.s > 0
    ensures |SeatAt(m, t).cpus| == SeatSize(m) && t in SeatAt(m, t).cpus
    ensures SeatAt(m, t).cpus <= BlockOf(m, t) && (m.compact ==> ClaimAt(m, t) <= SeatAt(m, t).cpus)
  {
    StartFacts(t, m.s);
    BlockCard(Start(t, m.s), m.s);
  }

  /** Some member sits on all unclaimed CPUs when these are one seat and every CPU was handed out before. */
  lemma SeatOnFree(m: Mode, n: nat, r: Roster) returns (i: nat)
    requires Exact(m, n, r) && !(m.compact && !m.perCpu) && r.c.roll >= 1 && |Free(r.c)| == SeatSize(m)
    ensures i < |r.seats| && r.seats[i].cpus == Free(r.c)
  {
    var xs, c := ClaimsOf(m, r.seats), r.c;
    var f :| f in Free(c);
    assert Cover(xs, f) == c.roll;
    i := CoverWitness(xs, f);
    if m.compact {
      FreeSingle(c, f);
    } else if m.perCpu {
      BlockyDiff(c.total, c.used, m.s);
      BlockyCard(Free(c), m.s);
      SmallMultiple(m.s);
      SingleBlock(m, r.seats[i].target);
      FreeSingle(c, f);
    } else {
      BlockOnFree(m, c, r.seats[i].target, f);
    }
  }

  lemma BlockOnFree(m: Mode, c: Claims, t: nat, f: nat)
    requires m.s > 0 && f in Free(c) && f in BlockOf(m, t) && Blocky(c.total, m.s) && Blocky(c.used, m.s)
    requires |Free(c)| == m.s
    ensures BlockOf(m, t) == Free(c)
  {
    StartFacts(t, m.s);
    StartUnique(Start(t, m.s), f, m.s);
    BlockyDiff(c.total, c.used, m.s);
    BlockCard(Start(t, m.s), m.s);
    SubsetCard(BlockOf(m, t), Free(c));
  }

  lemma FreeSingle(c: Claims, f: nat)
    requires f in Free(c) && |Free(c)| == 1
    ensures Free(c) == {f}
  {
    SubsetCard({f}, Free(c));
  }

  lemma SmallMultiple(s: nat)
    requires s > 0 && 1 % s == 0
    ensures s == 1
  {
  }

  lemma SeatInside(m: Mode, n: nat, r: Roster, i: nat)
    requires Exact(m, n, r) && i < |r.seats|
    ensures r.seats[i].target in r.seats[i].cpus && r.seats[i].cpus <= r.c.total
  {
    var xs, t := ClaimsOf(m, r.seats), r.seats[i].target;
    assert xs[i] in xs;
    SeatCard(m, t);
    StartFacts(t, m.s);
    assert t in xs[i];
  }

  /** A member bound to all unclaimed CPUs was seated in an earlier round. */
  lemma FreeSeatOld(m: Mode, n: nat, r: Roster, i: nat)
    requires Exact(m, n, r) && i < |r.seats| && r.seats[i].cpus == Free(r.c)
    ensures r.c.roll >= 1
  {
    var xs, t := ClaimsOf(m, r.seats), r.seats[i].target;
    SeatCard(m, t);
    assert xs[i] in xs && t in xs[i] by { StartFacts(t, m.s); }
    CoverWithout(xs, i, t);
    assert Cover(xs, t) == r.c.roll + Mark(r.c, t);
  }

  /** Some member can leave the group exhausted exactly when it has rolled over, is in the middle of a round, and
      the unclaimed CPUs are as many as one member is bound to; never in compact groups that are not per CPU. */
  lemma ExhaustingDetachExists(m: Mode, n: nat, r: Roster)
    requires Exact(m, n, r)
    ensures (exists i :: 0 <= i < |r.seats| && !Ready(Detached(m, r, i).c)) <==>
            !(m.compact && !m.perCpu) && r.c.roll >= 1 && r.c.used != {} && |Free(r.c)| == SeatSize(m)
  {
    var xs, c := ClaimsOf(m, r.seats), r.c;
    forall i | 0 <= i < |r.seats|
      ensures !Ready(Detached(m, r, i).c) <==> !(m.compact && !m.perCpu) && c.used != {} && r.seats[i].cpus == Free(c)
    {
      SeatInside(m, n, r, i);
      DetachExhausts(m, c, r.seats[i]);
    }
    if !(m.compact && !m.perCpu) && c.roll >= 1 && c.used != {} && |Free(c)| == SeatSize(m) {
      var i := SeatOnFree(m, n, r);
      assert !Ready(Detached(m, r, i).c);
    } else if i :| 0 <= i < |r.seats| && !Ready(Detached(m, r, i).c) {
      FreeSeatOld(m, n, r, i);
      SeatCard(m, r.seats[i].target);
      assert false;
    }
  }
}
