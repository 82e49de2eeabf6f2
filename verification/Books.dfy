/** Which calls keep a group's books exact, and what becomes of a claim that is never given back. */
module Books {
  import opened Topology
  import opened Allocator
  import opened Balance
  import opened Library
  import opened Api
  import opened Frames
  import opened Runs
  import opened Crews
  import opened Sessions
  import D = Detach
  import T = Theorems

  // -------- members coming and going --------

  /** The rounds and marks are exactly the members' claims. */
  ghost predicate Balances(st: State, y: nat, kind: Kind) {
    Base(st) && LiveGroup(st.forest, y) && Covered(st.places.claims[y], MemberClaims(st, y, kind))
  }

  /** What member `x` has claimed. */
  ghost function ClaimOf(st: State, y: nat, kind: Kind, x: nat): set<nat>
    requires Base(st) && LiveGroup(st.forest, y) && x in CrewIn(st, y, kind)
  {
    ShapeWorkable(st.topo, st.forest, st.places, y);
    assert Knit(st.topo, st.forest, y);
    if kind == OfThreads then ClaimAt(ModeOf(NodeOf(st.forest, y)), st.places.seats[x].target)
    else st.places.claims[x].total
  }

  /** Its claim is still marked, counting the round just completed. */
  ghost predicate StillMarked(st: State, y: nat, kind: Kind, x: nat)
    requires Base(st) && LiveGroup(st.forest, y) && x in CrewIn(st, y, kind)
  {
    ClaimOf(st, y, kind, x) <= Reopen(st.places.claims[y]).used
  }

  lemma RosterMark(st: State, y: nat, kind: Kind, m: Mode, n: nat, r: D.Roster, i: nat)
    requires Shown(st, y, kind, m, n, r) && D.Exact(m, n, r) && i < |r.seats|
    ensures var x := CrewIn(st, y, kind)[i];
      x in CrewIn(st, y, kind) && (D.StillMarked(m, r, i) <==> StillMarked(st, y, kind, x))
  {
    var crew := CrewOf(NodeOf(st.forest, y), kind);
    assert crew[i] in crew && Holds(st.places, kind, crew[i], r.seats[i]);
  }

  lemma StepBalances(st: State, y: nat, kind: Kind, m: Mode, n: nat, r: D.Roster, e: D.Event, r': D.Roster)
    requires D.Exact(m, n, r) && D.Step(m, n, r, e, r') && Shown(st, y, kind, m, n, r')
    ensures Balances(st, y, kind) <==> Covered(r'.c, D.ClaimsOf(m, r'.seats))
    ensures !e.Detach? ==> Balances(st, y, kind)
  {
    StepSeats(m, n, r, e, r');
    ClaimsAgree(st, y, kind, m, n, r');
  }

  lemma StepSeats(m: Mode, n: nat, r: D.Roster, e: D.Event, r': D.Roster)
    requires D.Exact(m, n, r) && D.Step(m, n, r, e, r')
    ensures m.s > 0 && forall i | 0 <= i < |r'.seats| :: r'.seats[i] == SeatAt(m, r'.seats[i].target)
    ensures !e.Detach? ==> Covered(r'.c, D.ClaimsOf(m, r'.seats))
  {
    match e
    case Attach(loads) => D.AttachExact(m, n, r, loads);
    case Detach(_) =>
      forall i | 0 <= i < |r'.seats|
        ensures r'.seats[i] == SeatAt(m, r'.seats[i].target)
      {
        assert r'.seats[i] == r.seats[if i < e.i then i else i + 1];
      }
    case Idle =>
  }

  /** A departure keeps the books exact if and only if the way of seating is reversible and the leaver's claim is
      still marked. */
  lemma DepartureKeepsBooks(st: State, call: Call, y: nat, kind: Kind, x: nat)
    requires ExactBooks(st, y, kind) && Defined(st, call) && Departs(st, call, y, kind, x)
    ensures x in CrewIn(st, y, kind)
    ensures Balances(After(st, call), y, kind) <==>
      D.Reversible(KindMode(NodeOf(st.forest, y), kind)) && StillMarked(st, y, kind, x)
  {
    var m, n := KindMode(NodeOf(st.forest, y), kind), st.topo.n;
    var r := BooksRoster(st, y, kind);
    var e, r' := Departure(st, call, x, y, kind, m, n, r);
    StepBalances(After(st, call), y, kind, m, n, r, e, r');
    D.DetachKeepsExact(m, n, r, e.i);
    RosterMark(st, y, kind, m, n, r, e.i);
  }

  lemma OtherCallsKeepBooks(st: State, call: Call, y: nat, kind: Kind)
    requires ExactBooks(st, y, kind) && Defined(st, call) && Minds(st, call, y, kind)
    requires forall x: nat :: !Departs(st, call, y, kind, x)
    ensures Balances(After(st, call), y, kind)
  {
    var m, n := KindMode(NodeOf(st.forest, y), kind), st.topo.n;
    var r := BooksRoster(st, y, kind);
    var e, r' := CallIsEvent(st, call, y, kind, m, n, r);
    StepBalances(After(st, call), y, kind, m, n, r, e, r');
  }

  /** A child of `y` gets another attribute. */
  ghost predicate Retags(st: State, call: Call, y: nat)
    requires Usable(st)
  {
    && call.GroupSetAttr? && SetAttribute(st, call.g, call.attribute).Done?
    && NodeOf(st.forest, call.g).father == Some(y) && !Under(st.forest, y, call.g)
  }

  /** The state after that, as far as the father is concerned: the child has a second block, marked in the books. */
  lemma RetagSeated(st: State, call: Call, y: nat)
    requires Usable(st) && Defined(st, call) && LiveGroup(st.forest, y) && Retags(st, call, y)
    ensures var f, p, st' := st.forest, st.places, After(st, call);
      var b := AimBlock(NodeOf(f, y).s, p.claims[y], p.loads);
      && |st'.places.claims| == |p.claims| && LiveGroup(st'.forest, y) && NodeOf(st'.forest, y) == NodeOf(f, y)
      && st'.places.claims[y] == Claim(p.claims[y], b) && st'.places.claims[call.g].total == b
      && forall c: nat | c in NodeOf(f, y).groups && c != call.g && c < |p.claims| ::
         st'.places.claims[c].total == p.claims[c].total
  {
    var a := Arrange(st.topo, call.attribute);
    RetagWoven(st, call.g, call.attribute);
    StillNotUnder(st.forest, call.g, a.attribute, a.s, y);
    GroupSeated(st.topo, Retag(st.forest, call.g, a.attribute, a.s), st.places, call.g, y);
  }

  lemma StillNotUnder(f: Forest, x: nat, attribute: bv64, s: nat, y: nat)
    requires LiveGroup(f, x) && !Under(f, y, x)
    ensures !Under(Retag(f, x, attribute, s), y, x) && y != x
  {
    UnderSelf(f, x);
    if Under(Retag(f, x, attribute, s), y, x) { UnderSame(f, Retag(f, x, attribute, s), y, x); }
  }

  lemma {:induction false} CoverSwap(xs: seq<set<nat>>, i: nat, b: set<nat>, d: nat)
    requires i < |xs|
    ensures Cover(xs[i := b], d) + (if d in xs[i] then 1 else 0) == Cover(xs + [b], d)
  {
    CoverAppend(xs, b, d);
    CoverWithout(xs, i, d);
    CoverWithout(xs[i := b], i, d);
    assert Without(xs[i := b], i) == Without(xs, i);
  }

  // -------- a claim nobody holds --------

  /** The roster with one claim more than it has members. */
  ghost function Haunted(r: D.Roster, seat: Seat): D.Roster { D.Roster(r.c, [seat] + r.seats) }

  ghost predicate OwesBy(st: State, y: nat, extra: set<nat>, r: D.Roster, seat: Seat)
    requires Base(st) && LiveGroup(st.forest, y)
  {
    Mirrors(st, y, OfGroups, r) && seat.cpus == extra
      && D.Exact(KindMode(NodeOf(st.forest, y), OfGroups), st.topo.n, Haunted(r, seat))
  }

  /** The father's books are those of its child groups and of one more claim, on `extra`, that nobody holds. */
  ghost predicate Owes(st: State, y: nat, extra: set<nat>) {
    Base(st) && LiveGroup(st.forest, y) && exists r, seat :: OwesBy(st, y, extra, r, seat)
  }

  lemma OwesAfter(st: State, y: nat, extra: set<nat>, m: Mode, n: nat, r: D.Roster, seat: Seat)
    requires Shown(st, y, OfGroups, m, n, r) && D.Exact(m, n, Haunted(r, seat)) && seat.cpus == extra
    ensures Owes(st, y, extra)
  {
    assert OwesBy(st, y, extra, r, seat);
  }

  /** There is one claim too many on each CPU of `extra`: rounds and marks do not account for the members. */
  ghost predicate Excess(st: State, y: nat, extra: set<nat>)
    requires Base(st) && LiveGroup(st.forest, y)
  {
    var c := st.places.claims[y];
    && extra != {} && extra <= c.total
    && forall d | d in c.total ::
       c.roll + Mark(c, d) == Cover(MemberClaims(st, y, OfGroups), d) + if d in extra then 1 else 0
  }

  /** The seats are of the group's mode. */
  ghost predicate Formed(m: Mode, seats: seq<Seat>) {
    m.s > 0 && forall i | 0 <= i < |seats| :: seats[i] == SeatAt(m, seats[i].target)
  }

  lemma ExactFormed(m: Mode, n: nat, r: D.Roster)
    requires D.Exact(m, n, r)
    ensures Formed(m, r.seats)
  {
  }

  lemma FormedAfter(m: Mode, seat: Seat, seats: seq<Seat>)
    requires Formed(m, [seat] + seats)
    ensures Formed(m, seats) && seat == SeatAt(m, seat.target)
  {
    var h := [seat] + seats;
    assert h[0] == seat && forall i | 0 <= i < |seats| :: h[i + 1] == seats[i];
  }

  lemma FirstClaim(m: Mode, seat: Seat, seats: seq<Seat>)
    requires m.s > 0
    ensures D.ClaimsOf(m, [seat] + seats) == [ClaimAt(m, seat.target)] + D.ClaimsOf(m, seats)
  {
  }

  lemma HauntedSeats(m: Mode, n: nat, r: D.Roster, seat: Seat)
    requires D.Exact(m, n, Haunted(r, seat))
    ensures Formed(m, r.seats) && seat == SeatAt(m, seat.target)
    ensures D.ClaimsOf(m, Haunted(r, seat).seats) == [ClaimAt(m, seat.target)] + D.ClaimsOf(m, r.seats)
  {
    ExactFormed(m, n, Haunted(r, seat));
    FormedAfter(m, seat, r.seats);
    FirstClaim(m, seat, r.seats);
  }

  lemma CoverFirst(x: set<nat>, xs: seq<set<nat>>, d: nat)
    ensures Cover([x] + xs, d) == Cover(xs, d) + if d in x then 1 else 0
  {
    CoverWithout([x] + xs, 0, d);
    assert Without([x] + xs, 0) == xs;
  }

  /** So the books do not balance. */
  lemma OwesExcess(st: State, y: nat, extra: set<nat>)
    requires Owes(st, y, extra)
    ensures Excess(st, y, extra) && !Balances(st, y, OfGroups)
  {
    var m, n, c := KindMode(NodeOf(st.forest, y), OfGroups), st.topo.n, st.places.claims[y];
    var r, seat :| OwesBy(st, y, extra, r, seat);
    HauntedSeats(m, n, r, seat);
    ClaimsAgree(st, y, OfGroups, m, n, r);
    var xs := D.ClaimsOf(m, Haunted(r, seat).seats);
    assert extra == ClaimAt(m, seat.target) == xs[0] && xs[0] in xs;
    forall d | d in c.total
      ensures c.roll + Mark(c, d) == Cover(MemberClaims(st, y, OfGroups), d) + if d in extra then 1 else 0
    {
      CoverFirst(extra, D.ClaimsOf(m, r.seats), d);
    }
    var d :| d in extra;
    assert Cover(MemberClaims(st, y, OfGroups), d) != c.roll + Mark(c, d);
  }

  /** Exactness does not depend on the order of the seats. */
  lemma Reordered(m: Mode, n: nat, r: D.Roster, r': D.Roster)
    requires D.Exact(m, n, r) && r'.c == r.c && forall seat | seat in r'.seats :: seat in r.seats
    requires forall d: nat :: Cover(D.ClaimsOf(m, r'.seats), d) == Cover(D.ClaimsOf(m, r.seats), d)
    ensures D.Exact(m, n, r')
  {
    var xs, xs' := D.ClaimsOf(m, r.seats), D.ClaimsOf(m, r'.seats);
    forall i | 0 <= i < |r'.seats|
      ensures r'.seats[i] == SeatAt(m, r'.seats[i].target) && xs'[i] in xs
    {
      assert r'.seats[i] in r'.seats;
      var j :| 0 <= j < |r.seats| && r.seats[j] == r'.seats[i];
      assert xs[j] == xs'[i];
    }
  }

  lemma SwapMembers(seats: seq<Seat>, i: nat, seat: Seat)
    requires i < |seats|
    ensures forall x | x in [seats[i]] + seats[i := seat] :: x in seats + [seat]
  {
    var h, a := [seats[i]] + seats[i := seat], seats + [seat];
    forall x | x in h
      ensures x in a
    {
      var k :| 0 <= k < |h| && h[k] == x;
      assert a[i] == seats[i] && a[|seats|] == seat && (k > 0 && k - 1 != i ==> a[k - 1] == x);
    }
  }

  lemma SwapCover(m: Mode, seats: seq<Seat>, i: nat, seat: Seat, d: nat)
    requires m.s > 0 && i < |seats|
    ensures Cover(D.ClaimsOf(m, [seats[i]] + seats[i := seat]), d) == Cover(D.ClaimsOf(m, seats + [seat]), d)
  {
    var xs, b := D.ClaimsOf(m, seats), ClaimAt(m, seat.target);
    assert D.ClaimsOf(m, seats + [seat]) == xs + [b]
      && D.ClaimsOf(m, [seats[i]] + seats[i := seat]) == [xs[i]] + xs[i := b];
    CoverFirst(xs[i], xs[i := b], d);
    CoverSwap(xs, i, b, d);
  }

  /** Marking a second block for member `i` and forgetting the first. */
  lemma SecondBlock(m: Mode, n: nat, r: D.Roster, loads: seq<int>, i: nat)
    requires D.Exact(m, n, r) && |loads| == n && i < |r.seats|
    ensures Workable(m.s, r.c, n)
    ensures var t := Target(m, r.c, loads);
      D.Exact(m, n, Haunted(D.Roster(Claim(r.c, ClaimAt(m, t)), r.seats[i := SeatAt(m, t)]), r.seats[i]))
  {
    D.AttachExact(m, n, r, loads);
    var a, seat := D.Attached(m, r, loads), SeatAt(m, Target(m, r.c, loads));
    forall d: nat
      ensures Cover(D.ClaimsOf(m, [r.seats[i]] + r.seats[i := seat]), d) == Cover(D.ClaimsOf(m, a.seats), d)
    {
      SwapCover(m, r.seats, i, seat, d);
    }
    SwapMembers(r.seats, i, seat);
    Reordered(m, n, a, D.Roster(a.c, [r.seats[i]] + r.seats[i := seat]));
  }

  lemma RetaggedMirrors(st: State, call: Call, y: nat, i: nat, m: Mode, r: D.Roster) returns (r': D.Roster)
    requires Base(st) && Defined(st, call) && LiveGroup(st.forest, y) && Retags(st, call, y)
    requires Mirrors(st, y, OfGroups, r)
    requires i < |NodeOf(st.forest, y).groups| && NodeOf(st.forest, y).groups[i] == call.g
    requires m == KindMode(NodeOf(st.forest, y), OfGroups)
    requires Workable(m.s, r.c, st.topo.n)
    ensures Shown(After(st, call), y, OfGroups, m, st.topo.n, r')
    ensures var t := Target(m, r.c, st.places.loads);
      r' == D.Roster(Claim(r.c, ClaimAt(m, t)), r.seats[i := SeatAt(m, t)])
  {
    var t := Target(m, r.c, st.places.loads);
    StepBase(st, call);
    RetaggedSeats(st, call, y, i, m, r);
    r' := D.Roster(Claim(r.c, ClaimAt(m, t)), r.seats[i := SeatAt(m, t)]);
  }

  lemma RetaggedSeats(st: State, call: Call, y: nat, i: nat, m: Mode, r: D.Roster)
    requires Base(st) && Defined(st, call) && LiveGroup(st.forest, y) && Retags(st, call, y)
    requires Mirrors(st, y, OfGroups, r)
    requires i < |NodeOf(st.forest, y).groups| && NodeOf(st.forest, y).groups[i] == call.g
    requires m == KindMode(NodeOf(st.forest, y), OfGroups)
    requires Workable(m.s, r.c, st.topo.n)
    ensures var t, st' := Target(m, r.c, st.places.loads), After(st, call);
      && LiveGroup(st'.forest, y) && NodeOf(st'.forest, y) == NodeOf(st.forest, y) && y < |st'.places.claims|
      && st'.places.claims[y] == Claim(r.c, ClaimAt(m, t)) && st'.topo == st.topo
      && Crews.Seated(st'.places, OfGroups, NodeOf(st.forest, y).groups, r.seats[i := SeatAt(m, t)])
  {
    var t := Target(m, r.c, st.places.loads);
    RetagHolds(st, call, y, m, t);
    assert Knit(st.topo, st.forest, y);
    Reseated(st.places, After(st, call).places, NodeOf(st.forest, y).groups, r.seats, i, SeatAt(m, t));
  }

  lemma RetagHolds(st: State, call: Call, y: nat, m: Mode, t: nat)
    requires Usable(st) && Defined(st, call) && LiveGroup(st.forest, y) && Retags(st, call, y)
    requires m == KindMode(NodeOf(st.forest, y), OfGroups)
    requires Workable(m.s, st.places.claims[y], st.topo.n) && t == Target(m, st.places.claims[y], st.places.loads)
    ensures var f, p, st' := st.forest, st.places, After(st, call);
      && LiveGroup(st'.forest, y) && NodeOf(st'.forest, y) == NodeOf(f, y) && |st'.places.claims| == |p.claims|
      && st'.topo == st.topo
      && st'.places.claims[y] == Claim(p.claims[y], ClaimAt(m, t)) && Holds(st'.places, OfGroups, call.g, SeatAt(m, t))
      && forall c: nat | c in NodeOf(f, y).groups && c != call.g && c < |p.claims| ::
         st'.places.claims[c].total == p.claims[c].total
  {
    RetagSeated(st, call, y);
    BlockIsSeat(m.s, st.places.claims[y], st.places.loads);
  }

  lemma Reseated(p: Places, p': Places, crew: seq<nat>, seats: seq<Seat>, i: nat, seat: Seat)
    requires Crews.Seated(p, OfGroups, crew, seats) && Distinct(crew) && i < |crew|
    requires Holds(p', OfGroups, crew[i], seat)
    requires |p'.claims| == |p.claims|
    requires forall c: nat | c in crew && c != crew[i] && c < |p.claims| :: p'.claims[c].total == p.claims[c].total
    ensures Crews.Seated(p', OfGroups, crew, seats[i := seat])
  {
    forall k | 0 <= k < |crew|
      ensures Holds(p', OfGroups, crew[k], seats[i := seat][k])
    {
      assert Holds(p, OfGroups, crew[k], seats[k]) && crew[k] in crew;
    }
  }

  /** Changing the attribute of a child group asks the father for a block without giving the first one back: its CPUs
      stay claimed by nobody. */
  lemma AttributeLeaks(st: State, call: Call, y: nat)
    requires ExactBooks(st, y, OfGroups) && Defined(st, call) && Retags(st, call, y)
    ensures Owes(After(st, call), y, st.places.claims[call.g].total)
  {
    var crew, x := NodeOf(st.forest, y).groups, call.g;
    var r := BooksRoster(st, y, OfGroups);
    assert Knit(st.topo, st.forest, x);
    var i :| 0 <= i < |crew| && crew[i] == x;
    assert Holds(st.places, OfGroups, crew[i], r.seats[i]);
    MemberLeaks(st, call, y, i, KindMode(NodeOf(st.forest, y), OfGroups), r);
  }

  lemma MemberLeaks(st: State, call: Call, y: nat, i: nat, m: Mode, r: D.Roster)
    requires Base(st) && Defined(st, call) && LiveGroup(st.forest, y) && Retags(st, call, y)
    requires Mirrors(st, y, OfGroups, r)
    requires i < |NodeOf(st.forest, y).groups| && NodeOf(st.forest, y).groups[i] == call.g
    requires m == KindMode(NodeOf(st.forest, y), OfGroups)
    requires D.Exact(m, st.topo.n, r)
    ensures Owes(After(st, call), y, r.seats[i].cpus)
  {
    ShapeWorkable(st.topo, st.forest, st.places, y);
    var r' := RetaggedMirrors(st, call, y, i, m, r);
    SecondOwed(After(st, call), y, m, st.topo.n, r, st.places.loads, i, r');
  }

  lemma SecondOwed(st: State, y: nat, m: Mode, n: nat, r: D.Roster, loads: seq<int>, i: nat, r': D.Roster)
    requires D.Exact(m, n, r) && |loads| == n && i < |r.seats| && Workable(m.s, r.c, n)
    requires Shown(st, y, OfGroups, m, n, r')
    requires var t := Target(m, r.c, loads); r' == D.Roster(Claim(r.c, ClaimAt(m, t)), r.seats[i := SeatAt(m, t)])
    ensures Owes(st, y, r.seats[i].cpus)
  {
    SecondBlock(m, n, r, loads, i);
    OwesAfter(st, y, r.seats[i].cpus, m, n, r', r.seats[i]);
  }

  lemma OneLeaver(st: State, call: Call, y: nat, kind: Kind, x: nat, z: nat)
    requires Usable(st) && Departs(st, call, y, kind, x) && Departs(st, call, y, kind, z)
    ensures x == z
  {
  }

  lemma RetagsApart(st: State, call: Call, y: nat, kind: Kind)
    requires Usable(st) && Retags(st, call, y)
    ensures !Minds(st, call, y, kind) && forall x: nat :: !Departs(st, call, y, kind, x)
  {
    assert call.GroupSetAttr? && Replaces(st, call, y);
    forall x: nat
      ensures !Arrives(st, call, y, kind, x) && !Departs(st, call, y, kind, x)
    {
    }
  }

  /** Whoever leaves has a claim that is taken back as it was made and is still marked. */
  ghost predicate LeavesClean(st: State, call: Call, y: nat, kind: Kind)
    requires Base(st) && LiveGroup(st.forest, y)
  {
    forall x: nat | Departs(st, call, y, kind, x) ::
      x in CrewIn(st, y, kind) && D.Reversible(KindMode(NodeOf(st.forest, y), kind)) && StillMarked(st, y, kind, x)
  }

  /** A call that does not re-place the group keeps its books exact if and only if it changes no child's attribute
      and whoever leaves does so cleanly. */
  lemma CallKeepsBooks(st: State, call: Call, y: nat, kind: Kind)
    requires ExactBooks(st, y, kind) && Defined(st, call)
    requires Minds(st, call, y, kind) || (kind == OfGroups && Retags(st, call, y))
    ensures Balances(After(st, call), y, kind) <==> !Retags(st, call, y) && LeavesClean(st, call, y, kind)
  {
    if Retags(st, call, y) {
      RetagsApart(st, call, y, kind);
      AttributeLeaks(st, call, y);
      OwesExcess(After(st, call), y, st.places.claims[call.g].total);
    } else if x: nat :| Departs(st, call, y, kind, x) {
      DepartureKeepsBooks(st, call, y, kind, x);
      forall z: nat | Departs(st, call, y, kind, z)
        ensures z == x
      {
        OneLeaver(st, call, y, kind, z, x);
      }
    } else {
      OtherCallsKeepBooks(st, call, y, kind);
    }
  }

  // -------- the claim stays --------

  function Shifted(e: D.Event): D.Event { if e.Detach? then D.Detach(e.i + 1) else e }

  /** What happens to the roster happens to it with one claim more. */
  lemma HauntedStep(m: Mode, n: nat, r: D.Roster, e: D.Event, r': D.Roster, seat: Seat)
    requires D.Step(m, n, r, e, r')
    ensures D.Step(m, n, Haunted(r, seat), Shifted(e), Haunted(r', seat))
  {
    match e
    case Attach(loads) =>
      assert [seat] + (r.seats + [SeatAt(m, Target(m, r.c, loads))]) ==
      Haunted(r, seat).seats + [SeatAt(m, Target(m, r.c, loads))];
    case Detach(i) => assert Without([seat] + r.seats, i + 1) == [seat] + Without(r.seats, i);
    case Idle =>
  }

  lemma ChildClaim(st: State, y: nat, m: Mode, n: nat, r: D.Roster, i: nat)
    requires Shown(st, y, OfGroups, m, n, r) && i < |r.seats| && m.s > 0 && r.seats[i] == SeatAt(m, r.seats[i].target)
    ensures var x := CrewIn(st, y, OfGroups)[i];
      x in CrewIn(st, y, OfGroups) && ClaimOf(st, y, OfGroups, x) == ClaimAt(m, r.seats[i].target)
  {
    var crew := CrewOf(NodeOf(st.forest, y), OfGroups);
    assert crew[i] in crew && Holds(st.places, OfGroups, crew[i], r.seats[i]);
  }

  lemma WithoutFrom<T>(xs: seq<T>, i: nat)
    ensures forall x | x in Without(xs, i) :: x in xs
  {
  }

  lemma ClaimsFrom(m: Mode, seats: seq<Seat>, seats': seq<Seat>)
    requires m.s > 0 && forall x | x in seats' :: x in seats
    ensures forall x | x in D.ClaimsOf(m, seats') :: x in D.ClaimsOf(m, seats)
  {
    forall x | x in D.ClaimsOf(m, seats')
      ensures x in D.ClaimsOf(m, seats)
    {
      var k :| 0 <= k < |seats'| && D.ClaimsOf(m, seats')[k] == x;
      assert seats'[k] in seats';
      var j :| 0 <= j < |seats| && seats[j] == seats'[k];
      assert D.ClaimsOf(m, seats)[j] == x;
    }
  }

  /** Whoever leaves, claims and marks stay inside the group. */
  lemma DetachedInside(m: Mode, n: nat, r: D.Roster, i: nat)
    requires D.Exact(m, n, r) && i < |r.seats|
    ensures var r' := D.Detached(m, r, i); r'.c.used <= r'.c.total && Inside(D.ClaimsOf(m, r'.seats), r'.c.total)
  {
    D.SeatInside(m, n, r, i);
    WithoutFrom(r.seats, i);
    ClaimsFrom(m, r.seats, Without(r.seats, i));
  }

  /** A member leaves the roster with one claim more. */
  lemma HauntedDetach(m: Mode, n: nat, r: D.Roster, seat: Seat, i: nat, r': D.Roster)
    requires D.Exact(m, n, Haunted(r, seat)) && D.WholeBlocks(m) && i < |r.seats| && r' == D.Detached(m, r, i)
    ensures D.StillMarked(m, r, i) ==> D.Exact(m, n, Haunted(r', seat))
    ensures (forall d | d in r'.c.total ::
      Cover(D.ClaimsOf(m, Haunted(r', seat).seats), d) == r'.c.roll + Mark(r'.c, d)) ==> D.StillMarked(m, r, i)
  {
    HauntedStep(m, n, r, D.Detach(i), r', seat);
    assert Haunted(r, seat).seats[i + 1] == r.seats[i];
    if D.StillMarked(m, r, i) {
      D.MarkedDetachExact(m, n, Haunted(r, seat), i + 1);
    } else {
      DetachedInside(m, n, Haunted(r, seat), i + 1);
      D.DetachKeepsExact(m, n, Haunted(r, seat), i + 1);
    }
  }

  lemma ExcessCovers(c: Claims, xs: seq<set<nat>>, extra: set<nat>)
    requires forall d | d in c.total :: c.roll + Mark(c, d) == Cover(xs, d) + if d in extra then 1 else 0
    ensures forall d | d in c.total :: Cover([extra] + xs, d) == c.roll + Mark(c, d)
  {
    forall d | d in c.total
      ensures Cover([extra] + xs, d) == c.roll + Mark(c, d)
    {
      CoverFirst(extra, xs, d);
    }
  }

  lemma FormedWithout(m: Mode, seats: seq<Seat>, i: nat)
    requires Formed(m, seats)
    ensures Formed(m, Without(seats, i))
  {
    WithoutFrom(seats, i);
    assert forall k | 0 <= k < |Without(seats, i)| :: Without(seats, i)[k] in Without(seats, i);
  }

  /** If the state owes that claim, the roster's books are those of its members and of the claim. */
  lemma OwesCovered(st: State, y: nat, m: Mode, n: nat, r: D.Roster, seat: Seat)
    requires Owes(st, y, seat.cpus) && Shown(st, y, OfGroups, m, n, r) && Formed(m, r.seats)
    requires seat == SeatAt(m, seat.target)
    ensures forall d | d in r.c.total :: Cover(D.ClaimsOf(m, Haunted(r, seat).seats), d) == r.c.roll + Mark(r.c, d)
  {
    OwesExcess(st, y, seat.cpus);
    ClaimsAgree(st, y, OfGroups, m, n, r);
    ExcessCovers(r.c, MemberClaims(st, y, OfGroups), seat.cpus);
    FirstClaim(m, seat, r.seats);
  }

  lemma MarkAgrees(st: State, y: nat, m: Mode, n: nat, r: D.Roster, i: nat)
    requires Shown(st, y, OfGroups, m, n, r) && Formed(m, r.seats) && i < |r.seats|
    ensures var x := CrewIn(st, y, OfGroups)[i];
      x in CrewIn(st, y, OfGroups) && (D.StillMarked(m, r, i) <==> StillMarked(st, y, OfGroups, x))
  {
    ChildClaim(st, y, m, n, r, i);
  }

  /** A child leaves: the claim too many is all that is wrong if and only if the leaver's claim was still marked. */
  lemma DepartureOwes(st: State, call: Call, y: nat, extra: set<nat>, x: nat)
    requires Owes(st, y, extra) && Defined(st, call) && Departs(st, call, y, OfGroups, x)
    ensures x in CrewIn(st, y, OfGroups)
    ensures Owes(After(st, call), y, extra) <==> StillMarked(st, y, OfGroups, x)
  {
    var m, n := KindMode(NodeOf(st.forest, y), OfGroups), st.topo.n;
    var r, seat :| OwesBy(st, y, extra, r, seat);
    var e, r' := Departure(st, call, x, y, OfGroups, m, n, r);
    HauntedSeats(m, n, r, seat);
    MarkAgrees(st, y, m, n, r, e.i);
    LeaverOwes(After(st, call), y, m, n, r, seat, e.i, r');
  }

  lemma LeaverOwes(st: State, y: nat, m: Mode, n: nat, r: D.Roster, seat: Seat, i: nat, r': D.Roster)
    requires Shown(st, y, OfGroups, m, n, r') && D.Exact(m, n, Haunted(r, seat)) && i < |r.seats|
    requires r' == D.Detached(m, r, i)
    ensures Owes(st, y, seat.cpus) <==> D.StillMarked(m, r, i)
  {
    HauntedDetach(m, n, r, seat, i, r');
    if D.StillMarked(m, r, i) {
      OwesAfter(st, y, seat.cpus, m, n, r', seat);
    } else if Owes(st, y, seat.cpus) {
      HauntedSeats(m, n, r, seat);
      FormedWithout(m, r.seats, i);
      OwesCovered(st, y, m, n, r', seat);
      assert false;
    }
  }

  lemma OtherCallsOwe(st: State, call: Call, y: nat, extra: set<nat>)
    requires Owes(st, y, extra) && Defined(st, call) && Minds(st, call, y, OfGroups)
    requires forall x: nat :: !Departs(st, call, y, OfGroups, x)
    ensures Owes(After(st, call), y, extra)
  {
    var m, n := KindMode(NodeOf(st.forest, y), OfGroups), st.topo.n;
    var r, seat :| OwesBy(st, y, extra, r, seat);
    var e, r' := CallIsEvent(st, call, y, OfGroups, m, n, r);
    HauntedStep(m, n, r, e, r', seat);
    D.GrowingStepExact(m, n, Haunted(r, seat), Shifted(e), Haunted(r', seat));
    OwesAfter(After(st, call), y, extra, m, n, r', seat);
  }

  /** As long as the father is not re-placed and no other child gets an attribute, a call leaves exactly that one claim
      too many if and only if whoever leaves does so cleanly.  Nothing gives it back. */
  lemma CallKeepsDebt(st: State, call: Call, y: nat, extra: set<nat>)
    requires Owes(st, y, extra) && Defined(st, call) && Minds(st, call, y, OfGroups)
    ensures Owes(After(st, call), y, extra) <==> LeavesClean(st, call, y, OfGroups)
  {
    if x: nat :| Departs(st, call, y, OfGroups, x) {
      DepartureOwes(st, call, y, extra, x);
      forall z: nat | Departs(st, call, y, OfGroups, z)
        ensures z == x
      {
        OneLeaver(st, call, y, OfGroups, z, x);
      }
    } else {
      OtherCallsOwe(st, call, y, extra);
    }
  }

  /** Whoever leaves in call `i` does so cleanly. */
  ghost predicate CleanAt(sts: seq<State>, calls: seq<Call>, y: nat, i: nat)
    requires i < |calls| < |sts|
  {
    Base(sts[i]) && LiveGroup(sts[i].forest, y) ==> LeavesClean(sts[i], calls[i], y, OfGroups)
  }

  lemma DebtAt(sts: seq<State>, calls: seq<Call>, y: nat, extra: set<nat>, k: nat)
    requires Session(sts, calls, y, OfGroups) && k < |calls| && Owes(sts[k], y, extra)
    ensures Owes(sts[k + 1], y, extra) <==> CleanAt(sts, calls, y, k)
  {
    assert T.Step(sts[k], calls[k], sts[k + 1]) && Minds(sts[k], calls[k], y, OfGroups);
    CallKeepsDebt(sts[k], calls[k], y, extra);
  }

  /** The states of the run in which the debt is exactly `extra`. */
  ghost function Owing(sts: seq<State>, y: nat, extra: set<nat>): iset<nat> {
    iset k: nat | k < |sts| && Owes(sts[k], y, extra)
  }

  lemma {:induction false} Ladder(ok: iset<nat>, k: nat)
    requires 0 in ok && forall i: nat | i < k && i in ok :: i + 1 in ok
    ensures k in ok
  {
    if k > 0 { Ladder(ok, k - 1); }
  }

  lemma DebtStays(sts: seq<State>, calls: seq<Call>, y: nat, extra: set<nat>, k: nat)
    requires Session(sts, calls, y, OfGroups) && Owes(sts[0], y, extra)
    requires k <= |calls| && forall i | 0 <= i < k :: CleanAt(sts, calls, y, i)
    ensures Owes(sts[k], y, extra)
  {
    var ok := Owing(sts, y, extra);
    forall i: nat | i < k && i in ok
      ensures i + 1 in ok
    {
      DebtNext(sts, calls, y, extra, i);
    }
    Ladder(ok, k);
  }

  lemma DebtNext(sts: seq<State>, calls: seq<Call>, y: nat, extra: set<nat>, k: nat)
    requires Session(sts, calls, y, OfGroups) && k < |calls| && k in Owing(sts, y, extra) && CleanAt(sts, calls, y, k)
    ensures k + 1 in Owing(sts, y, extra)
  {
    DebtAt(sts, calls, y, extra, k);
  }

  /** Over any session of the father: in every state exactly the first block of the child whose attribute changed is
      claimed by nobody, if and only if whoever leaves does so cleanly. */
  lemma LeakStays(sts: seq<State>, calls: seq<Call>, y: nat, extra: set<nat>)
    requires Session(sts, calls, y, OfGroups) && Owes(sts[0], y, extra)
    ensures (forall k | 0 <= k < |sts| :: Owes(sts[k], y, extra)) <==>
      forall i | 0 <= i < |calls| :: CleanAt(sts, calls, y, i)
  {
    if forall i | 0 <= i < |calls| :: CleanAt(sts, calls, y, i) {
      forall k | 0 <= k < |sts|
        ensures Owes(sts[k], y, extra)
      {
        DebtStays(sts, calls, y, extra, k);
      }
    }
    if forall k | 0 <= k < |sts| :: Owes(sts[k], y, extra) {
      forall i | 0 <= i < |calls|
        ensures CleanAt(sts, calls, y, i)
      {
        assert Owes(sts[i], y, extra) && Owes(sts[i + 1], y, extra);
        DebtAt(sts, calls, y, extra, i);
      }
    }
  }
}
