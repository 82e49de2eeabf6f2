/** Callers that take mutexes at the same time: when they can block each other for good. */
module Locks {

  /** What a call does with mutexes: take one and release it, or take a second while it has the first, and release
      both, the second one first. */
  datatype Section = One(first: nat) | Two(first: nat, second: nat)

  /** The sections a caller has left, and how many steps it has made in the first of them. */
  datatype Caller = Caller(todo: seq<Section>, at: nat)

  function Length(x: Section): nat { if x.One? then 2 else 4 }

  predicate Fine(c: Caller) { if c.todo == [] then c.at == 0 else c.at < Length(c.todo[0]) }

  function Held(c: Caller): set<nat> {
    if c.todo == [] || c.at == 0 then {}
    else if c.todo[0].Two? && c.at == 2 then {c.todo[0].first, c.todo[0].second}
    else {c.todo[0].first}
  }

  /** The mutex its next step takes, if any. */
  function Wanted(c: Caller): set<nat> {
    if c.todo == [] then {}
    else if c.at == 0 then {c.todo[0].first}
    else if c.todo[0].Two? && c.at == 1 then {c.todo[0].second}
    else {}
  }

  predicate Free(cs: seq<Caller>, m: nat) { forall i | 0 <= i < |cs| :: m !in Held(cs[i]) }

  predicate CanStep(cs: seq<Caller>, i: nat) {
    i < |cs| && cs[i].todo != [] && forall m | m in Wanted(cs[i]) :: Free(cs, m)
  }

  function Next(c: Caller): Caller
    requires c.todo != []
  {
    if c.at + 1 < Length(c.todo[0]) then c.(at := c.at + 1) else Caller(c.todo[1..], 0)
  }

  function Step(cs: seq<Caller>, i: nat): seq<Caller>
    requires CanStep(cs, i)
  {
    cs[i := Next(cs[i])]
  }

  /** The callers' steps in the order of the schedule. */
  ghost predicate Follows(cs: seq<Caller>, schedule: seq<nat>, cs': seq<Caller>)
    decreases |schedule|
  {
    if schedule == [] then cs' == cs
    else CanStep(cs, schedule[0]) && Follows(Step(cs, schedule[0]), schedule[1..], cs')
  }

  ghost predicate Leads(cs: seq<Caller>, cs': seq<Caller>) { exists schedule :: Follows(cs, schedule, cs') }

  /** Each caller has all of its program before it. */
  function Start(programs: seq<seq<Section>>): seq<Caller> {
    seq(|programs|, i requires 0 <= i < |programs| => Caller(programs[i], 0))
  }

  predicate Finished(cs: seq<Caller>) { forall i | 0 <= i < |cs| :: cs[i].todo == [] }

  // -------- what every step keeps --------

  /** No mutex has two owners. */
  predicate Sane(cs: seq<Caller>) {
    && (forall i | 0 <= i < |cs| :: Fine(cs[i]))
    && forall i, j | 0 <= i < j < |cs| :: Held(cs[i]) !! Held(cs[j])
  }

  /** A caller has the first mutex of its section whenever it has the second, and takes the second only then. */
  lemma Nested(c: Caller)
    requires Fine(c) && c.todo != [] && c.todo[0].Two?
    ensures c.todo[0].second in Held(c) + Wanted(c) && !Self(c.todo[0]) ==> Held(c) >= {c.todo[0].first}
    ensures c.todo[0].first in Wanted(c) && !Self(c.todo[0]) ==> Held(c) == {}
  {
  }

  lemma StepSane(cs: seq<Caller>, i: nat)
    requires Sane(cs) && CanStep(cs, i)
    ensures Sane(Step(cs, i))
  {
    assert Held(Next(cs[i])) <= Held(cs[i]) + Wanted(cs[i]);
  }

  /** The steps a caller still has to make, and all callers together. */
  function Left(c: Caller): int { Steps(c.todo) - c.at }

  function Steps(xs: seq<Section>): nat { if xs == [] then 0 else Length(xs[0]) + Steps(xs[1..]) }

  function AllLeft(cs: seq<Caller>): int { if cs == [] then 0 else AllLeft(cs[..|cs| - 1]) + Left(cs[|cs| - 1]) }

  lemma {:induction false} LeftFalls(cs: seq<Caller>, i: nat, c: Caller)
    requires i < |cs| && Left(c) == Left(cs[i]) - 1
    ensures AllLeft(cs[i := c]) == AllLeft(cs) - 1
  {
    var n := |cs| - 1;
    if i == n {
      assert cs[i := c][..n] == cs[..n];
    } else {
      LeftFalls(cs[..n], i, c);
      assert cs[i := c][..n] == cs[..n][i := c];
    }
  }

  lemma StepFalls(cs: seq<Caller>, i: nat)
    requires Sane(cs) && CanStep(cs, i)
    ensures AllLeft(Step(cs, i)) == AllLeft(cs) - 1
  {
    assert Fine(cs[i]);
    LeftFalls(cs, i, Next(cs[i]));
  }

  lemma {:induction false} LeftNat(cs: seq<Caller>)
    requires Sane(cs)
    ensures AllLeft(cs) >= 0
  {
    if cs != [] {
      LeftNat(cs[..|cs| - 1]);
      assert Fine(cs[|cs| - 1]);
    }
  }

  /** The caller is in its program: what it has left is the end of it. */
  predicate Within(programs: seq<seq<Section>>, cs: seq<Caller>) {
    && |cs| == |programs|
    && forall i | 0 <= i < |cs| ::
       |cs[i].todo| <= |programs[i]| && cs[i].todo == programs[i][|programs[i]| - |cs[i].todo|..]
  }

  lemma StepWithin(programs: seq<seq<Section>>, cs: seq<Caller>, i: nat)
    requires Within(programs, cs) && CanStep(cs, i)
    ensures Within(programs, Step(cs, i))
  {
    var k := |programs[i]| - |cs[i].todo|;
    assert programs[i][k..][1..] == programs[i][k + 1..];
  }

  /** Every run keeps all this, and its length is bounded by the programs. */
  lemma {:induction false} RunKeeps(programs: seq<seq<Section>>, cs: seq<Caller>, schedule: seq<nat>, cs': seq<Caller>)
    requires Sane(cs) && Within(programs, cs) && Follows(cs, schedule, cs')
    ensures Sane(cs') && Within(programs, cs') && |schedule| + AllLeft(cs') == AllLeft(cs)
    decreases |schedule|
  {
    if schedule != [] {
      StepSane(cs, schedule[0]);
      StepWithin(programs, cs, schedule[0]);
      StepFalls(cs, schedule[0]);
      RunKeeps(programs, Step(cs, schedule[0]), schedule[1..], cs');
    }
  }

  // -------- blocked for good --------

  /** The caller waits for a second mutex. */
  predicate Waits(c: Caller) { c.todo != [] && c.todo[0].Two? && c.at == 1 }

  /** One of these callers has the mutex caller `i` waits for. */
  ghost predicate BlockedBy(cs: seq<Caller>, who: set<nat>, i: nat)
    requires i < |cs| && Waits(cs[i])
  {
    exists j :: j in who && j < |cs| && cs[i].todo[0].second in Held(cs[j])
  }

  /** Each of these callers waits for a mutex that one of them has. */
  ghost predicate Deadlocked(cs: seq<Caller>, who: set<nat>) {
    && who != {}
    && (forall i | i in who :: i < |cs| && Waits(cs[i]))
    && forall i {:trigger BlockedBy(cs, who, i)} | i in who :: BlockedBy(cs, who, i)
  }

  lemma MemberStuck(cs: seq<Caller>, who: set<nat>, i: nat)
    requires Deadlocked(cs, who) && i in who
    ensures !CanStep(cs, i)
  {
    assert BlockedBy(cs, who, i);
    assert cs[i].todo[0].second in Wanted(cs[i]);
  }

  lemma StillBlocked(cs: seq<Caller>, cs': seq<Caller>, who: set<nat>, k: nat)
    requires k in who && k < |cs| == |cs'| && Waits(cs[k]) && BlockedBy(cs, who, k)
    requires forall j | j in who && j < |cs| :: cs'[j] == cs[j]
    ensures Waits(cs'[k]) && BlockedBy(cs', who, k)
  {
    var j :| j in who && j < |cs| && cs[k].todo[0].second in Held(cs[j]);
  }

  lemma OtherSteps(cs: seq<Caller>, who: set<nat>, i: nat)
    requires Deadlocked(cs, who) && i !in who && CanStep(cs, i)
    ensures Deadlocked(Step(cs, i), who)
  {
    forall k | k in who
      ensures k < |cs| && Waits(Step(cs, i)[k]) && BlockedBy(Step(cs, i), who, k)
    {
      assert BlockedBy(cs, who, k);
      StillBlocked(cs, Step(cs, i), who, k);
    }
  }

  /** Whatever the others do, those callers stay where they are. */
  lemma {:induction false} DeadlockStays(cs: seq<Caller>, who: set<nat>, schedule: seq<nat>, cs': seq<Caller>)
    requires Deadlocked(cs, who) && Follows(cs, schedule, cs')
    ensures Deadlocked(cs', who) && |cs'| == |cs| && forall i | i in who :: cs'[i] == cs[i]
    decreases |schedule|
  {
    if schedule != [] {
      var i := schedule[0];
      if i in who { MemberStuck(cs, who, i); }
      OtherSteps(cs, who, i);
      DeadlockStays(Step(cs, i), who, schedule[1..], cs');
    }
  }

  /** Who has the mutex a stuck caller wants, and is stuck itself, waits for a second one. */
  lemma HolderWaits(cs: seq<Caller>, i: nat) returns (j: nat)
    requires Sane(cs) && (forall k: nat | k < |cs| :: !CanStep(cs, k)) && i < |cs| && cs[i].todo != []
    ensures j < |cs| && Waits(cs[j]) && exists m :: m in Wanted(cs[i]) && m in Held(cs[j])
  {
    assert !CanStep(cs, i);
    var m :| m in Wanted(cs[i]) && !Free(cs, m);
    j :| 0 <= j < |cs| && m in Held(cs[j]);
    assert !CanStep(cs, j) && Fine(cs[j]);
  }

  /** When no caller can make a step, all have finished or those that wait have deadlocked. */
  lemma Progress(cs: seq<Caller>)
    requires Sane(cs) && forall i: nat | i < |cs| :: !CanStep(cs, i)
    ensures Finished(cs) || Deadlocked(cs, Waiting(cs))
  {
    if i: nat :| i < |cs| && cs[i].todo != [] {
      var first := HolderWaits(cs, i);
      assert first in Waiting(cs);
      forall k | k in Waiting(cs)
        ensures BlockedBy(cs, Waiting(cs), k)
      {
        var j := HolderWaits(cs, k);
        assert j in Waiting(cs);
      }
    }
  }

  function Waiting(cs: seq<Caller>): set<nat> { set i: nat | i < |cs| && Waits(cs[i]) }

  /** The programs can be run into a deadlock. */
  ghost predicate CanBlock(programs: seq<seq<Section>>) {
    exists cs, who :: Leads(Start(programs), cs) && Deadlocked(cs, who)
  }

  lemma StartSane(programs: seq<seq<Section>>)
    ensures Sane(Start(programs)) && Within(programs, Start(programs))
  {
  }

  lemma LeadsSane(programs: seq<seq<Section>>, cs: seq<Caller>)
    requires Leads(Start(programs), cs)
    ensures Sane(cs) && Within(programs, cs)
  {
    var schedule :| Follows(Start(programs), schedule, cs);
    StartSane(programs);
    RunKeeps(programs, Start(programs), schedule, cs);
  }

  lemma {:induction false} Joined(cs: seq<Caller>, s: seq<nat>, mid: seq<Caller>, s': seq<nat>, end: seq<Caller>)
    requires Follows(cs, s, mid) && Follows(mid, s', end)
    ensures Follows(cs, s + s', end)
    decreases |s|
  {
    if s == [] {
      assert s + s' == s';
    } else {
      Joined(Step(cs, s[0]), s[1..], mid, s', end);
      assert (s + s')[1..] == s[1..] + s';
    }
  }

  lemma LeadsOn(cs: seq<Caller>, mid: seq<Caller>, end: seq<Caller>)
    requires Leads(cs, mid) && Leads(mid, end)
    ensures Leads(cs, end)
  {
    var s :| Follows(cs, s, mid);
    var s' :| Follows(mid, s', end);
    Joined(cs, s, mid, s', end);
  }

  lemma LeadsStep(cs: seq<Caller>, mid: seq<Caller>, i: nat)
    requires Leads(cs, mid) && CanStep(mid, i)
    ensures Leads(cs, Step(mid, i))
  {
    assert Follows(Step(mid, i), [], Step(mid, i)) && [i][1..] == [];
    assert Follows(mid, [i], Step(mid, i));
    LeadsOn(cs, mid, Step(mid, i));
  }

  lemma LeadsSelf(cs: seq<Caller>)
    ensures Leads(cs, cs)
  {
    assert Follows(cs, [], cs);
  }

  /** If they cannot, every run is part of one in which all callers finish. */
  lemma {:induction false} Finishes(programs: seq<seq<Section>>, cs: seq<Caller>) returns (end: seq<Caller>)
    requires !CanBlock(programs) && Leads(Start(programs), cs)
    requires Sane(cs)
    ensures Leads(cs, end) && Finished(end)
    decreases AllLeft(cs)
  {
    LeftNat(cs);
    if i: nat :| CanStep(cs, i) {
      StepSane(cs, i);
      StepFalls(cs, i);
      LeftNat(Step(cs, i));
      LeadsStep(Start(programs), cs, i);
      end := Finishes(programs, Step(cs, i));
      LeadsSelf(cs);
      LeadsStep(cs, cs, i);
      LeadsOn(cs, Step(cs, i), end);
    } else {
      Progress(cs);
      LeadsSelf(cs);
      end := cs;
    }
  }

  // -------- when they can --------

  /** A section with two mutexes of each of some callers. */
  predicate Picks(programs: seq<seq<Section>>, pick: map<nat, nat>) {
    forall i | i in pick :: i < |programs| && pick[i] < |programs[i]| && programs[i][pick[i]].Two?
  }

  function Picked(programs: seq<seq<Section>>, pick: map<nat, nat>, i: nat): Section
    requires Picks(programs, pick) && i in pick
  {
    programs[i][pick[i]]
  }

  /** The second mutex of caller `i` is the first of one of them. */
  ghost predicate Tied(programs: seq<seq<Section>>, pick: map<nat, nat>, i: nat)
    requires Picks(programs, pick) && i in pick
  {
    exists j :: j in pick && Picked(programs, pick, i).second == Picked(programs, pick, j).first
  }

  /** No two of those sections begin with the same mutex, and each ends with one that another begins with. */
  ghost predicate Tangle(programs: seq<seq<Section>>, pick: map<nat, nat>) {
    && pick.Keys != {} && Picks(programs, pick)
    && (forall i, j | i in pick && j in pick && i != j ::
          Picked(programs, pick, i).first != Picked(programs, pick, j).first)
    && forall i {:trigger Tied(programs, pick, i)} | i in pick :: Tied(programs, pick, i)
  }

  /** What a waiting caller has, and where it is in its program. */
  lemma WaitsAt(programs: seq<seq<Section>>, cs: seq<Caller>, i: nat)
    requires Within(programs, cs) && i < |cs| && Waits(cs[i])
    ensures var k := |programs[i]| - |cs[i].todo|; 0 <= k < |programs[i]| && programs[i][k] == cs[i].todo[0]
    ensures Held(cs[i]) == {cs[i].todo[0].first}
  {
    var k := |programs[i]| - |cs[i].todo|;
    assert cs[i].todo == programs[i][k..];
  }

  lemma FirstsApart(cs: seq<Caller>, i: nat, j: nat)
    requires Sane(cs) && i < |cs| && j < |cs| && i != j && Waits(cs[i]) && Waits(cs[j])
    ensures cs[i].todo[0].first != cs[j].todo[0].first
  {
    assert cs[i].todo[0].first in Held(cs[i]) && cs[j].todo[0].first in Held(cs[j]);
    assert if i < j then Held(cs[i]) !! Held(cs[j]) else Held(cs[j]) !! Held(cs[i]);
  }

  /** A blocked caller's section is tied to another of them by the mutex it waits for. */
  lemma WaitTied(programs: seq<seq<Section>>, cs: seq<Caller>, who: set<nat>, pick: map<nat, nat>, i: nat)
    requires Picks(programs, pick) && pick.Keys == who && i in who && i < |cs| && Waits(cs[i]) && BlockedBy(cs, who, i)
    requires forall j | j in pick :: j < |cs| && Waits(cs[j]) && Picked(programs, pick, j) == cs[j].todo[0]
    ensures Tied(programs, pick, i)
  {
    var j :| j in who && j < |cs| && cs[i].todo[0].second in Held(cs[j]);
    assert j in pick;
  }

  lemma DeadlockTangles(programs: seq<seq<Section>>, cs: seq<Caller>, who: set<nat>) returns (pick: map<nat, nat>)
    requires Sane(cs) && Within(programs, cs) && Deadlocked(cs, who)
    ensures Tangle(programs, pick)
  {
    pick := map i | i in who :: |programs[i]| - |cs[i].todo|;
    assert pick.Keys == who;
    forall i | i in who
      ensures i < |programs| && pick[i] < |programs[i]| && programs[i][pick[i]] == cs[i].todo[0]
    {
      WaitsAt(programs, cs, i);
    }
    forall i, j | i in pick && j in pick && i != j
      ensures Picked(programs, pick, i).first != Picked(programs, pick, j).first
    {
      FirstsApart(cs, i, j);
    }
    forall i | i in pick
      ensures Tied(programs, pick, i)
    {
      assert BlockedBy(cs, who, i);
      WaitTied(programs, cs, who, pick, i);
    }
  }

  predicate Self(x: Section) { x.Two? && x.first == x.second }

  /** The sections before those of the tangle can be passed alone. */
  predicate Clear(programs: seq<seq<Section>>, pick: map<nat, nat>) {
    forall i | i in pick && i < |programs| && pick[i] < |programs[i]| ::
      forall k | 0 <= k < pick[i] :: !Self(programs[i][k])
  }

  /** A section that takes one mutex twice is a tangle of its own. */
  lemma SelfTangle(programs: seq<seq<Section>>, i: nat, k: nat)
    requires i < |programs| && k < |programs[i]| && Self(programs[i][k])
    ensures Tangle(programs, map[i := k])
  {
    var pick := map[i := k];
    assert i in pick && Picked(programs, pick, i).second == Picked(programs, pick, i).first;
    assert Tied(programs, pick, i);
  }

  lemma ClearTangle(programs: seq<seq<Section>>, pick: map<nat, nat>) returns (pick': map<nat, nat>)
    requires Tangle(programs, pick)
    ensures Tangle(programs, pick') && Clear(programs, pick')
  {
    if i: nat, k: nat :| i < |programs| && k < |programs[i]| && Self(programs[i][k]) {
      var e := FirstSelf(programs[i], k);
      SelfTangle(programs, i, e);
      pick' := map[i := e];
    } else {
      pick' := pick;
    }
  }

  lemma {:induction false} FirstSelf(xs: seq<Section>, k: nat) returns (e: nat)
    requires k < |xs| && Self(xs[k])
    ensures e < |xs| && Self(xs[e]) && forall i | 0 <= i < e :: !Self(xs[i])
  {
    if i: nat :| i < k && Self(xs[i]) { e := FirstSelf(xs, i); } else { e := k; }
  }

  /** All callers are between sections. */
  predicate Calm(cs: seq<Caller>) { forall i | 0 <= i < |cs| :: cs[i].at == 0 }

  lemma Passes(cs: seq<Caller>, i: nat)
    requires Calm(cs) && i < |cs| && cs[i].todo != [] && !Self(cs[i].todo[0])
    ensures Leads(cs, cs[i := Caller(cs[i].todo[1..], 0)])
  {
    var x, cs1 := cs[i].todo[0], cs[i := cs[i].(at := 1)];
    LeadsSelf(cs);
    LeadsStep(cs, cs, i);
    assert Step(cs, i) == cs1;
    LeadsStep(cs, cs1, i);
    if x.Two? {
      var cs2, cs3 := cs[i := cs[i].(at := 2)], cs[i := cs[i].(at := 3)];
      assert Step(cs1, i) == cs2;
      LeadsStep(cs, cs2, i);
      assert Step(cs2, i) == cs3;
      LeadsStep(cs, cs3, i);
      assert Step(cs3, i) == cs[i := Caller(cs[i].todo[1..], 0)];
    } else {
      assert Step(cs1, i) == cs[i := Caller(cs[i].todo[1..], 0)];
    }
  }

  lemma {:induction false} PassesAll(cs: seq<Caller>, i: nat, k: nat)
    requires Calm(cs) && i < |cs| && k <= |cs[i].todo| && forall e | 0 <= e < k :: !Self(cs[i].todo[e])
    ensures Leads(cs, cs[i := Caller(cs[i].todo[k..], 0)])
  {
    if k == 0 {
      assert cs[i := Caller(cs[i].todo[0..], 0)] == cs;
      LeadsSelf(cs);
    } else {
      PassesAll(cs, i, k - 1);
      var mid := cs[i := Caller(cs[i].todo[k - 1..], 0)];
      Passes(mid, i);
      assert mid[i].todo[1..] == cs[i].todo[k..];
      assert mid[i := Caller(mid[i].todo[1..], 0)] == cs[i := Caller(cs[i].todo[k..], 0)];
      LeadsOn(cs, mid, cs[i := Caller(cs[i].todo[k..], 0)]);
    }
  }

  /** The callers below `n` are at their sections of the tangle; those below `m` have taken its first mutex. */
  function Parked(programs: seq<seq<Section>>, pick: map<nat, nat>, n: nat, m: nat): seq<Caller>
    requires Picks(programs, pick)
  {
    seq(|programs|, i requires 0 <= i < |programs| =>
      if i < n && i in pick then Caller(programs[i][pick[i]..], if i < m then 1 else 0) else Caller(programs[i], 0))
  }

  lemma {:induction false} Advances(programs: seq<seq<Section>>, pick: map<nat, nat>, n: nat)
    requires Picks(programs, pick) && Clear(programs, pick) && n <= |programs|
    ensures Leads(Start(programs), Parked(programs, pick, n, 0))
  {
    if n == 0 {
      assert Parked(programs, pick, 0, 0) == Start(programs);
      LeadsSelf(Start(programs));
    } else {
      var i, mid, end := n - 1, Parked(programs, pick, n - 1, 0), Parked(programs, pick, n, 0);
      Advances(programs, pick, i);
      if i in pick {
        PassesAll(mid, i, pick[i]);
        assert end == mid[i := Caller(mid[i].todo[pick[i]..], 0)];
        LeadsOn(Start(programs), mid, end);
      } else {
        assert end == mid;
      }
    }
  }

  /** The next caller can take its first mutex. */
  lemma ParksOne(programs: seq<seq<Section>>, pick: map<nat, nat>, i: nat)
    requires Tangle(programs, pick) && i in pick
    ensures var mid := Parked(programs, pick, |programs|, i);
      CanStep(mid, i) && Step(mid, i) == Parked(programs, pick, |programs|, i + 1)
  {
    var mid := Parked(programs, pick, |programs|, i);
    var x := Picked(programs, pick, i);
    assert mid[i].todo[0] == x && Wanted(mid[i]) == {x.first};
    forall j | 0 <= j < |mid|
      ensures x.first !in Held(mid[j])
    {
      if j < i && j in pick { assert mid[j].todo[0] == Picked(programs, pick, j); }
    }
    assert Step(mid, i) == Parked(programs, pick, |programs|, i + 1);
  }

  lemma ParksMore(programs: seq<seq<Section>>, pick: map<nat, nat>, i: nat)
    requires Tangle(programs, pick) && i < |programs| && Leads(Start(programs), Parked(programs, pick, |programs|, i))
    ensures Leads(Start(programs), Parked(programs, pick, |programs|, i + 1))
  {
    if i in pick {
      ParksOne(programs, pick, i);
      LeadsStep(Start(programs), Parked(programs, pick, |programs|, i), i);
    } else {
      StaysOut(programs, pick, i);
    }
  }

  lemma StaysOut(programs: seq<seq<Section>>, pick: map<nat, nat>, i: nat)
    requires Picks(programs, pick) && i !in pick
    ensures Parked(programs, pick, |programs|, i + 1) == Parked(programs, pick, |programs|, i)
  {
  }

  lemma {:induction false} Parks(programs: seq<seq<Section>>, pick: map<nat, nat>, m: nat)
    requires Tangle(programs, pick) && Clear(programs, pick) && m <= |programs|
    ensures Leads(Start(programs), Parked(programs, pick, |programs|, m))
  {
    if m == 0 {
      Advances(programs, pick, |programs|);
    } else {
      Parks(programs, pick, m - 1);
      ParksMore(programs, pick, m - 1);
    }
  }

  lemma ParkedBlocks(programs: seq<seq<Section>>, pick: map<nat, nat>)
    requires Tangle(programs, pick)
    ensures Deadlocked(Parked(programs, pick, |programs|, |programs|), pick.Keys)
  {
    var cs := Parked(programs, pick, |programs|, |programs|);
    forall i | i in pick
      ensures cs[i].todo != [] && cs[i].todo[0] == Picked(programs, pick, i) && cs[i].at == 1
    {
    }
    forall i | i in pick.Keys
      ensures BlockedBy(cs, pick.Keys, i)
    {
      assert Tied(programs, pick, i);
      var j :| j in pick && Picked(programs, pick, i).second == Picked(programs, pick, j).first;
      assert j in pick.Keys && Held(cs[j]) == {Picked(programs, pick, j).first};
    }
  }

  /** Some order of the steps deadlocks if and only if the programs have a tangle. */
  lemma CanBlockIff(programs: seq<seq<Section>>)
    ensures CanBlock(programs) <==> exists pick: map<nat, nat> :: Tangle(programs, pick)
  {
    if CanBlock(programs) {
      var cs, who :| Leads(Start(programs), cs) && Deadlocked(cs, who);
      LeadsSane(programs, cs);
      var pick := DeadlockTangles(programs, cs, who);
    }
    if pick: map<nat, nat> :| Tangle(programs, pick) {
      var clear := ClearTangle(programs, pick);
      Parks(programs, clear, |programs|);
      ParkedBlocks(programs, clear);
    }
  }

  // -------- an order of the mutexes --------

  /** Second mutexes come after first ones. */
  predicate Ascending(programs: seq<seq<Section>>, rank: nat -> int) {
    forall i, k | 0 <= i < |programs| && 0 <= k < |programs[i]| ::
      programs[i][k].Two? ==> rank(programs[i][k].first) < rank(programs[i][k].second)
  }

  lemma {:induction false} Highest(xs: set<nat>, key: nat -> int) returns (top: nat)
    requires xs != {}
    ensures top in xs && forall x | x in xs :: key(x) <= key(top)
  {
    top :| top in xs;
    var rest := xs - {top};
    if rest != {} {
      var other := Highest(rest, key);
      if key(other) > key(top) {
        top := other;
      }
    }
  }

  /** Callers that respect one order never block each other. */
  lemma AscendingNeverBlocks(programs: seq<seq<Section>>, rank: nat -> int)
    requires Ascending(programs, rank)
    ensures !CanBlock(programs)
  {
    CanBlockIff(programs);
    forall pick: map<nat, nat> | pick.Keys != {} && Picks(programs, pick)
      ensures !Tangle(programs, pick)
    {
      LastUntied(programs, rank, pick);
    }
  }

  lemma LastUntied(programs: seq<seq<Section>>, rank: nat -> int, pick: map<nat, nat>)
    requires Ascending(programs, rank) && pick.Keys != {} && Picks(programs, pick)
    ensures exists i :: i in pick && !Tied(programs, pick, i)
  {
    var key := (i: nat) => if i in pick && Picks(programs, pick) then rank(Picked(programs, pick, i).first) else 0;
    var top := Highest(pick.Keys, key);
    forall j | j in pick
      ensures Picked(programs, pick, top).second != Picked(programs, pick, j).first
    {
      assert key(j) <= key(top);
    }
    assert top in pick && !Tied(programs, pick, top);
  }

  // -------- two sections --------

  predicate Opposite(x: Section, y: Section) { x.Two? && y.Two? && x.first == y.second && x.second == y.first }

  /** Two programs can block if and only if one takes a mutex twice or they take two mutexes in opposite order. */
  lemma PairIff(xs: seq<Section>, ys: seq<Section>)
    ensures CanBlock([xs, ys]) <==>
      || (exists x :: x in xs + ys && Self(x))
      || exists x, y :: x in xs && y in ys && Opposite(x, y)
  {
    var programs: seq<seq<Section>> := [xs, ys];
    CanBlockIff(programs);
    if pick: map<nat, nat> :| Tangle(programs, pick) { PairTangle(xs, ys, pick); }
    if k: nat :| k < |xs| && Self(xs[k]) { SelfTangle(programs, 0, k); }
    if k: nat :| k < |ys| && Self(ys[k]) { SelfTangle(programs, 1, k); }
    if x, y :| x in xs && y in ys && Opposite(x, y) {
      var k: nat :| k < |xs| && xs[k] == x;
      var e: nat :| e < |ys| && ys[e] == y;
      if Self(x) { SelfTangle(programs, 0, k); } else { OppositeTangle(xs, ys, k, e); }
    }
  }

  lemma OppositeTangle(xs: seq<Section>, ys: seq<Section>, k: nat, e: nat)
    requires k < |xs| && e < |ys| && Opposite(xs[k], ys[e]) && !Self(xs[k])
    ensures Tangle([xs, ys], map[0 := k, 1 := e])
  {
    var programs, pick := [xs, ys], map[0 := k, 1 := e];
    assert Picked(programs, pick, 0) == xs[k] && Picked(programs, pick, 1) == ys[e];
    assert Tied(programs, pick, 0) && Tied(programs, pick, 1);
  }

  lemma PairTangle(xs: seq<Section>, ys: seq<Section>, pick: map<nat, nat>)
    requires Tangle([xs, ys], pick)
    ensures (exists x :: x in xs + ys && Self(x)) || exists x, y :: x in xs && y in ys && Opposite(x, y)
  {
    var programs := [xs, ys];
    var i :| i in pick.Keys;
    assert Tied(programs, pick, i);
    var j :| j in pick && Picked(programs, pick, i).second == Picked(programs, pick, j).first;
    assert Tied(programs, pick, j);
    var h :| h in pick && Picked(programs, pick, j).second == Picked(programs, pick, h).first;
    var x, y := Picked(programs, pick, i), Picked(programs, pick, j);
    assert x in xs + ys && y in xs + ys;
    if i != j && h != j { assert h == i && Opposite(x, y) && Opposite(y, x); }
  }

  // -------- inside at the same time --------

  /** How many steps of a section take a mutex. */
  function Middle(x: Section): nat { if x.One? then 1 else 2 }

  /** The caller has all mutexes of its section. */
  predicate Inside(c: Caller) { c.todo != [] && c.at == Middle(c.todo[0]) }

  function Names(x: Section): set<nat> { if x.One? then {x.first} else {x.first, x.second} }

  lemma Enters(cs: seq<Caller>, i: nat)
    requires i < |cs| && cs[i].todo != [] && cs[i].at == 0 && !Self(cs[i].todo[0])
    requires forall m | m in Names(cs[i].todo[0]) :: Free(cs, m)
    ensures Leads(cs, cs[i := cs[i].(at := Middle(cs[i].todo[0]))])
  {
    var cs1 := cs[i := cs[i].(at := 1)];
    LeadsSelf(cs);
    LeadsStep(cs, cs, i);
    assert Step(cs, i) == cs1;
    if cs[i].todo[0].Two? {
      assert Free(cs1, cs[i].todo[0].second) by {
        assert cs[i].todo[0].second in Names(cs[i].todo[0]);
        assert forall j | 0 <= j < |cs| && j != i :: Held(cs1[j]) == Held(cs[j]);
      }
      LeadsStep(cs, cs1, i);
      assert Step(cs1, i) == cs[i := cs[i].(at := 2)];
    }
  }

  /** All callers can be inside their sections at the same time. */
  ghost predicate CanMeet(programs: seq<seq<Section>>) {
    exists cs: seq<Caller> :: Leads(Start(programs), cs) && forall i | 0 <= i < |cs| :: Inside(cs[i])
  }

  /** Two sections can be entered at the same time if and only if they share no mutex. */
  lemma TogetherIff(x: Section, y: Section)
    requires !Self(x) && !Self(y)
    ensures CanMeet([[x], [y]]) <==> Names(x) !! Names(y)
  {
    if CanMeet([[x], [y]]) { MeetOnly([[x], [y]], x, y); }
    if Names(x) !! Names(y) {
      BothEnter(x, y);
      MeetBy([[x], [y]], [Caller([x], Middle(x)), Caller([y], Middle(y))]);
    }
  }

  lemma MeetBy(programs: seq<seq<Section>>, cs: seq<Caller>)
    requires Leads(Start(programs), cs) && forall i | 0 <= i < |cs| :: Inside(cs[i])
    ensures CanMeet(programs)
  {
  }

  lemma MeetOnly(programs: seq<seq<Section>>, x: Section, y: Section)
    requires |programs| == 2 && programs[0] == [x] && programs[1] == [y] && CanMeet(programs)
    ensures Names(x) !! Names(y)
  {
    var cs: seq<Caller> :| Leads(Start(programs), cs) && forall i | 0 <= i < |cs| :: Inside(cs[i]);
    InsideOnly(programs, cs, 0, x);
    InsideOnly(programs, cs, 1, y);
    HeldApart(programs, cs);
  }

  /** A caller with a program of one section that is inside has its mutexes. */
  lemma InsideOnly(programs: seq<seq<Section>>, cs: seq<Caller>, i: nat, x: Section)
    requires Leads(Start(programs), cs) && i < |programs| && programs[i] == [x]
    ensures |cs| == |programs| && (Inside(cs[i]) ==> Held(cs[i]) == Names(x))
  {
    InProgram(programs, cs, i);
  }

  lemma InProgram(programs: seq<seq<Section>>, cs: seq<Caller>, i: nat)
    requires Leads(Start(programs), cs) && i < |programs|
    ensures |cs| == |programs| && (cs[i].todo != [] ==> cs[i].todo[0] in programs[i])
  {
    LeadsSane(programs, cs);
    if cs[i].todo != [] { TailHead(programs[i], cs[i].todo); }
  }

  lemma TailHead(xs: seq<Section>, t: seq<Section>)
    requires 0 < |t| <= |xs| && t == xs[|xs| - |t|..]
    ensures t[0] in xs
  {
    assert t[0] == xs[|xs| - |t|];
  }

  lemma HeldApart(programs: seq<seq<Section>>, cs: seq<Caller>)
    requires Leads(Start(programs), cs) && |programs| == 2
    ensures |cs| == 2 && Held(cs[0]) !! Held(cs[1])
  {
    LeadsSane(programs, cs);
  }

  lemma BothEnter(x: Section, y: Section)
    requires !Self(x) && !Self(y) && Names(x) !! Names(y)
    ensures Leads(Start([[x], [y]]), [Caller([x], Middle(x)), Caller([y], Middle(y))])
  {
    var start := [Caller([x], 0), Caller([y], 0)];
    var mid, end := start[0 := Caller([x], Middle(x))], [Caller([x], Middle(x)), Caller([y], Middle(y))];
    assert Start([[x], [y]]) == start;
    Enters(start, 0);
    assert Held(mid[0]) == Names(x) && Held(mid[1]) == {};
    Enters(mid, 1);
    assert mid[1 := Caller([y], Middle(y))] == end;
    LeadsOn(start, mid, end);
  }

  /** One program can block if and only if it takes a mutex twice. */
  lemma AloneIff(xs: seq<Section>)
    ensures CanBlock([xs]) <==> exists x :: x in xs && Self(x)
  {
    CanBlockIff([xs]);
    if pick: map<nat, nat> :| Tangle([xs], pick) {
      var i :| i in pick.Keys;
      assert Tied([xs], pick, i);
      assert Picked([xs], pick, i) in xs && Self(Picked([xs], pick, i));
    }
    if k: nat :| k < |xs| && Self(xs[k]) { SelfTangle([xs], 0, k); }
  }
}
