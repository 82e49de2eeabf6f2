/** The C records, and what they mean.

    A pointer to a thread or group is the slot it lives in.  Member lists are linked through the
    records' `siblings` fields; `ms` and `cs` name the members and child groups of each group slot. */
module Records {
  import opened Topology
  import opened Allocator
  import opened Balance
  import opened Library
  import opened Siblings

  datatype ThreadRec = ThreadRec(cpus: set<nat>, target: nat, siblings: Option<nat>, group: Option<nat>)

  datatype GroupRec = GroupRec(
    attribute: bv64, s: nat, total: set<nat>, used: set<nat>, roll: int,
    father: Option<nat>, siblings: Option<nat>,
    threads: Option<nat>, nrThreads: nat, groups: Option<nat>, nrGroups: nat)

  type Threads = seq<Option<ThreadRec>>
  type Groups = seq<Option<GroupRec>>
  type Lists = seq<seq<nat>>

  // -------- the links --------

  function NextT(ts: Threads): (r: seq<Option<nat>>)
    ensures |r| == |ts|
  {
    seq(|ts|, u requires 0 <= u < |ts| => if ts[u].Some? then ts[u].value.siblings else None)
  }

  function NextG(gs: Groups): (r: seq<Option<nat>>)
    ensures |r| == |gs|
  {
    seq(|gs|, g requires 0 <= g < |gs| => if gs[g].Some? then gs[g].value.siblings else None)
  }

  function HeadsT(gs: Groups): (r: seq<Option<nat>>)
    ensures |r| == |gs|
  {
    seq(|gs|, g requires 0 <= g < |gs| => if gs[g].Some? then gs[g].value.threads else None)
  }

  function HeadsG(gs: Groups): (r: seq<Option<nat>>)
    ensures |r| == |gs|
  {
    seq(|gs|, g requires 0 <= g < |gs| => if gs[g].Some? then gs[g].value.groups else None)
  }

  /** The counters are the lengths of the lists; a free slot has none. */
  ghost predicate Counted(gs: Groups, ms: Lists, cs: Lists)
    requires |ms| == |gs| && |cs| == |gs|
  {
    forall g: nat | g < |gs| ::
      if gs[g].Some? then gs[g].value.nrThreads == |ms[g]| && gs[g].value.nrGroups == |cs[g]|
      else ms[g] == [] && cs[g] == []
  }

  /** A thread in no group has no sibling and is in no list. */
  ghost predicate LoneThreads(ts: Threads, ms: Lists) {
    forall u: nat | u < |ts| && ts[u].Some? && ts[u].value.group == None :: Alone(NextT(ts), ms, u)
  }

  /** A group without father has no sibling and is in no list. */
  ghost predicate LoneGroups(gs: Groups, cs: Lists) {
    forall g: nat | g < |gs| && gs[g].Some? && gs[g].value.father == None :: Alone(NextG(gs), cs, g)
  }

  /** The sibling lists hold exactly `ms` and `cs`, and are acyclic and disjoint. */
  ghost predicate ListsOk(ts: Threads, gs: Groups, ms: Lists, cs: Lists) {
    && |ms| == |gs| && |cs| == |gs|
    && Chains(NextT(ts), HeadsT(gs), ms) && Separate(ms)
    && Chains(NextG(gs), HeadsG(gs), cs) && Separate(cs)
    && Counted(gs, ms, cs) && LoneThreads(ts, ms) && LoneGroups(gs, cs)
  }

  // -------- the abstract state --------

  function ForestOf(ts: Threads, gs: Groups, ms: Lists, cs: Lists): (f: Forest)
    requires |ms| == |gs| && |cs| == |gs|
    ensures |f.groups| == |gs| && |f.threads| == |ts|
  {
    Forest(
      seq(|gs|, g requires 0 <= g < |gs| && |ms| == |gs| && |cs| == |gs| =>
        if gs[g].None? then None
        else Some(Node(gs[g].value.attribute, gs[g].value.s, gs[g].value.father, ms[g], cs[g]))),
      seq(|ts|, u requires 0 <= u < |ts| => if ts[u].None? then Vacant else Live(ts[u].value.group)))
  }

  function ClaimsIn(r: GroupRec): Claims { Claims(r.total, r.used, r.roll) }

  function PlacesOf(loads: seq<int>, ts: Threads, gs: Groups): (p: Places)
    ensures |p.claims| == |gs| && |p.seats| == |ts|
  {
    Places(
      loads,
      seq(|gs|, g requires 0 <= g < |gs| => if gs[g].None? then NOTHING else ClaimsIn(gs[g].value)),
      seq(|ts|, u requires 0 <= u < |ts| => if ts[u].None? then NOBODY else Seat(ts[u].value.target, ts[u].value.cpus)))
  }

  // -------- linking and unlinking, on the records --------

  function SetT(ts: Threads, u: nat, r: ThreadRec): (ts': Threads)
    requires u < |ts|
    ensures |ts'| == |ts|
  {
    ts[u := Some(r)]
  }

  function SetG(gs: Groups, g: nat, r: GroupRec): (gs': Groups)
    requires g < |gs|
    ensures |gs'| == |gs|
  {
    gs[g := Some(r)]
  }

  predicate IsT(ts: Threads, u: nat) { u < |ts| && ts[u].Some? }
  predicate IsG(gs: Groups, g: nat) { g < |gs| && gs[g].Some? }

  ghost predicate AllT(ts: Threads, xs: seq<nat>) {
    forall k | 0 <= k < |xs| :: xs[k] < |ts| && ts[xs[k]].Some?
  }

  ghost predicate AllG(gs: Groups, xs: seq<nat>, h: nat) {
    forall k | 0 <= k < |xs| :: xs[k] < |gs| && gs[xs[k]].Some? && xs[k] != h
  }

  /** `wayca_group_add_thread`'s list work: behind the tail `xs[|xs| - 1]`, or as first member. */
  function LinkThreadT(ts: Threads, xs: seq<nat>, g: nat, u: nat): (ts': Threads)
    requires IsT(ts, u) && (xs != [] ==> IsT(ts, xs[|xs| - 1]))
    ensures |ts'| == |ts|
  {
    var ts1 := if xs == [] then ts else SetT(ts, xs[|xs| - 1], ts[xs[|xs| - 1]].value.(siblings := Some(u)));
    SetT(ts1, u, ts1[u].value.(group := Some(g)))
  }

  function LinkThreadG(gs: Groups, xs: seq<nat>, g: nat, u: nat): (gs': Groups)
    requires IsG(gs, g)
    ensures |gs'| == |gs|
  {
    var r := gs[g].value;
    SetG(gs, g, r.(nrThreads := r.nrThreads + 1, threads := if xs == [] then Some(u) else r.threads))
  }

  lemma LinkThreadNext(ts: Threads, gs: Groups, xs: seq<nat>, g: nat, u: nat)
    requires IsG(gs, g) && IsT(ts, u) && (xs != [] ==> IsT(ts, xs[|xs| - 1]))
    ensures NextT(LinkThreadT(ts, xs, g, u)) == if xs == [] then NextT(ts) else NextT(ts)[xs[|xs| - 1] := Some(u)]
    ensures HeadsT(LinkThreadG(gs, xs, g, u)) == if xs == [] then HeadsT(gs)[g := Some(u)] else HeadsT(gs)
    ensures NextG(LinkThreadG(gs, xs, g, u)) == NextG(gs) && HeadsG(LinkThreadG(gs, xs, g, u)) == HeadsG(gs)
  {
  }

  lemma LinkThreadForest(ts: Threads, gs: Groups, ms: Lists, cs: Lists, g: nat, u: nat)
    requires |ms| == |gs| && |cs| == |gs| && IsG(gs, g) && IsT(ts, u) && (ms[g] != [] ==> IsT(ts, ms[g][|ms[g]| - 1]))
    ensures ForestOf(LinkThreadT(ts, ms[g], g, u), LinkThreadG(gs, ms[g], g, u), ms[g := ms[g] + [u]], cs)
         == AddThread(ForestOf(ts, gs, ms, cs), u, g)
  {
    var f := AddThread(ForestOf(ts, gs, ms, cs), u, g);
    var f' := ForestOf(LinkThreadT(ts, ms[g], g, u), LinkThreadG(gs, ms[g], g, u), ms[g := ms[g] + [u]], cs);
    assert f'.groups == f.groups;
    assert f'.threads == f.threads;
  }

  lemma LinkThreadLone(ts: Threads, gs: Groups, ms: Lists, cs: Lists, g: nat, u: nat)
    requires |ms| == |gs| && |cs| == |gs| && IsG(gs, g) && IsT(ts, u) && Counted(gs, ms, cs) && LoneThreads(ts, ms)
    requires LoneGroups(gs, cs)
    requires ms[g] != [] ==> IsT(ts, ms[g][|ms[g]| - 1]) && ms[g][|ms[g]| - 1] in ms[g]
    ensures Counted(LinkThreadG(gs, ms[g], g, u), ms[g := ms[g] + [u]], cs)
    ensures LoneThreads(LinkThreadT(ts, ms[g], g, u), ms[g := ms[g] + [u]])
    ensures LoneGroups(LinkThreadG(gs, ms[g], g, u), cs)
  {
    var xs, ts' := ms[g], LinkThreadT(ts, ms[g], g, u);
    LinkThreadNext(ts, gs, xs, g, u);
    forall v: nat | v < |ts'| && ts'[v].Some? && ts'[v].value.group == None
      ensures Alone(NextT(ts'), ms[g := xs + [u]], v)
    {
      assert Alone(NextT(ts), ms, v);
    }
  }

  /** Linking a thread behind a group's members keeps all lists sound. */
  lemma LinkThreadOk(ts: Threads, gs: Groups, ms: Lists, cs: Lists, g: nat, u: nat)
    requires ListsOk(ts, gs, ms, cs) && IsG(gs, g) && IsT(ts, u) && ts[u].value.group == None
    requires ms[g] != [] ==> IsT(ts, ms[g][|ms[g]| - 1])
    ensures ListsOk(LinkThreadT(ts, ms[g], g, u), LinkThreadG(gs, ms[g], g, u), ms[g := ms[g] + [u]], cs)
  {
    assert Alone(NextT(ts), ms, u);
    AppendToFamily(NextT(ts), HeadsT(gs), ms, g, u);
    LinkThreadNext(ts, gs, ms[g], g, u);
    LinkThreadLone(ts, gs, ms, cs, g, u);
  }

  /** `wayca_group_delete_thread`'s list work for the member at position `i`. */
  function UnlinkThreadT(ts: Threads, xs: seq<nat>, i: nat): (ts': Threads)
    requires i < |xs| && IsT(ts, xs[i]) && (i > 0 ==> IsT(ts, xs[i - 1]))
    ensures |ts'| == |ts|
  {
    var ts1 := if i == 0 then ts else SetT(ts, xs[i - 1], ts[xs[i - 1]].value.(siblings := ts[xs[i]].value.siblings));
    SetT(ts1, xs[i], ts1[xs[i]].value.(siblings := None, group := None))
  }

  function UnlinkThreadG(gs: Groups, next: Option<nat>, i: nat, g: nat): (gs': Groups)
    requires IsG(gs, g) && gs[g].value.nrThreads > 0
    ensures |gs'| == |gs|
  {
    var r := gs[g].value;
    SetG(gs, g, r.(nrThreads := r.nrThreads - 1, threads := if i == 0 then next else r.threads))
  }

  lemma UnlinkThreadNext(ts: Threads, gs: Groups, xs: seq<nat>, i: nat, g: nat)
    requires Distinct(xs) && i < |xs| && AllT(ts, xs) && IsG(gs, g) && gs[g].value.nrThreads > 0
    ensures NextT(UnlinkThreadT(ts, xs, i)) == Unlink(NextT(ts), xs, i)
    ensures var gs' := UnlinkThreadG(gs, ts[xs[i]].value.siblings, i, g);
      && HeadsT(gs') == (if i == 0 then HeadsT(gs)[g := NextT(ts)[xs[0]]] else HeadsT(gs))
      && NextG(gs') == NextG(gs) && HeadsG(gs') == HeadsG(gs)
  {
  }

  lemma UnlinkThreadForest(ts: Threads, gs: Groups, ms: Lists, cs: Lists, g: nat, i: nat)
    requires |ms| == |gs| && |cs| == |gs| && IsG(gs, g) && gs[g].value.nrThreads > 0 && Distinct(ms[g])
    requires i < |ms[g]| && AllT(ts, ms[g])
    ensures var xs := ms[g];
      ForestOf(UnlinkThreadT(ts, xs, i), UnlinkThreadG(gs, ts[xs[i]].value.siblings, i, g), ms[g := Without(xs, i)], cs)
      == DropThread(ForestOf(ts, gs, ms, cs), xs[i], g)
  {
    var xs := ms[g];
    RemoveAt(xs, i);
    var f := DropThread(ForestOf(ts, gs, ms, cs), xs[i], g);
    var gs' := UnlinkThreadG(gs, ts[xs[i]].value.siblings, i, g);
    var f' := ForestOf(UnlinkThreadT(ts, xs, i), gs', ms[g := Without(xs, i)], cs);
    assert f'.groups == f.groups;
    assert f'.threads == f.threads;
  }

  lemma UnlinkThreadFields(ts: Threads, xs: seq<nat>, i: nat, v: nat)
    requires i < |xs| && AllT(ts, xs) && v < |ts| && v != xs[i]
    ensures var ts' := UnlinkThreadT(ts, xs, i);
      && ts'[v].Some? == ts[v].Some?
      && (ts[v].Some? ==> ts'[v].value.group == ts[v].value.group)
  {
  }

  lemma UnlinkThreadLone(ts: Threads, gs: Groups, ms: Lists, cs: Lists, g: nat, i: nat)
    requires |ms| == |gs| && |cs| == |gs| && IsG(gs, g) && i < |ms[g]| && AllT(ts, ms[g]) && Distinct(ms[g])
    requires Counted(gs, ms, cs) && LoneThreads(ts, ms) && LoneGroups(gs, cs)
    requires Alone(Unlink(NextT(ts), ms[g], i), ms[g := Without(ms[g], i)], ms[g][i])
    ensures var gs' := UnlinkThreadG(gs, ts[ms[g][i]].value.siblings, i, g);
      && Counted(gs', ms[g := Without(ms[g], i)], cs) && LoneGroups(gs', cs)
      && LoneThreads(UnlinkThreadT(ts, ms[g], i), ms[g := Without(ms[g], i)])
  {
    var xs, ts' := ms[g], UnlinkThreadT(ts, ms[g], i);
    UnlinkThreadNext(ts, gs, xs, i, g);
    forall v: nat | v < |ts'| && ts'[v].Some? && ts'[v].value.group == None
      ensures Alone(NextT(ts'), ms[g := Without(xs, i)], v)
    {
      if v != xs[i] {
        UnlinkThreadFields(ts, xs, i, v);
        UnlinkAlone(NextT(ts), ms, g, i, v);
      }
    }
  }

  /** Unlinking a member keeps all lists sound. */
  lemma UnlinkThreadOk(ts: Threads, gs: Groups, ms: Lists, cs: Lists, g: nat, i: nat)
    requires ListsOk(ts, gs, ms, cs) && IsG(gs, g) && i < |ms[g]|
    requires AllT(ts, ms[g])
    ensures ListsOk(UnlinkThreadT(ts, ms[g], i), UnlinkThreadG(gs, ts[ms[g][i]].value.siblings, i, g),
      ms[g := Without(ms[g], i)], cs)
  {
    RemoveFromFamily(NextT(ts), HeadsT(gs), ms, g, i);
    UnlinkThreadNext(ts, gs, ms[g], i, g);
    UnlinkThreadLone(ts, gs, ms, cs, g, i);
  }

  lemma UnlinkAlone(next: seq<Option<nat>>, ms: Lists, g: nat, i: nat, v: nat)
    requires g < |ms| && i < |ms[g]| && (forall k | 0 <= k < |ms[g]| :: ms[g][k] < |next|) && Alone(next, ms, v)
    ensures Alone(Unlink(next, ms[g], i), ms[g := Without(ms[g], i)], v)
  {
    assert ms[g][i] in ms[g] && (i > 0 ==> ms[g][i - 1] in ms[g]);
    assert forall y | y in Without(ms[g], i) :: y in ms[g];
  }

  // -------- the same for child groups --------

  /** `wayca_group_add_group`'s list work. */
  function LinkGroup(gs: Groups, xs: seq<nat>, g: nat, h: nat): (gs': Groups)
    requires IsG(gs, g) && IsG(gs, h) && (xs != [] ==> IsG(gs, xs[|xs| - 1]))
    ensures |gs'| == |gs|
  {
    var gs1 := if xs == [] then gs else SetG(gs, xs[|xs| - 1], gs[xs[|xs| - 1]].value.(siblings := Some(g)));
    var r := gs1[h].value;
    var gs2 := SetG(gs1, h, r.(nrGroups := r.nrGroups + 1, groups := if xs == [] then Some(g) else r.groups));
    SetG(gs2, g, gs2[g].value.(father := Some(h)))
  }

  lemma LinkGroupNext(gs: Groups, xs: seq<nat>, g: nat, h: nat)
    requires IsG(gs, g) && IsG(gs, h) && g != h
    requires xs != [] ==> IsG(gs, xs[|xs| - 1]) && xs[|xs| - 1] != h && xs[|xs| - 1] != g
    ensures NextG(LinkGroup(gs, xs, g, h)) == if xs == [] then NextG(gs) else NextG(gs)[xs[|xs| - 1] := Some(g)]
    ensures HeadsG(LinkGroup(gs, xs, g, h)) == if xs == [] then HeadsG(gs)[h := Some(g)] else HeadsG(gs)
    ensures HeadsT(LinkGroup(gs, xs, g, h)) == HeadsT(gs)
  {
  }

  lemma LinkGroupForest(ts: Threads, gs: Groups, ms: Lists, cs: Lists, g: nat, h: nat)
    requires |ms| == |gs| && |cs| == |gs| && IsG(gs, g) && IsG(gs, h) && g != h
    requires cs[h] != [] ==> IsG(gs, cs[h][|cs[h]| - 1])
    ensures ForestOf(ts, LinkGroup(gs, cs[h], g, h), ms, cs[h := cs[h] + [g]]) ==
      AddGroup(ForestOf(ts, gs, ms, cs), g, h)
  {
    var f := AddGroup(ForestOf(ts, gs, ms, cs), g, h);
    var f' := ForestOf(ts, LinkGroup(gs, cs[h], g, h), ms, cs[h := cs[h] + [g]]);
    assert f'.groups == f.groups;
    assert f'.threads == f.threads;
  }

  lemma LinkGroupLone(gs: Groups, ms: Lists, cs: Lists, g: nat, h: nat)
    requires |ms| == |gs| && |cs| == |gs| && IsG(gs, g) && IsG(gs, h) && g != h && Counted(gs, ms, cs)
    requires LoneGroups(gs, cs)
    requires cs[h] != [] ==>
      IsG(gs, cs[h][|cs[h]| - 1]) && cs[h][|cs[h]| - 1] != h && cs[h][|cs[h]| - 1] != g && cs[h][|cs[h]| - 1] in cs[h]
    ensures Counted(LinkGroup(gs, cs[h], g, h), ms, cs[h := cs[h] + [g]])
    ensures LoneGroups(LinkGroup(gs, cs[h], g, h), cs[h := cs[h] + [g]])
  {
    var xs, gs' := cs[h], LinkGroup(gs, cs[h], g, h);
    LinkGroupNext(gs, xs, g, h);
    forall v: nat | v < |gs'| && gs'[v].Some? && gs'[v].value.father == None
      ensures Alone(NextG(gs'), cs[h := xs + [g]], v)
    {
      assert Alone(NextG(gs), cs, v);
    }
  }

  lemma LinkGroupOk(ts: Threads, gs: Groups, ms: Lists, cs: Lists, g: nat, h: nat)
    requires ListsOk(ts, gs, ms, cs) && IsG(gs, g) && IsG(gs, h) && g != h && gs[g].value.father == None
    requires cs[h] != [] ==> IsG(gs, cs[h][|cs[h]| - 1]) && cs[h][|cs[h]| - 1] != h
    ensures ListsOk(ts, LinkGroup(gs, cs[h], g, h), ms, cs[h := cs[h] + [g]])
  {
    assert Alone(NextG(gs), cs, g);
    assert cs[h] != [] ==> cs[h][|cs[h]| - 1] in cs[h];
    AppendToFamily(NextG(gs), HeadsG(gs), cs, h, g);
    LinkGroupNext(gs, cs[h], g, h);
    LinkGroupLone(gs, ms, cs, g, h);
  }

  /** `wayca_group_delete_group`'s list work for the child at position `i`. */
  function UnlinkGroup(gs: Groups, xs: seq<nat>, i: nat, h: nat): (gs': Groups)
    requires i < |xs| && IsG(gs, xs[i]) && (i > 0 ==> IsG(gs, xs[i - 1])) && IsG(gs, h) && gs[h].value.nrGroups > 0
    requires xs[i] != h && (i > 0 ==> xs[i - 1] != h)
    ensures |gs'| == |gs|
  {
    var next := gs[xs[i]].value.siblings;
    var gs1 := if i == 0 then gs else SetG(gs, xs[i - 1], gs[xs[i - 1]].value.(siblings := next));
    var r := gs1[h].value;
    var gs2 := SetG(gs1, h, r.(nrGroups := r.nrGroups - 1, groups := if i == 0 then next else r.groups));
    SetG(gs2, xs[i], gs2[xs[i]].value.(siblings := None, father := None))
  }

  lemma UnlinkGroupNext(gs: Groups, xs: seq<nat>, i: nat, h: nat)
    requires Distinct(xs) && i < |xs| && AllG(gs, xs, h)
    requires IsG(gs, h) && gs[h].value.nrGroups > 0
    ensures NextG(UnlinkGroup(gs, xs, i, h)) == Unlink(NextG(gs), xs, i)
    ensures HeadsG(UnlinkGroup(gs, xs, i, h)) == if i == 0 then HeadsG(gs)[h := NextG(gs)[xs[0]]] else HeadsG(gs)
    ensures HeadsT(UnlinkGroup(gs, xs, i, h)) == HeadsT(gs)
  {
  }

  lemma UnlinkGroupForest(ts: Threads, gs: Groups, ms: Lists, cs: Lists, h: nat, i: nat)
    requires |ms| == |gs| && |cs| == |gs| && IsG(gs, h) && gs[h].value.nrGroups > 0 && Distinct(cs[h])
    requires i < |cs[h]| && AllG(gs, cs[h], h)
    ensures ForestOf(ts, UnlinkGroup(gs, cs[h], i, h), ms, cs[h := Without(cs[h], i)])
         == DropGroup(ForestOf(ts, gs, ms, cs), cs[h][i], h)
  {
    RemoveAt(cs[h], i);
    var f := DropGroup(ForestOf(ts, gs, ms, cs), cs[h][i], h);
    var f' := ForestOf(ts, UnlinkGroup(gs, cs[h], i, h), ms, cs[h := Without(cs[h], i)]);
    assert f'.groups == f.groups;
    assert f'.threads == f.threads;
  }

  lemma UnlinkGroupCounts(gs: Groups, cs: Lists, h: nat, i: nat, v: nat)
    requires |cs| == |gs| && IsG(gs, h) && i < |cs[h]| && AllG(gs, cs[h], h) && gs[h].value.nrGroups == |cs[h]|
    requires IsG(gs, v)
    ensures var gs' := UnlinkGroup(gs, cs[h], i, h);
      && IsG(gs', v) && gs'[v].value.nrThreads == gs[v].value.nrThreads
      && gs'[v].value.nrGroups == (if v == h then |Without(cs[h], i)| else gs[v].value.nrGroups)
      && (gs'[v].value.father == None ==> v == cs[h][i] || gs[v].value.father == None)
  {
  }

  lemma UnlinkGroupLone(gs: Groups, ms: Lists, cs: Lists, h: nat, i: nat)
    requires |ms| == |gs| && |cs| == |gs| && IsG(gs, h) && i < |cs[h]| && AllG(gs, cs[h], h) && Distinct(cs[h])
    requires Counted(gs, ms, cs) && LoneGroups(gs, cs)
    requires Alone(Unlink(NextG(gs), cs[h], i), cs[h := Without(cs[h], i)], cs[h][i])
    ensures Counted(UnlinkGroup(gs, cs[h], i, h), ms, cs[h := Without(cs[h], i)])
    ensures LoneGroups(UnlinkGroup(gs, cs[h], i, h), cs[h := Without(cs[h], i)])
  {
    var xs, cs', gs' := cs[h], cs[h := Without(cs[h], i)], UnlinkGroup(gs, cs[h], i, h);
    UnlinkGroupNext(gs, xs, i, h);
    forall v: nat | v < |gs'|
      ensures if gs'[v].Some? then gs'[v].value.nrThreads == |ms[v]| && gs'[v].value.nrGroups == |cs'[v]|
              else ms[v] == [] && cs'[v] == []
      ensures gs'[v].Some? && gs'[v].value.father == None ==> Alone(NextG(gs'), cs', v)
    {
      if IsG(gs, v) {
        UnlinkGroupCounts(gs, cs, h, i, v);
        if v != xs[i] && gs[v].value.father == None { UnlinkAlone(NextG(gs), cs, h, i, v); }
      }
    }
  }

  lemma UnlinkGroupOk(ts: Threads, gs: Groups, ms: Lists, cs: Lists, h: nat, i: nat)
    requires ListsOk(ts, gs, ms, cs) && IsG(gs, h) && i < |cs[h]|
    requires AllG(gs, cs[h], h)
    ensures ListsOk(ts, UnlinkGroup(gs, cs[h], i, h), ms, cs[h := Without(cs[h], i)])
  {
    RemoveFromFamily(NextG(gs), HeadsG(gs), cs, h, i);
    UnlinkGroupNext(gs, cs[h], i, h);
    UnlinkGroupLone(gs, ms, cs, h, i);
  }

  // -------- list work leaves all places alone --------

  lemma LinkThreadPlaces(loads: seq<int>, ts: Threads, gs: Groups, xs: seq<nat>, g: nat, u: nat)
    requires IsG(gs, g) && IsT(ts, u) && (xs != [] ==> IsT(ts, xs[|xs| - 1]))
    ensures PlacesOf(loads, LinkThreadT(ts, xs, g, u), LinkThreadG(gs, xs, g, u)) == PlacesOf(loads, ts, gs)
  {
    var p := PlacesOf(loads, LinkThreadT(ts, xs, g, u), LinkThreadG(gs, xs, g, u));
    assert p.claims == PlacesOf(loads, ts, gs).claims;
    assert p.seats == PlacesOf(loads, ts, gs).seats;
  }

  lemma UnlinkThreadPlaces(loads: seq<int>, ts: Threads, gs: Groups, xs: seq<nat>, i: nat, next: Option<nat>, g: nat)
    requires i < |xs| && AllT(ts, xs) && IsG(gs, g) && gs[g].value.nrThreads > 0
    ensures PlacesOf(loads, UnlinkThreadT(ts, xs, i), UnlinkThreadG(gs, next, i, g)) == PlacesOf(loads, ts, gs)
  {
    var p := PlacesOf(loads, UnlinkThreadT(ts, xs, i), UnlinkThreadG(gs, next, i, g));
    assert p.claims == PlacesOf(loads, ts, gs).claims;
    assert p.seats == PlacesOf(loads, ts, gs).seats;
  }

  lemma LinkGroupPlaces(loads: seq<int>, ts: Threads, gs: Groups, xs: seq<nat>, g: nat, h: nat)
    requires IsG(gs, g) && IsG(gs, h) && (xs != [] ==> IsG(gs, xs[|xs| - 1]))
    ensures PlacesOf(loads, ts, LinkGroup(gs, xs, g, h)) == PlacesOf(loads, ts, gs)
  {
    assert PlacesOf(loads, ts, LinkGroup(gs, xs, g, h)).claims == PlacesOf(loads, ts, gs).claims;
  }

  lemma UnlinkGroupPlaces(loads: seq<int>, ts: Threads, gs: Groups, xs: seq<nat>, i: nat, h: nat)
    requires i < |xs| && AllG(gs, xs, h) && IsG(gs, h) && gs[h].value.nrGroups > 0
    ensures PlacesOf(loads, ts, UnlinkGroup(gs, xs, i, h)) == PlacesOf(loads, ts, gs)
  {
    assert PlacesOf(loads, ts, UnlinkGroup(gs, xs, i, h)).claims == PlacesOf(loads, ts, gs).claims;
  }

  // -------- changing places only --------

  /** Moving a thread and re-marking CPUs leaves the lists and the forest alone. */
  lemma ReseatOk(ts: Threads, gs: Groups, ms: Lists, cs: Lists, u: nat, seat: Seat)
    requires ListsOk(ts, gs, ms, cs) && IsT(ts, u)
    ensures var ts' := SetT(ts, u, ts[u].value.(target := seat.target, cpus := seat.cpus));
      && ListsOk(ts', gs, ms, cs) && ForestOf(ts', gs, ms, cs) == ForestOf(ts, gs, ms, cs)
      && forall loads ::
         PlacesOf(loads, ts', gs) == PlacesOf(loads, ts, gs).(seats := PlacesOf(loads, ts, gs).seats[u := seat])
  {
    var ts' := SetT(ts, u, ts[u].value.(target := seat.target, cpus := seat.cpus));
    assert NextT(ts') == NextT(ts);
    assert ForestOf(ts', gs, ms, cs).threads == ForestOf(ts, gs, ms, cs).threads;
    forall loads
      ensures PlacesOf(loads, ts', gs) == PlacesOf(loads, ts, gs).(seats := PlacesOf(loads, ts, gs).seats[u := seat])
    {
      assert PlacesOf(loads, ts', gs).seats == PlacesOf(loads, ts, gs).seats[u := seat];
    }
  }

  lemma RemarkOk(ts: Threads, gs: Groups, ms: Lists, cs: Lists, g: nat, c: Claims)
    requires ListsOk(ts, gs, ms, cs) && IsG(gs, g)
    ensures var gs' := SetG(gs, g, gs[g].value.(total := c.total, used := c.used, roll := c.roll));
      && ListsOk(ts, gs', ms, cs) && ForestOf(ts, gs', ms, cs) == ForestOf(ts, gs, ms, cs)
      && forall loads ::
         PlacesOf(loads, ts, gs') == PlacesOf(loads, ts, gs).(claims := PlacesOf(loads, ts, gs).claims[g := c])
  {
    var gs' := SetG(gs, g, gs[g].value.(total := c.total, used := c.used, roll := c.roll));
    assert NextG(gs') == NextG(gs) && HeadsG(gs') == HeadsG(gs) && HeadsT(gs') == HeadsT(gs);
    assert ForestOf(ts, gs', ms, cs).groups == ForestOf(ts, gs, ms, cs).groups;
    forall loads
      ensures PlacesOf(loads, ts, gs') == PlacesOf(loads, ts, gs).(claims := PlacesOf(loads, ts, gs).claims[g := c])
    {
      assert PlacesOf(loads, ts, gs').claims == PlacesOf(loads, ts, gs).claims[g := c];
    }
  }

  // -------- taking and freeing slots --------

  lemma FreshThreadOk(ts: Threads, gs: Groups, ms: Lists, cs: Lists, u: nat, cpus: set<nat>)
    requires ListsOk(ts, gs, ms, cs) && u < |ts| && ts[u].None? && Nowhere(ms, u)
    ensures var ts' := SetT(ts, u, ThreadRec(cpus, 0, None, None));
      && ListsOk(ts', gs, ms, cs) && ForestOf(ts', gs, ms, cs) == SetSlot(ForestOf(ts, gs, ms, cs), u, None)
      && forall loads ::
         PlacesOf(loads, ts', gs) ==
         PlacesOf(loads, ts, gs).(seats := PlacesOf(loads, ts, gs).seats[u := Seat(0, cpus)])
  {
    var ts' := SetT(ts, u, ThreadRec(cpus, 0, None, None));
    assert NextT(ts') == NextT(ts);
    assert ForestOf(ts', gs, ms, cs).threads == SetSlot(ForestOf(ts, gs, ms, cs), u, None).threads;
    assert ForestOf(ts', gs, ms, cs).groups == ForestOf(ts, gs, ms, cs).groups;
    forall loads
      ensures PlacesOf(loads, ts', gs) ==
        PlacesOf(loads, ts, gs).(seats := PlacesOf(loads, ts, gs).seats[u := Seat(0, cpus)])
    {
      assert PlacesOf(loads, ts', gs).seats == PlacesOf(loads, ts, gs).seats[u := Seat(0, cpus)];
      assert PlacesOf(loads, ts', gs).claims == PlacesOf(loads, ts, gs).claims;
    }
  }

  lemma FreeThreadOk(ts: Threads, gs: Groups, ms: Lists, cs: Lists, u: nat)
    requires ListsOk(ts, gs, ms, cs) && IsT(ts, u) && ts[u].value.group == None
    ensures var ts', f := ts[u := None], ForestOf(ts, gs, ms, cs);
      && ListsOk(ts', gs, ms, cs) && ForestOf(ts', gs, ms, cs) == f.(threads := f.threads[u := Vacant])
      && forall loads ::
         PlacesOf(loads, ts', gs) == PlacesOf(loads, ts, gs).(seats := PlacesOf(loads, ts, gs).seats[u := NOBODY])
  {
    var ts', f := ts[u := None], ForestOf(ts, gs, ms, cs);
    assert Alone(NextT(ts), ms, u);
    assert NextT(ts') == NextT(ts);
    assert ForestOf(ts', gs, ms, cs).threads == f.threads[u := Vacant];
    assert ForestOf(ts', gs, ms, cs).groups == f.groups;
    forall loads
      ensures PlacesOf(loads, ts', gs) == PlacesOf(loads, ts, gs).(seats := PlacesOf(loads, ts, gs).seats[u := NOBODY])
    {
      assert PlacesOf(loads, ts', gs).seats == PlacesOf(loads, ts, gs).seats[u := NOBODY];
      assert PlacesOf(loads, ts', gs).claims == PlacesOf(loads, ts, gs).claims;
    }
  }

  /** A vacant thread slot is in no list of a woven forest. */
  lemma VacantNowhere(t: Topo, ts: Threads, gs: Groups, ms: Lists, cs: Lists, u: nat)
    requires ListsOk(ts, gs, ms, cs) && Woven(t, ForestOf(ts, gs, ms, cs)) && u < |ts| && ts[u].None?
    ensures Nowhere(ms, u)
  {
    var f := ForestOf(ts, gs, ms, cs);
    forall g: nat | g < |ms|
      ensures u !in ms[g]
    {
      if gs[g].Some? {
        assert Knit(t, f, g);
        assert forall x | x in NodeOf(f, g).threads :: LiveThread(f, x);
      }
    }
  }

  /** Changing a group's attribute and granularity. */
  lemma RetagOk(ts: Threads, gs: Groups, ms: Lists, cs: Lists, g: nat, attribute: bv64, s: nat)
    requires ListsOk(ts, gs, ms, cs) && IsG(gs, g)
    ensures var gs', f := SetG(gs, g, gs[g].value.(attribute := attribute, s := s)), ForestOf(ts, gs, ms, cs);
      && ListsOk(ts, gs', ms, cs)
      && ForestOf(ts, gs', ms, cs) == SetNode(f, g, NodeOf(f, g).(attribute := attribute, s := s))
      && forall loads :: PlacesOf(loads, ts, gs') == PlacesOf(loads, ts, gs)
  {
    var gs', f := SetG(gs, g, gs[g].value.(attribute := attribute, s := s)), ForestOf(ts, gs, ms, cs);
    assert NextG(gs') == NextG(gs) && HeadsG(gs') == HeadsG(gs) && HeadsT(gs') == HeadsT(gs);
    assert ForestOf(ts, gs', ms, cs).groups == SetNode(f, g, NodeOf(f, g).(attribute := attribute, s := s)).groups;
    forall loads
      ensures PlacesOf(loads, ts, gs') == PlacesOf(loads, ts, gs)
    {
      assert PlacesOf(loads, ts, gs').claims == PlacesOf(loads, ts, gs).claims;
    }
  }

  lemma FreshGroupOk(ts: Threads, gs: Groups, ms: Lists, cs: Lists, g: nat, r: GroupRec)
    requires ListsOk(ts, gs, ms, cs) && g < |gs| && gs[g].None? && Nowhere(cs, g)
    requires r.father == None && r.siblings == None && r.threads == None && r.groups == None && r.nrThreads == 0
    requires r.nrGroups == 0
    ensures var gs' := SetG(gs, g, r);
      && ListsOk(ts, gs', ms, cs)
      && ForestOf(ts, gs', ms, cs) == SetNode(ForestOf(ts, gs, ms, cs), g, Node(r.attribute, r.s, None, [], []))
      && forall loads ::
         PlacesOf(loads, ts, gs') ==
         PlacesOf(loads, ts, gs).(claims := PlacesOf(loads, ts, gs).claims[g := ClaimsIn(r)])
  {
    var gs' := SetG(gs, g, r);
    assert NextG(gs') == NextG(gs) && HeadsG(gs') == HeadsG(gs) && HeadsT(gs') == HeadsT(gs);
    assert ForestOf(ts, gs', ms, cs).groups ==
      SetNode(ForestOf(ts, gs, ms, cs), g, Node(r.attribute, r.s, None, [], [])).groups;
    forall loads
      ensures PlacesOf(loads, ts, gs') ==
        PlacesOf(loads, ts, gs).(claims := PlacesOf(loads, ts, gs).claims[g := ClaimsIn(r)])
    {
      assert PlacesOf(loads, ts, gs').claims == PlacesOf(loads, ts, gs).claims[g := ClaimsIn(r)];
    }
  }

  lemma FreeGroupOk(ts: Threads, gs: Groups, ms: Lists, cs: Lists, g: nat)
    requires ListsOk(ts, gs, ms, cs) && IsG(gs, g) && gs[g].value.father == None && gs[g].value.nrThreads == 0
    requires gs[g].value.nrGroups == 0
    ensures var gs', f := gs[g := None], ForestOf(ts, gs, ms, cs);
      && ListsOk(ts, gs', ms, cs) && ForestOf(ts, gs', ms, cs) == f.(groups := f.groups[g := None])
      && forall loads ::
         PlacesOf(loads, ts, gs') == PlacesOf(loads, ts, gs).(claims := PlacesOf(loads, ts, gs).claims[g := NOTHING])
  {
    var gs', f := gs[g := None], ForestOf(ts, gs, ms, cs);
    assert Alone(NextG(gs), cs, g);
    assert Chain(NextT(ts), HeadsT(gs)[g], ms[g]) && Chain(NextG(gs), HeadsG(gs)[g], cs[g]);
    assert NextG(gs') == NextG(gs) && HeadsG(gs') == HeadsG(gs) && HeadsT(gs') == HeadsT(gs);
    assert ForestOf(ts, gs', ms, cs).groups == f.groups[g := None];
    forall loads
      ensures PlacesOf(loads, ts, gs') ==
        PlacesOf(loads, ts, gs).(claims := PlacesOf(loads, ts, gs).claims[g := NOTHING])
    {
      assert PlacesOf(loads, ts, gs').claims == PlacesOf(loads, ts, gs).claims[g := NOTHING];
    }
  }

  lemma VacantGroupNowhere(t: Topo, ts: Threads, gs: Groups, ms: Lists, cs: Lists, g: nat)
    requires ListsOk(ts, gs, ms, cs) && Woven(t, ForestOf(ts, gs, ms, cs)) && g < |gs| && gs[g].None?
    ensures Nowhere(cs, g)
  {
    var f := ForestOf(ts, gs, ms, cs);
    forall h: nat | h < |cs|
      ensures g !in cs[h]
    {
      if gs[h].Some? {
        assert Knit(t, f, h);
        assert forall x | x in NodeOf(f, h).groups :: LiveGroup(f, x);
      }
    }
  }
}
