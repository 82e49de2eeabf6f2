/** The load table is a ledger: each CPU's load is what the live threads on it contribute. */
module Ledger {
  import opened CpuSet
  import opened Topology
  import opened Allocator
  import opened Balance
  import opened Library

  function Share(n: nat, cpus: set<nat>, c: nat): nat { if c in cpus then LoadOf(n, cpus) else 0 }

  /** What the threads contribute to CPU `c`. */
  function LoadSum(n: nat, seats: seq<Seat>, c: nat): nat {
    if seats == [] then 0 else LoadSum(n, seats[..|seats| - 1], c) + Share(n, seats[|seats| - 1].cpus, c)
  }

  /** Vacant slots hold nobody, so summing over the table is summing over the live threads. */
  ghost predicate Balanced(p: Places) {
    forall c: nat | c < |p.loads| :: p.loads[c] == LoadSum(|p.loads|, p.seats, c)
  }

  lemma {:induction false} LoadSumUpdate(n: nat, seats: seq<Seat>, u: nat, seat: Seat, c: nat)
    requires u < |seats|
    ensures LoadSum(n, seats[u := seat], c) ==
      LoadSum(n, seats, c) - Share(n, seats[u].cpus, c) + Share(n, seat.cpus, c)
  {
    var k := |seats| - 1;
    if u < k {
      LoadSumUpdate(n, seats[..k], u, seat, c);
      assert seats[u := seat][..k] == seats[..k][u := seat];
    } else {
      assert seats[u := seat][..k] == seats[..k];
    }
  }

  /** Moving one thread's load from its old CPUs to its new ones keeps the ledger balanced. */
  lemma MoveBalanced(p: Places, u: nat, seat: Seat, claims: seq<Claims>)
    requires u < |p.seats| && Balanced(p)
    ensures Balanced(Places(AddLoad(SubLoad(p.loads, p.seats[u].cpus), seat.cpus), claims, p.seats[u := seat]))
  {
    forall c: nat | c < |p.loads|
      ensures AddLoad(SubLoad(p.loads, p.seats[u].cpus), seat.cpus)[c] == LoadSum(|p.loads|, p.seats[u := seat], c)
    {
      LoadSumUpdate(|p.loads|, p.seats, u, seat, c);
    }
  }

  lemma {:induction false} SeatThreadsBalanced(m: Mode, p: Places, g: nat, ts: seq<nat>)
    requires m.s > 0 && g < |p.claims| && forall i | 0 <= i < |ts| :: ts[i] < |p.seats|
    requires Balanced(p)
    ensures Balanced(SeatThreads(m, p, g, ts))
  {
    if ts != [] {
      var q, u := SeatThreads(m, p, g, ts[..|ts| - 1]), ts[|ts| - 1];
      SeatThreadsBalanced(m, p, g, ts[..|ts| - 1]);
      SeatThreadBalanced(m, q, g, u);
    }
  }

  lemma SeatThreadBalanced(m: Mode, p: Places, g: nat, u: nat)
    requires m.s > 0 && g < |p.claims| && u < |p.seats| && Balanced(p)
    ensures Balanced(SeatThread(m, p, g, u))
  {
    var a := Aim(m, p.claims[g], SubLoad(p.loads, p.seats[u].cpus));
    MoveBalanced(p, u, SeatAt(m, a), p.claims[g := Claim(p.claims[g], ClaimAt(m, a))]);
  }

  /** Re-placing a whole subtree keeps the ledger balanced. */
  lemma {:induction false} ReplaceBalanced(t: Topo, f: Forest, p: Places, g: nat)
    requires Woven(t, f) && Fit(f, p) && LiveGroup(f, g) && Balanced(p)
    ensures Balanced(Replace(t, f, p, g))
    decreases NodeOf(f, g).s, 1, 0
  {
    var x, q := NodeOf(f, g), Request(f, p, g);
    assert Knit(t, f, g);
    assert Balanced(q);
    assert forall i | 0 <= i < |x.threads| :: x.threads[i] in x.threads;
    if x.threads != [] {
      SeatThreadsBalanced(ModeOf(x), q, g, x.threads);
    } else {
      ReplaceAllBalanced(t, f, q, g, x.groups);
    }
  }

  lemma {:induction false} ReplaceAllBalanced(t: Topo, f: Forest, p: Places, g: nat, gs: seq<nat>)
    requires Woven(t, f) && Fit(f, p) && LiveGroup(f, g) && Balanced(p)
    requires forall c | c in gs :: c in NodeOf(f, g).groups
    ensures Balanced(ReplaceAll(t, f, p, g, gs))
    decreases NodeOf(f, g).s, 0, |gs|
  {
    if gs != [] {
      var gs', c := gs[..|gs| - 1], gs[|gs| - 1];
      assert Knit(t, f, g) && c in gs && Knit(t, f, c);
      ReplaceAllBalanced(t, f, p, g, gs');
      if !Refused(f, c) { ReplaceBalanced(t, f, ReplaceAll(t, f, p, g, gs'), c); }
    }
  }

  // -------- the total --------

  function Present(seats: seq<Seat>): nat {
    if seats == [] then 0 else Present(seats[..|seats| - 1]) + if seats[|seats| - 1].cpus == {} then 0 else 1
  }

  /** The contributions to the first `k` CPUs. */
  function ColumnSum(n: nat, seats: seq<Seat>, k: nat): nat {
    if k == 0 then 0 else ColumnSum(n, seats, k - 1) + LoadSum(n, seats, k - 1)
  }

  /** The same for one thread that contributes `w` per CPU. */
  function Column(cpus: set<nat>, w: nat, k: nat): nat {
    if k == 0 then 0 else Column(cpus, w, k - 1) + if k - 1 in cpus then w else 0
  }

  lemma {:induction false} ColumnCard(cpus: set<nat>, w: nat, k: nat)
    ensures Column(cpus, w, k) == |cpus * Block(0, k)| * w
  {
    if k == 0 {
      assert cpus * Block(0, k) == {};
    } else {
      ColumnCard(cpus, w, k - 1);
      assert cpus * Block(0, k) == cpus * Block(0, k - 1) + if k - 1 in cpus then {k - 1} else {};
      MulSucc(w, |cpus * Block(0, k - 1)|);
    }
  }

  lemma {:induction false} ColumnSumLast(n: nat, seats: seq<Seat>, k: nat)
    requires seats != []
    ensures var last := seats[|seats| - 1].cpus;
      ColumnSum(n, seats, k) == ColumnSum(n, seats[..|seats| - 1], k) + Column(last, LoadOf(n, last), k)
  {
    if k > 0 { ColumnSumLast(n, seats, k - 1); }
  }

  lemma {:induction false} ColumnSumNone(n: nat, k: nat)
    ensures ColumnSum(n, [], k) == 0
  {
    if k > 0 { ColumnSumNone(n, k - 1); }
  }

  lemma {:induction false} SumIsColumnSum(p: Places, k: nat)
    requires Balanced(p) && k <= |p.loads|
    ensures SumLoads(p.loads, 0, k) == ColumnSum(|p.loads|, p.seats, k)
  {
    if k > 0 { SumIsColumnSum(p, k - 1); }
  }

  /** One thread on `k` of `n` CPUs contributes between n and 2n - 1 in all. */
  lemma OneThread(n: nat, k: nat)
    requires 1 <= k <= n
    ensures n <= k * ((n + k - 1) / k) <= 2 * n - 1
  {
    var q := (n + k - 1) / k;
    assert n + k - 1 == k * q + (n + k - 1) % k;
  }

  lemma ColumnBounds(n: nat, cpus: set<nat>)
    requires cpus != {} && InRange(cpus, n)
    ensures n <= Column(cpus, LoadOf(n, cpus), n) <= 2 * n - 1
  {
    ColumnCard(cpus, LoadOf(n, cpus), n);
    assert cpus * Block(0, n) == cpus;
    SubsetCard(cpus, Block(0, n));
    BlockCard(0, n);
    OneThread(n, |cpus|);
  }

  lemma {:induction false} ColumnEmpty(w: nat, k: nat)
    ensures Column({}, w, k) == 0
  {
    if k > 0 { ColumnEmpty(w, k - 1); }
  }

  lemma OneMore(k: nat, lo: nat, hi: nat, a: nat, b: nat)
    requires k * lo <= a <= k * hi && lo <= b <= hi
    ensures (k + 1) * lo <= a + b <= (k + 1) * hi
  {
    MulSucc(lo, k);
    MulSucc(hi, k);
  }

  lemma {:induction false} ColumnSumBounds(n: nat, seats: seq<Seat>, hi: nat)
    requires n > 0 && hi == 2 * n - 1 && forall i | 0 <= i < |seats| :: InRange(seats[i].cpus, n)
    ensures Present(seats) * n <= ColumnSum(n, seats, n) <= Present(seats) * hi
  {
    if seats == [] {
      ColumnSumNone(n, n);
    } else {
      var rest, last := seats[..|seats| - 1], seats[|seats| - 1].cpus;
      ColumnSumBounds(n, rest, hi);
      ColumnSumLast(n, seats, n);
      if last == {} {
        ColumnEmpty(LoadOf(n, last), n);
      } else {
        ColumnBounds(n, last);
        OneMore(Present(rest), n, hi, ColumnSum(n, rest, n), Column(last, LoadOf(n, last), n));
      }
    }
  }

  /** With T threads present the table sums to at least T*n and at most T*(2n - 1). */
  lemma TotalLoad(p: Places)
    requires Balanced(p) && |p.loads| > 0
    requires forall i | 0 <= i < |p.seats| :: InRange(p.seats[i].cpus, |p.loads|)
    ensures var n := |p.loads|;
      Present(p.seats) * n <= SumLoads(p.loads, 0, n) <= Present(p.seats) * (2 * n - 1)
  {
    SumIsColumnSum(p, |p.loads|);
    ColumnSumBounds(|p.loads|, p.seats, 2 * |p.loads| - 1);
  }
}
