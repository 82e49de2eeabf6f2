/** Spreading jobs over cores and NUMA nodes (`tools/functions.c`), with exact quotients in place of doubles. */
module Spread {
  import opened Library
  import opened CpuSet
  import opened Balance

  const CORES_PER_CCL: nat := 4

  // -------- arithmetic --------

  /** Adding `n` raises the quotient by the quotient of `n`, or by one more. */
  lemma QuotientStep(x: nat, n: nat, j: nat)
    requires j > 0
    ensures x / j + n / j <= (x + n) / j <= x / j + n / j + 1
  {
    var r := x % j + n % j;
    var q := x / j + n / j;
    Distribute(x / j, n / j, j);
    if r < j {
      DivModUnique(x + n, j, q, r);
    } else {
      MulSucc(j, q);
      DivModUnique(x + n, j, q + 1, r - j);
    }
  }

  lemma Distribute(p: nat, q: nat, j: nat)
    ensures (p + q) * j == p * j + q * j
  {
  }

  lemma WholeQuotient(n: nat, j: nat)
    requires j > 0
    ensures (n * j) / j == n
  {
    DivModUnique(n * j, j, n, 0);
  }

  // -------- cores on one node --------

  /** The core of job `i`. */
  function Core(jobs: nat, cores: nat, i: nat): nat
    requires jobs > 0
  {
    cores * i / jobs
  }

  /** `q` is the whole part of `x` divided by `j`. */
  predicate IsFloor(q: int, x: int, j: int) { q * j <= x < (q + 1) * j }

  lemma CoreIsFloor(jobs: nat, cores: nat, i: nat)
    requires jobs > 0
    ensures IsFloor(Core(jobs, cores, i), cores * i, jobs)
  {
    FloorOf(cores * i, jobs);
  }

  lemma FloorOf(x: nat, j: nat)
    requires j > 0
    ensures IsFloor(x / j, x, j)
  {
    assert x == j * (x / j) + x % j;
    MulSucc(j, x / j);
  }

  /** Consecutive jobs are the floor or the ceiling of the even distance apart, so never on the same core. */
  lemma CoreStep(jobs: nat, cores: nat, i: nat)
    requires 0 < jobs <= cores
    ensures var gap := Core(jobs, cores, i + 1) - Core(jobs, cores, i);
      1 <= cores / jobs <= gap <= cores / jobs + 1
  {
    MulSucc(cores, i);
    QuotientStep(cores * i, cores, jobs);
    AtLeastOne(cores, jobs);
  }

  lemma {:induction false} CoreOrder(jobs: nat, cores: nat, i: nat, j: nat)
    requires 0 < jobs <= cores && i < j
    ensures Core(jobs, cores, i) < Core(jobs, cores, j)
  {
    CoreStep(jobs, cores, j - 1);
    if i < j - 1 { CoreOrder(jobs, cores, i, j - 1); }
  }

  lemma CoreInside(jobs: nat, cores: nat, i: nat)
    requires i < jobs <= cores
    ensures Core(jobs, cores, i) < cores
  {
    CoreOrder(jobs, cores, i, jobs);
    WholeQuotient(cores, jobs);
  }

  ghost predicate Increasing(xs: seq<nat>) { forall i, j | 0 <= i < j < |xs| :: xs[i] < xs[j] }

  ghost predicate Inside(xs: seq<nat>, lo: nat, hi: nat) { forall i | 0 <= i < |xs| :: lo <= xs[i] < hi }

  /** `print_spreading_cpus`: the cores it prints, or nothing but an error. */
  method SpreadCpus(jobs: nat, cores: nat, offset: nat) returns (r: Option<seq<nat>>)
    ensures r.None? <==> jobs > cores
    ensures r.Some? ==> |r.value| == jobs && Increasing(r.value) && Inside(r.value, offset, offset + cores)
    ensures r.Some? ==> forall i | 0 <= i < jobs - 1 :: cores / jobs <= r.value[i + 1] - r.value[i] <= cores / jobs + 1
    ensures r.Some? ==> forall i | 0 <= i < jobs :: IsFloor(r.value[i] - offset, cores * i, jobs)
  {
    if jobs > cores { return None; }
    var out: seq<nat> := [];
    for i := 0 to jobs
      invariant |out| == i && forall k | 0 <= k < i :: out[k] == Core(jobs, cores, k) + offset
    {
      out := out + [Core(jobs, cores, i) + offset];
    }
    forall i, j | 0 <= i < j < jobs ensures out[i] < out[j] { CoreOrder(jobs, cores, i, j); }
    forall i | 0 <= i < jobs ensures offset <= out[i] < offset + cores { CoreInside(jobs, cores, i); }
    forall i | 0 <= i < jobs - 1
      ensures cores / jobs <= out[i + 1] - out[i] <= cores / jobs + 1
    {
      CoreStep(jobs, cores, i);
    }
    forall i | 0 <= i < jobs ensures IsFloor(out[i] - offset, cores * i, jobs) { CoreIsFloor(jobs, cores, i); }
    r := Some(out);
  }

  // -------- jobs over nodes --------

  /** The even share of node `i`: the first nodes take one of the jobs that are left over. */
  function Share(jobs: nat, nodes: nat, i: nat): nat
    requires nodes > 0
  {
    jobs / nodes + if i < jobs % nodes then 1 else 0
  }

  function Given(jobs: nat, nodes: nat, i: nat): nat
    requires nodes > 0
  {
    if i == 0 then 0 else Given(jobs, nodes, i - 1) + Share(jobs, nodes, i - 1)
  }

  lemma ShareIs(jobs: nat, nodes: nat, i: nat, q: nat, r: nat)
    requires nodes > 0 && q == jobs / nodes && r == jobs % nodes
    ensures Share(jobs, nodes, i) == q + if i < r then 1 else 0
  {
  }

  lemma {:induction false} GivenIs(jobs: nat, nodes: nat, i: nat, q: nat, r: nat)
    requires nodes > 0 && q == jobs / nodes && r == jobs % nodes
    ensures Given(jobs, nodes, i) == i * q + if i < r then i else r
  {
    if i > 0 {
      GivenIs(jobs, nodes, i - 1, q, r);
      ShareIs(jobs, nodes, i - 1, q, r);
      MulSucc(q, i - 1);
    }
  }

  /** The quotient rounded up: how many times `y` it takes to cover `x`. */
  function CeilDiv(x: nat, y: nat): nat
    requires y > 0
  {
    if x == 0 then 0 else 1 + CeilDiv(if x > y then x - y else 0, y)
  }

  lemma NotNegative(p: nat, q: nat)
    ensures p * q >= 0
  {
  }

  /** The shares add up to all jobs. */
  lemma AllGiven(jobs: nat, nodes: nat)
    requires nodes > 0
    ensures Given(jobs, nodes, nodes) == jobs
  {
    GivenIs(jobs, nodes, nodes, jobs / nodes, jobs % nodes);
    assert jobs == nodes * (jobs / nodes) + jobs % nodes;
  }

  lemma {:induction false} CeilOf(x: nat, q: nat, left: nat, extra: nat)
    requires extra < left && x == left * q + extra
    ensures CeilDiv(x, left) == q + if extra > 0 then 1 else 0
  {
    if q > 0 {
      MulSucc(left, q - 1);
      NotNegative(left, q - 1);
      CeilOf(x - left, q - 1, left, extra);
    }
  }

  /** What is left after `i` nodes: an even part for each node to come, and the rest of the remainder. */
  lemma LeftAfter(jobs: nat, nodes: nat, i: nat, q: nat, r: nat)
    requires i < nodes && q == jobs / nodes && r == jobs % nodes
    ensures jobs - Given(jobs, nodes, i) == (nodes - i) * q + if i < r then r - i else 0
  {
    GivenIs(jobs, nodes, i, q, r);
    Distribute(i, nodes - i, q);
    assert jobs == nodes * q + r;
  }

  /** Dividing what remains over the nodes that remain gives each node its even share. */
  lemma CeilIsShare(jobs: nat, nodes: nat, i: nat, left: int)
    requires i < nodes && left == jobs - Given(jobs, nodes, i)
    ensures left >= 0 && CeilDiv(left, nodes - i) == Share(jobs, nodes, i)
  {
    var q, r := jobs / nodes, jobs % nodes;
    CeilOfRest(jobs, nodes, i, left, q, r);
    ShareIs(jobs, nodes, i, q, r);
  }

  lemma CeilOfRest(jobs: nat, nodes: nat, i: nat, left: int, q: nat, r: nat)
    requires i < nodes && left == jobs - Given(jobs, nodes, i) && q == jobs / nodes && r == jobs % nodes
    ensures left >= 0 && CeilDiv(left, nodes - i) == q + if i < r then 1 else 0
  {
    LeftAfter(jobs, nodes, i, q, r);
    RestBelow(jobs, nodes);
    CeilOfLeft(left, q, r, nodes, i);
  }

  lemma RestBelow(jobs: nat, nodes: nat)
    requires nodes > 0
    ensures jobs % nodes < nodes
  {
  }

  lemma CeilOfLeft(left: int, q: nat, r: nat, nodes: nat, i: nat)
    requires i < nodes && r < nodes && left == (nodes - i) * q + if i < r then r - i else 0
    ensures left >= 0 && CeilDiv(left, nodes - i) == q + if i < r then 1 else 0
  {
    NotNegative(nodes - i, q);
    CeilOf(left, q, nodes - i, if i < r then r - i else 0);
  }

  /** What is printed for a node: `share` cores from `lo` on, or an error if it may use fewer. */
  ghost predicate IsNode(line: Option<seq<nat>>, share: nat, lo: nat, cores: nat) {
    if share > cores then line == None
    else
      && line.Some? && |line.value| == share && Increasing(line.value) && Inside(line.value, lo, lo + cores)
      && forall k | 0 <= k < share :: IsFloor(line.value[k] - lo, cores * k, share)
  }

  function FirstCore(cclsPerNode: nat, i: nat): nat { i * cclsPerNode * CORES_PER_CCL }

  /** Each node begins where all clusters of the one before it end. */
  lemma NodeByNode(cclsPerNode: nat, i: nat)
    ensures FirstCore(cclsPerNode, 0) == 0
    ensures FirstCore(cclsPerNode, i + 1) == FirstCore(cclsPerNode, i) + cclsPerNode * CORES_PER_CCL
  {
    MulSucc(cclsPerNode, i);
  }

  method JobsHere(ghost jobs: nat, ghost nodes: nat, ghost i: nat, jobsLeft: int, nodesLeft: nat) returns (n: nat)
    requires i < nodes && jobsLeft == jobs - Given(jobs, nodes, i) && nodesLeft == nodes - i
    ensures n == Share(jobs, nodes, i)
  {
    CeilIsShare(jobs, nodes, i, jobsLeft);
    n := CeilDiv(jobsLeft, nodesLeft);
  }

  /** `print_spreading_numas`: what it prints for each node.  The shares are even and add up to all jobs; a node
      is an error exactly when its share exceeds the cores it may use. */
  method SpreadNumas(jobs: nat, nodes: nat, cclsPerNode: nat, ccls: nat) returns (out: seq<Option<seq<nat>>>)
    requires nodes > 0
    ensures |out| == nodes && Given(jobs, nodes, nodes) == jobs
    ensures forall i | 0 <= i < nodes ::
      IsNode(out[i], Share(jobs, nodes, i), FirstCore(cclsPerNode, i), ccls * CORES_PER_CCL)
  {
    out := [];
    var jobsLeft: int, nodesLeft := jobs, nodes;
    AllGiven(jobs, nodes);
    for i := 0 to nodes
      invariant |out| == i && jobsLeft == jobs - Given(jobs, nodes, i) && nodesLeft == nodes - i
      invariant forall k | 0 <= k < i ::
        IsNode(out[k], Share(jobs, nodes, k), FirstCore(cclsPerNode, k), ccls * CORES_PER_CCL)
    {
      var thisJobs := JobsHere(jobs, nodes, i, jobsLeft, nodesLeft);
      var line := SpreadCpus(thisJobs, ccls * CORES_PER_CCL, FirstCore(cclsPerNode, i));
      out := out + [line];
      jobsLeft := jobsLeft - thisJobs;
      nodesLeft := nodesLeft - 1;
    }
  }

  /** No core is given out twice across nodes when a node's allowed clusters are its own. */
  lemma NodesApart(cclsPerNode: nat, ccls: nat, i: nat, j: nat, a: nat, b: nat)
    requires ccls <= cclsPerNode && i < j
    requires a < FirstCore(cclsPerNode, i) + ccls * CORES_PER_CCL && FirstCore(cclsPerNode, j) <= b
    ensures a < b
  {
    MulApart(i, j, cclsPerNode);
  }
}
