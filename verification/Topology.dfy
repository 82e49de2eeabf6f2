/** The CPU topology counts and the group attribute word. */
module Topology {

  /** CPU totals per level; a negative count means the level does not exist. */
  datatype Topo = Topo(n: nat, ccl: int, node: int, package: int)

  const CPU_SETSIZE: nat := 1024

  /** Attribute bits 0-15: the topology level of the members. */
  const WT_GF_CPU: bv64 := 0x1
  const WT_GF_CCL: bv64 := 0x4
  const WT_GF_NUMA: bv64 := 0x20
  const WT_GF_PACKAGE: bv64 := 0x40
  const WT_GF_ALL: bv64 := 0x400
  /** Attribute bits 16-32: how member threads are bound. */
  const WT_GF_PERCPU: bv64 := 0x1_0000
  const WT_GF_COMPACT: bv64 := 0x10_0000

  function LevelBits(attribute: bv64): bv64 { attribute & 0xffff }
  predicate IsPerCpu(attribute: bv64) { attribute & WT_GF_PERCPU != 0 }
  predicate IsCompact(attribute: bv64) { attribute & WT_GF_COMPACT != 0 }

  datatype Arranged = Invalid | Arranged(attribute: bv64, s: nat)

  predicate Divides(a: int, b: int) {
    a > 0 && b % a == 0
  }

  /** A level that exists splits the CPUs evenly, and any two levels nest. */
  predicate Regular(t: Topo) {
    && 1 <= t.n <= CPU_SETSIZE
    && (t.ccl < 0 || Divides(t.ccl, t.n))
    && (t.node < 0 || Divides(t.node, t.n))
    && (t.package < 0 || Divides(t.package, t.n))
    && (t.ccl > 0 && t.node > 0 ==> Divides(t.ccl, t.node) || Divides(t.node, t.ccl))
    && (t.ccl > 0 && t.package > 0 ==> Divides(t.ccl, t.package) || Divides(t.package, t.ccl))
    && (t.node > 0 && t.package > 0 ==> Divides(t.node, t.package) || Divides(t.package, t.node))
  }

  /** CPUs per member for a level, or nothing for an unknown level; may be negative for a missing level. */
  function RawGranularity(t: Topo, level: bv64): (r: (bool, int)) {
    if level == WT_GF_CPU then (true, 1)
    else if level == WT_GF_CCL then (true, t.ccl)
    else if level == WT_GF_NUMA then (true, t.node)
    else if level == WT_GF_PACKAGE then (true, t.package)
    else if level == WT_GF_ALL then (true, t.n)
    else (false, 0)
  }

  /** The parameters `wayca_group_arrange` derives: a missing level falls back to `WT_GF_CPU`. */
  function Arrange(t: Topo, attribute: bv64): (r: Arranged)
    requires Regular(t)
    ensures r.Arranged? ==> Divides(r.s, t.n)
    ensures r.Arranged? ==>
      IsPerCpu(r.attribute) == IsPerCpu(attribute) && IsCompact(r.attribute) == IsCompact(attribute)
  {
    var (known, g) := RawGranularity(t, LevelBits(attribute));
    if !known then Invalid
    else if g < 0 then
      FallbackBits(attribute);
      Arranged((attribute & !0xffff) | WT_GF_CPU, 1)
    else Arranged(attribute, g)
  }

  lemma FallbackBits(attribute: bv64)
    ensures var a := (attribute & !0xffff) | WT_GF_CPU;
      && LevelBits(a) == WT_GF_CPU
      && (a & WT_GF_PERCPU) == (attribute & WT_GF_PERCPU)
      && (a & WT_GF_COMPACT) == (attribute & WT_GF_COMPACT)
  {
  }

  // -------- what the words mean --------

  /** The bits of the topology level. */
  predicate IsLevelWord(level: bv64) { level & 0xffff == level }

  /** No bit of the topology level. */
  predicate IsBinding(b: bv64) { b & 0xffff == 0 }

  lemma WordParts(level: bv64, b: bv64)
    requires IsLevelWord(level) && IsBinding(b)
    ensures LevelBits(level | b) == level && ((level | b) & !0xffff) | WT_GF_CPU == WT_GF_CPU | b
  {
  }

  /** The level word `level` stands for `k` CPUs per member; a negative number says that the machine lacks the level. */
  predicate IsCount(t: Topo, level: bv64, k: int) {
    || (level == WT_GF_CPU && k == 1)
    || (level == WT_GF_CCL && k == t.ccl)
    || (level == WT_GF_NUMA && k == t.node)
    || (level == WT_GF_PACKAGE && k == t.package)
    || (level == WT_GF_ALL && k == t.n)
  }

  lemma CountFacts(t: Topo, level: bv64, k: int)
    requires Regular(t) && IsCount(t, level, k)
    ensures IsLevelWord(level) && RawGranularity(t, level) == (true, k) && k != 0
  {
  }

  /** Each level word with any binding bits: as many CPUs per member as the level has, and single CPUs where the
      machine lacks the level. */
  lemma ArrangeWords(t: Topo, level: bv64, k: int, b: bv64)
    requires Regular(t) && IsCount(t, level, k) && IsBinding(b)
    ensures Arrange(t, level | b) == if k > 0 then Arranged(level | b, k) else Arranged(WT_GF_CPU | b, 1)
  {
    CountFacts(t, level, k);
    WordParts(level, b);
  }

  /** The words refused are those without such a level. */
  lemma InvalidWords(t: Topo, attribute: bv64)
    requires Regular(t)
    ensures Arrange(t, attribute).Invalid? <==>
      attribute & 0xffff !in {WT_GF_CPU, WT_GF_CCL, WT_GF_NUMA, WT_GF_PACKAGE, WT_GF_ALL}
  {
  }

  /** What the two binding words say, alone and together, with any level. */
  lemma BindingWords(level: bv64)
    requires IsLevelWord(level)
    ensures !IsPerCpu(level) && !IsCompact(level)
    ensures IsPerCpu(level | WT_GF_PERCPU) && !IsCompact(level | WT_GF_PERCPU)
    ensures !IsPerCpu(level | WT_GF_COMPACT) && IsCompact(level | WT_GF_COMPACT)
    ensures IsPerCpu(level | WT_GF_PERCPU | WT_GF_COMPACT) && IsCompact(level | WT_GF_PERCPU | WT_GF_COMPACT)
  {
  }

  /** Arranging an attribute that was already arranged changes nothing. */
  lemma ArrangeStable(t: Topo, attribute: bv64)
    requires Regular(t) && Arrange(t, attribute).Arranged?
    ensures Arrange(t, Arrange(t, attribute).attribute) == Arrange(t, attribute)
  {
    FallbackBits(attribute);
  }

  /** A number of CPUs some topology level groups together. */
  predicate IsLevel(t: Topo, k: nat) {
    k > 0 && (k == 1 || k == t.n || k == t.ccl || k == t.node || k == t.package)
  }

  lemma ArrangedLevel(t: Topo, attribute: bv64)
    requires Regular(t) && Arrange(t, attribute).Arranged?
    ensures IsLevel(t, Arrange(t, attribute).s)
  {
  }

  lemma DividesEnds(k: int)
    requires k > 0
    ensures Divides(1, k) && Divides(k, k)
  {
  }

  lemma LevelDivides(t: Topo, k: nat)
    requires Regular(t) && IsLevel(t, k)
    ensures Divides(k, t.n)
  {
    DividesEnds(t.n);
  }

  /** Two levels nest one way or the other. */
  lemma LevelsComparable(t: Topo, x: nat, y: nat)
    requires Regular(t) && IsLevel(t, x) && IsLevel(t, y)
    ensures Divides(x, y) || Divides(y, x)
  {
    LevelDivides(t, x);
    LevelDivides(t, y);
    DividesEnds(x);
    DividesEnds(y);
  }

  /** Of two levels the smaller divides the larger. */
  lemma LevelsNest(t: Topo, x: nat, y: nat)
    requires Regular(t) && IsLevel(t, x) && IsLevel(t, y) && x <= y
    ensures Divides(x, y)
  {
    LevelsComparable(t, x, y);
    if x < y { NoBackward(x, y); }
  }

  lemma NoBackward(x: int, y: int)
    requires 0 < x < y
    ensures !Divides(y, x)
  {
  }
}
