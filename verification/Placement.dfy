/** The placement table of the group attributes, as a closed form.

    A group on the `len` CPUs from `lo`, in blocks of `s`, is freshly arranged and its CPUs carry the
    same load.  `ClosedTarget` says where the k-th attached thread goes, for every k. */
module Placement {
  import opened CpuSet
  import opened Allocator
  import opened Balance

  /** A freshly arranged group: `len` CPUs from `lo` on, whole blocks. */
  predicate Frame(m: Mode, lo: nat, len: nat) {
    m.s > 0 && len > 0 && lo % m.s == 0 && len % m.s == 0
  }

  function Blocks(m: Mode, len: nat): (b: nat)
    requires m.s > 0
  {
    len / m.s
  }

  /** The position of the k-th thread: block k mod B when scattered (stepping inside the block once
      per round when bound per CPU), CPU k mod len when compact. */
  function ClosedTarget(m: Mode, lo: nat, len: nat, k: nat): nat
    requires m.s > 0 && Blocks(m, len) > 0 && len > 0
  {
    var b := Blocks(m, len);
    if m.compact then lo + k % len
    else lo + (k % b) * m.s + if m.perCpu then (k / b) % m.s else 0
  }

  /** The bookkeeping after k threads. */
  function ClosedClaims(m: Mode, lo: nat, len: nat, k: nat): Claims
    requires m.s > 0 && Blocks(m, len) > 0 && len > 0
  {
    var b := Blocks(m, len);
    if m.compact then Claims(Block(lo, len), Block(lo, k % len), k / len)
    else Claims(Block(lo, len), Block(lo, (k % b) * m.s), k / b)
  }

  /** How often the first k threads cover CPU `c`. */
  function Hits(m: Mode, lo: nat, len: nat, k: nat, c: nat): nat
    requires m.s > 0 && Blocks(m, len) > 0 && len > 0
  {
    if k == 0 then 0
    else Hits(m, lo, len, k - 1, c) + if c in SeatAt(m, ClosedTarget(m, lo, len, k - 1)).cpus then 1 else 0
  }

  /** How often counting round-robin over `b` places reaches place `o` in `k` steps. */
  function Rounds(k: nat, b: nat, o: nat): nat
    requires b > 0
  {
    k / b + if o < k % b then 1 else 0
  }

  /** The same count in closed form, for the d-th CPU of the group. */
  function ClosedHits(m: Mode, len: nat, k: nat, d: nat): int
    requires m.s > 0 && Blocks(m, len) > 0 && len > 0
  {
    if m.compact then
      if m.perCpu then Rounds(k, len, d)
      else (k / len) * m.s + Clamp(k % len - (d / m.s) * m.s, m.s)
    else
      var v := Rounds(k, Blocks(m, len), d / m.s);
      if m.perCpu then Rounds(v, m.s, d % m.s) else v
  }

  function Clamp(x: int, s: nat): int {
    if x < 0 then 0 else if x > s then s else x
  }

  /** The loads of the group's CPUs: the same everywhere, plus `w` for each thread placed so far. */
  ghost predicate LoadsAfter(m: Mode, lo: nat, len: nat, k: nat, loads: seq<int>, u: int, w: nat)
    requires Frame(m, lo, len) && lo + len <= |loads| && Blocks(m, len) > 0
  {
    forall d: nat | d < len :: At(loads, lo, d) == u + w * Hits(m, lo, len, k, lo + d)
  }

  // -------- arithmetic --------

  lemma DivSucc(k: nat, b: nat)
    requires b > 0
    ensures if k % b + 1 < b then (k + 1) / b == k / b && (k + 1) % b == k % b + 1
            else (k + 1) / b == k / b + 1 && (k + 1) % b == 0
  {
    assert k == (k / b) * b + k % b;
    if k % b + 1 < b {
      DivModUnique(k + 1, b, k / b, k % b + 1);
    } else {
      assert k + 1 == (k / b + 1) * b + 0;
      DivModUnique(k + 1, b, k / b + 1, 0);
    }
  }

  lemma DivPos(j: nat, o: nat, s: nat)
    requires o < s
    ensures (j * s + o) / s == j && (j * s + o) % s == o
  {
    DivModUnique(j * s + o, s, j, o);
  }

  lemma FrameFacts(m: Mode, lo: nat, len: nat)
    requires Frame(m, lo, len)
    ensures Blocks(m, len) > 0 && len == Blocks(m, len) * m.s
  {
  }

  /** Block `j` of the group is aligned. */
  lemma BlockAligned(m: Mode, lo: nat, j: nat)
    requires m.s > 0 && lo % m.s == 0
    ensures (lo + j * m.s) % m.s == 0
  {
    ModOfMultiple(j, m.s);
    AddMod(lo, j * m.s, m.s);
  }

  lemma BlockIndex(d: nat, j: nat, s: nat)
    requires s > 0
    ensures d / s == j <==> j * s <= d < j * s + s
  {
    assert d == (d / s) * s + d % s;
    MulApart(d / s, j, s);
  }

  // -------- the choice under equal loads --------

  /** If all free blocks carry the same load, the first of them is chosen. */
  lemma FirstOfEquals(loads: seq<int>, free: set<nat>, s: nat, a: nat)
    requires s > 0 && InRange(free, |loads|)
    requires a in free && a % s == 0 && forall c | c in free :: a <= c
    requires forall b | b in free && b % s == 0 :: BlockLoads(loads, s)[b] == BlockLoads(loads, s)[a]
    ensures IdlestBlock(loads, free, s) == a
  {
    var cand := Candidates(loads, free, s);
    if cand == {} {
      StartUnique(a, a, s);
    } else {
      var b :| b in cand;
      PickUnique(cand, BlockLoads(loads, s), a);
    }
  }

  lemma {:induction false} SumEqual(loads: seq<int>, a: nat, b: nat, k: nat)
    requires a + k <= |loads| && b + k <= |loads|
    requires loads[a..a + k] == loads[b..b + k]
    ensures SumLoads(loads, a, k) == SumLoads(loads, b, k)
  {
    if k > 0 {
      assert loads[a..a + k - 1] == loads[a..a + k][..k - 1] == loads[b..b + k - 1];
      assert loads[a..a + k][k - 1] == loads[b..b + k][k - 1];
      SumEqual(loads, a, b, k - 1);
    }
  }

  function At(loads: seq<int>, a: nat, d: nat): int
    requires a + d < |loads|
  {
    loads[a + d]
  }

  /** The position of the d-th CPU in its block. */
  function Off(d: nat, s: nat): (o: nat)
    requires s > 0
    ensures o < s && o <= d
  {
    if d < s then d else Off(d - s, s)
  }

  lemma {:induction false} OffIsMod(d: nat, s: nat)
    requires s > 0
    ensures Off(d, s) == d % s
  {
    if d >= s {
      OffIsMod(d - s, s);
      ShiftMod(1, d - s, s);
    }
  }

  lemma AlignedBlocksEqual(loads: seq<int>, a: nat, k: nat, s: nat, b: nat)
    requires s > 0 && k > 0 && a % s == 0 && k % s == 0 && a + k <= |loads|
    requires forall d: nat | d < k :: At(loads, a, d) == At(loads, a, Off(d, s))
    requires b in Block(a, k) && b % s == 0
    ensures b + s <= |loads| && a + s <= |loads| && SumLoads(loads, a, s) == SumLoads(loads, b, s)
  {
    AddMod(a, k, s);
    MultiplesApart(0, k, s);
    MultiplesApart(b, a + k, s);
    DiffMod(b, a, s);
    var x, y := loads[a..a + s], loads[b..b + s];
    forall o | 0 <= o < s
      ensures x[o] == y[o]
    {
      OffsetMod(b - a, o, s);
      OffIsMod(b - a + o, s);
      assert At(loads, a, b - a + o) == At(loads, a, o);
    }
    SumEqual(loads, a, b, s);
  }

  lemma OffsetMod(d: nat, o: nat, s: nat)
    requires o < s && d % s == 0
    ensures (d + o) % s == o
  {
    DivPos(d / s, o, s);
  }

  /** A free range of whole blocks whose loads repeat from block to block: the first block wins. */
  lemma FirstBlock(loads: seq<int>, a: nat, k: nat, s: nat)
    requires s > 0 && k > 0 && a % s == 0 && k % s == 0 && a + k <= |loads|
    requires forall d: nat | d < k :: At(loads, a, d) == At(loads, a, Off(d, s))
    ensures a in Block(a, k) && IdlestBlock(loads, Block(a, k), s) == a
  {
    assert a in Block(a, k);
    forall b | b in Block(a, k) && b % s == 0
      ensures BlockLoads(loads, s)[b] == BlockLoads(loads, s)[a]
    {
      AlignedBlocksEqual(loads, a, k, s, b);
    }
    FirstOfEquals(loads, Block(a, k), s, a);
  }

  lemma DiffMod(b: nat, a: nat, s: nat)
    requires s > 0 && a <= b && a % s == 0 && b % s == 0
    ensures (b - a) % s == 0
  {
    assert b - a == s * (b / s - a / s);
    ModOfMultiple(b / s - a / s, s);
  }

  // -------- the k-th placement --------

  /** In a scattered group the CPUs of the free blocks differ only by their position in the block. */
  lemma HitsFree(m: Mode, len: nat, k: nat, d: nat)
    requires m.s > 0 && len > 0 && Blocks(m, len) > 0 && !m.compact
    requires (k % Blocks(m, len)) * m.s <= d
    ensures var q := k / Blocks(m, len);
      ClosedHits(m, len, k, d) == if m.perCpu then q / m.s + (if d % m.s < q % m.s then 1 else 0) else q
  {
    var r := k % Blocks(m, len);
    assert d == (d / m.s) * m.s + d % m.s;
    MulApart(d / m.s, r, m.s);
  }

  /** In a block whose first `off` CPUs carry `w` more than the others, the choice is the CPU at `off`. */
  lemma PickAtOffset(loads: seq<int>, a: nat, s: nat, base: int, w: nat, off: nat)
    requires a + s <= |loads| && w > 0 && off < s
    requires forall o: nat | o < s :: At(loads, a, o) == base + if o < off then w else 0
    ensures a in Block(a, s) && Pick(Block(a, s), loads) == a + off
  {
    assert loads[a + off] == At(loads, a, off);
    forall c | c in Block(a, s)
      ensures loads[a + off] <= loads[c] && (c < a + off ==> loads[a + off] < loads[c])
    {
      assert loads[c] == At(loads, a, c - a);
    }
    assert a in Block(a, s) && a + off in Block(a, s);
    PickUnique(Block(a, s), loads, a + off);
  }

  /** Free whole blocks that repeat that pattern: the first block is chosen. */
  lemma FirstOfPattern(loads: seq<int>, a: nat, k: nat, s: nat, base: int, w: nat, off: nat)
    requires s > 0 && k > 0 && a % s == 0 && k % s == 0 && a + k <= |loads| && w > 0 && off < s
    requires forall d: nat | d < k :: At(loads, a, d) == base + if Off(d, s) < off then w else 0
    ensures a in Block(a, k) && IdlestBlock(loads, Block(a, k), s) == a
    ensures s <= k && a in Block(a, s) && Pick(Block(a, s), loads) == a + off
  {
    FirstBlock(loads, a, k, s);
    MultiplesApart(0, k, s);
    PickAtOffset(loads, a, s, base, w, off);
  }

  /** What is free in the middle of a scattered round: the blocks not reached yet. */
  lemma ScatterFree(m: Mode, lo: nat, len: nat, k: nat)
    requires Frame(m, lo, len) && Blocks(m, len) > 0 && !m.compact
    ensures var done := (k % Blocks(m, len)) * m.s;
      && done < len && (lo + done) % m.s == 0 && (len - done) % m.s == 0
      && Free(ClosedClaims(m, lo, len, k)) == Block(lo + done, len - done)
  {
    var r := k % Blocks(m, len);
    FrameFacts(m, lo, len);
    MulApart(r, Blocks(m, len), m.s);
    BlockAligned(m, lo, r);
    ModOfMultiple(r, m.s);
    DiffMod(len, r * m.s, m.s);
  }

  lemma ScatterHits(m: Mode, len: nat, k: nat, d: nat)
    requires m.s > 0 && len > 0 && Blocks(m, len) > 0 && !m.compact
    ensures var q := k / Blocks(m, len);
      ClosedHits(m, len, k, (k % Blocks(m, len)) * m.s + d) ==
        if m.perCpu then q / m.s + (if Off(d, m.s) < q % m.s then 1 else 0) else q
  {
    OffIsMod(d, m.s);
    ShiftMod(k % Blocks(m, len), d, m.s);
    HitsFree(m, len, k, (k % Blocks(m, len)) * m.s + d);
  }

  /** Whole rounds so far, as a CPU not reached in this one counts them, and how many CPUs of its block have one
      more. */
  ghost predicate SoFar(m: Mode, len: nat, k: nat, full: nat, off: nat)
    requires m.s > 0 && Blocks(m, len) > 0
  {
    var q := k / Blocks(m, len);
    if m.perCpu then full == q / m.s && off == q % m.s else full == q && off == 0
  }

  lemma ScatterHitsAt(m: Mode, lo: nat, len: nat, k: nat, done: nat, d: nat, full: nat, off: nat)
    requires Frame(m, lo, len) && Blocks(m, len) > 0 && !m.compact && done == (k % Blocks(m, len)) * m.s
    requires done + d < len
    requires SoFar(m, len, k, full, off)
    ensures Hits(m, lo, len, k, lo + (done + d)) == full + if Off(d, m.s) < off then 1 else 0
  {
    ScatterHits(m, len, k, d);
    HitsClosed(m, lo, len, k, done + d);
  }

  lemma LoadOfHits(m: Mode, lo: nat, len: nat, k: nat, loads: seq<int>, u: int, w: nat, d: nat, full: nat, more: bool)
    requires Frame(m, lo, len) && lo + len <= |loads| && Blocks(m, len) > 0 && LoadsAfter(m, lo, len, k, loads, u, w)
    requires d < len && Hits(m, lo, len, k, lo + d) == full + if more then 1 else 0
    ensures At(loads, lo, d) == u + w * full + if more then w else 0
  {
    WeightOf(u, w, Hits(m, lo, len, k, lo + d), full);
  }

  lemma ScatterLoad(m: Mode, lo: nat, len: nat, k: nat, loads: seq<int>, u: int, w: nat, done: nat, d: nat, full: nat,
        off: nat)
    requires Frame(m, lo, len) && lo + len <= |loads| && Blocks(m, len) > 0 && !m.compact
    requires LoadsAfter(m, lo, len, k, loads, u, w) && SoFar(m, len, k, full, off)
    requires done == (k % Blocks(m, len)) * m.s && done + d < len
    ensures At(loads, lo + done, d) == u + w * full + if Off(d, m.s) < off then w else 0
  {
    ScatterHitsAt(m, lo, len, k, done, d, full, off);
    LoadOfHits(m, lo, len, k, loads, u, w, done + d, full, Off(d, m.s) < off);
  }

  lemma RoundsStep(k: nat, b: nat, o: nat)
    requires o < b
    ensures Rounds(k + 1, b, o) == Rounds(k, b, o) + if o == k % b then 1 else 0
  {
    DivSucc(k, b);
  }

  lemma ClampStep(p: nat, j: nat, s: nat)
    requires s > 0
    ensures Clamp(p + 1 - j * s, s) == Clamp(p - j * s, s) + if p / s == j then 1 else 0
  {
    BlockIndex(p, j, s);
  }

  /** Whether the k-th seat covers the d-th CPU. */
  lemma SeatCovers(m: Mode, lo: nat, len: nat, k: nat, d: nat)
    requires Frame(m, lo, len) && Blocks(m, len) > 0 && d < len
    ensures var b := Blocks(m, len);
      lo + d in SeatAt(m, ClosedTarget(m, lo, len, k)).cpus <==>
      if m.compact then (if m.perCpu then d == k % len else d / m.s == (k % len) / m.s)
      else d / m.s == k % b && (m.perCpu ==> d % m.s == (k / b) % m.s)
  {
    var b := Blocks(m, len);
    if !m.perCpu {
      BlockCovers(m, lo, ClosedTarget(m, lo, len, k) - lo, d);
      DivPos(k % b, 0, m.s);
    } else if !m.compact {
      SamePosition(d, k % b, (k / b) % m.s, m.s);
    }
  }

  lemma BlockCovers(m: Mode, lo: nat, p: nat, d: nat)
    requires m.s > 0 && lo % m.s == 0
    ensures lo + d in BlockOf(m, lo + p) <==> d / m.s == p / m.s
  {
    var j := p / m.s;
    BlockIndex(p, j, m.s);
    BlockIndex(d, j, m.s);
    BlockAligned(m, lo, j);
    StartUnique(lo + j * m.s, lo + p, m.s);
  }

  lemma SamePosition(d: nat, j: nat, o: nat, s: nat)
    requires o < s
    ensures d == j * s + o <==> d / s == j && d % s == o
  {
    DivPos(j, o, s);
    assert d == (d / s) * s + d % s;
  }

  lemma ClosedHitsStep(m: Mode, lo: nat, len: nat, k: nat, d: nat)
    requires Frame(m, lo, len) && Blocks(m, len) > 0 && d < len
    ensures ClosedHits(m, len, k + 1, d) ==
      ClosedHits(m, len, k, d) + if lo + d in SeatAt(m, ClosedTarget(m, lo, len, k)).cpus then 1 else 0
  {
    SeatCovers(m, lo, len, k, d);
    FrameFacts(m, lo, len);
    if !m.compact {
      ScatterHitsStep(m, len, k, d);
    } else if m.perCpu {
      RoundsStep(k, len, d);
    } else {
      CompactHitsStep(m.s, Blocks(m, len), len, k, d);
    }
  }

  lemma ScatterHitsStep(m: Mode, len: nat, k: nat, d: nat)
    requires m.s > 0 && Blocks(m, len) > 0 && d < len && !m.compact && len == Blocks(m, len) * m.s
    ensures var b := Blocks(m, len);
      ClosedHits(m, len, k + 1, d) ==
        ClosedHits(m, len, k, d) + if d / m.s == k % b && (m.perCpu ==> d % m.s == (k / b) % m.s) then 1 else 0
  {
    var b, s := Blocks(m, len), m.s;
    BlockBelow(d, b, s);
    RoundsStep(k, b, d / s);
    if m.perCpu && d / s == k % b { RoundsStep(Rounds(k, b, d / s), s, d % s); }
  }

  lemma BlockBelow(d: nat, b: nat, s: nat)
    requires s > 0 && d < b * s
    ensures d / s < b
  {
    assert d == (d / s) * s + d % s;
    MulApart(d / s, b, s);
  }

  /** At the end of a round every block has had all its turns. */
  lemma LastPosition(s: nat, b: nat, len: nat, j: nat)
    requires len == b * s && j < b
    ensures Clamp(len - j * s, s) == s && Clamp(0 - j * s, s) == 0
  {
    MulLe(j + 1, b, s);
    MulNonNegative(j, s);
  }

  lemma MulNonNegative(j: nat, s: nat)
    ensures (j + 1) * s == j * s + s && j * s >= 0
  {
  }

  lemma CompactHitsStep(s: nat, b: nat, len: nat, k: nat, d: nat)
    requires s > 0 && len == b * s && d < len
    ensures ((k + 1) / len) * s + Clamp((k + 1) % len - (d / s) * s, s) ==
      (k / len) * s + Clamp(k % len - (d / s) * s, s) + if (k % len) / s == d / s then 1 else 0
  {
    DivSucc(k, len);
    ClampStep(k % len, d / s, s);
    if k % len + 1 == len {
      BlockBelow(d, b, s);
      LastPosition(s, b, len, d / s);
      MulSucc(s, k / len);
    }
  }

  lemma NoHits(m: Mode, len: nat, d: nat)
    requires m.s > 0 && len > 0 && Blocks(m, len) > 0 && d < len
    ensures ClosedHits(m, len, 0, d) == 0
  {
    InBlockMod(0, len);
    InBlockMod(0, Blocks(m, len));
    MulNonNegative(d / m.s, m.s);
  }

  lemma {:induction false} HitsClosed(m: Mode, lo: nat, len: nat, k: nat, d: nat)
    requires Frame(m, lo, len) && Blocks(m, len) > 0 && d < len
    ensures Hits(m, lo, len, k, lo + d) == ClosedHits(m, len, k, d)
  {
    if k == 0 {
      NoHits(m, len, d);
    } else {
      HitsClosed(m, lo, len, k - 1, d);
      ClosedHitsStep(m, lo, len, k - 1, d);
    }
  }

  lemma WeightOf(u: int, w: nat, h: int, g: nat)
    requires h == g || h == g + 1
    ensures u + w * h == u + w * g + if h == g then 0 else w
  {
    MulSucc(w, g);
  }

  /** The unclaimed CPUs of a round are loaded alike, except that in each block the first ones carry one thread more. */
  lemma ScatterPattern(m: Mode, lo: nat, len: nat, k: nat, loads: seq<int>, u: int, w: nat, done: nat, full: nat,
        off: nat)
    requires Frame(m, lo, len) && lo + len <= |loads| && Blocks(m, len) > 0 && !m.compact
    requires LoadsAfter(m, lo, len, k, loads, u, w) && done == (k % Blocks(m, len)) * m.s <= len
    requires SoFar(m, len, k, full, off)
    ensures forall d: nat | d < len - done ::
      At(loads, lo + done, d) == u + w * full + if Off(d, m.s) < off then w else 0
  {
    forall d: nat | d < len - done
      ensures At(loads, lo + done, d) == u + w * full + if Off(d, m.s) < off then w else 0
    {
      ScatterLoad(m, lo, len, k, loads, u, w, done, d, full, off);
    }
  }

  lemma ScatterTarget(m: Mode, lo: nat, len: nat, k: nat, loads: seq<int>, u: int, w: nat)
    requires Frame(m, lo, len) && lo + len <= |loads| && Blocks(m, len) > 0 && w > 0 && !m.compact
    requires LoadsAfter(m, lo, len, k, loads, u, w)
    requires Sound(m.s, ClosedClaims(m, lo, len, k), |loads|) && Ready(ClosedClaims(m, lo, len, k))
    ensures Target(m, ClosedClaims(m, lo, len, k), loads) == ClosedTarget(m, lo, len, k)
  {
    var done, full, off := Position(m, lo, len, k);
    ScatterFree(m, lo, len, k);
    ScatterPattern(m, lo, len, k, loads, u, w, done, full, off);
    PatternTarget(m, ClosedClaims(m, lo, len, k), loads, lo + done, len - done, u + w * full, w, off);
  }

  /** Where a scattered round is: past `done` CPUs, at CPU `off` of a block. */
  lemma Position(m: Mode, lo: nat, len: nat, k: nat) returns (done: nat, full: nat, off: nat)
    requires m.s > 0 && len > 0 && Blocks(m, len) > 0 && !m.compact
    ensures done == (k % Blocks(m, len)) * m.s && SoFar(m, len, k, full, off) && off < m.s
    ensures ClosedTarget(m, lo, len, k) == lo + done + off
  {
    var q := k / Blocks(m, len);
    MulNonNegative(k % Blocks(m, len), m.s);
    done := (k % Blocks(m, len)) * m.s;
    if m.perCpu { full, off := q / m.s, q % m.s; } else { full, off := q, 0; }
  }

  /** A scattered group with a free range of whole blocks that repeat that pattern. */
  lemma PatternTarget(m: Mode, c: Claims, loads: seq<int>, a: nat, free: nat, base: int, w: nat, off: nat)
    requires !m.compact && Workable(m.s, c, |loads|) && Free(c) == Block(a, free) && free > 0 && a + free <= |loads|
    requires a % m.s == 0 && free % m.s == 0 && w > 0 && off < m.s
    requires forall d: nat | d < free :: At(loads, a, d) == base + if Off(d, m.s) < off then w else 0
    ensures Target(m, c, loads) == a + off
  {
    FirstOfPattern(loads, a, free, m.s, base, w, off);
  }

  lemma ShiftMod(r: nat, d: nat, s: nat)
    requires s > 0
    ensures (r * s + d) % s == d % s
  {
    assert r * s + d == (r + d / s) * s + d % s;
    DivPos(r + d / s, d % s, s);
  }

  lemma InBlockMod(o: nat, s: nat)
    requires o < s
    ensures o % s == o
  {
  }

  lemma CompactHitsFree(m: Mode, len: nat, k: nat, d: nat)
    requires m.s > 0 && len > 0 && Blocks(m, len) > 0 && m.compact
    requires (k % len) % m.s == 0 && k % len <= d
    ensures ClosedHits(m, len, k, d) == (k / len) * if m.perCpu then 1 else m.s
  {
    var p, s := k % len, m.s;
    assert p == (p / s) * s;
    assert d == (d / s) * s + d % s;
    MulApart(d / s, p / s, s);
  }

  /** At the start of a block all CPUs not yet reached in this round carry the same load. */
  lemma CompactLoads(m: Mode, lo: nat, len: nat, k: nat, loads: seq<int>, u: int, w: nat) returns (base: int)
    requires Frame(m, lo, len) && lo + len <= |loads| && Blocks(m, len) > 0 && m.compact && (k % len) % m.s == 0
    requires LoadsAfter(m, lo, len, k, loads, u, w)
    ensures forall d: nat | d < len - k % len :: At(loads, lo + k % len, d) == base + if Off(d, m.s) < 0 then 1 else 0
  {
    var p, h := k % len, (k / len) * if m.perCpu then 1 else m.s;
    base := u + w * h;
    forall d: nat | d < len - p
      ensures At(loads, lo + p, d) == base + if Off(d, m.s) < 0 then 1 else 0
    {
      HitsClosed(m, lo, len, k, p + d);
      CompactHitsFree(m, len, k, p + d);
      assert At(loads, lo, p + d) == u + w * Hits(m, lo, len, k, lo + p + d);
    }
  }

  lemma CompactTarget(m: Mode, lo: nat, len: nat, k: nat, loads: seq<int>, u: int, w: nat)
    requires Frame(m, lo, len) && lo + len <= |loads| && Blocks(m, len) > 0 && m.compact
    requires LoadsAfter(m, lo, len, k, loads, u, w)
    requires Sound(m.s, ClosedClaims(m, lo, len, k), |loads|) && Ready(ClosedClaims(m, lo, len, k))
    ensures Target(m, ClosedClaims(m, lo, len, k), loads) == ClosedTarget(m, lo, len, k)
  {
    var p, s, free := k % len, m.s, Free(ClosedClaims(m, lo, len, k));
    assert free == Block(lo + p, len - p);
    BlockCard(lo + p, len - p);
    if (len - p) % s != 0 {
      FirstLoose(lo + p, len - p, s);
      MidBlock(lo, len, p, s);
    } else {
      DiffMod(len, len - p, s);
      AddMod(lo, p, s);
      var base := CompactLoads(m, lo, len, k, loads, u, w);
      FirstOfPattern(loads, lo + p, len - p, s, base, 1, 0);
    }
  }

  /** A range that starts inside a block is loose at its start. */
  lemma FirstLoose(a: nat, k: nat, s: nat)
    requires s > 0 && k > 0
    ensures a % s != 0 ==> Loose(Block(a, k), s) != {} && Min(Loose(Block(a, k), s)) == a
  {
    StartFacts(a, s);
    assert a in Block(a, k);
    if a % s != 0 {
      assert Start(a, s) in Block(Start(a, s), s) && Start(a, s) !in Block(a, k);
      assert a in Loose(Block(a, k), s);
    }
  }

  lemma MidBlock(lo: nat, len: nat, p: nat, s: nat)
    requires s > 0 && p <= len && lo % s == 0 && len % s == 0 && (len - p) % s != 0
    ensures (lo + p) % s != 0
  {
    if (lo + p) % s == 0 {
      DiffMod(lo + p, lo, s);
      DiffMod(len, p, s);
      assert false;
    }
  }

  /** Claiming the k-th seat leads to the bookkeeping after k + 1 threads. */
  lemma ClosedStep(m: Mode, lo: nat, len: nat, k: nat)
    requires Frame(m, lo, len) && Blocks(m, len) > 0
    ensures Claim(ClosedClaims(m, lo, len, k), ClaimAt(m, ClosedTarget(m, lo, len, k))) ==
      ClosedClaims(m, lo, len, k + 1)
  {
    var b, s := Blocks(m, len), m.s;
    if m.compact {
      var p := k % len;
      DivSucc(k, len);
      assert Block(lo, p) + {lo + p} == Block(lo, p + 1);
      if p + 1 < len { assert lo + len - 1 !in Block(lo, p + 1); }
    } else {
      var r := k % b;
      var o := if m.perCpu then (k / b) % s else 0;
      FrameFacts(m, lo, len);
      DivSucc(k, b);
      BlockAligned(m, lo, r);
      StartUnique(lo + r * s, lo + r * s + o, s);
      MulSucc(s, r);
      assert Block(lo, r * s) + Block(lo + r * s, s) == Block(lo, (r + 1) * s);
      if r + 1 < b {
        MulApart(r + 1, b, s);
        assert lo + len - 1 !in Block(lo, (r + 1) * s);
      }
    }
  }

  lemma ClosedSound(m: Mode, lo: nat, len: nat, k: nat, n: nat)
    requires Frame(m, lo, len) && Blocks(m, len) > 0 && lo + len <= n && n % m.s == 0
    ensures Sound(m.s, ClosedClaims(m, lo, len, k), n) && Ready(ClosedClaims(m, lo, len, k))
  {
    RangeBlocky(lo, len, m.s);
    if !m.compact { ScatterFree(m, lo, len, k); }
    assert lo + len - 1 in Block(lo, len);
    assert lo + len - 1 in Free(ClosedClaims(m, lo, len, k));
  }

  /** The k-th thread attached to a freshly arranged group whose CPUs were equally loaded. */
  lemma KthPlacement(m: Mode, lo: nat, len: nat, k: nat, loads: seq<int>, u: int, w: nat)
    requires Frame(m, lo, len) && lo + len <= |loads| && |loads| % m.s == 0 && Blocks(m, len) > 0 && w > 0
    requires LoadsAfter(m, lo, len, k, loads, u, w)
    ensures var c := ClosedClaims(m, lo, len, k);
      && Sound(m.s, c, |loads|) && Ready(c)
      && Target(m, c, loads) == ClosedTarget(m, lo, len, k)
      && Claim(c, ClaimAt(m, Target(m, c, loads))) == ClosedClaims(m, lo, len, k + 1)
  {
    ClosedSound(m, lo, len, k, |loads|);
    if m.compact {
      CompactTarget(m, lo, len, k, loads, u, w);
    } else {
      ScatterTarget(m, lo, len, k, loads, u, w);
    }
    ClosedStep(m, lo, len, k);
  }

  /** Adding the k-th thread's load on its CPUs, and any equal load everywhere, prepares the next step. */
  lemma LoadsStep(m: Mode, lo: nat, len: nat, k: nat, loads: seq<int>, loads': seq<int>, u: int, v: int, w: nat)
    requires Frame(m, lo, len) && lo + len <= |loads| && |loads'| == |loads| && Blocks(m, len) > 0
    requires LoadsAfter(m, lo, len, k, loads, u, w)
    requires forall d: nat | d < len ::
               At(loads', lo, d) == At(loads, lo, d) + (v - u) +
                                    if lo + d in SeatAt(m, ClosedTarget(m, lo, len, k)).cpus then w else 0
    ensures LoadsAfter(m, lo, len, k + 1, loads', v, w)
  {
    forall d: nat | d < len
      ensures At(loads', lo, d) == v + w * Hits(m, lo, len, k + 1, lo + d)
    {
      assert At(loads, lo, d) == u + w * Hits(m, lo, len, k, lo + d);
      MulSucc(w, Hits(m, lo, len, k, lo + d));
    }
  }
}
