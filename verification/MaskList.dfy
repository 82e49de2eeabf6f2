/** `list_to_mask` of `lib/threads.c`, on the same lists. */
module MaskList {
  import opened CpuSet
  import opened Topology
  import opened Counter
  import opened CpuList

  const INT: nat := 0x8000_0000
  const RANGE_ERROR: int := 34

  // -------- what it does with an item --------

  /** Some number is too long for `strtoul`, which then sets `errno`. */
  predicate TooLong(x: Item) requires IsItem(x) { First(x) >= ULONG || Last(x) >= ULONG || Stride(x) >= ULONG }

  /** The checks it makes on an item, for a machine of `n` CPUs. */
  predicate Fits(x: Item, n: nat)
    requires IsItem(x)
  {
    !TooLong(x) && Last(x) < n && Stride(x) < n / 2
  }

  /** In numbers: all have 64 bits, the last is a CPU of the machine, and two strides and two more CPUs fit on it. */
  lemma AcceptedIff(x: Item, n: nat)
    requires IsItem(x)
    ensures Fits(x, n) <==>
      First(x) < ULONG && Last(x) < ULONG && Stride(x) < ULONG && Last(x) < n && 2 * Stride(x) + 2 <= n
  {
  }

  /** An `unsigned long` stored in an `int`. */
  function IntOf(d: nat): int { if d % UINT < INT then d % UINT else d % UINT - UINT }

  /** An `int` compared with an `unsigned long`. */
  function AsUlong(i: int): int { if i >= 0 then i else i + ULONG }

  /** The CPUs the loop over an item marks, if it ends. */
  function RangeMarks(start: nat, end: nat, stride: nat): set<nat> {
    if 0 <= IntOf(start) <= end && stride > 0 then Members(IntOf(start), end, stride) else {}
  }

  /** What the loop compares with the item's last number after `k` steps. */
  function LoopAt(x: Item, k: nat): int requires IsItem(x) { AsUlong(IntOf(First(x)) + k * Stride(x)) }

  /** The loop never ends: it never gets past the last number. */
  ghost predicate NeverEnds(x: Item) requires IsItem(x) { forall k: nat :: LoopAt(x, k) <= Last(x) }

  /** What a caller can check: the stride is 0, and the first number, cut to an `int`, is in the range. */
  predicate Stalls(x: Item) requires IsItem(x) { Stride(x) == 0 && 0 <= IntOf(First(x)) <= Last(x) }

  /** The loop over an accepted item never ends if and only if that is so. */
  lemma NeverEndsIff(x: Item, n: nat)
    requires IsItem(x) && Fits(x, n) && n <= CPU_SETSIZE
    ensures NeverEnds(x) <==> Stalls(x)
  {
    var a, b, s := IntOf(First(x)), Last(x), Stride(x);
    assert LoopAt(x, 0) == AsUlong(a);
    if s == 0 {
      assert forall k: nat :: k * s == 0;
    } else if 0 <= a {
      Passes(b + 1, s);
      assert LoopAt(x, b + 1) > b;
    }
  }

  lemma Passes(k: nat, s: nat)
    requires s > 0
    ensures k * s >= k
  {
  }

  function ItemMarks(x: Item): set<nat> requires IsItem(x) { RangeMarks(First(x), Last(x), Stride(x)) }

  /** An accepted item with a stride marks its members, as far as the mask has room, if and only if its first number
      has 32 bits or is cut to one past the range or past the mask. */
  lemma MarksExact(x: Item, n: nat, size: nat)
    requires IsItem(x) && Fits(x, n) && Stride(x) > 0 && n <= CPU_SETSIZE
    ensures Below(ItemMarks(x), size) == Below(Members(First(x), Last(x), Stride(x)), size) <==>
            First(x) < UINT || First(x) % UINT > Last(x) || First(x) % UINT >= size
  {
    var a, c := First(x), First(x) % UINT;
    if a < UINT {
      DivModUnique(a, UINT, 0, a);
    } else if c <= Last(x) {
      assert c in Members(c, Last(x), Stride(x));
      assert c < size ==> c in Below(ItemMarks(x), size);
    }
  }

  lemma SmallNumbers()
    ensures IsNumber("0") && Dec("0") == 0 && IsNumber("3") && Dec("3") == 3 && IsNumber("5") && Dec("5") == 5
  {
    DecNext("", '0');
    DecNext("", '3');
    DecNext("", '5');
    assert "" + ['0'] == "0" && "" + ['3'] == "3" && "" + ['5'] == "5";
  }

  /** `0-3:0` passes the checks on every machine with at least four CPUs and never ends. */
  lemma ZeroStrideStalls(n: nat)
    requires n >= 4
    ensures var x := Strided("0", "3", "0"); IsItem(x) && Fits(x, n) && Stalls(x) && NeverEnds(x)
  {
    SmallNumbers();
    DivModUnique(0, UINT, 0, 0);
    NeverEndsIff(Strided("0", "3", "0"), 4);
  }

  /** `4294967296-3` passes the checks there too and marks CPUs 0 to 3, though it means no CPU. */
  lemma CutMarksFour(n: nat, size: nat)
    requires n >= 4 && size >= 4
    ensures var x := Range("4294967296", "3");
      && IsItem(x) && Fits(x, n) && !NeverEnds(x)
      && Below(ItemMarks(x), size) == Block(0, 4) && Members(First(x), Last(x), Stride(x)) == {}
  {
    var x := Range("4294967296", "3");
    SmallNumbers();
    Decimals();
    DivModUnique(UINT, UINT, 1, 0);
    NeverEndsIff(x, 4);
    assert Members(0, 3, 1) == Block(0, 4);
  }

  // -------- reading --------

  /** `strtoul` on digits: the greatest value and an error when there are too many. */
  function Strtoul(s: string): (nat, string, bool) {
    var d := Dec(s[..Span(s)]);
    (if d < ULONG then d else ULONG - 1, s[Span(s)..], d >= ULONG)
  }

  /** What the numbers are read as. */
  function Value(d: nat): nat { if d < ULONG then d else ULONG - 1 }

  /** The reading part of the loop body. */
  method ReadRange(s: string, ghost x: Item, ghost rest: string)
    returns (start: nat, end: nat, stride: nat, s': string, error: bool)
    requires IsItem(x) && IsRest(rest) && s == Text(x) + rest
    ensures start == Value(First(x)) && end == Value(Last(x)) && stride == Value(Stride(x)) && s' == rest
    ensures error == TooLong(x)
  {
    TailStarts(x, rest);
    TextTail(x, rest);
    SpanIs(x.a, Tail(x) + rest);
    var r := Strtoul(s);
    start, end, stride, s', error := r.0, r.0, 1, r.1, r.2;
    if s' != "" && s'[0] == '-' {
      var more;
      end, stride, s', more := ReadEnd(s'[1..], x, rest);
      error := error || more;
    }
  }

  method ReadEnd(s: string, ghost x: Item, ghost rest: string) returns (end: nat, stride: nat, s': string, error: bool)
    requires IsItem(x) && !x.One? && IsRest(rest) && s == x.b + (Tail2(x) + rest)
    ensures end == Value(Last(x)) && stride == Value(Stride(x)) && s' == rest
    ensures error <==> Last(x) >= ULONG || Stride(x) >= ULONG
  {
    Tail2Starts(x, rest);
    SpanIs(x.b, Tail2(x) + rest);
    var r := Strtoul(s);
    end, stride, s', error := r.0, 1, r.1, r.2;
    if s' != "" && s'[0] == ':' {
      SpanIs(x.s, rest);
      r := Strtoul(s'[1..]);
      stride, s', error := r.0, r.1, error || r.2;
    }
  }

  // -------- marking --------

  /** The loop over one range. */
  method MarkAll(mask: set<nat>, start: nat, end: nat, stride: nat, size: nat) returns (mask': set<nat>)
    requires end < CPU_SETSIZE && stride < CPU_SETSIZE && (0 <= IntOf(start) <= end ==> stride > 0)
    ensures mask' == mask + Below(RangeMarks(start, end, stride), size)
  {
    var i := IntOf(start);
    mask' := mask;
    ghost var a := i;
    while AsUlong(i) <= end
      invariant 0 <= a <= end ==> Hit(a, i, stride) && i < INT
      invariant !(0 <= a <= end) ==> i == a
      invariant mask' == mask + MarkedTo(RangeMarks(start, end, stride), i, size)
      decreases if 0 <= a <= end then end + stride - i else 0
    {
      OneMore(a, end, stride, i, size);
      mask' := SetCpu(mask', i, size);
      i := i + stride;
    }
  }

  /** The marks below `i` that the mask has room for. */
  ghost function MarkedTo(x: set<nat>, i: int, size: nat): set<nat> { set c | c in x && c < i && c < size }

  lemma OneMore(a: nat, end: nat, stride: nat, i: nat, size: nat)
    requires stride > 0 && Hit(a, i, stride) && i <= end
    ensures Hit(a, i + stride, stride)
    ensures MarkedTo(Members(a, end, stride), i + stride, size) ==
      SetCpu(MarkedTo(Members(a, end, stride), i, size), i, size)
  {
    HitNext(a, i, stride);
    assert i in Members(a, end, stride);
  }

  // -------- whole lists --------

  /** The index of the first item that is refused, or the number of items. */
  function Bad(xs: seq<Item>, n: nat): (k: nat)
    requires forall i | 0 <= i < |xs| :: IsItem(xs[i])
    ensures k <= |xs| && (forall i | 0 <= i < k :: Fits(xs[i], n)) && (k < |xs| ==> !Fits(xs[k], n))
  {
    BadFrom(xs, n, 0)
  }

  function BadFrom(xs: seq<Item>, n: nat, k: nat): (r: nat)
    requires k <= |xs| && forall i | 0 <= i < |xs| :: IsItem(xs[i])
    ensures k <= r <= |xs| && (forall i | k <= i < r :: Fits(xs[i], n)) && (r < |xs| ==> !Fits(xs[r], n))
    decreases |xs| - k
  {
    if k == |xs| || !Fits(xs[k], n) then k else BadFrom(xs, n, k + 1)
  }

  function AllMarks(xs: seq<Item>): set<nat>
    requires forall i | 0 <= i < |xs| :: IsItem(xs[i])
  {
    if xs == [] then {} else AllMarks(xs[..|xs| - 1]) + ItemMarks(xs[|xs| - 1])
  }

  lemma MarksNext(xs: seq<Item>, k: nat, size: nat)
    requires k < |xs| && forall i | 0 <= i < |xs| :: IsItem(xs[i])
    ensures Below(AllMarks(xs[..k + 1]), size) == Below(AllMarks(xs[..k]), size) + Below(ItemMarks(xs[k]), size)
  {
    assert xs[..k + 1][..k] == xs[..k];
  }

  /** The check and the loop over the range of one item. */
  method TryItem(mask: set<nat>, start: nat, end: nat, stride: nat, stray: bool, error: bool, n: nat, size: nat,
        ghost x: Item) returns (good: bool, mask': set<nat>)
    requires IsItem(x) && n <= CPU_SETSIZE && (Fits(x, n) ==> !Stalls(x))
    requires start == Value(First(x)) && end == Value(Last(x)) && stride == Value(Stride(x)) && error == TooLong(x)
    requires !stray
    ensures good == Fits(x, n) && mask' == if good then mask + Below(ItemMarks(x), size) else mask
  {
    if stray || stride >= n / 2 || error || end >= n { return false, mask; }
    mask' := MarkAll(mask, start, end, stride, size);
    good := true;
  }

  lemma AfterFacts(xs: seq<Item>, k: nat)
    requires k <= |xs|
    ensures After(xs, k) == "" <==> k == |xs|
    ensures k < |xs| ==> After(xs, k)[1..] == Render(xs[k..])
  {
  }

  /** Item `k` is one of those that are accepted, and then does not stall. */
  lemma BadFacts(xs: seq<Item>, n: nat, k: nat)
    requires (forall i | 0 <= i < |xs| :: IsItem(xs[i])) && k < |xs| && k <= Bad(xs, n)
    ensures Fits(xs[k], n) <==> k < Bad(xs, n)
  {
  }

  /** The loop body: read one item, check it and mark its range. */
  method MarkItem(s: string, mask: set<nat>, n: nat, size: nat, ghost xs: seq<Item>, ghost k: nat)
    returns (good: bool, error: bool, mask': set<nat>, s': string)
    requires k < |xs| && (forall i | 0 <= i < |xs| :: IsItem(xs[i])) && n <= CPU_SETSIZE
    requires Fits(xs[k], n) ==> !Stalls(xs[k])
    requires s == Render(xs[k..]) && mask == Below(AllMarks(xs[..k]), size)
    ensures good == Fits(xs[k], n) && error == TooLong(xs[k]) && s' == After(xs, k + 1)
    ensures if good then mask' == Below(AllMarks(xs[..k + 1]), size) else mask' == mask
  {
    RenderSplit(xs, k);
    MarksNext(xs, k, size);
    var start, end, stride;
    start, end, stride, s', error := ReadRange(s, xs[k], After(xs, k + 1));
    good, mask' := TryItem(mask, start, end, stride, s' != "" && s'[0] != ',', error, n, size, xs[k]);
  }

  /** What the caller sees: an error only for a number that is too long. */
  function Returned(xs: seq<Item>, n: nat): int
    requires forall i | 0 <= i < |xs| :: IsItem(xs[i])
  {
    if Bad(xs, n) < |xs| && TooLong(xs[Bad(xs, n)]) then -RANGE_ERROR else 0
  }

  /** `0-5` is refused on machines with at most five CPUs, and reported as if it had been accepted. */
  lemma RefusedSilently(n: nat)
    requires n <= 5
    ensures var xs := [Range("0", "5")];
      && IsItem(xs[0]) && !Fits(xs[0], n) && Bad(xs, n) == 0 && Returned(xs, n) == 0
      && AllMarks(xs[..Bad(xs, n)]) == {} && Members(First(xs[0]), Last(xs[0]), Stride(xs[0])) == Block(0, 6)
  {
    SmallNumbers();
    assert Members(0, 5, 1) == Block(0, 6);
  }

  /** One round: mark an item, and go on behind it unless it was refused or the last. */
  method NextItem(s: string, mask: set<nat>, n: nat, size: nat, ghost xs: seq<Item>, ghost k: nat)
    returns (more: bool, ret: int, mask': set<nat>, s': string)
    requires k < |xs| && (forall i | 0 <= i < |xs| :: IsItem(xs[i])) && n <= CPU_SETSIZE && k <= Bad(xs, n)
    requires forall i | 0 <= i < Bad(xs, n) :: !Stalls(xs[i])
    requires s == Render(xs[k..]) && mask == Below(AllMarks(xs[..k]), size)
    ensures more ==> k + 1 < |xs| && k + 1 <= Bad(xs, n)
    ensures more ==> s' == Render(xs[k + 1..]) && mask' == Below(AllMarks(xs[..k + 1]), size)
    ensures !more ==> mask' == Below(AllMarks(xs[..Bad(xs, n)]), size) && ret == Returned(xs, n)
  {
    BadFacts(xs, n, k);
    AfterFacts(xs, k + 1);
    var good, error;
    good, error, mask', s' := MarkItem(s, mask, n, size, xs, k);
    more, ret := good && s' != "", if !good && error then -RANGE_ERROR else 0;
    if more {
      s' := s'[1..];
    } else {
      assert Bad(xs, n) == if good then k + 1 else k;
    }
  }

  /** `list_to_mask` on the text of a list none of whose accepted items stalls it.  It stops at the first item it
      refuses; the mask then holds the items before, and the caller sees an error only if a number was too long. */
  method ListToMask(str: string, n: nat, size: nat, ghost xs: seq<Item>) returns (ret: int, mask: set<nat>)
    requires xs != [] && str == Render(xs) && (forall i | 0 <= i < |xs| :: IsItem(xs[i])) && n <= CPU_SETSIZE
    requires forall i | 0 <= i < Bad(xs, n) :: !Stalls(xs[i])
    ensures mask == Below(AllMarks(xs[..Bad(xs, n)]), size)
    ensures ret == Returned(xs, n)
  {
    ret, mask := 0, {};
    var s, more := str, true;
    ghost var k := 0;
    assert xs[0..] == xs;
    while more
      invariant more ==> k < |xs| && k <= Bad(xs, n) && s == Render(xs[k..]) && mask == Below(AllMarks(xs[..k]), size)
      invariant !more ==> mask == Below(AllMarks(xs[..Bad(xs, n)]), size) && ret == Returned(xs, n)
      decreases more, |xs| - k
    {
      more, ret, mask, s := NextItem(s, mask, n, size, xs, k);
      k := k + 1;
    }
  }

  /** Both parsers accept every list of ranges of the machine's CPUs and give their union. */
  method BothParsers(str: string, n: nat, max: nat, ghost xs: seq<Item>)
    returns (ret: int, cpus: set<nat>, ret': int, mask: set<nat>)
    requires xs != [] && str == Render(xs) && Sane(xs, |xs|) && n <= max && n <= CPU_SETSIZE
    requires forall i | 0 <= i < |xs| :: Fits(xs[i], n) && First(xs[i]) <= Last(xs[i])
    ensures ret == ret' == 0 && cpus == mask == Union(xs)
  {
    OrdinaryList(xs, n, max);
    assert xs[..|xs|] == xs;
    ret, cpus := Parse(str, max, false, xs);
    ret', mask := ListToMask(str, n, max, xs);
  }

  lemma OrdinaryItem(x: Item, n: nat, max: nat)
    requires IsItem(x) && Fits(x, n) && Stride(x) > 0 && First(x) <= Last(x) && n <= max && n <= CPU_SETSIZE
    ensures !Stalls(x)
    ensures ItemMarks(x) == Members(First(x), Last(x), Stride(x)) == Below(Members(First(x), Last(x), Stride(x)), max)
    ensures Does(x, max, false) == Mark(Members(First(x), Last(x), Stride(x)))
  {
    DivModUnique(First(x), UINT, 0, First(x));
    TopFacts(First(x), Last(x), Stride(x));
    ShortExact(x, max, false);
  }

  lemma {:induction false} OrdinaryList(xs: seq<Item>, n: nat, max: nat)
    requires Sane(xs, |xs|) && n <= max && n <= CPU_SETSIZE
    requires forall i | 0 <= i < |xs| :: Fits(xs[i], n) && First(xs[i]) <= Last(xs[i])
    ensures Bad(xs, n) == |xs| && AllMarks(xs) == Union(xs) == Below(Union(xs), max)
    ensures AllDo(xs, max, false) == Mark(Union(xs))
    ensures forall i | 0 <= i < |xs| :: !Stalls(xs[i])
  {
    if xs != [] {
      OrdinaryList(xs[..|xs| - 1], n, max);
      OrdinaryItem(xs[|xs| - 1], n, max);
    }
  }
}
