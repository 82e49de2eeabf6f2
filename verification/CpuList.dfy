/** CPU lists and the parser `cpulist_parse` of `lib/topo.c`.

    A `char *` into the list is the text from there to the end; of two such pointers the one with the
    longer text comes first. */
module CpuList {
  import opened CpuSet
  import opened Library
  import opened Counter

  const ULONG: nat := 0x1_0000_0000_0000_0000

  // -------- lists and what they mean --------

  /** `a`, `a-b` or `a-b:s`, each number a non-empty string of digits. */
  datatype Item = One(a: string) | Range(a: string, b: string) | Strided(a: string, b: string, s: string)

  predicate IsDigit(ch: char) { '0' <= ch <= '9' }

  predicate IsNumber(d: string) { d != "" && forall i | 0 <= i < |d| :: IsDigit(d[i]) }

  predicate IsItem(x: Item) {
    && IsNumber(x.a)
    && (x.One? || IsNumber(x.b))
    && (x.Strided? ==> IsNumber(x.s))
  }

  function Text(x: Item): string {
    match x
    case One(a) => a
    case Range(a, b) => a + ("-" + b)
    case Strided(a, b, s) => a + ("-" + (b + (":" + s)))
  }

  /** The items separated by commas. */
  function Render(xs: seq<Item>): string {
    if xs == [] then "" else Text(xs[0]) + if |xs| == 1 then "" else "," + Render(xs[1..])
  }

  function Dec(d: string): nat
    requires forall i | 0 <= i < |d| :: IsDigit(d[i])
  {
    if d == "" then 0 else assert IsDigit(d[|d| - 1]); 10 * Dec(d[..|d| - 1]) + (d[|d| - 1] as int - '0' as int)
  }

  function First(x: Item): nat requires IsItem(x) { Dec(x.a) }
  function Last(x: Item): nat requires IsItem(x) { if x.One? then Dec(x.a) else Dec(x.b) }
  function Stride(x: Item): nat requires IsItem(x) { if x.Strided? then Dec(x.s) else 1 }

  /** Every `s`-th CPU from `a` to `b`. */
  function Members(a: nat, b: nat, s: nat): set<nat>
    requires s > 0
  {
    set c: nat | a <= c <= b && Hit(a, c, s)
  }

  predicate Hit(a: nat, c: nat, s: nat)
    requires s > 0
  {
    c >= a && (c - a) % s == 0
  }

  ghost function Union(xs: seq<Item>): set<nat>
    requires forall i | 0 <= i < |xs| :: IsItem(xs[i]) && Stride(xs[i]) > 0
  {
    if xs == [] then {} else Union(xs[..|xs| - 1]) + var x := xs[|xs| - 1]; Members(First(x), Last(x), Stride(x))
  }

  // -------- the C library's part --------

  /** How many characters from the start are digits. */
  function Span(s: string): (n: nat)
    ensures n <= |s| && (forall i | 0 <= i < n :: IsDigit(s[i])) && (n < |s| ==> !IsDigit(s[n]))
  {
    if s == "" || !IsDigit(s[0]) then 0 else 1 + Span(s[1..])
  }

  /** `strchr` and one step further, or null. */
  function NextToken(q: Option<string>, sep: char): Option<string>
    decreases if q.Some? then |q.value| else 0
  {
    if q.None? || q.value == "" then None
    else if q.value[0] == sep then Some(q.value[1..])
    else NextToken(Some(q.value[1..]), sep)
  }

  datatype Number = Bad | Good(value: nat, end: string)

  /** `nextnumber`: `strtoul` on a text that starts with a digit, cut to 32 bits. */
  function NextNumber(s: string): Number {
    if Span(s) == 0 || Dec(s[..Span(s)]) >= ULONG then Bad
    else Good(Dec(s[..Span(s)]) % UINT, s[Span(s)..])
  }

  lemma {:induction false} SpanIs(d: string, t: string)
    requires (forall i | 0 <= i < |d| :: IsDigit(d[i])) && (t != "" ==> !IsDigit(t[0]))
    ensures Span(d + t) == |d| && (d + t)[..|d|] == d && (d + t)[|d|..] == t
  {
    if d == "" {
      assert d + t == t;
    } else {
      assert (d + t)[1..] == d[1..] + t;
      SpanIs(d[1..], t);
    }
  }

  /** Reading a number that ends where `t` starts. */
  lemma NumberIs(d: string, t: string)
    requires IsNumber(d) && (t != "" ==> !IsDigit(t[0]))
    ensures NextNumber(d + t) == if Dec(d) >= ULONG then Bad else Good(Dec(d) % UINT, t)
  {
    SpanIs(d, t);
  }

  /** A number is read as it is written if and only if it has 32 bits. */
  lemma NumberExact(d: string, t: string)
    requires IsNumber(d) && (t != "" ==> !IsDigit(t[0]))
    ensures NextNumber(d + t) == Good(Dec(d), t) <==> Dec(d) < UINT
  {
    NumberIs(d, t);
  }

  /** A separator is found past any text without it. */
  lemma {:induction false} TokenAfter(d: string, t: string, sep: char)
    requires sep !in d
    ensures NextToken(Some(d + t), sep) == NextToken(Some(t), sep)
  {
    if d == "" {
      assert d + t == t;
    } else {
      assert (d + t)[1..] == d[1..] + t && d[0] in d;
      TokenAfter(d[1..], t, sep);
    }
  }

  lemma {:induction false} TokenShorter(t: string, sep: char)
    ensures NextToken(Some(t), sep).Some? ==> |NextToken(Some(t), sep).value| < |t|
  {
    if t != "" && t[0] != sep { TokenShorter(t[1..], sep); }
  }

  // -------- one item --------

  /** `rest` is what follows an item: nothing, or a comma and the other items. */
  predicate IsRest(rest: string) { rest == "" || rest[0] == ',' }

  /** The pointer comparison of the C code: `c1` is there and before `c2`. */
  predicate Before(c1: Option<string>, c2: Option<string>) {
    c1.Some? && (c2.None? || |c1.value| > |c2.value|)
  }

  /** What the item's text says from each of its numbers on. */
  lemma NotAhead(rest: string, sep: char)
    requires IsRest(rest) && sep != ','
    ensures !Before(if rest == "" then None else NextToken(Some(rest), sep), NextToken(Some(rest), ','))
    ensures !Before(NextToken(Some(rest), sep), NextToken(Some(rest), ','))
  {
    if rest != "" { TokenShorter(rest[1..], sep); }
  }

  lemma NoDigits(d: string, sep: char)
    requires IsNumber(d) && !IsDigit(sep)
    ensures sep !in d
  {
  }

  /** A separator right before a number comes before the comma that ends the item. */
  lemma Ahead(sep: char, d: string, more: string, rest: string)
    requires sep != ',' && ',' !in d && ',' !in more && IsRest(rest)
    ensures var t := [sep] + (d + (more + rest));
      && NextToken(Some(t), sep) == Some(d + (more + rest))
      && NextToken(Some(t), ',') == NextToken(Some(rest), ',')
      && Before(NextToken(Some(t), sep), NextToken(Some(rest), ','))
  {
    var t := [sep] + (d + (more + rest));
    assert t[1..] == d + (more + rest);
    TokenAfter(d, more + rest, ',');
    TokenAfter(more, rest, ',');
    if rest != "" { assert NextToken(Some(rest), ',') == Some(rest[1..]); }
  }

  /** `strtoul` can read the numbers. */
  predicate Readable(x: Item) requires IsItem(x) { First(x) < ULONG && Last(x) < ULONG && Stride(x) < ULONG }

  function CutFirst(x: Item): nat requires IsItem(x) { First(x) % UINT }
  function CutLast(x: Item): nat requires IsItem(x) { Last(x) % UINT }
  function CutStride(x: Item): nat requires IsItem(x) { Stride(x) % UINT }

  lemma FirstNumber(x: Item, rest: string)
    requires IsItem(x) && IsRest(rest)
    ensures NextNumber(Text(x) + rest) == if First(x) >= ULONG then Bad else Good(CutFirst(x), Tail(x) + rest)
  {
    TextTail(x, rest);
    TailStarts(x, rest);
    NumberIs(x.a, Tail(x) + rest);
  }

  /** The part of the loop body of `cpulist_parse` that reads one item. */
  method ReadItem(p: string, ghost x: Item, ghost rest: string) returns (ok: bool, a: nat, b: nat, s: nat, end: string)
    requires IsItem(x) && IsRest(rest) && p == Text(x) + rest
    ensures ok <==> Readable(x) && CutStride(x) > 0
    ensures ok ==> a == CutFirst(x) && b == CutLast(x) && s == CutStride(x) && end == rest
  {
    FirstNumber(x, rest);
    var num := NextNumber(p);
    if num.Bad? { return false, 0, 0, 1, p; }
    a, b, s, end := num.value, num.value, 1, num.end;
    ok, b, s, end := ReadMore(end, num.value, x, rest);
  }

  /** The item's second number and stride, if it has them. */
  method ReadMore(p: string, a: nat, ghost x: Item, ghost rest: string) returns (ok: bool, b: nat, s: nat, end: string)
    requires IsItem(x) && IsRest(rest) && p == Tail(x) + rest && a == CutFirst(x)
    ensures ok <==> (x.One? || Last(x) < ULONG) && Stride(x) < ULONG && CutStride(x) > 0
    ensures ok ==> b == CutLast(x) && s == CutStride(x) && end == rest
  {
    var c1, c2 := NextToken(Some(p), '-'), NextToken(Some(p), ',');
    DashAhead(x, rest);
    if Before(c1, c2) {
      ok, b, s, end := ReadSecond(c1.value, c2, x, rest);
    } else {
      assert Tail(x) + rest == rest;
      ok, b, s, end := true, a, 1, p;
    }
  }

  /** The second number of an item and its stride. */
  method ReadSecond(p: string, c2: Option<string>, ghost x: Item, ghost rest: string)
    returns (ok: bool, b: nat, s: nat, end: string)
    requires IsItem(x) && !x.One? && IsRest(rest) && p == x.b + (Tail2(x) + rest) && c2 == NextToken(Some(rest), ',')
    ensures ok <==> Last(x) < ULONG && Stride(x) < ULONG && CutStride(x) > 0
    ensures ok ==> b == CutLast(x) && s == CutStride(x) && end == rest
  {
    Tail2Starts(x, rest);
    NumberIs(x.b, Tail2(x) + rest);
    b, s, end := 0, 1, p;
    var num := NextNumber(p);
    if num.Bad? { return false, b, s, end; }
    b, end := num.value, num.end;
    var c1 := if end != "" then NextToken(Some(end), ':') else None;
    ColonAhead(x, rest);
    if Before(c1, c2) {
      NumberIs(x.s, rest);
      num := NextNumber(c1.value);
      if num.Bad? { return false, b, s, end; }
      s, end := num.value, num.end;
      if s == 0 { return false, b, s, end; }
    }
    ok := true;
  }

  /** What follows the first number of an item, and the second. */
  function Tail(x: Item): string { if x.One? then "" else "-" + (x.b + Tail2(x)) }
  function Tail2(x: Item): string { if x.Strided? then ":" + x.s else "" }

  lemma TextTail(x: Item, rest: string)
    ensures Text(x) + rest == x.a + (Tail(x) + rest)
  {
  }

  lemma Glue(a: string, b: string, c: string)
    requires a != ""
    ensures (a + b) + c == a + (b + c) && (a + (b + c))[0] == a[0] && (|a| == 1 ==> (a + (b + c))[1..] == b + c)
  {
  }

  /** What follows the first and the second number. */
  lemma TailStarts(x: Item, rest: string)
    requires IsItem(x) && IsRest(rest)
    ensures var t := Tail(x) + rest;
      && (t != "" && t[0] == '-' <==> !x.One?) && (t != "" ==> !IsDigit(t[0]))
      && if x.One? then t == rest else t[1..] == x.b + (Tail2(x) + rest)
  {
    if x.One? { assert Tail(x) + rest == rest; } else { Glue("-", x.b + Tail2(x), rest); Glue(x.b, Tail2(x), rest); }
  }

  lemma Tail2Starts(x: Item, rest: string)
    requires IsItem(x) && IsRest(rest)
    ensures var t := Tail2(x) + rest;
      && (t != "" && t[0] == ':' <==> x.Strided?) && (t != "" ==> !IsDigit(t[0]))
      && if x.Strided? then t[1..] == x.s + rest else t == rest
  {
    if x.Strided? { Glue(":", x.s, rest); } else { assert Tail2(x) + rest == rest; }
  }

  /** The dash is ahead of the comma exactly in items with a second number. */
  lemma DashAhead(x: Item, rest: string)
    requires IsItem(x) && IsRest(rest)
    ensures var t := Tail(x) + rest;
      var c1, c2 := NextToken(Some(t), '-'), NextToken(Some(t), ',');
      && c2 == NextToken(Some(rest), ',')
      && (Before(c1, c2) <==> !x.One?)
      && (!x.One? ==> c1 == Some(x.b + (Tail2(x) + rest)))
  {
    if x.One? {
      assert Tail(x) + rest == rest;
      NotAhead(rest, '-');
    } else {
      NoDigits(x.b, ',');
      if x.Strided? { NoDigits(x.s, ','); }
      Ahead('-', x.b, Tail2(x), rest);
      assert Tail(x) + rest == "-" + (x.b + (Tail2(x) + rest));
    }
  }

  /** The colon is ahead of the comma exactly in items with a stride. */
  lemma ColonAhead(x: Item, rest: string)
    requires IsItem(x) && IsRest(rest)
    ensures var t := Tail2(x) + rest;
      var c1 := if t != "" then NextToken(Some(t), ':') else None;
      && (Before(c1, NextToken(Some(rest), ',')) <==> x.Strided?)
      && (x.Strided? ==> c1 == Some(x.s + rest))
  {
    if x.Strided? {
      NoDigits(x.s, ',');
      Ahead(':', x.s, "", rest);
      assert "" + rest == rest && Tail2(x) + rest == ":" + (x.s + rest);
    } else {
      assert Tail2(x) + rest == rest;
      NotAhead(rest, ':');
    }
  }

  // -------- marking one range --------

  lemma HitNext(a: nat, x: nat, s: nat)
    requires s > 0 && Hit(a, x, s)
    ensures Hit(a, x + s, s) && forall c: nat | x < c < x + s :: !Hit(a, c, s)
  {
    AddMod(x - a, s, s);
    forall c: nat | x < c < x + s
      ensures !Hit(a, c, s)
    {
      if Hit(a, c, s) { MultiplesApart(c - a, x - a, s); }
    }
  }

  ghost predicate Exceeds(a: nat, b: nat, s: nat, max: nat)
    requires s > 0
  {
    exists c: nat :: c in Members(a, b, s) && c >= max
  }

  /** `CPU_SET_S` ignores CPUs the set has no room for. */
  function SetCpu(x: set<nat>, c: nat, max: nat): set<nat> { if c < max then x + {c} else x }

  ghost function Below(x: set<nat>, max: nat): set<nat> { set c | c in x && c < max }

  /** The inner loop goes on while the counter is below this. */
  function Stop(b: nat, max: nat, fail: bool): nat { if fail && max <= b then max else b + 1 }

  /** The values below `max` that the counter has in its first `e` steps. */
  ghost function Visited(a: nat, s: nat, e: nat, max: nat): set<nat> {
    set k: nat | k < e && At(a, s, k) < max :: At(a, s, k)
  }

  lemma VisitedNext(a: nat, s: nat, k: nat, max: nat)
    ensures Visited(a, s, k + 1, max) == SetCpu(Visited(a, s, k, max), At(a, s, k), max)
  {
  }

  /** The inner loop of `cpulist_parse`, on a 32-bit counter. */
  method MarkRange(cpus: set<nat>, a: nat, b: nat, s: nat, max: nat, fail: bool) returns (over: bool, cpus': set<nat>)
    requires a < UINT && Ends(a, s, Stop(b, max, fail))
    ensures var e := Exit(a, s, Stop(b, max, fail));
      over == (At(a, s, e) <= b) && cpus' == cpus + Visited(a, s, e, max)
  {
    ghost var e, k := Exit(a, s, Stop(b, max, fail)), 0;
    var x := a;
    cpus' := cpus;
    while x <= b
      invariant k <= e && x == At(a, s, k) && cpus' == cpus + Visited(a, s, k, max)
      decreases e - k
    {
      if fail && x >= max { return true, cpus'; }
      VisitedNext(a, s, k, max);
      AtNext(a, s, k);
      cpus' := SetCpu(cpus', x, max);
      x := (x + s) % UINT;
      k := k + 1;
    }
    over := false;
  }

  // -------- what an item makes the parser do --------

  /** Run forever, give up with a code, or mark CPUs and go on. */
  datatype Deed = Hang | Refuse(code: nat) | Mark(cpus: set<nat>)

  /** What the inner loop does. */
  ghost function RangeDoes(a: nat, b: nat, s: nat, max: nat, fail: bool): Deed {
    var stop := Stop(b, max, fail);
    if !Ends(a, s, stop) then Hang
    else
      var e := Exit(a, s, stop);
      if At(a, s, e) <= b then Refuse(2) else Mark(Visited(a, s, e, max))
  }

  ghost function Does(x: Item, max: nat, fail: bool): Deed
    requires IsItem(x)
  {
    if !Readable(x) || CutStride(x) == 0 || CutFirst(x) > CutLast(x) then Refuse(1)
    else RangeDoes(CutFirst(x), CutLast(x), CutStride(x), max, fail)
  }

  /** What it should do. */
  ghost function RangeMeans(a: nat, b: nat, s: nat, max: nat, fail: bool): Deed
    requires s > 0
  {
    if fail && Exceeds(a, b, s, max) then Refuse(2) else Mark(Below(Members(a, b, s), max))
  }

  ghost function Means(x: Item, max: nat, fail: bool): Deed
    requires IsItem(x)
  {
    if Stride(x) == 0 || First(x) > Last(x) then Refuse(1)
    else RangeMeans(First(x), Last(x), Stride(x), max, fail)
  }

  // -------- when it does --------

  /** How many members a range has, and the greatest of them. */
  function Count(a: nat, b: nat, s: nat): nat
    requires s > 0 && a <= b
  {
    (b - a) / s + 1
  }

  function Top(a: nat, b: nat, s: nat): nat
    requires s > 0 && a <= b
  {
    a + (b - a) / s * s
  }

  lemma TopFacts(a: nat, b: nat, s: nat)
    requires s > 0 && a <= b
    ensures Top(a, b, s) <= b < Top(a, b, s) + s
  {
    Parts(b - a, s);
  }

  /** The members are the counter's first values. */
  lemma FirstLap(a: nat, b: nat, s: nat, k: nat)
    requires s > 0 && a <= b < UINT && k < Count(a, b, s)
    ensures At(a, s, k) == a + k * s <= Top(a, b, s)
  {
    TopFacts(a, b, s);
    TimesUpTo(k, (b - a) / s, s);
    DivModUnique(a + k * s, UINT, 0, a + k * s);
  }

  lemma MemberIs(a: nat, b: nat, s: nat, c: nat) returns (k: nat)
    requires s > 0 && a <= b && c in Members(a, b, s)
    ensures k < Count(a, b, s) && c == a + k * s
  {
    k := (c - a) / s;
    Parts(c - a, s);
    DivGrows(c - a, b - a, s);
  }

  lemma DivGrows(x: nat, y: nat, s: nat)
    requires s > 0 && x <= y
    ensures x / s <= y / s
  {
    Parts(x, s);
    Parts(y, s);
    FewerTimes(x / s, y / s, s);
  }

  lemma FewerTimes(p: nat, q: nat, s: nat)
    requires s > 0 && s * p <= s * q + (s - 1)
    ensures p <= q
  {
    assert p >= q + 1 ==> s * p >= s * (q + 1);
    assert s * (q + 1) == s * q + s;
  }

  lemma IsMember(a: nat, b: nat, s: nat, k: nat)
    requires s > 0 && a <= b && k < Count(a, b, s)
    ensures a + k * s in Members(a, b, s) && a + k * s <= Top(a, b, s)
  {
    TopFacts(a, b, s);
    TimesUpTo(k, (b - a) / s, s);
    ModOfMultiple(k, s);
    assert (a + k * s) - a == s * k;
  }

  lemma TimesUpTo(k: nat, q: nat, s: nat)
    requires k <= q
    ensures k * s <= q * s
  {
  }

  /** Some member is at or past the set's end exactly when the greatest is. */
  lemma ExceedsIff(a: nat, b: nat, s: nat, max: nat)
    requires s > 0 && a <= b
    ensures Exceeds(a, b, s, max) <==> Top(a, b, s) >= max
  {
    IsMember(a, b, s, Count(a, b, s) - 1);
    if c: nat :| c in Members(a, b, s) && c >= max {
      var k := MemberIs(a, b, s, c);
      IsMember(a, b, s, k);
    }
  }

  /** The first lap marks the members. */
  lemma LapMarks(a: nat, b: nat, s: nat, max: nat)
    requires s > 0 && a <= b < UINT
    ensures Visited(a, s, Count(a, b, s), max) == Below(Members(a, b, s), max)
  {
    forall c | c in Members(a, b, s)
      ensures exists k: nat :: k < Count(a, b, s) && At(a, s, k) == c
    {
      var k := MemberIs(a, b, s, c);
      FirstLap(a, b, s, k);
    }
    forall k: nat | k < Count(a, b, s)
      ensures At(a, s, k) in Members(a, b, s)
    {
      FirstLap(a, b, s, k);
      IsMember(a, b, s, k);
    }
  }

  /** The value after it: past the range, or back at its beginning. */
  lemma AfterLap(a: nat, b: nat, s: nat)
    requires 0 < s < UINT && a <= b < UINT
    ensures var t := Top(a, b, s) + s;
      At(a, s, Count(a, b, s)) == if t < UINT then t else t - UINT
  {
    TopFacts(a, b, s);
    var n := Count(a, b, s);
    assert a + n * s == Top(a, b, s) + s;
    var t := a + n * s;
    if t < UINT { DivModUnique(t, UINT, 0, t); } else { DivModUnique(t, UINT, 1, t - UINT); }
  }

  /** What a caller can check: the greatest member plus the stride has 32 bits; or the set ends before the greatest
      member and that is an error; or it is not, the counter gets past the range in the end, and all values it has
      after wrapping around are past the set's end. */
  ghost predicate Right(a: nat, b: nat, s: nat, max: nat, fail: bool)
    requires 0 < s < UINT && a <= b < UINT
  {
    || Top(a, b, s) + s < UINT
    || if fail then Top(a, b, s) >= max else
         Greatest(a, s) > b
           && (EndsIff(a, s, b + 1); forall k: nat | Count(a, b, s) <= k < Exit(a, s, b + 1) :: At(a, s, k) >= max)
  }

  lemma OverIsRight(a: nat, b: nat, s: nat, max: nat)
    requires 0 < s < UINT && a <= b < UINT && Top(a, b, s) >= max
    ensures RangeDoes(a, b, s, max, true) == Refuse(2) == RangeMeans(a, b, s, max, true)
  {
    TopFacts(a, b, s);
    ExceedsIff(a, b, s, max);
    TopVisited(a, b, s);
    var e := ExitBy(a, s, max, Count(a, b, s) - 1);
    FirstLap(a, b, s, e);
  }

  lemma TopVisited(a: nat, b: nat, s: nat)
    requires s > 0 && a <= b < UINT
    ensures At(a, s, Count(a, b, s) - 1) == Top(a, b, s)
  {
    FirstLap(a, b, s, Count(a, b, s) - 1);
  }

  lemma ExitBy(a: nat, s: nat, stop: nat, k: nat) returns (e: nat)
    requires At(a, s, k) >= stop
    ensures Ends(a, s, stop) && e == Exit(a, s, stop) <= k
  {
    e := Exit(a, s, stop);
    assert !(k < e);
  }

  /** The members all come before the loop stops. */
  lemma LapBelowStop(a: nat, b: nat, s: nat, max: nat, fail: bool)
    requires 0 < s < UINT && a <= b < UINT && (fail ==> Top(a, b, s) < max)
    ensures forall k: nat | k < Count(a, b, s) :: At(a, s, k) < Stop(b, max, fail)
  {
    TopFacts(a, b, s);
    forall k: nat | k < Count(a, b, s)
      ensures At(a, s, k) < Stop(b, max, fail)
    {
      FirstLap(a, b, s, k);
    }
  }

  lemma OneLapIsRight(a: nat, b: nat, s: nat, max: nat, fail: bool)
    requires 0 < s < UINT && a <= b < UINT && (fail ==> Top(a, b, s) < max) && Top(a, b, s) + s < UINT
    ensures RangeDoes(a, b, s, max, fail) == RangeMeans(a, b, s, max, fail)
  {
    TopFacts(a, b, s);
    ExceedsIff(a, b, s, max);
    LapBelowStop(a, b, s, max, fail);
    AfterLap(a, b, s);
    ExitIs(a, s, Stop(b, max, fail), Count(a, b, s));
    LapMarks(a, b, s, max);
  }

  /** A value after the first lap is no member. */
  lemma LaterIsNew(a: nat, b: nat, s: nat, stop: nat, k: nat)
    requires 0 < s < UINT && a <= b < UINT && Ends(a, s, stop) && Count(a, b, s) <= k < Exit(a, s, stop)
    ensures At(a, s, k) !in Members(a, b, s)
  {
    if At(a, s, k) in Members(a, b, s) {
      var j := MemberIs(a, b, s, At(a, s, k));
      FirstLap(a, b, s, j);
      NoRepeat(a, s, stop, j, k);
    }
  }

  lemma WrapFailsIsWrong(a: nat, b: nat, s: nat, max: nat)
    requires 0 < s < UINT && a <= b < UINT && Top(a, b, s) < max && Top(a, b, s) + s >= UINT
    ensures RangeDoes(a, b, s, max, true) != RangeMeans(a, b, s, max, true)
  {
    var n, stop := Count(a, b, s), Stop(b, max, true);
    TopFacts(a, b, s);
    ExceedsIff(a, b, s, max);
    LapBelowStop(a, b, s, max, true);
    AfterLap(a, b, s);
    if Ends(a, s, stop) && At(a, s, Exit(a, s, stop)) > b {
      assert n < Exit(a, s, stop);
      LaterIsNew(a, b, s, stop, n);
      assert At(a, s, n) in Visited(a, s, Exit(a, s, stop), max);
    }
  }

  lemma WrapIgnored(a: nat, b: nat, s: nat, max: nat)
    requires 0 < s < UINT && a <= b < UINT && Top(a, b, s) + s >= UINT && Ends(a, s, b + 1)
    ensures Count(a, b, s) < Exit(a, s, b + 1)
    ensures RangeDoes(a, b, s, max, false) == RangeMeans(a, b, s, max, false) <==>
            forall k: nat | Count(a, b, s) <= k < Exit(a, s, b + 1) :: At(a, s, k) >= max
  {
    var n, e := Count(a, b, s), Exit(a, s, b + 1);
    TopFacts(a, b, s);
    LapBelowStop(a, b, s, max, false);
    AfterLap(a, b, s);
    LapMarks(a, b, s, max);
    if k: nat :| n <= k < e && At(a, s, k) < max {
      LaterIsNew(a, b, s, b + 1, k);
      assert At(a, s, k) in Visited(a, s, e, max);
    } else {
      assert Visited(a, s, e, max) == Visited(a, s, n, max);
    }
  }

  /** The loop does what the range means if and only if that condition holds. */
  lemma RangeExact(a: nat, b: nat, s: nat, max: nat, fail: bool)
    requires 0 < s < UINT && a <= b < UINT
    ensures RangeDoes(a, b, s, max, fail) == RangeMeans(a, b, s, max, fail) <==> Right(a, b, s, max, fail)
  {
    if fail && Top(a, b, s) >= max {
      OverIsRight(a, b, s, max);
    } else if Top(a, b, s) + s < UINT {
      OneLapIsRight(a, b, s, max, fail);
    } else if fail {
      WrapFailsIsWrong(a, b, s, max);
    } else {
      EndsIff(a, s, b + 1);
      if Greatest(a, s) > b { WrapIgnored(a, b, s, max); }
    }
  }

  /** The condition is one comparison for strides up to the set's size, and for every range whose first wrapped value
      is in the set: then a wrap is never harmless. */
  lemma RightWhenFine(a: nat, b: nat, s: nat, max: nat, fail: bool)
    requires 0 < s < UINT && a <= b < UINT && (s <= max || Top(a, b, s) + s < UINT + max)
    ensures Right(a, b, s, max, fail) <==> Top(a, b, s) + s < UINT || (fail && Top(a, b, s) >= max)
  {
    if !fail && Top(a, b, s) + s >= UINT && Greatest(a, s) > b {
      EndsIff(a, s, b + 1);
      WrapIgnored(a, b, s, max);
      TopFacts(a, b, s);
      AfterLap(a, b, s);
      assert At(a, s, Count(a, b, s)) < max;
    }
  }

  // -------- numbers of more than 32 bits --------

  /** The range a-b:s is A-B:S with its numbers cut to 32 bits. */
  predicate IsCut(A: nat, B: nat, S: nat, a: nat, b: nat, s: nat) {
    a == A % UINT && b == B % UINT && s == S % UINT && S > 0 && A <= B && s > 0 && a <= b
  }

  /** When the two ranges agree below `max`: comparisons of their first two members and of the one after the last. */
  predicate Agree(A: nat, B: nat, S: nat, a: nat, b: nat, s: nat, max: nat)
    requires s > 0 && a <= b
  {
    if A >= UINT then a >= max
    else if S >= UINT then a >= max || ((a + s > b || a + s >= max) && (A + S > B || A + S >= max))
    else Top(a, b, s) + s > B || Top(a, b, s) + s >= max
  }

  lemma SecondMember(a: nat, b: nat, s: nat)
    requires s > 0 && a <= b
    ensures a in Members(a, b, s) && (a + s <= b ==> a + s in Members(a, b, s))
    ensures forall c | c in Members(a, b, s) :: c == a || c >= a + s
  {
    HitNext(a, a, s);
  }

  lemma AgreeFar(A: nat, B: nat, S: nat, a: nat, b: nat, s: nat, max: nat)
    requires S > 0 && s > 0 && A <= B && a <= b && a < UINT <= A
    ensures Below(Members(a, b, s), max) == Below(Members(A, B, S), max) <==> a >= max
  {
    assert a in Members(a, b, s);
    if a < max { assert a in Below(Members(a, b, s), max) && a !in Members(A, B, S); }
  }

  lemma AgreeWide(a: nat, B: nat, S: nat, b: nat, s: nat, max: nat)
    requires 0 < s < UINT <= S && a <= B && a <= b < UINT
    ensures Below(Members(a, b, s), max) == Below(Members(a, B, S), max) <==>
            a >= max || ((a + s > b || a + s >= max) && (a + S > B || a + S >= max))
  {
    SecondMember(a, b, s);
    SecondMember(a, B, S);
    if a + s <= b && a + s < max {
      assert a + s in Below(Members(a, b, s), max) && a + s !in Members(a, B, S);
    } else if a + S <= B && a + S < max {
      assert a + S in Below(Members(a, B, S), max) && a + S !in Members(a, b, s);
    }
  }

  lemma AfterTop(a: nat, b: nat, s: nat, c: nat)
    requires s > 0 && a <= b
    ensures Hit(a, Top(a, b, s) + s, s)
    ensures Hit(a, c, s) && c > b ==> c >= Top(a, b, s) + s
  {
    TopFacts(a, b, s);
    IsMember(a, b, s, Count(a, b, s) - 1);
    HitNext(a, Top(a, b, s), s);
  }

  lemma AgreeLong(a: nat, b: nat, B: nat, s: nat, max: nat)
    requires s > 0 && a <= b <= B
    ensures Below(Members(a, b, s), max) == Below(Members(a, B, s), max) <==>
      Top(a, b, s) + s > B || Top(a, b, s) + s >= max
  {
    var t := Top(a, b, s) + s;
    TopFacts(a, b, s);
    AfterTop(a, b, s, t);
    if t <= B && t < max {
      assert t in Below(Members(a, B, s), max) && t !in Members(a, b, s);
    } else {
      forall c | c in Below(Members(a, B, s), max)
        ensures c in Members(a, b, s)
      {
        AfterTop(a, b, s, c);
      }
    }
  }

  lemma AgreeIff(A: nat, B: nat, S: nat, a: nat, b: nat, s: nat, max: nat)
    requires IsCut(A, B, S, a, b, s)
    ensures Below(Members(a, b, s), max) == Below(Members(A, B, S), max) <==> Agree(A, B, S, a, b, s, max)
  {
    if A >= UINT {
      AgreeFar(A, B, S, a, b, s, max);
    } else {
      DivModUnique(A, UINT, 0, A);
      if S >= UINT {
        AgreeWide(a, B, S, b, s, max);
      } else {
        DivModUnique(S, UINT, 0, S);
        CutBelow(B);
        AgreeLong(a, b, B, s, max);
      }
    }
  }

  lemma CutBelow(x: nat)
    ensures x % UINT <= x
  {
  }

  /** A value after the first lap is no member of the range that was written either. */
  lemma LaterIsForeign(A: nat, B: nat, S: nat, a: nat, b: nat, s: nat, stop: nat, k: nat)
    requires IsCut(A, B, S, a, b, s) && Ends(a, s, stop) && stop <= b + 1 && Count(a, b, s) <= k < Exit(a, s, stop)
    ensures At(a, s, k) !in Members(A, B, S)
  {
    var v := At(a, s, k);
    LaterIsNew(a, b, s, stop, k);
    if A < UINT {
      DivModUnique(A, UINT, 0, A);
      if S < UINT { DivModUnique(S, UINT, 0, S); } else { SecondMember(A, B, S); }
      assert a in Members(a, b, s);
    }
  }

  /** With `fail`, a counter that has wrapped around stops at a value past the set's end but inside the range. */
  ghost predicate StopsInside(a: nat, b: nat, s: nat, max: nat)
    requires 0 < s < UINT
  {
    max <= b && Greatest(a, s) >= max && (EndsIff(a, s, max); At(a, s, Exit(a, s, max)) <= b)
  }

  /** What a caller can check of a range whose numbers are cut: without `fail`, the cut range is treated as it should
      be and agrees with the one written; with it, both have members past the set's end, or neither has and they
      agree, or the one written has and the counter comes across such a value after wrapping around. */
  ghost predicate CutRight(A: nat, B: nat, S: nat, a: nat, b: nat, s: nat, max: nat, fail: bool)
    requires IsCut(A, B, S, a, b, s)
  {
    if !fail then Right(a, b, s, max, false) && Agree(A, B, S, a, b, s, max)
    else if Top(a, b, s) >= max then Top(A, B, S) >= max
    else if Top(a, b, s) + s < UINT then Top(A, B, S) < max && Agree(A, B, S, a, b, s, max)
    else Top(A, B, S) >= max && StopsInside(a, b, s, max)
  }

  lemma CutIgnored(A: nat, B: nat, S: nat, a: nat, b: nat, s: nat, max: nat)
    requires IsCut(A, B, S, a, b, s)
    ensures RangeDoes(a, b, s, max, false) == RangeMeans(A, B, S, max, false) <==>
      CutRight(A, B, S, a, b, s, max, false)
  {
    RangeExact(a, b, s, max, false);
    AgreeIff(A, B, S, a, b, s, max);
    if !Right(a, b, s, max, false) && Ends(a, s, b + 1) { WrapMarksForeign(A, B, S, a, b, s, max); }
  }

  lemma WrapMarksForeign(A: nat, B: nat, S: nat, a: nat, b: nat, s: nat, max: nat)
    requires IsCut(A, B, S, a, b, s) && !Right(a, b, s, max, false) && Ends(a, s, b + 1)
    ensures RangeDoes(a, b, s, max, false) != RangeMeans(A, B, S, max, false)
  {
    EndsIff(a, s, b + 1);
    var k: nat :| Count(a, b, s) <= k < Exit(a, s, b + 1) && At(a, s, k) < max;
    LaterIsForeign(A, B, S, a, b, s, b + 1, k);
    assert At(a, s, k) in Visited(a, s, Exit(a, s, b + 1), max);
  }

  lemma CutFails(A: nat, B: nat, S: nat, a: nat, b: nat, s: nat, max: nat)
    requires IsCut(A, B, S, a, b, s)
    ensures RangeDoes(a, b, s, max, true) == RangeMeans(A, B, S, max, true) <==> CutRight(A, B, S, a, b, s, max, true)
  {
    ExceedsIff(A, B, S, max);
    if Top(a, b, s) >= max {
      OverIsRight(a, b, s, max);
    } else if Top(a, b, s) + s < UINT {
      OneLapIsRight(a, b, s, max, true);
      ExceedsIff(a, b, s, max);
      AgreeIff(A, B, S, a, b, s, max);
    } else {
      WrapStops(a, b, s, max);
      if RangeDoes(a, b, s, max, true).Mark? { WrapFailsForeign(A, B, S, a, b, s, max); }
    }
  }

  lemma WrapStops(a: nat, b: nat, s: nat, max: nat)
    requires 0 < s < UINT && a <= b < UINT && Top(a, b, s) < max && Top(a, b, s) + s >= UINT
    ensures RangeDoes(a, b, s, max, true) == Refuse(2) <==> StopsInside(a, b, s, max)
  {
    EndsIff(a, s, max);
  }

  lemma WrapFailsForeign(A: nat, B: nat, S: nat, a: nat, b: nat, s: nat, max: nat)
    requires IsCut(A, B, S, a, b, s) && Top(a, b, s) < max && Top(a, b, s) + s >= UINT
    requires RangeDoes(a, b, s, max, true).Mark?
    ensures RangeDoes(a, b, s, max, true) != RangeMeans(A, B, S, max, true)
  {
    var n, stop := Count(a, b, s), Stop(b, max, true);
    TopFacts(a, b, s);
    LapBelowStop(a, b, s, max, true);
    AfterLap(a, b, s);
    LaterIsForeign(A, B, S, a, b, s, stop, n);
    assert At(a, s, n) in Visited(a, s, Exit(a, s, stop), max);
  }

  /** What a caller can check of any item. */
  ghost predicate ItemRight(x: Item, max: nat, fail: bool)
    requires IsItem(x)
  {
    if !Readable(x) || CutStride(x) == 0 || CutFirst(x) > CutLast(x) then Stride(x) == 0 || First(x) > Last(x)
    else
      && Stride(x) > 0 && First(x) <= Last(x)
      && CutRight(First(x), Last(x), Stride(x), CutFirst(x), CutLast(x), CutStride(x), max, fail)
  }

  /** Every item, whatever the length of its numbers, is treated as it should be if and only if that holds. */
  lemma ItemExact(x: Item, max: nat, fail: bool)
    requires IsItem(x)
    ensures Does(x, max, fail) == Means(x, max, fail) <==> ItemRight(x, max, fail)
  {
    if Readable(x) && CutStride(x) > 0 && CutFirst(x) <= CutLast(x) && Stride(x) > 0 && First(x) <= Last(x) {
      if fail {
        CutFails(First(x), Last(x), Stride(x), CutFirst(x), CutLast(x), CutStride(x), max);
      } else {
        CutIgnored(First(x), Last(x), Stride(x), CutFirst(x), CutLast(x), CutStride(x), max);
      }
    }
  }

  /** All numbers have 32 bits. */
  predicate Short(x: Item) requires IsItem(x) { First(x) < UINT && Last(x) < UINT && Stride(x) < UINT }

  lemma ShortUncut(x: Item)
    requires IsItem(x) && Short(x)
    ensures Readable(x) && CutFirst(x) == First(x) && CutLast(x) == Last(x) && CutStride(x) == Stride(x)
  {
    DivModUnique(First(x), UINT, 0, First(x));
    DivModUnique(Last(x), UINT, 0, Last(x));
    DivModUnique(Stride(x), UINT, 0, Stride(x));
  }

  /** For items of 32-bit numbers: it is no range, or the loop is right. */
  lemma ShortExact(x: Item, max: nat, fail: bool)
    requires IsItem(x) && Short(x)
    ensures Does(x, max, fail) == Means(x, max, fail) <==>
            Stride(x) == 0 || First(x) > Last(x) || Right(First(x), Last(x), Stride(x), max, fail)
  {
    ShortUncut(x);
    if Stride(x) != 0 && First(x) <= Last(x) { RangeExact(First(x), Last(x), Stride(x), max, fail); }
  }

  /** The loop over one CPU. */
  lemma SingleDoes(a: nat, max: nat, fail: bool)
    requires a < UINT
    ensures RangeDoes(a, a, 1, max, fail) ==
            if fail && max <= a then Refuse(2) else if a == UINT - 1 then Hang else Mark(if a < max then {a} else {})
  {
    assert At(a, 1, 0) == a by { DivModUnique(a, UINT, 0, a); }
    if fail && max <= a {
      var e := ExitBy(a, 1, max, 0);
    } else if a == UINT - 1 {
      assert forall k: nat :: At(a, 1, k) < UINT;
    } else {
      assert At(a, 1, 1) == a + 1 by { DivModUnique(a + 1, UINT, 0, a + 1); }
      ExitIs(a, 1, a + 1, 1);
      VisitedNext(a, 1, 0, max);
      assert Visited(a, 1, 0, max) == {};
    }
  }

  /** What a caller can check of a single CPU number: without `fail`, it is cut to less than 2^32 - 1 and to the same
      number or past the set's end; with `fail`, it and what it is cut to are both past the set's end, or it is in
      the set and below 2^32 - 1. */
  predicate SingleRight(d: nat, max: nat, fail: bool) {
    d < ULONG &&
    if fail then (d >= max && d % UINT >= max) || (d < max && d < UINT - 1)
    else d % UINT != UINT - 1 && (d < UINT || d % UINT >= max)
  }

  lemma SingleMembers(d: nat, max: nat)
    ensures Members(d, d, 1) == {d} && Below(Members(d, d, 1), max) == (if d < max then {d} else {})
    ensures Exceeds(d, d, 1, max) <==> d >= max
  {
    assert forall c: nat :: c in Members(d, d, 1) ==> c == d;
    assert d in Members(d, d, 1);
  }

  /** A single number of any length is treated as it should be if and only if that holds. */
  lemma OneExact(x: Item, max: nat, fail: bool)
    requires IsItem(x) && x.One?
    ensures Does(x, max, fail) == Means(x, max, fail) <==> SingleRight(Dec(x.a), max, fail)
  {
    var d := Dec(x.a);
    SingleMembers(d, max);
    if d < ULONG { OneNumberExact(x, d, d % UINT, max, fail); }
  }

  lemma OneNumberExact(x: Item, d: nat, a: nat, max: nat, fail: bool)
    requires IsItem(x) && x.One? && d == Dec(x.a) < ULONG && a == d % UINT
    requires Below(Members(d, d, 1), max) == (if d < max then {d} else {}) && (Exceeds(d, d, 1, max) <==> d >= max)
    ensures Does(x, max, fail) == Means(x, max, fail) <==> SingleRight(d, max, fail)
  {
    OneCut(x);
    SingleDoes(a, max, fail);
    SingleAgrees(d, a, max);
  }

  lemma OneCut(x: Item)
    requires IsItem(x) && x.One? && Dec(x.a) < ULONG
    ensures Readable(x) && CutLast(x) == CutFirst(x) && CutStride(x) == 1
  {
    DivModUnique(1, UINT, 0, 1);
  }

  lemma SingleAgrees(d: nat, a: nat, max: nat)
    ensures (if a < max then {a} else {}) == (if d < max then {d} else {}) <==> a == d || (a >= max && d >= max)
  {
    if a < max { assert a in {a}; }
    if d < max { assert d in {d}; }
  }

  // -------- whole lists --------

  ghost function Join(d: Deed, e: Deed): Deed {
    if d.Mark? && e.Mark? then Mark(d.cpus + e.cpus) else if d.Mark? then e else d
  }

  /** What the items make the parser do one after the other. */
  ghost function AllDo(xs: seq<Item>, max: nat, fail: bool): Deed
    requires forall i | 0 <= i < |xs| :: IsItem(xs[i])
  {
    if xs == [] then Mark({}) else Join(AllDo(xs[..|xs| - 1], max, fail), Does(xs[|xs| - 1], max, fail))
  }

  ghost function AllMean(xs: seq<Item>, max: nat, fail: bool): Deed
    requires forall i | 0 <= i < |xs| :: IsItem(xs[i])
  {
    if xs == [] then Mark({}) else Join(AllMean(xs[..|xs| - 1], max, fail), Means(xs[|xs| - 1], max, fail))
  }

  /** If each item is treated as it should be, so is the list. */
  lemma {:induction false} ListRight(xs: seq<Item>, max: nat, fail: bool)
    requires forall i | 0 <= i < |xs| :: IsItem(xs[i]) && Does(xs[i], max, fail) == Means(xs[i], max, fail)
    ensures AllDo(xs, max, fail) == AllMean(xs, max, fail)
  {
    if xs != [] { ListRight(xs[..|xs| - 1], max, fail); }
  }

  /** A list that should be accepted should give the union of its ranges, as far as the set has room. */
  lemma {:induction false} AcceptedUnion(xs: seq<Item>, max: nat, fail: bool)
    requires (forall i | 0 <= i < |xs| :: IsItem(xs[i])) && AllMean(xs, max, fail).Mark?
    ensures Sane(xs, |xs|) && AllMean(xs, max, fail).cpus == Below(Union(xs), max)
  {
    if xs != [] {
      AcceptedUnion(xs[..|xs| - 1], max, fail);
      assert Means(xs[|xs| - 1], max, fail).Mark?;
    }
  }

  /** The first `k` items have strides. */
  ghost predicate Sane(xs: seq<Item>, k: nat) {
    k <= |xs| && (forall i | 0 <= i < |xs| :: IsItem(xs[i])) && forall i | 0 <= i < k :: Stride(xs[i]) > 0
  }

  /** Once the parser has given up or hangs, later items do not matter. */
  lemma {:induction false} DeedStays(xs: seq<Item>, k: nat, max: nat, fail: bool)
    requires k <= |xs| && forall i | 0 <= i < |xs| :: IsItem(xs[i])
    ensures !AllDo(xs[..k], max, fail).Mark? ==> AllDo(xs, max, fail) == AllDo(xs[..k], max, fail)
    decreases |xs|
  {
    if k < |xs| {
      DeedStays(xs[..|xs| - 1], k, max, fail);
      assert xs[..|xs| - 1][..k] == xs[..k];
    } else {
      assert xs[..k] == xs;
    }
  }

  /** One more item after only marks. */
  lemma NextItem(xs: seq<Item>, k: nat, max: nat, fail: bool)
    requires k < |xs| && (forall i | 0 <= i < |xs| :: IsItem(xs[i])) && AllDo(xs[..k], max, fail).Mark?
    ensures AllDo(xs[..k + 1], max, fail) == Join(AllDo(xs[..k], max, fail), Does(xs[k], max, fail))
    ensures !Does(xs[k], max, fail).Mark? ==> AllDo(xs, max, fail) == Does(xs[k], max, fail)
  {
    assert xs[..k + 1][..k] == xs[..k] && xs[..k + 1][k] == xs[k];
    DeedStays(xs, k + 1, max, fail);
  }

  /** `rest` of the text from item `k` on. */
  function After(xs: seq<Item>, k: nat): string
    requires k <= |xs|
  {
    if k == |xs| then "" else "," + Render(xs[k..])
  }

  lemma RenderSplit(xs: seq<Item>, k: nat)
    requires k < |xs| && IsItem(xs[k])
    ensures Render(xs[k..]) == Text(xs[k]) + After(xs, k + 1) && IsRest(After(xs, k + 1))
    ensures NextToken(Some(Render(xs[k..])), ',') == if k + 1 == |xs| then None else Some(Render(xs[k + 1..]))
  {
    var x, rest := xs[k], After(xs, k + 1);
    assert xs[k..][1..] == xs[k + 1..];
    NoCommas(x);
    TokenAfter(Text(x), rest, ',');
    if k + 1 < |xs| { assert rest[1..] == Render(xs[k + 1..]); }
  }

  lemma NoCommas(x: Item)
    requires IsItem(x)
    ensures ',' !in Text(x)
  {
    NoDigits(x.a, ',');
    if !x.One? { NoDigits(x.b, ','); }
    if x.Strided? { NoDigits(x.s, ','); }
  }

  /** The loop body of `cpulist_parse` after reading: check the range and mark it. */
  method DoItem(cpus: set<nat>, a: nat, b: nat, s: nat, max: nat, fail: bool, ghost x: Item)
    returns (ret: int, cpus': set<nat>)
    requires IsItem(x) && Readable(x) && s == CutStride(x) > 0 && a == CutFirst(x) && b == CutLast(x)
    requires !Does(x, max, fail).Hang?
    ensures ret == match Does(x, max, fail) case Refuse(code) => code case _ => 0
    ensures Does(x, max, fail).Mark? ==> cpus' == cpus + Does(x, max, fail).cpus
    ensures ret >= 0 && (ret == 0 <==> Does(x, max, fail).Mark?)
  {
    if !(a <= b) { return 1, cpus; }
    var over;
    over, cpus' := MarkRange(cpus, a, b, s, max, fail);
    ret := if over then 2 else 0;
  }

  /** The text from item `k` on, or nothing. */
  function TextFrom(xs: seq<Item>, k: nat): Option<string> { if k < |xs| then Some(Render(xs[k..])) else None }

  lemma NextText(xs: seq<Item>, k: nat)
    requires k < |xs| && IsItem(xs[k])
    ensures NextToken(TextFrom(xs, k), ',') == TextFrom(xs, k + 1)
  {
    RenderSplit(xs, k);
  }

  /** The first `k` items have marked these CPUs. */
  ghost predicate Done(xs: seq<Item>, k: nat, max: nat, fail: bool, cpus: set<nat>)
    requires k <= |xs| && forall i | 0 <= i < |xs| :: IsItem(xs[i])
  {
    AllDo(xs[..k], max, fail) == Mark(cpus)
  }

  lemma ParseStart(xs: seq<Item>, max: nat, fail: bool)
    requires xs != [] && forall i | 0 <= i < |xs| :: IsItem(xs[i])
    ensures TextFrom(xs, 0) == Some(Render(xs)) && Done(xs, 0, max, fail, {})
  {
    assert xs[0..] == xs && xs[..0] == [];
  }

  lemma ParseEnd(xs: seq<Item>, max: nat, fail: bool, cpus: set<nat>)
    requires (forall i | 0 <= i < |xs| :: IsItem(xs[i])) && Done(xs, |xs|, max, fail, cpus)
    ensures AllDo(xs, max, fail) == Mark(cpus) && After(xs, |xs|) == ""
  {
    assert xs[..|xs|] == xs;
  }

  /** The loop body of `cpulist_parse`: read one item and do it. */
  method ParseItem(p: string, cpus: set<nat>, max: nat, fail: bool, ghost xs: seq<Item>, ghost k: nat)
    returns (ret: int, cpus': set<nat>, end: string)
    requires k < |xs| && (forall i | 0 <= i < |xs| :: IsItem(xs[i])) && !AllDo(xs, max, fail).Hang?
    requires p == Render(xs[k..]) && Done(xs, k, max, fail, cpus)
    ensures if ret == 0 then Done(xs, k + 1, max, fail, cpus') && end == After(xs, k + 1)
            else ret > 0 && AllDo(xs, max, fail) == Refuse(ret)
  {
    RenderSplit(xs, k);
    NextItem(xs, k, max, fail);
    var ok, a, b, s;
    ok, a, b, s, end := ReadItem(p, xs[k], After(xs, k + 1));
    if !ok { return 1, cpus, end; }
    ret, cpus' := DoItem(cpus, a, b, s, max, fail, xs[k]);
  }

  /** `cpulist_parse` on the text of a list whose items do not hang it. */
  method Parse(str: string, max: nat, fail: bool, ghost xs: seq<Item>) returns (ret: int, cpus: set<nat>)
    requires xs != [] && str == Render(xs) && (forall i | 0 <= i < |xs| :: IsItem(xs[i])) && !AllDo(xs, max, fail).Hang?
    ensures match AllDo(xs, max, fail)
      case Refuse(code) => ret == code
      case Mark(m) => ret == 0 && cpus == m
      case Hang => false
  {
    cpus := {};
    var q, end := Some(str), "";
    ghost var k := 0;
    ParseStart(xs, max, fail);
    while q.Some?
      invariant k <= |xs| && q == TextFrom(xs, k) && (k > 0 ==> end == After(xs, k))
      invariant Done(xs, k, max, fail, cpus)
      decreases |xs| - k
    {
      var p := q.value;
      NextText(xs, k);
      q := NextToken(q, ',');
      ret, cpus, end := ParseItem(p, cpus, max, fail, xs, k);
      if ret != 0 { return; }
      k := k + 1;
    }
    ParseEnd(xs, max, fail, cpus);
    ret := if end != "" then 1 else 0;
  }

  // -------- inputs it does not treat as it should --------

  lemma DecNext(d: string, c: char)
    requires (forall i | 0 <= i < |d| :: IsDigit(d[i])) && IsDigit(c)
    ensures forall i | 0 <= i < |d + [c]| :: IsDigit((d + [c])[i])
    ensures Dec(d + [c]) == 10 * Dec(d) + (c as int - '0' as int)
  {
    assert (d + [c])[..|d|] == d;
  }

  lemma DecimalsStart()
    ensures IsNumber("42949") && Dec("42949") == 42949
  {
    DecNext("", '4');
    assert "" + ['4'] == "4";
    DecNext("4", '2');
    assert "4" + ['2'] == "42";
    DecNext("42", '9');
    assert "42" + ['9'] == "429";
    DecNext("429", '4');
    assert "429" + ['4'] == "4294";
    DecNext("4294", '9');
    assert "4294" + ['9'] == "42949";
  }

  lemma DecimalsMiddle()
    ensures IsNumber("4294967") && Dec("4294967") == 4294967
  {
    DecimalsStart();
    DecNext("42949", '6');
    assert "42949" + ['6'] == "429496";
    DecNext("429496", '7');
    assert "429496" + ['7'] == "4294967";
  }

  lemma DecimalsBelow()
    ensures IsNumber("429496729") && Dec("429496729") == 429496729
  {
    DecimalsMiddle();
    DecNext("4294967", '2');
    assert "4294967" + ['2'] == "42949672";
    DecNext("42949672", '9');
    assert "42949672" + ['9'] == "429496729";
  }

  /** The numbers around 2^32 in decimal. */
  lemma Decimals()
    ensures IsNumber("4294967295") && Dec("4294967295") == UINT - 1
    ensures IsNumber("4294967296") && Dec("4294967296") == UINT
  {
    DecimalsBelow();
    DecNext("429496729", '5');
    DecNext("429496729", '6');
    assert "429496729" + ['5'] == "4294967295" && "429496729" + ['6'] == "4294967296";
  }

  lemma DecimalsAbove()
    ensures IsNumber("4294967300") && Dec("4294967300") == UINT + 4
  {
    DecimalsMiddle();
    DecNext("4294967", '3');
    assert "4294967" + ['3'] == "42949673";
    DecNext("42949673", '0');
    assert "42949673" + ['0'] == "429496730";
    DecNext("429496730", '0');
    assert "429496730" + ['0'] == "4294967300";
  }

  /** `4294967295` never ends, unless `fail` is set and the set ends before. */
  lemma LastCpuHangs(max: nat)
    ensures IsItem(One("4294967295")) && Does(One("4294967295"), max, false) == Hang
  {
    Decimals();
    DivModUnique(UINT - 1, UINT, 0, UINT - 1);
    SingleDoes(UINT - 1, max, false);
  }

  /** `4294967296` is cut to 32 bits and marks CPU 0. */
  lemma CutMarksZero(max: nat)
    requires 0 < max <= UINT
    ensures IsItem(One("4294967296")) && Does(One("4294967296"), max, false) == Mark({0})
    ensures Means(One("4294967296"), max, false) == Mark({})
  {
    Decimals();
    DivModUnique(UINT, UINT, 1, 0);
    SingleDoes(0, max, false);
    SingleMembers(UINT, max);
  }

  /** `4294967296-4294967300` is cut to `0-4` and marks CPUs 0 to 4. */
  lemma CutMarksRange(max: nat)
    requires 5 <= max <= UINT
    ensures var x := Range("4294967296", "4294967300");
      IsItem(x) && Does(x, max, false) == Mark(Block(0, 5)) && Means(x, max, false) == Mark({})
  {
    Decimals();
    DecimalsAbove();
    DivModUnique(UINT, UINT, 1, 0);
    DivModUnique(UINT + 4, UINT, 1, 4);
    DivModUnique(1, UINT, 0, 1);
    OneLapIsRight(0, 4, 1, max, false);
    assert Members(0, 4, 1) == Block(0, 5);
  }

  /** The greatest stride counts down. */
  lemma CountsDown(a: nat, k: nat)
    requires a < UINT && k <= a + 1
    ensures At(a, UINT - 1, k) == if k <= a then a - k else UINT - 1
  {
    assert a + k * (UINT - 1) == UINT * k + (a - k);
    if k <= a {
      DivModUnique(a + k * (UINT - 1), UINT, k, a - k);
    } else {
      assert a + k * (UINT - 1) == UINT * (k - 1) + (UINT - 1);
      DivModUnique(a + k * (UINT - 1), UINT, k - 1, UINT - 1);
    }
  }

  /** The text `d-d:4294967295` ends although the counter wraps around, and marks all CPUs up to the number `d`. */
  lemma WrapsAndEnds(d: string, max: nat)
    requires IsNumber(d) && Dec(d) < UINT - 1 && Dec(d) < max
    ensures var x := Strided(d, d, "4294967295");
      IsItem(x) && Does(x, max, false) == Mark(Block(0, Dec(d) + 1)) && Means(x, max, false) == Mark({Dec(d)})
  {
    Decimals();
    ShortUncut(Strided(d, d, "4294967295"));
    WrapsDown(Dec(d), max);
  }

  lemma WrapsDown(a: nat, max: nat)
    requires a < UINT - 1 && a < max
    ensures RangeDoes(a, a, UINT - 1, max, false) == Mark(Block(0, a + 1))
    ensures RangeMeans(a, a, UINT - 1, max, false) == Mark({a})
  {
    var s := UINT - 1;
    forall k: nat | k <= a + 1
      ensures At(a, s, k) == if k <= a then a - k else s
    {
      CountsDown(a, k);
    }
    ExitIs(a, s, a + 1, a + 1);
    var cpus := Block(0, a + 1);
    forall c | c in cpus
      ensures c in Visited(a, s, a + 1, max)
    {
      assert At(a, s, a - c) == c;
    }
    assert Visited(a, s, a + 1, max) == cpus;
    assert Members(a, a, UINT - 1) == {a};
  }
}
