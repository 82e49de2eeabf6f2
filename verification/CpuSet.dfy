/** CPU sets and aligned blocks of CPUs.

    A `cpu_set_t` is a `set<nat>`.  A topology level of granularity `s` cuts the
    CPUs into aligned blocks of `s`; `Start(c, s)` is the first CPU of the block of `c`. */
module CpuSet {

  predicate Within(i: nat, a: nat, s: nat) {
    a <= i < a + s
  }

  function Block(a: nat, s: nat): set<nat> {
    set i: nat | i < a + s && Within(i, a, s)
  }

  function Start(c: nat, s: nat): nat
    requires s > 0
  {
    c - c % s
  }

  /** `x` is a union of whole aligned blocks. */
  ghost predicate Blocky(x: set<nat>, s: nat)
    requires s > 0
  {
    forall c | c in x :: Block(Start(c, s), s) <= x
  }

  /** The CPUs of `x` whose block is not wholly inside `x`. */
  ghost function Loose(x: set<nat>, s: nat): set<nat>
    requires s > 0
  {
    set c | c in x && !(Block(Start(c, s), s) <= x)
  }

  lemma StartFacts(c: nat, s: nat)
    requires s > 0
    ensures Start(c, s) <= c < Start(c, s) + s
    ensures Start(c, s) % s == 0
    ensures c in Block(Start(c, s), s)
  {
    assert c == s * (c / s) + c % s;
    ModOfMultiple(c / s, s);
  }

  lemma ModOfMultiple(q: int, s: nat)
    requires s > 0
    ensures (s * q) % s == 0
  {
    var r, d := (s * q) % s, (s * q) / s;
    assert s * (q - d) == r;
    assert q - d >= 1 ==> s * (q - d) >= s * 1;
    assert q - d <= -1 ==> s * (q - d) <= s * -1;
  }

  lemma DivModUnique(a: int, b: nat, q: int, r: int)
    requires b > 0 && 0 <= r < b && a == q * b + r
    ensures a / b == q && a % b == r
  {
    var z := q - a / b;
    assert a == b * (a / b) + a % b;
    assert b * z == b * q - b * (a / b);
    NoSmallMultiple(b, z, a % b - r);
  }

  lemma NoSmallMultiple(b: nat, z: int, d: int)
    requires b * z == d && 0 - b < d < b
    ensures z == 0
  {
    assert z >= 1 ==> b * z >= b * 1;
    assert z <= -1 ==> b * z <= b * -1;
  }

  lemma AtLeastOne(n: nat, k: nat)
    requires 0 < k <= n
    ensures n / k >= 1
  {
  }

  /** The aligned block that holds `c` is the one that starts at `Start(c, s)`. */
  lemma StartUnique(a: nat, c: nat, s: nat)
    requires s > 0 && a % s == 0 && a <= c < a + s
    ensures Start(c, s) == a
  {
    StartFacts(c, s);
    MultiplesApart(a, Start(c, s), s);
  }

  lemma MultiplesApart(a: nat, b: nat, s: nat)
    requires s > 0 && a % s == 0 && b % s == 0
    ensures a == b || a + s <= b || b + s <= a
  {
    var p, q := a / s, b / s;
    assert a == s * p && b == s * q;
    if p < q {
      assert s * q >= s * (p + 1);
    } else if q < p {
      assert s * p >= s * (q + 1);
    }
  }

  lemma ModTrans(a: nat, f: nat, s: nat)
    requires s > 0 && f > 0 && f % s == 0 && a % f == 0
    ensures a % s == 0
  {
    var p, q := f / s, a / f;
    assert f == s * p && a == f * q;
    assert a == s * (p * q);
    ModOfMultiple(p * q, s);
  }

  lemma AddMod(a: nat, b: nat, s: nat)
    requires s > 0 && a % s == 0 && b % s == 0
    ensures (a + b) % s == 0
  {
    assert a == s * (a / s) && b == s * (b / s);
    assert a + b == s * (a / s + b / s);
    ModOfMultiple(a / s + b / s, s);
  }

  /** A range that starts and ends on block boundaries is a union of blocks. */
  lemma RangeBlocky(a: nat, m: nat, s: nat)
    requires s > 0 && a % s == 0 && m % s == 0
    ensures Blocky(Block(a, m), s)
  {
    AddMod(a, m, s);
    forall c | c in Block(a, m)
      ensures Block(Start(c, s), s) <= Block(a, m)
    {
      StartFacts(c, s);
      MultiplesApart(a, Start(c, s), s);
      MultiplesApart(a + m, Start(c, s), s);
    }
  }

  lemma {:induction false} BlockCard(a: nat, s: nat)
    ensures |Block(a, s)| == s
  {
    if s > 0 {
      BlockCard(a, s - 1);
      assert Block(a, s) == Block(a, s - 1) + {a + s - 1};
    }
  }

  lemma {:induction false} SubsetCard(x: set<nat>, y: set<nat>)
    requires x <= y
    ensures |x| <= |y|
    ensures |x| == |y| ==> x == y
  {
    assert y == x + (y - x);
    assert |y| == |x| + |y - x|;
  }

  /** Removing a whole block from a union of blocks leaves a union of blocks. */
  lemma BlockyMinus(x: set<nat>, c: nat, s: nat)
    requires s > 0 && Blocky(x, s)
    ensures Blocky(x - Block(Start(c, s), s), s)
  {
    var y := x - Block(Start(c, s), s);
    StartFacts(c, s);
    forall d | d in y
      ensures Block(Start(d, s), s) <= y
    {
      StartFacts(d, s);
      MultiplesApart(Start(c, s), Start(d, s), s);
    }
  }

  lemma BlockyPlus(x: set<nat>, c: nat, s: nat)
    requires s > 0 && Blocky(x, s)
    ensures Blocky(x + Block(Start(c, s), s), s)
  {
    var b := Block(Start(c, s), s);
    StartFacts(c, s);
    forall d | d in x + b
      ensures Block(Start(d, s), s) <= x + b
    {
      if d in b { StartUnique(Start(c, s), d, s); }
    }
  }

  lemma BlockyDiff(x: set<nat>, y: set<nat>, s: nat)
    requires s > 0 && Blocky(x, s) && Blocky(y, s)
    ensures Blocky(x - y, s)
  {
    forall c, d | c in x - y && d in Block(Start(c, s), s)
      ensures d in x - y
    {
      StartFacts(c, s);
      StartUnique(Start(c, s), d, s);
      assert Start(d, s) == Start(c, s);
      assert c in Block(Start(d, s), s);
    }
  }

  /** A union of whole blocks has a multiple of `s` elements. */
  lemma SplitCard(x: set<nat>, b: set<nat>)
    requires b <= x
    ensures |x| == |x - b| + |b|
  {
    assert x == (x - b) + b;
  }

  lemma OneBlockMore(k: nat, n: nat, s: nat)
    requires s > 0 && k % s == 0 && n == k + s
    ensures n % s == 0
  {
    AddMod(k, s, s);
  }

  lemma {:induction false} BlockyCard(x: set<nat>, s: nat)
    requires s > 0 && Blocky(x, s)
    ensures |x| % s == 0
    decreases |x|
  {
    if x != {} {
      var c :| c in x;
      var b := Block(Start(c, s), s);
      StartFacts(c, s);
      BlockyMinus(x, c, s);
      BlockCard(Start(c, s), s);
      SplitCard(x, b);
      BlockyCard(x - b, s);
      OneBlockMore(|x - b|, |x|, s);
    }
  }

  /** What is not loose is a union of blocks, so a count that is no multiple of `s` leaves something loose. */
  lemma LooseCount(x: set<nat>, s: nat)
    requires s > 0
    ensures Blocky(x - Loose(x, s), s)
    ensures |x| % s != 0 ==> Loose(x, s) != {}
    ensures Loose(x, s) == {} <==> Blocky(x, s)
  {
    var y := x - Loose(x, s);
    forall c | c in y
      ensures Block(Start(c, s), s) <= y
    {
      StartFacts(c, s);
      forall d | d in Block(Start(c, s), s)
        ensures d in y
      {
        StartUnique(Start(c, s), d, s);
      }
    }
    if Loose(x, s) == {} {
      assert y == x;
      BlockyCard(x, s);
    }
  }

  ghost predicate IsMin(m: nat, x: set<nat>) {
    m in x && forall d | d in x :: m <= d
  }

  /** The least element. */
  ghost function Min(x: set<nat>): (m: nat)
    requires x != {}
    ensures m in x
    ensures forall d | d in x :: m <= d
  {
    MinExists(x);
    var m :| IsMin(m, x);
    m
  }

  lemma {:induction false} MinExists(x: set<nat>)
    requires x != {}
    ensures exists m :: IsMin(m, x)
    decreases |x|
  {
    var c :| c in x;
    var y := x - {c};
    assert x == y + {c};
    if y == {} {
      assert IsMin(c, x);
    } else {
      MinExists(y);
      var m :| IsMin(m, y);
      assert IsMin(if c < m then c else m, x);
    }
  }

  /** The elements of `x` of least weight. */
  ghost function Lightest(x: set<nat>, w: seq<int>): set<nat>
    requires forall c | c in x :: c < |w|
  {
    set c | c in x && forall d | d in x :: w[c] <= w[d]
  }

  lemma {:induction false} LightestExists(x: set<nat>, w: seq<int>)
    requires x != {} && forall c | c in x :: c < |w|
    ensures Lightest(x, w) != {}
    decreases |x|
  {
    var c :| c in x;
    if x == {c} {
      assert c in Lightest(x, w);
    } else {
      var y := x - {c};
      assert x == y + {c};
      LightestExists(y, w);
      var m :| m in Lightest(y, w);
      if w[c] < w[m] {
        assert c in Lightest(x, w);
      } else {
        assert m in Lightest(x, w);
      }
    }
  }

  /** The lowest-numbered element of least weight. */
  ghost function Pick(x: set<nat>, w: seq<int>): (c: nat)
    requires x != {} && forall c | c in x :: c < |w|
    ensures c in x
    ensures forall d | d in x :: w[c] <= w[d] && (d < c ==> w[c] < w[d])
  {
    LightestExists(x, w);
    var c := Min(Lightest(x, w));
    assert forall d | d in x && w[d] <= w[c] :: d in Lightest(x, w);
    c
  }

  /** `Pick` is the only element with that property. */
  lemma PickUnique(x: set<nat>, w: seq<int>, c: nat)
    requires x != {} && forall c | c in x :: c < |w|
    requires c in x && forall d | d in x :: w[c] <= w[d] && (d < c ==> w[c] < w[d])
    ensures c == Pick(x, w)
  {
    var p := Pick(x, w);
    assert w[c] <= w[p] && w[p] <= w[c];
  }
}
