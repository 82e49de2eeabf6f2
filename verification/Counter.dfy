/** A 32-bit counter that is stepped until it reaches a bound.

    Its values after the start are those of one residue class modulo the greatest power of two that divides the
    step, so whether the bound is ever reached depends on the greatest of them. */
module Counter {
  import opened CpuSet
  import opened Words

  const UINT: nat := 0x1_0000_0000

  /** The counter's value after `k` steps of `s` from `a`. */
  function At(a: nat, s: nat, k: nat): (v: nat)
    ensures v < UINT
  {
    (a + k * s) % UINT
  }

  /** The greatest power of two that divides `s`. */
  function Two(s: nat): (g: nat)
    requires s > 0
    ensures 0 < g <= s
  {
    if s % 2 == 1 then 1 else 2 * Two(s / 2)
  }

  // -------- arithmetic --------

  lemma ModPlus(v: int, m: int, p: nat)
    requires p > 0
    ensures (v + p * m) % p == v % p
  {
    var q, r := v / p, v % p;
    assert v + p * m == p * (q + m) + r;
    DivModUnique(v + p * m, p, q + m, r);
  }

  /** `s` is an odd multiple of a power of two. */
  lemma {:induction false} TwoSplits(s: nat) returns (e: nat, o: nat)
    requires s > 0
    ensures Two(s) == Pow(e) && s == Two(s) * o && o % 2 == 1
  {
    if s % 2 == 1 {
      e, o := 0, s;
    } else {
      e, o := TwoSplits(s / 2);
      assert 2 * (Two(s / 2) * o) == (2 * Two(s / 2)) * o;
      e := e + 1;
    }
  }

  lemma UintIsPow()
    ensures UINT == Pow(32)
  {
    assert Pow(8) == 256;
    PowSum(8, 8);
    PowSum(16, 16);
  }

  lemma PowBelow(e: nat)
    requires Pow(e) < UINT
    ensures e < 32
  {
    UintIsPow();
    if e >= 32 { PowMono(32, e); }
  }

  /** Multiples of an odd number take every value modulo a power of two. */
  lemma {:induction false} OddSolves(o: nat, d: int, e: nat) returns (k: nat, m: int)
    requires o % 2 == 1
    ensures k * o - d == Pow(e) * m
  {
    if e == 0 {
      k, m := 0, -d;
    } else {
      k, m := OddSolves(o, d, e - 1);
      var p := Pow(e - 1);
      if m % 2 == 0 {
        m := m / 2;
      } else {
        k, m := OddStep(o, d, p, k, m);
      }
    }
  }

  lemma OddStep(o: nat, d: int, p: nat, k: nat, m: int) returns (k': nat, m': int)
    requires o % 2 == 1 && m % 2 == 1 && k * o - d == p * m
    ensures k' * o - d == (2 * p) * m'
  {
    k', m' := k + p, (m + o) / 2;
    assert m + o == 2 * m';
    assert (k + p) * o == k * o + p * o;
    assert p * m + p * o == p * (m + o);
    assert p * (2 * m') == (2 * p) * m';
  }

  // -------- the values of the counter --------

  lemma TwoDividesUint(s: nat) returns (p: nat)
    requires 0 < s < UINT
    ensures UINT == Two(s) * p
  {
    var e, o := TwoSplits(s);
    PowBelow(e);
    UintIsPow();
    PowSum(e, 32 - e);
    p := Pow(32 - e);
  }

  lemma ClassStep(g: nat, o: nat, p: nat, k: nat, a: nat, w: int)
    requires g > 0
    ensures (a + k * (g * o) - (g * p) * w) % g == a % g
  {
    var m := k * o - p * w;
    assert k * (g * o) == g * (k * o) && (g * p) * w == g * (p * w);
    assert g * (k * o) - g * (p * w) == g * m;
    ModPlus(a, m, g);
  }

  /** All values are congruent to the start. */
  lemma Congruent(a: nat, s: nat, k: nat)
    requires 0 < s < UINT
    ensures At(a, s, k) % Two(s) == a % Two(s)
  {
    var e, o := TwoSplits(s);
    var p := TwoDividesUint(s);
    var x := a + k * s;
    assert x == UINT * (x / UINT) + x % UINT;
    ClassStep(Two(s), o, p, k, a, x / UINT);
  }

  /** And all congruent values are reached. */
  lemma Reached(a: nat, s: nat, v: nat) returns (k: nat)
    requires 0 < s < UINT && v < UINT && v % Two(s) == a % Two(s)
    ensures At(a, s, k) == v
  {
    var g := Two(s);
    var e, o := TwoSplits(s);
    PowBelow(e);
    UintIsPow();
    PowSum(e, 32 - e);
    var d := v / g - a / g;
    SameClass(v, a, g);
    var m;
    k, m := OddSolves(o, d, 32 - e);
    Lands(a, v, g, o, Pow(32 - e), d, k, m);
  }

  lemma SameClass(v: int, a: int, g: nat)
    requires g > 0 && v % g == a % g
    ensures v - a == g * (v / g - a / g)
  {
    assert v == g * (v / g) + v % g && a == g * (a / g) + a % g;
  }

  lemma Lands(a: nat, v: nat, g: nat, o: nat, p: nat, d: int, k: nat, m: int)
    requires g * p == UINT && v < UINT && v - a == g * d && k * o - d == p * m
    ensures (a + k * (g * o)) % UINT == v
  {
    assert k * (g * o) == g * (k * o);
    assert g * (k * o) - g * d == g * (k * o - d);
    assert g * (p * m) == (g * p) * m;
    assert a + k * (g * o) == v + UINT * m;
    ModPlus(v, m, UINT);
  }

  /** The counter's values are exactly the 32-bit numbers congruent to its start modulo the greatest power of two in
      the step. */
  lemma Values(a: nat, s: nat, v: nat)
    requires 0 < s < UINT
    ensures (exists k: nat :: At(a, s, k) == v) <==> v < UINT && v % Two(s) == a % Two(s)
  {
    if v < UINT && v % Two(s) == a % Two(s) { var k := Reached(a, s, v); }
    if k: nat :| At(a, s, k) == v { Congruent(a, s, k); }
  }

  /** The greatest value the counter ever has. */
  function Greatest(a: nat, s: nat): int
    requires s > 0
  {
    UINT - Two(s) + a % Two(s)
  }

  lemma GreatestReached(a: nat, s: nat) returns (k: nat)
    requires 0 < s < UINT
    ensures At(a, s, k) == Greatest(a, s)
  {
    var g := Two(s);
    var p := TwoDividesUint(s);
    assert Greatest(a, s) == a % g + g * (p - 1) by { assert g * (p - 1) == g * p - g; }
    ModPlus(a % g, p - 1, g);
    assert (a % g) % g == a % g by { DivModUnique(a % g, g, 0, a % g); }
    k := Reached(a, s, Greatest(a, s));
  }

  lemma NoneGreater(a: nat, s: nat, k: nat)
    requires 0 < s < UINT
    ensures At(a, s, k) <= Greatest(a, s)
  {
    var p := TwoDividesUint(s);
    Congruent(a, s, k);
    GreatestInClass(At(a, s, k), Two(s), p);
  }

  lemma GreatestInClass(v: nat, g: nat, p: nat)
    requires g > 0 && v < g * p
    ensures v <= g * p - g + v % g
  {
    Parts(v, g);
    FewTimes(g, v / g, p, v % g);
  }

  lemma Parts(v: int, g: nat)
    requires g > 0
    ensures v == g * (v / g) + v % g
  {
  }

  lemma FewTimes(g: nat, q: int, p: nat, r: nat)
    requires g * q + r < g * p
    ensures g * q + r <= g * p - g + r
  {
    assert q >= p ==> g * q >= g * p;
    assert q <= p - 1 ==> g * q <= g * (p - 1);
    assert g * (p - 1) == g * p - g;
  }

  // -------- stepping until the bound --------

  ghost predicate Ends(a: nat, s: nat, stop: nat) { exists k: nat :: At(a, s, k) >= stop }

  /** The counter reaches the bound if and only if its greatest value does. */
  lemma EndsIff(a: nat, s: nat, stop: nat)
    requires 0 < s < UINT
    ensures Ends(a, s, stop) <==> Greatest(a, s) >= stop
  {
    var k := GreatestReached(a, s);
    if i: nat :| At(a, s, i) >= stop { NoneGreater(a, s, i); }
  }

  /** Step `e` is the first at the bound. */
  ghost predicate IsExit(a: nat, s: nat, stop: nat, e: nat) {
    At(a, s, e) >= stop && forall k: nat | k < e :: At(a, s, k) < stop
  }

  lemma ExitExists(a: nat, s: nat, stop: nat)
    requires Ends(a, s, stop)
    ensures exists e: nat :: IsExit(a, s, stop, e)
  {
    var k: nat :| At(a, s, k) >= stop;
    var e: nat := 0;
    while At(a, s, e) < stop
      invariant forall i: nat | i < e :: At(a, s, i) < stop
      invariant e <= k
      decreases k - e
    {
      e := e + 1;
    }
    assert IsExit(a, s, stop, e);
  }

  ghost function Exit(a: nat, s: nat, stop: nat): (e: nat)
    requires Ends(a, s, stop)
    ensures IsExit(a, s, stop, e)
  {
    ExitExists(a, s, stop);
    var e: nat :| IsExit(a, s, stop, e);
    e
  }

  lemma ExitIs(a: nat, s: nat, stop: nat, e: nat)
    requires IsExit(a, s, stop, e)
    ensures Ends(a, s, stop) && Exit(a, s, stop) == e
  {
    var x := Exit(a, s, stop);
    assert !(x < e) && !(e < x);
  }

  lemma AtNext(a: nat, s: nat, k: nat)
    ensures At(a, s, k + 1) == (At(a, s, k) + s) % UINT
  {
    var x := a + k * s;
    assert a + (k + 1) * s == x + s;
    assert x == UINT * (x / UINT) + x % UINT;
    ModPlus(x % UINT + s, x / UINT, UINT);
  }

  /** Until the exit no value comes twice. */
  lemma NoRepeat(a: nat, s: nat, stop: nat, i: nat, j: nat)
    requires Ends(a, s, stop) && i < j < Exit(a, s, stop)
    ensures At(a, s, i) != At(a, s, j)
  {
    var e := Exit(a, s, stop);
    assert At(a, s, e - (j - i)) < stop <= At(a, s, e);
    if At(a, s, i) == At(a, s, j) { Periodic(a, s, i, j, e); }
  }

  lemma Periodic(a: nat, s: nat, i: nat, j: nat, e: nat)
    requires i < j <= e && At(a, s, i) == At(a, s, j)
    ensures At(a, s, e - (j - i)) == At(a, s, e)
  {
    var x, y, z := a + i * s, a + j * s, a + (e - (j - i)) * s;
    assert x == UINT * (x / UINT) + x % UINT && y == UINT * (y / UINT) + y % UINT;
    var m := y / UINT - x / UINT;
    assert y - x == UINT * m by { assert UINT * (y / UINT) - UINT * (x / UINT) == UINT * m; }
    assert (j - i) * s == j * s - i * s && (e - (j - i)) * s == e * s - (j - i) * s;
    assert a + e * s == z + UINT * m;
    ModPlus(z, m, UINT);
  }
}
