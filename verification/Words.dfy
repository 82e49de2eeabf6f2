/** 64-bit words as numbers, with the bitwise operators by their meaning bit by bit. */
module Words {
  const BITS_PER_LONG: nat := 64
  const WORD: nat := 0x1_0000_0000_0000_0000
  const ONES: nat := WORD - 1

  function Pow(n: nat): (r: nat)
    ensures r > 0
  {
    if n == 0 then 1 else 2 * Pow(n - 1)
  }

  predicate Bit(w: nat, k: nat) {
    if k == 0 then w % 2 == 1 else Bit(w / 2, k - 1)
  }

  // -------- the operators of C --------

  function And(x: nat, y: nat): (r: nat)
    ensures r <= x && r <= y
  {
    if x == 0 then 0 else 2 * And(x / 2, y / 2) + if x % 2 == 1 && y % 2 == 1 then 1 else 0
  }

  function Or(x: nat, y: nat): nat
    decreases x + y
  {
    if x + y == 0 then 0 else 2 * Or(x / 2, y / 2) + if x % 2 == 1 || y % 2 == 1 then 1 else 0
  }

  function Xor(x: nat, y: nat): nat
    decreases x + y
  {
    if x + y == 0 then 0 else 2 * Xor(x / 2, y / 2) + if x % 2 != y % 2 then 1 else 0
  }

  function Not(x: nat): (r: nat)
    requires x < WORD
    ensures r < WORD
  {
    ONES - x
  }

  function Shr(x: nat, k: nat): (r: nat)
    ensures r <= x
  {
    if k == 0 then x else Shr(x, k - 1) / 2
  }

  function Shl(x: nat, k: nat): (r: nat)
    requires x < WORD
    ensures r < WORD
  {
    if k == 0 then x else 2 * Shl(x, k - 1) % WORD
  }

  /** `GENMASK(h, l)` */
  function GenMask(h: nat, l: nat): nat
    requires h < 64
  {
    And((ONES - Shl(1, l) + 1) % WORD, Shr(ONES, BITS_PER_LONG - 1 - h))
  }

  // -------- their bits --------

  lemma Pow64()
    ensures Pow(64) == WORD
  {
    Pow8();
    PowDouble(8, 0x100);
    PowDouble(16, 0x1_0000);
    PowDouble(32, 0x1_0000_0000);
  }

  lemma Pow8()
    ensures Pow(8) == 0x100
  {
    assert Pow(4) == 16;
  }

  lemma PowDouble(n: nat, p: nat)
    requires Pow(n) == p
    ensures Pow(n + n) == p * p
  {
    PowSum(n, n);
  }

  lemma Doubled(p: int, q: int)
    ensures p * (2 * q) == 2 * (p * q)
  {
  }

  lemma {:induction false} PowSum(a: nat, b: nat)
    ensures Pow(a + b) == Pow(a) * Pow(b)
  {
    if b > 0 {
      PowSum(a, b - 1);
      Doubled(Pow(a), Pow(b - 1));
    }
  }

  lemma {:induction false} PowMono(a: nat, b: nat)
    requires a <= b
    ensures Pow(a) <= Pow(b)
  {
    if a < b { PowMono(a, b - 1); }
  }

  lemma {:induction false} ZeroBit(k: nat)
    ensures !Bit(0, k)
  {
    if k > 0 { ZeroBit(k - 1); }
  }

  /** A number of `n` bits is zero exactly when none of them is set. */
  lemma {:induction false} NoBits(x: nat, n: nat)
    requires x < Pow(n) && forall k: nat | k < n :: !Bit(x, k)
    ensures x == 0
  {
    if n > 0 {
      assert !Bit(x, 0);
      forall k: nat | k < n - 1
        ensures !Bit(x / 2, k)
      {
        assert !Bit(x, k + 1);
      }
      NoBits(x / 2, n - 1);
    }
  }

  lemma SomeBit(w: nat)
    requires w < WORD
    ensures w == 0 ==> forall k: nat :: !Bit(w, k)
    ensures w != 0 ==> exists k: nat :: k < 64 && Bit(w, k)
  {
    Pow64();
    if w == 0 {
      forall k: nat
        ensures !Bit(w, k)
      {
        ZeroBit(k);
      }
    } else if forall k: nat | k < 64 :: !Bit(w, k) {
      NoBits(w, 64);
    }
  }

  lemma {:induction false} AndBit(x: nat, y: nat, k: nat)
    ensures Bit(And(x, y), k) <==> Bit(x, k) && Bit(y, k)
    decreases k
  {
    if x == 0 {
      ZeroBit(k);
    } else if k > 0 {
      assert And(x, y) / 2 == And(x / 2, y / 2);
      AndBit(x / 2, y / 2, k - 1);
    }
  }

  lemma {:induction false} OrBit(x: nat, y: nat, k: nat)
    ensures Bit(Or(x, y), k) <==> Bit(x, k) || Bit(y, k)
    decreases k
  {
    if x + y == 0 {
      ZeroBit(k);
    } else if k > 0 {
      assert Or(x, y) / 2 == Or(x / 2, y / 2);
      OrBit(x / 2, y / 2, k - 1);
    }
  }

  lemma {:induction false} XorBit(x: nat, y: nat, k: nat)
    ensures Bit(Xor(x, y), k) <==> Bit(x, k) != Bit(y, k)
    decreases k
  {
    if x + y == 0 {
      ZeroBit(k);
    } else if k > 0 {
      assert Xor(x, y) / 2 == Xor(x / 2, y / 2);
      XorBit(x / 2, y / 2, k - 1);
    }
  }

  /** Words stay words. */
  lemma {:induction false} OrXorBelow(x: nat, y: nat, n: nat)
    requires x < Pow(n) && y < Pow(n)
    ensures Or(x, y) < Pow(n) && Xor(x, y) < Pow(n)
    decreases n
  {
    if n > 0 { OrXorBelow(x / 2, y / 2, n - 1); }
  }

  lemma {:induction false} ComplementBit(x: nat, n: nat, k: nat)
    requires x < Pow(n) && k < n
    ensures Bit(Pow(n) - 1 - x, k) <==> !Bit(x, k)
  {
    if k > 0 {
      assert (Pow(n) - 1 - x) / 2 == Pow(n - 1) - 1 - x / 2;
      ComplementBit(x / 2, n - 1, k - 1);
    }
  }

  lemma NotBit(x: nat, k: nat)
    requires x < WORD && k < 64
    ensures Bit(Not(x), k) <==> !Bit(x, k)
  {
    Pow64();
    ComplementBit(x, 64, k);
  }

  /** `2^n - 2^a` has exactly the bits from `a` to `n - 1`. */
  lemma {:induction false} RangeBit(a: nat, n: nat, k: nat)
    requires a <= n && Pow(a) <= Pow(n)
    ensures Bit(Pow(n) - Pow(a), k) <==> a <= k < n
    decreases k
  {
    if a == n {
      ZeroBit(k);
    } else if k > 0 {
      var a' := if a == 0 then 0 else a - 1;
      PowMono(a', n - 1);
      assert (Pow(n) - Pow(a)) / 2 == Pow(n - 1) - Pow(a');
      RangeBit(a', n - 1, k - 1);
    }
  }

  lemma {:induction false} ShrOnes(b: nat)
    requires b <= 64
    ensures Shr(ONES, b) == Pow(64 - b) - 1
  {
    Pow64();
    if b > 0 { ShrOnes(b - 1); }
  }

  lemma Wrapped(x: nat)
    requires 0 < 2 * x <= WORD
    ensures 2 * (WORD - x) % WORD == WORD - 2 * x
  {
  }

  lemma {:induction false} ShlOnes(a: nat)
    requires a <= 64
    ensures Shl(ONES, a) == WORD - Pow(a) && Pow(a) <= WORD
  {
    Pow64();
    PowMono(a, 64);
    if a > 0 {
      ShlOnes(a - 1);
      Wrapped(Pow(a - 1));
    }
  }

  lemma NoWrap(x: nat)
    requires 2 * x < WORD
    ensures 2 * x % WORD == 2 * x
  {
  }

  lemma PowBelow(l: nat)
    requires l < 64
    ensures Pow(l) < WORD
  {
    Pow64();
    PowMono(l + 1, 64);
  }

  lemma {:induction false} ShlOne(l: nat)
    requires l < 64
    ensures Shl(1, l) == Pow(l)
  {
    PowBelow(l);
    if l > 0 {
      ShlOne(l - 1);
      NoWrap(Pow(l - 1));
    }
  }

  /** `~0UL >> b` has the bits below `64 - b`. */
  lemma HighMask(b: nat, k: nat)
    requires b <= 64
    ensures Bit(Shr(ONES, b), k) <==> k < 64 - b
  {
    ShrOnes(b);
    RangeBit(0, 64 - b, k);
  }

  /** `~0UL << a` has the bits from `a` on. */
  lemma LowMask(a: nat, k: nat)
    requires a <= 64
    ensures Bit(Shl(ONES, a), k) <==> a <= k < 64
  {
    Pow64();
    ShlOnes(a);
    RangeBit(a, 64, k);
  }

  lemma GenMaskIs(h: nat, l: nat)
    requires h < 64 && l < 64
    ensures GenMask(h, l) == And(Shl(ONES, l), Shr(ONES, 63 - h))
  {
    assert (ONES - Shl(1, l) + 1) % WORD == Shl(ONES, l) by {
      ShlOne(l);
      ShlOnes(l);
      PowPositive(l);
      BelowWord(WORD - Pow(l));
    }
  }

  lemma BelowWord(x: nat)
    requires x < WORD
    ensures x % WORD == x
  {
  }

  lemma {:induction false} PowPositive(l: nat)
    ensures Pow(l) > 0
  {
    if l > 0 { PowPositive(l - 1); }
  }

  /** The mask expression selects the bits from `l` to `h`. */
  lemma GenMaskBit(h: nat, l: nat, k: nat)
    requires h < 64 && l < 64
    ensures Bit(GenMask(h, l), k) <==> l <= k <= h
  {
    GenMaskIs(h, l);
    AndBit(Shl(ONES, l), Shr(ONES, 63 - h), k);
    LowMask(l, k);
    HighMask(63 - h, k);
  }
}
