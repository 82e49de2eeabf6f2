/** The word scans of `lib/bitops.h` against bit-by-bit meanings.  `constant` says that the compiler knows the
    size, which selects the mask expressions for sizes up to one word. */
module Bitops {
  import opened Topology
  import opened CpuScan
  import opened Words

  type Word = x: nat | x < WORD

  /** Bit `i` of the bitmap. */
  predicate BitAt(addr: seq<Word>, i: nat)
    requires i < 64 * |addr|
  {
    Bit(addr[i / 64], i % 64)
  }

  /** `r` is the first index of [from, size) whose bit is `wanted`, or `size`. */
  ghost predicate First(addr: seq<Word>, size: nat, from: nat, wanted: bool, r: nat)
    requires size <= 64 * |addr|
  {
    if from >= size then r == size
    else
      && from <= r <= size && (r < size ==> BitAt(addr, r) == wanted)
      && forall i: nat | from <= i < r :: BitAt(addr, i) != wanted
  }

  /** `r` is the last index below `size` whose bit is set, or `size`. */
  ghost predicate Last(addr: seq<Word>, size: nat, r: nat)
    requires size <= 64 * |addr|
  {
    && r <= size && (r < size ==> BitAt(addr, r))
    && forall i: nat | (if r < size then r + 1 else 0) <= i < size :: !BitAt(addr, i)
  }

  // -------- within a word --------

  predicate Has(w: Word, k: nat) { Bit(w, k) }

  function FirstBit(w: Word, k: nat): (r: nat)
    requires k <= 64
    ensures k <= r <= 64 && (r < 64 ==> Has(w, r)) && forall i: nat | k <= i < r :: !Has(w, i)
    decreases 64 - k
  {
    if k == 64 || Has(w, k) then k else FirstBit(w, k + 1)
  }

  /** `__ffs`: the lowest set bit, or 64. */
  function Ffs(w: Word): (r: nat)
    ensures r <= 64 && (r < 64 ==> Has(w, r)) && forall i: nat | i < r :: !Has(w, i)
  {
    FirstBit(w, 0)
  }

  function LastBit(w: Word, k: nat): (r: nat)
    requires k <= 64
    ensures r == 64 || (r < k && Has(w, r))
    ensures forall i: nat | (if r == 64 then 0 else r + 1) <= i < k :: !Has(w, i)
  {
    if k == 0 then 64 else if Has(w, k - 1) then k - 1 else LastBit(w, k - 1)
  }

  /** `__fls`: the highest set bit, or 64. */
  function Fls(w: Word): (r: nat)
    ensures r <= 64 && (r < 64 ==> Has(w, r))
    ensures forall i: nat | (if r == 64 then 0 else r + 1) <= i < 64 :: !Has(w, i)
  {
    LastBit(w, 64)
  }

  lemma Empty(w: Word)
    ensures w == 0 <==> forall k: nat | k < 64 :: !Has(w, k)
  {
    SomeBit(w);
    if w != 0 {
      var k: nat :| k < 64 && Bit(w, k);
      assert Has(w, k);
    }
  }

  /** The bits of `w` are the wanted bits of the bitmap's word at `pos`, as far as they lie in [lo, hi). */
  ghost predicate Shows(w: Word, addr: seq<Word>, pos: nat, lo: nat, hi: nat, wanted: bool) {
    && pos + 64 <= 64 * |addr|
    && forall k: nat | k < 64 :: Has(w, k) <==> lo <= pos + k < hi && BitAt(addr, pos + k) == wanted
  }

  /** None of the bits from `from` up to `to` is wanted. */
  ghost predicate Clear(addr: seq<Word>, from: nat, to: nat, wanted: bool) {
    to <= 64 * |addr| && forall i: nat | from <= i < to :: BitAt(addr, i) != wanted
  }

  lemma NoneShown(w: Word, addr: seq<Word>, pos: nat, lo: nat, hi: nat, wanted: bool, from: nat, to: nat)
    requires Shows(w, addr, pos, lo, hi, wanted) && pos <= from && lo <= from && to <= hi && to <= pos + 64
    requires forall k: nat | from <= pos + k < to :: !Has(w, k)
    ensures Clear(addr, from, to, wanted)
  {
    forall i: nat | from <= i < to
      ensures BitAt(addr, i) != wanted
    {
      assert !Has(w, i - pos);
    }
  }

  /** What the lowest bit of a word says about the bitmap. */
  lemma LowestShown(w: Word, addr: seq<Word>, pos: nat, lo: nat, hi: nat, wanted: bool)
    requires Shows(w, addr, pos, lo, hi, wanted)
    ensures var from, end := if lo < pos then pos else lo, if hi < pos + 64 then hi else pos + 64;
      var r := pos + Ffs(w);
      if w == 0 then Clear(addr, from, end, wanted)
      else lo <= r < hi && r < pos + 64 && BitAt(addr, r) == wanted && Clear(addr, from, r, wanted)
  {
    var from, end := if lo < pos then pos else lo, if hi < pos + 64 then hi else pos + 64;
    Empty(w);
    NoneShown(w, addr, pos, lo, hi, wanted, from, if w == 0 then end else pos + Ffs(w));
  }

  lemma HighestShown(w: Word, addr: seq<Word>, pos: nat, lo: nat, hi: nat, wanted: bool)
    requires Shows(w, addr, pos, lo, hi, wanted)
    ensures var from, end := if lo < pos then pos else lo, if hi < pos + 64 then hi else pos + 64;
      var r := pos + Fls(w);
      if w == 0 then Clear(addr, from, end, wanted)
      else lo <= r < hi && r < pos + 64 && BitAt(addr, r) == wanted && Clear(addr, r + 1, end, wanted)
  {
    var from, end := if lo < pos then pos else lo, if hi < pos + 64 then hi else pos + 64;
    Empty(w);
    NoneShown(w, addr, pos, lo, hi, wanted, if w == 0 then from else pos + Fls(w) + 1, end);
  }

  // -------- what the masked words show --------

  lemma WordBit(addr: seq<Word>, pos: nat, k: nat)
    requires pos % 64 == 0 && pos < 64 * |addr| && k < 64
    ensures pos + k < 64 * |addr| && BitAt(addr, pos + k) == Has(addr[pos / 64], k)
  {
    assert (pos + k) / 64 == pos / 64 && (pos + k) % 64 == k;
  }

  /** `*addr & GENMASK(size - 1, offset)` */
  lemma MaskedShows(addr: seq<Word>, size: nat, offset: nat)
    requires |addr| > 0 && offset < size <= 64
    ensures Shows(And(addr[0], GenMask(size - 1, offset)), addr, 0, offset, size, true)
  {
    var mask := GenMask(size - 1, offset);
    forall k: nat | k < 64
      ensures Has(And(addr[0], mask), k) <==> offset <= k < size && BitAt(addr, 0 + k)
    {
      AndBit(addr[0], mask, k);
      GenMaskBit(size - 1, offset, k);
      WordBit(addr, 0, k);
    }
  }

  /** `*addr | ~GENMASK(size - 1, offset)`, seen through its complement. */
  lemma UnmaskedShows(addr: seq<Word>, size: nat, offset: nat)
    requires |addr| > 0 && offset < size <= 64
    ensures GenMask(size - 1, offset) < WORD && Or(addr[0], Not(GenMask(size - 1, offset))) < WORD
    ensures Shows(Not(Or(addr[0], Not(GenMask(size - 1, offset)))), addr, 0, offset, size, false)
  {
    var mask := GenMask(size - 1, offset);
    Pow64();
    ShrOnes(BITS_PER_LONG - 1 - (size - 1));
    OrXorBelow(addr[0], Not(mask), 64);
    var val := Or(addr[0], Not(mask));
    forall k: nat | k < 64
      ensures Has(Not(val), k) <==> offset <= k < size && !BitAt(addr, 0 + k)
    {
      NotBit(val, k);
      OrBit(addr[0], Not(mask), k);
      NotBit(mask, k);
      GenMaskBit(size - 1, offset, k);
      WordBit(addr, 0, k);
    }
  }

  /** A whole word after `tmp ^= invert`. */
  lemma LoadedShows(addr: seq<Word>, pos: nat, wanted: bool)
    requires pos % 64 == 0 && pos < 64 * |addr|
    ensures Xor(addr[pos / 64], if wanted then 0 else ONES) < WORD
    ensures Shows(Xor(addr[pos / 64], if wanted then 0 else ONES), addr, pos, 0, 64 * |addr|, wanted)
  {
    var invert := if wanted then 0 else ONES;
    Pow64();
    OrXorBelow(addr[pos / 64], invert, 64);
    forall k: nat | k < 64
      ensures Has(Xor(addr[pos / 64], invert), k) <==> pos + k < 64 * |addr| && BitAt(addr, pos + k) == wanted
    {
      XorBit(addr[pos / 64], invert, k);
      ZeroBit(k);
      HighMask(0, k);
      WordBit(addr, pos, k);
    }
  }

  /** Masking off the bits before `start`. */
  lemma StartShows(tmp: Word, addr: seq<Word>, start: nat, wanted: bool)
    requires start < 64 * |addr| && Shows(tmp, addr, start - start % 64, 0, 64 * |addr|, wanted)
    ensures Shows(And(tmp, Shl(ONES, start % 64)), addr, start - start % 64, start, 64 * |addr|, wanted)
  {
    var low := start % 64;
    forall k: nat | k < 64
      ensures Bit(Shl(ONES, low), k) <==> low <= k
    {
      LowMask(low, k);
    }
    KeptShows(tmp, Shl(ONES, low), addr, start - low, low, wanted);
  }

  /** A mask of the bits from `low` on. */
  lemma KeptShows(tmp: Word, mask: nat, addr: seq<Word>, pos: nat, low: nat, wanted: bool)
    requires Shows(tmp, addr, pos, 0, 64 * |addr|, wanted) && And(tmp, mask) < WORD
    requires forall k: nat | k < 64 :: Bit(mask, k) <==> low <= k
    ensures Shows(And(tmp, mask), addr, pos, pos + low, 64 * |addr|, wanted)
  {
    forall k: nat | k < 64
      ensures Has(And(tmp, mask), k) <==> pos + low <= pos + k < 64 * |addr| && BitAt(addr, pos + k) == wanted
    {
      AndBit(tmp, mask, k);
      assert Has(tmp, k) <==> pos + k < 64 * |addr| && BitAt(addr, pos + k) == wanted;
    }
  }

  // -------- the scans --------

  method FirstSetInWord(addr: seq<Word>, size: nat, offset: nat) returns (r: nat)
    requires |addr| > 0 && offset < size <= 64
    ensures First(addr, size, offset, true, r)
  {
    var val := And(addr[0], GenMask(size - 1, offset));
    MaskedShows(addr, size, offset);
    LowestShown(val, addr, 0, offset, size, true);
    r := if val != 0 then Ffs(val) else size;
  }

  method FirstClearInWord(addr: seq<Word>, size: nat, offset: nat) returns (r: nat)
    requires |addr| > 0 && offset < size <= 64
    ensures First(addr, size, offset, false, r)
  {
    UnmaskedShows(addr, size, offset);
    var val := Or(addr[0], Not(GenMask(size - 1, offset)));
    LowestShown(Not(val), addr, 0, offset, size, false);
    r := if val == ONES then size else Ffs(Not(val));
  }

  /** One word of the bitmap, inverted to look for clear bits. */
  method Load(addr: seq<Word>, pos: nat, wanted: bool, ghost idx: nat) returns (tmp: Word)
    requires pos == 64 * idx && pos < 64 * |addr|
    ensures Shows(tmp, addr, pos, 0, 64 * |addr|, wanted)
  {
    LoadedShows(addr, pos, wanted);
    tmp := Xor(addr[pos / 64], if wanted then 0 else ONES);
  }

  /** The first word, without the bits before `start`. */
  method LoadFrom(addr: seq<Word>, start: nat, wanted: bool) returns (tmp: Word)
    requires start < 64 * |addr|
    ensures Shows(tmp, addr, start - start % 64, start, 64 * |addr|, wanted)
  {
    tmp := Load(addr, start - start % 64, wanted, start / 64);
    StartShows(tmp, addr, start, wanted);
    tmp := And(tmp, Shl(ONES, start % 64));
  }

  /** The scan stands at the word at `pos`, and has found nothing before it. */
  ghost predicate Scanning(tmp: Word, addr: seq<Word>, nbits: nat, start: nat, pos: nat, lo: nat, wanted: bool) {
    && start < nbits <= 64 * |addr| && pos < nbits && start < pos + 64
    && Clear(addr, start, pos, wanted) && Shows(tmp, addr, pos, lo, 64 * |addr|, wanted)
    && (lo == start || (lo == 0 && start < pos))
  }

  /** One more word scanned: nothing wanted so far, or the first wanted bit. */
  lemma Scanned(tmp: Word, addr: seq<Word>, nbits: nat, start: nat, pos: nat, lo: nat, wanted: bool)
    requires Scanning(tmp, addr, nbits, start, pos, lo, wanted)
    ensures if tmp == 0 then Clear(addr, start, pos + 64, wanted)
            else First(addr, nbits, start, wanted, if pos + Ffs(tmp) < nbits then pos + Ffs(tmp) else nbits)
  {
    LowestShown(tmp, addr, pos, lo, 64 * |addr|, wanted);
  }

  /** `_find_next_bit` */
  method FindNextInWords(addr: seq<Word>, nbits: nat, start: nat, wanted: bool) returns (r: nat)
    requires start < nbits <= 64 * |addr|
    ensures First(addr, nbits, start, wanted, r)
  {
    var pos := start - start % 64;
    var tmp := LoadFrom(addr, start, wanted);
    ghost var lo, idx := start, start / 64;
    while tmp == 0
      invariant pos == 64 * idx && Scanning(tmp, addr, nbits, start, pos, lo, wanted)
      decreases nbits - pos
    {
      Scanned(tmp, addr, nbits, start, pos, lo, wanted);
      pos := pos + 64;
      if pos >= nbits { return nbits; }
      lo, idx := 0, idx + 1;
      tmp := Load(addr, pos, wanted, idx);
    }
    Scanned(tmp, addr, nbits, start, pos, lo, wanted);
    var ffs := pos + Ffs(tmp);
    r := if ffs < nbits then ffs else nbits;
  }

  method FindNextBit(addr: seq<Word>, size: nat, offset: nat, constant: bool) returns (r: nat)
    requires size <= 64 * |addr|
    ensures First(addr, size, offset, true, r)
  {
    if offset >= size { return size; }
    if constant && 0 < size <= 64 {
      r := FirstSetInWord(addr, size, offset);
    } else {
      r := FindNextInWords(addr, size, offset, true);
    }
  }

  method FindNextZeroBit(addr: seq<Word>, size: nat, offset: nat, constant: bool) returns (r: nat)
    requires size <= 64 * |addr|
    ensures First(addr, size, offset, false, r)
  {
    if offset >= size { return size; }
    if constant && 0 < size <= 64 {
      r := FirstClearInWord(addr, size, offset);
    } else {
      r := FindNextInWords(addr, size, offset, false);
    }
  }

  /** One more whole word scanned from the start of the bitmap. */
  lemma WordScanned(addr: seq<Word>, idx: nat, size: nat, wanted: bool)
    requires idx * 64 < size <= 64 * |addr| && Clear(addr, 0, idx * 64, wanted)
    ensures var w := if wanted then addr[idx] else Not(addr[idx]);
      var r := idx * 64 + Ffs(w);
      if w == 0 then Clear(addr, 0, idx * 64 + 64, wanted)
      else First(addr, size, 0, wanted, if r < size then r else size)
  {
    WordShows(addr, idx * 64, wanted);
    LowestShown(if wanted then addr[idx] else Not(addr[idx]), addr, idx * 64, 0, 64 * |addr|, wanted);
  }

  method FindFirstBit(addr: seq<Word>, size: nat, constant: bool) returns (r: nat)
    requires size <= 64 * |addr|
    ensures First(addr, size, 0, true, r)
  {
    if constant && 0 < size <= 64 {
      r := FirstSetInWord(addr, size, 0);
      return;
    }
    var idx := 0;
    while idx * 64 < size
      invariant idx <= |addr| && Clear(addr, 0, idx * 64, true)
      decreases size - idx * 64
    {
      WordScanned(addr, idx, size, true);
      if addr[idx] != 0 {
        var ffs := idx * 64 + Ffs(addr[idx]);
        return if ffs < size then ffs else size;
      }
      idx := idx + 1;
    }
    return size;
  }

  lemma WordShows(addr: seq<Word>, pos: nat, wanted: bool)
    requires pos % 64 == 0 && pos < 64 * |addr|
    ensures Shows(if wanted then addr[pos / 64] else Not(addr[pos / 64]), addr, pos, 0, 64 * |addr|, wanted)
  {
    var w := if wanted then addr[pos / 64] else Not(addr[pos / 64]);
    forall k: nat | k < 64
      ensures Has(w, k) <==> pos + k < 64 * |addr| && BitAt(addr, pos + k) == wanted
    {
      WordBit(addr, pos, k);
      NotBit(addr[pos / 64], k);
    }
  }

  method FindFirstZeroBit(addr: seq<Word>, size: nat, constant: bool) returns (r: nat)
    requires size <= 64 * |addr|
    ensures First(addr, size, 0, false, r)
  {
    if constant && 0 < size <= 64 {
      r := FirstClearInWord(addr, size, 0);
      return;
    }
    var idx := 0;
    while idx * 64 < size
      invariant idx <= |addr| && Clear(addr, 0, idx * 64, false)
      decreases size - idx * 64
    {
      WordScanned(addr, idx, size, false);
      if addr[idx] != ONES {
        var ffz := idx * 64 + Ffs(Not(addr[idx]));
        return if ffz < size then ffz else size;
      }
      idx := idx + 1;
    }
    return size;
  }

  method LastSetInWord(addr: seq<Word>, size: nat) returns (r: nat)
    requires |addr| > 0 && 0 < size <= 64
    ensures Last(addr, size, r)
  {
    var val := And(addr[0], GenMask(size - 1, 0));
    MaskedShows(addr, size, 0);
    HighestShown(val, addr, 0, 0, size, true);
    r := if val != 0 then Fls(val) else size;
  }

  /** The bits of the word at `pos` below `hi`. */
  ghost predicate Masks(val: Word, pos: nat, hi: nat) {
    forall k: nat | k < 64 :: Has(val, k) <==> pos + k < hi
  }

  /** The mask for the last word of a bitmap. */
  lemma EndMask(size: nat)
    requires size > 0
    ensures Masks(Shr(ONES, (64 - size % 64) % 64), (size - 1) / 64 * 64, size)
  {
    var shift, pos := (64 - size % 64) % 64, (size - 1) / 64 * 64;
    assert size - pos == 64 - shift;
    forall k: nat | k < 64
      ensures Has(Shr(ONES, shift), k) <==> pos + k < size
    {
      HighMask(shift, k);
    }
  }

  lemma FullMask(pos: nat, hi: nat)
    requires hi == pos + 64
    ensures Masks(ONES, pos, hi)
  {
    forall k: nat | k < 64
      ensures Has(ONES, k)
    {
      HighMask(0, k);
    }
  }

  /** The word at `pos` under the mask of the bits below `hi`. */
  lemma EndShows(addr: seq<Word>, val: Word, pos: nat, hi: nat)
    requires pos % 64 == 0 && pos < 64 * |addr| && Masks(val, pos, hi)
    ensures Shows(And(val, addr[pos / 64]), addr, pos, 0, hi, true)
  {
    forall k: nat | k < 64
      ensures Has(And(val, addr[pos / 64]), k) <==> pos + k < hi && BitAt(addr, pos + k)
    {
      AndBit(val, addr[pos / 64], k);
      WordBit(addr, pos, k);
      assert Has(val, k) <==> pos + k < hi;
    }
  }

  /** `find_last_bit`.  It reads the last word first, so the bitmap must not be empty. */
  method FindLastBit(addr: seq<Word>, size: nat, constant: bool) returns (r: nat)
    requires 0 < size <= 64 * |addr|
    ensures Last(addr, size, r)
  {
    if constant && size <= 64 {
      r := LastSetInWord(addr, size);
      return;
    }
    var val: Word := Shr(ONES, (64 - size % 64) % 64);
    var idx: nat := (size - 1) / 64;
    ghost var hi := size;
    EndMask(size);
    while true
      invariant idx * 64 < hi <= idx * 64 + 64 && hi <= size && Masks(val, idx * 64, hi)
      invariant Clear(addr, hi, size, true)
      decreases idx
    {
      EndShows(addr, val, idx * 64, hi);
      val := And(val, addr[idx]);
      HighestShown(val, addr, idx * 64, 0, hi, true);
      if val != 0 {
        r := idx * 64 + Fls(val);
        return;
      }
      if idx == 0 { return size; }
      hi := idx * 64;
      val, idx := ONES, idx - 1;
      FullMask(idx * 64, hi);
    }
  }

  // -------- CPU sets --------

  /** The CPU set a bitmap of `CPU_SETSIZE` bits stands for. */
  function CpusOf(addr: seq<Word>): (x: set<nat>)
    requires |addr| == CPU_SETSIZE / 64
    ensures forall i: nat :: i in x <==> i < CPU_SETSIZE && BitAt(addr, i)
  {
    set i: nat | i < CPU_SETSIZE && BitAt(addr, i)
  }

  /** `cpuset_find_first_set` */
  method FirstSet(addr: seq<Word>) returns (pos: int)
    requires |addr| == CPU_SETSIZE / 64
    ensures pos == FindFrom(CpusOf(addr), 0)
  {
    var r := FindFirstBit(addr, CPU_SETSIZE, true);
    pos := if r == CPU_SETSIZE then -1 else r;
  }

  /** `cpuset_find_next_set` */
  method NextSet(addr: seq<Word>, begin: int) returns (pos: int)
    requires |addr| == CPU_SETSIZE / 64 && begin >= -1
    ensures pos == FindFrom(CpusOf(addr), begin + 1)
  {
    var r := FindNextBit(addr, CPU_SETSIZE, begin + 1, true);
    pos := if r == CPU_SETSIZE then -1 else r;
  }

  /** `cpuset_find_last_set` */
  method LastSet(addr: seq<Word>) returns (pos: int)
    requires |addr| == CPU_SETSIZE / 64
    ensures pos == FindLast(CpusOf(addr))
  {
    var r := FindLastBit(addr, CPU_SETSIZE, true);
    pos := if r == CPU_SETSIZE then -1 else r;
  }

  /** `cpuset_find_first_unset` */
  method FirstUnset(addr: seq<Word>) returns (pos: int)
    requires |addr| == CPU_SETSIZE / 64
    ensures if pos == -1 then forall i: nat | i < CPU_SETSIZE :: i in CpusOf(addr)
            else 0 <= pos < CPU_SETSIZE && pos !in CpusOf(addr) && forall i: nat | i < pos :: i in CpusOf(addr)
  {
    var r := FindFirstZeroBit(addr, CPU_SETSIZE, true);
    pos := if r == CPU_SETSIZE then -1 else r;
  }
}
