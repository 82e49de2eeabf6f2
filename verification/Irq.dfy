/** The hex bitmap printer and parser of `lib/irq.c`, related through the number a text denotes. */
module Irq {
  import opened Words
  import opened Bitops

  const CHUNKSZ: nat := 32
  const CHUNKS: nat := 32

  // -------- hex digits and the number a text denotes --------

  function ToLower(ch: char): char {
    if 'A' <= ch <= 'Z' then (ch as int + 32) as char else ch
  }

  /** `hex_to_bin` */
  function HexToBin(ch: char): (r: int)
    ensures -1 <= r < 16
  {
    if '0' <= ch <= '9' then ch as int - '0' as int
    else
      var low := ToLower(ch);
      if 'a' <= low <= 'f' then low as int - 'a' as int + 10 else -1
  }

  /** The value is the place of the digit, in either case, among the hex digits; -1 for any other character. */
  lemma HexToBinMeans(ch: char)
    ensures var r, digits := HexToBin(ch), "0123456789abcdef";
      if r >= 0 then digits[r] == ToLower(ch) else ToLower(ch) !in digits
  {
  }

  /** The character `%lx` prints for one digit. */
  function HexDigit(d: nat): (ch: char)
    requires d < 16
    ensures HexToBin(ch) == d && ch != ',' && ch != '\n'
  {
    if d < 10 then (d + '0' as int) as char else (d - 10 + 'a' as int) as char
  }

  /** Hex digits and commas only. */
  predicate IsHexText(s: string) {
    forall i | 0 <= i < |s| :: s[i] == ',' || HexToBin(s[i]) >= 0
  }

  function Digits(s: string): (r: nat)
    ensures r <= |s|
  {
    if s == [] then 0 else (if s[0] == ',' then 0 else 1) + Digits(s[1..])
  }

  /** The number the digits denote, commas aside. */
  function Denoted(s: string): nat
    requires IsHexText(s)
  {
    if s == [] then 0
    else if s[0] == ',' then Denoted(s[1..])
    else HexToBin(s[0]) * Pow(4 * Digits(s[1..])) + Denoted(s[1..])
  }

  lemma {:induction false} DigitsConcat(s: string, t: string)
    ensures Digits(s + t) == Digits(s) + Digits(t)
  {
    if s == [] {
      assert s + t == t;
    } else {
      assert (s + t)[1..] == s[1..] + t;
      DigitsConcat(s[1..], t);
    }
  }

  lemma {:induction false} DenotedConcat(s: string, t: string)
    requires IsHexText(s) && IsHexText(t)
    ensures IsHexText(s + t) && Denoted(s + t) == Denoted(s) * Pow(4 * Digits(t)) + Denoted(t)
  {
    if s == [] {
      assert s + t == t;
    } else {
      var s' := s[1..];
      assert (s + t)[1..] == s' + t;
      DenotedConcat(s', t);
      DigitsConcat(s', t);
      if s[0] != ',' {
        ShiftedDigit(HexToBin(s[0]), Digits(s'), Digits(t), Denoted(s'));
      }
    }
  }

  lemma ShiftedDigit(d: nat, a: nat, b: nat, low: nat)
    ensures (d * Pow(4 * a) + low) * Pow(4 * b) == d * Pow(4 * (a + b)) + low * Pow(4 * b)
  {
    PowSum(4 * a, 4 * b);
    Spread(d, Pow(4 * a), low, Pow(4 * b));
  }

  lemma Spread(d: int, a: int, b: int, p: int)
    ensures (d * a + b) * p == d * (a * p) + b * p
  {
  }

  // -------- numbers and their bits --------

  /** Bits [lo, hi) of the bitmap as a number. */
  function Number(addr: seq<Word>, lo: nat, hi: nat): nat
    requires hi <= 64 * |addr|
    decreases hi - lo
  {
    if lo >= hi then 0 else (if BitAt(addr, lo) then 1 else 0) + 2 * Number(addr, lo + 1, hi)
  }

  lemma Twice(p: nat, x: nat)
    ensures (2 * p) * x == 2 * (p * x)
  {
  }

  lemma {:induction false} NumberSplit(addr: seq<Word>, lo: nat, mid: nat, hi: nat)
    requires lo <= mid <= hi <= 64 * |addr|
    ensures Number(addr, lo, hi) == Number(addr, lo, mid) + Pow(mid - lo) * Number(addr, mid, hi)
    decreases mid - lo
  {
    if lo < mid {
      NumberSplit(addr, lo + 1, mid, hi);
      Twice(Pow(mid - (lo + 1)), Number(addr, mid, hi));
      assert Pow(mid - lo) == 2 * Pow(mid - (lo + 1));
    } else {
      assert Pow(mid - lo) == 1;
    }
  }

  lemma {:induction false} NumberBit(addr: seq<Word>, lo: nat, hi: nat, k: nat)
    requires hi <= 64 * |addr|
    ensures Bit(Number(addr, lo, hi), k) <==> lo + k < hi && BitAt(addr, lo + k)
    decreases k
  {
    if lo >= hi {
      ZeroBit(k);
    } else if k > 0 {
      assert Number(addr, lo, hi) / 2 == Number(addr, lo + 1, hi);
      NumberBit(addr, lo + 1, hi, k - 1);
    }
  }

  lemma {:induction false} ShrBit(x: nat, b: nat, k: nat)
    ensures Bit(Shr(x, b), k) == Bit(x, b + k)
  {
    if b > 0 { ShrBit(x, b - 1, k + 1); }
  }

  lemma AndStep(y: nat, c: nat)
    requires c > 0
    ensures And(y, Pow(c) - 1) == y % 2 + 2 * And(y / 2, Pow(c - 1) - 1)
  {
    assert (Pow(c) - 1) / 2 == Pow(c - 1) - 1 && (Pow(c) - 1) % 2 == 1;
  }

  lemma WordBitAt(addr: seq<Word>, w: nat, b: nat)
    requires w < |addr| && b < 64
    ensures BitAt(addr, 64 * w + b) == (Shr(addr[w], b) % 2 == 1)
  {
    ShrBit(addr[w], b, 0);
    assert (64 * w + b) / 64 == w && (64 * w + b) % 64 == b;
  }

  lemma {:induction false} ChunkOfWord(addr: seq<Word>, w: nat, b: nat, c: nat)
    requires w < |addr| && b + c <= 64
    ensures And(Shr(addr[w], b), Pow(c) - 1) == Number(addr, 64 * w + b, 64 * w + b + c)
    decreases c
  {
    var y := Shr(addr[w], b);
    if c == 0 {
      assert And(y, 0) == 0;
    } else {
      AndStep(y, c);
      WordBitAt(addr, w, b);
      ChunkOfWord(addr, w, b + 1, c - 1);
    }
  }

  /** The chunk expression reads bits [lo, lo + c) when they lie in one word. */
  lemma ChunkNumber(addr: seq<Word>, lo: nat, c: nat)
    requires lo % 64 + c <= 64 && lo < 64 * |addr|
    ensures lo + c <= 64 * |addr| && And(Shr(addr[lo / 64], lo % 64), Pow(c) - 1) == Number(addr, lo, lo + c)
  {
    ChunkOfWord(addr, lo / 64, lo % 64, c);
    assert lo == 64 * (lo / 64) + lo % 64;
  }

  // -------- printing --------

  /** `%0*lx` for a value of at most `w` digits. */
  function Hex(v: nat, w: nat): (s: string)
    ensures |s| == w
  {
    if w == 0 then "" else Hex(v / 16, w - 1) + [HexDigit(v % 16)]
  }

  lemma {:induction false} HexDenotes(v: nat, w: nat)
    requires v < Pow(4 * w)
    ensures var s := Hex(v, w);
      && IsHexText(s) && Digits(s) == w && Denoted(s) == v && forall i | 0 <= i < |s| :: s[i] != '\n'
  {
    if w > 0 {
      var s, d := Hex(v / 16, w - 1), [HexDigit(v % 16)];
      Pow4(4 * (w - 1));
      HexDenotes(v / 16, w - 1);
      OneDigit(d[0]);
      DenotedConcat(s, d);
      DigitsConcat(s, d);
    }
  }

  lemma Pow4(n: nat)
    ensures Pow(n + 4) == 16 * Pow(n) && Pow(4) == 16
  {
    assert Pow(n + 1) == 2 * Pow(n);
    assert Pow(n + 2) == 2 * Pow(n + 1);
    assert Pow(n + 3) == 2 * Pow(n + 2);
  }

  lemma OneDigit(ch: char)
    requires HexToBin(ch) >= 0 && ch != ','
    ensures IsHexText([ch]) && Digits([ch]) == 1 && Denoted([ch]) == HexToBin(ch)
  {
    assert [ch][1..] == [];
  }

  /** A number of `c` bits. */
  lemma {:induction false} NumberBelow(addr: seq<Word>, lo: nat, hi: nat)
    requires lo <= hi <= 64 * |addr|
    ensures Number(addr, lo, hi) < Pow(hi - lo)
    decreases hi - lo
  {
    if lo < hi { NumberBelow(addr, lo + 1, hi); }
  }

  /** `buf` is what the printer has written for bits [from, n). */
  ghost predicate Printed(buf: string, addr: seq<Word>, from: nat, n: nat)
    requires n <= 64 * |addr|
  {
    && IsHexText(buf) && (forall k | 0 <= k < |buf| :: buf[k] != '\n')
    && Denoted(buf) == Number(addr, from, n) && 4 * Digits(buf) < n - from + 4
  }

  lemma AppendComma(buf: string)
    requires IsHexText(buf)
    ensures IsHexText(buf + ",") && Denoted(buf + ",") == Denoted(buf) && Digits(buf + ",") == Digits(buf)
  {
    assert ","[1..] == "";
    assert Digits(",") == 0 && Denoted(",") == 0 && Pow(0) == 1;
    DenotedConcat(buf, ",");
    DigitsConcat(buf, ",");
  }

  lemma AppendSeparator(buf: string, sep: string, addr: seq<Word>, from: nat, n: nat)
    requires n <= 64 * |addr| && Printed(buf, addr, from, n) && (sep == "" || sep == ",")
    ensures Printed(buf + sep, addr, from, n)
  {
    if sep == "" { assert buf + sep == buf; } else { AppendComma(buf); }
  }

  /** Below a full chunk the digits shift by 32 bits; the top chunk has nothing above it. */
  lemma ChunkValue(addr: seq<Word>, i: nat, c: nat, n: nat, above: nat, w: nat)
    requires i + c <= n <= 64 * |addr| && (c == 32 || i + c == n) && w == (c + 3) / 4
    requires above == Number(addr, i + c, n)
    ensures above * Pow(4 * w) + Number(addr, i, i + c) == Number(addr, i, n)
  {
    NumberSplit(addr, i, i + c, n);
    TopOrFull(addr, i, c, n, w);
    ShiftSum(above, Pow(4 * w), Pow(c), Number(addr, i, i + c), Number(addr, i, n));
  }

  lemma TopOrFull(addr: seq<Word>, i: nat, c: nat, n: nat, w: nat)
    requires i + c <= n <= 64 * |addr| && (c == 32 || i + c == n) && w == (c + 3) / 4
    ensures Number(addr, i + c, n) == 0 || Pow(4 * w) == Pow(c)
  {
    if i + c < n { assert 4 * w == c; }
  }

  lemma ShiftSum(above: nat, p: nat, q: nat, low: nat, sum: nat)
    requires sum == low + q * above && (above == 0 || p == q)
    ensures above * p + low == sum
  {
  }

  /** Appending one chunk to what is printed so far. */
  lemma AppendChunk(buf: string, addr: seq<Word>, i: nat, c: nat, n: nat)
    requires i + c <= n <= 64 * |addr| && (c == 32 || i + c == n) && Printed(buf, addr, i + c, n)
    ensures Printed(buf + Hex(Number(addr, i, i + c), (c + 3) / 4), addr, i, n)
  {
    var w, val := (c + 3) / 4, Number(addr, i, i + c);
    ChunkText(addr, i, c, w);
    DenotedConcat(buf, Hex(val, w));
    DigitsConcat(buf, Hex(val, w));
    ChunkValue(addr, i, c, n, Denoted(buf), w);
  }

  lemma ChunkText(addr: seq<Word>, i: nat, c: nat, w: nat)
    requires i + c <= 64 * |addr| && c <= 4 * w
    ensures var s := Hex(Number(addr, i, i + c), w);
      && IsHexText(s) && Digits(s) == w && Denoted(s) == Number(addr, i, i + c)
      && forall k | 0 <= k < |s| :: s[k] != '\n'
  {
    NumberBelow(addr, i, i + c);
    PowMono(c, 4 * w);
    HexDenotes(Number(addr, i, i + c), w);
  }

  /** A zero chunk with nothing printed above it is left out. */
  lemma SkipChunk(addr: seq<Word>, i: nat, c: nat, n: nat)
    requires i + c <= n <= 64 * |addr| && Number(addr, i, i + c) == 0 && Printed("", addr, i + c, n)
    ensures Printed("", addr, i, n)
  {
    NumberSplit(addr, i, i + c, n);
    assert Pow(c) * 0 == 0;
  }

  /** A multiple of the chunk size. */
  ghost predicate Aligned(i: nat) { i == 0 || (i >= CHUNKSZ && Aligned(i - CHUNKSZ)) }

  lemma {:induction false} AlignedMod(i: nat)
    requires Aligned(i)
    ensures i % 64 == 0 || i % 64 == 32
  {
    if i > 0 { AlignedMod(i - CHUNKSZ); }
  }

  lemma {:induction false} TopChunk(j: nat)
    ensures Aligned(j * CHUNKSZ)
  {
    if j > 0 { TopChunk(j - 1); }
  }

  /** The bits of one chunk, read from the word that holds them. */
  method Chunk(addr: seq<Word>, i: nat, chunksz: nat) returns (val: nat)
    requires Aligned(i) && 0 < chunksz <= 32 && i + chunksz <= 64 * |addr|
    ensures val == Number(addr, i, i + chunksz)
  {
    val := And(Shr(addr[i / 64], i % 64), Pow(chunksz) - 1);
    AlignedMod(i);
    ChunkNumber(addr, i, chunksz);
  }

  // -------- the format --------

  predicate IsLowerHex(ch: char) { '0' <= ch <= '9' || 'a' <= ch <= 'f' }

  /** Counted from the end of the text, every ninth character is a comma and all others are lower-case hex digits. */
  ghost predicate Grouped(buf: string) {
    forall p: nat | p < |buf| :: if p % 9 == 8 then buf[|buf| - 1 - p] == ',' else IsLowerHex(buf[|buf| - 1 - p])
  }

  lemma {:induction false} HexLower(v: nat, w: nat)
    ensures forall i | 0 <= i < w :: IsLowerHex(Hex(v, w)[i])
  {
    if w > 0 { HexLower(v / 16, w - 1); }
  }

  lemma HexGrouped(v: nat, w: nat)
    requires w <= 8
    ensures Grouped(Hex(v, w))
  {
    HexLower(v, w);
  }

  lemma GroupedMore(buf: string, v: nat)
    requires Grouped(buf)
    ensures Grouped(buf + "," + Hex(v, 8))
  {
    var text := buf + "," + Hex(v, 8);
    HexLower(v, 8);
    forall p: nat | p < |text|
      ensures if p % 9 == 8 then text[|text| - 1 - p] == ',' else IsLowerHex(text[|text| - 1 - p])
    {
      if p >= 9 {
        assert text[|text| - 1 - p] == buf[|buf| - 1 - (p - 9)] && p % 9 == (p - 9) % 9;
      } else if p < 8 {
        assert text[|text| - 1 - p] == Hex(v, 8)[7 - p];
      }
    }
  }

  /** The end of chunk `j` of a mask of `n` bits. */
  function ChunkEnd(j: nat, n: nat): nat { if 32 * j + 32 < n then 32 * j + 32 else n }

  /** The text of the chunks from `j` down to `c`, where `j` is the highest one that is not zero, or the lowest: eight
      digits for each, and for the top chunk of the mask as many as its bits need. */
  ghost predicate TextOf(buf: string, addr: seq<Word>, n: nat, j: nat, c: nat)
    requires n <= 64 * |addr|
  {
    && c <= j && 32 * j < n && Number(addr, ChunkEnd(j, n), n) == 0
    && (j > 0 ==> Number(addr, 32 * j, ChunkEnd(j, n)) != 0)
    && |buf| == 9 * (j - c) + (ChunkEnd(j, n) - 32 * j + 3) / 4 && Grouped(buf)
  }

  /** What the loop has written when it has come down to chunk `c`. */
  ghost predicate TextSoFar(buf: string, sep: string, addr: seq<Word>, n: nat, j: nat, c: nat)
    requires n <= 64 * |addr|
  {
    if sep == "" then buf == "" && Number(addr, if 32 * c < n then 32 * c else n, n) == 0
    else sep == "," && TextOf(buf, addr, n, j, c)
  }

  lemma FirstChunk(addr: seq<Word>, n: nat, c: nat, chunksz: nat)
    requires 0 < chunksz <= 32 && 32 * c + chunksz <= n <= 64 * |addr| && (chunksz == 32 || 32 * c + chunksz == n)
    requires Number(addr, 32 * c + chunksz, n) == 0 && (c == 0 || Number(addr, 32 * c, 32 * c + chunksz) != 0)
    ensures TextOf(Hex(Number(addr, 32 * c, 32 * c + chunksz), (chunksz + 3) / 4), addr, n, c, c)
  {
    assert ChunkEnd(c, n) == 32 * c + chunksz;
    HexGrouped(Number(addr, 32 * c, 32 * c + chunksz), (chunksz + 3) / 4);
  }

  lemma NextChunk(buf: string, addr: seq<Word>, n: nat, j: nat, c: nat, chunksz: nat, v: nat)
    requires 0 < chunksz <= 32 && 32 * c + chunksz <= n <= 64 * |addr| && (chunksz == 32 || 32 * c + chunksz == n)
    requires TextOf(buf, addr, n, j, c + 1)
    ensures chunksz == 32 && TextOf(buf + "," + Hex(v, 8), addr, n, j, c)
  {
    GroupedMore(buf, v);
  }

  /** A chunk is printed: alone, or behind the ones above it. */
  lemma ChunkPrinted(buf: string, sep: string, addr: seq<Word>, n: nat, j: nat, c: nat, chunksz: nat) returns (j': nat)
    requires 0 < chunksz <= 32 && 32 * c + chunksz <= n <= 64 * |addr| && (chunksz == 32 || 32 * c + chunksz == n)
    requires TextSoFar(buf, sep, addr, n, j, c + 1)
    requires c == 0 || sep != "" || Number(addr, 32 * c, 32 * c + chunksz) != 0
    ensures TextOf(buf + sep + Hex(Number(addr, 32 * c, 32 * c + chunksz), (chunksz + 3) / 4), addr, n, j', c)
  {
    var text := Hex(Number(addr, 32 * c, 32 * c + chunksz), (chunksz + 3) / 4);
    if sep == "" {
      FirstChunk(addr, n, c, chunksz);
      NothingBefore(buf, sep, text);
      j' := c;
    } else {
      NextChunk(buf, addr, n, j, c, chunksz, Number(addr, 32 * c, 32 * c + chunksz));
      assert (chunksz + 3) / 4 == 8;
      j' := j;
    }
  }

  lemma NothingBefore(buf: string, sep: string, text: string)
    requires buf == "" && sep == ""
    ensures buf + sep + text == text
  {
  }

  lemma ChunkDenotes(buf: string, sep: string, addr: seq<Word>, i: nat, chunksz: nat, n: nat)
    requires i + chunksz <= n <= 64 * |addr| && (chunksz == 32 || i + chunksz == n)
    requires Printed(buf, addr, i + chunksz, n) && (sep == "" || sep == ",")
    ensures Printed(buf + sep + Hex(Number(addr, i, i + chunksz), (chunksz + 3) / 4), addr, i, n)
  {
    AppendSeparator(buf, sep, addr, i + chunksz, n);
    AppendChunk(buf + sep, addr, i, chunksz, n);
  }

  /** One round of the printing loop. */
  method PrintChunk(buf: string, sep: string, addr: seq<Word>, i: nat, chunksz: nat, n: nat, ghost j: nat, ghost c: nat)
    returns (buf': string, sep': string, ghost j': nat)
    requires Aligned(i) && 0 < chunksz <= 32 && i + chunksz <= n <= 64 * |addr| && (chunksz == 32 || i + chunksz == n)
    requires Printed(buf, addr, i + chunksz, n) && i == 32 * c && TextSoFar(buf, sep, addr, n, j, c + 1)
    ensures Printed(buf', addr, i, n) && TextSoFar(buf', sep', addr, n, j', c) && (i == 0 ==> sep' == ",")
    ensures |buf'| <= |buf| + 9
  {
    var val := Chunk(addr, i, chunksz);
    buf', sep', j' := buf, sep, j;
    if val != 0 || sep != "" || i == 0 {
      ChunkDenotes(buf, sep, addr, i, chunksz, n);
      j' := ChunkPrinted(buf, sep, addr, n, j, c, chunksz);
      buf' := buf + sep + Hex(val, (chunksz + 3) / 4);
      sep' := ",";
    } else {
      SkipChunk(addr, i, chunksz, n);
    }
  }

  /** The bits of the chunk below number `c`. */
  function SizeBelow(n: nat, c: nat): int { if 32 * c <= n then 32 else n - (32 * c - 32) }

  /** The top chunk is what is left of the bits above the full ones. */
  lemma TopChunkIs(n: nat)
    requires n > 0
    ensures var c := (n + 31) / 32;
      && c > 0 && (n + 31) / 32 * 32 - 32 == 32 * c - 32 && ChunkEnd(c, n) == n
      && SizeBelow(n, c) == if n % 32 == 0 then 32 else n % 32
  {
  }

  lemma ChunkBelow(n: nat, c: nat)
    requires 0 < c <= (n + 31) / 32
    ensures 0 < SizeBelow(n, c) <= 32 && (SizeBelow(n, c) == 32 || 32 * c - 32 + SizeBelow(n, c) == n)
    ensures 32 * c - 32 + SizeBelow(n, c) == (if 32 * c < n then 32 * c else n) && Aligned(32 * c - 32)
    ensures c > 1 ==> SizeBelow(n, c - 1) == 32
  {
    TopChunk(c - 1);
  }

  const PATH_MAX: nat := 4096

  /** `bitmap_scnprintf`.  The text and its end always fit the buffer the caller passes for a CPU set, so nothing is
      ever cut off. */
  method Print(addr: seq<Word>, nmaskbits: nat) returns (buf: string)
    requires 0 < nmaskbits <= 64 * |addr|
    ensures Printed(buf, addr, 0, nmaskbits) && exists j :: TextOf(buf, addr, nmaskbits, j, 0)
    ensures |buf| <= 9 * ((nmaskbits + 31) / 32) && (nmaskbits <= CHUNKS * CHUNKSZ ==> |buf| + 1 <= PATH_MAX)
  {
    buf := "";
    var sep := "";
    var chunksz := nmaskbits % CHUNKSZ;
    if chunksz == 0 { chunksz := CHUNKSZ; }
    var i: int := (nmaskbits + 31) / 32 * 32 - CHUNKSZ;
    TopChunkIs(nmaskbits);
    ghost var top, j, c := (nmaskbits + 31) / 32, 0, (nmaskbits + 31) / 32;
    while i >= 0
      invariant 0 <= c <= top && i == 32 * c - 32 && (c > 0 ==> chunksz == SizeBelow(nmaskbits, c))
      invariant Printed(buf, addr, if 32 * c < nmaskbits then 32 * c else nmaskbits, nmaskbits)
      invariant TextSoFar(buf, sep, addr, nmaskbits, j, c) && (c == 0 ==> sep == ",") && |buf| <= 9 * (top - c)
      decreases i
    {
      ChunkBelow(nmaskbits, c);
      c := c - 1;
      buf, sep, j := PrintChunk(buf, sep, addr, i, chunksz, nmaskbits, j, c);
      chunksz := CHUNKSZ;
      i := i - CHUNKSZ;
    }
  }

  // -------- parsing --------

  /** The text before the first newline. */
  function Line(s: string): (t: string)
    ensures |t| <= |s|
  {
    if s == [] || s[0] == '\n' then [] else [s[0]] + Line(s[1..])
  }

  /** The number a CPU set of 32-bit pieces stands for. */
  function Value(cpuset: seq<nat>): nat {
    if cpuset == [] then 0 else cpuset[0] + Pow(32) * Value(cpuset[1..])
  }

  lemma {:induction false} ValueZero(cpuset: seq<nat>)
    requires forall k | 0 <= k < |cpuset| :: cpuset[k] == 0
    ensures Value(cpuset) == 0
  {
    if cpuset != [] { ValueZero(cpuset[1..]); }
  }

  /** Adding to one piece. */
  lemma {:induction false} ValueAdd(cpuset: seq<nat>, pos: nat, more: nat)
    requires pos < |cpuset|
    ensures Value(cpuset[pos := cpuset[pos] + more]) == Value(cpuset) + more * Pow(32 * pos)
  {
    var after := cpuset[pos := cpuset[pos] + more];
    if pos == 0 {
      assert after[1..] == cpuset[1..];
      assert Pow(0) == 1;
    } else {
      assert after[1..] == cpuset[1..][pos - 1 := cpuset[1..][pos - 1] + more];
      ValueAdd(cpuset[1..], pos - 1, more);
      PowSum(32, 32 * (pos - 1));
      Shifted(Pow(32), Value(cpuset[1..]), more, Pow(32 * (pos - 1)));
    }
  }

  lemma Shifted(p: nat, v: nat, more: nat, q: nat)
    ensures p * (v + more * q) == p * v + more * (p * q)
  {
  }

  lemma {:induction false} OrZero(d: nat)
    ensures Or(0, d) == d
  {
    if d > 0 { OrZero(d / 2); }
  }

  /** Or-ing a digit above all set bits adds it. */
  lemma {:induction false} OrAbove(x: nat, d: nat, i: nat)
    requires x < Pow(i)
    ensures Or(x, d * Pow(i)) == x + d * Pow(i)
    decreases i
  {
    if i == 0 {
      OrZero(d);
      assert d * Pow(0) == d;
    } else {
      Twice(Pow(i - 1), d);
      assert d * Pow(i) == 2 * (d * Pow(i - 1));
      OrAbove(x / 2, d, i - 1);
    }
  }

  /** The pieces below `pos` are full, piece `pos` has bits below `i`, the others none. */
  ghost predicate Pieces(cpuset: seq<nat>, pos: nat, i: nat) {
    && |cpuset| == CHUNKS && pos <= CHUNKS && (pos < CHUNKS ==> cpuset[pos] < Pow(i))
    && (forall k | 0 <= k < pos :: cpuset[k] < Pow(32)) && (forall k | pos < k < CHUNKS :: cpuset[k] == 0)
  }

  lemma NextPiece(cpuset: seq<nat>, pos: nat, i: nat, v: nat)
    requires Pieces(cpuset, pos, i) && pos < CHUNKS && i + 4 <= 32 && v < Pow(i + 4)
    ensures var after := cpuset[pos := v];
      if i + 4 == 32 then Pieces(after, pos + 1, 0) else Pieces(after, pos, i + 4)
  {
    assert Pow(0) == 1;
  }

  /** Where the parser stands after reading `t` from its end. */
  ghost predicate Read(t: string, cpuset: seq<nat>, pos: nat, i: nat) {
    && IsHexText(t) && Pieces(cpuset, pos, i) && i < 32 && (pos == CHUNKS ==> i == 0) && 4 * Digits(t) == 32 * pos + i
    && Value(cpuset) == Denoted(t)
  }

  lemma DigitStored(x: nat, d: nat, i: nat)
    requires x < Pow(i) && d < 16
    ensures Or(x, d * Pow(i)) == x + d * Pow(i) < Pow(i + 4)
  {
    OrAbove(x, d, i);
    Pow4(i);
    AtMost(d, Pow(i));
  }

  lemma DigitCounts(d: nat, cpuset: seq<nat>, pos: nat, i: nat, n: nat)
    requires pos < |cpuset| && 4 * n == 32 * pos + i
    ensures Value(cpuset[pos := cpuset[pos] + d * Pow(i)]) == d * Pow(4 * n) + Value(cpuset)
  {
    ValueAdd(cpuset, pos, d * Pow(i));
    PowSum(i, 32 * pos);
    Associate(d, Pow(i), Pow(32 * pos));
  }

  lemma OneMore(ch: char, t: string)
    requires IsHexText(t) && HexToBin(ch) >= 0 && ch != ','
    ensures IsHexText([ch] + t) && Digits([ch] + t) == Digits(t) + 1
    ensures Denoted([ch] + t) == HexToBin(ch) * Pow(4 * Digits(t)) + Denoted(t)
  {
    assert ([ch] + t)[1..] == t;
  }

  /** The piece after or-ing in one more digit. */
  lemma DigitValue(ch: char, t: string, cpuset: seq<nat>, pos: nat, i: nat, v: nat)
    requires Read(t, cpuset, pos, i) && pos < CHUNKS && HexToBin(ch) >= 0 && ch != ','
    requires v == Or(cpuset[pos], HexToBin(ch) * Pow(i))
    ensures v < Pow(i + 4) && IsHexText([ch] + t) && Value(cpuset[pos := v]) == Denoted([ch] + t)
  {
    DigitStored(cpuset[pos], HexToBin(ch), i);
    DigitCounts(HexToBin(ch), cpuset, pos, i, Digits(t));
    OneMore(ch, t);
  }

  /** Reading one more digit. */
  lemma ReadDigit(ch: char, t: string, cpuset: seq<nat>, pos: nat, i: nat, v: nat)
    requires Read(t, cpuset, pos, i) && pos < CHUNKS && HexToBin(ch) >= 0 && ch != ','
    requires v < Pow(i + 4) && IsHexText([ch] + t) && Value(cpuset[pos := v]) == Denoted([ch] + t)
    ensures if i + 4 >= 32 then Read([ch] + t, cpuset[pos := v], pos + 1, 0)
      else Read([ch] + t, cpuset[pos := v], pos, i + 4)
  {
    OneMore(ch, t);
    assert i == 4 * (Digits(t) - 8 * pos);
    NextPiece(cpuset, pos, i, v);
  }

  lemma AtMost(d: nat, p: nat)
    requires d <= 15
    ensures d * p <= 15 * p
  {
  }

  lemma Associate(d: nat, p: nat, q: nat)
    ensures (d * p) * q == d * (p * q)
  {
  }

  /** One character of the parsing loop, at position `c` of the line. */
  method ParseChar(ghost line: string, ghost c: nat, ch: char, cpuset: array<nat>, pos: nat, i: nat)
    returns (ok: bool, overrun: bool, pos': nat, i': nat)
    requires c < |line| && line[c] == ch && ch != '\n' && Read(line[c + 1..], cpuset[..], pos, i)
    modifies cpuset
    ensures ok <==> ch == ',' || HexToBin(ch) >= 0
    ensures overrun <==> ch != ',' && HexToBin(ch) >= 0 && Digits(line[c + 1..]) == 8 * CHUNKS
    ensures ok && !overrun ==> Read(line[c..], cpuset[..], pos', i')
  {
    ok, overrun, pos', i' := true, false, pos, i;
    if ch == ',' || ch == '\n' {
      SkipComma(line, c, cpuset[..], pos, i);
      return;
    }
    var num := HexToBin(ch);
    if num < 0 {
      ok := false;
      return;
    }
    if pos == CHUNKS {
      overrun := true;
      return;
    }
    assert line[c..] == [ch] + line[c + 1..];
    pos', i' := StoreDigit(line[c + 1..], ch, num, cpuset, pos, i);
  }

  /** Or the digit into the current piece and step on. */
  method StoreDigit(ghost t: string, ghost ch: char, num: nat, cpuset: array<nat>, pos: nat, i: nat)
    returns (pos': nat, i': nat)
    requires Read(t, cpuset[..], pos, i) && pos < CHUNKS && num == HexToBin(ch) && ch != ','
    modifies cpuset
    ensures Read([ch] + t, cpuset[..], pos', i')
  {
    var v := Or(cpuset[pos], num * Pow(i));
    DigitValue(ch, t, cpuset[..], pos, i, v);
    ReadDigit(ch, t, cpuset[..], pos, i, v);
    ghost var before := cpuset[..];
    cpuset[pos] := v;
    assert cpuset[..] == before[pos := v];
    pos', i' := pos, i + 4;
    if i' >= CHUNKSZ { i', pos' := 0, pos + 1; }
  }

  /** The line ends in more digits than the set holds. */
  predicate TooMany(line: string) {
    exists c :: 0 <= c <= |line| && IsHexText(line[c..]) && Digits(line[c..]) > 8 * CHUNKS
  }

  lemma {:induction false} TooManyBefore(line: string, c: nat, k: nat)
    requires c <= k <= |line| && Digits(line[c..]) <= 8 * CHUNKS
    ensures Digits(line[k..]) <= 8 * CHUNKS
  {
    assert line[c..] == line[c..k] + line[k..];
    DigitsConcat(line[c..k], line[k..]);
  }

  /** Up to a character that is no digit, not too many. */
  lemma StopsInTime(line: string, c: nat)
    requires c < |line| && line[c] != ',' && HexToBin(line[c]) < 0 && Digits(line[c + 1..]) <= 8 * CHUNKS
    ensures !TooMany(line) && !IsHexText(line)
  {
    forall k | 0 <= k <= |line|
      ensures IsHexText(line[k..]) ==> Digits(line[k..]) <= 8 * CHUNKS
    {
      if k <= c { assert line[k..][c - k] == line[c]; } else { TooManyBefore(line, c + 1, k); }
    }
    assert line[0..] == line;
  }

  lemma RunsOver(line: string, c: nat)
    requires c < |line| && line[c] != ',' && HexToBin(line[c]) >= 0 && IsHexText(line[c + 1..])
    requires Digits(line[c + 1..]) == 8 * CHUNKS
    ensures TooMany(line)
  {
    OneMore(line[c], line[c + 1..]);
    assert line[c..] == [line[c]] + line[c + 1..];
  }

  lemma {:induction false} ZeroDigits(k: nat)
    ensures IsHexText(Zeros(k)) && Digits(Zeros(k)) == k
  {
    if k > 0 {
      ZeroDigits(k - 1);
      assert Zeros(k)[1..] == Zeros(k - 1);
    }
  }

  function Zeros(k: nat): string { seq(k, _ => '0') }

  /** A line of 257 zeros, one digit more than the set has room for, is stored past its end. */
  lemma ZerosOverrun()
    ensures '\n' in Zeros(257) + "\n" && Line(Zeros(257) + "\n") == Zeros(257) && TooMany(Line(Zeros(257) + "\n"))
  {
    var s := Zeros(257);
    ZeroDigits(257);
    assert (s + "\n")[257] == '\n' && (s + "\n")[..257] == s;
    LineIs(s + "\n", 257);
    assert s[0..] == s;
  }

  /** The same, and what it says about the whole line when it stops there. */
  method ParseNext(ghost line: string, ghost c: nat, ch: char, cpuset: array<nat>, pos: nat, i: nat)
    returns (ok: bool, overrun: bool, pos': nat, i': nat)
    requires c < |line| && line[c] == ch && ch != '\n' && Read(line[c + 1..], cpuset[..], pos, i)
    modifies cpuset
    ensures overrun ==> TooMany(line)
    ensures !overrun && !ok ==> !TooMany(line) && !IsHexText(line)
    ensures !overrun && ok ==> Read(line[c..], cpuset[..], pos', i')
  {
    assert IsHexText(line[c + 1..]) && Digits(line[c + 1..]) <= 8 * CHUNKS;
    ok, overrun, pos', i' := ParseChar(line, c, ch, cpuset, pos, i);
    if overrun { RunsOver(line, c); } else if !ok { StopsInTime(line, c); }
  }

  /** `bitmap_str_to_cpumask`: from the newline backwards, digit by digit.  `overrun` says that the original stores a
      digit past the end of the set, which happens exactly when the line ends in too many digits.  Of the length only
      zero matters: it returns the error number of an earlier call. */
  method Parse(s: string, len: nat, errno: nat, cpuset: array<nat>) returns (ret: int, overrun: bool)
    requires cpuset.Length == CHUNKS
    modifies cpuset
    ensures len == 0 ==> ret == 0 - errno && cpuset[..] == old(cpuset[..])
    ensures overrun <==> len > 0 && '\n' in s && TooMany(Line(s))
    ensures !overrun && len > 0 ==> ret == if '\n' in s && IsHexText(Line(s)) then 0 else -22
    ensures !overrun && len > 0 && ret == 0 ==>
      Value(cpuset[..]) == Denoted(Line(s)) && forall k | 0 <= k < CHUNKS :: cpuset[k] < Pow(32)
  {
    if len == 0 { return 0 - errno, false; }
    var c := FindNewline(s);
    if c == |s| { return -22, false; }
    ghost var line := Line(s);
    Clear(cpuset);
    assert line[c..] == [];
    var pos, i := 0, 0;
    while c != 0
      invariant 0 <= c <= |line| && Read(line[c..], cpuset[..], pos, i)
      decreases c
    {
      c := c - 1;
      assert s[c] == line[c] && line[c] in line;
      var ok;
      ok, overrun, pos, i := ParseNext(line, c, s[c], cpuset, pos, i);
      if overrun || !ok { return -22, overrun; }
    }
    assert line[0..] == line;
    AllFit(line);
    PiecesSmall(cpuset[..], pos, i);
    ret, overrun := 0, false;
  }

  /** `CPU_ZERO` */
  method Clear(cpuset: array<nat>)
    requires cpuset.Length == CHUNKS
    modifies cpuset
    ensures Read([], cpuset[..], 0, 0)
  {
    forall k | 0 <= k < cpuset.Length { cpuset[k] := 0; }
    ValueZero(cpuset[..]);
  }

  lemma PiecesSmall(cpuset: seq<nat>, pos: nat, i: nat)
    requires Pieces(cpuset, pos, i) && i < 32
    ensures forall k | 0 <= k < CHUNKS :: cpuset[k] < Pow(32)
  {
    PowMono(i, 32);
  }

  /** `strchr(start, '\n')`, or the length of the text. */
  method FindNewline(s: string) returns (c: nat)
    ensures c == |s| ==> '\n' !in s
    ensures c <= |s| && (c < |s| ==> '\n' in s && Line(s) == s[..c] && |Line(s)| == c && '\n' !in Line(s))
  {
    c := 0;
    while c < |s| && s[c] != '\n'
      invariant c <= |s| && '\n' !in s[..c]
    {
      c := c + 1;
    }
    if c < |s| { LineIs(s, c); }
  }

  lemma {:induction false} LineIs(s: string, c: nat)
    requires c < |s| && s[c] == '\n' && '\n' !in s[..c]
    ensures Line(s) == s[..c]
    decreases c
  {
    if c > 0 {
      assert s[..c] == [s[0]] + s[1..][..c - 1];
      assert s[0] in s[..c];
      LineIs(s[1..], c - 1);
    }
  }

  lemma SkipComma(line: string, c: nat, cpuset: seq<nat>, pos: nat, i: nat)
    requires c < |line| && line[c] == ',' && Read(line[c + 1..], cpuset, pos, i)
    ensures Read(line[c..], cpuset, pos, i)
  {
    assert line[c..][1..] == line[c + 1..];
  }

  lemma AllFit(line: string)
    requires Digits(line) <= 8 * CHUNKS
    ensures !TooMany(line)
  {
    forall k | 0 <= k <= |line|
      ensures Digits(line[k..]) <= 8 * CHUNKS
    {
      assert line[0..] == line;
      TooManyBefore(line, 0, k);
    }
  }

  // -------- round trip --------

  lemma {:induction false} SumBit(a: nat, b: nat, m: nat, k: nat)
    requires a < Pow(m)
    ensures Bit(a + Pow(m) * b, k) <==> if k < m then Bit(a, k) else Bit(b, k - m)
    decreases m
  {
    if m == 0 {
      assert Pow(0) * b == b;
    } else {
      Twice(Pow(m - 1), b);
      if k > 0 {
        assert (a + Pow(m) * b) / 2 == a / 2 + Pow(m - 1) * b;
        SumBit(a / 2, b, m - 1, k - 1);
      }
    }
  }

  lemma PieceBelow(k: nat)
    requires k >= 32
    ensures (k - 32) / 32 == k / 32 - 1 && (k - 32) % 32 == k % 32
  {
  }

  /** Bit `k` of the number is bit `k % 32` of piece `k / 32`. */
  lemma {:induction false} ValueBit(cpuset: seq<nat>, k: nat)
    requires (forall j | 0 <= j < |cpuset| :: cpuset[j] < Pow(32)) && k < 32 * |cpuset|
    ensures Bit(Value(cpuset), k) <==> Bit(cpuset[k / 32], k % 32)
  {
    SumBit(cpuset[0], Value(cpuset[1..]), 32, k);
    if k >= 32 {
      PieceBelow(k);
      ValueBit(cpuset[1..], k - 32);
    }
  }

  /** Printing a mask of any width and parsing the line back gives the mask cut to that width, despite left-out
      leading chunks and a short top chunk. */
  method RoundTrip(addr: seq<Word>, nmaskbits: nat, cpuset: array<nat>)
    requires 0 < nmaskbits <= 64 * |addr| && nmaskbits <= 1024 && cpuset.Length == CHUNKS
    modifies cpuset
    ensures forall k: nat | k < 1024 :: Bit(cpuset[k / 32], k % 32) <==> k < nmaskbits && BitAt(addr, k)
  {
    var text := Print(addr, nmaskbits);
    LineIs(text + "\n", |text|);
    assert (text + "\n")[|text|] == '\n' && (text + "\n")[..|text|] == text;
    AllFit(text);
    var ret, overrun := Parse(text + "\n", |text| + 1, 0, cpuset);
    assert '\n' in text + "\n";
    SameBits(cpuset[..], addr, nmaskbits);
  }

  /** Pieces that stand for the number of a mask hold its bits. */
  lemma SameBits(cpuset: seq<nat>, addr: seq<Word>, n: nat)
    requires |cpuset| == CHUNKS && (forall k | 0 <= k < CHUNKS :: cpuset[k] < Pow(32)) && n <= 64 * |addr|
    requires Value(cpuset) == Number(addr, 0, n)
    ensures forall k: nat | k < 1024 :: Bit(cpuset[k / 32], k % 32) <==> k < n && BitAt(addr, k)
  {
    forall k: nat | k < 1024
      ensures Bit(cpuset[k / 32], k % 32) <==> k < n && BitAt(addr, k)
    {
      ValueBit(cpuset, k);
      NumberBit(addr, 0, n, k);
    }
  }
}
