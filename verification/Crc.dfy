/** crc32.c: byte by byte with one table, four bytes at a time with four tables in
    either byte order, and the combination of two check values. */
module Crc {
  import opened Bits
  import opened ExclusiveOr
  import opened CrcSpec

  // ------------------------------------------------------------------- four bytes

  function B0(x: nat): (r: nat) { Low(x, 8) }
  function B1(x: nat): (r: nat) { Low(Shr(x, 8), 8) }
  function B2(x: nat): (r: nat) { Low(Shr(x, 16), 8) }
  function B3(x: nat): (r: nat) { Shr(x, 24) }

  function Join(a: nat, b: nat, c: nat, d: nat): (r: nat) {
    a + Shl(b + Shl(c + Shl(d, 8), 8), 8)
  }

  /** REV: the bytes in the other order. */
  function Swap(x: nat): (r: nat) {
    Join(B3(x), B2(x), B1(x), B0(x))
  }

  lemma Digits(a: nat, b: nat, c: nat, d: nat)
    requires a < 256 && b < 256 && c < 256 && d < 256
    ensures var x := Join(a, b, c, d); B0(x) == a && B1(x) == b && B2(x) == c && B3(x) == d && x < Pow2(32)
    ensures Shr(Join(a, b, c, d), 8) == Join(b, c, d, 0)
  {
    hide Low, Shr, Shl, Pow2;
    Pow2Values();
    var z := c + Shl(d, 8);
    var y := b + Shl(z, 8);
    var x := a + Shl(y, 8);
    ShlLow(y, a, 8);
    ShlLow(z, b, 8);
    ShlLow(d, c, 8);
    ShrShr(x, 8, 8);
    ShrShr(x, 16, 8);
    ShlZero(8);
    JoinBound(a, y, 24);
    JoinBound(b, z, 16);
    JoinBound(c, d, 8);
  }

  lemma JoinBound(low: nat, high: nat, n: nat)
    ensures low < 256 && high < Pow2(n) ==> low + Shl(high, 8) < Pow2(n + 8)
  {
    hide Shl, Pow2;
    if low < 256 && high < Pow2(n) {
      Pow2Values();
      ShlNext(high, 8);
      ShlMono(high + 1, Pow2(n), 8);
      ShlPow2(n, 8);
    }
  }

  /** A word is its four bytes. */
  lemma FourBytes(x: nat)
    requires x < Pow2(32)
    ensures B0(x) < 256 && B1(x) < 256 && B2(x) < 256 && B3(x) < 256 && x == Join(B0(x), B1(x), B2(x), B3(x))
  {
    hide Low, Shr, Shl, Pow2;
    Pow2Values();
    SplitAt(x, 8);
    SplitAt(Shr(x, 8), 8);
    SplitAt(Shr(x, 16), 8);
    ShrShr(x, 8, 8);
    ShrShr(x, 16, 8);
    ShrBound(x, 32, 24);
  }

  lemma ByteXor(a: nat, b: nat)
    requires a < 256 && b < 256
    ensures Xor(a, b) < 256
  {
    hide Xor, Pow2;
    Pow2Values();
    XorBound(a, b, 8);
  }

  lemma PairXor(a: nat, x: nat, b: nat, y: nat)
    requires a < 256 && b < 256
    ensures Xor(a + Shl(x, 8), b + Shl(y, 8)) == Xor(a, b) + Shl(Xor(x, y), 8)
  {
    hide Xor, Shl;
    ByteXor(a, b);
    ConsIs(a, x);
    ConsIs(b, y);
    XorSwap(a, Shl(x, 8), b, Shl(y, 8));
    XorShl(x, y, 8);
    ConsIs(Xor(a, b), Xor(x, y));
  }

  lemma JoinXor(a: nat, b: nat, c: nat, d: nat, a': nat, b': nat, c': nat, d': nat)
    requires a < 256 && b < 256 && c < 256 && d < 256 && a' < 256 && b' < 256 && c' < 256 && d' < 256
    ensures Xor(Join(a, b, c, d), Join(a', b', c', d')) == Join(Xor(a, a'), Xor(b, b'), Xor(c, c'), Xor(d, d'))
  {
    hide Xor, Shl;
    PairXor(a, b + Shl(c + Shl(d, 8), 8), a', b' + Shl(c' + Shl(d', 8), 8));
    PairXor(b, c + Shl(d, 8), b', c' + Shl(d', 8));
    PairXor(c, d, c', d');
  }

  lemma SwapDigits(x: nat)
    requires x < Pow2(32)
    ensures var y := Swap(x);
            y < Pow2(32) && B0(y) == B3(x) && B1(y) == B2(x) && B2(y) == B1(x) && B3(y) == B0(x) && Swap(y) == x
  {
    hide B0, B1, B2, B3, Join, Pow2;
    FourBytes(x);
    Digits(B3(x), B2(x), B1(x), B0(x));
  }

  lemma SwapXor(x: nat, y: nat)
    requires x < Pow2(32) && y < Pow2(32)
    ensures Swap(Xor(x, y)) == Xor(Swap(x), Swap(y)) && Xor(x, y) < Pow2(32)
  {
    hide B0, B1, B2, B3, Join, Pow2, Xor;
    FourBytes(x);
    FourBytes(y);
    JoinXor(B0(x), B1(x), B2(x), B3(x), B0(y), B1(y), B2(y), B3(y));
    JoinXor(B3(x), B2(x), B1(x), B0(x), B3(y), B2(y), B1(y), B0(y));
    ByteXor(B0(x), B0(y));
    ByteXor(B1(x), B1(y));
    ByteXor(B2(x), B2(y));
    ByteXor(B3(x), B3(y));
    Digits(Xor(B0(x), B0(y)), Xor(B1(x), B1(y)), Xor(B2(x), B2(y)), Xor(B3(x), B3(y)));
  }

  // --------------------------------------------------------------------- the tables

  /** Table k holds every byte followed by k zero bytes; table k + 4 the same with
      the bytes in the other order. */
  ghost predicate TablesOk(t: seq<seq<nat>>) {
    && |t| == 8
    && |t[0]| == |t[1]| == |t[2]| == |t[3]| == |t[4]| == |t[5]| == |t[6]| == |t[7]| == 256
    && (forall n :: 0 <= n < 256 ==> t[0][n] == Row(n, 0) && t[4][n] == Swap(Row(n, 0)))
    && (forall n :: 0 <= n < 256 ==> t[1][n] == Row(n, 1) && t[5][n] == Swap(Row(n, 1)))
    && (forall n :: 0 <= n < 256 ==> t[2][n] == Row(n, 2) && t[6][n] == Swap(Row(n, 2)))
    && (forall n :: 0 <= n < 256 ==> t[3][n] == Row(n, 3) && t[7][n] == Swap(Row(n, 3)))
  }

  /** The register after one more byte, from the first table. */
  lemma TableStep(c: nat, b: Byte)
    ensures Low(Xor(c, b), 8) < 256
    ensures Steps(Xor(c, b), 8) == Xor(Steps(Low(Xor(c, b), 8), 8), Shr(c, 8))
  {
    hide Xor, Steps, Low, Shr, Shl, Pow2;
    Pow2Values();
    var x := Xor(c, b);
    SplitAt(x, 8);
    XorSplit(x, 8);
    StepsLinear(Low(x, 8), Shl(Shr(x, 8), 8), 8);
    StepsShl(Shr(x, 8), 8);
    XorShr(c, b, 8);
    ByteShr(b);
    XorCommutes(Shr(c, 8), 0);
    XorZero(Shr(c, 8));
  }

  lemma ByteShr(b: Byte)
    ensures Shr(b, 8) == 0 && Low(b, 8) == b
  {
    hide Low, Shr, Shl, Pow2;
    Pow2Values();
    ShlZero(8);
    ShlLow(0, b, 8);
  }

  /** The exclusive-or pattern from the terms of the polynomial. */
  method MakePattern() returns (poly: nat)
    ensures poly == Pattern(TERMS) && poly == POLY
  {
    hide Pattern, Or, Low, Pow2;
    poly := 0;
    PatternNone();
    LowZero(32);
    for n := 0 to |TERMS|
      invariant Exponents(TERMS[..n]) && poly == Pattern(TERMS[..n])
      invariant Low(poly, if n == 0 then 32 else 31 - TERMS[n - 1]) == 0
    {
      PatternNext(n);
      LowLess(poly, 32 - TERMS[n], if n == 0 then 32 else 31 - TERMS[n - 1]);
      OrBit(poly, 31 - TERMS[n]);
      poly := Or(poly, Pow2(31 - TERMS[n]));
    }
    assert TERMS[..|TERMS|] == TERMS;
    PolyIsPattern();
  }

  /** The first table: eight steps for every byte. */
  method MakeFirst() returns (t: seq<nat>)
    ensures |t| == 256 && forall n :: 0 <= n < 256 ==> t[n] == Steps(n, 8)
  {
    hide Xor;
    var poly := MakePattern();
    t := [];
    while |t| < 256
      invariant |t| <= 256 && forall n :: 0 <= n < |t| ==> t[n] == Steps(n, 8)
    {
      var c: nat, k := |t|, 0;
      while k < 8
        invariant k <= 8 && Steps(|t|, 8) == Steps(c, 8 - k)
      {
        c := if c % 2 == 1 then Xor(poly, c / 2) else c / 2;
        k := k + 1;
      }
      t := t + [c];
    }
  }

  /** The byte n followed by k zero bytes. */
  function Row(n: nat, k: nat): (r: nat) {
    Steps(n, 8 * (k + 1))
  }

  lemma RowNext(n: nat, k: nat, first: seq<nat>)
    requires |first| == 256 && forall i :: 0 <= i < 256 ==> first[i] == Steps(i, 8)
    ensures Low(Row(n, k), 8) < 256 && Row(n, k + 1) == Xor(first[Low(Row(n, k), 8)], Shr(Row(n, k), 8))
  {
    hide Xor, Steps, Low, Shr;
    var c := Row(n, k);
    StepsAdd(n, 8 * (k + 1), 8);
    TableStep(c, 0);
    XorCommutes(c, 0);
    XorZero(c);
  }

  /** make_crc_table */
  method MakeTables() returns (t: seq<seq<nat>>)
    ensures TablesOk(t)
  {
    hide Xor, Steps, Low, Shr, Swap;
    var first := MakeFirst();
    var t1, t2, t3: seq<nat> := [], [], [];
    var r0, r1, r2, r3: seq<nat> := [], [], [], [];
    var n := 0;
    while n < 256
      invariant n <= 256 && |t1| == |t2| == |t3| == |r0| == |r1| == |r2| == |r3| == n
      invariant forall i :: 0 <= i < n ==> t1[i] == Row(i, 1) && t2[i] == Row(i, 2) && t3[i] == Row(i, 3)
      invariant forall i :: 0 <= i < n ==> r0[i] == Swap(Row(i, 0)) && r1[i] == Swap(Row(i, 1))
      invariant forall i :: 0 <= i < n ==> r2[i] == Swap(Row(i, 2)) && r3[i] == Swap(Row(i, 3))
    {
      var c := first[n];
      r0 := r0 + [Swap(c)];
      RowNext(n, 0, first);
      c := Xor(first[Low(c, 8)], Shr(c, 8));
      t1, r1 := t1 + [c], r1 + [Swap(c)];
      RowNext(n, 1, first);
      c := Xor(first[Low(c, 8)], Shr(c, 8));
      t2, r2 := t2 + [c], r2 + [Swap(c)];
      RowNext(n, 2, first);
      c := Xor(first[Low(c, 8)], Shr(c, 8));
      t3, r3 := t3 + [c], r3 + [Swap(c)];
      n := n + 1;
    }
    t := [first, t1, t2, t3, r0, r1, r2, r3];
  }

  // --------------------------------------------------------------- byte by byte

  /** DO1 */
  function Do1(t: seq<seq<nat>>, c: nat, b: Byte): (r: nat)
    requires TablesOk(t)
    ensures r == Steps(Xor(c, b), 8)
  {
    TableStep(c, b);
    Xor(t[0][Low(Xor(c, b), 8)], Shr(c, 8))
  }

  lemma FeedNone(c: nat)
    ensures Feed(c, []) == c
  {
  }

  lemma FeedNext(c: nat, buf: seq<Byte>, i: nat)
    requires i < |buf|
    ensures Feed(c, buf[..i + 1]) == Steps(Xor(Feed(c, buf[..i]), buf[i]), 8)
  {
    hide Xor, Steps;
    assert buf[..i + 1] == buf[..i] + [buf[i]];
    FeedAppend(c, buf[..i], [buf[i]]);
    var x := Feed(c, buf[..i]);
    assert [buf[i]][1..] == [];
    assert Feed(x, [buf[i]]) == Feed(Steps(Xor(x, buf[i]), 8), [buf[i]][1..]);
  }

  /** Some bytes one by one. */
  method ByBytes(t: seq<seq<nat>>, c: nat, buf: seq<Byte>, i: nat, n: nat, ghost c0: nat) returns (r: nat)
    requires TablesOk(t) && i + n <= |buf| && c == Feed(c0, buf[..i])
    ensures r == Feed(c0, buf[..i + n])
  {
    hide Xor, Steps, Feed, TablesOk, Do1;
    r := c;
    var j := 0;
    while j < n
      invariant j <= n && r == Feed(c0, buf[..i + j])
    {
      FeedNext(c0, buf, i + j);
      r := Do1(t, r, buf[i + j]);
      j := j + 1;
    }
  }

  /** crc32 without BYFOUR: eight bytes a round, then the rest. */
  method Crc32(t: seq<seq<nat>>, crc: nat, buf: seq<Byte>) returns (r: nat)
    requires TablesOk(t)
    ensures r == Crc(crc, buf)
  {
    hide Xor, Steps, TablesOk;
    ghost var c0 := Xor(crc, ONES);
    var c, i := Xor(crc, ONES), 0;
    assert buf[..0] == [];
    while |buf| - i >= 8
      invariant i <= |buf| && c == Feed(c0, buf[..i])
    {
      c := ByBytes(t, c, buf, i, 8, c0);
      i := i + 8;
    }
    c := ByBytes(t, c, buf, i, |buf| - i, c0);
    assert buf[..|buf|] == buf;
    return Xor(c, ONES);
  }

  // ------------------------------------------------------------ four bytes at a time

  function Word4(buf: seq<Byte>, i: nat): (r: nat)
    requires i + 4 <= |buf|
  {
    Join(buf[i], buf[i + 1], buf[i + 2], buf[i + 3])
  }

  lemma WordIs(buf: seq<Byte>, i: nat)
    requires i + 4 <= |buf|
    ensures Word(buf[i..i + 4]) == Word4(buf, i)
  {
    hide Shl;
    ShlZero(8);
    var s := buf[i..i + 4];
    assert s[1..][1..][1..][1..] == [];
    assert Word(s) == Cons(s[0], Word(s[1..]));
    assert Word(s[1..]) == Cons(s[1], Word(s[1..][1..]));
    assert Word(s[1..][1..]) == Cons(s[2], Word(s[1..][1..][1..]));
    assert Word(s[1..][1..][1..]) == Cons(s[3], 0);
  }

  /** DOLIT4, on a word with its first byte lowest. */
  function Lit4(t: seq<seq<nat>>, x: nat): (r: nat)
    requires TablesOk(t) && x < Pow2(32)
  {
    FourBytes(x);
    Xor(Xor(Xor(t[3][B0(x)], t[2][B1(x)]), t[1][B2(x)]), t[0][B3(x)])
  }

  /** Four lookups are the 32 steps. */
  lemma Lit4Is(t: seq<seq<nat>>, x: nat)
    requires TablesOk(t) && x < Pow2(32)
    ensures Lit4(t, x) == Steps(x, 32)
  {
    hide Xor, Steps, Shl, B0, B1, B2, B3, Pow2;
    FourBytes(x);
    var a, b, c, d := B0(x), B1(x), B2(x), B3(x);
    var z := c + Shl(d, 8);
    var y := b + Shl(z, 8);
    ConsIs(a, y);
    ConsIs(b, z);
    ConsIs(c, d);
    StepsLinear(a, Shl(y, 8), 32);
    StepsShlMore(y, 8, 32);
    StepsLinear(b, Shl(z, 8), 24);
    StepsShlMore(z, 8, 24);
    StepsLinear(c, Shl(d, 8), 16);
    StepsShlMore(d, 8, 16);
    var p, q, r, s := Steps(a, 32), Steps(b, 24), Steps(c, 16), Steps(d, 8);
    XorAssociates(Xor(p, q), r, s);
    XorAssociates(p, q, Xor(r, s));
  }

  /** Four bytes are fed by adding the word and making 32 steps. */
  lemma FeedFour(c: nat, buf: seq<Byte>, i: nat)
    requires i + 4 <= |buf|
    ensures Feed(c, buf[..i + 4]) == Steps(Xor(Feed(c, buf[..i]), Word4(buf, i)), 32)
  {
    hide Xor, Steps, Feed, Word;
    assert buf[..i + 4] == buf[..i] + buf[i..i + 4];
    FeedAppend(c, buf[..i], buf[i..i + 4]);
    FeedIsSteps(Feed(c, buf[..i]), buf[i..i + 4]);
    WordIs(buf, i);
  }

  lemma WordSmall(c: nat, buf: seq<Byte>, i: nat)
    requires i + 4 <= |buf| && c < Pow2(32)
    ensures Word4(buf, i) < Pow2(32) && Xor(c, Word4(buf, i)) < Pow2(32)
  {
    hide Xor, Pow2, Join, B0, B1, B2, B3;
    Digits(buf[i], buf[i + 1], buf[i + 2], buf[i + 3]);
    XorBound(c, Word4(buf, i), 32);
  }

  /** Whole words. */
  method ByWords(t: seq<seq<nat>>, c: nat, buf: seq<Byte>, i: nat, n: nat, ghost c0: nat) returns (r: nat)
    requires TablesOk(t) && i + 4 * n <= |buf| && c == Feed(c0, buf[..i]) && c < Pow2(32)
    ensures r == Feed(c0, buf[..i + 4 * n]) && r < Pow2(32)
  {
    hide Xor, Steps, Feed, TablesOk, Word4, Pow2, Lit4;
    r := c;
    var j := 0;
    while j < n
      invariant j <= n && r == Feed(c0, buf[..i + 4 * j]) && r < Pow2(32)
    {
      var k := i + 4 * j;
      FeedFour(c0, buf, k);
      WordSmall(r, buf, k);
      r := Xor(r, Word4(buf, k));
      Lit4Is(t, r);
      StepsBound(r, 32);
      r := Lit4(t, r);
      j := j + 1;
    }
  }

  /** crc32_little, for a buffer at any address. */
  method Crc32Little(t: seq<seq<nat>>, crc: nat, buf: seq<Byte>, address: nat) returns (r: nat)
    requires TablesOk(t) && crc < Pow2(32)
    ensures r == Crc(crc, buf)
  {
    hide Xor, Steps, Feed, TablesOk, Pow2, Do1;
    PolySmall();
    ghost var c0 := Xor(crc, ONES);
    XorBound(crc, ONES, 32);
    var c, i := Xor(crc, ONES), 0;
    assert buf[..0] == [];
    FeedNone(c0);
    while i < |buf| && (address + i) % 4 != 0
      invariant i <= |buf| && c == Feed(c0, buf[..i])
    {
      FeedNext(c0, buf, i);
      c := Do1(t, c, buf[i]);
      i := i + 1;
    }
    FeedBound(c0, buf[..i]);
    while |buf| - i >= 32
      invariant i <= |buf| && c == Feed(c0, buf[..i]) && c < Pow2(32)
    {
      c := ByWords(t, c, buf, i, 8, c0);
      i := i + 32;
    }
    while |buf| - i >= 4
      invariant i <= |buf| && c == Feed(c0, buf[..i]) && c < Pow2(32)
    {
      c := ByWords(t, c, buf, i, 1, c0);
      i := i + 4;
    }
    c := ByBytes(t, c, buf, i, |buf| - i, c0);
    assert buf[..|buf|] == buf;
    return Xor(c, ONES);
  }

  // --------------------------------------------------------- the other byte order

  /** The byte step on the swapped register. */
  function BigStep(t: seq<seq<nat>>, c: nat, b: Byte): (r: nat)
    requires TablesOk(t) && c < Pow2(32)
  {
    FourBytes(c);
    ByteXor(B3(c), b);
    Xor(t[4][Xor(B3(c), b)], Low(Shl(c, 8), 32))
  }

  lemma BigStepIs(t: seq<seq<nat>>, c: nat, b: Byte)
    requires TablesOk(t) && c < Pow2(32)
    ensures Swap(c) < Pow2(32) && BigStep(t, Swap(c), b) == Swap(Steps(Xor(c, b), 8))
  {
    hide Xor, Steps, Shl, Shr, Low, B0, B1, B2, B3, Join, Pow2;
    FourBytes(c);
    SwapDigits(c);
    TableStep(c, b);
    ByteXor(B0(c), b);
    LowXorByte(c, b);
    SwapShift(c);
    StepsBoundByte(Xor(B0(c), b));
    SwapXor(Steps(Xor(B0(c), b), 8), Shr(c, 8));
  }

  lemma StepsBoundByte(n: nat)
    requires n < 256
    ensures Steps(n, 8) < Pow2(32)
  {
    hide Steps, Pow2;
    PolySmall();
    StepsBound(n, 8);
  }

  lemma LowXorByte(c: nat, b: Byte)
    ensures Low(Xor(c, b), 8) == Xor(B0(c), b)
  {
    hide Xor, Low;
    XorLow(c, b, 8);
    ByteShr(b);
  }

  lemma SwapShift(c: nat)
    requires c < Pow2(32)
    ensures Shr(c, 8) < Pow2(32) && Swap(Shr(c, 8)) == Low(Shl(Swap(c), 8), 32)
  {
    hide Shl, Shr, Low, B0, B1, B2, B3, Pow2;
    FourBytes(c);
    var a, b, e, d := B0(c), B1(c), B2(c), B3(c);
    Digits(a, b, e, d);
    Digits(b, e, d, 0);
    Digits(d, e, b, a);
    Digits(0, d, e, b);
    // Swap(c) == Join(d, e, b, a), and the byte a is shifted out
    TopShifted(d, e, b, a);
  }

  lemma TopShifted(a: nat, b: nat, c: nat, d: nat)
    requires a < 256 && b < 256 && c < 256 && d < 256
    ensures Low(Shl(Join(a, b, c, d), 8), 32) == Join(0, a, b, c)
  {
    hide Shl, Shr, Low, Pow2, B0, B1, B2, B3;
    var x := Join(a, b, c, d);
    Digits(a, b, c, 0);
    TopByte(a, b, c, d);
    // Shl(x, 8) == Join(0, a, b, c) + Shl(d, 32)
    ShlAdd(Join(a, b, c, 0), Shl(d, 24), 8);
    ShlShl(d, 24, 8);
    Digits(0, a, b, c);
    ShlZero(8);
    ShlLow(d, Join(0, a, b, c), 32);
  }

  lemma TopByte(a: nat, b: nat, c: nat, d: nat)
    ensures Join(a, b, c, d) == Join(a, b, c, 0) + Shl(d, 24)
  {
    hide Shl;
    ShlZero(8);
    ShlAdd(c, Shl(d, 8), 8);
    ShlShl(d, 8, 8);
    ShlAdd(b + Shl(c, 8), Shl(d, 16), 8);
    ShlShl(d, 16, 8);
  }

  /** DOBIG4, on a word with its first byte highest. */
  function Big4(t: seq<seq<nat>>, x: nat): (r: nat)
    requires TablesOk(t) && x < Pow2(32)
  {
    FourBytes(x);
    Xor(Xor(Xor(t[4][B0(x)], t[5][B1(x)]), t[6][B2(x)]), t[7][B3(x)])
  }

  lemma RowSmall(n: nat, k: nat)
    requires n < 256
    ensures Row(n, k) < Pow2(32)
  {
    hide Steps, Pow2;
    PolySmall();
    StepsBound(n, 8 * (k + 1));
  }

  lemma Big4Is(t: seq<seq<nat>>, x: nat)
    requires TablesOk(t) && x < Pow2(32)
    ensures Swap(x) < Pow2(32) && Big4(t, Swap(x)) == Swap(Steps(x, 32))
  {
    hide Xor, Steps, B0, B1, B2, B3, Pow2, Swap, Row;
    SwapDigits(x);
    FourBytes(x);
    var p, q, r, s := Row(B0(x), 3), Row(B1(x), 2), Row(B2(x), 1), Row(B3(x), 0);
    RowSmall(B0(x), 3);
    RowSmall(B1(x), 2);
    RowSmall(B2(x), 1);
    RowSmall(B3(x), 0);
    SwapXor(s, r);
    SwapXor(Xor(s, r), q);
    SwapXor(Xor(Xor(s, r), q), p);
    Lit4Is(t, x);
    Backwards(p, q, r, s);
  }

  lemma Backwards(p: nat, q: nat, r: nat, s: nat)
    ensures Xor(Xor(Xor(s, r), q), p) == Xor(Xor(Xor(p, q), r), s)
  {
    hide Xor;
    XorCommutes(Xor(Xor(s, r), q), p);
    XorCommutes(Xor(s, r), q);
    XorAssociates(p, q, Xor(s, r));
    XorCommutes(s, r);
    XorAssociates(Xor(p, q), r, s);
  }

  lemma OnesSwap(x: nat)
    requires x < Pow2(32)
    ensures Xor(Swap(x), ONES) == Swap(Xor(x, ONES)) && Xor(x, ONES) < Pow2(32)
  {
    hide Xor, Pow2, B0, B1, B2, B3, Join;
    PolySmall();
    OnesJoin();
    Digits(255, 255, 255, 255);
    SwapXor(x, ONES);
  }

  lemma OnesJoin()
    ensures ONES == Join(255, 255, 255, 255)
  {
    hide Shl, Pow2;
    Pow2Values();
    ShlIsMul(255, 8);
    ShlIsMul(255 + 255 * 256, 8);
    ShlIsMul(255 + 256 * (255 + 255 * 256), 8);
  }

  /** Two complements and two swaps. */
  lemma BigEnd(f: nat)
    requires f < Pow2(32)
    ensures Swap(Xor(Swap(f), ONES)) == Xor(f, ONES)
  {
    hide Xor, Pow2, Swap;
    OnesSwap(f);
    SwapDigits(Xor(f, ONES));
  }

  /** A word as a big-endian machine loads it. */
  function BigWord4(buf: seq<Byte>, i: nat): (r: nat)
    requires i + 4 <= |buf|
    ensures r == Swap(Word4(buf, i))
  {
    Digits(buf[i], buf[i + 1], buf[i + 2], buf[i + 3]);
    Join(buf[i + 3], buf[i + 2], buf[i + 1], buf[i])
  }

  method BigByBytes(t: seq<seq<nat>>, c: nat, buf: seq<Byte>, i: nat, n: nat, ghost c0: nat) returns (r: nat)
    requires TablesOk(t) && i + n <= |buf| && c0 < Pow2(32) && c == Swap(Feed(c0, buf[..i]))
    ensures r == Swap(Feed(c0, buf[..i + n]))
  {
    hide Xor, Steps, Feed, TablesOk, Swap, BigStep, Pow2;
    r := c;
    var j := 0;
    while j < n
      invariant j <= n && r == Swap(Feed(c0, buf[..i + j]))
    {
      FeedNext(c0, buf, i + j);
      FeedBound(c0, buf[..i + j]);
      BigStepIs(t, Feed(c0, buf[..i + j]), buf[i + j]);
      r := BigStep(t, r, buf[i + j]);
      j := j + 1;
    }
  }

  method BigByWords(t: seq<seq<nat>>, c: nat, buf: seq<Byte>, i: nat, n: nat, ghost c0: nat) returns (r: nat)
    requires TablesOk(t) && i + 4 * n <= |buf| && c0 < Pow2(32) && c == Swap(Feed(c0, buf[..i]))
    ensures r == Swap(Feed(c0, buf[..i + 4 * n]))
  {
    hide Xor, Steps, Feed, TablesOk, Swap, Big4, Pow2, Word4;
    r := c;
    var j := 0;
    while j < n
      invariant j <= n && r == Swap(Feed(c0, buf[..i + 4 * j]))
    {
      var k := i + 4 * j;
      ghost var f := Feed(c0, buf[..k]);
      FeedFour(c0, buf, k);
      FeedBound(c0, buf[..k]);
      WordSmall(f, buf, k);
      SwapXor(f, Word4(buf, k));
      r := Xor(r, BigWord4(buf, k));
      Big4Is(t, Xor(f, Word4(buf, k)));
      r := Big4(t, r);
      j := j + 1;
    }
  }

  /** crc32_big, for a buffer at any address. */
  method Crc32Big(t: seq<seq<nat>>, crc: nat, buf: seq<Byte>, address: nat) returns (r: nat)
    requires TablesOk(t) && crc < Pow2(32)
    ensures r == Crc(crc, buf)
  {
    hide Xor, Steps, Feed, TablesOk, Pow2, Swap;
    ghost var c0 := Xor(crc, ONES);
    OnesSwap(crc);
    var c, i := Xor(Swap(crc), ONES), 0;
    assert buf[..0] == [];
    FeedNone(c0);
    while i < |buf| && (address + i) % 4 != 0
      invariant i <= |buf| && c == Swap(Feed(c0, buf[..i]))
    {
      c := BigByBytes(t, c, buf, i, 1, c0);
      i := i + 1;
    }
    while |buf| - i >= 32
      invariant i <= |buf| && c == Swap(Feed(c0, buf[..i]))
    {
      c := BigByWords(t, c, buf, i, 8, c0);
      i := i + 32;
    }
    while |buf| - i >= 4
      invariant i <= |buf| && c == Swap(Feed(c0, buf[..i]))
    {
      c := BigByWords(t, c, buf, i, 1, c0);
      i := i + 4;
    }
    c := BigByBytes(t, c, buf, i, |buf| - i, c0);
    assert buf[..|buf|] == buf;
    FeedBound(c0, buf);
    BigEnd(Feed(c0, buf));
    return Swap(Xor(c, ONES));
  }

  // ------------------------------------------------------------------ combination

  const GF2_DIM: nat := 32

  /** The matrix, one column for each bit of the register, makes k steps. */
  ghost predicate Operator(mat: seq<nat>, k: nat) {
    |mat| == GF2_DIM && forall n :: 0 <= n < GF2_DIM ==> mat[n] == Steps(Pow2(n), k)
  }

  /** The sum of the columns that the bits of vec select, from column j on. */
  lemma {:induction false} ColumnStep(vec: nat, j: nat, k: nat)
    ensures Steps(Shl(vec, j), k) ==
            Xor(if vec % 2 == 1 then Steps(Pow2(j), k) else 0, Steps(Shl(vec / 2, j + 1), k))
  {
    hide Xor, Steps;
    var low := vec % 2;
    assert vec == low + Shl(vec / 2, 1);
    Pow2Values();
    XorDisjoint(low, vec / 2, 1);
    XorShl(low, Shl(vec / 2, 1), j);
    ShlShl(vec / 2, 1, j);
    StepsLinear(Shl(low, j), Shl(vec / 2, j + 1), k);
    if low == 1 {
      ShlPow2(0, j);
    } else {
      ShlZero(j);
      StepsZero(k);
    }
  }

  /** gf2_matrix_times */
  method MatrixTimes(mat: seq<nat>, vec0: nat, ghost k: nat) returns (sum: nat)
    requires Operator(mat, k) && vec0 < Pow2(32)
    ensures sum == Steps(vec0, k)
  {
    hide Xor, Steps, Shl, Shr, Pow2;
    sum := 0;
    var vec: nat, j := vec0, 0;
    ShlNone(vec0);
    XorZero(Steps(vec0, k));
    while vec != 0
      invariant j <= GF2_DIM && vec < Pow2(GF2_DIM - j) && Xor(sum, Steps(Shl(vec, j), k)) == Steps(vec0, k)
      decreases vec
    {
      NotAll(vec, GF2_DIM - j);
      ColumnStep(vec, j, k);
      XorAssociates(sum, if vec % 2 == 1 then Steps(Pow2(j), k) else 0, Steps(Shl(vec / 2, j + 1), k));
      if vec % 2 == 1 {
        sum := Xor(sum, mat[j]);
      } else {
        XorCommutes(sum, 0);
        XorZero(sum);
      }
      vec := vec / 2;
      j := j + 1;
    }
    ShlZero(j);
    StepsZero(k);
    XorCommutes(sum, 0);
    XorZero(sum);
  }

  lemma NotAll(vec: nat, n: nat)
    requires 0 < vec < Pow2(n)
    ensures n > 0 && vec / 2 < Pow2(n - 1)
  {
  }

  lemma {:induction false} OperatorColumns(mat: seq<nat>, k: nat, n: nat)
    requires Operator(mat, k) && n < GF2_DIM
    ensures mat[n] == Steps(Pow2(n), k) < Pow2(32)
  {
    hide Steps, Pow2;
    Pow2StrictMono(n, 32);
    StepsBound(Pow2(n), k);
  }

  /** gf2_matrix_square: twice the steps. */
  method MatrixSquare(mat: seq<nat>, ghost k: nat) returns (square: seq<nat>)
    requires Operator(mat, k)
    ensures Operator(square, 2 * k)
  {
    hide Steps, Pow2;
    square := [];
    while |square| < GF2_DIM
      invariant |square| <= GF2_DIM && forall n :: 0 <= n < |square| ==> square[n] == Steps(Pow2(n), 2 * k)
    {
      var n := |square|;
      OperatorColumns(mat, k, n);
      StepsAdd(Pow2(n), k, k);
      var c := MatrixTimes(mat, mat[n], k);
      square := square + [c];
    }
  }

  /** The operator of one zero bit. */
  method OneBit() returns (odd: seq<nat>)
    ensures Operator(odd, 1)
  {
    hide Steps, Pow2, Xor;
    odd := [POLY];
    FirstColumn();
    var row := 1;
    while |odd| < GF2_DIM
      invariant 1 <= |odd| <= GF2_DIM && row == Pow2(|odd| - 1)
      invariant forall n :: 0 <= n < |odd| ==> odd[n] == Steps(Pow2(n), 1)
    {
      NextColumn(|odd|);
      odd := odd + [row];
      row := 2 * row;
    }
  }

  lemma FirstColumn()
    ensures Steps(Pow2(0), 1) == POLY && Pow2(0) == 1
  {
    hide Xor;
    XorCommutes(POLY, 0);
    XorZero(POLY);
    assert Steps(1, 1) == Steps(BitStep(1), 0);
  }

  lemma NextColumn(n: nat)
    requires n >= 1
    ensures Steps(Pow2(n), 1) == Pow2(n - 1) && Pow2(n) == 2 * Pow2(n - 1)
  {
    hide Xor;
    Halves(0, Pow2(n - 1));
    assert Steps(Pow2(n), 1) == Steps(BitStep(Pow2(n)), 0);
  }

  /** The steps for len times twice p zero bits. */
  function Span(p: nat, len: nat): (r: nat)
    decreases len
  {
    if len == 0 then 0 else 2 * p + Span(p, len - 1)
  }

  /** Half a round of crc32_combine: the next operator, used if the bit of len is set. */
  method HalfRound(mat: seq<nat>, crc: nat, len: nat, ghost p: nat) returns (next: seq<nat>, crc': nat, len': nat)
    requires Operator(mat, p) && crc < Pow2(32)
    ensures Operator(next, 2 * p) && crc' < Pow2(32) && len' == len / 2
    ensures Steps(crc, Span(p, len)) == Steps(crc', Span(2 * p, len'))
  {
    hide Steps, Pow2, Span;
    next := MatrixSquare(mat, p);
    crc', len' := crc, len / 2;
    Split(p, len);
    if len % 2 == 1 {
      StepsAdd(crc, 2 * p, Span(2 * p, len / 2));
      StepsBound(crc, 2 * p);
      crc' := MatrixTimes(next, crc, 2 * p);
    }
  }

  lemma {:induction false} Split(p: nat, len: nat)
    ensures Span(p, len) == (if len % 2 == 1 then 2 * p else 0) + Span(2 * p, len / 2)
    decreases len
  {
    if len < 2 {
    } else {
      Split(p, len - 2);
      assert Span(p, len) == 2 * p + (2 * p + Span(p, len - 2));
    }
  }

  lemma {:induction false} SpanFour(len: nat)
    ensures Span(4, len) == 8 * len
  {
    if len == 0 {
    } else {
      SpanFour(len - 1);
    }
  }

  /** crc32_combine */
  method Crc32Combine(crc1: nat, crc2: nat, len2: nat) returns (r: nat)
    requires crc1 < Pow2(32)
    ensures r == if len2 == 0 then crc1 else Xor(Steps(crc1, 8 * len2), crc2)
  {
    hide Steps, Xor, Pow2, Operator;
    if len2 == 0 {
      return crc1;
    }
    var odd := OneBit();
    var even := MatrixSquare(odd, 1);
    odd := MatrixSquare(even, 2);
    var crc: nat, len: nat := crc1, len2;
    ghost var p: nat := 4;
    SpanFour(len2);
    while len != 0
      invariant Operator(odd, p) && crc < Pow2(32) && Steps(crc1, 8 * len2) == Steps(crc, Span(p, len))
      decreases len
    {
      even, crc, len := HalfRound(odd, crc, len, p);
      p := 2 * p;
      if len == 0 {
        break;
      }
      odd, crc, len := HalfRound(even, crc, len, p);
      p := 2 * p;
    }
    StepsNone(crc);
    return Xor(crc, crc2);
  }

  /** The combination of two check values is that of the data joined. */
  method CombineTwo(a: seq<Byte>, b: seq<Byte>, crc1: nat, crc2: nat) returns (r: nat)
    requires crc1 == Crc(0, a) && crc2 == Crc(0, b)
    ensures r == Crc(0, a + b)
  {
    hide Steps, Xor, Pow2, Feed, Crc;
    CrcSmall(0, a);
    r := Crc32Combine(crc1, crc2, |b|);
    if b == [] {
      assert a + b == a;
    } else {
      CrcAppend(a, b);
    }
  }

  lemma CrcSmall(crc: nat, a: seq<Byte>)
    requires crc < Pow2(32)
    ensures Crc(crc, a) < Pow2(32)
  {
    hide Xor, Feed, Pow2;
    PolySmall();
    XorBound(crc, ONES, 32);
    FeedBound(Xor(crc, ONES), a);
    XorBound(Feed(Xor(crc, ONES), a), ONES, 32);
  }
}
