/** The CRC-32 of section 8 of RFC 1952, one bit at a time, and its algebra: the
    register is a polynomial over GF(2), a step multiplies by x. */
module CrcSpec {
  import opened Bits
  import opened ExclusiveOr

  /** The terms of the polynomial below x^32. */
  const TERMS: seq<nat> := [0, 1, 2, 4, 5, 7, 8, 10, 11, 12, 16, 22, 23, 26]

  const POLY: nat := 0xedb88320
  const ONES: nat := 0xffffffff

  predicate Exponents(terms: seq<nat>) {
    && (forall i :: 0 <= i < |terms| ==> terms[i] < 32)
    && (forall i, j :: 0 <= i < j < |terms| ==> terms[i] < terms[j])
  }

  /** A polynomial as a register: x^k is bit 31 - k. */
  function Pattern(terms: seq<nat>): (r: nat)
    requires Exponents(terms)
  {
    if terms == [] then 0 else Pattern(terms[..|terms| - 1]) + Pow2(31 - terms[|terms| - 1])
  }

  lemma PatternNext(n: nat)
    requires n < |TERMS|
    ensures Exponents(TERMS[..n]) && Exponents(TERMS[..n + 1])
    ensures Pattern(TERMS[..n + 1]) == Pattern(TERMS[..n]) + Pow2(31 - TERMS[n])
  {
    hide Pow2;
    assert TERMS[..n + 1][..n] == TERMS[..n];
  }

  lemma PolyIsPattern()
    ensures Exponents(TERMS) && Pattern(TERMS) == POLY
  {
    hide Pattern, Pow2;
    Pow2High();
    PatternNext(0); PatternNext(1); PatternNext(2); PatternNext(3); PatternNext(4); PatternNext(5); PatternNext(6);
    PatternNext(7); PatternNext(8); PatternNext(9); PatternNext(10); PatternNext(11); PatternNext(12); PatternNext(13);
    assert Pattern(TERMS[..0]) == 0 by {
      PatternNone();
    }
    assert TERMS[..14] == TERMS;
  }

  lemma PatternNone()
    ensures Pattern(TERMS[..0]) == 0
  {
  }

  lemma Pow2High()
    ensures Pow2(19) == 0x80000 && Pow2(20) == 0x100000 && Pow2(21) == 0x200000 && Pow2(23) == 0x800000
    ensures Pow2(24) == 0x1000000 && Pow2(26) == 0x4000000 && Pow2(27) == 0x8000000 && Pow2(29) == 0x20000000
    ensures Pow2(30) == 0x40000000 && Pow2(31) == 0x80000000
    ensures Pow2(5) == 32 && Pow2(8) == 256 && Pow2(9) == 512 && Pow2(15) == 32768
  {
    Pow2Values();
    assert Pow2(18) == 4 * Pow2(16);
    assert Pow2(20) == 4 * Pow2(18);
    assert Pow2(22) == 4 * Pow2(20);
    assert Pow2(24) == 4 * Pow2(22);
    assert Pow2(26) == 4 * Pow2(24);
    assert Pow2(28) == 4 * Pow2(26);
    assert Pow2(30) == 4 * Pow2(28);
  }

  /** The register after one more bit. */
  function BitStep(c: nat): (r: nat) {
    if c % 2 == 1 then Xor(POLY, c / 2) else c / 2
  }

  function Steps(c: nat, n: nat): (r: nat)
    decreases n
  {
    if n == 0 then c else Steps(BitStep(c), n - 1)
  }

  function Feed(c: nat, data: seq<Byte>): (r: nat)
    decreases |data|
  {
    if data == [] then c else Feed(Steps(Xor(c, data[0]), 8), data[1..])
  }

  /** crc32: the check value of more data, given that of the data before. */
  function Crc(crc: nat, data: seq<Byte>): (r: nat) {
    Xor(Feed(Xor(crc, ONES), data), ONES)
  }

  lemma {:induction false} XorOnes(x: nat, n: nat)
    requires x < Pow2(n)
    ensures Xor(x, Pow2(n) - 1) == Pow2(n) - 1 - x
    decreases n
  {
    if n == 0 {
    } else {
      hide Xor, Pow2;
      var m := Pow2(n - 1);
      assert Pow2(n) == 2 * m by {
        Twice(n);
      }
      OddHalves(x, m);
      XorStep(x, 2 * m - 1);
      XorOnes(x / 2, n - 1);
      SameHalves(Xor(x, 2 * m - 1), 2 * m - 1 - x);
    }
  }

  lemma Twice(n: nat)
    requires n > 0
    ensures Pow2(n) == 2 * Pow2(n - 1)
  {
  }

  lemma OddHalves(x: nat, m: nat)
    requires x < 2 * m
    ensures x / 2 < m && (2 * m - 1) / 2 == m - 1 && (x + (2 * m - 1)) % 2 == (2 * m - 1 - x) % 2
    ensures (2 * m - 1 - x) / 2 == m - 1 - x / 2
  {
  }

  /** The register is complemented before and behind the data. */
  lemma Complemented(x: nat)
    requires x < 0x1_0000_0000
    ensures Xor(x, ONES) == 0xffff_ffff - x
  {
    hide Xor, Pow2;
    PolySmall();
    XorOnes(x, 32);
  }

  // ------------------------------------------------------------------------ linear

  lemma BitStepLinear(a: nat, b: nat)
    ensures BitStep(Xor(a, b)) == Xor(BitStep(a), BitStep(b))
  {
    hide Xor;
    XorStep(a, b);
    var x, y := a / 2, b / 2;
    if a % 2 == 1 && b % 2 == 1 {
      XorSwap(POLY, x, POLY, y);
      XorSelf(POLY);
      XorZero(Xor(x, y));
      BothOdd(a, b);
    } else if a % 2 == 1 {
      XorAssociates(POLY, x, y);
      OneOdd(a, b);
    } else if b % 2 == 1 {
      XorAssociates(POLY, x, y);
      XorCommutes(POLY, x);
      XorAssociates(x, POLY, y);
      OneOdd(b, a);
    } else {
      BothEven(a, b);
    }
  }

  lemma BothOdd(a: nat, b: nat)
    requires a % 2 == 1 && b % 2 == 1
    ensures (a + b) % 2 == 0
  {
  }

  lemma OneOdd(a: nat, b: nat)
    requires a % 2 == 1 && b % 2 != 1
    ensures (a + b) % 2 == 1 && (b + a) % 2 == 1
  {
  }

  lemma BothEven(a: nat, b: nat)
    requires a % 2 != 1 && b % 2 != 1
    ensures (a + b) % 2 == 0
  {
  }

  lemma {:induction false} StepsLinear(a: nat, b: nat, n: nat)
    ensures Steps(Xor(a, b), n) == Xor(Steps(a, n), Steps(b, n))
    decreases n
  {
    if n == 0 {
    } else {
      BitStepLinear(a, b);
      StepsLinear(BitStep(a), BitStep(b), n - 1);
    }
  }

  lemma {:induction false} StepsAdd(c: nat, m: nat, n: nat)
    ensures Steps(c, m + n) == Steps(Steps(c, m), n)
    decreases m
  {
    if m == 0 {
    } else {
      StepsAdd(BitStep(c), m - 1, n);
    }
  }

  lemma {:induction false} StepsZero(n: nat)
    ensures Steps(0, n) == 0
  {
    if n == 0 {
    } else {
      StepsZero(n - 1);
    }
  }

  /** Zeros come out as they went in. */
  lemma {:induction false} StepsShl(x: nat, n: nat)
    ensures Steps(Shl(x, n), n) == x
  {
    if n == 0 {
    } else {
      var h := Shl(x, n - 1);
      assert Shl(x, n) == 2 * h;
      Halves(0, h);
      assert BitStep(2 * h) == h;
      hide BitStep, Shl;
      StepsShl(x, n - 1);
    }
  }

  lemma StepsShlMore(x: nat, m: nat, n: nat)
    requires m <= n
    ensures Steps(Shl(x, m), n) == Steps(x, n - m)
  {
    hide Steps, Shl;
    StepsAdd(Shl(x, m), m, n - m);
    StepsShl(x, m);
  }

  /** A step keeps to 32 bits. */
  lemma PolySmall()
    ensures Pow2(32) == 4294967296 && POLY < Pow2(32) && ONES < Pow2(32)
  {
    Pow2Values();
    ShlPow2(16, 16);
    ShlIsMul(Pow2(16), 16);
  }

  lemma BitStepBound(c: nat)
    requires c < Pow2(32)
    ensures BitStep(c) < Pow2(32)
  {
    hide Xor, Pow2;
    PolySmall();
    XorBound(POLY, c / 2, 32);
  }

  lemma {:induction false} StepsBound(c: nat, n: nat)
    requires c < Pow2(32)
    ensures Steps(c, n) < Pow2(32)
    decreases n
  {
    hide Pow2, BitStep;
    if n == 0 {
    } else {
      BitStepBound(c);
      StepsBound(BitStep(c), n - 1);
    }
  }

  // --------------------------------------------------------------- as one polynomial

  /** A byte below a number. */
  function Cons(low: Byte, high: nat): (r: nat) {
    low + Shl(high, 8)
  }

  /** The bytes as one number, first byte lowest. */
  function Word(data: seq<Byte>): (r: nat)
    decreases |data|
  {
    if data == [] then 0 else Cons(data[0], Word(data[1..]))
  }

  lemma ConsIs(low: Byte, high: nat)
    ensures Cons(low, high) == Xor(low, Shl(high, 8))
  {
    hide Xor, Shl, Pow2;
    Pow2Values();
    XorDisjoint(low, high, 8);
  }

  /** Feeding bytes is adding them as one polynomial and reducing it. */
  lemma {:induction false} FeedIsSteps(c: nat, data: seq<Byte>)
    ensures Feed(c, data) == Steps(Xor(c, Word(data)), 8 * |data|)
    decreases |data|
  {
    hide Xor, Shl, Steps, Cons;
    if data == [] {
      XorCommutes(c, 0);
      XorZero(c);
      StepsNone(c);
    } else {
      var b, w, n := data[0], Word(data[1..]), 8 * (|data| - 1);
      var x := Xor(c, b);
      FeedIsSteps(Steps(x, 8), data[1..]);
      StepsShl(w, 8);
      StepsLinear(x, Shl(w, 8), 8);
      StepsAdd(Xor(x, Shl(w, 8)), 8, n);
      XorAssociates(c, b, Shl(w, 8));
      ConsIs(b, w);
    }
  }

  lemma StepsNone(c: nat)
    ensures Steps(c, 0) == c
  {
  }

  lemma {:induction false} FeedAppend(c: nat, a: seq<Byte>, b: seq<Byte>)
    ensures Feed(c, a + b) == Feed(Feed(c, a), b)
    decreases |a|
  {
    hide Xor, Steps;
    if a == [] {
      assert a + b == b;
    } else {
      FeedAppend(Steps(Xor(c, a[0]), 8), a[1..], b);
      assert (a + b)[1..] == a[1..] + b;
    }
  }

  lemma {:induction false} FeedBound(c: nat, data: seq<Byte>)
    requires c < Pow2(32)
    ensures Feed(c, data) < Pow2(32)
    decreases |data|
  {
    hide Xor, Steps, Pow2;
    if data == [] {
    } else {
      PolySmall();
      XorBound(c, data[0], 32);
      StepsBound(Xor(c, data[0]), 8);
      FeedBound(Steps(Xor(c, data[0]), 8), data[1..]);
    }
  }

  // --------------------------------------------------------------- concatenation

  /** Registers that differ end up as different as zeros make them. */
  lemma FeedDiffers(x: nat, y: nat, data: seq<Byte>)
    ensures Xor(Feed(x, data), Feed(y, data)) == Steps(Xor(x, y), 8 * |data|)
  {
    hide Xor, Steps, Feed, Word;
    var w, n := Word(data), 8 * |data|;
    FeedIsSteps(x, data);
    FeedIsSteps(y, data);
    StepsLinear(Xor(x, w), Xor(y, w), n);
    XorSwap(x, w, y, w);
    XorSelf(w);
    XorCommutes(Xor(x, y), 0);
    XorZero(Xor(x, y));
  }

  /** The check value of two pieces of data from theirs. */
  lemma CrcAppend(a: seq<Byte>, b: seq<Byte>)
    ensures Crc(0, a + b) == Xor(Steps(Crc(0, a), 8 * |b|), Crc(0, b))
  {
    hide Xor, Steps, Feed;
    XorZero(ONES);
    var x, n := Feed(ONES, a), 8 * |b|;
    FeedAppend(ONES, a, b);
    FeedDiffers(x, ONES, b);
    var u, v := Feed(x, b), Feed(ONES, b);
    // u ^ 1s == (u ^ v) ^ (v ^ 1s)
    XorAssociates(Xor(u, v), v, ONES);
    XorAssociates(u, v, v);
    XorSelf(v);
    XorCommutes(u, 0);
    XorZero(u);
  }

  /** Continuing from a check value is taking that of all the data. */
  lemma CrcContinues(crc: nat, a: seq<Byte>, b: seq<Byte>)
    ensures Crc(Crc(crc, a), b) == Crc(crc, a + b)
  {
    hide Xor, Feed;
    var x := Feed(Xor(crc, ONES), a);
    XorAssociates(x, ONES, ONES);
    XorSelf(ONES);
    XorCommutes(x, 0);
    XorZero(x);
    FeedAppend(Xor(crc, ONES), a, b);
  }
}
