/** What the lengths of the block's own codes take at least. */
module DefaultHeader {
  import opened Bits
  import opened Canonical
  import opened InflateMachine
  import opened TreeTables
  import opened CodeLengths
  import opened TreeBest
  import opened HeaderDecode
  import opened HeaderRuns
  import opened BlockEncoder
  import opened DefaultCounts
  import opened DefaultTokens
  import opened DefaultCodes

  // ------------------------------------------------------------- lengths and literals

  /** The lengths of the code for literals and lengths. */
  predicate LitLens(lens: seq<nat>) {
    285 <= |lens| <= 286 && LensOk(lens) && forall s :: 0 <= s < |lens| ==> lens[s] == LVal(s)
  }

  lemma Pattern(i: nat, k: nat)
    requires i < 16 && k < 16
    ensures LVal(16 * i + k) == if k == 11 || (k == 15 && i < 15) then 7 else 0
  {
    hide LLen;
  }

  lemma LitRun(lens: seq<nat>, i: nat)
    requires LitLens(lens) && i < 16
    ensures RunAt(lens, 16 * i, 11) && lens[16 * i] == 0 && RunAt(lens, 16 * i + 11, 1) && lens[16 * i + 11] == 7
    ensures var r := if i < 15 then 3 else 4;
            RunAt(lens, 16 * i + 12, r) && lens[16 * i + 12] == 0 && RunAt(lens, 16 * i + 12 + r, 1)
            && lens[16 * i + 12 + r] == 7
  {
    hide LVal;
    forall j | 16 * i <= j < 16 * i + 16
      ensures lens[j] == if j == 16 * i + 11 || (j == 16 * i + 15 && i < 15) then 7 else 0
    {
      Pattern(i, j - 16 * i);
    }
    if i < 15 {
      Pattern(i + 1, 0);
    } else {
      NearEnd();
    }
  }

  lemma NearEnd()
    ensures LVal(256) == 7 && LVal(257) == 6
  {
    hide IsLit;
  }

  /** Two literals among the unused ones. */
  lemma Chunk(blens: seq<nat>, lens: seq<nat>, i: nat, prev: int)
    requires LitLens(lens) && i < 16 && |blens| == BL_CODES && AllCodable(blens, Items(lens, 16 * i, prev, 0))
    ensures var next := if i < 15 then 16 * i + 16 else 257;
            && AllCodable(blens, Items(lens, next, 7, 0))
            && BitsFrom(blens, lens, 16 * i, prev)
                 == blens[18] + blens[17] + 2 * blens[7] + 10 + BitsFrom(blens, lens, next, 7)
    ensures blens[7] != 0 && blens[17] != 0 && blens[18] != 0
  {
    hide LVal, Items, AllCodable, BitsFrom, RunAt;
    LitRun(lens, i);
    var r := if i < 15 then 3 else 4;
    RunStep(blens, lens, 16 * i, prev, 11);
    RunStep(blens, lens, 16 * i + 11, 0, 1);
    RunStep(blens, lens, 16 * i + 12, 7, r);
    RunStep(blens, lens, 16 * i + 12 + r, 0, 1);
  }

  lemma {:induction false} Chunks(blens: seq<nat>, lens: seq<nat>, i: nat)
    requires LitLens(lens) && i < 16 && |blens| == BL_CODES && AllCodable(blens, Items(lens, 0, -1, 0))
    ensures var next := if i < 15 then 16 * i + 16 else 257;
            && AllCodable(blens, Items(lens, next, 7, 0))
            && BitsFrom(blens, lens, 0, -1)
                 == (i + 1) * (blens[18] + blens[17] + 2 * blens[7] + 10) + BitsFrom(blens, lens, next, 7)
    ensures blens[7] != 0 && blens[17] != 0 && blens[18] != 0
    decreases i
  {
    hide LVal, Items, AllCodable, BitsFrom;
    if i == 0 {
      Chunk(blens, lens, 0, -1);
    } else {
      Chunks(blens, lens, i - 1);
      Chunk(blens, lens, i, 7);
      var x := blens[18] + blens[17] + 2 * blens[7] + 10;
      assert (i + 1) * x == i * x + x;
    }
  }

  lemma LengthsDiffer(a: nat)
    requires a < 28
    ensures LLen(a) != 0 && (a < 27 ==> LLen(a + 1) != LLen(a))
  {
  }

  lemma LengthLens(lens: seq<nat>, i: nat)
    requires LitLens(lens) && 257 <= i < 285
    ensures lens[i] == LLen(i - 257) && lens[i] != 0 && (i + 1 < |lens| ==> lens[i + 1] != lens[i])
  {
    hide LLen, IsLit;
    LengthsDiffer(i - 257);
  }

  lemma SomeLengths(lens: seq<nat>)
    requires LitLens(lens)
    ensures lens[257] == 6 && lens[269] == 5 && lens[273] == 4 && lens[281] == 3
  {
    hide IsLit;
  }

  lemma {:induction false} SinglesAre(blens: seq<nat>, lens: seq<nat>, a: nat)
    requires LitLens(lens) && |blens| == BL_CODES && a <= 28
    ensures SingleBits(blens, lens, 257 + a, 285) == LengthBits(blens, a)
    decreases 28 - a
  {
    hide LLen, IsLit;
    if a == 28 {
    } else {
      SinglesAre(blens, lens, a + 1);
      LengthLens(lens, 257 + a);
    }
  }

  /** The header's first part. */
  lemma LitHeader(blens: seq<nat>, lens: seq<nat>)
    requires LitLens(lens) && |blens| == BL_CODES && AllCodable(blens, TreeItems(lens))
    ensures |ItemsBits(blens, TreeItems(lens))|
         >= 16 * (blens[18] + blens[17] + 2 * blens[7] + 10) + 8 * blens[7] + 10 * blens[6] + 5 * blens[5]
           + 4 * blens[4] + blens[3]
    ensures blens[7] != 0 && blens[17] != 0 && blens[18] != 0
    ensures blens[3] != 0 && blens[4] != 0 && blens[5] != 0 && blens[6] != 0
  {
    hide LLen, LVal, Items, AllCodable, ItemsBits, SingleBits, LengthBits;
    Chunks(blens, lens, 15);
    forall i | 257 <= i < 285
      ensures lens[i] != 0 && (i + 1 < |lens| ==> lens[i + 1] != lens[i])
    {
      LengthLens(lens, i);
    }
    Singles(blens, lens, 257, 285, 7);
    SomeLengths(lens);
    SinglesAre(blens, lens, 0);
    LengthBitsAre(blens);
  }

  // ----------------------------------------------------------------------- distances

  predicate DistLens(lens: seq<nat>) {
    |lens| == 30 && LensOk(lens) && forall s :: 0 <= s < 30 ==> lens[s] == DLen(s)
  }

  lemma DistRuns(lens: seq<nat>)
    requires DistLens(lens)
    ensures RunAt(lens, 0, 11) && RunAt(lens, 11, 1) && RunAt(lens, 12, 2) && RunAt(lens, 14, 1) && RunAt(lens, 15, 2)
            && RunAt(lens, 17, 1)
    ensures lens[0] == 0 && lens[11] == 5 && lens[12] == 0 && lens[14] == 5 && lens[15] == 0 && lens[17] == 5
  {
  }

  lemma MoreDistRuns(lens: seq<nat>)
    requires DistLens(lens)
    ensures RunAt(lens, 18, 2) && RunAt(lens, 20, 1) && RunAt(lens, 21, 1) && RunAt(lens, 22, 1) && RunAt(lens, 23, 1)
    ensures lens[18] == 0 && lens[20] == 4 && lens[21] == 0 && lens[22] == 4 && lens[23] == 0
    ensures lens[24] == 4 && lens[25] == 5 && lens[26] == 2 && lens[27] == 4 && lens[28] == 2 && lens[29] == 3
  {
  }

  lemma FirstDistBits(blens: seq<nat>, lens: seq<nat>)
    requires DistLens(lens) && |blens| == BL_CODES && AllCodable(blens, Items(lens, 0, -1, 0))
    ensures AllCodable(blens, Items(lens, 18, 5, 0))
    ensures BitsFrom(blens, lens, 0, -1) == blens[18] + 7 + 3 * blens[5] + 4 * blens[0] + BitsFrom(blens, lens, 18, 5)
  {
    hide DistLens, Items, AllCodable, BitsFrom, RunAt;
    DistRuns(lens);
    DistLensOk(lens);
    RunStep(blens, lens, 0, -1, 11);
    RunStep(blens, lens, 11, 0, 1);
    RunStep(blens, lens, 12, 5, 2);
    RunStep(blens, lens, 14, 0, 1);
    RunStep(blens, lens, 15, 5, 2);
    RunStep(blens, lens, 17, 0, 1);
  }

  lemma DistLensOk(lens: seq<nat>)
    requires DistLens(lens)
    ensures |lens| == 30 && LensOk(lens)
  {
    hide DLen;
  }

  lemma NextDistBits(blens: seq<nat>, lens: seq<nat>)
    requires DistLens(lens) && |blens| == BL_CODES && AllCodable(blens, Items(lens, 18, 5, 0))
    ensures AllCodable(blens, Items(lens, 24, 0, 0))
    ensures BitsFrom(blens, lens, 18, 5) == 4 * blens[0] + 2 * blens[4] + BitsFrom(blens, lens, 24, 0)
    ensures blens[0] != 0
  {
    hide DistLens, Items, AllCodable, BitsFrom, RunAt;
    MoreDistRuns(lens);
    DistLensOk(lens);
    RunStep(blens, lens, 18, 5, 2);
    RunStep(blens, lens, 20, 0, 1);
    RunStep(blens, lens, 21, 4, 1);
    RunStep(blens, lens, 22, 0, 1);
    RunStep(blens, lens, 23, 4, 1);
  }

  lemma SixSingles(blens: seq<nat>, lens: seq<nat>)
    requires |lens| == 30 && |blens| == BL_CODES && lens[24] == 4 && lens[25] == 5 && lens[26] == 2 && lens[27] == 4
             && lens[28] == 2 && lens[29] == 3
    ensures SingleBits(blens, lens, 24, 30) == 2 * blens[4] + blens[5] + 2 * blens[2] + blens[3]
  {
    assert SingleBits(blens, lens, 28, 30) == blens[2] + blens[3];
    assert SingleBits(blens, lens, 26, 30) == blens[2] + blens[4] + (blens[2] + blens[3]);
  }

  /** The header's second part. */
  lemma DistHeader(blens: seq<nat>, lens: seq<nat>)
    requires DistLens(lens) && |blens| == BL_CODES && AllCodable(blens, TreeItems(lens))
    ensures |ItemsBits(blens, TreeItems(lens))|
         >= blens[18] + 7 + 8 * blens[0] + 2 * blens[2] + blens[3] + 4 * blens[4] + 4 * blens[5]
    ensures blens[0] != 0 && blens[2] != 0
  {
    hide DistLens, Items, AllCodable, ItemsBits, SingleBits;
    DistLensOk(lens);
    FirstDistBits(blens, lens);
    NextDistBits(blens, lens);
    MoreDistRuns(lens);
    Singles(blens, lens, 24, 30, 0);
    SixSingles(blens, lens);
  }

  // ------------------------------------------------------------------ the least it takes

  /** A symbol used r times: r times its length weighs no less than r * (v + 1), less the
      share of the code's space that it takes. */
  lemma Share(l: nat, r: nat, v: nat)
    requires 1 <= l <= 7 && 2 <= v <= 6 && r * Pow2(v) <= 160
    ensures 32768 * (r * l) + 160 * Pow2(MAX_BITS - l) >= 32768 * (r * (v + 1))
  {
    hide Pow2;
    if l > v {
      assert r * l >= r * (v + 1);
    } else {
      PowProduct(l, v);
      Balance(l, r, v, Pow2(v), Pow2(MAX_BITS - l));
    }
  }

  lemma Balance(l: nat, r: nat, v: nat, p: nat, q: nat)
    requires l <= v && r * p <= 160 && p * q >= 32768 * (v + 1 - l)
    ensures 32768 * (r * l) + 160 * q >= 32768 * (r * (v + 1))
  {
    var k := v + 1 - l;
    Multiples(r, 32768 * k, p * q);
    Multiples(q, r * p, 160);
    assert r * (p * q) == q * (r * p);
    assert r * (32768 * k) == 32768 * (r * k);
    assert r * (v + 1) == r * l + r * k;
  }

  lemma PowProduct(l: nat, v: nat)
    requires 1 <= l <= v <= 6
    ensures Pow2(v) * Pow2(MAX_BITS - l) >= 32768 * (v + 1 - l)
  {
    hide Pow2;
    Pow2Values();
    assert v == 1 || v == 2 || v == 3 || v == 4 || v == 5 || v == 6;
    assert l == 1 || l == 2 || l == 3 || l == 4 || l == 5 || l == 6;
  }

  lemma {:induction false} SpaceGrows(b: seq<nat>, m: nat, n: nat)
    requires m <= n <= |b| && LensOk(b)
    ensures SpaceOf(b, m) <= SpaceOf(b, n)
    decreases n
  {
    if n == m {
    } else {
      SpaceGrows(b, m, n - 1);
    }
  }

  lemma SpaceNext(b: seq<nat>, n: nat)
    requires n < |b| && LensOk(b) && b[n] != 0
    ensures SpaceOf(b, n + 1) == SpaceOf(b, n) + Pow2(MAX_BITS - b[n])
  {
  }

  lemma SevenSpaces(b: seq<nat>)
    requires |b| == BL_CODES && LensOk(b)
    requires b[0] != 0 && b[2] != 0 && b[3] != 0 && b[4] != 0 && b[5] != 0 && b[6] != 0 && b[7] != 0
    ensures Pow2(MAX_BITS - b[0]) + Pow2(MAX_BITS - b[2]) + Pow2(MAX_BITS - b[3]) + Pow2(MAX_BITS - b[4])
              + Pow2(MAX_BITS - b[5])
          + Pow2(MAX_BITS - b[6]) + Pow2(MAX_BITS - b[7]) <= SpaceOf(b, 8)
  {
    hide Pow2, SpaceOf;
    SpaceNext(b, 0);
    SpaceGrows(b, 1, 2);
    SpaceNext(b, 2);
    SpaceNext(b, 3);
    SpaceNext(b, 4);
    SpaceNext(b, 5);
    SpaceNext(b, 6);
    SpaceNext(b, 7);
  }

  /** The nine symbols share the space of the code. */
  lemma NineSpaces(b: seq<nat>)
    requires |b| == BL_CODES && LensOk(b)
    requires b[0] != 0 && b[2] != 0 && b[3] != 0 && b[4] != 0 && b[5] != 0 && b[6] != 0 && b[7] != 0 && b[17] != 0
             && b[18] != 0
    ensures Pow2(MAX_BITS - b[0]) + Pow2(MAX_BITS - b[2]) + Pow2(MAX_BITS - b[3]) + Pow2(MAX_BITS - b[4])
              + Pow2(MAX_BITS - b[5])
          + Pow2(MAX_BITS - b[6]) + Pow2(MAX_BITS - b[7]) + Pow2(MAX_BITS - b[17]) + Pow2(MAX_BITS - b[18])
            <= SpaceOf(b, BL_CODES)
  {
    hide Pow2, SpaceOf;
    SevenSpaces(b);
    SpaceGrows(b, 8, 17);
    SpaceNext(b, 17);
    SpaceNext(b, 18);
  }

  /** No complete code for them takes fewer bits. */
  lemma CodesLeast(b: seq<nat>)
    requires |b| == BL_CODES && Complete(b) && forall i :: 0 <= i < |b| ==> b[i] <= 7
    requires b[0] != 0 && b[2] != 0 && b[3] != 0 && b[4] != 0 && b[5] != 0 && b[6] != 0 && b[7] != 0 && b[17] != 0
             && b[18] != 0
    ensures 8 * b[0] + 2 * b[2] + 2 * b[3] + 8 * b[4] + 9 * b[5] + 10 * b[6] + 40 * b[7] + 16 * b[17] + 17 * b[18]
              >= 295
  {
    hide Pow2, SpaceOf, Kraft;
    Pow2Values();
    NineSpaces(b);
    SpaceIsKraft(b);
    Share(b[0], 8, 4);
    Share(b[2], 2, 6);
    Share(b[3], 2, 6);
    Share(b[4], 8, 4);
    Share(b[5], 9, 4);
    Share(b[6], 10, 4);
    Share(b[7], 40, 2);
    Share(b[17], 16, 3);
    Share(b[18], 17, 3);
  }

  lemma ManyLengths(c: Codes)
    requires CodesOk(c) && c.blens[2] != 0
    ensures c.blcodes >= 16
  {
    hide AllCodable, CodeOk;
    assert ORDER[15] == 2;
  }

  /** send_all_trees takes at least 524 bits. */
  lemma HeaderLeast(c: Codes)
    requires CodesOk(c) && Complete(c.blens) && OwnLens(c)
    ensures |TreesBits(c)| >= 524
  {
    hide Complete, TreeItems, AllCodable, CodeOk, RestZero, LVal, DLen, ItemsBits, TreesBits;
    TreesLength(c);
    LitHeader(c.blens, c.llens);
    DistHeader(c.blens, c.dlens);
    CodesLeast(c.blens);
    ManyLengths(c);
  }
}
