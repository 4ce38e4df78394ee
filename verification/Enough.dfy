/** inftrees.h: ENOUGH is enough.  The literal/length tables of any code that
    inflate_table accepts fit the space set aside for them. */
module Enough {
  import opened Bits
  import opened Canonical
  import opened InflateTable
  import opened CodeSums

  /** Root slots whose sub-tables are complete once all codes up to l are placed. */
  function Slots(lens: seq<nat>, l: nat): nat
    requires l <= MAX_BITS
  {
    Shr(Kraft(lens, l), 6)
  }

  /** A slot first completed by codes of length l has a sub-table of l - 9 bits. */
  lemma {:induction false} SlotLength(lens: seq<nat>, max: nat, l: nat, q: nat, from: nat)
    requires 10 <= from <= l <= max <= MAX_BITS && Slots(lens, l - 1) <= q < Slots(lens, l)
    ensures SlotEnd(lens, Shl(q + 1, 6), max, from) == l
    decreases l - from
  {
    hide Kraft, Shl, Shr;
    var hi := Shl(q + 1, 6);
    SlotReached(lens, l, q);
    SlotReached(lens, from, q);
    if from == l {
    } else {
      KraftMono(lens, from, l - 1);
      SlotReached(lens, l - 1, q);
      SlotLength(lens, max, l, q, from + 1);
    }
  }

  lemma SlotReached(lens: seq<nat>, l: nat, q: nat)
    requires l <= MAX_BITS
    ensures Kraft(lens, l) >= Shl(q + 1, 6) <==> q < Slots(lens, l)
  {
    hide Kraft, Shl, Shr, Low;
    var k := Kraft(lens, l);
    SplitAt(k, 6);
    if q < Shr(k, 6) {
      ShlMono(q + 1, Shr(k, 6), 6);
    } else {
      ShlMono(Shr(k, 6), q, 6);
      ShlNext(q, 6);
    }
  }

  /** Sub-tables of the slots from lo on that are completed by length l, one length
      at a time. */
  lemma {:induction false} SameLength(lens: seq<nat>, max: nat, l: nat, lo: nat, q: nat)
    requires 10 <= l <= max <= MAX_BITS && lo <= Slots(lens, l - 1) <= q <= Slots(lens, l)
    ensures SubSize(lens, 9, max, lo, q)
         == SubSize(lens, 9, max, lo, Slots(lens, l - 1)) + Shl(q - Slots(lens, l - 1), l - 9)
    decreases q
  {
    hide Kraft, Shl, Shr, SlotEnd, Pow2, Slots;
    var b := Slots(lens, l - 1);
    if q == b {
      ShlZero(l - 9);
    } else {
      SameLength(lens, max, l, lo, q - 1);
      SlotLength(lens, max, l, q - 1, 10);
      ShlNext(q - 1 - b, l - 9);
    }
  }

  /** As many entries as symbols, and less than one more sub-table. */
  lemma LengthCost(lens: seq<nat>, l: nat)
    requires 10 <= l <= MAX_BITS
    ensures Slots(lens, l - 1) <= Slots(lens, l)
    ensures Shl(Slots(lens, l) - Slots(lens, l - 1), l - 9) < Count(lens, l) + Pow2(l - 9)
  {
    hide Kraft, Shl, Shr, Pow2, Count, Low;
    var a, b := Kraft(lens, l - 1), Kraft(lens, l);
    KraftMono(lens, l - 1, l);
    assert b == a + Shl(Count(lens, l), MAX_BITS - l) by { KraftStep(lens, l); }
    SplitAt(a, 6);
    SplitAt(b, 6);
    Pow2Values();
    if Shr(b, 6) < Shr(a, 6) {
      ShlMono(Shr(b, 6) + 1, Shr(a, 6), 6);
      ShlNext(Shr(b, 6), 6);
    }
    var n := Shr(b, 6) - Shr(a, 6);
    ShlAdd(Shr(a, 6), n, 6);
    ShlShl(n, l - 9, MAX_BITS - l);
    ShlAdd(Count(lens, l), Pow2(l - 9), MAX_BITS - l);
    ShlPow2(l - 9, MAX_BITS - l);
    ShlMono(Count(lens, l) + Pow2(l - 9), Shl(n, l - 9), MAX_BITS - l);
  }

  lemma {:induction false} SubTables(lens: seq<nat>, max: nat, l: nat)
    requires 9 <= l <= max <= MAX_BITS && 9 < max
    ensures SubSize(lens, 9, max, Slots(lens, 9), Slots(lens, l)) <= RankSum(lens, |lens|, 10, l) + Pow2(l - 8)
    ensures Slots(lens, 9) <= Slots(lens, l)
    decreases l
  {
    hide Kraft, Shl, SlotEnd, Slots, Pow2, SlotBits, Rank;
    if l == 9 {
    } else {
      SubTables(lens, max, l - 1);
      LengthCost(lens, l);
      SameLength(lens, max, l, Slots(lens, 9), Slots(lens, l));
      Doubles(l);
    }
  }

  lemma Doubles(l: nat)
    requires l > 9
    ensures Pow2(l - 8) == Pow2(l - 9) + Pow2(l - 9)
  {
  }

  /** No code is longer than the longest. */
  lemma {:induction false} KraftTop(lens: seq<nat>, l: nat, b: nat)
    requires l == LongestUpTo(lens, b) && b <= MAX_BITS
    ensures Kraft(lens, l) == Kraft(lens, b)
    decreases b
  {
    hide Shl, Count;
    if b <= l {
    } else {
      KraftTop(lens, l, b - 1);
      ShlZero(MAX_BITS - b);
    }
  }

  lemma {:induction false} ShortKraft(lens: seq<nat>, b: nat)
    requires b <= MAX_BITS && forall i :: 1 <= i <= 9 ==> Count(lens, i) == 0
    ensures Kraft(lens, b) <= Shl(RankSum(lens, |lens|, 1, b), 5)
    decreases b
  {
    hide Shl, Rank, Count;
    if b == 0 {
    } else {
      ShortKraft(lens, b - 1);
      var c, r := Count(lens, b), RankSum(lens, |lens|, 1, b - 1);
      assert RankSum(lens, |lens|, 1, b) == c + r by { CountIsRank(lens, b); }
      ShlAdd(c, r, 5);
      if b <= 9 {
        ShlZero(MAX_BITS - b);
        ShlZero(5);
      } else {
        ShlShl(c, MAX_BITS - b, b - 10);
        ShlPositive(Shl(c, MAX_BITS - b), b - 10);
      }
    }
  }

  /** A complete code of at most 288 symbols has a code of at most 9 bits. */
  lemma HasShort(lens: seq<nat>) returns (i: nat)
    requires Complete(lens) && |lens| <= 288
    ensures 1 <= i <= 9 && Count(lens, i) > 0
  {
    hide Kraft, Shl, Count;
    if forall i :: 1 <= i <= 9 ==> Count(lens, i) == 0 {
      ShortKraft(lens, MAX_BITS);
      RankSumBound(lens, |lens|, 1, MAX_BITS);
      ShlMono(RankSum(lens, |lens|, 1, MAX_BITS), 288, 5);
      Pow2Values();
      assert Shl(288, 5) == 9216 by { ShlValue(); }
      assert false;
    }
    i :| 1 <= i <= 9 && Count(lens, i) > 0;
  }

  lemma ShlValue()
    ensures Shl(288, 5) == 9216
  {
  }

  lemma {:induction false} ShortestBound(lens: seq<nat>, l: nat, i: nat)
    requires l <= i <= MAX_BITS && Count(lens, i) > 0
    ensures ShortestFrom(lens, l) <= i
    decreases i - l
  {
    hide Count;
    if l == i || Count(lens, l) > 0 {
    } else {
      ShortestBound(lens, l + 1, i);
    }
  }

  lemma {:induction false} LongestBound(lens: seq<nat>, l: nat, i: nat)
    requires i <= l && Count(lens, i) > 0
    ensures i <= LongestUpTo(lens, l)
  {
    hide Count;
    if l == i || Count(lens, l) > 0 {
    } else {
      LongestBound(lens, l - 1, i);
    }
  }

  lemma RootPow(root: nat)
    requires root <= 9
    ensures Pow2(root) <= 512
  {
    hide Pow2;
    Pow2Mono(root, 9);
    Pow2Values();
  }

  lemma CompleteRoomy(lens: seq<nat>)
    requires LensOk(lens) && Complete(lens) && |lens| <= 288
    ensures Roomy(LENS, lens, 9)
  {
    hide Kraft, Shl, Count, LongestUpTo, ShortestFrom, SubSize, Pow2, RankSum, Shr, Empty;
    var max, min := LongestUpTo(lens, MAX_BITS), ShortestFrom(lens, 1);
    var i := HasShort(lens);
    ShortestBound(lens, 1, i);
    LongestBound(lens, MAX_BITS, i);
    var root := RootBits(lens, 9);
    RootPow(root);
    if root < max {
      assert root == 9;
      KraftTop(lens, max, MAX_BITS);
      SubTables(lens, max, max);
      RankSumBound(lens, |lens|, 10, max);
      Pow2Mono(max - 8, 7);
      Pow2Values();
      WholeRoot();
      assert Slots(lens, max) == Pow2(9);
      assert Slots(lens, 9) == Shr(Kraft(lens, 9), MAX_BITS - 9);
    }
  }

  lemma WholeRoot()
    ensures Shr(Pow2(15), 6) == Pow2(9)
  {
    hide Pow2, Shr, Shl;
    ShlPow2(9, 6);
    Pow2Zero();
    SplitUnique(Pow2(15), 6, 0, Pow2(9));
  }

  lemma Pow2Zero()
    ensures 0 < Pow2(6)
  {
  }

  /** Codes of one bit. */
  lemma OneBitRoomy(lens: seq<nat>)
    requires forall s :: 0 <= s < |lens| ==> lens[s] <= 1
    ensures Roomy(LENS, lens, 9)
  {
    hide Count, ShortestFrom, TableSize;
    if !Empty(lens) {
      var s :| 0 <= s < |lens| && lens[s] != 0;
      RankBound(lens, s);
      assert Count(lens, 1) > 0;
      OnesLongest(lens, MAX_BITS);
      LongestBound(lens, MAX_BITS, 1);
      ShortestBound(lens, 1, 1);
      OneTable(lens);
    }
  }

  lemma OneTable(lens: seq<nat>)
    ensures TableSize(lens, 1, 1) == 2
  {
    Pow2Values();
  }

  lemma {:induction false} OnesLongest(lens: seq<nat>, l: nat)
    requires forall s :: 0 <= s < |lens| ==> lens[s] <= 1
    ensures LongestUpTo(lens, l) <= 1
  {
    hide Count;
    if l <= 1 {
    } else {
      if Count(lens, l) > 0 {
        CountIsRank(lens, l);
        var s := SymOfRank(lens, l, 0, |lens|);
        assert false;
      }
      OnesLongest(lens, l - 1);
    }
  }

  /** inflate_table never runs out of table space for literals and lengths. */
  lemma AlwaysRoomy(lens: seq<nat>)
    requires LensOk(lens) && |lens| <= 288 && Accepts(LENS, lens)
    ensures Roomy(LENS, lens, 9)
  {
    hide Roomy, Complete, NotOver;
    if Complete(lens) {
      CompleteRoomy(lens);
    } else {
      OneBitRoomy(lens);
    }
  }

  /** The space for distance tables is not checked. */
  lemma DistRoomy(lens: seq<nat>, bits: nat)
    ensures Roomy(DISTS, lens, bits)
  {
  }
}
