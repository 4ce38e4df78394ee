/** The symbols of a block that the overlay of pending_buf and d_buf cannot send: how often
    each occurs, the lengths of the codes that build_tree makes of that, and some sums. */
module DefaultCounts {
  /** How often each length code and each distance code occurs. */
  function LCount(a: nat): nat {
    match a
    case 0 => 2 case 1 => 1 case 2 => 2 case 3 => 1 case 4 => 2 case 5 => 1 case 6 => 2 case 7 => 1
    case 8 => 2 case 9 => 1 case 10 => 2 case 11 => 1 case 12 => 4 case 13 => 1 case 14 => 2 case 15 => 1
    case 16 => 8 case 17 => 4 case 18 => 8 case 19 => 2 case 20 => 8 case 21 => 4 case 22 => 8 case 23 => 2
    case 24 => 16 case 25 => 4 case 26 => 2 case _ => 4
  }

  function DCount(b: nat): nat {
    match b
    case 0 => 0 case 1 => 0 case 2 => 0 case 3 => 0 case 4 => 0 case 5 => 0 case 6 => 0 case 7 => 0
    case 8 => 0 case 9 => 0 case 10 => 0 case 11 => 3 case 12 => 0 case 13 => 0 case 14 => 3 case 15 => 0
    case 16 => 0 case 17 => 3 case 18 => 0 case 19 => 0 case 20 => 6 case 21 => 0 case 22 => 6 case 23 => 0
    case 24 => 6 case 25 => 3 case 26 => 24 case 27 => 6 case 28 => 24 case _ => 12
  }

  /** The lengths of the codes for these frequencies. */
  function LLen(a: nat): nat {
    match a
    case 0 => 6 case 1 => 7 case 2 => 6 case 3 => 7 case 4 => 6 case 5 => 7 case 6 => 6 case 7 => 7
    case 8 => 6 case 9 => 7 case 10 => 6 case 11 => 7 case 12 => 5 case 13 => 7 case 14 => 6 case 15 => 7
    case 16 => 4 case 17 => 5 case 18 => 4 case 19 => 6 case 20 => 4 case 21 => 5 case 22 => 4 case 23 => 6
    case 24 => 3 case 25 => 5 case 26 => 6 case _ => 5
  }

  function DLen(b: nat): nat {
    match b
    case 0 => 0 case 1 => 0 case 2 => 0 case 3 => 0 case 4 => 0 case 5 => 0 case 6 => 0 case 7 => 0
    case 8 => 0 case 9 => 0 case 10 => 0 case 11 => 5 case 12 => 0 case 13 => 0 case 14 => 5 case 15 => 0
    case 16 => 0 case 17 => 5 case 18 => 0 case 19 => 0 case 20 => 4 case 21 => 0 case 22 => 4 case 23 => 0
    case 24 => 4 case 25 => 5 case 26 => 2 case 27 => 4 case 28 => 2 case _ => 3
  }

  /** The bits of a code with its extra bits in the fixed codes. */
  function LCost(a: nat): nat {
    match a
    case 0 => 7 case 1 => 7 case 2 => 7 case 3 => 7 case 4 => 7 case 5 => 7 case 6 => 7 case 7 => 7
    case 8 => 8 case 9 => 8 case 10 => 8 case 11 => 8 case 12 => 9 case 13 => 9 case 14 => 9 case 15 => 9
    case 16 => 10 case 17 => 10 case 18 => 10 case 19 => 10 case 20 => 11 case 21 => 11 case 22 => 11
    case 23 => 12 case 24 => 13 case 25 => 13 case 26 => 13 case _ => 13
  }

  function DCost(b: nat): nat {
    match b
    case 0 => 5 case 1 => 5 case 2 => 5 case 3 => 5 case 4 => 6 case 5 => 6 case 6 => 7 case 7 => 7
    case 8 => 8 case 9 => 8 case 10 => 9 case 11 => 9 case 12 => 10 case 13 => 10 case 14 => 11 case 15 => 11
    case 16 => 12 case 17 => 12 case 18 => 13 case 19 => 13 case 20 => 14 case 21 => 14 case 22 => 15
    case 23 => 15 case 24 => 16 case 25 => 16 case 26 => 17 case 27 => 17 case 28 => 18 case _ => 18
  }

  /** The same in the block's own codes. */
  function LOwn(a: nat): nat {
    match a
    case 0 => 6 case 1 => 7 case 2 => 6 case 3 => 7 case 4 => 6 case 5 => 7 case 6 => 6 case 7 => 7
    case 8 => 7 case 9 => 8 case 10 => 7 case 11 => 8 case 12 => 7 case 13 => 9 case 14 => 8
    case 15 => 9 case 16 => 7 case 17 => 8 case 18 => 7 case 19 => 9 case 20 => 8 case 21 => 9
    case 22 => 8 case 23 => 10 case 24 => 8 case 25 => 10 case 26 => 11 case _ => 10
  }

  function DOwn(b: nat): nat {
    match b
    case 0 => 0 case 1 => 0 case 2 => 0 case 3 => 0 case 4 => 1 case 5 => 1 case 6 => 2 case 7 => 2
    case 8 => 3 case 9 => 3 case 10 => 4 case 11 => 9 case 12 => 5 case 13 => 5 case 14 => 11
    case 15 => 6 case 16 => 7 case 17 => 12 case 18 => 8 case 19 => 8 case 20 => 13 case 21 => 9
    case 22 => 14 case 23 => 10 case 24 => 15 case 25 => 16 case 26 => 14 case 27 => 16 case 28 => 15
    case _ => 16
  }

  function LTotal(n: nat): nat {
    if n == 0 then 0 else LTotal(n - 1) + LCount(n - 1)
  }

  /** Where the copies of each code begin in the list of them all. */
  function LFirst(a: nat): nat {
    match a
    case 0 => 0 case 1 => 2 case 2 => 3 case 3 => 5 case 4 => 6 case 5 => 8 case 6 => 9 case 7 => 11
    case 8 => 12 case 9 => 14 case 10 => 15 case 11 => 17 case 12 => 18 case 13 => 22 case 14 => 23
    case 15 => 25 case 16 => 26 case 17 => 34 case 18 => 38 case 19 => 46 case 20 => 48 case 21 => 56
    case 22 => 60 case 23 => 68 case 24 => 70 case 25 => 86 case 26 => 90 case 27 => 92 case _ => 96
  }

  lemma {:induction false} LFirstIs(a: nat)
    requires a <= 28
    ensures LTotal(a) == LFirst(a)
  {
    if a == 0 {
    } else {
      LFirstIs(a - 1);
    }
  }

  function DTotal(n: nat): nat {
    if n == 0 then 0 else DTotal(n - 1) + DCount(n - 1)
  }

  function DFirst(b: nat): nat {
    match b
    case 0 => 0 case 1 => 0 case 2 => 0 case 3 => 0 case 4 => 0 case 5 => 0 case 6 => 0 case 7 => 0 case 8 => 0
    case 9 => 0 case 10 => 0 case 11 => 0 case 12 => 3 case 13 => 3 case 14 => 3 case 15 => 6 case 16 => 6
    case 17 => 6 case 18 => 9 case 19 => 9 case 20 => 9 case 21 => 15 case 22 => 15 case 23 => 21 case 24 => 21
    case 25 => 27 case 26 => 30 case 27 => 54 case 28 => 60 case 29 => 84 case _ => 96
  }

  lemma {:induction false} DFirstIs(b: nat)
    requires b <= 30
    ensures DTotal(b) == DFirst(b)
  {
    if b == 0 {
    } else {
      DFirstIs(b - 1);
    }
  }

  function LCostSum(n: nat): nat {
    if n == 0 then 0 else LCostSum(n - 1) + LCount(n - 1) * LCost(n - 1)
  }

  lemma LengthCost()
    ensures LCostSum(28) == 1006
  {
    assert LCostSum(2) == 21;
    assert LCostSum(4) == 42;
    assert LCostSum(6) == 63;
    assert LCostSum(8) == 84;
    assert LCostSum(10) == 108;
    assert LCostSum(12) == 132;
    assert LCostSum(14) == 177;
    assert LCostSum(16) == 204;
    assert LCostSum(18) == 324;
    assert LCostSum(20) == 424;
    assert LCostSum(22) == 556;
    assert LCostSum(24) == 668;
    assert LCostSum(26) == 928;
  }

  function DCostSum(n: nat): nat {
    if n == 0 then 0 else DCostSum(n - 1) + DCount(n - 1) * DCost(n - 1)
  }

  lemma DistCost()
    ensures DCostSum(30) == 1572
  {
    assert DCostSum(2) == 0;
    assert DCostSum(4) == 0;
    assert DCostSum(6) == 0;
    assert DCostSum(8) == 0;
    assert DCostSum(10) == 0;
    assert DCostSum(12) == 27;
    assert DCostSum(14) == 27;
    assert DCostSum(16) == 60;
    assert DCostSum(18) == 96;
    assert DCostSum(20) == 96;
    assert DCostSum(22) == 180;
    assert DCostSum(24) == 270;
    assert DCostSum(26) == 414;
    assert DCostSum(28) == 924;
  }

  function LOwnSum(n: nat): nat {
    if n == 0 then 0 else LOwnSum(n - 1) + LCount(n - 1) * LOwn(n - 1)
  }

  lemma LengthOwn()
    ensures LOwnSum(28) == 758
  {
    assert LOwnSum(2) == 19;
    assert LOwnSum(4) == 38;
    assert LOwnSum(6) == 57;
    assert LOwnSum(8) == 76;
    assert LOwnSum(10) == 98;
    assert LOwnSum(12) == 120;
    assert LOwnSum(14) == 157;
    assert LOwnSum(16) == 182;
    assert LOwnSum(18) == 270;
    assert LOwnSum(20) == 344;
    assert LOwnSum(22) == 444;
    assert LOwnSum(24) == 528;
    assert LOwnSum(26) == 696;
  }

  function DOwnSum(n: nat): nat {
    if n == 0 then 0 else DOwnSum(n - 1) + DCount(n - 1) * DOwn(n - 1)
  }

  lemma DistOwn()
    ensures DOwnSum(30) == 1380
  {
    assert DOwnSum(2) == 0;
    assert DOwnSum(4) == 0;
    assert DOwnSum(6) == 0;
    assert DOwnSum(8) == 0;
    assert DOwnSum(10) == 0;
    assert DOwnSum(12) == 27;
    assert DOwnSum(14) == 27;
    assert DOwnSum(16) == 60;
    assert DOwnSum(18) == 96;
    assert DOwnSum(20) == 96;
    assert DOwnSum(22) == 174;
    assert DOwnSum(24) == 258;
    assert DOwnSum(26) == 396;
    assert DOwnSum(28) == 828;
  }

  /** What the lengths of the length codes from a on take when length l takes b[l] bits. */
  function LengthBits(b: seq<nat>, a: nat): nat
    requires |b| == 19 && a <= 28
    decreases 28 - a
  {
    if a == 28 then 0 else b[LLen(a)] + LengthBits(b, a + 1)
  }

  lemma LengthBitsTop(b: seq<nat>)
    requires |b| == 19
    ensures LengthBits(b, 22) == b[3] + b[4] + 2 * b[5] + 2 * b[6]
  {
    assert LengthBits(b, 26) == b[5] + b[6];
    assert LengthBits(b, 24) == b[3] + 2 * b[5] + b[6];
  }

  lemma LengthBitsHigh(b: seq<nat>)
    requires |b| == 19
    ensures LengthBits(b, 16) == b[3] + 4 * b[4] + 4 * b[5] + 3 * b[6]
  {
    LengthBitsTop(b);
    assert LengthBits(b, 20) == b[3] + 2 * b[4] + 3 * b[5] + 2 * b[6];
    assert LengthBits(b, 18) == b[3] + 3 * b[4] + 3 * b[5] + 3 * b[6];
  }

  lemma LengthBitsLow(b: seq<nat>)
    requires |b| == 19
    ensures LengthBits(b, 8) == b[3] + 4 * b[4] + 5 * b[5] + 6 * b[6] + 4 * b[7]
  {
    LengthBitsHigh(b);
    assert LengthBits(b, 14) == b[3] + 4 * b[4] + 4 * b[5] + 4 * b[6] + b[7];
    assert LengthBits(b, 12) == b[3] + 4 * b[4] + 5 * b[5] + 4 * b[6] + 2 * b[7];
    assert LengthBits(b, 10) == b[3] + 4 * b[4] + 5 * b[5] + 5 * b[6] + 3 * b[7];
  }

  lemma LengthBitsAre(b: seq<nat>)
    requires |b| == 19
    ensures LengthBits(b, 0) == b[3] + 4 * b[4] + 5 * b[5] + 10 * b[6] + 8 * b[7]
  {
    LengthBitsLow(b);
    assert LengthBits(b, 6) == b[3] + 4 * b[4] + 5 * b[5] + 7 * b[6] + 5 * b[7];
    assert LengthBits(b, 4) == b[3] + 4 * b[4] + 5 * b[5] + 8 * b[6] + 6 * b[7];
    assert LengthBits(b, 2) == b[3] + 4 * b[4] + 5 * b[5] + 9 * b[6] + 7 * b[7];
  }
}
