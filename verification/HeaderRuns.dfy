/** trees.c: send_tree run by run, and what the runs take at least. */
module HeaderRuns {
  import opened Bits
  import opened Canonical
  import opened InflateMachine
  import opened Tokens
  import opened CodeLengths

  /** From n on there are r times the same length, and then another or none. */
  predicate RunAt(lens: seq<nat>, n: nat, r: nat) {
    && 1 <= r && n + r <= |lens| && (forall i :: n <= i < n + r ==> lens[i] == lens[n])
    && (n + r < |lens| ==> lens[n + r] != lens[n])
  }

  lemma {:induction false} RunItems(lens: seq<nat>, n: nat, prev: int, count: nat, r: nat)
    requires LensOk(lens) && RunAt(lens, n, r) && count + r <= MaxCount(prev, lens[n])
    ensures n + r < |lens| ==> 0 < MaxCount(lens[n], lens[n + r])
    ensures Items(lens, n, prev, count) == Emit(prev, lens[n], count + r) + Items(lens, n + r, lens[n], 0)
    decreases r
  {
    hide Items, Emit;
    ItemsStep(lens, n, prev, count);
    if r == 1 {
      LastInRun(lens, n);
    } else {
      assert lens[n + 1] == lens[n];
      RunItems(lens, n + 1, prev, count + 1, r - 1);
    }
  }

  lemma LastInRun(lens: seq<nat>, n: nat)
    requires LensOk(lens) && n < |lens| && (n + 1 < |lens| ==> lens[n + 1] != lens[n])
    ensures NextLen(lens, n) != lens[n]
  {
  }

  /** The bits for the lengths from n on. */
  ghost function BitsFrom(blens: seq<nat>, lens: seq<nat>, n: nat, prev: int): nat
    requires LensOk(lens) && n <= |lens| && AllCodable(blens, Items(lens, n, prev, 0))
  {
    |ItemsBits(blens, Items(lens, n, prev, 0))|
  }

  /** What a run takes. */
  ghost function RunBits(blens: seq<nat>, cur: nat, r: nat): nat
    requires |blens| == BL_CODES && cur <= MAX_BITS
  {
    if cur != 0 then blens[cur]
    else if r < 3 then r * blens[0]
    else if r <= 10 then blens[REPZ_3_10] + 3
    else blens[REPZ_11_138] + 7
  }

  /** The symbol that it takes. */
  function RunSym(cur: nat, r: nat): (s: nat)
    requires cur <= MAX_BITS
    ensures s < BL_CODES
  {
    if cur != 0 || r < 3 then cur else if r <= 10 then REPZ_3_10 else REPZ_11_138
  }

  /** A run of zeros, or of one other length. */
  lemma RunStep(blens: seq<nat>, lens: seq<nat>, n: nat, prev: int, r: nat)
    requires LensOk(lens) && |blens| == BL_CODES && RunAt(lens, n, r) && r <= 138 && (lens[n] != 0 ==> r == 1)
    requires AllCodable(blens, Items(lens, n, prev, 0))
    ensures lens[n] <= MAX_BITS && AllCodable(blens, Items(lens, n + r, lens[n], 0))
    ensures BitsFrom(blens, lens, n, prev) == RunBits(blens, lens[n], r) + BitsFrom(blens, lens, n + r, lens[n])
    ensures blens[RunSym(lens[n], r)] != 0
  {
    hide Items, Emit, ItemCodable, ItemsBits;
    RunItems(lens, n, prev, 0, r);
    var e, rest := Emit(prev, lens[n], r), Items(lens, n + r, lens[n], 0);
    assert forall k :: 0 <= k < |e| ==> e[k] == (e + rest)[k];
    assert forall k :: 0 <= k < |rest| ==> rest[k] == (e + rest)[|e| + k];
    ItemsBitsAppend(blens, e, rest);
    EmitBits(blens, prev, lens[n], r);
  }

  lemma EmitBits(blens: seq<nat>, prev: int, cur: nat, r: nat)
    requires |blens| == BL_CODES && cur <= MAX_BITS && 1 <= r <= MaxCount(prev, cur) && (cur != 0 ==> r == 1)
    requires AllCodable(blens, Emit(prev, cur, r))
    ensures |ItemsBits(blens, Emit(prev, cur, r))| == RunBits(blens, cur, r)
    ensures blens[RunSym(cur, r)] != 0
  {
    hide ToBits, SymBits, Pow2;
    var e := Emit(prev, cur, r);
    assert ItemCodable(blens, e[0]);
    if cur == 0 && r == 2 {
      assert e == [Item(0, 0)] + [Item(0, 0)] && e[1..] == [Item(0, 0)];
      assert ItemCodable(blens, e[1]);
      OneItem(blens, Item(0, 0));
    } else {
      assert e == [e[0]];
      OneItem(blens, e[0]);
    }
  }

  lemma OneItem(blens: seq<nat>, i: Item)
    requires ItemCodable(blens, i)
    ensures |ItemsBits(blens, [i])| == blens[i.sym] + RepeatBits(i.sym)
  {
    hide ToBits, SymBits, Pow2;
    assert [i][1..] == [];
    assert ItemsBits(blens, [i][1..]) == [];
  }

  /** The sum of the bits for single lengths. */
  function SingleBits(blens: seq<nat>, lens: seq<nat>, a: nat, b: nat): nat
    requires a <= b <= |lens| && forall i :: a <= i < b ==> lens[i] < |blens|
    decreases b - a
  {
    if a == b then 0 else blens[lens[a]] + SingleBits(blens, lens, a + 1, b)
  }

  /** Lengths that differ from one to the next take one code each. */
  lemma {:induction false} Singles(blens: seq<nat>, lens: seq<nat>, a: nat, b: nat, prev: int)
    requires LensOk(lens) && |blens| == BL_CODES && a <= b <= |lens| && (a < b ==> prev != -1 || a == 0)
    requires forall i :: a <= i < b ==> lens[i] != 0 && (i + 1 < |lens| ==> lens[i + 1] != lens[i])
    requires AllCodable(blens, Items(lens, a, prev, 0))
    ensures forall i :: a <= i < b ==> lens[i] <= MAX_BITS && blens[lens[i]] != 0
    ensures BitsFrom(blens, lens, a, prev) >= SingleBits(blens, lens, a, b)
    ensures a < b ==> AllCodable(blens, Items(lens, b, lens[b - 1], 0))
    ensures a < b ==>
              BitsFrom(blens, lens, a, prev) == SingleBits(blens, lens, a, b) + BitsFrom(blens, lens, b, lens[b - 1])
    decreases b - a
  {
    hide Items, ItemsBits, AllCodable;
    if a == b {
    } else {
      RunStep(blens, lens, a, prev, 1);
      Singles(blens, lens, a + 1, b, lens[a]);
    }
  }
}
