/** trees.c: from code lengths to codes. */
module HuffmanCodes {
  import opened Bits
  import opened Canonical

  /** bi_reverse: the low len bits of code in reverse order. */
  method BiReverse(code: nat, len: nat) returns (r: nat)
    requires 1 <= len
    ensures r == Rev(len, code)
  {
    var res, c, n := 0, code, 0;
    // the body of the loop runs at least once
    while n < len
      invariant n <= len && c == Shr(code, n) && res == 2 * Rev(n, code)
    {
      // res is even, so the bit goes into an empty place
      ShrShr(code, n, 1);
      res := 2 * (res + c % 2);
      c := c / 2;
      n := n + 1;
    }
    r := res / 2;
  }

  /** The codes of each length end where those of the next begin; none reaches
      beyond 16 bits unless the lengths are over-subscribed. */
  lemma FirstCodeBound(lens: seq<nat>, l: nat)
    requires NotOver(lens) && 1 <= l <= MAX_BITS
    ensures FirstCode(lens, l) + Count(lens, l) <= Pow2(l)
  {
    hide Kraft, Count, Shl, Pow2, FirstCode;
    FirstCodePos(lens, l);
    KraftStep(lens, l);
    KraftMono(lens, l, MAX_BITS);
    ShlAdd(FirstCode(lens, l), Count(lens, l), MAX_BITS - l);
    ShlPow2(l, MAX_BITS - l);
    ShlMono(FirstCode(lens, l) + Count(lens, l), Pow2(l), MAX_BITS - l);
  }

  lemma SmallPow(l: nat)
    requires l <= MAX_BITS
    ensures Pow2(l) <= 32768
  {
    hide Pow2;
    Pow2Mono(l, MAX_BITS);
    Pow2Values();
  }

  /** The next first code fits 16 bits. */
  lemma NextCode(lens: seq<nat>, bits: nat)
    requires NotOver(lens) && 1 <= bits <= MAX_BITS
    ensures bits == 1 ==> FirstCode(lens, bits) == 0
    ensures bits > 1 ==> FirstCode(lens, bits) == (FirstCode(lens, bits - 1) + Count(lens, bits - 1)) * 2 < 65536
  {
    hide Count, NotOver, Pow2;
    if bits > 1 {
      FirstCodeBound(lens, bits);
      SmallPow(bits);
    }
  }

  /** The first code of each length, in 16-bit arithmetic. */
  method FirstCodes(lens: seq<nat>, blCount: array<nat>) returns (nextCode: array<nat>)
    requires NotOver(lens) && blCount.Length == MAX_BITS + 1
    requires blCount[0] == 0 && forall l :: 1 <= l <= MAX_BITS ==> blCount[l] == Count(lens, l)
    ensures fresh(nextCode) && nextCode.Length == MAX_BITS + 1
    ensures forall l :: 1 <= l <= MAX_BITS ==> nextCode[l] == FirstCode(lens, l)
  {
    hide Count, NotOver, Pow2, FirstCode;
    nextCode := new nat[MAX_BITS + 1](_ => 0);
    var code, bits := 0, 1;
    while bits <= MAX_BITS
      invariant 1 <= bits <= MAX_BITS + 1
      invariant bits > 1 ==> code == FirstCode(lens, bits - 1)
      invariant bits == 1 ==> code == 0
      invariant forall l :: 1 <= l < bits ==> nextCode[l] == FirstCode(lens, l)
    {
      NextCode(lens, bits);
      code := (code + blCount[bits - 1]) * 2 % 65536;
      nextCode[bits] := code;
      bits := bits + 1;
    }
  }

  /** gen_codes: every symbol with a length gets its canonical code, bit-reversed. */
  method GenCodes(lens: seq<nat>, blCount: array<nat>, code: array<nat>)
    requires LensOk(lens) && NotOver(lens) && blCount.Length == MAX_BITS + 1 && |lens| <= code.Length
    requires blCount[0] == 0 && forall l :: 1 <= l <= MAX_BITS ==> blCount[l] == Count(lens, l)
    modifies code
    ensures forall n :: 0 <= n < |lens| && lens[n] != 0 ==> code[n] == Code(lens, n)
    ensures forall n :: 0 <= n < code.Length && (n >= |lens| || lens[n] == 0) ==> code[n] == old(code[n])
  {
    hide Count, NotOver, Pow2, FirstCode, Code, SymCode, Rank;
    var nextCode := FirstCodes(lens, blCount);
    var n := 0;
    forall l | 1 <= l <= MAX_BITS
      ensures Rank(lens, l, 0) == 0
    {
      RankNone(lens, l);
    }
    while n < |lens|
      invariant n <= |lens| && nextCode.Length == MAX_BITS + 1
      invariant forall l :: 1 <= l <= MAX_BITS ==> nextCode[l] == FirstCode(lens, l) + Rank(lens, l, n)
      invariant forall k :: 0 <= k < n && lens[k] != 0 ==> code[k] == Code(lens, k)
      invariant forall k :: 0 <= k < code.Length && (k >= n || lens[k] == 0) ==> code[k] == old(code[k])
    {
      var len := lens[n];
      RankSteps(lens, n);
      if len != 0 {
        CodeIs(lens, n);
        CodeRoom(lens, n);
        code[n] := BiReverse(nextCode[len], len);
        nextCode[len] := (nextCode[len] + 1) % 65536;
      }
      n := n + 1;
    }
  }

  lemma RankNone(lens: seq<nat>, l: nat)
    ensures Rank(lens, l, 0) == 0
  {
  }

  lemma RankSteps(lens: seq<nat>, n: nat)
    requires n < |lens|
    ensures forall l :: Rank(lens, l, n + 1) == Rank(lens, l, n) + if lens[n] == l then 1 else 0
  {
  }

  lemma CodeIs(lens: seq<nat>, n: nat)
    requires n < |lens|
    ensures Code(lens, n) == Rev(lens[n], FirstCode(lens, lens[n]) + Rank(lens, lens[n], n))
  {
  }

  lemma CodeRoom(lens: seq<nat>, n: nat)
    requires n < |lens| && 1 <= lens[n] <= MAX_BITS && NotOver(lens)
    ensures FirstCode(lens, lens[n]) + Rank(lens, lens[n], n) < 32768
  {
    hide NotOver, Pow2, FirstCode, Rank, Count;
    RankBound(lens, n);
    FirstCodeBound(lens, lens[n]);
    SmallPow(lens[n]);
  }
}
