/** trees.c: tr_static_init, the tables that turn a length or a distance into a
    code and extra bits, and their agreement with the decoder's tables. */
module TreeTables {
  import opened Bits
  import opened InflateTable

  const LENGTH_CODES: nat := 29
  const D_CODES: nat := 30
  const L_CODES: nat := 286
  const LITERALS: nat := 256

  const EXTRA_LBITS: seq<nat> := [
    0, 0, 0, 0, 0, 0, 0, 0, 1, 1, 1, 1, 2, 2, 2, 2, 3, 3, 3, 3, 4, 4, 4, 4, 5, 5, 5, 5, 0]
  const EXTRA_DBITS: seq<nat> := [
    0, 0, 0, 0, 1, 1, 2, 2, 3, 3, 4, 4, 5, 5, 6, 6, 7, 7, 8, 8, 9, 9, 10, 10, 11, 11, 12, 12, 13, 13]

  datatype Tables = Tables(lengthCode: seq<nat>, baseLength: seq<nat>, distCode: seq<nat>, baseDist: seq<nat>)

  // the extra bits of a code, and the first length less 3 or distance less 1 the
  // decoder gives it
  function LBits(c: nat): (r: nat)
    requires c < LENGTH_CODES
    ensures r <= 5
  {
    EXTRA_LBITS[c]
  }

  function LLow(c: nat): (r: nat)
    requires c < LENGTH_CODES
  {
    LBASE[c] - 3
  }

  function DBits(c: nat): (r: nat)
    requires c < D_CODES
    ensures r <= 13 && (c >= 16 ==> r >= 7)
  {
    EXTRA_DBITS[c]
  }

  function DLow(c: nat): (r: nat)
    requires c < D_CODES
  {
    DBASE[c] - 1
  }

  /** The length code of a match length less 3 covers it: its base, as the decoder
      has it, is at most what its extra bits can make up for. */
  ghost predicate LengthCovered(t: Tables, lc: nat)
    requires |t.lengthCode| == 256 && |t.baseLength| == LENGTH_CODES && lc < 256
  {
    var c := t.lengthCode[lc];
    && c < LENGTH_CODES && LLow(c) <= lc < LLow(c) + Pow2(LBits(c))
    && (LBits(c) > 0 ==> t.baseLength[c] == LLow(c))
  }

  ghost predicate LengthsOk(t: Tables) {
    |t.lengthCode| == 256 && |t.baseLength| == LENGTH_CODES && forall lc :: 0 <= lc < 256 ==> LengthCovered(t, lc)
  }

  /** d_code: the code of a distance less 1. */
  function DCode(t: Tables, dist: nat): nat
    requires |t.distCode| == 512 && dist < 32768
  {
    if dist < 256 then t.distCode[dist] else t.distCode[256 + dist / 128]
  }

  ghost predicate DistCovered(t: Tables, dist: nat)
    requires |t.distCode| == 512 && |t.baseDist| == D_CODES && dist < 32768
  {
    var c := DCode(t, dist);
    c < D_CODES && DLow(c) <= dist < DLow(c) + Pow2(DBits(c)) && t.baseDist[c] == DLow(c)
  }

  ghost predicate DistsOk(t: Tables) {
    |t.distCode| == 512 && |t.baseDist| == D_CODES && forall dist :: 0 <= dist < 32768 ==> DistCovered(t, dist)
  }

  lemma LengthStep(c: nat)
    requires c < LENGTH_CODES
    ensures c < 28 ==> LLow(c) + Pow2(LBits(c)) == if c < 27 then LLow(c + 1) else 256
    ensures LLow(0) == 0 && LLow(28) == 255 && LBits(28) == 0 && Pow2(0) == 1
  {
    hide Pow2;
    Powers();
  }

  lemma DistStep(c: nat)
    requires c < 29
    ensures DLow(c) + Pow2(DBits(c)) == DLow(c + 1)
    ensures DLow(0) == 0 && DLow(16) == 256
  {
    hide Pow2;
    Powers();
  }

  lemma Powers()
    ensures Pow2(0) == 1
    ensures Pow2(1) == 2 && Pow2(2) == 4 && Pow2(3) == 8 && Pow2(4) == 16 && Pow2(5) == 32
    ensures Pow2(6) == 64 && Pow2(7) == 128 && Pow2(8) == 256 && Pow2(9) == 512
    ensures Pow2(10) == 1024 && Pow2(11) == 2048 && Pow2(12) == 4096 && Pow2(13) == 8192
  {
    Pow2Values();
  }

  /** Codes for the lengths; 255 then gets the last code instead. */
  method InitLengths() returns (lengthCode: seq<nat>, baseLength: seq<nat>)
    ensures forall d, b :: LengthsOk(Tables(lengthCode, baseLength, d, b))
  {
    hide Pow2, LBits, LLow;
    lengthCode, baseLength := [], [];
    var code := 0;
    LengthStep(0);
    while code < LENGTH_CODES - 1
      invariant code <= 28 && |baseLength| == code && |lengthCode| == if code < 28 then LLow(code) else 256
      invariant forall c :: 0 <= c < code ==> baseLength[c] == LLow(c)
      invariant forall lc :: 0 <= lc < |lengthCode| ==>
                  var c := lengthCode[lc]; c < code && LLow(c) <= lc < LLow(c) + Pow2(LBits(c))
    {
      LengthStep(code);
      baseLength := baseLength + [|lengthCode|];
      var n := 0;
      while n < Pow2(LBits(code))
        invariant n <= Pow2(LBits(code)) && |lengthCode| == LLow(code) + n
        invariant forall lc :: 0 <= lc < |lengthCode| ==>
                    var c := lengthCode[lc]; c <= code && LLow(c) <= lc < LLow(c) + Pow2(LBits(c))
      {
        lengthCode := lengthCode + [code];
        n := n + 1;
      }
      code := code + 1;
    }
    LengthStep(28);
    lengthCode := lengthCode[|lengthCode| - 1 := code];
    baseLength := baseLength + [0];
  }

  /** The first 256 distance codes. */
  method InitNear() returns (distCode: seq<nat>, baseDist: seq<nat>)
    ensures |distCode| == 256 && |baseDist| == 16
    ensures forall c :: 0 <= c < 16 ==> baseDist[c] == DLow(c)
    ensures forall d :: 0 <= d < 256 ==> var c := distCode[d]; c < 16 && DLow(c) <= d < DLow(c) + Pow2(DBits(c))
  {
    hide Pow2, DBits, DLow;
    distCode, baseDist := [], [];
    var code := 0;
    DistStep(0);
    while code < 16
      invariant code <= 16 && |baseDist| == code && |distCode| == DLow(code)
      invariant forall c :: 0 <= c < code ==> baseDist[c] == DLow(c)
      invariant forall d :: 0 <= d < |distCode| ==>
                  var c := distCode[d]; c < code && DLow(c) <= d < DLow(c) + Pow2(DBits(c))
    {
      DistStep(code);
      baseDist := baseDist + [|distCode|];
      var n := 0;
      while n < Pow2(DBits(code))
        invariant n <= Pow2(DBits(code)) && |distCode| == DLow(code) + n
        invariant forall d :: 0 <= d < |distCode| ==>
                    var c := distCode[d]; c <= code && DLow(c) <= d < DLow(c) + Pow2(DBits(c))
      {
        distCode := distCode + [code];
        n := n + 1;
      }
      code := code + 1;
    }
  }

  /** The start of a far code's range divided by 128. */
  function DFar(c: nat): nat
    requires c < D_CODES
  {
    DLow(c) / 128
  }

  /** A far distance divided by 128 lies in its code's range divided by 128. */
  predicate FarCovered(c: nat, q: nat) {
    16 <= c < D_CODES && DFar(c) <= q < DFar(c) + Pow2(DBits(c) - 7)
  }

  lemma FarStep(c: nat)
    requires 16 <= c < D_CODES
    ensures DLow(c) == DFar(c) * 128 && DFar(16) == 2
    ensures DFar(c) + Pow2(DBits(c) - 7) == if c < 29 then DFar(c + 1) else 256
    ensures Pow2(DBits(c)) == 128 * Pow2(DBits(c) - 7)
  {
    hide Pow2;
    Powers();
  }

  /** The distance codes from 256 on, for each multiple of 128. */
  method InitFar(near: seq<nat>) returns (far: seq<nat>, baseDist: seq<nat>)
    requires |near| == 16 && forall c :: 0 <= c < 16 ==> near[c] == DLow(c)
    ensures |far| == 256 && |baseDist| == D_CODES
    ensures forall c :: 0 <= c < D_CODES ==> baseDist[c] == DLow(c)
    ensures forall q :: 2 <= q < 256 ==> FarCovered(far[q], q)
  {
    hide Pow2, DBits, DLow, DFar;
    // the two entries below the first far code are not used
    far, baseDist := [0, 0], near;
    var code := 16;
    FarStep(16);
    while code < D_CODES
      invariant 16 <= code <= D_CODES && |baseDist| == code && |far| == if code < D_CODES then DFar(code) else 256
      invariant forall c :: 0 <= c < code ==> baseDist[c] == DLow(c)
      invariant forall q :: 2 <= q < |far| ==> FarCovered(far[q], q)
    {
      FarStep(code);
      baseDist := baseDist + [|far| * 128];
      var n := 0;
      while n < Pow2(DBits(code) - 7)
        invariant n <= Pow2(DBits(code) - 7) && |far| == DFar(code) + n
        invariant forall q :: 2 <= q < |far| ==> FarCovered(far[q], q)
      {
        far := far + [code];
        n := n + 1;
      }
      code := code + 1;
    }
  }

  method InitDists() returns (distCode: seq<nat>, baseDist: seq<nat>)
    ensures forall l, b :: DistsOk(Tables(l, b, distCode, baseDist))
  {
    hide Pow2, DistCovered, DBits, DLow, FarCovered;
    var near, base16 := InitNear();
    var far;
    far, baseDist := InitFar(base16);
    distCode := near + far;
    forall l, b, dist | 0 <= dist < 32768
      ensures DistCovered(Tables(l, b, distCode, baseDist), dist)
    {
      if dist < 256 {
        NearIs(Tables(l, b, distCode, baseDist), dist, near);
      } else {
        FarIs(Tables(l, b, distCode, baseDist), dist, far);
      }
    }
  }

  lemma NearIs(t: Tables, dist: nat, near: seq<nat>)
    requires |t.distCode| == 512 && |t.baseDist| == D_CODES && dist < 256 && near == t.distCode[..256]
    requires forall c :: 0 <= c < D_CODES ==> t.baseDist[c] == DLow(c)
    requires near[dist] < 16 && DLow(near[dist]) <= dist < DLow(near[dist]) + Pow2(DBits(near[dist]))
    ensures DistCovered(t, dist)
  {
    hide Pow2, DBits, DLow;
  }

  lemma FarIs(t: Tables, dist: nat, far: seq<nat>)
    requires |t.distCode| == 512 && |t.baseDist| == D_CODES && 256 <= dist < 32768 && far == t.distCode[256..]
    requires forall c :: 0 <= c < D_CODES ==> t.baseDist[c] == DLow(c)
    requires FarCovered(far[dist / 128], dist / 128)
    ensures DistCovered(t, dist)
  {
    hide Pow2, DBits, DLow, DFar;
    FarStep(far[dist / 128]);
  }

  /** tr_static_init: the four tables. */
  method StaticInit() returns (t: Tables)
    ensures LengthsOk(t) && DistsOk(t)
  {
    hide LengthCovered, DistCovered;
    var l, b := InitLengths();
    var d, e := InitDists();
    t := Tables(l, b, d, e);
    assert LengthsOk(Tables(l, b, d, e));
    assert DistsOk(Tables(l, b, d, e));
  }

  // ------------------------------------------------------------------------ codes of values

  lemma {:induction false} LengthsAbove(a: nat, b: nat)
    requires a < b < LENGTH_CODES && a < 27
    ensures LLow(a) + Pow2(LBits(a)) <= LLow(b)
    decreases b
  {
    hide Pow2, LLow, LBits;
    LengthStep(a);
    if b == a + 1 {
    } else {
      LengthsAbove(a, b - 1);
      LengthGap(b - 1);
    }
  }

  lemma LengthGap(c: nat)
    requires c < 28
    ensures LLow(c) <= LLow(c + 1)
  {
  }

  /** The first length of a code has this code. */
  lemma LengthCodeOf(t: Tables, a: nat)
    requires LengthsOk(t) && a < 28
    ensures 3 <= LBASE[a] <= 257 && t.lengthCode[LBASE[a] - 3] == a
  {
    hide Pow2, LBits, LengthCovered;
    FirstLengths(a);
    CoveredBy(t, LLow(a));
    var c := t.lengthCode[LLow(a)];
    if c < a {
      LengthsAbove(c, a);
    } else if a < c {
      if a == 27 {
        LastLength();
      } else {
        LengthsAbove(a, c);
      }
    }
  }

  lemma CoveredBy(t: Tables, lc: nat)
    requires LengthsOk(t) && lc < 256
    ensures t.lengthCode[lc] < LENGTH_CODES
            && LLow(t.lengthCode[lc]) <= lc < LLow(t.lengthCode[lc]) + Pow2(LBits(t.lengthCode[lc]))
  {
    assert LengthCovered(t, lc);
  }

  lemma FirstLengths(a: nat)
    requires a < 28
    ensures LBASE[a] == LLow(a) + 3 && LLow(a) <= 224
  {
  }

  lemma LastLength()
    ensures LLow(28) == 255 && LLow(27) == 224
  {
  }

  lemma {:induction false} DistsAbove(a: nat, b: nat)
    requires a < b < D_CODES
    ensures DLow(a) + Pow2(DBits(a)) <= DLow(b)
    decreases b
  {
    hide Pow2, DLow, DBits;
    DistStep(a);
    if b == a + 1 {
    } else {
      DistsAbove(a, b - 1);
      DistStep(b - 1);
    }
  }

  /** A distance in the range of a code has this code. */
  lemma DistCodeOf(t: Tables, b: nat, dist: nat)
    requires DistsOk(t) && b < D_CODES && DLow(b) <= dist < DLow(b) + Pow2(DBits(b)) && dist < 32768
    ensures DCode(t, dist) == b
  {
    hide Pow2, DLow, DBits, DCode;
    assert DistCovered(t, dist);
    var c := DCode(t, dist);
    if c < b {
      DistsAbove(c, b);
    } else if b < c {
      DistsAbove(b, c);
    }
  }
}
