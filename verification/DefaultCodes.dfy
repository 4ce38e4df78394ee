/** The codes that build_tree makes for the block's tokens: no others are as cheap. */
module DefaultCodes {
  import opened Bits
  import opened Canonical
  import opened InflateMachine
  import opened TreeTables
  import opened Tokens
  import opened BlockCost
  import opened TreeBuilder
  import opened TreeBest
  import opened CodeUnique
  import opened HeaderDecode
  import opened BlockEncoder
  import opened DefaultCounts
  import opened DefaultBlock
  import opened DefaultTokens

  /** The code of a tree for such frequencies is v. */
  lemma CodeIs(freq: seq<nat>, v: seq<nat>, lens: seq<nat>, n: nat, a: nat, b: nat)
    requires |freq| == n == |v| && a > 0 && Exact(freq, v, n, a, b) && Made(freq, lens, n) && !Single(freq, n)
    requires b * FreqSum(freq, n) == a * Pow2(MAX_BITS) && FreqSum(freq, n) <= 2500
    requires forall s :: 0 <= s < n && freq[s] != 0 ==> s < |lens| && lens[s] != 0
    ensures forall s :: 0 <= s < |lens| ==> lens[s] == v[s]
    ensures SymCost(freq, lens, |lens|) == SymCost(freq, v, |lens|)
  {
    hide Pow2, SpaceOf, SymCost, Kraft, FreqSum, Single;
    var m := |lens|;
    ExactSpace(freq, v, n, n, a, b);
    SameFactor(a, SpaceOf(v, n), Pow2(MAX_BITS));
    assert Competes(freq, v, n);
    CostTail(freq, v, m, n);
    SpaceTail(v, m, n);
    SpaceIsKraft(lens);
    OnlyCode(freq, v, lens, m, a, b);
    CostSame(freq, lens, v, m);
  }

  lemma SameFactor(a: nat, x: nat, y: nat)
    requires a > 0 && a * x == a * y
    ensures x == y
  {
  }

  lemma {:induction false} SpaceTail(v: seq<nat>, m: nat, n: nat)
    requires m <= n <= |v| && LensOk(v) && forall s :: m <= s < n ==> v[s] == 0
    ensures SpaceOf(v, n) == SpaceOf(v, m)
    decreases n
  {
    if n == m {
    } else {
      SpaceTail(v, m, n - 1);
    }
  }

  lemma {:induction false} CostSame(freq: seq<nat>, x: seq<nat>, y: seq<nat>, n: nat)
    requires n <= |freq| && n <= |x| && n <= |y| && forall s :: 0 <= s < n ==> x[s] == y[s]
    ensures SymCost(freq, x, n) == SymCost(freq, y, n)
    decreases n
  {
    if n == 0 {
    } else {
      CostSame(freq, x, y, n - 1);
    }
  }

  // ----------------------------------------------------------- the codes of this block

  function LVals(): (r: seq<nat>)
    ensures |r| == L_CODES && forall s :: 0 <= s < L_CODES ==> r[s] == LVal(s)
  {
    seq(L_CODES, s requires 0 <= s => LVal(s))
  }

  lemma LengthPower(a: nat)
    requires a < 28
    ensures 3 <= LLen(a) <= 7 && Pow2(MAX_BITS - LLen(a)) == 256 * LCount(a) && LCount(a) != 0
  {
    hide Pow2;
    Pow2Values();
  }

  lemma DistPower(b: nat)
    requires b < 30
    ensures if DCount(b) == 0 then DLen(b) == 0
            else 2 <= DLen(b) <= 5 && 3 * Pow2(MAX_BITS - DLen(b)) == 1024 * DCount(b)
  {
    hide Pow2;
    Pow2Values();
  }

  lemma LExact(freq: seq<nat>)
    requires |freq| == L_CODES && forall s :: 0 <= s < L_CODES ==> freq[s] == LUse(s)
    ensures Exact(freq, LVals(), L_CODES, 1, 256) && !Single(freq, L_CODES) && freq[284] != 0
  {
    hide Pow2, IsLit, LCount, LLen;
    Pow2Values();
    forall s | 0 <= s < L_CODES
      ensures if freq[s] == 0 then LVal(s) == 0
              else 0 < LVal(s) <= MAX_BITS && 1 * Pow2(MAX_BITS - LVal(s)) == 256 * freq[s]
    {
      if 257 <= s < 285 {
        LengthPower(s - 257);
      }
    }
    LengthPower(27);
    assert freq[256] != 0 && freq[284] != 0;
  }

  lemma DExact(freq: seq<nat>)
    requires |freq| == D_CODES && forall s :: 0 <= s < D_CODES ==> freq[s] == DCount(s)
    ensures Exact(freq, DLens(), D_CODES, 3, 1024) && !Single(freq, D_CODES) && freq[29] != 0
  {
    hide Pow2, DCount, DLen;
    forall s | 0 <= s < D_CODES
      ensures if freq[s] == 0 then DLen(s) == 0
              else 0 < DLen(s) <= MAX_BITS && 3 * Pow2(MAX_BITS - DLen(s)) == 1024 * freq[s]
    {
      DistPower(s);
    }
    LastDists();
    assert freq[28] != 0 && freq[29] != 0;
  }

  lemma LastDists()
    ensures DCount(28) == 24 && DCount(29) == 12
  {
  }

  lemma {:induction false} DSum(freq: seq<nat>, n: nat)
    requires n <= |freq| == D_CODES && forall s :: 0 <= s < D_CODES ==> freq[s] == DCount(s)
    ensures FreqSum(freq, n) == DTotal(n)
    decreases n
  {
    hide DCount;
    if n == 0 {
    } else {
      DSum(freq, n - 1);
    }
  }

  lemma {:induction false} OccIn(xs: seq<nat>, x: nat)
    requires Occ(xs, x) > 0
    ensures x in xs
    decreases |xs|
  {
    var n := |xs| - 1;
    if xs[n] == x {
    } else {
      OccIn(xs[..n], x);
      assert x in xs[..n];
    }
  }

  /** Whatever occurs in tokens that can be encoded has a code. */
  lemma UsedHasCode(t: Tables, llens: seq<nat>, dlens: seq<nat>, ms: seq<Token>, ls: seq<nat>, ds: seq<nat>)
    requires LengthsOk(t) && DistsOk(t) && Listed(ls, ds) && Coded(t, ms, ls, ds)
    requires AllEncodable(t, llens, dlens, ms + Ends())
    ensures forall s :: 0 <= s < L_CODES && LUse(s) != 0 ==> s < |llens| && llens[s] != 0
    ensures forall s :: 0 <= s < D_CODES && DCount(s) != 0 ==> s < |dlens| && dlens[s] != 0
  {
    hide LengthsOk, DistsOk, LSym, DSym, Coded, LSyms, LUse, LCount, DCount, Occ, Weigh;
    var ts := ms + Ends();
    BlockSyms(t, ms, ls, ds);
    forall s | 0 <= s < L_CODES && LUse(s) != 0
      ensures s < |llens| && llens[s] != 0
    {
      LSymUse(ls, s);
      if s != 256 {
        OccIn(LSyms(ls), s);
        var i :| 0 <= i < 127 && LSyms(ls)[i] == s;
        assert Encodable(t, llens, dlens, ts[i]);
      }
    }
    forall s | 0 <= s < D_CODES && DCount(s) != 0
      ensures s < |dlens| && dlens[s] != 0
    {
      OccIn(ds, s);
      var i :| 0 <= i < 96 && ds[i] == s;
      assert Encodable(t, llens, dlens, ts[i]);
    }
  }

  /** The lengths that build_tree gives. */
  ghost predicate OwnLens(c: Codes) {
    && 285 <= |c.llens| <= 286 && (forall s :: 0 <= s < |c.llens| ==> c.llens[s] == LVal(s))
    && |c.dlens| == 30 && (forall s :: 0 <= s < 30 ==> c.dlens[s] == DLen(s))
  }

  lemma OwnLensAre(t: Tables, c: Codes, ms: seq<Token>, ls: seq<nat>, ds: seq<nat>)
    requires LengthsOk(t) && DistsOk(t) && Listed(ls, ds) && Coded(t, ms, ls, ds)
    requires CodesOk(c) && FromTrees(t, c, ms + Ends())
             && AllEncodable(t, c.llens, c.dlens, ms + Ends())
    ensures OwnLens(c)
  {
    hide LengthsOk, DistsOk, AllEncodable, Coded, LCount, Occ, Weigh, LUse, LVal, DCount, DLen, Made, FreqSum,
         Single, Exact, SymCost, LFreq, DFreq, CodeOk, RestZero, Pow2, DTotal;
    var ts := ms + Ends();
    BlockUse(t, ms, ls, ds);
    UsedHasCode(t, c.llens, c.dlens, ms, ls, ds);
    LExact(LFreq(t, ts));
    DExact(DFreq(t, ts));
    FreqTotals(t, ts);
    DSum(DFreq(t, ts), D_CODES);
    DFirstIs(30);
    Pow2Values();
    MadeSize(LFreq(t, ts), c.llens, L_CODES);
    MadeSize(DFreq(t, ts), c.dlens, D_CODES);
    CodeIs(LFreq(t, ts), LVals(), c.llens, L_CODES, 1, 256);
    CodeIs(DFreq(t, ts), DLens(), c.dlens, D_CODES, 3, 1024);
  }

  lemma MadeSize(freq: seq<nat>, lens: seq<nat>, n: nat)
    requires Made(freq, lens, n)
    ensures |lens| <= n <= |freq|
  {
  }

  // -------------------------------------------------------------------- bits of the tokens

  lemma {:induction false} MatchBits(t: Tables, llens: seq<nat>, dlens: seq<nat>, ts: seq<Token>, ls: seq<nat>,
                                     ds: seq<nat>, wl: seq<nat>, wd: seq<nat>)
    requires LengthsOk(t) && DistsOk(t) && AllEncodable(t, llens, dlens, ts) && |ts| == |ls| == |ds| && |wl| == 28
             && |wd| == 30
    requires forall i :: 0 <= i < |ts| ==> TokenOk(ts[i]) && ts[i].Match? && ls[i] < 28 && ds[i] < 30
    requires forall i :: 0 <= i < |ts| ==> LSym(t, ts[i]) == 257 + ls[i] && DSym(t, ts[i]) == ds[i]
    requires forall i :: 0 <= i < |ts| ==> 257 + ls[i] < |llens| && wl[ls[i]] == llens[257 + ls[i]] + LBits(ls[i])
    requires forall i :: 0 <= i < |ts| ==> ds[i] < |dlens| && wd[ds[i]] == dlens[ds[i]] + DBits(ds[i])
    ensures |TokensBits(t, llens, dlens, ts)| == Weigh(ls, wl) + Weigh(ds, wd)
    decreases |ts|
  {
    hide LengthsOk, DistsOk, LSym, DSym, TokenBits, Encodable, LBits, DBits;
    if ts == [] {
    } else {
      assert Encodable(t, llens, dlens, ts[0]);
      TokenLength(t, llens, dlens, ts[0]);
      MatchBits(t, llens, dlens, ts[1..], ls[1..], ds[1..], wl, wd);
    }
  }

  lemma OneMoreTime(x: nat, n: nat)
    requires n > 0
    ensures x * n == x + x * (n - 1)
  {
  }

  lemma {:induction false} LitBits(t: Tables, llens: seq<nat>, dlens: seq<nat>, ts: seq<Token>, low: nat, high: nat)
    requires LengthsOk(t) && DistsOk(t) && AllEncodable(t, llens, dlens, ts)
    requires forall i :: 0 <= i < |ts| ==> ts[i].Literal? && ts[i].c < |llens| && low <= llens[ts[i].c] <= high
    ensures low * |ts| <= |TokensBits(t, llens, dlens, ts)| <= high * |ts|
    decreases |ts|
  {
    hide LengthsOk, DistsOk, LSym, DSym, TokenBits, Encodable;
    if ts == [] {
    } else {
      assert Encodable(t, llens, dlens, ts[0]);
      OneLit(t, llens, dlens, ts[0]);
      LitBits(t, llens, dlens, ts[1..], low, high);
      OneMoreTime(low, |ts|);
      OneMoreTime(high, |ts|);
    }
  }

  lemma OneLit(t: Tables, llens: seq<nat>, dlens: seq<nat>, tok: Token)
    requires LengthsOk(t) && DistsOk(t) && Encodable(t, llens, dlens, tok) && tok.Literal?
    ensures tok.c < |llens| && |TokenBits(t, llens, dlens, tok)| == llens[tok.c]
  {
    hide LengthsOk, DistsOk;
  }

  lemma FixedLWeight(a: nat)
    requires a < 28
    ensures LCost(a) == FixedLens()[257 + a] + LBits(a)
  {
  }

  lemma FixedDWeight(b: nat)
    requires b < 30
    ensures DCost(b) == FixedDists()[b] + DBits(b)
  {
  }

  lemma OwnLWeight(a: nat)
    requires a < 28
    ensures LOwn(a) == LVal(257 + a) + LBits(a)
  {
    hide IsLit;
  }

  lemma OwnDWeight(b: nat)
    requires b < 30
    ensures DOwn(b) == DLen(b) + DBits(b)
  {
  }

  /** The matches, the literals and the end of the block. */
  lemma BitsSplit(t: Tables, llens: seq<nat>, dlens: seq<nat>, ms: seq<Token>)
    requires LengthsOk(t) && DistsOk(t) && AllEncodable(t, llens, dlens, ms + Ends())
    ensures AllEncodable(t, llens, dlens, ms) && AllEncodable(t, llens, dlens, Ends())
    ensures |BlockBits(t, llens, dlens, ms + Ends())|
         == |TokensBits(t, llens, dlens, ms)| + |TokensBits(t, llens, dlens, Ends())| + llens[256]
  {
    hide LengthsOk, DistsOk, AllEncodable, TokensBits, Ends, SymBits;
    TokensBitsAppend(t, llens, dlens, ms, Ends());
    EndHasCode(t, llens, dlens, ms + Ends());
  }

  lemma EndHasCode(t: Tables, llens: seq<nat>, dlens: seq<nat>, ts: seq<Token>)
    requires LengthsOk(t) && DistsOk(t) && AllEncodable(t, llens, dlens, ts)
    ensures 256 < |llens|
  {
  }

  lemma FixedSize(t: Tables, ms: seq<Token>, ls: seq<nat>, ds: seq<nat>)
    requires LengthsOk(t) && DistsOk(t) && Listed(ls, ds) && Coded(t, ms, ls, ds)
    requires AllEncodable(t, FixedLens(), FixedDists(), ms + Ends())
    ensures AllEncodable(t, FixedLens(), FixedDists(), ms) && |TokensBits(t, FixedLens(), FixedDists(), ms)| == 2578
    ensures |BlockBits(t, FixedLens(), FixedDists(), ms + Ends())| <= 2578 + 9 * 31 + 7
  {
    hide LengthsOk, DistsOk, AllEncodable, TokensBits, BlockBits, LCount, DCount, LCost, DCost, Occ, Weigh,
         LBits, DBits, LSym, DSym, LitNo, LSyms;
    BitsSplit(t, FixedLens(), FixedDists(), ms);
    forall i | 0 <= i < 96
      ensures LCosts()[ls[i]] == FixedLens()[257 + ls[i]] + LBits(ls[i])
              && DCosts()[ds[i]] == FixedDists()[ds[i]] + DBits(ds[i])
    {
      FixedLWeight(ls[i]);
      FixedDWeight(ds[i]);
    }
    MatchBits(t, FixedLens(), FixedDists(), ms, ls, ds, LCosts(), DCosts());
    LitBits(t, FixedLens(), FixedDists(), Ends(), 8, 9);
  }

  lemma OwnSize(t: Tables, c: Codes, ms: seq<Token>, ls: seq<nat>, ds: seq<nat>)
    requires LengthsOk(t) && DistsOk(t) && Listed(ls, ds) && Coded(t, ms, ls, ds) && OwnLens(c)
    requires AllEncodable(t, c.llens, c.dlens, ms + Ends())
    ensures |BlockBits(t, c.llens, c.dlens, ms + Ends())| == 2138 + 7 * 31 + 7
  {
    hide LengthsOk, DistsOk, AllEncodable, TokensBits, BlockBits, LCount, DCount, LOwn, DOwn, Occ, Weigh,
         LBits, DBits, LSym, DSym, LSyms, LVal, DLen, LitNo;
    BitsSplit(t, c.llens, c.dlens, ms);
    forall i | 0 <= i < 96
      ensures LOwns()[ls[i]] == c.llens[257 + ls[i]] + LBits(ls[i]) && DOwns()[ds[i]] == c.dlens[ds[i]] + DBits(ds[i])
    {
      OwnLWeight(ls[i]);
      OwnDWeight(ds[i]);
    }
    MatchBits(t, c.llens, c.dlens, ms, ls, ds, LOwns(), DOwns());
    forall j | 0 <= j < 31
      ensures c.llens[LitNo(j)] == 7
    {
      LitLength(j);
    }
    EndLengthIs();
    LitBits(t, c.llens, c.dlens, Ends(), 7, 7);
  }

  lemma LitLength(j: nat)
    requires j < 31
    ensures LitNo(j) < 252 && LVal(LitNo(j)) == 7
  {
  }

  lemma EndLengthIs()
    ensures LVal(256) == 7
  {
  }
}
