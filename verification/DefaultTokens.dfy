/** The tokens of the block: 96 matches and 31 literals, and how often their symbols occur. */
module DefaultTokens {
  import opened Bits
  import opened InflateTable
  import opened InflateMachine
  import opened TreeTables
  import opened Tokens
  import opened CodeLengths
  import opened BlockCost
  import opened TreeBest
  import opened DefaultCounts
  import opened DefaultBlock

  // ------------------------------------------------------------------------ the symbols

  function LitNo(j: nat): nat {
    8 * j + if j % 2 == 0 then 11 else 7
  }

  predicate IsLit(s: nat) {
    s < 252 && (s % 16 == 11 || s % 16 == 15)
  }

  function Lits(n: nat): (r: seq<nat>)
    ensures |r| == n && forall j :: 0 <= j < n ==> r[j] == LitNo(j)
  {
    seq(n, j requires 0 <= j => LitNo(j))
  }

  lemma {:induction false} OccLits(n: nat, s: nat)
    requires n <= 31
    ensures Occ(Lits(n), s) == if IsLit(s) && s < 8 * n + 3 + 4 * (n % 2) then 1 else 0
    decreases n
  {
    hide IsLit, LitNo;
    if n == 0 {
      LitFirst(s);
    } else {
      OccLits(n - 1, s);
      LitNext(n, s);
      assert Lits(n)[..n - 1] == Lits(n - 1);
    }
  }

  lemma LitFirst(s: nat)
    ensures IsLit(s) ==> s >= 3
  {
  }

  lemma LitNext(n: nat, s: nat)
    requires 1 <= n <= 31
    ensures var low, high := 8 * (n - 1) + 3 + 4 * ((n - 1) % 2), 8 * n + 3 + 4 * (n % 2);
            low <= LitNo(n - 1) < high && (low <= s < high && IsLit(s) <==> s == LitNo(n - 1))
  {
  }

  predicate Codes96(ls: seq<nat>, ds: seq<nat>) {
    |ls| == |ds| == 96 && forall i :: 0 <= i < 96 ==> ls[i] < 28 && ds[i] < 30
  }

  /** The length codes and the distance codes of the matches: as many of each as the tables
      say, and what they take with the fixed codes. */
  ghost predicate Listed(ls: seq<nat>, ds: seq<nat>) {
    && Codes96(ls, ds)
    && (forall a: nat :: Occ(ls, a) == if a < 28 then LCount(a) else 0)
    && (forall b: nat :: Occ(ds, b) == if b < 30 then DCount(b) else 0)
    && Weigh(ls, LCosts()) == 1006 && Weigh(ds, DCosts()) == 1572 && Weigh(ls, LOwns()) == 758
       && Weigh(ds, DOwns()) == 1380
  }

  lemma LengthList() returns (ls: seq<nat>)
    ensures |ls| == 96 && (forall i :: 0 <= i < 96 ==> ls[i] < 28) && ls == Runs(LCounts(), 28)
    ensures (forall a: nat :: Occ(ls, a) == if a < 28 then LCount(a) else 0)
    ensures Weigh(ls, LCosts()) == 1006 && Weigh(ls, LOwns()) == 758
  {
    hide Runs, Occ, LCount, LCost, Weigh, LTotal, LCostSum, LOwn, LOwnSum, FreqSum, SymCost;
    ls := Runs(LCounts(), 28);
    LTotalIs(28);
    LFirstIs(28);
    RunsIn(LCounts(), 28);
    forall a: nat
      ensures Occ(ls, a) == if a < 28 then LCount(a) else 0
    {
      OccRuns(LCounts(), 28, a);
    }
    WeighRuns(LCounts(), LCosts(), 28);
    LCostSumIs(28);
    LengthCost();
    WeighRuns(LCounts(), LOwns(), 28);
    LOwnSumIs(28);
    LengthOwn();
  }

  lemma DistList() returns (ds: seq<nat>)
    ensures |ds| == 96 && (forall i :: 0 <= i < 96 ==> ds[i] < 30) && ds == Runs(DCounts(), 30)
    ensures (forall b: nat :: Occ(ds, b) == if b < 30 then DCount(b) else 0)
    ensures Weigh(ds, DCosts()) == 1572 && Weigh(ds, DOwns()) == 1380
  {
    hide Runs, Occ, DCount, DCost, Weigh, DTotal, DCostSum, DOwn, DOwnSum, FreqSum, SymCost;
    ds := Runs(DCounts(), 30);
    DTotalIs(30);
    DFirstIs(30);
    RunsIn(DCounts(), 30);
    forall b: nat
      ensures Occ(ds, b) == if b < 30 then DCount(b) else 0
    {
      OccRuns(DCounts(), 30, b);
    }
    WeighRuns(DCounts(), DCosts(), 30);
    DCostSumIs(30);
    DistCost();
    WeighRuns(DCounts(), DOwns(), 30);
    DOwnSumIs(30);
    DistOwn();
  }

  /** Code a as a symbol of the tree of literals and lengths. */
  function Shift(xs: seq<nat>): (r: seq<nat>)
    ensures |r| == |xs| && forall i :: 0 <= i < |xs| ==> r[i] == 257 + xs[i]
  {
    seq(|xs|, i requires 0 <= i < |xs| => 257 + xs[i])
  }

  lemma {:induction false} OccShift(xs: seq<nat>, s: nat)
    ensures Occ(Shift(xs), s) == if s < 257 then 0 else Occ(xs, s - 257)
    decreases |xs|
  {
    if xs == [] {
    } else {
      var n := |xs| - 1;
      OccShift(xs[..n], s);
      assert Shift(xs)[..n] == Shift(xs[..n]);
    }
  }

  function LSyms(ls: seq<nat>): (r: seq<nat>)
    ensures |r| == |ls| + 31
  {
    Shift(ls) + Lits(31)
  }

  /** How often a symbol occurs, and the length of its code. */
  function LUse(s: nat): nat {
    if s < 256 then if IsLit(s) then 1 else 0
    else if s == 256 then 1
    else if s < 285 then LCount(s - 257)
    else 0
  }

  function LVal(s: nat): nat {
    if s < 256 then if IsLit(s) then 7 else 0
    else if s == 256 then 7
    else if s < 285 then LLen(s - 257)
    else 0
  }

  lemma LSymUse(ls: seq<nat>, s: nat)
    requires s < L_CODES && forall a: nat :: Occ(ls, a) == if a < 28 then LCount(a) else 0
    ensures Occ(LSyms(ls), s) + (if s == 256 then 1 else 0) == LUse(s)
  {
    hide Occ, IsLit, LCount, Shift, Lits;
    OccJoin(Shift(ls), Lits(31), s);
    OccShift(ls, s);
    OccLits(31, s);
    LitsLow(s);
  }

  lemma LitsLow(s: nat)
    ensures IsLit(s) ==> s < 252
  {
  }

  // ---------------------------------------------------------------------- the frequencies

  lemma {:induction false} LFreqIs(t: Tables, ts: seq<Token>, ls: seq<nat>)
    requires LengthsOk(t) && TokensOk(ts) && |ls| == |ts| && forall i :: 0 <= i < |ts| ==> LSym(t, ts[i]) == ls[i]
    ensures forall s :: 0 <= s < L_CODES ==> LFreq(t, ts)[s] == Occ(ls, s) + if s == 256 then 1 else 0
    decreases |ts|
  {
    hide LengthsOk, LSym;
    if ts == [] {
    } else {
      var n := |ts| - 1;
      LFreqIs(t, ts[..n], ls[..n]);
      LSymBound(t, ts[n]);
    }
  }

  /** The matches come first. */
  lemma {:induction false} DFreqIs(t: Tables, ts: seq<Token>, ds: seq<nat>)
    requires DistsOk(t) && TokensOk(ts) && |ds| <= |ts|
    requires forall i :: 0 <= i < |ts| ==> if i < |ds| then ts[i].Match? && DSym(t, ts[i]) == ds[i] else ts[i].Literal?
    ensures forall s :: 0 <= s < D_CODES ==> DFreq(t, ts)[s] == Occ(ds, s)
    decreases |ts|
  {
    hide DistsOk, DSym;
    if ts == [] {
    } else {
      var n := |ts| - 1;
      if n < |ds| {
        DFreqIs(t, ts[..n], ds[..n]);
        DSymBound(t, ts[n]);
      } else {
        DFreqIs(t, ts[..n], ds);
      }
    }
  }

  // --------------------------------------------------------------------------- the tokens

  /** Matches with these codes. */
  ghost predicate Coded(t: Tables, ms: seq<Token>, ls: seq<nat>, ds: seq<nat>)
    requires LengthsOk(t) && DistsOk(t)
  {
    && Codes96(ls, ds) && |ms| == 96 && TokensOk(ms)
    && forall i :: 0 <= i < 96 ==> ms[i].Match? && LSym(t, ms[i]) == 257 + ls[i] && DSym(t, ms[i]) == ds[i]
  }

  function Ends(): (r: seq<Token>)
    ensures |r| == 31 && forall j :: 0 <= j < 31 ==> r[j].Literal? && r[j].c == LitNo(j)
  {
    seq(31, j requires 0 <= j < 31 => Literal(LitNo(j)))
  }

  lemma BlockSyms(t: Tables, ms: seq<Token>, ls: seq<nat>, ds: seq<nat>)
    requires LengthsOk(t) && DistsOk(t) && Coded(t, ms, ls, ds)
    ensures var ts := ms + Ends();
            && |ts| == 127 && TokensOk(ts) && (forall i :: 0 <= i < 127 ==> LSym(t, ts[i]) == LSyms(ls)[i])
            && forall i :: 0 <= i < 127 ==> if i < 96 then ts[i].Match? && DSym(t, ts[i]) == ds[i] else ts[i].Literal?
  {
    hide LengthsOk, DistsOk, LitNo, DSym;
  }

  lemma BlockUse(t: Tables, ms: seq<Token>, ls: seq<nat>, ds: seq<nat>)
    requires LengthsOk(t) && DistsOk(t) && Listed(ls, ds) && Coded(t, ms, ls, ds)
    ensures TokensOk(ms + Ends()) && |ms + Ends()| == 127
    ensures forall s :: 0 <= s < L_CODES ==> LFreq(t, ms + Ends())[s] == LUse(s)
    ensures forall s :: 0 <= s < D_CODES ==> DFreq(t, ms + Ends())[s] == DCount(s)
  {
    hide LengthsOk, DistsOk, LSym, DSym, LFreq, DFreq, Coded, LSyms, LUse, LCount, DCount, Occ, Weigh;
    BlockSyms(t, ms, ls, ds);
    LFreqIs(t, ms + Ends(), LSyms(ls));
    DFreqIs(t, ms + Ends(), ds);
    forall s | 0 <= s < L_CODES
      ensures LFreq(t, ms + Ends())[s] == LUse(s)
    {
      LSymUse(ls, s);
    }
  }
}
