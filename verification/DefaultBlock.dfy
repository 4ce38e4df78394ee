/** A block of 127 tokens for which the default strategy takes the fixed codes, as they are
    shorter than those of its own, and what it takes with them. */
module DefaultBlock {
  import opened Bits
  import opened InflateTable
  import opened InflateMachine
  import opened TreeTables
  import opened Tokens
  import opened CodeLengths
  import opened BlockCost
  import opened TreeBest
  import opened DefaultCounts

  // the tables as sequences
  function LCounts(): (r: seq<nat>)
    ensures |r| == 28 && forall a :: 0 <= a < 28 ==> r[a] == LCount(a)
  {
    seq(28, a requires 0 <= a => LCount(a))
  }

  function DCounts(): (r: seq<nat>)
    ensures |r| == 30 && forall b :: 0 <= b < 30 ==> r[b] == DCount(b)
  {
    seq(30, b requires 0 <= b => DCount(b))
  }

  function LCosts(): (r: seq<nat>)
    ensures |r| == 28 && forall a :: 0 <= a < 28 ==> r[a] == LCost(a)
  {
    seq(28, a requires 0 <= a => LCost(a))
  }

  function DCosts(): (r: seq<nat>)
    ensures |r| == 30 && forall b :: 0 <= b < 30 ==> r[b] == DCost(b)
  {
    seq(30, b requires 0 <= b => DCost(b))
  }

  function LOwns(): (r: seq<nat>)
    ensures |r| == 28 && forall a :: 0 <= a < 28 ==> r[a] == LOwn(a)
  {
    seq(28, a requires 0 <= a => LOwn(a))
  }

  function DOwns(): (r: seq<nat>)
    ensures |r| == 30 && forall b :: 0 <= b < 30 ==> r[b] == DOwn(b)
  {
    seq(30, b requires 0 <= b => DOwn(b))
  }

  function DLens(): (r: seq<nat>)
    ensures |r| == 30 && forall b :: 0 <= b < 30 ==> r[b] == DLen(b)
  {
    seq(30, b requires 0 <= b => DLen(b))
  }

  lemma {:induction false} LTotalIs(n: nat)
    requires n <= 28
    ensures FreqSum(LCounts(), n) == LTotal(n)
  {
    hide LCount, DCount;
    if n == 0 {
    } else {
      LTotalIs(n - 1);
    }
  }

  lemma {:induction false} DTotalIs(n: nat)
    requires n <= 30
    ensures FreqSum(DCounts(), n) == DTotal(n)
  {
    hide LCount, DCount;
    if n == 0 {
    } else {
      DTotalIs(n - 1);
    }
  }

  lemma {:induction false} LCostSumIs(n: nat)
    requires n <= 28
    ensures SymCost(LCounts(), LCosts(), n) == LCostSum(n)
  {
    hide LCount, DCount, LCost, DCost, LOwn, DOwn;
    if n == 0 {
    } else {
      LCostSumIs(n - 1);
    }
  }

  lemma {:induction false} DCostSumIs(n: nat)
    requires n <= 30
    ensures SymCost(DCounts(), DCosts(), n) == DCostSum(n)
  {
    hide LCount, DCount, LCost, DCost, LOwn, DOwn;
    if n == 0 {
    } else {
      DCostSumIs(n - 1);
    }
  }

  lemma {:induction false} LOwnSumIs(n: nat)
    requires n <= 28
    ensures SymCost(LCounts(), LOwns(), n) == LOwnSum(n)
  {
    hide LCount, DCount, LCost, DCost, LOwn, DOwn;
    if n == 0 {
    } else {
      LOwnSumIs(n - 1);
    }
  }

  lemma {:induction false} DOwnSumIs(n: nat)
    requires n <= 30
    ensures SymCost(DCounts(), DOwns(), n) == DOwnSum(n)
  {
    hide LCount, DCount, LCost, DCost, LOwn, DOwn;
    if n == 0 {
    } else {
      DOwnSumIs(n - 1);
    }
  }

  // --------------------------------------------------------------------------- counting

  /** How often x occurs. */
  function Occ(xs: seq<nat>, x: nat): nat {
    if xs == [] then 0 else Occ(xs[..|xs| - 1], x) + if xs[|xs| - 1] == x then 1 else 0
  }

  lemma {:induction false} OccJoin(a: seq<nat>, b: seq<nat>, x: nat)
    ensures Occ(a + b, x) == Occ(a, x) + Occ(b, x)
    decreases |b|
  {
    if b == [] {
      assert a + b == a;
    } else {
      var last := |b| - 1;
      assert (a + b)[..|a + b| - 1] == a + b[..last];
      OccJoin(a, b[..last], x);
    }
  }

  lemma {:induction false} OccSame(v: nat, n: nat, x: nat)
    ensures Occ(Copies(v, n), x) == if v == x then n else 0
    decreases n
  {
    if n == 0 {
    } else {
      OccSame(v, n - 1, x);
      assert Copies(v, n)[..n - 1] == Copies(v, n - 1);
    }
  }

  /** As many of each number as cnt says, from 0 up to n - 1. */
  function Runs(cnt: seq<nat>, n: nat): (r: seq<nat>)
    requires n <= |cnt|
    ensures |r| == FreqSum(cnt, n)
  {
    if n == 0 then [] else Runs(cnt, n - 1) + Copies(n - 1, cnt[n - 1])
  }

  lemma {:induction false} OccRuns(cnt: seq<nat>, n: nat, x: nat)
    requires n <= |cnt|
    ensures Occ(Runs(cnt, n), x) == if x < n then cnt[x] else 0
    decreases n
  {
    hide Occ;
    if n == 0 {
      NoOcc(x);
    } else {
      OccRuns(cnt, n - 1, x);
      OccSame(n - 1, cnt[n - 1], x);
      OccJoin(Runs(cnt, n - 1), Copies(n - 1, cnt[n - 1]), x);
    }
  }

  lemma NoOcc(x: nat)
    ensures Occ([], x) == 0
  {
  }

  lemma {:induction false} RunsIn(cnt: seq<nat>, n: nat)
    requires n <= |cnt|
    ensures forall i :: 0 <= i < |Runs(cnt, n)| ==> Runs(cnt, n)[i] < n && cnt[Runs(cnt, n)[i]] != 0
    decreases n
  {
    if n == 0 {
    } else {
      RunsIn(cnt, n - 1);
    }
  }

  /** Where the copies of a are. */
  lemma {:induction false} RunsAt(cnt: seq<nat>, n: nat, a: nat, i: nat)
    requires a < n <= |cnt| && FreqSum(cnt, a) <= i < FreqSum(cnt, a + 1)
    ensures i < |Runs(cnt, n)| && Runs(cnt, n)[i] == a
    decreases n
  {
    hide FreqSum;
    if n - 1 == a {
    } else {
      RunsAt(cnt, n - 1, a, i);
    }
  }

  /** The weights of a list's numbers. */
  function Weigh(xs: seq<nat>, w: seq<nat>): nat
    requires forall i :: 0 <= i < |xs| ==> xs[i] < |w|
  {
    if xs == [] then 0 else w[xs[0]] + Weigh(xs[1..], w)
  }

  lemma {:induction false} WeighJoin(a: seq<nat>, b: seq<nat>, w: seq<nat>)
    requires (forall i :: 0 <= i < |a| ==> a[i] < |w|) && forall i :: 0 <= i < |b| ==> b[i] < |w|
    ensures Weigh(a + b, w) == Weigh(a, w) + Weigh(b, w)
    decreases |a|
  {
    if a == [] {
      assert a + b == b;
    } else {
      assert (a + b)[1..] == a[1..] + b;
      WeighJoin(a[1..], b, w);
    }
  }

  lemma {:induction false} WeighSame(v: nat, n: nat, w: seq<nat>)
    requires v < |w|
    ensures Weigh(Copies(v, n), w) == n * w[v]
    decreases n
  {
    if n == 0 {
    } else {
      WeighSame(v, n - 1, w);
      assert Copies(v, n)[1..] == Copies(v, n - 1);
      assert n * w[v] == w[v] + (n - 1) * w[v];
    }
  }

  lemma {:induction false} WeighRuns(cnt: seq<nat>, w: seq<nat>, n: nat)
    requires n <= |cnt| && n <= |w|
    ensures (forall i :: 0 <= i < |Runs(cnt, n)| ==> Runs(cnt, n)[i] < |w|)
            && Weigh(Runs(cnt, n), w) == SymCost(cnt, w, n)
    decreases n
  {
    RunsIn(cnt, n);
    if n == 0 {
    } else {
      WeighRuns(cnt, w, n - 1);
      WeighSame(n - 1, cnt[n - 1], w);
      WeighJoin(Runs(cnt, n - 1), Copies(n - 1, cnt[n - 1]), w);
    }
  }
}
