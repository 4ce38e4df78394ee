/** Sums over code length counts: how much of the code space a set of lengths takes. */
module CodeSums {
  import opened Bits
  import opened Canonical

  /** The space taken by cnt[i] codes of each length i up to l, in units of the
      longest length max. */
  function KSum(cnt: seq<nat>, max: nat, l: nat): (r: nat)
    requires l <= max < |cnt|
  {
    if l == 0 then 0 else KSum(cnt, max, l - 1) + Shl(cnt[l], max - l)
  }

  lemma {:induction false} KSumUpdate(cnt: seq<nat>, max: nat, l: nat, i: nat, v: nat)
    requires l <= max < |cnt| && 1 <= i <= max
    ensures KSum(cnt[i := v], max, l) + (if i <= l then Shl(cnt[i], max - i) else 0)
         == KSum(cnt, max, l) + (if i <= l then Shl(v, max - i) else 0)
  {
    hide Shl;
    if l == 0 {
    } else {
      KSumUpdate(cnt, max, l - 1, i, v);
    }
  }

  lemma KSumMore(cnt: seq<nat>, max: nat, l: nat, i: nat)
    requires l <= max < |cnt| && 1 <= i <= max
    ensures KSum(cnt[i := cnt[i] + 1], max, l) == KSum(cnt, max, l) + if i <= l then Pow2(max - i) else 0
  {
    hide Shl, KSum, Pow2;
    KSumUpdate(cnt, max, l, i, cnt[i] + 1);
    ShlNext(cnt[i], max - i);
  }

  lemma {:induction false} KSumNone(cnt: seq<nat>, max: nat, l: nat)
    requires l <= max < |cnt| && forall i :: 1 <= i <= l ==> cnt[i] == 0
    ensures KSum(cnt, max, l) == 0
  {
    hide Shl;
    if l == 0 {
    } else {
      KSumNone(cnt, max, l - 1);
      ShlZero(max - l);
    }
  }

  function Sum(s: seq<nat>): (r: nat) {
    if s == [] then 0 else Sum(s[..|s| - 1]) + s[|s| - 1]
  }

  lemma {:induction false} SumUpdate(s: seq<nat>, i: nat, v: nat)
    requires i < |s|
    ensures Sum(s[i := v]) + s[i] == Sum(s) + v
    decreases |s|
  {
    var t := s[i := v];
    if i == |s| - 1 {
      assert t[..|t| - 1] == s[..|s| - 1];
    } else {
      assert t[..|t| - 1] == s[..|s| - 1][i := v];
      SumUpdate(s[..|s| - 1], i, v);
    }
  }

  lemma {:induction false} SumZero(s: seq<nat>)
    requires forall i :: 0 <= i < |s| ==> s[i] == 0
    ensures Sum(s) == 0
    decreases |s|
  {
    if s == [] {
    } else {
      SumZero(s[..|s| - 1]);
    }
  }

  /** The weights above 1 only. */
  function Big(s: seq<nat>): (r: seq<nat>)
    ensures |r| == |s| && forall i :: 0 <= i < |s| ==> r[i] == if s[i] > 1 then s[i] else 0
  {
    seq(|s|, i requires 0 <= i < |s| => if s[i] > 1 then s[i] else 0)
  }

  lemma BigUpdate(s: seq<nat>, i: nat, v: nat)
    requires i < |s|
    ensures Sum(Big(s[i := v])) + (if s[i] > 1 then s[i] else 0) == Sum(Big(s)) + if v > 1 then v else 0
  {
    assert Big(s[i := v]) == Big(s)[i := if v > 1 then v else 0];
    SumUpdate(Big(s), i, if v > 1 then v else 0);
  }

  lemma {:induction false} BigBelow(s: seq<nat>)
    ensures Sum(Big(s)) <= Sum(s)
    decreases |s|
  {
    if s == [] {
    } else {
      assert Big(s)[..|s| - 1] == Big(s[..|s| - 1]);
      BigBelow(s[..|s| - 1]);
    }
  }

  /** Strictly below if some weight is 1. */
  lemma {:induction false} BigStrict(s: seq<nat>, i: nat)
    requires i < |s| && s[i] == 1
    ensures Sum(Big(s)) < Sum(s)
    decreases |s|
  {
    assert Big(s)[..|s| - 1] == Big(s[..|s| - 1]);
    if i == |s| - 1 {
      BigBelow(s[..|s| - 1]);
    } else {
      BigStrict(s[..|s| - 1], i);
    }
  }

  // ---------------------------------------------------------- counts of a length list

  /** One more symbol gets a length. */
  lemma {:induction false} RankUpdate(lens: seq<nat>, n: nat, v: nat, l: nat, k: nat)
    requires n < |lens| && k <= |lens|
    ensures Rank(lens[n := v], l, k) + (if n < k && lens[n] == l then 1 else 0)
         == Rank(lens, l, k) + (if n < k && v == l then 1 else 0)
    decreases k
  {
    if k == 0 {
    } else {
      RankUpdate(lens, n, v, l, k - 1);
    }
  }

  lemma CountUpdate(lens: seq<nat>, n: nat, v: nat, l: nat)
    requires n < |lens|
    ensures Count(lens[n := v], l) + (if lens[n] == l then 1 else 0) == Count(lens, l) + (if v == l then 1 else 0)
  {
    RankUpdate(lens, n, v, l, |lens|);
  }

  lemma {:induction false} RankZeros(lens: seq<nat>, l: nat, k: nat)
    requires k <= |lens| && l > 0 && forall i :: 0 <= i < |lens| ==> lens[i] == 0
    ensures Rank(lens, l, k) == 0
    decreases k
  {
    if k == 0 {
    } else {
      RankZeros(lens, l, k - 1);
    }
  }

  /** Counts that fill the space of max bits are a complete code. */
  lemma {:induction false} KraftFromCounts(lens: seq<nat>, cnt: seq<nat>, max: nat, l: nat)
    requires l <= max < |cnt| && max <= MAX_BITS && forall i :: 1 <= i <= l ==> cnt[i] == Count(lens, i)
    ensures Kraft(lens, l) == Shl(KSum(cnt, max, l), MAX_BITS - max)
    decreases l
  {
    hide Shl, Count;
    if l == 0 {
      ShlZero(MAX_BITS - max);
    } else {
      KraftFromCounts(lens, cnt, max, l - 1);
      ShlShl(cnt[l], max - l, MAX_BITS - max);
      ShlAdd(KSum(cnt, max, l - 1), Shl(cnt[l], max - l), MAX_BITS - max);
    }
  }

  lemma {:induction false} KraftNoMore(lens: seq<nat>, max: nat, l: nat)
    requires max <= l <= MAX_BITS && forall i :: max < i <= l ==> Count(lens, i) == 0
    ensures Kraft(lens, l) == Kraft(lens, max)
    decreases l
  {
    hide Shl, Count;
    if l <= max {
    } else {
      KraftNoMore(lens, max, l - 1);
      ShlZero(MAX_BITS - l);
    }
  }

  lemma FullIsComplete(lens: seq<nat>, cnt: seq<nat>, max: nat)
    requires max < |cnt| && max <= MAX_BITS && forall i :: 1 <= i <= max ==> cnt[i] == Count(lens, i)
    requires forall i :: max < i <= MAX_BITS ==> Count(lens, i) == 0
    requires KSum(cnt, max, max) == Pow2(max)
    ensures Complete(lens)
  {
    hide Shl, Count, KSum, Kraft, Pow2;
    KraftFromCounts(lens, cnt, max, max);
    KraftNoMore(lens, max, MAX_BITS);
    ShlPow2(max, MAX_BITS - max);
  }

  /** Symbols of the lengths a..b among the first n. */
  function RankSum(lens: seq<nat>, n: nat, a: nat, b: nat): nat
    requires n <= |lens|
    decreases b
  {
    if b < a then 0 else Rank(lens, b, n) + if b == 0 then 0 else RankSum(lens, n, a, b - 1)
  }

  lemma {:induction false} RankSumNone(lens: seq<nat>, a: nat, b: nat)
    ensures RankSum(lens, 0, a, b) == 0
    decreases b
  {
    if b < a || b == 0 {
    } else {
      RankSumNone(lens, a, b - 1);
    }
  }

  lemma {:induction false} RankSumStep(lens: seq<nat>, n: nat, a: nat, b: nat)
    requires n < |lens|
    ensures RankSum(lens, n + 1, a, b) == RankSum(lens, n, a, b) + if a <= lens[n] <= b then 1 else 0
    decreases b
  {
    if b < a || b == 0 {
    } else {
      RankSumStep(lens, n, a, b - 1);
    }
  }

  lemma {:induction false} RankSumBound(lens: seq<nat>, n: nat, a: nat, b: nat)
    requires n <= |lens|
    ensures RankSum(lens, n, a, b) <= n
    decreases n
  {
    hide RankSum;
    if n == 0 {
      RankSumNone(lens, a, b);
    } else {
      RankSumStep(lens, n - 1, a, b);
      RankSumBound(lens, n - 1, a, b);
    }
  }

  // ------------------------------------------------------------- symbols with a length

  function NonZero(lens: seq<nat>, k: nat): (r: nat)
    requires k <= |lens|
    ensures r <= k
  {
    if k == 0 then 0 else NonZero(lens, k - 1) + if lens[k - 1] == 0 then 0 else 1
  }

  lemma {:induction false} NonZeroUpdate(lens: seq<nat>, k: nat, n: nat, v: nat)
    requires k <= |lens| && n < |lens| && lens[n] == 0 && v != 0
    ensures NonZero(lens[n := v], k) == NonZero(lens, k) + if n < k then 1 else 0
  {
    if k == 0 {
    } else {
      NonZeroUpdate(lens, k - 1, n, v);
    }
  }

  lemma {:induction false} NonZeroZeros(lens: seq<nat>, k: nat)
    requires k <= |lens| && forall i :: 0 <= i < k ==> lens[i] == 0
    ensures NonZero(lens, k) == 0
  {
    if k == 0 {
    } else {
      NonZeroZeros(lens, k - 1);
    }
  }

  /** If fewer symbols have a length in b than in a, one has it only in a. */
  lemma {:induction false} Missing(a: seq<nat>, b: seq<nat>, k: nat) returns (n: nat)
    requires k <= |a| && k <= |b| && NonZero(b, k) < NonZero(a, k)
    ensures n < k && a[n] != 0 && b[n] == 0
    decreases k
  {
    if a[k - 1] != 0 && b[k - 1] == 0 {
      n := k - 1;
    } else {
      n := Missing(a, b, k - 1);
    }
  }

  /** Otherwise, if those of b are among those of a, they are the same. */
  lemma {:induction false} NoneMissing(a: seq<nat>, b: seq<nat>, k: nat)
    requires k <= |a| && k <= |b| && NonZero(b, k) >= NonZero(a, k) && forall i :: 0 <= i < k ==> a[i] != 0 || b[i] == 0
    ensures NonZero(b, k) == NonZero(a, k) && forall i :: 0 <= i < k && a[i] != 0 ==> b[i] != 0
    decreases k
  {
    if k == 0 {
    } else {
      SomeMissing(a, b, k - 1);
      NoneMissing(a, b, k - 1);
    }
  }

  lemma {:induction false} SomeMissing(a: seq<nat>, b: seq<nat>, k: nat)
    requires k <= |a| && k <= |b| && forall i :: 0 <= i < k ==> a[i] != 0 || b[i] == 0
    ensures NonZero(b, k) <= NonZero(a, k)
    decreases k
  {
    if k == 0 {
    } else {
      SomeMissing(a, b, k - 1);
    }
  }

  lemma {:induction false} RankSumNonZero(lens: seq<nat>, n: nat, max: nat)
    requires n <= |lens| && forall i :: 0 <= i < n ==> lens[i] <= max
    ensures RankSum(lens, n, 1, max) == NonZero(lens, n)
    decreases n
  {
    hide RankSum;
    if n == 0 {
      RankSumNone(lens, 1, max);
    } else {
      RankSumStep(lens, n - 1, 1, max);
      RankSumNonZero(lens, n - 1, max);
    }
  }

  /** How many codes the counts describe, up to length l. */
  function CountSum(cnt: seq<nat>, l: nat): (r: nat)
    requires l < |cnt|
  {
    if l == 0 then 0 else CountSum(cnt, l - 1) + cnt[l]
  }

  lemma {:induction false} CountSumUpdate(cnt: seq<nat>, l: nat, i: nat, v: nat)
    requires l < |cnt| && 1 <= i < |cnt|
    ensures CountSum(cnt[i := v], l) + (if i <= l then cnt[i] else 0) == CountSum(cnt, l) + (if i <= l then v else 0)
  {
    if l == 0 {
    } else {
      CountSumUpdate(cnt, l - 1, i, v);
    }
  }

  lemma {:induction false} CountSumAt(cnt: seq<nat>, l: nat, i: nat)
    requires 1 <= i <= l < |cnt|
    ensures cnt[i] <= CountSum(cnt, l)
  {
    if i == l {
    } else {
      CountSumAt(cnt, l - 1, i);
    }
  }

  lemma {:induction false} CountSumIs(cnt: seq<nat>, lens: seq<nat>, l: nat)
    requires l < |cnt| && forall i :: 1 <= i <= l ==> cnt[i] == Count(lens, i)
    ensures CountSum(cnt, l) == RankSum(lens, |lens|, 1, l)
  {
    if l == 0 {
    } else {
      CountSumIs(cnt, lens, l - 1);
    }
  }
}
