/** trees.c: build_tree as a whole, from frequencies to codes. */
module TreeBuilder {
  import opened Bits
  import opened Canonical
  import opened CodeSums
  import opened HuffmanHeap
  import opened HuffmanTree
  import opened HuffmanBags
  import B = HuffmanBest
  import opened TreeList
  import opened TreeBest
  import opened BitLengths
  import opened HuffmanCodes
  import opened Tokens

  // ----------------------------------------------------------------- the bits used

  /** The bits all symbols take together. */
  function FullCost(freq: seq<nat>, lens: seq<nat>, extra: seq<nat>, n: nat): int
    requires n <= |freq| && n <= |lens| && n <= |extra|
  {
    if n == 0 then 0 else FullCost(freq, lens, extra, n - 1) + Weight(freq[n - 1], lens[n - 1], extra[n - 1])
  }

  lemma WeightNone(l: nat, x: nat)
    ensures Weight(0, l, x) == 0
  {
  }

  /** Symbols that do not occur cost nothing, so leaving them out changes nothing. */
  lemma {:induction false} CostIsFull(freq: seq<nat>, lens: seq<nat>, lens': seq<nat>, extra: seq<nat>, n: nat)
    requires n <= |freq| && n <= |lens| && n <= |extra| && n <= |lens'|
    requires forall i :: 0 <= i < n ==> (lens[i] == 0 ==> freq[i] == 0) && (lens[i] != 0 ==> lens[i] == lens'[i])
    ensures Cost(freq, lens, extra, n) == FullCost(freq, lens', extra, n)
  {
    hide Weight;
    if n == 0 {
    } else {
      CostIsFull(freq, lens, lens', extra, n - 1);
      WeightNone(lens'[n - 1], extra[n - 1]);
    }
  }

  lemma {:induction false} FullCostUpdate(freq: seq<nat>, lens: seq<nat>, extra: seq<nat>, n: nat, s: nat, f: nat)
    requires n <= |freq| && n <= |lens| && n <= |extra| && s < n
    ensures FullCost(freq[s := f], lens, extra, n) + Weight(freq[s], lens[s], extra[s])
         == FullCost(freq, lens, extra, n) + Weight(f, lens[s], extra[s])
    decreases n
  {
    hide Weight;
    if s < n - 1 {
      FullCostUpdate(freq, lens, extra, n - 1, s, f);
    } else {
      FullCostPrefix(freq[s := f], freq, lens, extra, n - 1);
    }
  }

  lemma {:induction false} FullCostPrefix(a: seq<nat>, b: seq<nat>, lens: seq<nat>, extra: seq<nat>, n: nat)
    requires n <= |a| && n <= |b| && n <= |lens| && n <= |extra| && a[..n] == b[..n]
    ensures FullCost(a, lens, extra, n) == FullCost(b, lens, extra, n)
  {
    hide Weight;
    if n == 0 {
    } else {
      assert a[..n][n - 1] == b[..n][n - 1];
      assert a[..n - 1] == a[..n][..n - 1] == b[..n][..n - 1] == b[..n - 1];
      FullCostPrefix(a, b, lens, extra, n - 1);
    }
  }

  // ---------------------------------------------------------------- two codes only

  lemma {:induction false} TwoCodesBound(cnt: seq<nat>, max: nat, l: nat)
    requires 1 <= l <= max < |cnt| && max >= 2
    ensures cnt[1] <= CountSum(cnt, l)
    ensures KSum(cnt, max, l) <= Shl(cnt[1], max - 1) + Shl(CountSum(cnt, l) - cnt[1], max - 2)
    decreases l
  {
    hide Shl;
    if l == 1 {
      assert KSum(cnt, max, 1) == KSum(cnt, max, 0) + Shl(cnt[1], max - 1);
      assert CountSum(cnt, 1) == CountSum(cnt, 0) + cnt[1];
      ShlZero(max - 2);
    } else {
      TwoCodesBound(cnt, max, l - 1);
      ShlAdd(CountSum(cnt, l - 1) - cnt[1], cnt[l], max - 2);
      ShlShl(cnt[l], max - l, l - 2);
      ShlPositive(Shl(cnt[l], max - l), l - 2);
    }
  }

  /** Two codes that fill the space are one bit each. */
  lemma TwoCodes(cnt: seq<nat>, max: nat)
    requires 1 <= max < |cnt| && KSum(cnt, max, max) == Pow2(max) && CountSum(cnt, max) == 2
    ensures cnt[1] == 2
  {
    hide Shl, Pow2, KSum, CountSum;
    if max == 1 {
      assert CountSum(cnt, 1) == CountSum(cnt, 0) + cnt[1] by { CountSumTop(cnt, 1); }
      assert CountSum(cnt, 0) == 0 by { CountSumZero(cnt); }
    } else {
      TwoCodesBound(cnt, max, max);
      Halves(max);
      Halves(max - 1);
      var k := cnt[1];
      ShlPow2(0, max - 1);
      ShlPow2(0, max - 2);
      Pow2One();
      if k == 0 {
        ShlZero(max - 1);
        ShlNext(1, max - 2);
      } else if k == 1 {
      }
    }
  }

  lemma CountSumZero(cnt: seq<nat>)
    requires |cnt| > 0
    ensures CountSum(cnt, 0) == 0
  {
  }

  lemma {:induction false} AllOnes(lens: seq<nat>, k: nat)
    requires k <= |lens| && Rank(lens, 1, k) == NonZero(lens, k)
    ensures forall i :: 0 <= i < k && lens[i] != 0 ==> lens[i] == 1
    decreases k
  {
    if k == 0 {
    } else {
      OnesBelow(lens, k - 1);
      AllOnes(lens, k - 1);
    }
  }

  lemma {:induction false} OnesBelow(lens: seq<nat>, k: nat)
    requires k <= |lens|
    ensures Rank(lens, 1, k) <= NonZero(lens, k)
    decreases k
  {
    if k == 0 {
    } else {
      OnesBelow(lens, k - 1);
    }
  }

  lemma TwoNonZero(lens: seq<nat>, x: nat, y: nat)
    requires x < |lens| && y < |lens| && x != y && lens[x] != 0 && lens[y] != 0
    requires forall n :: 0 <= n < |lens| && lens[n] != 0 ==> n == x || n == y
    ensures NonZero(lens, |lens|) == 2
  {
    var zero: seq<nat> := seq(|lens|, _ => 0);
    NonZeroZeros(zero, |lens|);
    NonZeroUpdate(zero, |lens|, x, lens[x]);
    NonZeroUpdate(zero[x := lens[x]], |lens|, y, lens[y]);
    assert lens == zero[x := lens[x]][y := lens[y]];
  }

  /** With two symbols only, both codes are one bit. */
  lemma TwoSymbols(f: Forest, d: Desc, dl: seq<nat>, lens: seq<nat>, leaves: seq<nat>, cnt: seq<nat>)
    requires DescOk(d) && Assigned(f, d, dl, lens, leaves) && CountsOk(cnt, lens) && |leaves| == 2 && Distinct(leaves)
    requires (forall i :: 0 <= i < |leaves| ==> leaves[i] < d.elems)
             && KSum(cnt, d.maxLength, d.maxLength) == Pow2(d.maxLength)
    ensures forall i :: 0 <= i < 2 ==> lens[leaves[i]] == 1
  {
    hide Pow2, KSum, CountSum, NonZero, Count;
    TwoNonZero(lens, leaves[0], leaves[1]);
    CountsAgree(cnt, lens, d.maxLength);
    CountSumIs(cnt, lens, d.maxLength);
    RankSumNonZero(lens, |lens|, d.maxLength);
    TwoCodes(cnt, d.maxLength);
    CountIsRank(lens, 1);
    AllOnes(lens, |lens|);
  }

  // -------------------------------------------------------------- the largest code

  /** No symbol above the largest code has a length. */
  lemma TrimCount(lens: seq<nat>, m: nat, l: nat)
    requires m <= |lens| && l >= 1 && forall i :: m <= i < |lens| ==> lens[i] == 0
    ensures Count(lens[..m], l) == Count(lens, l)
  {
    RankPrefix(lens, m, l, m);
    RankTail(lens, m, l, |lens|);
  }

  lemma {:induction false} RankPrefix(lens: seq<nat>, m: nat, l: nat, k: nat)
    requires k <= m <= |lens|
    ensures Rank(lens[..m], l, k) == Rank(lens, l, k)
    decreases k
  {
    if k == 0 {
    } else {
      RankPrefix(lens, m, l, k - 1);
    }
  }

  lemma {:induction false} RankTail(lens: seq<nat>, m: nat, l: nat, k: nat)
    requires m <= k <= |lens| && l >= 1 && forall i :: m <= i < |lens| ==> lens[i] == 0
    ensures Rank(lens, l, k) == Rank(lens, l, m)
    decreases k
  {
    if k <= m {
    } else {
      RankTail(lens, m, l, k - 1);
    }
  }

  lemma {:induction false} TrimKraft(lens: seq<nat>, m: nat, l: nat)
    requires m <= |lens| && l <= MAX_BITS && forall i :: m <= i < |lens| ==> lens[i] == 0
    ensures Kraft(lens[..m], l) == Kraft(lens, l)
    decreases l
  {
    hide Shl, Count;
    if l == 0 {
    } else {
      TrimKraft(lens, m, l - 1);
      TrimCount(lens, m, l);
    }
  }

  lemma TrimComplete(lens: seq<nat>, m: nat)
    requires m <= |lens| && Complete(lens) && forall i :: m <= i < |lens| ==> lens[i] == 0
    ensures Complete(lens[..m])
  {
    hide Kraft;
    TrimKraft(lens, m, MAX_BITS);
  }

  // ------------------------------------------------------------------- build_tree

  lemma StartShape(f: Forest, d: Desc)
    requires DescOk(d) && |f.heap| == HEAP_SIZE && 2 <= f.heapLen <= d.elems && f.heapMax == HEAP_SIZE
    requires Nodes(f.heap, f.freq, f.depth) && |f.dl| == |f.freq| && 2 * d.elems <= |f.freq|
    requires OrderedFrom(f.heap, f.heapLen, f.freq, f.depth, 1)
    requires Distinct(Live(f)) && forall i :: 0 <= i < f.heapLen ==> Live(f)[i] < d.elems
    ensures Shape(f, d.elems, Live(f), d.elems)
  {
    hide OrderedFrom, Pow2;
    assert Done(f) == [] && Range(d.elems, d.elems) == [];
  }

  lemma StartHeights(f: Forest)
    requires f.heapLen < |f.heap| && Nodes(f.heap, f.freq, f.depth)
    requires forall i :: 0 <= i < f.heapLen ==>
               Live(f)[i] < |f.freq| && f.freq[Live(f)[i]] != 0 && f.depth[Live(f)[i]] == 0
    ensures Heights(f)
  {
    forall i, j | 1 <= i <= f.heapLen && 1 <= j <= f.heapLen
      ensures Tall(f.freq, f.depth, f.heap[i], f.heap[j])
    {
      assert Live(f)[i - 1] == f.heap[i];
    }
  }

  /** The live nodes after ordering are the symbols gathered before. */
  lemma StartLeaves(heap: seq<nat>, heap': seq<nat>, len: nat, freq: seq<nat>, elems: nat, max: nat)
    requires |heap| == |heap'| == HEAP_SIZE && len < HEAP_SIZE && elems <= |freq|
             && Gathered(heap, len, freq, elems, max)
    requires multiset(heap'[1..len + 1]) == multiset(heap[1..len + 1])
    ensures var leaves := heap'[1..len + 1];
            && Distinct(leaves) && (forall i :: 0 <= i < |leaves| ==> leaves[i] < elems && leaves[i] <= max)
            && (forall s :: 0 <= s < elems ==> (s in leaves <==> freq[s] != 0))
  {
    var leaves, syms := heap'[1..len + 1], heap[1..len + 1];
    assert Distinct(syms);
    forall i, j | 0 <= i < j < |leaves|
      ensures leaves[i] != leaves[j]
    {
      if leaves[i] == leaves[j] {
        Twice(leaves, i, j);
        DistinctOnce(syms, leaves[i]);
      }
    }
    forall s
      ensures s in leaves <==> s in syms
    {
      assert s in leaves <==> s in multiset(leaves);
      assert s in syms <==> s in multiset(syms);
    }
    forall s | 0 <= s < elems && freq[s] != 0
      ensures s in syms
    {
      var i :| 1 <= i <= len && heap[i] == s;
      assert syms[i - 1] == s;
    }
    forall i | 0 <= i < |leaves|
      ensures leaves[i] < elems && leaves[i] <= max && freq[leaves[i]] != 0
    {
      assert leaves[i] in syms;
      var j :| 0 <= j < |syms| && syms[j] == leaves[i];
    }
  }

  /** The tree grown over the symbols in use. */
  method Grow(freq: seq<nat>, dl: seq<nat>, heap0: seq<nat>, len: nat, max: nat, d: Desc)
    returns (f: Forest, ghost leaves: seq<nat>)
    requires DescOk(d) && |heap0| == HEAP_SIZE && 2 <= len <= d.elems && max < d.elems && 2 * d.elems <= |freq|
             && |dl| == |freq|
    requires Gathered(heap0, len, freq, d.elems, max) && forall i :: 0 <= i < HEAP_SIZE ==> heap0[i] < |freq|
    requires forall s :: 0 <= s < d.elems && freq[s] == 0 ==> dl[s] == 0
    ensures TreeOrder(f, d.elems, leaves) && Distinct(leaves) && |leaves| == len && |f.freq| == |f.dl|
            && 2 * d.elems <= |f.freq|
    ensures forall i :: 0 <= i < |leaves| ==> leaves[i] < d.elems && leaves[i] <= max
    ensures forall s :: 0 <= s < d.elems ==> (s in leaves <==> freq[s] != 0) && f.freq[s] == freq[s]
    ensures forall s :: 0 <= s < d.elems && s !in leaves ==> f.dl[s] == 0
    ensures Inside(leaves, f.freq) && d.elems + len - 1 <= |f.freq| == |f.depth|
    ensures Mass(Range(d.elems, d.elems + len - 1), f.freq) == B.HuffCost(Bag(leaves, f.freq))
    ensures f.freq[d.elems + len - 2] == Mass(leaves, f.freq) >= Phi(f.depth[d.elems + len - 2])
  {
    hide OrderedFrom, Gathered, TreeOrder, Pow2, Shape, Mass, Bag, B.HuffCost, Phi, Heights;
    var depth := seq(|freq|, _ => 0);
    var heap := Heapify(heap0, len, freq, depth);
    leaves := heap[1..len + 1];
    StartLeaves(heap0, heap, len, freq, d.elems, max);
    f := Forest(heap, len, HEAP_SIZE, freq, depth, dl);
    StartShape(f, d);
    StartHeights(f);
    f := GrowTree(f, d.elems, leaves);
    OrderSizes(f, d.elems, leaves);
  }

  // ---------------------------------------------------------------- forced symbols

  /** The static lengths of the forced symbols. */
  function StaticSum(forced: seq<nat>, statics: seq<nat>): int
    requires forall i :: 0 <= i < |forced| ==> forced[i] < |statics|
  {
    if forced == [] then 0 else statics[forced[0]] + StaticSum(forced[1..], statics)
  }

  lemma StaticSums(forced: seq<nat>, statics: seq<nat>)
    requires |forced| <= 2 && forall i :: 0 <= i < |forced| ==> forced[i] < |statics|
    ensures |forced| == 1 ==> StaticSum(forced, statics) == statics[forced[0]]
    ensures |forced| == 2 ==> StaticSum(forced, statics) == statics[forced[0]] + statics[forced[1]]
  {
    if |forced| == 1 {
      assert forced[1..] == [];
    } else if |forced| == 2 {
      assert forced[1..] == [forced[1]] && [forced[1]][1..] == [];
    }
  }

  method SumStatics(forced: seq<nat>, statics: seq<nat>) returns (r: int)
    requires |forced| <= 2 && forall i :: 0 <= i < |forced| ==> forced[i] < |statics|
    ensures r == StaticSum(forced, statics)
  {
    StaticSums(forced, statics);
    r := 0;
    if |forced| >= 1 {
      r := statics[forced[0]];
    }
    if |forced| == 2 {
      r := r + statics[forced[1]];
    }
  }

  lemma WeightOne(l: nat)
    ensures Weight(1, l, 0) == l
  {
  }

  /** One occurrence of each forced symbol adds its length. */
  lemma ForcedCost(freq0: seq<nat>, freq: seq<nat>, forced: seq<nat>, lens: seq<nat>, extra: seq<nat>, n: nat)
    requires n <= |freq0| == |freq| && n <= |lens| && n <= |extra| && |forced| <= 2 && Distinct(forced)
    requires forall i :: 0 <= i < |forced| ==> forced[i] < n && freq0[forced[i]] == 0 && extra[forced[i]] == 0
    requires forall s :: 0 <= s < |freq| ==> freq[s] == if s in forced then 1 else freq0[s]
    ensures FullCost(freq, lens, extra, n) == FullCost(freq0, lens, extra, n) + StaticSum(forced, lens)
  {
    hide FullCost, StaticSum;
    StaticSums(forced, lens);
    if |forced| == 0 {
      assert freq == freq0;
      NoStatics(lens);
    } else if |forced| == 1 {
      ForcedOne(freq0, forced[0], lens, extra, n);
      assert freq == freq0[forced[0] := 1];
    } else {
      var f := freq0[forced[0] := 1];
      ForcedOne(freq0, forced[0], lens, extra, n);
      ForcedOne(f, forced[1], lens, extra, n);
      assert freq == f[forced[1] := 1];
    }
  }

  lemma NoStatics(lens: seq<nat>)
    ensures StaticSum([], lens) == 0
  {
  }

  lemma ForcedOne(freq: seq<nat>, a: nat, lens: seq<nat>, extra: seq<nat>, n: nat)
    requires a < n <= |freq| && n <= |lens| && n <= |extra| && freq[a] == 0 && extra[a] == 0
    ensures FullCost(freq[a := 1], lens, extra, n) == FullCost(freq, lens, extra, n) + lens[a]
  {
    hide FullCost, Weight;
    FullCostUpdate(freq, lens, extra, n, a, 1);
    WeightNone(lens[a], extra[a]);
    WeightOne(lens[a]);
  }

  lemma {:induction false} FullCostTail(freq: seq<nat>, lens: seq<nat>, extra: seq<nat>, m: nat, n: nat)
    requires m <= n <= |freq| && n <= |lens| && n <= |extra| && forall i :: m <= i < n ==> freq[i] == 0
    ensures FullCost(freq, lens, extra, n) == FullCost(freq, lens, extra, m)
    decreases n
  {
    hide Weight;
    if n <= m {
    } else {
      FullCostTail(freq, lens, extra, m, n - 1);
      WeightNone(lens[n - 1], extra[n - 1]);
    }
  }

  lemma {:induction false} FullCostTrim(freq: seq<nat>, lens: seq<nat>, extra: seq<nat>, m: nat, n: nat)
    requires n <= m <= |lens| && n <= |freq| && n <= |extra|
    ensures FullCost(freq, lens[..m], extra, n) == FullCost(freq, lens, extra, n)
    decreases n
  {
    hide Weight;
    if n == 0 {
    } else {
      FullCostTrim(freq, lens, extra, m, n - 1);
    }
  }

  /** The forced symbols' share of the cost is what was taken off before. */
  lemma CostsBalance(freq0: seq<nat>, freq: seq<nat>, ffreq: seq<nat>, forced: seq<nat>, d: Desc, lens: seq<nat>,
                     opt: int, stat: int)
    requires DescOk(d) && |freq| == |freq0| && d.elems <= |freq| && d.elems <= |ffreq| && |lens| == d.elems
    requires |forced| <= 2 && Distinct(forced)
             && forall i :: 0 <= i < |forced| ==> forced[i] < 3 && freq0[forced[i]] == 0
    requires forall s :: 0 <= s < |freq| ==> freq[s] == if s in forced then 1 else freq0[s]
    requires forall s :: 0 <= s < d.elems ==> ffreq[s] == freq[s] && (lens[s] != 0 <==> freq[s] != 0)
    requires forall i :: 0 <= i < |forced| ==> lens[forced[i]] == 1
    requires Costs(ffreq, d, lens, opt, stat)
    ensures opt - |forced| == FullCost(freq0, lens, d.extra, d.elems)
    ensures stat - (if d.hasStatic then StaticSum(forced, d.statics) else 0)
         == if d.hasStatic then FullCost(freq0, d.statics, d.extra, d.elems) else 0
  {
    hide FullCost, Cost, Weight, Pow2;
    var n := d.elems;
    CostIsFull(ffreq, lens, lens, d.extra, n);
    CostIsFull(ffreq, Used(lens, d.statics), d.statics, d.extra, n);
    assert ffreq[..n] == freq[..n];
    FullCostPrefix(ffreq, freq, lens, d.extra, n);
    FullCostPrefix(ffreq, freq, d.statics, d.extra, n);
    ForcedCost(freq0, freq, forced, lens, d.extra, n);
    ForcedCost(freq0, freq, forced, d.statics, d.extra, n);
    OnesSum(forced, lens);
  }

  lemma OnesSum(forced: seq<nat>, lens: seq<nat>)
    requires |forced| <= 2 && forall i :: 0 <= i < |forced| ==> forced[i] < |lens| && lens[forced[i]] == 1
    ensures StaticSum(forced, lens) == |forced|
  {
    StaticSums(forced, lens);
  }

  /** A code does not depend on symbols without a length. */
  lemma CodeTrim(lens: seq<nat>, m: nat, n: nat)
    requires n < m <= |lens| && forall i :: m <= i < |lens| ==> lens[i] == 0
    ensures Code(lens[..m], n) == Code(lens, n)
  {
    hide Rev, Rank, FirstCode;
    assert lens[..m][n] == lens[n];
    FirstCodeTrim(lens, m, lens[n]);
    RankPrefix(lens, m, lens[n], n);
  }

  lemma {:induction false} FirstCodeTrim(lens: seq<nat>, m: nat, l: nat)
    requires m <= |lens| && forall i :: m <= i < |lens| ==> lens[i] == 0
    ensures FirstCode(lens[..m], l) == FirstCode(lens, l)
    decreases l
  {
    hide Count;
    if l <= 1 {
    } else {
      FirstCodeTrim(lens, m, l - 1);
      TrimCount(lens, m, l - 1);
    }
  }

  lemma TreeTrim(tree: Tree, lens: seq<nat>, m: nat)
    requires m <= |lens| && LensOk(lens) && forall i :: m <= i < |lens| ==> lens[i] == 0
    requires tree.len == lens && |tree.code| == |lens|
    ensures TreeFor(tree, lens[..m]) <==> TreeFor(tree, lens)
  {
    hide Code;
    forall n | 0 <= n < m
      ensures Code(lens[..m], n) == Code(lens, n)
    {
      CodeTrim(lens, m, n);
    }
  }

  /** Codes for the symbols up to the largest one in use. */
  method MakeCodes(len: seq<nat>, maxCode: nat, blCount: seq<nat>) returns (tree: Tree)
    requires maxCode < |len| && LensOk(len) && forall i :: maxCode < i < |len| ==> len[i] == 0
    requires NotOver(len[..maxCode + 1]) && CountsOk(blCount, len[..maxCode + 1])
    ensures TreeFor(tree, len) && TreeFor(tree, len[..maxCode + 1])
  {
    hide NotOver, Count, Code;
    var bl := new nat[MAX_BITS + 1](i requires 0 <= i <= MAX_BITS => blCount[i]);
    var code := new nat[|len|](_ => 0);
    GenCodes(len[..maxCode + 1], bl, code);
    tree := Tree(code[..], len);
    TreeTrim(tree, len, maxCode + 1);
  }

  lemma CountsTrim(cnt: seq<nat>, lens: seq<nat>, m: nat)
    requires CountsOk(cnt, lens) && m <= |lens| && forall i :: m <= i < |lens| ==> lens[i] == 0
    ensures CountsOk(cnt, lens[..m])
  {
    hide Count;
    var r := lens[..m];
    forall l | 1 <= l <= MAX_BITS
      ensures Count(r, l) == Count(lens, l)
    {
      TrimCount(lens, m, l);
    }
  }

  lemma CompleteNotOver(lens: seq<nat>)
    requires Complete(lens)
    ensures NotOver(lens)
  {
  }

  /** So few symbols that no code gets too long. */
  predicate Light(freq: seq<nat>, d: Desc)
    requires d.elems <= |freq|
  {
    FreqSum(freq, d.elems) + 2 < Phi(d.maxLength + 1)
  }

  /** At most one symbol occurs. */
  predicate Single(freq: seq<nat>, n: nat)
    requires n <= |freq|
  {
    forall i, j :: 0 <= i < n && 0 <= j < n && freq[i] != 0 && freq[j] != 0 ==> i == j
  }

  /** The nodes' frequencies and heights fit their fields of 16 and of 8 bits. */
  ghost predicate FieldsFit(f: Forest) {
    && |f.heap| == HEAP_SIZE && f.heapMax <= HEAP_SIZE && |f.freq| == |f.depth|
    && forall p :: f.heapMax <= p < HEAP_SIZE ==>
         f.heap[p] < |f.freq| && f.freq[f.heap[p]] < 65536 && f.depth[f.heap[p]] < 256
  }

  /** The height of a tree is limited by what it weighs. */
  lemma HeightLimit(weight: nat, depth: nat, max: nat)
    requires weight >= Phi(depth) && weight < Phi(max + 1)
    ensures depth <= max
  {
    hide Phi;
    if depth > max {
      PhiMono(max + 1, depth);
    }
  }

  lemma AllFit(f: Forest, elems: nat, leaves: seq<nat>)
    requires Bounded(f, elems, leaves) && Phi(f.depth[elems + |leaves| - 2]) <= f.freq[elems + |leaves| - 2] < 46368
    ensures FieldsFit(f)
  {
    hide Phi;
    PhiValues();
    HeightLimit(f.freq[elems + |leaves| - 2], f.depth[elems + |leaves| - 2], 21);
  }

  lemma {:induction false} ForcedMass(freq0: seq<nat>, freq: seq<nat>, forced: seq<nat>, n: nat)
    requires 3 <= n <= |freq| == |freq0| && |forced| <= 2 && Distinct(forced)
             && forall i :: 0 <= i < |forced| ==> forced[i] < 3
    requires forall s :: 0 <= s < n ==> freq[s] <= freq0[s] + if s in forced then 1 else 0
    ensures FreqSum(freq, n) <= FreqSum(freq0, n) + 2
    decreases n
  {
    if n == 3 {
      ForcedThree(freq0, freq, forced);
    } else {
      ForcedMass(freq0, freq, forced, n - 1);
    }
  }

  lemma ForcedThree(freq0: seq<nat>, freq: seq<nat>, forced: seq<nat>)
    requires 3 <= |freq| == |freq0| && |forced| <= 2 && Distinct(forced)
    requires forall s :: 0 <= s < 3 ==> freq[s] <= freq0[s] + if s in forced then 1 else 0
    ensures FreqSum(freq, 3) <= FreqSum(freq0, 3) + 2
  {
    assert FreqSum(freq, 1) == freq[0] && FreqSum(freq0, 1) == freq0[0];
    assert FreqSum(freq, 2) == freq[0] + freq[1] && FreqSum(freq0, 2) == freq0[0] + freq0[1];
    assert !(0 in forced && 1 in forced && 2 in forced);
  }

  /** build_tree: a complete code of at most maxLength bits for any frequencies, with
      a code for every symbol that occurs, and the exact number of bits it takes.  If no
      length had to be cut, no prefix code takes fewer. */
  method BuildTree(freq0: seq<nat>, dl0: seq<nat>, d: Desc, opt0: int, stat0: int)
    returns (tree: Tree, maxCode: nat, opt: int, stat: int, ghost lens: seq<nat>, ghost made: Forest)
    requires DescOk(d) && 2 * d.elems <= |freq0| && |dl0| == |freq0|
    ensures maxCode < d.elems && |lens| == d.elems && TreeFor(tree, lens) && TreeFor(tree, lens[..maxCode + 1])
    ensures Complete(lens) && Complete(lens[..maxCode + 1])
    ensures forall n :: 0 <= n < d.elems ==> lens[n] <= d.maxLength && (n > maxCode ==> lens[n] == 0)
    ensures forall n :: 0 <= n < d.elems && freq0[n] != 0 ==> n <= maxCode && lens[n] != 0
    ensures opt == opt0 + FullCost(freq0, lens, d.extra, d.elems)
    ensures stat == stat0 + if d.hasStatic then FullCost(freq0, d.statics, d.extra, d.elems) else 0
    ensures Light(freq0, d) ==> Cheapest(freq0, lens, d.elems)
    ensures Single(freq0, d.elems) ==> forall n :: 0 <= n < d.elems && freq0[n] != 0 ==> lens[n] == 1
    ensures !Single(freq0, d.elems) ==> forall n :: 0 <= n < d.elems && lens[n] != 0 ==> freq0[n] != 0
    ensures FreqSum(freq0, d.elems) <= 32768 ==> FieldsFit(made)
  {
    hide Light, Single, Cheapest, FieldsFit, TreeLens, Bounded, Mass, Bag, B.HuffCost, Phi, FreqSum;
    hide Gathered, TreeOrder, Pow2, Complete, Costs, CountsOk, FullCost, TreeFor, Assigned, KSum, LensOk, NotOver;
    var heap, len, max, dl1 := Gather(freq0, dl0, d.elems);
    var freq, forced;
    heap, len, freq, maxCode, forced := ForceTwo(heap, len, freq0, d.elems, max);
    opt, stat := opt0 - |forced|, stat0;
    if d.hasStatic {
      var off := SumStatics(forced, d.statics);
      stat := stat - off;
    }
    var f;
    ghost var leaves;
    f, leaves := Grow(freq, dl1, heap, len, maxCode, d);
    var dl, blCount;
    ghost var opt1, stat1 := opt, stat;
    dl, blCount, opt, stat, lens := GenBitlen(f, d, opt, stat, maxCode, leaves);
    AssignedFacts(f, d, dl, lens, leaves);
    ForcedLengths(f, d, dl, lens, leaves, blCount, forced, freq);
    CostsBalance(freq0, freq, f.freq, forced, d, lens, opt - opt1, stat - stat1);
    var len' := dl[..d.elems];
    assert len' == lens;
    TrimComplete(lens, maxCode + 1);
    CountsTrim(blCount, lens, maxCode + 1);
    made := f;
    MadeFacts(freq0, freq, f, forced, d, dl, lens, leaves);
    CompleteNotOver(lens[..maxCode + 1]);
    ShortLens(lens, d.maxLength);
    tree := MakeCodes(len', maxCode, blCount);
  }

  lemma ShortLens(lens: seq<nat>, max: nat)
    requires max <= MAX_BITS && forall n :: 0 <= n < |lens| ==> lens[n] <= max
    ensures LensOk(lens)
  {
  }

  lemma AssignedFacts(f: Forest, d: Desc, dl: seq<nat>, lens: seq<nat>, leaves: seq<nat>)
    requires Assigned(f, d, dl, lens, leaves)
    ensures |lens| == d.elems <= |dl| == |f.dl| && forall n :: 0 <= n < d.elems ==> (n in leaves <==> lens[n] != 0)
    ensures forall n :: 0 <= n < d.elems ==>
              lens[n] <= d.maxLength && (n in leaves ==> dl[n] == lens[n]) && (n !in leaves ==> dl[n] == f.dl[n])
  {
  }

  lemma ForcedLengths(f: Forest, d: Desc, dl: seq<nat>, lens: seq<nat>, leaves: seq<nat>, cnt: seq<nat>,
                      forced: seq<nat>, freq: seq<nat>)
    requires DescOk(d) && Assigned(f, d, dl, lens, leaves) && CountsOk(cnt, lens) && Distinct(leaves)
             && d.elems <= |freq|
    requires (forall i :: 0 <= i < |leaves| ==> leaves[i] < d.elems)
    requires |cnt| == MAX_BITS + 1 && KSum(cnt, d.maxLength, d.maxLength) == Pow2(d.maxLength)
    requires forced != [] ==> |leaves| == 2
    requires forall i :: 0 <= i < |forced| ==> forced[i] < 3 && forced[i] in leaves
    ensures forall i :: 0 <= i < |forced| ==> lens[forced[i]] == 1
    ensures forced != [] ==> forall i :: 0 <= i < |leaves| ==> lens[leaves[i]] == 1
  {
    hide KSum, Pow2, CountsOk;
    if forced != [] {
      TwoSymbols(f, d, dl, lens, leaves, cnt);
    }
  }

  lemma ForcedSingle(freq0: seq<nat>, freq: seq<nat>, forced: seq<nat>, leaves: seq<nat>, n: nat)
    requires n <= |freq| == |freq0| && |leaves| == 2 && forced != []
             && forall i :: 0 <= i < |forced| ==> forced[i] < n && freq0[forced[i]] == 0
    requires forall s :: 0 <= s < n ==>
               (s in leaves <==> freq[s] != 0) && freq[s] == if s in forced then 1 else freq0[s]
    ensures Single(freq0, n)
  {
    var x := forced[0];
    assert x in forced && x in leaves;
    forall i, j | 0 <= i < n && 0 <= j < n && freq0[i] != 0 && freq0[j] != 0
      ensures i == j
    {
      assert i !in forced && j !in forced && i in leaves && j in leaves && i != x && j != x;
    }
  }

  /** What the tree says of its code and of its fields. */
  lemma MadeFacts(freq0: seq<nat>, freq: seq<nat>, f: Forest, forced: seq<nat>, d: Desc, dl: seq<nat>, lens: seq<nat>,
                  leaves: seq<nat>)
    requires DescOk(d) && |freq| == |freq0| && d.elems <= |freq| && d.elems <= |f.freq| == |f.depth|
             && |lens| == d.elems <= |dl|
    requires Distinct(forced) && (forced != [] ==> |leaves| == 2) && |leaves| >= 2 && |forced| <= 2
    requires (forall i :: 0 <= i < |forced| ==> forced[i] < 3) && forall s :: 0 <= s < |freq| ==>
               freq[s] == if s in forced then 1 else freq0[s]
    requires Distinct(leaves) && (forall i :: 0 <= i < |leaves| ==> leaves[i] < d.elems)
    requires forall s :: 0 <= s < d.elems ==>
               (s in leaves <==> freq[s] != 0) && f.freq[s] == freq[s] && (s in leaves ==> dl[s] == lens[s])
    requires d.elems + |leaves| - 1 <= |f.freq| && Bounded(f, d.elems, leaves)
    requires f.depth[d.elems + |leaves| - 2] <= d.maxLength ==> TreeLens(f, d.elems, leaves, dl, 0)
    requires Inside(leaves, f.freq)
             && Mass(Range(d.elems, d.elems + |leaves| - 1), f.freq) == B.HuffCost(Bag(leaves, f.freq))
    requires f.freq[d.elems + |leaves| - 2] == Mass(leaves, f.freq) >= Phi(f.depth[d.elems + |leaves| - 2])
    requires forced != [] ==> forall i :: 0 <= i < |leaves| ==> lens[leaves[i]] == 1
    requires (forall i :: 0 <= i < |forced| ==> freq0[forced[i]] == 0) && forall s :: 0 <= s < d.elems ==>
               (lens[s] != 0 <==> s in leaves)
    ensures Light(freq0, d) ==> Cheapest(freq0, lens, d.elems)
    ensures Single(freq0, d.elems) ==> forall n :: 0 <= n < d.elems && freq0[n] != 0 ==> lens[n] == 1
    ensures !Single(freq0, d.elems) ==> forall n :: 0 <= n < d.elems && lens[n] != 0 ==> freq0[n] != 0
    ensures FreqSum(freq0, d.elems) <= 32768 ==> FieldsFit(f)
  {
    hide Pow2, TreeLens, Bounded, Mass, Bag, B.HuffCost, Phi, FreqSum, FieldsFit, Cheapest;
    var n, root := d.elems, d.elems + |leaves| - 2;
    CostOfLeaves(leaves, freq, lens, n);
    BagFrame(leaves, f.freq, freq);
    ForcedMass(freq0, freq, forced, n);
    if FreqSum(freq0, n) <= 32768 {
      AllFit(f, n, leaves);
    }
    if forced != [] {
      forall s | 0 <= s < n && freq0[s] != 0
        ensures lens[s] == 1
      {
        assert s in leaves;
      }
      OnesCheapest(freq0, lens, n);
      ForcedSingle(freq0, freq, forced, leaves, n);
    } else {
      assert leaves[0] in leaves && leaves[1] in leaves && leaves[0] != leaves[1];
      if Light(freq0, d) {
        HeightLimit(f.freq[root], f.depth[root], d.maxLength);
        TreeCheapest(f, n, leaves, dl, freq0, lens);
      }
    }
  }
}
