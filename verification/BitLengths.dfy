/** trees.c: gen_bitlen, which turns the tree into code lengths and, where these are
    too long, into others that still fill the code space exactly. */
module BitLengths {
  import opened Bits
  import opened Canonical
  import opened CodeSums
  import opened HuffmanTree
  import opened TreeList

  /** static_tree_desc: how many symbols, the longest code allowed, each symbol's
      extra bits and, if there is one, its length in the static tree. */
  datatype Desc = Desc(elems: nat, maxLength: nat, extra: seq<nat>, hasStatic: bool, statics: seq<nat>)

  predicate DescOk(d: Desc) {
    && 3 <= d.elems <= 286 && |d.extra| == d.elems && |d.statics| == d.elems && 1 <= d.maxLength <= MAX_BITS
    && d.elems <= Pow2(d.maxLength) && (forall i :: 0 <= i < d.elems ==> d.statics[i] > 0)
    && forall i :: 0 <= i < 3 ==> d.extra[i] == 0
  }

  // ------------------------------------------------------------------ bits needed

  /** The bits f occurrences of a symbol take with length l and x extra bits. */
  function Weight(f: nat, l: nat, x: nat): int {
    f * (l + x)
  }

  /** The bits of the first n symbols; those without a length take none. */
  function Cost(freq: seq<nat>, lens: seq<nat>, extra: seq<nat>, n: nat): int
    requires n <= |freq| && n <= |lens| && n <= |extra|
  {
    if n == 0 then 0
    else Cost(freq, lens, extra, n - 1) + if lens[n - 1] == 0 then 0 else Weight(freq[n - 1], lens[n - 1], extra[n - 1])
  }

  lemma {:induction false} CostUpdate(freq: seq<nat>, lens: seq<nat>, extra: seq<nat>, n: nat, s: nat, v: nat)
    requires n <= |freq| && n <= |lens| && n <= |extra| && s < |lens|
    ensures s < n ==>
              Cost(freq, lens[s := v], extra, n) + (if lens[s] == 0 then 0 else Weight(freq[s], lens[s], extra[s]))
              == Cost(freq, lens, extra, n) + (if v == 0 then 0 else Weight(freq[s], v, extra[s]))
    ensures s >= n ==> Cost(freq, lens[s := v], extra, n) == Cost(freq, lens, extra, n)
  {
    hide Weight;
    if n == 0 {
    } else {
      CostUpdate(freq, lens, extra, n - 1, s, v);
    }
  }

  /** The static lengths of the symbols that have a length. */
  function Used(lens: seq<nat>, statics: seq<nat>): (r: seq<nat>)
    requires |lens| == |statics|
    ensures |r| == |lens| && forall i :: 0 <= i < |lens| ==> r[i] == if lens[i] == 0 then 0 else statics[i]
  {
    seq(|lens|, i requires 0 <= i < |lens| => if lens[i] == 0 then 0 else statics[i])
  }

  // ----------------------------------------------------------------- the first pass

  /** What gen_bitlen updates. */
  datatype Tally = Tally(dl: seq<nat>, blCount: seq<nat>, overflow: nat, opt: int, stat: int)

  /** A son's length: one more than the father's, but not too long. */
  function SonLen(dad: nat, max: nat): (r: nat)
    ensures r <= max
  {
    if dad + 1 > max then max else dad + 1
  }

  function Total(cnt: seq<nat>, iw: seq<nat>, max: nat): nat
    requires max < |cnt|
  {
    KSum(cnt, max, max) + Sum(iw)
  }

  /** The part of it above the longest length. */
  function Short(cnt: seq<nat>, iw: seq<nat>, max: nat): nat
    requires 1 <= max < |cnt|
  {
    KSum(cnt, max, max - 1) + Sum(Big(iw))
  }

  predicate CountsOk(cnt: seq<nat>, lens: seq<nat>) {
    |cnt| == MAX_BITS + 1 && cnt[0] == 0 && forall l :: 1 <= l <= MAX_BITS ==> cnt[l] == Count(lens, l)
  }

  lemma CountsMore(cnt: seq<nat>, lens: seq<nat>, n: nat, bits: nat)
    requires CountsOk(cnt, lens) && n < |lens| && lens[n] == 0 && 1 <= bits <= MAX_BITS
    ensures CountsOk(cnt[bits := cnt[bits] + 1], lens[n := bits])
  {
    hide Count;
    var c, r := cnt[bits := cnt[bits] + 1], lens[n := bits];
    forall l | 1 <= l <= MAX_BITS
      ensures c[l] == Count(r, l)
    {
      CountUpdate(lens, n, bits, l);
    }
  }

  lemma LeafTotals(cnt: seq<nat>, iw: seq<nat>, max: nat, bits: nat)
    requires 1 <= bits <= max < |cnt|
    ensures var c := cnt[bits := cnt[bits] + 1];
            && Total(c, iw, max) == Total(cnt, iw, max) + Pow2(max - bits)
            && Short(c, iw, max) == Short(cnt, iw, max) + if bits < max then Pow2(max - bits) else 0
  {
    hide KSum, Pow2, Sum;
    KSumMore(cnt, max, max, bits);
    KSumMore(cnt, max, max - 1, bits);
  }

  lemma InnerTotals(cnt: seq<nat>, iw: seq<nat>, max: nat, bits: nat, i: nat)
    requires 1 <= max < |cnt| && bits <= max && i < |iw| && iw[i] == 0
    ensures var w := iw[i := Pow2(max - bits)];
            && Total(cnt, w, max) == Total(cnt, iw, max) + Pow2(max - bits)
            && Short(cnt, w, max) == Short(cnt, iw, max) + if bits < max then Pow2(max - bits) else 0
  {
    hide KSum, Sum;
    SumUpdate(iw, i, Pow2(max - bits));
    BigUpdate(iw, i, Pow2(max - bits));
  }

  lemma ExpandTotals(cnt: seq<nat>, iw: seq<nat>, max: nat, bits: nat, i: nat)
    requires 1 <= max < |cnt| && bits <= max && i < |iw| && iw[i] == Pow2(max - bits)
    ensures var w := iw[i := 0];
            && Total(cnt, w, max) + Pow2(max - bits) == Total(cnt, iw, max)
            && Short(cnt, w, max) + (if bits < max then Pow2(max - bits) else 0) == Short(cnt, iw, max)
            && (bits == max ==> Short(cnt, iw, max) < Total(cnt, iw, max))
  {
    hide KSum, Sum;
    SumUpdate(iw, i, 0);
    BigUpdate(iw, i, 0);
    if bits == max {
      BigStrict(iw, i);
      KSumMono(cnt, max);
    }
  }

  lemma KSumMono(cnt: seq<nat>, max: nat)
    requires 1 <= max < |cnt|
    ensures KSum(cnt, max, max) == KSum(cnt, max, max - 1) + cnt[max]
  {
    ShlNone(cnt[max]);
  }

  // a node's length, where the proof keeps it
  ghost function Mark(d: Desc, iw: seq<nat>, n: nat, bits: nat): (r: seq<nat>)
    ensures |r| == |iw| && forall i :: 0 <= i < |iw| && i != n - d.elems ==> r[i] == iw[i]
  {
    if d.elems <= n < d.elems + |iw| && bits <= d.maxLength then iw[n - d.elems := Pow2(d.maxLength - bits)] else iw
  }

  ghost function Enter(d: Desc, lens: seq<nat>, n: nat, bits: nat): (r: seq<nat>)
    requires |lens| == d.elems
    ensures |r| == |lens| && forall i :: 0 <= i < |lens| && i != n ==> r[i] == lens[i]
  {
    if n < d.elems then lens[n := bits] else lens
  }

  /** One node of the list gets its length. */
  method SetLen(t: Tally, n: nat, d: Desc, freq: seq<nat>, maxCode: nat, ghost iw: seq<nat>, ghost lens: seq<nat>)
    returns (t': Tally, ghost iw': seq<nat>, ghost lens': seq<nat>)
    requires DescOk(d) && |t.dl| == |freq| && n < |t.dl| && t.dl[n] < |t.dl| && |lens| == d.elems && maxCode < d.elems
    requires CountsOk(t.blCount, lens) && t.dl[t.dl[n]] <= d.maxLength
    requires if n < d.elems then n <= maxCode && n < |freq| && lens[n] == 0
             else n - d.elems < |iw| && iw[n - d.elems] == 0
    ensures var bits, m := SonLen(t.dl[t.dl[n]], d.maxLength), d.maxLength;
            && t'.dl == t.dl[n := bits] && CountsOk(t'.blCount, lens')
            && t'.overflow == t.overflow + (if t.dl[t.dl[n]] + 1 > m then 1 else 0)
            && Total(t'.blCount, iw', m) == Total(t.blCount, iw, m) + Pow2(m - bits)
            && Short(t'.blCount, iw', m) == Short(t.blCount, iw, m) + (if bits < m then Pow2(m - bits) else 0)
            && iw' == Mark(d, iw, n, bits) && lens' == Enter(d, lens, n, bits)
            && t'.opt == t.opt + (if n < d.elems then Weight(freq[n], bits, d.extra[n]) else 0)
            && t'.stat == t.stat + (if n < d.elems && d.hasStatic then Weight(freq[n], d.statics[n], d.extra[n]) else 0)
  {
    hide Total, Short, CountsOk, Pow2, Weight;
    var max := d.maxLength;
    var bits, overflow := t.dl[t.dl[n]] + 1, t.overflow;
    if bits > max {
      bits, overflow := max, overflow + 1;
    }
    iw', lens' := iw, lens;
    CountsSize(t.blCount, lens);
    t' := t.(dl := t.dl[n := bits], overflow := overflow);
    if n > maxCode {
      // not a leaf
      InnerTotals(t.blCount, iw, max, bits, n - d.elems);
      iw' := iw[n - d.elems := Pow2(max - bits)];
    } else {
      LeafTotals(t.blCount, iw, max, bits);
      CountsMore(t.blCount, lens, n, bits);
      lens' := lens[n := bits];
      t' := t'.(blCount := t.blCount[bits := t.blCount[bits] + 1],
                opt := t.opt + Weight(freq[n], bits, d.extra[n]),
                stat := t.stat + if d.hasStatic then Weight(freq[n], d.statics[n], d.extra[n]) else 0);
    }
  }

  lemma CountsSize(cnt: seq<nat>, lens: seq<nat>)
    requires CountsOk(cnt, lens)
    ensures |cnt| == MAX_BITS + 1
  {
  }

  // ------------------------------------------------------------- the pass invariant

  predicate Processed(d: Desc, dl: seq<nat>, iw: seq<nat>, lens: seq<nat>, j: nat, x: nat)
    requires x < |dl| && |lens| == d.elems && x < d.elems + |iw|
  {
    if x < d.elems then 1 <= dl[x] <= d.maxLength && lens[x] == dl[x]
    else dl[x] <= d.maxLength && iw[x - d.elems] == if x >= d.elems + j then 0 else Pow2(d.maxLength - dl[x])
  }

  predicate Waiting(d: Desc, dl0: seq<nat>, dl: seq<nat>, iw: seq<nat>, lens: seq<nat>, x: nat)
    requires x < |dl| && x < |dl0| && |lens| == d.elems && x < d.elems + |iw|
  {
    dl[x] == dl0[x] && if x < d.elems then lens[x] == 0 else iw[x - d.elems] == 0
  }

  /** With j pairs to go, all nodes before them have their lengths. */
  ghost predicate Lengths(f: Forest, d: Desc, dl: seq<nat>, iw: seq<nat>, lens: seq<nat>, leaves: seq<nat>, j: nat) {
    && TreeOrder(f, d.elems, leaves) && j <= |leaves| - 1 && |dl| == |f.dl| && |iw| == |leaves| - 1 && |lens| == d.elems
    && (forall p :: f.heapMax <= p < HEAP_SIZE ==> f.heap[p] < d.elems + |iw| && f.heap[p] < |dl|)
    && (forall p :: f.heapMax <= p < HEAP_SIZE - 2 * j ==> Processed(d, dl, iw, lens, j, f.heap[p]))
    && (forall p :: HEAP_SIZE - 2 * j <= p < HEAP_SIZE ==> Waiting(d, f.dl, dl, iw, lens, f.heap[p]))
    && (forall n :: 0 <= n < d.elems && n !in leaves ==> lens[n] == 0 && n < |dl| && dl[n] == f.dl[n])
  }

  /** The space taken is too much by one for each pair that is too deep, and the
      shorter lengths leave room. */
  predicate Space(cnt: seq<nat>, iw: seq<nat>, max: nat, overflow: nat)
    requires 1 <= max < |cnt|
  {
    && overflow % 2 == 0 && Total(cnt, iw, max) == Pow2(max) + overflow / 2
    && Short(cnt, iw, max) <= Pow2(max) && (overflow > 0 ==> Short(cnt, iw, max) < Pow2(max))
  }

  /** The space after a father with length dad gives way to two sons. */
  lemma SpaceStep(total: nat, short: nat, total': nat, short': nat, max: nat, overflow: nat, dad: nat)
    requires dad <= max && 1 <= max
    requires overflow % 2 == 0 && total == Pow2(max) + overflow / 2 && short <= Pow2(max)
             && (overflow > 0 ==> short < Pow2(max))
    requires dad == max ==> short < total
    requires var w := Pow2(max - SonLen(dad, max));
             && total' + Pow2(max - dad) == total + w + w
             && short' + (if dad < max then Pow2(max - dad) else 0)
                == short + if SonLen(dad, max) < max then w + w else 0
    ensures var o := overflow + if dad + 1 > max then 2 else 0;
            && o % 2 == 0 && total' == Pow2(max) + o / 2 && short' <= Pow2(max) && (o > 0 ==> short' < Pow2(max))
  {
    if dad < max {
      assert Pow2(max - dad) == 2 * Pow2(max - dad - 1);
    }
  }

  /** The next pair of brothers waits for its length, and their father has his. */
  ghost predicate PairReady(f: Forest, d: Desc, dl: seq<nat>, iw: seq<nat>, lens: seq<nat>, leaves: seq<nat>, j: nat,
                            a: nat, b: nat) {
    && 1 <= j <= |iw| && |lens| == d.elems && |dl| == |f.dl| && a != b && d.elems + j - 1 < |dl|
    && a < d.elems + j - 1 && b < d.elems + j - 1
    && dl[a] == d.elems + j - 1 && dl[b] == d.elems + j - 1
    && Waiting(d, f.dl, dl, iw, lens, a) && Waiting(d, f.dl, dl, iw, lens, b)
    && dl[d.elems + j - 1] <= d.maxLength && iw[j - 1] == Pow2(d.maxLength - dl[d.elems + j - 1])
    && (a < d.elems ==> a in leaves) && (b < d.elems ==> b in leaves)
  }

  lemma PairFacts(f: Forest, d: Desc, dl: seq<nat>, iw: seq<nat>, lens: seq<nat>, leaves: seq<nat>, j: nat)
    requires Lengths(f, d, dl, iw, lens, leaves, j) && j >= 1
    ensures f.heapMax < HEAP_SIZE - 2 * j
    ensures PairReady(f, d, dl, iw, lens, leaves, j, f.heap[HEAP_SIZE - 2 * j], f.heap[HEAP_SIZE - 2 * j + 1])
  {
    hide Pow2;
    var p := HEAP_SIZE - 2 * j;
    assert PairAt(f, d.elems, j);
    ListOnce(f, d.elems, leaves, p, p + 1);
    ListNode(f, d.elems, leaves, p);
    ListNode(f, d.elems, leaves, p + 1);
    var q := DadBefore(f, d.elems, leaves, j);
    assert Processed(d, dl, iw, lens, j, f.heap[q]);
  }

  /** The lengths after a pair. */
  lemma LengthsNext(f: Forest, d: Desc, dl: seq<nat>, iw: seq<nat>, lens: seq<nat>, leaves: seq<nat>, j: nat,
                    dl': seq<nat>, iw': seq<nat>, lens': seq<nat>, bits: nat)
    requires Lengths(f, d, dl, iw, lens, leaves, j) && j >= 1 && 1 <= bits <= d.maxLength
    requires var p := HEAP_SIZE - 2 * j;
             var a, b := f.heap[p], f.heap[p + 1];
             PairReady(f, d, dl, iw, lens, leaves, j, a, b) && PairDone(d, dl, iw, lens, j, a, b, bits, dl', iw', lens')
    ensures Lengths(f, d, dl', iw', lens', leaves, j - 1)
  {
    hide Pow2, Processed, Waiting, TreeOrder, Pairs;
    OrderSizes(f, d.elems, leaves);
    var p := HEAP_SIZE - 2 * j;
    var a, b := f.heap[p], f.heap[p + 1];
    forall q | f.heapMax <= q < HEAP_SIZE - 2 * (j - 1)
      ensures Processed(d, dl', iw', lens', j - 1, f.heap[q])
    {
      if q < p {
        assert Processed(d, dl, iw, lens, j, f.heap[q]);
        ListOnce(f, d.elems, leaves, q, p);
        ListOnce(f, d.elems, leaves, q, p + 1);
        StillProcessed(d, dl, iw, lens, j, a, b, bits, dl', iw', lens', f.heap[q]);
      } else {
        NowProcessed(f, d, dl, iw, lens, leaves, j, a, b, bits, dl', iw', lens', f.heap[q]);
      }
    }
    forall q | HEAP_SIZE - 2 * (j - 1) <= q < HEAP_SIZE
      ensures Waiting(d, f.dl, dl', iw', lens', f.heap[q])
    {
      assert Waiting(d, f.dl, dl, iw, lens, f.heap[q]);
      ListOnce(f, d.elems, leaves, q, p);
      ListOnce(f, d.elems, leaves, q, p + 1);
      FewerPairs(f, d.elems, |leaves| - 1, j - 1);
      PairOf(f, d.elems, j - 1, q);
      StillWaiting(f, d, dl, iw, lens, j, a, b, bits, dl', iw', lens', f.heap[q]);
    }
  }

  /** The changes a pair makes. */
  predicate PairDone(d: Desc, dl: seq<nat>, iw: seq<nat>, lens: seq<nat>, j: nat, a: nat, b: nat, bits: nat,
                  dl': seq<nat>, iw': seq<nat>, lens': seq<nat>)
  {
    && a < |dl| && b < |dl| && 1 <= j <= |iw| == |iw'| && |lens| == |lens'| == d.elems && bits <= d.maxLength
    && a < d.elems + |iw| && b < d.elems + |iw|
    && dl' == dl[a := bits][b := bits]
    && (forall n :: 0 <= n < d.elems ==> lens'[n] == if n == a || n == b then bits else lens[n])
    && (forall i :: 0 <= i < |iw| ==>
          iw'[i] == if i + d.elems == a || i + d.elems == b then Pow2(d.maxLength - bits)
                    else if i == j - 1 then 0
                    else iw[i])
  }

  lemma SonsAfter(d: Desc, dl: seq<nat>, iw: seq<nat>, lens: seq<nat>, j: nat, a: nat, b: nat, bits: nat)
    requires 1 <= j <= |iw| && |lens| == d.elems && a < d.elems + j - 1 && b < d.elems + j - 1 && a != b
    requires a < |dl| && b < |dl| && bits <= d.maxLength
    ensures PairDone(d, dl, iw, lens, j, a, b, bits, dl[a := bits][b := bits],
                  Mark(d, Mark(d, iw[j - 1 := 0], a, bits), b, bits), Enter(d, Enter(d, lens, a, bits), b, bits))
  {
    hide Pow2;
  }

  lemma StillProcessed(d: Desc, dl: seq<nat>, iw: seq<nat>, lens: seq<nat>, j: nat, a: nat, b: nat, bits: nat,
                       dl': seq<nat>, iw': seq<nat>, lens': seq<nat>, x: nat)
    requires PairDone(d, dl, iw, lens, j, a, b, bits, dl', iw', lens') && x < |dl| && x < d.elems + |iw|
    requires Processed(d, dl, iw, lens, j, x) && x != a && x != b
    ensures Processed(d, dl', iw', lens', j - 1, x)
  {
    hide Pow2;
  }

  lemma NowProcessed(f: Forest, d: Desc, dl: seq<nat>, iw: seq<nat>, lens: seq<nat>, leaves: seq<nat>, j: nat, a: nat,
                     b: nat, bits: nat, dl': seq<nat>, iw': seq<nat>, lens': seq<nat>, x: nat)
    requires PairReady(f, d, dl, iw, lens, leaves, j, a, b) && 1 <= bits
    requires PairDone(d, dl, iw, lens, j, a, b, bits, dl', iw', lens') && (x == a || x == b)
    ensures Processed(d, dl', iw', lens', j - 1, x)
  {
    hide Pow2;
  }

  lemma StillWaiting(f: Forest, d: Desc, dl: seq<nat>, iw: seq<nat>, lens: seq<nat>, j: nat, a: nat, b: nat, bits: nat,
                     dl': seq<nat>, iw': seq<nat>, lens': seq<nat>, x: nat)
    requires PairDone(d, dl, iw, lens, j, a, b, bits, dl', iw', lens') && x < |dl| && x < |f.dl| && x < d.elems + |iw|
    requires Waiting(d, f.dl, dl, iw, lens, x) && x != a && x != b
    ensures Waiting(d, f.dl, dl', iw', lens', x)
  {
    hide Pow2;
  }

  /** Both sums of a pass: what its symbols cost. */
  predicate Costs(freq: seq<nat>, d: Desc, lens: seq<nat>, opt: int, stat: int)
    requires |lens| == d.elems <= |freq| && |d.extra| == d.elems && |d.statics| == d.elems
  {
    && opt == Cost(freq, lens, d.extra, d.elems)
    && stat == if d.hasStatic then Cost(freq, Used(lens, d.statics), d.extra, d.elems) else 0
  }

  lemma CostsMore(freq: seq<nat>, d: Desc, lens: seq<nat>, opt: int, stat: int, n: nat, bits: nat)
    requires DescOk(d) && |lens| == d.elems <= |freq| && Costs(freq, d, lens, opt, stat)
    requires n < d.elems && lens[n] == 0 && bits >= 1
    ensures Costs(freq, d, lens[n := bits], opt + Weight(freq[n], bits, d.extra[n]),
                  stat + if d.hasStatic then Weight(freq[n], d.statics[n], d.extra[n]) else 0)
  {
    hide Weight, Cost;
    CostUpdate(freq, lens, d.extra, d.elems, n, bits);
    assert Used(lens[n := bits], d.statics) == Used(lens, d.statics)[n := d.statics[n]];
    CostUpdate(freq, Used(lens, d.statics), d.extra, d.elems, n, d.statics[n]);
  }

  /** The state of the first pass with j pairs to go. */
  ghost predicate Pass(f: Forest, d: Desc, t: Tally, iw: seq<nat>, lens: seq<nat>, leaves: seq<nat>, j: nat,
                       t0: Tally) {
    && DescOk(d) && Lengths(f, d, t.dl, iw, lens, leaves, j) && CountsOk(t.blCount, lens)
    && Space(t.blCount, iw, d.maxLength, t.overflow)
    && |lens| == d.elems <= |f.freq| && Costs(f.freq, d, lens, t.opt - t0.opt, t.stat - t0.stat)
  }

  /** Two brothers get their lengths. */
  method SetPair(f: Forest, d: Desc, t: Tally, maxCode: nat, h: nat, ghost iw: seq<nat>, ghost lens: seq<nat>,
                 ghost leaves: seq<nat>, ghost j: nat, ghost t0: Tally)
    returns (t': Tally, ghost iw': seq<nat>, ghost lens': seq<nat>)
    requires Pass(f, d, t, iw, lens, leaves, j, t0) && j >= 1 && h == HEAP_SIZE - 2 * j && |f.heap| == HEAP_SIZE
    requires maxCode < d.elems && forall i :: 0 <= i < |leaves| ==> leaves[i] <= maxCode
    ensures Pass(f, d, t', iw', lens', leaves, j - 1, t0)
    ensures PairSet(f, d.elems, d.maxLength, t.dl, t'.dl, j)
    ensures t'.overflow == t.overflow + if t.dl[d.elems + j - 1] + 1 > d.maxLength then 2 else 0
  {
    hide Pow2, TreeOrder, Lengths, Total, Short, Costs, Weight, CountsOk, PairDone, Mark, Enter;
    LengthsSizes(f, d, t.dl, iw, lens, leaves, j);
    PairFacts(f, d, t.dl, iw, lens, leaves, j);
    CountsSize(t.blCount, lens);
    var a, b := f.heap[h], f.heap[h + 1];
    ghost var dad := d.elems + j - 1;
    ghost var len, max := t.dl[dad], d.maxLength;
    ghost var bits := SonLen(len, max);
    ExpandTotals(t.blCount, iw, max, len, j - 1);
    ghost var iw0 := iw[j - 1 := 0];
    ghost var iw1, lens1;
    t', iw1, lens1 := SetLen(t, a, d, f.freq, maxCode, iw0, lens);
    PairCost(f, d, t, t', lens, t0, a, bits);
    ghost var t1 := t';
    t', iw', lens' := SetLen(t', b, d, f.freq, maxCode, iw1, lens1);
    PairCost(f, d, t1, t', lens1, t0, b, bits);
    CountsSize(t1.blCount, lens1);
    CountsSize(t'.blCount, lens');
    SpaceStep(Total(t.blCount, iw, max), Short(t.blCount, iw, max), Total(t'.blCount, iw', max),
              Short(t'.blCount, iw', max), max, t.overflow, len);
    SonsAfter(d, t.dl, iw, lens, j, a, b, bits);
    LengthsNext(f, d, t.dl, iw, lens, leaves, j, t'.dl, iw', lens', bits);
  }

  lemma PairCost(f: Forest, d: Desc, t: Tally, t': Tally, lens: seq<nat>, t0: Tally, n: nat, bits: nat)
    requires DescOk(d) && |lens| == d.elems <= |f.freq| && Costs(f.freq, d, lens, t.opt - t0.opt, t.stat - t0.stat)
             && bits >= 1
    requires n < d.elems ==> lens[n] == 0
    requires t'.opt == t.opt + (if n < d.elems then Weight(f.freq[n], bits, d.extra[n]) else 0)
    requires t'.stat == t.stat + (if n < d.elems && d.hasStatic then Weight(f.freq[n], d.statics[n], d.extra[n]) else 0)
    ensures Costs(f.freq, d, Enter(d, lens, n, bits), t'.opt - t0.opt, t'.stat - t0.stat)
  {
    hide Costs, Weight;
    if n < d.elems {
      CostsMore(f.freq, d, lens, t.opt - t0.opt, t.stat - t0.stat, n, bits);
    }
  }

  lemma LengthsSizes(f: Forest, d: Desc, dl: seq<nat>, iw: seq<nat>, lens: seq<nat>, leaves: seq<nat>, j: nat)
    requires Lengths(f, d, dl, iw, lens, leaves, j)
    ensures TreeOrder(f, d.elems, leaves) && j <= |iw| == |leaves| - 1 && |lens| == d.elems
            && |dl| == |f.dl| == |f.freq|
  {
    hide Pow2;
  }

  lemma PassStart(f: Forest, d: Desc, leaves: seq<nat>, t: Tally)
    requires DescOk(d) && TreeOrder(f, d.elems, leaves) && t.dl == f.dl[f.heap[f.heapMax] := 0] && t.overflow == 0
    requires t.blCount == seq(MAX_BITS + 1, _ => 0)
    ensures var k := |leaves| - 1;
            Pass(f, d, t, seq(k, _ => 0)[k - 1 := Pow2(d.maxLength)], seq(d.elems, _ => 0), leaves, k, t)
  {
    hide Pow2, TreeOrder, Pairs;
    OrderSizes(f, d.elems, leaves);
    var k := |leaves| - 1;
    var iw, lens := seq(k, _ => 0)[k - 1 := Pow2(d.maxLength)], seq(d.elems, _ => 0);
    StartLengths(f, d, leaves, t.dl, iw, lens);
    StartSpace(t.blCount, d.maxLength, k);
    StartCounts(d, lens);
    StartCost(f.freq, d, lens);
  }

  lemma StartLengths(f: Forest, d: Desc, leaves: seq<nat>, dl: seq<nat>, iw: seq<nat>, lens: seq<nat>)
    requires TreeOrder(f, d.elems, leaves) && dl == f.dl[f.heap[f.heapMax] := 0]
    requires iw == seq(|leaves| - 1, _ => 0)[|leaves| - 2 := Pow2(d.maxLength)] && lens == seq(d.elems, _ => 0)
    ensures Lengths(f, d, dl, iw, lens, leaves, |leaves| - 1)
  {
    hide Pow2, Pairs;
    OrderSizes(f, d.elems, leaves);
    forall p | f.heapMax <= p < HEAP_SIZE
      ensures f.heap[p] < d.elems + |iw| && f.heap[p] < |dl|
      ensures p > f.heapMax ==> Waiting(d, f.dl, dl, iw, lens, f.heap[p])
    {
      ListNode(f, d.elems, leaves, p);
      if p > f.heapMax {
        ListOnce(f, d.elems, leaves, p, f.heapMax);
      }
    }
  }

  lemma StartSpace(cnt: seq<nat>, max: nat, k: nat)
    requires cnt == seq(MAX_BITS + 1, _ => 0) && 1 <= max <= MAX_BITS && k >= 1
    ensures Space(cnt, seq(k, _ => 0)[k - 1 := Pow2(max)], max, 0)
  {
    hide Pow2, KSum, Sum;
    var zero: seq<nat> := seq(k, _ => 0);
    KSumNone(cnt, max, max);
    KSumNone(cnt, max, max - 1);
    SumZero(zero);
    SumUpdate(zero, k - 1, Pow2(max));
    BigBelow(zero[k - 1 := Pow2(max)]);
  }

  lemma StartCounts(d: Desc, lens: seq<nat>)
    requires lens == seq(d.elems, _ => 0)
    ensures CountsOk(seq(MAX_BITS + 1, _ => 0), lens)
  {
    forall l | 1 <= l <= MAX_BITS
      ensures Count(lens, l) == 0
    {
      RankZeros(lens, l, |lens|);
    }
  }

  lemma StartCost(freq: seq<nat>, d: Desc, lens: seq<nat>)
    requires DescOk(d) && lens == seq(d.elems, _ => 0) && d.elems <= |freq|
    ensures Costs(freq, d, lens, 0, 0)
  {
    NoCost(freq, lens, d.extra, d.elems);
    NoCost(freq, Used(lens, d.statics), d.extra, d.elems);
  }

  lemma {:induction false} NoCost(freq: seq<nat>, lens: seq<nat>, extra: seq<nat>, n: nat)
    requires n <= |freq| && n <= |lens| && n <= |extra| && forall i :: 0 <= i < n ==> lens[i] == 0
    ensures Cost(freq, lens, extra, n) == 0
  {
    if n == 0 {
    } else {
      NoCost(freq, lens, extra, n - 1);
    }
  }

  /** The first pass: the lengths the tree gives, none above the limit. */
  method FirstPass(f: Forest, d: Desc, opt: int, stat: int, maxCode: nat, ghost leaves: seq<nat>)
    returns (t: Tally, ghost iw: seq<nat>, ghost lens: seq<nat>, ghost t0: Tally)
    requires DescOk(d) && TreeOrder(f, d.elems, leaves) && maxCode < d.elems
    requires forall i :: 0 <= i < |leaves| ==> leaves[i] <= maxCode
    ensures t0.opt == opt && t0.stat == stat && |leaves| >= 1
    ensures Pass(f, d, t, iw, lens, leaves, 0, t0) && TreeLens(f, d.elems, leaves, t.dl, 0)
    ensures d.elems + |leaves| - 2 < |f.depth| && (f.depth[d.elems + |leaves| - 2] <= d.maxLength ==> t.overflow == 0)
  {
    hide Pow2, TreeOrder, Pairs, Pass, TreeLens;
    OrderSizes(f, d.elems, leaves);
    t := Tally(f.dl[f.heap[f.heapMax] := 0], seq(MAX_BITS + 1, _ => 0), 0, opt, stat);
    t0 := t;
    ghost var j: nat := |leaves| - 1;
    iw := seq(j, _ => 0)[j - 1 := Pow2(d.maxLength)];
    lens := seq(d.elems, _ => 0);
    PassStart(f, d, leaves, t);
    LensStart(f, d.elems, leaves);
    var h := f.heapMax + 1;
    // the rest of the list comes in pairs of brothers
    while h < HEAP_SIZE
      invariant h == HEAP_SIZE - 2 * j && Pass(f, d, t, iw, lens, leaves, j, t0) && 0 <= j
      invariant TreeLens(f, d.elems, leaves, t.dl, j)
                && (f.depth[d.elems + |leaves| - 2] <= d.maxLength ==> t.overflow == 0)
      decreases HEAP_SIZE - h
    {
      ghost var dl := t.dl;
      t, iw, lens := SetPair(f, d, t, maxCode, h, iw, lens, leaves, j, t0);
      LensNext(f, d.elems, leaves, d.maxLength, dl, t.dl, j);
      j := j - 1;
      h := h + 2;
    }
  }

  // ---------------------------------------------------------- lengths that are too long

  /** The counts describe n codes of at most max bits, which take too much space by
      excess, while those below max bits leave room. */
  predicate TooFull(cnt: seq<nat>, max: nat, excess: nat, n: nat) {
    && 1 <= max <= MAX_BITS && |cnt| == MAX_BITS + 1 && cnt[0] == 0 && (forall l :: max < l <= MAX_BITS ==> cnt[l] == 0)
    && KSum(cnt, max, max) == Pow2(max) + excess && KSum(cnt, max, max - 1) < Pow2(max)
    && CountSum(cnt, max) == n <= Pow2(max)
  }

  /** There is a shorter code to be made longer, and a longest one to be moved. */
  lemma Movable(cnt: seq<nat>, max: nat, excess: nat, n: nat)
    requires TooFull(cnt, max, excess, n) && excess >= 1
    ensures exists i :: 1 <= i < max && cnt[i] > 0
    ensures cnt[max] >= 2
  {
    hide Pow2, KSum, CountSum;
    KSumMono(cnt, max);
    CountSumAt(cnt, max, max);
    if forall i :: 1 <= i < max ==> cnt[i] == 0 {
      KSumNone(cnt, max, max - 1);
    }
  }

  /** One code of i bits moves down to i + 1, and a longest one beside it. */
  function Moved(cnt: seq<nat>, max: nat, i: nat): (r: seq<nat>)
    requires 1 <= i < max < |cnt| && cnt[i] > 0 && cnt[max] >= 1
  {
    var a := cnt[i := cnt[i] - 1];
    var b := a[i + 1 := a[i + 1] + 2];
    b[max := b[max] - 1]
  }

  lemma MovedSums(cnt: seq<nat>, max: nat, i: nat, l: nat)
    requires 1 <= i < max < |cnt| && cnt[i] > 0 && cnt[max] >= 1 && (l == max || l == max - 1)
    ensures l == max ==>
              KSum(Moved(cnt, max, i), max, l) + 1 == KSum(cnt, max, l)
              && CountSum(Moved(cnt, max, i), l) == CountSum(cnt, l)
    ensures l == max - 1 ==> KSum(Moved(cnt, max, i), max, l) <= KSum(cnt, max, l)
  {
    hide KSum, CountSum, Shl, Pow2;
    var a := cnt[i := cnt[i] - 1];
    var b := a[i + 1 := a[i + 1] + 2];
    KSumUpdate(cnt, max, l, i, cnt[i] - 1);
    ShlNext(cnt[i] - 1, max - i);
    KSumUpdate(a, max, l, i + 1, a[i + 1] + 2);
    ShlNext(a[i + 1], max - i - 1);
    ShlNext(a[i + 1] + 1, max - i - 1);
    Halves(max - i);
    KSumUpdate(b, max, l, max, b[max] - 1);
    ShlNone(b[max]);
    ShlNone(b[max] - 1);
    CountSumUpdate(cnt, l, i, cnt[i] - 1);
    CountSumUpdate(a, l, i + 1, a[i + 1] + 2);
    CountSumUpdate(b, l, max, b[max] - 1);
  }

  lemma Halves(k: nat)
    requires k >= 1
    ensures Pow2(k) == Pow2(k - 1) + Pow2(k - 1)
  {
  }

  /** The loop that moves codes until all fit: the counts then fill the code space
      exactly, and describe as many codes as before. */
  method MakeFit(cnt0: seq<nat>, max: nat, overflow0: nat, ghost n: nat) returns (cnt: seq<nat>)
    requires overflow0 > 0 && overflow0 % 2 == 0 && TooFull(cnt0, max, overflow0 / 2, n)
    ensures TooFull(cnt, max, 0, n)
  {
    hide Pow2, KSum, CountSum;
    cnt := cnt0;
    var overflow: int := overflow0;
    while overflow > 0
      invariant 0 <= overflow && overflow % 2 == 0 && TooFull(cnt, max, overflow / 2, n)
    {
      Movable(cnt, max, overflow / 2, n);
      var bits := max - 1;
      while cnt[bits] == 0
        invariant 1 <= bits < max && exists i :: 1 <= i <= bits && cnt[i] > 0
        decreases bits
      {
        bits := bits - 1;
      }
      MovedSums(cnt, max, bits, max);
      MovedSums(cnt, max, bits, max - 1);
      cnt := Moved(cnt, max, bits);
      overflow := overflow - 2;
    }
  }

  // ------------------------------------------------------------ lengths from the counts

  /** The lengths given out from the end of the list down to h are new; before h
      they are what they were. */
  ghost predicate Half(f: Forest, d: Desc, dl: seq<nat>, cur: seq<nat>, given: seq<nat>, lens: seq<nat>,
                       leaves: seq<nat>, h: nat) {
    && TreeOrder(f, d.elems, leaves) && |dl| == |f.dl| && |cur| == |given| == |lens| == d.elems
       && f.heapMax <= h <= HEAP_SIZE
    && (forall n :: 0 <= n < d.elems ==> (n in leaves <==> lens[n] != 0))
    && (forall n :: 0 <= n < d.elems ==>
          (n in leaves ==> cur[n] == dl[n]) && (n !in leaves ==> cur[n] == 0 && dl[n] == f.dl[n]))
    && (forall n :: 0 <= n < d.elems && given[n] != 0 ==> n in leaves && given[n] == cur[n])
    && (forall p :: h <= p < HEAP_SIZE && f.heap[p] < d.elems ==> given[f.heap[p]] != 0)
    && (forall p :: f.heapMax <= p < h && f.heap[p] < d.elems ==> given[f.heap[p]] == 0)
    && (forall n :: 0 <= n < d.elems ==> (cur[n] != 0 <==> lens[n] != 0))
  }

  /** How many codes of each length have been given out: all above bits, and all but
      n of bits itself. */
  predicate Given(cnt: seq<nat>, given: seq<nat>, max: nat, bits: nat, n: nat)
    requires bits <= max < |cnt|
  {
    && (forall l :: bits < l <= max ==> Count(given, l) == cnt[l])
    && (bits >= 1 ==> Count(given, bits) + n == cnt[bits])
    && (forall l :: 1 <= l < bits ==> Count(given, l) == 0)
    && (forall l :: max < l <= MAX_BITS ==> Count(given, l) == 0)
    && NonZero(given, |given|) + n + (if bits >= 1 then CountSum(cnt, bits - 1) else 0) == CountSum(cnt, max)
  }

  lemma GivenNext(cnt: seq<nat>, given: seq<nat>, max: nat, bits: nat, n: nat, m: nat)
    requires 1 <= bits <= max < |cnt| && Given(cnt, given, max, bits, n) && n >= 1 && m < |given| && given[m] == 0
    ensures Given(cnt, given[m := bits], max, bits, n - 1)
  {
    hide Count, CountSum, NonZero;
    NonZeroUpdate(given, |given|, m, bits);
    var r := given[m := bits];
    forall l: nat | 1 <= l
      ensures Count(r, l) == Count(given, l) + if l == bits then 1 else 0
    {
      CountUpdate(given, m, bits, l);
    }
  }

  lemma GivenDown(cnt: seq<nat>, given: seq<nat>, max: nat, bits: nat)
    requires 1 <= bits <= max < |cnt| && Given(cnt, given, max, bits, 0)
    ensures Given(cnt, given, max, bits - 1, if bits >= 2 then cnt[bits - 1] else 0)
  {
    hide Count, NonZero;
  }

  /** While codes are left to give out, so is a leaf. */
  lemma LeafLeft(f: Forest, d: Desc, dl: seq<nat>, cur: seq<nat>, given: seq<nat>, lens: seq<nat>, leaves: seq<nat>,
                 h: nat)
    requires Half(f, d, dl, cur, given, lens, leaves, h) && NonZero(given, |given|) < NonZero(lens, |lens|)
    ensures f.heapMax < h
  {
    hide TreeOrder;
    var n := Missing(lens, given, d.elems);
    var p := ListPosition(f, d.elems, leaves, n);
  }

  lemma HalfSkip(f: Forest, d: Desc, dl: seq<nat>, cur: seq<nat>, given: seq<nat>, lens: seq<nat>, leaves: seq<nat>,
                 h: nat)
    requires Half(f, d, dl, cur, given, lens, leaves, h) && f.heapMax < h && |f.heap| == HEAP_SIZE
             && f.heap[h - 1] >= d.elems
    ensures Half(f, d, dl, cur, given, lens, leaves, h - 1)
  {
    hide TreeOrder;
  }

  lemma HalfGive(f: Forest, d: Desc, dl: seq<nat>, cur: seq<nat>, given: seq<nat>, lens: seq<nat>, leaves: seq<nat>,
                 h: nat, bits: nat)
    requires Half(f, d, dl, cur, given, lens, leaves, h) && f.heapMax < h && |f.heap| == HEAP_SIZE
             && f.heap[h - 1] < d.elems && bits >= 1
    ensures f.heap[h - 1] < |dl| && given[f.heap[h - 1]] == 0 && cur[f.heap[h - 1]] == dl[f.heap[h - 1]] != 0
    ensures var m := f.heap[h - 1];
            Half(f, d, dl[m := bits], cur[m := bits], given[m := bits], lens, leaves, h - 1)
  {
    hide TreeOrder;
    var m := f.heap[h - 1];
    OrderSizes(f, d.elems, leaves);
    ListNode(f, d.elems, leaves, h - 1);
    forall p | f.heapMax <= p < HEAP_SIZE && p != h - 1
      ensures f.heap[p] != m
    {
      ListOnce(f, d.elems, leaves, p, h - 1);
    }
  }

  /** A changed length changes the cost by its difference for each occurrence. */
  lemma CostsChange(freq: seq<nat>, d: Desc, cur: seq<nat>, opt: int, stat: int, m: nat, bits: nat)
    requires DescOk(d) && |cur| == d.elems <= |freq| && Costs(freq, d, cur, opt, stat) && m < d.elems && cur[m] != 0
             && bits >= 1
    ensures Costs(freq, d, cur[m := bits], opt + (bits - cur[m]) * freq[m], stat)
  {
    hide Cost, Weight;
    CostUpdate(freq, cur, d.extra, d.elems, m, bits);
    WeightDifference(freq[m], cur[m], bits, d.extra[m]);
    assert Used(cur[m := bits], d.statics) == Used(cur, d.statics);
  }

  lemma WeightDifference(f: nat, a: nat, b: nat, x: nat)
    ensures Weight(f, b, x) - Weight(f, a, x) == (b - a) * f
  {
  }

  /** The invariant of the last loop. */
  ghost predicate Giving(f: Forest, d: Desc, t: Tally, cur: seq<nat>, given: seq<nat>, lens: seq<nat>, leaves: seq<nat>,
                         h: nat, cnt: seq<nat>, bits: nat, n: nat, t0: Tally) {
    && DescOk(d) && Half(f, d, t.dl, cur, given, lens, leaves, h) && |cur| == d.elems <= |f.freq|
    && bits <= d.maxLength < |cnt| && Given(cnt, given, d.maxLength, bits, n)
    && Costs(f.freq, d, cur, t.opt - t0.opt, t.stat - t0.stat)
    && CountSum(cnt, d.maxLength) == NonZero(lens, |lens|) && (forall i :: 0 <= i < d.elems ==> cur[i] <= d.maxLength)
  }

  /** Gives the leaf at h - 1 the length bits. */
  method GiveOne(f: Forest, d: Desc, t: Tally, h: nat, cnt: seq<nat>, bits: nat, n: nat,
                 ghost cur: seq<nat>, ghost given: seq<nat>, ghost lens: seq<nat>, ghost leaves: seq<nat>,
                 ghost t0: Tally)
    returns (t': Tally, ghost cur': seq<nat>, ghost given': seq<nat>)
    requires 1 <= bits <= d.maxLength < |cnt| && |f.heap| == HEAP_SIZE && n >= 1
    requires Giving(f, d, t, cur, given, lens, leaves, h, cnt, bits, n, t0) && f.heapMax < h <= HEAP_SIZE
    requires f.heap[h - 1] < d.elems && f.heap[h - 1] in leaves
    ensures Giving(f, d, t', cur', given', lens, leaves, h - 1, cnt, bits, n - 1, t0)
  {
    hide TreeOrder, Given, Costs, CountSum, NonZero, Half;
    t' := t;
    HalfSizes(f, d, t.dl, cur, given, lens, leaves, h);
    var m := f.heap[h - 1];
    HalfGive(f, d, t.dl, cur, given, lens, leaves, h, bits);
    GivenNext(cnt, given, d.maxLength, bits, n, m);
    CostsChange(f.freq, d, cur, t.opt - t0.opt, t.stat - t0.stat, m, bits);
    if t.dl[m] != bits {
      t' := t.(opt := t.opt + (bits - t.dl[m]) * f.freq[m], dl := t.dl[m := bits]);
    } else {
      SameLength(t.dl, m, f.freq);
    }
    cur', given' := cur[m := bits], given[m := bits];
  }

  /** Gives n leaves from the end of the list the length bits. */
  method GiveLength(f: Forest, d: Desc, t: Tally, h0: nat, cnt: seq<nat>, bits: nat, maxCode: nat,
                    ghost cur0: seq<nat>, ghost given0: seq<nat>, ghost lens: seq<nat>, ghost leaves: seq<nat>,
                    ghost t0: Tally)
    returns (t': Tally, h: nat, ghost cur: seq<nat>, ghost given: seq<nat>)
    requires 1 <= bits <= d.maxLength < |cnt| && |f.heap| == HEAP_SIZE && maxCode < d.elems
    requires Giving(f, d, t, cur0, given0, lens, leaves, h0, cnt, bits, cnt[bits], t0)
    requires forall i :: 0 <= i < |leaves| ==> leaves[i] <= maxCode
    ensures Giving(f, d, t', cur, given, lens, leaves, h, cnt, bits, 0, t0)
  {
    hide TreeOrder, Given, Costs, CountSum, NonZero, Half;
    t', h, cur, given := t, h0, cur0, given0;
    var n := cnt[bits];
    HalfSizes(f, d, t'.dl, cur, given, lens, leaves, h);
    while n != 0
      invariant Giving(f, d, t', cur, given, lens, leaves, h, cnt, bits, n, t0) && f.heapMax <= h <= HEAP_SIZE && 0 <= n
      decreases h
    {
      HalfSizes(f, d, t'.dl, cur, given, lens, leaves, h);
      GivenLess(cnt, given, d.maxLength, bits, n);
      LeafLeft(f, d, t'.dl, cur, given, lens, leaves, h);
      ListNodeOf(f, d, t'.dl, cur, given, lens, leaves, h);
      if f.heap[h - 1] > maxCode {
        HalfSkip(f, d, t'.dl, cur, given, lens, leaves, h);
      } else {
        t', cur, given := GiveOne(f, d, t', h, cnt, bits, n, cur, given, lens, leaves, t0);
        n := n - 1;
      }
      h := h - 1;
      HalfSizes(f, d, t'.dl, cur, given, lens, leaves, h);
    }
  }

  lemma SameLength(dl: seq<nat>, m: nat, freq: seq<nat>)
    requires m < |dl| && m < |freq|
    ensures dl[m := dl[m]] == dl && (dl[m] - dl[m]) * freq[m] == 0
  {
  }

  lemma HalfSizes(f: Forest, d: Desc, dl: seq<nat>, cur: seq<nat>, given: seq<nat>, lens: seq<nat>, leaves: seq<nat>,
                  h: nat)
    requires Half(f, d, dl, cur, given, lens, leaves, h)
    ensures |dl| == |f.dl| && |cur| == |given| == |lens| == d.elems && f.heapMax <= h <= HEAP_SIZE
  {
    hide TreeOrder;
  }

  /** Leaves are exactly the entries up to the largest code. */
  lemma ListNodeOf(f: Forest, d: Desc, dl: seq<nat>, cur: seq<nat>, given: seq<nat>, lens: seq<nat>, leaves: seq<nat>,
                   h: nat)
    requires Half(f, d, dl, cur, given, lens, leaves, h) && f.heapMax < h && |f.heap| == HEAP_SIZE
    ensures f.heap[h - 1] < d.elems ==> f.heap[h - 1] in leaves
  {
    hide TreeOrder;
    ListNode(f, d.elems, leaves, h - 1);
  }

  lemma GivenLess(cnt: seq<nat>, given: seq<nat>, max: nat, bits: nat, n: nat)
    requires 1 <= bits <= max < |cnt| && Given(cnt, given, max, bits, n) && n >= 1
    ensures NonZero(given, |given|) < CountSum(cnt, max)
  {
    hide Count;
  }

  // ------------------------------------------------------------------- the whole

  /** The lengths a tree was given. */
  ghost predicate Assigned(f: Forest, d: Desc, dl: seq<nat>, lens: seq<nat>, leaves: seq<nat>) {
    && |lens| == d.elems && |dl| == |f.dl| && d.elems <= |dl|
    && (forall n :: 0 <= n < d.elems ==> (n in leaves <==> lens[n] != 0))
    && (forall n :: 0 <= n < d.elems && n in leaves ==> dl[n] == lens[n] && lens[n] <= d.maxLength)
    && (forall n :: 0 <= n < d.elems && n !in leaves ==> dl[n] == f.dl[n])
  }

  /** After the first pass every node has its length. */
  lemma PassEnd(f: Forest, d: Desc, t: Tally, iw: seq<nat>, lens: seq<nat>, leaves: seq<nat>, t0: Tally)
    requires Pass(f, d, t, iw, lens, leaves, 0, t0)
    ensures forall n :: 0 <= n < d.elems ==> (n in leaves <==> lens[n] != 0) && lens[n] <= d.maxLength
    ensures forall n :: 0 <= n < d.elems && n in leaves ==> n < |t.dl| && t.dl[n] == lens[n]
    ensures Sum(iw) == 0
  {
    hide TreeOrder, Pow2, Space, CountsOk, Costs;
    OrderSizes(f, d.elems, leaves);
    forall n | 0 <= n < d.elems && n in leaves
      ensures n < |t.dl| && t.dl[n] == lens[n] && 1 <= lens[n] <= d.maxLength
    {
      var p := ListPosition(f, d.elems, leaves, n);
      assert Processed(d, t.dl, iw, lens, 0, f.heap[p]);
    }
    forall i | 0 <= i < |iw|
      ensures iw[i] == 0
    {
      var p := ListPosition(f, d.elems, leaves, d.elems + i);
      assert Processed(d, t.dl, iw, lens, 0, f.heap[p]);
    }
    SumZero(iw);
  }

  lemma CountsFill(d: Desc, cnt: seq<nat>, iw: seq<nat>, lens: seq<nat>, overflow: nat)
    requires DescOk(d) && |lens| == d.elems && CountsOk(cnt, lens) && Space(cnt, iw, d.maxLength, overflow)
             && Sum(iw) == 0
    requires forall n :: 0 <= n < d.elems ==> lens[n] <= d.maxLength
    ensures overflow == 0 ==> KSum(cnt, d.maxLength, d.maxLength) == Pow2(d.maxLength)
    ensures overflow % 2 == 0 && (overflow > 0 ==> TooFull(cnt, d.maxLength, overflow / 2, NonZero(lens, |lens|)))
    ensures CountSum(cnt, d.maxLength) == NonZero(lens, |lens|)
    ensures forall l :: d.maxLength < l <= MAX_BITS ==> Count(lens, l) == 0
  {
    hide Pow2, KSum, Sum, CountSum, NonZero, Count;
    var max := d.maxLength;
    BigBelow(iw);
    CountSumIs(cnt, lens, max);
    RankSumNonZero(lens, |lens|, max);
    forall l | max < l <= MAX_BITS
      ensures Count(lens, l) == 0
    {
      NoneLonger(lens, max, l);
    }
  }

  lemma NoneLonger(lens: seq<nat>, max: nat, l: nat)
    requires max < l && forall n :: 0 <= n < |lens| ==> lens[n] <= max
    ensures Count(lens, l) == 0
  {
    hide Rank;
    CountIsRank(lens, l);
    if Count(lens, l) > 0 {
      var s := SymOfRank(lens, l, 0, |lens|);
    }
  }

  lemma GiveStart(f: Forest, d: Desc, t: Tally, lens: seq<nat>, leaves: seq<nat>, cnt: seq<nat>, t0: Tally)
    requires DescOk(d) && TreeOrder(f, d.elems, leaves) && |t.dl| == |f.dl| && |lens| == d.elems <= |f.freq|
    requires forall n :: 0 <= n < d.elems ==> (n in leaves <==> lens[n] != 0) && lens[n] <= d.maxLength
    requires forall n :: 0 <= n < d.elems && n in leaves ==> n < |t.dl| && t.dl[n] == lens[n]
    requires forall n :: 0 <= n < d.elems && n !in leaves ==> n < |t.dl| && t.dl[n] == f.dl[n]
    requires Costs(f.freq, d, lens, t.opt - t0.opt, t.stat - t0.stat)
    requires |cnt| == MAX_BITS + 1 && CountSum(cnt, d.maxLength) == NonZero(lens, |lens|)
    ensures Giving(f, d, t, lens, seq(d.elems, _ => 0), lens, leaves, HEAP_SIZE, cnt, d.maxLength, cnt[d.maxLength], t0)
  {
    hide TreeOrder, Costs, CountSum, Count, NonZero;
    var given := seq(d.elems, _ => 0);
    OrderSizes(f, d.elems, leaves);
    NonZeroZeros(given, |given|);
    forall l | 1 <= l <= MAX_BITS
      ensures Count(given, l) == 0
    {
      RankZeros(given, l, |given|);
      CountIsRank(given, l);
    }
    CountSumTop(cnt, d.maxLength);
  }

  lemma CountSumTop(cnt: seq<nat>, l: nat)
    requires 1 <= l < |cnt|
    ensures CountSum(cnt, l) == CountSum(cnt, l - 1) + cnt[l]
  {
  }

  /** All codes given out: every leaf has its new length. */
  lemma GiveEnd(f: Forest, d: Desc, t: Tally, cur: seq<nat>, given: seq<nat>, lens: seq<nat>, leaves: seq<nat>, h: nat,
                cnt: seq<nat>, t0: Tally)
    requires Giving(f, d, t, cur, given, lens, leaves, h, cnt, 0, 0, t0) && |cnt| == MAX_BITS + 1 && cnt[0] == 0
    requires forall l :: d.maxLength < l <= MAX_BITS ==> cnt[l] == 0
    ensures CountsOk(cnt, cur) && Assigned(f, d, t.dl, cur, leaves)
    ensures forall l :: d.maxLength < l <= MAX_BITS ==> Count(cur, l) == 0
  {
    hide TreeOrder, Costs, CountSum, Count, NonZero;
    OrderSizes(f, d.elems, leaves);
    NoneMissing(lens, given, d.elems);
    assert given == cur;
  }

  /** The last loop: the leaves take the lengths the counts describe, the rarest the
      longest. */
  method GiveOut(f: Forest, d: Desc, t: Tally, cnt: seq<nat>, maxCode: nat, ghost lens: seq<nat>,
                 ghost leaves: seq<nat>, ghost t0: Tally)
    returns (t': Tally, ghost cur: seq<nat>)
    requires 1 <= d.maxLength < |cnt| == MAX_BITS + 1 && |f.heap| == HEAP_SIZE && maxCode < d.elems && |lens| == d.elems
    requires Giving(f, d, t, lens, seq(d.elems, _ => 0), lens, leaves, HEAP_SIZE, cnt, d.maxLength,
                    cnt[d.maxLength], t0)
    requires forall i :: 0 <= i < |leaves| ==> leaves[i] <= maxCode
    requires cnt[0] == 0 && forall l :: d.maxLength < l <= MAX_BITS ==> cnt[l] == 0
    ensures CountsOk(cnt, cur) && Assigned(f, d, t'.dl, cur, leaves) && |cur| == d.elems <= |f.freq| && DescOk(d)
    ensures Costs(f.freq, d, cur, t'.opt - t0.opt, t'.stat - t0.stat)
    ensures forall l :: d.maxLength < l <= MAX_BITS ==> Count(cur, l) == 0
  {
    hide TreeOrder, Given, Costs, CountSum, NonZero, Half, Count, Assigned, CountsOk;
    t', cur := t, lens;
    ghost var given: seq<nat> := seq(d.elems, _ => 0);
    var bits, h := d.maxLength, HEAP_SIZE;
    while bits != 0
      invariant 0 <= bits <= d.maxLength
      invariant Giving(f, d, t', cur, given, lens, leaves, h, cnt, bits, if bits >= 1 then cnt[bits] else 0, t0)
    {
      t', h, cur, given := GiveLength(f, d, t', h, cnt, bits, maxCode, cur, given, lens, leaves, t0);
      GivenDown(cnt, given, d.maxLength, bits);
      bits := bits - 1;
    }
    GiveEnd(f, d, t', cur, given, lens, leaves, h, cnt, t0);
  }

  /** gen_bitlen: every leaf gets a length of at most maxLength, the lengths fill the
      code space exactly, and the bits they cost are added up. */
  method GenBitlen(f: Forest, d: Desc, opt: int, stat: int, maxCode: nat, ghost leaves: seq<nat>)
    returns (dl: seq<nat>, blCount: seq<nat>, opt': int, stat': int, ghost lens: seq<nat>)
    requires DescOk(d) && TreeOrder(f, d.elems, leaves) && maxCode < d.elems
    requires forall i :: 0 <= i < |leaves| ==> leaves[i] <= maxCode
    requires forall n :: 0 <= n < d.elems && n !in leaves ==> n < |f.dl| && f.dl[n] == 0
    ensures Assigned(f, d, dl, lens, leaves) && CountsOk(blCount, lens) && Complete(lens)
    ensures |blCount| == MAX_BITS + 1 && KSum(blCount, d.maxLength, d.maxLength) == Pow2(d.maxLength)
    ensures |lens| == d.elems <= |f.freq| && Costs(f.freq, d, lens, opt' - opt, stat' - stat)
    ensures d.elems + |leaves| - 2 < |f.depth|
            && (f.depth[d.elems + |leaves| - 2] <= d.maxLength ==> TreeLens(f, d.elems, leaves, dl, 0))
    ensures Bounded(f, d.elems, leaves)
  {
    hide TreeOrder, TreeLens, Bounded, Costs, Count, NonZero, CountSum, KSum, Pow2, CountsOk, Complete, Lengths, Space,
         Giving;
    OrderSizes(f, d.elems, leaves);
    var t;
    ghost var iw, t0;
    t, iw, lens, t0 := FirstPass(f, d, opt, stat, maxCode, leaves);
    LengthsSizes(f, d, t.dl, iw, lens, leaves, 0);
    AllBounded(f, d.elems, leaves, t.dl);
    PassEnd(f, d, t, iw, lens, leaves, t0);
    PassKept(f, d, t, iw, lens, leaves, t0);
    CountsSize(t.blCount, lens);
    CountsFill(d, t.blCount, iw, lens, t.overflow);
    blCount := t.blCount;
    if t.overflow > 0 {
      blCount := MakeFit(t.blCount, d.maxLength, t.overflow, NonZero(lens, |lens|));
      GiveStart(f, d, t, lens, leaves, blCount, t0);
      t, lens := GiveOut(f, d, t, blCount, maxCode, lens, leaves, t0);
    }
    CountsAgree(blCount, lens, d.maxLength);
    CountsSize(blCount, lens);
    FullIsComplete(lens, blCount, d.maxLength);
    return t.dl, blCount, t.opt, t.stat, lens;
  }

  lemma CountsAgree(cnt: seq<nat>, lens: seq<nat>, max: nat)
    requires CountsOk(cnt, lens) && max <= MAX_BITS
    ensures max < |cnt| && forall i :: 1 <= i <= max ==> cnt[i] == Count(lens, i)
  {
  }

  /** The pass does not touch symbols outside the tree. */
  lemma PassKept(f: Forest, d: Desc, t: Tally, iw: seq<nat>, lens: seq<nat>, leaves: seq<nat>, t0: Tally)
    requires Pass(f, d, t, iw, lens, leaves, 0, t0)
    ensures forall n :: 0 <= n < d.elems && n !in leaves ==> n < |t.dl| && n < |f.dl| && t.dl[n] == f.dl[n]
  {
    hide TreeOrder, Pow2, Space, CountsOk, Costs;
  }
}
