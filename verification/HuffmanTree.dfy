/** trees.c: build_tree, up to the code lengths.  The two least frequent nodes are
    combined until one is left. */
module HuffmanTree {
  import opened HuffmanHeap
  import opened HuffmanBags
  import B = HuffmanBest

  const HEAP_SIZE: nat := 573

  /** The fields of deflate_state and of the tree that build_tree works on.  heap
      holds the live nodes at 1..heapLen and the combined ones from heapMax on; dl
      is a node's father, and later its length. */
  datatype Forest = Forest(heap: seq<nat>, heapLen: nat, heapMax: nat, freq: seq<nat>, depth: seq<nat>, dl: seq<nat>)

  function Live(f: Forest): (r: seq<nat>)
    requires f.heapLen < |f.heap|
  {
    f.heap[1..f.heapLen + 1]
  }

  function Done(f: Forest): (r: seq<nat>)
    requires f.heapMax <= |f.heap|
  {
    f.heap[f.heapMax..]
  }

  predicate Distinct(s: seq<nat>) {
    forall i, j :: 0 <= i < j < |s| ==> s[i] != s[j]
  }

  /** The numbers from a to b - 1. */
  function Range(a: nat, b: nat): (r: seq<nat>)
    requires a <= b
    ensures |r| == b - a && forall i :: 0 <= i < b - a ==> r[i] == a + i
  {
    seq(b - a, i requires 0 <= i < b - a => a + i)
  }

  /** The j-th pair of brothers, counted from the end, and their father. */
  predicate PairAt(f: Forest, elems: nat, j: nat)
    requires |f.heap| == HEAP_SIZE && 1 <= j && 2 * j <= HEAP_SIZE && elems + j >= 1
  {
    var p, dad := HEAP_SIZE - 2 * j, elems + j - 1;
    && f.heap[p] < dad && f.heap[p + 1] < dad && dad < |f.dl| == |f.freq| == |f.depth|
    && f.dl[f.heap[p]] == dad && f.dl[f.heap[p + 1]] == dad
    && f.freq[dad] == f.freq[f.heap[p]] + f.freq[f.heap[p + 1]]
    && f.depth[f.heap[p]] < f.depth[dad] && f.depth[f.heap[p + 1]] < f.depth[dad]
  }

  predicate Sizes(f: Forest, elems: nat, count: nat, node: nat) {
    && |f.heap| == HEAP_SIZE && Nodes(f.heap, f.freq, f.depth) && |f.dl| == |f.freq|
    && 2 <= count <= elems <= 286 && 2 * elems <= |f.freq| && elems <= node < elems + count
    && f.heapLen + node == count + elems && f.heapMax == HEAP_SIZE - 2 * (node - elems)
  }

  /** Every leaf and every node made so far is in one place. */
  ghost predicate Placed(f: Forest, elems: nat, leaves: seq<nat>, node: nat)
    requires elems <= node && f.heapLen < |f.heap| && f.heapMax <= |f.heap|
  {
    && Distinct(leaves) && (forall i :: 0 <= i < |leaves| ==> leaves[i] < elems)
    && multiset(Live(f)) + multiset(Done(f)) == multiset(leaves) + multiset(Range(elems, node))
  }

  predicate Pairs(f: Forest, elems: nat, k: nat)
    requires |f.heap| == HEAP_SIZE && 2 * k <= HEAP_SIZE
  {
    forall j :: 1 <= j <= k ==> PairAt(f, elems, j)
  }

  /** The combined nodes are kept sorted by frequency, and none left is rarer. */
  predicate Sorted(f: Forest)
    requires |f.heap| == HEAP_SIZE && Nodes(f.heap, f.freq, f.depth) && f.heapLen < HEAP_SIZE && f.heapMax <= HEAP_SIZE
  {
    && (forall p, q :: f.heapMax <= p <= q < HEAP_SIZE ==> f.freq[f.heap[p]] >= f.freq[f.heap[q]])
    && (forall i, p :: 1 <= i <= f.heapLen && f.heapMax <= p < HEAP_SIZE ==> f.freq[f.heap[i]] >= f.freq[f.heap[p]])
  }

  ghost predicate Shape(f: Forest, elems: nat, leaves: seq<nat>, node: nat) {
    && Sizes(f, elems, |leaves|, node)
    && Placed(f, elems, leaves, node) && Pairs(f, elems, node - elems) && Sorted(f)
    && OrderedFrom(f.heap, f.heapLen, f.freq, f.depth, 1)
  }

  // ------------------------------------------------------------ every node once

  lemma {:induction false} DistinctOnce(s: seq<nat>, x: nat)
    requires Distinct(s)
    ensures multiset(s)[x] <= 1
    decreases |s|
  {
    if s == [] {
    } else {
      var t: seq<nat> := s[..|s| - 1];
      assert s == t + [s[|s| - 1]];
      DistinctOnce(t, x);
      assert x !in t ==> x !in multiset(t);
    }
  }

  lemma OnlyOnce(elems: nat, leaves: seq<nat>, node: nat, x: nat)
    requires Distinct(leaves) && (forall i :: 0 <= i < |leaves| ==> leaves[i] < elems) && elems <= node
    ensures (multiset(leaves) + multiset(Range(elems, node)))[x] <= 1
    ensures x in multiset(leaves) + multiset(Range(elems, node)) ==> x < node
  {
    DistinctOnce(leaves, x);
    DistinctOnce(Range(elems, node), x);
    if x in multiset(leaves) {
      assert x in leaves;
    }
    if x in multiset(Range(elems, node)) {
      assert x in Range(elems, node);
    }
  }

  /** A live node has not been combined, and is older than the next node. */
  lemma LiveFacts(f: Forest, elems: nat, leaves: seq<nat>, node: nat, i: nat)
    requires Sizes(f, elems, |leaves|, node) && Placed(f, elems, leaves, node) && 1 <= i <= f.heapLen
    ensures f.heap[i] < node && f.heap[i] !in Done(f)
    ensures forall j :: 1 <= j <= f.heapLen && j != i ==> f.heap[j] != f.heap[i]
  {
    var x, live, done := f.heap[i], Live(f), Done(f);
    assert live[i - 1] == x;
    OnlyOnce(elems, leaves, node, x);
    assert x in multiset(live);
    assert (multiset(live) + multiset(done))[x] == multiset(live)[x] + multiset(done)[x];
    assert x !in done by {
      assert x in done ==> x in multiset(done);
    }
    forall j | 1 <= j <= f.heapLen && j != i
      ensures f.heap[j] != x
    {
      if f.heap[j] == x {
        Twice(live, i - 1, j - 1);
      }
    }
  }

  lemma Twice(s: seq<nat>, i: nat, j: nat)
    requires i < |s| && j < |s| && i != j && s[i] == s[j]
    ensures multiset(s)[s[i]] >= 2
  {
    var a, b := if i < j then i else j, if i < j then j else i;
    assert s == s[..a] + [s[a]] + s[a + 1..b] + [s[b]] + s[b + 1..];
  }

  // -------------------------------------------------------------- multisets of slices

  lemma Parts(h: seq<nat>, a: nat, b: nat)
    requires a <= b <= |h|
    ensures multiset(h) == multiset(h[..a]) + multiset(h[a..b]) + multiset(h[b..])
  {
    assert h == h[..a] + h[a..b] + h[b..];
  }

  lemma Cancel(a: multiset<nat>, b: multiset<nat>, c: multiset<nat>, d: multiset<nat>)
    requires a + b + c == a + d + c
    ensures b == d
  {
    assert b == a + b + c - a - c;
    assert d == a + d + c - a - c;
  }

  lemma SliceSame(h: seq<nat>, r: seq<nat>, a: nat, b: nat)
    requires |r| == |h| && a <= b <= |h| && multiset(r) == multiset(h)
    requires forall i :: 0 <= i < |h| && (i < a || i >= b) ==> r[i] == h[i]
    ensures multiset(r[a..b]) == multiset(h[a..b])
  {
    Parts(h, a, b);
    Parts(r, a, b);
    assert r[..a] == h[..a] && r[b..] == h[b..];
    Cancel(multiset(h[..a]), multiset(h[a..b]), multiset(h[b..]), multiset(r[a..b]));
  }

  /** pqremove's first half: the last entry takes the place of the first. */
  lemma RemoveTop(h: seq<nat>, len: nat)
    requires 2 <= len < |h|
    ensures multiset(h[1 := h[len]][1..len]) + multiset{h[1]} == multiset(h[1..len + 1])
  {
    var r := h[1 := h[len]];
    assert h[1..len + 1] == [h[1]] + h[2..len] + [h[len]];
    assert r[1..len] == [h[len]] + h[2..len];
  }

  /** A new node takes the place of the first. */
  lemma ReplaceTop(h: seq<nat>, len: nat, x: nat)
    requires 1 <= len < |h|
    ensures multiset(h[1 := x][1..len + 1]) + multiset{h[1]} == multiset(h[1..len + 1]) + multiset{x}
  {
    var r := h[1 := x];
    assert h[1..len + 1] == [h[1]] + h[2..len + 1];
    assert r[1..len + 1] == [x] + h[2..len + 1];
  }

  // --------------------------------------------------------------------- pqremove

  lemma OrderLess(h: seq<nat>, len: nat, freq: seq<nat>, depth: seq<nat>, x: nat)
    requires 2 <= len < |h| && Nodes(h, freq, depth) && OrderedFrom(h, len, freq, depth, 1) && x < |freq|
    ensures Nodes(h[1 := x], freq, depth)
    ensures OrderedFrom(h[1 := x], len - 1, freq, depth, 2) && OrderedFrom(h[1 := x], len, freq, depth, 2)
  {
    var r, less := h[1 := x], len - 1;
    forall i: nat | 2 <= i
      ensures OrderAt(r, len, freq, depth, i)
    {
      assert OrderAt(h, len, freq, depth, i);
    }
    forall i: nat | 2 <= i
      ensures OrderAt(r, less, freq, depth, i)
    {
      assert OrderAt(h, len, freq, depth, i);
    }
  }

  /** pqremove: takes the smallest node out of the heap. */
  method PqRemove(heap: seq<nat>, heapLen: nat, freq: seq<nat>, depth: seq<nat>) returns (top: nat, r: seq<nat>)
    requires 2 <= heapLen < |heap| && Nodes(heap, freq, depth) && OrderedFrom(heap, heapLen, freq, depth, 1)
    ensures top == heap[1] && |r| == |heap| && Nodes(r, freq, depth)
    ensures OrderedFrom(r, heapLen - 1, freq, depth, 1)
    ensures multiset(r[1..heapLen]) + multiset{top} == multiset(heap[1..heapLen + 1])
    ensures forall i :: heapLen <= i < |heap| ==> r[i] == heap[i]
  {
    hide OrderedFrom;
    top := heap[1];
    OrderLess(heap, heapLen, freq, depth, heap[heapLen]);
    RemoveTop(heap, heapLen);
    var h := heap[1 := heap[heapLen]];
    r := PqDownHeap(h, heapLen - 1, freq, depth, 1);
    SliceSame(h, r, 1, heapLen);
  }

  // ------------------------------------------------------------- one combination

  /** A node whose frequency and depth are not looked at may get new ones. */
  lemma OrderFrame(h: seq<nat>, len: nat, freq: seq<nat>, depth: seq<nat>, node: nat, f: nat, d: nat)
    requires len < |h| && Nodes(h, freq, depth) && OrderedFrom(h, len, freq, depth, 2) && node < |freq|
    requires forall i :: 2 <= i <= len ==> h[i] != node
    ensures Nodes(h, freq[node := f], depth[node := d])
    ensures OrderedFrom(h, len, freq[node := f], depth[node := d], 2)
  {
    var freq', depth' := freq[node := f], depth[node := d];
    forall i: nat | 2 <= i
      ensures OrderAt(h, len, freq', depth', i)
    {
      assert OrderAt(h, len, freq, depth, i);
    }
  }

  /** The two smallest nodes n and m become the sons of a new node. */
  function Combined(f: Forest, n: nat, m: nat, heap: seq<nat>, node: nat): (r: Forest)
    requires n < |f.freq| && m < |f.freq| && node < |f.freq| && |f.depth| == |f.freq| == |f.dl| && |heap| == HEAP_SIZE
    requires 2 <= f.heapMax <= HEAP_SIZE && f.heapLen >= 1
  {
    var deeper := if f.depth[n] >= f.depth[m] then f.depth[n] else f.depth[m];
    Forest(heap[f.heapMax - 1 := n][f.heapMax - 2 := m][1 := node], f.heapLen - 1, f.heapMax - 2,
           f.freq[node := f.freq[n] + f.freq[m]], f.depth[node := deeper + 1], f.dl[n := node][m := node])
  }

  /** The state of an iteration between pqremove and the last pqdownheap. */
  ghost predicate Taken(f: Forest, elems: nat, leaves: seq<nat>, node: nat, n: nat, heap: seq<nat>) {
    && Shape(f, elems, leaves, node) && f.heapLen >= 2 && n == f.heap[1] && |heap| == HEAP_SIZE
    && Nodes(heap, f.freq, f.depth) && OrderedFrom(heap, f.heapLen - 1, f.freq, f.depth, 1)
    && multiset(heap[1..f.heapLen]) + multiset{n} == multiset(Live(f))
    && (forall i :: f.heapLen <= i < HEAP_SIZE ==> heap[i] == f.heap[i])
  }

  lemma TakenFacts(f: Forest, elems: nat, leaves: seq<nat>, node: nat, n: nat, heap: seq<nat>)
    requires Taken(f, elems, leaves, node, n, heap)
    ensures f.heapLen < f.heapMax - 2 && node < |f.freq| && |f.dl| == |f.freq| == |f.depth| && n < node
            && heap[1] < node
    ensures heap[1] != n && n !in Done(f) && heap[1] !in Done(f)
    ensures forall i :: 1 <= i < f.heapLen ==>
              heap[i] < node && f.freq[n] <= f.freq[heap[i]] && f.freq[heap[1]] <= f.freq[heap[i]]
    ensures Done(f) == heap[f.heapMax..]
    ensures forall p :: f.heapMax <= p < HEAP_SIZE ==> heap[p] == f.heap[p] && f.freq[n] >= f.freq[heap[p]]
  {
    hide OrderAt;
    LiveFacts(f, elems, leaves, node, 1);
    assert f.heap[f.heapMax..] == heap[f.heapMax..];
    forall i | 1 <= i < f.heapLen
      ensures heap[i] < node && heap[i] !in Done(f) && heap[i] != n
      ensures f.freq[n] <= f.freq[heap[i]] && f.freq[heap[1]] <= f.freq[heap[i]]
    {
      var j := Was(f, heap, n, i);
      LiveFacts(f, elems, leaves, node, j);
      Smallest(f.heap, f.heapLen, f.freq, f.depth, j);
      Smallest(heap, f.heapLen - 1, f.freq, f.depth, i);
    }
  }

  /** An entry left after pqremove was another entry before. */
  lemma Was(f: Forest, heap: seq<nat>, n: nat, i: nat) returns (j: nat)
    requires 2 <= f.heapLen < |f.heap| == |heap| && 1 <= i < f.heapLen && n == f.heap[1]
    requires multiset(heap[1..f.heapLen]) + multiset{n} == multiset(Live(f))
    requires forall k :: 2 <= k <= f.heapLen ==> f.heap[k] != n
    ensures 2 <= j <= f.heapLen && f.heap[j] == heap[i]
  {
    var x, rest := heap[i], heap[1..f.heapLen];
    assert rest[i - 1] == x;
    assert x in multiset(rest);
    assert Live(f) == [n] + f.heap[2..f.heapLen + 1];
    Cancel(multiset{n}, multiset(rest), multiset{}, multiset(f.heap[2..f.heapLen + 1]));
    assert x in f.heap[2..f.heapLen + 1];
    var k :| 0 <= k < |f.heap[2..f.heapLen + 1]| && f.heap[2..f.heapLen + 1][k] == x;
    j := k + 2;
  }

  lemma CombinedSizes(f: Forest, elems: nat, leaves: seq<nat>, node: nat, n: nat, heap: seq<nat>)
    requires Taken(f, elems, leaves, node, n, heap)
    ensures node < |f.freq| && |f.dl| == |f.freq| == |f.depth| && n < |f.freq| && heap[1] < |f.freq| && 2 <= f.heapMax
    ensures Sizes(Combined(f, n, heap[1], heap, node), elems, |leaves|, node + 1)
  {
    hide OrderedFrom, Sorted, Pairs, Placed;
    TakenFacts(f, elems, leaves, node, n, heap);
  }

  /** One more inner node. */
  lemma RangeNext(elems: nat, node: nat)
    requires elems <= node
    ensures multiset(Range(elems, node + 1)) == multiset(Range(elems, node)) + multiset{node}
  {
    assert Range(elems, node + 1) == Range(elems, node) + [node];
  }

  lemma CombinedDone(f: Forest, elems: nat, leaves: seq<nat>, node: nat, n: nat, heap: seq<nat>)
    requires Taken(f, elems, leaves, node, n, heap)
    requires node < |f.freq| && |f.dl| == |f.freq| == |f.depth| && n < |f.freq| && heap[1] < |f.freq| && 2 <= f.heapMax
    ensures var c := Combined(f, n, heap[1], heap, node);
            && f.heapLen - 1 < |heap| && c.heapLen < |c.heap| && c.heapMax <= |c.heap|
               && Live(c) == heap[1 := node][1..f.heapLen]
            && multiset(Done(c)) == multiset{heap[1]} + multiset{n} + multiset(Done(f))
  {
    hide OrderedFrom, Sorted, Pairs, Placed;
    TakenFacts(f, elems, leaves, node, n, heap);
    var m := heap[1];
    var c := Combined(f, n, m, heap, node);
    assert Done(c) == [m, n] + Done(f);
    assert multiset([m, n]) == multiset{m} + multiset{n};
  }

  lemma CombinedPlaced(f: Forest, elems: nat, leaves: seq<nat>, node: nat, n: nat, heap: seq<nat>)
    requires Taken(f, elems, leaves, node, n, heap)
    ensures node < |f.freq| && |f.dl| == |f.freq| == |f.depth| && n < |f.freq| && heap[1] < |f.freq| && 2 <= f.heapMax
    ensures var c := Combined(f, n, heap[1], heap, node);
            Sizes(c, elems, |leaves|, node + 1) && Placed(c, elems, leaves, node + 1)
  {
    hide OrderedFrom, Sorted, Pairs, Combined, Live, Done, Range, Nodes;
    CombinedSizes(f, elems, leaves, node, n, heap);
    CombinedDone(f, elems, leaves, node, n, heap);
    var m := heap[1];
    var c := Combined(f, n, m, heap, node);
    var len := f.heapLen - 1;
    ReplaceTop(heap, len, node);
    RangeNext(elems, node);
    Traded(multiset(Live(c)), m, multiset(heap[1..len + 1]), node, n, multiset(Live(f)), multiset(Done(f)),
           multiset(leaves), multiset(Range(elems, node)));
  }

  lemma Traded(live': multiset<nat>, m: nat, middle: multiset<nat>, node: nat, n: nat, live: multiset<nat>,
               done: multiset<nat>, leaves: multiset<nat>, inner: multiset<nat>)
    requires live' + multiset{m} == middle + multiset{node} && middle + multiset{n} == live
    requires live + done == leaves + inner
    ensures live' + (multiset{m} + multiset{n} + done) == leaves + (inner + multiset{node})
  {
    assert live' + (multiset{m} + multiset{n} + done) == (live' + multiset{m}) + multiset{n} + done;
    assert middle + multiset{node} + multiset{n} + done == (middle + multiset{n}) + done + multiset{node};
  }

  lemma CombinedPairs(f: Forest, elems: nat, leaves: seq<nat>, node: nat, n: nat, heap: seq<nat>)
    requires Taken(f, elems, leaves, node, n, heap)
    requires node < |f.freq| && |f.dl| == |f.freq| == |f.depth| && n < |f.freq| && heap[1] < |f.freq| && 2 <= f.heapMax
    ensures Pairs(Combined(f, n, heap[1], heap, node), elems, node + 1 - elems)
  {
    hide OrderedFrom, Sorted, Placed;
    TakenFacts(f, elems, leaves, node, n, heap);
    var c := Combined(f, n, heap[1], heap, node);
    forall j | 1 <= j <= node + 1 - elems
      ensures PairAt(c, elems, j)
    {
      var p := HEAP_SIZE - 2 * j;
      if j <= node - elems {
        assert PairAt(f, elems, j);
        assert heap[p] == Done(f)[p - f.heapMax] && heap[p + 1] == Done(f)[p + 1 - f.heapMax];
      }
    }
  }

  lemma CombinedSorted(f: Forest, elems: nat, leaves: seq<nat>, node: nat, n: nat, heap: seq<nat>)
    requires Taken(f, elems, leaves, node, n, heap)
    requires node < |f.freq| && |f.dl| == |f.freq| == |f.depth| && n < |f.freq| && heap[1] < |f.freq| && 2 <= f.heapMax
    requires Sizes(Combined(f, n, heap[1], heap, node), elems, |leaves|, node + 1)
    ensures Sorted(Combined(f, n, heap[1], heap, node))
  {
    hide OrderedFrom, Pairs;
    TakenFacts(f, elems, leaves, node, n, heap);
    var m := heap[1];
    var c := Combined(f, n, m, heap, node);
    forall p | c.heapMax <= p < HEAP_SIZE
      ensures c.freq[c.heap[p]] <= f.freq[m] && c.freq[c.heap[p]] == f.freq[c.heap[p]]
    {
      if p >= f.heapMax {
        DoneOld(f, elems, leaves, node, p);
      }
    }
  }

  lemma DoneOld(f: Forest, elems: nat, leaves: seq<nat>, node: nat, p: nat)
    requires Sizes(f, elems, |leaves|, node) && Placed(f, elems, leaves, node) && f.heapMax <= p < HEAP_SIZE
    ensures f.heap[p] < node
  {
    var x := f.heap[p];
    assert Done(f)[p - f.heapMax] == x;
    assert x in multiset(Done(f));
    OnlyOnce(elems, leaves, node, x);
  }

  lemma CombinedOrder(f: Forest, elems: nat, leaves: seq<nat>, node: nat, n: nat, heap: seq<nat>)
    requires Taken(f, elems, leaves, node, n, heap)
    requires node < |f.freq| && |f.dl| == |f.freq| == |f.depth| && n < |f.freq| && heap[1] < |f.freq| && 2 <= f.heapMax
    requires Sizes(Combined(f, n, heap[1], heap, node), elems, |leaves|, node + 1)
    ensures var c := Combined(f, n, heap[1], heap, node);
            OrderedFrom(c.heap, c.heapLen, c.freq, c.depth, 2)
  {
    hide Pairs, Sorted, Placed;
    TakenFacts(f, elems, leaves, node, n, heap);
    var c, len := Combined(f, n, heap[1], heap, node), f.heapLen - 1;
    OrderFrame(heap, len, f.freq, f.depth, node, c.freq[node], c.depth[node]);
    forall i: nat | 2 <= i
      ensures OrderAt(c.heap, len, c.freq, c.depth, i)
    {
      assert OrderAt(heap, len, c.freq, c.depth, i);
    }
  }

  /** Entries rearranged among themselves. */
  lemma Rearranged(h: seq<nat>, r: seq<nat>, a: nat, b: nat, i: nat) returns (j: nat)
    requires |r| == |h| && a <= i < b <= |h| && multiset(r[a..b]) == multiset(h[a..b])
    ensures a <= j < b && r[i] == h[j]
  {
    var s, t := h[a..b], r[a..b];
    assert t[i - a] == r[i];
    assert r[i] in multiset(t);
    assert r[i] in s;
    var k :| 0 <= k < |s| && s[k] == r[i];
    j := k + a;
  }

  lemma SettledShape(c: Forest, elems: nat, leaves: seq<nat>, node: nat, r: seq<nat>)
    requires Sizes(c, elems, |leaves|, node) && Placed(c, elems, leaves, node) && Pairs(c, elems, node - elems)
             && Sorted(c)
    requires |r| == HEAP_SIZE && Nodes(r, c.freq, c.depth) && OrderedFrom(r, c.heapLen, c.freq, c.depth, 1)
    requires multiset(r) == multiset(c.heap) && 1 <= c.heapLen < c.heapMax
    requires forall i :: 0 <= i < HEAP_SIZE && (i < 1 || i > c.heapLen) ==> r[i] == c.heap[i]
    ensures Shape(c.(heap := r), elems, leaves, node)
  {
    hide OrderedFrom, Pairs, Sorted, Distinct, Nodes;
    SliceSame(c.heap, r, 1, c.heapLen + 1);
    var d := c.(heap := r);
    assert Done(d) == Done(c) by { assert r[c.heapMax..] == c.heap[c.heapMax..]; }
    SamePairs(c, d, elems, node - elems);
    StillSorted(c, r);
  }

  lemma SamePairs(c: Forest, d: Forest, elems: nat, k: nat)
    requires |c.heap| == |d.heap| == HEAP_SIZE && 2 * k <= HEAP_SIZE && Pairs(c, elems, k)
    requires d.dl == c.dl && d.freq == c.freq && d.depth == c.depth
    requires forall i :: HEAP_SIZE - 2 * k <= i < HEAP_SIZE ==> d.heap[i] == c.heap[i]
    ensures Pairs(d, elems, k)
  {
    hide PairAt;
    forall j | 1 <= j <= k
      ensures PairAt(d, elems, j)
    {
      assert PairAt(c, elems, j);
      SamePair(c, d, elems, j);
    }
  }

  lemma StillSorted(c: Forest, r: seq<nat>)
    requires |c.heap| == HEAP_SIZE && Nodes(c.heap, c.freq, c.depth) && c.heapLen < c.heapMax <= HEAP_SIZE && Sorted(c)
    requires |r| == HEAP_SIZE && Nodes(r, c.freq, c.depth)
             && multiset(r[1..c.heapLen + 1]) == multiset(c.heap[1..c.heapLen + 1])
    requires forall i :: c.heapMax <= i < HEAP_SIZE ==> r[i] == c.heap[i]
    ensures Sorted(c.(heap := r))
  {
    forall i, p | 1 <= i <= c.heapLen && c.heapMax <= p < HEAP_SIZE
      ensures c.freq[r[i]] >= c.freq[r[p]]
    {
      var k := Rearranged(c.heap, r, 1, c.heapLen + 1, i);
    }
  }

  lemma SamePair(c: Forest, d: Forest, elems: nat, j: nat)
    requires |c.heap| == |d.heap| == HEAP_SIZE && 1 <= j && 2 * j <= HEAP_SIZE && PairAt(c, elems, j)
    requires d.dl == c.dl && d.freq == c.freq && d.depth == c.depth
    requires d.heap[HEAP_SIZE - 2 * j] == c.heap[HEAP_SIZE - 2 * j]
             && d.heap[HEAP_SIZE - 2 * j + 1] == c.heap[HEAP_SIZE - 2 * j + 1]
    ensures PairAt(d, elems, j)
  {
  }

  /** What is left to pay: the least cost of a code for the live nodes. */
  ghost function Rest(f: Forest): nat
    requires f.heapLen < |f.heap| && Nodes(f.heap, f.freq, f.depth)
  {
    B.HuffCost(Bag(Live(f), f.freq))
  }

  ghost function LiveMass(f: Forest): nat
    requires f.heapLen < |f.heap| && Nodes(f.heap, f.freq, f.depth)
  {
    Mass(Live(f), f.freq)
  }

  /** x weighs enough for its height, and y for that of the higher son of x. */
  predicate Tall(freq: seq<nat>, depth: seq<nat>, x: nat, y: nat)
    requires x < |freq| && y < |freq| && |depth| == |freq|
  {
    freq[x] >= Phi(depth[x]) && (depth[x] >= 1 ==> freq[y] >= Phi(depth[x] - 1))
  }

  /** The live nodes weigh enough for their heights, and so do all nodes for the sons of the
      others. */
  predicate Heights(f: Forest)
    requires f.heapLen < |f.heap| && Nodes(f.heap, f.freq, f.depth)
  {
    forall i, j :: 1 <= i <= f.heapLen && 1 <= j <= f.heapLen ==> Tall(f.freq, f.depth, f.heap[i], f.heap[j])
  }

  /** The heap without the two nodes taken, and with their father. */
  lemma CombinedTail(f: Forest, elems: nat, leaves: seq<nat>, node: nat, n: nat, heap: seq<nat>)
    requires Taken(f, elems, leaves, node, n, heap)
    requires node < |f.freq| && |f.dl| == |f.freq| == |f.depth| && n < |f.freq| && heap[1] < |f.freq| && 2 <= f.heapMax
    ensures var c, m, tail := Combined(f, n, heap[1], heap, node), heap[1], heap[2..f.heapLen];
            && multiset([n, m] + tail) == multiset(Live(f)) && c.heapLen < |c.heap| && Live(c) == [node] + tail
            && f.freq[n] <= f.freq[m] && Inside(tail, f.freq)
            && forall i :: 0 <= i < |tail| ==> tail[i] < node && f.freq[m] <= f.freq[tail[i]]
  {
    hide Taken, Shape, OrderedFrom;
    TakenFacts(f, elems, leaves, node, n, heap);
    TakenTail(f, elems, leaves, node, n, heap);
    TailWith(heap[f.heapMax - 1 := n][f.heapMax - 2 := heap[1]], heap, f.heapLen, node);
    TailFacts(heap, f.heapLen, f.freq, node);
  }

  lemma TakenTail(f: Forest, elems: nat, leaves: seq<nat>, node: nat, n: nat, heap: seq<nat>)
    requires Taken(f, elems, leaves, node, n, heap)
    ensures f.heapLen >= 2 && |heap| == HEAP_SIZE && f.heapMax <= HEAP_SIZE
    ensures multiset([n, heap[1]] + heap[2..f.heapLen]) == multiset(Live(f))
  {
    hide OrderedFrom, Sorted, Placed, Pairs, Nodes;
    TwoAndTail(heap, f.heapLen, n);
  }

  lemma TailFacts(heap: seq<nat>, len: nat, freq: seq<nat>, node: nat)
    requires 2 <= len <= |heap| && node < |freq| && heap[1] < |freq|
    requires forall i :: 1 <= i < len ==> heap[i] < node && freq[heap[1]] <= freq[heap[i]]
    ensures var tail := heap[2..len];
            && Inside(tail, freq)
            && forall i :: 0 <= i < |tail| ==> tail[i] < node && freq[heap[1]] <= freq[tail[i]]
  {
    assert forall i :: 0 <= i < len - 2 ==> heap[2..len][i] == heap[i + 2];
  }

  lemma TwoAndTail(heap: seq<nat>, len: nat, n: nat)
    requires 2 <= len <= |heap|
    ensures multiset([n, heap[1]] + heap[2..len]) == multiset(heap[1..len]) + multiset{n}
  {
    assert heap[1..len] == [heap[1]] + heap[2..len];
    assert [n, heap[1]] + heap[2..len] == [n] + heap[1..len];
  }

  lemma TailWith(h: seq<nat>, heap: seq<nat>, len: nat, node: nat)
    requires 2 <= len <= |heap| == |h| && forall i :: 2 <= i < len ==> h[i] == heap[i]
    ensures h[1 := node][1..len] == [node] + heap[2..len]
  {
  }

  /** The new node is paid for, and the mass stays the same. */
  lemma CombinedCost(f: Forest, elems: nat, leaves: seq<nat>, node: nat, n: nat, heap: seq<nat>)
    requires Taken(f, elems, leaves, node, n, heap)
    requires node < |f.freq| && |f.dl| == |f.freq| == |f.depth| && n < |f.freq| && heap[1] < |f.freq| && 2 <= f.heapMax
    requires Sizes(Combined(f, n, heap[1], heap, node), elems, |leaves|, node + 1)
    ensures var c := Combined(f, n, heap[1], heap, node);
            Rest(f) == c.freq[node] + Rest(c) && LiveMass(f) == LiveMass(c)
  {
    hide OrderedFrom, Sorted, Placed, Pairs, Bag, Mass, B.HuffCost;
    CombinedTail(f, elems, leaves, node, n, heap);
    var c, m, tail := Combined(f, n, heap[1], heap, node), heap[1], heap[2..f.heapLen];
    CombineLeast(n, m, tail, f.freq);
    BagSame([n, m] + tail, Live(f), f.freq);
    BagFront(node, tail, c.freq);
    BagFrame(tail, f.freq, c.freq);
  }

  lemma LiveTall(f: Forest, x: nat, y: nat)
    requires f.heapLen < |f.heap| && Nodes(f.heap, f.freq, f.depth) && Heights(f) && x in Live(f) && y in Live(f)
    ensures x < |f.freq| && y < |f.freq| && Tall(f.freq, f.depth, x, y)
  {
    hide Tall;
    var i :| 0 <= i < |Live(f)| && Live(f)[i] == x;
    var j :| 0 <= j < |Live(f)| && Live(f)[j] == y;
    assert f.heap[i + 1] == x && f.heap[j + 1] == y;
  }

  lemma CombinedHeights(f: Forest, elems: nat, leaves: seq<nat>, node: nat, n: nat, heap: seq<nat>)
    requires Taken(f, elems, leaves, node, n, heap) && Heights(f)
    requires node < |f.freq| && |f.dl| == |f.freq| == |f.depth| && n < |f.freq| && heap[1] < |f.freq| && 2 <= f.heapMax
    requires Sizes(Combined(f, n, heap[1], heap, node), elems, |leaves|, node + 1)
    ensures Heights(Combined(f, n, heap[1], heap, node))
  {
    hide OrderedFrom, Sorted, Placed, Pairs, Heights;
    CombinedTail(f, elems, leaves, node, n, heap);
    HeightsStep(f, Combined(f, n, heap[1], heap, node), node, n, heap[1], heap[2..f.heapLen]);
  }

  lemma HeightsStep(f: Forest, c: Forest, node: nat, n: nat, m: nat, tail: seq<nat>)
    requires f.heapLen < |f.heap| && Nodes(f.heap, f.freq, f.depth) && Heights(f)
             && multiset([n, m] + tail) == multiset(Live(f))
    requires c.heapLen < |c.heap| && Nodes(c.heap, c.freq, c.depth) && Live(c) == [node] + tail
    requires n < |f.freq| && m < |f.freq| && node < |f.freq| && f.freq[n] <= f.freq[m]
    requires c.freq == f.freq[node := f.freq[n] + f.freq[m]]
    requires c.depth == f.depth[node := (if f.depth[n] >= f.depth[m] then f.depth[n] else f.depth[m]) + 1]
    requires Inside(tail, f.freq) && forall i :: 0 <= i < |tail| ==> tail[i] < node && f.freq[m] <= f.freq[tail[i]]
    ensures Heights(c)
  {
    hide Heights, Phi, Live;
    TakenLive(f, n, m, tail);
    LiveTall(f, n, m);
    LiveTall(f, m, n);
    PhiStep(f.freq[n], f.freq[m], f.depth[n], f.depth[m]);
    forall x, y | x in Live(c) && y in Live(c)
      ensures x < |c.freq| && y < |c.freq| && Tall(c.freq, c.depth, x, y)
    {
      if x != node {
        LiveTall(f, x, n);
        if y != node {
          LiveTall(f, x, y);
        }
      }
    }
    AllTall(c);
  }

  lemma AllTall(c: Forest)
    requires c.heapLen < |c.heap| && Nodes(c.heap, c.freq, c.depth)
    requires forall x, y :: x in Live(c) && y in Live(c) ==> x < |c.freq| && y < |c.freq| && Tall(c.freq, c.depth, x, y)
    ensures Heights(c)
  {
    hide Tall;
    forall i, j | 1 <= i <= c.heapLen && 1 <= j <= c.heapLen
      ensures Tall(c.freq, c.depth, c.heap[i], c.heap[j])
    {
      assert Live(c)[i - 1] == c.heap[i] && Live(c)[j - 1] == c.heap[j];
    }
  }

  lemma TakenLive(f: Forest, n: nat, m: nat, tail: seq<nat>)
    requires f.heapLen < |f.heap| && multiset([n, m] + tail) == multiset(Live(f))
    ensures n in Live(f) && m in Live(f) && forall x :: x in tail ==> x in Live(f)
  {
    var s := [n, m] + tail;
    assert s[0] == n && s[1] == m;
    forall x | x in s
      ensures x in Live(f)
    {
      assert x in multiset(s);
    }
    forall x | x in tail
      ensures x in s
    {
      var i :| 0 <= i < |tail| && tail[i] == x;
      assert s[i + 2] == x;
    }
  }

  /** The same live nodes in another order. */
  lemma SettledCost(c: Forest, r: seq<nat>)
    requires |c.heap| == |r| && c.heapLen < |r| && Nodes(c.heap, c.freq, c.depth) && Nodes(r, c.freq, c.depth)
    requires multiset(r[1..c.heapLen + 1]) == multiset(c.heap[1..c.heapLen + 1])
    ensures Rest(c.(heap := r)) == Rest(c) && LiveMass(c.(heap := r)) == LiveMass(c)
    ensures Heights(c) ==> Heights(c.(heap := r))
  {
    hide Bag, Mass, Tall;
    var d := c.(heap := r);
    BagSame(Live(c), Live(d), c.freq);
    if Heights(c) {
      forall i, j | 1 <= i <= d.heapLen && 1 <= j <= d.heapLen
        ensures Tall(d.freq, d.depth, d.heap[i], d.heap[j])
      {
        var k := Rearranged(c.heap, r, 1, c.heapLen + 1, i);
        var l := Rearranged(c.heap, r, 1, c.heapLen + 1, j);
      }
    }
  }

  /** One round of the loop: the two least frequent nodes get a father. */
  method Combine(f: Forest, elems: nat, ghost leaves: seq<nat>, node: nat) returns (r: Forest)
    requires Shape(f, elems, leaves, node) && f.heapLen >= 2
    ensures Shape(r, elems, leaves, node + 1) && node < |r.freq| == |f.freq|
    ensures forall n :: 0 <= n < node ==> r.freq[n] == f.freq[n]
    ensures forall n :: 0 <= n < elems && n !in leaves ==> r.dl[n] == f.dl[n]
    ensures Rest(f) == r.freq[node] + Rest(r) && LiveMass(r) == LiveMass(f) && (Heights(f) ==> Heights(r))
  {
    hide OrderedFrom, Pairs, Sorted, Placed, Heights, Rest, LiveMass;
    var n, heap := PqRemove(f.heap, f.heapLen, f.freq, f.depth);
    CombinedPlaced(f, elems, leaves, node, n, heap);
    CombinedPairs(f, elems, leaves, node, n, heap);
    CombinedSorted(f, elems, leaves, node, n, heap);
    CombinedOrder(f, elems, leaves, node, n, heap);
    CombinedCost(f, elems, leaves, node, n, heap);
    if Heights(f) {
      CombinedHeights(f, elems, leaves, node, n, heap);
    }
    var c := Combined(f, n, heap[1], heap, node);
    LeafOrInner(f, elems, leaves, node, n, heap);
    var h := PqDownHeap(c.heap, c.heapLen, c.freq, c.depth, 1);
    SettledShape(c, elems, leaves, node + 1, h);
    SliceSame(c.heap, h, 1, c.heapLen + 1);
    SettledCost(c, h);
    r := c.(heap := h);
  }

  /** The nodes combined are leaves, or were made before. */
  lemma LeafOrInner(f: Forest, elems: nat, leaves: seq<nat>, node: nat, n: nat, heap: seq<nat>)
    requires Taken(f, elems, leaves, node, n, heap)
    ensures n < elems ==> n in leaves
    ensures heap[1] < elems ==> heap[1] in leaves
  {
    hide OrderedFrom, Pairs, Sorted;
    assert Live(f)[0] == n;
    assert n in multiset(Live(f));
    assert heap[1..f.heapLen][0] == heap[1];
    assert heap[1] in multiset(heap[1..f.heapLen]);
    BaseLeaf(elems, leaves, node, n);
    BaseLeaf(elems, leaves, node, heap[1]);
  }

  lemma BaseLeaf(elems: nat, leaves: seq<nat>, node: nat, x: nat)
    requires elems <= node && x in multiset(leaves) + multiset(Range(elems, node))
    ensures x < elems ==> x in leaves
  {
    if x !in multiset(leaves) {
      assert x in multiset(Range(elems, node));
      assert x in Range(elems, node);
    }
  }

  // ------------------------------------------------------------- the initial heap

  /** The entries 1..len are exactly the symbols below n that have a frequency, and
      none is above max. */
  ghost predicate Gathered(heap: seq<nat>, len: nat, freq: seq<nat>, n: nat, max: int)
    requires len < |heap| && n <= |freq|
  {
    && (forall i :: 1 <= i <= len ==> heap[i] < n && freq[heap[i]] != 0 && heap[i] <= max)
    && (forall i, j :: 1 <= i < j <= len ==> heap[i] != heap[j])
    && (forall s :: 0 <= s < n && freq[s] != 0 ==> exists i :: 1 <= i <= len && heap[i] == s)
    && (if len == 0 then max == -1 else 0 <= max < n && freq[max] != 0)
  }

  /** The heap of all symbols in use, before it is ordered. */
  method Gather(freq: seq<nat>, dl: seq<nat>, elems: nat) returns (heap: seq<nat>, len: nat, max: int, dl': seq<nat>)
    requires 3 <= elems <= 286 && 2 * elems <= |freq| && |dl| == |freq|
    ensures |heap| == HEAP_SIZE && len <= elems && Gathered(heap, len, freq, elems, max) && |dl'| == |dl|
    ensures forall s :: 0 <= s < elems && freq[s] == 0 ==> dl'[s] == 0
    ensures forall i :: 0 <= i < HEAP_SIZE ==> heap[i] < |freq|
  {
    hide Gathered;
    heap, len, max, dl' := seq(HEAP_SIZE, _ => 0), 0, -1, dl;
    var n := 0;
    GatherNone(heap, freq);
    while n < elems
      invariant n <= elems && len <= n && |heap| == HEAP_SIZE && Gathered(heap, len, freq, n, max) && |dl'| == |dl|
      invariant forall s :: 0 <= s < n && freq[s] == 0 ==> dl'[s] == 0
      invariant forall i :: 0 <= i < HEAP_SIZE ==> heap[i] < |freq|
    {
      if freq[n] != 0 {
        GatherNext(heap, len, freq, n, max);
        len := len + 1;
        heap := heap[len := n];
        max := n;
      } else {
        GatherSkip(heap, len, freq, n, max);
        dl' := dl'[n := 0];
      }
      n := n + 1;
    }
  }

  lemma GatherNone(heap: seq<nat>, freq: seq<nat>)
    requires |heap| > 0
    ensures Gathered(heap, 0, freq, 0, -1)
  {
  }

  lemma GatherSkip(heap: seq<nat>, len: nat, freq: seq<nat>, n: nat, max: int)
    requires len < |heap| && n < |freq| && Gathered(heap, len, freq, n, max) && freq[n] == 0
    ensures Gathered(heap, len, freq, n + 1, max)
  {
  }

  lemma GatherNext(heap: seq<nat>, len: nat, freq: seq<nat>, n: nat, max: int)
    requires len + 1 < |heap| && n < |freq| && Gathered(heap, len, freq, n, max) && freq[n] != 0
    ensures Gathered(heap[len + 1 := n], len + 1, freq, n + 1, n)
  {
    var h := heap[len + 1 := n];
    forall s | 0 <= s < n + 1 && freq[s] != 0
      ensures exists i :: 1 <= i <= len + 1 && h[i] == s
    {
      if s < n {
        var i :| 1 <= i <= len && heap[i] == s;
        assert h[i] == s;
      } else {
        assert h[len + 1] == s;
      }
    }
  }

  /** The symbol given a frequency although it does not occur. */
  function ForcedNode(max: int): nat
    requires -1 <= max
  {
    if max < 2 then max + 1 else 0
  }

  lemma ForceNext(heap: seq<nat>, len: nat, freq: seq<nat>, elems: nat, max: int)
    requires len + 1 < |heap| && 3 <= elems <= |freq| && Gathered(heap, len, freq, elems, max) && len < 2
    ensures -1 <= max
    ensures var node := ForcedNode(max);
            && node < elems && freq[node] == 0
            && Gathered(heap[len + 1 := node], len + 1, freq[node := 1], elems, if max < 2 then max + 1 else max)
  {
    var node := ForcedNode(max);
    if len == 0 {
      assert forall s :: 0 <= s < elems ==> freq[s] == 0;
    } else {
      assert heap[1] == max;
      assert forall s :: 0 <= s < elems && s != max ==> freq[s] == 0;
    }
    var h, f := heap[len + 1 := node], freq[node := 1];
    assert h[len + 1] == node;
    assert len == 1 ==> h[1] == heap[1];
  }

  /** At least two symbols get a code. */
  method ForceTwo(heap0: seq<nat>, len0: nat, freq0: seq<nat>, elems: nat, max0: int)
    returns (heap: seq<nat>, len: nat, freq: seq<nat>, max: nat, forced: seq<nat>)
    requires |heap0| == HEAP_SIZE && 3 <= elems <= 286 && 2 * elems <= |freq0| && len0 <= elems
    requires Gathered(heap0, len0, freq0, elems, max0) && forall i :: 0 <= i < HEAP_SIZE ==> heap0[i] < |freq0|
    ensures |heap| == HEAP_SIZE && 2 <= len <= elems && |freq| == |freq0| && max < elems
    ensures Gathered(heap, len, freq, elems, max) && forall i :: 0 <= i < HEAP_SIZE ==> heap[i] < |freq0|
    ensures Distinct(forced) && (forced != [] ==> len == 2) && len == len0 + |forced|
    ensures forall i :: 0 <= i < |forced| ==> forced[i] < 3 && freq0[forced[i]] == 0
    ensures forall s :: 0 <= s < |freq| ==> freq[s] == if s in forced then 1 else freq0[s]
  {
    hide Gathered;
    heap, len, freq, forced := heap0, len0, freq0, [];
    var top := max0;
    GatheredMax(heap, len, freq, elems, top);
    while len < 2
      invariant len0 <= len <= elems && |heap| == HEAP_SIZE && |freq| == |freq0| && -1 <= top < elems
      invariant Gathered(heap, len, freq, elems, top) && forall i :: 0 <= i < HEAP_SIZE ==> heap[i] < |freq0|
      invariant Distinct(forced) && len == len0 + |forced| && (forced != [] ==> len <= 2) && (len >= 2 ==> top >= 0)
      invariant forall i :: 0 <= i < |forced| ==> forced[i] < 3 && freq0[forced[i]] == 0
      invariant forall s :: 0 <= s < |freq| ==> freq[s] == if s in forced then 1 else freq0[s]
      decreases 2 - len
    {
      ForceNext(heap, len, freq, elems, top);
      var node := ForcedNode(top);
      if top < 2 {
        top := top + 1;
      }
      len := len + 1;
      heap := heap[len := node];
      freq := freq[node := 1];
      forced := forced + [node];
    }
    max := top;
  }

  lemma GatheredMax(heap: seq<nat>, len: nat, freq: seq<nat>, n: nat, max: int)
    requires len < |heap| && n <= |freq| && Gathered(heap, len, freq, n, max)
    ensures -1 <= max < n && (len >= 1 ==> max >= 0)
  {
  }

  // ---------------------------------------------------------------- the whole tree

  lemma NoFathers(heap: seq<nat>, len: nat, freq: seq<nat>, depth: seq<nat>)
    requires len < |heap| && Nodes(heap, freq, depth)
    ensures OrderedFrom(heap, len, freq, depth, len / 2 + 1)
  {
  }

  /** Puts the smallest symbol first. */
  method Heapify(heap0: seq<nat>, len: nat, freq: seq<nat>, depth: seq<nat>) returns (heap: seq<nat>)
    requires 1 <= len < |heap0| && Nodes(heap0, freq, depth)
    ensures |heap| == |heap0| && Nodes(heap, freq, depth) && OrderedFrom(heap, len, freq, depth, 1)
    ensures multiset(heap[1..len + 1]) == multiset(heap0[1..len + 1])
  {
    hide OrderedFrom;
    heap := heap0;
    var n := len / 2;
    NoFathers(heap, len, freq, depth);
    while n >= 1
      invariant 0 <= n <= len / 2 && |heap| == |heap0| && Nodes(heap, freq, depth)
      invariant OrderedFrom(heap, len, freq, depth, n + 1) && multiset(heap) == multiset(heap0)
      invariant forall i :: 0 <= i < |heap| && (i < 1 || i > len) ==> heap[i] == heap0[i]
    {
      heap := PqDownHeap(heap, len, freq, depth, n);
      n := n - 1;
    }
    SliceSame(heap0, heap, 1, len + 1);
  }

  /** All nodes in their final order: the root, then pairs of brothers, the last
      combined first. */
  ghost predicate TreeOrder(f: Forest, elems: nat, leaves: seq<nat>) {
    var k := |leaves| - 1;
    && |f.heap| == HEAP_SIZE && Nodes(f.heap, f.freq, f.depth) && |f.dl| == |f.freq| && 2 <= |leaves| <= elems <= 286
    && 2 * elems <= |f.freq| && f.heapMax == HEAP_SIZE - 2 * k - 1 && f.heap[f.heapMax] == elems + k - 1
    && Distinct(leaves) && (forall i :: 0 <= i < |leaves| ==> leaves[i] < elems)
    && multiset(f.heap[f.heapMax..]) == multiset(leaves) + multiset(Range(elems, elems + k))
    && Pairs(f, elems, k)
    && forall p, q :: f.heapMax < p <= q < HEAP_SIZE ==> f.freq[f.heap[p]] >= f.freq[f.heap[q]]
  }

  lemma RootIs(f: Forest, elems: nat, leaves: seq<nat>, node: nat)
    requires Shape(f, elems, leaves, node) && f.heapLen == 1
    ensures node == elems + |leaves| - 1 && f.heap[1] == node - 1
  {
    hide OrderedFrom, Sorted;
    var x := node - 1;
    assert Range(elems, node)[x - elems] == x;
    assert x in multiset(Range(elems, node));
    assert x in multiset(Live(f)) + multiset(Done(f));
    assert x !in multiset(Done(f)) by {
      forall p | 0 <= p < |Done(f)|
        ensures Done(f)[p] != x
      {
        PairOf(f, elems, node - elems, f.heapMax + p);
      }
    }
    assert x in multiset(Live(f));
    assert Live(f) == [f.heap[1]];
    assert multiset([f.heap[1]]) == multiset{f.heap[1]};
  }

  /** A combined node is older than its father. */
  lemma PairOf(f: Forest, elems: nat, k: nat, p: nat)
    requires |f.heap| == HEAP_SIZE && 2 * k <= HEAP_SIZE && Pairs(f, elems, k) && HEAP_SIZE - 2 * k <= p < HEAP_SIZE
    ensures f.heap[p] < elems + k - 1
  {
    var j := (HEAP_SIZE - p + 1) / 2;
    assert PairAt(f, elems, j);
  }

  /** One more node made. */
  lemma MassNext(freq: seq<nat>, freq': seq<nat>, a: nat, b: nat)
    requires a <= b < |freq| == |freq'| && forall n :: 0 <= n < b ==> freq'[n] == freq[n]
    ensures Mass(Range(a, b + 1), freq') == Mass(Range(a, b), freq) + freq'[b]
  {
    hide Mass;
    assert Range(a, b + 1) == Range(a, b) + [b] + [];
    BagOut(Range(a, b), b, [], freq');
    assert Range(a, b) + [] == Range(a, b);
    BagFront(b, Range(a, b), freq');
    BagFrame(Range(a, b), freq, freq');
  }

  lemma StartMass(f: Forest, elems: nat, leaves: seq<nat>)
    requires Shape(f, elems, leaves, elems)
    ensures Inside(leaves, f.freq) && Rest(f) == B.HuffCost(Bag(leaves, f.freq)) && LiveMass(f) == Mass(leaves, f.freq)
    ensures Mass(Range(elems, elems), f.freq) == 0 && forall i :: 0 <= i < |leaves| ==> leaves[i] < elems
  {
    hide OrderedFrom, Pairs, Bag;
    assert Done(f) == [] && Range(elems, elems) == [];
    assert multiset(Live(f)) + multiset(Done(f)) == multiset(leaves) + multiset(Range(elems, elems));
    assert multiset(Live(f)) + multiset(Done(f)) == multiset(Live(f));
    assert multiset(leaves) + multiset(Range(elems, elems)) == multiset(leaves);
    BagSame(Live(f), leaves, f.freq);
  }

  /** At the end there is the root alone. */
  lemma EndMass(f: Forest, elems: nat, leaves: seq<nat>, node: nat)
    requires Shape(f, elems, leaves, node) && f.heapLen == 1 && Heights(f)
    ensures Rest(f) == 0 && LiveMass(f) == f.freq[f.heap[1]] >= Phi(f.depth[f.heap[1]])
  {
    hide OrderedFrom, Pairs, Placed, Sorted;
    assert Live(f) == [f.heap[1]] + [];
    BagFront(f.heap[1], [], f.freq);
    B.FewCost(Bag(Live(f), f.freq));
  }

  /** The combining loop of build_tree.  What its nodes weigh together is the least cost of
      any code for the leaves, and the root weighs enough for its height. */
  method GrowTree(f0: Forest, elems: nat, ghost leaves: seq<nat>) returns (f: Forest)
    requires Shape(f0, elems, leaves, elems) && Heights(f0)
    ensures TreeOrder(f, elems, leaves) && |f.freq| == |f0.freq|
    ensures forall n :: 0 <= n < elems ==> f.freq[n] == f0.freq[n]
    ensures forall n :: 0 <= n < elems && n !in leaves ==> f.dl[n] == f0.dl[n]
    ensures Inside(leaves, f.freq) && 2 <= |leaves| <= elems && elems + |leaves| - 1 <= |f.freq| == |f.depth|
    ensures Mass(Range(elems, elems + |leaves| - 1), f.freq) == B.HuffCost(Bag(leaves, f.freq))
    ensures var root := elems + |leaves| - 2;
            f.freq[root] == Mass(leaves, f.freq) && f.freq[root] >= Phi(f.depth[root])
  {
    hide OrderedFrom, Pairs, Placed, Heights, Rest, LiveMass, Bag, Mass, B.HuffCost, Phi;
    f := f0;
    var node := elems;
    StartMass(f, elems, leaves);
    f := Combine(f, elems, leaves, node);
    MassNext(f0.freq, f.freq, elems, node);
    node := node + 1;
    while f.heapLen >= 2
      invariant Shape(f, elems, leaves, node) && Heights(f) && |f.freq| == |f0.freq|
      invariant forall n :: 0 <= n < elems ==> f.freq[n] == f0.freq[n]
      invariant forall n :: 0 <= n < elems && n !in leaves ==> f.dl[n] == f0.dl[n]
      invariant Rest(f) + Mass(Range(elems, node), f.freq) == Rest(f0) && LiveMass(f) == LiveMass(f0)
      decreases f.heapLen
    {
      ghost var was := f;
      f := Combine(f, elems, leaves, node);
      MassNext(was.freq, f.freq, elems, node);
      node := node + 1;
    }
    RootIs(f, elems, leaves, node);
    EndMass(f, elems, leaves, node);
    BagFrame(leaves, f0.freq, f.freq);
    FinishOrder(f, elems, leaves, node);
    f := Rooted(f);
  }

  lemma SortedTail(f: Forest)
    requires |f.heap| == HEAP_SIZE && Nodes(f.heap, f.freq, f.depth) && f.heapLen < HEAP_SIZE && f.heapMax <= HEAP_SIZE
    requires Sorted(f)
    ensures forall p, q :: f.heapMax <= p <= q < HEAP_SIZE ==> f.freq[f.heap[p]] >= f.freq[f.heap[q]]
  {
  }

  /** The tree with its root in place. */
  function Rooted(f: Forest): (g: Forest)
    requires |f.heap| == HEAP_SIZE && 1 <= f.heapMax <= HEAP_SIZE
    ensures |g.heap| == HEAP_SIZE && g.heapMax == f.heapMax - 1
            && forall i :: f.heapMax <= i < HEAP_SIZE ==> g.heap[i] == f.heap[i]
    ensures g.heap[g.heapMax..] == [f.heap[1]] + f.heap[f.heapMax..]
  {
    f.(heap := f.heap[f.heapMax - 1 := f.heap[1]], heapMax := f.heapMax - 1)
  }

  lemma RootedPairs(f: Forest, elems: nat, k: nat)
    requires |f.heap| == HEAP_SIZE && f.heapMax == HEAP_SIZE - 2 * k && k <= 286 && Pairs(f, elems, k)
    ensures Pairs(Rooted(f), elems, k)
  {
    hide PairAt;
    forall j | 1 <= j <= k
      ensures PairAt(Rooted(f), elems, j)
    {
      assert PairAt(f, elems, j);
      SamePair(f, Rooted(f), elems, j);
    }
  }

  lemma RootedPlaced(f: Forest, elems: nat, leaves: seq<nat>, node: nat)
    requires |f.heap| == HEAP_SIZE && f.heapLen == 1 && 1 <= f.heapMax <= HEAP_SIZE && elems <= node
             && Placed(f, elems, leaves, node)
    ensures var g := Rooted(f); multiset(g.heap[g.heapMax..]) == multiset(leaves) + multiset(Range(elems, node))
  {
    assert Live(f) == [f.heap[1]];
    assert multiset(Rooted(f).heap[Rooted(f).heapMax..]) == multiset([f.heap[1]]) + multiset(Done(f));
  }

  lemma FinishOrder(f: Forest, elems: nat, leaves: seq<nat>, node: nat)
    requires Shape(f, elems, leaves, node) && f.heapLen == 1 && node == elems + |leaves| - 1 && f.heap[1] == node - 1
    ensures 1 <= f.heapMax <= HEAP_SIZE && |f.heap| == HEAP_SIZE && TreeOrder(Rooted(f), elems, leaves)
  {
    hide OrderedFrom, Pairs, Sorted, Placed, Rooted, Nodes, Range;
    RootedPairs(f, elems, node - elems);
    RootedPlaced(f, elems, leaves, node);
    RootedFields(f);
    PlacedLeaves(f, elems, leaves, node);
  }

  lemma RootedFields(f: Forest)
    requires |f.heap| == HEAP_SIZE && Nodes(f.heap, f.freq, f.depth) && f.heapLen < HEAP_SIZE
             && 1 <= f.heapMax <= HEAP_SIZE
    requires Sorted(f)
    ensures var g := Rooted(f);
            && g.freq == f.freq && g.dl == f.dl && g.depth == f.depth && Nodes(g.heap, g.freq, g.depth)
               && g.heap[g.heapMax] == f.heap[1]
            && forall p, q :: g.heapMax < p <= q < HEAP_SIZE ==> g.freq[g.heap[p]] >= g.freq[g.heap[q]]
  {
    hide Sorted;
    SortedTail(f);
  }

  lemma PlacedLeaves(f: Forest, elems: nat, leaves: seq<nat>, node: nat)
    requires elems <= node && f.heapLen < |f.heap| && f.heapMax <= |f.heap| && Placed(f, elems, leaves, node)
    ensures Distinct(leaves) && (forall i :: 0 <= i < |leaves| ==> leaves[i] < elems)
  {
  }
}
