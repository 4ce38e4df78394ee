/** trees.c: the nodes of a finished tree in the order in which build_tree leaves them, and
    what the lengths that the tree gives cost. */
module TreeList {
  import opened Bits
  import opened HuffmanTree
  import opened HuffmanBags
  import B = HuffmanBest

  // -------------------------------------------------------- the list of all nodes

  lemma ListOnce(f: Forest, elems: nat, leaves: seq<nat>, p: nat, q: nat)
    requires TreeOrder(f, elems, leaves) && f.heapMax <= p < HEAP_SIZE && f.heapMax <= q < HEAP_SIZE && p != q
    ensures f.heap[p] != f.heap[q]
  {
    hide Pairs;
    var s, k := f.heap[f.heapMax..], |leaves| - 1;
    OnlyOnce(elems, leaves, elems + k, f.heap[p]);
    if s[p - f.heapMax] == s[q - f.heapMax] {
      Twice(s, p - f.heapMax, q - f.heapMax);
    }
  }

  lemma ListNode(f: Forest, elems: nat, leaves: seq<nat>, p: nat)
    requires TreeOrder(f, elems, leaves) && f.heapMax <= p < HEAP_SIZE
    ensures f.heap[p] < elems + |leaves| - 1 && (f.heap[p] < elems ==> f.heap[p] in leaves)
  {
    hide Pairs;
    var s, k := f.heap[f.heapMax..], |leaves| - 1;
    assert s[p - f.heapMax] == f.heap[p];
    assert f.heap[p] in multiset(s);
    OnlyOnce(elems, leaves, elems + k, f.heap[p]);
    BaseLeaf(elems, leaves, elems + k, f.heap[p]);
  }

  /** Where a node of the tree stands in the list. */
  lemma ListPosition(f: Forest, elems: nat, leaves: seq<nat>, x: nat) returns (p: nat)
    requires TreeOrder(f, elems, leaves) && (x in leaves || elems <= x < elems + |leaves| - 1)
    ensures f.heapMax <= p < HEAP_SIZE && f.heap[p] == x
  {
    hide Pairs;
    var s, k := f.heap[f.heapMax..], |leaves| - 1;
    if x in leaves {
      assert x in multiset(leaves);
    } else {
      assert Range(elems, elems + k)[x - elems] == x;
      assert x in multiset(Range(elems, elems + k));
    }
    assert x in multiset(s);
    assert x in s;
    var i :| 0 <= i < |s| && s[i] == x;
    p := f.heapMax + i;
  }

  /** A father comes before his sons. */
  lemma DadBefore(f: Forest, elems: nat, leaves: seq<nat>, j: nat) returns (p: nat)
    requires TreeOrder(f, elems, leaves) && 1 <= j <= |leaves| - 1
    ensures f.heapMax <= p < HEAP_SIZE - 2 * j && f.heap[p] == elems + j - 1
  {
    p := ListPosition(f, elems, leaves, elems + j - 1);
    if p >= HEAP_SIZE - 2 * j {
      FewerPairs(f, elems, |leaves| - 1, j);
      PairOf(f, elems, j, p);
    }
  }

  lemma OrderSizes(f: Forest, elems: nat, leaves: seq<nat>)
    requires TreeOrder(f, elems, leaves)
    ensures |f.heap| == HEAP_SIZE && 2 <= |leaves| <= elems <= 286 && f.heapMax == HEAP_SIZE - 2 * (|leaves| - 1) - 1
    ensures Pairs(f, elems, |leaves| - 1) && f.heap[f.heapMax] == elems + |leaves| - 2
            && |f.dl| == |f.freq| >= 2 * elems
    ensures forall i :: 0 <= i < |leaves| ==> leaves[i] < elems
  {
    hide Pairs;
  }

  lemma FewerPairs(f: Forest, elems: nat, k: nat, j: nat)
    requires |f.heap| == HEAP_SIZE && 2 * k <= HEAP_SIZE && j <= k && Pairs(f, elems, k)
    ensures Pairs(f, elems, j)
  {
    hide PairAt;
  }

  // ---------------------------------------------------------------- lengths from the top

  /** The sons in pair i are at most one level below their father. */
  predicate SonsBelow(f: Forest, elems: nat, dl: seq<nat>, i: nat)
    requires |f.heap| == HEAP_SIZE && 1 <= i && 2 * i <= HEAP_SIZE
  {
    var p, dad := HEAP_SIZE - 2 * i, elems + i - 1;
    && f.heap[p] < |dl| && f.heap[p + 1] < |dl| && dad < |dl|
    && dl[f.heap[p]] <= dl[dad] + 1 && dl[f.heap[p + 1]] <= dl[dad] + 1
  }

  /** A node with its length reaches no deeper than the tree is high. */
  predicate NotDeep(f: Forest, dl: seq<nat>, x: nat, height: nat) {
    x < |dl| && x < |f.depth| && dl[x] + f.depth[x] <= height
  }

  /** With j pairs to go, the lengths of the nodes before them follow the tree. */
  ghost predicate TreeLens(f: Forest, elems: nat, leaves: seq<nat>, dl: seq<nat>, j: nat) {
    && TreeOrder(f, elems, leaves) && j <= |leaves| - 1 && |dl| == |f.dl| && dl[elems + |leaves| - 2] == 0
    && (forall i :: j < i <= |leaves| - 1 ==> SonsBelow(f, elems, dl, i))
    && (forall p :: f.heapMax <= p < HEAP_SIZE - 2 * j ==> NotDeep(f, dl, f.heap[p], f.depth[elems + |leaves| - 2]))
  }

  lemma LensStart(f: Forest, elems: nat, leaves: seq<nat>)
    requires TreeOrder(f, elems, leaves)
    ensures TreeLens(f, elems, leaves, f.dl[f.heap[f.heapMax] := 0], |leaves| - 1)
    ensures elems + |leaves| - 2 < |f.depth|
  {
    hide Pairs;
  }

  /** Pair j gets the length that its father allows. */
  predicate PairSet(f: Forest, elems: nat, max: nat, dl: seq<nat>, dl': seq<nat>, j: nat)
    requires |f.heap| == HEAP_SIZE && 1 <= j && 2 * j <= HEAP_SIZE
  {
    var a, b, dad := f.heap[HEAP_SIZE - 2 * j], f.heap[HEAP_SIZE - 2 * j + 1], elems + j - 1;
    && a < |dl| && b < |dl| && dad < |dl|
    && var bits := if dl[dad] + 1 > max then max else dl[dad] + 1; dl' == dl[a := bits][b := bits]
  }

  lemma LensNext(f: Forest, elems: nat, leaves: seq<nat>, max: nat, dl: seq<nat>, dl': seq<nat>, j: nat)
    requires TreeLens(f, elems, leaves, dl, j) && j >= 1 && |f.heap| == HEAP_SIZE && PairSet(f, elems, max, dl, dl', j)
    ensures TreeLens(f, elems, leaves, dl', j - 1) && elems + |leaves| - 2 < |f.depth|
    ensures f.depth[elems + |leaves| - 2] <= max ==> dl[elems + j - 1] + 1 <= max
  {
    hide TreeOrder, Pairs, PairAt, SonsBelow, NotDeep;
    OrderSizes(f, elems, leaves);
    var k, p, root := |leaves| - 1, HEAP_SIZE - 2 * j, elems + |leaves| - 2;
    var a, b, dad := f.heap[p], f.heap[p + 1], elems + j - 1;
    PairIs(f, elems, k, j);
    var q := DadBefore(f, elems, leaves, j);
    assert NotDeep(f, dl, f.heap[q], f.depth[root]);
    DadNotDeep(f, dl, dl', dad, a, b, f.depth[root], max);
    forall i | j - 1 < i <= k
      ensures SonsBelow(f, elems, dl', i)
    {
      PairIs(f, elems, k, i);
      if i > j {
        assert SonsBelow(f, elems, dl, i);
        var r := HEAP_SIZE - 2 * i;
        ListOnce(f, elems, leaves, r, p);
        ListOnce(f, elems, leaves, r, p + 1);
        ListOnce(f, elems, leaves, r + 1, p);
        ListOnce(f, elems, leaves, r + 1, p + 1);
        StillBelow(f, elems, dl, dl', i, a, b);
      } else {
        NowBelow(f, elems, max, dl, dl', j);
      }
    }
    forall r | f.heapMax <= r < HEAP_SIZE - 2 * (j - 1)
      ensures NotDeep(f, dl', f.heap[r], f.depth[root])
    {
      if r < p {
        assert NotDeep(f, dl, f.heap[r], f.depth[root]);
        ListOnce(f, elems, leaves, r, p);
        ListOnce(f, elems, leaves, r, p + 1);
        StillNotDeep(f, dl, dl', f.heap[r], a, b, f.depth[root]);
      }
    }
  }

  lemma PairIs(f: Forest, elems: nat, k: nat, j: nat)
    requires |f.heap| == HEAP_SIZE && 2 * k <= HEAP_SIZE && Pairs(f, elems, k) && 1 <= j <= k
    ensures PairAt(f, elems, j)
    ensures var p, dad := HEAP_SIZE - 2 * j, elems + j - 1;
            && f.heap[p] < dad && f.heap[p + 1] < dad < |f.dl| == |f.freq| == |f.depth|
            && f.freq[dad] == f.freq[f.heap[p]] + f.freq[f.heap[p + 1]]
            && f.depth[f.heap[p]] < f.depth[dad] && f.depth[f.heap[p + 1]] < f.depth[dad]
  {
  }

  lemma StillBelow(f: Forest, elems: nat, dl: seq<nat>, dl': seq<nat>, i: nat, a: nat, b: nat)
    requires |f.heap| == HEAP_SIZE && 1 <= i && 2 * i <= HEAP_SIZE && SonsBelow(f, elems, dl, i) && |dl'| == |dl|
    requires forall x :: 0 <= x < |dl| && x != a && x != b ==> dl'[x] == dl[x]
    requires a < elems + i - 1 && b < elems + i - 1
    requires f.heap[HEAP_SIZE - 2 * i] != a && f.heap[HEAP_SIZE - 2 * i] != b
    requires f.heap[HEAP_SIZE - 2 * i + 1] != a && f.heap[HEAP_SIZE - 2 * i + 1] != b
    ensures SonsBelow(f, elems, dl', i)
  {
  }

  lemma NowBelow(f: Forest, elems: nat, max: nat, dl: seq<nat>, dl': seq<nat>, j: nat)
    requires |f.heap| == HEAP_SIZE && 1 <= j && 2 * j <= HEAP_SIZE && PairSet(f, elems, max, dl, dl', j)
    requires f.heap[HEAP_SIZE - 2 * j] < elems + j - 1 && f.heap[HEAP_SIZE - 2 * j + 1] < elems + j - 1
    ensures SonsBelow(f, elems, dl', j)
  {
  }

  lemma StillNotDeep(f: Forest, dl: seq<nat>, dl': seq<nat>, x: nat, a: nat, b: nat, height: nat)
    requires NotDeep(f, dl, x, height) && |dl'| == |dl| && x != a && x != b
    requires forall y :: 0 <= y < |dl| && y != a && y != b ==> dl'[y] == dl[y]
    ensures NotDeep(f, dl', x, height)
  {
  }

  lemma DadNotDeep(f: Forest, dl: seq<nat>, dl': seq<nat>, dad: nat, a: nat, b: nat, height: nat, max: nat)
    requires NotDeep(f, dl, dad, height) && a < |dl| && b < |dl| && a < |f.depth| && b < |f.depth|
    requires f.depth[a] < f.depth[dad] && f.depth[b] < f.depth[dad]
    requires var bits := if dl[dad] + 1 > max then max else dl[dad] + 1; dl' == dl[a := bits][b := bits]
    ensures NotDeep(f, dl', a, height) && NotDeep(f, dl', b, height)
    ensures height <= max ==> dl[dad] + 1 <= max
  {
  }

  /** No node is more frequent or higher than the root. */
  ghost predicate Bounded(f: Forest, elems: nat, leaves: seq<nat>) {
    && |f.heap| == HEAP_SIZE && 2 <= |leaves| && elems + |leaves| - 2 < |f.freq| == |f.depth| && f.heapMax <= HEAP_SIZE
   
   && forall p :: f.heapMax <= p < HEAP_SIZE ==> var x, root := f.heap[p], elems + |leaves| - 2;
         x < |f.freq| && f.freq[x] <= f.freq[root] && f.depth[x] <= f.depth[root]
  }

  lemma AllBounded(f: Forest, elems: nat, leaves: seq<nat>, dl: seq<nat>)
    requires TreeLens(f, elems, leaves, dl, 0)
    ensures Bounded(f, elems, leaves)
  {
    hide Pairs, SonsBelow;
    OrderSizes(f, elems, leaves);
    var k := |leaves| - 1;
    PairIs(f, elems, k, k);
    forall p | f.heapMax <= p < HEAP_SIZE
      ensures var x, root := f.heap[p], elems + |leaves| - 2;
              x < |f.freq| && f.freq[x] <= f.freq[root] && f.depth[x] <= f.depth[root]
    {
      assert NotDeep(f, dl, f.heap[p], f.depth[elems + |leaves| - 2]);
    }
  }

  // --------------------------------------------------------------------- what they cost

  /** The sum of frequency times length. */
  function Dot(nodes: seq<nat>, freq: seq<nat>, l: seq<nat>): nat
    requires Inside(nodes, freq) && Inside(nodes, l)
  {
    if nodes == [] then 0 else freq[nodes[0]] * l[nodes[0]] + Dot(nodes[1..], freq, l)
  }

  lemma DotFront(x: nat, rest: seq<nat>, freq: seq<nat>, l: seq<nat>)
    requires x < |freq| && x < |l| && Inside(rest, freq) && Inside(rest, l)
    ensures Inside([x] + rest, freq) && Inside([x] + rest, l)
            && Dot([x] + rest, freq, l) == freq[x] * l[x] + Dot(rest, freq, l)
  {
    assert ([x] + rest)[1..] == rest;
  }

  lemma {:induction false} DotJoin(a: seq<nat>, b: seq<nat>, freq: seq<nat>, l: seq<nat>)
    requires Inside(a, freq) && Inside(b, freq) && Inside(a, l) && Inside(b, l)
    ensures Inside(a + b, freq) && Inside(a + b, l) && Dot(a + b, freq, l) == Dot(a, freq, l) + Dot(b, freq, l)
    decreases |a|
  {
    hide Dot;
    if a == [] {
      assert a + b == b;
      DotNone(freq, l);
    } else {
      DotJoin(a[1..], b, freq, l);
      assert a + b == [a[0]] + (a[1..] + b) && a == [a[0]] + a[1..];
      DotFront(a[0], a[1..] + b, freq, l);
      DotFront(a[0], a[1..], freq, l);
    }
  }

  lemma DotNone(freq: seq<nat>, l: seq<nat>)
    ensures Dot([], freq, l) == 0
  {
  }

  lemma {:induction false} DotSame(a: seq<nat>, b: seq<nat>, freq: seq<nat>, l: seq<nat>)
    requires Inside(a, freq) && Inside(a, l) && multiset(a) == multiset(b)
    ensures Inside(b, freq) && Inside(b, l) && Dot(a, freq, l) == Dot(b, freq, l)
    decreases |a|
  {
    hide Dot;
    assert |a| == |multiset(a)| == |b|;
    if a == [] {
    } else {
      FirstOf(a);
      var x, c := a[0], a[1..];
      var p, q := Locate(b, x);
      DotSame(c, p + q, freq, l);
      InsideParts(p, q, freq);
      InsideParts(p, q, l);
      DotJoin(p, q, freq, l);
      DotFront(x, q, freq, l);
      DotFront(x, c, freq, l);
      DotJoin(p, [x] + q, freq, l);
      assert p + [x] + q == p + ([x] + q);
    }
  }

  lemma {:induction false} DotFrame(nodes: seq<nat>, freq: seq<nat>, l: seq<nat>, l': seq<nat>)
    requires Inside(nodes, freq) && Inside(nodes, l) && Inside(nodes, l')
             && forall i :: 0 <= i < |nodes| ==> l[nodes[i]] == l'[nodes[i]]
    ensures Dot(nodes, freq, l) == Dot(nodes, freq, l')
    decreases |nodes|
  {
    if nodes == [] {
    } else {
      DotFrame(nodes[1..], freq, l, l');
    }
  }

  /** The last j pairs cost no more than their fathers, and once what those weigh. */
  lemma {:induction false} PairsCost(f: Forest, elems: nat, k: nat, dl: seq<nat>, j: nat)
    requires |f.heap| == HEAP_SIZE && 2 * k <= HEAP_SIZE && Pairs(f, elems, k) && j <= k && |dl| == |f.freq|
             && elems + k <= |f.freq|
    requires forall i :: 1 <= i <= k ==> SonsBelow(f, elems, dl, i)
    requires forall p :: HEAP_SIZE - 2 * k <= p < HEAP_SIZE ==> f.heap[p] < |f.freq|
    ensures Inside(f.heap[HEAP_SIZE - 2 * j..], f.freq)
    ensures Dot(f.heap[HEAP_SIZE - 2 * j..], f.freq, dl)
         <= Dot(Range(elems, elems + j), f.freq, dl) + Mass(Range(elems, elems + j), f.freq)
  {
    hide Pairs, PairAt, SonsBelow, Dot, Mass;
    if j == 0 {
      DotNone(f.freq, dl);
      assert f.heap[HEAP_SIZE..] == [];
    } else {
      PairsCost(f, elems, k, dl, j - 1);
      var p, dad := HEAP_SIZE - 2 * j, elems + j - 1;
      var a, b, rest := f.heap[p], f.heap[p + 1], f.heap[p + 2..];
      PairIs(f, elems, k, j);
      assert SonsBelow(f, elems, dl, j);
      assert f.heap[p..] == [a] + ([b] + rest);
      DotFront(b, rest, f.freq, dl);
      DotFront(a, [b] + rest, f.freq, dl);
      PairPays(f, elems, dl, j);
      var was := Range(elems, elems + j - 1);
      assert Range(elems, elems + j) == was + [dad] && [dad] == [dad] + [] && was + [dad] + [] == was + [dad];
      DotFront(dad, [], f.freq, dl);
      DotNone(f.freq, dl);
      DotJoin(was, [dad], f.freq, dl);
      BagOut(was, dad, [], f.freq);
      assert was + [] == was;
      BagFront(dad, was, f.freq);
    }
  }

  lemma PairPays(f: Forest, elems: nat, dl: seq<nat>, j: nat)
    requires |f.heap| == HEAP_SIZE && 1 <= j && 2 * j <= HEAP_SIZE && SonsBelow(f, elems, dl, j) && |dl| == |f.freq|
    requires f.freq[elems + j - 1] == f.freq[f.heap[HEAP_SIZE - 2 * j]] + f.freq[f.heap[HEAP_SIZE - 2 * j + 1]]
    ensures var a, b, dad := f.heap[HEAP_SIZE - 2 * j], f.heap[HEAP_SIZE - 2 * j + 1], elems + j - 1;
            f.freq[a] * dl[a] + f.freq[b] * dl[b] <= f.freq[dad] * dl[dad] + f.freq[dad]
  {
    var a, b, dad := f.heap[HEAP_SIZE - 2 * j], f.heap[HEAP_SIZE - 2 * j + 1], elems + j - 1;
    OneMoreBit(f.freq[a], f.freq[b], dl[a], dl[b], dl[dad]);
  }

  lemma OneMoreBit(x: nat, y: nat, a: nat, b: nat, l: nat)
    requires a <= l + 1 && b <= l + 1
    ensures x * a + y * b <= (x + y) * l + (x + y)
  {
    Multiples(x, a, l + 1);
    Multiples(y, b, l + 1);
    assert x * (l + 1) + y * (l + 1) == (x + y) * (l + 1);
  }

  /** The leaves, with the lengths that the tree gives them, cost no more than the inner nodes
      weigh together. */
  lemma LeavesCost(f: Forest, elems: nat, leaves: seq<nat>, dl: seq<nat>)
    requires TreeLens(f, elems, leaves, dl, 0)
    ensures Inside(leaves, f.freq) && Inside(leaves, dl) && elems + |leaves| - 1 <= |f.freq|
    ensures Dot(leaves, f.freq, dl) <= Mass(Range(elems, elems + |leaves| - 1), f.freq)
  {
    hide Pairs, SonsBelow, NotDeep, Dot, Mass;
    OrderSizes(f, elems, leaves);
    var k, list := |leaves| - 1, f.heap[f.heapMax..];
    var root, inner := elems + k - 1, Range(elems, elems + k);
    forall p | HEAP_SIZE - 2 * k <= p < HEAP_SIZE
      ensures f.heap[p] < |f.freq|
    {
      ListNode(f, elems, leaves, p);
    }
    PairsCost(f, elems, k, dl, k);
    assert list == [root] + f.heap[HEAP_SIZE - 2 * k..];
    DotFront(root, f.heap[HEAP_SIZE - 2 * k..], f.freq, dl);
    assert multiset(leaves + inner) == multiset(leaves) + multiset(inner) == multiset(list);
    DotSame(list, leaves + inner, f.freq, dl);
    DotJoin(leaves, inner, f.freq, dl);
  }
}
