/** trees.c: the heap of build_tree. */
module HuffmanHeap {

  /** smaller: by frequency, then by depth. */
  predicate Smaller(freq: seq<nat>, depth: seq<nat>, n: nat, m: nat)
    requires n < |freq| && m < |freq| && |depth| == |freq|
  {
    freq[n] < freq[m] || (freq[n] == freq[m] && depth[n] <= depth[m])
  }

  /** All entries are nodes of the tree. */
  predicate Nodes(heap: seq<nat>, freq: seq<nat>, depth: seq<nat>) {
    |depth| == |freq| && forall i :: 0 <= i < |heap| ==> heap[i] < |freq|
  }

  /** The father at i is no larger than its sons. */
  predicate OrderAt(heap: seq<nat>, len: nat, freq: seq<nat>, depth: seq<nat>, i: nat)
    requires len < |heap| && Nodes(heap, freq, depth)
  {
    && (2 * i <= len ==> Smaller(freq, depth, heap[i], heap[2 * i]))
    && (2 * i + 1 <= len ==> Smaller(freq, depth, heap[i], heap[2 * i + 1]))
  }

  /** The heap property for the fathers from k on. */
  ghost predicate OrderedFrom(heap: seq<nat>, len: nat, freq: seq<nat>, depth: seq<nat>, k: nat)
    requires len < |heap| && Nodes(heap, freq, depth)
  {
    forall i :: k <= i ==> OrderAt(heap, len, freq, depth, i)
  }

  /** The same except at hole, whose father is no larger than the hole's sons. */
  ghost predicate OrderedBut(heap: seq<nat>, len: nat, freq: seq<nat>, depth: seq<nat>, k: nat, hole: nat)
    requires len < |heap| && Nodes(heap, freq, depth) && hole <= len
  {
    && (forall i :: k <= i && i != hole ==> OrderAt(heap, len, freq, depth, i))
    && (hole > k ==> hole / 2 >= k)
    && (hole > k && 2 * hole <= len ==> Smaller(freq, depth, heap[hole / 2], heap[2 * hole]))
    && (hole > k && 2 * hole + 1 <= len ==> Smaller(freq, depth, heap[hole / 2], heap[2 * hole + 1]))
  }

  /** Two entries exchanged. */
  function Swap(h: seq<nat>, i: nat, j: nat): (r: seq<nat>)
    requires i < |h| && j < |h|
    ensures multiset(r) == multiset(h)
  {
    h[i := h[j]][j := h[i]]
  }

  /** The smaller son moves up, the hole moves down. */
  lemma MoveUp(h: seq<nat>, len: nat, freq: seq<nat>, depth: seq<nat>, k: nat, hole: nat, j: nat)
    requires len < |h| && Nodes(h, freq, depth) && 1 <= k <= hole && (j == 2 * hole || j == 2 * hole + 1) && j <= len
    requires OrderedBut(h, len, freq, depth, k, hole)
    requires Smaller(freq, depth, h[j], h[hole])
    requires 2 * hole + 1 <= len ==>
               Smaller(freq, depth, h[j], h[2 * hole]) && Smaller(freq, depth, h[j], h[2 * hole + 1])
    ensures Nodes(Swap(h, hole, j), freq, depth) && OrderedBut(Swap(h, hole, j), len, freq, depth, k, j)
  {
    var r := Swap(h, hole, j);
    assert Nodes(r, freq, depth) by {
      forall i | 0 <= i < |r| ensures r[i] < |freq| { }
    }
    forall i | k <= i && i != j
      ensures OrderAt(r, len, freq, depth, i)
    {
      assert OrderAt(h, len, freq, depth, if i == hole then j else i);
    }
    assert OrderAt(h, len, freq, depth, j);
  }

  /** pqdownheap: moves the node at k down until the heap property holds from k on. */
  method PqDownHeap(heap: seq<nat>, heapLen: nat, freq: seq<nat>, depth: seq<nat>, k0: nat) returns (r: seq<nat>)
    requires 1 <= k0 <= heapLen < |heap| && Nodes(heap, freq, depth)
    requires OrderedFrom(heap, heapLen, freq, depth, k0 + 1)
    ensures |r| == |heap| && Nodes(r, freq, depth) && OrderedFrom(r, heapLen, freq, depth, k0)
    ensures multiset(r) == multiset(heap)
    ensures forall i :: 0 <= i < |heap| && (i < k0 || i > heapLen) ==> r[i] == heap[i]
  {
    hide OrderAt, Smaller;
    // r holds the node being moved at the hole k, where the source keeps it aside
    r := heap;
    var k := k0;
    var j := 2 * k;
    while j <= heapLen
      invariant k0 <= k <= heapLen && j == 2 * k && |r| == |heap| && Nodes(r, freq, depth)
      invariant OrderedBut(r, heapLen, freq, depth, k0, k) && multiset(r) == multiset(heap)
      invariant forall i :: 0 <= i < |heap| && (i < k0 || i > heapLen) ==> r[i] == heap[i]
      decreases heapLen - k
    {
      Total(freq, depth, r[j], if j < heapLen then r[j + 1] else r[j]);
      if j < heapLen && Smaller(freq, depth, r[j + 1], r[j]) {
        j := j + 1;
      }
      if Smaller(freq, depth, r[k], r[j]) {
        Settled(r, heapLen, freq, depth, k0, k, j);
        return;
      }
      Total(freq, depth, r[k], r[j]);
      MoveUp(r, heapLen, freq, depth, k0, k, j);
      r := Swap(r, k, j);
      k := j;
      j := 2 * k;
    }
    NoSons(r, heapLen, freq, depth, k0, k);
  }

  lemma Total(freq: seq<nat>, depth: seq<nat>, n: nat, m: nat)
    requires n < |freq| && m < |freq| && |depth| == |freq|
    ensures Smaller(freq, depth, n, m) || Smaller(freq, depth, m, n)
    ensures Smaller(freq, depth, n, n) && Smaller(freq, depth, m, m)
  {
  }

  lemma Settled(h: seq<nat>, len: nat, freq: seq<nat>, depth: seq<nat>, k: nat, hole: nat, j: nat)
    requires len < |h| && Nodes(h, freq, depth) && 1 <= k <= hole && (j == 2 * hole || j == 2 * hole + 1) && j <= len
    requires OrderedBut(h, len, freq, depth, k, hole) && Smaller(freq, depth, h[hole], h[j])
    requires 2 * hole + 1 <= len ==>
               Smaller(freq, depth, h[j], h[2 * hole]) && Smaller(freq, depth, h[j], h[2 * hole + 1])
    ensures OrderedFrom(h, len, freq, depth, k)
  {
  }

  lemma NoSons(h: seq<nat>, len: nat, freq: seq<nat>, depth: seq<nat>, k: nat, hole: nat)
    requires len < |h| && Nodes(h, freq, depth) && 1 <= k <= hole <= len < 2 * hole
    requires OrderedBut(h, len, freq, depth, k, hole)
    ensures OrderedFrom(h, len, freq, depth, k)
  {
  }

  /** The entry at 1 is the smallest. */
  lemma {:induction false} Smallest(h: seq<nat>, len: nat, freq: seq<nat>, depth: seq<nat>, i: nat)
    requires 1 <= i <= len < |h| && Nodes(h, freq, depth) && OrderedFrom(h, len, freq, depth, 1)
    ensures Smaller(freq, depth, h[1], h[i])
    decreases i
  {
    if i <= 1 {
    } else {
      Smallest(h, len, freq, depth, i / 2);
      assert OrderAt(h, len, freq, depth, i / 2);
    }
  }
}
