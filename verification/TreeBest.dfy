/** trees.c: the code that the tree gives is the cheapest of all prefix codes. */
module TreeBest {
  import opened Bits
  import opened Canonical
  import opened HuffmanTree
  import opened HuffmanBags
  import opened TreeList
  import B = HuffmanBest

  /** What the symbols cost without extra bits. */
  function SymCost(freq: seq<nat>, lens: seq<nat>, n: nat): nat
    requires n <= |freq| && n <= |lens|
  {
    if n == 0 then 0 else SymCost(freq, lens, n - 1) + freq[n - 1] * lens[n - 1]
  }

  function FreqSum(freq: seq<nat>, n: nat): nat
    requires n <= |freq|
  {
    if n == 0 then 0 else FreqSum(freq, n - 1) + freq[n - 1]
  }

  /** Kraft's sum in units of the longest length. */
  function SpaceOf(lens: seq<nat>, n: nat): nat
    requires n <= |lens| && forall s :: 0 <= s < n ==> lens[s] <= MAX_BITS
  {
    if n == 0 then 0 else SpaceOf(lens, n - 1) + if lens[n - 1] == 0 then 0 else Pow2(MAX_BITS - lens[n - 1])
  }

  /** A prefix code with these lengths exists, and has a code for every symbol that occurs. */
  ghost predicate Competes(freq: seq<nat>, lens: seq<nat>, n: nat) {
    && n <= |freq| && n <= |lens| && (forall s :: 0 <= s < n ==> lens[s] <= MAX_BITS)
    && SpaceOf(lens, n) <= Pow2(MAX_BITS) && forall s :: 0 <= s < n && freq[s] != 0 ==> lens[s] != 0
  }

  /** No such code takes fewer bits. */
  ghost predicate Cheapest(freq: seq<nat>, lens: seq<nat>, n: nat)
    requires n <= |freq| && n <= |lens|
  {
    forall other :: Competes(freq, other, n) ==> SymCost(freq, lens, n) <= SymCost(freq, other, n)
  }

  // -------------------------------------------------------- symbols and lists of symbols

  /** The list without n, its largest symbol. */
  lemma WithoutLast(leaves: seq<nat>, n: nat) returns (rest: seq<nat>)
    requires Distinct(leaves) && n in leaves && forall i :: 0 <= i < |leaves| ==> leaves[i] <= n
    ensures Distinct(rest) && |rest| + 1 == |leaves| && multiset(leaves) == multiset([n] + rest)
    ensures forall i :: 0 <= i < |rest| ==> rest[i] < n
    ensures forall s :: s != n && s in leaves ==> s in rest
  {
    hide Distinct;
    var i :| 0 <= i < |leaves| && leaves[i] == n;
    rest := leaves[..i] + leaves[i + 1..];
    OthersDiffer(leaves, i);
    OneOut(leaves, i);
  }

  lemma OthersDiffer(s: seq<nat>, i: nat)
    requires i < |s| && Distinct(s)
    ensures Distinct(s[..i] + s[i + 1..]) && forall x :: x in s[..i] + s[i + 1..] ==> x in s && x != s[i]
  {
    var r := s[..i] + s[i + 1..];
    assert forall j :: 0 <= j < |r| ==> r[j] == s[if j < i then j else j + 1];
  }

  lemma OneOut(s: seq<nat>, i: nat)
    requires i < |s|
    ensures var r := s[..i] + s[i + 1..];
            multiset(s) == multiset([s[i]] + r) && forall x :: x != s[i] && x in s ==> x in r
  {
    var r := s[..i] + s[i + 1..];
    assert s == s[..i] + [s[i]] + s[i + 1..];
    forall x | x != s[i] && x in s
      ensures x in r
    {
      var k :| 0 <= k < |s| && s[k] == x;
      assert r[if k < i then k else k - 1] == x;
    }
  }

  lemma {:induction false} CostOfLeaves(leaves: seq<nat>, freq: seq<nat>, l: seq<nat>, n: nat)
    requires Distinct(leaves) && n <= |freq| && n <= |l| && forall i :: 0 <= i < |leaves| ==> leaves[i] < n
    requires forall s :: 0 <= s < n && freq[s] != 0 ==> s in leaves
    ensures Dot(leaves, freq, l) == SymCost(freq, l, n) && Mass(leaves, freq) == FreqSum(freq, n)
    decreases n
  {
    if n == 0 {
      assert leaves == [];
    } else if n - 1 in leaves {
      var rest := WithoutLast(leaves, n - 1);
      CostOfLeaves(rest, freq, l, n - 1);
      DotSame(leaves, [n - 1] + rest, freq, l);
      BagSame(leaves, [n - 1] + rest, freq);
      DotFront(n - 1, rest, freq, l);
      BagFront(n - 1, rest, freq);
    } else {
      CostOfLeaves(leaves, freq, l, n - 1);
    }
  }

  /** The leaves with their weights and lengths. */
  function CodeOf(leaves: seq<nat>, freq: seq<nat>, l: seq<nat>): (r: seq<B.Leaf>)
    requires Inside(leaves, freq) && Inside(leaves, l)
    ensures |r| == |leaves|
  {
    seq(|leaves|, i requires 0 <= i < |leaves| => B.Leaf(freq[leaves[i]], l[leaves[i]]))
  }

  lemma CodeFront(x: nat, rest: seq<nat>, freq: seq<nat>, l: seq<nat>)
    requires x < |freq| && x < |l| && Inside(rest, freq) && Inside(rest, l)
    ensures Inside([x] + rest, freq) && Inside([x] + rest, l)
    ensures CodeOf([x] + rest, freq, l) == [B.Leaf(freq[x], l[x])] + CodeOf(rest, freq, l)
  {
  }

  lemma {:induction false} CodeIs(leaves: seq<nat>, freq: seq<nat>, l: seq<nat>)
    requires Inside(leaves, freq) && Inside(leaves, l) && forall s :: 0 <= s < |l| ==> l[s] <= MAX_BITS
    ensures B.CostOf(CodeOf(leaves, freq, l)) == Dot(leaves, freq, l)
            && B.Weights(CodeOf(leaves, freq, l)) == Bag(leaves, freq)
    ensures B.Short(CodeOf(leaves, freq, l), MAX_BITS)
    decreases |leaves|
  {
    if leaves == [] {
    } else {
      var x, rest := leaves[0], leaves[1..];
      assert leaves == [x] + rest;
      CodeIs(rest, freq, l);
      CodeFront(x, rest, freq, l);
      B.Front(B.Leaf(freq[x], l[x]), CodeOf(rest, freq, l), MAX_BITS);
    }
  }

  /** The space that each symbol takes. */
  function Spaces(l: seq<nat>): (r: seq<nat>)
    requires forall s :: 0 <= s < |l| ==> l[s] <= MAX_BITS
    ensures |r| == |l|
  {
    seq(|l|, s requires 0 <= s < |l| => if l[s] == 0 then 0 else Pow2(MAX_BITS - l[s]))
  }

  lemma {:induction false} SpacesSum(l: seq<nat>, n: nat)
    requires n <= |l| && forall s :: 0 <= s < |l| ==> l[s] <= MAX_BITS
    ensures FreqSum(Spaces(l), n) == SpaceOf(l, n)
  {
    hide Pow2;
    if n == 0 {
    } else {
      SpacesSum(l, n - 1);
    }
  }

  lemma {:induction false} RoomIsMass(leaves: seq<nat>, freq: seq<nat>, l: seq<nat>)
    requires Inside(leaves, freq) && Inside(leaves, l) && forall s :: 0 <= s < |l| ==> l[s] <= MAX_BITS
    requires forall i :: 0 <= i < |leaves| ==> l[leaves[i]] != 0
    ensures B.Short(CodeOf(leaves, freq, l), MAX_BITS)
            && B.Room(CodeOf(leaves, freq, l), MAX_BITS) == Mass(leaves, Spaces(l))
    decreases |leaves|
  {
    hide Pow2;
    if leaves == [] {
    } else {
      var x, rest := leaves[0], leaves[1..];
      assert leaves == [x] + rest;
      RoomIsMass(rest, freq, l);
      CodeFront(x, rest, freq, l);
      B.Front(B.Leaf(freq[x], l[x]), CodeOf(rest, freq, l), MAX_BITS);
    }
  }

  /** Some symbols take no more than all. */
  lemma {:induction false} SomeMass(leaves: seq<nat>, v: seq<nat>, n: nat)
    requires Distinct(leaves) && n <= |v| && forall i :: 0 <= i < |leaves| ==> leaves[i] < n
    ensures Mass(leaves, v) <= FreqSum(v, n)
    decreases n
  {
    if n == 0 {
      assert leaves == [];
    } else if n - 1 in leaves {
      var rest := WithoutLast(leaves, n - 1);
      SomeMass(rest, v, n - 1);
      BagSame(leaves, [n - 1] + rest, v);
      BagFront(n - 1, rest, v);
    } else {
      SomeMass(leaves, v, n - 1);
    }
  }

  // --------------------------------------------------------------------- the cheapest code

  /** Any code for the leaves costs at least what combining the least frequencies makes. */
  lemma OtherCost(leaves: seq<nat>, freq: seq<nat>, other: seq<nat>, n: nat)
    requires Distinct(leaves) && n <= |freq| && |other| == n
             && (forall i :: 0 <= i < |leaves| ==> leaves[i] < n && other[leaves[i]] != 0)
    requires (forall s :: 0 <= s < n ==> other[s] <= MAX_BITS) && SpaceOf(other, n) <= Pow2(MAX_BITS)
    ensures Inside(leaves, freq) && B.HuffCost(Bag(leaves, freq)) <= Dot(leaves, freq, other)
  {
    hide B.HuffCost, Bag, Dot, Pow2, B.Room, SpaceOf;
    CodeIs(leaves, freq, other);
    RoomIsMass(leaves, freq, other);
    SomeMass(leaves, Spaces(other), n);
    SpacesSum(other, n);
    B.Best(CodeOf(leaves, freq, other), MAX_BITS);
  }

  /** The code that a tree gives its leaves is the cheapest. */
  lemma TreeCheapest(f: Forest, n: nat, leaves: seq<nat>, dl: seq<nat>, freq: seq<nat>, lens: seq<nat>)
    requires TreeLens(f, n, leaves, dl, 0) && Distinct(leaves) && n <= |freq| && n == |lens| && n <= |f.freq|
    requires forall i :: 0 <= i < |leaves| ==> leaves[i] < n
    requires forall s :: 0 <= s < n ==>
               (s in leaves <==> freq[s] != 0) && f.freq[s] == freq[s] && (s in leaves ==> s < |dl| && lens[s] == dl[s])
    requires Inside(leaves, f.freq) && n + |leaves| - 1 <= |f.freq|
    requires Mass(Range(n, n + |leaves| - 1), f.freq) == B.HuffCost(Bag(leaves, f.freq))
    ensures Cheapest(freq, lens, n)
  {
    hide TreeLens, B.HuffCost, Bag, Dot, Mass, SymCost, SpaceOf, Pow2, FreqSum;
    LeavesCost(f, n, leaves, dl);
    DotFrame(leaves, f.freq, dl, lens);
    SameDot(leaves, f.freq, freq, lens);
    BagFrame(leaves, f.freq, freq);
    CostOfLeaves(leaves, freq, lens, n);
    forall other | Competes(freq, other, n)
      ensures SymCost(freq, lens, n) <= SymCost(freq, other, n)
    {
      CostPrefix(freq, other, n);
      CostOfLeaves(leaves, freq, other[..n], n);
      OtherCost(leaves, freq, other[..n], n);
    }
  }

  lemma {:induction false} SameDot(nodes: seq<nat>, freq: seq<nat>, freq': seq<nat>, l: seq<nat>)
    requires Inside(nodes, freq) && Inside(nodes, freq') && Inside(nodes, l)
             && forall i :: 0 <= i < |nodes| ==> freq[nodes[i]] == freq'[nodes[i]]
    ensures Dot(nodes, freq, l) == Dot(nodes, freq', l)
    decreases |nodes|
  {
    if nodes == [] {
    } else {
      SameDot(nodes[1..], freq, freq', l);
    }
  }

  lemma {:induction false} CostPrefixTo(freq: seq<nat>, lens: seq<nat>, m: nat, n: nat)
    requires m <= n <= |freq| && n <= |lens| && forall s :: 0 <= s < n ==> lens[s] <= MAX_BITS
    ensures SymCost(freq, lens[..n], m) == SymCost(freq, lens, m) && SpaceOf(lens[..n], m) == SpaceOf(lens, m)
    decreases m
  {
    if m == 0 {
    } else {
      CostPrefixTo(freq, lens, m - 1, n);
    }
  }

  lemma CostPrefix(freq: seq<nat>, lens: seq<nat>, n: nat)
    requires n <= |freq| && n <= |lens| && forall s :: 0 <= s < n ==> lens[s] <= MAX_BITS
    ensures SymCost(freq, lens[..n], n) == SymCost(freq, lens, n) && SpaceOf(lens[..n], n) == SpaceOf(lens, n)
  {
    CostPrefixTo(freq, lens, n, n);
  }

  /** Where no symbol that occurs has more than one bit there is nothing cheaper. */
  lemma {:induction false} OnesCheapest(freq: seq<nat>, lens: seq<nat>, n: nat)
    requires n <= |freq| && n <= |lens| && forall s :: 0 <= s < n && freq[s] != 0 ==> lens[s] == 1
    ensures Cheapest(freq, lens, n)
  {
    forall other | Competes(freq, other, n)
      ensures SymCost(freq, lens, n) <= SymCost(freq, other, n)
    {
      OnesLess(freq, lens, other, n);
    }
  }

  lemma {:induction false} OnesLess(freq: seq<nat>, lens: seq<nat>, other: seq<nat>, n: nat)
    requires n <= |freq| && n <= |lens| && n <= |other|
    requires forall s :: 0 <= s < n && freq[s] != 0 ==> lens[s] == 1 <= other[s]
    ensures SymCost(freq, lens, n) <= SymCost(freq, other, n)
  {
    if n == 0 {
    } else {
      OnesLess(freq, lens, other, n - 1);
      if freq[n - 1] != 0 {
        Multiples(freq[n - 1], lens[n - 1], other[n - 1]);
      }
    }
  }

  // ------------------------------------------------------------- codes that are cut short

  /** The same of lengths that leave out the symbols at the end that do not occur. */
  ghost predicate CheapFor(freq: seq<nat>, lens: seq<nat>, n: nat) {
    && |lens| <= n <= |freq|
    && forall other :: Competes(freq, other, n) ==> SymCost(freq, lens, |lens|) <= SymCost(freq, other, n)
  }

  lemma {:induction false} CostTail(freq: seq<nat>, lens: seq<nat>, m: nat, n: nat)
    requires m <= n <= |freq| && n <= |lens| && forall s :: m <= s < n ==> freq[s] == 0
    ensures SymCost(freq, lens, n) == SymCost(freq, lens, m)
    decreases n
  {
    if n == m {
    } else {
      CostTail(freq, lens, m, n - 1);
    }
  }

  lemma {:induction false} CostCut(freq: seq<nat>, lens: seq<nat>, m: nat, n: nat)
    requires n <= m <= |lens| && n <= |freq|
    ensures SymCost(freq, lens[..m], n) == SymCost(freq, lens, n)
    decreases n
  {
    if n == 0 {
    } else {
      CostCut(freq, lens, m, n - 1);
    }
  }

  lemma {:induction false} SameCost(a: seq<nat>, b: seq<nat>, lens: seq<nat>, n: nat)
    requires n <= |a| && n <= |b| && n <= |lens| && forall s :: 0 <= s < n ==> a[s] == b[s]
    ensures SymCost(a, lens, n) == SymCost(b, lens, n) && FreqSum(a, n) == FreqSum(b, n)
    decreases n
  {
    if n == 0 {
    } else {
      SameCost(a, b, lens, n - 1);
    }
  }

  lemma CheapCut(freq0: seq<nat>, freq: seq<nat>, lens: seq<nat>, n: nat, m: nat)
    requires m <= n <= |freq0| && n <= |freq| && n == |lens| && Cheapest(freq0, lens, n)
    requires forall s :: 0 <= s < n ==> freq0[s] == freq[s] && (m <= s ==> freq[s] == 0)
    ensures CheapFor(freq, lens[..m], n)
  {
    hide SymCost;
    SameCost(freq0, freq, lens, n);
    CostTail(freq, lens, m, n);
    CostCut(freq, lens, m, m);
    forall other | Competes(freq, other, n)
      ensures SymCost(freq, lens[..m], m) <= SymCost(freq, other, n)
    {
      assert Competes(freq0, other, n);
      SameCost(freq0, freq, other, n);
    }
  }

  // ---------------------------------------------------------------- the space of a code

  /** The space of the first n symbols' codes of at most l bits. */
  function PartSpace(lens: seq<nat>, n: nat, l: nat): nat
    requires n <= |lens| && l <= MAX_BITS
  {
    if l == 0 then 0 else PartSpace(lens, n, l - 1) + Shl(Rank(lens, l, n), MAX_BITS - l)
  }

  lemma {:induction false} PartStart(lens: seq<nat>, l: nat)
    requires l <= MAX_BITS
    ensures PartSpace(lens, 0, l) == 0
  {
    hide Shl;
    if l == 0 {
    } else {
      PartStart(lens, l - 1);
      ShlZero(MAX_BITS - l);
    }
  }

  lemma {:induction false} PartNext(lens: seq<nat>, n: nat, l: nat)
    requires n < |lens| && l <= MAX_BITS
    ensures PartSpace(lens, n + 1, l) == PartSpace(lens, n, l) + if 1 <= lens[n] <= l then Pow2(MAX_BITS - lens[n])
            else 0
    decreases l
  {
    hide Shl, Pow2;
    if l == 0 {
    } else {
      PartNext(lens, n, l - 1);
      if lens[n] == l {
        ShlNext(Rank(lens, l, n), MAX_BITS - l);
      }
    }
  }

  lemma {:induction false} PartIsSpace(lens: seq<nat>, n: nat)
    requires n <= |lens| && LensOk(lens)
    ensures SpaceOf(lens, n) == PartSpace(lens, n, MAX_BITS)
    decreases n
  {
    hide PartSpace, Pow2;
    if n == 0 {
      PartStart(lens, MAX_BITS);
    } else {
      PartIsSpace(lens, n - 1);
      PartNext(lens, n - 1, MAX_BITS);
    }
  }

  lemma {:induction false} KraftIsPart(lens: seq<nat>, l: nat)
    requires l <= MAX_BITS
    ensures Kraft(lens, l) == PartSpace(lens, |lens|, l)
  {
    hide Shl, Rank;
    if l == 0 {
    } else {
      KraftIsPart(lens, l - 1);
    }
  }

  /** Kraft's sum, symbol by symbol. */
  lemma SpaceIsKraft(lens: seq<nat>)
    requires LensOk(lens)
    ensures SpaceOf(lens, |lens|) == Kraft(lens, MAX_BITS)
  {
    hide PartSpace, Kraft;
    PartIsSpace(lens, |lens|);
    KraftIsPart(lens, MAX_BITS);
  }
}
