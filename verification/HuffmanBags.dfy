/** The frequencies of a list of nodes, as a bag, and what weights a tree of some height
    must have. */
module HuffmanBags {
  import opened HuffmanBest

  predicate Inside(nodes: seq<nat>, freq: seq<nat>) {
    forall i :: 0 <= i < |nodes| ==> nodes[i] < |freq|
  }

  ghost function Bag(nodes: seq<nat>, freq: seq<nat>): (r: multiset<nat>)
    requires Inside(nodes, freq)
    ensures |r| == |nodes|
  {
    if nodes == [] then multiset{} else multiset{freq[nodes[0]]} + Bag(nodes[1..], freq)
  }

  /** The sum of the frequencies. */
  function Mass(nodes: seq<nat>, freq: seq<nat>): nat
    requires Inside(nodes, freq)
  {
    if nodes == [] then 0 else freq[nodes[0]] + Mass(nodes[1..], freq)
  }

  lemma BagFront(x: nat, rest: seq<nat>, freq: seq<nat>)
    requires x < |freq| && Inside(rest, freq)
    ensures Inside([x] + rest, freq) && Bag([x] + rest, freq) == multiset{freq[x]} + Bag(rest, freq)
    ensures Mass([x] + rest, freq) == freq[x] + Mass(rest, freq)
  {
    assert ([x] + rest)[1..] == rest;
  }

  lemma {:induction false} BagOut(a: seq<nat>, x: nat, b: seq<nat>, freq: seq<nat>)
    requires Inside(a, freq) && Inside(b, freq) && x < |freq|
    ensures Inside(a + [x] + b, freq) && Inside([x] + (a + b), freq)
    ensures Bag(a + [x] + b, freq) == Bag([x] + (a + b), freq) && Mass(a + [x] + b, freq) == Mass([x] + (a + b), freq)
    decreases |a|
  {
    hide Bag, Mass;
    if a == [] {
      assert a + [x] + b == [x] + (a + b);
    } else {
      var y, c := a[0], a[1..];
      BagOut(c, x, b, freq);
      assert a + [x] + b == [y] + (c + [x] + b) && a + b == [y] + (c + b);
      BagFront(y, c + [x] + b, freq);
      BagFront(x, c + b, freq);
      BagFront(y, c + b, freq);
      BagFront(x, a + b, freq);
    }
  }

  /** An element of a list, and the others. */
  lemma Locate(s: seq<nat>, x: nat) returns (p: seq<nat>, q: seq<nat>)
    requires x in multiset(s)
    ensures s == p + [x] + q && multiset(p + q) == multiset(s) - multiset{x}
  {
    var i :| 0 <= i < |s| && s[i] == x;
    p, q := s[..i], s[i + 1..];
    assert s == p + [x] + q;
    assert multiset(s) == multiset(p) + multiset{x} + multiset(q);
    assert multiset(p + q) == multiset(p) + multiset(q);
  }

  lemma FirstOf(s: seq<nat>)
    requires s != []
    ensures s == [s[0]] + s[1..] && multiset(s[1..]) == multiset(s) - multiset{s[0]} && s[0] in multiset(s)
  {
    assert s == [s[0]] + s[1..];
    assert multiset(s) == multiset{s[0]} + multiset(s[1..]);
  }

  lemma InsideParts(p: seq<nat>, q: seq<nat>, freq: seq<nat>)
    requires Inside(p + q, freq)
    ensures Inside(p, freq) && Inside(q, freq)
  {
    assert forall k :: 0 <= k < |p| ==> p[k] == (p + q)[k];
    assert forall k :: 0 <= k < |q| ==> q[k] == (p + q)[|p| + k];
  }

  /** The order of the nodes does not matter. */
  lemma {:induction false} BagSame(a: seq<nat>, b: seq<nat>, freq: seq<nat>)
    requires Inside(a, freq) && multiset(a) == multiset(b)
    ensures Inside(b, freq) && Bag(a, freq) == Bag(b, freq) && Mass(a, freq) == Mass(b, freq)
    decreases |a|
  {
    hide Bag, Mass;
    assert |a| == |multiset(a)| == |b|;
    if a == [] {
    } else {
      FirstOf(a);
      var x, c := a[0], a[1..];
      var p, q := Locate(b, x);
      BagSame(c, p + q, freq);
      InsideParts(p, q, freq);
      BagOut(p, x, q, freq);
      BagFront(x, p + q, freq);
      BagFront(x, c, freq);
    }
  }

  lemma {:induction false} BagFrame(nodes: seq<nat>, freq: seq<nat>, freq': seq<nat>)
    requires Inside(nodes, freq) && Inside(nodes, freq')
             && forall i :: 0 <= i < |nodes| ==> freq[nodes[i]] == freq'[nodes[i]]
    ensures Bag(nodes, freq) == Bag(nodes, freq') && Mass(nodes, freq) == Mass(nodes, freq')
    decreases |nodes|
  {
    if nodes == [] {
    } else {
      BagFrame(nodes[1..], freq, freq');
    }
  }

  lemma {:induction false} BagHas(nodes: seq<nat>, freq: seq<nat>, y: nat)
    requires Inside(nodes, freq) && y in Bag(nodes, freq)
    ensures exists i :: 0 <= i < |nodes| && freq[nodes[i]] == y
    decreases |nodes|
  {
    if freq[nodes[0]] == y {
    } else {
      BagHas(nodes[1..], freq, y);
      var i :| 0 <= i < |nodes[1..]| && freq[nodes[1..][i]] == y;
      assert nodes[i + 1] == nodes[1..][i];
    }
  }

  /** Two nodes no heavier than the others, combined. */
  lemma CombineLeast(n: nat, m: nat, tail: seq<nat>, freq: seq<nat>)
    requires n < |freq| && m < |freq| && Inside(tail, freq) && freq[n] <= freq[m]
    requires forall i :: 0 <= i < |tail| ==> freq[m] <= freq[tail[i]]
    ensures Inside([n, m] + tail, freq) && Mass([n, m] + tail, freq) == freq[n] + freq[m] + Mass(tail, freq)
    ensures HuffCost(Bag([n, m] + tail, freq))
              == freq[n] + freq[m] + HuffCost(multiset{freq[n] + freq[m]} + Bag(tail, freq))
  {
    hide Bag, Mass, HuffCost, PairWeight, Merged;
    assert [n, m] + tail == [n] + ([m] + tail);
    BagFront(m, tail, freq);
    BagFront(n, [m] + tail, freq);
    var a, b, rest := freq[n], freq[m], Bag(tail, freq);
    var bag := Bag([n, m] + tail, freq);
    assert bag == multiset{a} + (multiset{b} + rest);
    forall y | y in rest
      ensures b <= y
    {
      BagHas(tail, freq, y);
    }
    TwoLeast(a, b, rest);
    HuffStep(bag);
  }

  lemma TwoLeast(a: nat, b: nat, rest: multiset<nat>)
    requires a <= b && forall y :: y in rest ==> b <= y
    ensures var bag := multiset{a} + (multiset{b} + rest);
            |bag| >= 2 && PairWeight(bag) == a + b && Merged(bag) == multiset{a + b} + rest
  {
    var bag := multiset{a} + (multiset{b} + rest);
    LeastIs(bag, a);
    assert bag - multiset{a} == multiset{b} + rest;
    LeastIs(multiset{b} + rest, b);
    assert multiset{b} + rest - multiset{b} == rest;
    assert rest + multiset{a + b} == multiset{a + b} + rest;
  }

  // ------------------------------------------------------------------------- heights

  /** The least weight of a node so many levels above its deepest leaf. */
  function Phi(h: nat): (r: nat)
    ensures r >= 1
  {
    if h < 2 then h + 1 else Phi(h - 1) + Phi(h - 2)
  }

  lemma {:induction false} PhiMono(a: nat, b: nat)
    requires a <= b
    ensures Phi(a) <= Phi(b)
    decreases b
  {
    if a == b {
    } else {
      PhiMono(a, b - 1);
    }
  }

  lemma PhiValues()
    ensures Phi(7) == 34 && Phi(15) == 1597 && Phi(16) == 2584 && Phi(22) == 46368
  {
    assert Phi(4) == 8 && Phi(5) == 13;
    assert Phi(6) == 21 && Phi(7) == 34;
    assert Phi(8) == 55 && Phi(9) == 89;
    assert Phi(10) == 144 && Phi(11) == 233;
    assert Phi(12) == 377 && Phi(13) == 610;
    assert Phi(14) == 987 && Phi(15) == 1597;
    assert Phi(16) == 2584 && Phi(17) == 4181;
    assert Phi(18) == 6765 && Phi(19) == 10946;
    assert Phi(20) == 17711 && Phi(21) == 28657;
  }

  /** A combined node weighs enough for its height. */
  lemma PhiStep(a: nat, b: nat, da: nat, db: nat)
    requires a >= Phi(da) && b >= Phi(db) && (da >= 1 ==> b >= Phi(da - 1)) && (db >= 1 ==> a >= Phi(db - 1))
    ensures a + b >= Phi((if da >= db then da else db) + 1)
  {
  }
}
