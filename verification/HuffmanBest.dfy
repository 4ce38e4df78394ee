/** Combining the two least weights again and again gives the least cost that any prefix
    code can have. */
module HuffmanBest {
  import opened Bits

  /** A code as weights with their lengths. */
  datatype Leaf = Leaf(w: nat, l: nat)

  function CostOf(code: seq<Leaf>): nat {
    if code == [] then 0 else code[0].w * code[0].l + CostOf(code[1..])
  }

  predicate Short(code: seq<Leaf>, m: nat) {
    forall i :: 0 <= i < |code| ==> code[i].l <= m
  }

  /** Kraft's sum in units of m bits. */
  function Room(code: seq<Leaf>, m: nat): nat
    requires Short(code, m)
  {
    if code == [] then 0 else Pow2(m - code[0].l) + Room(code[1..], m)
  }

  predicate Fits(code: seq<Leaf>, m: nat) {
    Short(code, m) && Room(code, m) <= Pow2(m)
  }

  function Weights(code: seq<Leaf>): (r: multiset<nat>)
    ensures |r| == |code|
  {
    if code == [] then multiset{} else multiset{code[0].w} + Weights(code[1..])
  }

  // --------------------------------------------------------------------- the least weight

  ghost predicate IsLeast(m: multiset<nat>, x: nat) {
    x in m && forall y :: y in m ==> x <= y
  }

  lemma {:induction false} LeastExists(m: multiset<nat>) returns (x: nat)
    requires |m| > 0
    ensures IsLeast(m, x)
    decreases |m|
  {
    var y :| y in m;
    var rest := m - multiset{y};
    if |rest| == 0 {
      x := y;
      assert m == multiset{y};
    } else {
      var u := LeastExists(rest);
      x := if y <= u then y else u;
      forall z | z in m
        ensures x <= z
      {
        if z != y {
          assert z in rest;
        }
      }
    }
  }

  ghost function Least(m: multiset<nat>): (r: nat)
    requires |m| > 0
    ensures IsLeast(m, r)
  {
    assert exists x :: IsLeast(m, x) by { var x := LeastExists(m); }
    var x :| IsLeast(m, x);
    x
  }

  lemma LeastIs(m: multiset<nat>, x: nat)
    requires IsLeast(m, x)
    ensures |m| > 0 && Least(m) == x
  {
  }

  /** The two least weights become one. */
  ghost function Merged(m: multiset<nat>): (r: multiset<nat>)
    requires |m| >= 2
    ensures |r| == |m| - 1
  {
    var a := Least(m);
    var b := Least(m - multiset{a});
    m - multiset{a} - multiset{b} + multiset{a + b}
  }

  ghost function PairWeight(m: multiset<nat>): nat
    requires |m| >= 2
  {
    var a := Least(m);
    a + Least(m - multiset{a})
  }

  /** The weight of all nodes that combining makes. */
  ghost function HuffCost(m: multiset<nat>): nat
    decreases |m|
  {
    if |m| < 2 then 0 else PairWeight(m) + HuffCost(Merged(m))
  }

  // ------------------------------------------------------------------------- rearranging

  lemma Front(x: Leaf, rest: seq<Leaf>, m: nat)
    requires x.l <= m && Short(rest, m)
    ensures Short([x] + rest, m) && CostOf([x] + rest) == x.w * x.l + CostOf(rest)
    ensures Room([x] + rest, m) == Pow2(m - x.l) + Room(rest, m) && Weights([x] + rest) == multiset{x.w} + Weights(rest)
  {
    assert ([x] + rest)[1..] == rest;
  }

  /** A leaf comes to the front. */
  lemma {:induction false} ToFront(a: seq<Leaf>, x: Leaf, b: seq<Leaf>, m: nat)
    requires Short(a, m) && Short(b, m) && x.l <= m
    ensures Short(a + [x] + b, m) && Short([x] + (a + b), m)
    ensures CostOf(a + [x] + b) == CostOf([x] + (a + b)) && Weights(a + [x] + b) == Weights([x] + (a + b))
    ensures Room(a + [x] + b, m) == Room([x] + (a + b), m)
    decreases |a|
  {
    hide CostOf, Room, Weights;
    if a == [] {
      assert a + [x] + b == [x] + (a + b);
    } else {
      var y, c := a[0], a[1..];
      ToFront(c, x, b, m);
      assert a + [x] + b == [y] + (c + [x] + b) && a + b == [y] + (c + b);
      Front(y, c + [x] + b, m);
      Front(x, c + b, m);
      Front(y, c + b, m);
      Front(x, a + b, m);
    }
  }

  /** Two leaves exchange their lengths; the heavier one gets the shorter. */
  lemma Exchange(a: Leaf, b: Leaf, rest: seq<Leaf>, m: nat)
    requires Short(rest, m) && a.w <= b.w && a.l <= b.l <= m
    ensures var s, r := [a, b] + rest, [Leaf(a.w, b.l), Leaf(b.w, a.l)] + rest;
            && Short(s, m) && Short(r, m) && CostOf(r) <= CostOf(s) && Weights(r) == Weights(s)
               && Room(r, m) == Room(s, m)
  {
    hide CostOf, Room, Weights;
    TwoFront(a, b, rest, m);
    TwoFront(Leaf(a.w, b.l), Leaf(b.w, a.l), rest, m);
    Crossed(a.w, b.w, a.l, b.l);
  }

  lemma Crossed(p: nat, q: nat, x: nat, y: nat)
    requires p <= q && x <= y
    ensures p * y + q * x <= p * x + q * y
  {
    assert (q - p) * (y - x) >= 0;
    assert (q - p) * (y - x) == q * y - q * x - p * y + p * x;
  }

  lemma TwoFront(a: Leaf, b: Leaf, rest: seq<Leaf>, m: nat)
    requires Short(rest, m) && a.l <= m && b.l <= m
    ensures Short([a, b] + rest, m) && CostOf([a, b] + rest) == a.w * a.l + b.w * b.l + CostOf(rest)
    ensures Room([a, b] + rest, m) == Pow2(m - a.l) + Pow2(m - b.l) + Room(rest, m)
    ensures Weights([a, b] + rest) == multiset{a.w, b.w} + Weights(rest)
  {
    hide CostOf, Room, Weights;
    assert [a, b] + rest == [a] + ([b] + rest);
    Front(b, rest, m);
    Front(a, [b] + rest, m);
  }

  lemma {:induction false} Longest(code: seq<Leaf>) returns (k: nat)
    requires code != []
    ensures k < |code| && Short(code, code[k].l)
    decreases |code|
  {
    if |code| == 1 {
      k := 0;
    } else {
      var i := Longest(code[1..]);
      k := if code[0].l >= code[1..][i].l then 0 else i + 1;
      forall j | 0 <= j < |code|
        ensures code[j].l <= code[k].l
      {
        assert j > 0 ==> code[j] == code[1..][j - 1];
      }
    }
  }

  lemma {:induction false} WeightAt(code: seq<Leaf>, w: nat) returns (k: nat)
    requires w in Weights(code)
    ensures k < |code| && code[k].w == w
    decreases |code|
  {
    if code[0].w == w {
      k := 0;
    } else {
      var i := WeightAt(code[1..], w);
      k := i + 1;
    }
  }

  lemma {:induction false} WeightsHave(code: seq<Leaf>, k: nat)
    requires k < |code|
    ensures code[k].w in Weights(code)
    decreases |code|
  {
    if k == 0 {
    } else {
      WeightsHave(code[1..], k - 1);
    }
  }

  /** A leaf of weight w, and the others. */
  lemma TakeOut(code: seq<Leaf>, w: nat, m: nat, n: nat) returns (x: Leaf, rest: seq<Leaf>)
    requires Short(code, m) && Short(code, n) && w in Weights(code)
    ensures x.w == w && x.l <= m && x.l <= n && Short(rest, m) && Short(rest, n) && |rest| + 1 == |code|
    ensures CostOf(code) == w * x.l + CostOf(rest) && Room(code, m) == Pow2(m - x.l) + Room(rest, m)
    ensures Weights(rest) == Weights(code) - multiset{w}
  {
    hide CostOf, Room, Weights, Pow2;
    var i := WeightAt(code, w);
    x, rest := code[i], code[..i] + code[i + 1..];
    assert code == code[..i] + [x] + code[i + 1..];
    ToFront(code[..i], x, code[i + 1..], m);
    Front(x, rest, m);
  }

  /** The lightest leaf can be made the deepest. */
  lemma Deepest(x: Leaf, rest: seq<Leaf>, m: nat, n: nat) returns (x': Leaf, rest': seq<Leaf>)
    requires x.l <= n <= m && Short(rest, m) && Short(rest, n) && forall w :: w in Weights(rest) ==> x.w <= w
    ensures x'.w == x.w && x'.l <= n && Short(rest', m) && Short(rest', x'.l) && Weights(rest') == Weights(rest)
    ensures |rest'| == |rest| && CostOf([x'] + rest') <= CostOf([x] + rest)
    ensures Short([x] + rest, m) && Short([x'] + rest', m) && Room([x'] + rest', m) == Room([x] + rest, m)
  {
    hide CostOf, Room, Weights;
    x', rest' := x, rest;
    Front(x, rest, m);
    if rest != [] {
      var k := Longest(rest);
      var z := rest[k];
      if z.l > x.l {
        WeightsHave(rest, k);
        var p, q := rest[..k], rest[k + 1..];
        assert rest == p + [z] + q;
        ToFront(p, z, q, m);
        Front(x, [z] + (p + q), m);
        assert [x] + ([z] + (p + q)) == [x, z] + (p + q);
        Exchange(x, z, p + q, m);
        x', rest' := Leaf(x.w, z.l), [Leaf(z.w, x.l)] + (p + q);
        assert [x'] + rest' == [Leaf(x.w, z.l), Leaf(z.w, x.l)] + (p + q);
        Front(z, p + q, m);
        Front(Leaf(z.w, x.l), p + q, m);
      }
    }
  }

  lemma {:induction false} Pow2Add(a: nat, b: nat)
    ensures Pow2(a + b) == Pow2(a) * Pow2(b)
  {
    if a == 0 {
    } else {
      Pow2Add(a - 1, b);
      assert Pow2(a) * Pow2(b) == 2 * (Pow2(a - 1) * Pow2(b));
    }
  }

  lemma {:induction false} Scale(code: seq<Leaf>, l: nat, m: nat)
    requires l <= m && Short(code, l)
    ensures Short(code, m) && Room(code, m) == Room(code, l) * Pow2(m - l)
    decreases |code|
  {
    hide Pow2;
    if code == [] {
    } else {
      Scale(code[1..], l, m);
      Pow2Add(l - code[0].l, m - l);
      assert l - code[0].l + (m - l) == m - code[0].l;
    }
  }

  /** The two deepest leaves, of which one may be deeper, leave room for one above them. */
  lemma MergeRoom(x: Leaf, y: Leaf, rest: seq<Leaf>, m: nat)
    requires y.l <= x.l <= m && Short(rest, y.l) && Short(rest, m)
    requires Pow2(m - x.l) + Pow2(m - y.l) + Room(rest, m) <= Pow2(m)
    ensures y.l >= 1 && Pow2(m - (y.l - 1)) + Room(rest, m) <= Pow2(m)
  {
    hide Room, Pow2;
    var u, r := Pow2(m - y.l), Room(rest, y.l);
    Scale(rest, y.l, m);
    Pow2Add(y.l, m - y.l);
    assert y.l + (m - y.l) == m;
    assert (1 + r) * u < Pow2(y.l) * u;
    Below(1 + r, Pow2(y.l), u);
    Pow2One();
    Twice(m - y.l);
    assert (2 + r) * u <= Pow2(y.l) * u by { Above(2 + r, Pow2(y.l), u); }
    assert (2 + r) * u == 2 * u + r * u;
  }

  lemma Below(a: nat, b: nat, u: nat)
    requires a * u < b * u
    ensures a < b
  {
  }

  lemma Above(a: nat, b: nat, u: nat)
    requires a <= b
    ensures a * u <= b * u
  {
  }

  lemma Twice(n: nat)
    ensures Pow2(n + 1) == 2 * Pow2(n)
  {
  }

  /** The lightest leaf becomes the deepest. */
  lemma LeastDeepest(code: seq<Leaf>, m: nat) returns (x: Leaf, rest: seq<Leaf>)
    requires Fits(code, m) && |code| >= 2
    ensures x.w == Least(Weights(code)) && Weights(rest) == Weights(code) - multiset{x.w} && |rest| + 1 == |code|
    ensures x.l <= m && Short(rest, m) && Short(rest, x.l) && Pow2(m - x.l) + Room(rest, m) <= Pow2(m)
    ensures x.w * x.l + CostOf(rest) <= CostOf(code)
    ensures forall w :: w in Weights(rest) ==> x.w <= w
  {
    hide CostOf, Room, Weights, Pow2;
    var y, others := TakeOut(code, Least(Weights(code)), m, m);
    Front(y, others, m);
    x, rest := Deepest(y, others, m, m);
    Front(x, rest, m);
  }

  /** No prefix code costs less than combining the least weights. */
  lemma {:induction false} Best(code: seq<Leaf>, m: nat)
    requires Fits(code, m)
    ensures HuffCost(Weights(code)) <= CostOf(code)
    decreases |code|, 0
  {
    hide CostOf, Room, Weights, HuffCost, Pow2, Least, Fits, Short;
    if |code| < 2 {
      FewCost(Weights(code));
    } else {
      var x, rest := LeastDeepest(code, m);
      NotEmpty(rest);
      BestRest(x, rest, m);
      PairStep(Weights(code));
    }
  }

  lemma FewCost(w: multiset<nat>)
    requires |w| < 2
    ensures HuffCost(w) == 0
  {
  }

  lemma NotEmpty(code: seq<Leaf>)
    requires code != []
    ensures |Weights(code)| > 0
  {
  }

  lemma PairStep(w: multiset<nat>)
    requires |w| >= 2
    ensures |w - multiset{Least(w)}| > 0
    ensures var a := Least(w);
            var b := Least(w - multiset{a});
            HuffCost(w) == a + b + HuffCost(w - multiset{a} - multiset{b} + multiset{a + b})
  {
    hide HuffCost, Least;
    OneLess(w, Least(w));
    HuffStep(w);
  }

  lemma OneLess(w: multiset<nat>, x: nat)
    requires x in w
    ensures |w - multiset{x}| == |w| - 1
  {
  }

  lemma HuffStep(w: multiset<nat>)
    requires |w| >= 2
    ensures HuffCost(w) == PairWeight(w) + HuffCost(Merged(w))
  {
  }

  /** The lightest leaf is the deepest; the next is made so among the others. */
  lemma {:induction false} BestRest(x: Leaf, rest: seq<Leaf>, m: nat)
    requires rest != [] && x.l <= m && Short(rest, m) && Short(rest, x.l) && Pow2(m - x.l) + Room(rest, m) <= Pow2(m)
    requires forall w :: w in Weights(rest) ==> x.w <= w
    ensures var b := Least(Weights(rest));
            x.w + b + HuffCost(Weights(rest) - multiset{b} + multiset{x.w + b}) <= x.w * x.l + CostOf(rest)
    decreases |rest|, 1
  {
    hide CostOf, Room, Weights, HuffCost, Pow2;
    var b := Least(Weights(rest));
    var y, more := TakeOut(rest, b, m, x.l);
    Front(y, more, m);
    var y1, more1 := Deepest(y, more, m, x.l);
    Front(y1, more1, m);
    MergeRoom(x, y1, more1, m);
    var z := Leaf(x.w + b, y1.l - 1);
    Front(z, more1, m);
    Best([z] + more1, m);
    assert Weights([z] + more1) == Weights(rest) - multiset{b} + multiset{x.w + b};
    MergeCost(x.w, b, x.l, y1.l);
  }

  lemma MergeCost(a: nat, b: nat, x: nat, y: nat)
    requires 1 <= y <= x
    ensures a + b + (a + b) * (y - 1) <= a * x + b * y
  {
    assert (a + b) * (y - 1) == (a + b) * y - (a + b);
    assert (a + b) * y == a * y + b * y;
    assert a * y <= a * x;
  }
}
