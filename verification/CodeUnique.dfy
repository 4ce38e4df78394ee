/** Frequencies that are powers of two, or multiples of such, leave but one cheapest code. */
module CodeUnique {
  import opened Bits
  import opened Canonical
  import opened TreeBest

  /** What the lengths cost when each symbol weighs the space that v gives it. */
  function SpaceCost(v: seq<nat>, lens: seq<nat>, n: nat): nat
    requires n <= |v| && n <= |lens| && forall s :: 0 <= s < n ==> v[s] <= MAX_BITS
  {
    if n == 0 then 0
    else SpaceCost(v, lens, n - 1) + if v[n - 1] == 0 then 0 else Pow2(MAX_BITS - v[n - 1]) * lens[n - 1]
  }

  /** v is the code for the frequencies: a symbol's space is b / a of its frequency. */
  ghost predicate Exact(freq: seq<nat>, v: seq<nat>, n: nat, a: nat, b: nat) {
    && n <= |freq| && n <= |v| && (forall s :: 0 <= s < n ==> v[s] <= MAX_BITS)
    && forall s :: 0 <= s < n ==>
         if freq[s] == 0 then v[s] == 0 else v[s] != 0 && a * Pow2(MAX_BITS - v[s]) == b * freq[s]
  }

  lemma {:induction false} ExactSpace(freq: seq<nat>, v: seq<nat>, n: nat, m: nat, a: nat, b: nat)
    requires Exact(freq, v, m, a, b) && n <= m
    ensures a * SpaceOf(v, n) == b * FreqSum(freq, n)
    decreases n
  {
    hide Pow2;
    if n == 0 {
    } else {
      ExactSpace(freq, v, n - 1, m, a, b);
      var p := if v[n - 1] == 0 then 0 else Pow2(MAX_BITS - v[n - 1]);
      assert a * (SpaceOf(v, n - 1) + p) == a * SpaceOf(v, n - 1) + a * p;
      assert b * (FreqSum(freq, n - 1) + freq[n - 1]) == b * FreqSum(freq, n - 1) + b * freq[n - 1];
    }
  }

  lemma {:induction false} ExactCost(freq: seq<nat>, v: seq<nat>, lens: seq<nat>, n: nat, m: nat, a: nat, b: nat)
    requires Exact(freq, v, m, a, b) && n <= m && n <= |lens|
    ensures a * SpaceCost(v, lens, n) == b * SymCost(freq, lens, n)
    decreases n
  {
    hide Pow2;
    if n == 0 {
    } else {
      ExactCost(freq, v, lens, n - 1, m, a, b);
      var p, l := if v[n - 1] == 0 then 0 else Pow2(MAX_BITS - v[n - 1]), lens[n - 1];
      OneCost(a, b, p, freq[n - 1], l);
      assert a * (SpaceCost(v, lens, n - 1) + p * l) == a * SpaceCost(v, lens, n - 1) + a * (p * l);
      assert b * (SymCost(freq, lens, n - 1) + freq[n - 1] * l)
               == b * SymCost(freq, lens, n - 1) + b * (freq[n - 1] * l);
    }
  }

  lemma OneCost(a: nat, b: nat, p: nat, f: nat, l: nat)
    requires a * p == b * f
    ensures a * (p * l) == b * (f * l)
  {
    assert a * (p * l) == a * p * l;
    assert b * (f * l) == b * f * l;
  }

  /** Another length than v's costs more than the space it saves, but that one bit less
      costs just as much. */
  lemma OneSymbol(l: nat, v: nat)
    requires 1 <= l <= MAX_BITS && 1 <= v <= MAX_BITS
    ensures var p, q := Pow2(MAX_BITS - l), Pow2(MAX_BITS - v);
            p + q * l >= q + q * v && (p + q * l <= q + q * v ==> l == v || l + 1 == v)
  {
    var p, q := Pow2(MAX_BITS - l), Pow2(MAX_BITS - v);
    if l > v {
      Multiples(q, v + 1, l);
      assert q * (v + 1) == q * v + q;
    } else if l < v {
      Doubles(MAX_BITS - v, v - l);
      assert q * v == q * l + q * (v - l);
    }
  }

  /** 2 ^ (n + k) is at least (1 + k) times 2 ^ n, and more from k = 2 on. */
  lemma {:induction false} Doubles(n: nat, k: nat)
    requires k >= 1
    ensures Pow2(n + k) >= Pow2(n) + Pow2(n) * k && (k >= 2 ==> Pow2(n + k) > Pow2(n) + Pow2(n) * k)
    decreases k
  {
    if k == 1 {
    } else {
      Doubles(n, k - 1);
      var q := Pow2(n);
      assert Pow2(n + k) == 2 * Pow2(n + (k - 1));
      assert q * k == q * (k - 1) + q;
      Multiples(q, 1, k - 1);
    }
  }

  /** The same symbols have codes. */
  predicate SameUse(v: seq<nat>, lens: seq<nat>, n: nat) {
    && n <= |v| && n <= |lens|
    && forall s :: 0 <= s < n ==> v[s] <= MAX_BITS && lens[s] <= MAX_BITS && (v[s] == 0 <==> lens[s] == 0)
  }

  lemma {:induction false} CostsMore(v: seq<nat>, lens: seq<nat>, n: nat, m: nat)
    requires SameUse(v, lens, m) && n <= m
    ensures SpaceOf(lens, n) + SpaceCost(v, lens, n) >= SpaceOf(v, n) + SpaceCost(v, v, n)
    decreases n
  {
    hide Pow2;
    if n == 0 {
    } else {
      CostsMore(v, lens, n - 1, m);
      if v[n - 1] != 0 {
        OneSymbol(lens[n - 1], v[n - 1]);
      }
    }
  }

  /** Where nothing is lost, no length is other than v's, or one bit less. */
  lemma {:induction false} NoneLost(v: seq<nat>, lens: seq<nat>, n: nat, m: nat)
    requires SameUse(v, lens, m) && n <= m
    requires SpaceOf(lens, n) + SpaceCost(v, lens, n) <= SpaceOf(v, n) + SpaceCost(v, v, n)
    ensures forall s :: 0 <= s < n ==> lens[s] == v[s] || lens[s] + 1 == v[s]
    decreases n
  {
    hide Pow2;
    if n == 0 {
    } else {
      CostsMore(v, lens, n - 1, m);
      if v[n - 1] != 0 {
        OneSymbol(lens[n - 1], v[n - 1]);
      }
      NoneLost(v, lens, n - 1, m);
    }
  }

  /** Shorter lengths take more space. */
  lemma {:induction false} NoneShorter(v: seq<nat>, lens: seq<nat>, n: nat, m: nat)
    requires SameUse(v, lens, m) && n <= m && forall s :: 0 <= s < m ==> lens[s] == v[s] || lens[s] + 1 == v[s]
    ensures SpaceOf(lens, n) >= SpaceOf(v, n)
            && (SpaceOf(lens, n) <= SpaceOf(v, n) ==> forall s :: 0 <= s < n ==> lens[s] == v[s])
    decreases n
  {
    hide Pow2;
    if n == 0 {
    } else {
      NoneShorter(v, lens, n - 1, m);
      if lens[n - 1] != v[n - 1] {
        ShorterSpace(lens[n - 1], v[n - 1]);
      }
    }
  }

  lemma ShorterSpace(l: nat, v: nat)
    requires 1 <= l && l + 1 == v <= MAX_BITS
    ensures Pow2(MAX_BITS - l) > Pow2(MAX_BITS - v)
  {
    assert Pow2(MAX_BITS - l) == 2 * Pow2(MAX_BITS - v);
  }

  /** The cheapest code is v itself. */
  lemma OnlyCode(freq: seq<nat>, v: seq<nat>, lens: seq<nat>, n: nat, a: nat, b: nat)
    requires Exact(freq, v, n, a, b) && a > 0 && SameUse(v, lens, n) && SpaceOf(v, n) == Pow2(MAX_BITS)
    requires SpaceOf(lens, n) <= Pow2(MAX_BITS) && SymCost(freq, lens, n) <= SymCost(freq, v, n)
    ensures forall s :: 0 <= s < n ==> lens[s] == v[s]
  {
    hide Pow2, SpaceOf, SymCost, SpaceCost;
    ExactCost(freq, v, lens, n, n, a, b);
    ExactCost(freq, v, v, n, n, a, b);
    Multiples(b, SymCost(freq, lens, n), SymCost(freq, v, n));
    Divided(a, SpaceCost(v, lens, n), SpaceCost(v, v, n));
    NoneLost(v, lens, n, n);
    NoneShorter(v, lens, n, n);
  }

  lemma Divided(a: nat, x: nat, y: nat)
    requires a > 0 && a * x <= a * y
    ensures x <= y
  {
  }
}
