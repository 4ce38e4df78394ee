/** Exclusive or of natural numbers, and its laws. */
module ExclusiveOr {
  import opened Bits

  /** Exclusive or, bit by bit. */
  function Xor(a: nat, b: nat): (r: nat)
    decreases a + b
  {
    if a == 0 && b == 0 then 0 else (a + b) % 2 + 2 * Xor(a / 2, b / 2)
  }

  lemma {:induction false} XorStep(a: nat, b: nat)
    ensures Xor(a, b) % 2 == (a + b) % 2 && Xor(a, b) / 2 == Xor(a / 2, b / 2)
  {
    if a > 0 || b > 0 {
      Halves((a + b) % 2, Xor(a / 2, b / 2));
    }
  }

  lemma Halves(p: nat, x: nat)
    requires p < 2
    ensures (p + 2 * x) % 2 == p && (p + 2 * x) / 2 == x
  {
  }

  lemma {:induction false} LowStep(v: nat, n: nat)
    requires n > 0
    ensures Low(v, n) % 2 == v % 2 && Low(v, n) / 2 == Low(v / 2, n - 1)
  {
    Halves(v % 2, Low(v / 2, n - 1));
  }

  lemma SameHalves(x: nat, y: nat)
    requires x % 2 == y % 2 && x / 2 == y / 2
    ensures x == y
  {
  }

  lemma SumParity(a: nat, b: nat, c: nat, d: nat)
    requires a % 2 == c % 2 && b % 2 == d % 2
    ensures (a + b) % 2 == (c + d) % 2
  {
  }

  lemma {:induction false} XorZero(b: nat)
    ensures Xor(0, b) == b
  {
    if b == 0 {
    } else {
      XorZero(b / 2);
      XorStep(0, b);
    }
  }

  lemma {:induction false} XorLow(a: nat, b: nat, n: nat)
    ensures Low(Xor(a, b), n) == Xor(Low(a, n), Low(b, n))
    decreases n
  {
    if n == 0 {
    } else {
      hide Xor, Low;
      XorStep(a, b);
      XorLow(a / 2, b / 2, n - 1);
      LowStep(Xor(a, b), n);
      LowStep(a, n);
      LowStep(b, n);
      XorStep(Low(a, n), Low(b, n));
      SumParity(a, b, Low(a, n), Low(b, n));
      SameHalves(Low(Xor(a, b), n), Xor(Low(a, n), Low(b, n)));
    }
  }

  lemma {:induction false} XorShl(a: nat, b: nat, s: nat)
    ensures Shl(Xor(a, b), s) == Xor(Shl(a, s), Shl(b, s))
    decreases s
  {
    if s == 0 {
    } else {
      XorShl(a, b, s - 1);
      var x, y := Shl(a, s - 1), Shl(b, s - 1);
      assert Shl(a, s) == 2 * x && Shl(b, s) == 2 * y && Shl(Xor(a, b), s) == 2 * Shl(Xor(a, b), s - 1);
      hide Xor, Shl;
      XorDouble(x, y);
    }
  }

  lemma XorDouble(x: nat, y: nat)
    ensures Xor(2 * x, 2 * y) == 2 * Xor(x, y)
  {
    hide Xor;
    XorStep(2 * x, 2 * y);
    Halves(0, x);
    Halves(0, y);
    Halves(0, Xor(x, y));
    SumParity(2 * x, 2 * y, 0, 0);
    SameHalves(2 * Xor(x, y), Xor(2 * x, 2 * y));
  }

  /** Equal sums with equal first terms have equal second terms. */
  lemma {:induction false} XorCancel(x: nat, a: nat, b: nat, n: nat)
    requires Low(Xor(x, a), n) == Low(Xor(x, b), n)
    ensures Low(a, n) == Low(b, n)
    decreases n
  {
    if n == 0 {
    } else {
      hide Xor, Low;
      XorStep(x, a);
      XorStep(x, b);
      LowStep(Xor(x, a), n);
      LowStep(Xor(x, b), n);
      XorCancel(x / 2, a / 2, b / 2, n - 1);
      LowStep(a, n);
      LowStep(b, n);
      SameParity(x, a, b);
      SameHalves(Low(a, n), Low(b, n));
    }
  }

  lemma SameParity(x: nat, a: nat, b: nat)
    requires (x + a) % 2 == (x + b) % 2
    ensures a % 2 == b % 2
  {
  }

  lemma {:induction false} XorCommutes(a: nat, b: nat)
    ensures Xor(a, b) == Xor(b, a)
    decreases a + b
  {
    if a == 0 && b == 0 {
    } else {
      XorCommutes(a / 2, b / 2);
    }
  }

  lemma {:induction false} XorAssociates(a: nat, b: nat, c: nat)
    ensures Xor(Xor(a, b), c) == Xor(a, Xor(b, c))
    decreases a + b + c
  {
    if a == 0 {
      XorZero(b);
      XorZero(Xor(b, c));
    } else {
      XorAssociates(a / 2, b / 2, c / 2);
      hide Xor;
      XorStep(a, b);
      XorStep(b, c);
      XorStep(Xor(a, b), c);
      XorStep(a, Xor(b, c));
      ParityAssociates(a, b, c, Xor(a, b), Xor(b, c));
      SameHalves(Xor(Xor(a, b), c), Xor(a, Xor(b, c)));
    }
  }

  lemma ParityAssociates(a: nat, b: nat, c: nat, ab: nat, bc: nat)
    requires ab % 2 == (a + b) % 2 && bc % 2 == (b + c) % 2
    ensures (ab + c) % 2 == (a + bc) % 2
  {
  }

  lemma {:induction false} XorSelf(a: nat)
    ensures Xor(a, a) == 0
  {
    if a == 0 {
    } else {
      XorSelf(a / 2);
      EvenDouble(a);
    }
  }

  lemma EvenDouble(a: nat)
    ensures (a + a) % 2 == 0
  {
  }

  /** Four terms may be paired the other way. */
  lemma XorSwap(a: nat, b: nat, c: nat, d: nat)
    ensures Xor(Xor(a, b), Xor(c, d)) == Xor(Xor(a, c), Xor(b, d))
  {
    hide Xor;
    XorAssociates(a, b, Xor(c, d));
    XorAssociates(b, c, d);
    XorCommutes(b, c);
    XorAssociates(c, b, d);
    XorAssociates(a, c, Xor(b, d));
  }

  lemma {:induction false} XorShr(a: nat, b: nat, n: nat)
    ensures Shr(Xor(a, b), n) == Xor(Shr(a, n), Shr(b, n))
    decreases n
  {
    if n == 0 {
    } else {
      XorShr(a / 2, b / 2, n - 1);
      XorStep(a, b);
    }
  }

  lemma {:induction false} XorBound(a: nat, b: nat, n: nat)
    requires a < Pow2(n) && b < Pow2(n)
    ensures Xor(a, b) < Pow2(n)
    decreases n
  {
    if n == 0 {
    } else {
      XorBound(a / 2, b / 2, n - 1);
      hide Xor;
      XorStep(a, b);
    }
  }

  /** Numbers without common bits: the sum. */
  lemma {:induction false} XorDisjoint(low: nat, high: nat, n: nat)
    requires low < Pow2(n)
    ensures Xor(low, Shl(high, n)) == low + Shl(high, n)
    decreases n
  {
    if n == 0 {
      XorZero(high);
    } else {
      XorDisjoint(low / 2, high, n - 1);
      var h := Shl(high, n - 1);
      assert Shl(high, n) == 2 * h;
      hide Xor, Shl, Pow2;
      XorStep(low, 2 * h);
      Halves(0, h);
      Halves(low % 2, low / 2 + h);
      SumParity(low, 2 * h, low, 0);
      SameHalves(Xor(low, 2 * h), low + 2 * h);
    }
  }

  /** A number is its lower bits and its upper bits. */
  lemma XorSplit(x: nat, n: nat)
    ensures x == Xor(Low(x, n), Shl(Shr(x, n), n))
  {
    hide Xor, Low, Shr, Shl, Pow2;
    SplitAt(x, n);
    XorDisjoint(Low(x, n), Shr(x, n), n);
  }

  // ---------------------------------------------------------------------------- or

  /** Or, bit by bit. */
  function Or(a: nat, b: nat): (r: nat)
    decreases a + b
  {
    if a == 0 && b == 0 then 0 else (if a % 2 == 1 || b % 2 == 1 then 1 else 0) + 2 * Or(a / 2, b / 2)
  }

  lemma {:induction false} OrZero(a: nat)
    ensures Or(a, 0) == a
  {
    if a == 0 {
    } else {
      OrZero(a / 2);
    }
  }

  /** A bit below all those set. */
  lemma {:induction false} OrBit(a: nat, k: nat)
    requires Low(a, k + 1) == 0
    ensures Or(a, Pow2(k)) == a + Pow2(k) && Low(a + Pow2(k), k) == 0
    decreases k
  {
    if k == 0 {
      OrZero(a / 2);
    } else {
      OrBit(a / 2, k - 1);
      assert (a + Pow2(k)) / 2 == a / 2 + Pow2(k - 1);
    }
  }

  lemma {:induction false} LowLess(a: nat, j: nat, k: nat)
    requires j <= k && Low(a, k) == 0
    ensures Low(a, j) == 0
    decreases k
  {
    if j == 0 {
    } else {
      LowLess(a / 2, j - 1, k - 1);
    }
  }

  lemma {:induction false} LowZero(k: nat)
    ensures Low(0, k) == 0
  {
    if k == 0 {
    } else {
      LowZero(k - 1);
    }
  }
}
