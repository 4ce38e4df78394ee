/** deflate.c: UPDATE_HASH.  The hash of a string is that of its last three bytes,
    and two strings with the same hash and the same first two bytes also have the
    same third, which the match finder does not compare. */
module RollingHash {
  import opened Bits
  import opened ExclusiveOr

  /** What is shifted out of the lower bits of x does not matter. */
  lemma {:induction false} LowShlLow(x: nat, s: nat, n: nat)
    ensures Low(Shl(Low(x, n), s), n) == Low(Shl(x, s), n)
    decreases s
  {
    if s == 0 {
      LowLow(x, n, n);
    } else if n > 0 {
      LowShlLow(x, s - 1, n);
      HalfLow(Shl(Low(x, n), s - 1), Shl(x, s - 1), n);
    }
  }

  lemma HalfLow(a: nat, b: nat, n: nat)
    requires n > 0 && Low(a, n) == Low(b, n)
    ensures Low(2 * a, n) == Low(2 * b, n)
  {
    hide Low;
    LowLow(a, n - 1, n);
    LowLow(b, n - 1, n);
    LowStep(2 * a, n);
    LowStep(2 * b, n);
    SameHalves(Low(2 * a, n), Low(2 * b, n));
  }

  lemma {:induction false} LowShlZero(x: nat, s: nat, n: nat)
    requires n <= s
    ensures Low(Shl(x, s), n) == 0
    decreases n
  {
    if n == 0 {
    } else {
      LowShlZero(x, s - 1, n - 1);
    }
  }

  // -------------------------------------------------------------------- the hash

  /** hash_shift: three updates shift a byte out. */
  function Shift(bits: nat): nat {
    (bits + 2) / 3
  }

  /** UPDATE_HASH */
  function Update(h: nat, c: nat, bits: nat): nat {
    Low(Xor(Shl(h, Shift(bits)), c), bits)
  }

  /** The hash of three bytes. */
  function Key(a: nat, b: nat, c: nat, bits: nat): nat {
    Update(Update(Update(0, a, bits), b, bits), c, bits)
  }

  /** The hash state is that after the bytes a and b, as far as it matters. */
  predicate Ready(h: nat, a: nat, b: nat, bits: nat) {
    var s := Shift(bits);
    Low(Shl(h, s), bits) == Low(Xor(Shl(a, 2 * s), Shl(b, s)), bits)
  }

  /** One more byte, and the oldest no longer matters. */
  lemma ShiftedUpdate(h: nat, c: nat, bits: nat)
    ensures Low(Shl(Update(h, c, bits), Shift(bits)), bits)
         == Low(Xor(Shl(h, 2 * Shift(bits)), Shl(c, Shift(bits))), bits)
  {
    hide Low, Shl, Xor;
    var s := Shift(bits);
    LowShlLow(Xor(Shl(h, s), c), s, bits);
    XorShl(Shl(h, s), c, s);
    ShlShl(h, s, s);
  }

  lemma ReadyTwo(h: nat, a: nat, b: nat, bits: nat)
    ensures Ready(Update(Update(h, a, bits), b, bits), a, b, bits)
  {
    hide Low, Shl, Xor, Update;
    var s, g := Shift(bits), Update(h, a, bits);
    ShiftedUpdate(g, b, bits);
    // the first byte, shifted twice
    ShiftedTwice(h, a, bits);
    XorLow(Shl(g, 2 * s), Shl(b, s), bits);
    XorLow(Shl(a, 2 * s), Shl(b, s), bits);
  }

  lemma ShiftedTwice(h: nat, a: nat, bits: nat)
    ensures Low(Shl(Update(h, a, bits), 2 * Shift(bits)), bits) == Low(Shl(a, 2 * Shift(bits)), bits)
  {
    hide Low, Shl, Xor;
    var s := Shift(bits);
    var x := Xor(Shl(h, s), a);
    LowShlLow(x, 2 * s, bits);
    XorShl(Shl(h, s), a, 2 * s);
    ShlShl(h, s, 2 * s);
    LowShlZero(h, 3 * s, bits);
    XorLow(Shl(h, 3 * s), Shl(a, 2 * s), bits);
    XorZero(Low(Shl(a, 2 * s), bits));
  }

  /** The rolling hash after a third byte is that of the three. */
  lemma RollsTo(h: nat, a: nat, b: nat, c: nat, bits: nat)
    requires Ready(h, a, b, bits)
    ensures Update(h, c, bits) == Key(a, b, c, bits)
  {
    hide Low, Shl, Xor;
    var s := Shift(bits);
    ReadyTwo(0, a, b, bits);
    var g := Update(Update(0, a, bits), b, bits);
    XorLow(Shl(h, s), c, bits);
    XorLow(Shl(g, s), c, bits);
  }

  /** After a third byte the hash is ready for the next. */
  lemma RollsOn(h: nat, a: nat, b: nat, c: nat, bits: nat)
    requires Ready(h, a, b, bits)
    ensures Ready(Update(h, c, bits), b, c, bits)
  {
    hide Low, Shl, Xor, Ready;
    RollsTo(h, a, b, c, bits);
    ReadyTwo(Update(0, a, bits), b, c, bits);
  }

  /** The hash value set up afresh from two bytes. */
  lemma ReadyFresh(a: nat, b: nat, bits: nat)
    requires a < 256 && bits >= 8
    ensures Ready(Update(a, b, bits), a, b, bits)
  {
    hide Shl, Ready;
    var u := Update(0, a, bits);
    assert u == a by {
      ShlZero(Shift(bits));
      XorZero(a);
      Pow2Mono(8, bits);
      Pow2Values();
      LowSmall(a, bits);
    }
    ReadyTwo(0, a, b, bits);
  }

  /** Same hash, same first two bytes: same third byte. */
  lemma ThirdByte(a: nat, b: nat, c: nat, c': nat, bits: nat)
    requires c < 256 && c' < 256 && bits >= 8 && Key(a, b, c, bits) == Key(a, b, c', bits)
    ensures c == c'
  {
    hide Shl, Xor, Low, Pow2;
    XorCancel(Shl(Update(Update(0, a, bits), b, bits), Shift(bits)), c, c', bits);
    Pow2Mono(8, bits);
    Pow2Values();
    LowSmall(c, bits);
    LowSmall(c', bits);
  }

  /** The low bits of a hash are those of the last byte. */
  lemma KeyEnds(a: nat, b: nat, c: nat, bits: nat)
    requires bits >= 8
    ensures Key(a, b, c, bits) % 8 == c % 8
  {
    hide Shl, Xor, Low, Pow2;
    var h, s := Update(Update(0, a, bits), b, bits), Shift(bits);
    LowLow(Xor(Shl(h, s), c), 3, bits);
    XorLow(Shl(h, s), c, 3);
    LowShlZero(h, s, 3);
    XorZero(Low(c, 3));
    LowIsMod(Key(a, b, c, bits), 3);
    LowIsMod(c, 3);
    Pow2Values();
  }
}
