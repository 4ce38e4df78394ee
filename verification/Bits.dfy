/** Powers of two, shifts and masks, bit reversal and bit sequences: the
    arithmetic that the encoder (trees.c) and the decoder (inflate.c,
    inftrees.c) share.

    Numbers are unbounded here; where a C variable could lose bits, the code
    that models it says so.  A bit sequence lists bits in stream order.  Section
    3.1.1 of RFC 1951 packs them into bytes least significant bit first. */
module Bits {

  type Byte = x: int | 0 <= x < 256

  function Pow2(n: nat): (r: nat)
    ensures r >= 1
  {
    if n == 0 then 1 else 2 * Pow2(n - 1)
  }

  /** `v >> n` */
  function Shr(v: nat, n: nat): (r: nat) {
    if n == 0 then v else Shr(v / 2, n - 1)
  }

  /** `v << n` */
  function Shl(v: nat, n: nat): (r: nat) {
    if n == 0 then v else 2 * Shl(v, n - 1)
  }

  /** `v & ((1 << n) - 1)` */
  function Low(v: nat, n: nat): (r: nat) {
    if n == 0 then 0 else v % 2 + 2 * Low(v / 2, n - 1)
  }

  /** `(v >> k) & 1` */
  function Bit(v: nat, k: nat): (r: nat)
    ensures r <= 1
  {
    Shr(v, k) % 2
  }

  // --------------------------------------------------------- shifts and masks

  lemma {:induction false} ShlIsMul(v: nat, n: nat)
    ensures Shl(v, n) == v * Pow2(n)
  {
    if n == 0 {
    } else {
      ShlIsMul(v, n - 1);
      assert 2 * (v * Pow2(n - 1)) == v * (2 * Pow2(n - 1));
    }
  }

  lemma {:induction false} ShlAdd(u: nat, v: nat, n: nat)
    ensures Shl(u + v, n) == Shl(u, n) + Shl(v, n)
  {
    if n == 0 {
    } else {
      ShlAdd(u, v, n - 1);
    }
  }

  lemma {:induction false} ShlMono(u: nat, v: nat, n: nat)
    ensures u <= v <==> Shl(u, n) <= Shl(v, n)
  {
    if n == 0 {
    } else {
      ShlMono(u, v, n - 1);
    }
  }

  lemma {:induction false} ShlPow2(k: nat, n: nat)
    ensures Shl(Pow2(k), n) == Pow2(k + n)
  {
    if n == 0 {
    } else {
      ShlPow2(k, n - 1);
    }
  }

  lemma {:induction false} ShlShl(v: nat, k: nat, n: nat)
    ensures Shl(Shl(v, k), n) == Shl(v, k + n)
  {
    if n == 0 {
    } else {
      ShlShl(v, k, n - 1);
    }
  }

  lemma ShlDouble(v: nat, n: nat)
    ensures Shl(2 * v, n) == Shl(v, n + 1)
  {
    ShlShl(v, 1, n);
  }

  lemma ShlNone(v: nat)
    ensures Shl(v, 0) == v
  {
  }

  lemma ShlPositive(v: nat, n: nat)
    ensures v <= Shl(v, n)
  {
    if n == 0 {
    } else {
      ShlPositive(v, n - 1);
    }
  }

  /** One step of v at scale n spans 2^n. */
  lemma ShlNext(v: nat, n: nat)
    ensures Shl(v + 1, n) == Shl(v, n) + Pow2(n)
  {
    ShlAdd(v, 1, n);
    ShlPow2(0, n);
  }

  lemma {:induction false} ShlZero(n: nat)
    ensures Shl(0, n) == 0
  {
    if n == 0 {
    } else {
      ShlZero(n - 1);
    }
  }

  lemma Pow2One()
    ensures Pow2(0) == 1
  {
  }

  lemma Multiples(q: nat, x: nat, y: nat)
    requires x <= y
    ensures q * x <= q * y
  {
  }

  lemma {:induction false} Pow2Mono(a: nat, b: nat)
    requires a <= b
    ensures Pow2(a) <= Pow2(b)
    decreases b
  {
    if a == b {
    } else {
      Pow2Mono(a, b - 1);
    }
  }

  lemma Pow2StrictMono(a: nat, b: nat)
    requires a < b
    ensures 2 * Pow2(a) <= Pow2(b)
  {
    Pow2Mono(a + 1, b);
  }

  lemma Pow2Values()
    ensures Pow2(1) == 2 && Pow2(2) == 4 && Pow2(3) == 8 && Pow2(4) == 16 && Pow2(5) == 32
    ensures Pow2(6) == 64 && Pow2(7) == 128 && Pow2(8) == 256 && Pow2(9) == 512
    ensures Pow2(10) == 1024 && Pow2(11) == 2048 && Pow2(12) == 4096
    ensures Pow2(13) == 8192 && Pow2(14) == 16384 && Pow2(15) == 32768 && Pow2(16) == 65536
  {
    assert Pow2(4) == 16;
    assert Pow2(8) == 256;
    assert Pow2(12) == 4096;
    assert Pow2(16) == 65536;
  }

  /** A number is its low n bits plus its high bits. */
  lemma {:induction false} SplitAt(v: nat, n: nat)
    ensures v == Low(v, n) + Shl(Shr(v, n), n)
    ensures Low(v, n) < Pow2(n)
  {
    if n == 0 {
    } else {
      SplitAt(v / 2, n - 1);
    }
  }

  /** ... and in no other way. */
  lemma {:induction false} SplitUnique(v: nat, n: nat, r: nat, q: nat)
    requires r < Pow2(n) && v == r + Shl(q, n)
    ensures Low(v, n) == r && Shr(v, n) == q
  {
    if n == 0 {
    } else {
      SplitUnique(v / 2, n - 1, r / 2, q);
    }
  }

  lemma DivModUnique(x: int, d: int, q: int, r: int)
    requires d > 0 && 0 <= r < d && x == r + d * q
    ensures x / d == q && x % d == r
  {
    var k := x / d - q;
    assert k * d == r - x % d by { assert k * d == x / d * d - q * d; }
  }

  lemma LowIsMod(v: nat, n: nat)
    ensures Low(v, n) == v % Pow2(n) && Shr(v, n) == v / Pow2(n)
  {
    SplitAt(v, n);
    ShlIsMul(Shr(v, n), n);
    DivModUnique(v, Pow2(n), Shr(v, n), Low(v, n));
  }

  lemma {:induction false} LowSmall(v: nat, n: nat)
    requires v < Pow2(n)
    ensures Low(v, n) == v && Shr(v, n) == 0
  {
    ShlZero(n);
    SplitUnique(v, n, v, 0);
  }

  lemma {:induction false} ShrShr(v: nat, a: nat, b: nat)
    ensures Shr(Shr(v, a), b) == Shr(v, a + b)
  {
    if a == 0 {
    } else {
      ShrShr(v / 2, a - 1, b);
    }
  }

  /** The low a + b bits as two fields. */
  lemma {:induction false} LowAdd(v: nat, a: nat, b: nat)
    ensures Low(v, a + b) == Low(v, a) + Shl(Low(Shr(v, a), b), a)
  {
    if a == 0 {
    } else {
      LowAdd(v / 2, a - 1, b);
    }
  }

  lemma ShlLow(q: nat, r: nat, n: nat)
    requires r < Pow2(n)
    ensures Low(r + Shl(q, n), n) == r && Shr(r + Shl(q, n), n) == q
  {
    SplitUnique(r + Shl(q, n), n, r, q);
  }

  lemma ShrBound(v: nat, m: nat, n: nat)
    requires n <= m && v < Pow2(m)
    ensures Shr(v, n) < Pow2(m - n)
  {
    LowSmall(v, m);
    ShrLow(v, n, m);
    SplitAt(Shr(v, n), m - n);
  }

  /** `v >> n` is c exactly on the interval of length 2^n that starts at c << n. */
  lemma ShrInterval(v: nat, n: nat, c: nat)
    ensures Shr(v, n) == c <==> Shl(c, n) <= v < Shl(c, n) + Pow2(n)
  {
    SplitAt(v, n);
    if Shl(c, n) <= v < Shl(c, n) + Pow2(n) {
      SplitUnique(v, n, v - Shl(c, n), c);
    }
  }

  lemma {:induction false} LowLow(v: nat, a: nat, b: nat)
    requires a <= b
    ensures Low(Low(v, b), a) == Low(v, a)
  {
    if a == 0 {
    } else {
      LowLow(v / 2, a - 1, b - 1);
    }
  }

  lemma {:induction false} ShrLow(v: nat, a: nat, b: nat)
    requires a <= b
    ensures Shr(Low(v, b), a) == Low(Shr(v, a), b - a)
  {
    if a == 0 {
    } else {
      ShrLow(v / 2, a - 1, b - 1);
    }
  }

  // --------------------------------------------------------------- bit reversal

  /** The n low bits of v in reverse order. */
  function Rev(n: nat, v: nat): (r: nat) {
    if n == 0 then 0 else 2 * Rev(n - 1, v) + Bit(v, n - 1)
  }

  lemma {:induction false} RevBound(n: nat, v: nat)
    ensures Rev(n, v) < Pow2(n)
  {
    if n == 0 {
    } else {
      RevBound(n - 1, v);
    }
  }

  /** The other recursion: the lowest bit of v becomes the highest. */
  lemma {:induction false} RevLow(n: nat, v: nat)
    requires n > 0
    ensures Rev(n, v) == (if v % 2 == 1 then Pow2(n - 1) else 0) + Rev(n - 1, v / 2)
  {
    if n <= 1 {
    } else {
      RevLow(n - 1, v);
      assert Bit(v, n - 1) == Bit(v / 2, n - 2);
    }
  }

  lemma {:induction false} RevInvolution(n: nat, v: nat)
    ensures Rev(n, Rev(n, v)) == Low(v, n)
  {
    if n == 0 {
    } else {
      RevLow(n, Rev(n, v));
      RevInvolution(n - 1, v);
      LowAdd(v, n - 1, 1);
      assert Low(Shr(v, n - 1), 1) == Bit(v, n - 1);
      ShlPow2(0, n - 1);
      ShlZero(n - 1);
    }
  }

  /** The low n bits of an m-bit reversal come from the top n of the m bits. */
  lemma {:induction false} RevPrefix(m: nat, n: nat, v: nat)
    requires n <= m
    ensures Low(Rev(m, v), n) == Rev(n, Shr(v, m - n))
  {
    if n == 0 {
    } else {
      RevPrefix(m - 1, n - 1, v);
      ShrShr(v, m - n, n - 1);
    }
  }

  /** Appending zero bits below c does not change its reversal. */
  lemma {:induction false} RevShift(n: nat, k: nat, c: nat)
    ensures Rev(n + k, Shl(c, k)) == Rev(n, c)
  {
    if k == 0 {
    } else {
      RevLow(n + k, Shl(c, k));
      RevShift(n, k - 1, c);
    }
  }

  lemma RevInjective(n: nat, u: nat, v: nat)
    requires Rev(n, u) == Rev(n, v)
    ensures Low(u, n) == Low(v, n)
  {
    RevInvolution(n, u);
    RevInvolution(n, v);
  }

  // -------------------------------------------------------------- bit sequences

  /** The n low bits of v, least significant first. */
  function ToBits(v: nat, n: nat): (r: seq<bool>)
    ensures |r| == n
  {
    if n == 0 then [] else [v % 2 == 1] + ToBits(v / 2, n - 1)
  }

  /** The number whose bits, least significant first, are bs. */
  function FromBits(bs: seq<bool>): (r: nat) {
    if bs == [] then 0 else (if bs[0] then 1 else 0) + 2 * FromBits(bs[1..])
  }

  /** Bytes as the bit stream they carry. */
  function BytesToBits(bytes: seq<Byte>): (r: seq<bool>)
    ensures |r| == 8 * |bytes|
  {
    if bytes == [] then [] else ToBits(bytes[0], 8) + BytesToBits(bytes[1..])
  }

  lemma {:induction false} FromBitsBound(bs: seq<bool>)
    ensures FromBits(bs) < Pow2(|bs|)
  {
    if bs == [] {
    } else {
      FromBitsBound(bs[1..]);
    }
  }

  lemma {:induction false} FromToBits(v: nat, n: nat)
    ensures FromBits(ToBits(v, n)) == Low(v, n)
  {
    if n == 0 {
    } else {
      FromToBits(v / 2, n - 1);
      assert ToBits(v, n)[1..] == ToBits(v / 2, n - 1);
    }
  }

  lemma {:induction false} ToFromBits(bs: seq<bool>)
    ensures ToBits(FromBits(bs), |bs|) == bs
  {
    if bs == [] {
    } else {
      ToFromBits(bs[1..]);
      assert bs == [bs[0]] + bs[1..];
    }
  }

  lemma {:induction false} FromBitsAppend(a: seq<bool>, b: seq<bool>)
    ensures FromBits(a + b) == FromBits(a) + Shl(FromBits(b), |a|)
  {
    if a == [] {
      assert a + b == b;
    } else {
      FromBitsAppend(a[1..], b);
      assert (a + b)[1..] == a[1..] + b;
    }
  }

  lemma {:induction false} ToBitsAppend(v: nat, a: nat, b: nat)
    ensures ToBits(v, a + b) == ToBits(v, a) + ToBits(Shr(v, a), b)
  {
    if a == 0 {
    } else {
      ToBitsAppend(v / 2, a - 1, b);
    }
  }

  lemma {:induction false} ToBitsLow(v: nat, n: nat, m: nat)
    requires n <= m
    ensures ToBits(Low(v, m), n) == ToBits(v, n)
  {
    if n == 0 {
    } else {
      ToBitsLow(v / 2, n - 1, m - 1);
    }
  }

  /** Splitting a bit sequence splits its number: `BITS(n)` and `hold >> n`. */
  lemma FromBitsSplit(bs: seq<bool>, n: nat)
    requires n <= |bs|
    ensures Low(FromBits(bs), n) == FromBits(bs[..n])
    ensures Shr(FromBits(bs), n) == FromBits(bs[n..])
  {
    assert bs == bs[..n] + bs[n..];
    FromBitsAppend(bs[..n], bs[n..]);
    FromBitsBound(bs[..n]);
    SplitUnique(FromBits(bs), n, FromBits(bs[..n]), FromBits(bs[n..]));
  }

  lemma {:induction false} BytesToBitsAppend(a: seq<Byte>, b: seq<Byte>)
    ensures BytesToBits(a + b) == BytesToBits(a) + BytesToBits(b)
  {
    hide ToBits;
    if a == [] {
      assert a + b == b;
    } else {
      assert (a + b)[0] == a[0] && (a + b)[1..] == a[1..] + b;
      assert BytesToBits(a) == ToBits(a[0], 8) + BytesToBits(a[1..]);
      assert BytesToBits(a + b) == ToBits(a[0], 8) + BytesToBits(a[1..] + b);
      hide BytesToBits;
      BytesToBitsAppend(a[1..], b);
    }
  }

  lemma OneByteBits(x: Byte)
    ensures BytesToBits([x]) == ToBits(x, 8)
  {
    assert BytesToBits([x]) == ToBits(x, 8) + BytesToBits([x][1..]);
  }

  lemma Grouped<T>(a: seq<T>, b: seq<T>, c: seq<T>)
    ensures a + b + c == a + (b + c)
  {
  }
}
