/** adler32.c: the checksum with deferred modulo, and its combination. */
module Adler {
  import opened Bits
  import opened AdlerSpec

  const NMAX: nat := 5552
  const U32: nat := 0x1_0000_0000

  function Unpack(adler: nat): Sums {
    Sums(adler % 65536, adler / 65536 % 65536)
  }

  /** The sums without any modulo. */
  function Defer(s: Sums, bytes: seq<Byte>): (r: Sums)
    decreases |bytes|
  {
    if bytes == [] then s else Defer(Sums(s.a + bytes[0], s.b + s.a + bytes[0]), bytes[1..])
  }

  function Mod(s: Sums): (r: Sums)
    ensures Reduced(r)
  {
    Sums(s.a % BASE, s.b % BASE)
  }

  /** Both sums fit 16 bits, as those that adler32 is called with. */
  predicate Halves(s: Sums) {
    s.a < 65536 && s.b < 65536
  }

  lemma PackUnpack(s: Sums)
    requires Halves(s)
    ensures Unpack(Packed(s)) == s && Packed(s) < U32
  {
  }

  lemma AddMod(s: Sums, x: Byte)
    ensures Add(Mod(s), x) == Mod(Sums(s.a + x, s.b + s.a + x))
  {
    ReplaceMod(s.a, x);
    ReplaceMod(s.a + x, s.b % BASE);
    ReplaceMod(s.b, s.a + x);
  }

  /** Deferring the modulo does not change the result. */
  lemma {:induction false} DeferIsFeed(s: Sums, bytes: seq<Byte>)
    ensures Mod(Defer(s, bytes)) == Feed(Mod(s), bytes)
    decreases |bytes|
  {
    hide Mod, Add;
    if bytes == [] {
    } else {
      AddMod(s, bytes[0]);
      DeferIsFeed(Sums(s.a + bytes[0], s.b + s.a + bytes[0]), bytes[1..]);
    }
  }

  lemma {:induction false} DeferAppend(s: Sums, x: seq<Byte>, y: seq<Byte>)
    ensures Defer(s, x + y) == Defer(Defer(s, x), y)
    decreases |x|
  {
    if x == [] {
      assert x + y == y;
    } else {
      DeferAppend(Sums(s.a + x[0], s.b + s.a + x[0]), x[1..], y);
      assert (x + y)[1..] == x[1..] + y;
    }
  }

  // ------------------------------------------------------------ the 32-bit bound

  /** An upper bound on both deferred sums after n bytes. */
  function Bound(n: nat): nat {
    if n == 0 then BASE - 1 else Bound(n - 1) + (BASE - 1) + 255 * n
  }

  lemma {:induction false} BoundFormula(n: nat)
    ensures 2 * Bound(n) == 2 * (BASE - 1) * (n + 1) + 255 * (n * n + n)
  {
    if n == 0 {
    } else {
      BoundFormula(n - 1);
      assert (n - 1) * (n - 1) + (n - 1) == n * n - n;
    }
  }

  lemma {:induction false} BoundMono(m: nat, n: nat)
    requires m <= n
    ensures Bound(m) <= Bound(n)
    decreases n
  {
    if m == n {
    } else {
      BoundMono(m, n - 1);
    }
  }

  /** NMAX is the largest n whose bound fits 32 bits, as adler32.c:13 says. */
  lemma NmaxIsTight()
    ensures Bound(NMAX) < U32 <= Bound(NMAX + 1)
  {
    hide Bound;
    BoundFormula(NMAX);
    BoundFormula(NMAX + 1);
  }

  /** The sums grow by at most that much, starting from any 16 bits. */
  predicate Within(s: Sums, n: nat) {
    s.a <= 65535 + 255 * n && s.b <= Bound(n) + 15 * (n + 1)
  }

  lemma WithinFits(s: Sums, n: nat)
    requires Within(s, n) && n <= NMAX
    ensures s.a < U32 && s.b < U32
  {
    hide Bound;
    BoundMono(n, NMAX);
    BoundFormula(NMAX);
  }

  // -------------------------------------------------------------------- adler32

  /** DO1 over buf[i .. i + k], with the deferred sums: no sum passes 32 bits. */
  method Accumulate(s: Sums, buf: seq<Byte>, i: nat, k: nat, ghost n: nat) returns (r: Sums)
    requires i + k <= |buf| && Within(s, n) && n + k <= NMAX
    ensures r == Defer(s, buf[i..i + k]) && Within(r, n + k)
    ensures r.a < U32 && r.b < U32
  {
    r := s;
    var j := i;
    assert buf[i..j] == [];
    while j < i + k
      invariant i <= j <= i + k && r == Defer(s, buf[i..j]) && Within(r, n + (j - i))
    {
      DeferAppend(s, buf[i..j], [buf[j]]);
      assert buf[i..j] + [buf[j]] == buf[i..j + 1];
      LastDefer(r, buf[j]);
      var adler := r.a + buf[j];
      var sum2 := r.b + adler;
      r := Sums(adler, sum2);
      j := j + 1;
    }
    WithinFits(r, n + k);
  }

  lemma LastDefer(s: Sums, x: Byte)
    ensures Defer(s, [x]) == Sums(s.a + x, s.b + s.a + x)
  {
    assert Defer(s, [x]) == Defer(Sums(s.a + x, s.b + s.a + x), [x][1..]);
  }

  /** DO16 applied `times` times. */
  method Blocks(s: Sums, buf: seq<Byte>, i: nat, times: nat, ghost n: nat) returns (r: Sums)
    requires i + 16 * times <= |buf| && Within(s, n) && n + 16 * times <= NMAX
    ensures r == Defer(s, buf[i..i + 16 * times]) && Within(r, n + 16 * times)
  {
    hide Within, Defer;
    r := s;
    var left, j := times, i;
    assert buf[i..j] == [];
    DeferNone(s);
    while left > 0
      invariant 0 <= left <= times && j == i + 16 * (times - left)
      invariant r == Defer(s, buf[i..j]) && Within(r, n + (j - i))
    {
      DeferAppend(s, buf[i..j], buf[j..j + 16]);
      assert buf[i..j] + buf[j..j + 16] == buf[i..j + 16];
      r := Accumulate(r, buf, j, 16, n + (j - i));
      j := j + 16;
      left := left - 1;
    }
  }

  lemma DeferNone(s: Sums)
    ensures Defer(s, []) == s
  {
  }

  /** One deferred stretch of at most NMAX bytes, then the modulo. */
  method Stretch(s: Sums, buf: seq<Byte>, i: nat, len: nat) returns (r: Sums)
    requires i + len <= |buf| && len <= NMAX && Halves(s)
    ensures r == Feed(Mod(s), buf[i..i + len]) && Reduced(r)
  {
    hide Defer, Feed;
    var times := len / 16;
    ShortStart(s);
    r := Blocks(s, buf, i, times, 0);
    ghost var front := buf[i..i + 16 * times];
    r := Accumulate(r, buf, i + 16 * times, len - 16 * times, 16 * times);
    DeferAppend(s, front, buf[i + 16 * times..i + len]);
    assert front + buf[i + 16 * times..i + len] == buf[i..i + len];
    DeferIsFeed(s, buf[i..i + len]);
    r := Mod(r);
  }

  /** The one subtraction of the path for a single byte is not enough. */
  predicate Late(s: Sums, buf: seq<Byte>) {
    |buf| == 1 && s.b + (s.a + buf[0]) % BASE >= 2 * BASE
  }

  /** The two paths for buffers of fewer than 16 bytes. */
  method ShortBuffer(s: Sums, buf: seq<Byte>) returns (r: Sums)
    requires Halves(s) && |buf| < 16
    ensures var f := Feed(Mod(s), buf); r == Sums(f.a, f.b + if Late(s, buf) then BASE else 0)
  {
    hide Within, Defer, Feed, Bound;
    if |buf| == 1 {
      var a := s.a + buf[0];
      if a >= BASE {
        a := a - BASE;
      }
      var sum2 := s.b + a;
      if sum2 >= BASE {
        sum2 := sum2 - BASE;
      }
      OneByte(s, buf);
      return Sums(a, sum2);
    }
    ShortStart(s);
    var t := Accumulate(s, buf, 0, |buf|, 0);
    ShortEnd(t, |buf|);
    assert buf[0..|buf|] == buf;
    DeferIsFeed(s, buf);
    var a := if t.a >= BASE then t.a - BASE else t.a;
    return Sums(a, t.b % BASE);
  }

  /** Long buffers: whole NMAX stretches, then the rest. */
  method LongBuffer(s0: Sums, buf: seq<Byte>) returns (s: Sums)
    requires Halves(s0) && |buf| >= 16
    ensures s == Feed(Mod(s0), buf)
  {
    hide Feed, Add;
    s := s0;
    var i := 0;
    FeedNone(Mod(s0), buf[..0]);
    while |buf| - i >= NMAX
      invariant 0 <= i <= |buf| && Halves(s) && (i > 0 ==> Reduced(s)) && Mod(s) == Feed(Mod(s0), buf[..i])
    {
      FeedAppend(Mod(s0), buf[..i], buf[i..i + NMAX]);
      assert buf[..i] + buf[i..i + NMAX] == buf[..i + NMAX];
      s := Stretch(s, buf, i, NMAX);
      i := i + NMAX;
    }
    if i < |buf| {
      FeedAppend(Mod(s0), buf[..i], buf[i..]);
      assert buf[..i] + buf[i..] == buf;
      s := Stretch(s, buf, i, |buf| - i);
      assert buf[i..i + (|buf| - i)] == buf[i..];
    } else {
      assert buf[..i] == buf;
    }
  }

  lemma FeedNone(s: Sums, none: seq<Byte>)
    requires none == []
    ensures Feed(s, none) == s
  {
  }

  /** adler32: the byte-by-byte definition for every buffer and every start, whose halves it
      reduces, unless one byte is added late. */
  method Adler32(adler: nat, buf: seq<Byte>) returns (r: nat)
    ensures r < U32
    ensures r == Packed(Feed(Mod(Unpack(adler)), buf)) <==> !Late(Unpack(adler), buf)
    ensures Late(Unpack(adler), buf) ==> r == Packed(Feed(Mod(Unpack(adler)), buf)) + 65536 * BASE
    ensures Reduced(Unpack(adler)) ==> r == Packed(Feed(Unpack(adler), buf))
  {
    hide Feed;
    var s := Unpack(adler);
    LateBound(s, buf);
    PackUnpack(Feed(Mod(s), buf));
    if |buf| < 16 {
      s := ShortBuffer(s, buf);
    } else {
      s := LongBuffer(s, buf);
    }
    return Packed(s);
  }

  lemma LateBound(s: Sums, buf: seq<Byte>)
    requires Halves(s)
    ensures Late(s, buf) ==> Feed(Mod(s), buf).b + BASE < 65536 && s.b > BASE
  {
    hide Feed;
    if |buf| == 1 {
      OneByte(s, buf);
    }
  }

  lemma OneByte(s: Sums, buf: seq<Byte>)
    requires Halves(s) && |buf| == 1
    ensures var a, f := if s.a + buf[0] >= BASE then s.a + buf[0] - BASE else s.a + buf[0], Feed(Mod(s), buf);
            a == f.a == (s.a + buf[0]) % BASE
            && (if s.b + a >= BASE then s.b + a - BASE else s.b + a) == f.b + if Late(s, buf) then BASE else 0
  {
    hide Add;
    var m := Mod(s);
    assert Feed(m, buf) == Feed(Add(m, buf[0]), buf[1..]);
    AddMod(s, buf[0]);
    AddOnce(s, buf[0]);
  }

  lemma AddOnce(s: Sums, x: Byte)
    requires Halves(s)
    ensures var a, f := if s.a + x >= BASE then s.a + x - BASE else s.a + x, Mod(Sums(s.a + x, s.b + s.a + x));
            && a == f.a == (s.a + x) % BASE
            && (if s.b + a >= BASE then s.b + a - BASE else s.b + a) == f.b + if s.b + a >= 2 * BASE then BASE else 0
  {
  }

  lemma ShortStart(s: Sums)
    requires Halves(s)
    ensures Within(s, 0)
  {
  }

  lemma ShortEnd(t: Sums, n: nat)
    requires Within(t, n) && n < 16
    ensures t.a < 2 * BASE
  {
  }

  // ----------------------------------------------------------- adler32_combine

  function Total(bytes: seq<Byte>): nat {
    if bytes == [] then 0 else bytes[0] + Total(bytes[1..])
  }

  /** Each byte weighted by the number of bytes from it to the end. */
  function Weighted(bytes: seq<Byte>): nat {
    if bytes == [] then 0 else |bytes| * bytes[0] + Weighted(bytes[1..])
  }

  lemma {:induction false} DeferFormula(s: Sums, bytes: seq<Byte>)
    ensures Defer(s, bytes) == Sums(s.a + Total(bytes), s.b + |bytes| * s.a + Weighted(bytes))
    decreases |bytes|
  {
    if bytes == [] {
    } else {
      var x, n := bytes[0], |bytes| - 1;
      DeferFormula(Sums(s.a + x, s.b + s.a + x), bytes[1..]);
      Distribute(n, s.a, x);
    }
  }

  lemma Distribute(n: int, a: int, x: int)
    ensures a + x + n * (a + x) == (n + 1) * a + (n + 1) * x
  {
  }

  /** The straight-line code, on the two halves. */
  function CombineSums(s1: Sums, s2: Sums, len2: nat): (r: Sums) {
    var rem := len2 % BASE;
    var sum2 := rem * s1.a % BASE;
    var sum1 := s1.a + s2.a + BASE - 1;
    var sum2' := sum2 + s1.b + s2.b + BASE - rem;
    var a := if sum1 > BASE then sum1 - BASE else sum1;
    var a' := if a > BASE then a - BASE else a;
    var b := if sum2' > 2 * BASE then sum2' - 2 * BASE else sum2';
    var b' := if b > BASE then b - BASE else b;
    Sums(a', b')
  }

  function Combine(adler1: nat, adler2: nat, len2: nat): nat {
    Packed(CombineSums(Unpack(adler1), Unpack(adler2), len2))
  }

  /** The halves that adler32_combine returns: right, but with BASE for 0. */
  function Noncanonical(s: Sums): Sums {
    Sums(if s.a == 0 then BASE else s.a, if s.b == 0 then BASE else s.b)
  }

  lemma ModStep(x: int, k: int)
    ensures (x + k * BASE) % BASE == x % BASE
  {
  }

  /** What the two checksums say about the concatenation, before any modulo. */
  lemma ConcatSums(x: seq<Byte>, y: seq<Byte>)
    ensures var s1, s2 := Feed(START, x), Feed(START, y);
            Feed(START, x + y).a == (s1.a + s2.a + BASE - 1) % BASE
    ensures var s1, s2 := Feed(START, x), Feed(START, y);
            Feed(START, x + y).b == (|y| * s1.a + s1.b + s2.b + |y| * (BASE - 1)) % BASE
  {
    hide Feed, Defer, Total, Weighted;
    var s1, s2 := Feed(START, x), Feed(START, y);
    FeedAppend(START, x, y);
    assert Mod(START) == START && Mod(s1) == s1;
    DeferIsFeed(s1, y);
    DeferFormula(s1, y);
    DeferIsFeed(START, y);
    DeferFormula(START, y);
    ConcatMod(s1.a, Total(y), s2.a);
    ConcatModB(|y|, s1.a, s1.b, Weighted(y), s2.b);
  }

  lemma ConcatModB(n: nat, a: nat, b: nat, w: nat, b2: nat)
    requires b2 == (n + w) % BASE
    ensures (b + n * a + w) % BASE == (n * a + b + b2 + n * (BASE - 1)) % BASE
  {
    var q := (n + w) / BASE;
    var p := n * a;
    assert n * (BASE - 1) == n * BASE - n;
    ModStep(p + b + b2 + n * (BASE - 1), q - n);
  }

  lemma ConcatMod(a: nat, t: nat, a2: nat)
    requires a2 == (1 + t) % BASE
    ensures (a + t) % BASE == (a + a2 + BASE - 1) % BASE
  {
    var q := (1 + t) / BASE;
    assert 1 + t == q * BASE + a2;
    ModStep(a + a2 + BASE - 1, q - 1);
  }

  lemma SubtractTwice(x: nat, r: nat)
    requires 1 <= x < 4 * BASE && r == x % BASE
    ensures var b := if x > 2 * BASE then x - 2 * BASE else x;
            (if b > BASE then b - BASE else b) == if r == 0 then BASE else r
  {
  }

  lemma SubtractOnceTwice(x: nat, r: nat)
    requires 1 <= x < 3 * BASE && r == x % BASE
    ensures var b := if x > BASE then x - BASE else x;
            (if b > BASE then b - BASE else b) == if r == 0 then BASE else r
  {
  }

  lemma RemProduct(n: nat, a: nat)
    ensures (n % BASE * a) % BASE == (n * a) % BASE
  {
    var q, r := n / BASE, n % BASE;
    assert n * a == r * a + q * a * BASE by { assert n == q * BASE + r; }
    ModStep(r * a, q * a);
  }

  lemma RemSplit(n: nat, p: nat, c: nat)
    requires p % BASE == p
    ensures (p + c + BASE - n % BASE) % BASE == (p + c + n * (BASE - 1)) % BASE
  {
    var q, r := n / BASE, n % BASE;
    assert n * (BASE - 1) == BASE - r + (n - q - 1) * BASE by {
      assert n * (BASE - 1) == n * BASE - n;
      assert n == q * BASE + r;
      assert (n - q - 1) * BASE == n * BASE - q * BASE - BASE;
    }
    ModStep(p + c + BASE - r, n - q - 1);
  }

  lemma ReplaceMod(m: nat, c: nat)
    ensures (m % BASE + c) % BASE == (m + c) % BASE
  {
  }

  lemma RemSum(n: nat, a: nat, c: nat)
    ensures (n % BASE * a % BASE + c + BASE - n % BASE) % BASE == (n * a + c + n * (BASE - 1)) % BASE
  {
    var p := n % BASE * a % BASE;
    RemProduct(n, a);
    RemSplit(n, p, c);
    ReplaceMod(n * a, c + n * (BASE - 1));
  }

  /** adler32_combine on the checksums of x and y: congruent to the checksum of
      x + y in each half, and different from it exactly where that half is 0. */
  lemma CombineSound(x: seq<Byte>, y: seq<Byte>)
    ensures var s1, s2 := Feed(START, x), Feed(START, y);
            CombineSums(s1, s2, |y|) == Noncanonical(Feed(START, x + y))
  {
    hide Feed;
    var s1, s2 := Feed(START, x), Feed(START, y);
    ConcatSums(x, y);
    SubtractOnceTwice(s1.a + s2.a + BASE - 1, Feed(START, x + y).a);
    RemSum(|y|, s1.a, s1.b + s2.b);
    SubtractTwice(|y| % BASE * s1.a % BASE + (s1.b + s2.b) + BASE - |y| % BASE, Feed(START, x + y).b);
  }

  /** The two sums, in any arithmetic that does not overflow. */
  function JoinedA(s1: Sums, s2: Sums): nat {
    (s1.a + s2.a + BASE - 1) % BASE
  }

  function JoinedB(s1: Sums, s2: Sums, len2: nat): nat {
    (len2 * s1.a + s1.b + s2.b + len2 * (BASE - 1)) % BASE
  }

  /** A test that a caller can make on what adler32_combine is called with. */
  predicate Combinable(adler1: nat, adler2: nat, len2: nat) {
    var s1, s2 := Unpack(adler1), Unpack(adler2);
    JoinedA(s1, s2) != 0 && JoinedB(s1, s2, len2) != 0
  }

  lemma JoinedAre(x: seq<Byte>, y: seq<Byte>)
    ensures var s1, s2, s := Feed(START, x), Feed(START, y), Feed(START, x + y);
            JoinedA(s1, s2) == s.a && JoinedB(s1, s2, |y|) == s.b
  {
    hide Feed;
    ConcatSums(x, y);
  }

  /** So the packed value is the checksum of the concatenation if and only if neither sum
      comes out as 0. */
  lemma CombineExact(x: seq<Byte>, y: seq<Byte>)
    ensures var adler1, adler2 := Packed(Feed(START, x)), Packed(Feed(START, y));
            Combine(adler1, adler2, |y|) == Packed(Feed(START, x + y)) <==> Combinable(adler1, adler2, |y|)
  {
    hide Feed, CombineSums, JoinedA, JoinedB, Unpack, Packed;
    var s1, s2, s := Feed(START, x), Feed(START, y), Feed(START, x + y);
    PackUnpack(s1);
    PackUnpack(s2);
    CombineSound(x, y);
    JoinedAre(x, y);
    SamePack(s, Noncanonical(s));
  }

  lemma SamePack(s: Sums, r: Sums)
    requires Halves(s) && Halves(r)
    ensures Packed(s) == Packed(r) <==> s == r
  {
    PackUnpack(s);
    PackUnpack(r);
  }

  /** adler32 goes on from the combined value as from the checksum of the concatenation. */
  lemma CombineContinues(x: seq<Byte>, y: seq<Byte>, buf: seq<Byte>)
    ensures var s := Unpack(Combine(Packed(Feed(START, x)), Packed(Feed(START, y)), |y|));
            !Late(s, buf) && Feed(Mod(s), buf) == Feed(START, x + y + buf)
  {
    hide Feed, CombineSums;
    PackUnpack(Feed(START, x));
    PackUnpack(Feed(START, y));
    CombineSound(x, y);
    var s := Noncanonical(Feed(START, x + y));
    PackUnpack(s);
    LateBound(s, buf);
    FeedAppend(START, x + y, buf);
  }

  /** Two empty buffers are such a case: the high half comes out as 65521. */
  lemma CombineEmpty()
    ensures Combine(1, 1, 0) == 65521 * 65536 + 1 != Packed(Feed(START, []))
  {
  }
}
