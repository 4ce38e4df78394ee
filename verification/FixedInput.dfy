/** deflate.c, trees.c: an input that deflate_slow has to cut into matches of length LONG, each
    at one of two distances, whatever the window. */
module FixedInput {
  import opened Bits
  import opened Matcher
  import opened RollingHash
  import opened ForcedParse
  import opened OverlayBreaks

  /** Half of how many blocks of LONG bytes more than fill a window. */
  predicate Rounds(m: nat) {
    m in {4, 8, 16, 32, 64, 128}
  }

  /** Place i of round t: in every other round each two neighbours are exchanged. */
  function InRound(t: nat, i: nat): (r: nat)
    ensures r <= i + 1
  {
    if t % 2 == 0 then i else if i % 2 == 0 then i + 1 else i - 1
  }

  /** Block k of the input: each round has all m blocks. */
  function BlockAt(k: nat, m: nat): (r: nat)
    requires m > 0
  {
    InRound(k / m, k % m)
  }

  /** Byte o of block b.  Three bytes in a row tell b, and where they are in it. */
  function Digit(b: nat, o: nat): (r: Byte)
    requires b < 128 && o < LONG
    ensures r % 8 == o % 6
  {
    8 * (if o % 3 == 0 then b % 32 else if o % 3 == 1 then o / 6 else b / 32) + o % 6
  }

  lemma BlockBound(k: nat, m: nat)
    requires Rounds(m)
    ensures BlockAt(k, m) < m
  {
  }

  lemma ModOfMod(r: nat)
    ensures r % LONG % 6 == r % 6
  {
    var q, o := r / LONG, r % LONG;
    assert r == 6 * (22 * q + o / 6) + o % 6;
  }

  function ByteAt(r: nat, m: nat): (x: Byte)
    requires Rounds(m)
    ensures x % 8 == r % 6
  {
    BlockBound(r / LONG, m);
    ModOfMod(r);
    Digit(BlockAt(r / LONG, m), r % LONG)
  }

  /** n blocks, and a byte that is in none. */
  function Data(n: nat, m: nat): (r: seq<Byte>)
    requires Rounds(m)
    ensures |r| == LONG * n + 1 && r[LONG * n] == 255 && forall i :: 0 <= i < LONG * n ==> r[i] == ByteAt(i, m)
  {
    seq(LONG * n, i requires 0 <= i < LONG * n => ByteAt(i, m)) + [255]
  }

  lemma InBlock(k: nat, o: nat)
    requires o < LONG
    ensures (LONG * k + o) / LONG == k && (LONG * k + o) % LONG == o
  {
    DivModUnique(LONG * k + o, LONG, k, o);
  }

  lemma SameDigits(b: nat, b': nat, e: nat, o: nat)
    requires b < 128 && b' < 128 && e <= 1 && o < LONG && Digit(b', o) == Digit(b, e)
    requires o + 2 < LONG ==> Digit(b', o + 1) == Digit(b, e + 1) && Digit(b', o + 2) == Digit(b, e + 2)
    ensures o == e && b' == b
  {
    hide Digit;
    assert o % 6 == e;
    assert o + 2 < LONG;
    var k := o / 6;
    DigitIs(b, 0, e);
    DigitIs(b, 0, e + 1);
    DigitIs(b, 0, e + 2);
    DigitIs(b', k, e);
    DigitIs(b', k, e + 1);
    DigitIs(b', k, e + 2);
    assert o == 6 * k + e;
  }

  lemma DigitIs(b: nat, k: nat, e: nat)
    requires b < 128 && e < 4 && 6 * k + e < LONG
    ensures Digit(b, 6 * k + e) == 8 * (if e % 3 == 0 then b % 32 else if e % 3 == 1 then k else b / 32) + e
  {
    assert (6 * k + e) % 6 == e && (6 * k + e) / 6 == k && (6 * k + e) % 3 == e % 3;
  }

  /** What begins like a block, or like its second byte, is in such a block. */
  lemma AlikeAt(n: nat, m: nat, x: nat, k: nat, e: nat)
    requires Rounds(m) && k < n && e <= 1 && x < LONG * k + e && Alike(Data(n, m), x, LONG * k + e)
    ensures x % LONG == e && BlockAt(x / LONG, m) == BlockAt(k, m)
  {
    hide Digit, BlockAt, Data;
    var d, p, j, o := Data(n, m), LONG * k + e, x / LONG, x % LONG;
    assert p + 2 < LONG * n;
    assert d[x..x + 3][0] == d[p..p + 3][0] && d[x..x + 3][1] == d[p..p + 3][1] && d[x..x + 3][2] == d[p..p + 3][2];
    InBlock(k, e);
    InBlock(k, e + 1);
    InBlock(k, e + 2);
    BlockBound(k, m);
    BlockBound(j, m);
    assert x == LONG * j + o;
    if o + 2 < LONG {
      InBlock(j, o + 1);
      InBlock(j, o + 2);
    }
    SameDigits(BlockAt(k, m), BlockAt(j, m), e, o);
  }

  // ----------------------------------------------------------------- where a block was before

  /** How many blocks before it block k last occurred. */
  function Back(k: nat, m: nat): nat
    requires m > 0
  {
    if k % 2 == 0 then m - 1 else m + 1
  }

  lemma RoundOf(t: nat, i: nat, m: nat)
    requires i < m
    ensures BlockAt(m * t + i, m) == InRound(t, i)
  {
    hide InRound;
    DivModUnique(m * t + i, m, t, i);
  }

  lemma EvenProduct(m: nat, t: nat)
    requires m % 2 == 0
    ensures (m * t) % 2 == 0
  {
    var h := m / 2;
    assert m * t == 2 * (h * t);
  }

  lemma RoundSplit(k: nat, m: nat) returns (t: nat, i: nat)
    requires m > 0 && m % 2 == 0
    ensures k == m * t + i && i < m && BlockAt(k, m) == InRound(t, i) && k % 2 == i % 2
    ensures k >= m ==> t >= 1 && m * (t - 1) == m * t - m
  {
    hide BlockAt, InRound;
    t, i := Division(k, m);
    RoundOf(t, i, m);
    EvenProduct(m, t);
    if t >= 1 {
      MulStep(m, t - 1, t);
    }
  }

  lemma Division(k: nat, m: nat) returns (t: nat, i: nat)
    requires m > 0
    ensures k == m * t + i && i < m && (k >= m ==> t >= 1)
  {
    t, i := k / m, k % m;
  }

  lemma BackIs(k: nat, m: nat)
    requires m > 0 && m % 2 == 0 && k >= 2 * m
    ensures Back(k, m) <= k && BlockAt(k - Back(k, m), m) == BlockAt(k, m)
  {
    hide BlockAt;
    var t, i := RoundSplit(k, m);
    RoundOf(t - 1, if i % 2 == 0 then i + 1 else i - 1, m);
  }

  /** There is no other in reach. */
  lemma OnlyBack(j: nat, k: nat, m: nat)
    requires m > 0 && m % 2 == 0 && j < k < j + 2 * m && BlockAt(j, m) == BlockAt(k, m)
    ensures j + Back(k, m) == k
  {
    hide BlockAt;
    var t, i := RoundSplit(k, m);
    var u, v := RoundSplit(j, m);
    NearRounds(u, v, t, i, m);
  }

  lemma NearRounds(u: nat, v: nat, t: nat, i: nat, m: nat)
    requires v < m && i < m && m % 2 == 0 && m * u + v < m * t + i < m * u + v + 2 * m && InRound(u, v) == InRound(t, i)
    ensures m * t + i - (m * u + v) == if i % 2 == 0 then m - 1 else m + 1
  {
    if u > t {
      MulStep(m, t, u);
    } else if u < t {
      MulStep(m, u, t);
      if u + 1 < t {
        MulStep(m, u + 1, t);
        if u + 2 < t {
          MulStep(m, u + 2, t);
        }
      }
    }
  }

  lemma MulStep(m: nat, a: nat, b: nat)
    requires a < b
    ensures m * a + m == m * (a + 1) <= m * b
  {
  }

  /** The blocks behind the two. */
  lemma NextBlocks(k: nat, m: nat) returns (a: nat, b: nat)
    requires m >= 4 && m % 2 == 0 && k >= 2 * m
    ensures Back(k, m) <= k && BlockAt(k - Back(k, m) + 1, m) == a && BlockAt(k + 1, m) == b
    ensures a == b + 2 || b == a + 2 || a % 2 != b % 2
  {
    hide BlockAt;
    var t, i := RoundSplit(k, m);
    MulStep(m, t, t + 1);
    var q := k - Back(k, m) + 1;
    if i % 2 == 0 {
      b := InRound(t, i + 1);
      RoundOf(t, i + 1, m);
      if i + 2 < m {
        a := InRound(t - 1, i + 2);
        assert q == m * (t - 1) + (i + 2);
        RoundOf(t - 1, i + 2, m);
      } else {
        a := InRound(t, 0);
        RoundOf(t, 0, m);
      }
    } else {
      a := InRound(t - 1, i);
      RoundOf(t - 1, i, m);
      if i + 1 < m {
        b := InRound(t, i + 1);
        RoundOf(t, i + 1, m);
      } else {
        b := InRound(t + 1, 0);
        RoundOf(t + 1, 0, m);
      }
    }
  }

  /** They begin with different bytes. */
  lemma NextDiffers(k: nat, m: nat)
    requires m >= 4 && m % 2 == 0 && k >= 2 * m
    ensures Back(k, m) <= k && BlockAt(k - Back(k, m) + 1, m) % 32 != BlockAt(k + 1, m) % 32
  {
    hide BlockAt;
    var a, b := NextBlocks(k, m);
  }

  // ------------------------------------------------------------------------- the matches

  /** Block k, and where it was before. */
  function PieceAt(k: nat, m: nat): (x: Piece)
    requires m > 0 && k >= 2 * m
  {
    Piece(LONG * k, LONG * (k - Back(k, m)), LONG)
  }

  lemma RoundsFacts(m: nat)
    requires Rounds(m)
    ensures 4 <= m <= 128 && m % 2 == 0
  {
  }

  lemma BlockStart(k: nat, m: nat)
    requires Rounds(m)
    ensures ByteAt(LONG * k, m) == 8 * (BlockAt(k, m) % 32)
  {
    hide BlockAt;
    InBlock(k, 0);
    BlockBound(k, m);
  }

  lemma SameBytes(j: nat, k: nat, m: nat, n: nat)
    requires Rounds(m) && j < n && k < n && BlockAt(j, m) == BlockAt(k, m)
    ensures LONG * (k + 1) <= LONG * n
    ensures Data(n, m)[LONG * j..LONG * j + LONG] == Data(n, m)[LONG * k..LONG * k + LONG]
  {
    hide BlockAt, Digit, Data;
    var d := Data(n, m);
    var a, b := d[LONG * j..LONG * j + LONG], d[LONG * k..LONG * k + LONG];
    forall o | 0 <= o < LONG
      ensures a[o] == b[o]
    {
      InBlock(j, o);
      InBlock(k, o);
    }
  }

  /** They do not go on alike. */
  lemma Ends(n: nat, m: nat, k: nat)
    requires Rounds(m) && 2 * m <= k < n
    ensures Back(k, m) < k && Data(n, m)[LONG * (k + 1)] != Data(n, m)[LONG * (k - Back(k, m) + 1)]
  {
    hide BlockAt, ByteAt, Data, Rounds;
    RoundsFacts(m);
    var j := k - Back(k, m);
    BlockStart(j + 1, m);
    if k + 1 < n {
      NextDiffers(k, m);
      BlockStart(k + 1, m);
    }
  }

  /** In reach only one string begins like block k, or like its second byte. */
  lemma OnlyOne(n: nat, m: nat, k: nat, e: nat, x: nat)
    requires Rounds(m) && 2 * m <= k < n && e <= 1
    requires x < LONG * k + e && LONG * k + e - x <= MaxDist(256 * m) && Alike(Data(n, m), x, LONG * k + e)
    ensures Back(k, m) < k && x == LONG * (k - Back(k, m)) + e
  {
    hide BlockAt, Data, Rounds, Alike;
    RoundsFacts(m);
    AlikeAt(n, m, x, k, e);
    var j := x / LONG;
    assert x == LONG * j + e;
    OnlyBack(j, k, m);
  }

  lemma PieceMatches(n: nat, m: nat, k: nat)
    requires Rounds(m) && 2 * m <= k < n
    ensures var x := PieceAt(k, m); OneMatch(Data(n, m), x.p, x.q, x.n, 256 * m)
  {
    hide BlockAt, Data, Rounds, Alike;
    RoundsFacts(m);
    var d, x := Data(n, m), PieceAt(k, m);
    BackIs(k, m);
    SameBytes(k - Back(k, m), k, m, n);
    Ends(n, m, k);
    forall y | 0 <= y < x.p && x.p - y <= MaxDist(256 * m) && y != x.q
      ensures !Alike(d, y, x.p)
    {
      if Alike(d, y, x.p) {
        OnlyOne(n, m, k, 0, y);
      }
    }
  }

  lemma PieceIsTaken(n: nat, m: nat, k: nat)
    requires Rounds(m) && 2 * m <= k < n
    ensures NoneOver(Data(n, m), LONG * k + 1, LONG, 256 * m)
  {
    hide BlockAt, Data, Rounds, Alike;
    var d, p, w := Data(n, m), LONG * k + 1, 256 * m;
    forall y, l | LONG < l <= MAX_MATCH
      ensures !MatchAt(d, p, y, l, w)
    {
      if MatchAt(d, p, y, l, w) {
        assert d[y..y + l][LONG - 1] == d[p..p + l][LONG - 1];
        MatchAlike(d, p, y, l, w);
        OnlyOne(n, m, k, 1, y);
        Ends(n, m, k);
      }
    }
  }

  // ------------------------------------------------------------------- how long the chains are

  lemma Sixths(x: nat, s: nat)
    requires s < 6
    ensures (x + 6 - s) / 6 == (x + 5 - s) / 6 + if x % 6 == s then 1 else 0
  {
  }

  /** If strings with the hash h are found at every sixth place only, they are few. */
  lemma {:induction false} KeysFew(d: seq<Byte>, ins: set<nat>, bits: nat, h: nat, a: nat, b: nat, s: nat)
    requires s < 6 && a <= b
    requires forall x :: a <= x < b && x + 3 <= |d| && KeyAt(d, x, bits) == h ==> x % 6 == s
    ensures KeysIn(d, ins, bits, h, a, b) <= (b + 5 - s) / 6 - (a + 5 - s) / 6
    decreases b
  {
    hide KeyAt;
    if a == b {
    } else {
      KeysFew(d, ins, bits, h, a, b - 1, s);
      Sixths(b - 1, s);
    }
  }

  lemma PieceIsNear(n: nat, m: nat, k: nat, bits: nat)
    requires Rounds(m) && 2 * m <= k < n && bits >= 8
    ensures var x := PieceAt(k, m); WithinEffort(Data(n, m), x.p, x.q, bits, 4096)
  {
    hide BlockAt, Data, Rounds, KeyAt;
    RoundsFacts(m);
    var d, p, q := Data(n, m), PieceAt(k, m).p, PieceAt(k, m).q;
    forall ins: set<nat>, end: nat | p + 3 <= end <= |d|
      ensures KeysIn(d[..end], ins, bits, KeyAt(d[..end], p, bits), q, p) <= 4096
    {
      forall x | q <= x < p && x + 3 <= end && KeyAt(d[..end], x, bits) == KeyAt(d[..end], p, bits)
        ensures x % 6 == p % 6
      {
        SameClass(n, m, x, p, end, bits);
      }
      KeysFew(d[..end], ins, bits, KeyAt(d[..end], p, bits), q, p, p % 6);
    }
  }

  lemma ClassBefore(x: nat, p: nat)
    requires (x + 2) % 6 == (p + 2) % 6
    ensures x % 6 == p % 6
  {
  }

  lemma SameClass(n: nat, m: nat, x: nat, p: nat, end: nat, bits: nat)
    requires Rounds(m) && x <= p && p + 3 <= LONG * n && p + 3 <= end <= |Data(n, m)| && bits >= 8
    requires KeyAt(Data(n, m)[..end], x, bits) == KeyAt(Data(n, m)[..end], p, bits)
    ensures x % 6 == p % 6
  {
    hide ByteAt, Data, Rounds, Key;
    var d := Data(n, m)[..end];
    KeyEnds(d[x], d[x + 1], d[x + 2], bits);
    KeyEnds(d[p], d[p + 1], d[p + 2], bits);
    ClassBefore(x, p);
  }

  // ----------------------------------------------------------------------------- all of them

  /** From the third round on. */
  function Row(n: nat, m: nat): (r: seq<Piece>)
    requires m >= 4 && 2 * m <= n
    ensures |r| == n - 2 * m && forall i :: 0 <= i < |r| ==> r[i] == PieceAt(2 * m + i, m) && r[i].q < r[i].p
  {
    seq(n - 2 * m, i requires 0 <= i < n - 2 * m => PieceAt(2 * m + i, m))
  }

  lemma RowIsForced(n: nat, m: nat, c: Config)
    requires Rounds(m) && 2 * m <= n && c.niceMatch >= LONG && c.maxChain == 4096 && c.hashBits >= 8
    requires c.strategy != Z_FILTERED
    ensures ForcedRow(Data(n, m), c, 256 * m, Row(n, m))
  {
    hide BlockAt, Data, Rounds, OneMatch, NoneOver, WithinEffort;
    RoundsFacts(m);
    var row := Row(n, m);
    forall i | 0 <= i < |row|
      ensures ForcedPiece(Data(n, m), c, 256 * m, row[i])
    {
      PieceMatches(n, m, 2 * m + i);
      PieceIsTaken(n, m, 2 * m + i);
      PieceIsNear(n, m, 2 * m + i, c.hashBits);
    }
  }

  /** The tokens for it are such as the fixed codes have no room for. */
  lemma RowIsFar(n: nat, m: nat)
    requires Rounds(m) && 2 * m <= n
    ensures AllFar(TokensOf(Row(n, m)))
  {
    hide Row, TokensOf;
    var row := Row(n, m);
    forall i | 0 <= i < |row|
      ensures var t := TokensOf(row)[i]; t.Match? && t.len == LONG && Far(t.dist)
    {
      FarPiece(2 * m + i, m);
    }
  }

  lemma FarPiece(k: nat, m: nat)
    requires Rounds(m) && k >= 2 * m
    ensures var x := PieceAt(k, m); x.q < x.p && x.n == LONG && Far(x.p - x.q)
  {
    assert PieceAt(k, m).p - PieceAt(k, m).q == LONG * Back(k, m);
  }
}
