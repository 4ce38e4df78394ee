/** Where the overlay of pending_buf and d_buf does not work: token buffers that lose a
    token before it is read. */
module OverlayBreaks {
  import opened Bits
  import opened Canonical
  import opened InflateMachine
  import opened TreeTables
  import opened Tokens
  import opened Lz77
  import opened BitWriter
  import opened Overlay
  import opened HeaderDecode
  import opened StreamDecode
  import opened BlockEncoder

  lemma HeldAbove(bits: nat, place: nat)
    requires bits > 8 * place + 16
    ensures Held(0, bits) > place
  {
  }

  // ----------------------------------------------------------- bits with few zeros in a row

  /** One of the eight bits from i on is set. */
  predicate Some(b: seq<bool>, i: nat) {
    exists j :: i <= j < i + 8 && j < |b| && b[j]
  }

  /** No eight bits in a row are zero. */
  ghost predicate Dense(b: seq<bool>) {
    forall i :: 0 <= i && i + 8 <= |b| ==> Some(b, i)
  }

  lemma DenseJoin(a: seq<bool>, b: seq<bool>)
    requires Dense(a) && Dense(b) && (b != [] ==> b[0])
    ensures Dense(a + b)
  {
    forall i | 0 <= i && i + 8 <= |a + b|
      ensures Some(a + b, i)
    {
      if i + 8 <= |a| {
        assert Some(a, i);
        var j :| i <= j < i + 8 && j < |a| && a[j];
        assert (a + b)[j];
      } else if i <= |a| {
        assert (a + b)[|a|];
      } else {
        assert Some(b, i - |a|);
        var j :| i - |a| <= j < i - |a| + 8 && j < |b| && b[j];
        assert (a + b)[|a| + j];
      }
    }
  }

  lemma {:induction false} SomeIsNotZero(b: seq<bool>, j: nat)
    requires j < |b| && b[j]
    ensures FromBits(b) > 0
    decreases j
  {
    if j == 0 {
    } else {
      SomeIsNotZero(b[1..], j - 1);
    }
  }

  lemma DenseByte(b: seq<bool>, q: nat)
    requires Dense(b) && 8 * q + 8 <= |b|
    ensures SentByte(b, q) > 0
  {
    hide FromBits;
    assert Some(b, 8 * q);
    var j :| 8 * q <= j < 8 * q + 8 && j < |b| && b[j];
    SomeIsNotZero(b[8 * q..8 * q + 8], j - 8 * q);
  }

  /** The extra bits of a distance: an odd number after three, with a bit among 5 to 9. */
  lemma DenseNumber(v: nat, n: nat)
    requires 1 <= n <= 13 && v % 4 == 3 && (n >= 10 ==> v / 32 % 32 != 0)
    ensures Dense(ToBits(v, n)) && ToBits(v, n)[0]
  {
    hide ToBits, Dense;
    FrontBits(v, n);
    TwoOdd(v);
    if n >= 10 {
      MiddleBits(v, n);
    }
    DenseByBits(ToBits(v, n));
  }

  lemma TwoOdd(v: nat)
    requires v % 4 == 3
    ensures v % 2 == 1 && v / 2 % 2 == 1
  {
  }

  lemma DenseByBits(b: seq<bool>)
    requires 1 <= |b| <= 13 && b[0] && (|b| >= 2 ==> b[1]) && (|b| >= 10 ==> exists j :: 5 <= j < 10 && b[j])
    ensures Dense(b)
  {
    forall i | 0 <= i && i + 8 <= |b|
      ensures Some(b, i)
    {
      if i == 0 {
        assert b[0];
      } else if i == 1 {
        assert b[1];
      } else {
        var j :| 5 <= j < 10 && b[j];
        assert b[j];
      }
    }
  }

  lemma FrontBits(v: nat, n: nat)
    requires n >= 1
    ensures ToBits(v, n)[0] == (v % 2 == 1) && (n >= 2 ==> ToBits(v, n)[1] == (v / 2 % 2 == 1))
  {
  }

  lemma MiddleBits(v: nat, n: nat)
    requires n >= 10 && v / 32 % 32 != 0
    ensures exists j :: 5 <= j < 10 && ToBits(v, n)[j]
  {
    hide ToBits, Pow2;
    var b, x := ToBits(v, n), v / 32;
    assert b == ToBits(v, 5) + ToBits(x, n - 5) by {
      ToBitsAppend(v, 5, n - 5);
      FiveBits(v);
    }
    Pow2Values();
    var j := SomeBit(x, n - 5, 5);
    assert b[5 + j];
  }

  lemma FiveBits(v: nat)
    ensures Shr(v, 5) == v / 32
  {
    var x := v / 2 / 2 / 2;
    assert Shr(v, 5) == Shr(v / 2, 4) == Shr(v / 2 / 2, 3) == Shr(x, 2) == Shr(x / 2, 1);
  }

  lemma {:induction false} SomeBit(x: nat, n: nat, k: nat) returns (j: nat)
    requires k <= n && x % Pow2(k) != 0
    ensures j < k && ToBits(x, n)[j]
    decreases k
  {
    if x % 2 == 1 {
      j := 0;
    } else {
      HalfNotZero(x, k);
      j := SomeBit(x / 2, n - 1, k - 1);
      j := j + 1;
    }
  }

  lemma HalfNotZero(x: nat, k: nat)
    requires x % Pow2(k) != 0 && x % 2 == 0
    ensures k > 0 && x / 2 % Pow2(k - 1) != 0
  {
    if k > 0 && x / 2 % Pow2(k - 1) == 0 {
      var y, p := x / 2, Pow2(k - 1);
      var q := y / p;
      assert x == 2 * (p * q) == (2 * p) * q;
      ModOfProduct(2 * p, q);
    }
  }

  lemma ModOfProduct(p: nat, q: nat)
    requires p > 0
    ensures (p * q) % p == 0
  {
    assert p * q == q * p + 0;
    DivModUnique(p * q, p, q, 0);
  }

  // ------------------------------------------------------------------------- Z_FIXED

  const LONG: nat := 132

  /** The distances of matches of length LONG whose bits are dense in the fixed codes. */
  predicate Far(dist: nat) {
    dist in {3 * LONG, 5 * LONG, 7 * LONG, 9 * LONG, 15 * LONG, 17 * LONG, 31 * LONG, 33 * LONG, 63 * LONG, 65 * LONG,
             127 * LONG, 129 * LONG}
  }

  lemma LongCode(t: Tables)
    requires LengthsOk(t)
    ensures t.lengthCode[LONG - 3] == 24 && LBits(24) == 5 && LLow(24) == 128
  {
    assert LengthCovered(t, LONG - 3);
    Pow2Values();
  }

  /** The code of the distance, and what its extra bits are. */
  lemma FarCode(t: Tables, dist: nat)
    requires DistsOk(t) && Far(dist)
    ensures var c := DCode(t, dist - 1);
            && 16 <= c < D_CODES && DLow(c) < dist && (dist - 1 - DLow(c)) % 4 == 3
            && (DBits(c) >= 10 ==> (dist - 1 - DLow(c)) / 32 % 32 != 0)
  {
    hide DCode, Pow2, DistsOk;
    Powers();
    DistCodeOf(t,
               if dist < 512 then 17 else if dist < 768 then 18 else if dist < 1024 then 19 else if dist < 1536 then 20
               else if dist < 2048 then 21 else if dist < 3072 then 22 else if dist < 4096 then 23
               else if dist < 6144 then 24 else if dist < 12288 then 26 else 28,
               dist - 1);
  }

  /** The codes of the length and of the distance begin with a bit that is set. */
  lemma LongSymbol()
    ensures 281 < |FixedLens()| && FixedLens()[281] == 8 && SymBits(FixedLens(), 281)[0]
  {
    hide Count, Rank, ToBits;
    var f := FixedLens();
    LongRank();
    FirstCodes();
    assert SymCode(f, 281) == 193;
    assert Bit(193, 7) == 1 by {
      assert Shr(193, 3) == 24 && Shr(24, 4) == 1;
      ShrShr(193, 3, 4);
    }
    FrontBits(Code(f, 281), 8);
  }

  lemma LongRank()
    ensures Rank(FixedLens(), 8, 281) == 145
  {
    var f := FixedLens();
    RankRun(f, 8, 0, 144, 8);
    RankRun(f, 8, 144, 256, 9);
    RankRun(f, 8, 256, 280, 7);
    RankRun(f, 8, 280, 281, 8);
  }

  /** Where no shorter codes are, the first one is zero. */
  lemma {:induction false} FirstIsZero(f: seq<nat>, l: nat)
    requires forall k :: 0 <= k < l ==> Count(f, k) == 0
    ensures FirstCode(f, l) == 0
  {
    hide Count;
    if l <= 1 {
    } else {
      FirstIsZero(f, l - 1);
      assert Count(f, l - 1) == 0;
    }
  }

  lemma FirstCodes()
    ensures FirstCode(FixedLens(), 8) == 48
  {
    hide Count, FixedLens;
    forall l | 0 <= l < 7
      ensures Count(FixedLens(), l) == 0
    {
      FixedCounts(l);
    }
    FirstIsZero(FixedLens(), 7);
    FixedCounts(7);
  }

  lemma DistRank(c: nat)
    requires c < 32
    ensures Rank(FixedDists(), 5, c) == c
  {
    RankRun(FixedDists(), 5, 0, c, 5);
  }

  lemma RevFirst(n: nat, v: nat)
    requires n > 0
    ensures Rev(n, v) % 2 == Bit(v, n - 1)
  {
    hide Bit;
  }

  lemma FifthBit(c: nat)
    requires 16 <= c < 32
    ensures Bit(c, 4) == 1
  {
    var x := c / 2 / 2;
    assert Shr(c, 4) == Shr(c / 2, 3) == Shr(x, 2) == Shr(x / 2, 1);
  }

  lemma FarSymbol(c: nat)
    requires 16 <= c < 32
    ensures c < |FixedDists()| && FixedDists()[c] == 5 && SymBits(FixedDists(), c)[0]
  {
    hide Count, ToBits, Bit, FirstCode, Rev, FixedDists, Rank;
    DistRank(c);
    FirstDist();
    FifthBit(c);
    RevFirst(5, c);
    FrontBits(Code(FixedDists(), c), 5);
  }

  lemma FirstDist()
    ensures FirstCode(FixedDists(), 5) == 0
  {
    hide Count, FixedDists;
    forall l | 0 <= l < 5
      ensures Count(FixedDists(), l) == 0
    {
      FixedDistCounts(l);
    }
    FirstIsZero(FixedDists(), 5);
  }

  /** Such a match takes 25 bits or more, and no eight of them in a row are zero. */
  lemma FarBits(t: Tables, dist: nat)
    requires LengthsOk(t) && DistsOk(t) && Far(dist)
    ensures Encodable(t, FixedLens(), FixedDists(), Match(dist, LONG))
    ensures var b := TokenBits(t, FixedLens(), FixedDists(), Match(dist, LONG)); |b| >= 25 && b[0] && Dense(b)
  {
    hide LengthCovered, DistCovered, SymBits, ToBits, DCode, Pow2, DLow, Dense, FixedLens, FixedDists;
    var tok := Match(dist, LONG);
    LongCode(t);
    FarCode(t, dist);
    LongSymbol();
    FarSymbol(DCode(t, dist - 1));
    var a, b, c, d := SymBits(FixedLens(), 281), LExtra(t, tok), SymBits(FixedDists(), DSym(t, tok)), DExtra(t, tok);
    DenseNumber(dist - 1 - DLow(DSym(t, tok)), DBits(DSym(t, tok)));
    FrontBits(1, 5);
    ShortDense(a);
    ShortDense(b);
    ShortDense(c);
    DenseJoin(a, b);
    DenseJoin(a + b, c);
    DenseJoin(a + b + c, d);
  }

  lemma ShortDense(b: seq<bool>)
    requires 1 <= |b| <= 8 && b[0]
    ensures Dense(b)
  {
    assert |b| == 8 ==> Some(b, 0);
  }

  /** Matches of length LONG at such distances. */
  predicate AllFar(ts: seq<Token>) {
    forall i :: 0 <= i < |ts| ==> ts[i].Match? && ts[i].len == LONG && Far(ts[i].dist)
  }

  lemma {:induction false} FarTokens(t: Tables, ts: seq<Token>)
    requires LengthsOk(t) && DistsOk(t) && AllFar(ts)
    ensures AllEncodable(t, FixedLens(), FixedDists(), ts)
    ensures var b := TokensBits(t, FixedLens(), FixedDists(), ts);
            |b| >= 25 * |ts| && Dense(b) && (b != [] ==> b[0])
    decreases |ts|
  {
    hide LengthsOk, DistsOk, FixedLens, FixedDists, Encodable, TokenBits, Dense, Far;
    EndFixed();
    if ts == [] {
      assert Dense([]) by { NoneDense(); }
    } else {
      FarBits(t, ts[0].dist);
      assert ts[0] == Match(ts[0].dist, LONG);
      FarTokens(t, ts[1..]);
      DenseJoin(TokenBits(t, FixedLens(), FixedDists(), ts[0]), TokensBits(t, FixedLens(), FixedDists(), ts[1..]));
    }
  }

  lemma NoneDense()
    ensures Dense([])
  {
  }

  /** A literal behind them is overwritten: the low byte of its distance is no longer zero. */
  lemma LiteralLost(t: Tables, size: nat, front: seq<bool>, ts: seq<Token>, x: Byte)
    requires LengthsOk(t) && DistsOk(t) && BufSize(size) && AllFar(ts) && |ts| + 2 == size && |front| == 3
    ensures AllEncodable(t, FixedLens(), FixedDists(), ts + [Literal(x)])
            && !Spared(t, size, 0, front, FixedLens(), FixedDists(), ts + [Literal(x)])
  {
    hide LengthsOk, DistsOk, AllFar, FixedLens, FixedDists, TokenBits, TokensBits, AllEncodable, SentByte, Dense;
    FarTokens(t, ts);
    StaticRoom(t, [Literal(x)]);
    assert [Literal(x)][0] == Literal(x);
    OneMore(t, FixedLens(), FixedDists(), ts, Literal(x));
    var us, k, b := ts + [Literal(x)], |ts|, TokensBits(t, FixedLens(), FixedDists(), ts);
    EncodableOk(t, FixedLens(), FixedDists(), us);
    assert us[..k] == ts && us[k] == Literal(x);
    assert SentBefore(t, front, FixedLens(), FixedDists(), us, k) == front + b;
    assert Dense(front) by { TooShort(front); }
    DenseJoin(front, b);
    HeldAbove(|front + b|, DPlace(size, k));
    DenseByte(front + b, DPlace(size, k));
  }

  lemma TooShort(b: seq<bool>)
    requires |b| < 8
    ensures Dense(b)
  {
  }

  lemma FarGrows(h: seq<Byte>, tok: Token)
    requires tok.Match? && tok.len == LONG && 1 <= tok.dist <= |h|
    ensures |Apply(h, tok)| == |h| + LONG
  {
  }

  lemma {:induction false} FarExpands(h: seq<Byte>, ts: seq<Token>)
    requires Within(h, ts) && AllFar(ts)
    ensures |Expand(h, ts)| == |h| + LONG * |ts|
    decreases |ts|
  {
    hide Far, Apply;
    if ts == [] {
    } else {
      FarGrows(h, ts[0]);
      assert AllFar(ts[1..]);
      FarExpands(Apply(h, ts[0]), ts[1..]);
    }
  }

  /** With Z_FIXED such a block cannot be sent. */
  lemma FixedLoses(t: Tables, size: nat, eof: bool, h: seq<Byte>, ts: seq<Token>, x: Byte, data: seq<Byte>, c: Codes,
                   b: Block, there: bool)
    requires LengthsOk(t) && DistsOk(t) && BufSize(size) && AllFar(ts) && |ts| + 2 == size
    requires Within(h, ts + [Literal(x)]) && Expand(h, ts + [Literal(x)]) == h + data
    requires Chosen(t, c, b, ts + [Literal(x)], data, there, true)
    ensures BlockOk(t, h, b) && !Clear(t, size, [], eof, h, b)
  {
    hide LengthsOk, DistsOk, AllFar, FixedLens, FixedDists, TokensBits, AllEncodable, Spared, Within, Expand, TypeBits,
         Clear, CodesOk, BlockBits, TreesBits;
    var us := ts + [Literal(x)];
    TypeLength(eof);
    LiteralLost(t, size, TypeBits(STATIC_TREES, eof), ts, x);
    WithinFront(h, ts, [Literal(x)]);
    FarExpands(h, ts);
    ExpandAppend(h, ts, [Literal(x)]);
    OneToken(Expand(h, ts), Literal(x));
    StaticRoom(t, us);
    StaticIs(t, size, [], eof, h, us);
    assert [] + TypeBits(STATIC_TREES, eof) == TypeBits(STATIC_TREES, eof);
  }

  lemma {:induction false} WithinFront(h: seq<Byte>, a: seq<Token>, b: seq<Token>)
    requires Within(h, a + b)
    ensures Within(h, a)
    decreases |a|
  {
    if a == [] {
    } else {
      assert (a + b)[1..] == a[1..] + b;
      WithinFront(Apply(h, a[0]), a[1..], b);
    }
  }
}
