/** The overlay of pending_buf and d_buf under the default strategy, for the smallest of the
    buffers: the fixed codes can be the shorter ones and yet overtake the tokens. */
module DefaultBreaks {
  import opened Bits
  import opened InflateMachine
  import opened TreeTables
  import opened Tokens
  import opened Overlay
  import opened OverlayBreaks
  import opened BlockCost
  import opened HeaderDecode
  import opened StreamDecode
  import opened BlockEncoder
  import opened DefaultCounts
  import opened DefaultBlock
  import opened DefaultTokens
  import opened DefaultCodes
  import opened DefaultHeader

  /** The fixed codes are the shorter ones. */
  lemma FixedIsLess(t: Tables, c: Codes, b: Block, ms: seq<Token>, ls: seq<nat>, ds: seq<nat>, data: seq<Byte>,
                    there: bool)
    requires LengthsOk(t) && DistsOk(t) && Listed(ls, ds) && Coded(t, ms, ls, ds) && |data| >= 400
    requires Chosen(t, c, b, ms + Ends(), data, there, false)
    ensures b == StaticBlock(ms + Ends())
  {
    hide LengthsOk, DistsOk, LCount, DCount, Occ, Weigh, AllEncodable, CodesOk, BlockBits, TreesBits, OwnLens, Made,
         Coded, Ends, TokensBits;
    OwnLensAre(t, c, ms, ls, ds);
    HeaderLeast(c);
    OwnSize(t, c, ms, ls, ds);
    FixedSize(t, ms, ls, ds);
  }

  /** The first bit of the last distance's code is set, 18 bits before the end. */
  lemma LastBits(t: Tables, tok: Token)
    requires LengthsOk(t) && DistsOk(t) && Encodable(t, FixedLens(), FixedDists(), tok)
    requires tok.Match? && DSym(t, tok) >= 28
    ensures var b := TokenBits(t, FixedLens(), FixedDists(), tok); |b| >= 18 && b[|b| - 18]
  {
    hide LengthsOk, DistsOk, SymBits, ToBits, DCode, Pow2, DLow, LLow, FixedLens, FixedDists, LSym;
    var c := DSym(t, tok);
    DSymBound(t, tok);
    WideCodes(c);
    FarSymbol(c);
    var x, d, e := SymBits(FixedLens(), LSym(t, tok)) + LExtra(t, tok), SymBits(FixedDists(), c), DExtra(t, tok);
    assert TokenBits(t, FixedLens(), FixedDists(), tok) == x + d + e;
    assert (x + d + e)[|x|] == d[0];
  }

  lemma WideCodes(c: nat)
    requires 28 <= c < D_CODES
    ensures DBits(c) == 13
  {
  }

  /** So the first literal is overwritten: its distance is no longer zero. */
  lemma FirstLiteralLost(t: Tables, front: seq<bool>, ms: seq<Token>, ls: seq<nat>, ds: seq<nat>)
    requires LengthsOk(t) && DistsOk(t) && Listed(ls, ds) && Coded(t, ms, ls, ds) && ds[95] >= 28 && |front| == 3
    requires AllEncodable(t, FixedLens(), FixedDists(), ms + Ends())
    ensures !Spared(t, 128, 0, front, FixedLens(), FixedDists(), ms + Ends())
  {
    hide LengthsOk, DistsOk, LCount, DCount, Occ, Weigh, AllEncodable, TokensBits, TokenBits, SentByte, LSym, DSym,
         FixedLens, FixedDists;
    FixedSize(t, ms, ls, ds);
    var us, b := ms + Ends(), TokensBits(t, FixedLens(), FixedDists(), ms);
    EncodableOk(t, FixedLens(), FixedDists(), us);
    assert us[..96] == ms && us[96] == Ends()[0];
    LastOf(t, ms);
    var bits := front + b;
    assert SentBefore(t, front, FixedLens(), FixedDists(), us, 96) == bits;
    assert bits[2563] == b[2560];
    SetByte(bits, 320, 2563);
  }

  lemma LastOf(t: Tables, ms: seq<Token>)
    requires LengthsOk(t) && DistsOk(t) && AllEncodable(t, FixedLens(), FixedDists(), ms) && |ms| > 0
    requires ms[|ms| - 1].Match? && TokenOk(ms[|ms| - 1]) && DSym(t, ms[|ms| - 1]) >= 28
    ensures var b := TokensBits(t, FixedLens(), FixedDists(), ms); |b| >= 18 && b[|b| - 18]
  {
    hide LengthsOk, DistsOk, TokensBits, TokenBits, DSym, FixedLens, FixedDists;
    var k := |ms| - 1;
    assert ms == ms[..k] + [ms[k]];
    assert Encodable(t, FixedLens(), FixedDists(), ms[k]);
    assert AllEncodable(t, FixedLens(), FixedDists(), ms[..k]);
    OneMore(t, FixedLens(), FixedDists(), ms[..k], ms[k]);
    LastBits(t, ms[k]);
  }

  lemma SetByte(bits: seq<bool>, q: nat, j: nat)
    requires 8 * q <= j < 8 * q + 8 <= |bits| && bits[j]
    ensures SentByte(bits, q) > 0
  {
    SomeIsNotZero(bits[8 * q..8 * q + 8], j - 8 * q);
  }

  /** With memLevel 1 such a block, for which _tr_flush_block takes the fixed codes as the
      shorter ones, cannot be sent. */
  lemma DefaultLoses(t: Tables, eof: bool, h: seq<Byte>, ms: seq<Token>, ls: seq<nat>, ds: seq<nat>, data: seq<Byte>,
                     c: Codes, b: Block, there: bool)
    requires LengthsOk(t) && DistsOk(t) && Listed(ls, ds) && Coded(t, ms, ls, ds) && ds[95] >= 28 && |data| >= 400
    requires Within(h, ms + Ends()) && Chosen(t, c, b, ms + Ends(), data, there, false)
    ensures BlockOk(t, h, b) && !Clear(t, 128, [], eof, h, b)
  {
    hide LengthsOk, DistsOk, FixedLens, FixedDists, TokensBits, AllEncodable, Spared, Within, TypeBits, Clear, CodesOk,
         BlockBits, TreesBits, Coded, LCount, DCount, Occ, Weigh, Ends;
    TypeLength(eof);
    FixedIsLess(t, c, b, ms, ls, ds, data, there);
    FirstLiteralLost(t, TypeBits(STATIC_TREES, eof), ms, ls, ds);
    StaticIs(t, 128, [], eof, h, ms + Ends());
    assert [] + TypeBits(STATIC_TREES, eof) == TypeBits(STATIC_TREES, eof);
  }
}
