/** deflate.c, trees.c: with Z_FIXED, and a window of more than 512 bytes, there is an input
    whose tokens do not survive until they are sent. */
module FixedRun {
  import opened Bits
  import opened Matcher
  import opened TreeTables
  import opened StreamDecode
  import opened BlockEncoder
  import opened Deflate
  import opened DeflateBlocks
  import opened DeflateTrace
  import opened DeflateStream
  import opened DeflateRuns
  import opened LazyParse
  import opened ForcedParse
  import opened OverlayBreaks
  import opened FixedInput
  import T = Tokens

  /** A block that holds such tokens is not clear. */
  lemma PackLost(t: Tables, size: nat, reach: int, p: Pack, ts: seq<T.Token>, x: Byte)
    requires BufSize(size) && PackOk(t, true, reach, p) && p.sent == [] && p.tokens == ts + [T.Literal(x)]
    requires AllFar(ts) && |ts| + 2 == size
    ensures !PackClear(t, size, p)
  {
    hide LengthsOk, DistsOk, BlockOk, Clear, Chosen, T.Within, T.Expand, AllFar;
    FixedLoses(t, size, p.eof, p.h, ts, x, p.data, p.codes, p.block, p.there);
  }

  /** How many blocks a round has: two rounds more than fill the window. */
  function RoundFor(windowBits: nat): (m: nat)
    requires 10 <= windowBits <= 15
    ensures Rounds(m) && Pow2(windowBits) == 256 * m
  {
    WindowRounds(windowBits);
    Pow2(windowBits) / 256
  }

  lemma WindowRounds(windowBits: nat)
    requires 10 <= windowBits <= 15
    ensures Rounds(Pow2(windowBits) / 256) && Pow2(windowBits) == 256 * (Pow2(windowBits) / 256)
  {
    hide Pow2;
    Pow2Values();
  }

  /** The input: two rounds, and as many blocks as the token buffer has room for but one. */
  function Input(windowBits: nat, memLevel: nat): (r: seq<Byte>)
    requires 10 <= windowBits <= 15 && 1 <= memLevel <= 9
  {
    LitBufsizes(memLevel);
    Data(2 * RoundFor(windowBits) + 64 * Pow2(memLevel) - 2, RoundFor(windowBits))
  }

  /** The pieces are in the chains when they are looked for. */
  lemma RowIsKnown(n: nat, m: nat, ins: set<nat>)
    requires Rounds(m) && 2 * m <= n && Holds(ins, LONG * (2 * m))
    ensures m >= 4 && forall i :: 0 <= i < |Row(n, m)| ==> Known(ins, LONG * (2 * m), Row(n, m)[i])
  {
    RoundsFacts(m);
    hide Rounds, Back, Row;
    forall i | 0 <= i < |Row(n, m)|
      ensures Known(ins, LONG * (2 * m), Row(n, m)[i])
    {
      KnownPiece(2 * m + i, m, ins);
    }
  }

  lemma KnownPiece(k: nat, m: nat, ins: set<nat>)
    requires m >= 4 && k >= 2 * m && Holds(ins, LONG * (2 * m))
    ensures Known(ins, LONG * (2 * m), PieceAt(k, m))
  {
    var j := k - Back(k, m);
    if j < 2 * m {
      assert LONG * j + 3 <= LONG * (2 * m);
      assert LONG * j in ins;
    }
  }

  lemma BestConfig(memLevel: nat)
    requires 1 <= memLevel <= 9
    ensures var c := ConfigFor(9, memLevel, Z_FIXED);
            && SlowConfig(c) && c.niceMatch >= LONG && c.maxChain == 4096 && c.hashBits >= 8 && c.strategy == Z_FIXED
  {
  }

  /** The first block of the second call is lost. */
  lemma RunLoses(d: Deflater, size: nat, m: nat, n: nat, k: nat, i: nat, ins: set<nat>)
    requires d.Valid() && d.level > 3 && d.c == ConfigFor(9, d.memLevel, Z_FIXED) && 1 <= d.memLevel <= 9
    requires Rounds(m) && d.enc.litBufsize == size && BufSize(size) && n == 2 * m + size - 2
    requires d.g.data == Data(n, m)
    requires TwoCallLog(d.events, d.packs, d.g.data, d.c, size, 256 * m, LONG * (2 * m), k, i, ins)
    ensures !d.clean
  {
    hide Deflater.Valid, ConfigFor, PackOk, PackClear, AllFar, Rounds, Data, ForcedRow, Row, TokensOf, LiteralsOf,
         Traced,
         RunOf, AllOk, GoodEvents, PackTokens;
    RoundsFacts(m);
    BestConfig(d.memLevel);
    RowIsForced(n, m, d.c);
    RowIsKnown(n, m, ins);
    RowIsFar(n, m);
    StreamFacts(d);
    var data, row := Data(n, m), Row(n, m);
    assert row[0].p == LONG * (2 * m);
    assert row[|row| - 1] == PieceAt(n - 1, m);
    ForcedBlock(d.events, d.packs, data, d.c, size, 256 * m, LONG * (2 * m), k, i, ins, row, LONG * n);
    assert data[LONG * n..] == [255];
    assert LiteralsOf([255]) == [T.Literal(255)];
    PackLost(d.enc.t, size, d.Farthest(), d.packs[i], TokensOf(row), 255);
    OneLost(d.enc.t, size, true, d.Farthest(), d.packs, d.clean, i);
  }

  /** Whatever the window, if it has more than 512 bytes, and the memory: a stream at level 9
      with Z_FIXED that is given this input, in two calls with room enough, loses a token. */
  method FixedLoss(windowBits: nat, memLevel: nat, wrap: bool) returns (d: Deflater)
    requires 10 <= windowBits <= 15 && 1 <= memLevel <= 9
    ensures d.Valid() && d.Complete() && d.g.data == Input(windowBits, memLevel) && !d.clean
    ensures d.level == 9 && d.c == ConfigFor(9, memLevel, Z_FIXED) && d.wBits == windowBits && d.memLevel == memLevel
    ensures d.wrap == wrap
  {
    hide Deflater.Valid, Deflater.Complete, ConfigFor, Rounds, Data, TwoCallLog, Pow2, SlowOk, Traced, PacksOk,
         RoundFor;
    LitBufsizes(memLevel);
    d := new Deflater(9, windowBits, memLevel, Z_FIXED, wrap);
    var m := RoundFor(windowBits);
    RoundsFacts(m);
    var n := 2 * m + d.enc.litBufsize - 2;
    var data, a := Input(windowBits, memLevel), LONG * (2 * m);
    ghost var k, i, ins := TwoCalls(d, data[..a], data[a..]);
    assert data[..a] + data[a..] == data;
    StreamFacts(d);
    RunLoses(d, d.enc.litBufsize, m, n, k, i, ins);
  }
}
