/** deflate.c, trees.c: with the default strategy, the smallest memory and a window of 32K there
    is an input whose tokens do not survive until they are sent. */
module DefaultRun {
  import opened Bits
  import opened Matcher
  import opened TreeTables
  import opened StreamDecode
  import opened BlockEncoder
  import opened Deflate
  import opened DeflateBlocks
  import opened DeflateTrace
  import opened DeflateStream
  import opened DeflateRuns
  import opened LazyParse
  import opened ForcedParse
  import opened DefaultTokens
  import opened DefaultBreaks
  import opened DefaultInput
  import T = Tokens

  // ----------------------------------------------------------------- how much they stand for

  lemma {:induction false} Grows(h: seq<Byte>, ts: seq<T.Token>)
    requires T.Within(h, ts)
    ensures |T.Expand(h, ts)| >= |h|
    decreases |ts|
  {
    if ts == [] {
    } else {
      Grows(T.Apply(h, ts[0]), ts[1..]);
    }
  }

  lemma {:induction false} TwoLong(h: seq<Byte>, ts: seq<T.Token>, i: nat)
    requires T.Within(h, ts) && i + 1 < |ts| && ts[i].Match? && ts[i].len >= 200 && ts[i + 1].Match?
             && ts[i + 1].len >= 200
    ensures |T.Expand(h, ts)| >= |h| + 400
    decreases i
  {
    var g := T.Apply(h, ts[0]);
    if i == 0 {
      assert ts[1..][0] == ts[1];
      Grows(T.Apply(g, ts[1]), ts[1..][1..]);
    } else {
      TwoLong(g, ts[1..], i - 1);
    }
  }

  lemma LongOnes(h: seq<Byte>, data: seq<Byte>)
    requires var ts := TokensOf(Row()) + Ends(); T.Within(h, ts) && T.Expand(h, ts) == h + data
    ensures |data| >= 400
  {
    hide T.Within, T.Expand, Start, Ago, Ends;
    TwoLong(h, TokensOf(Row()) + Ends(), 94);
  }

  // -------------------------------------------------------------------------------- the run

  lemma PackLost(t: Tables, reach: int, p: Pack)
    requires PackOk(t, false, reach, p) && p.sent == [] && p.tokens == TokensOf(Row()) + Ends()
    ensures !PackClear(t, 128, p)
  {
    hide LengthsOk, DistsOk, BlockOk, Clear, Chosen, T.Within, T.Expand, Listed, Coded, TokensOf, Row, Ends;
    LongOnes(p.h, p.data);
    var ls, ds := RowIsCoded(t);
    DefaultLoses(t, p.eof, p.h, TokensOf(Row()), ls, ds, p.data, p.codes, p.block, p.there);
  }

  lemma BestConfig()
    ensures var c := ConfigFor(9, 1, Z_DEFAULT);
            && SlowConfig(c) && c.niceMatch >= 227 && c.maxChain == 4096 && c.hashBits >= 8 && c.strategy == Z_DEFAULT
  {
  }

  /** The first block of the second call is lost. */
  lemma RunLoses(d: Deflater, k: nat, i: nat, ins: set<nat>)
    requires d.Valid() && d.level > 3 && d.c == ConfigFor(9, 1, Z_DEFAULT) && d.enc.litBufsize == 128
    requires d.g.data == Data() && TwoCallLog(d.events, d.packs, d.g.data, d.c, 128, WINDOW, HIST, k, i, ins)
    ensures !d.clean
  {
    hide Deflater.Valid, ConfigFor, PackOk, PackClear, Data, ForcedRow, Row, TokensOf, LiteralsOf, Ends, Traced, RunOf,
         AllOk, GoodEvents, PackTokens, NoneAlike, Start, Len, Ago;
    BestConfig();
    RowIsForced(d.c);
    RowIsKnown(ins);
    NothingAlike();
    LitsAre();
    StreamFacts(d);
    RowEnds();
    ForcedBlock(d.events, d.packs, Data(), d.c, 128, WINDOW, HIST, k, i, ins, Row(), END);
    PackLost(d.enc.t, d.Farthest(), d.packs[i]);
    OneLost(d.enc.t, 128, false, d.Farthest(), d.packs, d.clean, i);
  }

  lemma RowEnds()
    ensures Row()[0].p == HIST && Row()[95].p + Row()[95].n == END
  {
  }

  lemma Sizes()
    ensures 64 * Pow2(1) == 128 && Pow2(15) == WINDOW
  {
    hide Pow2;
    Pow2Values();
  }

  /** A stream at level 9 with the default strategy, a window of 32K and memLevel 1 that is
      given this input, in two calls with room enough, loses a token. */
  method DefaultLoss(wrap: bool) returns (d: Deflater)
    ensures d.Valid() && d.Complete() && d.g.data == Data() && !d.clean
    ensures d.level == 9 && d.c == ConfigFor(9, 1, Z_DEFAULT) && d.wBits == 15 && d.memLevel == 1 && d.wrap == wrap
  {
    hide Deflater.Valid, Deflater.Complete, ConfigFor, Data, TwoCallLog, Pow2, SlowOk, Traced, PacksOk;
    Sizes();
    d := new Deflater(9, 15, 1, Z_DEFAULT, wrap);
    var data := Data();
    ghost var k, i, ins := TwoCalls(d, data[..HIST], data[HIST..]);
    assert data[..HIST] + data[HIST..] == data;
    StreamFacts(d);
    RunLoses(d, k, i, ins);
  }
}
