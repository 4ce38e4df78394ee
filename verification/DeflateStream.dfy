/** deflate.c: compressing a stream, call by call. */
module DeflateStream {
  import opened Bits
  import opened Matcher
  import opened Lz77
  import opened BlockEncoder
  import opened TreeTables
  import opened StreamDecode
  import opened BitWriter
  import opened Deflate
  import opened OverlaySafe
  import opened DeflateBlocks
  import opened LazyParse
  import opened DeflateTrace
  import opened FlushPoints
  import T = Tokens
  import AdlerSpec
  import Adler

  const Z_NO_FLUSH: int := 0
  const Z_PARTIAL_FLUSH: int := 1
  const Z_SYNC_FLUSH: int := 2
  const Z_FULL_FLUSH: int := 3
  const Z_FINISH: int := 4

  datatype BlockState = NeedMore | BlockDone | FinishStarted | FinishDone

  datatype Status = InitState | BusyState | FinishState

  datatype Ret = Z_OK | Z_STREAM_END | Z_STREAM_ERROR | Z_BUF_ERROR

  /** What the four loops keep between two calls. */
  ghost predicate LoopOk(enc: Encoder, z: Lz, g: Past, level: nat, bits: nat)
    reads enc, enc.w, enc.w.buf
  {
    if level == 0 then StoredOk(enc, z, g, bits)
    else if level <= 3 then FastOk(enc, z, g, bits)
    else SlowOk(enc, z, g, bits)
  }

  /** How a loop may end: the last block is out only with Z_FINISH and when all input
      is; a loop that stops for lack of input has read it all. */
  predicate EndsOk(st: BlockState, flush: int, all: bool, read: bool, avail: nat) {
    && (st == FinishDone || st == FinishStarted || st == BlockDone ==> all)
    && (st == FinishDone || st == FinishStarted ==> flush == Z_FINISH)
    && (st == BlockDone ==> flush != Z_FINISH && flush != Z_NO_FLUSH)
    && (st == FinishDone || st == BlockDone ==> avail > 0)
    && (st == FinishStarted ==> avail == 0)
    && (st != NeedMore || avail > 0 ==> read)
    && (st == NeedMore && avail > 0 ==> flush == Z_NO_FLUSH)
  }

  /** Up to where the blocks sent stand for the input, and that all of it is. */
  ghost predicate Covered(z: Lz, g: Past) {
    z.lookahead == 0 && BlockPos(z, g) == Pos(z, g) == |g.data|
  }

  /** A deflate stream; output is all that has been given out.  clean says that every block
      so far was clear when it was sent: no token was overwritten before it was read.  events
      are the searches of deflate_slow and packs the blocks flushed; mark is where the call
      began, and points are the full flushes. */
  class Deflater {
    const enc: Encoder
    const c: Config
    const level: nat
    const wBits: nat
    const memLevel: nat
    const wrap: bool
    var z: Lz
    var adler: nat
    var output: seq<Byte>
    var status: Status
    var trailed: bool
    var lastFlush: int
    ghost var g: Past
    ghost var blocks: seq<Block>
    ghost var prefix: seq<bool>
    ghost var last: bool
    ghost var clean: bool
    ghost var events: seq<Event>
    ghost var packs: seq<Pack>
    ghost var mark: Mark
    ghost var points: seq<Point>

    /** deflateInit2_, deflateReset and lm_init. */
    constructor (level: nat, windowBits: nat, memLevel: nat, strategy: Strategy, wrap: bool)
      requires level <= 9 && 8 <= windowBits <= 15 && 1 <= memLevel <= 9
      ensures Valid() && fresh(enc) && fresh(enc.w) && fresh(enc.w.buf) && output == [] && g.data == [] && clean
      ensures this.wrap == wrap && this.level == level && c == ConfigFor(level, memLevel, strategy)
      ensures this.memLevel == memLevel && enc.litBufsize == 64 * Pow2(memLevel)
      ensures wBits == (if windowBits == 8 then 9 else windowBits) && status == (if wrap then InitState else BusyState)
      ensures events == [] && packs == [] && blocks == [] && z.wSize == Pow2(wBits) && Pos(z, g) == 0 && points == []
    {
      hide Encoder.Valid, Writer.Valid, Valid, Writer.Sent, ConfigFor, Pow2, SizeOk, BitsOk, ConfigOk;
      LitBufsizes(memLevel);
      var w := new Writer(4 * (64 * Pow2(memLevel)));
      var e := new Encoder(w, 64 * Pow2(memLevel));
      enc, c, this.level, this.wrap := e, ConfigFor(level, memLevel, strategy), level, wrap;
      wBits, this.memLevel := if windowBits == 8 then 9 else windowBits, memLevel;
      WindowPower(if windowBits == 8 then 9 else windowBits);
      z, g := FirstLz(Pow2(if windowBits == 8 then 9 else windowBits)), Past([], 0, {}, -1, 0);
      adler, output, trailed, lastFlush := 1, [], false, Z_NO_FLUSH;
      status := if wrap then InitState else BusyState;
      blocks, prefix, last, clean := [], [], false, true;
      events, packs, points := [], [], [];
      new;
      FirstValid();
    }

    lemma FirstValid()
      requires enc.Valid() && enc.tokens == [] && enc.w.count == 0 && enc.w.Sent() == [] && enc.w.biValid == 0 && clean
      requires level <= 9 && BitsOk(c) && (level > 0 ==> ConfigOk(c))
      requires 9 <= wBits <= 15 && SizeOk(Pow2(wBits)) && z == FirstLz(Pow2(wBits)) && g == Past([], 0, {}, -1, 0)
               && adler == 1 && output == [] && !trailed && !last
      requires status == (if wrap then InitState else BusyState) && blocks == [] && prefix == []
      requires events == [] && packs == [] && 1 <= memLevel <= 9 && enc.litBufsize == 64 * Pow2(memLevel)
      requires points == []
      ensures Valid()
    {
      hide Encoder.Valid, LoopOk, AdlerSpec.Feed, OutBits, AfterAll, BlocksOk, MsbBits, ZlibHeader, Writer.Sent, Ended,
           Pow2, PointsOk;
      EmptyBuffer(enc);
      FirstLoop(enc, z, g, level, c.hashBits);
      ValidTables(enc);
      OutNone(enc.t, []);
      CheckNone();
      NoPoints(enc.t, prefix, blocks, last, g.data, BlockPos(z, g), g.floor, clean);
    }

    /** How far back a match can reach. */
    ghost function Farthest(): int {
      if SizeOk(Pow2(wBits)) then Reach(c.strategy, Pow2(wBits)) else 0
    }

    /** The blocks sent stand for the input up to the current block, and the check
        value is that of the input read. */
    ghost predicate Sound()
      reads this`z, this`g, this`adler, this`output, this`blocks, this`prefix, this`last, this`clean, this`points, enc,
            enc.w, enc.w.buf
    {
      && OutOk(enc, output, prefix, blocks, last, clean) && BitsOk(c) && (level > 0 ==> ConfigOk(c)) && level <= 9
      && z.wSize == Pow2(wBits) && SizeOk(z.wSize) && (level == 0 ==> enc.w.biValid <= 5)
      && g.floor <= BlockPos(z, g) <= |g.data| && AfterAll([], blocks) == g.data[..BlockPos(z, g)]
      && PointsOk(enc.t, points, prefix, blocks, last, g.data, BlockPos(z, g), g.floor, clean)
      && (wrap ==> adler == Check(g.data))
    }

    /** What the loop of the level keeps between two rounds. */
    ghost predicate InLoop()
      reads this`z, this`g, enc, enc.w, enc.w.buf
    {
      LoopOk(enc, z, g, level, c.hashBits) && SizeOk(z.wSize)
      && (level > 0 ==> Near(enc, z, Reach(c.strategy, z.wSize)))
    }

    /** The two bytes in front of a zlib stream. */
    ghost function Head(): (r: seq<bool>)
      requires 8 <= wBits <= 15
    {
      if wrap then MsbBits(ZlibHeader(wBits, LevelFlags(level, c.strategy))) else []
    }

    /** All has been sent: the blocks, padding and, in a zlib stream, the check value. */
    ghost predicate Ended()
      reads this`z, this`g, this`output, this`blocks, this`prefix, this`clean, this`points, enc, enc.w, enc.w.buf
    {
      && PointsOk(enc.t, points, prefix, blocks, true, g.data, |g.data|, g.floor, clean)
      && enc.Valid() && BlocksOk(enc.t, [], blocks) && enc.w.biValid == 0 && AfterAll([], blocks) == g.data
      && z.wSize == Pow2(wBits) && SizeOk(z.wSize)
      && (clean ==>
            BytesToBits(output) + enc.w.Sent() == OutBits(enc.t, prefix, blocks, true) + TrailerBits(Check(g.data)))
    }

    /** The history of the blocks alone. */
    ghost predicate Packed()
      reads this`packs, this`clean, this`blocks
    {
      && PacksOk(enc.t, enc.litBufsize, c.strategy == Z_FIXED, Farthest(), packs, clean) && |packs| <= |blocks|
      && (level == 0 ==> packs == [])
    }

    /** The history of the stream: the blocks flushed, and what deflate_slow searched for. */
    ghost predicate Logged()
      reads this`z, this`g, this`events, this`packs, this`clean, this`blocks, enc`tokens
    {
      && Packed()
      && (level > 3 ==> Traced(events, z, g, c, PackTokens(packs) + enc.tokens))
    }

    /** What waited was put out last. */
    ghost predicate Rested()
      reads this`events
    {
      events != [] && events[|events| - 1].Rest?
    }

    /** Every block fills the pending buffer at most once. */
    ghost predicate Spent()
      reads this`output, this`blocks, this`trailed, enc.w`count
    {
      |output| + enc.w.count <= 4 * enc.litBufsize * |blocks| + if trailed then 6 else 2
    }

    /** What deflate_slow has added to the history since the call began; all says that it has
        read all its input. */
    ghost predicate Added(all: bool)
      reads this`z, this`g, this`events, this`packs, this`blocks, this`mark
    {
      Since(mark, z, g, events, packs, |blocks|, enc.litBufsize, c, all)
    }

    ghost predicate Goes(all: bool)
      reads this`z, this`g, this`events, this`packs, this`blocks, this`mark
    {
      Running(mark, z, g, events, packs, |blocks|, enc.litBufsize, c, all)
    }

    /** All blocks since the call began were full. */
    ghost predicate Filled()
      reads this`packs, this`mark
    {
      AllFull(mark, packs, enc.litBufsize)
    }

    /** Until the first block nothing is sent. */
    ghost predicate Quiet()
      reads this`packs, this`mark, enc.w, enc.w.buf
    {
      enc.w.Valid() && Still(mark, packs, enc.w.Sent())
    }

    /** What a whole call has added; full says that it may have forgotten the chains. */
    ghost predicate History(m: Mark, all: bool, full: bool)
      reads this`z, this`g, this`events, this`packs
    {
      level > 3 ==>
        && CallOk(m.events, events, m.packs, packs, m.ins, m.pos, enc.litBufsize, g.data, c, all)
        && m.pos <= Pos(z, g)
        && (!full ==> m.ins <= g.ins && Passed(g, m.pos, Pos(z, g)))
    }

    /** What every call keeps. */
    ghost predicate Valid()
      reads this, enc, enc.w, enc.w.buf
    {
      && 1 <= memLevel <= 9 && enc.litBufsize == 64 * Pow2(memLevel) && Logged() && Spent()
      && level <= 9 && 9 <= wBits <= 15 && (status == FinishState <==> last) && (trailed ==> last && wrap)
      && (if trailed then Ended() else Sound() && InLoop())
      && (last ==> Covered(z, g) && blocks != [] && (level > 3 ==> Rested())) && enc.lastLit + 1 < enc.litBufsize
      && (last || status == InitState ==> enc.tokens == [])
      && if status == InitState then
           wrap && prefix == [] && blocks == [] && g.data == [] && output == [] && enc.w.biValid == 0
           && enc.w.count == 0 && points == []
         else
           prefix == Head()
    }

    /** flush_pending: gives out as much as there is room for. */
    method FlushPending(avail: nat) returns (left: nat)
      requires Sound() && InLoop()
      modifies this`output, enc.w`out, enc.w`count
      ensures Sound() && InLoop() && |output| + enc.w.count == old(|output| + enc.w.count)
      ensures old(output) <= output && |output| - |old(output)| == avail - left && left <= avail
      ensures left == 0 || enc.w.count == 0
    {
      hide MatcherOk, StandsSince, OutBits, AfterAll, BlocksOk, ChainsOk, LinksBounded, WindowOk, Check, MatchAt,
           PointsOk;
      left := Drain(avail);
    }

    method Drain(avail: nat) returns (left: nat)
      requires enc.Valid()
      modifies this`output, enc.w`out, enc.w`count
      ensures enc.Valid() && BytesToBits(output) + enc.w.Sent() == old(BytesToBits(output) + enc.w.Sent())
      ensures |output| + enc.w.count == old(|output| + enc.w.count)
      ensures old(output) <= output && |output| - |old(output)| == avail - left && left <= avail
      ensures left == 0 || enc.w.count == 0
    {
      hide BytesToBits, LengthsOk, DistsOk, T.TreePart, ToBits, Pow2, Overlay.Kept;
      var n := enc.w.count;
      if n > avail {
        n := avail;
      }
      ghost var x, u := BytesToBits(output), ToBits(enc.w.biBuf, enc.w.biValid);
      var bytes := enc.w.Take(n);
      ghost var p, q := BytesToBits(bytes), BytesToBits(enc.w.Pending());
      BytesToBitsAppend(bytes, enc.w.Pending());
      BytesToBitsAppend(output, bytes);
      assert x + (p + q + u) == (x + p) + (q + u);
      output := output + bytes;
      left := avail - n;
    }

    /** fill_window, with the check value that read_buf keeps. */
    method FillOnly(input: seq<Byte>, ghost next0: nat, next: nat) returns (next': nat)
      requires Sound() && !last && InLoop() && next0 <= next <= |input|
      requires z.lookahead < MIN_LOOKAHEAD && (level == 0 ==> z.lookahead <= 1)
      modifies this`z, this`g, this`adler
      ensures Sound() && InLoop() && next <= next' <= |input|
      ensures z.lookahead >= MIN_LOOKAHEAD || next' == |input|
      ensures g.data == old(g.data) + input[next..next'] && z.lookahead == old(z.lookahead) + (next' - next)
      ensures input[next0..next] + input[next..next'] == input[next0..next']
      ensures z.strstart <= 2 * z.wSize - MIN_LOOKAHEAD && (level == 0 ==> z.strstart + z.lookahead <= 2 * z.wSize)
      ensures g.ins == old(g.ins) && SameStrings(old(z), z, g.base - old(g.base))
    {
      hide Encoder.Valid, MatcherOk, StandsSince, OutBits, AfterAll, BlocksOk, Writer.Sent, Check, MatchAt, LoopOk,
           SameStrings, Near, PointsOk;
      LoopMatcher(enc, z, g, level, c.hashBits);
      var r;
      ghost var k;
      r, next', k := FillWindow(z, c, input, next, g);
      MatcherSizes(r, k, c.hashBits);
      FillLoop(enc, z, g, r, k, level, c.hashBits, input[next..next']);
      Prefixes(g.data, input[next..next'], BlockPos(z, g));
      PointsData(enc.t, points, prefix, blocks, last, g.data, input[next..next'], BlockPos(z, g), g.floor, clean);
      SameBlock(z, r, g, k);
      if level > 0 {
        NearFill(enc, z, r, k.base - g.base, Reach(c.strategy, z.wSize));
      }
      if wrap {
        adler := ReadCheck(adler, input[next..next'], g.data);
      }
      z, g := r, k;
    }

    /** The same, with the history. */
    method Fill(input: seq<Byte>, ghost next0: nat, next: nat) returns (next': nat)
      requires Sound() && !last && InLoop() && next0 <= next <= |input| && Logged()
      requires z.lookahead < MIN_LOOKAHEAD && (level == 0 ==> z.lookahead <= 1)
      modifies this`z, this`g, this`adler
      ensures Sound() && InLoop() && next <= next' <= |input| && Logged()
      ensures level > 3 && old(Goes(next == |input|)) ==> Goes(next' == |input|)
      ensures z.lookahead >= MIN_LOOKAHEAD || next' == |input|
      ensures g.data == old(g.data) + input[next..next'] && z.lookahead == old(z.lookahead) + (next' - next)
      ensures input[next0..next] + input[next..next'] == input[next0..next']
      ensures z.strstart <= 2 * z.wSize - MIN_LOOKAHEAD && (level == 0 ==> z.strstart + z.lookahead <= 2 * z.wSize)
    {
      hide Sound, InLoop, SameStrings, Running, PacksOk, Traced, PackTokens;
      Sizes();
      ghost var y, k, tokens := z, g, PackTokens(packs) + enc.tokens;
      next' := FillOnly(input, next0, next);
      if level > 3 {
        TraceFill(events, y, k, c, tokens, z, g, input[next..next']);
        if old(Goes(next == |input|)) {
          FillSince(mark, y, k, z, g, input[next..next'], events, packs, |blocks|, enc.litBufsize, c, tokens,
                    next == |input|, next' == |input|);
        }
      }
    }

    /** The current block can be flushed. */
    ghost predicate CanFlushNow()
      reads this`z, this`g, enc, enc.w
    {
      && Core(z, g, level, c.hashBits) && CanFlush(enc, z, g, level)
      && (level > 0 ==> SizeOk(z.wSize) && T.AllNear(enc.tokens, Reach(c.strategy, z.wSize)))
    }

    /** The current block is sent. */
    method FlushBlockNow(eof: bool)
      requires Sound() && !last && CanFlushNow() && Logged() && Spent()
      modifies this`z, this`blocks, this`last, this`clean, this`packs, enc, enc.w, enc.w.buf
      ensures Sound() && InLoop() && last == eof && blocks != [] && enc.tokens == []
      ensures z == old(z).(blockStart := old(z).strstart) && (level == 0 ==> enc.w.biValid == 0 && enc.lastEobLen == 8)
      ensures Logged() && Spent() && |blocks| == |old(blocks)| + 1
      ensures if level == 0 then packs == old(packs)
              else PackAdded(old(packs), packs, old(enc.tokens), old(enc.w.Sent()))
    {
      hide Sound, InLoop, CanFlushNow, Writer.Sent, Check, PackClear, PackOk, PackTokens, PacksOk, Traced;
      NothingPending();
      SoundSizes();
      ghost var y, was, tokens := z, clean, PackTokens(packs) + enc.tokens;
      ghost var pack := FlushOnly(eof);
      OneBlockMore(enc.litBufsize, |old(blocks)|);
      if level > 0 {
        PacksMore(enc.t, enc.litBufsize, c.strategy == Z_FIXED, Farthest(), packs, was, pack, clean);
        OneMorePack(packs, pack);
        packs := packs + [pack];
        assert PackTokens(packs) + enc.tokens == tokens;
      }
      if level > 3 {
        TraceSame(events, y, g, c, tokens, z, g);
      }
    }

    method FlushOnly(eof: bool) returns (ghost pack: Pack)
      requires Sound() && !last && CanFlushNow()
      modifies this`z, this`blocks, this`last, this`clean, enc, enc.w, enc.w.buf
      ensures Sound() && InLoop() && last == eof && blocks != [] && enc.tokens == []
      ensures z == old(z).(blockStart := old(z).strstart) && (level == 0 ==> enc.w.biValid == 0 && enc.lastEobLen == 8)
      ensures level > 0 ==> PackOk(enc.t, c.strategy == Z_FIXED, Farthest(), pack) && pack.tokens == old(enc.tokens)
                            && pack.sent == old(enc.w.Sent())
      ensures clean == (old(clean) && (level > 0 ==> PackClear(enc.t, enc.litBufsize, pack)))
      ensures |blocks| == |old(blocks)| + 1 && enc.w.count <= 4 * enc.litBufsize
    {
      hide Encoder.Valid, MatcherOk, StandsSince, OutBits, AfterAll, BlocksOk, Writer.Sent, Check, LoopOk, Core,
           CanFlush, PackClear, PackOk, PointsOk, BlockSince;
      var r;
      ghost var bs, ok;
      r, bs, ok, pack := FlushBlockOnly(enc, z, eof, level, c.strategy == Z_FIXED, g, output, prefix, blocks, clean,
                                        Farthest());
      FlushedLoop(enc, z, g, level, c.hashBits);
      CoreShort(z, g, level, c.hashBits);
      ValidTables(enc);
      PointsMore(enc.t, points, prefix, blocks, bs[|blocks|], eof, g, BlockPos(z, g), Pos(z, g), clean, ok);
      z, blocks, last, clean := r, bs, eof, ok;
    }

    lemma NothingPending()
      requires CanFlushNow()
      ensures enc.w.count == 0
    {
      hide Core, WindowOk, StandsSince;
    }

    /** FLUSH_BLOCK_ONLY: the block is sent, and as much as possible given out. */
    method FlushAll(eof: bool, avail: nat, ghost all: bool) returns (left: nat)
      requires Sound() && !last && CanFlushNow() && Logged() && Spent()
      modifies this`z, this`blocks, this`last, this`clean, this`packs, this`output, enc, enc.w, enc.w.buf
      ensures Logged() && Spent()
      ensures level > 3 && old(Added(all) && Filled() && Quiet()) ==> Added(all) && |packs| > |mark.packs|
      ensures level > 3 && old(Goes(all) && Quiet()) && |old(enc.tokens)| + 1 == enc.litBufsize ==>
                Goes(all) && |packs| > |mark.packs|
      ensures Sound() && InLoop() && last == eof && blocks != [] && enc.tokens == [] && enc.lastLit + 1 < enc.litBufsize
      ensures z == old(z).(blockStart := old(z).strstart) && (level == 0 ==> enc.w.biValid == 0 && enc.lastEobLen == 8)
      ensures old(output) <= output && |output| - |old(output)| == avail - left && left <= avail
      ensures left == 0 || Open(enc)
    {
      hide Sound, InLoop, CanFlushNow, Logged, Since, AllFull, Still, PackAdded, Running, Writer.Sent;
      SoundSizes();
      ghost var y, was, n, ts, sent := z, packs, |blocks|, enc.tokens, enc.w.Sent();
      if Goes(all) {
        GoesOn(all);
      }
      FlushBlockNow(eof);
      if level > 3 && old(Added(all) && Filled() && Quiet()) {
        PackSince(mark, y, g, z, events, was, packs, n, enc.litBufsize, c, ts, sent, all);
      }
      left := FlushPending(avail);
      SoundSizes();
    }

    lemma SoundSizes()
      requires Sound()
      ensures enc.litBufsize >= 128 && enc.lastLit == |enc.tokens| < enc.litBufsize && enc.w.Valid()
    {
      hide Encoder.Valid, OutBits, AfterAll, BlocksOk, Writer.Sent, Check, PointsOk;
      ValidTables(enc);
    }

    /** The flush at the end of a loop, when all input has become tokens. */
    method LastFlush(flush: int, avail0: nat) returns (st: BlockState, avail: nat)
      requires Sound() && !last && CanFlushNow() && Logged() && Spent()
      requires z.lookahead == 0 && |g.data| == Pos(z, g) && flush != Z_NO_FLUSH
      modifies this`z, this`blocks, this`last, this`clean, this`packs, this`output, enc, enc.w, enc.w.buf
      ensures Logged() && Spent()
      ensures level > 3 && old(Added(true) && Filled() && Quiet()) ==> Added(true) && |packs| > |mark.packs|
      ensures Sound() && InLoop() && enc.lastLit + 1 < enc.litBufsize && enc.tokens == []
      ensures old(output) <= output && |output| - |old(output)| == avail0 - avail && avail <= avail0
      ensures last == (st == FinishDone || st == FinishStarted) && (last ==> blocks != [])
      ensures EndsOk(st, flush, Covered(z, g), true, avail)
      ensures st == FinishDone || st == BlockDone ==> enc.w.count == 0
      ensures level == 0 && st == BlockDone ==> enc.w.biValid == 0 && enc.lastEobLen == 8
    {
      hide Sound, InLoop, CanFlushNow, Logged, Since, AllFull, Still, Running, Writer.Sent;
      avail := FlushAll(flush == Z_FINISH, avail0, true);
      if avail == 0 {
        st := if flush == Z_FINISH then FinishStarted else NeedMore;
      } else {
        st := if flush == Z_FINISH then FinishDone else BlockDone;
      }
    }

    /** One token of deflate_fast. */
    method FastRound(hashHead: nat) returns (full: bool, head: nat)
      requires Sound() && !last && InLoop() && Open(enc) && 1 <= level <= 3 && Logged()
      requires z.lookahead >= 1 && z.strstart <= 2 * z.wSize - MIN_LOOKAHEAD
      modifies this`z, this`g, enc, enc.w.buf
      ensures Logged() && Sound() && InLoop() && (full || Open(enc)) && g.data == old(g.data)
      ensures z.lookahead < old(z.lookahead) && z.strstart < 2 * z.wSize
    {
      hide Encoder.Valid, MatcherOk, StandsSince, OutBits, AfterAll, BlocksOk, LengthsOk, DistsOk, Writer.Sent, Check,
           Near, PacksOk, PointsOk;
      var y;
      ghost var k;
      ghost var e;
      y, full, head, k, e := FastToken(enc, z, c, hashHead, g);
      z, g := y, k;
    }

    lemma FastFlushNow()
      requires InLoop() && 1 <= level <= 3 && z.strstart < 2 * z.wSize && enc.w.count == 0
      ensures CanFlushNow()
    {
      hide LoopOk, Core, CanFlush;
      FastFlush(enc, z, g, level, c.hashBits);
    }

    lemma Sizes()
      requires InLoop()
      ensures z.strstart + z.lookahead <= 2 * z.wSize && |g.data| == Pos(z, g) + z.lookahead
    {
      hide LoopOk;
      LoopSizes(enc, z, g, level, c.hashBits);
    }

    /** deflate_fast */
    method DeflateFast(input: seq<Byte>, flush: int, avail0: nat) returns (st: BlockState, next: nat, avail: nat)
      requires Sound() && !last && InLoop() && Open(enc) && 1 <= level <= 3 && Logged() && Spent()
      modifies this`z, this`g, this`adler, this`output, this`blocks, this`last, this`clean, this`packs, enc, enc.w,
               enc.w.buf
      ensures Logged() && Spent() && Sound() && InLoop() && enc.lastLit + 1 < enc.litBufsize
              && (st != NeedMore ==> enc.tokens == [])
      ensures next <= |input| && g.data == old(g.data) + input[..next]
      ensures old(output) <= output && |output| - |old(output)| == avail0 - avail && avail <= avail0
      ensures last == (st == FinishDone || st == FinishStarted) && (last ==> blocks != [])
      ensures EndsOk(st, flush, Covered(z, g), next == |input|, avail)
      ensures st == FinishDone || st == BlockDone ==> enc.w.count == 0
    {
      hide Sound, InLoop, CanFlushNow, Logged;
      var hashHead := NIL;
      next, avail := 0, avail0;
      while true
        invariant Sound() && !last && InLoop() && Open(enc) && next <= |input| && Logged() && Spent()
        invariant g.data == old(g.data) + input[..next] && avail <= avail0
        invariant old(output) <= output && |output| - |old(output)| == avail0 - avail
        decreases z.lookahead + (|input| - next)
      {
        if z.lookahead < MIN_LOOKAHEAD {
          next := Fill(input, 0, next);
          if z.lookahead < MIN_LOOKAHEAD && flush == Z_NO_FLUSH {
            return NeedMore, next, avail;
          }
          if z.lookahead == 0 {
            break;
          }
        }
        Sizes();
        var full, head := FastRound(hashHead);
        hashHead := head;
        if full {
          FastFlushNow();
          avail := FlushAll(false, avail, true);
          if avail == 0 {
            return NeedMore, next, avail;
          }
        }
      }
      Sizes();
      FastFlushNow();
      st, avail := LastFlush(flush, avail);
    }

    /** One round of deflate_slow up to the block it may flush; waits says that the block
        has been flushed already. */
    method SlowRound(hashHead: nat, ghost all: bool) returns (full: bool, waits: bool, head: nat)
      requires Sound() && !last && InLoop() && Open(enc) && level > 3 && Logged() && Spent() && Goes(all) && Quiet()
      requires z.lookahead >= 1 && z.strstart <= 2 * z.wSize - MIN_LOOKAHEAD && (z.lookahead >= MIN_LOOKAHEAD || all)
      modifies this`z, this`g, this`blocks, this`clean, this`events, this`packs, enc, enc.w, enc.w.buf
      ensures Sound() && InLoop() && g.data == old(g.data) && (full || Open(enc)) && enc.w.Valid()
      ensures full && waits ==> enc.tokens == []
      ensures full && !waits ==> enc.w.count == 0 && |enc.tokens| + 1 == enc.litBufsize
      ensures z.lookahead < old(z.lookahead) && z.strstart < 2 * z.wSize && (full && !waits ==> !z.matchAvailable)
      ensures Logged() && Spent() && Goes(all) && Quiet() && (full && waits ==> |packs| > |mark.packs|)
      ensures |packs| >= |old(packs)|
    {
      hide Sound, InLoop, Writer.Sent, Traced, PacksOk, PackTokens, LookOk, RoundIs, Running, Still, Passed;
      RoundStart();
      ghost var y, k, was, before := z, g, enc.tokens, PackTokens(packs);
      ghost var ev, pk, n, sent := events, packs, |blocks|, enc.w.Sent();
      ghost var e, r, now;
      full, waits, head, e, r, now := SlowStep(hashHead);
      TraceRound(ev, e, y, k, c, r, g, waits, was, now, before, z);
      RoundSteps(y, k, c, e, r, waits, was, now);
      events := events + [e];
      RoundSince(mark, y, k, z, g, ev, e, pk, packs, n, |blocks|, enc.litBufsize, c, before + was, now, sent,
                 enc.w.Sent(), all);
    }

    /** The round itself: r is where SlowToken leaves it, with the tokens now. */
    method SlowStep(hashHead: nat)
      returns (full: bool, waits: bool, head: nat, ghost e: Event, ghost r: Lz, ghost now: seq<T.Token>)
      requires Sound() && !last && InLoop() && Open(enc) && level > 3
      requires z.lookahead >= 1 && z.strstart <= 2 * z.wSize - MIN_LOOKAHEAD
      requires Packed() && Spent()
      modifies this`z, this`g, this`blocks, this`clean, this`packs, enc, enc.w, enc.w.buf
      ensures Sound() && InLoop() && g == old(g).(ins := g.ins, top := g.top) && (full || Open(enc)) && enc.w.Valid()
      ensures full && waits ==> enc.tokens == []
      ensures full && !waits ==> enc.w.count == 0 && |enc.tokens| + 1 == enc.litBufsize
      ensures z.lookahead < old(z.lookahead) && z.strstart < 2 * z.wSize && (full && !waits ==> !z.matchAvailable)
      ensures Packed() && Spent()
      ensures PackTokens(packs) + enc.tokens == old(PackTokens(packs)) + now
      ensures 1 <= old(Pos(z, g)) <= |old(g.data)| || !old(z.matchAvailable)
      ensures RoundIs(old(z), old(g), c, e, r, waits, old(enc.tokens), now) && e.end == |g.data|
      ensures LookOk(g.data, e.ins, c, old(z.wSize), old(Pos(z, g)), old(z.matchLength), e.len, e.start)
      ensures old(g.ins) <= e.ins && old(g.ins) <= g.ins && Passed(g, old(Pos(z, g)), Pos(z, g))
      ensures z.strstart + z.lookahead == old(z.strstart + z.lookahead) && z.wSize == old(z.wSize)
      ensures z == if waits then r.(strstart := z.strstart, lookahead := z.lookahead, matchAvailable := true,
                                    blockStart := z.blockStart)
                   else r
      ensures waits ==> z.strstart == r.strstart + 1
      ensures if full && waits then
                PackAdded(old(packs), packs, now, old(enc.w.Sent())) && |blocks| == |old(blocks)| + 1
                && |now| + 1 == enc.litBufsize
              else packs == old(packs) && enc.w.Sent() == old(enc.w.Sent()) && |blocks| == |old(blocks)|
    {
      hide Encoder.Valid, MatcherOk, StandsSince, OutBits, AfterAll, BlocksOk, LengthsOk, DistsOk, Writer.Sent, Check,
           MatchAt, SlowMid, Near, T.AllNear, PacksOk, PackTokens, LookOk, RoundIs, Passed, PointsOk;
      var y;
      ghost var k;
      y, full, waits, head, k, e := SlowToken(enc, z, c, hashHead, g);
      if waits {
        SlowMidValid(enc, y, k, c.hashBits, Pos(y, k));
      }
      ValidTables(enc);
      r, now := y, enc.tokens;
      z, g := y, k;
      if waits {
        SlowWait(full);
      }
    }

    /** What a round knows of the state before it. */
    lemma RoundStart()
      requires InLoop() && level > 3 && z.lookahead >= 1
      ensures Pos(z, g) < |g.data| && |g.data| == Pos(z, g) + z.lookahead && 1 <= z.matchLength <= MAX_MATCH
      ensures z.matchLength >= MIN_MATCH ==> z.matchAvailable && 0 <= g.base + z.matchStart < Pos(z, g) - 1
    {
      hide Encoder.Valid, ChainsOk, LinksBounded, HashOk, StandsSince, Near;
    }

    /** The literal is out, and strstart moves on. */
    method SlowWait(full: bool)
      requires Sound() && !last && level > 3 && SlowMid(enc, z, g, c.hashBits, Pos(z, g)) && z.lookahead >= 1
      requires z.strstart <= 2 * z.wSize - MIN_LOOKAHEAD && enc.w.count == 0
               && T.AllNear(enc.tokens, Reach(c.strategy, z.wSize))
      requires z.matchLength >= MIN_MATCH ==> z.strstart - z.matchStart <= Reach(c.strategy, z.wSize)
      requires Packed() && Spent()
      modifies this`z, this`blocks, this`clean, this`packs, enc, enc.w, enc.w.buf
      ensures Sound() && InLoop() && z.lookahead < old(z.lookahead) && z.strstart < 2 * z.wSize && enc.w.Valid()
      ensures if full then enc.tokens == [] else enc.lastLit == old(enc.lastLit) && enc.w.count == 0
      ensures Packed() && Spent() && PackTokens(packs) + enc.tokens == old(PackTokens(packs) + enc.tokens)
      ensures z == old(z).(strstart := old(z.strstart) + 1, lookahead := old(z.lookahead) - 1, matchAvailable := true,
                           blockStart := z.blockStart)
      ensures if full then PackAdded(old(packs), packs, old(enc.tokens), old(enc.w.Sent())) && |blocks|
                == |old(blocks)| + 1
              else packs == old(packs) && enc.w.Sent() == old(enc.w.Sent()) && |blocks| == |old(blocks)|
    {
      hide Encoder.Valid, MatcherOk, StandsSince, OutBits, AfterAll, BlocksOk, Writer.Sent, Check, SlowMid, PacksOk,
           PackTokens,
           PackAdded, PointsOk;
      if full {
        WaitFlush();
      }
      SlowMidValid(enc, z, g, c.hashBits, Pos(z, g));
      ValidTables(enc);
      StepOn(enc, z, g, c.hashBits);
      z := Next(z).(matchAvailable := true);
    }

    /** FLUSH_BLOCK_ONLY in the middle of a round. */
    method WaitFlush()
      requires Sound() && !last && level > 3 && SlowMid(enc, z, g, c.hashBits, Pos(z, g)) && z.strstart < 2 * z.wSize
      requires enc.w.count == 0 && T.AllNear(enc.tokens, Reach(c.strategy, z.wSize)) && Packed() && Spent()
      modifies this`z, this`blocks, this`clean, this`packs, enc, enc.w, enc.w.buf
      ensures Sound() && SlowMid(enc, z, g, c.hashBits, Pos(z, g)) && enc.tokens == []
      ensures Packed() && Spent() && PackTokens(packs) + enc.tokens == old(PackTokens(packs) + enc.tokens)
      ensures z == old(z).(blockStart := z.blockStart)
      ensures PackAdded(old(packs), packs, old(enc.tokens), old(enc.w.Sent())) && |blocks| == |old(blocks)| + 1
    {
      hide Sound, SlowMid, PackOk, PackClear, PacksOk, PackTokens, Writer.Sent, T.AllNear;
      SoundSizes();
      ghost var was, tokens := clean, PackTokens(packs) + enc.tokens;
      ghost var pack := WaitFlushOnly();
      OneBlockMore(enc.litBufsize, |old(blocks)|);
      PacksMore(enc.t, enc.litBufsize, c.strategy == Z_FIXED, Farthest(), packs, was, pack, clean);
      OneMorePack(packs, pack);
      packs := packs + [pack];
      assert PackTokens(packs) + enc.tokens == tokens;
    }

    method WaitFlushOnly() returns (ghost pack: Pack)
      requires Sound() && !last && level > 3 && SlowMid(enc, z, g, c.hashBits, Pos(z, g)) && z.strstart < 2 * z.wSize
      requires enc.w.count == 0 && T.AllNear(enc.tokens, Reach(c.strategy, z.wSize))
      modifies this`z, this`blocks, this`clean, enc, enc.w, enc.w.buf
      ensures Sound() && SlowMid(enc, z, g, c.hashBits, Pos(z, g)) && enc.tokens == []
      ensures z == old(z).(blockStart := z.blockStart) && |blocks| == |old(blocks)| + 1
      ensures PackOk(enc.t, c.strategy == Z_FIXED, Farthest(), pack) && pack.tokens == old(enc.tokens)
              && pack.sent == old(enc.w.Sent())
      ensures clean == (old(clean) && PackClear(enc.t, enc.litBufsize, pack)) && enc.w.count <= 4 * enc.litBufsize
    {
      hide Encoder.Valid, MatcherOk, StandsSince, OutBits, AfterAll, BlocksOk, Writer.Sent, Check, SlowMid, CanFlush,
           MidCore, PackOk, PackClear, T.AllNear, PointsOk, BlockSince;
      MidFlush(enc, z, g, level, c.hashBits);
      var r;
      ghost var bs, ok;
      r, bs, ok, pack := FlushBlockOnly(enc, z, false, level, c.strategy == Z_FIXED, g, output, prefix, blocks, clean,
                                        Farthest());
      MidFlushed(enc, z, g, c.hashBits);
      ValidTables(enc);
      PointsMore(enc.t, points, prefix, blocks, bs[|blocks|], false, g, BlockPos(z, g), Pos(z, g), clean, ok);
      z, blocks, clean := r, bs, ok;
    }

    lemma SlowFlushNow()
      requires InLoop() && level > 3 && z.strstart < 2 * z.wSize && !z.matchAvailable && enc.w.count == 0
      ensures CanFlushNow()
    {
      hide LoopOk, Core, CanFlush;
      SlowFlush(enc, z, g, level, c.hashBits);
    }

    /** deflate_slow */
    method DeflateSlow(input: seq<Byte>, flush: int, avail0: nat) returns (st: BlockState, next: nat, avail: nat)
      requires Sound() && !last && InLoop() && Open(enc) && avail0 > 0 && level > 3 && Logged() && Spent()
      modifies this`z, this`g, this`adler, this`output, this`blocks, this`last, this`clean, this`events, this`packs,
               this`mark, enc, enc.w, enc.w.buf
      ensures Sound() && InLoop() && enc.lastLit + 1 < enc.litBufsize && (st != NeedMore ==> enc.tokens == [])
      ensures next <= |input| && g.data == old(g.data) + input[..next]
      ensures old(output) <= output && |output| - |old(output)| == avail0 - avail && avail <= avail0
      ensures last == (st == FinishDone || st == FinishStarted) && (last ==> blocks != [])
      ensures EndsOk(st, flush, Covered(z, g), next == |input|, avail)
      ensures st == FinishDone || st == BlockDone ==> enc.w.count == 0
      ensures Logged() && Spent() && Added(next == |input|) && mark == old(MarkNow()) && (last ==> Rested())
      ensures avail < avail0 || st != NeedMore ==> |packs| > |mark.packs|
    {
      hide Sound, InLoop, CanFlushNow, Writer.Valid, Writer.Sent, Logged, Since, AllFull, Still, Running, Spent,
           Covered, MarkNow, Quiet, Goes, Rested;
      var hashHead := NIL;
      next, avail := 0, avail0;
      SoundSizes();
      mark := MarkNow();
      StartCall(input == []);
      while true
        invariant Sound() && !last && InLoop() && Open(enc) && next <= |input| && Logged() && Spent()
        invariant g.data == old(g.data) + input[..next] && avail <= avail0
        invariant old(output) <= output && |output| - |old(output)| == avail0 - avail
        invariant Goes(next == |input|) && Quiet() && mark == old(MarkNow())
                  && (avail < avail0 ==> |packs| > |mark.packs|)
        decreases z.lookahead + (|input| - next)
      {
        if z.lookahead < MIN_LOOKAHEAD {
          next := Fill(input, 0, next);
          if z.lookahead < MIN_LOOKAHEAD && flush == Z_NO_FLUSH {
            GoesOn(next == |input|);
            return NeedMore, next, avail;
          }
          if z.lookahead == 0 {
            break;
          }
        }
        Sizes();
        var full, waits, head := SlowRound(hashHead, next == |input|);
        hashHead := head;
        if full {
          avail := GiveRound(waits, avail, next == |input|);
        }
        if (waits || full) && avail == 0 {
          SoundSizes();
          GoesOn(next == |input|);
          return NeedMore, next, avail;
        }
      }
      st, avail := SlowEnd(flush, avail);
    }

    /** deflate_slow behind its loop. */
    method SlowEnd(flush: int, avail0: nat) returns (st: BlockState, avail: nat)
      requires Sound() && !last && InLoop() && Open(enc) && level > 3 && z.lookahead == 0 && flush != Z_NO_FLUSH
      requires Logged() && Spent() && Goes(true) && Quiet() && z.strstart < 2 * z.wSize
      modifies this`z, this`blocks, this`last, this`clean, this`events, this`packs, this`output, enc, enc.w, enc.w.buf
      ensures Sound() && InLoop() && enc.lastLit + 1 < enc.litBufsize && enc.tokens == []
      ensures old(output) <= output && |output| - |old(output)| == avail0 - avail && avail <= avail0
      ensures last == (st == FinishDone || st == FinishStarted) && (last ==> blocks != [])
      ensures EndsOk(st, flush, Covered(z, g), true, avail)
      ensures st == FinishDone || st == BlockDone ==> enc.w.count == 0
      ensures Logged() && Spent() && Added(true) && |packs| > |mark.packs| && Rested()
    {
      hide Sound, InLoop, CanFlushNow, Writer.Sent, Logged, Since, AllFull, Still, Running, EndsOk;
      Sizes();
      LastLiteral();
      SlowFlushNow();
      st, avail := LastFlush(flush, avail0);
    }

    /** After a round that filled the block: it is flushed, if it has not been, and given out. */
    method GiveRound(waits: bool, avail: nat, ghost all: bool) returns (left: nat)
      requires Sound() && !last && InLoop() && level > 3 && Logged() && Spent() && Goes(all) && Quiet()
      requires z.strstart < 2 * z.wSize
      requires if waits then enc.tokens == [] && |packs| > |mark.packs|
               else enc.w.count == 0 && |enc.tokens| + 1 == enc.litBufsize && !z.matchAvailable
      modifies this`z, this`blocks, this`last, this`clean, this`packs, this`output, enc, enc.w, enc.w.buf
      ensures Sound() && !last && InLoop() && Logged() && Spent() && Goes(all) && Quiet() && |packs| > |mark.packs|
      ensures old(output) <= output && |output| - |old(output)| == avail - left && left <= avail
      ensures (left == 0 || Open(enc)) && enc.lastLit + 1 < enc.litBufsize && z.lookahead == old(z.lookahead)
    {
      hide Sound, InLoop, CanFlushNow, Writer.Sent, Logged, Since, AllFull, Still, Running;
      if waits {
        left := FlushPending(avail);
      } else {
        SlowFlushNow();
        left := FlushAll(false, avail, all);
      }
      SoundSizes();
      QuietNow();
    }

    ghost function MarkNow(): Mark
      reads this`z, this`g, this`events, this`packs, this`blocks, enc.w, enc.w.buf
    {
      Mark(events, packs, g.ins, if enc.w.Valid() then enc.w.Sent() else [], Pos(z, g), |blocks| - |packs|)
    }

    lemma StartCall(all: bool)
      requires enc.w.Valid() && mark == MarkNow()
      ensures Goes(all) && Quiet()
      ensures |packs| == |mark.packs|
    {
      hide Writer.Sent, Running;
      BeginCall(mark, z, g, events, packs, |blocks|, enc.litBufsize, c, all);
    }

    lemma QuietNow()
      requires enc.w.Valid() && (mark == MarkNow() || |packs| > |mark.packs|)
      ensures Quiet()
    {
      hide Writer.Sent;
    }

    lemma GoesOn(all: bool)
      requires Goes(all)
      ensures Added(all) && Filled()
    {
      hide CallOk, Passed;
    }

    /** At the end of the input the string that waits becomes a literal. */
    method LastLiteral()
      requires Sound() && !last && InLoop() && Open(enc) && level > 3 && z.lookahead == 0
      requires Logged() && Goes(true) && Quiet()
      modifies this`z, this`events, enc, enc.w.buf
      ensures Sound() && InLoop() && !z.matchAvailable
      ensures z == old(z).(matchAvailable := false, matchLength := z.matchLength)
      ensures Logged() && Added(true) && Filled() && Quiet() && Rested()
    {
      hide Encoder.Valid, MatcherOk, StandsSince, OutBits, AfterAll, BlocksOk, Writer.Sent, Check, PacksOk, PackTokens,
           Traced,
           Since, AllFull, Running, Still, PointsOk;
      MatcherSizes(z, g, c.hashBits);
      ghost var y, tokens := z, PackTokens(packs) + enc.tokens;
      assert z.matchLength < MIN_MATCH by { NoMatchLeft(); }
      TraceRest(events, z, g, c, tokens);
      RestSince(mark, z, g, z.(matchAvailable := false), events, packs, |blocks|, enc.litBufsize, c, true);
      if z.matchAvailable {
        LastByte(z, g);
        ValidTables(enc);
        SinceLiteral(g.data, g.floor, BlockPos(z, g), enc.tokens, Pos(z, g) - 1);
        var full := enc.Tally(0, z.window[z.strstart - 1]);
        z := z.(matchAvailable := false);
        SameTables(y, z, g, c.hashBits);
        assert PackTokens(packs) + enc.tokens == tokens + [T.Literal(g.data[Pos(z, g) - 1])];
      } else {
        assert z == z.(matchAvailable := false);
        assert PackTokens(packs) + enc.tokens == tokens + [];
      }
      events := events + [Rest];
    }

    /** A match that waits would reach beyond the input. */
    lemma NoMatchLeft()
      requires InLoop() && level > 3 && z.lookahead == 0
      ensures z.matchLength < MIN_MATCH
    {
      hide Encoder.Valid, ChainsOk, LinksBounded, HashOk, StandsSince, Near;
    }

    /** Takes all that has been read into the block, or as much as a block may have. */
    method StoredAdvance() returns (full: bool)
      requires Sound() && !last && InLoop() && Open(enc) && level == 0 && z.lookahead >= 1 && Logged()
      modifies this`z
      ensures Sound() && z.lookahead < old(z.lookahead) && Logged()
      ensures StoredFull(enc, z, g, c.hashBits) && (!full ==> StoredMid(enc, z, g, c.hashBits))
    {
      hide Encoder.Valid, OutBits, AfterAll, BlocksOk, Writer.Sent, Check, ChainsOk, LinksBounded, WindowOk, PointsOk;
      LoopSizes(enc, z, g, level, c.hashBits);
      var end, maxStart := z.strstart + z.lookahead, z.blockStart + MaxBlock(enc.litBufsize);
      full := end >= maxStart;
      var to := if full then maxStart else end;
      MoveStored(z, g, c.hashBits, to);
      z := z.(strstart := to, lookahead := end - to);
    }

    lemma StoredFlushNow()
      requires Sound() && StoredFull(enc, z, g, c.hashBits) && level == 0 && enc.w.count == 0
      ensures CanFlushNow()
    {
      hide StoredFull, Core, CanFlush, OutOk, AfterAll, Check;
      StoredFlush(enc, z, g, c.hashBits);
    }

    lemma StoredLoop()
      requires SizeOk(z.wSize) && level == 0
      ensures InLoop() <==> StoredMid(enc, z, g, c.hashBits) && z.strstart - z.blockStart < MaxDist(z.wSize)
      ensures StoredMid(enc, z, g, c.hashBits) ==> StoredFull(enc, z, g, c.hashBits)
    {
      hide LoopOk, StoredFull;
      StoredParts(enc, z, g, c.hashBits);
    }

    lemma WindowSize()
      requires Sound()
      ensures SizeOk(z.wSize)
    {
      hide OutOk, AfterAll, Check;
    }

    /** deflate_stored */
    method DeflateStored(input: seq<Byte>, flush: int, avail0: nat) returns (st: BlockState, next: nat, avail: nat)
      requires Sound() && !last && InLoop() && Open(enc) && level == 0 && Logged() && Spent()
      modifies this`z, this`g, this`adler, this`output, this`blocks, this`last, this`clean, this`packs, enc, enc.w,
               enc.w.buf
      ensures Logged() && Spent() && Sound() && InLoop() && enc.lastLit + 1 < enc.litBufsize
              && (st != NeedMore ==> enc.tokens == [])
      ensures next <= |input| && g.data == old(g.data) + input[..next]
      ensures old(output) <= output && |output| - |old(output)| == avail0 - avail && avail <= avail0
      ensures last == (st == FinishDone || st == FinishStarted) && (last ==> blocks != [])
      ensures EndsOk(st, flush, Covered(z, g), next == |input|, avail)
      ensures st == FinishDone || st == BlockDone ==> enc.w.count == 0
      ensures st == BlockDone ==> enc.w.biValid == 0 && enc.lastEobLen == 8
    {
      hide Sound, InLoop, CanFlushNow, StoredMid, StoredFull, Logged;
      next, avail := 0, avail0;
      while true
        invariant Sound() && !last && InLoop() && Open(enc) && next <= |input| && Logged() && Spent()
        invariant g.data == old(g.data) + input[..next] && avail <= avail0
        invariant old(output) <= output && |output| - |old(output)| == avail0 - avail
        decreases z.lookahead + (|input| - next)
      {
        if z.lookahead <= 1 {
          next := Fill(input, 0, next);
          if z.lookahead == 0 && flush == Z_NO_FLUSH {
            return NeedMore, next, avail;
          }
          if z.lookahead == 0 {
            break;
          }
        }
        var full := StoredAdvance();
        SoundSizes();
        if full {
          StoredFlushNow();
          avail := FlushAll(false, avail, true);
          if avail == 0 {
            return NeedMore, next, avail;
          }
          WindowSize();
          StoredLoop();
        }
        WindowSize();
        StoredLoop();
        if z.strstart - z.blockStart >= MaxDist(z.wSize) {
          StoredFlushNow();
          avail := FlushAll(false, avail, true);
          if avail == 0 {
            return NeedMore, next, avail;
          }
        }
      }
      Sizes();
      WindowSize();
      StoredLoop();
      StoredFlushNow();
      st, avail := LastFlush(flush, avail);
    }

    // ----------------------------------------------------------------------- deflate

    /** The zlib header. */
    method WriteHeader()
      requires Valid() && status == InitState
      modifies this`status, this`prefix, enc.w, enc.w.buf
      ensures Valid() && status == BusyState && enc.w.count == 2
    {
      hide Encoder.Valid, InLoop, MsbBits, ZlibHeader, AfterAll, BlocksOk, OutBits, Check, LengthsOk, DistsOk,
           Writer.Sent, PointsOk;
      hide BytesToBits;
      ValidTables(enc);
      OutNone(enc.t, []);
      OutNone(enc.t, Head());
      PutMsb(ZlibHeader(wBits, LevelFlags(level, c.strategy)));
      NoPoints(enc.t, Head(), blocks, last, g.data, BlockPos(z, g), g.floor, clean);
      prefix, status := Head(), BusyState;
    }

    /** putShortMSB; the bit buffer is empty, and so is the token buffer. */
    method PutMsb(v: nat)
      requires v < 65536 && enc.Valid() && enc.tokens == [] && enc.w.biValid == 0 && enc.w.out == 0 && enc.w.count <= 4
      modifies enc.w`count, enc.w.buf
      ensures enc.Valid() && enc.w.Sent() == old(enc.w.Sent()) + MsbBits(v) && enc.w.count == old(enc.w.count) + 2
      ensures InLoop() == old(InLoop())
    {
      hide BytesToBits, LengthsOk, DistsOk, T.TreePart, ToBits, Pow2, MatcherOk, StandsSince, ChainsOk, LinksBounded,
           WindowOk, MatchAt;
      NoneBits(enc.w.biBuf);
      enc.w.PutByte(v / 256);
      enc.w.PutByte(v % 256);
    }

    /** The full flushes since then: one if it was asked for and done. */
    ghost predicate Flushed(was: seq<Point>, full: bool, done: bool)
      reads this`points, this`g, this`blocks, this`output
    {
      && was <= points && (!full ==> points == was)
      && (full && done ==> |points| > |was| && points[|points| - 1] == Point(|g.data|, |blocks|, |output|))
    }

    /** An empty block is the last that was sent, of which less than a byte is held back. */
    ghost predicate Aligned()
      reads this`blocks, enc.w
    {
      blocks != [] && blocks[|blocks| - 1] == StaticBlock([]) && enc.w.biValid < 8
    }

    /** The call makes no sense. */
    ghost predicate Refused(flush: int)
      reads this`status
    {
      flush > Z_FINISH || flush < 0 || (status == FinishState && flush != Z_FINISH)
    }

    /** There is nothing to do: no input, no output, and no flush beyond the last one. */
    ghost predicate Idle(input: seq<Byte>, flush: int)
      reads this`status, this`lastFlush, enc.w`count
    {
      enc.w.count == 0 && status != InitState && input == [] && flush <= lastFlush && flush != Z_FINISH
    }

    /** A flush for which there was no room may be asked for again. */
    ghost predicate Noted(flush: int, full: bool)
      reads this`lastFlush
    {
      lastFlush == if full then -1 else flush
    }

    /** flush_pending, at any time. */
    method Give(avail: nat) returns (left: nat)
      requires Valid() && status != InitState
      modifies this`output, enc.w`out, enc.w`count
      ensures Valid() && old(output) <= output && |output| - |old(output)| == avail - left && left <= avail
      ensures (left == 0 || enc.w.count == 0) && |output| + enc.w.count == old(|output| + enc.w.count)
    {
      hide Encoder.Valid, InLoop, AfterAll, BlocksOk, OutBits, Check, LengthsOk, DistsOk, Writer.Sent, BytesToBits,
           TrailerBits, MsbBits, ZlibHeader, PointsOk;
      if trailed {
        left := Drain(avail);
      } else {
        left := FlushPending(avail);
      }
    }

    /** The loop that the level asks for. */
    method Run(input: seq<Byte>, flush: int, avail0: nat) returns (st: BlockState, next: nat, avail: nat)
      requires Valid() && status == BusyState && enc.w.count == 0 && avail0 > 0
      modifies this`z, this`g, this`adler, this`output, this`blocks, this`last, this`clean, this`status, this`events,
               this`packs, this`mark, enc, enc.w, enc.w.buf
      ensures level > 3 ==> Added(next == |input|) && mark == old(MarkNow())
      ensures level > 3 && (avail < avail0 || st != NeedMore) ==> |packs| > |mark.packs|
      ensures Valid() && status != InitState && !trailed && next <= |input| && g.data == old(g.data) + input[..next]
      ensures old(output) <= output && |output| - |old(output)| == avail0 - avail && avail <= avail0
      ensures last == (st == FinishDone || st == FinishStarted)
      ensures EndsOk(st, flush, Covered(z, g), next == |input|, avail)
      ensures st == FinishDone || st == BlockDone ==> enc.w.count == 0 && enc.tokens == []
      ensures level == 0 && st == BlockDone ==> enc.w.biValid == 0 && enc.lastEobLen == 8
    {
      hide Sound, InLoop, Covered, MsbBits, ZlibHeader, Ended, Logged, Spent, Since, Writer.Sent, Pow2;
      if level == 0 {
        st, next, avail := DeflateStored(input, flush, avail0);
      } else if level <= 3 {
        st, next, avail := DeflateFast(input, flush, avail0);
      } else {
        st, next, avail := DeflateSlow(input, flush, avail0);
      }
      if st == FinishStarted || st == FinishDone {
        status := FinishState;
      }
    }

    /** What marks the end of a flush. */
    method MarkFlush(flush: int)
      requires Valid() && status == BusyState && Covered(z, g) && enc.w.count == 0 && enc.tokens == []
      requires level == 0 ==> enc.w.biValid == 0 && enc.lastEobLen == 8
      modifies this`z, this`g, this`blocks, this`points, enc.w, enc.w.buf, enc`lastEobLen
      ensures Valid() && Covered(z, g) && if flush == Z_PARTIAL_FLUSH then Aligned() else enc.w.biValid == 0
      ensures g.data == old(g.data) && (flush != Z_FULL_FLUSH ==> g == old(g)) && |blocks| <= |old(blocks)| + 2
      ensures z == old(z).(head := z.head) && Pos(z, g) == old(Pos(z, g))
      ensures points == old(points) + if flush == Z_FULL_FLUSH then [Point(|g.data|, |blocks|, |output| + enc.w.count)]
                                      else []
    {
      hide Valid, Writer.Sent;
      assert points + [] == points;
      if flush == Z_PARTIAL_FLUSH {
        MarkAlign();
      } else {
        MarkStored();
        if flush == Z_FULL_FLUSH {
          Forget();
        }
      }
    }

    /** The mark, and as much of it as there is room for. */
    method EndFlush(flush: int, avail: nat) returns (left: nat)
      requires Valid() && status == BusyState && Covered(z, g) && enc.w.count == 0 && enc.tokens == []
      requires level == 0 ==> enc.w.biValid == 0 && enc.lastEobLen == 8
      modifies this`z, this`g, this`blocks, this`points, this`output, enc.w, enc.w.buf, enc`lastEobLen
      ensures Valid() && Covered(z, g) && if flush == Z_PARTIAL_FLUSH then Aligned() else enc.w.biValid == 0
      ensures g.data == old(g.data) && (flush != Z_FULL_FLUSH ==> g == old(g)) && |blocks| <= |old(blocks)| + 2
      ensures z == old(z).(head := z.head) && Pos(z, g) == old(Pos(z, g))
      ensures old(output) <= output && |output| - |old(output)| == avail - left && left <= avail
      ensures (left == 0 || enc.w.count == 0) && Flushed(old(points), flush == Z_FULL_FLUSH, left > 0)
    {
      hide Valid, Writer.Sent, Covered;
      MarkFlush(flush);
      left := Give(avail);
    }

    /** CLEAR_HASH behind an empty stored block. */
    method Forget()
      requires Valid() && status == BusyState && Covered(z, g) && enc.tokens == [] && enc.w.biValid == 0
      modifies this`z, this`g, this`points
      ensures Valid() && Covered(z, g)
      ensures z == Forgotten(old(z)) && g == Anew(old(g))
      ensures points == old(points) + [Point(|g.data|, |blocks|, |output| + enc.w.count)]
    {
      hide Encoder.Valid, AfterAll, BlocksOk, OutBits, Check, LengthsOk, DistsOk, Writer.Sent, BytesToBits, MsbBits,
           ZlibHeader, LoopOk, T.AllNear, PacksOk, Traced, Pow2, BitsOf, BlockOk, PointsOk;
      ClearedLoop(enc, z, g, level, c.hashBits);
      if level > 3 {
        TraceSame(events, z, g, c, PackTokens(packs) + enc.tokens, Forgotten(z), Anew(g));
      }
      ValidTables(enc);
      OutIsBytes(enc.w, output);
      NewPoint(enc.t, points, prefix, blocks, g.data, g.floor, clean, |output| + enc.w.count);
      points := points + [Point(|g.data|, |blocks|, |output| + enc.w.count)];
      z, g := Forgotten(z), Anew(g);
    }

    /** _tr_align */
    method MarkAlign()
      requires Valid() && status == BusyState && Covered(z, g) && enc.w.count == 0 && enc.tokens == []
      requires level == 0 ==> enc.w.biValid == 0 && enc.lastEobLen == 8
      modifies this`blocks, enc.w, enc.w.buf, enc`lastEobLen
      ensures Valid() && |blocks| <= |old(blocks)| + 2 && Aligned()
    {
      hide Encoder.Valid, AfterAll, BlocksOk, OutBits, Check, LengthsOk, DistsOk, Writer.Sent, BytesToBits, MsbBits,
           ZlibHeader, MatcherOk, StandsSince, ChainsOk, LinksBounded, WindowOk, MatchAt, BitsOf, BlockOk, T.AllNear,
           PacksOk, Traced, Pow2, PointsOk;
      ValidTables(enc);
      ghost var h, was := AfterAll([], blocks), enc.w.Sent();
      ghost var n := enc.Align(h);
      AlignBehind(enc.t, output, prefix, blocks, n, was, enc.w.Sent(), clean);
      AlignPoints(n, h);
      OneBlockMore(enc.litBufsize, |blocks|);
      OneBlockMore(enc.litBufsize, |blocks| + 1);
      ValidTables(enc);
      blocks := blocks + if n == 1 then [StaticBlock([])] else [StaticBlock([]), StaticBlock([])];
    }

    lemma AlignPoints(n: nat, h: seq<Byte>)
      requires LengthsOk(enc.t) && DistsOk(enc.t) && BlockOk(enc.t, h, StaticBlock([])) && (n == 1 || n == 2)
      requires g.floor <= BlockPos(z, g) <= |g.data|
      requires PointsOk(enc.t, points, prefix, blocks, false, g.data, BlockPos(z, g), g.floor, clean)
      ensures var bs := blocks + if n == 1 then [StaticBlock([])] else [StaticBlock([]), StaticBlock([])];
              PointsOk(enc.t, points, prefix, bs, false, g.data, BlockPos(z, g), g.floor, clean)
    {
      hide LengthsOk, DistsOk, BlockOk, PointsOk, BlockSince;
      var e, b := StaticBlock([]), BlockPos(z, g);
      EmptySince(enc.t, g, h, b, e);
      PointsMore(enc.t, points, prefix, blocks, e, false, g, b, b, clean, clean);
      if n == 2 {
        PointsMore(enc.t, points, prefix, blocks + [e], e, false, g, b, b, clean, clean);
        assert blocks + [e] + [e] == blocks + [e, e];
      }
    }

    /** An empty stored block. */
    method MarkStored()
      requires Valid() && status == BusyState && Covered(z, g) && enc.w.count == 0 && enc.tokens == []
      requires level == 0 ==> enc.w.biValid == 0 && enc.lastEobLen == 8
      modifies this`blocks, enc.w, enc.w.buf, enc`lastEobLen
      ensures Valid() && enc.w.biValid == 0 && |blocks| == |old(blocks)| + 1
    {
      hide Encoder.Valid, AfterAll, BlocksOk, OutBits, Check, LengthsOk, DistsOk, Writer.Sent, BytesToBits, MsbBits,
           ZlibHeader, MatcherOk, StandsSince, ChainsOk, LinksBounded, WindowOk, MatchAt, BitsOf, BlockOk, T.AllNear,
           PacksOk, Traced, Pow2, PointsOk;
      ValidTables(enc);
      ghost var h, was := AfterAll([], blocks), enc.w.Sent();
      StoredLength(enc.t, |was|, false, h, []);
      ReadyOf(enc);
      enc.StoredBlockOnly([], false, h);
      NoneOk(enc.t, h);
      EmptyBehind(enc.t, output, prefix, blocks, StoredBlock([]), was, enc.w.Sent(), clean);
      EmptySince(enc.t, g, h, BlockPos(z, g), StoredBlock([]));
      ghost var b := BlockPos(z, g);
      PointsMore(enc.t, points, prefix, blocks, StoredBlock([]), false, g, b, b, clean, clean);
      OneBlockMore(enc.litBufsize, |blocks|);
      ValidTables(enc);
      blocks := blocks + [StoredBlock([])];
    }

    /** The check value behind the last block. */
    method WriteTrailer()
      requires Valid() && last && wrap && !trailed && enc.w.count == 0
      modifies this`trailed, enc.w`count, enc.w.buf
      ensures Valid() && trailed
    {
      hide Encoder.Valid, InLoop, MsbBits, ZlibHeader, AfterAll, BlocksOk, OutBits, Check, LengthsOk, DistsOk,
           Writer.Sent, BytesToBits, Logged, Pow2, Rested, Head, PointsOk;
      assert g.data[..|g.data|] == g.data;
      ValidTables(enc);
      PutMsb(adler / 65536);
      PutMsb(adler % 65536);
      trailed := true;
    }

    /** All of a finished stream has been given out. */
    ghost predicate Complete()
      reads this, enc, enc.w, enc.w.buf
    {
      last && enc.w.count == 0 && (wrap ==> trailed)
    }

    /** The check value, once all blocks have been sent. */
    method EndStream(avail: nat) returns (ret: Ret)
      requires Valid() && last && enc.w.count == 0
      modifies this`trailed, this`output, enc.w`out, enc.w`count, enc.w.buf
      ensures Valid() && old(output) <= output && |output| <= |old(output)| + avail
      ensures if ret == Z_OK then |output| == |old(output)| + avail else ret == Z_STREAM_END && Complete()
    {
      hide Valid, Covered, Writer.Sent, Head;
      Facts();
      if !wrap || trailed {
        return Z_STREAM_END;
      }
      WriteTrailer();
      Facts();
      var left := Give(avail);
      ret := if enc.w.count != 0 then Z_OK else Z_STREAM_END;
    }

    /** The part of deflate() behind the header and the first flush_pending. */
    method Proceed(input: seq<Byte>, flush: int, avail0: nat) returns (ret: Ret, next: nat)
      requires Valid() && status != InitState && avail0 > 0 && 0 <= flush <= Z_FINISH && enc.w.count == 0
      requires status == FinishState ==> flush == Z_FINISH && input == []
      modifies this, enc, enc.w, enc.w.buf
      ensures Valid() && next <= |input| && g.data == old(g.data) + input[..next]
      ensures History(old(MarkNow()), next == |input|, flush == Z_FULL_FLUSH)
              && (ret == Z_STREAM_END ==> flush == Z_FINISH)
      ensures level > 3 && old(status) == BusyState && (|output| > |old(output)| || flush == Z_FINISH) ==>
                |packs| > |old(packs)|
      ensures level > 3 && |packs| > |old(packs)| ==> packs[|old(packs)|].sent == old(enc.w.Sent())
      ensures level > 3 ==> |blocks| - |packs| <= |old(blocks)| - |old(packs)| + 2
      ensures old(output) <= output && |output| <= |old(output)| + avail0 && (ret == Z_OK || ret == Z_STREAM_END)
      ensures ret == Z_OK ==> next == |input| || |output| == |old(output)| + avail0
      ensures ret == Z_STREAM_END ==> next == |input| && Complete()
      ensures ret == Z_OK && flush == Z_FINISH ==> |output| == |old(output)| + avail0
      ensures ret == Z_OK && flush != Z_NO_FLUSH && |output| < |old(output)| + avail0 ==>
                && Covered(z, g) && enc.w.count == 0 && enc.tokens == [] && status == BusyState
                && if flush == Z_PARTIAL_FLUSH then Aligned() else enc.w.biValid == 0
      ensures Flushed(old(points), flush == Z_FULL_FLUSH, ret == Z_OK && |output| < |old(output)| + avail0)
      ensures ret == Z_OK && flush != Z_FINISH ==> Noted(old(lastFlush), |output| == |old(output)| + avail0)
    {
      hide Valid, Covered, Writer.Sent, Since, CallOk, Passed, Head;
      next := 0;
      Facts();
      var avail := avail0;
      Begin(next == |input|);
      if input != [] || z.lookahead != 0 || (flush != Z_NO_FLUSH && status != FinishState) {
        var st;
        st, next, avail := Run(input, flush, avail);
        Facts();
        RunHistory(next == |input|);
        if st == NeedMore || st == FinishStarted {
          if avail == 0 {
            Relabel(-1);
          }
          return Z_OK, next;
        }
        if st == BlockDone {
          avail := EndFlush(flush, avail);
          if avail == 0 {
            Relabel(-1);
            return Z_OK, next;
          }
        }
      }
      if flush != Z_FINISH {
        return Z_OK, next;
      }
      ret := EndStream(avail);
    }

    lemma Begin(all: bool)
      requires Valid()
      ensures enc.w.Valid() && History(MarkNow(), all, false)
    {
      hide Sound, InLoop, Covered, MsbBits, ZlibHeader, Writer.Sent, Pow2, OutBits, AfterAll, BlocksOk, TrailerBits,
           Encoder.Valid, Logged;
      if trailed {
        ValidTables(enc);
      } else {
        SoundSizes();
      }
      BeginCall(MarkNow(), z, g, events, packs, |blocks|, enc.litBufsize, c, all);
    }

    lemma RunHistory(all: bool)
      requires level > 3 ==> Added(all)
      ensures History(mark, all, false)
      ensures level > 3 ==> |blocks| - |packs| == mark.extra
      ensures level > 3 && |packs| > |mark.packs| ==> packs[|mark.packs|].sent == mark.sent
    {
      hide CallOk, Passed;
    }

    /** deflate() behind the header: what waits is given out first. */
    method Attend(input: seq<Byte>, flush: int, oldFlush: int, availOut: nat) returns (ret: Ret, next: nat)
      requires Valid() && status != InitState && availOut > 0 && 0 <= flush <= Z_FINISH
      requires status == FinishState ==> flush == Z_FINISH
      modifies this, enc, enc.w, enc.w.buf
      ensures Valid() && next <= |input| && g.data == old(g.data) + input[..next]
      ensures History(old(MarkNow()), next == |input|, flush == Z_FULL_FLUSH)
      ensures ret == Z_STREAM_END ==> flush == Z_FINISH
      ensures level > 3 && old(status == BusyState && enc.w.count == 0) && (input != [] || flush == Z_FINISH) ==>
                |output| > |old(output)| || flush == Z_FINISH ==> |packs| > |old(packs)|
      ensures level > 3 ==> |blocks| - |packs| <= |old(blocks)| - |old(packs)| + 2
      ensures level > 3 && old(status == BusyState && enc.w.count == 0) && |packs| > |old(packs)| ==>
                packs[|old(packs)|].sent == old(enc.w.Sent())
      ensures old(status) != FinishState && input != [] ==> ret == Z_OK || ret == Z_STREAM_END
      ensures old(output) <= output && |output| <= |old(output)| + availOut
      ensures ret == Z_OK ==> next == |input| || |output| == |old(output)| + availOut
      ensures ret == Z_STREAM_END ==> next == |input| && Complete()
      ensures ret == Z_OK && flush == Z_FINISH ==> |output| == |old(output)| + availOut
      ensures ret == Z_OK && flush != Z_NO_FLUSH && |output| < |old(output)| + availOut ==>
                && Covered(z, g) && enc.w.count == 0 && enc.tokens == [] && status == BusyState
                && if flush == Z_PARTIAL_FLUSH then Aligned() else enc.w.biValid == 0
      ensures Flushed(old(points), flush == Z_FULL_FLUSH, ret == Z_OK && |output| < |old(output)| + availOut)
      ensures ret == Z_OK && flush != Z_FINISH ==> Noted(old(lastFlush), |output| == |old(output)| + availOut)
      ensures ret != Z_STREAM_ERROR
      ensures ret == Z_BUF_ERROR <==> || (old(enc.w.count) == 0 && input == [] && flush <= oldFlush && flush != Z_FINISH)
                                      || (old(status) == FinishState && input != []
                                          && |output| < |old(output)| + availOut)
    {
      hide Valid, Covered, Writer.Sent, CallOk, Passed, Complete, Head;
      next := 0;
      Facts();
      Begin(next == |input|);
      var avail := availOut;
      if enc.w.count != 0 {
        avail := Give(avail);
        if avail == 0 {
          Relabel(-1);
          return Z_OK, next;
        }
      } else if input == [] && flush <= oldFlush && flush != Z_FINISH {
        return Z_BUF_ERROR, next;
      }
      if status == FinishState && input != [] {
        return Z_BUF_ERROR, next;
      }
      ret, next := Proceed(input, flush, avail);
    }

    /** deflate(): reads and compresses as much as it can. */
    method Deflate(input: seq<Byte>, availOut: nat, flush: int) returns (ret: Ret, next: nat)
      requires Valid()
      modifies this, enc, enc.w, enc.w.buf
      ensures History(old(MarkNow()), next == |input|, flush == Z_FULL_FLUSH)
              && (ret == Z_STREAM_END ==> flush == Z_FINISH)
      ensures level > 3 && old(status == BusyState && enc.w.count == 0) && 0 <= flush <= Z_FINISH && availOut > 0 ==>
                input != [] && (|output| > |old(output)| || flush == Z_FINISH) ==> |packs| > |old(packs)|
      ensures level > 3 ==> |blocks| - |packs| <= |old(blocks)| - |old(packs)| + 2
      ensures level > 3 && old(status == BusyState && enc.w.count == 0) && |packs| > |old(packs)| ==>
                packs[|old(packs)|].sent == old(enc.w.Sent())
      ensures old(status) != FinishState && 0 <= flush <= Z_FINISH && availOut > 0 && input != [] ==>
                ret == Z_OK || ret == Z_STREAM_END
      ensures Valid() && next <= |input| && g.data == old(g.data) + input[..next]
      ensures old(output) <= output && |output| <= |old(output)| + availOut
      ensures ret == Z_OK ==> next == |input| || |output| == |old(output)| + availOut
      ensures ret == Z_STREAM_END ==> next == |input| && Complete()
      ensures ret == Z_OK && flush == Z_FINISH ==> |output| == |old(output)| + availOut
      ensures ret == Z_OK && flush != Z_NO_FLUSH && |output| < |old(output)| + availOut ==>
                && Covered(z, g) && enc.w.count == 0 && enc.tokens == [] && status == BusyState
                && if flush == Z_PARTIAL_FLUSH then Aligned() else enc.w.biValid == 0
      ensures Flushed(old(points), flush == Z_FULL_FLUSH, ret == Z_OK && |output| < |old(output)| + availOut)
      ensures ret == Z_OK && flush != Z_FINISH ==> Noted(flush, |output| == |old(output)| + availOut)
      ensures ret == Z_STREAM_ERROR <==> old(Refused(flush))
      ensures ret == Z_BUF_ERROR <==>
              !old(Refused(flush))
              && (availOut == 0 || old(Idle(input, flush))
                  || (old(status) == FinishState && input != [] && |output| < |old(output)| + availOut))
    {
      hide Valid, Covered, Writer.Sent, CallOk, Passed, Complete, Head;
      next := 0;
      Facts();
      Begin(next == |input|);
      if flush > Z_FINISH || flush < 0 || (status == FinishState && flush != Z_FINISH) {
        return Z_STREAM_ERROR, next;
      }
      if availOut == 0 {
        return Z_BUF_ERROR, next;
      }
      var oldFlush := lastFlush;
      Relabel(flush);
      if status == InitState {
        WriteHeader();
      }
      ret, next := Attend(input, flush, oldFlush, availOut);
    }

    lemma Facts()
      requires Valid()
      ensures (status == FinishState <==> last) && (trailed ==> last && wrap) && (last ==> z.lookahead == 0)
    {
      hide Sound, LoopOk, Ended, MsbBits, ZlibHeader;
    }

    method Relabel(flush: int)
      requires Valid()
      modifies this`lastFlush
      ensures Valid() && lastFlush == flush
    {
      hide Sound, InLoop, Ended, Logged, Spent, Rested, Covered, Head, Pow2;
      lastFlush := flush;
    }
  }

  // ------------------------------------------------------------------- the start

  /** The flags for the level in the zlib header. */
  function LevelFlags(level: nat, strategy: Strategy): (r: nat)
    ensures r < 4
  {
    if (strategy != Z_DEFAULT && strategy != Z_FILTERED) || level < 2 then 0
    else if level < 6 then 1
    else if level == 6 then 2
    else 3
  }

  /** configuration_table */
  function ConfigFor(level: nat, memLevel: nat, strategy: Strategy): (c: Config)
    requires level <= 9 && 1 <= memLevel <= 9
    ensures BitsOk(c) && (level > 0 ==> ConfigOk(c)) && c.strategy == strategy
  {
    var bits := memLevel + 7;
    match level
    case 0 => Config(0, 0, 0, 0, bits, strategy)
    case 1 => Config(4, 4, 8, 4, bits, strategy)
    case 2 => Config(4, 5, 16, 8, bits, strategy)
    case 3 => Config(4, 6, 32, 32, bits, strategy)
    case 4 => Config(4, 4, 16, 16, bits, strategy)
    case 5 => Config(8, 16, 32, 32, bits, strategy)
    case 6 => Config(8, 16, 128, 128, bits, strategy)
    case 7 => Config(8, 32, 128, 256, bits, strategy)
    case 8 => Config(32, 128, 258, 1024, bits, strategy)
    case _ => Config(32, 258, 258, 4096, bits, strategy)
  }

  /** lm_init */
  function FirstLz(w: nat): (z: Lz) {
    Lz(w, seq(2 * w, _ => 0), map[], seq(w, _ => NIL), 0, 0, 0, 0, 0, MIN_MATCH - 1, MIN_MATCH - 1, false)
  }

  lemma WindowPower(bits: nat)
    requires 9 <= bits <= 15
    ensures SizeOk(Pow2(bits))
  {
    hide Pow2;
    Pow2Values();
    Pow2Mono(9, bits);
    Pow2Mono(bits, 15);
  }

  lemma FirstMatcher(z: Lz, g: Past, bits: nat)
    requires SizeOk(z.wSize) && z == FirstLz(z.wSize) && g == Past([], 0, {}, -1, 0)
    ensures MatcherOk(z, g, bits)
  {
    hide KeyAt, Slot;
    assert WindowOk(z, g);
    assert ChainsOk(z, g, bits);
    assert LinksBounded(z);
  }

  /** lit_bufsize for each memLevel. */
  lemma LitBufsizes(memLevel: nat)
    requires 1 <= memLevel <= 9
    ensures BufSize(64 * Pow2(memLevel))
  {
    hide Pow2;
    Pow2Values();
    Pow2Mono(1, memLevel);
    Pow2Mono(memLevel, 9);
  }

  lemma EmptyBuffer(enc: Encoder)
    requires enc.Valid() && enc.tokens == []
    ensures enc.lastLit == 0 && enc.litBufsize >= 128
  {
    hide LengthsOk, DistsOk, T.TreePart;
  }

  lemma ReadyOf(enc: Encoder)
    requires enc.Valid()
    ensures enc.Ready()
  {
    hide LengthsOk, DistsOk, T.TreePart;
  }

  lemma CoreShort(z: Lz, g: Past, level: nat, bits: nat)
    requires Core(z, g, level, bits)
    ensures level > 0 ==> z.matchLength < MIN_MATCH
  {
    hide MatcherOk, ChainsOk, LinksBounded, WindowOk;
  }

  /** Sliding moves both ends of a match. */
  lemma NearFill(enc: Encoder, z: Lz, r: Lz, moved: int, reach: int)
    requires Near(enc, z, reach) && SameStrings(z, r, moved)
    ensures Near(enc, r, reach)
  {
    hide T.AllNear;
  }

  lemma FirstLoop(enc: Encoder, z: Lz, g: Past, level: nat, bits: nat)
    requires enc.Valid() && enc.tokens == [] && SizeOk(z.wSize) && z == FirstLz(z.wSize) && g == Past([], 0, {}, -1, 0)
    ensures LoopOk(enc, z, g, level, bits)
  {
    FirstMatcher(z, g, bits);
    hide Encoder.Valid, StandsSince, ChainsOk, WindowOk, LinksBounded, HashOk;
    SinceNone(g.data, 0, 0);
  }

  lemma CheckNone()
    ensures Check([]) == 1
  {
  }

  lemma OutNone(t: Tables, prefix: seq<bool>)
    requires LengthsOk(t) && DistsOk(t)
    ensures BlocksOk(t, [], []) && OutBits(t, prefix, [], false) == prefix && AfterAll([], []) == []
  {
    hide LengthsOk, DistsOk;
  }

  lemma OneBlockMore(size: nat, n: nat)
    ensures 4 * size * (n + 1) == 4 * size * n + 4 * size
  {
  }

  /** How far a round of deflate_slow moves. */
  lemma RoundSteps(z: Lz, g: Past, c: Config, e: Event, r: Lz, waits: bool, was: seq<T.Token>, now: seq<T.Token>)
    requires 1 <= Pos(z, g) <= |g.data| || !z.matchAvailable
    requires RoundIs(z, g, c, e, r, waits, was, now) && 1 <= z.matchLength <= MAX_MATCH
    ensures z.strstart <= r.strstart <= z.strstart + MAX_MATCH - 1 && e.Look?
  {
  }

  // ------------------------------------------------------------------- flush marks

  /** Without bits in the buffer the output is whole bytes. */
  lemma OutIsBytes(w: Writer, output: seq<Byte>)
    requires w.Valid() && w.biValid == 0
    ensures |BytesToBits(output) + w.Sent()| == 8 * (|output| + w.count)
  {
    hide BytesToBits, ToBits;
  }

  lemma NoneOk(t: Tables, h: seq<Byte>)
    requires LengthsOk(t) && DistsOk(t)
    ensures BlockOk(t, h, StoredBlock([]))
  {
  }

  lemma StaticPos(t: Tables, pos: nat, h: seq<Byte>)
    requires LengthsOk(t) && DistsOk(t) && BlockOk(t, h, StaticBlock([]))
    ensures BitsOf(t, pos, false, h, StaticBlock([])) == BitsOf(t, 0, false, h, StaticBlock([]))
  {
    hide LengthsOk, DistsOk, ToBits, TypeBits;
  }

  /** One or two empty blocks with the fixed codes. */
  lemma AlignBehind(t: Tables, gone: seq<Byte>, prefix: seq<bool>, blocks: seq<Block>, n: nat, before: seq<bool>,
                    after: seq<bool>, clean: bool)
    requires LengthsOk(t) && DistsOk(t) && BlocksOk(t, [], blocks) && (n == 1 || n == 2)
    requires BlockOk(t, AfterAll([], blocks), StaticBlock([]))
    requires clean ==> BytesToBits(gone) + before == OutBits(t, prefix, blocks, false)
    requires var e := BitsOf(t, 0, false, AfterAll([], blocks), StaticBlock([]));
             after == before + if n == 1 then e else e + e
    ensures var bs := blocks + if n == 1 then [StaticBlock([])] else [StaticBlock([]), StaticBlock([])];
            && BlocksOk(t, [], bs) && AfterAll([], bs) == AfterAll([], blocks)
            && (clean ==> BytesToBits(gone) + after == OutBits(t, prefix, bs, false))
  {
    hide LengthsOk, DistsOk, BlocksOk, AfterAll, OutBits, BlockOk, BitsOf, BytesToBits, PointsOk;
    var b, h := StaticBlock([]), AfterAll([], blocks);
    var e := BitsOf(t, 0, false, h, b);
    StaticPos(t, |before|, h);
    EmptyBehind(t, gone, prefix, blocks, b, before, before + e, clean);
    if n == 2 {
      StaticPos(t, |before + e|, h);
      assert before + e + e == before + (e + e);
      EmptyBehind(t, gone, prefix, blocks + [b], b, before + e, after, clean);
      assert blocks + [b] + [b] == blocks + [b, b];
    }
  }

  /** All input has been sent: no string waits. */
  lemma NoneWaits(enc: Encoder, z: Lz, g: Past, bits: nat)
    requires SlowOk(enc, z, g, bits) && Covered(z, g)
    ensures !z.matchAvailable && z.matchLength < MIN_MATCH
  {
    hide Encoder.Valid, MatcherOk, Stands;
  }

  lemma ClearedLoop(enc: Encoder, z: Lz, g: Past, level: nat, bits: nat)
    requires LoopOk(enc, z, g, level, bits) && Covered(z, g) && enc.tokens == []
    ensures LoopOk(enc, Forgotten(z), Anew(g), level, bits)
  {
    hide Encoder.Valid, StandsSince, MatchAt, KeyAt, Slot, HashOk;
    var r, k := Forgotten(z), Anew(g);
    if level == 0 {
      assert ChainsOk(r, k, bits);
    } else {
      ClearedOk(z, g, bits);
      SinceNone(k.data, k.floor, Pos(r, k));
      if level > 3 {
        NoneWaits(enc, z, g, bits);
      }
    }
  }

  // ------------------------------------------------------------------- the loops' parts

  /** A block of stored bytes, perhaps as long as it may be. */
  ghost predicate StoredFull(enc: Encoder, z: Lz, g: Past, bits: nat)
    reads enc, enc.w, enc.w.buf
  {
    && enc.Valid() && enc.tokens == [] && Core(z, g, 0, bits)
    && 0 <= z.blockStart <= z.strstart && z.strstart - z.blockStart <= MaxBlock(enc.litBufsize)
    && g.floor <= BlockPos(z, g)
  }

  ghost predicate StoredMid(enc: Encoder, z: Lz, g: Past, bits: nat)
    reads enc, enc.w, enc.w.buf
  {
    StoredFull(enc, z, g, bits) && z.strstart - z.blockStart < MaxBlock(enc.litBufsize)
  }

  lemma StoredFlush(enc: Encoder, z: Lz, g: Past, bits: nat)
    requires StoredFull(enc, z, g, bits) && enc.w.count == 0 && enc.w.biValid <= 5
    ensures Core(z, g, 0, bits) && CanFlush(enc, z, g, 0)
  {
    hide Encoder.Valid, ChainsOk, LinksBounded, WindowOk;
    ValidTables(enc);
  }

  lemma StoredParts(enc: Encoder, z: Lz, g: Past, bits: nat)
    ensures LoopOk(enc, z, g, 0, bits) <==> StoredMid(enc, z, g, bits) && z.strstart - z.blockStart < MaxDist(z.wSize)
  {
    hide Encoder.Valid, ChainsOk, LinksBounded, WindowOk;
  }

  lemma SlowMidValid(enc: Encoder, z: Lz, g: Past, bits: nat, n: int)
    requires SlowMid(enc, z, g, bits, n)
    ensures enc.Valid()
  {
  }

  lemma MidFlush(enc: Encoder, z: Lz, g: Past, level: nat, bits: nat)
    requires SlowMid(enc, z, g, bits, Pos(z, g)) && level > 0 && z.strstart < 2 * z.wSize && enc.w.count == 0
    ensures CanFlush(enc, z, g, level) && MidCore(z, g, bits)
  {
    hide Encoder.Valid, ChainsOk, LinksBounded, WindowOk, T.Within, T.Expand, MatchAt;
    ValidTables(enc);
    TableSize(z, g, bits);
  }

  /** The part of SlowMid that does not depend on what is buffered. */
  ghost predicate MidCore(z: Lz, g: Past, bits: nat) {
    && InTable(z, g, bits) && 1 <= z.matchLength <= MAX_MATCH
    && (z.matchLength >= MIN_MATCH ==>
          MatchAt(g.data, Pos(z, g), g.base + z.matchStart, z.matchLength, z.wSize)
          && g.floor <= g.base + z.matchStart)
  }

  lemma MidFlushed(enc: Encoder, z: Lz, g: Past, bits: nat)
    requires MidCore(z, g, bits) && enc.Valid() && enc.tokens == []
    ensures SlowMid(enc, z.(blockStart := z.strstart), g, bits, Pos(z, g))
  {
    hide Encoder.Valid, ChainsOk, LinksBounded, StandsSince, MatchAt;
    NewStoredStart(z, g, bits, z.strstart);
    SinceNone(g.data, g.floor, Pos(z, g));
  }

  lemma SlowFlush(enc: Encoder, z: Lz, g: Past, level: nat, bits: nat)
    requires LoopOk(enc, z, g, level, bits) && level > 3 && z.strstart < 2 * z.wSize && !z.matchAvailable
             && enc.w.count == 0
    ensures Core(z, g, level, bits) && CanFlush(enc, z, g, level)
  {
    hide Encoder.Valid, MatcherOk, WindowOk, T.Within, T.Expand, MatchAt;
    ValidTables(enc);
    MatcherSizes(z, g, bits);
  }

  lemma LastByte(z: Lz, g: Past)
    requires WindowOk(z, g) && z.strstart >= 1
    ensures |z.window| == 2 * z.wSize && z.strstart <= 2 * z.wSize && Pos(z, g) - 1 < |g.data|
    ensures z.window[z.strstart - 1] == g.data[Pos(z, g) - 1]
  {
  }

  lemma LoopSizes(enc: Encoder, z: Lz, g: Past, level: nat, bits: nat)
    requires LoopOk(enc, z, g, level, bits)
    ensures z.strstart + z.lookahead <= 2 * z.wSize && |g.data| == Pos(z, g) + z.lookahead
  {
    hide Encoder.Valid, ChainsOk, LinksBounded, HashOk, StandsSince;
  }

  lemma FastFlush(enc: Encoder, z: Lz, g: Past, level: nat, bits: nat)
    requires LoopOk(enc, z, g, level, bits) && 1 <= level <= 3 && z.strstart < 2 * z.wSize && enc.w.count == 0
    ensures Core(z, g, level, bits) && CanFlush(enc, z, g, level)
  {
    hide Encoder.Valid, MatcherOk, WindowOk, T.Within, T.Expand;
    ValidTables(enc);
    MatcherSizes(z, g, bits);
  }

  lemma LoopMatcher(enc: Encoder, z: Lz, g: Past, level: nat, bits: nat)
    requires LoopOk(enc, z, g, level, bits) && (level == 0 ==> z.lookahead <= 1)
    ensures MatcherOk(z, g, bits)
  {
    hide MatcherOk, StandsSince, Encoder.Valid;
    if level == 0 {
      StoredMatcher(enc, z, g, bits);
    }
  }

  lemma FillLoop(enc: Encoder, z: Lz, g: Past, r: Lz, k: Past, level: nat, bits: nat, more: seq<Byte>)
    requires LoopOk(enc, z, g, level, bits) && MatcherOk(r, k, bits) && k.data == g.data + more
    requires SameStrings(z, r, k.base - g.base)
    requires (z.strstart >= 1 ==> r.strstart >= 1) && (k.base == g.base || r.strstart >= MaxDist(z.wSize))
    requires k.floor == g.floor
    ensures LoopOk(enc, r, k, level, bits)
  {
    hide StoredOk, FastOk, SlowOk, MatcherOk, SameStrings;
    if level == 0 {
      FillStored(enc, z, g, r, k, bits);
    } else if level <= 3 {
      FillFast(enc, z, g, r, k, bits, more);
    } else {
      FillSlow(enc, z, g, r, k, bits, more);
    }
  }

  /** The check value that read_buf keeps. */
  method ReadCheck(adler: nat, bytes: seq<Byte>, ghost data: seq<Byte>) returns (r: nat)
    requires adler == Check(data)
    ensures r == Check(data + bytes)
  {
    hide Check, AdlerSpec.Feed, AdlerSpec.Packed, Adler.Unpack;
    CheckMore(data, bytes);
    r := Adler.Adler32(adler, bytes);
  }

  lemma SameBlock(z: Lz, r: Lz, g: Past, k: Past)
    requires SameStrings(z, r, k.base - g.base)
    ensures BlockPos(r, k) == BlockPos(z, g) && r.wSize == z.wSize
  {
  }

  lemma CheckMore(data: seq<Byte>, more: seq<Byte>)
    ensures Check(data) < Adler.U32 && AdlerSpec.Reduced(Adler.Unpack(Check(data)))
    ensures AdlerSpec.Packed(AdlerSpec.Feed(Adler.Unpack(Check(data)), more)) == Check(data + more)
  {
    hide AdlerSpec.Feed;
    assert AdlerSpec.Reduced(AdlerSpec.START);
    Adler.PackUnpack(AdlerSpec.Feed(AdlerSpec.START, data));
    AdlerSpec.FeedAppend(AdlerSpec.START, data, more);
  }

  /** What a loop keeps when no token waits, whatever is buffered. */
  ghost predicate Core(z: Lz, g: Past, level: nat, bits: nat) {
    if level == 0 then
      WindowOk(z, g) && ChainsOk(z, g, bits) && LinksBounded(z) && g.top < Pos(z, g)
    else
      && MatcherOk(z, g, bits) && !z.matchAvailable && z.matchLength < MIN_MATCH
      && if level <= 3 then z.prevLength == MIN_MATCH - 1 else 1 <= z.matchLength
  }

  lemma FlushedLoop(enc: Encoder, z: Lz, g: Past, level: nat, bits: nat)
    requires enc.Valid() && enc.tokens == [] && Core(z, g, level, bits)
    ensures LoopOk(enc, z.(blockStart := z.strstart), g, level, bits)
  {
    hide MatcherOk, Encoder.Valid, StandsSince, ChainsOk, LinksBounded;
    EmptyBuffer(enc);
    if level == 0 {
      NewStoredStart(z, g, bits, z.strstart);
    } else {
      MatcherSizes(z, g, bits);
      NewBlockStart(z, g, bits, z.strstart);
      SinceNone(g.data, g.floor, Pos(z, g));
    }
  }
}
