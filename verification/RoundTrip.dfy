/** The two halves together: what the compressor gives out, in whatever calls, the
    decompressor turns back into the input, in whatever calls. */
module RoundTrip {
  import opened Bits
  import opened BlockDecode
  import opened BitWriter
  import opened BlockEncoder
  import opened TreeTables
  import opened StreamDecode
  import opened InflateMachine
  import opened InflateTable
  import opened InflateStream
  import opened Matcher
  import opened OverlaySafe
  import opened Deflate
  import opened DeflateBlocks
  import opened DeflateTrace
  import opened DeflateStream
  import opened FlushPoints
  import T = Tokens

  lemma NothingSent(w: Writer)
    requires w.Valid() && w.count == 0 && w.biValid == 0
    ensures w.Sent() == []
  {
  }

  /** The parameters of deflateInit2 with which no token is ever lost: no matches, runs only and
      memory enough, or the fixed codes only and the smallest window. */
  predicate AlwaysClean(level: nat, windowBits: nat, memLevel: nat, strategy: Strategy) {
    level == 0 || strategy == Z_HUFFMAN_ONLY || (strategy == Z_RLE && memLevel >= 4)
    || (strategy == Z_FIXED && windowBits <= 9)
  }

  predicate ByParameters(d: Deflater) {
    AlwaysClean(d.level, d.wBits, d.memLevel, d.c.strategy)
  }

  /** A block of such a stream is clear, whatever its tokens are. */
  lemma PackIsClear(t: Tables, size: nat, fixed: bool, reach: int, p: Pack)
    requires PackOk(t, fixed, reach, p) && |p.tokens| < size && BufSize(size) && Harmless(size, reach, fixed)
    ensures PackClear(t, size, p)
  {
    hide LengthsOk, DistsOk, BlockOk, Clear, Chosen, T.Within, T.Expand, T.AllNear, Harmless;
    HarmlessClear(t, size, p.sent, p.eof, p.h, p.codes, p.block, p.tokens, p.data, p.there, fixed, reach);
  }

  lemma ParametersAre(d: Deflater)
    requires 1 <= d.memLevel <= 9 && 9 <= d.wBits <= 15 && ByParameters(d) && d.level > 0
    ensures BufSize(64 * Pow2(d.memLevel)) && Harmless(64 * Pow2(d.memLevel), d.Farthest(), d.c.strategy == Z_FIXED)
  {
    hide Pow2;
    LitBufsizes(d.memLevel);
    Pow2Values();
    WindowPower(d.wBits);
    if d.memLevel >= 4 {
      Pow2Mono(4, d.memLevel);
    }
  }

  /** With such parameters every stream is clean, at every moment of every run. */
  lemma CleanAlways(d: Deflater)
    requires d.Valid() && ByParameters(d)
    ensures d.clean
  {
    hide Encoder.Valid, Deflater.Sound, Deflater.InLoop, Deflater.Ended, Deflater.Head, Traced, PackOk, PackClear,
         Harmless, Pow2, ByParameters, Covered;
    if d.level > 0 {
      ParametersAre(d);
      forall i | 0 <= i < |d.packs|
        ensures PackClear(d.enc.t, d.enc.litBufsize, d.packs[i])
      {
        PackIsClear(d.enc.t, d.enc.litBufsize, d.c.strategy == Z_FIXED, d.Farthest(), d.packs[i]);
      }
    }
  }

  /** A finished stream is its header, its blocks and its check value, if every block was
      sent as it was meant. */
  lemma StreamIs(d: Deflater)
    requires d.Valid() && d.Complete() && (d.clean || ByParameters(d))
    ensures LengthsOk(d.enc.t) && DistsOk(d.enc.t) && BlocksOk(d.enc.t, [], d.blocks) && d.blocks != []
    ensures AfterAll([], d.blocks) == d.g.data
    ensures 8 <= d.wBits <= WBITS
            && BytesToBits(d.output)
                 == StreamBits(d.enc.t, d.wrap, d.wBits, LevelFlags(d.level, d.c.strategy), d.blocks)
  {
    hide Encoder.Valid, LoopOk, MsbBits, ZlibHeader, AfterAll, BlocksOk, Check, LengthsOk, DistsOk, Writer.Sent,
         BytesToBits, TrailerBits, BlocksBits, Padding;
    if ByParameters(d) {
      CleanAlways(d);
    }
    ValidTables(d.enc);
    NothingSent(d.enc.w);
    assert d.g.data[..|d.g.data|] == d.g.data;
  }

  /** The reference machine reads a finished stream to its end. */
  lemma Decodes(d: Deflater) returns (u: State)
    requires d.Valid() && d.Complete() && (d.clean || ByParameters(d))
    ensures Reachable(Whole(d.wrap, d.output), u) && u.mode == DONE && u.out == d.g.data && u.unread == []
  {
    hide Deflater.Valid, Deflater.Complete, ByParameters, StreamBits, BytesToBits, AfterAll, BlocksOk,
         LengthsOk, DistsOk, Reachable;
    StreamIs(d);
    var bits := BytesToBits(d.output);
    assert bits + [] == bits;
    u := StreamRun(d.enc.t, d.wrap, d.wBits, LevelFlags(d.level, d.c.strategy), d.blocks, []);
  }

  /** Decompressing what was compressed gives it back: for every level, window size,
      memory level and strategy, every way to cut the input and the output of both sides into
      calls, and every flush on the way.  Every block must have been clear when it was sent,
      which with some parameters is always so. */
  lemma InflateAfterDeflate(d: Deflater, i: Inflater)
    requires d.Valid() && d.Complete() && i.Valid() && i.Machine().wrap == d.wrap && (d.clean || ByParameters(d))
    requires Finished(d.output, i.Fed(), i.Machine())
    ensures i.Machine().mode == DONE && i.History() == d.g.data
  {
    hide Deflater.Valid, Deflater.Complete, ByParameters, Inflater.Valid, Reachable, Step, Whole;
    var u := Decodes(d);
    RunOf(i);
    RunsEndAlike(d.wrap, d.output, i.Fed(), i.Machine(), d.output, u);
  }

  /** On the way there, the output is a prefix of the input and no error is found. */
  lemma InflateOnTheWay(d: Deflater, i: Inflater)
    requires d.Valid() && d.Complete() && i.Valid() && i.Machine().wrap == d.wrap && i.Fed() <= d.output
    requires d.clean || ByParameters(d)
    ensures i.History() <= d.g.data && i.Machine().mode != BAD && i.Machine().mode != DICT
  {
    hide Deflater.Valid, Deflater.Complete, ByParameters, Inflater.Valid, Step, Whole, BytesToBits;
    var u := Decodes(d);
    RunOf(i);
    var t := i.Machine();
    if Halted(t.mode) {
      RunsEndAlike(d.wrap, d.output, i.Fed(), t, d.output, u);
    } else {
      RunExtends(d.wrap, i.Fed(), t, d.output);
      Shorter(Whole(d.wrap, d.output), Plus(t, BytesToBits(d.output[|i.Fed()|..])), u);
    }
  }

  /** What is reached on the way to the end is a prefix of the end. */
  lemma Shorter(s: State, t: State, u: State)
    requires Reachable(s, t) && Reachable(s, u) && u.mode == DONE
    ensures t.out <= u.out
  {
    hide Step;
    var m: nat :| Reaches(s, m, t);
    var n: nat :| Reaches(s, n, u);
    DoneStays(u);
    if n < m {
      ReachesPast(s, n, u, m, t);
    } else {
      LongerRun(s, m, t, n, u);
    }
  }

  lemma DoneStays(u: State)
    requires u.mode == DONE
    ensures Step(u).None?
  {
  }

  // -------------------------------------------------------------------- sync flush

  /** After a sync flush the output so far stands for all the input so far. */
  lemma InflateAfterSync(d: Deflater, i: Inflater)
    requires d.Valid() && !d.last && d.status == BusyState && Covered(d.z, d.g) && d.enc.w.count == 0
             && d.enc.w.biValid == 0
    requires d.clean || ByParameters(d)
    requires i.Valid() && i.Machine().wrap == d.wrap && Finished(d.output, i.Fed(), i.Machine())
    ensures i.History() == d.g.data && i.Machine().mode == TYPE
  {
    hide Deflater.Valid, ByParameters, Inflater.Valid, Reachable, Whole;
    var u := DecodesSync(d);
    RunOf(i);
    TypeWaits(u);
    RunsEndAlike(d.wrap, d.output, i.Fed(), i.Machine(), d.output, u);
  }

  lemma TypeWaits(u: State)
    requires Between(u) && !u.last && u.unread == []
    ensures Step(u).None?
  {
    hide Step;
    TypeAt(u);
  }

  lemma DecodesSync(d: Deflater) returns (u: State)
    requires d.Valid() && !d.last && d.status == BusyState && Covered(d.z, d.g) && d.enc.w.count == 0
             && d.enc.w.biValid == 0
    requires d.clean || ByParameters(d)
    ensures Reachable(Whole(d.wrap, d.output), u) && Between(u) && !u.last && u.out == d.g.data && u.unread == []
  {
    hide Encoder.Valid, LoopOk, MsbBits, ZlibHeader, AfterAll, BlocksOk, Check, LengthsOk, DistsOk, Writer.Sent,
         BytesToBits, TrailerBits, BlocksBits, Reachable, Step;
    if ByParameters(d) {
      CleanAlways(d);
    }
    ValidTables(d.enc);
    NothingSent(d.enc.w);
    assert d.g.data[..|d.g.data|] == d.g.data;
    var s, head, bits := Whole(d.wrap, d.output), d.Head(), BlocksBits(d.enc.t, |d.Head()|, false, [], d.blocks);
    assert BytesToBits(d.output) + [] == BytesToBits(d.output);
    assert head + bits + [] == head + bits;
    var a := s.(mode := TYPE, unread := bits);
    StartRun(s, d.wrap, d.wBits, LevelFlags(d.level, d.c.strategy), bits);
    assert bits + [] == bits;
    u := BlocksRun(a, d.enc.t, |head|, false, d.blocks, []);
    ReachableJoin(s, a, u);
  }

  /** The header, if there is one. */
  lemma StartRun(s: State, wrap: bool, wBits: nat, flags: nat, bits: seq<bool>)
    requires 8 <= wBits <= WBITS && flags < 4
    requires s == Plus(Initial(wrap), (if wrap then MsbBits(ZlibHeader(wBits, flags)) else []) + bits)
    ensures Reachable(s, s.(mode := TYPE, unread := bits))
  {
    hide Step, Reachable, MsbBits, ZlibHeader;
    if wrap {
      HeadRun(s, wBits, flags, bits);
    } else {
      assert s.unread == bits;
      HeadAt(s);
      ReachableStep(s);
    }
  }

  // ----------------------------------------------------------------- partial flush

  /** A part of a code is no code. */
  lemma PartOfCode(lens: seq<nat>, sym: nat, k: nat)
    requires CodeOk(LENS, lens) && sym < |lens| && k < lens[sym]
    ensures Decode(LENS, lens, T.SymBits(lens, sym)[..k]).None?
  {
    hide Decode, CodeOk, T.SymBits;
    var bits := T.SymBits(lens, sym);
    DecodeSym(LENS, lens, sym, []);
    if Decode(LENS, lens, bits[..k]).Some? {
      DecodeMono(LENS, lens, bits[..k], bits[k..]);
      assert bits[..k] + bits[k..] == bits && bits + [] == bits;
      UsedFits(lens, bits[..k]);
    }
  }

  lemma UsedFits(lens: seq<nat>, unread: seq<bool>)
    requires |lens| <= MaxSymbols(LENS) && Decode(LENS, lens, unread).Some?
    ensures Decode(LENS, lens, unread).value.used <= |unread|
  {
  }

  /** The machine at the start of an empty block, of which at least the type is there: it waits, or
      ends the block, without output. */
  lemma EmptyRun(s: State, k: nat) returns (u: State)
    requires Between(s) && !s.last && 3 <= k <= 10 && |FixedLens()| == 288
    requires s.unread == (TypeBits(STATIC_TREES, false) + T.SymBits(FixedLens(), T.END_BLOCK))[..k]
    requires |TypeBits(STATIC_TREES, false)| == 3 && FixedLens()[T.END_BLOCK] == 7
    ensures Reachable(s, u) && Step(u).None? && u.out == s.out
  {
    hide Step, Reachable, CodeOk, TypeBits, T.SymBits, FixedLens, FixedDists, Decode;
    var e := T.SymBits(FixedLens(), T.END_BLOCK);
    assert |e| == 7;
    assert s.unread == TypeBits(STATIC_TREES, false) + e[..k - 3];
    TypeRun(s, STATIC_TREES, false, e[..k - 3]);
    ReachableStep(s);
    var a := Step(s).value;
    FixedOk();
    if k < 10 {
      u := a;
      PartOfCode(a.llens, T.END_BLOCK, k - 3);
      LenAt(a);
    } else {
      assert e[..7] == e && a.unread == e + [];
      EndRun(a, []);
      u := a.(mode := TYPE, unread := []);
      ReachableJoin(s, a, u);
      TypeWaits(u);
    }
  }

  /** After a partial flush the output so far stands for all the input so far: what is held back is
      part of an empty block. */
  lemma InflateAfterPartial(d: Deflater, i: Inflater)
    requires d.Valid() && !d.last && d.status == BusyState && Covered(d.z, d.g) && d.enc.w.count == 0 && d.Aligned()
    requires d.clean || ByParameters(d)
    requires i.Valid() && i.Machine().wrap == d.wrap && Finished(d.output, i.Fed(), i.Machine())
    ensures i.History() == d.g.data
  {
    hide Deflater.Valid, ByParameters, Inflater.Valid, Reachable, Whole, Deflater.Aligned, Step;
    var u := DecodesPartial(d);
    RunOf(i);
    RunsEndAlike(d.wrap, d.output, i.Fed(), i.Machine(), d.output, u);
  }

  lemma DecodesPartial(d: Deflater) returns (u: State)
    requires d.Valid() && !d.last && d.status == BusyState && Covered(d.z, d.g) && d.enc.w.count == 0 && d.Aligned()
    requires d.clean || ByParameters(d)
    ensures Reachable(Whole(d.wrap, d.output), u) && Step(u).None? && u.out == d.g.data
  {
    hide Step, Reachable, Deflater.Valid, Deflater.Aligned, ByParameters, LengthsOk, DistsOk, BlocksOk, BlockOk, BitsOf,
         BlocksBits, AfterAll, BytesToBits, TypeBits, T.SymBits, FixedLens;
    var bs, k := HeldBack(d);
    assert HeldOk(d.enc.t, d.Head(), bs, d.g.data, d.output, k);
    var t, s := d.enc.t, Whole(d.wrap, d.output);
    var head, h := d.Head(), AfterAll([], bs);
    var front := BlocksBits(t, |head|, false, [], bs);
    EmptyIs(t, |head| + |front|, h);
    var e := BitsOf(t, |head| + |front|, false, h, StaticBlock([]));
    Grouped(head, front, e[..k]);
    WholeIs(d.wrap, d.output);
    StartRun(s, d.wrap, d.wBits, LevelFlags(d.level, d.c.strategy), front + e[..k]);
    var a := s.(mode := TYPE, unread := front + e[..k]);
    assert a.out == [];
    var b := BlocksRun(a, t, |head|, false, bs, e[..k]);
    ReachableJoin(s, a, b);
    u := EmptyRun(b, k);
    ReachableJoin(s, b, u);
  }

  /** The output and what is held back of it. */
  lemma HeldBack(d: Deflater) returns (bs: seq<Block>, k: nat)
    requires d.Valid() && !d.last && d.status == BusyState && Covered(d.z, d.g) && d.enc.w.count == 0 && d.Aligned()
    requires d.clean || ByParameters(d)
    ensures 9 <= d.wBits <= WBITS && HeldOk(d.enc.t, d.Head(), bs, d.g.data, d.output, k)
  {
    hide Encoder.Valid, LoopOk, MsbBits, ZlibHeader, Check, LengthsOk, DistsOk, BytesToBits, BlocksBits, AfterAll,
         BlocksOk, PacksOk, Traced, PointsOk, HeldOk, Writer.Sent;
    if ByParameters(d) {
      CleanAlways(d);
    }
    ValidTables(d.enc);
    assert d.g.data[..|d.g.data|] == d.g.data;
    bs, k := d.blocks[..|d.blocks| - 1], 10 - d.enc.w.biValid;
    assert d.blocks == bs + [StaticBlock([])];
    HeldBits(d.enc.w);
    HeldIs(d.enc.t, d.Head(), bs, d.g.data, d.output, d.enc.w.Sent(), k);
  }

  lemma HeldBits(w: Writer)
    requires w.Valid() && w.count == 0
    ensures |w.Sent()| == w.biValid
  {
  }

  // -------------------------------------------------------------------- full flush

  /** What was given out since a full flush is a raw stream of its own, and behind it the check
      value, if there is one. */
  lemma RestIs(d: Deflater, k: nat)
    requires d.Valid() && d.Complete() && (d.clean || ByParameters(d)) && k < |d.points|
    ensures RestOk(d.enc.t, d.wrap, d.points[k], d.blocks, d.g.data, d.output)
  {
    hide Deflater.Valid, Deflater.Complete, ByParameters, StreamBits, BytesToBits, AfterAll, BlocksOk, LengthsOk,
         DistsOk, BlocksBits, TrailerBits, Check, ResumeOk, PointOk, RestOk;
    StreamIs(d);
    PointIs(d, k);
    CutStream(d.enc.t, d.wrap, d.wBits, LevelFlags(d.level, d.c.strategy), d.blocks, d.Head(), d.points[k], d.g.data,
              d.output);
  }

  /** At every moment of every run the blocks sent since a full flush are readable without what was
      before it, and stand for the input since then. */
  lemma FlushForgets(d: Deflater, k: nat)
    requires d.Valid() && k < |d.points|
    ensures var p, b := d.points[k], BlockPos(d.z, d.g);
            && LengthsOk(d.enc.t) && DistsOk(d.enc.t) && p.cut <= |d.blocks| && p.pos <= b <= |d.g.data|
            && BlocksOk(d.enc.t, [], d.blocks[p.cut..]) && AfterAll([], d.blocks[p.cut..]) == d.g.data[p.pos..b]
  {
    hide Encoder.Valid, LoopOk, MsbBits, ZlibHeader, AfterAll, BlocksOk, Check, LengthsOk, DistsOk, Writer.Sent,
         BytesToBits, TrailerBits, BlocksBits, Padding, ResumeOk, PacksOk, Traced;
    assert PointOk(d.enc.t, d.points[k], d.blocks, d.g.data, BlockPos(d.z, d.g));
  }

  /** What is known of a point when all is sent. */
  lemma PointIs(d: Deflater, k: nat)
    requires d.Valid() && d.Complete() && (d.clean || ByParameters(d)) && k < |d.points|
    ensures var p := d.points[k];
            && p.cut < |d.blocks| && PointOk(d.enc.t, p, d.blocks, d.g.data, |d.g.data|)
            && ResumeOk(d.enc.t, p, d.Head(), d.blocks)
  {
    hide Encoder.Valid, LoopOk, MsbBits, ZlibHeader, AfterAll, BlocksOk, Check, LengthsOk, DistsOk, Writer.Sent,
         BytesToBits, TrailerBits, BlocksBits, Padding, PointOk, ResumeOk, PacksOk, Traced;
    if ByParameters(d) {
      CleanAlways(d);
    }
  }

  /** Decompressing from a full flush on, as a raw stream, gives the rest of the input: no block sent
      after the flush reaches in front of it. */
  lemma InflateFromFlush(d: Deflater, k: nat, i: Inflater)
    requires d.Valid() && d.Complete() && (d.clean || ByParameters(d)) && k < |d.points|
    requires d.points[k].resume <= |d.output| && i.Valid() && !i.Machine().wrap
    requires Finished(d.output[d.points[k].resume..], i.Fed(), i.Machine())
    ensures d.points[k].pos <= |d.g.data|
    ensures i.Machine().mode == DONE && i.History() == d.g.data[d.points[k].pos..]
  {
    hide Deflater.Valid, Deflater.Complete, ByParameters, Inflater.Valid, Reachable, Step, Whole, StreamBits,
         BytesToBits, AfterAll, BlocksOk, LengthsOk, DistsOk, TrailerBits, Check;
    RestIs(d, k);
    var p := d.points[k];
    var more := if d.wrap then TrailerBits(Check(d.g.data)) else [];
    TrailerLength(d.g.data);
    var u := StreamRun(d.enc.t, false, WBITS, 0, d.blocks[p.cut..], more);
    WholeIs(false, d.output[p.resume..]);
    RunOf(i);
    DoneStays(u);
    RunsEndAlike(false, d.output[p.resume..], i.Fed(), i.Machine(), d.output[p.resume..], u);
  }

  lemma TrailerLength(data: seq<Byte>)
    ensures |TrailerBits(Check(data))| % 8 == 0
  {
    hide Check;
    TrailerRead(Check(data));
  }

  lemma WholeIs(wrap: bool, bytes: seq<Byte>)
    ensures Whole(wrap, bytes) == Plus(Initial(wrap), BytesToBits(bytes))
  {
  }
}
