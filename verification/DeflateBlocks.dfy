/** deflate.c: what has been sent, block by block, and what the window still holds. */
module DeflateBlocks {
  import opened Bits
  import opened Matcher
  import opened Lz77
  import opened BlockEncoder
  import opened TreeTables
  import opened HeaderDecode
  import opened StreamDecode
  import opened BitWriter
  import opened Deflate
  import opened OverlaySafe
  import M = InflateMachine
  import T = Tokens
  import RollingHash

  /** What has been sent: the blocks behind a prefix, and padding behind the last, as long
      as every block so far was clear.  The first part of it, gone, has left the pending
      buffer. */
  ghost predicate OutOk(enc: Encoder, gone: seq<Byte>, prefix: seq<bool>, blocks: seq<Block>, last: bool, clean: bool)
    reads enc, enc.w, enc.w.buf
  {
    && enc.Valid() && BlocksOk(enc.t, [], blocks) && (last ==> enc.w.biValid == 0)
    && (clean ==> BytesToBits(gone) + enc.w.Sent() == OutBits(enc.t, prefix, blocks, last))
  }

  /** The bytes of the current block, if they are still in the window. */
  function BlockBuf(z: Lz): (r: M.Option<seq<Byte>>)
    requires |z.window| == 2 * z.wSize && z.blockStart <= z.strstart <= 2 * z.wSize
  {
    if z.blockStart >= 0 then M.Some(z.window[z.blockStart..z.strstart]) else M.None
  }

  lemma BlockBufIs(z: Lz, g: Past)
    requires WindowOk(z, g) && z.blockStart <= z.strstart && 0 <= BlockPos(z, g)
    ensures BlockPos(z, g) <= Pos(z, g) <= |g.data|
    ensures BlockBuf(z).Some? ==> BlockBuf(z).value == g.data[BlockPos(z, g)..Pos(z, g)]
  {
    if z.blockStart >= 0 {
      var a, b := z.window[z.blockStart..z.strstart], g.data[BlockPos(z, g)..Pos(z, g)];
      assert |a| == |b|;
      forall i | 0 <= i < |a|
        ensures a[i] == b[i]
      {
        assert z.window[z.blockStart + i] == g.data[g.base + (z.blockStart + i)];
      }
    }
  }

  /** All bits of the blocks so far. */
  ghost function OutBits(t: Tables, prefix: seq<bool>, blocks: seq<Block>, last: bool): seq<bool>
    requires LengthsOk(t) && DistsOk(t) && BlocksOk(t, [], blocks)
  {
    var bits := BlocksBits(t, |prefix|, last, [], blocks);
    prefix + bits + if last then Padding(|prefix| + |bits|) else []
  }

  /** One more block behind the others. */
  lemma OutMore(t: Tables, prefix: seq<bool>, blocks: seq<Block>, b: Block, last: bool, before: seq<bool>)
    requires LengthsOk(t) && DistsOk(t) && BlocksOk(t, [], blocks) && BlockOk(t, AfterAll([], blocks), b)
    requires before == OutBits(t, prefix, blocks, false)
    ensures BlocksOk(t, [], blocks + [b]) && AfterAll([], blocks + [b]) == After(AfterAll([], blocks), b)
    ensures var bits := BitsOf(t, |before|, last, AfterAll([], blocks), b);
            OutBits(t, prefix, blocks + [b], last) == before + bits + if last then Padding(|before| + |bits|) else []
  {
    hide BlockOk, BitsOf, BlocksBits, AfterAll, After, Padding, LengthsOk, DistsOk, BlocksOk;
    BlocksAppend(t, |prefix|, last, [], blocks, b);
    var x := BlocksBits(t, |prefix|, false, [], blocks);
    var y := BitsOf(t, |prefix| + |x|, last, AfterAll([], blocks), b);
    assert before == prefix + x;
    assert prefix + (x + y) == (prefix + x) + y;
  }

  /** Whole bytes in front change no padding. */
  lemma ShiftPos(t: Tables, pos: nat, gone: seq<Byte>, last: bool, h: seq<Byte>, b: Block)
    requires LengthsOk(t) && DistsOk(t) && BlockOk(t, h, b)
    ensures |BytesToBits(gone)| == 8 * |gone|
    ensures BitsOf(t, |BytesToBits(gone)| + pos, last, h, b) == BitsOf(t, pos, last, h, b)
  {
    hide LengthsOk, DistsOk, ToBits, BytesToBits, TypeBits, Padding;
    if b.StoredBlock? {
      SamePadding(pos + 3, |gone|);
    }
  }

  lemma SamePadding(pos: nat, k: nat)
    ensures Padding(8 * k + pos) == Padding(pos)
  {
  }

  /** The bits of one more block, sent behind what is gone, if all was well before. */
  lemma OutMoreBehind(t: Tables, gone: seq<Byte>, prefix: seq<bool>, blocks: seq<Block>, b: Block, last: bool,
                      before: seq<bool>, clean: bool)
    requires LengthsOk(t) && DistsOk(t) && BlocksOk(t, [], blocks) && BlockOk(t, AfterAll([], blocks), b)
    requires clean ==> BytesToBits(gone) + before == OutBits(t, prefix, blocks, false)
    ensures BlocksOk(t, [], blocks + [b]) && AfterAll([], blocks + [b]) == After(AfterAll([], blocks), b)
    ensures var bits := BitsOf(t, |before|, last, AfterAll([], blocks), b);
            clean ==>
              OutBits(t, prefix, blocks + [b], last)
              == BytesToBits(gone) + (before + bits + if last then Padding(|before| + |bits|) else [])
  {
    hide BlockOk, BitsOf, OutBits, AfterAll, After, Padding, LengthsOk, DistsOk, BlocksOk, BytesToBits;
    BlocksAppend(t, |prefix|, last, [], blocks, b);
    if clean {
      OutMore(t, prefix, blocks, b, last, BytesToBits(gone) + before);
      ShiftPos(t, |before|, gone, last, AfterAll([], blocks), b);
      var bits := BitsOf(t, |before|, last, AfterAll([], blocks), b);
      SamePadding(|before| + |bits|, |gone|);
      var x, pad := BytesToBits(gone), if last then Padding(|before| + |bits|) else [];
      assert x + before + bits + pad == x + (before + bits + pad);
    }
  }

  /** A block that was flushed: its tokens, the bits that waited before it, the input before it
      and its own, if that was still there, and the codes and the block that were made of it. */
  datatype Pack = Pack(tokens: seq<T.Token>, sent: seq<bool>, eof: bool, h: seq<Byte>, data: seq<Byte>, there: bool,
                       codes: Codes, block: Block)

  /** The tokens stand for the input and do not reach too far back, and the block was chosen
      for them. */
  ghost predicate PackOk(t: Tables, fixed: bool, reach: int, p: Pack) {
    && T.AllNear(p.tokens, reach) && |p.sent| <= 16 && LengthsOk(t) && DistsOk(t) && BlockOk(t, p.h, p.block)
    && T.Within(p.h, p.tokens) && T.Expand(p.h, p.tokens) == p.h + p.data
    && Chosen(t, p.codes, p.block, p.tokens, p.data, p.there, fixed)
  }

  ghost predicate PackClear(t: Tables, size: nat, p: Pack) {
    LengthsOk(t) && DistsOk(t) && BlockOk(t, p.h, p.block) && Clear(t, size, p.sent, p.eof, p.h, p.block)
  }

  /** What a block needs to be flushed: its tokens, or at level 0 its bytes. */
  ghost predicate CanFlush(enc: Encoder, z: Lz, g: Past, level: nat)
    reads enc, enc.w
  {
    && enc.w.count == 0
    && WindowOk(z, g) && g.floor <= BlockPos(z, g) && z.blockStart <= z.strstart
    && (z.blockStart >= 0 ==> z.strstart - z.blockStart < 65536)
    && if level == 0 then
         z.blockStart >= 0 && z.strstart - z.blockStart + 5 <= 4 * enc.litBufsize && enc.w.biValid <= 5
       else
         StandsSince(g.data, g.floor, BlockPos(z, g), enc.tokens, Pos(z, g))
  }

  /** The block can be read, and stands for its bytes, without anything from before the last full
      flush. */
  ghost predicate BlockSince(t: Tables, g: Past, b: int, n: int, block: Block) {
    && LengthsOk(t) && DistsOk(t) && g.floor <= b <= n <= |g.data| && BlockOk(t, g.data[g.floor..b], block)
    && After(g.data[g.floor..b], block) == g.data[g.floor..n]
  }

  lemma ChosenSince(t: Tables, g: Past, b: int, n: int, h: seq<Byte>, data: seq<Byte>, c: Codes, block: Block,
                    ts: seq<T.Token>, there: bool, fixed: bool)
    requires LengthsOk(t) && DistsOk(t) && BlockOk(t, h, block) && Chosen(t, c, block, ts, data, there, fixed)
    requires StandsSince(g.data, g.floor, b, ts, n) && data == g.data[b..n]
    ensures BlockSince(t, g, b, n, block)
  {
    hide LengthsOk, DistsOk, T.Within, T.Expand, T.AllEncodable, CodesOk, FromTrees, StaticBytes, DynBytes;
    var d := g.data[g.floor..];
    assert d[..b - g.floor] == g.data[g.floor..b] && d[..n - g.floor] == g.data[g.floor..n];
    assert g.data[g.floor..b] + data == g.data[g.floor..n];
  }

  lemma StoredSince(t: Tables, g: Past, b: int, n: int, h: seq<Byte>, data: seq<Byte>, block: Block)
    requires LengthsOk(t) && DistsOk(t) && block.StoredBlock? && BlockOk(t, h, block) && After(h, block) == h + data
    requires g.floor <= b <= n <= |g.data| && data == g.data[b..n]
    ensures BlockSince(t, g, b, n, block)
  {
    hide LengthsOk, DistsOk;
    assert block.data == (h + block.data)[|h|..] && data == (h + data)[|h|..];
    assert g.data[g.floor..b] + data == g.data[g.floor..n];
  }

  /** FLUSH_BLOCK_ONLY without flush_pending. */
  method FlushBlockOnly(enc: Encoder, z: Lz, eof: bool, level: nat, fixed: bool, ghost g: Past, ghost gone: seq<Byte>,
                        ghost prefix: seq<bool>, ghost blocks: seq<Block>, ghost clean: bool, ghost reach: int)
    returns (r: Lz, ghost blocks': seq<Block>, ghost clean': bool, ghost pack: Pack)
    requires OutOk(enc, gone, prefix, blocks, false, clean) && CanFlush(enc, z, g, level)
    requires AfterAll([], blocks) == g.data[..BlockPos(z, g)] && (level > 0 ==> T.AllNear(enc.tokens, reach))
    modifies enc, enc.w, enc.w.buf
    ensures OutOk(enc, gone, prefix, blocks', eof, clean') && enc.tokens == [] && r == z.(blockStart := z.strstart)
    ensures BlockPos(r, g) == Pos(z, g) <= |g.data| && AfterAll([], blocks') == g.data[..BlockPos(r, g)]
    ensures |blocks'| == |blocks| + 1 && blocks' == blocks + [blocks'[|blocks|]]
    ensures BlockOk(enc.t, AfterAll([], blocks), blocks'[|blocks|])
    ensures BlockSince(enc.t, g, BlockPos(z, g), Pos(z, g), blocks'[|blocks|]) && g.floor <= Pos(z, g)
    ensures level > 0 ==>
              PackOk(enc.t, fixed, reach, pack) && pack.tokens == old(enc.tokens) && pack.sent == old(enc.w.Sent())
    ensures clean' == (clean && (level > 0 ==> PackClear(enc.t, enc.litBufsize, pack)))
    ensures level == 0 ==> enc.w.biValid == 0 && enc.lastEobLen == 8
  {
    hide BlockOk, BitsOf, AfterAll, After, Padding, T.Within, T.Expand, BlocksOk, Encoder.Valid, OutBits, LengthsOk,
         DistsOk, Writer.Sent, Clear, Chosen;
    BlockBufIs(z, g);
    if level > 0 {
      SinceStands(g.data, g.floor, BlockPos(z, g), enc.tokens, Pos(z, g));
    }
    ghost var h, data := g.data[..BlockPos(z, g)], g.data[BlockPos(z, g)..Pos(z, g)];
    assert h + data == g.data[..Pos(z, g)];
    ghost var before, ts := enc.w.Sent(), enc.tokens;
    ValidTables(enc);
    ghost var b, c := enc.FlushBlock(BlockBuf(z), z.strstart - z.blockStart, eof, level, fixed, h, data);
    OutMoreBehind(enc.t, gone, prefix, blocks, b, eof, before, clean);
    if level > 0 {
      ChosenSince(enc.t, g, BlockPos(z, g), Pos(z, g), h, data, c, b, ts, BlockBuf(z).Some?, fixed);
    } else {
      StoredSince(enc.t, g, BlockPos(z, g), Pos(z, g), h, data, b);
    }
    blocks' := blocks + [b];
    pack := Pack(ts, before, eof, h, data, BlockBuf(z).Some?, c, b);
    clean' := clean && Clear(enc.t, enc.litBufsize, before, eof, h, b);
    if level == 0 {
      StoredClear(enc.t, enc.litBufsize, before, eof, h, b.data);
    }
    r := z.(blockStart := z.strstart);
  }

  /** An empty block behind the others, as _tr_align and a sync flush send it. */
  lemma EmptyBehind(t: Tables, gone: seq<Byte>, prefix: seq<bool>, blocks: seq<Block>, b: Block, before: seq<bool>,
                    after: seq<bool>, clean: bool)
    requires LengthsOk(t) && DistsOk(t) && BlocksOk(t, [], blocks) && (b == StaticBlock([]) || b == StoredBlock([]))
    requires BlockOk(t, AfterAll([], blocks), b)
    requires clean ==> BytesToBits(gone) + before == OutBits(t, prefix, blocks, false)
    requires after == before + BitsOf(t, |before|, false, AfterAll([], blocks), b)
    ensures BlocksOk(t, [], blocks + [b]) && AfterAll([], blocks + [b]) == AfterAll([], blocks)
    ensures clean ==> BytesToBits(gone) + after == OutBits(t, prefix, blocks + [b], false)
  {
    hide BitsOf, AfterAll, BlocksOk, OutBits, LengthsOk, DistsOk, BytesToBits;
    OutMoreBehind(t, gone, prefix, blocks, b, false, before, clean);
    var bits := BitsOf(t, |before|, false, AfterAll([], blocks), b);
    assert before + bits + [] == after;
  }

  lemma ValidTables(enc: Encoder)
    requires enc.Valid()
    ensures LengthsOk(enc.t) && DistsOk(enc.t) && enc.w.Valid() && BufSize(enc.litBufsize)
            && enc.w.buf.Length == 4 * enc.litBufsize
    ensures enc.lastLit == |enc.tokens| < enc.litBufsize && (enc.w.count == 0 ==> |enc.w.Sent()| <= 16)
  {
  }

  // ------------------------------------------------------------ filling the window

  lemma FillFast(enc: Encoder, z: Lz, g: Past, r: Lz, k: Past, bits: nat, more: seq<Byte>)
    requires FastOk(enc, z, g, bits) && MatcherOk(r, k, bits) && k.data == g.data + more && k.floor == g.floor
             && SameStrings(z, r, k.base - g.base)
    ensures FastOk(enc, r, k, bits)
  {
    hide MatcherOk, StandsSince, Encoder.Valid;
    ValidTables(enc);
    SinceMore(g.data, more, g.floor, BlockPos(z, g), enc.tokens, Pos(z, g));
  }

  lemma FillSlow(enc: Encoder, z: Lz, g: Past, r: Lz, k: Past, bits: nat, more: seq<Byte>)
    requires SlowOk(enc, z, g, bits) && MatcherOk(r, k, bits) && k.data == g.data + more && k.floor == g.floor
             && SameStrings(z, r, k.base - g.base)
    requires z.strstart >= 1 ==> r.strstart >= 1
    ensures SlowOk(enc, r, k, bits)
  {
    hide MatcherOk, StandsSince, Encoder.Valid, MatchAt;
    ValidTables(enc);
    SinceMore(g.data, more, g.floor, BlockPos(z, g), enc.tokens, Pos(z, g) - if z.matchAvailable then 1 else 0);
    if z.matchLength >= MIN_MATCH {
      MatchMore(g.data, more, Pos(z, g) - 1, g.base + z.matchStart, z.matchLength, z.wSize);
    }
  }

  lemma MatchMore(data: seq<Byte>, more: seq<Byte>, pos: nat, start: int, len: nat, w: nat)
    requires MatchAt(data, pos, start, len, w)
    ensures MatchAt(data + more, pos, start, len, w)
  {
    assert (data + more)[start..start + len] == data[start..start + len];
    assert (data + more)[pos..pos + len] == data[pos..pos + len];
  }

  lemma Prefixes(data: seq<Byte>, more: seq<Byte>, n: int)
    requires 0 <= n <= |data|
    ensures (data + more)[..n] == data[..n]
  {
  }

  lemma MatcherSizes(z: Lz, g: Past, bits: nat)
    requires MatcherOk(z, g, bits)
    ensures z.strstart + z.lookahead <= 2 * z.wSize && |g.data| == Pos(z, g) + z.lookahead && WindowOk(z, g)
            && SizeOk(z.wSize)
  {
    hide ChainsOk, LinksBounded, HashOk;
  }

  lemma NewBlockStart(z: Lz, g: Past, bits: nat, b: int)
    requires MatcherOk(z, g, bits)
    ensures MatcherOk(z.(blockStart := b), g, bits)
  {
    hide KeyAt, Slot, LinkOk, RollingHash.Ready;
    assert ChainsOk(z.(blockStart := b), g, bits);
  }

  // ------------------------------------------------------------------- level 0

  /** The longest stored block that fits the pending buffer. */
  function MaxBlock(litBufsize: nat): (r: int)
    ensures r <= 65535 && (litBufsize >= 2 ==> r >= 1)
  {
    if 65535 > 4 * litBufsize - 5 then 4 * litBufsize - 5 else 65535
  }

  /** What deflate_stored keeps: the block's bytes stay in the window. */
  ghost predicate StoredOk(enc: Encoder, z: Lz, g: Past, bits: nat)
    reads enc, enc.w, enc.w.buf
  {
    && enc.Valid() && enc.tokens == [] && enc.litBufsize >= 2
    && WindowOk(z, g) && ChainsOk(z, g, bits) && LinksBounded(z) && g.top < Pos(z, g)
    && 0 <= z.blockStart <= z.strstart && z.strstart - z.blockStart < MaxDist(z.wSize) && g.floor <= BlockPos(z, g)
    && z.strstart - z.blockStart < MaxBlock(enc.litBufsize)
  }

  lemma StoredMatcher(enc: Encoder, z: Lz, g: Past, bits: nat)
    requires StoredOk(enc, z, g, bits) && z.lookahead <= 1
    ensures MatcherOk(z, g, bits)
  {
    hide ChainsOk, LinksBounded, Encoder.Valid, WindowOk;
  }

  lemma FillStored(enc: Encoder, z: Lz, g: Past, r: Lz, k: Past, bits: nat)
    requires StoredOk(enc, z, g, bits) && MatcherOk(r, k, bits) && SameStrings(z, r, k.base - g.base)
    requires k.floor == g.floor
    requires k.base == g.base || r.strstart >= MaxDist(z.wSize)
    ensures StoredOk(enc, r, k, bits)
  {
    hide ChainsOk, LinksBounded, Encoder.Valid, WindowOk, HashOk;
  }

  /** strstart may move within what has been read. */
  lemma MoveStored(z: Lz, g: Past, bits: nat, s: nat)
    requires WindowOk(z, g) && ChainsOk(z, g, bits) && LinksBounded(z) && g.top < Pos(z, g)
             && z.strstart <= s <= z.strstart + z.lookahead
    ensures var r := z.(strstart := s, lookahead := z.strstart + z.lookahead - s);
            WindowOk(r, g) && ChainsOk(r, g, bits) && LinksBounded(r) && g.top < Pos(r, g)
  {
    hide KeyAt, Slot, LinkOk;
    var r := z.(strstart := s, lookahead := z.strstart + z.lookahead - s);
    assert ChainsOk(r, g, bits);
  }

  lemma NewStoredStart(z: Lz, g: Past, bits: nat, b: int)
    requires WindowOk(z, g) && ChainsOk(z, g, bits) && LinksBounded(z)
    ensures var r := z.(blockStart := b); WindowOk(r, g) && ChainsOk(r, g, bits) && LinksBounded(r)
  {
    hide KeyAt, Slot, LinkOk;
    assert ChainsOk(z.(blockStart := b), g, bits);
  }

  /** CLEAR_HASH forgets the chains. */
  function Forgotten(z: Lz): (r: Lz) {
    z.(head := map[])
  }

  function Anew(g: Past): (k: Past) {
    g.(ins := {}, floor := |g.data|)
  }

  lemma ClearedOk(z: Lz, g: Past, bits: nat)
    requires MatcherOk(z, g, bits) && z.lookahead == 0
    ensures MatcherOk(Forgotten(z), Anew(g), bits)
  {
    hide KeyAt, Slot, RollingHash.Ready;
    assert ChainsOk(Forgotten(z), Anew(g), bits);
  }
}
