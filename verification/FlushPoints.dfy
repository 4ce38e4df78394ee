/** deflate.c: where a stream was fully flushed, and that what follows can be read from there. */
module FlushPoints {
  import opened Bits
  import opened BitWriter
  import opened BlockEncoder
  import opened DeflateBlocks
  import opened HeaderDecode
  import opened Lz77
  import opened Matcher
  import opened StreamDecode
  import opened TreeTables
  import M = InflateMachine
  import T = Tokens

  /** A full flush: how much input there had been, how many blocks and how many bytes of output. */
  datatype Point = Point(pos: nat, cut: nat, resume: nat)

  /** The blocks since the flush are readable on their own, and stand for the input since then. */
  ghost predicate PointOk(t: Tables, p: Point, blocks: seq<Block>, data: seq<Byte>, b: int) {
    && LengthsOk(t) && DistsOk(t) && p.cut <= |blocks| && p.pos <= b <= |data|
    && BlocksOk(t, [], blocks[p.cut..]) && AfterAll([], blocks[p.cut..]) == data[p.pos..b]
  }

  /** The blocks before the flush end with a byte of the output. */
  ghost predicate ResumeOk(t: Tables, p: Point, prefix: seq<bool>, blocks: seq<Block>) {
    && LengthsOk(t) && DistsOk(t) && p.cut <= |blocks| && BlocksOk(t, [], blocks[..p.cut])
    && |prefix| + |BlocksBits(t, |prefix|, false, [], blocks[..p.cut])| == 8 * p.resume
  }

  ghost predicate PointsOk(t: Tables, points: seq<Point>, prefix: seq<bool>, blocks: seq<Block>, last: bool,
                           data: seq<Byte>, b: int, floor: nat, clean: bool)
  {
    forall i :: 0 <= i < |points| ==>
      && PointOk(t, points[i], blocks, data, b) && points[i].pos <= floor && (last ==> points[i].cut < |blocks|)
      && (clean ==> ResumeOk(t, points[i], prefix, blocks))
  }

  lemma NoPoints(t: Tables, prefix: seq<bool>, blocks: seq<Block>, last: bool, data: seq<Byte>, b: int, floor: nat,
                 clean: bool)
    ensures PointsOk(t, [], prefix, blocks, last, data, b, floor, clean)
  {
  }

  // -------------------------------------------------------------------- more blocks

  /** A block that needs no more history than h may follow a longer one. */
  lemma BlockLonger(t: Tables, x: seq<Byte>, h: seq<Byte>, b: Block)
    requires LengthsOk(t) && DistsOk(t) && BlockOk(t, h, b)
    ensures BlockOk(t, x + h, b) && After(x + h, b) == x + After(h, b)
  {
    hide LengthsOk, DistsOk, T.Within, T.Expand, T.AllEncodable, CodesOk;
    if b.StoredBlock? {
      Grouped(x, h, b.data);
    } else {
      ExpandLonger(x, h, b.tokens);
    }
  }

  lemma PointMore(t: Tables, p: Point, blocks: seq<Block>, block: Block, g: Past, b: int, n: int)
    requires PointOk(t, p, blocks, g.data, b) && p.pos <= g.floor && BlockSince(t, g, b, n, block)
    ensures PointOk(t, p, blocks + [block], g.data, n)
  {
    hide LengthsOk, DistsOk, BlocksOk, AfterAll, BlockOk, After, BlocksBits, BitsOf;
    var x, h := g.data[p.pos..g.floor], g.data[g.floor..b];
    assert g.data[p.pos..b] == x + h && g.data[p.pos..n] == x + g.data[g.floor..n];
    BlockLonger(t, x, h, block);
    BlocksAppend(t, 0, false, [], blocks[p.cut..], block);
    assert (blocks + [block])[p.cut..] == blocks[p.cut..] + [block];
  }

  lemma ResumeMore(t: Tables, p: Point, prefix: seq<bool>, blocks: seq<Block>, more: seq<Block>)
    requires ResumeOk(t, p, prefix, blocks)
    ensures ResumeOk(t, p, prefix, blocks + more)
  {
    hide LengthsOk, DistsOk, BlocksOk, BlocksBits;
    assert (blocks + more)[..p.cut] == blocks[..p.cut];
  }

  lemma PointsMore(t: Tables, points: seq<Point>, prefix: seq<bool>, blocks: seq<Block>, block: Block, last: bool,
                   g: Past, b: int, n: int, clean: bool, clean': bool)
    requires PointsOk(t, points, prefix, blocks, false, g.data, b, g.floor, clean) && (clean' ==> clean)
    requires BlockSince(t, g, b, n, block)
    ensures PointsOk(t, points, prefix, blocks + [block], last, g.data, n, g.floor, clean')
  {
    hide PointOk, ResumeOk, BlockSince;
    forall i | 0 <= i < |points|
      ensures && PointOk(t, points[i], blocks + [block], g.data, n)
              && (clean' ==> ResumeOk(t, points[i], prefix, blocks + [block]))
              && points[i].cut <= |blocks|
    {
      CutIs(t, points[i], blocks, g.data, b);
      PointMore(t, points[i], blocks, block, g, b, n);
      if clean' {
        ResumeMore(t, points[i], prefix, blocks, [block]);
      }
    }
  }

  lemma CutIs(t: Tables, p: Point, blocks: seq<Block>, data: seq<Byte>, b: int)
    requires PointOk(t, p, blocks, data, b)
    ensures p.cut <= |blocks|
  {
  }

  /** More input changes nothing of what was sent. */
  lemma PointsData(t: Tables, points: seq<Point>, prefix: seq<bool>, blocks: seq<Block>, last: bool, data: seq<Byte>,
                   more: seq<Byte>, b: int, floor: nat, clean: bool)
    requires PointsOk(t, points, prefix, blocks, last, data, b, floor, clean)
    ensures PointsOk(t, points, prefix, blocks, last, data + more, b, floor, clean)
  {
    hide ResumeOk, LengthsOk, DistsOk, BlocksOk, AfterAll;
    forall i | 0 <= i < |points|
      ensures PointOk(t, points[i], blocks, data + more, b)
    {
      assert PointOk(t, points[i], blocks, data, b);
      assert (data + more)[points[i].pos..b] == data[points[i].pos..b];
    }
  }

  /** An empty block is readable anywhere. */
  lemma EmptySince(t: Tables, g: Past, h: seq<Byte>, b: int, block: Block)
    requires LengthsOk(t) && DistsOk(t) && (block == StaticBlock([]) || block == StoredBlock([]))
    requires BlockOk(t, h, block)
    requires g.floor <= b <= |g.data|
    ensures BlockSince(t, g, b, b, block)
  {
    hide LengthsOk, DistsOk;
    assert g.data[g.floor..b] + [] == g.data[g.floor..b];
  }

  /** A new point: all input has been sent. */
  lemma NewPoint(t: Tables, points: seq<Point>, prefix: seq<bool>, blocks: seq<Block>, data: seq<Byte>, floor: nat,
                 clean: bool, resume: nat)
    requires PointsOk(t, points, prefix, blocks, false, data, |data|, floor, clean) && floor <= |data|
    requires LengthsOk(t) && DistsOk(t) && BlocksOk(t, [], blocks)
    requires clean ==> |OutBits(t, prefix, blocks, false)| == 8 * resume
    ensures PointsOk(t, points + [Point(|data|, |blocks|, resume)], prefix, blocks, false, data, |data|, |data|, clean)
  {
    hide LengthsOk, DistsOk, BlocksOk, AfterAll, BlocksBits;
    var p := Point(|data|, |blocks|, resume);
    assert blocks[..p.cut] == blocks && blocks[p.cut..] == [] && data[p.pos..|data|] == [];
    NothingYet(t);
    assert PointOk(t, p, blocks, data, |data|);
    var all := points + [p];
    forall i | 0 <= i < |all|
      ensures PointOk(t, all[i], blocks, data, |data|) && (clean ==> ResumeOk(t, all[i], prefix, blocks))
    {
      if i < |points| {
        assert all[i] == points[i];
      }
    }
  }

  lemma NothingYet(t: Tables)
    requires LengthsOk(t) && DistsOk(t)
    ensures BlocksOk(t, [], []) && AfterAll([], []) == []
  {
    hide LengthsOk, DistsOk;
  }

  // ---------------------------------------------------------------------- the bits

  /** The bits of blocks depend neither on the history nor on whole bytes sent before. */
  lemma {:induction false} BitsAnywhere(t: Tables, k: nat, pos: nat, finish: bool, h: seq<Byte>, h': seq<Byte>,
                                        bs: seq<Block>)
    requires LengthsOk(t) && DistsOk(t) && BlocksOk(t, h, bs) && BlocksOk(t, h', bs)
    ensures BlocksBits(t, 8 * k + pos, finish, h, bs) == BlocksBits(t, pos, finish, h', bs)
    decreases |bs|
  {
    hide LengthsOk, DistsOk, BlockOk, After, BitsOf;
    if bs == [] {
    } else {
      var last := finish && |bs| == 1;
      BlockAnywhere(t, k, pos, last, h, h', bs[0]);
      var n := |BitsOf(t, pos, last, h', bs[0])|;
      BitsAnywhere(t, k, pos + n, finish, After(h, bs[0]), After(h', bs[0]), bs[1..]);
    }
  }

  lemma BlockAnywhere(t: Tables, k: nat, pos: nat, last: bool, h: seq<Byte>, h': seq<Byte>, b: Block)
    requires LengthsOk(t) && DistsOk(t) && BlockOk(t, h, b) && BlockOk(t, h', b)
    ensures BitsOf(t, 8 * k + pos, last, h, b) == BitsOf(t, pos, last, h', b)
  {
    hide LengthsOk, DistsOk, Padding, ToBits, BytesToBits;
    SamePadding(pos + 3, k);
  }

  /** The bits of blocks, and of those behind them. */
  lemma {:induction false} BitsSplit(t: Tables, pos: nat, finish: bool, h: seq<Byte>, bs: seq<Block>, cut: nat)
    requires LengthsOk(t) && DistsOk(t) && BlocksOk(t, h, bs) && cut < |bs|
    ensures BlocksOk(t, h, bs[..cut]) && BlocksOk(t, AfterAll(h, bs[..cut]), bs[cut..])
    ensures AfterAll(h, bs) == AfterAll(AfterAll(h, bs[..cut]), bs[cut..])
    ensures var front := BlocksBits(t, pos, false, h, bs[..cut]);
            BlocksBits(t, pos, finish, h, bs)
            == front + BlocksBits(t, pos + |front|, finish, AfterAll(h, bs[..cut]), bs[cut..])
    decreases cut
  {
    hide LengthsOk, DistsOk, BlockOk, After, BitsOf;
    if cut == 0 {
      assert bs[..0] == [] && bs[0..] == bs;
    } else {
      var first := BitsOf(t, pos, false, h, bs[0]);
      BitsSplit(t, pos + |first|, finish, After(h, bs[0]), bs[1..], cut - 1);
      assert bs[..cut][1..] == bs[1..][..cut - 1] && bs[1..][cut - 1..] == bs[cut..] && bs[..cut][0] == bs[0];
      var rest := BlocksBits(t, pos + |first|, false, After(h, bs[0]), bs[1..][..cut - 1]);
      Grouped(first, rest,
              BlocksBits(t, pos + |first| + |rest|, finish, AfterAll(After(h, bs[0]), bs[1..][..cut - 1]), bs[cut..]));
    }
  }

  // ------------------------------------------------------------------- what is left

  /** The last bytes of some as bits. */
  lemma BytesFrom(bytes: seq<Byte>, n: nat)
    requires n <= |bytes|
    ensures |BytesToBits(bytes[..n])| == 8 * n && |BytesToBits(bytes)| == 8 * |bytes|
    ensures BytesToBits(bytes[n..]) == BytesToBits(bytes)[8 * n..]
  {
    hide BytesToBits;
    BytesToBitsAppend(bytes[..n], bytes[n..]);
    assert bytes[..n] + bytes[n..] == bytes;
  }

  /** The output since the flush is a raw stream of the blocks since then, and behind it the check
      value, if there is one. */
  ghost predicate RestOk(t: Tables, wrap: bool, p: Point, bs: seq<Block>, data: seq<Byte>, output: seq<Byte>) {
    && LengthsOk(t) && DistsOk(t) && p.cut < |bs| && p.pos <= |data| && p.resume <= |output|
    && BlocksOk(t, [], bs[p.cut..]) && AfterAll([], bs[p.cut..]) == data[p.pos..]
    && BytesToBits(output[p.resume..])
         == StreamBits(t, false, M.WBITS, 0, bs[p.cut..]) + if wrap then TrailerBits(Check(data)) else []
  }

  ghost function HeadBits(wrap: bool, wBits: nat, flags: nat): seq<bool>
    requires 8 <= wBits <= M.WBITS && flags < 4
  {
    if wrap then MsbBits(ZlibHeader(wBits, flags)) else []
  }

  /** A stream cut where a byte ends. */
  lemma CutStream(t: Tables, wrap: bool, wBits: nat, flags: nat, bs: seq<Block>, head: seq<bool>, p: Point,
                  data: seq<Byte>, output: seq<Byte>)
    requires LengthsOk(t) && DistsOk(t) && BlocksOk(t, [], bs) && 8 <= wBits <= M.WBITS && flags < 4 && p.cut < |bs|
    requires head == HeadBits(wrap, wBits, flags)
    requires PointOk(t, p, bs, data, |data|) && ResumeOk(t, p, head, bs) && AfterAll([], bs) == data
    requires BytesToBits(output) == StreamBits(t, wrap, wBits, flags, bs)
    ensures RestOk(t, wrap, p, bs, data, output)
  {
    hide LengthsOk, DistsOk, BlocksOk, AfterAll, BlocksBits, BytesToBits, MsbBits, ZlibHeader, TrailerBits, Check,
         Padding;
    var tail := if wrap then TrailerBits(Check(data)) else [];
    var front := BlocksBits(t, |head|, false, [], bs[..p.cut]);
    var back := BlocksBits(t, 0, true, [], bs[p.cut..]);
    CutBlocks(t, |head|, bs, p.cut, p.resume);
    SamePadding(|back|, p.resume);
    assert |head| + |front + back| == 8 * p.resume + |back|;
    CutBits(head, front, back, Padding(|back|), tail, p.resume, output);
    RawBits(t, bs[p.cut..]);
    assert data[p.pos..] == data[p.pos..|data|];
  }

  lemma RawBits(t: Tables, bs: seq<Block>)
    requires LengthsOk(t) && DistsOk(t) && BlocksOk(t, [], bs)
    ensures var back := BlocksBits(t, 0, true, [], bs); StreamBits(t, false, M.WBITS, 0, bs) == back + Padding(|back|)
  {
    hide LengthsOk, DistsOk, BlocksOk, BlocksBits, Padding;
    var back := BlocksBits(t, 0, true, [], bs);
    assert [] + back == back && back + Padding(|back|) + [] == back + Padding(|back|);
  }

  lemma CutBlocks(t: Tables, pos: nat, bs: seq<Block>, cut: nat, n: nat)
    requires LengthsOk(t) && DistsOk(t) && BlocksOk(t, [], bs) && cut < |bs|
    requires BlocksOk(t, [], bs[cut..]) && BlocksOk(t, [], bs[..cut])
    requires pos + |BlocksBits(t, pos, false, [], bs[..cut])| == 8 * n
    ensures BlocksBits(t, pos, true, [], bs)
            == BlocksBits(t, pos, false, [], bs[..cut]) + BlocksBits(t, 0, true, [], bs[cut..])
  {
    hide LengthsOk, DistsOk, BlocksOk, BlocksBits, AfterAll;
    BitsSplit(t, pos, true, [], bs, cut);
    BitsAnywhere(t, n, 0, true, AfterAll([], bs[..cut]), [], bs[cut..]);
  }

  lemma CutBits(head: seq<bool>, front: seq<bool>, back: seq<bool>, pad: seq<bool>, tail: seq<bool>, n: nat,
                output: seq<Byte>)
    requires BytesToBits(output) == head + (front + back) + pad + tail && |head| + |front| == 8 * n
    ensures n <= |output| && BytesToBits(output[n..]) == back + pad + tail
  {
    hide BytesToBits;
    BytesFrom(output, 0);
    BytesFrom(output, n);
    Grouped(head, front, back);
    var x := head + front;
    assert x + back + pad + tail == x + (back + pad + tail);
  }

  // ------------------------------------------------------------------- partial flush

  /** The end of a block with the fixed codes. */
  lemma EmptyIs(t: Tables, pos: nat, h: seq<Byte>)
    requires LengthsOk(t) && DistsOk(t) && BlockOk(t, h, StaticBlock([]))
    ensures T.END_BLOCK < 288 && M.FixedLens()[T.END_BLOCK] == 7
    ensures BitsOf(t, pos, false, h, StaticBlock([]))
            == TypeBits(STATIC_TREES, false) + T.SymBits(M.FixedLens(), T.END_BLOCK)
    ensures |TypeBits(STATIC_TREES, false)| == 3
  {
    hide LengthsOk, DistsOk, ToBits;
    var e := T.SymBits(M.FixedLens(), T.END_BLOCK);
    assert [] + e == e;
  }

  /** The output is the blocks and k bits of the empty one behind them. */
  ghost predicate HeldOk(t: Tables, head: seq<bool>, bs: seq<Block>, data: seq<Byte>, output: seq<Byte>, k: nat) {
    && LengthsOk(t) && DistsOk(t) && BlocksOk(t, [], bs) && AfterAll([], bs) == data && 3 <= k <= 10
    && BlockOk(t, data, StaticBlock([]))
    && var front := BlocksBits(t, |head|, false, [], bs);
       var e := BitsOf(t, |head| + |front|, false, data, StaticBlock([]));
       |e| == 10 && BytesToBits(output) == head + front + e[..k]
  }

  lemma HeldIs(t: Tables, head: seq<bool>, bs: seq<Block>, data: seq<Byte>, output: seq<Byte>, held: seq<bool>, k: nat)
    requires LengthsOk(t) && DistsOk(t) && BlocksOk(t, [], bs + [StaticBlock([])]) && k + |held| == 10 && 3 <= k
    requires AfterAll([], bs + [StaticBlock([])]) == data
    requires BytesToBits(output) + held == OutBits(t, head, bs + [StaticBlock([])], false)
    ensures HeldOk(t, head, bs, data, output, k)
  {
    hide LengthsOk, DistsOk, BlocksOk, AfterAll, BlocksBits, BlockOk, BitsOf, BytesToBits, TypeBits, T.SymBits;
    LastBlock(t, |head|, bs);
    var front := BlocksBits(t, |head|, false, [], bs);
    EmptyIs(t, |head| + |front|, data);
    var e := BitsOf(t, |head| + |front|, false, data, StaticBlock([]));
    CutBack(BytesToBits(output), held, head, front, e, k);
  }

  lemma CutBack(out: seq<bool>, held: seq<bool>, head: seq<bool>, front: seq<bool>, e: seq<bool>, k: nat)
    requires out + held == head + (front + e) + [] && k + |held| == |e|
    ensures out == head + front + e[..k]
  {
    assert out == (out + held)[..|out|];
    assert head + (front + e) + [] == head + front + e;
  }

  lemma LastBlock(t: Tables, pos: nat, bs: seq<Block>)
    requires LengthsOk(t) && DistsOk(t) && BlocksOk(t, [], bs + [StaticBlock([])])
    ensures BlocksOk(t, [], bs) && BlockOk(t, AfterAll([], bs), StaticBlock([]))
    ensures AfterAll([], bs + [StaticBlock([])]) == AfterAll([], bs)
    ensures var front := BlocksBits(t, pos, false, [], bs);
            BlocksBits(t, pos, false, [], bs + [StaticBlock([])])
            == front + BitsOf(t, pos + |front|, false, AfterAll([], bs), StaticBlock([]))
  {
    hide LengthsOk, DistsOk, BlockOk, BitsOf, BlocksBits;
    var b := StaticBlock([]);
    BitsSplit(t, pos, false, [], bs + [b], |bs|);
    assert (bs + [b])[..|bs|] == bs && (bs + [b])[|bs|..] == [b];
    assert [b][1..] == [];
    assert BlockOk(t, AfterAll([], bs), b);
    BlocksAppend(t, pos, false, [], bs, b);
    assert T.Expand(AfterAll([], bs), []) == AfterAll([], bs);
  }
}
