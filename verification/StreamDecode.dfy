/** What the decoder makes of a whole stream: blocks of every kind, the zlib header
    and the check value. */
module StreamDecode {
  import opened Bits
  import opened Canonical
  import opened InflateTable
  import opened InflateMachine
  import opened TreeTables
  import opened Tokens
  import opened CodeLengths
  import opened BlockDecode
  import opened HeaderDecode
  import opened BitWriter
  import AdlerSpec

  const STORED_BLOCK: nat := 0
  const STATIC_TREES: nat := 1
  const DYN_TREES: nat := 2

  /** A block as the encoder sends it. */
  datatype Block =
    | StoredBlock(data: seq<Byte>)
    | StaticBlock(tokens: seq<Token>)
    | DynBlock(codes: Codes, tokens: seq<Token>)

  /** The block may follow the history h. */
  ghost predicate BlockOk(t: Tables, h: seq<Byte>, b: Block)
    requires LengthsOk(t) && DistsOk(t)
  {
    match b
    case StoredBlock(data) => |data| < 65536
    case StaticBlock(ts) => Within(h, ts) && AllEncodable(t, FixedLens(), FixedDists(), ts)
    case DynBlock(c, ts) => CodesOk(c) && Within(h, ts) && AllEncodable(t, c.llens, c.dlens, ts)
  }

  /** The history after the block. */
  function After(h: seq<Byte>, b: Block): (r: seq<Byte>) {
    match b
    case StoredBlock(data) => h + data
    case StaticBlock(ts) => Expand(h, ts)
    case DynBlock(_, ts) => Expand(h, ts)
  }

  /** The 3 bits in front of a block. */
  function TypeBits(sel: nat, last: bool): seq<bool> {
    ToBits(2 * sel + (if last then 1 else 0), 3)
  }

  /** The block's bits when pos bits have been sent before. */
  ghost function BitsOf(t: Tables, pos: nat, last: bool, h: seq<Byte>, b: Block): seq<bool>
    requires LengthsOk(t) && DistsOk(t) && BlockOk(t, h, b)
  {
    match b
    case StoredBlock(data) =>
      TypeBits(STORED_BLOCK, last) + Padding(pos + 3) + ToBits(|data|, 16) + ToBits(65535 - |data|, 16)
        + BytesToBits(data)
    case StaticBlock(ts) => TypeBits(STATIC_TREES, last) + BlockBits(t, FixedLens(), FixedDists(), ts)
    case DynBlock(c, ts) => TypeBits(DYN_TREES, last) + TreesBits(c) + BlockBits(t, c.llens, c.dlens, ts)
  }

  /** The machine between two blocks. */
  predicate Between(s: State) {
    s.mode == TYPE && s.length == 0 && s.offset == 0 && s.extra == 0 && |s.lens| == LENS_SIZE
  }

  lemma TypeRun(s: State, sel: nat, last: bool, more: seq<bool>)
    requires s.mode == TYPE && !s.last && sel < 4 && s.unread == TypeBits(sel, last) + more
    ensures Step(s) == Some(NewBlock(s.(unread := more), last, BlockMode(sel)))
  {
    hide Step, ToBits, Pow2, NewBlock, BlockMode, Peek, Drop;
    Pow2Values();
    ExtraRead(s, 2 * sel + (if last then 1 else 0), 3, more);
    TypeAt(s);
  }

  // ---------------------------------------------------------------- stored blocks

  /** The bytes of a stored block. */
  lemma {:induction false} BytesRun(s: State, data: seq<Byte>, more: seq<bool>)
    requires s.mode == COPY && s.length == |data| && s.unread == BytesToBits(data) + more
    ensures Reachable(s, s.(mode := TYPE, length := 0, unread := more, out := s.out + data))
    decreases |data|
  {
    hide Step, Reachable, ToBits, Pow2;
    CopyAt(s);
    if data == [] {
      assert s.unread == more && s.out + data == s.out;
      ReachableStep(s);
    } else {
      var rest := BytesToBits(data[1..]) + more;
      assert s.unread == ToBits(data[0], 8) + rest;
      Pow2Values();
      ExtraRead(s, data[0], 8, rest);
      ReachableStep(s);
      var u := s.(unread := rest, out := s.out + [data[0]], length := |data| - 1);
      BytesRun(u, data[1..], more);
      assert s.out + [data[0]] + data[1..] == s.out + data;
      ReachableJoin(s, u, s.(mode := TYPE, length := 0, unread := more, out := s.out + data));
    }
  }

  lemma AlignRun(s: State, pad: seq<bool>, more: seq<bool>)
    requires s.mode == STORED && |pad| < 8 && s.unread == pad + more && |more| % 8 == 0
    ensures Reachable(s, s.(unread := more))
  {
    hide Step, Reachable;
    assert |s.unread| % 8 == |pad|;
    if |pad| == 0 {
      assert s.unread == more;
      ReachableSelf(s);
    } else {
      StoredAt(s);
      DropFront(s, pad, more);
      ReachableStep(s);
    }
  }

  /** Length and complement as one number of 32 bits. */
  lemma LengthsRead(n: nat)
    requires n < 65536
    ensures var b := ToBits(n, 16) + ToBits(65535 - n, 16);
            |b| == 32 && FromBits(b) % 65536 == n && FromBits(b) / 65536 == 65535 - n
  {
    hide ToBits, FromBits, Pow2, Low, Shl;
    var x, y := ToBits(n, 16), ToBits(65535 - n, 16);
    FromBitsAppend(x, y);
    Pow2Values();
    FromToBits(n, 16);
    FromToBits(65535 - n, 16);
    LowSmall(n, 16);
    LowSmall(65535 - n, 16);
    ShlIsMul(65535 - n, 16);
  }

  lemma StoredHeader(s: State, n: nat, more: seq<bool>)
    requires s.mode == STORED && n < 65536 && s.unread == ToBits(n, 16) + ToBits(65535 - n, 16) + more
             && |more| % 8 == 0
    ensures Step(s) == Some(s.(mode := COPY, length := n, unread := more))
  {
    hide Step, ToBits, FromBits, Peek, Drop;
    LengthsRead(n);
    DropFront(s, ToBits(n, 16) + ToBits(65535 - n, 16), more);
    assert |s.unread| % 8 == 0;
    StoredAt(s);
  }

  lemma StoredRun(s: State, last: bool, pad: seq<bool>, data: seq<Byte>, more: seq<bool>)
    requires Between(s) && !s.last && |data| < 65536 && |pad| < 8 && |more| % 8 == 0
    requires s.unread == TypeBits(STORED_BLOCK, last) + pad + ToBits(|data|, 16) + ToBits(65535 - |data|, 16)
                       + BytesToBits(data) + more
    ensures Reachable(s, s.(last := last, unread := more, out := s.out + data))
  {
    hide Step, Reachable, ToBits, BytesToBits, TypeBits;
    var bytes := BytesToBits(data) + more;
    var lengths := ToBits(|data|, 16) + ToBits(65535 - |data|, 16) + bytes;
    assert s.unread == TypeBits(STORED_BLOCK, last) + (pad + lengths);
    TypeRun(s, STORED_BLOCK, last, pad + lengths);
    ReachableStep(s);
    var a := s.(last := last, mode := STORED, unread := pad + lengths);
    var b := a.(unread := lengths);
    Multiple8(data, more);
    AlignRun(a, pad, lengths);
    ReachableJoin(s, a, b);
    StoredHeader(b, |data|, bytes);
    ReachableStep(b);
    var c := b.(mode := COPY, length := |data|, unread := bytes);
    ReachableJoin(s, b, c);
    BytesRun(c, data, more);
    ReachableJoin(s, c, s.(last := last, unread := more, out := s.out + data));
  }

  lemma Multiple8(data: seq<Byte>, more: seq<bool>)
    requires |more| % 8 == 0
    ensures |BytesToBits(data) + more| % 8 == 0
    ensures |data| < 65536 ==> |ToBits(|data|, 16) + ToBits(65535 - |data|, 16) + (BytesToBits(data) + more)| % 8 == 0
  {
    hide ToBits, BytesToBits;
    MoreBytes(|BytesToBits(data)|, |data|, |more|);
  }

  lemma MoreBytes(bits: nat, bytes: nat, more: nat)
    requires bits == 8 * bytes && more % 8 == 0
    ensures (bits + more) % 8 == 0 && (32 + (bits + more)) % 8 == 0
  {
  }

  // ------------------------------------------------------------------- any block

  lemma StaticRun(s: State, t: Tables, last: bool, ts: seq<Token>, more: seq<bool>) returns (u: State)
    requires Between(s) && !s.last && LengthsOk(t) && DistsOk(t) && BlockOk(t, s.out, StaticBlock(ts))
    requires s.unread == TypeBits(STATIC_TREES, last) + BlockBits(t, FixedLens(), FixedDists(), ts) + more
    ensures Reachable(s, u) && Between(u) && u.last == last && u.wrap == s.wrap
    ensures u.unread == more && u.out == Expand(s.out, ts)
  {
    hide Step, Reachable, CodeOk, TypeBits, BlockBits, FixedLens, FixedDists, LengthsOk, DistsOk, AllEncodable, Within,
         Expand;
    var block := BlockBits(t, FixedLens(), FixedDists(), ts) + more;
    assert s.unread == TypeBits(STATIC_TREES, last) + block;
    TypeRun(s, STATIC_TREES, last, block);
    ReachableStep(s);
    var a := Step(s).value;
    FixedOk();
    BlockRun(a, t, ts, more);
    u := a.(mode := TYPE, unread := more, out := Expand(s.out, ts));
    ReachableJoin(s, a, u);
  }

  lemma DynRun(s: State, t: Tables, last: bool, c: Codes, ts: seq<Token>, more: seq<bool>) returns (u: State)
    requires Between(s) && !s.last && LengthsOk(t) && DistsOk(t) && BlockOk(t, s.out, DynBlock(c, ts))
    requires s.unread == TypeBits(DYN_TREES, last) + TreesBits(c) + BlockBits(t, c.llens, c.dlens, ts) + more
    ensures Reachable(s, u) && Between(u) && u.last == last && u.wrap == s.wrap
    ensures u.unread == more && u.out == Expand(s.out, ts)
  {
    hide Step, Reachable, CodeOk, TypeBits, BlockBits, TreesBits, LengthsOk, DistsOk, AllEncodable, Within, Expand,
         TreeItems, AllCodable, FixedLens, FixedDists;
    var block := BlockBits(t, c.llens, c.dlens, ts) + more;
    assert s.unread == TypeBits(DYN_TREES, last) + (TreesBits(c) + block);
    TypeRun(s, DYN_TREES, last, TreesBits(c) + block);
    ReachableStep(s);
    var a := Step(s).value;
    var b := TreesRun(a, c, block);
    ReachableJoin(s, a, b);
    BlockRun(b, t, ts, more);
    u := b.(mode := TYPE, unread := more, out := Expand(s.out, ts));
    ReachableJoin(s, b, u);
  }

  /** A block of any kind is decoded to what it stands for, and nothing beyond it
      is read. */
  lemma AnyBlockRun(s: State, t: Tables, pos: nat, last: bool, b: Block, more: seq<bool>) returns (u: State)
    requires Between(s) && !s.last && LengthsOk(t) && DistsOk(t) && BlockOk(t, s.out, b)
    requires s.unread == BitsOf(t, pos, last, s.out, b) + more
    requires b.StoredBlock? ==> |more| % 8 == 0
    ensures Reachable(s, u) && Between(u) && u.last == last && u.wrap == s.wrap
    ensures u.unread == more && u.out == After(s.out, b)
  {
    hide Reachable, CodesOk, TypeBits, BlockBits, TreesBits, LengthsOk, DistsOk, AllEncodable, Within, Expand,
         FixedLens, FixedDists, BytesToBits, ToBits;
    match b {
      case StoredBlock(data) =>
        StoredRun(s, last, Padding(pos + 3), data, more);
        u := s.(last := last, unread := more, out := s.out + data);
      case StaticBlock(ts) => u := StaticRun(s, t, last, ts, more);
      case DynBlock(c, ts) => u := DynRun(s, t, last, c, ts, more);
    }
  }

  // ------------------------------------------------------------------ all blocks

  ghost predicate BlocksOk(t: Tables, h: seq<Byte>, bs: seq<Block>)
    requires LengthsOk(t) && DistsOk(t)
    decreases |bs|
  {
    bs == [] || (BlockOk(t, h, bs[0]) && BlocksOk(t, After(h, bs[0]), bs[1..]))
  }

  function AfterAll(h: seq<Byte>, bs: seq<Block>): (r: seq<Byte>)
    decreases |bs|
  {
    if bs == [] then h else AfterAll(After(h, bs[0]), bs[1..])
  }

  /** The bits of all blocks; finish marks the last of them as the stream's last. */
  ghost function BlocksBits(t: Tables, pos: nat, finish: bool, h: seq<Byte>, bs: seq<Block>): seq<bool>
    requires LengthsOk(t) && DistsOk(t) && BlocksOk(t, h, bs)
    decreases |bs|
  {
    if bs == [] then []
    else
      var front := BitsOf(t, pos, finish && |bs| == 1, h, bs[0]);
      front + BlocksBits(t, pos + |front|, finish, After(h, bs[0]), bs[1..])
  }

  /** A further block behind others, none of them the last. */
  lemma {:induction false} BlocksAppend(t: Tables, pos: nat, last: bool, h: seq<Byte>, bs: seq<Block>, b: Block)
    requires LengthsOk(t) && DistsOk(t) && BlocksOk(t, h, bs) && BlockOk(t, AfterAll(h, bs), b)
    ensures BlocksOk(t, h, bs + [b]) && AfterAll(h, bs + [b]) == After(AfterAll(h, bs), b)
    ensures BlocksBits(t, pos, last, h, bs + [b])
         == BlocksBits(t, pos, false, h, bs)
           + BitsOf(t, pos + |BlocksBits(t, pos, false, h, bs)|, last, AfterAll(h, bs), b)
    decreases |bs|
  {
    hide BlockOk, BitsOf, After, LengthsOk, DistsOk;
    if bs == [] {
      assert bs + [b] == [b] && [b][1..] == [];
    } else {
      var front := BitsOf(t, pos, false, h, bs[0]);
      assert (bs + [b])[0] == bs[0] && (bs + [b])[1..] == bs[1..] + [b];
      BlocksAppend(t, pos + |front|, last, After(h, bs[0]), bs[1..], b);
    }
  }

  /** A stored block ends on a byte boundary. */
  lemma StoredAligned(t: Tables, pos: nat, last: bool, h: seq<Byte>, b: Block)
    requires LengthsOk(t) && DistsOk(t) && BlockOk(t, h, b) && b.StoredBlock?
    ensures (pos + |BitsOf(t, pos, last, h, b)|) % 8 == 0
  {
    hide Padding, BytesToBits, ToBits;
    var n := pos + 3 + |Padding(pos + 3)|;
    assert n % 8 == 0;
    assert pos + |BitsOf(t, pos, last, h, b)| == n + 32 + 8 * |b.data|;
    Add8(n, 4 + |b.data|);
  }

  lemma Add8(n: nat, k: nat)
    ensures (n + 8 * k) % 8 == n % 8
  {
  }

  lemma Rest8(a: nat, b: nat, c: nat)
    requires (a + b + c) % 8 == 0 && (a + b) % 8 == 0
    ensures c % 8 == 0
  {
  }

  lemma {:induction false} BlocksRun(s: State, t: Tables, pos: nat, finish: bool, bs: seq<Block>, more: seq<bool>)
    returns (u: State)
    requires Between(s) && !s.last && LengthsOk(t) && DistsOk(t) && BlocksOk(t, s.out, bs)
    requires s.unread == BlocksBits(t, pos, finish, s.out, bs) + more && (pos + |s.unread|) % 8 == 0
    ensures Reachable(s, u) && Between(u) && u.wrap == s.wrap && u.last == (finish && bs != [])
    ensures u.unread == more && u.out == AfterAll(s.out, bs)
    decreases |bs|
  {
    hide Reachable, LengthsOk, DistsOk, BlockOk, BitsOf, After;
    if bs == [] {
      u := s;
      assert s.unread == more;
      ReachableSelf(s);
    } else {
      var last := finish && |bs| == 1;
      var front := BitsOf(t, pos, last, s.out, bs[0]);
      var rest := BlocksBits(t, pos + |front|, finish, After(s.out, bs[0]), bs[1..]) + more;
      assert s.unread == front + rest;
      if bs[0].StoredBlock? {
        StoredAligned(t, pos, last, s.out, bs[0]);
        Rest8(pos, |front|, |rest|);
      }
      var a := AnyBlockRun(s, t, pos, last, bs[0], rest);
      if |bs| == 1 {
        assert bs[1..] == [] && rest == more;
        u := a;
      } else {
        u := BlocksRun(a, t, pos + |front|, finish, bs[1..], more);
        ReachableJoin(s, a, u);
      }
    }
  }

  // -------------------------------------------------------------- header and check

  /** deflate: the two header bytes, as a number with the first byte on top. */
  function ZlibHeader(wBits: nat, levelFlags: nat): (r: nat)
    requires 8 <= wBits <= WBITS && levelFlags < 4
    ensures r % 31 == 0 && r < 65536 && r / 256 == 8 + 16 * (wBits - 8) && r / 32 % 2 == 0
  {
    var header := (Z_DEFLATED + (wBits - 8) * 16) * 256 + levelFlags * 64;
    HeaderCheck(header);
    HeaderHigh(Z_DEFLATED + (wBits - 8) * 16, levelFlags, 31 - header % 31);
    HeaderFlag(Z_DEFLATED + (wBits - 8) * 16, levelFlags, 31 - header % 31);
    header + (31 - header % 31)
  }

  lemma HeaderCheck(header: nat)
    ensures (header + (31 - header % 31)) % 31 == 0
  {
    DivModUnique(header + (31 - header % 31), 31, header / 31 + 1, 0);
  }

  lemma HeaderHigh(high: nat, levelFlags: nat, check: nat)
    requires levelFlags < 4 && check < 32
    ensures (high * 256 + levelFlags * 64 + check) / 256 == high
  {
    DivModUnique(high * 256 + levelFlags * 64 + check, 256, high, levelFlags * 64 + check);
  }

  lemma HeaderFlag(high: nat, levelFlags: nat, check: nat)
    requires check < 32
    ensures (high * 256 + levelFlags * 64 + check) / 32 % 2 == 0
  {
    DivModUnique(high * 256 + levelFlags * 64 + check, 32, 8 * high + 2 * levelFlags, check);
    DivModUnique(8 * high + 2 * levelFlags, 2, 4 * high + levelFlags, 0);
  }

  /** putShortMSB: the high byte first. */
  function MsbBits(w: nat): seq<bool>
    requires w < 65536
  {
    ToBits(w / 256, 8) + ToBits(w % 256, 8)
  }

  lemma MsbRead(w: nat)
    requires w < 65536
    ensures |MsbBits(w)| == 16 && FromBits(MsbBits(w)) == w / 256 + 256 * (w % 256)
  {
    hide ToBits, FromBits, Pow2, Low, Shl;
    var a, b := w / 256, w % 256;
    FromBitsAppend(ToBits(a, 8), ToBits(b, 8));
    FromToBits(a, 8);
    FromToBits(b, 8);
    Pow2Values();
    LowSmall(a, 8);
    LowSmall(b, 8);
    ShlIsMul(b, 8);
  }

  lemma HeadRun(s: State, wBits: nat, levelFlags: nat, more: seq<bool>)
    requires 8 <= wBits <= WBITS && levelFlags < 4
    requires s.mode == HEAD && s.wrap && s.unread == MsbBits(ZlibHeader(wBits, levelFlags)) + more
    ensures Reachable(s, s.(mode := TYPE, unread := more))
  {
    hide Step, Reachable, MsbBits, Peek, Drop, FromBits, HeaderBad, ZlibHeader;
    var w := ZlibHeader(wBits, levelFlags);
    MsbRead(w);
    DropFront(s, MsbBits(w), more);
    HeaderFine(w, w / 256 + 256 * (w % 256), wBits);
    HeadAt(s);
    ReachableStep(s);
  }

  lemma HeaderFine(w: nat, h: nat, wBits: nat)
    requires 8 <= wBits <= WBITS && h == w / 256 + 256 * (w % 256)
    requires w % 31 == 0 && w < 65536 && w / 256 == 8 + 16 * (wBits - 8) && w / 32 % 2 == 0
    ensures !HeaderBad(h) && h / 16 % 16 + 8 <= WBITS && h / 8192 % 2 == 0
  {
    var k, low := wBits - 8, w % 256;
    LowDigit(w / 256, low);
    DivModUnique(h, 16, k + 16 * low, 8);
    DivModUnique(k + 16 * low, 16, low, k);
    assert w == h % 256 * 256 + h / 256;
    DictBit(w / 256, low);
  }

  /** The dictionary flag is the same bit of the second byte. */
  lemma DictBit(high: nat, low: nat)
    requires low < 256 && high < 256
    ensures (high + 256 * low) / 8192 % 2 == (256 * high + low) / 32 % 2
  {
    DictBitAt(high, low / 32, low % 32);
    ParityShift(high, low / 32);
  }

  lemma DictBitAt(high: nat, flag: nat, check: nat)
    requires high < 256 && check < 32
    ensures (high + 256 * (32 * flag + check)) / 8192 == flag
    ensures (256 * high + (32 * flag + check)) / 32 == 8 * high + flag
  {
    DivModUnique(high + 256 * (32 * flag + check), 8192, flag, high + 256 * check);
    DivModUnique(256 * high + (32 * flag + check), 32, 8 * high + flag, check);
  }

  lemma ParityShift(high: nat, flag: nat)
    ensures (8 * high + flag) % 2 == flag % 2
  {
    DivModUnique(8 * high + flag, 2, 4 * high + flag / 2, flag % 2);
  }

  /** The check value, high word and high byte first. */
  function TrailerBits(adler: nat): seq<bool>
    requires adler < 0x1_0000_0000
  {
    MsbBits(adler / 65536) + MsbBits(adler % 65536)
  }

  lemma TrailerRead(adler: nat)
    requires adler < 0x1_0000_0000
    ensures |TrailerBits(adler)| == 32 && Reverse4(FromBits(TrailerBits(adler))) == adler
  {
    hide MsbBits, FromBits, Shl, Pow2, Reverse4;
    var a, b := adler / 65536, adler % 65536;
    MsbRead(a);
    MsbRead(b);
    FromBitsAppend(MsbBits(a), MsbBits(b));
    ShlIsMul(FromBits(MsbBits(b)), 16);
    Pow2Values();
    SwapBack(a / 256, a % 256, b / 256, b % 256);
  }

  lemma SwapBack(a: nat, b: nat, c: nat, d: nat)
    requires a < 256 && b < 256 && c < 256 && d < 256
    ensures Reverse4(a + 256 * b + 65536 * (c + 256 * d)) == 16777216 * a + 65536 * b + 256 * c + d
  {
    var r := b + 256 * (c + 256 * d);
    LowDigit(a, r);
    LowDigit(b, c + 256 * d);
    LowDigit(c, d);
    FarDigits(a + 256 * r);
  }

  lemma LowDigit(a: nat, r: nat)
    requires a < 256
    ensures (a + 256 * r) % 256 == a && (a + 256 * r) / 256 == r
  {
  }

  lemma FarDigits(h: nat)
    ensures h / 65536 == h / 256 / 256 && h / 16777216 == h / 256 / 256 / 256
  {
  }

  /** Checksums fit 32 bits. */
  lemma AdlerFits(data: seq<Byte>)
    ensures AdlerSpec.Packed(AdlerSpec.Feed(AdlerSpec.START, data)) < 0x1_0000_0000
  {
    assert AdlerSpec.Reduced(AdlerSpec.START);
  }

  function Check(data: seq<Byte>): (r: nat)
    ensures r < 0x1_0000_0000
  {
    AdlerFits(data);
    AdlerSpec.Packed(AdlerSpec.Feed(AdlerSpec.START, data))
  }

  /** After the last block: the padding and, in a zlib stream, the check value. */
  lemma EndOfStream(s: State, pad: seq<bool>, more: seq<bool>)
    requires Between(s) && s.last && |pad| < 8 && |more| % 8 == 0
    requires s.unread == pad + (if s.wrap then TrailerBits(Check(s.out)) else []) + more
    ensures Reachable(s, s.(mode := DONE, unread := more))
  {
    hide Step, Reachable, TrailerBits, Check, Peek, FromBits, Reverse4, AdlerSpec.Packed, AdlerSpec.Feed;
    var tail := if s.wrap then TrailerBits(Check(s.out)) else [];
    TrailerRead(Check(s.out));
    assert s.unread == pad + (tail + more);
    assert |s.unread| % 8 == |pad|;
    TypeAt(s);
    DropFront(s, pad, tail + more);
    var a := s.(mode := CHECK, unread := tail + more);
    ReachableStep(s);
    CheckAt(a);
    if s.wrap {
      DropFront(a, tail, more);
      CheckIs(s.out);
    } else {
      assert tail + more == more;
    }
    ReachableStep(a);
    ReachableJoin(s, a, s.(mode := DONE, unread := more));
  }

  lemma CheckIs(data: seq<Byte>)
    ensures Check(data) == AdlerSpec.Packed(AdlerSpec.Feed(AdlerSpec.START, data))
  {
  }

  /** A whole stream: header, blocks, padding and check value. */
  ghost function StreamBits(t: Tables, wrap: bool, wBits: nat, levelFlags: nat, bs: seq<Block>): seq<bool>
    requires LengthsOk(t) && DistsOk(t) && BlocksOk(t, [], bs) && 8 <= wBits <= WBITS && levelFlags < 4
  {
    var head := if wrap then MsbBits(ZlibHeader(wBits, levelFlags)) else [];
    var blocks := BlocksBits(t, |head|, true, [], bs);
    head + blocks + Padding(|head| + |blocks|) + if wrap then TrailerBits(Check(AfterAll([], bs))) else []
  }

  /** The decoder, given an encoded stream and whatever follows it, finishes with
      what the blocks stand for, and leaves what follows unread. */
  lemma StreamRun(t: Tables, wrap: bool, wBits: nat, levelFlags: nat, bs: seq<Block>, more: seq<bool>)
    returns (u: State)
    requires LengthsOk(t) && DistsOk(t) && BlocksOk(t, [], bs) && 8 <= wBits <= WBITS && levelFlags < 4 && bs != []
             && |more| % 8 == 0
    ensures Reachable(Plus(Initial(wrap), StreamBits(t, wrap, wBits, levelFlags, bs) + more), u)
    ensures u.mode == DONE && u.out == AfterAll([], bs) && u.unread == more
  {
    hide Reachable, LengthsOk, DistsOk, BlocksOk, BlocksBits, MsbBits, TrailerBits, ZlibHeader, Step, AfterAll, Check,
         Padding, StreamBits;
    StreamSplit(t, wrap, wBits, levelFlags, bs, more);
    var head := if wrap then MsbBits(ZlibHeader(wBits, levelFlags)) else [];
    var blocks := BlocksBits(t, |head|, true, [], bs);
    var pad := Padding(|head| + |blocks|);
    var tail := if wrap then TrailerBits(Check(AfterAll([], bs))) else [];
    var s := Plus(Initial(wrap), StreamBits(t, wrap, wBits, levelFlags, bs) + more);
    var rest := pad + tail + more;
    var a := s.(mode := TYPE, unread := blocks + rest);
    if wrap {
      MsbRead(ZlibHeader(wBits, levelFlags));
      TrailerRead(Check(AfterAll([], bs)));
      HeadRun(s, wBits, levelFlags, blocks + rest);
    } else {
      HeadAt(s);
      ReachableStep(s);
    }
    assert s.out == [];
    WholeBytes(|head|, |blocks|, |pad|, |tail|, |more|);
    var b := BlocksRun(a, t, |head|, true, bs, rest);
    ReachableJoin(s, a, b);
    EndOfStream(b, pad, more);
    u := b.(mode := DONE, unread := more);
    ReachableJoin(s, b, u);
  }

  lemma StreamSplit(t: Tables, wrap: bool, wBits: nat, levelFlags: nat, bs: seq<Block>, more: seq<bool>)
    requires LengthsOk(t) && DistsOk(t) && BlocksOk(t, [], bs) && 8 <= wBits <= WBITS && levelFlags < 4
    ensures var head := if wrap then MsbBits(ZlibHeader(wBits, levelFlags)) else [];
            var blocks := BlocksBits(t, |head|, true, [], bs);
            var tail := if wrap then TrailerBits(Check(AfterAll([], bs))) else [];
            var rest := Padding(|head| + |blocks|) + tail + more;
            && Plus(Initial(wrap), StreamBits(t, wrap, wBits, levelFlags, bs) + more).unread == head + (blocks + rest)
            && (!wrap ==> head + (blocks + rest) == blocks + rest)
  {
    hide LengthsOk, DistsOk, BlocksOk, BlocksBits, MsbBits, TrailerBits, ZlibHeader, AfterAll, Check, Padding;
  }

  lemma WholeBytes(head: nat, blocks: nat, pad: nat, tail: nat, more: nat)
    requires (head + blocks + pad) % 8 == 0 && more % 8 == 0 && (tail == 32 || tail == 0)
    ensures (head + (blocks + (pad + tail + more))) % 8 == 0
  {
  }
}
