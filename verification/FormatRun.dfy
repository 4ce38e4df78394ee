/** inflate.c: every stream of the format is read to its end, and nothing beyond it. */
module FormatRun {
  import opened Bits
  import opened Canonical
  import opened InflateTable
  import opened InflateMachine
  import opened InflateStream
  import opened CodeLengths
  import opened DeflateFormat
  import opened FormatRead
  import opened FormatHeader
  import opened FormatStream
  import opened BlockDecode
  import H = HeaderDecode
  import S = StreamDecode
  import T = Tokens

  // ------------------------------------------------------------------------- parts

  /** The state after a literal/length symbol. */
  lemma SymbolRun(s: State, sym: nat, more: seq<bool>)
    requires Ready(s) && Has(s.llens, sym) && s.unread == T.SymBits(s.llens, sym) + more
    ensures sym < 288 && Step(s) == Some(UseSymbol(s, sym, more))
  {
    hide Step, CodeOk, T.SymBits, SymOp, SymVal, UseLen;
    LenSymStep(s, sym, more);
    UsedIsNot(s.(unread := more), SymOp(LENS, sym), SymVal(LENS, sym), s.llens[sym]);
  }

  lemma LengthRead(s: State, l: Coded, more: seq<bool>)
    requires Ready(s) && 257 <= l.sym <= 285 && Has(s.llens, l.sym) && l.extra < Pow2(LengthBits(l.sym - 257))
    requires s.unread == T.SymBits(s.llens, l.sym) + (ToBits(l.extra, LengthBits(l.sym - 257)) + more)
    ensures Reachable(s, s.(mode := DIST, length := Length(l), unread := more))
  {
    hide Step, Reachable, CodeOk, T.SymBits, ToBits, LengthBase, LengthBits, Pow2, UseSymbol;
    var k := l.sym - 257;
    var rest := ToBits(l.extra, LengthBits(k)) + more;
    SymbolRun(s, l.sym, rest);
    SymbolKinds(s, l.sym, rest);
    var u := s.(mode := LENEXT, unread := rest, length := LengthBase(k), extra := LengthBits(k));
    assert u == UseSymbol(s, l.sym, rest);
    ReachableStep(s);
    LengthExtra(u, l, more);
    ReachableStep(u);
    ReachableJoin(s, u, s.(mode := DIST, length := Length(l), unread := more));
  }

  lemma LengthExtra(u: State, l: Coded, more: seq<bool>)
    requires 257 <= l.sym && l.extra < Pow2(LengthBits(l.sym - 257)) && u.mode == LENEXT
    requires u.length == LengthBase(l.sym - 257) && u.extra == LengthBits(l.sym - 257)
    requires u.unread == ToBits(l.extra, u.extra) + more
    ensures Step(u) == Some(u.(mode := DIST, length := Length(l), extra := 0, unread := more))
  {
    hide Step, ToBits, LengthBase, LengthBits, Pow2, Peek, Drop;
    ExtraRead(u, l.extra, u.extra, more);
    LenExtAt(u);
  }

  lemma DistanceRead(s: State, d: Coded, more: seq<bool>)
    requires s.mode == DIST && s.offset == 0 && s.extra == 0 && CodeOk(DISTS, s.dlens)
    requires d.sym <= 29 && Has(s.dlens, d.sym) && d.extra < Pow2(DistanceBits(d.sym)) && Distance(d) <= |s.out|
    requires s.unread == T.SymBits(s.dlens, d.sym) + (ToBits(d.extra, DistanceBits(d.sym)) + more)
    ensures Reachable(s, s.(mode := MATCH, offset := Distance(d), unread := more))
  {
    hide Step, Reachable, CodeOk, T.SymBits, ToBits, DistanceBase, DistanceBits, Pow2, Peek, Drop, SymOp, SymVal,
         UseDist;
    var rest := ToBits(d.extra, DistanceBits(d.sym)) + more;
    DistSymStep(s, d.sym, rest);
    DistKinds(s.(unread := rest), d.sym, s.dlens[d.sym]);
    var u := s.(mode := DISTEXT, unread := rest, offset := DistanceBase(d.sym), extra := DistanceBits(d.sym));
    ReachableStep(s);
    ExtraRead(u, d.extra, DistanceBits(d.sym), more);
    DistExtAt(u);
    ReachableStep(u);
    ReachableJoin(s, u, s.(mode := MATCH, offset := Distance(d), unread := more));
  }

  lemma PartRun(s: State, p: Part, more: seq<bool>)
    requires Ready(s) && PartOk(s.llens, s.dlens, p) && InReach(s.out, p)
    requires s.unread == PartBits(s.llens, s.dlens, p) + more
    ensures Reachable(s, s.(unread := more, out := Written(s.out, p)))
  {
    hide Step, Reachable, CodeOk, T.SymBits, ToBits, LengthBase, LengthBits, DistanceBase, DistanceBits, Pow2,
         T.CopyBack;
    if p.Plain? {
      LiteralRun(s, p.byte, more);
    } else {
      var l, d := p.length, p.distance;
      var a, b := T.SymBits(s.llens, l.sym), ToBits(l.extra, LengthBits(l.sym - 257));
      var c, e := T.SymBits(s.dlens, d.sym), ToBits(d.extra, DistanceBits(d.sym));
      CopySplit(a, b, c, e, more);
      LengthRead(s, l, c + (e + more));
      var u := s.(mode := DIST, length := Length(l), unread := c + (e + more));
      DistanceRead(u, d, more);
      var v := u.(mode := MATCH, offset := Distance(d), unread := more);
      ReachableJoin(s, u, v);
      LengthSome(l);
      CopyRun(v);
      ReachableJoin(s, v, s.(unread := more, out := Written(s.out, p)));
    }
  }

  lemma LengthSome(l: Coded)
    requires 257 <= l.sym
    ensures Length(l) >= 1
  {
  }

  lemma CopySplit(a: seq<bool>, b: seq<bool>, c: seq<bool>, d: seq<bool>, rest: seq<bool>)
    ensures a + (b + (c + d)) + rest == a + (b + (c + (d + rest)))
  {
    CopyBits(a, b, c, d, rest);
    Grouped(c, d, rest);
  }

  /** The parts of a block and its end. */
  lemma {:induction false} BodyRun(s: State, ps: seq<Part>, more: seq<bool>)
    requires Ready(s) && BodyOk(s.llens, s.dlens, ps) && AllInReach(s.out, ps)
    requires s.unread == BodyBits(s.llens, s.dlens, ps) + more
    ensures Reachable(s, s.(mode := TYPE, unread := more, out := AllWritten(s.out, ps)))
    decreases |ps|
  {
    hide Step, Reachable, CodeOk, T.SymBits, PartBits, PartOk, InReach, Written;
    if ps == [] {
      assert s.unread == T.SymBits(s.llens, T.END_BLOCK) + more;
      EndRun(s, more);
    } else {
      assert PartOk(s.llens, s.dlens, ps[0]);
      assert [ps[0]] + ps[1..] == ps;
      BodyJoin(s.llens, s.dlens, ps[0], ps[1..], more);
      var rest := BodyBits(s.llens, s.dlens, ps[1..]) + more;
      PartRun(s, ps[0], rest);
      var u := s.(unread := rest, out := Written(s.out, ps[0]));
      BodyRun(u, ps[1..], more);
      ReachableJoin(s, u, s.(mode := TYPE, unread := more, out := AllWritten(s.out, ps)));
    }
  }

  // ------------------------------------------------------------------------ header

  lemma CountsRun(s: State, x: Header, more: seq<bool>)
    requires s.mode == TABLE && HeaderOk(x)
    requires s.unread == ToBits(x.nlen - 257, 5) + ToBits(x.ndist - 1, 5) + ToBits(x.ncode - 4, 4) + more
    ensures Step(s) == Some(s.(mode := LENLENS, nlen := x.nlen, ndist := x.ndist, ncode := x.ncode, have := 0,
                               unread := more))
  {
    hide Step, CodeOk, ToBits, FromBits, ItemsOk, Complete, H.RestZero, LLens, DLens, Hlit, Hdist, Hclen, Peek, Drop;
    var front := ToBits(x.nlen - 257, 5) + ToBits(x.ndist - 1, 5) + ToBits(x.ncode - 4, 4);
    H.CountsValue(x.nlen - 257, x.ndist - 1, x.ncode - 4);
    DropFront(s, front, more);
    TableAt(s);
  }

  /** The code length code is known. */
  lemma OrderDone(s: State, clens: seq<nat>)
    requires s.mode == LENLENS && |s.lens| == LENS_SIZE && s.have == s.ncode <= BL_CODES && |clens| == BL_CODES
    requires H.OrderKnown(s.lens, clens, s.have) && H.RestZero(clens, s.have) && Complete(clens)
    ensures var lens := ZeroRest(s.lens, s.have);
            Step(s) == Some(s.(mode := CODELENS, lens := lens, clens := clens, have := 0))
  {
    hide Step, Complete, H.OrderKnown, ZeroRest;
    H.ZeroRestKnown(s.lens, clens, s.have);
    H.AllKnown(ZeroRest(s.lens, s.have), clens);
    LenLensAt(s);
  }

  lemma CodesRun(s: State, x: Header)
    requires HeaderOk(x) && H.InLengths(s) && s.have == s.nlen + s.ndist && s.lens[..s.have] == EnterAll([], x.items)
    requires s.nlen == x.nlen && s.ndist == x.ndist
    ensures Step(s) == Some(s.(mode := LEN, llens := LLens(x), dlens := DLens(x)))
  {
    hide Step, Accepts, EnterAll, AllCodable, Complete, H.RestZero;
    assert s.lens[..s.nlen] == s.lens[..s.have][..s.nlen];
    assert s.lens[s.nlen..s.nlen + s.ndist] == s.lens[..s.have][s.nlen..];
    LensDone(s);
  }

  lemma HeaderRun(s: State, x: Header, more: seq<bool>) returns (u: State)
    requires s.mode == TABLE && |s.lens| == LENS_SIZE && HeaderOk(x) && s.unread == HeaderBits(x) + more
    ensures Reachable(s, u) && H.SameRest(s, u) && u.mode == LEN && u.llens == LLens(x) && u.dlens == DLens(x)
    ensures u.unread == more && |u.lens| == LENS_SIZE
  {
    hide Step, Reachable, CodeOk, ToBits, H.OrderBits, ItemsBits, H.OrderKnown, ZeroRest, EnterAll, AllCodable,
         Complete, H.RestZero, LLens, DLens;
    var counts := ToBits(x.nlen - 257, 5) + ToBits(x.ndist - 1, 5) + ToBits(x.ncode - 4, 4);
    var items := ItemsBits(x.clens, x.items) + more;
    var order := H.OrderBits(x.clens, 0, x.ncode) + items;
    HeaderJoin(counts, H.OrderBits(x.clens, 0, x.ncode), ItemsBits(x.clens, x.items), more);
    CountsRun(s, x, order);
    ReachableStep(s);
    var a := Step(s).value;
    H.NoneKnown(a.lens, x.clens);
    var b := H.OrderRun(a, x.clens, items);
    ReachableJoin(s, a, b);
    OrderDone(b, x.clens);
    ReachableStep(b);
    var c := Step(b).value;
    ReachableJoin(s, b, c);
    var d := LengthsRun(c, x, more);
    ReachableJoin(s, c, d);
    CodesRun(d, x);
    ReachableStep(d);
    u := Step(d).value;
    ReachableJoin(s, d, u);
  }

  lemma LengthsRun(s: State, x: Header, more: seq<bool>) returns (u: State)
    requires s.mode == CODELENS && |s.lens| == LENS_SIZE && HeaderOk(x) && s.clens == x.clens && s.have == 0
    requires s.nlen == x.nlen && s.ndist == x.ndist
    requires AllCodable(x.clens, x.items) && s.unread == ItemsBits(x.clens, x.items) + more
    ensures Reachable(s, u) && H.OnlyLengths(s, u) && H.InLengths(u) && u.unread == more
    ensures u.have == u.nlen + u.ndist && u.lens[..u.have] == EnterAll([], x.items)
  {
    hide Step, Reachable, ToBits, ItemsBits, EnterAll, AllCodable, Complete, H.RestZero, LLens, DLens, Accepts;
    CompleteOk(x.clens);
    assert s.lens[..0] == [];
    u := H.ItemsRun(s, x.items, more);
    assert |u.lens[..u.have]| == u.have;
  }

  lemma CompleteOk(clens: seq<nat>)
    requires |clens| == BL_CODES && Complete(clens) && forall p :: 0 <= p < BL_CODES ==> clens[p] < 8
    ensures CodeOk(CODES, clens)
  {
    hide Complete;
  }

  // ------------------------------------------------------------------------ blocks

  lemma TypeRun(s: State, b: Block, last: bool, more: seq<bool>)
    requires s.mode == TYPE && !s.last && s.unread == [last] + ToBits(TypeOf(b), 2) + more
    ensures Step(s) == Some(NewBlock(s.(unread := more), last, BlockMode(TypeOf(b))))
  {
    hide Step, ToBits, NewBlock, BlockMode;
    var h := 2 * TypeOf(b) + if last then 1 else 0;
    TypeSplit(h);
    S.TypeRun(s, TypeOf(b), last, more);
  }

  /** A block of any kind. */
  lemma BlockRun(s: State, b: Block, last: bool, pos: nat, more: seq<bool>) returns (u: State)
    requires S.Between(s) && !s.last && Follows(b, pos, s.out) && s.unread == BlockBits(b, last) + more
    requires (pos + |s.unread|) % 8 == 0
    ensures Reachable(s, u) && S.Between(u) && u.last == last && u.wrap == s.wrap
    ensures u.unread == more && u.out == After(b, s.out)
  {
    hide Step, Reachable, CodeOk, ToBits, BytesToBits, FixedLens, FixedDists, BodyBits, BodyOk, HeaderOk, HeaderBits,
         LLens, DLens, AllInReach, AllWritten;
    var rest := Content(b) + more;
    Grouped([last] + ToBits(TypeOf(b), 2), Content(b), more);
    TypeRun(s, b, last, rest);
    ReachableStep(s);
    var a := Step(s).value;
    match b {
      case Stored(pad, data) =>
        u := StoredRun(a, pad, data, more, pos);
      case Fixed(ps) =>
        FixedOk();
        BodyRun(a, ps, more);
        u := a.(mode := TYPE, unread := more, out := AllWritten(s.out, ps));
      case Dynamic(x, ps) =>
        var body := BodyBits(LLens(x), DLens(x), ps) + more;
        Grouped(HeaderBits(x), BodyBits(LLens(x), DLens(x), ps), more);
        var c := HeaderRun(a, x, body);
        HeaderCodes(x);
        BodyRun(c, ps, more);
        u := c.(mode := TYPE, unread := more, out := AllWritten(s.out, ps));
        ReachableJoin(a, c, u);
    }
    ReachableJoin(s, a, u);
  }

  lemma HeaderCodes(x: Header)
    requires HeaderOk(x)
    ensures CodeOk(LENS, LLens(x)) && CodeOk(DISTS, DLens(x))
  {
    hide CodeOk;
  }

  lemma StoredRun(s: State, pad: seq<bool>, data: seq<Byte>, more: seq<bool>, pos: nat) returns (u: State)
    requires s.mode == STORED && |data| < 65536 && FillsUp(pad, pos + 3) && (pos + 3 + |s.unread|) % 8 == 0
    requires s.unread == pad + (ToBits(|data|, 16) + ToBits(65535 - |data|, 16) + BytesToBits(data)) + more
    ensures Reachable(s, u) && u == s.(mode := TYPE, length := 0, unread := more, out := s.out + data)
  {
    hide Step, Reachable, ToBits, BytesToBits;
    var head, bytes := ToBits(|data|, 16) + ToBits(65535 - |data|, 16), BytesToBits(data) + more;
    Grouped(pad, head + BytesToBits(data), more);
    Grouped(head, BytesToBits(data), more);
    var a := s.(unread := head + bytes);
    RestIsWhole(pos, |pad|, |head + bytes|, |data|, |more|);
    S.AlignRun(s, pad, head + bytes);
    S.StoredHeader(a, |data|, bytes);
    ReachableStep(a);
    var b := Step(a).value;
    ReachableJoin(s, a, b);
    S.BytesRun(b, data, more);
    u := s.(mode := TYPE, length := 0, unread := more, out := s.out + data);
    ReachableJoin(s, b, u);
  }

  lemma RestIsWhole(pos: nat, pad: nat, rest: nat, data: nat, more: nat)
    requires (pos + 3 + pad) % 8 == 0 && (pos + 3 + (pad + rest)) % 8 == 0 && rest == 32 + (8 * data + more)
    ensures rest % 8 == 0 && (8 * data + more) % 8 == 0
  {
    assert rest == (pos + 3 + (pad + rest)) - (pos + 3 + pad);
  }

  /** All blocks. */
  lemma {:induction false} BlocksRun(s: State, bs: seq<Block>, pos: nat, more: seq<bool>) returns (u: State)
    requires S.Between(s) && !s.last && bs != [] && BlocksOk(bs) && InPlace(bs, pos, s.out)
    requires s.unread == BlocksBits(bs) + more && (pos + |s.unread|) % 8 == 0
    ensures Reachable(s, u) && S.Between(u) && u.last && u.wrap == s.wrap
    ensures u.unread == more && u.out == AfterAll(bs, s.out)
    decreases |bs|
  {
    hide Step, Reachable, BlockOk, BlockBits, After, Follows;
    var front := BlockBits(bs[0], |bs| == 1);
    var rest := BlocksBits(bs[1..]) + more;
    Grouped(front, BlocksBits(bs[1..]), more);
    var a := BlockRun(s, bs[0], |bs| == 1, pos, rest);
    if |bs| == 1 {
      assert bs[1..] == [] && rest == more;
      u := a;
    } else {
      assert pos + |front| + |rest| == pos + |s.unread|;
      u := BlocksRun(a, bs[1..], pos + |front|, more);
      ReachableJoin(s, a, u);
    }
  }

  // ----------------------------------------------------------------------- streams

  lemma HeadRun(s: State, cmf: Byte, flg: Byte, more: seq<bool>)
    requires s.mode == HEAD && s.wrap && ZlibOk(cmf, flg) && s.unread == ToBits(cmf, 8) + ToBits(flg, 8) + more
    ensures Step(s) == Some(s.(mode := TYPE, unread := more))
  {
    hide Step, ToBits, FromBits, Peek, Drop, HeaderBad, ZlibOk, Pow2;
    var h := cmf + 256 * flg;
    TwoBytesBack(cmf, flg);
    DropFront(s, ToBits(cmf, 8) + ToBits(flg, 8), more);
    Pow2Values();
    HeaderIs(h);
    HeadAt(s);
  }

  lemma TwoBytesBack(a: Byte, b: Byte)
    ensures var h := a + 256 * b;
            FromBits(ToBits(a, 8) + ToBits(b, 8)) == h && h % 256 == a && h / 256 == b && h < 65536
  {
    hide ToBits, FromBits, Pow2, Low, Shl;
    FromBitsAppend(ToBits(a, 8), ToBits(b, 8));
    FromToBits(a, 8);
    FromToBits(b, 8);
    Pow2Values();
    LowSmall(a, 8);
    LowSmall(b, 8);
    ShlIsMul(b, 8);
    DivModUnique(a + 256 * b, 256, b, a);
  }

  /** The check value as the encoder sends it. */
  lemma CheckAsBits(check: nat)
    requires check < 0x1_0000_0000
    ensures BytesToBits(CheckBytes(check)) == S.TrailerBits(check) && |S.TrailerBits(check)| == 32
  {
    hide ToBits, BytesToBits;
    S.TrailerRead(check);
    var a, b := check / 65536, check % 65536;
    CheckHalves(check);
    FourAsBits(a / 256, a % 256, b / 256, b % 256);
  }

  lemma CheckHalves(check: nat)
    requires check < 0x1_0000_0000
    ensures var a, b := check / 65536, check % 65536;
            a < 65536 && CheckBytes(check) == [a / 256, a % 256, b / 256, b % 256]
  {
    var a, b := check / 65536, check % 65536;
    DivModUnique(check, 256, 256 * a + b / 256, b % 256);
    DivModUnique(256 * a + b / 256, 256, a, b / 256);
    DivModUnique(check, 16777216, a / 256, 65536 * (a % 256) + b);
  }

  /** Every stream of the format is read to its end, to what it stands for. */
  lemma StreamRun(wrap: bool, z: Stream, more: seq<bool>) returns (u: State)
    requires StreamOk(wrap, z) && |more| % 8 == 0
    ensures Reachable(Plus(Initial(wrap), StreamBits(wrap, z) + more), u)
    ensures u.mode == DONE && u.out == Output(z) && u.unread == more
  {
    hide Step, Reachable, ToBits, BytesToBits, BlocksOk, InPlace, BlocksBits, AfterAll, S.Check, ZlibOk, CheckBytes,
         S.TrailerBits;
    var head, blocks := HeadBits(wrap, z), BlocksBits(z.blocks);
    var tail := if wrap then BytesToBits(CheckBytes(S.Check(Output(z)))) else [];
    var rest := z.pad + tail + more;
    var s := Plus(Initial(wrap), StreamBits(wrap, z) + more);
    Joined(head, blocks, z.pad, tail, more);
    assert s.unread == head + (blocks + rest);
    var a := s.(mode := TYPE, unread := blocks + rest);
    if wrap {
      HeadRun(s, z.cmf, z.flg, blocks + rest);
      CheckAsBits(S.Check(Output(z)));
    } else {
      assert s.unread == blocks + rest;
      HeadAt(s);
    }
    ReachableStep(s);
    WholeIs(|head|, |blocks|, |z.pad|, |tail|, |more|);
    var b := BlocksRun(a, z.blocks, |head|, rest);
    ReachableJoin(s, a, b);
    S.EndOfStream(b, z.pad, more);
    u := b.(mode := DONE, unread := more);
    ReachableJoin(s, b, u);
  }

  lemma WholeIs(head: nat, blocks: nat, pad: nat, tail: nat, more: nat)
    requires (head + blocks + pad) % 8 == 0 && (tail == 0 || tail == 32) && more % 8 == 0
    ensures (head + (blocks + (pad + tail + more))) % 8 == 0
  {
  }
}
