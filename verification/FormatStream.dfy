/** inflate.c: every stream that is read to its end is one of the format, with the output it stands
    for; in a zlib stream header and check value are right. */
module FormatStream {
  import opened Bits
  import opened Canonical
  import opened InflateTable
  import opened InflateMachine
  import opened InflateStream
  import opened DeflateFormat
  import opened FormatRead
  import opened FormatHeader
  import AdlerSpec
  import S = StreamDecode
  import T = Tokens

  // ------------------------------------------------------------------------ blocks

  lemma TypeSplit(h: nat)
    requires h < 8
    ensures ToBits(h, 3) == [h % 2 == 1] + ToBits(h / 2, 2)
  {
  }

  /** The bits in front of a block. */
  lemma TypeOfBlock(s: State, n: nat, t: State) returns (last: bool, sel: nat, u: State)
    requires Ends(s, n, t) && s.mode == TYPE && !s.last
    ensures sel < 3 && s.unread == [last] + ToBits(sel, 2) + u.unread
    ensures n > 0 && Ends(u, n - 1, t) && u.out == s.out && u.wrap == s.wrap && u.last == last
    ensures u.mode == BlockMode(sel) && (sel == 1 ==> u.llens == FixedLens() && u.dlens == FixedDists())
  {
    hide StateOk, Step, ToBits, Pow2, Peek, FixedLens, FixedDists;
    Onward(s, n, t);
    TypeAt(s);
    var h := Peek(s, 3);
    PeekIs(s, 3);
    Pow2Values();
    TypeSplit(h);
    last, sel, u := h % 2 == 1, h / 2, Step(s).value;
  }

  /** A block of any kind. */
  lemma BlockOf(s: State, n: nat, t: State, pos: nat) returns (b: Block, last: bool, u: State, m: nat)
    requires Ends(s, n, t) && s.mode == TYPE && !s.last && (pos + |s.unread|) % 8 == 0
    ensures Follows(b, pos, s.out) && s.unread == BlockBits(b, last) + u.unread && u.out == After(b, s.out)
    ensures Ends(u, m, t) && m < n && u.mode == TYPE && u.last == last && u.wrap == s.wrap
  {
    hide StateOk, Step, ToBits, BytesToBits, FixedLens, FixedDists, BodyBits, BodyOk, HeaderOk, HeaderBits, LLens,
         DLens, AllInReach, AllWritten;
    var sel, a;
    last, sel, a := TypeOfBlock(s, n, t);
    if sel == 0 {
      var pad, data;
      pad, data, u, m := StoredOf(a, n - 1, t);
      b := Stored(pad, data);
      PadFits(pos, s.unread, a.unread, pad);
    } else if sel == 1 {
      var ps;
      ps, u, m := BodyOf(a, n - 1, t);
      b := Fixed(ps);
    } else {
      var x, c, k := HeaderOf(a, n - 1, t);
      var ps;
      ps, u, m := BodyOf(c, k, t);
      b := Dynamic(x, ps);
      Grouped(HeaderBits(x), BodyBits(LLens(x), DLens(x), ps), u.unread);
    }
    Grouped([last] + ToBits(sel, 2), Content(b), u.unread);
  }

  lemma PadFits(pos: nat, unread: seq<bool>, rest: seq<bool>, pad: seq<bool>)
    requires (pos + |unread|) % 8 == 0 && |unread| == 3 + |rest| && |pad| == |rest| % 8
    ensures FillsUp(pad, pos + 3)
  {
    var k := |rest| / 8;
    assert pos + 3 + |pad| + 8 * k == pos + |unread|;
  }

  /** All blocks. */
  lemma {:induction false} BlocksOf(s: State, n: nat, t: State, pos: nat) returns (bs: seq<Block>, u: State, m: nat)
    requires Ends(s, n, t) && s.mode == TYPE && !s.last && (pos + |s.unread|) % 8 == 0
    ensures bs != [] && BlocksOk(bs) && InPlace(bs, pos, s.out)
    ensures s.unread == BlocksBits(bs) + u.unread && u.out == AfterAll(bs, s.out)
    ensures Ends(u, m, t) && m < n && u.mode == TYPE && u.last && u.wrap == s.wrap
    decreases n
  {
    hide StateOk, Step, BlockOk, BlockBits, After, Follows;
    var b, last;
    b, last, u, m := BlockOf(s, n, t, pos);
    FollowsOk(b, pos, s.out);
    if last {
      bs := [b];
      OneBlock(b, pos, s.out);
    } else {
      var front := BlockBits(b, false);
      assert pos + |front| + |u.unread| == pos + |s.unread|;
      var a, k := u, m;
      var rest;
      rest, u, m := BlocksOf(a, k, t, pos + |front|);
      bs := [b] + rest;
      MoreBlocks(b, rest, pos, s.out);
      Grouped(front, BlocksBits(rest), u.unread);
    }
  }

  lemma FollowsOk(b: Block, pos: nat, h: seq<Byte>)
    requires Follows(b, pos, h)
    ensures BlockOk(b)
  {
    hide BlockOk;
  }

  lemma OneBlock(b: Block, pos: nat, h: seq<Byte>)
    requires Follows(b, pos, h) && BlockOk(b)
    ensures BlocksOk([b]) && InPlace([b], pos, h) && BlocksBits([b]) == BlockBits(b, true)
    ensures AfterAll([b], h) == After(b, h)
  {
    hide BlockOk, BlockBits, After, Follows;
    assert [b][1..] == [];
  }

  lemma MoreBlocks(b: Block, rest: seq<Block>, pos: nat, h: seq<Byte>)
    requires Follows(b, pos, h) && BlockOk(b) && rest != [] && BlocksOk(rest)
    requires InPlace(rest, pos + |BlockBits(b, false)|, After(b, h))
    ensures var bs := [b] + rest;
            && BlocksOk(bs) && InPlace(bs, pos, h) && BlocksBits(bs) == BlockBits(b, false) + BlocksBits(rest)
            && AfterAll(bs, h) == AfterAll(rest, After(b, h))
  {
    hide BlockOk, BlockBits, After, Follows;
    var bs := [b] + rest;
    assert bs[1..] == rest;
  }

  // ----------------------------------------------------------------- header and check

  /** The two bytes of the header. */
  lemma HeadOf(s: State, n: nat, t: State) returns (cmf: Byte, flg: Byte, u: State)
    requires Ends(s, n, t) && s.mode == HEAD
    ensures s.wrap ==> ZlibOk(cmf, flg)
    ensures s.unread == (if s.wrap then ToBits(cmf, 8) + ToBits(flg, 8) else []) + u.unread
    ensures n > 0 && Ends(u, n - 1, t) && (u.mode == TYPE || u.mode == DICTID)
    ensures u == s.(mode := u.mode, unread := u.unread) && u.mode != DICTID
  {
    hide StateOk, Step, ToBits, Pow2, Peek, HeaderBad, ZlibOk;
    Onward(s, n, t);
    HeadAt(s);
    u := Step(s).value;
    if s.wrap {
      var h := Peek(s, 16);
      PeekIs(s, 16);
      TwoBytes(h);
      cmf, flg := h % 256, h / 256;
      HeaderIs(h);
      if u.mode == DICTID {
        NoDictionary(u, n - 1, t);
      }
    } else {
      cmf, flg := 0, 0;
    }
  }

  lemma TwoBytes(h: nat)
    requires h < Pow2(16)
    ensures h / 256 < 256 && ToBits(h, 16) == ToBits(h % 256, 8) + ToBits(h / 256, 8)
  {
    hide ToBits, Pow2, Low, Shr;
    Pow2Values();
    ToBitsAppend(h, 8, 8);
    HighPart(h, 8);
    ToBitsLow(h, 8, 8);
  }

  /** The tests of inflate are those of the format. */
  lemma HeaderIs(h: nat)
    requires h < Pow2(16)
    ensures h / 256 < 256
    ensures ZlibOk(h % 256, h / 256) <==> !HeaderBad(h) && h / 16 % 16 + 8 <= WBITS && h / 8192 % 2 == 0
  {
    hide Pow2;
    Pow2Values();
    HeaderFields(h);
  }

  lemma HeaderFields(h: nat)
    requires h < 65536
    ensures h % 16 == h % 256 % 16 && h / 16 % 16 == h % 256 / 16 && h / 8192 == h / 256 / 32
  {
    var b, c := h / 256, h % 256;
    assert h == 256 * b + c;
    DivModUnique(h, 16, 16 * b + c / 16, c % 16);
    DivModUnique(16 * b + c / 16, 16, b, c / 16);
    DivModUnique(h, 8192, b / 32, 256 * (b % 32) + c);
  }

  /** A stream with a dictionary is not read to its end. */
  lemma NoDictionary(s: State, n: nat, t: State)
    requires s.mode == DICTID
    ensures !Ends(s, n, t)
  {
    hide StateOk;
    if Ends(s, n, t) {
      Onward(s, n, t);
      assert false;
    }
  }

  /** The padding and the check value. */
  lemma TailOf(s: State, n: nat, t: State) returns (pad: seq<bool>)
    requires Ends(s, n, t) && s.mode == TYPE && s.last
    ensures |pad| == |s.unread| % 8 && t.out == s.out
    ensures s.unread == pad + (if s.wrap then BytesToBits(CheckBytes(S.Check(s.out))) else []) + t.unread
  {
    hide StateOk, Step, ToBits, BytesToBits, Pow2, Peek, S.Check;
    pad := s.unread[..|s.unread| % 8];
    Onward(s, n, t);
    TypeAt(s);
    var a := Step(s).value;
    assert s.unread == pad + a.unread;
    Onward(a, n - 1, t);
    CheckAt(a);
    var u := Step(a).value;
    AtEnd(u, n - 2, t);
    if s.wrap {
      PeekIs(a, 32);
      S.CheckIs(s.out);
      FourBytes(Peek(a, 32));
    } else {
      assert [] + t.unread == t.unread;
    }
    Grouped(pad, if s.wrap then BytesToBits(CheckBytes(S.Check(s.out))) else [], t.unread);
  }

  lemma AtEnd(s: State, n: nat, t: State)
    requires Ends(s, n, t) && s.mode == DONE
    ensures t == s
  {
  }

  /** Four bytes in one number, and the check value that they make. */
  lemma FourBytes(h: nat)
    requires h < Pow2(32)
    ensures Reverse4(h) < 0x1_0000_0000 && BytesToBits(CheckBytes(Reverse4(h))) == ToBits(h, 32)
  {
    hide ToBits, Pow2, Low, Shr;
    Pow2Values();
    var a, b, c, d := h % 256, h / 256 % 256, h / 65536 % 256, h / 16777216;
    CheckSplit(h, a, b, c, d);
    ToBitsAppend(h, 16, 16);
    HighPart(h, 16);
    var low, high := h % 65536, h / 65536;
    ToBitsLow(h, 16, 16);
    TwoBytes(low);
    TwoBytes(high);
    FourAsBits(a, b, c, d);
  }

  lemma PairAsBits(a: Byte, b: Byte)
    ensures BytesToBits([a, b]) == ToBits(a, 8) + ToBits(b, 8)
  {
    hide ToBits;
    assert [a, b][1..] == [b] && [b][1..] == [];
    assert ToBits(b, 8) + [] == ToBits(b, 8);
  }

  lemma FourAsBits(a: Byte, b: Byte, c: Byte, d: Byte)
    ensures BytesToBits([a, b, c, d]) == ToBits(a, 8) + ToBits(b, 8) + (ToBits(c, 8) + ToBits(d, 8))
  {
    hide ToBits, BytesToBits;
    assert [a, b, c, d] == [a, b] + [c, d];
    BytesToBitsAppend([a, b], [c, d]);
    PairAsBits(a, b);
    PairAsBits(c, d);
  }

  lemma CheckSplit(h: nat, a: nat, b: nat, c: nat, d: nat)
    requires h < Pow2(32) && a == h % 256 && b == h / 256 % 256 && c == h / 65536 % 256 && d == h / 16777216
    ensures d < 256 && Reverse4(h) < 0x1_0000_0000 && CheckBytes(Reverse4(h)) == [a, b, c, d]
    ensures h % 65536 < Pow2(16) && h / 65536 < Pow2(16)
    ensures h % 65536 % 256 == a && h % 65536 / 256 == b && h / 65536 % 256 == c && h / 65536 / 256 == d
  {
    hide Pow2, Reverse4, CheckBytes;
    Pow2Values();
    ShlPow2(16, 16);
    ShlIsMul(Pow2(16), 16);
    var x, y := h / 256, h / 65536;
    assert y == x / 256 && d == y / 256;
    assert h == a + 256 * x && x == b + 256 * y && y == c + 256 * d;
    DivModUnique(h, 65536, y, a + 256 * b);
    DivModUnique(a + 256 * b, 256, b, a);
    ReverseIs(h, a, b, c, d);
  }

  lemma ReverseIs(h: nat, a: nat, b: nat, c: nat, d: nat)
    requires a == h % 256 && b == h / 256 % 256 && c == h / 65536 % 256 && d == h / 16777216 < 256
    ensures Reverse4(h) < 0x1_0000_0000 && CheckBytes(Reverse4(h)) == [a, b, c, d]
  {
    hide CheckBytes;
    assert Reverse4(h) == d + c * 256 + b * 65536 + a * 16777216;
    hide Reverse4;
    CheckOf(a, b, c, d);
  }

  lemma CheckOf(a: Byte, b: Byte, c: Byte, d: Byte)
    ensures CheckBytes(d + c * 256 + b * 65536 + a * 16777216) == [a, b, c, d]
  {
    var r := d + c * 256 + b * 65536 + a * 16777216;
    DivModUnique(r, 256, c + 256 * b + 65536 * a, d);
    DivModUnique(r, 65536, b + 256 * a, 256 * c + d);
    DivModUnique(r, 16777216, a, 65536 * b + 256 * c + d);
    DivModUnique(c + 256 * b + 65536 * a, 256, b + 256 * a, c);
    DivModUnique(b + 256 * a, 256, a, b);
  }

  // ------------------------------------------------------------------ whole streams

  /** A stream that is read to its end. */
  lemma StreamOf(wrap: bool, input: seq<Byte>, t: State) returns (z: Stream)
    requires Reachable(Whole(wrap, input), t) && t.mode == DONE
    ensures StreamOk(wrap, z) && BytesToBits(input) == StreamBits(wrap, z) + t.unread && t.out == Output(z)
  {
    hide StateOk, Step, ToBits, BytesToBits, BlocksOk, InPlace, BlocksBits, AfterAll, S.Check, ZlibOk, CheckBytes;
    var s := Whole(wrap, input);
    StartIs(wrap, input);
    var n: nat :| Reaches(s, n, t);
    var cmf, flg, a := HeadOf(s, n, t);
    var z0 := Stream(cmf, flg, [], []);
    var pos := |HeadBits(wrap, z0)|;
    var bs, b, m := BlocksOf(a, n - 1, t, pos);
    var pad := TailOf(b, m, t);
    z := Stream(cmf, flg, bs, pad);
    var tail := if wrap then BytesToBits(CheckBytes(S.Check(b.out))) else [];
    PadIs(pos, BlocksBits(bs), b.unread, pad, 8 * |input|);
    Joined(HeadBits(wrap, z), BlocksBits(bs), pad, tail, t.unread);
  }

  lemma StartIs(wrap: bool, input: seq<Byte>)
    ensures var s := Whole(wrap, input);
            && StateOk(s) && s.mode == HEAD && s.wrap == wrap && !s.last && s.out == []
            && s.unread == BytesToBits(input) && |s.unread| == 8 * |input|
  {
    hide BytesToBits;
    assert [] + BytesToBits(input) == BytesToBits(input);
    BytesLength(input);
    InitialOk(wrap);
    PlusOk(Initial(wrap), BytesToBits(input));
  }

  lemma BytesLength(input: seq<Byte>)
    ensures |BytesToBits(input)| == 8 * |input|
  {
  }

  lemma PadIs(pos: nat, blocks: seq<bool>, rest: seq<bool>, pad: seq<bool>, total: nat)
    requires pos + |blocks| + |rest| == total && total % 8 == 0 && |pad| == |rest| % 8
    ensures FillsUp(pad, pos + |blocks|)
  {
    var k := |rest| / 8;
    assert pos + |blocks| + |pad| + 8 * k == total;
  }

  lemma Joined(a: seq<bool>, b: seq<bool>, c: seq<bool>, d: seq<bool>, rest: seq<bool>)
    ensures a + (b + (c + d + rest)) == a + (b + (c + d)) + rest
  {
    Grouped(b, c + d, rest);
    Grouped(a, b + (c + d), rest);
  }
}
