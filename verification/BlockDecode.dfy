/** What the decoder makes of an encoded block: the reference machine, started on
    the bits of a block, writes the expansion of its tokens and uses up exactly
    those bits. */
module BlockDecode {
  import opened Bits
  import opened Canonical
  import opened InflateTable
  import opened InflateMachine
  import opened TreeTables
  import opened Tokens

  /** The machine between two symbols. */
  predicate Ready(s: State) {
    && s.mode == LEN && s.length == 0 && s.offset == 0 && s.extra == 0
    && CodeOk(LENS, s.llens) && CodeOk(DISTS, s.dlens)
  }

  /** A code at the front of the bits is the one decoded. */
  lemma DecodeSym(ty: CodeType, lens: seq<nat>, s: nat, more: seq<bool>)
    requires CodeOk(ty, lens) && s < |lens| && lens[s] != 0
    ensures |lens| <= MaxSymbols(ty)
    ensures Decode(ty, lens, SymBits(lens, s) + more) == Some(Decoded(SymOp(ty, s), SymVal(ty, s), lens[s]))
  {
    hide Low, Pow2, FromBits, ToBits, RefDecode, SymOp, SymVal, Accepts, Rev;
    var bits := SymBits(lens, s) + more;
    var w := FromBits(bits);
    FromBitsSplit(bits, lens[s]);
    assert bits[..lens[s]] == SymBits(lens, s);
    FromToBits(Code(lens, s), lens[s]);
    RevBound(lens[s], SymCode(lens, s));
    LowSmall(Code(lens, s), lens[s]);
    AcceptedNotOver(ty, lens);
    RefIs(ty, lens, s, w);
  }

  lemma DropFront(s: State, front: seq<bool>, more: seq<bool>)
    requires s.unread == front + more
    ensures |front| <= |s.unread| && Drop(s, |front|) == s.(unread := more) && Peek(s, |front|) == FromBits(front)
  {
    assert s.unread[|front|..] == more;
    assert s.unread[..|front|] == front;
  }

  lemma LenSymStep(s: State, sym: nat, more: seq<bool>)
    requires Ready(s) && sym < |s.llens| && s.llens[sym] != 0 && s.unread == SymBits(s.llens, sym) + more
    ensures sym < 288
    ensures Step(s) == Some(UseLen(s.(unread := more), Decoded(SymOp(LENS, sym), SymVal(LENS, sym), s.llens[sym])))
  {
    hide Step, Decode, Drop, Peek, UseLen, SymOp, SymVal, CodeOk, ToBits, Code;
    DecodeSym(LENS, s.llens, sym, more);
    DropFront(s, SymBits(s.llens, sym), more);
    LenAt(s);
  }

  lemma DistSymStep(s: State, sym: nat, more: seq<bool>)
    requires s.mode == DIST && CodeOk(DISTS, s.dlens)
    requires sym < |s.dlens| && s.dlens[sym] != 0 && s.unread == SymBits(s.dlens, sym) + more
    ensures sym < 32
    ensures Step(s) == Some(UseDist(s.(unread := more), Decoded(SymOp(DISTS, sym), SymVal(DISTS, sym), s.dlens[sym])))
  {
    hide Step, Decode, Drop, Peek, UseDist, SymOp, SymVal, CodeOk, ToBits, Code;
    DecodeSym(DISTS, s.dlens, sym, more);
    DropFront(s, SymBits(s.dlens, sym), more);
    DistAt(s);
  }

  /** The decoder's tables read the encoder's symbols as they were meant. */
  lemma LengthSym(c: nat)
    requires c < LENGTH_CODES
    ensures var op := SymOp(LENS, c + 257);
            op != 0 && !IsEnd(op) && !IsInvalid(op) && ExtraBits(op) == LBits(c) && SymVal(LENS, c + 257) == LLow(c) + 3
  {
  }

  lemma DistSym(c: nat)
    requires c < D_CODES
    ensures var op := SymOp(DISTS, c);
            !IsInvalid(op) && ExtraBits(op) == DBits(c) && SymVal(DISTS, c) == DLow(c) + 1
  {
  }

  lemma EndSym()
    ensures var op := SymOp(LENS, END_BLOCK); op != 0 && IsEnd(op)
  {
  }

  lemma LiteralSym(c: Byte)
    ensures SymOp(LENS, c) == 0 && SymVal(LENS, c) == c
  {
  }

  lemma LiteralRun(s: State, c: Byte, more: seq<bool>)
    requires Ready(s) && c < |s.llens| && s.llens[c] != 0 && s.unread == SymBits(s.llens, c) + more
    ensures Reachable(s, s.(unread := more, out := s.out + [c]))
  {
    hide Step, Reachable, SymOp, SymVal, CodeOk, SymBits;
    LenSymStep(s, c, more);
    LiteralSym(c);
    var t := s.(unread := more, mode := LIT, length := c);
    ReachableStep(s);
    LitAt(t);
    ReachableStep(t);
    ReachableJoin(s, t, s.(unread := more, out := s.out + [c]));
  }

  lemma EndRun(s: State, more: seq<bool>)
    requires Ready(s) && END_BLOCK < |s.llens| && s.llens[END_BLOCK] != 0
    requires s.unread == SymBits(s.llens, END_BLOCK) + more
    ensures Reachable(s, s.(unread := more, mode := TYPE))
  {
    hide Step, Reachable, SymOp, SymVal, CodeOk, SymBits, IsEnd;
    LenSymStep(s, END_BLOCK, more);
    EndSym();
    ReachableStep(s);
  }

  /** The bytes of a match. */
  lemma {:induction false} CopyRun(s: State)
    requires s.mode == MATCH && s.length >= 1 && 1 <= s.offset <= |s.out|
    ensures Reachable(s, s.(mode := LEN, length := 0, offset := 0, out := CopyBack(s.out, s.offset, s.length)))
    decreases s.length
  {
    hide Step, Reachable;
    MatchAt(s);
    ReachableStep(s);
    var t := Step(s).value;
    var x := s.out[|s.out| - s.offset];
    if s.length > 1 {
      CopyRun(t);
      ReachableJoin(s, t, s.(mode := LEN, length := 0, offset := 0, out := CopyBack(s.out, s.offset, s.length)));
    } else {
      assert CopyBack(s.out + [x], s.offset, 0) == s.out + [x];
    }
  }

  /** Extra bits that encode x are read as x. */
  lemma ExtraRead(s: State, x: nat, n: nat, more: seq<bool>)
    requires s.unread == ToBits(x, n) + more && x < Pow2(n)
    ensures n <= |s.unread| && Peek(s, n) == x && Drop(s, n) == s.(unread := more)
  {
    hide Pow2, ToBits, FromBits, Low;
    DropFront(s, ToBits(x, n), more);
    FromToBits(x, n);
    LowSmall(x, n);
  }

  lemma LengthRun(s: State, t: Tables, tok: Token, more: seq<bool>)
    requires Ready(s) && LengthsOk(t) && TokenOk(tok) && tok.Match?
    requires LSym(t, tok) < |s.llens| && s.llens[LSym(t, tok)] != 0
    requires s.unread == SymBits(s.llens, LSym(t, tok)) + LExtra(t, tok) + more
    ensures Reachable(s, s.(mode := DIST, length := tok.len, unread := more))
  {
    hide Step, Reachable, SymOp, SymVal, CodeOk, SymBits, ToBits, IsEnd, IsInvalid, ExtraBits, LBits, LLow, Pow2, Peek,
         Drop;
    var lc := tok.len - MIN_MATCH;
    assert LengthCovered(t, lc);
    var c := t.lengthCode[lc];
    var rest := LExtra(t, tok) + more;
    assert s.unread == SymBits(s.llens, LSym(t, tok)) + rest;
    LenSymStep(s, c + 257, rest);
    LengthSym(c);
    var u := s.(mode := LENEXT, unread := rest, length := LLow(c) + 3, extra := LBits(c));
    ReachableStep(s);
    assert Step(s) == Some(u);
    ExtraRead(u, lc - LLow(c), LBits(c), more);
    LenExtAt(u);
    ReachableStep(u);
    ReachableJoin(s, u, s.(mode := DIST, length := tok.len, unread := more));
  }

  lemma DistanceRun(s: State, t: Tables, tok: Token, more: seq<bool>)
    requires s.mode == DIST && s.offset == 0 && s.extra == 0 && CodeOk(DISTS, s.dlens) && DistsOk(t) && TokenOk(tok)
             && tok.Match?
    requires s.length == tok.len && tok.dist <= |s.out| && DSym(t, tok) < |s.dlens| && s.dlens[DSym(t, tok)] != 0
    requires s.unread == SymBits(s.dlens, DSym(t, tok)) + DExtra(t, tok) + more
    ensures Reachable(s, s.(mode := MATCH, offset := tok.dist, unread := more))
  {
    hide Step, Reachable, SymOp, SymVal, CodeOk, SymBits, ToBits, IsEnd, IsInvalid, ExtraBits, DBits, DLow, Pow2, Peek,
         Drop;
    var d := tok.dist - 1;
    assert DistCovered(t, d);
    var c := DSym(t, tok);
    var rest := DExtra(t, tok) + more;
    assert s.unread == SymBits(s.dlens, c) + rest;
    DistSymStep(s, c, rest);
    DistSym(c);
    var u := s.(mode := DISTEXT, unread := rest, offset := DLow(c) + 1, extra := DBits(c));
    ReachableStep(s);
    assert Step(s) == Some(u);
    ExtraRead(u, d - DLow(c), DBits(c), more);
    DistExtAt(u);
    ReachableStep(u);
    ReachableJoin(s, u, s.(mode := MATCH, offset := tok.dist, unread := more));
  }

  /** One token. */
  lemma TokenRun(s: State, t: Tables, tok: Token, more: seq<bool>)
    requires Ready(s) && LengthsOk(t) && DistsOk(t) && Encodable(t, s.llens, s.dlens, tok)
    requires tok.Match? ==> tok.dist <= |s.out|
    requires s.unread == TokenBits(t, s.llens, s.dlens, tok) + more
    ensures Reachable(s, s.(unread := more, out := Apply(s.out, tok)))
  {
    hide Step, Reachable, CodeOk, SymBits, LengthsOk, DistsOk, LSym, DSym, LExtra, DExtra, CopyBack;
    if tok.Literal? {
      LiteralIs(t, tok);
      LiteralRun(s, tok.c, more);
    } else {
      var dist := SymBits(s.dlens, DSym(t, tok)) + DExtra(t, tok) + more;
      assert s.unread == SymBits(s.llens, LSym(t, tok)) + LExtra(t, tok) + dist;
      LengthRun(s, t, tok, dist);
      var u := s.(mode := DIST, length := tok.len, unread := dist);
      DistanceRun(u, t, tok, more);
      var v := s.(mode := MATCH, length := tok.len, offset := tok.dist, unread := more);
      ReachableJoin(s, u, v);
      CopyRun(v);
      ReachableJoin(s, v, s.(unread := more, out := Apply(s.out, tok)));
    }
  }

  lemma LiteralIs(t: Tables, tok: Token)
    requires LengthsOk(t) && TokenOk(tok) && tok.Literal?
    ensures LSym(t, tok) == tok.c
  {
  }

  /** A whole block: the machine ends between blocks, with the expansion of the
      tokens behind what was there and everything after the block unread. */
  lemma {:induction false} BlockRun(s: State, t: Tables, ts: seq<Token>, more: seq<bool>)
    requires Ready(s) && LengthsOk(t) && DistsOk(t) && AllEncodable(t, s.llens, s.dlens, ts) && Within(s.out, ts)
    requires s.unread == BlockBits(t, s.llens, s.dlens, ts) + more
    ensures Reachable(s, s.(mode := TYPE, unread := more, out := Expand(s.out, ts)))
    decreases |ts|
  {
    hide Step, Reachable, CodeOk, SymBits, LengthsOk, DistsOk, TokenBits, Apply;
    if ts == [] {
      assert s.unread == SymBits(s.llens, END_BLOCK) + more;
      EndRun(s, more);
    } else {
      var rest := BlockBits(t, s.llens, s.dlens, ts[1..]) + more;
      BlockSplit(t, s.llens, s.dlens, ts, more);
      assert Encodable(t, s.llens, s.dlens, ts[0]);
      TokenRun(s, t, ts[0], rest);
      var u := s.(unread := rest, out := Apply(s.out, ts[0]));
      BlockRun(u, t, ts[1..], more);
      ReachableJoin(s, u, s.(mode := TYPE, unread := more, out := Expand(s.out, ts)));
    }
  }

  lemma BlockSplit(t: Tables, llens: seq<nat>, dlens: seq<nat>, ts: seq<Token>, more: seq<bool>)
    requires LengthsOk(t) && DistsOk(t) && AllEncodable(t, llens, dlens, ts) && ts != []
    ensures AllEncodable(t, llens, dlens, ts[1..]) && Encodable(t, llens, dlens, ts[0])
    ensures BlockBits(t, llens, dlens, ts) + more
         == TokenBits(t, llens, dlens, ts[0]) + (BlockBits(t, llens, dlens, ts[1..]) + more)
  {
    hide Encodable, TokenBits, SymBits;
    assert Encodable(t, llens, dlens, ts[0]);
  }
}
