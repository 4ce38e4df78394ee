/** inflate.c: a stream that is read to its end is one of the format, and the output is what it
    stands for. */
module FormatRead {
  import opened Bits
  import opened Canonical
  import opened InflateTable
  import opened InflateMachine
  import opened CodeLengths
  import opened DeflateFormat
  import H = HeaderDecode
  import S = StreamDecode
  import T = Tokens

  /** From s, in n steps, the machine comes to the end of the stream. */
  ghost predicate Ends(s: State, n: nat, t: State) {
    StateOk(s) && Reaches(s, n, t) && t.mode == DONE
  }

  /** One step on the way to the end, which does not lead where there is none. */
  lemma Onward(s: State, n: nat, t: State)
    requires Ends(s, n, t) && s.mode != DONE
    ensures n > 0 && Step(s).Some? && Ends(Step(s).value, n - 1, t)
    ensures Step(s).value.mode != BAD && Step(s).value.mode != DICT
  {
    hide StateOk, Step;
    StepOk(s);
    if Step(s).value.mode == BAD || Step(s).value.mode == DICT {
      DeadEnd(Step(s).value);
    }
  }

  lemma DeadEnd(s: State)
    requires s.mode == BAD || s.mode == DICT
    ensures Step(s).None?
  {
  }

  /** What a block leaves alone. */
  predicate Kept(s: State, u: State) {
    u.wrap == s.wrap && u.last == s.last
  }

  predicate KeptCodes(s: State, u: State) {
    Kept(s, u) && u.llens == s.llens && u.dlens == s.dlens
  }

  // ------------------------------------------------------------------------- bits

  /** The bits that a number was read from. */
  lemma PeekIs(s: State, n: nat)
    requires n <= |s.unread|
    ensures s.unread == ToBits(Peek(s, n), n) + Drop(s, n).unread && Peek(s, n) < Pow2(n)
  {
    hide ToBits, FromBits, Pow2;
    ToFromBits(s.unread[..n]);
    FromBitsBound(s.unread[..n]);
    assert s.unread == s.unread[..n] + s.unread[n..];
  }

  /** The symbol that was decoded, unless there is none. */
  lemma SymbolOf(ty: CodeType, lens: seq<nat>, unread: seq<bool>) returns (sym: nat)
    requires CodeOk(ty, lens) && Decode(ty, lens, unread).Some?
    requires !Unmatched(lens, FromBits(unread))
    ensures Has(lens, sym) && sym < MaxSymbols(ty)
    ensures Decode(ty, lens, unread) == Some(Decoded(SymOp(ty, sym), SymVal(ty, sym), lens[sym]))
    ensures lens[sym] <= |unread| && unread == T.SymBits(lens, sym) + unread[lens[sym]..]
  {
    hide Low, FromBits, ToBits, Accepts, SymOp, SymVal, Code;
    var w := FromBits(unread);
    sym := StartSym(lens, w);
    var n := lens[sym];
    FromBitsSplit(unread, n);
    ToFromBits(unread[..n]);
    assert unread == unread[..n] + unread[n..];
  }

  lemma NoSymbol(ty: CodeType, lens: seq<nat>, unread: seq<bool>)
    requires |lens| <= MaxSymbols(ty) && Decode(ty, lens, unread).Some? && Unmatched(lens, FromBits(unread))
    ensures Decode(ty, lens, unread) == Some(NOTHING) && |unread| >= 1
  {
  }

  // ----------------------------------------------------------------- stored blocks

  /** The bytes of a stored block. */
  lemma {:induction false} BytesOf(s: State, n: nat, t: State) returns (data: seq<Byte>, u: State, m: nat)
    requires Ends(s, n, t) && s.mode == COPY
    ensures |data| == s.length && s.unread == BytesToBits(data) + u.unread && u.out == s.out + data
    ensures Ends(u, m, t) && m < n && u.mode == TYPE && Kept(s, u)
    decreases n
  {
    hide StateOk, Step, ToBits, Pow2, Peek;
    Onward(s, n, t);
    CopyAt(s);
    u, m := Step(s).value, n - 1;
    if s.length == 0 {
      data := [];
      assert s.out + data == s.out && BytesToBits(data) + u.unread == u.unread;
    } else {
      var x := Peek(s, 8);
      PeekIs(s, 8);
      var rest, v := [], u;
      rest, u, m := BytesOf(v, m, t);
      data := [x] + rest;
      assert data[1..] == rest;
      assert s.unread == ToBits(x, 8) + (BytesToBits(rest) + u.unread);
      Grouped(ToBits(x, 8), BytesToBits(rest), u.unread);
      Grouped(s.out, [x], rest);
    }
  }

  /** The padding, the lengths and the bytes. */
  lemma StoredOf(s: State, n: nat, t: State) returns (pad: seq<bool>, data: seq<Byte>, u: State, m: nat)
    requires Ends(s, n, t) && s.mode == STORED
    ensures |pad| == |s.unread| % 8 && |data| < 65536
    ensures s.unread == pad + (ToBits(|data|, 16) + ToBits(65535 - |data|, 16) + BytesToBits(data)) + u.unread
    ensures Ends(u, m, t) && m < n && u.mode == TYPE && Kept(s, u) && u.out == s.out + data
  {
    hide StateOk, Step, ToBits, BytesToBits;
    var a, k;
    pad, a, k := AlignedOf(s, n, t);
    var b := LengthOfStored(a, k, t);
    data, u, m := BytesOf(b, k - 1, t);
    var head := ToBits(|data|, 16) + ToBits(65535 - |data|, 16);
    Grouped(head, BytesToBits(data), u.unread);
    Grouped(pad, head + BytesToBits(data), u.unread);
  }

  /** The next byte boundary. */
  lemma AlignedOf(s: State, n: nat, t: State) returns (pad: seq<bool>, u: State, m: nat)
    requires Ends(s, n, t) && s.mode == STORED
    ensures |pad| == |s.unread| % 8 && s.unread == pad + u.unread && |u.unread| % 8 == 0
    ensures Ends(u, m, t) && m <= n && u == s.(unread := u.unread)
  {
    hide StateOk, Step;
    pad := s.unread[..|s.unread| % 8];
    u, m := s, n;
    if pad != [] {
      Onward(s, n, t);
      StoredAt(s);
      u, m := Step(s).value, n - 1;
    }
  }

  /** The length of a stored block and its complement. */
  lemma LengthOfStored(s: State, n: nat, t: State) returns (u: State)
    requires Ends(s, n, t) && s.mode == STORED && |s.unread| % 8 == 0
    ensures u.length < 65536 && s.unread == ToBits(u.length, 16) + ToBits(65535 - u.length, 16) + u.unread
    ensures n > 0 && Ends(u, n - 1, t) && u.mode == COPY && Kept(s, u) && u.out == s.out
  {
    hide StateOk, Step, ToBits, Pow2, Peek;
    Onward(s, n, t);
    StoredAt(s);
    u := Step(s).value;
    PeekIs(s, 32);
    LengthsOf(Peek(s, 32));
  }

  /** A length and its complement in one number. */
  lemma LengthsOf(h: nat)
    requires h < Pow2(32) && h % 65536 == 65535 - h / 65536
    ensures ToBits(h, 32) == ToBits(h % 65536, 16) + ToBits(65535 - h % 65536, 16)
  {
    hide ToBits, Pow2, Low, Shr, Shl;
    Pow2Values();
    ToBitsAppend(h, 16, 16);
    HighPart(h, 16);
    ToBitsLow(h, 16, 16);
  }

  /** The low and the high part of a number. */
  lemma HighPart(h: nat, n: nat)
    ensures Low(h, n) == h % Pow2(n) && Shr(h, n) == h / Pow2(n)
  {
    hide Low, Shr, Shl, Pow2;
    SplitAt(h, n);
    ShlIsMul(Shr(h, n), n);
    DivModUnique(h, Pow2(n), Shr(h, n), Low(h, n));
  }

  // ------------------------------------------------------------------------- parts

  lemma CodesIn(s: State)
    requires StateOk(s) && InDecode(s.mode)
    ensures CodeOk(LENS, s.llens) && CodeOk(DISTS, s.dlens) && |s.llens| <= 288 && |s.dlens| <= 32
  {
    hide CodeOk;
    assert CodeOk(LENS, s.llens) && CodeOk(DISTS, s.dlens);
    CodeSize(LENS, s.llens);
    CodeSize(DISTS, s.dlens);
  }

  lemma CodeSize(ty: CodeType, lens: seq<nat>)
    requires CodeOk(ty, lens)
    ensures |lens| <= MaxSymbols(ty)
  {
    hide Accepts;
  }

  /** What follows a literal/length symbol. */
  function UseSymbol(s: State, sym: nat, rest: seq<bool>): (r: State)
    requires sym < 288
  {
    UseLen(s.(unread := rest), Decoded(SymOp(LENS, sym), SymVal(LENS, sym), 0))
  }

  /** The symbol at the front of what is left of a block. */
  lemma LenSymbolOf(s: State, n: nat, t: State) returns (sym: nat, rest: seq<bool>)
    requires Ends(s, n, t) && s.mode == LEN
    ensures Has(s.llens, sym) && sym < 288 && s.unread == T.SymBits(s.llens, sym) + rest
    ensures n > 0 && Ends(UseSymbol(s, sym, rest), n - 1, t) && UseSymbol(s, sym, rest).mode != BAD
  {
    hide StateOk, Step, CodeOk, Decode, SymOp, SymVal, T.SymBits, FromBits, UseLen;
    CodesIn(s);
    Onward(s, n, t);
    LenAt(s);
    if Unmatched(s.llens, FromBits(s.unread)) {
      NoSymbol(LENS, s.llens, s.unread);
      NothingIsBad(Drop(s, 1));
      assert false;
    }
    sym := SymbolOf(LENS, s.llens, s.unread);
    rest := s.unread[s.llens[sym]..];
    UsedIsNot(s.(unread := rest), SymOp(LENS, sym), SymVal(LENS, sym), s.llens[sym]);
  }

  lemma NothingIsBad(s: State)
    ensures UseLen(s, NOTHING).mode == BAD && UseDist(s, NOTHING).mode == BAD
  {
  }

  /** The number of bits used is not looked at. */
  lemma UsedIsNot(s: State, op: nat, val: nat, used: nat)
    ensures UseLen(s, Decoded(op, val, used)) == UseLen(s, Decoded(op, val, 0))
    ensures UseDist(s, Decoded(op, val, used)) == UseDist(s, Decoded(op, val, 0))
  {
  }

  /** The three kinds of symbols, and the two that are none. */
  lemma SymbolKinds(s: State, sym: nat, rest: seq<bool>)
    requires sym < 288
    ensures var u := UseSymbol(s, sym, rest);
            && (sym < 256 ==> u == s.(unread := rest, mode := LIT, length := sym))
            && (sym == T.END_BLOCK ==> u == s.(unread := rest, mode := TYPE))
            && (257 <= sym <= 285 ==>
                  u == s.(unread := rest, mode := LENEXT, length := LengthBase(sym - 257),
                          extra := LengthBits(sym - 257)))
            && (sym > 285 ==> u.mode == BAD)
  {
    hide LengthBase, LengthBits;
    if 257 <= sym <= 285 {
      LengthTable(sym - 257);
    }
  }

  /** The bytes of a copy. */
  lemma {:induction false} CopiedOf(s: State, n: nat, t: State) returns (u: State, m: nat)
    requires Ends(s, n, t) && s.mode == MATCH
    ensures 1 <= s.offset <= |s.out| && u.out == T.CopyBack(s.out, s.offset, s.length) && u.unread == s.unread
    ensures Ends(u, m, t) && m < n && u.mode == LEN && KeptCodes(s, u)
    decreases n
  {
    hide StateOk, Step;
    Onward(s, n, t);
    MatchAt(s);
    u, m := Step(s).value, n - 1;
    if s.length == 1 {
      assert T.CopyBack(u.out, s.offset, 0) == u.out;
    } else {
      u, m := CopiedOf(u, m, t);
    }
  }

  /** A length. */
  lemma LengthOf(s: State, n: nat, t: State, k: nat) returns (extra: nat, u: State)
    requires Ends(s, n, t) && s.mode == LENEXT && k <= 28 && s.length == LengthBase(k) && s.extra == LengthBits(k)
    ensures extra < Pow2(LengthBits(k)) && s.unread == ToBits(extra, LengthBits(k)) + u.unread
    ensures n > 0 && Ends(u, n - 1, t) && u.mode == DIST && u.length == LengthBase(k) + extra && u.out == s.out
    ensures KeptCodes(s, u)
  {
    hide StateOk, Step, ToBits, Pow2, LengthBase, LengthBits, Peek;
    Onward(s, n, t);
    LenExtAt(s);
    extra, u := Peek(s, s.extra), Step(s).value;
    PeekIs(s, s.extra);
  }

  /** A distance, which does not reach beyond the output. */
  lemma DistanceOf(s: State, n: nat, t: State) returns (d: Coded, u: State, m: nat)
    requires Ends(s, n, t) && s.mode == DIST
    ensures d.sym <= 29 && Has(s.dlens, d.sym) && d.extra < Pow2(DistanceBits(d.sym))
    ensures s.unread == T.SymBits(s.dlens, d.sym) + ToBits(d.extra, DistanceBits(d.sym)) + u.unread
    ensures Ends(u, m, t) && m < n && u.mode == MATCH && u.out == s.out && u.length == s.length
    ensures u.offset == Distance(d) <= |s.out| && KeptCodes(s, u)
  {
    hide StateOk, Step, ToBits, Pow2, T.SymBits, Peek, DistanceBase, DistanceBits;
    var sym, a := DistSymbolOf(s, n, t);
    Onward(a, n - 1, t);
    DistExtAt(a);
    d := Coded(sym, Peek(a, a.extra));
    u, m := Step(a).value, n - 2;
    PeekIs(a, a.extra);
    Grouped(T.SymBits(s.dlens, sym), ToBits(d.extra, DistanceBits(sym)), u.unread);
  }

  lemma DistSymbolOf(s: State, n: nat, t: State) returns (sym: nat, u: State)
    requires Ends(s, n, t) && s.mode == DIST
    ensures Has(s.dlens, sym) && sym <= 29 && s.unread == T.SymBits(s.dlens, sym) + u.unread
    ensures u == s.(unread := u.unread, mode := DISTEXT, offset := DistanceBase(sym), extra := DistanceBits(sym))
    ensures n > 0 && Ends(u, n - 1, t)
  {
    hide StateOk, Step, CodeOk, Decode, T.SymBits, FromBits, DistanceBase, DistanceBits, SymOp, SymVal, UseDist;
    CodesIn(s);
    Onward(s, n, t);
    DistAt(s);
    if Unmatched(s.dlens, FromBits(s.unread)) {
      NoSymbol(DISTS, s.dlens, s.unread);
      NothingIsBad(Drop(s, 1));
      assert false;
    }
    sym := SymbolOf(DISTS, s.dlens, s.unread);
    var rest := s.unread[s.dlens[sym]..];
    DistKinds(s.(unread := rest), sym, s.dlens[sym]);
    u := Step(s).value;
  }

  lemma DistKinds(s: State, sym: nat, used: nat)
    requires sym < 32
    ensures var u := UseDist(s, Decoded(SymOp(DISTS, sym), SymVal(DISTS, sym), used));
            if sym <= 29 then u == s.(mode := DISTEXT, offset := DistanceBase(sym), extra := DistanceBits(sym))
            else u.mode == BAD
  {
    hide DistanceBase, DistanceBits;
    if sym <= 29 {
      DistanceTable(sym);
    }
  }

  /** A copy: its length, its distance and its bytes. */
  lemma CopyOf(s: State, n: nat, t: State, sym: nat) returns (p: Part, u: State, m: nat)
    requires Ends(s, n, t) && s.mode == LENEXT && 257 <= sym <= 285 && Has(s.llens, sym)
    requires s.length == LengthBase(sym - 257) && s.extra == LengthBits(sym - 257)
    ensures PartOk(s.llens, s.dlens, p) && InReach(s.out, p)
    ensures T.SymBits(s.llens, sym) + s.unread == PartBits(s.llens, s.dlens, p) + u.unread
    ensures Ends(u, m, t) && m < n && u.mode == LEN && KeptCodes(s, u) && u.out == Written(s.out, p)
  {
    hide StateOk, Step, ToBits, Pow2, T.SymBits, LengthBase, LengthBits, DistanceBase, DistanceBits, T.CopyBack;
    var extra, a := LengthOf(s, n, t, sym - 257);
    var d, b, k := DistanceOf(a, n - 1, t);
    u, m := CopiedOf(b, k, t);
    p := Copy(Coded(sym, extra), d);
    CopyBits(T.SymBits(s.llens, sym), ToBits(extra, LengthBits(sym - 257)),
             T.SymBits(s.dlens, d.sym), ToBits(d.extra, DistanceBits(d.sym)), u.unread);
  }

  lemma CopyBits(a: seq<bool>, b: seq<bool>, c: seq<bool>, d: seq<bool>, rest: seq<bool>)
    ensures a + (b + (c + d + rest)) == a + (b + (c + d)) + rest
  {
    Grouped(b, c + d, rest);
    Grouped(a, b + (c + d), rest);
  }

  /** The parts of a block and its end. */
  lemma {:induction false} BodyOf(s: State, n: nat, t: State) returns (ps: seq<Part>, u: State, m: nat)
    requires Ends(s, n, t) && s.mode == LEN
    ensures BodyOk(s.llens, s.dlens, ps) && AllInReach(s.out, ps)
    ensures s.unread == BodyBits(s.llens, s.dlens, ps) + u.unread && u.out == AllWritten(s.out, ps)
    ensures Ends(u, m, t) && m < n && u.mode == TYPE && Kept(s, u)
    decreases n
  {
    hide StateOk, Step, T.SymBits, LengthBase, LengthBits, PartBits, PartOk;
    var sym, rest := LenSymbolOf(s, n, t);
    SymbolKinds(s, sym, rest);
    var a := UseSymbol(s, sym, rest);
    if sym == T.END_BLOCK {
      ps, u, m := [], a, n - 1;
      assert [] + T.SymBits(s.llens, sym) == T.SymBits(s.llens, sym);
    } else {
      var p, b, k := PartOf(s, n, t, sym, rest);
      var qs;
      qs, u, m := BodyOf(b, k, t);
      ps := [p] + qs;
      BodyJoin(s.llens, s.dlens, p, qs, u.unread);
      assert ps[1..] == qs;
    }
  }

  /** A part that is not the end. */
  lemma PartOf(s: State, n: nat, t: State, sym: nat, rest: seq<bool>) returns (p: Part, u: State, m: nat)
    requires StateOk(s) && s.mode == LEN && Has(s.llens, sym) && sym < 288 && sym != T.END_BLOCK
    requires s.unread == T.SymBits(s.llens, sym) + rest
    requires n > 0 && Ends(UseSymbol(s, sym, rest), n - 1, t) && UseSymbol(s, sym, rest).mode != BAD
    ensures PartOk(s.llens, s.dlens, p) && InReach(s.out, p)
    ensures s.unread == PartBits(s.llens, s.dlens, p) + u.unread
    ensures Ends(u, m, t) && m < n && u.mode == LEN && KeptCodes(s, u) && u.out == Written(s.out, p)
  {
    hide StateOk, Step, T.SymBits, LengthBase, LengthBits, DistanceBase, DistanceBits, UseLen;
    SymbolKinds(s, sym, rest);
    var a := UseSymbol(s, sym, rest);
    if sym < 256 {
      p := Plain(sym);
      Onward(a, n - 1, t);
      LitAt(a);
      u, m := Step(a).value, n - 2;
    } else {
      p, u, m := CopyOf(a, n - 1, t, sym);
    }
  }

  lemma BodyJoin(llens: seq<nat>, dlens: seq<nat>, p: Part, ps: seq<Part>, rest: seq<bool>)
    requires PartOk(llens, dlens, p) && BodyOk(llens, dlens, ps)
    ensures BodyOk(llens, dlens, [p] + ps)
    ensures PartBits(llens, dlens, p) + (BodyBits(llens, dlens, ps) + rest) == BodyBits(llens, dlens, [p] + ps) + rest
  {
    hide PartBits, T.SymBits, PartOk;
    var qs := [p] + ps;
    assert qs[1..] == ps;
    var a, b, e := PartBits(llens, dlens, p), PartsBits(llens, dlens, ps), T.SymBits(llens, T.END_BLOCK);
    assert PartsBits(llens, dlens, qs) == a + b;
    Grouped(a, b, e);
    Grouped(a, b + e, rest);
  }
}
