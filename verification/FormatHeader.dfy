/** inflate.c: the header of a dynamic block that is read is one of the format. */
module FormatHeader {
  import opened Bits
  import opened Canonical
  import opened InflateTable
  import opened InflateMachine
  import opened CodeLengths
  import opened DeflateFormat
  import opened FormatRead
  import opened HeaderDecode
  import T = Tokens

  // ------------------------------------------------------------------------ counts

  /** Three numbers in one of 14 bits. */
  lemma CountsSplit(h: nat)
    requires h < Pow2(14)
    ensures ToBits(h, 14) == ToBits(h % 32, 5) + ToBits(h / 32 % 32, 5) + ToBits(h / 1024, 4) && h / 1024 < 16
  {
    hide ToBits, Pow2, Low, Shr;
    Pow2Values();
    ToBitsAppend(h, 10, 4);
    ToBitsAppend(h, 5, 5);
    HighPart(h, 10);
    HighPart(h, 5);
    HighPart(h / 32, 5);
    ToBitsLow(h, 5, 5);
    ToBitsLow(h / 32, 5, 5);
  }

  lemma CountsOf(s: State, n: nat, t: State) returns (u: State)
    requires Ends(s, n, t) && s.mode == TABLE
    ensures u.mode == LENLENS && u.have == 0 && 257 <= u.nlen <= 286 && 1 <= u.ndist <= 30 && 4 <= u.ncode <= BL_CODES
    ensures s.unread == ToBits(u.nlen - 257, 5) + ToBits(u.ndist - 1, 5) + ToBits(u.ncode - 4, 4) + u.unread
    ensures n > 0 && Ends(u, n - 1, t) && u.out == s.out && FormatRead.Kept(s, u)
  {
    hide StateOk, Step, ToBits, Pow2, Peek;
    Onward(s, n, t);
    TableAt(s);
    u := Step(s).value;
    PeekIs(s, 14);
    CountsSplit(Peek(s, 14));
  }

  // ----------------------------------------------------------- the code length code

  lemma OrderInjective(i: nat, j: nat)
    requires i < j < BL_CODES
    ensures ORDER[i] != ORDER[j]
  {
  }

  /** Setting the lengths not sent to zero keeps those that were. */
  lemma {:induction false} ZeroRestKeeps(lens: seq<nat>, k: nat, i: nat)
    requires |lens| == LENS_SIZE && k <= BL_CODES && i < BL_CODES
    ensures ZeroRest(lens, k)[ORDER[i]] == if i < k then lens[ORDER[i]] else 0
    decreases BL_CODES - k
  {
    if k == BL_CODES {
    } else {
      if i < k {
        OrderInjective(i, k);
      } else if k < i {
        OrderInjective(k, i);
      }
      ZeroRestKeeps(lens[ORDER[k] := 0], k + 1, i);
      ZeroAt(lens, k);
    }
  }

  lemma {:induction false} ZeroAt(lens: seq<nat>, k: nat)
    requires |lens| == LENS_SIZE && k < BL_CODES
    ensures ORDER[k] < LENS_SIZE && lens[ORDER[k] := 0][ORDER[k]] == 0
  {
  }

  /** All lengths of the code length code have been read. */
  lemma OrderEnd(s: State, n: nat, t: State) returns (clens: seq<nat>, u: State)
    requires Ends(s, n, t) && s.mode == LENLENS && s.have == s.ncode <= BL_CODES
    ensures |clens| == BL_CODES && (forall p :: 0 <= p < BL_CODES ==> clens[p] < 8) && Accepts(CODES, clens)
    ensures |s.lens| == LENS_SIZE && OrderKnown(s.lens, clens, s.have) && RestZero(clens, s.ncode)
    ensures n > 0 && Ends(u, n - 1, t) && u == s.(lens := u.lens, clens := clens, have := 0, mode := CODELENS)
  {
    hide Step, Accepts, CodeOk;
    SmallOnes(s);
    hide StateOk;
    Onward(s, n, t);
    LenLensAt(s);
    u := Step(s).value;
    clens := u.clens;
    forall i | 0 <= i < BL_CODES
      ensures clens[ORDER[i]] == (if i < s.have then s.lens[ORDER[i]] else 0) < 8
    {
      ZeroRestKeeps(s.lens, s.have, i);
    }
    forall p | 0 <= p < BL_CODES
      ensures clens[p] < 8
    {
      InOrder(p);
    }
  }

  lemma SmallOnes(s: State)
    requires StateOk(s) && s.mode == LENLENS
    ensures |s.lens| == LENS_SIZE && s.have <= BL_CODES && forall i :: 0 <= i < s.have ==> s.lens[ORDER[i]] < 8
  {
    hide CodeOk;
  }

  /** The lengths of the code length code. */
  lemma {:induction false} OrderOf(s: State, n: nat, t: State) returns (clens: seq<nat>, u: State, m: nat)
    requires Ends(s, n, t) && s.mode == LENLENS && s.have <= s.ncode <= BL_CODES
    ensures |clens| == BL_CODES && (forall p :: 0 <= p < BL_CODES ==> clens[p] < 8) && Accepts(CODES, clens)
    ensures |s.lens| == LENS_SIZE && OrderKnown(s.lens, clens, s.have) && RestZero(clens, s.ncode)
    ensures s.unread == OrderBits(clens, s.have, s.ncode) + u.unread
    ensures Ends(u, m, t) && m < n
    ensures u == s.(lens := u.lens, clens := clens, have := 0, mode := CODELENS, unread := u.unread)
    decreases n
  {
    hide StateOk, Step, Accepts, ToBits, Pow2, Peek, OrderBits, RestZero;
    if s.have == s.ncode {
      clens, u := OrderEnd(s, n, t);
      m := n - 1;
      OrderSplit(clens, s.have, s.ncode, u.unread);
    } else {
      var x, a := OrderStepOf(s, n, t);
      clens, u, m := OrderOf(a, n - 1, t);
      OrderBack(s.lens, clens, s.have, x);
      OrderSplit(clens, s.have, s.ncode, u.unread);
    }
  }

  lemma OrderStepOf(s: State, n: nat, t: State) returns (x: nat, u: State)
    requires Ends(s, n, t) && s.mode == LENLENS && s.have < s.ncode <= BL_CODES
    ensures |s.lens| == LENS_SIZE && s.unread == ToBits(x, 3) + u.unread && n > 0 && Ends(u, n - 1, t)
    ensures u == s.(lens := s.lens[ORDER[s.have] := x], have := s.have + 1, unread := u.unread)
  {
    hide StateOk, Step, Accepts, ToBits, Pow2, Peek, ZeroRest;
    Onward(s, n, t);
    LenLensAt(s);
    x, u := Peek(s, 3), Step(s).value;
    PeekIs(s, 3);
  }

  lemma OrderBack(lens: seq<nat>, clens: seq<nat>, k: nat, x: nat)
    requires |lens| == LENS_SIZE && |clens| == BL_CODES && k < BL_CODES
    requires OrderKnown(lens[ORDER[k] := x], clens, k + 1)
    ensures OrderKnown(lens, clens, k) && clens[ORDER[k]] == x
  {
    forall i | 0 <= i < k
      ensures lens[ORDER[i]] == clens[ORDER[i]]
    {
      OrderInjective(i, k);
    }
  }

  // ------------------------------------------------------------------- the lengths

  lemma LengthsState(s: State)
    requires StateOk(s) && s.mode == CODELENS
    ensures InLengths(s) && 257 <= s.nlen && 1 <= s.ndist
  {
    hide CodeOk;
  }

  /** A symbol of the code length code with what it repeats. */
  lemma ItemOf(s: State, n: nat, t: State) returns (i: Item, u: State)
    requires Ends(s, n, t) && s.mode == CODELENS && s.have < s.nlen + s.ndist && Complete(s.clens)
    ensures ItemCodable(s.clens, i) && s.unread == ItemBits(s.clens, i) + u.unread
    ensures n > 0 && Ends(u, n - 1, t) && OnlyLengths(s, u) && InLengths(s) && InLengths(u)
    ensures u.lens[..u.have] == Enter(s.lens[..s.have], i) && (s.have == 0 ==> i.sym != REP_3_6)
  {
    hide StateOk, Step, CodeOk, Decode, FromBits, ToBits, Pow2, T.SymBits, Complete, Peek, RepeatBits, Drop, UseSym;
    LengthsState(s);
    CodeSize(CODES, s.clens);
    Onward(s, n, t);
    CodeLensAt(s);
    u := Step(s).value;
    var sym := CodeSymbol(s);
    i := UsedItem(s, sym, u);
  }

  /** A complete code has a symbol for all that can follow. */
  lemma CodeSymbol(s: State) returns (sym: nat)
    requires InLengths(s) && |s.clens| <= 19 && s.have < s.nlen + s.ndist && Complete(s.clens) && StepCodeLens(s).Some?
    ensures sym < 19 && Has(s.clens, sym) && s.clens[sym] <= |s.unread|
    ensures s.unread == T.SymBits(s.clens, sym) + s.unread[s.clens[sym]..]
    ensures StepCodeLens(s) == UseSym(s, sym, s.clens[sym])
  {
    hide CodeOk, Decode, FromBits, T.SymBits, Complete, UseSym;
    var w := FromBits(s.unread);
    var c := Covering(s.clens, w);
    assert Starts(s.clens, c, w);
    sym := SymbolOf(CODES, s.clens, s.unread);
  }

  lemma Covering(lens: seq<nat>, w: nat) returns (s: nat)
    requires CodeOk(CODES, lens) && Complete(lens)
    ensures Starts(lens, s, w)
  {
    hide Complete, Accepts, Code, Low;
    s := Covered(lens, w);
  }

  /** The item that was used. */
  lemma UsedItem(s: State, sym: nat, u: State) returns (i: Item)
    requires InLengths(s) && s.have < s.nlen + s.ndist && sym < 19 && Has(s.clens, sym) && s.clens[sym] <= |s.unread|
    requires s.unread == T.SymBits(s.clens, sym) + s.unread[s.clens[sym]..]
    requires UseSym(s, sym, s.clens[sym]) == Some(u) && u.mode != BAD
    ensures ItemCodable(s.clens, i) && s.unread == ItemBits(s.clens, i) + u.unread
    ensures OnlyLengths(s, u) && InLengths(u)
    ensures u.lens[..u.have] == Enter(s.lens[..s.have], i) && (s.have == 0 ==> i.sym != REP_3_6)
  {
    hide CodeOk, ToBits, Pow2, T.SymBits, Peek, RepeatBits;
    var n, x := s.clens[sym], RepeatBits(sym);
    var a := Drop(s, n);
    i := Item(sym, Peek(a, x));
    PeekIs(a, x);
    var more := Drop(s, n + x).unread;
    assert Drop(a, x).unread == more;
    Grouped(T.SymBits(s.clens, sym), ToBits(i.extra, x), more);
    RepeatNone(sym);
    EnterSize(s, i, u);
    EnteredIs(s, i, more, u);
  }

  lemma RepeatNone(sym: nat)
    ensures sym < 16 ==> RepeatBits(sym) == 0
  {
  }

  /** What is entered fits. */
  lemma EnterSize(s: State, i: Item, u: State)
    requires InLengths(s) && s.have < s.nlen + s.ndist && i.sym < 19 && Has(s.clens, i.sym)
    requires s.clens[i.sym] <= |s.unread| && s.clens[i.sym] + RepeatBits(i.sym) <= |s.unread|
    requires UseSym(s, i.sym, s.clens[i.sym]) == Some(u) && u.mode != BAD
    requires i.extra == Peek(Drop(s, s.clens[i.sym]), RepeatBits(i.sym))
    ensures |Enter(s.lens[..s.have], i)| <= s.nlen + s.ndist && (i.sym == REP_3_6 ==> s.have > 0)
  {
    hide CodeOk, Peek, RepeatBits, Repeat;
  }

  /** All lengths, and the codes that they make. */
  lemma {:induction false} ItemsOf(s: State, n: nat, t: State) returns (items: seq<Item>, u: State, m: nat)
    requires Ends(s, n, t) && s.mode == CODELENS && Complete(s.clens)
    ensures AllCodable(s.clens, items) && s.unread == ItemsBits(s.clens, items) + u.unread
    ensures s.have == 0 && items != [] ==> items[0].sym != REP_3_6
    ensures InLengths(s)
    ensures var all := EnterAll(s.lens[..s.have], items);
            |all| == s.nlen + s.ndist && u.llens == all[..s.nlen] && u.dlens == all[s.nlen..]
    ensures Ends(u, m, t) && m < n && u.mode == LEN && u.out == s.out && FormatRead.Kept(s, u)
    decreases n
  {
    hide StateOk, Step, CodeOk, Complete, ItemBits, ItemCodable, Enter;
    LengthsState(s);
    if s.have == s.nlen + s.ndist {
      items := [];
      u := CodesOf(s, n, t);
      m := n - 1;
      assert ItemsBits(s.clens, items) + u.unread == u.unread;
    } else {
      var i, a := ItemOf(s, n, t);
      var rest;
      rest, u, m := ItemsOf(a, n - 1, t);
      items := [i] + rest;
      assert items[1..] == rest;
      assert ItemsBits(s.clens, items) == ItemBits(s.clens, i) + ItemsBits(s.clens, rest);
      Grouped(ItemBits(s.clens, i), ItemsBits(s.clens, rest), u.unread);
    }
  }

  lemma CodesOf(s: State, n: nat, t: State) returns (u: State)
    requires Ends(s, n, t) && s.mode == CODELENS && InLengths(s) && s.have == s.nlen + s.ndist
    ensures n > 0 && Ends(u, n - 1, t) && u.mode == LEN && u.out == s.out && u.unread == s.unread
    ensures FormatRead.Kept(s, u)
    ensures var all := s.lens[..s.have]; u.llens == all[..s.nlen] && u.dlens == all[s.nlen..]
  {
    hide StateOk, Step, CodeOk, Accepts;
    CodeSize(CODES, s.clens);
    Onward(s, n, t);
    LensDone(s);
    u := Step(s).value;
    assert s.lens[..s.have][..s.nlen] == s.lens[..s.nlen];
    assert s.lens[..s.have][s.nlen..] == s.lens[s.nlen..s.nlen + s.ndist];
  }

  // ------------------------------------------------------- a code without symbols

  /** Without a code for the lengths all of them are read as 0, and then nothing can be read: the
      machine does not come to the end. */
  lemma {:induction false} NoLengths(s: State, n: nat, t: State)
    requires s.mode == CODELENS && Empty(s.clens) && InLengths(s)
    requires forall i :: 0 <= i < s.have ==> s.lens[i] == 0
    ensures !Ends(s, n, t)
    decreases n
  {
    hide StateOk, Step, CodeOk, Decode;
    if Ends(s, n, t) {
      CodeSize(CODES, s.clens);
      if s.have == s.nlen + s.ndist {
        var u := CodesOf(s, n, t);
        assert Empty(u.llens) by {
          assert forall i :: 0 <= i < |u.llens| ==> u.llens[i] == s.lens[i];
        }
        NoneToRead(u, n - 1, t);
      } else {
        Onward(s, n, t);
        CodeLensAt(s);
        EmptyUnmatched(s.clens, FromBits(s.unread));
        NoSymbol(CODES, s.clens, s.unread);
        NoLengths(Step(s).value, n - 1, t);
      }
    }
  }

  lemma EmptyUnmatched(lens: seq<nat>, w: nat)
    requires Empty(lens)
    ensures Unmatched(lens, w)
  {
  }

  lemma NoneToRead(s: State, n: nat, t: State)
    requires s.mode == LEN && Empty(s.llens)
    ensures !Ends(s, n, t)
  {
    hide StateOk, Step;
    if Ends(s, n, t) {
      var sym, rest := LenSymbolOf(s, n, t);
      assert false;
    }
  }

  /** The whole header. */
  lemma HeaderOf(s: State, n: nat, t: State) returns (x: Header, u: State, m: nat)
    requires Ends(s, n, t) && s.mode == TABLE
    ensures HeaderOk(x) && s.unread == HeaderBits(x) + u.unread && u.llens == LLens(x) && u.dlens == DLens(x)
    ensures Ends(u, m, t) && m < n && u.mode == LEN && u.out == s.out && FormatRead.Kept(s, u)
  {
    hide StateOk, Step, CodeOk, ToBits, OrderBits, ItemsBits, Accepts, RestZero, AllCodable, EnterAll, Complete;
    var a := CountsOf(s, n, t);
    var clens, b, k := OrderOf(a, n - 1, t);
    CodeIsComplete(b, k, t);
    var items;
    items, u, m := ItemsOf(b, k, t);
    assert b.lens[..0] == [];
    x := Header(a.nlen, a.ndist, a.ncode, clens, items);
    CodesIn(u);
    HeaderJoin(ToBits(a.nlen - 257, 5) + ToBits(a.ndist - 1, 5) + ToBits(a.ncode - 4, 4),
               OrderBits(clens, 0, a.ncode), ItemsBits(clens, items), u.unread);
  }

  lemma HeaderJoin(a: seq<bool>, b: seq<bool>, c: seq<bool>, rest: seq<bool>)
    ensures a + (b + (c + rest)) == a + (b + c) + rest
  {
    Grouped(b, c, rest);
    Grouped(a, b + c, rest);
  }

  lemma CodeIsComplete(s: State, n: nat, t: State)
    requires Ends(s, n, t) && s.mode == CODELENS && s.have == 0 && |s.clens| == BL_CODES && Accepts(CODES, s.clens)
    ensures Complete(s.clens)
  {
    hide StateOk, Step, CodeOk, Complete;
    LengthsState(s);
    if Empty(s.clens) {
      NoLengths(s, n, t);
    }
  }
}
