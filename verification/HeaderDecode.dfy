/** What the decoder makes of a block header: it ends up with exactly the codes the
    encoder sent. */
module HeaderDecode {
  import opened Bits
  import opened Canonical
  import opened InflateTable
  import opened InflateMachine
  import opened Tokens
  import opened CodeLengths
  import opened BlockDecode

  // ------------------------------------------------------------- the code lengths

  lemma EnterGrows(p: seq<nat>, i: Item)
    ensures |Enter(p, i)| > |p| && p <= Enter(p, i)
  {
  }

  lemma {:induction false} EnterAllGrows(p: seq<nat>, items: seq<Item>)
    ensures |EnterAll(p, items)| >= |p|
    decreases |items|
  {
    hide Enter;
    if items == [] {
    } else {
      EnterGrows(p, items[0]);
      EnterAllGrows(Enter(p, items[0]), items[1..]);
    }
  }

  /** The machine in the middle of a dynamic header's code lengths. */
  predicate InLengths(s: State) {
    && s.mode == CODELENS && CodeOk(CODES, s.clens) && |s.lens| == LENS_SIZE
    && s.nlen <= 286 && s.ndist <= 30 && s.have <= s.nlen + s.ndist
  }

  /** Only the lengths entered and the bits left differ. */
  predicate OnlyLengths(s: State, t: State) {
    t == s.(lens := t.lens, have := t.have, unread := t.unread) && |t.lens| == |s.lens| && t.have <= |t.lens|
  }

  lemma ItemStep(s: State, i: Item, more: seq<bool>)
    requires InLengths(s) && s.have < s.nlen + s.ndist && ItemCodable(s.clens, i)
             && s.unread == ItemBits(s.clens, i) + more
    ensures s.clens[i.sym] <= |s.unread|
    ensures Step(s) == UseSym(s, i.sym, s.clens[i.sym])
  {
    hide Step, Decode, UseSym, CodeOk, SymBits, ToBits, RepeatBits, Pow2;
    var rest := ToBits(i.extra, RepeatBits(i.sym)) + more;
    assert s.unread == SymBits(s.clens, i.sym) + rest;
    DecodeSym(CODES, s.clens, i.sym, rest);
    SymLength(s.clens, i.sym);
    CodeLensAt(s);
  }

  lemma SymLength(lens: seq<nat>, s: nat)
    requires s < |lens|
    ensures |SymBits(lens, s)| == lens[s]
  {
  }

  /** Reading an item's extra bits. */
  lemma ItemRead(s: State, i: Item, more: seq<bool>)
    requires ItemCodable(s.clens, i) && s.unread == ItemBits(s.clens, i) + more
    ensures var n, x := s.clens[i.sym], RepeatBits(i.sym);
            && n + x <= |s.unread| && Drop(s, n + x) == s.(unread := more) && Peek(Drop(s, n), x) == i.extra
            && (x == 0 ==> Drop(s, n) == s.(unread := more))
  {
    hide ToBits, SymBits, Pow2, Peek, RepeatBits;
    var n, x := s.clens[i.sym], RepeatBits(i.sym);
    SymLength(s.clens, i.sym);
    var front, rest := SymBits(s.clens, i.sym), ToBits(i.extra, x) + more;
    assert s.unread == front + rest;
    DropFront(s, front, rest);
    ExtraRead(Drop(s, n), i.extra, x, more);
    DropFront(s, front + ToBits(i.extra, x), more);
  }

  /** One item: its lengths are entered. */
  lemma ItemRun(s: State, i: Item, more: seq<bool>) returns (t: State)
    requires InLengths(s) && ItemCodable(s.clens, i) && s.unread == ItemBits(s.clens, i) + more
    requires |Enter(s.lens[..s.have], i)| <= s.nlen + s.ndist && (i.sym == REP_3_6 ==> s.have > 0)
    ensures Reachable(s, t) && InLengths(t) && OnlyLengths(s, t) && t.unread == more
    ensures t.lens[..t.have] == Enter(s.lens[..s.have], i)
  {
    hide Step, Reachable, CodeOk, ItemBits, Pow2, Peek, Drop;
    var p := s.lens[..s.have];
    EnterGrows(p, i);
    ItemStep(s, i, more);
    ItemRead(s, i, more);
    t := UseSym(s, i.sym, s.clens[i.sym]).value;
    ReachableStep(s);
    EnteredIs(s, i, more, t);
  }

  lemma EnteredIs(s: State, i: Item, more: seq<bool>, t: State)
    requires InLengths(s) && ItemCodable(s.clens, i) && s.have < s.nlen + s.ndist
    requires |Enter(s.lens[..s.have], i)| <= s.nlen + s.ndist && (i.sym == REP_3_6 ==> s.have > 0)
    requires var n, x := s.clens[i.sym], RepeatBits(i.sym);
             && n + x <= |s.unread| && Drop(s, n + x) == s.(unread := more) && Peek(Drop(s, n), x) == i.extra
             && (x == 0 ==> Drop(s, n) == s.(unread := more))
    requires UseSym(s, i.sym, s.clens[i.sym]) == Some(t)
    ensures InLengths(t) && OnlyLengths(s, t) && t.unread == more
    ensures t.lens[..t.have] == Enter(s.lens[..s.have], i)
  {
    hide CodeOk, Pow2, Peek, Drop;
    var p := s.lens[..s.have];
    if i.sym < 16 {
      assert t.lens[..t.have] == p + [i.sym];
    } else {
      var v := if i.sym == REP_3_6 then s.lens[s.have - 1] else 0;
      var c := (if i.sym < 18 then 3 else 11) + i.extra;
      assert t == EnterRun(s.(unread := more), c, v);
      assert t.lens[..t.have] == p + Copies(v, c);
    }
  }

  /** All items: the lengths they stand for are entered. */
  lemma {:induction false} ItemsRun(s: State, items: seq<Item>, more: seq<bool>) returns (t: State)
    requires InLengths(s) && AllCodable(s.clens, items) && s.unread == ItemsBits(s.clens, items) + more
    requires |EnterAll(s.lens[..s.have], items)| <= s.nlen + s.ndist
    requires s.have == 0 && items != [] ==> items[0].sym != REP_3_6
    ensures Reachable(s, t) && InLengths(t) && OnlyLengths(s, t) && t.unread == more
    ensures t.lens[..t.have] == EnterAll(s.lens[..s.have], items)
    decreases |items|
  {
    hide Step, Reachable, CodeOk, ItemBits, Enter, ItemCodable;
    if items == [] {
      t := s;
      assert s.unread == more;
      ReachableSelf(s);
    } else {
      var p := s.lens[..s.have];
      EnterAllGrows(Enter(p, items[0]), items[1..]);
      EnterGrows(p, items[0]);
      var rest := ItemsBits(s.clens, items[1..]) + more;
      assert s.unread == ItemBits(s.clens, items[0]) + rest;
      var u := ItemRun(s, items[0], rest);
      t := ItemsRun(u, items[1..], more);
      ReachableJoin(s, u, t);
    }
  }

  lemma {:induction false} FirstItem(lens: seq<nat>, n: nat, count: nat)
    requires n <= |lens| && LensOk(lens) && (n < |lens| ==> count < MaxCount(-1, lens[n]))
    ensures Items(lens, n, -1, count) != [] ==> Items(lens, n, -1, count)[0].sym != REP_3_6
    decreases |lens| - n
  {
    if n >= |lens| {
    } else {
      var cur := lens[n];
      if count + 1 < MaxCount(-1, cur) && cur == NextLen(lens, n) {
        FirstItem(lens, n + 1, count + 1);
      } else {
        FirstOfRun(cur, count + 1);
      }
    }
  }

  lemma FirstOfRun(cur: nat, count: nat)
    requires 1 <= count <= MaxCount(-1, cur) && cur <= MAX_BITS
    ensures Emit(-1, cur, count) != [] && Emit(-1, cur, count)[0].sym != REP_3_6
  {
  }

  // ------------------------------------------------- the code length code's lengths

  /** Lengths k..n of the code length code, in the order they are sent. */
  function OrderBits(blens: seq<nat>, k: nat, n: nat): (r: seq<bool>)
    requires |blens| == BL_CODES && n <= BL_CODES
    decreases n - k
  {
    if k >= n then [] else ToBits(blens[ORDER[k]], 3) + OrderBits(blens, k + 1, n)
  }

  /** The first k lengths in that order are there. */
  predicate OrderKnown(lens: seq<nat>, blens: seq<nat>, k: nat)
    requires |lens| == LENS_SIZE && |blens| == BL_CODES
  {
    forall i :: 0 <= i < k && i < BL_CODES ==> lens[ORDER[i]] == blens[ORDER[i]]
  }

  lemma OrderNext(lens: seq<nat>, blens: seq<nat>, k: nat)
    requires |lens| == LENS_SIZE && |blens| == BL_CODES && k < BL_CODES && OrderKnown(lens, blens, k)
    ensures OrderKnown(lens[ORDER[k] := blens[ORDER[k]]], blens, k + 1)
  {
  }

  lemma OrderStep(s: State, x: nat, more: seq<bool>)
    requires s.mode == LENLENS && |s.lens| == LENS_SIZE && s.have < s.ncode && s.have < BL_CODES && x < 8
    requires s.unread == ToBits(x, 3) + more
    ensures Step(s) == Some(s.(unread := more, lens := s.lens[ORDER[s.have] := x], have := s.have + 1))
  {
    hide Step, ToBits, Pow2, Peek, Drop, ZeroRest, Accepts;
    Pow2Values();
    ExtraRead(s, x, 3, more);
    LenLensAt(s);
  }

  lemma OrderSplit(blens: seq<nat>, k: nat, n: nat, more: seq<bool>)
    requires k <= n <= BL_CODES && |blens| == BL_CODES
    ensures k == n ==> OrderBits(blens, k, n) + more == more
    ensures k < n ==> OrderBits(blens, k, n) + more == ToBits(blens[ORDER[k]], 3) + (OrderBits(blens, k + 1, n) + more)
  {
    hide ToBits;
  }

  lemma {:induction false} OrderRun(s: State, blens: seq<nat>, more: seq<bool>) returns (t: State)
    requires s.mode == LENLENS && |s.lens| == LENS_SIZE && s.have <= s.ncode <= BL_CODES
    requires |blens| == BL_CODES && (forall p :: 0 <= p < BL_CODES ==> blens[p] < 8)
             && OrderKnown(s.lens, blens, s.have)
    requires s.unread == OrderBits(blens, s.have, s.ncode) + more
    ensures Reachable(s, t) && t == s.(lens := t.lens, have := s.ncode, unread := more) && |t.lens| == LENS_SIZE
    ensures OrderKnown(t.lens, blens, s.ncode)
    decreases s.ncode - s.have
  {
    hide Step, Reachable, ToBits, OrderKnown, Pow2, OrderBits;
    t := s;
    OrderSplit(blens, s.have, s.ncode, more);
    if s.have == s.ncode {
      assert s.unread == more;
      ReachableSelf(s);
    } else {
      var k := s.have;
      var rest := OrderBits(blens, k + 1, s.ncode) + more;
      var x := blens[ORDER[k]];
      OrderStep(s, x, rest);
      OrderNext(s.lens, blens, k);
      var u := s.(unread := rest, lens := s.lens[ORDER[k] := x], have := k + 1);
      ReachableStep(s);
      t := OrderRun(u, blens, more);
      ReachableJoin(s, u, t);
    }
  }

  /** What is not sent is zero. */
  lemma {:induction false} ZeroRestKnown(lens: seq<nat>, blens: seq<nat>, k: nat)
    requires |lens| == LENS_SIZE && |blens| == BL_CODES && OrderKnown(lens, blens, k) && k <= BL_CODES
    requires forall i :: k <= i < BL_CODES ==> blens[ORDER[i]] == 0
    ensures OrderKnown(ZeroRest(lens, k), blens, BL_CODES)
    decreases BL_CODES - k
  {
    hide OrderKnown;
    if k == BL_CODES {
    } else {
      OrderNext(lens, blens, k);
      ZeroRestKnown(lens[ORDER[k] := 0], blens, k + 1);
    }
  }

  lemma AllKnown(lens: seq<nat>, blens: seq<nat>)
    requires |lens| == LENS_SIZE && |blens| == BL_CODES && OrderKnown(lens, blens, BL_CODES)
    ensures lens[..19] == blens
  {
    forall p | 0 <= p < BL_CODES
      ensures lens[p] == blens[p]
    {
      InOrder(p);
    }
  }

  /** Every symbol has its place in the order. */
  // -------------------------------------------------------------------- the header

  /** The three codes of a dynamic block and how many code length lengths to send. */
  datatype Codes = Codes(llens: seq<nat>, dlens: seq<nat>, blens: seq<nat>, blcodes: nat)

  /** The code length code has no lengths from place k of the order on. */
  predicate RestZero(blens: seq<nat>, k: nat)
    requires |blens| == BL_CODES
  {
    forall i :: k <= i < BL_CODES ==> blens[ORDER[i]] == 0
  }

  predicate CodesOk(c: Codes) {
    && 257 <= |c.llens| <= 286 && 1 <= |c.dlens| <= 30 && |c.blens| == BL_CODES && 4 <= c.blcodes <= BL_CODES
    && CodeOk(LENS, c.llens) && CodeOk(DISTS, c.dlens) && CodeOk(CODES, c.blens)
    && (forall p :: 0 <= p < BL_CODES ==> c.blens[p] < 8)
    && RestZero(c.blens, c.blcodes)
    && AllCodable(c.blens, TreeItems(c.llens)) && AllCodable(c.blens, TreeItems(c.dlens))
  }

  function CountBits(c: Codes): seq<bool>
    requires CodesOk(c)
  {
    ToBits(|c.llens| - 257, 5) + ToBits(|c.dlens| - 1, 5) + ToBits(c.blcodes - 4, 4)
  }

  /** send_all_trees, as bits. */
  function TreesBits(c: Codes): seq<bool>
    requires CodesOk(c)
  {
    CountBits(c) + OrderBits(c.blens, 0, c.blcodes)
      + ItemsBits(c.blens, TreeItems(c.llens)) + ItemsBits(c.blens, TreeItems(c.dlens))
  }

  /** The counts as one number of 14 bits. */
  lemma CountsValue(a: nat, b: nat, c: nat)
    requires a < 32 && b < 32 && c < 16
    ensures var h := FromBits(ToBits(a, 5) + ToBits(b, 5) + ToBits(c, 4));
            Hlit(h) == a + 257 && Hdist(h) == b + 1 && Hclen(h) == c + 4
  {
    hide ToBits, FromBits, Pow2, Low, Shr, Shl, Hlit, Hdist, Hclen;
    var x, y, z := ToBits(a, 5), ToBits(b, 5), ToBits(c, 4);
    FromBitsAppend(x + y, z);
    FromBitsAppend(x, y);
    FromToBits(a, 5);
    FromToBits(b, 5);
    FromToBits(c, 4);
    Pow2Values();
    LowSmall(a, 5);
    LowSmall(b, 5);
    LowSmall(c, 4);
    ShlIsMul(b, 5);
    ShlIsMul(c, 10);
    CountFields(a, b, c);
  }

  lemma CountFields(a: nat, b: nat, c: nat)
    requires a < 32 && b < 32
    ensures var h := a + b * 32 + c * 1024; Hlit(h) == a + 257 && Hdist(h) == b + 1 && Hclen(h) == c + 4
  {
    var h := a + b * 32 + c * 1024;
    DivModUnique(h, 32, b + 32 * c, a);
    DivModUnique(b + 32 * c, 32, c, b);
    DivModUnique(h, 1024, c, a + 32 * b);
  }

  lemma CountsRead(c: Codes)
    requires CodesOk(c)
    ensures var h := FromBits(CountBits(c));
            Hlit(h) == |c.llens| && Hdist(h) == |c.dlens| && Hclen(h) == c.blcodes && |CountBits(c)| == 14
  {
    hide ToBits, FromBits, CodesOk;
    var a, b, d := CountsSmall(c);
    CountsValue(a, b, d);
  }

  lemma CountsSmall(c: Codes) returns (a: nat, b: nat, d: nat)
    requires CodesOk(c)
    ensures a == |c.llens| - 257 && b == |c.dlens| - 1 && d == c.blcodes - 4 && a < 32 && b < 32 && d < 16
    ensures CountBits(c) == ToBits(a, 5) + ToBits(b, 5) + ToBits(d, 4)
  {
    hide CodeOk, AllCodable, TreeItems;
    a, b, d := |c.llens| - 257, |c.dlens| - 1, c.blcodes - 4;
  }

  /** A header leaves output and flags alone. */
  predicate SameRest(s: State, t: State) {
    && t.out == s.out && t.wrap == s.wrap && t.last == s.last
    && t.length == s.length && t.offset == s.offset && t.extra == s.extra
  }

  lemma CountsRun(s: State, c: Codes, more: seq<bool>)
    requires s.mode == TABLE && CodesOk(c) && s.unread == CountBits(c) + more
    ensures Step(s) == Some(s.(mode := LENLENS, nlen := |c.llens|, ndist := |c.dlens|, ncode := c.blcodes, have := 0,
                               unread := more))
  {
    hide Step, CodeOk, AllCodable, TreeItems, CountBits, Hlit, Hdist, Hclen, Drop, Peek;
    CountsRead(c);
    DropFront(s, CountBits(c), more);
    TableAt(s);
  }

  /** The code length code is known. */
  lemma OrderDone(s: State, c: Codes)
    requires CodesOk(c) && s.mode == LENLENS && |s.lens| == LENS_SIZE && s.have == s.ncode == c.blcodes
    requires OrderKnown(s.lens, c.blens, c.blcodes)
    ensures var lens := ZeroRest(s.lens, s.have);
            Step(s) == Some(s.(mode := CODELENS, lens := lens, clens := c.blens, have := 0))
  {
    hide Step, CodeOk, AllCodable, TreeItems, OrderKnown, ZeroRest, Accepts;
    ZeroRestKnown(s.lens, c.blens, c.blcodes);
    AllKnown(ZeroRest(s.lens, s.have), c.blens);
    assert Accepts(CODES, c.blens) by { CodeAccepted(CODES, c.blens); }
    LenLensAt(s);
  }

  lemma CodeAccepted(ty: CodeType, lens: seq<nat>)
    requires CodeOk(ty, lens)
    ensures Accepts(ty, lens) && LensOk(lens)
  {
    hide Accepts;
  }

  /** Both lists of lengths, one behind the other. */
  lemma LengthsRun(s: State, c: Codes, more: seq<bool>) returns (t: State)
    requires CodesOk(c) && InLengths(s) && s.have == 0 && s.clens == c.blens
    requires s.nlen == |c.llens| && s.ndist == |c.dlens|
    requires s.unread == ItemsBits(c.blens, TreeItems(c.llens)) + ItemsBits(c.blens, TreeItems(c.dlens)) + more
    ensures Reachable(s, t) && OnlyLengths(s, t) && InLengths(t) && t.unread == more
    ensures t.have == t.nlen + t.ndist && t.lens[..t.have] == c.llens + c.dlens
  {
    hide Step, Reachable, CodeOk, TreeItems, ItemsBits, AllCodable;
    CodeAccepted(LENS, c.llens);
    CodeAccepted(DISTS, c.dlens);
    var rest := ItemsBits(c.blens, TreeItems(c.dlens)) + more;
    assert s.unread == ItemsBits(c.blens, TreeItems(c.llens)) + rest;
    TreeRoundTrip([], c.llens);
    assert s.lens[..0] == [] && [] + c.llens == c.llens;
    FirstNotRepeat(c.llens);
    var u := ItemsRun(s, TreeItems(c.llens), rest);
    TreeRoundTrip(c.llens, c.dlens);
    assert u.have == |u.lens[..u.have]| == |c.llens|;
    t := ItemsRun(u, TreeItems(c.dlens), more);
    assert t.have == |t.lens[..t.have]|;
    ReachableJoin(s, u, t);
  }

  lemma FirstNotRepeat(lens: seq<nat>)
    requires LensOk(lens)
    ensures TreeItems(lens) != [] ==> TreeItems(lens)[0].sym != REP_3_6
  {
    FirstItem(lens, 0, 0);
  }

  lemma CodesKnown(s: State, c: Codes)
    requires CodesOk(c) && InLengths(s) && s.have == s.nlen + s.ndist && s.lens[..s.have] == c.llens + c.dlens
    requires s.nlen == |c.llens| && s.ndist == |c.dlens|
    ensures Step(s) == Some(s.(mode := LEN, llens := c.llens, dlens := c.dlens))
  {
    hide Step, AllCodable, TreeItems, Accepts;
    CodeAccepted(LENS, c.llens);
    CodeAccepted(DISTS, c.dlens);
    assert s.lens[..s.nlen] == s.lens[..s.have][..s.nlen] == c.llens;
    assert s.lens[s.nlen..s.nlen + s.ndist] == s.lens[..s.have][s.nlen..] == c.dlens;
    assert |s.clens| <= 19;
    LensDone(s);
  }

  /** The whole header of a dynamic block. */
  lemma TreesRun(s: State, c: Codes, more: seq<bool>) returns (t: State)
    requires CodesOk(c) && s.mode == TABLE && |s.lens| == LENS_SIZE && s.unread == TreesBits(c) + more
    ensures Reachable(s, t) && SameRest(s, t) && t.mode == LEN && t.llens == c.llens && t.dlens == c.dlens
    ensures t.unread == more && |t.lens| == LENS_SIZE
  {
    hide Step, Reachable, CodeOk, TreeItems, ItemsBits, AllCodable, CountBits, OrderBits, OrderKnown, ZeroRest;
    CodeAccepted(LENS, c.llens);
    CodeAccepted(DISTS, c.dlens);
    var lists := ItemsBits(c.blens, TreeItems(c.llens)) + ItemsBits(c.blens, TreeItems(c.dlens)) + more;
    var order := OrderBits(c.blens, 0, c.blcodes) + lists;
    assert s.unread == CountBits(c) + order;
    CountsRun(s, c, order);
    ReachableStep(s);
    var a := Step(s).value;
    NoneKnown(a.lens, c.blens);
    var b := OrderRun(a, c.blens, lists);
    ReachableJoin(s, a, b);
    OrderDone(b, c);
    ReachableStep(b);
    var d := Step(b).value;
    ReachableJoin(s, b, d);
    var e := LengthsRun(d, c, more);
    ReachableJoin(s, d, e);
    CodesKnown(e, c);
    ReachableStep(e);
    t := Step(e).value;
    ReachableJoin(s, e, t);
  }

  lemma NoneKnown(lens: seq<nat>, blens: seq<nat>)
    requires |lens| == LENS_SIZE && |blens| == BL_CODES
    ensures OrderKnown(lens, blens, 0)
  {
  }
}
