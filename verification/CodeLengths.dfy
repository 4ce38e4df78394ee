/** trees.c: how code lengths are sent.  scan_tree and send_tree cut a list of code
    lengths into single lengths and runs; the decoder puts them together again. */
module CodeLengths {
  import opened Bits
  import opened Canonical
  import opened InflateMachine
  import opened BitWriter
  import opened Tokens

  const REP_3_6: nat := 16
  const REPZ_3_10: nat := 17
  const REPZ_11_138: nat := 18
  const BL_CODES: nat := 19
  const GUARD: nat := 0xffff

  /** A symbol of the code length alphabet, with the value of its extra bits. */
  datatype Item = Item(sym: nat, extra: nat)

  predicate ItemOk(i: Item) {
    i.sym < BL_CODES && i.extra < Pow2(RepeatBits(i.sym))
  }

  /** n times the length v. */
  function Copies(v: nat, n: nat): (r: seq<nat>)
    ensures |r| == n && forall i :: 0 <= i < n ==> r[i] == v
  {
    seq(n, _ => v)
  }

  /** What an item adds behind the lengths known so far. */
  function Enter(p: seq<nat>, i: Item): (r: seq<nat>) {
    if i.sym < 16 then p + [i.sym]
    else if i.sym == REP_3_6 then p + Copies(if p == [] then 0 else p[|p| - 1], 3 + i.extra)
    else if i.sym == REPZ_3_10 then p + Copies(0, 3 + i.extra)
    else p + Copies(0, 11 + i.extra)
  }

  function EnterAll(p: seq<nat>, items: seq<Item>): (r: seq<nat>)
    decreases |items|
  {
    if items == [] then p else EnterAll(Enter(p, items[0]), items[1..])
  }

  lemma {:induction false} EnterAllAppend(p: seq<nat>, a: seq<Item>, b: seq<Item>)
    ensures EnterAll(p, a + b) == EnterAll(EnterAll(p, a), b)
    decreases |a|
  {
    if a == [] {
      assert a + b == b;
    } else {
      assert (a + b)[1..] == a[1..] + b;
      EnterAllAppend(Enter(p, a[0]), a[1..], b);
    }
  }

  // ------------------------------------------------------------------ cutting runs

  /** Limits on a run of cur that follows prev (-1 at the start). */
  function MaxCount(prev: int, cur: nat): nat {
    if cur == 0 then 138 else if cur == prev then 6 else 7
  }

  function MinCount(prev: int, cur: nat): nat {
    if cur == 0 then 3 else if cur == prev then 3 else 4
  }

  /** The items for count times cur after prev. */
  function Emit(prev: int, cur: nat, count: nat): (r: seq<Item>)
    requires 1 <= count <= MaxCount(prev, cur)
  {
    if count < MinCount(prev, cur) then seq(count, _ => Item(cur, 0))
    else if cur != 0 then
      if cur != prev then [Item(cur, 0), Item(REP_3_6, count - 4)] else [Item(REP_3_6, count - 3)]
    else if count <= 10 then [Item(REPZ_3_10, count - 3)]
    else [Item(REPZ_11_138, count - 11)]
  }

  function NextLen(lens: seq<nat>, n: nat): nat
    requires n < |lens|
  {
    if n + 1 < |lens| then lens[n + 1] else GUARD
  }

  /** The items for lens from n on, when count lengths before n are still pending. */
  function Items(lens: seq<nat>, n: nat, prev: int, count: nat): (r: seq<Item>)
    requires n <= |lens| && LensOk(lens) && (n < |lens| ==> count < MaxCount(prev, lens[n]))
    decreases |lens| - n
  {
    if n == |lens| then []
    else
      var cur, next := lens[n], NextLen(lens, n);
      if count + 1 < MaxCount(prev, cur) && cur == next then Items(lens, n + 1, prev, count + 1)
      else Emit(prev, cur, count + 1) + Items(lens, n + 1, cur, 0)
  }

  lemma ItemsStep(lens: seq<nat>, n: nat, prev: int, count: nat)
    requires n < |lens| && LensOk(lens) && count < MaxCount(prev, lens[n])
    ensures var cur, next := lens[n], NextLen(lens, n);
            if count + 1 < MaxCount(prev, cur) && cur == next
            then (n + 1 < |lens| ==> count + 1 < MaxCount(prev, lens[n + 1]))
                 && Items(lens, n, prev, count) == Items(lens, n + 1, prev, count + 1)
            else (n + 1 < |lens| ==> 0 < MaxCount(cur, lens[n + 1]))
                 && Items(lens, n, prev, count) == Emit(prev, cur, count + 1) + Items(lens, n + 1, cur, 0)
  {
  }

  lemma ItemsEnd(lens: seq<nat>, prev: int, count: nat)
    requires LensOk(lens)
    ensures Items(lens, |lens|, prev, count) == []
  {
  }

  /** All items of a tree's lengths. */
  function TreeItems(lens: seq<nat>): (r: seq<Item>)
    requires LensOk(lens)
  {
    Items(lens, 0, -1, 0)
  }

  lemma {:induction false} SingleLengths(p: seq<nat>, v: nat, n: nat)
    requires v < 16
    ensures EnterAll(p, seq(n, _ => Item(v, 0))) == p + Copies(v, n)
    decreases n
  {
    var s := seq(n, _ => Item(v, 0));
    if n > 0 {
      SingleLengths(p + [v], v, n - 1);
      assert s[1..] == seq(n - 1, _ => Item(v, 0));
      assert p + [v] + Copies(v, n - 1) == p + Copies(v, n);
    } else {
      assert p + Copies(v, 0) == p;
    }
  }

  /** An emitted run enters exactly its lengths. */
  lemma EmitEnters(p: seq<nat>, prev: int, cur: nat, count: nat)
    requires 1 <= count <= MaxCount(prev, cur) && cur <= MAX_BITS
    requires prev != -1 ==> p != [] && p[|p| - 1] == prev
    ensures EnterAll(p, Emit(prev, cur, count)) == p + Copies(cur, count)
  {
    hide EnterAll;
    var e := Emit(prev, cur, count);
    if count < MinCount(prev, cur) {
      SingleLengths(p, cur, count);
    } else if cur != 0 && cur != prev {
      var q := p + [cur];
      assert e == [e[0]] + [e[1]];
      EnterAllAppend(p, [e[0]], [e[1]]);
      OneItem(p, e[0]);
      OneItem(q, e[1]);
      assert q + Copies(cur, count - 1) == p + Copies(cur, count);
    } else {
      OneItem(p, e[0]);
    }
  }

  lemma OneItem(p: seq<nat>, i: Item)
    ensures EnterAll(p, [i]) == Enter(p, i)
  {
    assert [i][1..] == [];
  }

  lemma NoItems(p: seq<nat>)
    ensures EnterAll(p, []) == p
  {
  }

  lemma CountsPositive(prev: int, cur: nat)
    ensures MaxCount(prev, cur) >= 6
  {
  }

  /** The decoder rebuilds what the encoder cut up: behind any lengths p before. */
  lemma {:induction false} ItemsEnter(p: seq<nat>, lens: seq<nat>, n: nat, prev: int, count: nat)
    requires n <= |lens| && count <= n && LensOk(lens) && (n < |lens| ==> count < MaxCount(prev, lens[n]))
    requires n < |lens| ==> forall i :: n - count <= i < n ==> lens[i] == lens[n]
    requires n == |lens| ==> count == 0
    requires prev != -1 ==> n - count > 0 && lens[n - count - 1] == prev
    ensures EnterAll(p + lens[..n - count], Items(lens, n, prev, count)) == p + lens
    decreases |lens| - n
  {
    hide Emit, Enter, EnterAll, MaxCount;
    var q := p + lens[..n - count];
    if n == |lens| {
      NoItems(p + lens);
      assert lens[..n] == lens;
    } else {
      var cur, next := lens[n], NextLen(lens, n);
      if count + 1 < MaxCount(prev, cur) && cur == next {
        ItemsEnter(p, lens, n + 1, prev, count + 1);
      } else {
        EmitEnters(q, prev, cur, count + 1);
        assert lens[..n + 1] == lens[..n - count] + Copies(cur, count + 1);
        assert q + Copies(cur, count + 1) == p + lens[..n + 1];
        if n + 1 < |lens| {
          CountsPositive(cur, lens[n + 1]);
        }
        EnterAllAppend(q, Emit(prev, cur, count + 1), Items(lens, n + 1, cur, 0));
        ItemsEnter(p, lens, n + 1, cur, 0);
      }
    }
  }

  /** send_tree's runs mean the lengths they were made from. */
  lemma TreeRoundTrip(p: seq<nat>, lens: seq<nat>)
    requires LensOk(lens)
    ensures EnterAll(p, TreeItems(lens)) == p + lens
  {
    assert p + lens[..0] == p;
    ItemsEnter(p, lens, 0, -1, 0);
  }

  lemma EmitOk(prev: int, cur: nat, count: nat)
    requires 1 <= count <= MaxCount(prev, cur) && cur <= MAX_BITS
    ensures forall i :: 0 <= i < |Emit(prev, cur, count)| ==> ItemOk(Emit(prev, cur, count)[i])
  {
    assert Pow2(0) == 1;
    hide Pow2;
    Pow2Values();
  }

  lemma {:induction false} ItemsAllOk(lens: seq<nat>, n: nat, prev: int, count: nat)
    requires n <= |lens| && LensOk(lens) && (n < |lens| ==> count < MaxCount(prev, lens[n]))
    ensures forall i :: 0 <= i < |Items(lens, n, prev, count)| ==> ItemOk(Items(lens, n, prev, count)[i])
    decreases |lens| - n
  {
    hide ItemOk, Emit;
    if n == |lens| {
    } else {
      var cur := lens[n];
      if count + 1 < MaxCount(prev, cur) && cur == NextLen(lens, n) {
        ItemsAllOk(lens, n + 1, prev, count + 1);
      } else {
        EmitOk(prev, cur, count + 1);
        ItemsAllOk(lens, n + 1, cur, 0);
      }
    }
  }

  /** There are no more items than lengths. */
  lemma {:induction false} ItemsFew(lens: seq<nat>, n: nat, prev: int, count: nat)
    requires n <= |lens| && LensOk(lens) && (n < |lens| ==> count < MaxCount(prev, lens[n]))
    ensures |Items(lens, n, prev, count)| <= |lens| - n + count
    decreases |lens| - n
  {
    if n == |lens| {
    } else {
      var cur := lens[n];
      if count + 1 < MaxCount(prev, cur) && cur == NextLen(lens, n) {
        ItemsFew(lens, n + 1, prev, count + 1);
      } else {
        ItemsFew(lens, n + 1, cur, 0);
      }
    }
  }

  // ------------------------------------------------------------- counting and sending

  /** How often the symbol s occurs. */
  function Occurs(items: seq<Item>, s: nat): nat
    decreases |items|
  {
    if items == [] then 0 else (if items[0].sym == s then 1 else 0) + Occurs(items[1..], s)
  }

  lemma {:induction false} OccursAppend(a: seq<Item>, b: seq<Item>, s: nat)
    ensures Occurs(a + b, s) == Occurs(a, s) + Occurs(b, s)
    decreases |a|
  {
    if a == [] {
      assert a + b == b;
    } else {
      assert (a + b)[1..] == a[1..] + b;
      OccursAppend(a[1..], b, s);
    }
  }

  lemma {:induction false} OccursSame(i: Item, n: nat, s: nat)
    ensures Occurs(seq(n, _ => i), s) == if i.sym == s then n else 0
    decreases n
  {
    if n == 0 {
    } else {
      assert seq(n, _ => i)[1..] == seq(n - 1, _ => i);
      OccursSame(i, n - 1, s);
    }
  }

  lemma OccursRun(prev: int, cur: nat, count: nat, s: nat)
    requires 1 <= count <= MaxCount(prev, cur) && cur <= MAX_BITS
    ensures Occurs(Emit(prev, cur, count), s) ==
            if count < MinCount(prev, cur) then (if s == cur then count else 0)
            else if cur != 0 then (if s == cur && cur != prev then 1 else 0) + (if s == REP_3_6 then 1 else 0)
            else if count <= 10 then (if s == REPZ_3_10 then 1 else 0)
            else (if s == REPZ_11_138 then 1 else 0)
  {
    var e := Emit(prev, cur, count);
    if count < MinCount(prev, cur) {
      OccursSame(Item(cur, 0), count, s);
    } else if cur != 0 && cur != prev {
      assert e == [e[0]] + [e[1]];
      OccursAppend([e[0]], [e[1]], s);
      OccursOne(e[0], s);
      OccursOne(e[1], s);
    } else {
      OccursOne(e[0], s);
    }
  }

  lemma OccursOne(i: Item, s: nat)
    ensures Occurs([i], s) == if i.sym == s then 1 else 0
  {
    assert [i][1..] == [];
  }

  /** One run of scan_tree. */
  method ScanRun(freq: array<nat>, prev: int, cur: nat, count: nat)
    requires freq.Length >= BL_CODES && 1 <= count <= MaxCount(prev, cur) && cur <= MAX_BITS
    modifies freq
    ensures forall s :: 0 <= s < freq.Length ==> freq[s] == old(freq[s]) + Occurs(Emit(prev, cur, count), s)
  {
    hide Occurs, Emit;
    forall s | 0 <= s < freq.Length
      ensures Occurs(Emit(prev, cur, count), s) ==
              if count < MinCount(prev, cur) then (if s == cur then count else 0)
              else if cur != 0 then (if s == cur && cur != prev then 1 else 0) + (if s == REP_3_6 then 1 else 0)
              else if count <= 10 then (if s == REPZ_3_10 then 1 else 0)
              else (if s == REPZ_11_138 then 1 else 0)
    {
      OccursRun(prev, cur, count, s);
    }
    if count < MinCount(prev, cur) {
      freq[cur] := freq[cur] + count;
    } else if cur != 0 {
      if cur != prev {
        freq[cur] := freq[cur] + 1;
      }
      freq[REP_3_6] := freq[REP_3_6] + 1;
    } else if count <= 10 {
      freq[REPZ_3_10] := freq[REPZ_3_10] + 1;
    } else {
      freq[REPZ_11_138] := freq[REPZ_11_138] + 1;
    }
  }

  /** scan_tree: counts the symbols send_tree will need. */
  method ScanTree(freq: array<nat>, lens: seq<nat>)
    requires freq.Length >= BL_CODES && LensOk(lens) && lens != []
    modifies freq
    ensures forall s :: 0 <= s < freq.Length ==> freq[s] == old(freq[s]) + Occurs(TreeItems(lens), s)
  {
    hide Occurs, Emit, MaxCount, MinCount, Items;
    var prevlen: int := -1;
    var nextlen, count := lens[0], 0;
    CountsPositive(-1, nextlen);
    ghost var done: seq<Item> := [];
    assert done + Items(lens, 0, -1, 0) == TreeItems(lens);
    NoOccurs();
    var n := 0;
    while n < |lens|
      invariant n <= |lens| && (n < |lens| ==> nextlen == lens[n] && count < MaxCount(prevlen, lens[n]))
      invariant done + Items(lens, n, prevlen, count) == TreeItems(lens)
      invariant forall s :: 0 <= s < freq.Length ==> freq[s] == old(freq[s]) + Occurs(done, s)
    {
      var curlen := nextlen;
      ItemsStep(lens, n, prevlen, count);
      nextlen := NextLen(lens, n);
      count := count + 1;
      if !(count < MaxCount(prevlen, curlen) && curlen == nextlen) {
        label before:
        ScanRun(freq, prevlen, curlen, count);
        ghost var e := Emit(prevlen, curlen, count);
        forall s | 0 <= s < freq.Length
          ensures Occurs(done + e, s) == Occurs(done, s) + Occurs(e, s)
        {
          OccursAppend(done, e, s);
        }
        if n + 1 < |lens| {
          CountsPositive(curlen, lens[n + 1]);
        }
        assert done + (e + Items(lens, n + 1, curlen, 0)) == done + e + Items(lens, n + 1, curlen, 0);
        done := done + e;
        count, prevlen := 0, curlen;
      }
      n := n + 1;
    }
    ItemsEnd(lens, prevlen, count);
    assert done == TreeItems(lens);
  }

  lemma NoOccurs()
    ensures forall s :: Occurs([], s) == 0
  {
  }

  // ------------------------------------------------------------------------- bits

  /** The code has a length for the item's symbol. */
  predicate ItemCodable(blens: seq<nat>, i: Item) {
    ItemOk(i) && i.sym < |blens| && blens[i.sym] != 0
  }

  function ItemBits(blens: seq<nat>, i: Item): seq<bool>
    requires ItemCodable(blens, i)
  {
    SymBits(blens, i.sym) + ToBits(i.extra, RepeatBits(i.sym))
  }

  predicate AllCodable(blens: seq<nat>, items: seq<Item>) {
    forall k :: 0 <= k < |items| ==> ItemCodable(blens, items[k])
  }

  function ItemsBits(blens: seq<nat>, items: seq<Item>): seq<bool>
    requires AllCodable(blens, items)
  {
    if items == [] then [] else ItemBits(blens, items[0]) + ItemsBits(blens, items[1..])
  }

  lemma {:induction false} ItemsBitsAppend(blens: seq<nat>, a: seq<Item>, b: seq<Item>)
    requires AllCodable(blens, a) && AllCodable(blens, b)
    ensures AllCodable(blens, a + b)
    ensures ItemsBits(blens, a + b) == ItemsBits(blens, a) + ItemsBits(blens, b)
    decreases |a|
  {
    hide ItemCodable, ItemBits;
    if a == [] {
      assert a + b == b;
    } else {
      assert (a + b)[1..] == a[1..] + b;
      ItemsBitsAppend(blens, a[1..], b);
    }
  }

  /** send_code and the extra bits of one item. */
  method SendItem(w: Writer, i: Item, bltree: Tree, ghost blens: seq<nat>)
    requires w.Valid() && w.out == 0 && TreeFor(bltree, blens) && ItemCodable(blens, i)
    requires |w.Sent()| + |ItemBits(blens, i)| <= 8 * w.buf.Length
    modifies w, w.buf
    ensures w.Valid() && w.out == 0 && w.Sent() == old(w.Sent()) + ItemBits(blens, i) && Grew(old(w.Now()), w.Now())
  {
    hide Pow2, ToBits, SymBits, TreeFor, TreePart, RepeatBits, Writer.Sent;
    AllOfTree(bltree, blens);
    SendCode(w, i.sym, bltree, blens, |blens|);
    if i.sym >= 16 {
      RepeatSmall(i.sym);
      w.SendBits(i.extra, RepeatBits(i.sym));
    } else {
      NoRepeat(i);
    }
  }

  lemma NoRepeat(i: Item)
    requires i.sym < 16
    ensures ToBits(i.extra, RepeatBits(i.sym)) == []
  {
  }

  /** A run of a length other than 0: the length itself unless it came before, then
      how often it repeats. */
  method SendRepeat(w: Writer, prev: int, cur: nat, count: nat, bltree: Tree, ghost blens: seq<nat>)
    requires w.Valid() && w.out == 0 && TreeFor(bltree, blens) && 1 <= count <= MaxCount(prev, cur) && cur <= MAX_BITS
    requires AllCodable(blens, Emit(prev, cur, count)) && MinCount(prev, cur) <= count && cur != 0
    requires |w.Sent()| + |ItemsBits(blens, Emit(prev, cur, count))| <= 8 * w.buf.Length
    modifies w, w.buf
    ensures w.Valid() && w.out == 0 && Grew(old(w.Now()), w.Now())
    ensures w.Sent() == old(w.Sent()) + ItemsBits(blens, Emit(prev, cur, count))
  {
    hide ItemsBits, TreeFor, ItemBits, ItemCodable, Writer.Sent, Writer.Valid, Grew, AllCodable;
    ghost var items, start := Emit(prev, cur, count), w.Now();
    PrefixBits(blens, items, 0);
    var rep := count - 3;
    if cur != prev {
      assert items[0] == Item(cur, 0);
      SendItem(w, Item(cur, 0), bltree, blens);
      rep := rep - 1;
      PrefixBits(blens, items, 1);
    }
    ghost var mid := w.Now();
    assert items[|items| - 1] == Item(REP_3_6, rep);
    SendItem(w, Item(REP_3_6, rep), bltree, blens);
    if cur != prev {
      GrewOn(start, mid, w.Now());
    }
    assert items[..|items|] == items;
  }

  /** A short run: the length as often as it comes. */
  method SendEach(w: Writer, cur: nat, count: nat, bltree: Tree, ghost blens: seq<nat>, ghost items: seq<Item>)
    requires w.Valid() && w.out == 0 && TreeFor(bltree, blens) && AllCodable(blens, items)
    requires |items| == count && forall k :: 0 <= k < count ==> items[k] == Item(cur, 0)
    requires |w.Sent()| + |ItemsBits(blens, items)| <= 8 * w.buf.Length
    modifies w, w.buf
    ensures w.Valid() && w.out == 0 && Grew(old(w.Now()), w.Now())
    ensures w.Sent() == old(w.Sent()) + ItemsBits(blens, items)
  {
    hide ItemsBits, TreeFor, ItemBits, ItemCodable, Writer.Sent;
    ghost var was := w.Sent();
    PrefixBits(blens, items, 0);
    var k := 0;
    while k < count
      invariant k <= count && w.Valid() && w.out == 0 && AllCodable(blens, items[..k]) && Grew(old(w.Now()), w.Now())
      invariant w.Sent() == was + ItemsBits(blens, items[..k])
    {
      PrefixBits(blens, items, k);
      SendItem(w, Item(cur, 0), bltree, blens);
      k := k + 1;
    }
    assert items[..count] == items;
  }

  method SendRun(w: Writer, prev: int, cur: nat, count: nat, bltree: Tree, ghost blens: seq<nat>)
    requires w.Valid() && w.out == 0 && TreeFor(bltree, blens) && 1 <= count <= MaxCount(prev, cur) && cur <= MAX_BITS
    requires AllCodable(blens, Emit(prev, cur, count))
    requires |w.Sent()| + |ItemsBits(blens, Emit(prev, cur, count))| <= 8 * w.buf.Length
    modifies w, w.buf
    ensures w.Valid() && w.out == 0 && Grew(old(w.Now()), w.Now())
    ensures w.Sent() == old(w.Sent()) + ItemsBits(blens, Emit(prev, cur, count))
  {
    hide ItemsBits, TreeFor, ItemBits, ItemCodable, Writer.Sent, Grew;
    ghost var items := Emit(prev, cur, count);
    PrefixBits(blens, items, 0);
    if count < MinCount(prev, cur) {
      SendEach(w, cur, count, bltree, blens, items);
    } else if cur != 0 {
      SendRepeat(w, prev, cur, count, bltree, blens);
    } else {
      var item := if count <= 10 then Item(REPZ_3_10, count - 3) else Item(REPZ_11_138, count - 11);
      assert items[0] == item;
      SendItem(w, item, bltree, blens);
      assert items[..|items|] == items;
    }
  }

  lemma PrefixBits(blens: seq<nat>, items: seq<Item>, n: nat)
    requires AllCodable(blens, items) && n <= |items|
    ensures AllCodable(blens, items[..n]) && (n == 0 ==> ItemsBits(blens, items[..n]) == [])
    ensures n < |items| ==> AllCodable(blens, items[..n + 1]) && ItemCodable(blens, items[n])
    ensures n < |items| ==>
              ItemsBits(blens, items[..n + 1]) == ItemsBits(blens, items[..n]) + ItemBits(blens, items[n])
    ensures n < |items| ==>
              |ItemsBits(blens, items[..n])| + |ItemBits(blens, items[n])| <= |ItemsBits(blens, items)|
  {
    hide ItemCodable, ItemBits;
    if n < |items| {
      assert items == items[..n + 1] + items[n + 1..];
      ItemsBitsAppend(blens, items[..n + 1], items[n + 1..]);
      var last := [items[n]];
      assert items[..n + 1] == items[..n] + last;
      ItemsBitsAppend(blens, items[..n], last);
      assert last[1..] == [];
      assert ItemsBits(blens, last) == ItemBits(blens, last[0]) + ItemsBits(blens, last[1..]);
    }
  }

  /** send_tree: the lengths as items, in the codes of bltree. */
  method SendTree(w: Writer, lens: seq<nat>, bltree: Tree, ghost blens: seq<nat>)
    requires w.Valid() && w.out == 0 && TreeFor(bltree, blens) && LensOk(lens) && lens != []
    requires AllCodable(blens, TreeItems(lens)) && |w.Sent()| + |ItemsBits(blens, TreeItems(lens))| <= 8 * w.buf.Length
    modifies w, w.buf
    ensures w.Valid() && w.out == 0 && w.Sent() == old(w.Sent()) + ItemsBits(blens, TreeItems(lens))
    ensures Grew(old(w.Now()), w.Now())
  {
    hide ItemsBits, TreeFor, ItemCodable, Emit, MaxCount, MinCount, Items, Grew, Writer.Sent;
    ghost var was, start := w.Sent(), w.Now();
    GrewNot(start);
    ghost var all := TreeItems(lens);
    var prevlen: int := -1;
    var nextlen, count := lens[0], 0;
    CountsPositive(-1, nextlen);
    ghost var done: seq<Item> := [];
    PrefixBits(blens, all, 0);
    assert all[..0] == done;
    assert done + Items(lens, 0, -1, 0) == all;
    var n := 0;
    while n < |lens|
      invariant n <= |lens| && (n < |lens| ==> nextlen == lens[n] && count < MaxCount(prevlen, lens[n]))
      invariant done + Items(lens, n, prevlen, count) == all
      invariant w.Valid() && w.out == 0 && AllCodable(blens, done) && w.Sent() == was + ItemsBits(blens, done)
      invariant Grew(start, w.Now())
    {
      var curlen := nextlen;
      ItemsStep(lens, n, prevlen, count);
      nextlen := NextLen(lens, n);
      count := count + 1;
      if !(count < MaxCount(prevlen, curlen) && curlen == nextlen) {
        ghost var e := Emit(prevlen, curlen, count);
        if n + 1 < |lens| {
          CountsPositive(curlen, lens[n + 1]);
        }
        ghost var rest := Items(lens, n + 1, curlen, 0);
        assert all == done + (e + rest) == (done + e) + rest;
        PartCodable(blens, done, e, rest);
        ghost var now := w.Now();
        SendRun(w, prevlen, curlen, count, bltree, blens);
        GrewOn(start, now, w.Now());
        ItemsBitsAppend(blens, done, e);
        done := done + e;
        count, prevlen := 0, curlen;
      }
      n := n + 1;
    }
    ItemsEnd(lens, prevlen, count);
    assert done == all;
  }

  lemma PartCodable(blens: seq<nat>, a: seq<Item>, b: seq<Item>, c: seq<Item>)
    requires AllCodable(blens, a + b + c)
    ensures AllCodable(blens, a) && AllCodable(blens, b)
    ensures |ItemsBits(blens, a)| + |ItemsBits(blens, b)| <= |ItemsBits(blens, a + b + c)|
  {
    hide ItemCodable, ItemsBits;
    var all := a + b + c;
    assert forall k :: 0 <= k < |a| ==> a[k] == all[k];
    assert forall k :: 0 <= k < |b| ==> b[k] == all[|a| + k];
    assert forall k :: 0 <= k < |c| ==> c[k] == all[|a| + |b| + k];
    ItemsBitsAppend(blens, a, b);
    ItemsBitsAppend(blens, a + b, c);
  }
}
