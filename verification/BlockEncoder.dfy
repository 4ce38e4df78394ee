/** trees.c: building a block's codes, choosing its encoding and sending it. */
module BlockEncoder {
  import opened Bits
  import opened Canonical
  import opened InflateTable
  import opened InflateMachine
  import opened TreeTables
  import opened Tokens
  import opened TokensUnique
  import opened Overlay
  import opened CodeLengths
  import opened HeaderDecode
  import opened StreamDecode
  import opened BitWriter
  import opened BitLengths
  import opened HuffmanBags
  import opened TreeBest
  import opened TreeBuilder
  import opened BlockCost
  import opened HuffmanCodes

  // -------------------------------------------------------------- sending the trees

  lemma {:induction false} OrderAppend(blens: seq<nat>, k: nat, n: nat)
    requires |blens| == BL_CODES && k <= n < BL_CODES
    ensures OrderBits(blens, k, n + 1) == OrderBits(blens, k, n) + ToBits(blens[ORDER[n]], 3)
    decreases n - k
  {
    hide ToBits;
    if k < n {
      OrderAppend(blens, k + 1, n);
    } else {
      assert OrderBits(blens, n, n + 1) == ToBits(blens[ORDER[n]], 3) + OrderBits(blens, n + 1, n + 1);
      assert OrderBits(blens, n + 1, n + 1) == [];
    }
  }

  lemma {:induction false} OrderLength(blens: seq<nat>, k: nat, n: nat)
    requires |blens| == BL_CODES && k <= n <= BL_CODES
    ensures |OrderBits(blens, k, n)| == 3 * (n - k)
    decreases n - k
  {
    hide ToBits;
    if k == n {
    } else {
      OrderLength(blens, k + 1, n);
    }
  }

  lemma OrderNone(blens: seq<nat>)
    requires |blens| == BL_CODES
    ensures OrderBits(blens, 0, 0) == []
  {
  }

  lemma OrderEntry(bltree: Tree, blens: seq<nat>, rank: nat)
    requires TreeFor(bltree, blens) && |blens| == BL_CODES && rank < BL_CODES
    ensures 0 <= ORDER[rank] < |bltree.len| && ORDER[rank] < BL_CODES && bltree.len[ORDER[rank]] == blens[ORDER[rank]]
  {
    hide Code;
    assert bltree.len[ORDER[rank]] == bltree.len[..|blens|][ORDER[rank]];
  }

  /** The lengths of the code length code. */
  method SendOrder(w: Writer, bltree: Tree, blcodes: nat, ghost blens: seq<nat>)
    requires w.Valid() && w.out == 0 && TreeFor(bltree, blens) && |blens| == BL_CODES && blcodes <= BL_CODES
    requires (forall p :: 0 <= p < BL_CODES ==> blens[p] < 8) && |w.Sent()| + 3 * blcodes <= 8 * w.buf.Length
    modifies w, w.buf
    ensures w.Valid() && w.out == 0 && w.Sent() == old(w.Sent()) + OrderBits(blens, 0, blcodes)
            && Grew(old(w.Now()), w.Now())
  {
    hide ToBits, Pow2, OrderBits, TreeFor, Writer.Sent, Grew;
    Pow2Values();
    ghost var was, start := w.Sent(), w.Now();
    OrderNone(blens);
    GrewNot(start);
    var rank := 0;
    while rank < blcodes
      invariant rank <= blcodes && w.Valid() && w.out == 0 && w.Sent() == was + OrderBits(blens, 0, rank)
      invariant Grew(start, w.Now())
    {
      OrderAppend(blens, 0, rank);
      OrderLength(blens, 0, rank);
      OrderEntry(bltree, blens, rank);
      ghost var now := w.Now();
      w.SendBits(bltree.len[ORDER[rank]], 3);
      GrewOn(start, now, w.Now());
      rank := rank + 1;
    }
  }

  /** The three counts in front of the trees. */
  method SendCounts(w: Writer, lcodes: nat, dcodes: nat, blcodes: nat, ghost c: Codes)
    requires w.Valid() && w.out == 0 && CodesOk(c) && lcodes == |c.llens| && dcodes == |c.dlens| && blcodes == c.blcodes
    requires |w.Sent()| + 14 <= 8 * w.buf.Length
    modifies w, w.buf
    ensures w.Valid() && w.out == 0 && w.Sent() == old(w.Sent()) + CountBits(c) && Grew(old(w.Now()), w.Now())
  {
    hide ToBits, Pow2, CodeOk, AllCodable, TreeItems, Writer.Sent, Writer.Valid, Grew;
    Pow2Values();
    ghost var start := w.Now();
    w.SendBits(lcodes - 257, 5);
    ghost var a := w.Now();
    w.SendBits(dcodes - 1, 5);
    GrewOn(start, a, w.Now());
    ghost var b := w.Now();
    w.SendBits(blcodes - 4, 4);
    GrewOn(start, b, w.Now());
  }

  /** send_all_trees */
  method SendAllTrees(w: Writer, ltree: Tree, lcodes: nat, dtree: Tree, dcodes: nat, bltree: Tree, blcodes: nat,
                      ghost c: Codes)
    requires w.Valid() && w.out == 0 && CodesOk(c) && lcodes == |c.llens| && dcodes == |c.dlens| && blcodes == c.blcodes
    requires TreeFor(ltree, c.llens) && TreeFor(dtree, c.dlens) && TreeFor(bltree, c.blens)
    requires |w.Sent()| + |TreesBits(c)| <= 8 * w.buf.Length
    modifies w, w.buf
    ensures w.Valid() && w.out == 0 && w.Sent() == old(w.Sent()) + TreesBits(c) && Grew(old(w.Now()), w.Now())
  {
    hide TreeFor, CodeOk, AllCodable, TreeItems, OrderBits, ItemsBits, Writer.Sent, CountBits, Grew, Writer.Valid;
    TreesLength(c);
    TreeLens(ltree, c.llens);
    TreeLens(dtree, c.dlens);
    OrderLength(c.blens, 0, c.blcodes);
    ghost var start := w.Now();
    SendCounts(w, lcodes, dcodes, blcodes, c);
    ghost var a := w.Now();
    SendOrder(w, bltree, blcodes, c.blens);
    ghost var b := w.Now();
    GrewOn(start, a, b);
    SendTree(w, ltree.len[..lcodes], bltree, c.blens);
    ghost var d := w.Now();
    GrewOn(start, b, d);
    SendTree(w, dtree.len[..dcodes], bltree, c.blens);
    GrewOn(start, d, w.Now());
  }

  lemma TreeLens(tree: Tree, lens: seq<nat>)
    requires TreeFor(tree, lens)
    ensures |lens| <= |tree.len| && tree.len[..|lens|] == lens && LensOk(lens)
  {
  }

  // ---------------------------------------------------------------- building the codes

  const L_DESC: Desc := Desc(L_CODES, MAX_BITS, LExtras(), true, FixedLens()[..L_CODES])
  const D_DESC: Desc := Desc(D_CODES, MAX_BITS, DExtras(), true, FixedDists()[..D_CODES])
  const BL_DESC: Desc := Desc(BL_CODES, 7, BlExtras(), false, seq(BL_CODES, _ => 1))

  lemma DescsOk()
    ensures DescOk(L_DESC) && DescOk(D_DESC) && DescOk(BL_DESC)
  {
    hide Pow2;
    Pow2Values();
    FirstExtras();
  }

  lemma FirstExtras()
    ensures forall i :: 0 <= i < 3 ==> DBits(i) == 0 && RepeatBits(i) == 0
  {
  }

  /** The index in bl_order of the last code length code to send. */
  method LastBlIndex(bltree: Tree, ghost blens: seq<nat>) returns (i: nat)
    requires TreeFor(bltree, blens) && |blens| == BL_CODES
    ensures 3 <= i < BL_CODES && RestZero(blens, i + 1)
  {
    hide Code;
    i := BL_CODES - 1;
    while i > 3
      invariant 3 <= i < BL_CODES && RestZero(blens, i + 1)
    {
      assert bltree.len[ORDER[i]] == bltree.len[..|blens|][ORDER[i]];
      if bltree.len[ORDER[i]] != 0 {
        break;
      }
      i := i - 1;
    }
  }

  /** Every item of a scanned tree has been counted, and so gets a code. */
  lemma {:induction false} OccursOf(items: seq<Item>, k: nat)
    requires k < |items|
    ensures Occurs(items, items[k].sym) >= 1
    decreases |items|
  {
    if k == 0 {
    } else {
      assert items[1..][k - 1] == items[k];
      OccursOf(items[1..], k - 1);
    }
  }

  lemma ScannedCodable(blens: seq<nat>, lens: seq<nat>, freq: seq<nat>)
    requires LensOk(lens) && |blens| == BL_CODES <= |freq|
    requires forall s :: 0 <= s < BL_CODES ==> freq[s] >= Occurs(TreeItems(lens), s)
    requires forall s :: 0 <= s < BL_CODES && freq[s] != 0 ==> blens[s] != 0
    ensures AllCodable(blens, TreeItems(lens))
  {
    hide Occurs;
    var items := TreeItems(lens);
    ItemsAllOk(lens, 0, -1, 0);
    forall k | 0 <= k < |items|
      ensures ItemCodable(blens, items[k])
    {
      assert ItemOk(items[k]);
      OccursOf(items, k);
    }
  }

  lemma {:induction false} FreqMore(f: seq<nat>, s: nat, n: nat)
    requires s < |f| && n <= |f|
    ensures FreqSum(f[s := f[s] + 1], n) == FreqSum(f, n) + if s < n then 1 else 0
    decreases n
  {
    if n == 0 {
    } else {
      FreqMore(f, s, n - 1);
    }
  }

  lemma {:induction false} NoFreq(f: seq<nat>, n: nat)
    requires n <= |f| && forall s :: 0 <= s < n ==> f[s] == 0
    ensures FreqSum(f, n) == 0
    decreases n
  {
    if n == 0 {
    } else {
      NoFreq(f, n - 1);
    }
  }

  lemma {:induction false} ItemTotal(items: seq<Item>)
    ensures FreqSum(ItemFreq(items), BL_CODES) <= |items|
    decreases |items|
  {
    hide FreqSum, Occurs;
    if items == [] {
      NoOccurs();
      NoFreq(ItemFreq(items), BL_CODES);
    } else {
      var i, rest := items[0], items[1..];
      ItemTotal(rest);
      FirstOccurs(items);
      var f := ItemFreq(rest);
      if i.sym < BL_CODES {
        assert ItemFreq(items) == f[i.sym := f[i.sym] + 1];
        FreqMore(f, i.sym, BL_CODES);
      } else {
        assert ItemFreq(items) == f;
      }
    }
  }

  /** build_bl_tree: the code length code for two trees. */
  method BuildBlTree(llen: seq<nat>, dlen: seq<nat>, opt0: int)
    returns (bltree: Tree, maxBlindex: nat, opt: int, ghost blens: seq<nat>)
    requires LensOk(llen) && LensOk(dlen) && 0 < |llen| <= L_CODES && 0 < |dlen| <= D_CODES
    ensures |blens| == BL_CODES && TreeFor(bltree, blens) && Complete(blens) && 3 <= maxBlindex < BL_CODES
    ensures RestZero(blens, maxBlindex + 1) && forall p :: 0 <= p < BL_CODES ==> blens[p] < 8
    ensures AllCodable(blens, TreeItems(llen)) && AllCodable(blens, TreeItems(dlen))
    ensures opt
              == opt0 + |ItemsBits(blens, TreeItems(llen))| + |ItemsBits(blens, TreeItems(dlen))|
                + 3 * (maxBlindex + 1) + 14
  {
    hide TreeFor, Complete, FullCost, AllCodable, TreeItems, ItemsBits, Occurs, FreqSum, FieldsFit, Light, Single,
         Cheapest;
    DescsOk();
    var freq := new nat[2 * BL_CODES + 1](_ => 0);
    ScanTree(freq, llen);
    ghost var first := freq[..];
    ScanTree(freq, dlen);
    ghost var items := TreeItems(llen) + TreeItems(dlen);
    forall s | 0 <= s < BL_CODES
      ensures freq[s] == Occurs(items, s) == Occurs(TreeItems(llen), s) + Occurs(TreeItems(dlen), s)
    {
      OccursAppend(TreeItems(llen), TreeItems(dlen), s);
    }
    var counts, maxCode, stat := freq[..], 0, 0;
    ghost var made;
    bltree, maxCode, opt, stat, blens, made := BuildTree(counts, seq(2 * BL_CODES + 1, _ => 0), BL_DESC, opt0, 0);
    ScannedCodable(blens, llen, counts);
    ScannedCodable(blens, dlen, counts);
    ItemsBitsAppend(blens, TreeItems(llen), TreeItems(dlen));
    ItemsCost(blens, items);
    assert counts[..BL_CODES] == ItemFreq(items)[..BL_CODES];
    FullCostPrefix(counts, ItemFreq(items), blens, BlExtras(), BL_CODES);
    BlFits(llen, dlen, counts);
    assert FieldsFit(made);
    maxBlindex := LastBlIndex(bltree, blens);
    opt := opt + 3 * (maxBlindex + 1) + 5 + 5 + 4;
  }

  lemma BlFits(llen: seq<nat>, dlen: seq<nat>, counts: seq<nat>)
    requires LensOk(llen) && LensOk(dlen) && |llen| <= L_CODES && |dlen| <= D_CODES && |counts| >= BL_CODES
    requires forall s :: 0 <= s < BL_CODES ==> counts[s] == Occurs(TreeItems(llen) + TreeItems(dlen), s)
    ensures FreqSum(counts, BL_CODES) <= 32768
  {
    hide Items, Occurs, FreqSum;
    ItemsFew(llen, 0, -1, 0);
    ItemsFew(dlen, 0, -1, 0);
    var items := TreeItems(llen) + TreeItems(dlen);
    ItemTotal(items);
    SameCost(counts, ItemFreq(items), ItemFreq(items), BL_CODES);
  }

  lemma {:induction false} UsedSymbols(t: Tables, ts: seq<Token>, i: nat)
    requires LengthsOk(t) && DistsOk(t) && TokensOk(ts) && i < |ts|
    ensures LSym(t, ts[i]) < L_CODES && LFreq(t, ts)[LSym(t, ts[i])] >= 1
    ensures ts[i].Match? ==> DSym(t, ts[i]) < D_CODES && DFreq(t, ts)[DSym(t, ts[i])] >= 1
    decreases |ts|
  {
    hide LengthsOk, DistsOk, LSym, DSym;
    LSymBound(t, ts[i]);
    if ts[i].Match? {
      DSymBound(t, ts[i]);
    }
    if i == |ts| - 1 {
    } else {
      UsedSymbols(t, ts[..|ts| - 1], i);
    }
  }

  lemma {:induction false} UsedEnd(t: Tables, ts: seq<Token>)
    requires LengthsOk(t) && TokensOk(ts)
    ensures LFreq(t, ts)[END_BLOCK] >= 1
    decreases |ts|
  {
    hide LengthsOk, LSym;
    if ts == [] {
    } else {
      UsedEnd(t, ts[..|ts| - 1]);
    }
  }

  /** A code with lengths for all symbols in use can encode the tokens. */
  lemma UsedEncodable(t: Tables, llens: seq<nat>, dlens: seq<nat>, ts: seq<Token>)
    requires LengthsOk(t) && DistsOk(t) && TokensOk(ts)
    requires forall s :: 0 <= s < L_CODES && LFreq(t, ts)[s] != 0 ==> s < |llens| && llens[s] != 0
    requires forall s :: 0 <= s < D_CODES && DFreq(t, ts)[s] != 0 ==> s < |dlens| && dlens[s] != 0
    ensures AllEncodable(t, llens, dlens, ts)
  {
    hide LengthsOk, DistsOk, LSym, DSym, LFreq, DFreq;
    UsedEnd(t, ts);
    forall i | 0 <= i < |ts|
      ensures Encodable(t, llens, dlens, ts[i])
    {
      UsedSymbols(t, ts, i);
    }
  }

  lemma StaticEncodable(t: Tables, ts: seq<Token>)
    requires LengthsOk(t) && DistsOk(t) && TokensOk(ts)
    ensures AllEncodable(t, FixedLens(), FixedDists(), ts)
    ensures forall i :: 0 <= i < |ts| ==> LSym(t, ts[i]) < L_CODES && (ts[i].Match? ==> DSym(t, ts[i]) < D_CODES)
  {
    hide LengthsOk, DistsOk, LSym, DSym;
    forall i | 0 <= i < |ts|
      ensures Encodable(t, FixedLens(), FixedDists(), ts[i])
      ensures LSym(t, ts[i]) < L_CODES && (ts[i].Match? ==> DSym(t, ts[i]) < D_CODES)
    {
      LSymBound(t, ts[i]);
      if ts[i].Match? {
        DSymBound(t, ts[i]);
      }
    }
  }

  /** static_len */
  lemma StaticCost(t: Tables, ts: seq<Token>)
    requires LengthsOk(t) && DistsOk(t) && TokensOk(ts)
    ensures AllEncodable(t, FixedLens(), FixedDists(), ts)
    ensures FullCost(LFreq(t, ts), L_DESC.statics, LExtras(), L_CODES)
              + FullCost(DFreq(t, ts), D_DESC.statics, DExtras(), D_CODES)
         == |BlockBits(t, FixedLens(), FixedDists(), ts)|
  {
    hide LengthsOk, DistsOk, LSym, DSym, LFreq, DFreq, FullCost, BlockBits, AllEncodable, LExtras, DExtras;
    StaticEncodable(t, ts);
    FullCostTrim(LFreq(t, ts), FixedLens(), LExtras(), L_CODES, L_CODES);
    FullCostTrim(DFreq(t, ts), FixedDists(), DExtras(), D_CODES, D_CODES);
    CostIsBits(t, FixedLens(), FixedDists(), ts, L_CODES, D_CODES);
  }

  /** The cost of symbols above the largest one in use is nothing. */
  lemma UpToMax(freq: seq<nat>, lens: seq<nat>, extra: seq<nat>, n: nat, max: nat)
    requires max < n <= |freq| && n <= |lens| && n <= |extra| && forall i :: max < i < n ==> freq[i] == 0
    ensures FullCost(freq, lens, extra, n) == FullCost(freq, lens[..max + 1], extra, max + 1)
  {
    hide FullCost;
    FullCostTail(freq, lens, extra, max + 1, n);
    FullCostTrim(freq, lens, extra, max + 1, max + 1);
  }

  /** What build_tree makes of a tree's lengths: no symbol has a code for nothing, a symbol
      that is alone has one bit, and no code for few symbols is cheaper. */
  ghost predicate Made(freq: seq<nat>, lens: seq<nat>, n: nat) {
    && |lens| <= n <= |freq| && Complete(lens) && LensOk(lens)
    && (Single(freq, n) ==> forall s :: 0 <= s < |lens| && freq[s] != 0 ==> lens[s] == 1)
    && (!Single(freq, n) ==> forall s :: 0 <= s < |lens| && lens[s] != 0 ==> freq[s] != 0)
    && (FreqSum(freq, n) <= 2500 ==> CheapFor(freq, lens, n))
  }

  lemma MadeIs(freq0: seq<nat>, freq: seq<nat>, lens: seq<nat>, max: nat, d: Desc)
    requires d.elems <= |freq0| && d.elems == |freq| == |lens| && max < d.elems && d.maxLength == MAX_BITS
             && LensOk(lens)
    requires freq0[..d.elems] == freq && Complete(lens[..max + 1])
    requires forall n :: 0 <= n < d.elems ==> (n > max ==> lens[n] == 0) && (freq0[n] != 0 ==> n <= max)
    requires Light(freq0, d) ==> Cheapest(freq0, lens, d.elems)
    requires Single(freq0, d.elems) ==> forall n :: 0 <= n < d.elems && freq0[n] != 0 ==> lens[n] == 1
    requires !Single(freq0, d.elems) ==> forall n :: 0 <= n < d.elems && lens[n] != 0 ==> freq0[n] != 0
    ensures Made(freq, lens[..max + 1], d.elems) && FreqSum(freq0, d.elems) == FreqSum(freq, d.elems)
  {
    hide Complete, Cheapest, CheapFor, FreqSum, Phi;
    var n := d.elems;
    assert forall s :: 0 <= s < n ==> freq0[..n][s] == freq0[s];
    SameCost(freq0, freq, lens, n);
    PhiValues();
    if FreqSum(freq, n) <= 2500 {
      CheapCut(freq0, freq, lens, n, max + 1);
    }
  }

  /** The frequencies add up to the tokens, and the end of the block. */
  lemma {:induction false} FreqTotals(t: Tables, ts: seq<Token>)
    requires LengthsOk(t) && DistsOk(t) && TokensOk(ts)
    ensures FreqSum(LFreq(t, ts), L_CODES) == |ts| + 1 && FreqSum(DFreq(t, ts), D_CODES) <= |ts|
    decreases |ts|
  {
    hide LengthsOk, DistsOk, LSym, DSym, FreqSum;
    if ts == [] {
      NoFreq(seq(L_CODES, _ => 0), L_CODES);
      FreqMore(seq(L_CODES, _ => 0), END_BLOCK, L_CODES);
      NoFreq(seq(D_CODES, _ => 0), D_CODES);
    } else {
      var tok, rest := ts[|ts| - 1], ts[..|ts| - 1];
      FreqTotals(t, rest);
      LSymBound(t, tok);
      FreqMore(LFreq(t, rest), LSym(t, tok), L_CODES);
      if tok.Match? {
        DSymBound(t, tok);
        FreqMore(DFreq(t, rest), DSym(t, tok), D_CODES);
      }
    }
  }

  /** The tree of literals and lengths. */
  method BuildLit(t: Tables, lfreq: seq<nat>, ghost ts: seq<Token>)
    returns (tree: Tree, max: nat, opt: int, stat: int, ghost lens: seq<nat>)
    requires LengthsOk(t) && DistsOk(t) && TokensOk(ts) && |ts| < 32768
    requires |lfreq| == 2 * L_CODES + 1 && lfreq[..L_CODES] == LFreq(t, ts)
    ensures END_BLOCK <= max < L_CODES && |lens| == max + 1 && TreeFor(tree, lens) && Made(LFreq(t, ts), lens, L_CODES)
    ensures opt == FullCost(LFreq(t, ts), lens, LExtras(), max + 1)
    ensures stat == FullCost(LFreq(t, ts), L_DESC.statics, LExtras(), L_CODES)
    ensures forall s :: 0 <= s < L_CODES && LFreq(t, ts)[s] != 0 ==> s < |lens| && lens[s] != 0
  {
    hide LengthsOk, DistsOk, TreeFor, Complete, FullCost, LFreq, Made, Light, Single, Cheapest, FreqSum, FieldsFit;
    DescsOk();
    UsedEnd(t, ts);
    ghost var all, made;
    tree, max, opt, stat, all, made := BuildTree(lfreq, seq(2 * L_CODES + 1, _ => 0), L_DESC, 0, 0);
    assert lfreq[..L_CODES][END_BLOCK] == lfreq[END_BLOCK];
    LFacts(t, ts, lfreq, all, max);
    ShortLens(all, MAX_BITS);
    MadeIs(lfreq, LFreq(t, ts), all, max, L_DESC);
    FreqTotals(t, ts);
    assert FieldsFit(made);
    lens := all[..max + 1];
  }

  /** The tree of distances. */
  method BuildDist(t: Tables, dfreq: seq<nat>, opt0: int, stat0: int, ghost ts: seq<Token>)
    returns (tree: Tree, max: nat, opt: int, stat: int, ghost lens: seq<nat>)
    requires LengthsOk(t) && DistsOk(t) && TokensOk(ts) && |ts| < 32768
    requires |dfreq| == 2 * D_CODES + 1 && dfreq[..D_CODES] == DFreq(t, ts)
    ensures max < D_CODES && |lens| == max + 1 && TreeFor(tree, lens) && Made(DFreq(t, ts), lens, D_CODES)
    ensures opt == opt0 + FullCost(DFreq(t, ts), lens, DExtras(), max + 1)
    ensures stat == stat0 + FullCost(DFreq(t, ts), D_DESC.statics, DExtras(), D_CODES)
    ensures forall s :: 0 <= s < D_CODES && DFreq(t, ts)[s] != 0 ==> s < |lens| && lens[s] != 0
  {
    hide LengthsOk, DistsOk, TreeFor, Complete, FullCost, DFreq, Made, Light, Single, Cheapest, FreqSum, FieldsFit;
    DescsOk();
    ghost var all, made;
    tree, max, opt, stat, all, made := BuildTree(dfreq, seq(2 * D_CODES + 1, _ => 0), D_DESC, opt0, stat0);
    DFacts(t, ts, dfreq, all, max);
    ShortLens(all, MAX_BITS);
    MadeIs(dfreq, DFreq(t, ts), all, max, D_DESC);
    FreqTotals(t, ts);
    assert FieldsFit(made);
    lens := all[..max + 1];
  }

  /** The codes are those that build_tree makes. */
  ghost predicate FromTrees(t: Tables, c: Codes, ts: seq<Token>)
    requires LengthsOk(t) && DistsOk(t)
  {
    TokensOk(ts) && Made(LFreq(t, ts), c.llens, L_CODES) && Made(DFreq(t, ts), c.dlens, D_CODES) && Complete(c.blens)
  }

  /** The three codes of a block, and the bits it takes with them and without. */
  method BuildCodes(t: Tables, lfreq: seq<nat>, dfreq: seq<nat>, ghost ts: seq<Token>)
    returns (ltree: Tree, lmax: nat, dtree: Tree, dmax: nat, bltree: Tree, maxBlindex: nat, opt: int, stat: int,
             ghost c: Codes)
    requires LengthsOk(t) && DistsOk(t) && TokensOk(ts) && |ts| < 32768 && |lfreq| == 2 * L_CODES + 1
             && |dfreq| == 2 * D_CODES + 1
    requires lfreq[..L_CODES] == LFreq(t, ts) && dfreq[..D_CODES] == DFreq(t, ts)
    ensures CodesOk(c) && lmax + 1 == |c.llens| && dmax + 1 == |c.dlens| && maxBlindex + 1 == c.blcodes
    ensures TreeFor(ltree, c.llens) && TreeFor(dtree, c.dlens) && TreeFor(bltree, c.blens)
    ensures AllEncodable(t, c.llens, c.dlens, ts) && AllEncodable(t, FixedLens(), FixedDists(), ts)
    ensures Complete(c.llens) && Complete(c.dlens) && FromTrees(t, c, ts)
    ensures opt == |TreesBits(c)| + |BlockBits(t, c.llens, c.dlens, ts)|
    ensures stat == |BlockBits(t, FixedLens(), FixedDists(), ts)|
  {
    hide LengthsOk, DistsOk, TreeFor, Complete, FullCost, AllCodable, TreeItems, ItemsBits, LFreq, DFreq, AllEncodable,
         BlockBits, LSym, DSym, TreesBits, CodesOk, Made;
    ghost var llens, dlens, blens;
    ltree, lmax, opt, stat, llens := BuildLit(t, lfreq, ts);
    dtree, dmax, opt, stat, dlens := BuildDist(t, dfreq, opt, stat, ts);
    TreeLens(ltree, llens);
    TreeLens(dtree, dlens);
    bltree, maxBlindex, opt, blens := BuildBlTree(ltree.len[..lmax + 1], dtree.len[..dmax + 1], opt);
    c := Codes(llens, dlens, blens, maxBlindex + 1);
    MadeComplete(LFreq(t, ts), llens, L_CODES);
    MadeComplete(DFreq(t, ts), dlens, D_CODES);
    UsedEncodable(t, llens, dlens, ts);
    SymbolsBelow(t, llens, dlens, ts);
    CostIsBits(t, llens, dlens, ts, lmax + 1, dmax + 1);
    StaticCost(t, ts);
    CodesFine(c, bltree);
    TreesLength(c);
  }

  lemma MadeComplete(freq: seq<nat>, lens: seq<nat>, n: nat)
    requires Made(freq, lens, n)
    ensures Complete(lens) && LensOk(lens)
  {
    hide Complete;
  }

  lemma LFacts(t: Tables, ts: seq<Token>, lfreq: seq<nat>, lens: seq<nat>, lmax: nat)
    requires LengthsOk(t) && TokensOk(ts) && |lfreq| >= L_CODES && lfreq[..L_CODES] == LFreq(t, ts)
             && |lens| == L_CODES && lmax < L_CODES
    requires forall n :: 0 <= n < L_CODES && lfreq[n] != 0 ==> n <= lmax && lens[n] != 0
    ensures FullCost(lfreq, lens, LExtras(), L_CODES) == FullCost(LFreq(t, ts), lens[..lmax + 1], LExtras(), lmax + 1)
    ensures FullCost(lfreq, L_DESC.statics, LExtras(), L_CODES)
              == FullCost(LFreq(t, ts), L_DESC.statics, LExtras(), L_CODES)
    ensures forall s :: 0 <= s < L_CODES && LFreq(t, ts)[s] != 0 ==> s < lmax + 1 && lens[..lmax + 1][s] != 0
  {
    hide LFreq, FullCost, LengthsOk, LExtras;
    var f := LFreq(t, ts);
    assert forall n :: 0 <= n < L_CODES ==> lfreq[..L_CODES][n] == lfreq[n];
    assert f[..L_CODES] == lfreq[..L_CODES];
    FullCostPrefix(lfreq, f, lens, LExtras(), L_CODES);
    FullCostPrefix(lfreq, f, L_DESC.statics, LExtras(), L_CODES);
    UpToMax(f, lens, LExtras(), L_CODES, lmax);
  }

  lemma DFacts(t: Tables, ts: seq<Token>, dfreq: seq<nat>, lens: seq<nat>, dmax: nat)
    requires DistsOk(t) && TokensOk(ts) && |dfreq| >= D_CODES && dfreq[..D_CODES] == DFreq(t, ts) && |lens| == D_CODES
             && dmax < D_CODES
    requires forall n :: 0 <= n < D_CODES && dfreq[n] != 0 ==> n <= dmax && lens[n] != 0
    ensures FullCost(dfreq, lens, DExtras(), D_CODES) == FullCost(DFreq(t, ts), lens[..dmax + 1], DExtras(), dmax + 1)
    ensures FullCost(dfreq, D_DESC.statics, DExtras(), D_CODES)
              == FullCost(DFreq(t, ts), D_DESC.statics, DExtras(), D_CODES)
    ensures forall s :: 0 <= s < D_CODES && DFreq(t, ts)[s] != 0 ==> s < dmax + 1 && lens[..dmax + 1][s] != 0
  {
    hide DFreq, FullCost, DistsOk, DExtras;
    var f := DFreq(t, ts);
    assert forall n :: 0 <= n < D_CODES ==> dfreq[..D_CODES][n] == dfreq[n];
    assert f[..D_CODES] == dfreq[..D_CODES];
    FullCostPrefix(dfreq, f, lens, DExtras(), D_CODES);
    FullCostPrefix(dfreq, f, D_DESC.statics, DExtras(), D_CODES);
    UpToMax(f, lens, DExtras(), D_CODES, dmax);
  }

  lemma SymbolsBelow(t: Tables, llens: seq<nat>, dlens: seq<nat>, ts: seq<Token>)
    requires LengthsOk(t) && DistsOk(t) && AllEncodable(t, llens, dlens, ts)
    ensures TokensOk(ts)
    ensures forall i :: 0 <= i < |ts| ==> LSym(t, ts[i]) < |llens| && (ts[i].Match? ==> DSym(t, ts[i]) < |dlens|)
  {
    hide LengthsOk, DistsOk, LSym, DSym;
    assert forall i :: 0 <= i < |ts| ==> Encodable(t, llens, dlens, ts[i]);
  }

  lemma CodesFine(c: Codes, bltree: Tree)
    requires 257 <= |c.llens| <= 286 && 1 <= |c.dlens| <= 30 && |c.blens| == BL_CODES && 4 <= c.blcodes <= BL_CODES
    requires LensOk(c.llens) && LensOk(c.dlens) && Complete(c.llens) && Complete(c.dlens) && Complete(c.blens)
    requires (forall p :: 0 <= p < BL_CODES ==> c.blens[p] < 8) && RestZero(c.blens, c.blcodes)
    requires AllCodable(c.blens, TreeItems(c.llens)) && AllCodable(c.blens, TreeItems(c.dlens))
    ensures CodesOk(c)
  {
    hide Complete, AllCodable, TreeItems;
  }

  lemma TreesLength(c: Codes)
    requires CodesOk(c)
    ensures LensOk(c.llens) && LensOk(c.dlens)
    ensures AllCodable(c.blens, TreeItems(c.llens)) && AllCodable(c.blens, TreeItems(c.dlens))
    ensures |CountBits(c)| == 14
    ensures |TreesBits(c)|
              == 14 + 3 * c.blcodes + |ItemsBits(c.blens, TreeItems(c.llens))|
                + |ItemsBits(c.blens, TreeItems(c.dlens))|
  {
    hide AllCodable, TreeItems, ItemsBits, Accepts, ToBits;
    OrderLength(c.blens, 0, c.blcodes);
  }

  // ------------------------------------------------------------------ static trees

  lemma {:induction false} FixedDistFirst(l: nat)
    requires l <= 5
    ensures FirstCode(FixedDists(), l) == 0
  {
    hide Count, FixedDists;
    if l <= 1 {
    } else {
      FixedDistFirst(l - 1);
      FixedCounts(l - 1);
    }
  }

  lemma FixedDistCode(n: nat)
    requires n < 32
    ensures Code(FixedDists(), n) == Rev(5, n)
  {
    hide Rev, FirstCode, Rank;
    FixedDistFirst(5);
    RankRun(FixedDists(), 5, 0, n, 5);
    assert Rank(FixedDists(), 5, 0) == 0 by { NoRank(FixedDists()); }
  }

  lemma NoRank(lens: seq<nat>)
    ensures Rank(lens, 5, 0) == 0
  {
  }

  /** tr_static_init: the two static trees. */
  method StaticTrees() returns (ltree: Tree, dtree: Tree)
    ensures TreePart(ltree, FixedLens(), |FixedLens()|) && |FixedLens()| == L_CODES + 2
    ensures TreePart(dtree, FixedDists(), D_CODES)
  {
    hide Count, Code, Complete, NotOver, Rev;
    var blCount := new nat[MAX_BITS + 1](i => if i == 7 then 24 else if i == 8 then 152 else if i == 9 then 112 else 0);
    forall l | 1 <= l <= MAX_BITS
      ensures blCount[l] == Count(FixedLens(), l)
    {
      FixedCounts(l);
    }
    FixedComplete();
    CompleteNotOver(FixedLens());
    var code := new nat[L_CODES + 2](_ => 0);
    GenCodes(FixedLens(), blCount, code);
    ltree := Tree(code[..], FixedLens());
    var codes: seq<nat> := [];
    var n := 0;
    while n < D_CODES
      invariant n <= D_CODES && |codes| == n && forall s :: 0 <= s < n ==> codes[s] == Code(FixedDists(), s)
    {
      FixedDistCode(n);
      var c := BiReverse(n, 5);
      codes := codes + [c];
      n := n + 1;
    }
    dtree := Tree(codes, seq(D_CODES, _ => 5));
  }

  // ---------------------------------------------------------------------- sending

  /** copy_block: the bytes themselves. */
  method PutBytes(w: Writer, buf: seq<Byte>)
    requires w.Valid() && w.out == 0 && w.biValid == 0 && w.count + |buf| <= w.buf.Length
    modifies w, w.buf
    ensures w.Valid() && w.out == 0 && w.biValid == 0 && w.Sent() == old(w.Sent()) + BytesToBits(buf)
  {
    hide ToBits, BytesToBits, Pow2;
    ghost var before := w.Pending();
    var i := 0;
    while i < |buf|
      invariant i <= |buf| && w.Valid() && w.out == 0 && w.biValid == 0 && w.Pending() == before + buf[..i]
    {
      w.PutByte(buf[i]);
      i := i + 1;
    }
    assert buf[..|buf|] == buf;
    BytesToBitsAppend(before, buf);
    NoneBits(old(w.biBuf));
    NoneBits(w.biBuf);
  }

  /** put_short at a byte boundary. */
  method PutWord(w: Writer, v: nat)
    requires w.Valid() && w.out == 0 && w.biValid == 0 && v < 65536 && w.count + 2 <= w.buf.Length
    modifies w, w.buf
    ensures w.Valid() && w.out == 0 && w.biValid == 0 && w.Sent() == old(w.Sent()) + ToBits(v, 16)
  {
    hide ToBits, BytesToBits, Pow2;
    NoneBits(w.biBuf);
    w.PutShort(v);
  }

  /** A stored block behind the bits s, part by part. */
  lemma StoredInParts(t: Tables, s: seq<bool>, buf: seq<Byte>, eof: bool, h: seq<Byte>)
    requires |buf| < 65536 && LengthsOk(t) && DistsOk(t)
    ensures s + BitsOf(t, |s|, eof, h, StoredBlock(buf))
            == s + TypeBits(STORED_BLOCK, eof) + Padding(|s| + 3) + ToBits(|buf|, 16) + ToBits(65535 - |buf|, 16)
               + BytesToBits(buf)
    ensures |TypeBits(STORED_BLOCK, eof)| == 3 && |BytesToBits(buf)| == 8 * |buf|
  {
    hide ToBits, BytesToBits, LengthsOk, DistsOk, Padding, TypeBits;
    TypeLength(eof);
  }

  /** _tr_stored_block */
  method SendStored(w: Writer, t: Tables, buf: seq<Byte>, eof: bool, ghost h: seq<Byte>)
    requires w.Valid() && w.out == 0 && |buf| < 65536 && LengthsOk(t) && DistsOk(t)
    requires |w.Sent()| + |BitsOf(t, |w.Sent()|, eof, h, StoredBlock(buf))| <= 8 * w.buf.Length
    modifies w, w.buf
    ensures w.Valid() && w.out == 0 && w.biValid == 0
    ensures w.Sent() == old(w.Sent()) + BitsOf(t, |old(w.Sent())|, eof, h, StoredBlock(buf))
  {
    hide ToBits, BytesToBits, LengthsOk, DistsOk, Padding, Writer.Sent, TypeBits, BitsOf;
    StoredInParts(t, w.Sent(), buf, eof, h);
    SendType(w, STORED_BLOCK, eof);
    w.Windup();
    PutWord(w, |buf|);
    PutWord(w, 65535 - |buf|);
    PutBytes(w, buf);
  }

  // ------------------------------------------------------------- what a block overwrites

  /** The bits in front of a block's tokens. */
  ghost function BeforeTokens(sent: seq<bool>, eof: bool, b: Block): seq<bool>
    requires b.DynBlock? ==> CodesOk(b.codes)
  {
    match b
    case StoredBlock(_) => sent
    case StaticBlock(_) => sent + TypeBits(STATIC_TREES, eof)
    case DynBlock(c, _) => sent + TypeBits(DYN_TREES, eof) + TreesBits(c)
  }

  /** The block can be sent from the shared memory: each of its tokens is still there when
      it is read.  sent are the bits that wait when the block begins. */
  ghost predicate Clear(t: Tables, size: nat, sent: seq<bool>, eof: bool, h: seq<Byte>, b: Block)
    requires LengthsOk(t) && DistsOk(t) && BlockOk(t, h, b)
  {
    match b
    case StoredBlock(_) => true
    case StaticBlock(ts) => Spared(t, size, 0, BeforeTokens(sent, eof, b), FixedLens(), FixedDists(), ts)
    case DynBlock(c, ts) => Spared(t, size, 0, BeforeTokens(sent, eof, b), c.llens, c.dlens, ts)
  }

  lemma StoredClear(t: Tables, size: nat, sent: seq<bool>, eof: bool, h: seq<Byte>, data: seq<Byte>)
    requires LengthsOk(t) && DistsOk(t) && (|data| < 65536 || BlockOk(t, h, StoredBlock(data)))
    ensures BlockOk(t, h, StoredBlock(data)) && Clear(t, size, sent, eof, h, StoredBlock(data))
  {
  }

  lemma StaticIs(t: Tables, size: nat, sent: seq<bool>, eof: bool, h: seq<Byte>, ts: seq<Token>)
    requires LengthsOk(t) && DistsOk(t) && Within(h, ts) && AllEncodable(t, FixedLens(), FixedDists(), ts)
    ensures var b, front := StaticBlock(ts), sent + TypeBits(STATIC_TREES, eof);
            && BlockOk(t, h, b)
               && front + BlockBits(t, FixedLens(), FixedDists(), ts) == sent + BitsOf(t, |sent|, eof, h, b)
            && (Clear(t, size, sent, eof, h, b) <==> Spared(t, size, 0, front, FixedLens(), FixedDists(), ts))
  {
    hide LengthsOk, DistsOk, Within, AllEncodable, TypeBits, BlockBits, Spared, FixedLens, FixedDists;
  }

  lemma DynIs(t: Tables, size: nat, sent: seq<bool>, eof: bool, h: seq<Byte>, c: Codes, ts: seq<Token>)
    requires LengthsOk(t) && DistsOk(t) && Within(h, ts) && CodesOk(c) && AllEncodable(t, c.llens, c.dlens, ts)
    ensures var b, front := DynBlock(c, ts), sent + TypeBits(DYN_TREES, eof) + TreesBits(c);
            && BlockOk(t, h, b) && front + BlockBits(t, c.llens, c.dlens, ts) == sent + BitsOf(t, |sent|, eof, h, b)
            && (Clear(t, size, sent, eof, h, b) <==> Spared(t, size, 0, front, c.llens, c.dlens, ts))
  {
    hide LengthsOk, DistsOk, Within, AllEncodable, TypeBits, BlockBits, Spared, CodesOk, TreesBits;
  }

  // --------------------------------------------------------------------- the encoder

  /** Bits rounded up to bytes. */
  function Bytes(bits: int): int {
    (bits + 7) / 8
  }

  /** The bytes of a block with the fixed codes, and with its own. */
  ghost function StaticBytes(t: Tables, ts: seq<Token>): int
    requires LengthsOk(t) && DistsOk(t) && AllEncodable(t, FixedLens(), FixedDists(), ts)
  {
    Bytes(3 + |BlockBits(t, FixedLens(), FixedDists(), ts)|)
  }

  ghost function DynBytes(t: Tables, c: Codes, ts: seq<Token>): int
    requires LengthsOk(t) && DistsOk(t) && CodesOk(c) && AllEncodable(t, c.llens, c.dlens, ts)
  {
    Bytes(3 + |TreesBits(c)| + |BlockBits(t, c.llens, c.dlens, ts)|)
  }

  /** The shortest encoding, but that Z_FIXED allows no codes but the fixed ones and that a
      block is stored only if its bytes are there. */
  ghost predicate Chosen(t: Tables, c: Codes, b: Block, ts: seq<Token>, data: seq<Byte>, there: bool, fixed: bool)
    requires LengthsOk(t) && DistsOk(t)
  {
    && CodesOk(c) && FromTrees(t, c, ts) && AllEncodable(t, c.llens, c.dlens, ts)
       && AllEncodable(t, FixedLens(), FixedDists(), ts)
    && var stat, dyn := StaticBytes(t, ts), DynBytes(t, c, ts);
       match b
       case StoredBlock(d) => d == data && there && |data| + 4 <= stat && |data| + 4 <= dyn
       case StaticBlock(us) => us == ts && (fixed || stat <= dyn) && (there ==> |data| + 4 > stat || |data| + 4 > dyn)
       case DynBlock(k, us) => us == ts && k == c && !fixed && dyn < stat && (there ==> |data| + 4 > dyn)
  }

  lemma ChosenIs(t: Tables, c: Codes, b: Block, ts: seq<Token>, h: seq<Byte>, data: seq<Byte>, there: bool, fixed: bool)
    requires LengthsOk(t) && DistsOk(t) && Within(h, ts) && Expand(h, ts) == h + data && (there ==> |data| < 65536)
    requires CodesOk(c) && FromTrees(t, c, ts) && AllEncodable(t, c.llens, c.dlens, ts)
             && AllEncodable(t, FixedLens(), FixedDists(), ts)
    requires var stat, dyn := StaticBytes(t, ts), DynBytes(t, c, ts);
             b == if there && |data| + 4 <= stat && |data| + 4 <= dyn then StoredBlock(data)
                  else if fixed || stat <= dyn then StaticBlock(ts)
                  else DynBlock(c, ts)
    ensures Chosen(t, c, b, ts, data, there, fixed) && BlockOk(t, h, b) && After(h, b) == h + data
  {
    hide LengthsOk, DistsOk, Within, Expand, AllEncodable, BlockBits, CodesOk, TreesBits, FixedLens, FixedDists,
         FromTrees;
  }

  /** The sizes that lit_bufsize can have. */
  predicate BufSize(size: nat) {
    128 <= size <= 32768 && size % 2 == 0
  }

  /** The part of deflate_state that buffers a block's tokens and sends it.  The tokens lie
      in the memory of the writer. */
  class Encoder {
    const t: Tables
    const w: Writer
    const ltree: Tree
    const dtree: Tree
    const litBufsize: nat
    var lastLit: nat
    var lfreq: seq<nat>
    var dfreq: seq<nat>
    var lastEobLen: nat
    ghost var tokens: seq<Token>

    /** What does not depend on the tokens. */
    ghost predicate Ready()
      reads this, w
    {
      && LengthsOk(t) && DistsOk(t) && w.Valid() && BufSize(litBufsize) && w.buf.Length == 4 * litBufsize
      && TreePart(ltree, FixedLens(), |FixedLens()|) && TreePart(dtree, FixedDists(), D_CODES)
    }

    ghost predicate Valid()
      reads this, w, w.buf
    {
      && Ready() && lastLit == |tokens| < litBufsize && Kept(w.buf[..], litBufsize, tokens)
      && |lfreq| == 2 * L_CODES + 1 && |dfreq| == 2 * D_CODES + 1
      && lfreq[..L_CODES] == LFreq(t, tokens) && dfreq[..D_CODES] == DFreq(t, tokens)
    }

    /** _tr_init */
    constructor (w: Writer, litBufsize: nat)
      requires w.Valid() && BufSize(litBufsize) && w.buf.Length == 4 * litBufsize
      ensures Valid() && tokens == [] && this.w == w && this.litBufsize == litBufsize && lastEobLen == 8
    {
      var tables := StaticInit();
      var l, d := StaticTrees();
      t, ltree, dtree := tables, l, d;
      this.w, this.litBufsize := w, litBufsize;
      lastLit, lfreq, dfreq, lastEobLen, tokens := 0, [], [], 8, [];
      new;
      InitBlock();
    }

    /** init_block */
    method InitBlock()
      requires Ready()
      modifies this`lastLit, this`lfreq, this`dfreq, this`tokens
      ensures Valid() && tokens == []
    {
      hide LengthsOk, DistsOk, TreePart;
      lastLit, tokens := 0, [];
      lfreq := seq(2 * L_CODES + 1, _ => 0)[END_BLOCK := 1];
      dfreq := seq(2 * D_CODES + 1, _ => 0);
      assert lfreq[..L_CODES] == seq(L_CODES, _ => 0)[END_BLOCK := 1];
      assert dfreq[..D_CODES] == seq(D_CODES, _ => 0);
    }

    /** Writes the token's entries in d_buf and l_buf. */
    method Store(dist: nat, lc: Byte)
      requires w.buf.Length == 4 * litBufsize && lastLit < litBufsize && dist <= 32768
               && Kept(w.buf[..], litBufsize, tokens)
      requires lastLit == |tokens| && w.Valid() && w.count == 0
      modifies w.buf
      ensures TokenOk(BufToken(dist, lc)) && Kept(w.buf[..], litBufsize, tokens + [BufToken(dist, lc)])
      ensures w.Sent() == old(w.Sent())
    {
      hide BytesToBits, ToBits, Pow2;
      var lo, hi := dist % 256, dist / 256;
      w.buf[DPlace(litBufsize, lastLit)] := lo;
      w.buf[DPlace(litBufsize, lastLit) + 1] := hi;
      w.buf[LPlace(litBufsize, lastLit)] := lc;
      ghost var ts := tokens + [BufToken(dist, lc)];
      forall k | 0 <= k < |ts|
        ensures EntryAt(w.buf[..], litBufsize, k, ts[k])
      {
        if k < lastLit {
          assert EntryAt(old(w.buf[..]), litBufsize, k, tokens[k]);
        }
      }
      assert w.Pending() == old(w.Pending()) == [];
    }

    /** _tr_tally: buffers a token and counts its symbols; true when the buffer is full. */
    method Tally(dist: nat, lc: Byte) returns (full: bool)
      requires Valid() && dist <= 32768 && w.count == 0 && lastLit + 1 < litBufsize
      modifies this, w.buf
      ensures Valid() && tokens == old(tokens) + [BufToken(dist, lc)] && lastEobLen == old(lastEobLen)
      ensures full == (lastLit + 1 == litBufsize) && lastLit == |tokens| < litBufsize && w.Sent() == old(w.Sent())
    {
      hide LengthsOk, DistsOk, TreePart, LFreq, DFreq, LSym, DSym, DCode, EntryAt, Writer.Sent;
      ghost var ts, tok := tokens, BufToken(dist, lc);
      Store(dist, lc);
      Counted(t, ts, tok);
      lastLit, tokens := lastLit + 1, tokens + [tok];
      if dist == 0 {
        LiteralSymIs(t, tok);
        lfreq := lfreq[lc := lfreq[lc] + 1];
      } else {
        MatchSyms(t, tok, lc);
        var l := t.lengthCode[lc] + LITERALS + 1;
        lfreq := lfreq[l := lfreq[l] + 1];
        var c := DCode(t, dist - 1);
        dfreq := dfreq[c := dfreq[c] + 1];
      }
      full := lastLit == litBufsize - 1;
    }

    /** _tr_flush_block: sends what is buffered as one block, in whichever encoding is
        shortest.  data are the bytes it stands for; buf holds them unless they are
        too old.  A block that is clear is sent as it is meant. */
    method FlushBlock(buf: Option<seq<Byte>>, storedLen: nat, eof: bool, level: nat, fixed: bool,
                      ghost h: seq<Byte>, ghost data: seq<Byte>)
      returns (ghost b: Block, ghost c: Codes)
      requires Valid() && storedLen == |data| && w.count == 0
      requires buf.Some? ==> buf.value == data && |data| < 65536
      requires level == 0 ==> buf.Some? && |data| + 5 <= 4 * litBufsize && w.biValid <= 5
      requires level > 0 ==> Within(h, tokens) && Expand(h, tokens) == h + data
      modifies this, w, w.buf
      ensures Valid() && w.out == 0 && tokens == [] && BlockOk(t, h, b) && After(h, b) == h + data
              && (eof ==> w.biValid == 0)
      ensures Clear(t, litBufsize, old(w.Sent()), eof, h, b) ==>
                w.Sent() == old(w.Sent()) + BitsOf(t, |old(w.Sent())|, eof, h, b)
                          + if eof then Padding(|old(w.Sent())| + |BitsOf(t, |old(w.Sent())|, eof, h, b)|) else []
      ensures level == 0 ==> b.StoredBlock? && w.biValid == 0 && lastEobLen == 8
      ensures level > 0 ==> Chosen(t, c, b, old(tokens), data, buf.Some?, fixed)
      ensures lastEobLen == EndBits(b)
    {
      hide LengthsOk, DistsOk, TreePart, LFreq, DFreq, AllEncodable, BlockBits, TreesBits, CodesOk, TreeFor, Within,
           Expand, ToBits, BytesToBits, FixedLens, FixedDists, Padding, Chosen, Writer.Sent, Kept, Clear;
      ghost var was := w.Sent();
      c := Codes([], [], [], 0);
      if level > 0 {
        var ok;
        ok, b, c := SendBest(buf, storedLen, eof, fixed, h, data);
      } else {
        b := StoredBlock(data);
        StoredLength(t, |was|, eof, h, data);
        StoredPad(|was|);
        StoredBlockOnly(buf.value, eof, h);
      }
      InitBlock();
      if eof {
        w.Windup();
        KeptNone(w.buf[..], litBufsize);
      }
    }

    /** The block in the best of its encodings.  It is sent as it is meant if and only if it
        is clear. */
    method SendBest(buf: Option<seq<Byte>>, storedLen: nat, eof: bool, fixed: bool, ghost h: seq<Byte>,
                    ghost data: seq<Byte>)
      returns (ok: bool, ghost b: Block, ghost c: Codes)
      requires Valid() && storedLen == |data| && w.count == 0
      requires buf.Some? ==> buf.value == data && |data| < 65536
      requires Within(h, tokens) && Expand(h, tokens) == h + data
      modifies w, w.buf, this`lastEobLen
      ensures Ready() && w.out == 0 && BlockOk(t, h, b) && After(h, b) == h + data
              && |w.Sent()| + 16 <= 8 * w.buf.Length
      ensures ok && w.Sent() == old(w.Sent()) + BitsOf(t, |old(w.Sent())|, eof, h, b)
          <==> Clear(t, litBufsize, old(w.Sent()), eof, h, b)
      ensures Chosen(t, c, b, tokens, data, buf.Some?, fixed) && lastEobLen == EndBits(b)
    {
      hide LengthsOk, DistsOk, TreePart, LFreq, DFreq, AllEncodable, BlockBits, TreesBits, CodesOk, TreeFor, Within,
           Expand,
           FixedLens, FixedDists, Writer.Sent, Kept, Spared, TypeBits, Clear, BitsOf, BlockOk, After, Chosen, Complete,
           FromTrees;
      ghost var ts, was := tokens, w.Sent();
      var lt, lmax, dt, dmax, blt, maxBlindex, opt, stat;
      KeptOk(w.buf[..], litBufsize, ts);
      lt, lmax, dt, dmax, blt, maxBlindex, opt, stat, c := BuildCodes(t, lfreq, dfreq, ts);
      StaticRoom(t, ts);
      var optLenb, staticLenb := (opt + 3 + 7) / 8, (stat + 3 + 7) / 8;
      if staticLenb <= optLenb {
        optLenb := staticLenb;
      }
      if storedLen + 4 <= optLenb && buf.Some? {
        ok, b := true, StoredBlock(data);
        StoredLength(t, |was|, eof, h, data);
        StoredBlockOnly(buf.value, eof, h);
        StoredClear(t, litBufsize, was, eof, h, data);
      } else if fixed || staticLenb == optLenb {
        ok := SendStatic(eof);
        b := StaticBlock(ts);
        StaticIs(t, litBufsize, was, eof, h, ts);
      } else {
        ok := SendDyn(eof, lt, lmax, dt, dmax, blt, maxBlindex, c);
        b := DynBlock(c, ts);
        DynIs(t, litBufsize, was, eof, h, c, ts);
      }
      ChosenIs(t, c, b, ts, h, data, buf.Some?, fixed);
    }

    /** The buffered tokens with the fixed codes. */
    method SendStatic(eof: bool) returns (ok: bool)
      requires Valid() && w.count == 0 && AllEncodable(t, FixedLens(), FixedDists(), tokens)
      modifies w, w.buf, this`lastEobLen
      ensures Ready() && w.out == 0 && |w.Sent()| + 16 <= 8 * w.buf.Length
      ensures var front := old(w.Sent()) + TypeBits(STATIC_TREES, eof);
              ok && w.Sent() == front + BlockBits(t, FixedLens(), FixedDists(), tokens)
              <==> Spared(t, litBufsize, 0, front, FixedLens(), FixedDists(), tokens)
      ensures lastEobLen == 7
    {
      hide LengthsOk, DistsOk, TreePart, LFreq, DFreq, AllEncodable, BlockBits, FixedLens, FixedDists, TypeBits,
           Writer.Sent, EntryAt, Spared, Grew, SymsBelow;
      TypeLength(eof);
      ghost var start := w.Now();
      KeptOk(w.buf[..], litBufsize, tokens);
      StaticRoom(t, tokens);
      SendType(w, STATIC_TREES, eof);
      StaticBounds(t, tokens);
      FixedPrefix();
      ok := CompressBlock(w, t, litBufsize, lastLit, ltree, dtree, L_CODES + 2, D_CODES, FixedLens(), FixedDists(),
                          tokens, start);
      EndFixed();
      EndOf(ltree, FixedLens(), |FixedLens()|);
      lastEobLen := ltree.len[END_BLOCK];
    }

    /** The codes' trees, and the buffered tokens with those codes. */
    method SendDyn(eof: bool, lt: Tree, lmax: nat, dt: Tree, dmax: nat, blt: Tree, maxBlindex: nat, ghost c: Codes)
      returns (ok: bool)
      requires Valid() && w.count == 0 && CodesOk(c) && AllEncodable(t, c.llens, c.dlens, tokens)
      requires TreeFor(lt, c.llens) && TreeFor(dt, c.dlens) && TreeFor(blt, c.blens)
      requires lmax + 1 == |c.llens| && dmax + 1 == |c.dlens| && maxBlindex + 1 == c.blcodes
      requires Complete(c.llens) && Complete(c.dlens)
      requires |TreesBits(c)| + |BlockBits(t, c.llens, c.dlens, tokens)| + 128 <= 32 * litBufsize
      modifies w, w.buf, this`lastEobLen
      ensures Ready() && w.out == 0 && |w.Sent()| + 16 <= 8 * w.buf.Length
      ensures var front := old(w.Sent()) + TypeBits(DYN_TREES, eof) + TreesBits(c);
              ok && w.Sent() == front + BlockBits(t, c.llens, c.dlens, tokens)
              <==> Spared(t, litBufsize, 0, front, c.llens, c.dlens, tokens)
      ensures END_BLOCK < |c.llens| && lastEobLen == c.llens[END_BLOCK]
    {
      hide LengthsOk, DistsOk, TreePart, LFreq, DFreq, AllEncodable, BlockBits, TreesBits, CodesOk, TreeFor, FixedLens,
           FixedDists, TypeBits, Writer.Sent, EntryAt, Spared, Grew;
      ghost var start := w.Now();
      TypeLength(eof);
      SendType(w, DYN_TREES, eof);
      ghost var now := w.Now();
      SendAllTrees(w, lt, lmax + 1, dt, dmax + 1, blt, maxBlindex + 1, c);
      GrewOn(start, now, w.Now());
      AllOfTree(lt, c.llens);
      AllOfTree(dt, c.dlens);
      DynBounds(t, c, tokens);
      ok := CompressBlock(w, t, litBufsize, lastLit, lt, dt, lmax + 1, dmax + 1, c.llens, c.dlens, tokens, start);
      EndOf(lt, c.llens, |c.llens|);
      lastEobLen := lt.len[END_BLOCK];
    }

    /** _tr_stored_block */
    method StoredBlockOnly(buf: seq<Byte>, eof: bool, ghost h: seq<Byte>)
      requires Ready() && |buf| < 65536 && w.out == 0
      requires |w.Sent()| + |BitsOf(t, |w.Sent()|, eof, h, StoredBlock(buf))| <= 8 * w.buf.Length
      modifies w, w.buf, this`lastEobLen
      ensures Ready() && w.out == 0 && w.biValid == 0 && lastEobLen == 8 && (old(Valid()) && tokens == [] ==> Valid())
      ensures w.Sent() == old(w.Sent()) + BitsOf(t, |old(w.Sent())|, eof, h, StoredBlock(buf))
    {
      hide LengthsOk, DistsOk, TreePart, LFreq, DFreq, FixedLens, FixedDists, BitsOf, Kept;
      SendStored(w, t, buf, eof, h);
      lastEobLen := 8;
      KeptNone(w.buf[..], litBufsize);
    }

    /** _tr_align: one empty block with the fixed codes, or two if the decoder might
        otherwise not see the end of the block before. */
    method Align(ghost h: seq<Byte>) returns (ghost n: nat)
      requires Valid() && w.count == 0 && tokens == []
      modifies w, w.buf, this`lastEobLen
      ensures Valid() && w.out == 0 && (n == 1 || n == 2) && w.biValid < 8
      ensures old(w.biValid) == 0 && old(lastEobLen) == 8 ==> w.biValid == 2
      ensures 1 + old(lastEobLen) + 10 * n - w.biValid >= 9 && (n == 2 ==> old(lastEobLen) < 5)
      ensures BlockOk(t, h, StaticBlock([])) && After(h, StaticBlock([])) == h
      ensures var e := BitsOf(t, 0, false, h, StaticBlock([]));
              w.Sent() == old(w.Sent()) + if n == 1 then e else e + e
    {
      hide LengthsOk, DistsOk, TreePart, LFreq, DFreq, FixedLens, FixedDists, BitsOf, Writer.Sent, AllEncodable, Kept;
      EmptyEncodable(t, h);
      SendEmpty(h);
      n := 1;
      if 1 + lastEobLen + 10 - w.biValid < 9 {
        SendEmpty(h);
        n := 2;
      }
      lastEobLen := 7;
      KeptNone(w.buf[..], litBufsize);
    }

    method SendEmpty(ghost h: seq<Byte>)
      requires Ready() && w.out == 0 && |w.Sent()| <= 64 && BlockOk(t, h, StaticBlock([]))
      modifies w, w.buf
      ensures Ready() && w.out == 0 && w.Sent() == old(w.Sent()) + BitsOf(t, 0, false, h, StaticBlock([]))
      ensures w.biValid < 8 && |w.Sent()| == |old(w.Sent())| + 10
    {
      hide LengthsOk, DistsOk, TreePart, ToBits, TypeBits, Writer.Sent, FixedLens, FixedDists;
      EndFixed();
      TypeLength(false);
      SendType(w, STATIC_TREES, false);
      SendCode(w, END_BLOCK, ltree, FixedLens(), |FixedLens()|);
      w.Flush();
    }
  }

  lemma KeptNone(m: seq<Byte>, size: nat)
    requires |m| == 4 * size
    ensures Kept(m, size, [])
  {
  }

  lemma KeptOk(m: seq<Byte>, size: nat, ts: seq<Token>)
    requires Kept(m, size, ts)
    ensures TokensOk(ts)
  {
  }

  lemma EndFixed()
    ensures END_BLOCK < |FixedLens()| && FixedLens()[END_BLOCK] == 7
  {
  }

  lemma EndOf(tree: Tree, lens: seq<nat>, n: nat)
    requires TreePart(tree, lens, n) && END_BLOCK < n
    ensures n <= |tree.len| && n <= |lens| && tree.len[END_BLOCK] == lens[END_BLOCK]
  {
    hide Code;
  }

  /** How many bits end the block; a stored one ends with whole bytes. */
  function EndBits(b: Block): (r: nat) {
    match b
    case StoredBlock(_) => 8
    case StaticBlock(_) => 7
    case DynBlock(c, _) => if END_BLOCK < |c.llens| then c.llens[END_BLOCK] else 0
  }

  lemma EmptyEncodable(t: Tables, h: seq<Byte>)
    requires LengthsOk(t) && DistsOk(t)
    ensures BlockOk(t, h, StaticBlock([])) && After(h, StaticBlock([])) == h
  {
  }

  /** The 3 bits in front of a block. */
  method SendType(w: Writer, sel: nat, eof: bool)
    requires w.Valid() && w.out == 0 && sel < 4 && |w.Sent()| + 3 <= 8 * w.buf.Length
    modifies w, w.buf
    ensures w.Valid() && w.out == 0 && w.Sent() == old(w.Sent()) + TypeBits(sel, eof) && Grew(old(w.Now()), w.Now())
  {
    hide ToBits, BytesToBits, Pow2;
    Pow2Values();
    w.SendBits(2 * sel + (if eof then 1 else 0), 3);
  }

  lemma TypeLength(eof: bool)
    ensures forall sel :: |TypeBits(sel, eof)| == 3
  {
  }

  /** A token takes at most 31 bits in the fixed codes. */
  lemma StaticToken(t: Tables, tok: Token)
    requires LengthsOk(t) && DistsOk(t) && TokenOk(tok) && Encodable(t, FixedLens(), FixedDists(), tok)
    ensures |TokenBits(t, FixedLens(), FixedDists(), tok)| <= 31
  {
    hide LengthsOk, DistsOk, LSym, DSym, LExtra, DExtra, SymBits;
    if tok.Match? {
      ExtraCost(t, tok);
      SymKind(t, tok);
    }
  }

  lemma {:induction false} StaticTokens(t: Tables, ts: seq<Token>)
    requires LengthsOk(t) && DistsOk(t) && AllEncodable(t, FixedLens(), FixedDists(), ts)
    ensures |TokensBits(t, FixedLens(), FixedDists(), ts)| <= 31 * |ts|
    decreases |ts|
  {
    hide LengthsOk, DistsOk, FixedLens, FixedDists, TokenBits, Encodable;
    if ts == [] {
    } else {
      EncodableOk(t, FixedLens(), FixedDists(), ts);
      StaticToken(t, ts[0]);
      StaticTokens(t, ts[1..]);
    }
  }

  /** A block of fewer than lit_bufsize tokens fits the memory with the fixed codes. */
  lemma StaticRoom(t: Tables, ts: seq<Token>)
    requires LengthsOk(t) && DistsOk(t) && TokensOk(ts)
    ensures AllEncodable(t, FixedLens(), FixedDists(), ts)
    ensures |BlockBits(t, FixedLens(), FixedDists(), ts)| <= 31 * |ts| + 7
  {
    hide LengthsOk, DistsOk, TokensBits, FixedLens, FixedDists, Encodable;
    StaticEncodable(t, ts);
    StaticTokens(t, ts);
    EndFixed();
  }

  lemma FixedPrefix()
    ensures |FixedLens()| == L_CODES + 2 && NotOver(FixedLens()) && NotOver(FixedDists())
  {
    hide Complete, NotOver;
    FixedComplete();
    CompleteNotOver(FixedLens());
    CompleteNotOver(FixedDists());
  }

  /** A stored block takes its bytes, 4 for the lengths and 3 bits up to a byte boundary. */
  lemma StoredLength(t: Tables, pos: nat, eof: bool, h: seq<Byte>, data: seq<Byte>)
    requires LengthsOk(t) && DistsOk(t) && |data| < 65536
    ensures |BitsOf(t, pos, eof, h, StoredBlock(data))| == 3 + |Padding(pos + 3)| + 32 + 8 * |data|
  {
    hide LengthsOk, DistsOk, Padding, ToBits, BytesToBits;
    TypeLength(eof);
  }

  /** Where at most 5 bits wait, the type and its padding fill one byte. */
  lemma StoredPad(pos: nat)
    requires pos <= 5
    ensures pos + 3 + |Padding(pos + 3)| == 8
  {
  }

  lemma StaticBounds(t: Tables, ts: seq<Token>)
    requires LengthsOk(t) && DistsOk(t) && TokensOk(ts)
    ensures END_BLOCK < |FixedLens()|
    ensures forall i :: 0 <= i < |ts| ==> SymsBelow(t, ts[i], |FixedLens()|, D_CODES)
  {
    hide LengthsOk, DistsOk, LSym, DSym;
    forall i | 0 <= i < |ts|
      ensures SymsBelow(t, ts[i], |FixedLens()|, D_CODES)
    {
      LSymBound(t, ts[i]);
      if ts[i].Match? {
        DSymBound(t, ts[i]);
      }
    }
  }

  lemma DynBounds(t: Tables, c: Codes, ts: seq<Token>)
    requires LengthsOk(t) && DistsOk(t) && CodesOk(c) && AllEncodable(t, c.llens, c.dlens, ts)
    requires Complete(c.llens) && Complete(c.dlens)
    ensures END_BLOCK < |c.llens| && NotOver(c.llens) && NotOver(c.dlens)
    ensures forall i :: 0 <= i < |ts| ==> SymsBelow(t, ts[i], |c.llens|, |c.dlens|)
  {
    hide LengthsOk, DistsOk, LSym, DSym, AllCodable, NotOver, Complete, CodeOk;
    CompleteNotOver(c.llens);
    CompleteNotOver(c.dlens);
    forall i | 0 <= i < |ts|
      ensures SymsBelow(t, ts[i], |c.llens|, |c.dlens|)
    {
      assert Encodable(t, c.llens, c.dlens, ts[i]);
    }
  }

  lemma LiteralSymIs(t: Tables, tok: Token)
    requires LengthsOk(t) && tok.Literal?
    ensures LSym(t, tok) == tok.c
  {
  }

  lemma MatchSyms(t: Tables, tok: Token, lc: Byte)
    requires LengthsOk(t) && DistsOk(t) && TokenOk(tok) && tok.Match? && tok.len == lc + MIN_MATCH
    ensures |t.lengthCode| == 256 && |t.distCode| == 512 && tok.dist - 1 < 32768
    ensures LSym(t, tok) == t.lengthCode[lc] + LITERALS + 1 && DSym(t, tok) == DCode(t, tok.dist - 1)
  {
  }

  /** One more token adds one to its symbols' frequencies. */
  lemma Counted(t: Tables, ts: seq<Token>, tok: Token)
    requires LengthsOk(t) && DistsOk(t) && TokensOk(ts) && TokenOk(tok)
    ensures TokensOk(ts + [tok]) && LSym(t, tok) < L_CODES && (tok.Match? ==> DSym(t, tok) < D_CODES)
    ensures var s := LSym(t, tok); LFreq(t, ts + [tok]) == LFreq(t, ts)[s := LFreq(t, ts)[s] + 1]
    ensures DFreq(t, ts + [tok]) == if tok.Literal? then DFreq(t, ts)
            else DFreq(t, ts)[DSym(t, tok) := DFreq(t, ts)[DSym(t, tok)] + 1]
  {
    hide LengthsOk, DistsOk, LSym, DSym;
    LSymBound(t, tok);
    if tok.Match? {
      DSymBound(t, tok);
    }
    assert (ts + [tok])[..|ts|] == ts;
  }
}
