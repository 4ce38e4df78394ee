/** trees.c: what opt_len and static_len count.  The frequencies gathered while
    tokens are buffered, times code and extra bits, are exactly the bits sent. */
module BlockCost {
  import opened Bits
  import opened Canonical
  import opened TreeTables
  import opened Tokens
  import opened CodeLengths
  import opened InflateMachine
  import opened BitLengths
  import opened TreeBuilder

  /** Extra bits of each symbol of the three trees. */
  function LExtras(): (r: seq<nat>)
    ensures |r| == L_CODES && forall s :: 0 <= s < L_CODES ==> r[s] == if s <= 256 then 0 else LBits(s - 257)
  {
    seq(L_CODES, s requires 0 <= s < L_CODES => if s <= 256 then 0 else LBits(s - 257))
  }

  function DExtras(): (r: seq<nat>)
    ensures |r| == D_CODES && forall s :: 0 <= s < D_CODES ==> r[s] == DBits(s)
  {
    seq(D_CODES, s requires 0 <= s < D_CODES => DBits(s))
  }

  function BlExtras(): (r: seq<nat>)
    ensures |r| == BL_CODES && forall s :: 0 <= s < BL_CODES ==> r[s] == RepeatBits(s)
  {
    seq(BL_CODES, s requires 0 <= s < BL_CODES => RepeatBits(s))
  }

  /** One more occurrence costs the symbol's bits once more. */
  lemma CostMore(freq: seq<nat>, lens: seq<nat>, extra: seq<nat>, n: nat, s: nat)
    requires s < n <= |freq| && n <= |lens| && n <= |extra|
    ensures FullCost(freq[s := freq[s] + 1], lens, extra, n) == FullCost(freq, lens, extra, n) + lens[s] + extra[s]
  {
    hide FullCost, Weight;
    FullCostUpdate(freq, lens, extra, n, s, freq[s] + 1);
    WeightMore(freq[s], lens[s], extra[s]);
  }

  lemma WeightMore(f: nat, l: nat, x: nat)
    ensures Weight(f + 1, l, x) == Weight(f, l, x) + l + x
  {
  }

  lemma {:induction false} ZeroCost(lens: seq<nat>, extra: seq<nat>, freq: seq<nat>, n: nat)
    requires n <= |freq| && n <= |lens| && n <= |extra| && forall i :: 0 <= i < n ==> freq[i] == 0
    ensures FullCost(freq, lens, extra, n) == 0
  {
    hide Weight;
    if n == 0 {
    } else {
      ZeroCost(lens, extra, freq, n - 1);
      WeightNone(lens[n - 1], extra[n - 1]);
    }
  }

  // -------------------------------------------------------------------- the tokens

  lemma LSymBound(t: Tables, tok: Token)
    requires LengthsOk(t) && TokenOk(tok)
    ensures LSym(t, tok) < L_CODES && LSym(t, tok) != END_BLOCK
  {
    hide LBits, LLow, Pow2;
    if tok.Match? {
      assert LengthCovered(t, tok.len - MIN_MATCH);
    }
  }

  lemma DSymBound(t: Tables, tok: Token)
    requires DistsOk(t) && TokenOk(tok) && tok.Match?
    ensures DSym(t, tok) < D_CODES
  {
    hide DBits, DLow, Pow2;
    assert DistCovered(t, tok.dist - 1);
  }

  /** How often each symbol is used by the tokens and the end of the block. */
  function LFreq(t: Tables, ts: seq<Token>): (r: seq<nat>)
    requires LengthsOk(t) && TokensOk(ts)
    ensures |r| == L_CODES
    decreases |ts|
  {
    if ts == [] then seq(L_CODES, _ => 0)[END_BLOCK := 1]
    else
      var tok := ts[|ts| - 1];
      LSymBound(t, tok);
      var f := LFreq(t, ts[..|ts| - 1]);
      f[LSym(t, tok) := f[LSym(t, tok)] + 1]
  }

  function DFreq(t: Tables, ts: seq<Token>): (r: seq<nat>)
    requires DistsOk(t) && TokensOk(ts)
    ensures |r| == D_CODES
    decreases |ts|
  {
    if ts == [] then seq(D_CODES, _ => 0)
    else
      var tok := ts[|ts| - 1];
      var f := DFreq(t, ts[..|ts| - 1]);
      if tok.Literal? then f
      else
        DSymBound(t, tok);
        f[DSym(t, tok) := f[DSym(t, tok)] + 1]
  }

  lemma TokenLength(t: Tables, llens: seq<nat>, dlens: seq<nat>, tok: Token)
    requires LengthsOk(t) && DistsOk(t) && Encodable(t, llens, dlens, tok)
    ensures LSym(t, tok) < L_CODES && (tok.Match? ==> DSym(t, tok) < D_CODES)
    ensures |TokenBits(t, llens, dlens, tok)| == llens[LSym(t, tok)] + LExtras()[LSym(t, tok)]
                                               + if tok.Match? then dlens[DSym(t, tok)] + DExtras()[DSym(t, tok)] else 0
  {
    hide LLow, DLow, LBits, DBits, Pow2;
    LSymBound(t, tok);
    if tok.Match? {
      assert LengthCovered(t, tok.len - MIN_MATCH);
      DSymBound(t, tok);
    }
  }

  /** opt_len and static_len: frequencies times lengths are the bits of the block. */
  lemma {:induction false} CostIsBits(t: Tables, llens: seq<nat>, dlens: seq<nat>, ts: seq<Token>, m: nat, n: nat)
    requires LengthsOk(t) && DistsOk(t) && AllEncodable(t, llens, dlens, ts) && TokensOk(ts)
    requires END_BLOCK < m <= |llens| && m <= L_CODES && n <= |dlens| && n <= D_CODES
    requires forall i :: 0 <= i < |ts| ==> LSym(t, ts[i]) < m && (ts[i].Match? ==> DSym(t, ts[i]) < n)
    ensures FullCost(LFreq(t, ts), llens, LExtras(), m) + FullCost(DFreq(t, ts), dlens, DExtras(), n)
         == |BlockBits(t, llens, dlens, ts)|
    decreases |ts|
  {
    hide FullCost, TokenBits, Encodable, LExtras, DExtras, SymBits, LSym, DSym, LengthsOk, DistsOk;
    if ts == [] {
      var zero: seq<nat> := seq(L_CODES, _ => 0);
      ZeroCost(llens, LExtras(), zero, m);
      CostMore(zero, llens, LExtras(), m, END_BLOCK);
      ZeroCost(dlens, DExtras(), seq(D_CODES, _ => 0), n);
      EndLength(llens);
    } else {
      var k := |ts| - 1;
      var tok, front := ts[k], ts[..k];
      SplitBits(t, llens, dlens, ts, k);
      assert ts[..k + 1] == ts;
      CostIsBits(t, llens, dlens, front, m, n);
      TokenLength(t, llens, dlens, tok);
      CostMore(LFreq(t, front), llens, LExtras(), m, LSym(t, tok));
      if tok.Match? {
        CostMore(DFreq(t, front), dlens, DExtras(), n, DSym(t, tok));
      }
    }
  }

  lemma EndLength(llens: seq<nat>)
    requires END_BLOCK < |llens|
    ensures |SymBits(llens, END_BLOCK)| == llens[END_BLOCK] && LExtras()[END_BLOCK] == 0
  {
  }

  // -------------------------------------------------------------------- the header

  /** How often each symbol occurs among the items. */
  function ItemFreq(items: seq<Item>): (r: seq<nat>)
    ensures |r| == BL_CODES && forall s :: 0 <= s < BL_CODES ==> r[s] == Occurs(items, s)
  {
    seq(BL_CODES, s requires 0 <= s < BL_CODES => Occurs(items, s))
  }

  lemma {:induction false} ItemsCost(blens: seq<nat>, items: seq<Item>)
    requires |blens| == BL_CODES && AllCodable(blens, items)
    ensures FullCost(ItemFreq(items), blens, BlExtras(), BL_CODES) == |ItemsBits(blens, items)|
    decreases |items|
  {
    hide FullCost, BlExtras, ItemBits, ItemCodable, Occurs;
    if items == [] {
      NoOccurs();
      ZeroCost(blens, BlExtras(), ItemFreq(items), BL_CODES);
    } else {
      var i, rest := items[0], items[1..];
      ItemsCost(blens, rest);
      ItemLength(blens, i);
      FirstOccurs(items);
      var f := ItemFreq(rest);
      assert ItemFreq(items) == f[i.sym := f[i.sym] + 1];
      CostMore(f, blens, BlExtras(), BL_CODES, i.sym);
    }
  }

  lemma ItemLength(blens: seq<nat>, i: Item)
    requires |blens| == BL_CODES && ItemCodable(blens, i)
    ensures i.sym < BL_CODES && |ItemBits(blens, i)| == blens[i.sym] + BlExtras()[i.sym]
  {
    hide Pow2;
  }

  lemma FirstOccurs(items: seq<Item>)
    requires items != []
    ensures forall s :: Occurs(items, s) == (if items[0].sym == s then 1 else 0) + Occurs(items[1..], s)
  {
  }
}
