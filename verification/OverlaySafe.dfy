/** When a block's bits stay behind its tokens: the bounds that make every block clear,
    whatever its tokens are. */
module OverlaySafe {
  import opened Bits
  import opened Canonical
  import opened InflateMachine
  import opened TreeTables
  import opened Tokens
  import opened TokensUnique
  import opened BitWriter
  import opened Overlay
  import opened CodeLengths
  import opened HeaderDecode
  import opened StreamDecode
  import opened BlockCost
  import opened TreeBuilder
  import opened BlockEncoder

  /** If the bits before each token take no more than the memory before it, and a word more
      that waits, every token is still there. */
  lemma RoomSpares(t: Tables, size: nat, sent: seq<bool>, llens: seq<nat>, dlens: seq<nat>, ts: seq<Token>)
    requires LengthsOk(t) && DistsOk(t) && AllEncodable(t, llens, dlens, ts) && size % 2 == 0 && |ts| <= size
    requires forall k :: 0 <= k < |ts| ==> |SentBefore(t, sent, llens, dlens, ts, k)| <= 8 * DPlace(size, k) + 16
    ensures Spared(t, size, 0, sent, llens, dlens, ts)
  {
    hide LengthsOk, DistsOk, AllEncodable, SentBefore, SentByte;
    EncodableOk(t, llens, dlens, ts);
    forall k | 0 <= k < |ts|
      ensures var bits := SentBefore(t, sent, llens, dlens, ts, k); EntrySpared(size, k, ts[k], bits, Held(0, |bits|))
    {
      HeldBelow(|SentBefore(t, sent, llens, dlens, ts, k)|, size + 2 * k);
    }
  }

  lemma HeldBelow(bits: nat, place: nat)
    requires place % 2 == 0 && bits <= 8 * place + 16
    ensures Held(0, bits) <= place
  {
  }

  // ------------------------------------------------------------------ costs of tokens

  /** Tokens of at most b bits each. */
  lemma {:induction false} TokensAtMost(t: Tables, llens: seq<nat>, dlens: seq<nat>, ts: seq<Token>, b: nat)
    requires LengthsOk(t) && DistsOk(t) && AllEncodable(t, llens, dlens, ts)
    requires forall i :: 0 <= i < |ts| ==> |TokenBits(t, llens, dlens, ts[i])| <= b
    ensures |TokensBits(t, llens, dlens, ts)| <= b * |ts|
    decreases |ts|
  {
    hide LengthsOk, DistsOk, TokenBits, Encodable;
    if ts == [] {
    } else {
      TokensAtMost(t, llens, dlens, ts[1..], b);
      assert b * |ts| == b + b * |ts[1..]|;
    }
  }

  /** Every token takes at least a bit. */
  lemma {:induction false} TokensAtLeast(t: Tables, llens: seq<nat>, dlens: seq<nat>, ts: seq<Token>)
    requires LengthsOk(t) && DistsOk(t) && AllEncodable(t, llens, dlens, ts)
    ensures |TokensBits(t, llens, dlens, ts)| >= |ts|
    decreases |ts|
  {
    hide LengthsOk, DistsOk, TokenBits, Encodable;
    if ts == [] {
    } else {
      TokensAtLeast(t, llens, dlens, ts[1..]);
      TokenAtLeast(t, llens, dlens, ts[0]);
    }
  }

  lemma TokenAtLeast(t: Tables, llens: seq<nat>, dlens: seq<nat>, tok: Token)
    requires LengthsOk(t) && DistsOk(t) && Encodable(t, llens, dlens, tok)
    ensures |TokenBits(t, llens, dlens, tok)| >= 1
  {
    hide LengthsOk, DistsOk, SymBits, LSym, DSym, LExtra, DExtra;
  }

  /** A distance of at most 256 has at most 6 extra bits. */
  lemma NearExtra(t: Tables, tok: Token)
    requires LengthsOk(t) && DistsOk(t) && TokenOk(tok) && tok.Match? && tok.dist <= 256
    ensures |LExtra(t, tok)| <= 5 && |DExtra(t, tok)| <= 6
  {
    hide Pow2, DCode;
    ExtraCost(t, tok);
    assert DistCovered(t, tok.dist - 1);
  }

  lemma NearToken(t: Tables, tok: Token)
    requires LengthsOk(t) && DistsOk(t) && Encodable(t, FixedLens(), FixedDists(), tok)
    requires tok.Match? ==> tok.dist <= 256
    ensures |TokenBits(t, FixedLens(), FixedDists(), tok)| <= if tok.Match? then 24 else 9
  {
    hide LengthsOk, DistsOk, LSym, DSym, LExtra, DExtra, SymBits;
    if tok.Match? {
      NearExtra(t, tok);
      SymKind(t, tok);
    }
  }

  lemma PartEncodable(t: Tables, llens: seq<nat>, dlens: seq<nat>, ts: seq<Token>, k: nat)
    requires LengthsOk(t) && DistsOk(t) && AllEncodable(t, llens, dlens, ts) && k <= |ts|
    ensures AllEncodable(t, llens, dlens, ts[..k]) && AllEncodable(t, llens, dlens, ts[k..])
    ensures |TokensBits(t, llens, dlens, ts)|
              == |TokensBits(t, llens, dlens, ts[..k])| + |TokensBits(t, llens, dlens, ts[k..])|
  {
    hide LengthsOk, DistsOk, TokenBits, Encodable, TokensBits;
    assert ts == ts[..k] + ts[k..];
    TokensBitsAppend(t, llens, dlens, ts[..k], ts[k..]);
  }

  // ------------------------------------------------------------- blocks that are clear

  /** With the fixed codes, matches at most 256 bytes back take at most 24 bits. */
  lemma StaticClear(t: Tables, size: nat, sent: seq<bool>, eof: bool, h: seq<Byte>, ts: seq<Token>)
    requires LengthsOk(t) && DistsOk(t) && BlockOk(t, h, StaticBlock(ts)) && BufSize(size) && |ts| < size
             && |sent| <= 16
    requires AllNear(ts, 256)
    ensures Clear(t, size, sent, eof, h, StaticBlock(ts))
  {
    hide LengthsOk, DistsOk, FixedLens, FixedDists, Encodable, TokenBits, TokensBits, Spared, Within, TypeBits;
    var llens, dlens, front := FixedLens(), FixedDists(), sent + TypeBits(STATIC_TREES, eof);
    TypeLength(eof);
    forall k | 0 <= k < |ts|
      ensures |SentBefore(t, front, llens, dlens, ts, k)| <= 8 * DPlace(size, k) + 16
    {
      PartEncodable(t, llens, dlens, ts, k);
      forall i | 0 <= i < k
        ensures |TokenBits(t, llens, dlens, ts[..k][i])| <= 24
      {
        assert Encodable(t, llens, dlens, ts[i]);
        NearToken(t, ts[i]);
      }
      TokensAtMost(t, llens, dlens, ts[..k], 24);
    }
    RoomSpares(t, size, front, llens, dlens, ts);
  }

  /** Codes of a block's own are used only if they save something. */
  lemma DynSaves(t: Tables, c: Codes, ts: seq<Token>)
    requires LengthsOk(t) && DistsOk(t) && CodesOk(c) && AllEncodable(t, c.llens, c.dlens, ts)
    requires AllEncodable(t, FixedLens(), FixedDists(), ts) && DynBytes(t, c, ts) < StaticBytes(t, ts)
    ensures |TreesBits(c)| + |BlockBits(t, c.llens, c.dlens, ts)| < |BlockBits(t, FixedLens(), FixedDists(), ts)|
  {
    hide LengthsOk, DistsOk, CodesOk, AllEncodable, BlockBits, TreesBits, FixedLens, FixedDists;
  }

  /** Literals alone: the trees take less than what they save, and that is less than what
      lies below the tokens. */
  lemma LiteralsClear(t: Tables, size: nat, sent: seq<bool>, eof: bool, h: seq<Byte>, c: Codes, ts: seq<Token>)
    requires LengthsOk(t) && DistsOk(t) && BlockOk(t, h, DynBlock(c, ts)) && BufSize(size) && |ts| < size
             && |sent| <= 16
    requires AllEncodable(t, FixedLens(), FixedDists(), ts) && DynBytes(t, c, ts) < StaticBytes(t, ts)
    requires AllNear(ts, 0)
    ensures Clear(t, size, sent, eof, h, DynBlock(c, ts))
  {
    hide LengthsOk, DistsOk, FixedLens, FixedDists, Encodable, TokenBits, TokensBits, Spared, Within, TypeBits, CodesOk,
         TreesBits, DynBytes, StaticBytes;
    var front := sent + TypeBits(DYN_TREES, eof) + TreesBits(c);
    TypeLength(eof);
    DynSaves(t, c, ts);
    LiteralsStatic(t, ts);
    EndDyn(c);
    forall k | 0 <= k < |ts|
      ensures |SentBefore(t, front, c.llens, c.dlens, ts, k)| <= 8 * DPlace(size, k) + 16
    {
      PartEncodable(t, c.llens, c.dlens, ts, k);
      TokensAtLeast(t, c.llens, c.dlens, ts[k..]);
    }
    RoomSpares(t, size, front, c.llens, c.dlens, ts);
  }

  lemma EndDyn(c: Codes)
    requires CodesOk(c)
    ensures END_BLOCK < |c.llens|
  {
    hide CodeOk, AllCodable;
  }

  lemma LiteralsStatic(t: Tables, ts: seq<Token>)
    requires LengthsOk(t) && DistsOk(t) && AllEncodable(t, FixedLens(), FixedDists(), ts) && AllNear(ts, 0)
    ensures |BlockBits(t, FixedLens(), FixedDists(), ts)| <= 9 * |ts| + 7
  {
    hide LengthsOk, DistsOk, FixedLens, FixedDists, Encodable, TokenBits, TokensBits;
    EncodableOk(t, FixedLens(), FixedDists(), ts);
    forall i | 0 <= i < |ts|
      ensures |TokenBits(t, FixedLens(), FixedDists(), ts[i])| <= 9
    {
      assert Encodable(t, FixedLens(), FixedDists(), ts[i]) && TokenOk(ts[i]);
      NearToken(t, ts[i]);
    }
    TokensAtMost(t, FixedLens(), FixedDists(), ts, 9);
    EndFixed();
  }

  // --------------------------------------------------------------------- runs of a byte

  lemma {:induction false} EnterGrows(p: seq<nat>, blens: seq<nat>, items: seq<Item>)
    requires AllCodable(blens, items) && forall s :: 0 <= s < |blens| ==> blens[s] < 8
    ensures |EnterAll(p, items)| >= |p| && |ItemsBits(blens, items)| <= 7 * (|EnterAll(p, items)| - |p|)
    decreases |items|
  {
    hide SymBits, ToBits, Pow2;
    if items == [] {
    } else {
      var i := items[0];
      assert ItemCodable(blens, i);
      EnterGrows(Enter(p, i), blens, items[1..]);
    }
  }

  /** A code's lengths take at most 7 bits each. */
  lemma LensCost(blens: seq<nat>, lens: seq<nat>)
    requires LensOk(lens) && AllCodable(blens, TreeItems(lens)) && forall s :: 0 <= s < |blens| ==> blens[s] < 8
    ensures |ItemsBits(blens, TreeItems(lens))| <= 7 * |lens|
  {
    hide AllCodable, TreeItems, EnterAll, ItemsBits;
    EnterGrows([], blens, TreeItems(lens));
    TreeRoundTrip([], lens);
  }

  lemma HeaderCost(c: Codes)
    requires CodesOk(c)
    ensures |TreesBits(c)| <= 2283
  {
    hide AllCodable, TreeItems, ItemsBits, TreesBits;
    TreesLength(c);
    LensCost(c.blens, c.llens);
    LensCost(c.blens, c.dlens);
  }

  /** opt_len and static_len, with the three bits in front, fit 32 bits. */
  lemma CountsFit(t: Tables, c: Codes, ts: seq<Token>)
    requires LengthsOk(t) && DistsOk(t) && CodesOk(c) && |ts| < 32768 && AllEncodable(t, c.llens, c.dlens, ts)
    ensures AllEncodable(t, FixedLens(), FixedDists(), ts)
    ensures 3 + |TreesBits(c)| + |BlockBits(t, c.llens, c.dlens, ts)| < 0x1_0000_0000
    ensures 3 + |BlockBits(t, FixedLens(), FixedDists(), ts)| < 0x1_0000_0000
  {
    hide LengthsOk, DistsOk, TokensBits, TokenBits, Encodable, TreesBits, SymBits, FixedLens, FixedDists, AllCodable,
         Complete, CodeOk;
    EncodableOk(t, c.llens, c.dlens, ts);
    StaticRoom(t, ts);
    HeaderCost(c);
    TreesLength(c);
    forall i | 0 <= i < |ts|
      ensures |TokenBits(t, c.llens, c.dlens, ts[i])| <= 48
    {
      TokenCost(t, c.llens, c.dlens, ts[i]);
    }
    TokensAtMost(t, c.llens, c.dlens, ts, 48);
  }

  lemma FirstDist(t: Tables)
    requires DistsOk(t)
    ensures DCode(t, 0) == 0
  {
    hide Pow2, DCode;
    assert DistCovered(t, 0);
  }

  /** With no distance but 1, only its code occurs. */
  lemma {:induction false} OnlyFirst(t: Tables, ts: seq<Token>)
    requires DistsOk(t) && TokensOk(ts) && AllNear(ts, 1)
    ensures forall s :: 1 <= s < D_CODES ==> DFreq(t, ts)[s] == 0
    decreases |ts|
  {
    hide DistsOk, DCode;
    if ts == [] {
    } else {
      OnlyFirst(t, ts[..|ts| - 1]);
      FirstDist(t);
    }
  }

  lemma RunToken(t: Tables, llens: seq<nat>, dlens: seq<nat>, tok: Token)
    requires LengthsOk(t) && DistsOk(t) && LensOk(llens) && Encodable(t, llens, dlens, tok)
             && (tok.Match? ==> tok.dist == 1 && dlens[0] == 1)
    ensures |TokenBits(t, llens, dlens, tok)| <= 21
  {
    hide LengthsOk, DistsOk, LSym, SymBits, DCode, LBits, DLow, LLow;
    if tok.Match? {
      ExtraCost(t, tok);
      FirstDist(t);
    }
  }

  /** Z_RLE: a distance takes one bit, and the trees are small against the memory. */
  lemma RunsClear(t: Tables, size: nat, sent: seq<bool>, eof: bool, h: seq<Byte>, c: Codes, ts: seq<Token>)
    requires LengthsOk(t) && DistsOk(t) && BlockOk(t, h, DynBlock(c, ts)) && BufSize(size) && size >= 1024
             && |ts| < size && |sent| <= 16
    requires FromTrees(t, c, ts) && AllNear(ts, 1)
    ensures Clear(t, size, sent, eof, h, DynBlock(c, ts))
  {
    hide LengthsOk, DistsOk, TokenBits, TokensBits, Spared, Within, TypeBits, CodesOk, TreesBits, Complete, DFreq,
         LFreq, DCode, DSym, LSym;
    var front := sent + TypeBits(DYN_TREES, eof) + TreesBits(c);
    TypeLength(eof);
    HeaderCost(c);
    OnlyFirst(t, ts);
    FirstDist(t);
    forall k | 0 <= k < |ts|
      ensures |SentBefore(t, front, c.llens, c.dlens, ts, k)| <= 8 * DPlace(size, k) + 16
    {
      PartEncodable(t, c.llens, c.dlens, ts, k);
      forall i | 0 <= i < k
        ensures |TokenBits(t, c.llens, c.dlens, ts[..k][i])| <= 21
      {
        assert Encodable(t, c.llens, c.dlens, ts[i]) && TokenOk(ts[i]);
        RunUsed(t, c.dlens, ts, i);
        RunToken(t, c.llens, c.dlens, ts[i]);
      }
      TokensAtMost(t, c.llens, c.dlens, ts[..k], 21);
    }
    RoomSpares(t, size, front, c.llens, c.dlens, ts);
  }

  /** A match has the one distance code that occurs. */
  lemma RunUsed(t: Tables, dlens: seq<nat>, ts: seq<Token>, i: nat)
    requires LengthsOk(t) && DistsOk(t) && TokensOk(ts) && i < |ts| && AllNear(ts, 1)
             && Made(DFreq(t, ts), dlens, D_CODES)
    requires ts[i].Match? ==> DSym(t, ts[i]) < |dlens|
    requires forall s :: 1 <= s < D_CODES ==> DFreq(t, ts)[s] == 0
    ensures ts[i].Match? ==> ts[i].dist == 1 && 0 < |dlens| && dlens[0] == 1
  {
    hide LengthsOk, DistsOk, DFreq, DCode, Complete;
    if ts[i].Match? {
      UsedSymbols(t, ts, i);
      FirstDist(t);
      assert DSym(t, ts[i]) == 0;
    }
  }

  // ------------------------------------------------------------------ any block at all

  /** The parameters with which no block loses a token: no matches, or matches of runs only
      and a large buffer, or matches at most 256 bytes back with the fixed codes only. */
  predicate Harmless(size: nat, reach: int, fixed: bool) {
    reach <= 0 || (reach <= 1 && size >= 1024) || (fixed && reach <= 256)
  }

  /** Whatever the tokens are, the block that is chosen for them is clear. */
  lemma HarmlessClear(t: Tables, size: nat, sent: seq<bool>, eof: bool, h: seq<Byte>, c: Codes, b: Block,
                      ts: seq<Token>, data: seq<Byte>, there: bool, fixed: bool, reach: int)
    requires LengthsOk(t) && DistsOk(t) && BlockOk(t, h, b) && BufSize(size) && |ts| < size && |sent| <= 16
    requires Chosen(t, c, b, ts, data, there, fixed) && AllNear(ts, reach) && Harmless(size, reach, fixed)
    ensures Clear(t, size, sent, eof, h, b)
  {
    hide LengthsOk, DistsOk, FixedLens, FixedDists, AllEncodable, Within, CodesOk, Clear, DynBytes, StaticBytes,
         FromTrees;
    match b
    case StoredBlock(d) =>
      BlockEncoder.StoredClear(t, size, sent, eof, h, d);
    case StaticBlock(us) =>
      StaticClear(t, size, sent, eof, h, ts);
    case DynBlock(k, us) =>
      if reach <= 0 {
        LiteralsClear(t, size, sent, eof, h, c, ts);
      } else {
        RunsClear(t, size, sent, eof, h, c, ts);
      }
  }
}
