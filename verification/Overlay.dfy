/** deflate.c and trees.c: pending_buf, d_buf and l_buf are one piece of memory of four
    times lit_bufsize bytes.  A block's tokens lie in its upper three quarters while the
    block's bits are written from its start, so that a token may be gone before it is
    read. */
module Overlay {
  import opened Bits
  import opened Canonical
  import opened TreeTables
  import opened BitWriter
  import opened Tokens
  import opened TokensUnique

  // ------------------------------------------------------------- tokens in memory

  /** What d_buf and l_buf hold for a token. */
  function DistOf(tok: Token): (r: nat)
    requires TokenOk(tok)
    ensures r <= 32768
  {
    if tok.Literal? then 0 else tok.dist
  }

  function LcOf(tok: Token): (r: Byte)
    requires TokenOk(tok)
    ensures BufToken(DistOf(tok), r) == tok
  {
    if tok.Literal? then tok.c else tok.len - MIN_MATCH
  }

  /** Where the two bytes of d_buf[k] and the byte of l_buf[k] are. */
  function DPlace(size: nat, k: nat): nat {
    size + 2 * k
  }

  function LPlace(size: nat, k: nat): nat {
    3 * size + k
  }

  ghost predicate EntryAt(m: seq<Byte>, size: nat, k: nat, tok: Token)
    requires |m| == 4 * size && k < size && TokenOk(tok)
  {
    && m[DPlace(size, k)] == DistOf(tok) % 256 && m[DPlace(size, k) + 1] == DistOf(tok) / 256
    && m[LPlace(size, k)] == LcOf(tok)
  }

  /** The memory holds the tokens. */
  ghost predicate Kept(m: seq<Byte>, size: nat, ts: seq<Token>) {
    && |m| == 4 * size && |ts| <= size && TokensOk(ts)
    && forall k :: 0 <= k < |ts| ==> EntryAt(m, size, k, ts[k])
  }

  function Word(lo: nat, hi: nat): nat {
    lo + 256 * hi
  }

  /** The token that place k reads as. */
  function ReadAt(m: seq<Byte>, size: nat, k: nat): Token
    requires |m| == 4 * size && k < size
  {
    BufToken(Word(m[DPlace(size, k)], m[DPlace(size, k) + 1]), m[LPlace(size, k)])
  }

  lemma ReadIs(m: seq<Byte>, size: nat, k: nat, tok: Token)
    requires |m| == 4 * size && k < size && TokenOk(tok)
    ensures ReadAt(m, size, k) == tok <==> EntryAt(m, size, k, tok)
  {
    var lo, hi := m[DPlace(size, k)], m[DPlace(size, k) + 1];
    DivModUnique(Word(lo, hi), 256, hi, lo);
  }

  // ------------------------------------------------------- what the bits overwrite

  /** The byte that the bits sent put at place q. */
  function SentByte(bits: seq<bool>, q: nat): nat
    requires 8 * q + 8 <= |bits|
  {
    FromBits(bits[8 * q..8 * q + 8])
  }

  lemma ByteOfBits(bytes: seq<Byte>, rest: seq<bool>, q: nat)
    requires q < |bytes|
    ensures SentByte(BytesToBits(bytes) + rest, q) == bytes[q]
  {
    hide BytesToBits, ToBits, FromBits, Low;
    var x, y, z := bytes[..q], [bytes[q]], bytes[q + 1..];
    assert bytes == x + y + z;
    BytesToBitsAppend(x + y, z);
    BytesToBitsAppend(x, y);
    OneByteBits(bytes[q]);
    var bits := BytesToBits(bytes) + rest;
    assert bits[8 * q..8 * q + 8] == ToBits(bytes[q], 8);
    FromToBits(bytes[q], 8);
    Pow2Values();
    LowSmall(bytes[q], 8);
  }

  /** When bits have been sent and held bytes of them are in the buffer, place q still has
      its value x. */
  ghost predicate Stays(bits: seq<bool>, held: nat, q: nat, x: nat)
    requires 8 * held <= |bits|
  {
    q < held ==> SentByte(bits, q) == x
  }

  /** Token k is still there. */
  ghost predicate EntrySpared(size: nat, k: nat, tok: Token, bits: seq<bool>, held: nat)
    requires 8 * held <= |bits| && TokenOk(tok)
  {
    && Stays(bits, held, DPlace(size, k), DistOf(tok) % 256)
       && Stays(bits, held, DPlace(size, k) + 1, DistOf(tok) / 256)
    && Stays(bits, held, LPlace(size, k), LcOf(tok))
  }

  /** The memory m now, where bits have been written over m0. */
  lemma Overwritten(m0: seq<Byte>, m: seq<Byte>, size: nat, k: nat, tok: Token, bits: seq<bool>, held: nat)
    requires |m0| == |m| == 4 * size && k < size && TokenOk(tok) && EntryAt(m0, size, k, tok)
    requires 8 * held <= |bits| && held <= |m|
    requires forall q :: 0 <= q < held ==> m[q] == SentByte(bits, q)
    requires forall q :: held <= q < |m| ==> m[q] == m0[q]
    ensures EntryAt(m, size, k, tok) <==> EntrySpared(size, k, tok, bits, held)
  {
    hide SentByte;
  }

  /** The first n tokens are still there when compress_block reads them: sent are the bits
      before the first of them, and p bytes were in the buffer when the block began. */
  ghost predicate SparedTo(t: Tables, size: nat, p: nat, sent: seq<bool>, llens: seq<nat>, dlens: seq<nat>,
                           ts: seq<Token>, n: nat)
    requires LengthsOk(t) && DistsOk(t) && AllEncodable(t, llens, dlens, ts) && TokensOk(ts) && n <= |ts|
             && 8 * p <= |sent|
  {
    forall k :: 0 <= k < n ==>
      var bits := SentBefore(t, sent, llens, dlens, ts, k);
      EntrySpared(size, k, ts[k], bits, Held(p, |bits|))
  }

  /** The bits sent before token k. */
  ghost function SentBefore(t: Tables, sent: seq<bool>, llens: seq<nat>, dlens: seq<nat>, ts: seq<Token>,
                            k: nat): (r: seq<bool>)
    requires LengthsOk(t) && DistsOk(t) && AllEncodable(t, llens, dlens, ts) && k <= |ts|
    ensures |r| >= |sent|
  {
    SplitBits(t, llens, dlens, ts, k);
    sent + TokensBits(t, llens, dlens, ts[..k])
  }

  /** Every token is still there when it is read. */
  ghost predicate Spared(t: Tables, size: nat, p: nat, sent: seq<bool>, llens: seq<nat>, dlens: seq<nat>,
                         ts: seq<Token>)
    requires LengthsOk(t) && DistsOk(t) && AllEncodable(t, llens, dlens, ts) && 8 * p <= |sent|
  {
    EncodableOk(t, llens, dlens, ts);
    SparedTo(t, size, p, sent, llens, dlens, ts, |ts|)
  }

  lemma EncodableOk(t: Tables, llens: seq<nat>, dlens: seq<nat>, ts: seq<Token>)
    requires LengthsOk(t) && DistsOk(t) && AllEncodable(t, llens, dlens, ts)
    ensures TokensOk(ts)
  {
    hide LengthsOk, DistsOk, LSym, DSym;
    assert forall i :: 0 <= i < |ts| ==> Encodable(t, llens, dlens, ts[i]);
  }

  // ---------------------------------------------------------------- compress_block

  /** The trees have codes for the token. */
  predicate HasCodes(t: Tables, ltree: Tree, dtree: Tree, m: nat, n: nat, dist: nat, lc: Byte)
    requires |t.lengthCode| == 256 && |t.distCode| == 512 && m <= |ltree.len| && n <= |dtree.len|
  {
    if dist == 0 then lc < m && ltree.len[lc] != 0
    else
      && dist <= 32768
      && (var s := t.lengthCode[lc] + LITERALS + 1; s < m && ltree.len[s] != 0)
      && (var d := DCode(t, dist - 1); d < n && dtree.len[d] != 0)
  }

  lemma CodesSend(t: Tables, ltree: Tree, dtree: Tree, llens: seq<nat>, dlens: seq<nat>, m: nat, n: nat, dist: nat,
                  lc: Byte)
    requires LengthsOk(t) && DistsOk(t) && TreePart(ltree, llens, m) && TreePart(dtree, dlens, n)
    ensures |t.lengthCode| == 256 && |t.distCode| == 512 && m <= |ltree.len| && n <= |dtree.len|
    ensures HasCodes(t, ltree, dtree, m, n, dist, lc)
        <==> Encodable(t, llens, dlens, BufToken(dist, lc)) && SymsBelow(t, BufToken(dist, lc), m, n)
  {
    hide DCode, Code, LengthCovered, DistCovered;
  }

  lemma TokenCost(t: Tables, llens: seq<nat>, dlens: seq<nat>, tok: Token)
    requires LengthsOk(t) && DistsOk(t) && LensOk(llens) && LensOk(dlens) && Encodable(t, llens, dlens, tok)
    ensures |TokenBits(t, llens, dlens, tok)| <= 48
  {
    hide LengthsOk, DistsOk, LSym, DSym, SymBits, LBits, DBits;
    if tok.Match? {
      ExtraCost(t, tok);
    }
  }

  lemma ExtraCost(t: Tables, tok: Token)
    requires LengthsOk(t) && DistsOk(t) && TokenOk(tok) && tok.Match?
    ensures |LExtra(t, tok)| <= 5 && |DExtra(t, tok)| <= 13
  {
    hide LBits, DBits, LLow, DLow, Pow2, DCode;
    assert LengthCovered(t, tok.len - MIN_MATCH) && DistCovered(t, tok.dist - 1);
  }

  lemma PartLens(tree: Tree, lens: seq<nat>, n: nat)
    requires TreePart(tree, lens, n)
    ensures LensOk(lens) && n <= |lens|
  {
  }

  /** The memory behind the writer, which has grown since start. */
  lemma Seen(w: Writer, size: nat, start: Snap, k: nat, tok: Token)
    requires w.Valid() && w.out == 0 && w.buf.Length == 4 * size && Grew(start, w.Now())
    requires k < size && TokenOk(tok) && EntryAt(start.bytes, size, k, tok)
    ensures 8 * start.count <= |w.Sent()|
    ensures ReadAt(w.buf[..], size, k) == tok <==> EntrySpared(size, k, tok, w.Sent(), Held(start.count, |w.Sent()|))
  {
    hide SentByte, Held, ToBits, BytesToBits, Pow2;
    GrewHeld(start, w.Now());
    var m := w.buf[..];
    forall q | 0 <= q < w.count
      ensures m[q] == SentByte(w.Sent(), q)
    {
      ByteOfBits(w.Pending(), ToBits(w.biBuf, w.biValid), q);
    }
    Overwritten(start.bytes, m, size, k, tok, w.Sent(), w.count);
    ReadIs(m, size, k, tok);
  }

  /** The tokens read so far are the first n, as long as those were there. */
  ghost predicate ReadSoFar(t: Tables, size: nat, p: nat, sent: seq<bool>, llens: seq<nat>, dlens: seq<nat>,
                            ts: seq<Token>, read: seq<Token>)
    requires LengthsOk(t) && DistsOk(t) && AllEncodable(t, llens, dlens, ts) && 8 * p <= |sent| && |read| <= |ts|
  {
    EncodableOk(t, llens, dlens, ts);
    read == ts[..|read|] <==> SparedTo(t, size, p, sent, llens, dlens, ts, |read|)
  }

  /** One more entry is read. */
  lemma ReadOne(w: Writer, t: Tables, size: nat, start: Snap, sent: seq<bool>, llens: seq<nat>, dlens: seq<nat>,
                ts: seq<Token>, read: seq<Token>, tok: Token)
    requires LengthsOk(t) && DistsOk(t) && AllEncodable(t, llens, dlens, ts) && AllEncodable(t, llens, dlens, read)
    requires 8 * start.count <= |sent| && |read| < |ts| && Kept(start.bytes, size, ts)
    requires w.Valid() && w.out == 0 && w.buf.Length == 4 * size && Grew(start, w.Now())
    requires w.Sent() == sent + TokensBits(t, llens, dlens, read) && tok == ReadAt(w.buf[..], size, |read|)
    requires ReadSoFar(t, size, start.count, sent, llens, dlens, ts, read)
    ensures ReadSoFar(t, size, start.count, sent, llens, dlens, ts, read + [tok])
  {
    hide LengthsOk, DistsOk, AllEncodable, TokensBits, Writer.Sent, Grew, ReadAt, EntrySpared, EntryAt;
    EncodableOk(t, llens, dlens, ts);
    var k := |read|;
    Seen(w, size, start, k, ts[k]);
    assert ts[..k + 1] == ts[..k] + [ts[k]];
    if read == ts[..k] {
      SplitBits(t, llens, dlens, ts, k);
      assert SentBefore(t, sent, llens, dlens, ts, k) == w.Sent();
    } else {
      assert (read + [tok])[..k] == read;
    }
  }

  lemma ReadNone(t: Tables, size: nat, p: nat, sent: seq<bool>, llens: seq<nat>, dlens: seq<nat>, ts: seq<Token>)
    requires LengthsOk(t) && DistsOk(t) && AllEncodable(t, llens, dlens, ts) && 8 * p <= |sent|
    ensures AllEncodable(t, llens, dlens, []) && TokensBits(t, llens, dlens, []) == []
    ensures ReadSoFar(t, size, p, sent, llens, dlens, ts, [])
  {
    hide LengthsOk, DistsOk;
  }

  /** An entry was not what it should have been. */
  lemma NotSpared(t: Tables, size: nat, p: nat, sent: seq<bool>, llens: seq<nat>, dlens: seq<nat>, ts: seq<Token>,
                  read: seq<Token>)
    requires LengthsOk(t) && DistsOk(t) && AllEncodable(t, llens, dlens, ts) && 8 * p <= |sent| && |read| <= |ts|
    requires ReadSoFar(t, size, p, sent, llens, dlens, ts, read) && read != ts[..|read|]
    ensures !Spared(t, size, p, sent, llens, dlens, ts)
  {
    hide LengthsOk, DistsOk, AllEncodable, EntrySpared, SentBefore;
    SparedFirst(t, size, p, sent, llens, dlens, ts, |read|);
  }

  lemma SparedFirst(t: Tables, size: nat, p: nat, sent: seq<bool>, llens: seq<nat>, dlens: seq<nat>, ts: seq<Token>,
                    n: nat)
    requires LengthsOk(t) && DistsOk(t) && AllEncodable(t, llens, dlens, ts) && 8 * p <= |sent| && n <= |ts|
    ensures TokensOk(ts)
    ensures Spared(t, size, p, sent, llens, dlens, ts) ==> SparedTo(t, size, p, sent, llens, dlens, ts, n)
  {
    hide LengthsOk, DistsOk, AllEncodable, EntrySpared, SentBefore;
    EncodableOk(t, llens, dlens, ts);
  }

  lemma OneMore(t: Tables, llens: seq<nat>, dlens: seq<nat>, read: seq<Token>, tok: Token)
    requires LengthsOk(t) && DistsOk(t) && AllEncodable(t, llens, dlens, read) && Encodable(t, llens, dlens, tok)
    ensures AllEncodable(t, llens, dlens, read + [tok])
    ensures TokensBits(t, llens, dlens, read + [tok])
              == TokensBits(t, llens, dlens, read) + TokenBits(t, llens, dlens, tok)
  {
    hide LengthsOk, DistsOk, TokenBits, Encodable, TokensBits;
    var ts := read + [tok];
    SplitBits(t, llens, dlens, ts, |read|);
    assert ts[..|read|] == read && ts[..|read| + 1] == ts;
  }

  /** The first tokens and the end of the block take no more than all of them. */
  lemma PartRoom(t: Tables, llens: seq<nat>, dlens: seq<nat>, ts: seq<Token>, k: nat)
    requires LengthsOk(t) && DistsOk(t) && AllEncodable(t, llens, dlens, ts) && k <= |ts|
    ensures AllEncodable(t, llens, dlens, ts[..k])
    ensures |TokensBits(t, llens, dlens, ts[..k])| <= |BlockBits(t, llens, dlens, ts)|
  {
    hide LengthsOk, DistsOk, TokenBits, Encodable, TokensBits;
    assert ts == ts[..k] + ts[k..];
    TokensBitsAppend(t, llens, dlens, ts[..k], ts[k..]);
  }

  /** The tokens as they are found; not ok if one of them cannot be sent. */
  method SendTokens(w: Writer, t: Tables, size: nat, lastLit: nat, ltree: Tree, dtree: Tree, m: nat, n: nat,
                    ghost llens: seq<nat>, ghost dlens: seq<nat>, ghost ts: seq<Token>, ghost start: Snap)
    returns (ok: bool, ghost read: seq<Token>)
    requires w.Valid() && w.out == 0 && w.buf.Length == 4 * size && LengthsOk(t) && DistsOk(t)
    requires TreePart(ltree, llens, m) && TreePart(dtree, dlens, n)
    requires Grew(start, w.Now()) && Kept(start.bytes, size, ts) && lastLit == |ts|
    requires AllEncodable(t, llens, dlens, ts) && forall i :: 0 <= i < |ts| ==> SymsBelow(t, ts[i], m, n)
    requires |w.Sent()| + |BlockBits(t, llens, dlens, ts)| + 64 <= 8 * w.buf.Length
    modifies w, w.buf
    ensures w.Valid() && w.out == 0 && |w.Sent()| + 16 <= 8 * w.buf.Length
    ensures !ok ==> !Spared(t, size, start.count, old(w.Sent()), llens, dlens, ts)
    ensures ok ==> |read| == |ts| && AllEncodable(t, llens, dlens, read)
    ensures ok ==> w.Sent() == old(w.Sent()) + TokensBits(t, llens, dlens, read)
    ensures ok ==> (read == ts <==> Spared(t, size, start.count, old(w.Sent()), llens, dlens, ts))
  {
    hide TreePart, TokenBits, Encodable, LengthsOk, DistsOk, TokensBits, SymsBelow, Writer.Sent, EntryAt, SparedTo,
         LensOk, BlockBits, ReadSoFar, AllEncodable, Grew;
    ghost var sent := w.Sent();
    read := [];
    PartLens(ltree, llens, m);
    PartLens(dtree, dlens, n);
    GrewHeld(start, w.Now());
    ReadNone(t, size, start.count, sent, llens, dlens, ts);
    var lx := 0;
    while lx < lastLit
      invariant lx == |read| <= |ts| && w.Valid() && w.out == 0 && Grew(start, w.Now())
      invariant AllEncodable(t, llens, dlens, read) && w.Sent() == sent + TokensBits(t, llens, dlens, read)
      invariant ReadSoFar(t, size, start.count, sent, llens, dlens, ts, read)
      invariant |w.Sent()| + 16 <= 8 * w.buf.Length
    {
      var dist, lc := Word(w.buf[DPlace(size, lx)], w.buf[DPlace(size, lx) + 1]), w.buf[LPlace(size, lx)];
      ghost var tok, now := BufToken(dist, lc), w.Now();
      ReadOne(w, t, size, start, sent, llens, dlens, ts, read, tok);
      CodesSend(t, ltree, dtree, llens, dlens, m, n, dist, lc);
      if !HasCodes(t, ltree, dtree, m, n, dist, lc) || 8 * w.count + w.biValid + 64 > 8 * w.buf.Length {
        StuckAt(t, llens, dlens, ts, m, n, |sent|, read, tok, 8 * w.buf.Length);
        NotSpared(t, size, start.count, sent, llens, dlens, ts, read + [tok]);
        return false, read;
      }
      TokenCost(t, llens, dlens, tok);
      SendToken(w, t, dist, lc, ltree, dtree, llens, dlens, m, n);
      GrewOn(start, now, w.Now());
      OneMore(t, llens, dlens, read, tok);
      read := read + [tok];
      lx := lx + 1;
    }
    ok := true;
    AllRead(t, size, start.count, sent, llens, dlens, ts, read);
  }

  lemma AllRead(t: Tables, size: nat, p: nat, sent: seq<bool>, llens: seq<nat>, dlens: seq<nat>, ts: seq<Token>,
                read: seq<Token>)
    requires LengthsOk(t) && DistsOk(t) && AllEncodable(t, llens, dlens, ts) && 8 * p <= |sent| && |read| == |ts|
    requires ReadSoFar(t, size, p, sent, llens, dlens, ts, read)
    ensures read == ts <==> Spared(t, size, p, sent, llens, dlens, ts)
  {
    hide LengthsOk, DistsOk, AllEncodable, SparedTo;
    assert ts[..|ts|] == ts;
  }

  /** An entry that cannot be sent is none of the tokens. */
  lemma StuckAt(t: Tables, llens: seq<nat>, dlens: seq<nat>, ts: seq<Token>, m: nat, n: nat, sent: nat,
                read: seq<Token>, tok: Token, room: nat)
    requires LengthsOk(t) && DistsOk(t) && AllEncodable(t, llens, dlens, ts) && AllEncodable(t, llens, dlens, read)
             && |read| < |ts|
    requires forall i :: 0 <= i < |ts| ==> SymsBelow(t, ts[i], m, n)
    requires sent + |BlockBits(t, llens, dlens, ts)| + 64 <= room
    requires !(Encodable(t, llens, dlens, tok) && SymsBelow(t, tok, m, n))
             || sent + |TokensBits(t, llens, dlens, read)| + 64 > room
    ensures read + [tok] != ts[..|read| + 1]
  {
    hide LengthsOk, DistsOk, Encodable, SymsBelow, TokensBits, BlockBits;
    var k := |read|;
    if read + [tok] == ts[..k + 1] {
      assert ts[..k + 1][k] == ts[k] && ts[..k] == ts[..k + 1][..k];
      PartRoom(t, llens, dlens, ts, k);
    }
  }

  /** compress_block: the buffered tokens, as they are found in memory, then the end of the
      block.  It stops short, not ok, at an entry that the trees have no code for or that
      the memory has no room for, where the source's behaviour is undefined. */
  method CompressBlock(w: Writer, t: Tables, size: nat, lastLit: nat, ltree: Tree, dtree: Tree, m: nat, n: nat,
                       ghost llens: seq<nat>, ghost dlens: seq<nat>, ghost ts: seq<Token>, ghost start: Snap)
    returns (ok: bool)
    requires w.Valid() && w.out == 0 && w.buf.Length == 4 * size && LengthsOk(t) && DistsOk(t)
    requires TreePart(ltree, llens, m) && TreePart(dtree, dlens, n) && END_BLOCK < m && NotOver(llens) && NotOver(dlens)
    requires Grew(start, w.Now()) && Kept(start.bytes, size, ts) && lastLit == |ts|
    requires AllEncodable(t, llens, dlens, ts) && forall i :: 0 <= i < |ts| ==> SymsBelow(t, ts[i], m, n)
    requires |w.Sent()| + |BlockBits(t, llens, dlens, ts)| + 64 <= 8 * w.buf.Length
    modifies w, w.buf
    ensures w.Valid() && w.out == 0 && |w.Sent()| + 16 <= 8 * w.buf.Length
    ensures ok && w.Sent() == old(w.Sent()) + BlockBits(t, llens, dlens, ts)
        <==> Spared(t, size, start.count, old(w.Sent()), llens, dlens, ts)
  {
    hide SymBits, TreePart, TokenBits, Encodable, LengthsOk, DistsOk, TokensBits, SymsBelow, Writer.Sent, NotOver,
         EntryAt, SparedTo, LensOk, Spared, Grew;
    PartLens(ltree, llens, m);
    PartLens(dtree, dlens, n);
    ghost var sent, read := w.Sent(), [];
    ok, read := SendTokens(w, t, size, lastLit, ltree, dtree, m, n, llens, dlens, ts, start);
    if !ok {
      return;
    }
    if 8 * w.count + w.biValid + 64 > 8 * w.buf.Length {
      return false;
    }
    assert llens[END_BLOCK] <= 15 by { EndLength(llens); }
    SendCode(w, END_BLOCK, ltree, llens, m);
    SentSame(t, llens, dlens, sent, read, ts);
  }

  lemma EndLength(lens: seq<nat>)
    requires LensOk(lens) && END_BLOCK < |lens|
    ensures lens[END_BLOCK] <= 15
  {
  }

  /** What was sent is the block exactly if what was read are its tokens. */
  lemma SentSame(t: Tables, llens: seq<nat>, dlens: seq<nat>, sent: seq<bool>, read: seq<Token>, ts: seq<Token>)
    requires LengthsOk(t) && DistsOk(t) && AllEncodable(t, llens, dlens, read) && AllEncodable(t, llens, dlens, ts)
    requires NotOver(llens) && NotOver(dlens) && LensOk(llens) && LensOk(dlens)
    ensures read == ts
            <==> sent + TokensBits(t, llens, dlens, read) + SymBits(llens, END_BLOCK)
                 == sent + BlockBits(t, llens, dlens, ts)
  {
    hide LengthsOk, DistsOk, Encodable, TokensBits, SymBits, NotOver, LensOk;
    var a, e := TokensBits(t, llens, dlens, read), SymBits(llens, END_BLOCK);
    assert sent + a + e == sent + (a + e);
    if sent + (a + e) == sent + BlockBits(t, llens, dlens, ts) {
      SameFront(sent, a + e, BlockBits(t, llens, dlens, ts));
      SameTokens(t, llens, dlens, read, ts);
    }
  }
}
