/** trees.c: literals and matches, and their encoding with a pair of codes. */
module Tokens {
  import opened Bits
  import opened Canonical
  import opened TreeTables
  import opened BitWriter

  const END_BLOCK: nat := 256
  const MIN_MATCH: nat := 3
  const MAX_MATCH: nat := 258

  datatype Token = Literal(c: Byte) | Match(dist: nat, len: nat)

  predicate TokenOk(t: Token) {
    t.Match? ==> 1 <= t.dist <= 32768 && MIN_MATCH <= t.len <= MAX_MATCH
  }

  predicate TokensOk(ts: seq<Token>) {
    forall i :: 0 <= i < |ts| ==> TokenOk(ts[i])
  }

  /** The matches go back no further than that. */
  predicate AllNear(ts: seq<Token>, reach: int) {
    forall i :: 0 <= i < |ts| ==> ts[i].Match? ==> ts[i].dist <= reach
  }

  // ----------------------------------------------------------------- what they mean

  /** The history after len bytes copied from dist back, one at a time. */
  function CopyBack(h: seq<Byte>, dist: nat, len: nat): (r: seq<Byte>)
    requires 1 <= dist <= |h|
    ensures |r| == |h| + len && h <= r
    decreases len
  {
    if len == 0 then h else CopyBack(h + [h[|h| - dist]], dist, len - 1)
  }

  /** No match reaches beyond the history h. */
  predicate Within(h: seq<Byte>, ts: seq<Token>)
    decreases |ts|
  {
    ts == [] || (TokenOk(ts[0]) && (ts[0].Match? ==> ts[0].dist <= |h|) && Within(Apply(h, ts[0]), ts[1..]))
  }

  function Apply(h: seq<Byte>, t: Token): (r: seq<Byte>)
  {
    match t
    case Literal(c) => h + [c]
    case Match(dist, len) => if 1 <= dist <= |h| then CopyBack(h, dist, len) else h
  }

  /** What the tokens expand to after the history h. */
  function Expand(h: seq<Byte>, ts: seq<Token>): (r: seq<Byte>)
    decreases |ts|
  {
    if ts == [] then h else Expand(Apply(h, ts[0]), ts[1..])
  }

  // ------------------------------------------------------------------ their encoding

  /** The symbols of a token. */
  function LSym(t: Tables, tok: Token): nat
    requires LengthsOk(t) && TokenOk(tok)
  {
    match tok
    case Literal(c) => c
    case Match(_, len) => t.lengthCode[len - MIN_MATCH] + LITERALS + 1
  }

  function DSym(t: Tables, tok: Token): nat
    requires DistsOk(t) && TokenOk(tok) && tok.Match?
  {
    DCode(t, tok.dist - 1)
  }

  /** The code has a length for every symbol the token needs. */
  ghost predicate Encodable(t: Tables, llens: seq<nat>, dlens: seq<nat>, tok: Token)
    requires LengthsOk(t) && DistsOk(t)
  {
    && TokenOk(tok) && LSym(t, tok) < |llens| && llens[LSym(t, tok)] != 0
    && (tok.Match? ==> DSym(t, tok) < |dlens| && dlens[DSym(t, tok)] != 0)
  }

  ghost predicate AllEncodable(t: Tables, llens: seq<nat>, dlens: seq<nat>, ts: seq<Token>)
    requires LengthsOk(t) && DistsOk(t)
  {
    && END_BLOCK < |llens| && llens[END_BLOCK] != 0
    && forall i :: 0 <= i < |ts| ==> Encodable(t, llens, dlens, ts[i])
  }

  function SymBits(lens: seq<nat>, s: nat): (r: seq<bool>)
    requires s < |lens|
    ensures |r| == lens[s]
  {
    ToBits(Code(lens, s), lens[s])
  }

  /** The extra bits of a match. */
  ghost function LExtra(t: Tables, tok: Token): seq<bool>
    requires LengthsOk(t) && TokenOk(tok) && tok.Match?
  {
    assert LengthCovered(t, tok.len - MIN_MATCH);
    var c := t.lengthCode[tok.len - MIN_MATCH];
    ToBits(tok.len - MIN_MATCH - LLow(c), LBits(c))
  }

  ghost function DExtra(t: Tables, tok: Token): seq<bool>
    requires DistsOk(t) && TokenOk(tok) && tok.Match?
  {
    assert DistCovered(t, tok.dist - 1);
    var c := DSym(t, tok);
    ToBits(tok.dist - 1 - DLow(c), DBits(c))
  }

  ghost function TokenBits(t: Tables, llens: seq<nat>, dlens: seq<nat>, tok: Token): seq<bool>
    requires LengthsOk(t) && DistsOk(t) && Encodable(t, llens, dlens, tok)
  {
    if tok.Literal? then SymBits(llens, LSym(t, tok))
    else SymBits(llens, LSym(t, tok)) + LExtra(t, tok) + SymBits(dlens, DSym(t, tok)) + DExtra(t, tok)
  }

  /** The tokens, without the end of the block. */
  ghost function TokensBits(t: Tables, llens: seq<nat>, dlens: seq<nat>, ts: seq<Token>): seq<bool>
    requires LengthsOk(t) && DistsOk(t) && AllEncodable(t, llens, dlens, ts)
  {
    if ts == [] then [] else TokenBits(t, llens, dlens, ts[0]) + TokensBits(t, llens, dlens, ts[1..])
  }

  ghost function BlockBits(t: Tables, llens: seq<nat>, dlens: seq<nat>, ts: seq<Token>): seq<bool>
    requires LengthsOk(t) && DistsOk(t) && AllEncodable(t, llens, dlens, ts)
  {
    TokensBits(t, llens, dlens, ts) + SymBits(llens, END_BLOCK)
  }

  lemma {:induction false} TokensBitsAppend(t: Tables, llens: seq<nat>, dlens: seq<nat>, a: seq<Token>, b: seq<Token>)
    requires LengthsOk(t) && DistsOk(t) && AllEncodable(t, llens, dlens, a + b)
    ensures AllEncodable(t, llens, dlens, a) && AllEncodable(t, llens, dlens, b)
    ensures TokensBits(t, llens, dlens, a + b) == TokensBits(t, llens, dlens, a) + TokensBits(t, llens, dlens, b)
    decreases |a|
  {
    hide TokenBits, Encodable;
    assert forall i :: 0 <= i < |a| ==> a[i] == (a + b)[i];
    assert forall i :: 0 <= i < |b| ==> b[i] == (a + b)[|a| + i];
    if a == [] {
      assert a + b == b;
    } else {
      assert (a + b)[1..] == a[1..] + b;
      TokensBitsAppend(t, llens, dlens, a[1..], b);
    }
  }

  /** d_buf and l_buf hold one token per place. */
  function BufToken(dist: nat, lc: Byte): (t: Token) {
    if dist == 0 then Literal(lc) else Match(dist, lc + MIN_MATCH)
  }

  // -------------------------------------------------------------------- sending them

  /** A tree: code and length of each symbol. */
  datatype Tree = Tree(code: seq<nat>, len: seq<nat>)

  ghost predicate TreeFor(tree: Tree, lens: seq<nat>) {
    && |tree.len| >= |lens| && |tree.code| >= |lens| && tree.len[..|lens|] == lens && LensOk(lens)
    && forall s :: 0 <= s < |lens| && lens[s] != 0 ==> tree.code[s] == Code(lens, s)
  }

  /** The tree has the codes of the first n symbols. */
  ghost predicate TreePart(tree: Tree, lens: seq<nat>, n: nat) {
    && n <= |tree.len| && n <= |tree.code| && n <= |lens| && LensOk(lens)
    && forall s :: 0 <= s < n ==> tree.len[s] == lens[s] && (lens[s] != 0 ==> tree.code[s] == Code(lens, s))
  }

  lemma AllOfTree(tree: Tree, lens: seq<nat>)
    requires TreeFor(tree, lens)
    ensures TreePart(tree, lens, |lens|)
  {
    hide Code;
    assert forall s :: 0 <= s < |lens| ==> tree.len[s] == tree.len[..|lens|][s];
  }

  /** send_code */
  method SendCode(w: Writer, c: nat, tree: Tree, ghost lens: seq<nat>, ghost n: nat)
    requires w.Valid() && w.out == 0 && TreePart(tree, lens, n) && c < n && lens[c] != 0
    requires |w.Sent()| + lens[c] <= 8 * w.buf.Length
    modifies w, w.buf
    ensures w.Valid() && w.out == 0 && w.Sent() == old(w.Sent()) + SymBits(lens, c) && Grew(old(w.Now()), w.Now())
  {
    hide Pow2, ToBits, BytesToBits, SymCode;
    RevBound(lens[c], SymCode(lens, c));
    w.SendBits(tree.code[c], tree.len[c]);
  }

  /** The token's symbols are among the first m and n. */
  ghost predicate SymsBelow(t: Tables, tok: Token, m: nat, n: nat)
    requires LengthsOk(t) && DistsOk(t)
  {
    TokenOk(tok) && LSym(t, tok) < m && (tok.Match? ==> DSym(t, tok) < n)
  }

  /** A length: its code and extra bits. */
  method SendLength(w: Writer, t: Tables, lc: Byte, ltree: Tree, ghost llens: seq<nat>, ghost m: nat, ghost tok: Token)
    requires w.Valid() && w.out == 0 && LengthsOk(t) && TreePart(ltree, llens, m)
    requires TokenOk(tok) && tok.Match? && tok.len == lc + MIN_MATCH && LSym(t, tok) < m && llens[LSym(t, tok)] != 0
    requires |w.Sent()| + llens[LSym(t, tok)] + |LExtra(t, tok)| <= 8 * w.buf.Length
    modifies w, w.buf
    ensures w.Valid() && w.out == 0 && Grew(old(w.Now()), w.Now())
    ensures w.Sent() == old(w.Sent()) + SymBits(llens, LSym(t, tok)) + LExtra(t, tok)
  {
    hide Pow2, SymBits, ToBits, TreePart, LLow, LBits, Writer.Sent;
    var code := t.lengthCode[lc];
    assert LengthCovered(t, lc);
    SendCode(w, code + LITERALS + 1, ltree, llens, m);
    var extra := LBits(code);
    if extra != 0 {
      w.SendBits(lc - t.baseLength[code], extra);
    } else {
      NoneBits(lc - LLow(code));
    }
  }

  /** A distance: its code and extra bits. */
  method SendDist(w: Writer, t: Tables, dist0: nat, dtree: Tree, ghost dlens: seq<nat>, ghost n: nat, ghost tok: Token)
    requires w.Valid() && w.out == 0 && DistsOk(t) && TreePart(dtree, dlens, n)
    requires TokenOk(tok) && tok.Match? && tok.dist == dist0 && DSym(t, tok) < n && dlens[DSym(t, tok)] != 0
    requires |w.Sent()| + dlens[DSym(t, tok)] + |DExtra(t, tok)| <= 8 * w.buf.Length
    modifies w, w.buf
    ensures w.Valid() && w.out == 0 && Grew(old(w.Now()), w.Now())
    ensures w.Sent() == old(w.Sent()) + SymBits(dlens, DSym(t, tok)) + DExtra(t, tok)
  {
    hide Pow2, SymBits, ToBits, TreePart, DLow, DBits, Writer.Sent;
    var dist := dist0 - 1;
    var code := DCode(t, dist);
    assert DistCovered(t, dist);
    SendCode(w, code, dtree, dlens, n);
    var extra := DBits(code);
    if extra != 0 {
      w.SendBits(dist - t.baseDist[code], extra);
    } else {
      NoneBits(dist - DLow(code));
    }
  }

  method SendToken(w: Writer, t: Tables, dist: nat, lc: Byte, ltree: Tree, dtree: Tree,
                   ghost llens: seq<nat>, ghost dlens: seq<nat>, ghost m: nat, ghost n: nat)
    requires w.Valid() && w.out == 0 && LengthsOk(t) && DistsOk(t) && TreePart(ltree, llens, m)
             && TreePart(dtree, dlens, n)
    requires Encodable(t, llens, dlens, BufToken(dist, lc)) && SymsBelow(t, BufToken(dist, lc), m, n)
    requires |w.Sent()| + |TokenBits(t, llens, dlens, BufToken(dist, lc))| <= 8 * w.buf.Length
    modifies w, w.buf
    ensures w.Valid() && w.out == 0 && w.Sent() == old(w.Sent()) + TokenBits(t, llens, dlens, BufToken(dist, lc))
    ensures Grew(old(w.Now()), w.Now())
  {
    hide Pow2, SymBits, ToBits, TreePart, LengthsOk, DistsOk, LExtra, DExtra, DSym, Writer.Sent;
    ghost var tok := BufToken(dist, lc);
    ghost var was := w.Sent();
    if dist == 0 {
      SendCode(w, lc, ltree, llens, m);
    } else {
      SendLength(w, t, lc, ltree, llens, m, tok);
      SendDist(w, t, dist, dtree, dlens, n, tok);
    }
  }

  lemma SplitBits(t: Tables, llens: seq<nat>, dlens: seq<nat>, ts: seq<Token>, n: nat)
    requires LengthsOk(t) && DistsOk(t) && AllEncodable(t, llens, dlens, ts) && n <= |ts|
    ensures AllEncodable(t, llens, dlens, ts[..n])
    ensures n == 0 ==> TokensBits(t, llens, dlens, ts[..n]) == []
    ensures n < |ts| ==> AllEncodable(t, llens, dlens, ts[..n + 1]) && Encodable(t, llens, dlens, ts[n])
    ensures n < |ts| ==>
              TokensBits(t, llens, dlens, ts[..n + 1])
                == TokensBits(t, llens, dlens, ts[..n]) + TokenBits(t, llens, dlens, ts[n])
  {
    hide TokenBits, Encodable;
    if n < |ts| {
      assert ts[..n + 1] == ts[..n] + [ts[n]];
      TokensBitsAppend(t, llens, dlens, ts[..n], [ts[n]]);
      assert [ts[n]][1..] == [];
      assert TokensBits(t, llens, dlens, [ts[n]])
               == TokenBits(t, llens, dlens, ts[n]) + TokensBits(t, llens, dlens, [ts[n]][1..]);
    }
  }
}
