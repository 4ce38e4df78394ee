/** Tokens can be told from their bits: two token sequences with the same encoding are
    the same. */
module TokensUnique {
  import opened Bits
  import opened Canonical
  import opened TreeTables
  import opened Tokens

  lemma CodeFront(lens: seq<nat>, s: nat, a: seq<bool>)
    requires s < |lens| && lens[s] <= MAX_BITS
    ensures Low(FromBits(SymBits(lens, s) + a), lens[s]) == Code(lens, s)
  {
    hide ToBits, FromBits, Low, SymCode, Rev;
    var bits := SymBits(lens, s);
    FromBitsSplit(bits + a, lens[s]);
    assert (bits + a)[..lens[s]] == bits;
    FromToBits(Code(lens, s), lens[s]);
    RevBound(lens[s], SymCode(lens, s));
    LowSmall(Code(lens, s), lens[s]);
  }

  /** No code is the start of another. */
  lemma SymbolFirst(lens: seq<nat>, s: nat, u: nat, a: seq<bool>, b: seq<bool>)
    requires NotOver(lens) && s < |lens| && u < |lens| && 1 <= lens[s] <= MAX_BITS && 1 <= lens[u] <= MAX_BITS
    requires SymBits(lens, s) + a == SymBits(lens, u) + b
    ensures s == u && a == b
  {
    hide SymBits, FromBits, Low, Code, NotOver;
    CodeFront(lens, s, a);
    CodeFront(lens, u, b);
    PrefixFree(lens, s, u, FromBits(SymBits(lens, s) + a));
    SameFront(SymBits(lens, s), a, b);
  }

  lemma SameFront(x: seq<bool>, a: seq<bool>, b: seq<bool>)
    requires x + a == x + b
    ensures a == b
  {
    assert (x + a)[|x|..] == a && (x + b)[|x|..] == b;
  }

  /** Equally long parts in front are the same. */
  lemma SameParts(x: seq<bool>, y: seq<bool>, a: seq<bool>, b: seq<bool>)
    requires |x| == |y| && x + a == y + b
    ensures x == y && a == b
  {
    assert (x + a)[..|x|] == x && (y + b)[..|x|] == y;
    SameFront(x, a, b);
  }

  /** The bits of a small number are its own. */
  lemma SameValue(x: nat, y: nat, n: nat)
    requires x < Pow2(n) && y < Pow2(n) && ToBits(x, n) == ToBits(y, n)
    ensures x == y
  {
    hide ToBits, FromBits, Low, Pow2;
    FromToBits(x, n);
    FromToBits(y, n);
    LowSmall(x, n);
    LowSmall(y, n);
  }

  lemma LengthFirst(t: Tables, x: Token, y: Token, a: seq<bool>, b: seq<bool>)
    requires LengthsOk(t) && TokenOk(x) && TokenOk(y) && x.Match? && y.Match? && LSym(t, x) == LSym(t, y)
    requires LExtra(t, x) + a == LExtra(t, y) + b
    ensures x.len == y.len && a == b
  {
    hide ToBits, Pow2, LLow, LBits;
    assert LengthCovered(t, x.len - MIN_MATCH) && LengthCovered(t, y.len - MIN_MATCH);
    var c := t.lengthCode[x.len - MIN_MATCH];
    SameParts(LExtra(t, x), LExtra(t, y), a, b);
    SameValue(x.len - MIN_MATCH - LLow(c), y.len - MIN_MATCH - LLow(c), LBits(c));
  }

  lemma DistFirst(t: Tables, x: Token, y: Token, a: seq<bool>, b: seq<bool>)
    requires DistsOk(t) && TokenOk(x) && TokenOk(y) && x.Match? && y.Match? && DSym(t, x) == DSym(t, y)
    requires DExtra(t, x) + a == DExtra(t, y) + b
    ensures x.dist == y.dist && a == b
  {
    hide ToBits, Pow2, DLow, DBits, DCode;
    assert DistCovered(t, x.dist - 1) && DistCovered(t, y.dist - 1);
    var c := DCode(t, x.dist - 1);
    SameParts(DExtra(t, x), DExtra(t, y), a, b);
    SameValue(x.dist - 1 - DLow(c), y.dist - 1 - DLow(c), DBits(c));
  }

  /** The parts of a match's bits. */
  lemma MatchParts(t: Tables, llens: seq<nat>, dlens: seq<nat>, x: Token, a: seq<bool>)
    requires LengthsOk(t) && DistsOk(t) && Encodable(t, llens, dlens, x) && x.Match?
    ensures TokenBits(t, llens, dlens, x) + a
         == SymBits(llens, LSym(t, x)) + (LExtra(t, x) + (SymBits(dlens, DSym(t, x)) + (DExtra(t, x) + a)))
  {
    hide SymBits, LExtra, DExtra, LSym, DSym, LengthsOk, DistsOk;
    var p, q, r, s := SymBits(llens, LSym(t, x)), LExtra(t, x), SymBits(dlens, DSym(t, x)), DExtra(t, x);
    assert p + q + r + s + a == p + (q + (r + (s + a)));
  }

  /** What follows the first symbol. */
  ghost function AfterSym(t: Tables, dlens: seq<nat>, x: Token, a: seq<bool>): seq<bool>
    requires LengthsOk(t) && DistsOk(t) && TokenOk(x) && (x.Match? ==> DSym(t, x) < |dlens|)
  {
    if x.Literal? then a else LExtra(t, x) + (SymBits(dlens, DSym(t, x)) + (DExtra(t, x) + a))
  }

  lemma FirstSym(t: Tables, llens: seq<nat>, dlens: seq<nat>, x: Token, a: seq<bool>)
    requires LengthsOk(t) && DistsOk(t) && Encodable(t, llens, dlens, x)
    ensures TokenBits(t, llens, dlens, x) + a == SymBits(llens, LSym(t, x)) + AfterSym(t, dlens, x, a)
  {
    hide SymBits, LExtra, DExtra, LSym, DSym, LengthsOk, DistsOk;
    if x.Match? {
      MatchParts(t, llens, dlens, x, a);
    }
  }

  lemma SymKind(t: Tables, x: Token)
    requires LengthsOk(t) && TokenOk(x)
    ensures x.Literal? <==> LSym(t, x) < END_BLOCK
    ensures x.Literal? ==> LSym(t, x) == x.c
    ensures LSym(t, x) != END_BLOCK
  {
  }

  lemma TokenFirst(t: Tables, llens: seq<nat>, dlens: seq<nat>, x: Token, y: Token, a: seq<bool>, b: seq<bool>)
    requires LengthsOk(t) && DistsOk(t) && Encodable(t, llens, dlens, x) && Encodable(t, llens, dlens, y)
    requires NotOver(llens) && NotOver(dlens) && LensOk(llens) && LensOk(dlens)
    requires TokenBits(t, llens, dlens, x) + a == TokenBits(t, llens, dlens, y) + b
    ensures x == y && a == b
  {
    hide SymBits, LExtra, DExtra, LSym, DSym, LengthsOk, DistsOk, TokenBits, NotOver;
    FirstSym(t, llens, dlens, x, a);
    FirstSym(t, llens, dlens, y, b);
    SymbolFirst(llens, LSym(t, x), LSym(t, y), AfterSym(t, dlens, x, a), AfterSym(t, dlens, y, b));
    SymKind(t, x);
    SymKind(t, y);
    if x.Match? {
      LengthFirst(t, x, y, SymBits(dlens, DSym(t, x)) + (DExtra(t, x) + a),
                  SymBits(dlens, DSym(t, y)) + (DExtra(t, y) + b));
      SymbolFirst(dlens, DSym(t, x), DSym(t, y), DExtra(t, x) + a, DExtra(t, y) + b);
      DistFirst(t, x, y, a, b);
    }
  }

  lemma EndFirst(t: Tables, llens: seq<nat>, dlens: seq<nat>, x: Token, a: seq<bool>)
    requires LengthsOk(t) && DistsOk(t) && Encodable(t, llens, dlens, x) && NotOver(llens) && LensOk(llens)
    requires END_BLOCK < |llens| && llens[END_BLOCK] != 0
    ensures TokenBits(t, llens, dlens, x) + a != SymBits(llens, END_BLOCK)
  {
    hide SymBits, LExtra, DExtra, LSym, DSym, LengthsOk, DistsOk, TokenBits, NotOver;
    if TokenBits(t, llens, dlens, x) + a == SymBits(llens, END_BLOCK) {
      FirstSym(t, llens, dlens, x, a);
      var e := SymBits(llens, END_BLOCK);
      assert e == e + [];
      SymbolFirst(llens, LSym(t, x), END_BLOCK, AfterSym(t, dlens, x, a), []);
      SymKind(t, x);
    }
  }

  /** A block's bits tell its tokens. */
  lemma {:induction false} SameTokens(t: Tables, llens: seq<nat>, dlens: seq<nat>, xs: seq<Token>, ys: seq<Token>)
    requires LengthsOk(t) && DistsOk(t) && AllEncodable(t, llens, dlens, xs) && AllEncodable(t, llens, dlens, ys)
    requires NotOver(llens) && NotOver(dlens) && LensOk(llens) && LensOk(dlens)
    requires BlockBits(t, llens, dlens, xs) == BlockBits(t, llens, dlens, ys)
    ensures xs == ys
    decreases |xs|
  {
    hide SymBits, LengthsOk, DistsOk, TokenBits, Encodable, NotOver;
    if xs == [] && ys == [] {
    } else if xs == [] {
      BlockFront(t, llens, dlens, ys);
      EndFirst(t, llens, dlens, ys[0], BlockBits(t, llens, dlens, ys[1..]));
    } else if ys == [] {
      BlockFront(t, llens, dlens, xs);
      EndFirst(t, llens, dlens, xs[0], BlockBits(t, llens, dlens, xs[1..]));
    } else {
      BlockFront(t, llens, dlens, xs);
      BlockFront(t, llens, dlens, ys);
      TokenFirst(t, llens, dlens, xs[0], ys[0],
                 BlockBits(t, llens, dlens, xs[1..]), BlockBits(t, llens, dlens, ys[1..]));
      SameTokens(t, llens, dlens, xs[1..], ys[1..]);
      assert xs == [xs[0]] + xs[1..] && ys == [ys[0]] + ys[1..];
    }
  }

  lemma BlockFront(t: Tables, llens: seq<nat>, dlens: seq<nat>, xs: seq<Token>)
    requires LengthsOk(t) && DistsOk(t) && AllEncodable(t, llens, dlens, xs) && xs != []
    ensures Encodable(t, llens, dlens, xs[0]) && AllEncodable(t, llens, dlens, xs[1..])
    ensures BlockBits(t, llens, dlens, xs) == TokenBits(t, llens, dlens, xs[0]) + BlockBits(t, llens, dlens, xs[1..])
  {
    hide SymBits, LengthsOk, DistsOk, TokenBits, Encodable;
    var p, q, e := TokenBits(t, llens, dlens, xs[0]), TokensBits(t, llens, dlens, xs[1..]), SymBits(llens, END_BLOCK);
    assert p + q + e == p + (q + e);
  }
}
