/** deflate.c: deflate_fast and deflate_slow, the two ways to cut the input into
    literals and matches. */
module Deflate {
  import opened Bits
  import opened RollingHash
  import opened Matcher
  import opened Lz77
  import opened LazyParse
  import T = Tokens
  import opened BlockEncoder
  import opened TreeTables
  import opened StreamDecode
  import opened BitWriter
  import M = InflateMachine

  // --------------------------------------------------------------- moving forward

  /** The string at strstart is in the chains, if it is long enough. */
  ghost predicate InTable(z: Lz, g: Past, bits: nat) {
    && WindowOk(z, g) && ChainsOk(z, g, bits) && LinksBounded(z) && g.top <= Pos(z, g)
    && (z.lookahead >= MIN_MATCH ==> Ready(z.insH, g.data[Pos(z, g) + 1], g.data[Pos(z, g) + 2], bits))
  }

  function Next(z: Lz): (r: Lz)
    requires z.lookahead >= 1
  {
    z.(strstart := z.strstart + 1, lookahead := z.lookahead - 1)
  }

  lemma NextOk(z: Lz, g: Past, bits: nat)
    requires InTable(z, g, bits) && z.lookahead >= 1
    ensures MatcherOk(Next(z), g, bits) && Pos(Next(z), g) == Pos(z, g) + 1
  {
    hide KeyAt, Slot, LinkOk, Ready;
    assert ChainsOk(Next(z), g, bits);
  }

  /** Inserts the string at strstart, if there is enough lookahead; otherwise the
      old head stays what it was. */
  method Insert(z: Lz, c: Config, hashHead: nat, ghost g: Past) returns (head: nat, r: Lz, ghost k: Past)
    requires ConfigOk(c) && MatcherOk(z, g, c.hashBits)
    ensures InTable(r, k, c.hashBits) && r == z.(insH := r.insH, prev := r.prev, head := r.head)
    ensures k == g.(ins := k.ins, top := k.top) && Pos(r, k) == Pos(z, g)
    ensures z.lookahead >= MIN_MATCH && head != NIL ==> OnChain(r, k, c.hashBits, head)
    ensures HeadIs(r, k, c.hashBits, head) && k.ins == g.ins + if z.lookahead >= MIN_MATCH then {Pos(z, g)} else {}
    ensures z.lookahead < MIN_MATCH ==> head == hashHead
  {
    hide ChainsOk, Ready, LinksBounded, Key;
    head, r, k := hashHead, z, g;
    if z.lookahead >= MIN_MATCH {
      head, r, k := InsertString(z, c, g);
    }
  }

  /** head is the last string before strstart with its hash. */
  ghost predicate HeadIs(z: Lz, g: Past, bits: nat, head: nat) {
    Pos(z, g) + 3 <= |g.data| ==> NoneBetween(g, bits, head, Pos(z, g), KeyAt(g.data, Pos(z, g), bits))
  }

  /** All strings from a to b have been inserted. */
  ghost predicate Passed(g: Past, a: nat, b: nat) {
    forall r :: a <= r < b && r + 3 <= |g.data| ==> r in g.ins
  }

  /** Moves past n positions, inserting the strings on the way. */
  method Skip(z: Lz, c: Config, n: nat, hashHead: nat, ghost g: Past) returns (head: nat, r: Lz, ghost k: Past)
    requires ConfigOk(c) && InTable(z, g, c.hashBits) && n <= z.lookahead
    ensures InTable(r, k, c.hashBits)
    ensures r == z.(insH := r.insH, prev := r.prev, head := r.head, strstart := z.strstart + n,
                    lookahead := z.lookahead - n)
    ensures k == g.(ins := k.ins, top := k.top) && g.ins <= k.ins && Passed(k, Pos(z, g) + 1, Pos(z, g) + n + 1)
  {
    hide InTable, HeadIs;
    TableData(z, g, c.hashBits);
    head, r, k := hashHead, z, g;
    var i := 0;
    while i < n
      invariant i <= n && InTable(r, k, c.hashBits)
      invariant r == z.(insH := r.insH, prev := r.prev, head := r.head, strstart := z.strstart + i,
                        lookahead := z.lookahead - i)
      invariant k == g.(ins := k.ins, top := k.top) && g.ins <= k.ins && Passed(k, Pos(z, g) + 1, Pos(z, g) + i + 1)
    {
      NextOk(r, k, c.hashBits);
      head, r, k := Insert(Next(r), c, head, k);
      i := i + 1;
    }
  }

  lemma TableData(z: Lz, g: Past, bits: nat)
    requires InTable(z, g, bits)
    ensures |g.data| == Pos(z, g) + z.lookahead
  {
    hide ChainsOk, Ready, LinksBounded;
  }

  // --------------------------------------------------------------------- searching

  /** The candidate is worth trying: it exists and is not too far back. */
  predicate WorthTrying(z: Lz, hashHead: nat) {
    hashHead != NIL && hashHead <= z.strstart && z.strstart - hashHead <= MaxDist(z.wSize)
  }

  /** Looks for a match at strstart; shorter ones than MIN_MATCH are none. */
  method Search(z: Lz, c: Config, hashHead: nat, was: nat, ghost g: Past) returns (len: nat, start: int)
    requires ConfigOk(c) && InTable(z, g, c.hashBits) && z.strstart <= 2 * z.wSize - MIN_LOOKAHEAD
    requires z.lookahead >= MIN_MATCH && hashHead != NIL ==> OnChain(z, g, c.hashBits, hashHead)
    requires WorthTrying(z, hashHead) && 1 <= z.prevLength <= MAX_MATCH && was < MIN_MATCH && SizeOk(z.wSize)
    requires HeadIs(z, g, c.hashBits, hashHead)
    ensures FoundOk(g.data, z.wSize, Pos(z, g), z.prevLength, len, g.base + start)
    ensures SearchOk(g.data, g.ins, c, z.wSize, Pos(z, g), z.prevLength, len, g.base + start)
    ensures len <= MAX_MATCH && (len >= MIN_MATCH ==> z.lookahead >= len) && (z.lookahead >= 1 && was >= 1 ==> len >= 1)
    ensures len > z.prevLength && len >= MIN_MATCH ==>
              MatchAt(g.data, Pos(z, g), g.base + start, len, z.wSize) && g.floor <= g.base + start
              && z.strstart - start <= Reach(c.strategy, z.wSize)
  {
    hide WindowOk, ChainsOk, OnChain, Ready, LinksBounded, MatchEnds, NoneLonger, ChainFrom, NoneSeen, NoneBetween,
         Repeats;
    TableData(z, g, c.hashBits);
    if z.lookahead >= MIN_MATCH {
      OnChainSince(z, g, c.hashBits, hashHead);
    }
    if c.strategy == Z_RLE && RunThere(g.data, g.ins, z.wSize, Pos(z, g)) {
      RunAtHead(z, g, c, hashHead);
    }
    len, start := was, z.matchStart;
    if c.strategy != Z_HUFFMAN_ONLY && c.strategy != Z_RLE {
      len, start := LongestMatch(z, c, hashHead, z.lookahead >= MIN_MATCH, g);
      if z.lookahead >= MIN_MATCH {
        SearchedAll(z, g, c, hashHead, len);
      } else {
        TooShort(z, g, c, len);
      }
    } else if c.strategy == Z_RLE && z.strstart - hashHead == 1 {
      len, start := LongestMatchFast(z, c, hashHead, z.lookahead >= MIN_MATCH, g);
    }
  }

  /** The string before heads the chain, if the one here repeats it. */
  lemma RunAtHead(z: Lz, g: Past, c: Config, head: nat)
    requires InTable(z, g, c.hashBits) && HeadIs(z, g, c.hashBits, head) && RunThere(g.data, g.ins, z.wSize, Pos(z, g))
    requires z.lookahead >= MIN_MATCH && head != NIL ==> OnChain(z, g, c.hashBits, head)
    ensures z.lookahead >= MIN_MATCH && head != NIL && head == z.strstart - 1 && Repeats(z, g, head, MIN_MATCH)
    ensures WorthTrying(z, head)
  {
    hide ChainsOk, LinksBounded, Ready, Key;
    var p := Pos(z, g);
    assert g.data[p - 1..p + 2] == g.data[p..p + 3];
    assert g.data[p - 1..p + 2][0] == g.data[p..p + 3][0] && g.data[p - 1..p + 2][1] == g.data[p..p + 3][1]
           && g.data[p - 1..p + 2][2] == g.data[p..p + 3][2];
    assert KeyAt(g.data, p - 1, c.hashBits) == KeyAt(g.data, p, c.hashBits);
  }

  lemma TooShort(z: Lz, g: Past, c: Config, len: nat)
    requires Pos(z, g) + 3 > |g.data|
    ensures NoneSeen(g.data, g.ins, c, z.wSize, Pos(z, g), z.prevLength, len)
  {
  }

  // ------------------------------------------------------------------ the fast loop

  /** Where the current block starts in all input. */
  function BlockPos(z: Lz, g: Past): int {
    g.base + z.blockStart
  }

  /** How far back a match can reach with the strategy. */
  function Reach(strategy: Strategy, w: nat): (r: int)
    requires SizeOk(w)
    ensures r <= MaxDist(w)
  {
    match strategy
    case Z_HUFFMAN_ONLY => 0
    case Z_RLE => 1
    case _ => MaxDist(w)
  }

  /** The buffered matches are within reach, and so is the one that waits. */
  ghost predicate Near(enc: Encoder, z: Lz, reach: int)
    reads enc
  {
    T.AllNear(enc.tokens, reach) && (z.matchLength >= MIN_MATCH ==> z.strstart - 1 - z.matchStart <= reach)
  }

  /** There is room for a token. */
  ghost predicate Open(enc: Encoder)
    reads enc, enc.w
  {
    enc.w.count == 0 && enc.lastLit + 1 < enc.litBufsize
  }

  /** What deflate_fast keeps between two tokens. */
  ghost predicate FastOk(enc: Encoder, z: Lz, g: Past, bits: nat)
    reads enc, enc.w, enc.w.buf
  {
    && enc.Valid() && MatcherOk(z, g, bits) && z.prevLength == MIN_MATCH - 1 && z.matchLength < MIN_MATCH
       && !z.matchAvailable
    && StandsSince(g.data, g.floor, BlockPos(z, g), enc.tokens, Pos(z, g))
  }

  lemma TokenOfMatch(dist: nat, len: nat)
    requires 1 <= dist <= 32768 && MIN_MATCH <= len <= MAX_MATCH
    ensures len - MIN_MATCH < 256 && T.BufToken(dist, len - MIN_MATCH) == T.Match(dist, len)
  {
  }

  lemma StandsMatchAt(g: Past, b: int, ts: seq<T.Token>, p: nat, start: int, len: nat, w: nat)
    requires StandsSince(g.data, g.floor, b, ts, p) && SizeOk(w) && MatchAt(g.data, p, start, len, w)
    requires g.floor <= start && MIN_MATCH <= len <= MAX_MATCH
    ensures StandsSince(g.data, g.floor, b, ts + [T.Match(p - start, len)], p + len) && 1 <= p - start <= MaxDist(w)
  {
    hide StandsSince;
    SinceMatch(g.data, g.floor, b, ts, p, start, len);
  }

  lemma TableSize(z: Lz, g: Past, bits: nat)
    requires InTable(z, g, bits)
    ensures SizeOk(z.wSize)
  {
    hide ChainsOk, Ready, LinksBounded;
  }

  /** What a round of deflate_fast does: a token for the match that the search e found, or a
      literal if it found none. */
  ghost predicate FastIs(z: Lz, g: Past, e: Event, r: Lz, was: seq<T.Token>, now: seq<T.Token>)
    requires Pos(z, g) < |g.data|
  {
    && e.Look?
    && if e.len >= MIN_MATCH then
         && r.strstart == z.strstart + e.len && e.start < Pos(z, g)
         && now == was + [T.Match(Pos(z, g) - e.start, e.len)]
       else r.strstart == z.strstart + 1 && now == was + [T.Literal(g.data[Pos(z, g)])]
  }

  /** A literal or a match at strstart. */
  method FastToken(enc: Encoder, z: Lz, c: Config, hashHead: nat, ghost g: Past)
    returns (r: Lz, full: bool, head: nat, ghost k: Past, ghost e: Event)
    requires ConfigOk(c) && FastOk(enc, z, g, c.hashBits) && 1 <= z.lookahead
             && z.strstart <= 2 * z.wSize - MIN_LOOKAHEAD
    requires Open(enc) && SizeOk(z.wSize) && Near(enc, z, Reach(c.strategy, z.wSize))
    modifies enc, enc.w.buf
    ensures FastOk(enc, r, k, c.hashBits) && k == g.(ins := k.ins, top := k.top)
            && Near(enc, r, Reach(c.strategy, z.wSize))
    ensures enc.w.Sent() == old(enc.w.Sent()) && (full || Open(enc))
    ensures r.strstart > z.strstart && r.strstart + r.lookahead == z.strstart + z.lookahead && r.wSize == z.wSize
            && r.blockStart == z.blockStart
    ensures r.strstart < 2 * z.wSize
    ensures Pos(z, g) < |g.data| && FastIs(z, g, e, r, old(enc.tokens), enc.tokens)
    ensures g.ins <= e.ins <= k.ins && FoundOk(g.data, z.wSize, Pos(z, g), MIN_MATCH - 1, e.len, e.start)
    ensures SearchOk(g.data, e.ins, c, z.wSize, Pos(z, g), MIN_MATCH - 1, e.len, e.start)
    ensures e.len < MIN_MATCH || (e.len <= c.maxLazy && r.lookahead >= MIN_MATCH) ==> Passed(k, Pos(z, g), Pos(r, k))
  {
    hide MatcherOk, InTable, StandsSince, MatchAt, OnChain, Encoder.Valid, Writer.Sent, SearchOk, MatchEnds, HeadIs;
    var y;
    head, y, k := Insert(z, c, hashHead, g);
    TableData(y, k, c.hashBits);
    var len, start := y.matchLength, y.matchStart;
    if WorthTrying(y, head) {
      len, start := Search(y, c, head, len, k);
    } else {
      NotWorth(y, k, c, head, len, k.base + start);
    }
    e := Look(len, k.base + start, |g.data|, k.ins);
    if len >= MIN_MATCH {
      r, full, head, k := FastMatch(enc, y, c, len, start, head, k);
    } else {
      InTableByte(y, k, c.hashBits);
      SinceLiteral(k.data, k.floor, BlockPos(y, k), enc.tokens, Pos(y, k));
      full := enc.Tally(0, y.window[y.strstart]);
      NextOk(y, k, c.hashBits);
      r := Next(y).(matchLength := len, matchStart := start);
      SameTables(Next(y), r, k, c.hashBits);
    }
  }

  lemma InTableByte(z: Lz, g: Past, bits: nat)
    requires InTable(z, g, bits) && z.lookahead >= 1
    ensures |z.window| == 2 * z.wSize && z.strstart < 2 * z.wSize && Pos(z, g) < |g.data|
            && z.window[z.strstart] == g.data[Pos(z, g)]
  {
    hide ChainsOk, Ready, LinksBounded;
  }

  /** The match fields are not part of the table. */
  lemma SameTables(z: Lz, r: Lz, g: Past, bits: nat)
    requires MatcherOk(z, g, bits)
    requires r == z.(matchLength := r.matchLength, matchStart := r.matchStart, prevLength := r.prevLength,
                     matchAvailable := r.matchAvailable)
    ensures MatcherOk(r, g, bits)
  {
    hide KeyAt, Slot, LinkOk, Ready;
  }

  /** The match branch: the token, and the strings it covers. */
  method FastMatch(enc: Encoder, z: Lz, c: Config, len: nat, start: int, hashHead: nat, ghost g: Past)
    returns (r: Lz, full: bool, head: nat, ghost k: Past)
    requires ConfigOk(c) && enc.Valid() && InTable(z, g, c.hashBits) && z.strstart <= 2 * z.wSize - MIN_LOOKAHEAD
    requires z.prevLength == MIN_MATCH - 1 && !z.matchAvailable
             && StandsSince(g.data, g.floor, BlockPos(z, g), enc.tokens, Pos(z, g))
    requires MIN_MATCH <= len <= MAX_MATCH && MatchAt(g.data, Pos(z, g), g.base + start, len, z.wSize)
             && len <= z.lookahead && g.floor <= g.base + start
    requires Open(enc) && SizeOk(z.wSize) && T.AllNear(enc.tokens, Reach(c.strategy, z.wSize))
    requires z.strstart - start <= Reach(c.strategy, z.wSize)
    modifies enc, enc.w.buf
    ensures FastOk(enc, r, k, c.hashBits) && k == g.(ins := k.ins, top := k.top)
            && Near(enc, r, Reach(c.strategy, z.wSize))
    ensures enc.w.Sent() == old(enc.w.Sent()) && (full || Open(enc))
    ensures r.strstart == z.strstart + len && r.strstart + r.lookahead == z.strstart + z.lookahead && r.wSize == z.wSize
            && r.blockStart == z.blockStart
    ensures r.strstart < 2 * z.wSize && g.ins <= k.ins && z.strstart - start >= 1
    ensures len <= c.maxLazy && r.lookahead >= MIN_MATCH ==> Passed(k, Pos(z, g) + 1, Pos(r, k))
    ensures enc.tokens == old(enc.tokens) + [T.Match(z.strstart - start, len)]
  {
    hide MatcherOk, InTable, StandsSince, MatchAt, Encoder.Valid, Writer.Sent, Passed;
    TableSize(z, g, c.hashBits);
    StandsMatchAt(g, BlockPos(z, g), enc.tokens, Pos(z, g), g.base + start, len, z.wSize);
    TokenOfMatch(z.strstart - start, len);
    full := enc.Tally(z.strstart - start, len - MIN_MATCH);
    head, r, k := hashHead, z, g;
    if len <= c.maxLazy && z.lookahead - len >= MIN_MATCH {
      head, r, k := Skip(z, c, len - 1, hashHead, g);
      NextOk(r, k, c.hashBits);
      r := Next(r);
    } else {
      r := Jump(z, len, c, g);
    }
    ghost var y := r;
    r := r.(matchLength := 0, matchStart := start);
    SameTables(y, r, k, c.hashBits);
  }

  /** Moves past a long match without inserting its strings. */
  method Jump(z: Lz, len: nat, c: Config, ghost g: Past) returns (r: Lz)
    requires ConfigOk(c) && InTable(z, g, c.hashBits) && 1 <= len <= z.lookahead && z.strstart + len + 1 < 2 * z.wSize
    ensures MatcherOk(r, g, c.hashBits)
    ensures r == z.(strstart := z.strstart + len, lookahead := z.lookahead - len, insH := r.insH)
  {
    hide KeyAt, Slot, LinkOk, Ready, Update;
    r := z.(strstart := z.strstart + len, lookahead := z.lookahead - len);
    assert ChainsOk(r, g, c.hashBits);
    ReadyFresh(r.window[r.strstart], r.window[r.strstart + 1], c.hashBits);
    r := r.(insH := Update(r.window[r.strstart], r.window[r.strstart + 1], c.hashBits));
  }

  // ------------------------------------------------------------------ the lazy loop

  /** What deflate_slow keeps between two rounds: the string before strstart may wait
      for its token, with the match found there. */
  ghost predicate SlowOk(enc: Encoder, z: Lz, g: Past, bits: nat)
    reads enc, enc.w, enc.w.buf
  {
    && enc.Valid() && MatcherOk(z, g, bits) && 1 <= z.matchLength <= MAX_MATCH && (z.matchAvailable ==> z.strstart >= 1)
    && (z.matchLength >= MIN_MATCH ==>
          z.matchAvailable && MatchAt(g.data, Pos(z, g) - 1, g.base + z.matchStart, z.matchLength, z.wSize)
          && g.floor <= g.base + z.matchStart)
    && StandsSince(g.data, g.floor, BlockPos(z, g), enc.tokens, Pos(z, g) - if z.matchAvailable then 1 else 0)
  }

  /** In the middle of a round: the string at strstart has been looked up. */
  ghost predicate SlowMid(enc: Encoder, z: Lz, g: Past, bits: nat, n: int)
    reads enc, enc.w, enc.w.buf
  {
    && enc.Valid() && InTable(z, g, bits) && 1 <= z.matchLength <= MAX_MATCH && 0 <= n
    && (z.matchLength >= MIN_MATCH ==>
          MatchAt(g.data, Pos(z, g), g.base + z.matchStart, z.matchLength, z.wSize)
          && g.floor <= g.base + z.matchStart)
    && StandsSince(g.data, g.floor, BlockPos(z, g), enc.tokens, n)
  }

  /** The round ends without a token for the string at strstart. */
  lemma StepOn(enc: Encoder, z: Lz, g: Past, bits: nat)
    requires SlowMid(enc, z, g, bits, Pos(z, g)) && z.lookahead >= 1
    ensures SlowOk(enc, Next(z).(matchAvailable := true), g, bits)
  {
    hide MatcherOk, InTable, StandsSince, MatchAt;
    NextOk(z, g, bits);
    SameTables(Next(z), Next(z).(matchAvailable := true), g, bits);
  }

  /** The match at strstart, unless the one before is as good.  raw is what longest_match
      gave. */
  method LazySearch(z: Lz, c: Config, hashHead: nat, ghost g: Past) returns (len: nat, start: int, ghost raw: nat)
    requires ConfigOk(c) && InTable(z, g, c.hashBits) && z.strstart <= 2 * z.wSize - MIN_LOOKAHEAD
    requires z.lookahead >= MIN_MATCH && hashHead != NIL ==> OnChain(z, g, c.hashBits, hashHead)
    requires 1 <= z.prevLength <= MAX_MATCH && z.lookahead >= 1 && SizeOk(z.wSize)
    requires HeadIs(z, g, c.hashBits, hashHead)
    ensures 1 <= len <= MAX_MATCH && len == Kept(c, raw, z.strstart - start)
    ensures LookOk(g.data, g.ins, c, z.wSize, Pos(z, g), z.prevLength, raw, g.base + start)
    ensures len > z.prevLength && len >= MIN_MATCH ==>
              MatchAt(g.data, Pos(z, g), g.base + start, len, z.wSize) && g.floor <= g.base + start
              && z.strstart - start <= Reach(c.strategy, z.wSize)
  {
    hide InTable, OnChain, MatchAt, MatchEnds, NoneSeen, HeadIs;
    len, start := MIN_MATCH - 1, z.matchStart;
    raw := len;
    if WorthTrying(z, hashHead) && z.prevLength < c.maxLazy {
      len, start := Search(z, c, hashHead, len, g);
      raw := len;
      if len <= 5 && (c.strategy == Z_FILTERED || (len == MIN_MATCH && z.strstart - start > TOO_FAR)) {
        len := MIN_MATCH - 1;
      }
    } else if !WorthTrying(z, hashHead) {
      NotWorth(z, g, c, hashHead, raw, g.base + start);
    }
  }

  lemma NotWorth(z: Lz, g: Past, c: Config, hashHead: nat, len: nat, start: int)
    requires InTable(z, g, c.hashBits) && HeadIs(z, g, c.hashBits, hashHead) && !WorthTrying(z, hashHead)
    requires z.lookahead >= MIN_MATCH && hashHead != NIL ==> OnChain(z, g, c.hashBits, hashHead)
    requires len < MIN_MATCH
    ensures SearchOk(g.data, g.ins, c, z.wSize, Pos(z, g), z.prevLength, len, start)
  {
    hide ChainsOk, LinksBounded, Ready, NoneSeen, NoneBetween, KeyAt;
    if RunThere(g.data, g.ins, z.wSize, Pos(z, g)) {
      RunAtHead(z, g, c, hashHead);
      assert false;
    }
    if z.lookahead >= MIN_MATCH {
      NothingSeen(z, g, c, hashHead, len);
    } else {
      TooShort(z, g, c, len);
    }
  }

  /** What a round of deflate_slow does: the tokens and the next state, after the search e. */
  ghost predicate RoundIs(z: Lz, g: Past, c: Config, e: Event, r: Lz, waits: bool, was: seq<T.Token>, now: seq<T.Token>)
    requires 1 <= Pos(z, g) <= |g.data| || !z.matchAvailable
  {
    && e.Look?
    && if z.matchLength >= MIN_MATCH && Kept(c, e.len, Pos(z, g) - e.start) <= z.matchLength then
         && !waits && !r.matchAvailable && r.matchLength == MIN_MATCH - 1
            && r.strstart == z.strstart - 1 + z.matchLength
         && z.strstart - 1 - z.matchStart >= 0
         && now == was + [T.Match(z.strstart - 1 - z.matchStart, z.matchLength)]
       else
         && waits == z.matchAvailable && r.strstart == (if waits then z.strstart else z.strstart + 1)
            && r.matchAvailable
         && r.matchLength == Kept(c, e.len, Pos(z, g) - e.start) && r.matchStart == e.start - g.base
         && now == was + if waits then [T.Literal(g.data[Pos(z, g) - 1])] else []
  }

  /** A match is adopted if the next string has no better one; otherwise the string
      before becomes a literal, or waits.  waits says that the round has yet to move
      on. */
  method SlowToken(enc: Encoder, z: Lz, c: Config, hashHead: nat, ghost g: Past)
    returns (r: Lz, full: bool, waits: bool, head: nat, ghost k: Past, ghost e: Event)
    requires ConfigOk(c) && SlowOk(enc, z, g, c.hashBits) && 1 <= z.lookahead
             && z.strstart <= 2 * z.wSize - MIN_LOOKAHEAD
    requires Open(enc) && SizeOk(z.wSize) && Near(enc, z, Reach(c.strategy, z.wSize))
    modifies enc, enc.w.buf
    ensures enc.w.Sent() == old(enc.w.Sent()) && (full || Open(enc)) && full == (|enc.tokens| + 1 == enc.litBufsize)
    ensures waits ==> T.AllNear(enc.tokens, Reach(c.strategy, z.wSize))
    ensures waits && r.matchLength >= MIN_MATCH ==> r.strstart - r.matchStart <= Reach(c.strategy, z.wSize)
    ensures !waits ==> Near(enc, r, Reach(c.strategy, z.wSize))
    ensures k == g.(ins := k.ins, top := k.top) && r.blockStart == z.blockStart
    ensures r.strstart + r.lookahead == z.strstart + z.lookahead && r.wSize == z.wSize && r.strstart < 2 * z.wSize
    ensures waits ==> SlowMid(enc, r, k, c.hashBits, Pos(r, k)) && r.strstart == z.strstart
    ensures !waits ==> SlowOk(enc, r, k, c.hashBits) && r.strstart > z.strstart && (full ==> !r.matchAvailable)
    ensures g.ins <= k.ins && Passed(k, Pos(z, g), if waits then Pos(r, k) + 1 else Pos(r, k))
    ensures 1 <= Pos(z, g) <= |g.data| || !z.matchAvailable
    ensures RoundIs(z, g, c, e, r, waits, old(enc.tokens), enc.tokens) && g.ins <= e.ins && e.end == |g.data|
    ensures LookOk(g.data, e.ins, c, z.wSize, Pos(z, g), z.matchLength, e.len, e.start)
  {
    hide MatcherOk, InTable, StandsSince, MatchAt, OnChain, Encoder.Valid, Writer.Sent, LookOk, HeadIs;
    var y;
    head, y, k := Insert(z, c, hashHead, g);
    TableData(y, k, c.hashBits);
    var prevMatch := z.matchStart;
    ghost var x := y;
    y := y.(prevLength := z.matchLength);
    SameTable(x, y, k, c.hashBits);
    SameChain(x, y, k, c.hashBits, head);
    ghost var raw;
    var len, start;
    len, start, raw := LazySearch(y, c, head, k);
    e := Look(raw, k.base + start, |g.data|, k.ins);
    if y.prevLength >= MIN_MATCH && len <= y.prevLength {
      r, full, head, k := SlowMatch(enc, y, c, prevMatch, head, k);
      return r, full, false, head, k, e;
    }
    r := y.(matchLength := len, matchStart := start);
    SameTable(y, r, k, c.hashBits);
    if z.matchAvailable {
      ByteBefore(y, k, c.hashBits);
      SinceLiteral(k.data, k.floor, BlockPos(y, k), enc.tokens, Pos(y, k) - 1);
      full := enc.Tally(0, y.window[y.strstart - 1]);
      return r, full, true, head, k, e;
    }
    TokenCount(enc);
    StepOn(enc, r, k, c.hashBits);
    r := Next(r).(matchAvailable := true);
    full, waits := false, false;
  }

  /** The match fields are not part of the table. */
  lemma SameTable(z: Lz, r: Lz, g: Past, bits: nat)
    requires InTable(z, g, bits)
    requires r == z.(matchLength := r.matchLength, matchStart := r.matchStart, prevLength := r.prevLength,
                     matchAvailable := r.matchAvailable)
    ensures InTable(r, g, bits)
  {
    hide KeyAt, Slot, LinkOk, Ready;
    assert ChainsOk(r, g, bits);
  }

  lemma SameChain(z: Lz, r: Lz, g: Past, bits: nat, head: nat)
    requires r.strstart == z.strstart && r.lookahead == z.lookahead
    ensures OnChain(z, g, bits, head) ==> OnChain(r, g, bits, head)
    ensures HeadIs(z, g, bits, head) ==> HeadIs(r, g, bits, head)
  {
    hide KeyAt, NoneBetween;
  }

  lemma TokenCount(enc: Encoder)
    requires enc.Valid()
    ensures enc.lastLit == |enc.tokens|
  {
    hide LengthsOk, DistsOk, T.TreePart;
  }

  lemma ByteBefore(z: Lz, g: Past, bits: nat)
    requires InTable(z, g, bits) && z.strstart >= 1
    ensures |z.window| == 2 * z.wSize && z.strstart <= 2 * z.wSize && Pos(z, g) - 1 < |g.data|
    ensures z.window[z.strstart - 1] == g.data[Pos(z, g) - 1]
  {
    hide ChainsOk, Ready, LinksBounded;
  }

  /** The match before strstart, and the strings it covers. */
  method SlowMatch(enc: Encoder, z: Lz, c: Config, prevMatch: int, hashHead: nat, ghost g: Past)
    returns (r: Lz, full: bool, head: nat, ghost k: Past)
    requires ConfigOk(c) && enc.Valid() && InTable(z, g, c.hashBits) && 1 <= z.strstart <= 2 * z.wSize - MIN_LOOKAHEAD
    requires MIN_MATCH <= z.prevLength <= MAX_MATCH
             && MatchAt(g.data, Pos(z, g) - 1, g.base + prevMatch, z.prevLength, z.wSize)
             && g.floor <= g.base + prevMatch
    requires StandsSince(g.data, g.floor, BlockPos(z, g), enc.tokens, Pos(z, g) - 1)
    requires Open(enc) && SizeOk(z.wSize) && T.AllNear(enc.tokens, Reach(c.strategy, z.wSize))
    requires z.strstart - 1 - prevMatch <= Reach(c.strategy, z.wSize)
    modifies enc, enc.w.buf
    ensures enc.w.Sent() == old(enc.w.Sent()) && (full || Open(enc)) && Near(enc, r, Reach(c.strategy, z.wSize))
    ensures full == (|enc.tokens| + 1 == enc.litBufsize) && z.strstart - 1 - prevMatch >= 1
    ensures enc.tokens == old(enc.tokens) + [T.Match(z.strstart - 1 - prevMatch, z.prevLength)]
    ensures r.matchLength == MIN_MATCH - 1 && r.strstart == z.strstart - 1 + z.prevLength
    ensures g.ins <= k.ins && Passed(k, Pos(z, g) + 1, Pos(r, k))
    ensures SlowOk(enc, r, k, c.hashBits) && k == g.(ins := k.ins, top := k.top) && !r.matchAvailable
    ensures r.strstart > z.strstart && r.strstart + r.lookahead == z.strstart + z.lookahead && r.wSize == z.wSize
            && r.blockStart == z.blockStart
    ensures r.strstart < 2 * z.wSize
  {
    hide MatcherOk, InTable, StandsSince, MatchAt, Encoder.Valid, Writer.Sent;
    MatchRoom(z, g, c.hashBits, g.base + prevMatch, z.prevLength);
    TableSize(z, g, c.hashBits);
    StandsMatchAt(g, BlockPos(z, g), enc.tokens, Pos(z, g) - 1, g.base + prevMatch, z.prevLength, z.wSize);
    TokenOfMatch(z.strstart - 1 - prevMatch, z.prevLength);
    full := enc.Tally(z.strstart - 1 - prevMatch, z.prevLength - MIN_MATCH);
    head, r, k := Skip(z, c, z.prevLength - 2, hashHead, g);
    NextOk(r, k, c.hashBits);
    ghost var y := Next(r);
    r := Next(r).(matchAvailable := false, matchLength := MIN_MATCH - 1);
    SameTables(y, r, k, c.hashBits);
  }

  lemma MatchRoom(z: Lz, g: Past, bits: nat, start: int, len: nat)
    requires InTable(z, g, bits) && z.strstart >= 1 && MatchAt(g.data, Pos(z, g) - 1, start, len, z.wSize)
    ensures len - 1 <= z.lookahead
  {
    hide ChainsOk, Ready, LinksBounded;
  }
}
