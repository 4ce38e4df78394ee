/** deflate.c: inputs on which deflate_slow has no choice. */
module ForcedParse {
  import opened Bits
  import opened Matcher
  import opened LazyParse
  import opened Deflate
  import opened DeflateTrace
  import T = Tokens

  /** Nothing waits, and the next string is that at p. */
  predicate Fresh(s: Cut, p: nat) {
    s.pos == p && !s.waits && s.len < MIN_MATCH
  }

  /** The strings at x and at p begin with the same three bytes. */
  predicate Alike(data: seq<Byte>, x: nat, p: nat) {
    x + 3 <= |data| && p + 3 <= |data| && data[x..x + 3] == data[p..p + 3]
  }

  /** No string before p in reach but that at q begins like it. */
  ghost predicate OnlyAt(data: seq<Byte>, p: nat, q: int, w: nat) {
    forall x :: 0 <= x < p && p - x <= MaxDist(w) && x != q ==> !Alike(data, x, p)
  }

  /** No match at p is longer than n. */
  ghost predicate NoneOver(data: seq<Byte>, p: nat, n: nat, w: nat) {
    forall x, k :: n < k <= MAX_MATCH ==> !MatchAt(data, p, x, k, w)
  }

  /** The strings at q and at p agree for just n bytes, and no other string begins like them;
      the next string has no longer match. */
  ghost predicate OneMatch(data: seq<Byte>, p: nat, q: nat, n: nat, w: nat) {
    && 0 < q < p && p - q < MaxDist(w) && MIN_MATCH <= n <= MAX_MATCH && p + n <= |data|
    && data[q..q + n] == data[p..p + n] && (p + n < |data| ==> data[q + n] != data[p + n])
    && OnlyAt(data, p, q, w)
  }

  /** A match begins alike. */
  lemma MatchAlike(data: seq<Byte>, p: nat, x: int, k: nat, w: nat)
    requires MatchAt(data, p, x, k, w) && k >= MIN_MATCH
    ensures 0 <= x < p && p - x <= MaxDist(w) && Alike(data, x, p)
  {
    assert data[x..x + 3] == data[x..x + k][..3];
    assert data[p..p + 3] == data[p..p + k][..3];
  }

  /** What the search at p must give. */
  lemma MustFind(data: seq<Byte>, ins: set<nat>, c: Config, w: nat, p: nat, prev: nat, len: nat, start: int, q: nat,
                 n: nat)
    requires OneMatch(data, p, q, n, w) && n <= c.niceMatch && prev < MIN_MATCH
    requires FoundOk(data, w, p, prev, len, start) && NoneSeen(data, ins, c, w, p, prev, len)
    requires Seen(data, ins, c.hashBits, EffortFor(c, prev), w, p, q)
    ensures len == n && start == q
  {
    hide KeysIn, KeyAt, Alike;
    assert MatchAt(data, p, q, n, w);
    MatchAlike(data, p, start, len, w);
    if len > n {
      NotThatLong(data, p, q, n, len, w);
    }
  }

  lemma NotThatLong(data: seq<Byte>, p: nat, q: int, n: nat, k: nat, w: nat)
    requires n < k && 0 <= q < p && p + n <= |data| && (p + n < |data| ==> data[q + n] != data[p + n])
    ensures !MatchAt(data, p, q, k, w)
  {
  }

  /** A search that saw enough input gives the same facts about all of it. */
  predicate Enough(data: seq<Byte>, end: nat, p: nat) {
    end <= |data| && (end == |data| || end >= p + MIN_LOOKAHEAD)
  }

  lemma CutMatch(data: seq<Byte>, end: nat, p: nat, q: nat, n: nat, w: nat)
    requires OneMatch(data, p, q, n, w) && Enough(data, end, p)
    ensures OneMatch(data[..end], p, q, n, w)
  {
    var d := data[..end];
    assert d[q..q + n] == data[q..q + n] && d[p..p + n] == data[p..p + n];
    forall x | 0 <= x < p && p - x <= MaxDist(w) && x != q
      ensures !Alike(d, x, p)
    {
      assert !Alike(data, x, p);
      if x + 3 <= end && p + 3 <= end {
        assert d[x..x + 3] == data[x..x + 3] && d[p..p + 3] == data[p..p + 3];
      }
    }
  }

  lemma CutNone(data: seq<Byte>, end: nat, p: nat, n: nat, w: nat)
    requires NoneOver(data, p, n, w) && end <= |data|
    ensures NoneOver(data[..end], p, n, w)
  {
    var d := data[..end];
    forall x, k | n < k <= MAX_MATCH
      ensures !MatchAt(d, p, x, k, w)
    {
      if MatchAt(d, p, x, k, w) {
        assert d[x..x + k] == data[x..x + k] && d[p..p + k] == data[p..p + k];
        assert MatchAt(data, p, x, k, w);
      }
    }
  }

  /** The first round finds the match and waits. */
  lemma FirstRound(s: Cut, e: Event, data: seq<Byte>, c: Config, w: nat, p: nat, q: nat, n: nat)
    requires Fresh(s, p) && EventOk(s, e, data, c, w) && e.Look? && Enough(data, e.end, p)
    requires OneMatch(data, p, q, n, w) && n <= c.niceMatch && MIN_MATCH <= c.maxLazy && Kept(c, n, p - q) == n
    requires c.strategy != Z_HUFFMAN_ONLY && c.strategy != Z_RLE
    requires Seen(data[..e.end], e.ins, c.hashBits, EffortFor(c, s.len), w, p, q)
    ensures Turn(s, e, data, c) == Cut(p + 1, n, q, true, s.tokens)
  {
    hide KeysIn, KeyAt, Seen, OneMatch, NoneSeen, FoundOk;
    CutMatch(data, e.end, p, q, n, w);
    MustFind(data[..e.end], e.ins, c, w, p, s.len, e.len, e.start, q, n);
    assert s.tokens + [] == s.tokens;
  }

  /** The second takes it. */
  lemma SecondRound(s: Cut, e: Event, data: seq<Byte>, c: Config, w: nat, p: nat, q: nat, n: nat)
    requires s.pos == p + 1 && s.len == n && s.start == q && s.waits && q < p && MIN_MATCH <= n <= MAX_MATCH
    requires EventOk(s, e, data, c, w) && e.Look? && NoneOver(data, p + 1, n, w)
    ensures Turn(s, e, data, c) == Cut(p + n, MIN_MATCH - 1, q, false, s.tokens + [T.Match(p - q, n)])
  {
    hide NoneSeen, MatchAt, NoneOver;
    CutNone(data, e.end, p + 1, n, w);
    if e.len > n {
      TooLong(data[..e.end], p + 1, n, e.start, e.len, w);
    }
  }

  lemma TooLong(data: seq<Byte>, p: nat, n: nat, x: int, k: nat, w: nat)
    requires NoneOver(data, p, n, w) && n < k <= MAX_MATCH
    ensures !MatchAt(data, p, x, k, w)
  {
    hide MatchAt;
  }

  // --------------------------------------------------------------- a row of such matches

  /** The match of length n at p with the string at q. */
  datatype Piece = Piece(p: nat, q: nat, n: nat)

  function TokensOf(pieces: seq<Piece>): (r: seq<T.Token>)
    requires forall i :: 0 <= i < |pieces| ==> pieces[i].q < pieces[i].p
    ensures |r| == |pieces|
    ensures forall i :: 0 <= i < |pieces| ==> r[i] == T.Match(pieces[i].p - pieces[i].q, pieces[i].n)
  {
    seq(|pieces|, i requires 0 <= i < |pieces| => T.Match(pieces[i].p - pieces[i].q, pieces[i].n))
  }

  /** Whatever strings are in the chains, that at q is among the first effort. */
  ghost predicate WithinEffort(data: seq<Byte>, p: nat, q: nat, bits: nat, effort: nat) {
    forall ins: set<nat>, end: nat :: p + 3 <= end <= |data| ==>
      KeysIn(data[..end], ins, bits, KeyAt(data[..end], p, bits), q, p) <= effort
  }

  /** deflate_slow has to find the match, and to take it. */
  ghost predicate ForcedPiece(data: seq<Byte>, c: Config, w: nat, x: Piece) {
    && OneMatch(data, x.p, x.q, x.n, w) && NoneOver(data, x.p + 1, x.n, w)
    && x.n <= c.niceMatch && Kept(c, x.n, x.p - x.q) == x.n && WithinEffort(data, x.p, x.q, c.hashBits, c.maxChain)
  }

  ghost predicate ForcedRow(data: seq<Byte>, c: Config, w: nat, pieces: seq<Piece>) {
    && (forall i :: 0 <= i < |pieces| ==> ForcedPiece(data, c, w, pieces[i]))
    && (forall i :: 0 <= i < |pieces| - 1 ==> pieces[i + 1].p == pieces[i].p + pieces[i].n)
  }

  predicate SlowConfig(c: Config) {
    MIN_MATCH <= c.maxLazy && MIN_MATCH <= c.goodMatch && c.strategy != Z_HUFFMAN_ONLY && c.strategy != Z_RLE
  }

  lemma SeenFor(data: seq<Byte>, c: Config, w: nat, x: Piece, ins: set<nat>, end: nat)
    requires ForcedPiece(data, c, w, x) && x.q in ins && Enough(data, end, x.p)
    ensures Seen(data[..end], ins, c.hashBits, c.maxChain, w, x.p, x.q)
  {
    hide KeysIn, NoneOver, OnlyAt;
    var d := data[..end];
    assert x.p + 3 <= end;
    SameKeys(data, end, x, c.hashBits);
  }

  lemma SameKeys(data: seq<Byte>, end: nat, x: Piece, bits: nat)
    requires end <= |data| && x.q < x.p && x.p + 3 <= end && x.n >= 3 && x.p + x.n <= |data|
    requires data[x.q..x.q + x.n] == data[x.p..x.p + x.n]
    ensures KeyAt(data[..end], x.q, bits) == KeyAt(data[..end], x.p, bits)
  {
    var a, b := data[x.q..x.q + x.n], data[x.p..x.p + x.n];
    assert a[0] == b[0] && a[1] == b[1] && a[2] == b[2];
  }

  /** Both rounds for a piece. */
  lemma OnePiece(ev: seq<Event>, i: nat, data: seq<Byte>, c: Config, w: nat, x: Piece)
    requires AllOk(ev, data, c, w) && i + 2 <= |ev| && SlowConfig(c) && ForcedPiece(data, c, w, x)
    requires Fresh(RunOf(ev[..i], data, c), x.p) && ev[i].Look? && ev[i + 1].Look?
    requires x.q in ev[i].ins && Enough(data, ev[i].end, x.p)
    ensures RunOf(ev[..i + 1], data, c) == Cut(x.p + 1, x.n, x.q, true, RunOf(ev[..i], data, c).tokens)
    ensures x.q < x.p
    ensures RunOf(ev[..i + 2], data, c)
         == Cut(x.p + x.n, MIN_MATCH - 1, x.q, false, RunOf(ev[..i], data, c).tokens + [T.Match(x.p - x.q, x.n)])
  {
    hide Seen, EventOk, Turn, OneMatch, NoneOver, WithinEffort, Alike;
    var s := RunOf(ev[..i], data, c);
    OneMatchFacts(data, w, x);
    NextEvent(ev, i, data, c, w);
    NextEvent(ev, i + 1, data, c, w);
    SeenFor(data, c, w, x, ev[i].ins, ev[i].end);
    FirstRound(s, ev[i], data, c, w, x.p, x.q, x.n);
    SecondRound(RunOf(ev[..i + 1], data, c), ev[i + 1], data, c, w, x.p, x.q, x.n);
  }

  lemma OneMatchFacts(data: seq<Byte>, w: nat, x: Piece)
    requires OneMatch(data, x.p, x.q, x.n, w)
    ensures 0 < x.q < x.p && MIN_MATCH <= x.n <= MAX_MATCH && x.p + x.n <= |data|
  {
  }

  lemma NextEvent(ev: seq<Event>, i: nat, data: seq<Byte>, c: Config, w: nat)
    requires AllOk(ev, data, c, w) && i < |ev|
    ensures EventOk(RunOf(ev[..i], data, c), ev[i], data, c, w)
    ensures RunOf(ev[..i + 1], data, c) == Turn(RunOf(ev[..i], data, c), ev[i], data, c)
  {
    hide EventOk, Turn;
    assert ev[..i + 1][..i] == ev[..i];
  }

  /** The event saw enough, all strings of ins and those between from and its own. */
  ghost predicate GoodEvent(ev: seq<Event>, i: nat, data: seq<Byte>, c: Config, ins: set<nat>, from: nat)
    requires i < |ev|
  {
    var pos := RunOf(ev[..i], data, c).pos;
    ev[i].Look? && ins <= ev[i].ins && SawBetween(ev[i], from, pos) && Enough(data, ev[i].end, pos)
  }

  ghost predicate GoodEvents(ev: seq<Event>, n: nat, m: nat, data: seq<Byte>, c: Config, ins: set<nat>, from: nat) {
    n <= m <= |ev| && forall i :: n <= i < m ==> GoodEvent(ev, i, data, c, ins, from)
  }

  /** The string at q is one of these when that at p is looked for. */
  predicate Known(ins: set<nat>, from: nat, x: Piece) {
    x.q < x.p && (x.q in ins || from <= x.q)
  }

  lemma KnownIn(ev: seq<Event>, i: nat, data: seq<Byte>, c: Config, w: nat, ins: set<nat>, from: nat, x: Piece)
    requires i < |ev| && GoodEvent(ev, i, data, c, ins, from) && Known(ins, from, x) && ForcedPiece(data, c, w, x)
    requires RunOf(ev[..i], data, c).pos == x.p
    ensures x.q in ev[i].ins
  {
    hide RunOf, OnlyAt, NoneOver, WithinEffort;
  }

  /** So the tokens are those matches. */
  lemma {:induction false} RowRun(ev: seq<Event>, n: nat, data: seq<Byte>, c: Config, w: nat, ins: set<nat>,
                                  from: nat, pieces: seq<Piece>, k: nat)
    requires AllOk(ev, data, c, w) && SlowConfig(c) && ForcedRow(data, c, w, pieces) && k <= |pieces| && pieces != []
    requires GoodEvents(ev, n, n + 2 * k, data, c, ins, from) && Fresh(RunOf(ev[..n], data, c), pieces[0].p)
    requires forall i :: 0 <= i < |pieces| ==> Known(ins, from, pieces[i])
    ensures var s := RunOf(ev[..n + 2 * k], data, c);
            && Fresh(s, if k < |pieces| then pieces[k].p else pieces[k - 1].p + pieces[k - 1].n)
            && s.tokens == RunOf(ev[..n], data, c).tokens + TokensOf(pieces)[..k]
    decreases k
  {
    hide ForcedPiece, Enough, AllOk, RunOf;
    var t := RunOf(ev[..n], data, c).tokens;
    if k == 0 {
      assert t + TokensOf(pieces)[..0] == t;
    } else {
      RowRun(ev, n, data, c, w, ins, from, pieces, k - 1);
      var i := n + 2 * (k - 1);
      assert GoodEvent(ev, i, data, c, ins, from) && GoodEvent(ev, i + 1, data, c, ins, from);
      KnownIn(ev, i, data, c, w, ins, from, pieces[k - 1]);
      OnePiece(ev, i, data, c, w, pieces[k - 1]);
      assert TokensOf(pieces)[..k] == TokensOf(pieces)[..k - 1] + [TokensOf(pieces)[k - 1]];
    }
  }

  // ------------------------------------------------------------------ literals behind them

  function LiteralsOf(bytes: seq<Byte>): (r: seq<T.Token>)
    ensures |r| == |bytes| && forall i :: 0 <= i < |bytes| ==> r[i] == T.Literal(bytes[i])
  {
    seq(|bytes|, i requires 0 <= i < |bytes| => T.Literal(bytes[i]))
  }

  /** From a on no string begins like an earlier one. */
  ghost predicate NoneAlike(data: seq<Byte>, a: nat, w: nat) {
    forall p :: a <= p < |data| ==> OnlyAt(data, p, -1, w)
  }

  lemma LiteralRound(s: Cut, e: Event, data: seq<Byte>, c: Config, w: nat)
    requires s.len < MIN_MATCH && EventOk(s, e, data, c, w) && e.Look? && s.pos < |data| && OnlyAt(data, s.pos, -1, w)
    ensures var r := Turn(s, e, data, c);
            r.pos == s.pos + 1 && r.len < MIN_MATCH && r.waits && r.tokens == s.tokens + Waiting(s, data)
  {
    hide NoneSeen, MatchAt, Alike;
    if e.len >= MIN_MATCH {
      var d := data[..e.end];
      MatchAlike(d, s.pos, e.start, e.len, w);
      AlikeMore(data, e.end, e.start, s.pos);
    }
  }

  lemma AlikeMore(data: seq<Byte>, end: nat, x: nat, p: nat)
    requires end <= |data| && Alike(data[..end], x, p)
    ensures Alike(data, x, p)
  {
    assert data[..end][x..x + 3] == data[x..x + 3] && data[..end][p..p + 3] == data[p..p + 3];
  }

  /** Each literal is put out a round later. */
  lemma {:induction false} TailRun(ev: seq<Event>, n: nat, data: seq<Byte>, c: Config, w: nat, a: nat, j: nat)
    requires AllOk(ev, data, c, w) && n + j <= |ev| && a + j <= |data| && NoneAlike(data, a, w)
    requires Fresh(RunOf(ev[..n], data, c), a) && forall i :: n <= i < n + j ==> ev[i].Look?
    ensures var s := RunOf(ev[..n + j], data, c);
            && s.pos == a + j && s.len < MIN_MATCH && s.waits == (j > 0)
            && s.tokens == RunOf(ev[..n], data, c).tokens + LiteralsOf(data[a..a + j - if j > 0 then 1 else 0])
    decreases j
  {
    hide AllOk, RunOf, Turn, EventOk, OnlyAt;
    var t := RunOf(ev[..n], data, c).tokens;
    if j == 0 {
      assert data[a..a] == [] && t + LiteralsOf([]) == t;
    } else {
      TailRun(ev, n, data, c, w, a, j - 1);
      var s := RunOf(ev[..n + j - 1], data, c);
      NextEvent(ev, n + j - 1, data, c, w);
      assert OnlyAt(data, s.pos, -1, w);
      LiteralRound(s, ev[n + j - 1], data, c, w);
      if j == 1 {
        assert data[a..a] == [] && t + LiteralsOf([]) + [] == t;
      } else {
        assert data[a..a + j - 1] == data[a..a + j - 2] + [data[a + j - 2]];
        assert LiteralsOf(data[a..a + j - 1]) == LiteralsOf(data[a..a + j - 2]) + [T.Literal(data[a + j - 2])];
      }
    }
  }

  lemma TailEnd(s: Cut, data: seq<Byte>, c: Config, t: seq<T.Token>, a: nat, j: nat)
    requires s.pos == a + j == |data| && s.waits == (j > 0)
    requires s.tokens == t + LiteralsOf(data[a..a + j - if j > 0 then 1 else 0])
    ensures Turn(s, Rest, data, c).tokens == t + LiteralsOf(data[a..])
  {
    if j == 0 {
      assert data[a..] == [] && data[a..a] == [];
    } else {
      assert data[a..] == data[a..a + j - 1] + [data[a + j - 1]];
      assert LiteralsOf(data[a..]) == LiteralsOf(data[a..a + j - 1]) + [T.Literal(data[a + j - 1])];
    }
  }

  /** With fewer searches the end is not reached. */
  lemma TooFew(ev: seq<Event>, n: nat, m: nat, data: seq<Byte>, c: Config, w: nat, ins: set<nat>, from: nat,
               pieces: seq<Piece>)
    requires AllOk(ev, data, c, w) && SlowConfig(c) && ForcedRow(data, c, w, pieces) && pieces != []
    requires GoodEvents(ev, n, m, data, c, ins, from) && m - n < 2 * |pieces|
    requires Fresh(RunOf(ev[..n], data, c), pieces[0].p)
    requires forall i :: 0 <= i < |pieces| ==> Known(ins, from, pieces[i])
    ensures RunOf(ev[..m], data, c).pos < |data|
  {
    hide AllOk, RunOf, ForcedPiece, Enough;
    var k := (m - n) / 2;
    RowRun(ev, n, data, c, w, ins, from, pieces, k);
    var x := pieces[k];
    PieceFacts(data, c, w, x);
    if m != n + 2 * k {
      assert GoodEvent(ev, n + 2 * k, data, c, ins, from);
      KnownIn(ev, n + 2 * k, data, c, w, ins, from, x);
      FirstHalf(ev, n + 2 * k, data, c, w, x);
    }
  }

  lemma PieceFacts(data: seq<Byte>, c: Config, w: nat, x: Piece)
    requires ForcedPiece(data, c, w, x)
    ensures MIN_MATCH <= x.n <= MAX_MATCH && x.p + x.n <= |data|
  {
  }

  lemma FirstHalf(ev: seq<Event>, i: nat, data: seq<Byte>, c: Config, w: nat, x: Piece)
    requires AllOk(ev, data, c, w) && i < |ev| && SlowConfig(c) && ForcedPiece(data, c, w, x)
    requires Fresh(RunOf(ev[..i], data, c), x.p) && ev[i].Look? && x.q in ev[i].ins && Enough(data, ev[i].end, x.p)
    ensures RunOf(ev[..i + 1], data, c).pos == x.p + 1
  {
    hide Seen, EventOk, Turn, OneMatch, NoneOver, WithinEffort, Alike;
    OneMatchFacts(data, w, x);
    NextEvent(ev, i, data, c, w);
    SeenFor(data, c, w, x, ev[i].ins, ev[i].end);
    FirstRound(RunOf(ev[..i], data, c), ev[i], data, c, w, x.p, x.q, x.n);
  }

  /** All matches have been made. */
  lemma RowDone(ev: seq<Event>, n: nat, m: nat, data: seq<Byte>, c: Config, w: nat, ins: set<nat>, from: nat,
                pieces: seq<Piece>)
    requires AllOk(ev, data, c, w) && SlowConfig(c) && ForcedRow(data, c, w, pieces) && pieces != []
    requires GoodEvents(ev, n, m, data, c, ins, from) && RunOf(ev[..m], data, c).pos == |data|
    requires Fresh(RunOf(ev[..n], data, c), pieces[0].p)
    requires forall i :: 0 <= i < |pieces| ==> Known(ins, from, pieces[i])
    ensures n + 2 * |pieces| <= m
    ensures var s, x := RunOf(ev[..n + 2 * |pieces|], data, c), pieces[|pieces| - 1];
            Fresh(s, x.p + x.n) && s.tokens == RunOf(ev[..n], data, c).tokens + TokensOf(pieces)
  {
    hide AllOk, RunOf, ForcedPiece, Enough;
    var k := |pieces|;
    if m - n < 2 * k {
      TooFew(ev, n, m, data, c, w, ins, from, pieces);
    }
    RowRun(ev, n, data, c, w, ins, from, pieces, k);
    assert TokensOf(pieces)[..k] == TokensOf(pieces);
  }

  /** With more searches one would be behind the end. */
  lemma NotTooMany(ev: seq<Event>, n: nat, data: seq<Byte>, c: Config, w: nat, a: nat, j: nat)
    requires AllOk(ev, data, c, w) && n + j <= |ev| && a <= |data| && NoneAlike(data, a, w)
    requires Fresh(RunOf(ev[..n], data, c), a) && forall i :: n <= i < n + j ==> ev[i].Look?
    ensures a + j <= |data|
  {
    hide AllOk, RunOf, OnlyAt, LookOk;
    var k := |data| - a;
    if k < j {
      TailRun(ev, n, data, c, w, a, k);
      NextEvent(ev, n + k, data, c, w);
    }
  }

  lemma AllLook(ev: seq<Event>, n: nat, m: nat, data: seq<Byte>, c: Config, ins: set<nat>, from: nat)
    requires GoodEvents(ev, n, m, data, c, ins, from)
    ensures forall i :: n <= i < m ==> ev[i].Look?
  {
    hide SawBetween, Enough, RunOf;
    forall i | n <= i < m
      ensures ev[i].Look?
    {
      assert GoodEvent(ev, i, data, c, ins, from);
    }
  }

  /** A call that ends with the input, from a fresh start: the matches, and then literals. */
  lemma WholeRun(ev: seq<Event>, n: nat, data: seq<Byte>, c: Config, w: nat, ins: set<nat>, from: nat,
                 pieces: seq<Piece>, a: nat)
    requires AllOk(ev, data, c, w) && SlowConfig(c) && ForcedRow(data, c, w, pieces) && pieces != []
             && NoneAlike(data, a, w)
    requires var x := pieces[|pieces| - 1]; a == x.p + x.n <= |data|
    requires n < |ev| && ev[|ev| - 1].Rest? && GoodEvents(ev, n, |ev| - 1, data, c, ins, from)
    requires Fresh(RunOf(ev[..n], data, c), pieces[0].p) && RunOf(ev, data, c).pos == |data|
    requires forall i :: 0 <= i < |pieces| ==> Known(ins, from, pieces[i])
    ensures RunOf(ev, data, c).tokens == RunOf(ev[..n], data, c).tokens + TokensOf(pieces) + LiteralsOf(data[a..])
  {
    hide AllOk, RunOf, ForcedRow, NoneAlike, Enough, LookOk, TokensOf, LiteralsOf, GoodEvent;
    var m := |ev| - 1;
    NextEvent(ev, m, data, c, w);
    assert ev[..m + 1] == ev;
    RowDone(ev, n, m, data, c, w, ins, from, pieces);
    var b := n + 2 * |pieces|;
    AllLook(ev, n, m, data, c, ins, from);
    NotTooMany(ev, b, data, c, w, a, m - b);
    TailRun(ev, b, data, c, w, a, m - b);
    TailEnd(RunOf(ev[..m], data, c), data, c, RunOf(ev[..b], data, c).tokens, a, m - b);
  }
}
