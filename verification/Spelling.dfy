/** sds.c: what sdssplitargs accepts, as a grammar of lines, and what it makes of each. */
module Spelling {
  import opened Bits
  import opened RespSpec
  import opened Quoting

  // ---------------------------------------------------------------------- grammar

  /** A byte inside quotes: as it is, as a backslash and a letter, kept by a backslash, or
      in hexadecimal with digits of either case. */
  datatype Piece = Raw(byte: Byte) | Control(byte: Byte) | Kept(byte: Byte)
                 | Code(byte: Byte, upperHigh: bool, upperLow: bool)

  function Digit(n: nat, upper: bool): (r: Byte)
    requires n < 16
  {
    if n < 10 then 48 + n else if upper then 65 + (n - 10) else 97 + (n - 10)
  }

  /** behind: the text that follows. */
  predicate PieceOk(p: Piece, behind: seq<Byte>) {
    match p
    case Raw(b) => b != BACKSLASH && b != QUOTE && b != 0
    case Control(b) => b == 10 || b == 13 || b == 9 || b == 8 || b == 7
    case Kept(b) =>
      && b != 0 && b != 110 && b != 114 && b != 116 && b != 98 && b != 97
      && (b == LOWER_X ==> !(IsHex(At(behind, 0)) && IsHex(At(behind, 1))))
    case Code(_, _, _) => true
  }

  function PieceText(p: Piece): (r: seq<Byte>) {
    match p
    case Raw(b) => [b]
    case Control(b) =>
      [BACKSLASH, if b == 10 then 110 else if b == 13 then 114 else if b == 9 then 116 else if b == 8 then 98 else 97]
    case Kept(b) => [BACKSLASH, b]
    case Code(b, high, low) => [BACKSLASH, LOWER_X, Digit(b / 16, high), Digit(b % 16, low)]
  }

  predicate PiecesOk(ps: seq<Piece>, behind: seq<Byte>) {
    ps == [] || (PiecesOk(ps[1..], behind) && PieceOk(ps[0], PiecesText(ps[1..], behind)))
  }

  /** Pieces and what follows them. */
  function PiecesText(ps: seq<Piece>, behind: seq<Byte>): (r: seq<Byte>) {
    if ps == [] then behind else PieceText(ps[0]) + PiecesText(ps[1..], behind)
  }

  function Bytes(ps: seq<Piece>): (r: seq<Byte>) {
    seq(|ps|, i requires 0 <= i < |ps| => ps[i].byte)
  }

  function SingleByte(b: Byte): (r: seq<Byte>) {
    if b == APOSTROPHE then [BACKSLASH, APOSTROPHE] else [b]
  }

  /** Bytes in apostrophes, where only the apostrophe takes a backslash. */
  function SingleText(w: seq<Byte>): (r: seq<Byte>) {
    if w == [] then [] else SingleByte(w[0]) + SingleText(w[1..])
  }

  /** The part of a word in quotes or apostrophes: there can be one, and it ends the word. */
  datatype Tail = Bare | Single(word: seq<Byte>) | Double(pieces: seq<Piece>)

  datatype Spelled = Spelled(bare: seq<Byte>, tail: Tail)

  predicate BareByte(b: Byte) {
    !EndsWord(b) && b != QUOTE && b != APOSTROPHE
  }

  predicate SingleOk(w: seq<Byte>) {
    (forall i :: 0 <= i < |w| ==> w[i] != 0) && (w == [] || w[|w| - 1] != BACKSLASH)
  }

  predicate TailOk(t: Tail) {
    match t
    case Bare => true
    case Single(w) => SingleOk(w)
    case Double(ps) => PiecesOk(ps, [QUOTE])
  }

  /** A vertical tab or a form feed may stand inside a bare word, but not at its start. */
  predicate SpelledOk(w: Spelled) {
    && TailOk(w.tail)
    && (forall i :: 0 <= i < |w.bare| ==> BareByte(w.bare[i]))
    && (w.bare == [] ==> !w.tail.Bare?)
    && (w.bare != [] ==> !IsSpace(w.bare[0]))
  }

  function TailText(t: Tail): (r: seq<Byte>) {
    match t
    case Bare => []
    case Single(w) => [APOSTROPHE] + SingleText(w) + [APOSTROPHE]
    case Double(ps) => [QUOTE] + PiecesText(ps, [QUOTE])
  }

  function TailBytes(t: Tail): (r: seq<Byte>) {
    match t
    case Bare => []
    case Single(w) => w
    case Double(ps) => Bytes(ps)
  }

  function Text(w: Spelled): (r: seq<Byte>) {
    w.bare + TailText(w.tail)
  }

  /** The word that a spelling stands for. */
  function Value(w: Spelled): (r: seq<Byte>) {
    w.bare + TailBytes(w.tail)
  }

  predicate Blanks(g: seq<Byte>) {
    forall i :: 0 <= i < |g| ==> IsSpace(g[i])
  }

  /** A word with the blanks behind it. A bare word goes on over a vertical tab or a form feed. */
  datatype Item = Item(word: Spelled, gap: seq<Byte>)

  predicate ItemOk(it: Item) {
    && SpelledOk(it.word) && it.gap != [] && Blanks(it.gap)
    && (it.word.tail.Bare? ==> EndsWord(it.gap[0]))
  }

  predicate ItemsOk(items: seq<Item>) {
    forall i :: 0 <= i < |items| ==> ItemOk(items[i])
  }

  function ItemsText(items: seq<Item>): (r: seq<Byte>) {
    if items == [] then [] else Text(items[0].word) + items[0].gap + ItemsText(items[1..])
  }

  function Values(items: seq<Item>): (r: seq<seq<Byte>>) {
    seq(|items|, i requires 0 <= i < |items| => Value(items[i].word))
  }

  /** A line: blanks, words with blanks behind them, perhaps a last word without, and the end. */
  datatype Layout = Layout(lead: seq<Byte>, items: seq<Item>, last: Option<Spelled>, end: seq<Byte>)

  /** The end of a C string, whatever lies behind it in memory. */
  predicate AtEnd(s: seq<Byte>) {
    At(s, 0) == 0
  }

  predicate LayoutOk(l: Layout) {
    Blanks(l.lead) && ItemsOk(l.items) && (l.last.Some? ==> SpelledOk(l.last.value)) && AtEnd(l.end)
  }

  function LastText(last: Option<Spelled>): (r: seq<Byte>) {
    if last.Some? then Text(last.value) else []
  }

  function LayoutText(l: Layout): (r: seq<Byte>) {
    l.lead + ItemsText(l.items) + LastText(l.last) + l.end
  }

  function LayoutWords(l: Layout): (r: seq<seq<Byte>>) {
    Values(l.items) + if l.last.Some? then [Value(l.last.value)] else []
  }

  // ------------------------------------------------------------- a spelling is read

  lemma PieceRead(p: Piece, rest: seq<Byte>, current: seq<Byte>)
    requires PieceOk(p, rest)
    ensures ReadWord(PieceText(p) + rest, InQuotes, current) == ReadWord(rest, InQuotes, current + [p.byte])
  {
    var s := PieceText(p) + rest;
    match p
    case Raw(_) =>
      assert s[1..] == rest;
    case Control(_) =>
      assert s[2..] == rest;
    case Kept(_) =>
      assert s[2..] == rest && s[1] == p.byte;
      assert rest != [] ==> s[2] == rest[0];
      assert |rest| > 1 ==> s[3] == rest[1];
    case Code(b, high, low) =>
      assert s[4..] == rest;
      DigitsBack(b, high, low);
  }

  lemma DigitsBack(b: Byte, high: bool, low: bool)
    ensures IsHex(Digit(b / 16, high)) && IsHex(Digit(b % 16, low))
    ensures 16 * HexValue(Digit(b / 16, high)) + HexValue(Digit(b % 16, low)) == b
  {
  }

  lemma {:induction false} PiecesRead(ps: seq<Piece>, behind: seq<Byte>, current: seq<Byte>)
    requires PiecesOk(ps, behind)
    ensures ReadWord(PiecesText(ps, behind), InQuotes, current) == ReadWord(behind, InQuotes, current + Bytes(ps))
    decreases |ps|
  {
    hide ReadWord, PieceText, PieceOk;
    if ps == [] {
      assert current + Bytes(ps) == current;
    } else {
      PieceRead(ps[0], PiecesText(ps[1..], behind), current);
      PiecesRead(ps[1..], behind, current + [ps[0].byte]);
      assert current + [ps[0].byte] + Bytes(ps[1..]) == current + Bytes(ps);
    }
  }

  /** Only the first two bytes behind the pieces matter to them. */
  lemma {:induction false} PiecesMore(ps: seq<Piece>, behind: seq<Byte>, more: seq<Byte>)
    requires PiecesOk(ps, behind) && behind != [] && !IsHex(behind[0])
    ensures PiecesOk(ps, behind + more) && PiecesText(ps, behind + more) == PiecesText(ps, behind) + more
    decreases |ps|
  {
    if ps == [] {
    } else {
      PiecesMore(ps[1..], behind, more);
      var t := PiecesText(ps[1..], behind);
      TextStarts(ps[1..], behind);
      assert |t| > 1 || !IsHex(t[0]);
      assert PieceText(ps[0]) + t + more == PieceText(ps[0]) + (t + more);
    }
  }

  lemma {:induction false} TextStarts(ps: seq<Piece>, behind: seq<Byte>)
    requires PiecesOk(ps, behind) && behind != []
    ensures |PiecesText(ps, behind)| >= |ps| + 1 && (ps == [] ==> PiecesText(ps, behind) == behind)
    decreases |ps|
  {
    if ps == [] {
    } else {
      TextStarts(ps[1..], behind);
    }
  }

  lemma SingleByteRead(b: Byte, rest: seq<Byte>, current: seq<Byte>)
    requires b != 0 && (b == BACKSLASH ==> At(rest, 0) != APOSTROPHE)
    ensures ReadWord(SingleByte(b) + rest, InApostrophes, current) == ReadWord(rest, InApostrophes, current + [b])
  {
    var s := SingleByte(b) + rest;
    assert s[|SingleByte(b)|..] == rest;
  }

  lemma {:induction false} SingleRead(w: seq<Byte>, rest: seq<Byte>, current: seq<Byte>)
    requires forall i :: 0 <= i < |w| ==> w[i] != 0
    requires w != [] && w[|w| - 1] == BACKSLASH ==> At(rest, 0) != APOSTROPHE
    ensures ReadWord(SingleText(w) + rest, InApostrophes, current) == ReadWord(rest, InApostrophes, current + w)
    decreases |w|
  {
    hide ReadWord, SingleByte;
    if w == [] {
      assert SingleText(w) + rest == rest && current + w == current;
    } else {
      var t := SingleText(w[1..]) + rest;
      assert SingleText(w) + rest == SingleByte(w[0]) + t;
      SingleStarts(w[1..], rest);
      assert w[1..] == [] ==> t == rest;
      SingleByteRead(w[0], t, current);
      SingleRead(w[1..], rest, current + [w[0]]);
      assert current + [w[0]] + w[1..] == current + w;
    }
  }

  lemma SingleStarts(w: seq<Byte>, rest: seq<Byte>)
    ensures w != [] ==> At(SingleText(w) + rest, 0) != APOSTROPHE
  {
  }

  lemma {:induction false} BareRead(w: seq<Byte>, rest: seq<Byte>, current: seq<Byte>)
    requires forall i :: 0 <= i < |w| ==> BareByte(w[i])
    ensures ReadWord(w + rest, Plain, current) == ReadWord(rest, Plain, current + w)
    decreases |w|
  {
    if w == [] {
      assert w + rest == rest && current + w == current;
    } else {
      BareRead(w[1..], rest, current + [w[0]]);
      assert (w + rest)[1..] == w[1..] + rest && current + [w[0]] + w[1..] == current + w;
    }
  }

  /** What may stand behind a word, and what of it is left. */
  predicate Stops(w: Spelled, rest: seq<Byte>) {
    if w.tail.Bare? then EndsWord(At(rest, 0)) else At(rest, 0) == 0 || IsSpace(At(rest, 0))
  }

  function LeftOver(w: Spelled, rest: seq<Byte>): (r: seq<Byte>) {
    if w.tail.Bare? && At(rest, 0) != 0 then rest[1..] else rest
  }

  /** An opening quote, and a closing one. */
  lemma QuoteStep(q: Byte, s: seq<Byte>, current: seq<Byte>)
    requires q == QUOTE || q == APOSTROPHE
    ensures var mode := if q == QUOTE then InQuotes else InApostrophes;
            && ReadWord([q] + s, Plain, current) == ReadWord(s, mode, current)
            && ReadWord([q] + s, mode, current) == CloseQuotes([q] + s, current)
  {
    assert ([q] + s)[1..] == s;
  }

  lemma TailRead(t: Tail, rest: seq<Byte>, current: seq<Byte>)
    requires TailOk(t) && !t.Bare?
    ensures ReadWord(TailText(t) + rest, Plain, current) ==
            CloseQuotes([if t.Single? then APOSTROPHE else QUOTE] + rest, current + TailBytes(t))
  {
    hide ReadWord, CloseQuotes, PiecesText, SingleText;
    match t
    case Single(w) =>
      var s := SingleText(w) + ([APOSTROPHE] + rest);
      assert TailText(t) + rest == [APOSTROPHE] + s;
      QuoteStep(APOSTROPHE, s, current);
      SingleRead(w, [APOSTROPHE] + rest, current);
      QuoteStep(APOSTROPHE, rest, current + w);
    case Double(ps) =>
      PiecesMore(ps, [QUOTE], rest);
      var s := PiecesText(ps, [QUOTE] + rest);
      assert TailText(t) + rest == [QUOTE] + s;
      QuoteStep(QUOTE, s, current);
      PiecesRead(ps, [QUOTE] + rest, current);
      QuoteStep(QUOTE, rest, current + Bytes(ps));
  }

  lemma BareTail(w: Spelled, rest: seq<Byte>)
    requires w.tail.Bare?
    ensures TailText(w.tail) + rest == rest && w.bare + TailBytes(w.tail) == w.bare
  {
  }

  lemma SpelledRead(w: Spelled, rest: seq<Byte>)
    requires SpelledOk(w) && Stops(w, rest)
    ensures ReadWord(Text(w) + rest, Plain, []) == Word(Value(w), LeftOver(w, rest))
  {
    hide TailText, TailOk;
    assert Text(w) + rest == w.bare + (TailText(w.tail) + rest);
    BareRead(w.bare, TailText(w.tail) + rest, []);
    assert [] + w.bare == w.bare;
    if w.tail.Bare? {
      BareTail(w, rest);
    } else {
      TailRead(w.tail, rest, w.bare);
      var q := [if w.tail.Single? then APOSTROPHE else QUOTE] + rest;
      assert q[1..] == rest && (rest != [] ==> q[1] == rest[0]);
    }
  }

  /** Blanks in front of a line change nothing. */
  lemma {:induction false} BlanksSkipped(g: seq<Byte>, s: seq<Byte>)
    requires Blanks(g)
    ensures SkipBlanks(g + s) == SkipBlanks(s) && Words(g + s) == Words(s)
    decreases |g|
  {
    hide ReadWord;
    if g == [] {
      assert g + s == s;
    } else {
      BlanksSkipped(g[1..], s);
      assert (g + s)[1..] == g[1..] + s;
    }
  }

  /** A word at the start of a line, and what is left behind it. */
  lemma FirstWord(w: Spelled, rest: seq<Byte>)
    requires SpelledOk(w) && Stops(w, rest)
    ensures Words(Text(w) + rest) == Behind([Value(w)], Words(LeftOver(w, rest)))
  {
    hide ReadWord, Text, LeftOver, Value, Stops;
    SpelledRead(w, rest);
    StartsWord(w, rest);
  }

  lemma StartsWord(w: Spelled, rest: seq<Byte>)
    requires SpelledOk(w)
    ensures At(Text(w) + rest, 0) != 0 && !IsSpace(At(Text(w) + rest, 0))
  {
    if w.bare == [] {
      assert (Text(w) + rest)[0] == TailText(w.tail)[0];
    } else {
      assert (Text(w) + rest)[0] == w.bare[0] && BareByte(w.bare[0]);
    }
  }

  lemma ItemRead(it: Item, s: seq<Byte>)
    requires ItemOk(it)
    ensures Words(Text(it.word) + it.gap + s) == Behind([Value(it.word)], Words(s))
  {
    hide ReadWord, Words, SpelledOk, Text, Value;
    var rest := it.gap + s;
    assert Text(it.word) + it.gap + s == Text(it.word) + rest;
    assert rest[0] == it.gap[0] && IsSpace(it.gap[0]);
    FirstWord(it.word, rest);
    var g := if it.word.tail.Bare? then it.gap[1..] else it.gap;
    assert LeftOver(it.word, rest) == g + s;
    BlanksSkipped(g, s);
  }

  /** Words with blanks behind them are read, whatever follows. */
  lemma {:induction false} ItemsRead(items: seq<Item>, s: seq<Byte>)
    requires ItemsOk(items)
    ensures Words(ItemsText(items) + s) == Behind(Values(items), Words(s))
    decreases |items|
  {
    hide Words, ItemOk, Text;
    if items == [] {
      assert ItemsText(items) + s == s && Values(items) == [];
      FirstBehind(Words(s));
    } else {
      var t := ItemsText(items[1..]) + s;
      assert ItemsText(items) + s == Text(items[0].word) + items[0].gap + t;
      ItemRead(items[0], t);
      ItemsRead(items[1..], s);
      assert Values(items) == [Value(items[0].word)] + Values(items[1..]);
      BehindTwice([Value(items[0].word)], Values(items[1..]), Words(s));
    }
  }

  lemma BehindTwice(a: seq<seq<Byte>>, b: seq<seq<Byte>>, r: Option<seq<seq<Byte>>>)
    ensures Behind(a, Behind(b, r)) == Behind(a + b, r)
  {
    if r.Some? {
      assert a + (b + r.value) == a + b + r.value;
    }
  }

  /** Every spelling of a list of words is split into the words. */
  lemma LineRead(l: Layout)
    requires LayoutOk(l)
    ensures Words(LayoutText(l)) == Some(LayoutWords(l))
  {
    hide ReadWord, SpelledOk, ItemsOk, ItemsText, Text, Value;
    var s := LastText(l.last) + l.end;
    assert LayoutText(l) == l.lead + (ItemsText(l.items) + s);
    BlanksSkipped(l.lead, ItemsText(l.items) + s);
    ItemsRead(l.items, s);
    assert Words(l.end) == Some([]);
    if l.last.Some? {
      FirstWord(l.last.value, l.end);
      assert LeftOver(l.last.value, l.end) == l.end;
      var v := Value(l.last.value);
      assert [v] + [] == [v];
      assert Words(s) == Some([v]);
    } else {
      assert s == l.end;
      assert Values(l.items) + [] == Values(l.items);
    }
  }

  // ------------------------------------------------------------- a line is a spelling

  /** The next byte inside quotes is one of the pieces. */
  lemma NextPiece(s: seq<Byte>, current: seq<Byte>) returns (p: Piece, n: nat)
    requires ReadWord(s, InQuotes, current).Word? && At(s, 0) != QUOTE
    ensures 0 < n <= |s| && PieceText(p) == s[..n] && PieceOk(p, s[n..])
    ensures ReadWord(s, InQuotes, current) == ReadWord(s[n..], InQuotes, current + [p.byte])
  {
    if IsByteEscape(s) {
      n := 4;
      p := Code(16 * HexValue(s[2]) + HexValue(s[3]), 65 <= s[2] <= 70, 65 <= s[3] <= 70);
      DigitsOf(s[2], s[3]);
    } else if At(s, 0) == BACKSLASH && At(s, 1) != 0 {
      n := 2;
      p := if Meaning(s[1]) == s[1] then Kept(s[1]) else Control(Meaning(s[1]));
    } else {
      n, p := 1, Raw(s[0]);
      if s[0] == BACKSLASH {
        LoneBackslash(s, current);
        assert false;
      }
    }
  }

  lemma LoneBackslash(s: seq<Byte>, current: seq<Byte>)
    requires At(s, 0) == BACKSLASH && At(s, 1) == 0
    ensures ReadWord(s, InQuotes, current) == Unbalanced
  {
    assert At(s[1..], 0) == 0;
  }

  lemma DigitsOf(h: Byte, l: Byte)
    requires IsHex(h) && IsHex(l)
    ensures var b := 16 * HexValue(h) + HexValue(l);
            b < 256 && Digit(b / 16, 65 <= h <= 70) == h && Digit(b % 16, 65 <= l <= 70) == l
  {
    assert (16 * HexValue(h) + HexValue(l)) / 16 == HexValue(h);
  }

  lemma PieceStays(p: Piece, ps: seq<Piece>, rest: seq<Byte>)
    requires PiecesOk(ps, [QUOTE]) && PieceOk(p, PiecesText(ps, [QUOTE]) + rest)
    ensures PiecesOk([p] + ps, [QUOTE]) && PiecesText([p] + ps, [QUOTE]) == PieceText(p) + PiecesText(ps, [QUOTE])
  {
    TextStarts(ps, [QUOTE]);
    assert ([p] + ps)[1..] == ps;
  }

  /** What stands behind the closing quote. */
  lemma Closing(s: seq<Byte>, mode: Mode, current: seq<Byte>)
    requires mode != Plain && At(s, 0) == (if mode == InQuotes then QUOTE else APOSTROPHE)
    requires ReadWord(s, mode, current).Word?
    ensures ReadWord(s, mode, current) == Word(current, s[1..]) && s == [s[0]] + s[1..]
    ensures At(s[1..], 0) == 0 || IsSpace(At(s[1..], 0))
  {
  }

  /** The spelling of what is read inside quotes. */
  lemma {:induction false} QuotesSpelt(s: seq<Byte>, current: seq<Byte>) returns (ps: seq<Piece>)
    requires ReadWord(s, InQuotes, current).Word?
    ensures var w := ReadWord(s, InQuotes, current);
            && PiecesOk(ps, [QUOTE]) && s == PiecesText(ps, [QUOTE]) + w.rest && w.word == current + Bytes(ps)
            && (At(w.rest, 0) == 0 || IsSpace(At(w.rest, 0)))
    decreases |s|
  {
    hide ReadWord, PieceText, PieceOk;
    if At(s, 0) == QUOTE {
      ps := [];
      Closing(s, InQuotes, current);
      assert current + Bytes(ps) == current;
    } else {
      hide PiecesText, PiecesOk, At, IsSpace;
      var p, n := NextPiece(s, current);
      var qs := QuotesSpelt(s[n..], current + [p.byte]);
      var rest := ReadWord(s, InQuotes, current).rest;
      PieceStays(p, qs, rest);
      ps := [p] + qs;
      PiecesJoin(s, n, p, qs, current, rest);
    }
  }

  lemma PiecesJoin(s: seq<Byte>, n: nat, p: Piece, qs: seq<Piece>, current: seq<Byte>, rest: seq<Byte>)
    requires n <= |s| && PieceText(p) == s[..n] && s[n..] == PiecesText(qs, [QUOTE]) + rest
    ensures s == PieceText(p) + PiecesText(qs, [QUOTE]) + rest
    ensures current + [p.byte] + Bytes(qs) == current + Bytes([p] + qs)
  {
    hide PieceText, PiecesText;
    assert s == s[..n] + s[n..];
    assert Bytes([p] + qs) == [p.byte] + Bytes(qs);
  }

  /** The next byte inside apostrophes. */
  lemma NextSingle(s: seq<Byte>, current: seq<Byte>) returns (b: Byte, n: nat)
    requires ReadWord(s, InApostrophes, current).Word? && At(s, 0) != APOSTROPHE
    ensures 0 < n <= |s| && b != 0 && s[..n] == SingleText([b])
    ensures b == BACKSLASH ==> At(s[n..], 0) != APOSTROPHE
    ensures ReadWord(s, InApostrophes, current) == ReadWord(s[n..], InApostrophes, current + [b])
  {
    n := if s[0] == BACKSLASH && At(s, 1) == APOSTROPHE then 2 else 1;
    b := s[n - 1];
    assert [b][1..] == [];
  }

  lemma SingleJoin(s: seq<Byte>, n: nat, b: Byte, v: seq<Byte>, current: seq<Byte>, rest: seq<Byte>)
    requires n <= |s| && SingleText([b]) == s[..n] && s[n..] == SingleText(v) + [APOSTROPHE] + rest
    requires b != 0 && SingleOk(v) && (b == BACKSLASH ==> At(s[n..], 0) != APOSTROPHE)
    ensures SingleOk([b] + v) && s == SingleText([b] + v) + [APOSTROPHE] + rest
    ensures current + [b] + v == current + ([b] + v)
  {
    assert s == s[..n] + s[n..];
    assert ([b] + v)[1..] == v && [b][1..] == [];
    assert SingleText([b] + v) == SingleText([b]) + SingleText(v);
    assert v == [] ==> s[n..][0] == APOSTROPHE;
  }

  /** The spelling of what is read inside apostrophes. */
  lemma {:induction false} ApostrophesSpelt(s: seq<Byte>, current: seq<Byte>) returns (w: seq<Byte>)
    requires ReadWord(s, InApostrophes, current).Word?
    ensures var r := ReadWord(s, InApostrophes, current);
            && SingleOk(w) && s == SingleText(w) + [APOSTROPHE] + r.rest && r.word == current + w
            && (At(r.rest, 0) == 0 || IsSpace(At(r.rest, 0)))
    decreases |s|
  {
    hide ReadWord;
    if At(s, 0) == APOSTROPHE {
      w := [];
      Closing(s, InApostrophes, current);
      assert current + w == current;
    } else {
      hide SingleText, SingleOk, At, IsSpace;
      var b, n := NextSingle(s, current);
      var v := ApostrophesSpelt(s[n..], current + [b]);
      SingleJoin(s, n, b, v, current, ReadWord(s, InApostrophes, current).rest);
      w := [b] + v;
    }
  }

  predicate BareOk(w: Spelled) {
    TailOk(w.tail) && forall i :: 0 <= i < |w.bare| ==> BareByte(w.bare[i])
  }

  /** The spelling of a word, and what stands behind it. */
  lemma {:induction false} WordSpelt(s: seq<Byte>, current: seq<Byte>) returns (w: Spelled, rest: seq<Byte>)
    requires ReadWord(s, Plain, current).Word?
    ensures BareOk(w) && s == Text(w) + rest && Stops(w, rest)
    ensures ReadWord(s, Plain, current) == Word(current + Value(w), LeftOver(w, rest))
    decreases |s|
  {
    if EndsWord(At(s, 0)) {
      w, rest := Spelled([], Bare), s;
      assert Value(w) == [] && Text(w) == [];
    } else if s[0] == QUOTE || s[0] == APOSTROPHE {
      w, rest := QuotedSpelt(s, current);
    } else {
      var v;
      v, rest := WordSpelt(s[1..], current + [s[0]]);
      w := v.(bare := [s[0]] + v.bare);
      BareJoin(s, v, current, rest);
    }
  }

  lemma BareJoin(s: seq<Byte>, v: Spelled, current: seq<Byte>, rest: seq<Byte>)
    requires s != [] && s[1..] == Text(v) + rest
    ensures var w := v.(bare := [s[0]] + v.bare);
            s == Text(w) + rest && current + [s[0]] + Value(v) == current + Value(w)
  {
    hide TailText, TailBytes;
    var w := v.(bare := [s[0]] + v.bare);
    assert s == [s[0]] + s[1..];
    assert Text(w) == [s[0]] + Text(v) && Value(w) == [s[0]] + Value(v);
  }

  lemma QuotedSpelt(s: seq<Byte>, current: seq<Byte>) returns (w: Spelled, rest: seq<Byte>)
    requires At(s, 0) == QUOTE || At(s, 0) == APOSTROPHE
    requires ReadWord(s, Plain, current).Word?
    ensures w.bare == [] && BareOk(w) && s == Text(w) + rest && Stops(w, rest)
    ensures ReadWord(s, Plain, current) == Word(current + Value(w), LeftOver(w, rest))
  {
    var mode := if s[0] == QUOTE then InQuotes else InApostrophes;
    assert ReadWord(s, Plain, current) == ReadWord(s[1..], mode, current);
    hide ReadWord, TailText, TailOk, TailBytes;
    rest := ReadWord(s, Plain, current).rest;
    var t;
    if s[0] == QUOTE {
      var ps := QuotesSpelt(s[1..], current);
      t := Double(ps);
      DoubleJoin(s, ps, rest);
    } else {
      var v := ApostrophesSpelt(s[1..], current);
      t := Single(v);
      ApostropheJoin(s, v, rest);
    }
    w := Spelled([], t);
    assert Text(w) == TailText(t) && Value(w) == TailBytes(t);
  }

  lemma DoubleJoin(s: seq<Byte>, ps: seq<Piece>, rest: seq<Byte>)
    requires At(s, 0) == QUOTE && s[1..] == PiecesText(ps, [QUOTE]) + rest && PiecesOk(ps, [QUOTE])
    ensures TailOk(Double(ps)) && s == TailText(Double(ps)) + rest && TailBytes(Double(ps)) == Bytes(ps)
  {
    hide PiecesText, PiecesOk;
    assert s == [QUOTE] + s[1..];
  }

  lemma ApostropheJoin(s: seq<Byte>, v: seq<Byte>, rest: seq<Byte>)
    requires At(s, 0) == APOSTROPHE && s[1..] == SingleText(v) + [APOSTROPHE] + rest && SingleOk(v)
    ensures TailOk(Single(v)) && s == TailText(Single(v)) + rest && TailBytes(Single(v)) == v
  {
    hide SingleText, SingleOk;
    assert s == [APOSTROPHE] + s[1..];
  }

  lemma {:induction false} LeadingBlanks(s: seq<Byte>) returns (g: seq<Byte>)
    ensures Blanks(g) && s == g + SkipBlanks(s)
    decreases |s|
  {
    if At(s, 0) != 0 && IsSpace(At(s, 0)) {
      g := LeadingBlanks(s[1..]);
      g := [s[0]] + g;
    } else {
      g := [];
    }
  }

  lemma StartIsWord(w: Spelled, rest: seq<Byte>)
    requires BareOk(w) && Stops(w, rest)
    requires At(Text(w) + rest, 0) != 0 && !IsSpace(At(Text(w) + rest, 0))
    ensures SpelledOk(w)
  {
    if w.bare == [] && w.tail.Bare? {
      BareTail(w, rest);
      assert false;
    }
  }

  /** A spelled word in front of a spelled line. */
  lemma Prefixed(g: seq<Byte>, w: Spelled, rest: seq<Byte>, m: Layout) returns (l: Layout)
    requires Blanks(g) && SpelledOk(w) && Stops(w, rest) && At(rest, 0) != 0
    requires LayoutOk(m) && LeftOver(w, rest) == LayoutText(m)
    requires IsSpace(At(LayoutText(m), 0)) ==> m.lead != []
    ensures LayoutOk(l) && LayoutText(l) == g + Text(w) + rest && l.lead == g
  {
    hide SpelledOk, Text, LastText;
    var gap := (if w.tail.Bare? then [rest[0]] else []) + m.lead;
    var it := Item(w, gap);
    l := Layout(g, [it] + m.items, m.last, m.end);
    assert ItemOk(it) by {
      hide ItemsText;
      assert rest == (if w.tail.Bare? then [rest[0]] else []) + LeftOver(w, rest);
      assert gap != [];
    }
    PrefixedText(g, w, gap, rest, m);
  }

  lemma PrefixedText(g: seq<Byte>, w: Spelled, gap: seq<Byte>, rest: seq<Byte>, m: Layout)
    requires gap == (if w.tail.Bare? && rest != [] then [rest[0]] else []) + m.lead
    requires LeftOver(w, rest) == LayoutText(m) && At(rest, 0) != 0
    ensures LayoutText(Layout(g, [Item(w, gap)] + m.items, m.last, m.end)) == g + Text(w) + rest
  {
    hide Text, LastText;
    var items := [Item(w, gap)] + m.items;
    assert items[1..] == m.items;
    assert ItemsText(items) == Text(w) + gap + ItemsText(m.items);
    hide ItemsText;
    var first := if w.tail.Bare? then [rest[0]] else [];
    assert rest == first + LeftOver(w, rest);
    Regroup(g, Text(w), first, m.lead, ItemsText(m.items), LastText(m.last), m.end);
  }

  lemma Regroup(g: seq<Byte>, w: seq<Byte>, first: seq<Byte>, lead: seq<Byte>, items: seq<Byte>,
                last: seq<Byte>, end: seq<Byte>)
    ensures g + (w + (first + lead) + items) + last + end == g + w + (first + (lead + items + last + end))
  {
    assert w + (first + lead) + items == w + (first + (lead + items));
    assert g + (w + (first + (lead + items))) == g + w + (first + (lead + items));
    assert lead + items + last + end == lead + items + (last + end);
    assert first + (lead + items + (last + end)) == first + (lead + items) + (last + end);
  }

  /** Every line that is split has a spelling. */
  lemma {:induction false} LineSpelt(s: seq<Byte>) returns (l: Layout)
    requires Words(s).Some?
    ensures LayoutOk(l) && s == LayoutText(l) && (IsSpace(At(s, 0)) ==> l.lead != [])
    decreases |s|
  {
    hide ReadWord, Text, Value, SpelledOk;
    var g := LeadingBlanks(s);
    var t := SkipBlanks(s);
    assert g == [] ==> s == t;
    if At(t, 0) == 0 {
      l := Layout(g, [], None, t);
    } else {
      var w, rest := WordSpelt(t, []);
      assert [] + Value(w) == Value(w);
      StartIsWord(w, rest);
      assert s == g + Text(w) + rest;
      if At(rest, 0) == 0 {
        l := Layout(g, [], Some(w), rest);
      } else {
        var m := LineSpelt(LeftOver(w, rest));
        l := Prefixed(g, w, rest, m);
      }
    }
  }

  /** sdssplitargs splits exactly the lines of the grammar, each into the words it spells. */
  lemma SplitsExactly(s: seq<Byte>)
    ensures Words(s).Some? <==> exists l: Layout :: LayoutOk(l) && LayoutText(l) == s
    ensures forall l: Layout :: LayoutOk(l) && LayoutText(l) == s ==> Words(s) == Some(LayoutWords(l))
  {
    hide Words, LayoutOk, LayoutText;
    if Words(s).Some? {
      var l := LineSpelt(s);
      assert LayoutOk(l) && LayoutText(l) == s;
    }
    forall l: Layout | LayoutOk(l) && LayoutText(l) == s
      ensures Words(s) == Some(LayoutWords(l))
    {
      LineRead(l);
    }
  }

  // ---------------------------------------------------------------------- refusals

  /** Quotes or apostrophes that are not closed before the end of the line. */
  lemma NotClosed(items: seq<Item>, bare: seq<Byte>, ps: seq<Piece>, w: seq<Byte>, end: seq<Byte>)
    requires ItemsOk(items) && AtEnd(end) && (forall i :: 0 <= i < |bare| ==> BareByte(bare[i]))
    requires bare != [] ==> !IsSpace(bare[0])
    requires PiecesOk(ps, end) && (forall i :: 0 <= i < |w| ==> w[i] != 0)
    ensures Words(ItemsText(items) + (bare + ([QUOTE] + PiecesText(ps, end)))) == None
    ensures Words(ItemsText(items) + (bare + ([APOSTROPHE] + (SingleText(w) + end)))) == None
  {
    hide ItemsOk, ItemsText, PiecesOk, PiecesText, SingleText;
    var quoted := [QUOTE] + PiecesText(ps, end);
    assert quoted[1..] == PiecesText(ps, end);
    PiecesRead(ps, end, bare);
    assert [] + bare == bare;
    BareRead(bare, quoted, []);
    WordRefused(items, bare + quoted);
    var single := [APOSTROPHE] + (SingleText(w) + end);
    assert single[1..] == SingleText(w) + end;
    SingleRead(w, end, bare);
    BareRead(bare, single, []);
    WordRefused(items, bare + single);
  }

  /** Words, and then something that is no word. */
  lemma WordRefused(items: seq<Item>, s: seq<Byte>)
    requires ItemsOk(items) && At(s, 0) != 0 && !IsSpace(At(s, 0)) && ReadWord(s, Plain, []) == Unbalanced
    ensures Words(ItemsText(items) + s) == None
  {
    hide ReadWord, ItemsOk, ItemsText;
    ItemsRead(items, s);
    assert Words(s) == None;
  }

  /** Closing quotes with a byte behind them that is no blank. */
  lemma ClosedTooEarly(items: seq<Item>, w: Spelled, rest: seq<Byte>)
    requires ItemsOk(items) && SpelledOk(w) && !w.tail.Bare?
    requires At(rest, 0) != 0 && !IsSpace(At(rest, 0))
    ensures Words(ItemsText(items) + (Text(w) + rest)) == None
  {
    hide ItemsOk, ItemsText, TailText, TailOk;
    assert Text(w) + rest == w.bare + (TailText(w.tail) + rest);
    BareRead(w.bare, TailText(w.tail) + rest, []);
    assert [] + w.bare == w.bare;
    TailRead(w.tail, rest, w.bare);
    StartsWord(w, rest);
    WordRefused(items, Text(w) + rest);
  }

  /** A word without a NUL in apostrophes comes back exactly if it does not end with a backslash. */
  lemma ApostrophesExactly(w: seq<Byte>)
    requires forall i :: 0 <= i < |w| ==> w[i] != 0
    ensures Words([APOSTROPHE] + SingleText(w) + [APOSTROPHE]) == Some([w]) <==>
            w == [] || w[|w| - 1] != BACKSLASH
  {
    hide Words, SingleText;
    if w == [] || w[|w| - 1] != BACKSLASH {
      SingleComesBack(w);
    } else {
      EndsEscaped(w);
      var v := w[..|w| - 1] + [APOSTROPHE];
      SingleRefused(v);
      assert [APOSTROPHE] + SingleText(w) + [APOSTROPHE] == [APOSTROPHE] + SingleText(v);
    }
  }

  lemma SingleComesBack(w: seq<Byte>)
    requires SingleOk(w)
    ensures Words([APOSTROPHE] + SingleText(w) + [APOSTROPHE]) == Some([w])
  {
    hide Words, SingleText, SingleOk;
    var p := Spelled([], Single(w));
    var l := Layout([], [], Some(p), []);
    assert Text(p) == [APOSTROPHE] + SingleText(w) + [APOSTROPHE] && Value(p) == w;
    hide Text, Value, SpelledOk;
    assert ItemsText([]) == [] && Values([]) == [];
    assert LayoutText(l) == Text(p) && LayoutWords(l) == [w];
    assert SpelledOk(p) by {
      Starting(w);
    }
    LineRead(l);
  }

  lemma Starting(w: seq<Byte>)
    requires SingleOk(w)
    ensures SpelledOk(Spelled([], Single(w)))
  {
    hide SingleOk;
  }

  lemma SingleRefused(v: seq<Byte>)
    requires forall i :: 0 <= i < |v| ==> v[i] != 0
    ensures Words([APOSTROPHE] + SingleText(v)) == None
  {
    hide Words, SingleText;
    NotClosed([], [], [], v, []);
    var s := [APOSTROPHE] + SingleText(v);
    assert ItemsText([]) == [] && s == [] + ([] + ([APOSTROPHE] + (SingleText(v) + [])));
  }

  lemma {:induction false} EndsEscaped(w: seq<Byte>)
    requires w != [] && w[|w| - 1] == BACKSLASH
    ensures SingleText(w) + [APOSTROPHE] == SingleText(w[..|w| - 1] + [APOSTROPHE])
    decreases |w|
  {
    var v := w[..|w| - 1] + [APOSTROPHE];
    if |w| == 1 {
      assert v == [APOSTROPHE] && w == [BACKSLASH];
    } else {
      EndsEscaped(w[1..]);
      assert v[1..] == w[1..][..|w| - 2] + [APOSTROPHE] && v[0] == w[0];
      var first := if w[0] == APOSTROPHE then [BACKSLASH, APOSTROPHE] else [w[0]];
      assert SingleText(w) == first + SingleText(w[1..]) && SingleText(v) == first + SingleText(v[1..]);
      hide SingleText;
      assert first + SingleText(w[1..]) + [APOSTROPHE] == first + (SingleText(w[1..]) + [APOSTROPHE]);
    }
  }
}
