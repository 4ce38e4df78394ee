/** sds.c: quoting a byte string, and splitting a line of quoted words. */
module Quoting {
  import opened Bits
  import opened RespSpec

  const QUOTE: Byte := 34
  const APOSTROPHE: Byte := 39
  const BACKSLASH: Byte := 92
  const SPACE: Byte := 32
  const LOWER_X: Byte := 120

  // ---------------------------------------------------------------------- quoting

  /** The letter that stands for a control character behind a backslash, or none. */
  function Letter(b: Byte): (r: Option<Byte>) {
    if b == 10 then Some(110)
    else if b == 13 then Some(114)
    else if b == 9 then Some(116)
    else if b == 7 then Some(97)
    else if b == 8 then Some(98)
    else None
  }

  function HexDigit(n: nat): (r: Byte)
    requires n < 16
  {
    if n < 10 then 48 + n else 97 + (n - 10)
  }

  /** One byte inside quotes. */
  function Escape(b: Byte, isprint: Byte -> bool): (r: seq<Byte>) {
    if b == BACKSLASH || b == QUOTE then [BACKSLASH, b]
    else if Letter(b).Some? then [BACKSLASH, Letter(b).value]
    else if isprint(b) then [b]
    else [BACKSLASH, LOWER_X, HexDigit(b / 16), HexDigit(b % 16)]
  }

  function Body(p: seq<Byte>, isprint: Byte -> bool): (r: seq<Byte>) {
    if p == [] then [] else Escape(p[0], isprint) + Body(p[1..], isprint)
  }

  function Quoted(p: seq<Byte>, isprint: Byte -> bool): (r: seq<Byte>) {
    [QUOTE] + Body(p, isprint) + [QUOTE]
  }

  lemma {:induction false} BodyNext(p: seq<Byte>, i: nat, isprint: Byte -> bool)
    requires i < |p|
    ensures Body(p[..i + 1], isprint) == Body(p[..i], isprint) + Escape(p[i], isprint)
  {
    if i == 0 {
      assert p[..1][1..] == [] && p[..0] == [];
    } else {
      BodyNext(p[1..], i - 1, isprint);
      assert p[..i + 1][1..] == p[1..][..i] && p[..i][1..] == p[1..][..i - 1];
    }
  }

  /** The cases of sdscatrepr. */
  method EscapeByte(b: Byte, isprint: Byte -> bool) returns (e: seq<Byte>)
    ensures e == Escape(b, isprint)
  {
    if b == BACKSLASH || b == QUOTE {
      e := [BACKSLASH, b];
    } else if b == 10 {
      e := [BACKSLASH, 110];
    } else if b == 13 {
      e := [BACKSLASH, 114];
    } else if b == 9 {
      e := [BACKSLASH, 116];
    } else if b == 7 {
      e := [BACKSLASH, 97];
    } else if b == 8 {
      e := [BACKSLASH, 98];
    } else if isprint(b) {
      e := [b];
    } else {
      e := [BACKSLASH, LOWER_X, HexDigit(b / 16), HexDigit(b % 16)];
    }
  }

  /** sdscatrepr; isprint is the C library's, whatever the locale. */
  method CatRepr(s0: seq<Byte>, p: seq<Byte>, isprint: Byte -> bool) returns (s: seq<Byte>)
    ensures s == s0 + Quoted(p, isprint)
  {
    hide Escape;
    s := s0 + [QUOTE];
    var i := 0;
    assert p[..0] == [];
    while i < |p|
      invariant i <= |p| && s == s0 + [QUOTE] + Body(p[..i], isprint)
    {
      BodyNext(p, i, isprint);
      var e := EscapeByte(p[i], isprint);
      s := s + e;
      i := i + 1;
    }
    assert p[..|p|] == p;
    s := s + [QUOTE];
  }

  /** Text without quotes, backslashes and control characters is only put between quotes. */
  lemma {:induction false} ReprOfText(p: seq<Byte>, isprint: Byte -> bool)
    requires forall i :: 0 <= i < |p| ==> isprint(p[i]) && p[i] >= SPACE && p[i] != QUOTE && p[i] != BACKSLASH
    ensures Body(p, isprint) == p
    decreases |p|
  {
    if p == [] {
    } else {
      ReprOfText(p[1..], isprint);
      assert Escape(p[0], isprint) == [p[0]];
      assert p == [p[0]] + p[1..];
    }
  }

  /** Whatever the bytes, what is written is printable. */
  lemma {:induction false} ReprIsPrintable(p: seq<Byte>, isprint: Byte -> bool)
    requires forall b: Byte :: SPACE <= b <= 126 ==> isprint(b)
    ensures forall i :: 0 <= i < |Body(p, isprint)| ==> isprint(Body(p, isprint)[i])
    decreases |p|
  {
    if p == [] {
    } else {
      ReprIsPrintable(p[1..], isprint);
      EscapeIsPrintable(p[0], isprint);
    }
  }

  lemma EscapeIsPrintable(b: Byte, isprint: Byte -> bool)
    requires forall x: Byte :: SPACE <= x <= 126 ==> isprint(x)
    ensures forall i :: 0 <= i < |Escape(b, isprint)| ==> isprint(Escape(b, isprint)[i])
  {
  }

  // --------------------------------------------------------------------- splitting

  /** A byte of a C string; the NUL behind the last. */
  function At(s: seq<Byte>, i: nat): (r: Byte) {
    if i < |s| then s[i] else 0
  }

  predicate IsSpace(b: Byte) {
    b == SPACE || 9 <= b <= 13
  }

  /** is_hex_digit */
  predicate IsHex(b: Byte) {
    48 <= b <= 57 || 97 <= b <= 102 || 65 <= b <= 70
  }

  /** hex_digit_to_int */
  function HexValue(b: Byte): (r: nat)
    ensures r < 16
  {
    if 48 <= b <= 57 then b - 48 else if 97 <= b <= 102 then b - 87 else if 65 <= b <= 70 then b - 55 else 0
  }

  /** What a backslash and a letter stand for. */
  function Meaning(b: Byte): (r: Byte) {
    if b == 110 then 10 else if b == 114 then 13 else if b == 116 then 9 else if b == 98 then 8 else if b == 97 then 7
    else b
  }

  datatype Mode = Plain | InQuotes | InApostrophes

  /** A word and what follows it; or the quotes are wrong. */
  datatype Word = Word(word: seq<Byte>, rest: seq<Byte>) | Unbalanced

  predicate IsByteEscape(s: seq<Byte>) {
    At(s, 0) == BACKSLASH && At(s, 1) == LOWER_X && IsHex(At(s, 2)) && IsHex(At(s, 3))
  }

  /** The end of the quotes must be the end of the word. */
  function CloseQuotes(s: seq<Byte>, current: seq<Byte>): (w: Word)
    requires s != []
    ensures w.Word? ==> |w.rest| < |s|
  {
    if At(s, 1) != 0 && !IsSpace(At(s, 1)) then Unbalanced else Word(current, s[1..])
  }

  predicate EndsWord(b: Byte) {
    b == SPACE || b == 10 || b == 13 || b == 9 || b == 0
  }

  /** The rest of a word of which some has been read. */
  function ReadWord(s: seq<Byte>, mode: Mode, current: seq<Byte>): (w: Word)
    ensures w.Word? ==> |w.rest| <= |s| && (mode != Plain || !EndsWord(At(s, 0)) ==> |w.rest| < |s|)
    decreases |s|
  {
    match mode
    case InQuotes =>
      if IsByteEscape(s) then ReadWord(s[4..], mode, current + [16 * HexValue(s[2]) + HexValue(s[3])])
      else if At(s, 0) == BACKSLASH && At(s, 1) != 0 then ReadWord(s[2..], mode, current + [Meaning(s[1])])
      else if At(s, 0) == QUOTE then CloseQuotes(s, current)
      else if At(s, 0) == 0 then Unbalanced
      else ReadWord(s[1..], mode, current + [s[0]])
    case InApostrophes =>
      if At(s, 0) == BACKSLASH && At(s, 1) == APOSTROPHE then ReadWord(s[2..], mode, current + [APOSTROPHE])
      else if At(s, 0) == APOSTROPHE then CloseQuotes(s, current)
      else if At(s, 0) == 0 then Unbalanced
      else ReadWord(s[1..], mode, current + [s[0]])
    case Plain =>
      if EndsWord(At(s, 0)) then Word(current, if At(s, 0) != 0 then s[1..] else s)
      else if At(s, 0) == QUOTE then ReadWord(s[1..], InQuotes, current)
      else if At(s, 0) == APOSTROPHE then ReadWord(s[1..], InApostrophes, current)
      else ReadWord(s[1..], Plain, current + [s[0]])
  }

  function SkipBlanks(s: seq<Byte>): (r: seq<Byte>)
    ensures |r| <= |s| && (At(r, 0) != 0 ==> !IsSpace(At(r, 0)))
    decreases |s|
  {
    if At(s, 0) != 0 && IsSpace(At(s, 0)) then SkipBlanks(s[1..]) else s
  }

  /** The words of a line. */
  function Words(s: seq<Byte>): (r: Option<seq<seq<Byte>>>)
    decreases |s|
  {
    var t := SkipBlanks(s);
    if At(t, 0) == 0 then Some([])
    else
      match ReadWord(t, Plain, [])
      case Unbalanced => None
      case Word(w, rest) =>
        match Words(rest)
        case None => None
        case Some(ws) => Some([w] + ws)
  }

  /** The rest of the words, behind those found. */
  function Behind(vector: seq<seq<Byte>>, r: Option<seq<seq<Byte>>>): Option<seq<seq<Byte>>> {
    if r.Some? then Some(vector + r.value) else None
  }

  /** sdssplitargs: p is an index into the line. */
  method SplitArgs(line: seq<Byte>) returns (r: Option<seq<seq<Byte>>>)
    ensures r == Words(line)
  {
    hide ReadWord;
    var p, vector: seq<seq<Byte>> := 0, [];
    assert line[0..] == line;
    FirstBehind(Words(line));
    while true
      invariant p <= |line| && Words(line) == Behind(vector, Words(line[p..]))
      decreases |line| - p
    {
      ghost var s := line[p..];
      while At(line, p) != 0 && IsSpace(At(line, p))
        invariant p <= |line| && SkipBlanks(s) == SkipBlanks(line[p..]) && |line[p..]| <= |s|
        decreases |line| - p
      {
        assert line[p..][1..] == line[p + 1..];
        p := p + 1;
      }
      if At(line, p) == 0 {
        assert vector + [] == vector;
        return Some(vector);
      }
      var ok, current, next := GetWord(line, p);
      if !ok {
        return None;
      }
      MoreBehind(vector, current, Words(line[next..]));
      vector := vector + [current];
      p := next;
    }
  }

  lemma FirstBehind(r: Option<seq<seq<Byte>>>)
    ensures Behind([], r) == r
  {
    if r.Some? {
      assert [] + r.value == r.value;
    }
  }

  lemma MoreBehind(vector: seq<seq<Byte>>, w: seq<Byte>, r: Option<seq<seq<Byte>>>)
    ensures Behind(vector, if r.Some? then Some([w] + r.value) else None) == Behind(vector + [w], r)
  {
    if r.Some? {
      assert vector + ([w] + r.value) == vector + [w] + r.value;
    }
  }

  /** One step inside quotes: done at the closing quote, or not ok. */
  method QuotesStep(line: seq<Byte>, p0: nat, current0: seq<Byte>)
    returns (done: bool, ok: bool, current: seq<Byte>, p: nat)
    requires p0 <= |line|
    ensures p0 <= p <= |line| && (!done ==> ok && p0 < p) && (done && ok ==> p0 < p)
    ensures ReadWord(line[p0..], InQuotes, current0) ==
            if !done then ReadWord(line[p..], InQuotes, current) else if ok then Word(current, line[p..])
            else Unbalanced
  {
    ghost var s := line[p0..];
    done, ok, current, p := false, true, current0, p0;
    if At(line, p) == BACKSLASH && At(line, p + 1) == LOWER_X && IsHex(At(line, p + 2)) && IsHex(At(line, p + 3)) {
      assert s[4..] == line[p + 4..];
      current := current + [HexValue(line[p + 2]) * 16 + HexValue(line[p + 3])];
      p := p + 4;
    } else if At(line, p) == BACKSLASH && At(line, p + 1) != 0 {
      assert s[2..] == line[p + 2..];
      current := current + [Meaning(line[p + 1])];
      p := p + 2;
    } else if At(line, p) == QUOTE {
      assert s[1..] == line[p + 1..];
      done := true;
      if At(line, p + 1) != 0 && !IsSpace(At(line, p + 1)) {
        ok := false;
      } else {
        p := p + 1;
      }
    } else if At(line, p) == 0 {
      done, ok := true, false;
    } else {
      assert s[1..] == line[p + 1..];
      current := current + [line[p]];
      p := p + 1;
    }
  }

  /** One step inside apostrophes. */
  method ApostrophesStep(line: seq<Byte>, p0: nat, current0: seq<Byte>)
    returns (done: bool, ok: bool, current: seq<Byte>, p: nat)
    requires p0 <= |line|
    ensures p0 <= p <= |line| && (!done ==> ok && p0 < p) && (done && ok ==> p0 < p)
    ensures ReadWord(line[p0..], InApostrophes, current0) ==
            if !done then ReadWord(line[p..], InApostrophes, current) else if ok then Word(current, line[p..])
            else Unbalanced
  {
    ghost var s := line[p0..];
    done, ok, current, p := false, true, current0, p0;
    if At(line, p) == BACKSLASH && At(line, p + 1) == APOSTROPHE {
      assert s[2..] == line[p + 2..];
      current := current + [APOSTROPHE];
      p := p + 2;
    } else if At(line, p) == APOSTROPHE {
      assert s[1..] == line[p + 1..];
      done := true;
      if At(line, p + 1) != 0 && !IsSpace(At(line, p + 1)) {
        ok := false;
      } else {
        p := p + 1;
      }
    } else if At(line, p) == 0 {
      done, ok := true, false;
    } else {
      assert s[1..] == line[p + 1..];
      current := current + [line[p]];
      p := p + 1;
    }
  }

  /** One step outside both. */
  method PlainStep(line: seq<Byte>, p0: nat, current0: seq<Byte>)
    returns (done: bool, inq: bool, insq: bool, current: seq<Byte>, p: nat)
    requires p0 <= |line|
    ensures p0 <= p <= |line| && (!done ==> p0 < p) && !(inq && insq) && (done ==> EndsWord(At(line, p0)))
    ensures ReadWord(line[p0..], Plain, current0) ==
            if done then Word(current, line[p..]) else ReadWord(line[p..], ModeOf(inq, insq), current)
  {
    ghost var s := line[p0..];
    done, inq, insq, current, p := false, false, false, current0, p0;
    if EndsWord(At(line, p)) {
      done := true;
      if At(line, p) != 0 {
        assert s[1..] == line[p + 1..];
        p := p + 1;
      }
    } else {
      assert s[1..] == line[p + 1..];
      if At(line, p) == QUOTE {
        inq := true;
      } else if At(line, p) == APOSTROPHE {
        insq := true;
      } else {
        current := current + [line[p]];
      }
      p := p + 1;
    }
  }

  function ModeOf(inq: bool, insq: bool): Mode {
    if inq then InQuotes else if insq then InApostrophes else Plain
  }

  /** One word, from p on. */
  method GetWord(line: seq<Byte>, p0: nat) returns (ok: bool, current: seq<Byte>, p: nat)
    requires p0 < |line| && !EndsWord(line[p0])
    ensures p <= |line| && (ok ==> p0 < p)
    ensures ReadWord(line[p0..], Plain, []) == if ok then Word(current, line[p..]) else Unbalanced
  {
    hide ReadWord;
    var inq, insq, done := false, false, false;
    ok, current, p := true, [], p0;
    while !done
      invariant p0 <= p <= |line| && !(inq && insq) && (inq || insq || done ==> !ok || p0 < p)
      invariant ReadWord(line[p0..], Plain, []) ==
                if !ok then Unbalanced else if done then Word(current, line[p..])
                else ReadWord(line[p..], ModeOf(inq, insq), current)
      invariant !ok ==> done
      decreases |line| - p, !done
    {
      if inq {
        done, ok, current, p := QuotesStep(line, p, current);
      } else if insq {
        done, ok, current, p := ApostrophesStep(line, p, current);
      } else {
        done, inq, insq, current, p := PlainStep(line, p, current);
      }
    }
  }

  // ------------------------------------------------------------------- round trip

  /** One quoted byte is read back. */
  lemma EscapeRead(b: Byte, rest: seq<Byte>, current: seq<Byte>, isprint: Byte -> bool)
    requires !isprint(0)
    ensures ReadWord(Escape(b, isprint) + rest, InQuotes, current) == ReadWord(rest, InQuotes, current + [b])
  {
    var s := Escape(b, isprint) + rest;
    if b == BACKSLASH || b == QUOTE || Letter(b).Some? {
      assert s[2..] == rest;
    } else if isprint(b) {
      assert s[1..] == rest;
    } else {
      assert s[4..] == rest;
      HexBack(b);
    }
  }

  lemma HexBack(b: Byte)
    ensures IsHex(HexDigit(b / 16)) && IsHex(HexDigit(b % 16))
    ensures 16 * HexValue(HexDigit(b / 16)) + HexValue(HexDigit(b % 16)) == b
  {
  }

  lemma {:induction false} BodyRead(p: seq<Byte>, rest: seq<Byte>, current: seq<Byte>, isprint: Byte -> bool)
    requires !isprint(0) && (rest == [] || IsSpace(rest[0]))
    ensures ReadWord(Body(p, isprint) + [QUOTE] + rest, InQuotes, current) == Word(current + p, rest)
    decreases |p|
  {
    var s := Body(p, isprint) + [QUOTE] + rest;
    if p == [] {
      assert s[1..] == rest && current + p == current;
    } else {
      hide ReadWord, Escape;
      var t := Body(p[1..], isprint) + [QUOTE] + rest;
      assert s == Escape(p[0], isprint) + t;
      EscapeRead(p[0], t, current, isprint);
      BodyRead(p[1..], rest, current + [p[0]], isprint);
      assert current + [p[0]] + p[1..] == current + p;
    }
  }

  /** A line of quoted words. */
  function Line(args: seq<seq<Byte>>, isprint: Byte -> bool): (r: seq<Byte>) {
    if args == [] then []
    else if |args| == 1 then Quoted(args[0], isprint)
    else Quoted(args[0], isprint) + [SPACE] + Line(args[1..], isprint)
  }

  lemma WordRead(p: seq<Byte>, rest: seq<Byte>, isprint: Byte -> bool)
    requires !isprint(0) && (rest == [] || IsSpace(rest[0]))
    ensures ReadWord(Quoted(p, isprint) + rest, Plain, []) == Word(p, rest)
  {
    hide Body;
    var s := Quoted(p, isprint) + rest;
    assert s[0] == QUOTE && s[1..] == Body(p, isprint) + [QUOTE] + rest;
    BodyRead(p, rest, [], isprint);
  }

  /** Quoting words and splitting the line gives the words back, whatever their bytes
      and whatever the locale calls printable. */
  lemma {:induction false} SplitQuoted(args: seq<seq<Byte>>, isprint: Byte -> bool)
    requires !isprint(0)
    ensures Words(Line(args, isprint)) == Some(args)
    decreases |args|
  {
    hide ReadWord, Body;
    if args == [] {
    } else {
      var s := Line(args, isprint);
      var rest := if |args| == 1 then [] else [SPACE] + Line(args[1..], isprint);
      assert s == Quoted(args[0], isprint) + rest;
      WordRead(args[0], rest, isprint);
      SplitQuoted(args[1..], isprint);
      SkipOne(Line(args[1..], isprint));
      assert [args[0]] + args[1..] == args;
    }
  }

  lemma SkipOne(s: seq<Byte>)
    ensures Words([SPACE] + s) == Words(s)
  {
    hide ReadWord;
    assert ([SPACE] + s)[1..] == s;
  }
}
