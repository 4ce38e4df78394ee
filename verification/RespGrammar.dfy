/** read.c: what the reader accepts, as a grammar of replies on the wire, and what it
    makes of each. */
module RespGrammar {
  import opened Bits
  import opened RespSpec
  import opened RespReader
  import opened RespFormat

  // ---------------------------------------------------------------------- numbers

  datatype Sign = Unsigned | Positive | Negative

  /** A number in a line. It ends at a carriage return, whatever stands behind. */
  datatype Numeral = Numeral(sign: Sign, digits: seq<Byte>, behind: seq<Byte>)

  predicate NumeralOk(n: Numeral) {
    && CR !in n.digits
    && (n.sign.Unsigned? && n.digits != [] ==> n.digits[0] != PLUS && n.digits[0] != MINUS)
    && (n.behind != [] ==> n.behind[0] == CR)
  }

  function SignText(s: Sign): (r: seq<Byte>) {
    match s
    case Unsigned => []
    case Positive => [PLUS]
    case Negative => [MINUS]
  }

  function NumeralText(n: Numeral): (r: seq<Byte>) {
    SignText(n.sign) + n.digits + n.behind
  }

  /** A number with anything but digits behind its sign stands for -1. */
  function NumeralValue(n: Numeral): (r: int) {
    if !AllDigits(n.digits) then -1 else if n.sign.Negative? then 0 - Decimal(n.digits)
    else Decimal(n.digits)
  }

  lemma {:induction false} UpToCr(s: seq<Byte>, behind: seq<Byte>)
    requires CR !in s && (behind != [] ==> behind[0] == CR)
    ensures BeforeCr(s + behind) == s
    decreases |s|
  {
    if s == [] {
      assert s + behind == behind;
    } else {
      UpToCr(s[1..], behind);
      assert (s + behind)[1..] == s[1..] + behind && s[0] in s;
    }
  }

  lemma NumeralRead(n: Numeral)
    requires NumeralOk(n)
    ensures Number(NumeralText(n)) == NumeralValue(n)
  {
    hide BeforeCr, Decimal;
    var s := SignText(n.sign) + n.digits;
    assert CR !in SignText(n.sign);
    UpToCr(s, n.behind);
    if n.sign.Unsigned? {
      assert s == n.digits;
    } else {
      assert s[1..] == n.digits;
    }
  }

  lemma {:induction false} CrSplits(s: seq<Byte>)
    ensures var a := BeforeCr(s);
            |a| <= |s| && s == a + s[|a|..] && CR !in a && (s[|a|..] != [] ==> s[|a|..][0] == CR)
    decreases |s|
  {
    if s == [] || s[0] == CR {
    } else {
      CrSplits(s[1..]);
      var a := BeforeCr(s[1..]);
      assert s[1..][|a|..] == s[|a| + 1..];
      assert s == [s[0]] + s[1..];
    }
  }

  /** Every line is a number in this sense. */
  lemma NumeralOf(line: seq<Byte>) returns (n: Numeral)
    ensures NumeralOk(n) && NumeralText(n) == line
  {
    hide BeforeCr;
    var a := BeforeCr(line);
    CrSplits(line);
    var sign := if a != [] && a[0] == PLUS then Positive else if a != [] && a[0] == MINUS then Negative else Unsigned;
    n := Numeral(sign, if sign.Unsigned? then a else a[1..], line[|a|..]);
    assert SignText(sign) + n.digits == a;
  }

  // ------------------------------------------------------------------------- lines

  /** A line does not hold the mark that ends it. */
  predicate LineOk(line: seq<Byte>) {
    forall i :: 0 <= i < |line| - 1 ==> line[i] != CR || line[i + 1] != LF
  }

  lemma {:induction false} LineEnds(line: seq<Byte>, rest: seq<Byte>)
    requires LineOk(line)
    ensures var s := line + CRLF + rest; Newline(s) == Some(|line|) && s[..|line|] == line && s[|line| + 2..] == rest
    decreases |line|
  {
    var s := line + CRLF + rest;
    if line == [] {
      assert s[0] == CR && s[1] == LF;
    } else {
      forall i | 0 <= i < |line[1..]| - 1
        ensures line[1..][i] != CR || line[1..][i + 1] != LF
      {
        assert line[1..][i] == line[i + 1] && line[1..][i + 1] == line[i + 2];
      }
      LineEnds(line[1..], rest);
      assert s[1..] == line[1..] + CRLF + rest;
      assert |line| > 1 ==> s[0] == line[0] && s[1] == line[1];
      assert |line| == 1 ==> s[1] == CR;
    }
  }

  lemma {:induction false} LineFound(s: seq<Byte>)
    requires Newline(s).Some?
    ensures var k := Newline(s).value; LineOk(s[..k]) && s == s[..k] + CRLF + s[k + 2..]
    decreases |s|
  {
    if s[0] == CR && s[1] == LF {
    } else {
      LineFound(s[1..]);
      var k := Newline(s).value;
      forall i | 0 <= i < k - 1
        ensures s[..k][i] != CR || s[..k][i + 1] != LF
      {
        if i > 0 {
          assert s[1..][..k - 1][i - 1] == s[i] && s[1..][..k - 1][i] == s[i + 1];
        }
      }
      assert s[k..k + 2] == CRLF;
    }
  }

  // ----------------------------------------------------------------------- replies

  /** A reply on the wire. */
  datatype Wire =
    | StatusLine(line: seq<Byte>)
    | ErrorLine(line: seq<Byte>)
    | IntegerLine(number: Numeral)
    | BulkString(number: Numeral, bytes: seq<Byte>, end: seq<Byte>)
    | NilString(number: Numeral)
    | NilArray(number: Numeral)
    | ArrayOf(number: Numeral, items: seq<Wire>)

  predicate HeadOk(n: Numeral) {
    NumeralOk(n) && LineOk(NumeralText(n))
  }

  /** At this depth. The two bytes behind a string are skipped, whatever they are; an array of
      fewer elements than none has none. */
  predicate WireOk(w: Wire, depth: nat)
    decreases w
  {
    match w
    case StatusLine(line) => LineOk(line)
    case ErrorLine(line) => LineOk(line)
    case IntegerLine(n) => HeadOk(n)
    case BulkString(n, bytes, end) => HeadOk(n) && NumeralValue(n) == |bytes| && |end| == 2
    case NilString(n) => HeadOk(n) && NumeralValue(n) < 0
    case NilArray(n) => depth < MAX_DEPTH && HeadOk(n) && NumeralValue(n) == -1
    case ArrayOf(n, items) =>
      && depth < MAX_DEPTH && HeadOk(n) && NumeralValue(n) != -1
      && |items| == (if NumeralValue(n) < 0 then 0 else NumeralValue(n))
      && WiresOk(items, depth + 1)
  }

  predicate WiresOk(ws: seq<Wire>, depth: nat)
    decreases ws
  {
    forall i :: 0 <= i < |ws| ==> WireOk(ws[i], depth)
  }

  function TypeByte(w: Wire): (r: Byte) {
    match w
    case StatusLine(_) => PLUS
    case ErrorLine(_) => MINUS
    case IntegerLine(_) => COLON
    case BulkString(_, _, _) => DOLLAR
    case NilString(_) => DOLLAR
    case NilArray(_) => STAR
    case ArrayOf(_, _) => STAR
  }

  function HeadLine(w: Wire): (r: seq<Byte>) {
    if w.StatusLine? || w.ErrorLine? then w.line else NumeralText(w.number)
  }

  function Text(w: Wire): (r: seq<Byte>)
    decreases w, 1
  {
    [TypeByte(w)] + (HeadLine(w) + CRLF + Payload(w))
  }

  function Payload(w: Wire): (r: seq<Byte>)
    decreases w, 0
  {
    match w
    case BulkString(_, bytes, end) => bytes + end
    case ArrayOf(_, items) => Texts(items)
    case _ => []
  }

  function Texts(ws: seq<Wire>): (r: seq<Byte>)
    decreases ws, 2
  {
    if ws == [] then [] else Text(ws[0]) + Texts(ws[1..])
  }

  /** The reply that is meant. */
  function Value(w: Wire): (r: Reply)
    decreases w
  {
    match w
    case StatusLine(line) => Status(line)
    case ErrorLine(line) => Failure(line)
    case IntegerLine(n) => Integer(NumeralValue(n))
    case BulkString(_, bytes, _) => Str(bytes)
    case NilString(_) => Nil
    case NilArray(_) => Nil
    case ArrayOf(_, items) => Array(Values(items))
  }

  function Values(ws: seq<Wire>): (r: seq<Reply>)
    ensures |r| == |ws|
    decreases ws
  {
    if ws == [] then [] else [Value(ws[0])] + Values(ws[1..])
  }

  // ------------------------------------------------------------- a reply is read

  /** The type byte and the first line of a reply, and what follows. */
  lemma HeadRead(w: Wire, depth: nat, rest: seq<Byte>)
    requires WireOk(w, depth)
    ensures var s := HeadLine(w) + CRLF + (Payload(w) + rest);
            && KindOf(TypeByte(w)).Some?
            && Item(Text(w) + rest, depth) == ItemOf(KindOf(TypeByte(w)).value, s, depth)
            && Newline(s) == Some(|HeadLine(w)|) && s[..|HeadLine(w)|] == HeadLine(w)
            && s[|HeadLine(w)| + 2..] == Payload(w) + rest
            && (!w.StatusLine? && !w.ErrorLine? ==> Number(HeadLine(w)) == NumeralValue(w.number))
  {
    hide Newline, Number, LineOk, NumeralText, NumeralValue, NumeralOk, Payload, ItemOf, WiresOk;
    var s := HeadLine(w) + CRLF + (Payload(w) + rest);
    assert LineOk(HeadLine(w));
    LineEnds(HeadLine(w), Payload(w) + rest);
    if !w.StatusLine? && !w.ErrorLine? {
      NumeralRead(w.number);
    }
    var t := Text(w) + rest;
    assert t[0] == TypeByte(w) && t[1..] == s;
  }

  /** The kinds of reply with one line or one string. */
  lemma FlatRead(w: Wire, depth: nat, rest: seq<Byte>)
    requires WireOk(w, depth) && !w.ArrayOf?
    ensures Item(Text(w) + rest, depth) == Done(Value(w), rest)
  {
    hide Newline, Number, LineOk, NumeralText, NumeralValue, NumeralOk, Text, Item;
    HeadRead(w, depth, rest);
    if w.BulkString? {
      var tail := Payload(w) + rest;
      assert tail[..|w.bytes|] == w.bytes && tail[|w.bytes| + 2..] == rest;
    } else {
      assert Payload(w) + rest == rest;
    }
  }

  lemma ArrayRead(w: Wire, depth: nat, rest: seq<Byte>)
    requires w.ArrayOf? && WireOk(w, depth)
    requires Elements(|w.items|, Texts(w.items) + rest, depth + 1, []) == Done(Array(Values(w.items)), rest)
    ensures Item(Text(w) + rest, depth) == Done(Value(w), rest)
  {
    hide Newline, Number, LineOk, NumeralText, NumeralValue, NumeralOk, Elements, Texts, Values, WiresOk, Text, Item;
    HeadRead(w, depth, rest);
    if w.items == [] {
      NoWires(rest);
    }
  }

  lemma {:induction false} WireRead(w: Wire, depth: nat, rest: seq<Byte>)
    requires WireOk(w, depth)
    ensures Item(Text(w) + rest, depth) == Done(Value(w), rest)
    decreases w
  {
    if w.ArrayOf? {
      hide Elements, Texts, Values, WiresOk, Text, Item;
      WiresRead(w.items, depth + 1, rest, []);
      assert [] + Values(w.items) == Values(w.items);
      ArrayRead(w, depth, rest);
    } else {
      FlatRead(w, depth, rest);
    }
  }

  lemma NoWires(rest: seq<Byte>)
    ensures Texts([]) + rest == rest && Values([]) == []
  {
  }

  lemma {:induction false} WiresRead(ws: seq<Wire>, depth: nat, rest: seq<Byte>, got: seq<Reply>)
    requires WiresOk(ws, depth)
    ensures Elements(|ws|, Texts(ws) + rest, depth, got) == Done(Array(got + Values(ws)), rest)
    decreases ws
  {
    hide Item, WireOk, Text, Value;
    if ws == [] {
      assert Texts(ws) + rest == rest && got + Values(ws) == got;
    } else {
      var s := Texts(ws[1..]) + rest;
      WireRead(ws[0], depth, s);
      WiresRead(ws[1..], depth, rest, got + [Value(ws[0])]);
      WiresJoin(ws, rest, got);
    }
  }

  lemma WiresJoin(ws: seq<Wire>, rest: seq<Byte>, got: seq<Reply>)
    requires ws != []
    ensures Texts(ws) + rest == Text(ws[0]) + (Texts(ws[1..]) + rest)
    ensures got + Values(ws) == got + [Value(ws[0])] + Values(ws[1..])
  {
    hide Text, Value;
    Grouped(Text(ws[0]), Texts(ws[1..]), rest);
    Grouped(got, [Value(ws[0])], Values(ws[1..]));
  }

  // ------------------------------------------------------------- what is read is a reply

  /** The type byte and the first line of what is read. */
  lemma HeadOf(s: seq<Byte>, depth: nat) returns (line: seq<Byte>, tail: seq<Byte>, n: Numeral)
    requires Item(s, depth).Done?
    ensures KindOf(s[0]).Some? && LineOk(line) && s == [s[0]] + (line + CRLF + tail) && |tail| < |s|
    ensures HeadOk(n) && NumeralText(n) == line && NumeralValue(n) == Number(line)
    ensures var t := s[1..];
            Newline(t).Some? && t[..Newline(t).value] == line && t[Newline(t).value + 2..] == tail
  {
    var t := s[1..];
    hide Number, NumeralText, NumeralOk, NumeralValue;
    LineFound(t);
    var k := Newline(t).value;
    line, tail := t[..k], t[k + 2..];
    assert s == [s[0]] + t;
    n := NumeralOf(line);
    NumeralRead(n);
  }

  lemma {:induction false} WireOf(s: seq<Byte>, depth: nat) returns (w: Wire)
    requires Item(s, depth).Done? && depth <= MAX_DEPTH
    ensures WireOk(w, depth) && s == Text(w) + Item(s, depth).rest && Item(s, depth).reply == Value(w)
    decreases |s|, 0
  {
    hide LineOk, NumeralOk, NumeralText, NumeralValue, Newline, Number, HeadOk, WireOk, Text, Value, Elements, WiresOk;
    var line, tail, n := HeadOf(s, depth);
    var v := Number(line);
    if KindOf(s[0]).value == ArrayKind && v > 0 {
      assert Item(s, depth) == Elements(v, tail, depth + 1, []) && depth != MAX_DEPTH;
      var items := WiresOf(v, tail, depth + 1, []);
      assert [] + Values(items) == Values(items);
      w := ArrayOf(n, items);
      ItemsAssembled(w, depth);
      Assembled(s, w, line, tail, Item(s, depth).rest);
    } else {
      w := FlatOf(s, depth, line, tail, n);
      Assembled(s, w, line, tail, Item(s, depth).rest);
    }
  }

  lemma ItemsAssembled(w: Wire, depth: nat)
    requires w.ArrayOf? && depth < MAX_DEPTH && HeadOk(w.number) && NumeralValue(w.number) == |w.items| > 0
    requires WiresOk(w.items, depth + 1)
    ensures WireOk(w, depth) && Value(w) == Array(Values(w.items)) && Payload(w) == Texts(w.items)
    ensures TypeByte(w) == STAR && HeadLine(w) == NumeralText(w.number)
  {
    hide HeadOk, NumeralValue, WiresOk, Values, Texts;
  }

  lemma FlatOf(s: seq<Byte>, depth: nat, line: seq<Byte>, tail: seq<Byte>, n: Numeral) returns (w: Wire)
    requires Item(s, depth).Done? && LineOk(line) && HeadOk(n)
    requires NumeralText(n) == line && NumeralValue(n) == Number(line)
    requires var t := s[1..];
             Newline(t).Some? && t[..Newline(t).value] == line && t[Newline(t).value + 2..] == tail
    requires KindOf(s[0]) != Some(ArrayKind) || Number(line) <= 0
    requires depth <= MAX_DEPTH
    ensures WireOk(w, depth) && Value(w) == Item(s, depth).reply
    ensures s[0] == TypeByte(w) && line == HeadLine(w) && tail == Payload(w) + Item(s, depth).rest
  {
    hide LineOk, HeadOk, NumeralText, NumeralValue, Newline, Number, Elements;
    var v := Number(line);
    match KindOf(s[0]).value
    case StatusKind =>
      w := StatusLine(line);
    case FailureKind =>
      w := ErrorLine(line);
    case IntegerKind =>
      w := IntegerLine(n);
    case StrKind =>
      w := if v < 0 then NilString(n) else BulkString(n, tail[..v], tail[v..v + 2]);
    case ArrayKind =>
      w := if v == -1 then NilArray(n) else ArrayOf(n, []);
  }

  lemma Assembled(s: seq<Byte>, w: Wire, line: seq<Byte>, tail: seq<Byte>, rest: seq<Byte>)
    requires s != [] && s == [s[0]] + (line + CRLF + tail)
    requires s[0] == TypeByte(w) && line == HeadLine(w) && tail == Payload(w) + rest
    ensures s == Text(w) + rest
  {
    hide TypeByte, HeadLine, Payload;
  }

  lemma {:induction false} WiresOf(n: nat, s: seq<Byte>, depth: nat, got: seq<Reply>) returns (ws: seq<Wire>)
    requires Elements(n, s, depth, got).Done? && depth <= MAX_DEPTH
    ensures |ws| == n && WiresOk(ws, depth) && s == Texts(ws) + Elements(n, s, depth, got).rest
    ensures Elements(n, s, depth, got).reply == Array(got + Values(ws))
    decreases |s|, 1
  {
    hide Item, WireOk, Text, Value;
    if n == 0 {
      ws := [];
      assert got + Values(ws) == got;
    } else {
      var w := WireOf(s, depth);
      var p := Item(s, depth);
      var vs := WiresOf(n - 1, p.rest, depth, got + [p.reply]);
      ws := [w] + vs;
      assert ws[1..] == vs;
      assert got + [p.reply] + Values(vs) == got + Values(ws);
    }
  }

  /** A reply is read exactly from the texts of the grammar. */
  lemma ReadsExactly(s: seq<Byte>, depth: nat, v: Reply, rest: seq<Byte>)
    requires depth <= MAX_DEPTH
    ensures Item(s, depth) == Done(v, rest) <==>
            exists w: Wire :: WireOk(w, depth) && s == Text(w) + rest && v == Value(w)
  {
    hide Item, WireOk, Text, Value;
    if Item(s, depth) == Done(v, rest) {
      var w := WireOf(s, depth);
      assert WireOk(w, depth) && s == Text(w) + rest && v == Value(w);
    }
    forall w: Wire | WireOk(w, depth) && s == Text(w) + rest && v == Value(w)
      ensures Item(s, depth) == Done(v, rest)
    {
      WireRead(w, depth, rest);
    }
  }

  // ---------------------------------------------------------------------- refusals

  /** An array of which some elements have come. */
  datatype Level = Level(number: Numeral, items: seq<Wire>)

  predicate LevelOk(l: Level, depth: nat) {
    depth < MAX_DEPTH && HeadOk(l.number) && |l.items| < NumeralValue(l.number) && WiresOk(l.items, depth + 1)
  }

  predicate OpenOk(ls: seq<Level>, depth: nat)
    decreases |ls|
  {
    ls == [] || (LevelOk(ls[0], depth) && OpenOk(ls[1..], depth + 1))
  }

  /** Arrays begun, each inside the one before. */
  function OpenText(ls: seq<Level>): (r: seq<Byte>) {
    if ls == [] then []
    else [STAR] + (NumeralText(ls[0].number) + CRLF + (Texts(ls[0].items) + OpenText(ls[1..])))
  }

  lemma LevelRead(l: Level, depth: nat, s: seq<Byte>)
    requires LevelOk(l, depth)
    ensures Item([STAR] + (NumeralText(l.number) + CRLF + s), depth)
            == Elements(NumeralValue(l.number), s, depth + 1, [])
  {
    hide Newline, Number, LineOk, NumeralText, NumeralValue, NumeralOk, Elements, WiresOk;
    var t := NumeralText(l.number) + CRLF + s;
    LineEnds(NumeralText(l.number), s);
    NumeralRead(l.number);
    assert ([STAR] + t)[1..] == t;
  }

  /** Elements, and then something that is none. */
  lemma {:induction false} StuckBehind(ws: seq<Wire>, n: nat, s: seq<Byte>, depth: nat, got: seq<Reply>)
    requires WiresOk(ws, depth) && |ws| < n && !Item(s, depth).Done?
    ensures Elements(n, Texts(ws) + s, depth, got) == Item(s, depth)
    decreases |ws|
  {
    hide Item, WireOk, Text, Value;
    if ws == [] {
      assert Texts(ws) + s == s;
    } else {
      var t := Texts(ws[1..]) + s;
      assert Texts(ws) + s == Text(ws[0]) + t;
      WireRead(ws[0], depth, t);
      StuckBehind(ws[1..], n - 1, s, depth, got + [Value(ws[0])]);
    }
  }

  /** Inside open arrays nothing else is read than outside, but deeper. */
  lemma {:induction false} OpenRead(ls: seq<Level>, depth: nat, s: seq<Byte>)
    requires OpenOk(ls, depth) && !Item(s, depth + |ls|).Done?
    ensures Item(OpenText(ls) + s, depth) == Item(s, depth + |ls|)
    decreases |ls|
  {
    hide Item, Elements, NumeralText, NumeralValue, WiresOk, Texts, HeadOk;
    if ls == [] {
      assert OpenText(ls) + s == s;
    } else {
      var l := ls[0];
      var t := OpenText(ls[1..]) + s;
      OpenRead(ls[1..], depth + 1, s);
      StuckBehind(l.items, NumeralValue(l.number), t, depth + 1, []);
      LevelRead(l, depth, Texts(l.items) + t);
      LevelJoin(NumeralText(l.number), Texts(l.items), OpenText(ls[1..]), s);
    }
  }

  lemma LevelJoin(line: seq<Byte>, a: seq<Byte>, b: seq<Byte>, s: seq<Byte>)
    ensures [STAR] + (line + CRLF + (a + b)) + s == [STAR] + (line + CRLF + (a + (b + s)))
  {
    assert a + b + s == a + (b + s);
    assert line + CRLF + (a + b) + s == line + CRLF + (a + b + s);
  }

  /** What is no reply at this depth: an unknown type, or an array inside 8 others. */
  predicate BadHead(s: seq<Byte>, depth: nat, e: Problem) {
    && s != []
    && ((s[0] !in [PLUS, MINUS, COLON, DOLLAR, STAR] && e == BadType(s[0]))
        || (s[0] == STAR && depth == MAX_DEPTH && e == TooDeep))
  }

  lemma {:induction false} BadOf(s: seq<Byte>, depth: nat) returns (ls: seq<Level>, t: seq<Byte>)
    requires Item(s, depth).Bad? && depth <= MAX_DEPTH
    ensures OpenOk(ls, depth) && s == OpenText(ls) + t && BadHead(t, depth + |ls|, Item(s, depth).problem)
    decreases |s|, 0
  {
    hide Item, NumeralText, NumeralValue, Number, HeadOk, Elements, WiresOk, Texts, BadHead, OpenOk, OpenText;
    SomeByte(s, depth);
    if KindOf(s[0]).None? || depth == MAX_DEPTH {
      ls, t := [], s;
      NotEven(s, depth);
    } else {
      var line, tail, n := LevelOf(s, depth);
      var ws, ms;
      ws, ms, t := BadElement(Number(line), tail, depth + 1, []);
      ls := [Level(n, ws)] + ms;
      LevelAdded(s, Level(n, ws), ms, tail, t, depth);
    }
  }

  lemma SomeByte(s: seq<Byte>, depth: nat)
    requires !Item(s, depth).More?
    ensures s != []
  {
    hide ItemOf;
  }

  /** Bad from its first byte on. */
  lemma NotEven(s: seq<Byte>, depth: nat)
    requires Item(s, depth).Bad? && s != [] && (KindOf(s[0]).None? || depth == MAX_DEPTH)
    ensures BadHead(s, depth, Item(s, depth).problem) && OpenOk([], depth) && OpenText([]) + s == s
  {
    hide Elements, Newline, Number;
  }

  lemma LevelAdded(s: seq<Byte>, l: Level, ms: seq<Level>, tail: seq<Byte>, t: seq<Byte>, depth: nat)
    requires LevelOk(l, depth) && OpenOk(ms, depth + 1)
    requires s == [STAR] + (NumeralText(l.number) + CRLF + tail) && tail == Texts(l.items) + (OpenText(ms) + t)
    ensures OpenOk([l] + ms, depth) && s == OpenText([l] + ms) + t
  {
    var ls := [l] + ms;
    assert ls[1..] == ms;
    assert OpenText(ls) == [STAR] + (NumeralText(l.number) + CRLF + (Texts(l.items) + OpenText(ms)));
    hide OpenText, NumeralText, Texts, LevelOk, OpenOk;
    LevelJoin(NumeralText(l.number), Texts(l.items), OpenText(ms), t);
  }

  /** Only an array can hold something bad. */
  lemma LevelOf(s: seq<Byte>, depth: nat) returns (line: seq<Byte>, tail: seq<Byte>, n: Numeral)
    requires Item(s, depth).Bad? && depth < MAX_DEPTH && KindOf(s[0]).Some?
    ensures s == [STAR] + (line + CRLF + tail) && |tail| < |s| && HeadOk(n) && NumeralText(n) == line
    ensures NumeralValue(n) == Number(line) > 0 && Item(s, depth) == Elements(Number(line), tail, depth + 1, [])
  {
    hide Number, NumeralText, NumeralOk, NumeralValue, Elements;
    var t := s[1..];
    LineFound(t);
    var k := Newline(t).value;
    line, tail := t[..k], t[k + 2..];
    assert s == [s[0]] + t;
    n := NumeralOf(line);
    NumeralRead(n);
  }

  lemma {:induction false} BadElement(n: nat, s: seq<Byte>, depth: nat, got: seq<Reply>)
    returns (ws: seq<Wire>, ls: seq<Level>, t: seq<Byte>)
    requires Elements(n, s, depth, got).Bad? && depth <= MAX_DEPTH
    ensures |ws| < n && WiresOk(ws, depth) && OpenOk(ls, depth) && s == Texts(ws) + (OpenText(ls) + t)
    ensures BadHead(t, depth + |ls|, Elements(n, s, depth, got).problem)
    decreases |s|, 1
  {
    hide Item, WireOk, Text, Value, OpenOk, OpenText, BadHead;
    if Item(s, depth).Bad? {
      ws := [];
      ls, t := BadOf(s, depth);
      assert Texts(ws) + (OpenText(ls) + t) == s;
    } else {
      var w := WireOf(s, depth);
      var p := Item(s, depth);
      var vs;
      vs, ls, t := BadElement(n - 1, p.rest, depth, got + [p.reply]);
      ws := [w] + vs;
      assert ws[1..] == vs;
      assert s == Text(w) + (Texts(vs) + (OpenText(ls) + t));
    }
  }

  /** A reply is refused exactly for an unknown type byte, or an array inside 8 others, behind
      whatever complete elements. */
  lemma RefusesExactly(s: seq<Byte>, e: Problem)
    ensures Item(s, 0) == Bad(e) <==>
            exists ls: seq<Level>, t: seq<Byte> :: OpenOk(ls, 0) && s == OpenText(ls) + t && BadHead(t, |ls|, e)
  {
    hide OpenOk, OpenText;
    if Item(s, 0) == Bad(e) {
      hide Item, BadHead;
      var ls, t := BadOf(s, 0);
      assert OpenOk(ls, 0) && s == OpenText(ls) + t && BadHead(t, |ls|, e);
    }
    forall ls: seq<Level>, t: seq<Byte> | OpenOk(ls, 0) && s == OpenText(ls) + t && BadHead(t, |ls|, e)
      ensures Item(s, 0) == Bad(e)
    {
      BadIsBad(t, |ls|, e);
      OpenRead(ls, 0, t);
    }
  }

  lemma BadIsBad(t: seq<Byte>, depth: nat, e: Problem)
    requires BadHead(t, depth, e)
    ensures Item(t, depth) == Bad(e)
  {
  }

  /** More input changes neither a reply that was read nor a refusal. */
  lemma MoreInput(s: seq<Byte>, more: seq<Byte>)
    ensures match Item(s, 0)
            case More => true
            case Done(v, rest) => Item(s + more, 0) == Done(v, rest + more)
            case Bad(e) => Item(s + more, 0) == Bad(e)
  {
    hide Item;
    match Item(s, 0)
    case More =>
    case Done(_, _) => MoreDone(s, more);
    case Bad(_) => MoreBad(s, more);
  }

  lemma MoreDone(s: seq<Byte>, more: seq<Byte>)
    requires Item(s, 0).Done?
    ensures Item(s + more, 0) == Done(Item(s, 0).reply, Item(s, 0).rest + more)
  {
    hide Item, WireOk, Text, Value;
    var w := WireOf(s, 0);
    var rest := Item(s, 0).rest;
    WireRead(w, 0, rest + more);
    Grouped(Text(w), rest, more);
  }

  lemma MoreBad(s: seq<Byte>, more: seq<Byte>)
    requires Item(s, 0).Bad?
    ensures Item(s + more, 0) == Item(s, 0)
  {
    hide Item, OpenOk, OpenText, BadHead;
    var ls, t := BadOf(s, 0);
    StillBad(t, more, |ls|, Item(s, 0).problem);
    OpenRead(ls, 0, t + more);
    Grouped(OpenText(ls), t, more);
  }

  lemma StillBad(t: seq<Byte>, more: seq<Byte>, depth: nat, e: Problem)
    requires BadHead(t, depth, e)
    ensures Item(t + more, depth) == Bad(e)
  {
    assert (t + more)[0] == t[0];
    BadIsBad(t + more, depth, e);
  }

  /** Of a reply that has not come to its end nothing is read, and nothing is refused. */
  lemma CutShort(w: Wire, s: seq<Byte>, more: seq<Byte>)
    requires WireOk(w, 0) && Text(w) == s + more && more != []
    ensures Item(s, 0) == More
  {
    hide Item, WireOk, Text, Value;
    MoreInput(s, more);
    WireRead(w, 0, []);
    assert Text(w) + [] == s + more;
  }

  // ----------------------------------------------------------------------- streams

  /** Replies one behind the other, and then what is no whole reply. */
  lemma {:induction false} StreamRead(ws: seq<Wire>, t: seq<Byte>)
    requires WiresOk(ws, 0) && !Item(t, 0).Done?
    ensures Stream(Texts(ws) + t) ==
            Outcome(Values(ws), if Item(t, 0).Bad? then Some(Item(t, 0).problem) else None)
    decreases |ws|
  {
    hide Item, WireOk, Text, Value;
    if ws == [] {
      assert Texts(ws) + t == t;
    } else {
      var s := Texts(ws[1..]) + t;
      assert Texts(ws) + t == Text(ws[0]) + s;
      WireRead(ws[0], 0, s);
      StreamRead(ws[1..], t);
    }
  }

  /** Every stream is of this form. */
  lemma {:induction false} StreamOf(s: seq<Byte>) returns (ws: seq<Wire>, t: seq<Byte>)
    ensures WiresOk(ws, 0) && s == Texts(ws) + t && !Item(t, 0).Done?
    decreases |s|
  {
    hide Item, WireOk, Text, Value;
    if Item(s, 0).Done? {
      var w := WireOf(s, 0);
      var vs;
      vs, t := StreamOf(Item(s, 0).rest);
      ws := [w] + vs;
      assert ws[1..] == vs;
    } else {
      ws, t := [], s;
      assert Texts(ws) + t == t;
    }
  }

  // ---------------------------------------------------------- replies as a server sends them

  /** The plain numeral of a number. */
  function Plain(v: int): (r: Numeral) {
    if v < 0 then Numeral(Negative, Digits(-v), []) else Numeral(Unsigned, Digits(v), [])
  }

  function Sent(r: Reply): (w: Wire)
    decreases r
  {
    match r
    case Status(line) => StatusLine(line)
    case Failure(line) => ErrorLine(line)
    case Integer(v) => IntegerLine(Plain(v))
    case Str(bytes) => BulkString(Plain(|bytes|), bytes, CRLF)
    case Nil => NilString(Plain(-1))
    case Array(items) => ArrayOf(Plain(|items|), AllSent(items))
  }

  function AllSent(rs: seq<Reply>): (ws: seq<Wire>)
    ensures |ws| == |rs|
    decreases rs
  {
    if rs == [] then [] else [Sent(rs[0])] + AllSent(rs[1..])
  }

  predicate ReplyOk(r: Reply, depth: nat)
    decreases r
  {
    match r
    case Status(line) => LineOk(line)
    case Failure(line) => LineOk(line)
    case Array(items) => depth < MAX_DEPTH && RepliesOk(items, depth + 1)
    case _ => true
  }

  predicate RepliesOk(rs: seq<Reply>, depth: nat)
    decreases rs
  {
    forall i :: 0 <= i < |rs| ==> ReplyOk(rs[i], depth)
  }

  lemma PlainIs(v: int)
    ensures HeadOk(Plain(v)) && NumeralValue(Plain(v)) == v
  {
    hide Digits, Decimal;
    var n := if v < 0 then -v else v;
    DigitsRead(n);
    var d := Digits(n);
    assert forall i :: 0 <= i < |d| ==> IsDigit(d[i]);
    var t := NumeralText(Plain(v));
    assert forall i :: 0 <= i < |t| ==> t[i] != CR;
  }

  lemma {:induction false} SentIs(r: Reply, depth: nat)
    requires ReplyOk(r, depth)
    ensures WireOk(Sent(r), depth) && Value(Sent(r)) == r
    decreases r
  {
    hide LineOk, HeadOk, NumeralValue, Plain;
    match r
    case Integer(v) => PlainIs(v);
    case Str(bytes) => PlainIs(|bytes|);
    case Nil => PlainIs(-1);
    case Array(items) =>
      PlainIs(|items|);
      AllSentIs(items, depth + 1);
    case _ =>
  }

  lemma {:induction false} AllSentIs(rs: seq<Reply>, depth: nat)
    requires RepliesOk(rs, depth)
    ensures WiresOk(AllSent(rs), depth) && Values(AllSent(rs)) == rs
    decreases rs
  {
    hide Sent, Value, WireOk;
    if rs == [] {
    } else {
      SentIs(rs[0], depth);
      AllSentIs(rs[1..], depth);
      var ws := AllSent(rs);
      assert ws[1..] == AllSent(rs[1..]);
    }
  }

  /** Replies whose lines hold no line end and whose arrays are nested at most 8 deep come back
      from what a server sends for them. */
  lemma RepliesComeBack(rs: seq<Reply>)
    requires RepliesOk(rs, 0)
    ensures Stream(Texts(AllSent(rs))) == Outcome(rs, None)
  {
    hide Stream, Texts, AllSent, WiresOk, RepliesOk;
    AllSentIs(rs, 0);
    EmptyItem();
    StreamRead(AllSent(rs), []);
    assert Texts(AllSent(rs)) + [] == Texts(AllSent(rs));
  }

  /** The replies of a server, read in whatever pieces, come back one by one. */
  method ReadReplies(ghost rs: seq<Reply>, chunks: seq<seq<Byte>>)
    returns (replies: seq<Reply>, problem: Option<Problem>)
    requires RepliesOk(rs, 0) && Joined(chunks) == Texts(AllSent(rs))
    ensures replies == rs && problem.None?
  {
    hide Stream, Joined, Texts, AllSent, RepliesOk;
    replies, problem := ReadChunks(chunks);
    RepliesComeBack(rs);
  }
}
