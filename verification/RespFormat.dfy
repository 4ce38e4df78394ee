/** hiredis.c and sds.c: commands as the protocol has them, and the reader that gets
    them back. */
module RespFormat {
  import opened Bits
  import opened RespSpec
  import opened RespReader

  // ------------------------------------------------------------------- the format

  /** A number in decimal. */
  function Digits(n: nat): (r: seq<Byte>)
    ensures |r| >= 1
  {
    if n < 10 then [ZERO + n] else Digits(n / 10) + [ZERO + n % 10]
  }

  const CRLF: seq<Byte> := [CR, LF]

  function Bulk(arg: seq<Byte>): (r: seq<Byte>) {
    [DOLLAR] + Digits(|arg|) + CRLF + arg + CRLF
  }

  function Bulks(args: seq<seq<Byte>>): (r: seq<Byte>) {
    if args == [] then [] else Bulk(args[0]) + Bulks(args[1..])
  }

  function Command(args: seq<seq<Byte>>): (r: seq<Byte>) {
    [STAR] + Digits(|args|) + CRLF + Bulks(args)
  }

  lemma {:induction false} BulksNext(args: seq<seq<Byte>>, j: nat)
    requires j < |args|
    ensures Bulks(args[..j + 1]) == Bulks(args[..j]) + Bulk(args[j])
  {
    if j == 0 {
      assert args[..1] == [args[0]];
      assert args[..0] == [];
      assert Bulks([args[0]][1..]) == [];
    } else {
      BulksNext(args[1..], j - 1);
      assert args[..j + 1][1..] == args[1..][..j] && args[..j][1..] == args[1..][..j - 1];
    }
  }

  // -------------------------------------------------------------------- its length

  lemma DigitsFour(v: nat)
    requires v >= 10000
    ensures |Digits(v)| == |Digits(v / 10000)| + 4
  {
    var a, b, c := v / 10, v / 100, v / 1000;
    assert a / 10 == b && b / 10 == c && c / 10 == v / 10000;
    assert |Digits(v)| == |Digits(a)| + 1;
    assert |Digits(a)| == |Digits(b)| + 1;
    assert |Digits(b)| == |Digits(c)| + 1;
    assert |Digits(c)| == |Digits(v / 10000)| + 1;
  }

  lemma DigitsFew(v: nat)
    requires v < 10000
    ensures |Digits(v)| == if v < 10 then 1 else if v < 100 then 2 else if v < 1000 then 3 else 4
  {
    if v >= 1000 {
      assert |Digits(v)| == |Digits(v / 10)| + 1 == |Digits(v / 10 / 10)| + 2 == |Digits(v / 10 / 10 / 10)| + 3;
    } else if v >= 100 {
      assert |Digits(v)| == |Digits(v / 10)| + 1 == |Digits(v / 10 / 10)| + 2;
    }
  }

  /** countDigits, four digits at a time. */
  method CountDigits(v0: nat) returns (result: nat)
    ensures result == |Digits(v0)|
  {
    hide Digits;
    var v := v0;
    result := 1;
    while v >= 10000
      invariant |Digits(v0)| == |Digits(v)| + result - 1
      decreases v
    {
      DigitsFour(v);
      v := v / 10000;
      result := result + 4;
    }
    DigitsFew(v);
    if v < 10 {
      return result;
    }
    if v < 100 {
      return result + 1;
    }
    if v < 1000 {
      return result + 2;
    }
    return result + 3;
  }

  /** bulklen */
  method BulkLen(len: nat) returns (r: nat)
    ensures forall arg: seq<Byte> :: |arg| == len ==> r == |Bulk(arg)|
  {
    var d := CountDigits(len);
    return 1 + d + 2 + len + 2;
  }

  /** The number of bytes a command will have. */
  method TotalLength(args: seq<seq<Byte>>) returns (totlen: nat)
    ensures totlen == |Command(args)|
  {
    hide Digits, Bulk;
    var d := CountDigits(|args|);
    totlen := 1 + d + 2;
    var j := 0;
    while j < |args|
      invariant j <= |args| && totlen == 1 + |Digits(|args|)| + 2 + |Bulks(args[..j])|
    {
      var n := BulkLen(|args[j]|);
      BulksNext(args, j);
      totlen := totlen + n;
      j := j + 1;
    }
    assert args[..|args|] == args;
  }

  // ------------------------------------------------------------------ writing it

  /** Copies bytes into the buffer. */
  method Put(cmd: array<Byte>, pos: nat, bytes: seq<Byte>) returns (end: nat)
    requires pos + |bytes| <= cmd.Length
    modifies cmd
    ensures end == pos + |bytes| && cmd[..end] == old(cmd[..pos]) + bytes
  {
    var i := 0;
    while i < |bytes|
      invariant i <= |bytes| && cmd[..pos + i] == old(cmd[..pos]) + bytes[..i]
    {
      cmd[pos + i] := bytes[i];
      assert cmd[..pos + i + 1] == cmd[..pos + i] + [bytes[i]];
      i := i + 1;
    }
    end := pos + |bytes|;
  }

  /** One argument with its length. */
  method PutBulk(cmd: array<Byte>, pos: nat, arg: seq<Byte>) returns (end: nat)
    requires pos + |Bulk(arg)| <= cmd.Length
    modifies cmd
    ensures end == pos + |Bulk(arg)| && cmd[..end] == old(cmd[..pos]) + Bulk(arg)
  {
    hide Digits;
    end := Put(cmd, pos, [DOLLAR] + Digits(|arg|) + CRLF);
    end := Put(cmd, end, arg);
    end := Put(cmd, end, CRLF);
  }

  /** redisFormatCommandArgv: the buffer holds the command and a NUL, and nothing is
      written beyond. */
  method FormatCommandArgv(args: seq<seq<Byte>>) returns (cmd: array<Byte>, totlen: nat)
    ensures totlen == |Command(args)| && cmd.Length == totlen + 1 && cmd[..totlen] == Command(args) && cmd[totlen] == 0
  {
    hide Digits, Bulk, Bulks;
    totlen := TotalLength(args);
    cmd := new Byte[totlen + 1];
    var head := [STAR] + Digits(|args|) + CRLF;
    var pos := Put(cmd, 0, head);
    BulksSplit(args, 0);
    assert args[..0] == [] && args[0..] == args && cmd[..pos] == head;
    var j := 0;
    while j < |args|
      invariant j <= |args| && pos == |head| + |Bulks(args[..j])| <= totlen && cmd[..pos] == head + Bulks(args[..j])
    {
      BulksFit(args, j);
      pos := PutBulk(cmd, pos, args[j]);
      j := j + 1;
    }
    assert args[..|args|] == args;
    cmd[pos] := 0;
  }

  /** The part written and the next argument are within the whole. */
  lemma {:induction false} BulksFit(args: seq<seq<Byte>>, j: nat)
    requires j < |args|
    ensures Bulks(args[..j + 1]) == Bulks(args[..j]) + Bulk(args[j])
    ensures |Bulks(args[..j])| + |Bulk(args[j])| <= |Bulks(args)|
  {
    hide Bulk;
    BulksNext(args, j);
    BulksSplit(args, j + 1);
  }

  lemma {:induction false} BulksSplit(args: seq<seq<Byte>>, j: nat)
    requires j <= |args|
    ensures Bulks(args) == Bulks(args[..j]) + Bulks(args[j..])
    decreases |args| - j
  {
    hide Bulk;
    if j == |args| {
      assert args[..j] == args && args[j..] == [];
    } else {
      BulksSplit(args, j + 1);
      BulksNext(args, j);
      assert args[j..][1..] == args[j + 1..];
    }
  }

  // --------------------------------------------------------------- the sds formatter

  /** The digits, last one first. */
  function Reversed(n: nat): (r: seq<Byte>)
    ensures |r| == |Digits(n)| && forall i :: 0 <= i < |r| ==> r[i] == Digits(n)[|r| - 1 - i]
  {
    if n < 10 then [ZERO + n] else [ZERO + n % 10] + Reversed(n / 10)
  }

  /** sdsull2str: the digits are made from the last on, then turned round in place. */
  method Ull2Str(s: array<Byte>, v0: nat) returns (l: nat)
    requires s.Length > |Digits(v0)|
    modifies s
    ensures l == |Digits(v0)| && s[..l] == Digits(v0) && s[l] == 0
  {
    hide Digits, Reversed;
    var p, v := 0, v0;
    ReversedParts(v);
    s[p] := ZERO + v % 10;
    p, v := 1, v / 10;
    while v != 0
      invariant 1 <= p <= |Digits(v0)| && p + (if v == 0 then 0 else |Digits(v)|) == |Digits(v0)|
      invariant s[..p] + (if v == 0 then [] else Reversed(v)) == Reversed(v0)
      decreases v
    {
      ReversedParts(v);
      s[p] := ZERO + v % 10;
      assert s[..p + 1] == s[..p] + [s[p]];
      p, v := p + 1, v / 10;
    }
    l := p;
    s[p] := 0;
    ghost var r := Reversed(v0);
    ReversedDigits(v0);
    assert s[..l] == r;
    TurnRound(s, l);
  }

  lemma ReversedParts(v: nat)
    ensures Reversed(v) == [ZERO + v % 10] + if v / 10 == 0 then [] else Reversed(v / 10)
    ensures |Digits(v)| == 1 + if v / 10 == 0 then 0 else |Digits(v / 10)|
  {
  }

  lemma ReversedDigits(v: nat)
    ensures |Reversed(v)| == |Digits(v)|
            && forall i :: 0 <= i < |Digits(v)| ==> Reversed(v)[i] == Digits(v)[|Digits(v)| - 1 - i]
  {
  }

  /** Turns the first l bytes round. */
  method TurnRound(s: array<Byte>, l: nat)
    requires 1 <= l < s.Length
    modifies s
    ensures forall k :: 0 <= k < l ==> s[k] == old(s[l - 1 - k])
    ensures forall k :: l <= k < s.Length ==> s[k] == old(s[k])
  {
    var a, p := 0, l - 1;
    while a < p
      invariant 0 <= a <= l && p == l - 1 - a
      invariant forall k :: 0 <= k < a ==> s[k] == old(s[l - 1 - k]) && s[l - 1 - k] == old(s[k])
      invariant forall k :: a <= k <= p ==> s[k] == old(s[k])
      invariant forall k :: l <= k < s.Length ==> s[k] == old(s[k])
    {
      s[a], s[p] := s[p], s[a];
      a, p := a + 1, p - 1;
    }
  }

  /** sdscatfmt with one number. */
  method CatNumber(s: seq<Byte>, v: nat) returns (r: seq<Byte>)
    ensures r == s + Digits(v)
  {
    var d := CountDigits(v);
    var buf := new Byte[d + 1](_ => 0);
    var l := Ull2Str(buf, v);
    return s + buf[..l];
  }

  /** redisFormatSdsCommandArgv gives the same bytes. */
  method FormatSdsCommandArgv(args: seq<seq<Byte>>) returns (cmd: seq<Byte>, totlen: nat)
    ensures cmd == Command(args) && totlen == |cmd|
  {
    hide Digits;
    totlen := TotalLength(args);
    cmd := CatNumber([STAR], |args|);
    cmd := cmd + CRLF;
    ghost var head := cmd;
    assert args[..0] == [];
    var j := 0;
    while j < |args|
      invariant j <= |args| && cmd == head + Bulks(args[..j])
    {
      BulksFit(args, j);
      ghost var was := cmd;
      cmd := CatNumber(cmd + [DOLLAR], |args[j]|);
      cmd := cmd + CRLF;
      cmd := cmd + args[j];
      cmd := cmd + CRLF;
      assert cmd == was + Bulk(args[j]);
      j := j + 1;
    }
    assert args[..|args|] == args;
  }

  // ------------------------------------------------------------------- reading it back

  lemma {:induction false} DigitsRead(n: nat)
    ensures AllDigits(Digits(n)) && Decimal(Digits(n)) == n
  {
    if n < 10 {
      assert Decimal([ZERO + n][..0]) == 0;
    } else {
      DigitsRead(n / 10);
      var s := Digits(n);
      assert s[..|s| - 1] == Digits(n / 10) && s[|s| - 1] == ZERO + n % 10;
    }
  }

  lemma {:induction false} NoCr(s: seq<Byte>)
    requires forall i :: 0 <= i < |s| ==> s[i] != CR
    ensures BeforeCr(s) == s
  {
    if s == [] {
    } else {
      NoCr(s[1..]);
      assert [s[0]] + s[1..] == s;
    }
  }

  lemma NumberOfDigits(n: nat)
    ensures Number(Digits(n)) == n
  {
    hide Digits, Decimal;
    DigitsRead(n);
    var s := Digits(n);
    assert forall i :: 0 <= i < |s| ==> IsDigit(s[i]);
    NoCr(s);
    assert IsDigit(s[0]);
  }

  lemma {:induction false} NewlineAt(line: seq<Byte>, rest: seq<Byte>)
    requires forall i :: 0 <= i < |line| ==> line[i] != CR
    ensures Newline(line + CRLF + rest) == Some(|line|)
  {
    var s := line + CRLF + rest;
    if line == [] {
      assert s[0] == CR && s[1] == LF;
    } else {
      NewlineAt(line[1..], rest);
      assert s[1..] == line[1..] + CRLF + rest;
    }
  }

  /** A line of digits. */
  lemma DigitLine(n: nat, rest: seq<Byte>)
    ensures var s := Digits(n) + CRLF + rest;
            var k := |Digits(n)|;
            Newline(s) == Some(k) && s[..k] == Digits(n) && s[k + 2..] == rest && Number(s[..k]) == n
  {
    hide Digits, Number, Newline, Decimal;
    DigitsRead(n);
    assert forall i :: 0 <= i < |Digits(n)| ==> IsDigit(Digits(n)[i]);
    NewlineAt(Digits(n), rest);
    NumberOfDigits(n);
    var s := Digits(n) + CRLF + rest;
    assert s[..|Digits(n)|] == Digits(n);
  }

  lemma BulkRead(arg: seq<Byte>, rest: seq<Byte>, depth: nat)
    ensures Item(Bulk(arg) + rest, depth) == Done(Str(arg), rest)
  {
    hide Digits, Number, Newline;
    var s := Bulk(arg) + rest;
    var tail := arg + CRLF + rest;
    assert s[0] == DOLLAR && s[1..] == Digits(|arg|) + CRLF + tail;
    DigitLine(|arg|, tail);
    assert tail[..|arg|] == arg && tail[|arg| + 2..] == rest;
  }

  function Strings(args: seq<seq<Byte>>): (r: seq<Reply>)
    ensures |r| == |args| && forall i :: 0 <= i < |r| ==> r[i] == Str(args[i])
  {
    seq(|args|, i requires 0 <= i < |args| => Str(args[i]))
  }

  lemma {:induction false} BulksRead(args: seq<seq<Byte>>, rest: seq<Byte>, depth: nat, got: seq<Reply>)
    ensures Elements(|args|, Bulks(args) + rest, depth, got) == Done(Array(got + Strings(args)), rest)
    decreases |args|
  {
    hide Item, Bulk;
    if args == [] {
      assert Bulks(args) + rest == rest && got + Strings(args) == got;
    } else {
      var s := Bulks(args[1..]) + rest;
      assert Bulks(args) + rest == Bulk(args[0]) + s;
      BulkRead(args[0], s, depth);
      BulksRead(args[1..], rest, depth, got + [Str(args[0])]);
      assert got + Strings(args) == got + [Str(args[0])] + Strings(args[1..]);
    }
  }

  /** The reader turns a command into one array of its arguments. */
  lemma CommandRead(args: seq<seq<Byte>>, rest: seq<Byte>)
    ensures Item(Command(args) + rest, 0) == Done(Array(Strings(args)), rest)
  {
    hide Digits, Number, Newline, Bulks, Elements;
    var s := Command(args) + rest;
    assert s[0] == STAR && s[1..] == Digits(|args|) + CRLF + (Bulks(args) + rest);
    DigitLine(|args|, Bulks(args) + rest);
    if args == [] {
      NoBulks(rest);
      assert Strings(args) == [];
    } else {
      BulksRead(args, rest, 1, []);
      assert [] + Strings(args) == Strings(args);
    }
  }

  lemma NoBulks(rest: seq<Byte>)
    ensures Bulks([]) + rest == rest
  {
  }

  function Commands(list: seq<seq<seq<Byte>>>): (r: seq<Byte>) {
    if list == [] then [] else Command(list[0]) + Commands(list[1..])
  }

  function Arrays(list: seq<seq<seq<Byte>>>): (r: seq<Reply>)
    ensures |r| == |list| && forall i :: 0 <= i < |r| ==> r[i] == Array(Strings(list[i]))
  {
    seq(|list|, i requires 0 <= i < |list| => Array(Strings(list[i])))
  }

  lemma {:induction false} PipelineRead(list: seq<seq<seq<Byte>>>)
    ensures Stream(Commands(list)) == Outcome(Arrays(list), None)
    decreases |list|
  {
    hide Item, Command;
    if list == [] {
      EmptyItem();
    } else {
      CommandRead(list[0], Commands(list[1..]));
      PipelineRead(list[1..]);
      assert Arrays(list) == [Array(Strings(list[0]))] + Arrays(list[1..]);
    }
  }

  lemma EmptyItem()
    ensures Item([], 0) == More
  {
  }

  /** Commands written one behind the other, and read in whatever pieces, come back
      one by one. */
  method FormatThenRead(list: seq<seq<seq<Byte>>>, chunks: seq<seq<Byte>>)
    returns (replies: seq<Reply>, problem: Option<Problem>)
    requires Joined(chunks) == Commands(list)
    ensures replies == Arrays(list) && problem.None?
  {
    hide Stream, Joined, Commands;
    replies, problem := ReadChunks(chunks);
    PipelineRead(list);
  }
}
