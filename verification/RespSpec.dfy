/** The Redis protocol, read by recursive descent from a whole stream; and the same
    reading resumed in the middle of a reply. */
module RespSpec {
  import opened Bits

  const CR: Byte := 13
  const LF: Byte := 10
  const PLUS: Byte := 43
  const MINUS: Byte := 45
  const COLON: Byte := 58
  const DOLLAR: Byte := 36
  const STAR: Byte := 42
  const ZERO: Byte := 48

  /** How deep arrays may be nested in the stack of 9 tasks. */
  const MAX_DEPTH: nat := 8

  datatype Option<T> = None | Some(value: T)

  datatype Reply =
    | Str(bytes: seq<Byte>)
    | Status(bytes: seq<Byte>)
    | Failure(bytes: seq<Byte>)
    | Integer(value: int)
    | Nil
    | Array(items: seq<Reply>)

  datatype Kind = StrKind | StatusKind | FailureKind | IntegerKind | ArrayKind

  datatype Problem = BadType(b: Byte) | TooDeep

  /** A reply and what follows it; or the input ends in the middle; or it is wrong. */
  datatype Parsed =
    | Done(reply: Reply, rest: seq<Byte>)
    | More
    | Bad(problem: Problem)

  function KindOf(b: Byte): (r: Option<Kind>) {
    if b == MINUS then Some(FailureKind)
    else if b == PLUS then Some(StatusKind)
    else if b == COLON then Some(IntegerKind)
    else if b == DOLLAR then Some(StrKind)
    else if b == STAR then Some(ArrayKind)
    else None
  }

  /** The first CR LF. */
  function Newline(s: seq<Byte>): (r: Option<nat>)
    ensures r.Some? ==> r.value + 2 <= |s| && s[r.value] == CR && s[r.value + 1] == LF
  {
    if |s| < 2 then None
    else if s[0] == CR && s[1] == LF then Some(0)
    else
      match Newline(s[1..])
      case None => None
      case Some(k) => Some(k + 1)
  }

  /** The bytes in front of the first CR. */
  function BeforeCr(s: seq<Byte>): (r: seq<Byte>) {
    if s == [] || s[0] == CR then [] else [s[0]] + BeforeCr(s[1..])
  }

  predicate IsDigit(b: Byte) {
    ZERO <= b < ZERO + 10
  }

  predicate AllDigits(s: seq<Byte>) {
    forall i :: 0 <= i < |s| ==> IsDigit(s[i])
  }

  function Decimal(s: seq<Byte>): (r: nat)
    requires AllDigits(s)
  {
    if s == [] then 0 else 10 * Decimal(s[..|s| - 1]) + (s[|s| - 1] - ZERO)
  }

  /** Digits with their sign; -1 if something else is among them. */
  function Signed(sign: int, s: seq<Byte>): int {
    if AllDigits(s) then sign * Decimal(s) else -1
  }

  /** The number in a line. */
  function Number(line: seq<Byte>): int {
    var s := BeforeCr(line);
    if s != [] && s[0] == MINUS then Signed(-1, s[1..])
    else if s != [] && s[0] == PLUS then Signed(1, s[1..])
    else Signed(1, s)
  }

  /** A reply at this depth of nesting. */
  function Item(s: seq<Byte>, depth: nat): (p: Parsed)
    ensures p.Done? ==> |p.rest| < |s|
    decreases |s|, 0
  {
    if s == [] then More
    else
      match KindOf(s[0])
      case None => Bad(BadType(s[0]))
      case Some(kind) => ItemOf(kind, s[1..], depth)
  }

  /** A reply whose first byte has been read. */
  function ItemOf(kind: Kind, s: seq<Byte>, depth: nat): (p: Parsed)
    ensures p.Done? ==> |p.rest| < |s|
    decreases |s|, 2
  {
    if kind == ArrayKind && depth == MAX_DEPTH then Bad(TooDeep)
    else
      match Newline(s)
      case None => More
      case Some(k) =>
        var line, rest := s[..k], s[k + 2..];
        match kind
        case StatusKind => Done(Status(line), rest)
        case FailureKind => Done(Failure(line), rest)
        case IntegerKind => Done(Integer(Number(line)), rest)
        case StrKind =>
          var n := Number(line);
          if n < 0 then Done(Nil, rest)
          else if n + 2 <= |rest| then Done(Str(rest[..n]), rest[n + 2..])
          else More
        case ArrayKind =>
          var n := Number(line);
          if n == -1 then Done(Nil, rest)
          else if n <= 0 then Done(Array([]), rest)
          else Elements(n, rest, depth + 1, [])
  }

  /** The next n elements of an array that has got some. */
  function Elements(n: nat, s: seq<Byte>, depth: nat, got: seq<Reply>): (p: Parsed)
    ensures p.Done? ==> |p.rest| <= |s|
    decreases |s|, 1
  {
    if n == 0 then Done(Array(got), s)
    else
      match Item(s, depth)
      case More => More
      case Bad(e) => Bad(e)
      case Done(v, rest) => Elements(n - 1, rest, depth, got + [v])
  }

  /** All replies of a stream, and the problem that ends it, if any. */
  datatype Outcome = Outcome(replies: seq<Reply>, problem: Option<Problem>)

  function Stream(s: seq<Byte>): (o: Outcome)
    decreases |s|, 1
  {
    Continue(Item(s, 0))
  }

  /** What a stream gives whose first reply has been parsed. */
  function Continue(p: Parsed): (o: Outcome)
    decreases if p.Done? then |p.rest| + 1 else 0, 0
  {
    match p
    case More => Outcome([], None)
    case Bad(e) => Outcome([], Some(e))
    case Done(v, rest) =>
      var o := Stream(rest);
      Outcome([v] + o.replies, o.problem)
  }

  // ------------------------------------------------------- in the middle of a reply

  /** An array that has got some of its elements. */
  datatype Frame = Frame(elements: nat, items: seq<Reply>)

  predicate FramesOk(frames: seq<Frame>) {
    |frames| <= MAX_DEPTH && forall i :: 0 <= i < |frames| ==> |frames[i].items| < frames[i].elements
  }

  /** The whole reply, when v is next in the innermost of the arrays around it. */
  function Return(frames: seq<Frame>, v: Reply, s: seq<Byte>): (p: Parsed)
    requires FramesOk(frames)
    decreases |frames|
  {
    if frames == [] then Done(v, s)
    else
      var f := frames[|frames| - 1];
      match Elements(f.elements - |f.items| - 1, s, |frames|, f.items + [v])
      case More => More
      case Bad(e) => Bad(e)
      case Done(a, rest) => Return(frames[..|frames| - 1], a, rest)
  }

  /** The whole reply, when the next item in the innermost array comes from p. */
  function ReturnParsed(frames: seq<Frame>, p: Parsed): (r: Parsed)
    requires FramesOk(frames)
  {
    match p
    case More => More
    case Bad(e) => Bad(e)
    case Done(v, rest) => Return(frames, v, rest)
  }

  /** The whole reply, when the next item, whose first byte may have been read, is yet
      to come. */
  function Resume(frames: seq<Frame>, kind: Option<Kind>, s: seq<Byte>): (p: Parsed)
    requires FramesOk(frames)
  {
    ReturnParsed(frames, if kind.Some? then ItemOf(kind.value, s, |frames|) else Item(s, |frames|))
  }

  /** The innermost array is complete. */
  lemma ReturnPops(frames: seq<Frame>, v: Reply, s: seq<Byte>)
    requires FramesOk(frames) && frames != []
    requires var f := frames[|frames| - 1]; |f.items| + 1 == f.elements
    ensures var f := frames[|frames| - 1];
            Return(frames, v, s) == Return(frames[..|frames| - 1], Array(f.items + [v]), s)
  {
  }

  /** The innermost array waits for its next element. */
  lemma ReturnNext(frames: seq<Frame>, v: Reply, s: seq<Byte>)
    requires FramesOk(frames) && frames != []
    requires var f := frames[|frames| - 1]; |f.items| + 1 < f.elements
    ensures var f := frames[|frames| - 1];
            var r := frames[|frames| - 1 := Frame(f.elements, f.items + [v])];
            FramesOk(r) && Return(frames, v, s) == Resume(r, None, s)
  {
    var f := frames[|frames| - 1];
    var r := frames[|frames| - 1 := Frame(f.elements, f.items + [v])];
    assert r[..|r| - 1] == frames[..|frames| - 1];
  }

  /** A new array waits for its first element. */
  lemma ResumePushes(frames: seq<Frame>, n: nat, s: seq<Byte>)
    requires FramesOk(frames) && |frames| < MAX_DEPTH && n > 0
    ensures FramesOk(frames + [Frame(n, [])])
    ensures ReturnParsed(frames, Elements(n, s, |frames| + 1, [])) == Resume(frames + [Frame(n, [])], None, s)
  {
    var r := frames + [Frame(n, [])];
    assert r[..|r| - 1] == frames;
  }

  // ------------------------------------------------------------------ more input

  lemma {:induction false} NewlineMore(s: seq<Byte>, more: seq<Byte>)
    requires Newline(s).Some?
    ensures Newline(s + more) == Newline(s)
  {
    if s[0] == CR && s[1] == LF {
    } else {
      NewlineMore(s[1..], more);
      assert (s + more)[1..] == s[1..] + more;
    }
  }

  /** From here on, whatever follows, the two resume to the same reply. */
  ghost predicate SameResume(frames: seq<Frame>, kind: Option<Kind>, s: seq<Byte>,
                             frames': seq<Frame>, kind': Option<Kind>, s': seq<Byte>)
    requires FramesOk(frames) && FramesOk(frames')
  {
    forall more: seq<Byte> :: Resume(frames, kind, s + more) == Resume(frames', kind', s' + more)
  }

  /** Whatever follows, the reply is v. */
  ghost predicate ResumesTo(frames: seq<Frame>, kind: Option<Kind>, s: seq<Byte>, v: Reply, rest: seq<Byte>)
    requires FramesOk(frames)
  {
    forall more: seq<Byte> :: Resume(frames, kind, s + more) == Done(v, rest + more)
  }

  /** Whatever follows, the reply is wrong. */
  ghost predicate ResumesBad(frames: seq<Frame>, kind: Option<Kind>, s: seq<Byte>, e: Problem)
    requires FramesOk(frames)
  {
    forall more: seq<Byte> :: Resume(frames, kind, s + more) == Bad(e)
  }
}
