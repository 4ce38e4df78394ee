/** read.c: the incremental reader, a stack of tasks that resumes after any cut in
    the input. */
module RespReader {
  import opened Bits
  import opened RespSpec

  // -------------------------------------------------------------------- scanning

  /** A byte of an sds string; the NUL behind the last. */
  function At(s: seq<Byte>, i: nat): Byte {
    if i < |s| then s[i] else 0
  }

  /** seekNewline */
  method SeekNewline(s: seq<Byte>) returns (r: Option<nat>)
    ensures r == Newline(s)
  {
    var pos, len := 0, |s| - 1;
    assert s[0..] == s;
    while pos < len
      invariant 0 <= pos <= |s|
      invariant Newline(s) == Shifted(Newline(s[pos..]), pos)
    {
      while pos < len && s[pos] != CR
        invariant 0 <= pos <= |s| && (pos < len || pos == len)
        invariant Newline(s) == Shifted(Newline(s[pos..]), pos)
      {
        NewlineSkip(s, pos);
        pos := pos + 1;
      }
      if s[pos] != CR {
        NewlineShort(s, pos);
        return None;
      }
      if At(s, pos + 1) == LF {
        assert s[pos..][0] == CR && s[pos..][1] == LF;
        return Some(pos);
      }
      NewlineSkip(s, pos);
      pos := pos + 1;
    }
    NewlineShort(s, pos);
    return None;
  }

  function Shifted(r: Option<nat>, n: nat): Option<nat> {
    if r.Some? then Some(r.value + n) else None
  }

  lemma NewlineSkip(s: seq<Byte>, i: nat)
    requires i < |s| && (s[i] != CR || At(s, i + 1) != LF)
    ensures Shifted(Newline(s[i..]), i) == Shifted(Newline(s[i + 1..]), i + 1)
  {
    assert s[i..][1..] == s[i + 1..];
  }

  lemma NewlineShort(s: seq<Byte>, i: nat)
    requires |s| - 1 <= i <= |s|
    ensures Newline(s[i..]).None?
  {
  }

  lemma {:induction false} BeforeCrIs(s: seq<Byte>)
    ensures var c := |BeforeCr(s)|;
            && c <= |s| && BeforeCr(s) == s[..c] && (c < |s| ==> s[c] == CR) && forall j :: 0 <= j < c ==> s[j] != CR
  {
    if s == [] || s[0] == CR {
    } else {
      BeforeCrIs(s[1..]);
    }
  }

  /** The line's CR, or an earlier one, ends the number. */
  lemma {:induction false} NumberOfLine(s: seq<Byte>)
    requires Newline(s).Some?
    ensures BeforeCr(s) == BeforeCr(s[..Newline(s).value]) && |BeforeCr(s)| < |s|
  {
    var k := Newline(s).value;
    if s[0] == CR {
      assert k > 0 ==> s[..k][0] == CR;
    } else {
      NumberOfLine(s[1..]);
      assert s[..k][1..] == s[1..][..k - 1];
    }
  }

  /** readLongLong, on a string that has a CR. */
  method ReadLongLong(s: seq<Byte>) returns (r: int)
    requires |BeforeCr(s)| < |s|
    ensures r == Number(s)
  {
    ghost var c := |BeforeCr(s)|;
    BeforeCrIs(s);
    var v, mult, i := 0, 1, 0;
    if s[0] == MINUS {
      mult, i := -1, 1;
    } else if s[0] == PLUS {
      mult, i := 1, 1;
    }
    ghost var i0 := i;
    assert Number(s) == Signed(mult, s[i0..c]);
    while s[i] != CR
      invariant i0 <= i <= c && AllDigits(s[i0..i]) && v == Decimal(s[i0..i])
      decreases c - i
    {
      var dec := s[i] - ZERO;
      if 0 <= dec < 10 {
        DecimalNext(s, i0, i);
        v := v * 10;
        v := v + dec;
      } else {
        assert s[i0..c][i - i0] == s[i];
        return -1;
      }
      i := i + 1;
    }
    r := mult * v;
  }

  lemma DecimalNext(s: seq<Byte>, a: nat, i: nat)
    requires a <= i < |s| && AllDigits(s[a..i]) && IsDigit(s[i])
    ensures AllDigits(s[a..i + 1]) && Decimal(s[a..i + 1]) == 10 * Decimal(s[a..i]) + (s[i] - ZERO)
  {
    var t := s[a..i + 1];
    assert t[..|t| - 1] == s[a..i] && t[|t| - 1] == s[i];
  }

  // ---------------------------------------------------------------------- the reader

  /** An entry of the stack: an array with the elements it has got, or the item that
      is being read. */
  datatype Task = Task(kind: Option<Kind>, elements: int, idx: int, items: seq<Reply>)

  predicate TasksOk(tasks: seq<Task>) {
    forall i :: 0 <= i < |tasks| ==> tasks[i].kind == Some(ArrayKind) && |tasks[i].items| < tasks[i].elements
  }

  function FramesOf(tasks: seq<Task>): (r: seq<Frame>)
    requires TasksOk(tasks)
    ensures |r| == |tasks| && forall i :: 0 <= i < |r| ==> r[i] == Frame(tasks[i].elements, tasks[i].items)
  {
    seq(|tasks|, i requires 0 <= i < |tasks| => Frame(tasks[i].elements, tasks[i].items))
  }

  /** After the bytes fed, and whatever follows, the stream's replies are those given
      and those that s resumes to. */
  ghost predicate Follows(fed: seq<Byte>, given: seq<Reply>, frames: seq<Frame>, kind: Option<Kind>, s: seq<Byte>)
    requires FramesOk(frames)
  {
    forall more: seq<Byte> :: Stream(fed + more) == After(given, Continue(Resume(frames, kind, s + more)))
  }

  ghost predicate Failed(fed: seq<Byte>, given: seq<Reply>, e: Problem) {
    forall more: seq<Byte> :: Stream(fed + more) == Outcome(given, Some(e))
  }

  function After(given: seq<Reply>, o: Outcome): Outcome {
    Outcome(given + o.replies, o.problem)
  }

  class Reader {
    var buf: seq<Byte>
    var pos: nat
    const rstack: array<Task>
    var ridx: int
    var reply: Option<Reply>
    var err: Option<Problem>
    ghost var fed: seq<Byte>
    ghost var given: seq<Reply>

    ghost predicate Shape()
      reads this, rstack
    {
      && rstack.Length == MAX_DEPTH + 1 && -1 <= ridx <= MAX_DEPTH && pos <= |buf|
      && (ridx >= 0 ==> TasksOk(rstack[..ridx]) && forall i :: 0 <= i < ridx ==> rstack[i + 1].idx == |rstack[i].items|)
    }

    ghost function Frames(): (r: seq<Frame>)
      requires Shape()
      reads this, rstack
      ensures FramesOk(r)
    {
      if ridx < 0 then [] else FramesOf(rstack[..ridx])
    }

    ghost function Top(): (r: Option<Kind>)
      requires Shape()
      reads this, rstack
    {
      if ridx < 0 then None else rstack[ridx].kind
    }

    ghost function Unread(): (r: seq<Byte>)
      requires pos <= |buf|
      reads this
    {
      buf[pos..]
    }

    /** What is between two calls. */
    ghost predicate Valid()
      reads this, rstack
    {
      && Shape()
      && match err
         case None => Follows(fed, given, Frames(), Top(), Unread()) && (Top() == Some(ArrayKind) ==> ridx < MAX_DEPTH)
         case Some(e) => Failed(fed, given, e)
    }

    /** redisReaderCreateWithFunctions */
    constructor ()
      ensures Valid() && fed == [] && given == [] && err.None? && fresh(rstack)
    {
      buf, pos, ridx, reply, err := [], 0, -1, None, None;
      rstack := new Task[MAX_DEPTH + 1](_ => Task(None, -1, -1, []));
      fed, given := [], [];
      new;
      FollowsStart();
    }

    /** redisReaderFeed: false once the reader has failed. */
    method Feed(bytes: seq<Byte>) returns (ok: bool)
      requires Valid()
      modifies this`buf, this`fed
      ensures Valid() && ok == err.None? && fed == old(fed) + if ok then bytes else []
    {
      hide Follows, Failed;
      if err.Some? {
        return false;
      }
      FollowsFed(fed, given, Frames(), Top(), Unread(), bytes);
      assert (buf + bytes)[pos..] == buf[pos..] + bytes;
      buf := buf + bytes;
      fed := fed + bytes;
      return true;
    }

    /** moveToNextTask, with the reply v that is complete: it goes into the array that
        waits for it, which may complete that array, and so on. */
    method MoveToNextTask(v0: Reply)
      requires Shape() && ridx >= 0
      modifies this`ridx, this`reply, rstack
      ensures Shape() && (ridx < 0 ==> reply.Some?) && Top().None?
      ensures if ridx < 0 then ReturnsDone(old(Frames()), v0, reply.value)
              else ReturnResumes(old(Frames()), v0, Frames())
    {
      hide Return, Resume;
      var v := v0;
      ghost var frames := Frames();
      while ridx >= 0
        invariant Shape() && ridx >= 0 && SameReturn(frames, v0, Frames(), v)
        decreases ridx
      {
        if ridx == 0 {
          EmptyReturn(frames, v0, v);
          reply, ridx := Some(v), -1;
          return;
        }
        var cur, prv := rstack[ridx], rstack[ridx - 1];
        assert TasksOk(rstack[..ridx]) && rstack[..ridx][ridx - 1] == prv;
        ghost var now := Frames();
        if cur.idx == prv.elements - 1 {
          PopSame(frames, v0, now, v);
          v := Array(prv.items + [v]);
          assert rstack[..ridx - 1] == rstack[..ridx][..ridx - 1];
          ridx := ridx - 1;
          assert Frames() == now[..|now| - 1];
        } else {
          NextSame(frames, v0, now, v);
          rstack[ridx - 1] := prv.(items := prv.items + [v]);
          rstack[ridx] := Task(None, -1, cur.idx + 1, []);
          assert Frames() == now[|now| - 1 := Frame(prv.elements, prv.items + [v])];
          return;
        }
      }
    }

    /** The reader has got from there to here: the reply resumes alike, or is complete. */
    ghost predicate Led(frames: seq<Frame>, kind: Option<Kind>, s: seq<Byte>)
      requires FramesOk(frames)
      reads this, rstack
    {
      && Shape() && err.None?
      && if ridx >= 0 then SameResume(frames, kind, s, Frames(), Top(), Unread())
         else reply.Some? && ResumesTo(frames, kind, s, reply.value, Unread())
    }

    /** The item is complete in the next n bytes. */
    method Complete(v: Reply, n: nat)
      requires Shape() && ridx >= 0 && Top().Some? && err.None? && n <= |Unread()|
      requires ItemIs(Top().value, Unread(), ridx, v, Unread()[n..])
      modifies this`pos, this`ridx, this`reply, rstack
      ensures Led(old(Frames()), old(Top()), old(Unread())) && Top().None? && pos == old(pos) + n
    {
      hide Return, Resume, ItemOf, ItemIs, ReturnsDone, ReturnResumes, SameResume, ResumesTo;
      ghost var frames, kind, u := Frames(), Top().value, Unread();
      assert u[n..] == buf[pos + n..];
      pos := pos + n;
      MoveToNextTask(v);
      if ridx < 0 {
        DoneLeads(frames, kind, u, v, u[n..], reply.value);
      } else {
        NextLeads(frames, kind, u, v, u[n..], Frames());
      }
    }

    /** processLineItem: false if the line is not complete. */
    method ProcessLineItem() returns (ok: bool)
      requires Shape() && ridx >= 0 && err.None? && Top() in [Some(IntegerKind), Some(StatusKind), Some(FailureKind)]
      modifies this`pos, this`ridx, this`reply, rstack
      ensures ok ==> Led(old(Frames()), old(Top()), old(Unread())) && Top().None? && old(pos) < pos <= |buf|
      ensures !ok ==> Shape() && unchanged(this) && unchanged(rstack) && Resume(Frames(), Top(), Unread()) == More
    {
      hide Item, Elements, Return, Number;
      var s := buf[pos..];
      var r := SeekNewline(s);
      if r.None? {
        return false;
      }
      var k, v := r.value, Nil;
      LineIs(rstack[ridx].kind.value, s, ridx);
      if rstack[ridx].kind == Some(IntegerKind) {
        NumberOfLine(s);
        var n := ReadLongLong(s);
        SameNumber(s, s[..k]);
        v := Integer(n);
      } else {
        v := if rstack[ridx].kind == Some(StatusKind) then Status(s[..k]) else Failure(s[..k]);
      }
      Complete(v, k + 2);
      return true;
    }

    /** processBulkItem: false if the string is not complete. */
    method ProcessBulkItem() returns (ok: bool)
      requires Shape() && ridx >= 0 && err.None? && Top() == Some(StrKind)
      modifies this`pos, this`ridx, this`reply, rstack
      ensures ok ==> Led(old(Frames()), old(Top()), old(Unread())) && Top().None? && old(pos) < pos <= |buf|
      ensures !ok ==> Shape() && unchanged(this) && unchanged(rstack) && Resume(Frames(), Top(), Unread()) == More
    {
      hide Item, Elements, Return, Number;
      var s := buf[pos..];
      var r := SeekNewline(s);
      if r.None? {
        return false;
      }
      var k := r.value;
      NumberOfLine(s);
      var n := ReadLongLong(s);
      SameNumber(s, s[..k]);
      BulkIs(s, ridx);
      if n < 0 {
        Complete(Nil, k + 2);
        return true;
      }
      if pos + (k + 2 + n + 2) <= |buf| {
        Complete(Str(s[k + 2..k + 2 + n]), k + 2 + n + 2);
        return true;
      }
      return false;
    }

    /** processMultiBulkItem: false if the line is not complete. */
    method ProcessMultiBulkItem() returns (ok: bool)
      requires Shape() && 0 <= ridx < MAX_DEPTH && err.None? && Top() == Some(ArrayKind)
      modifies this`pos, this`ridx, this`reply, rstack
      ensures ok ==> Led(old(Frames()), old(Top()), old(Unread())) && Top().None? && old(pos) < pos <= |buf|
      ensures !ok ==> Shape() && unchanged(this) && unchanged(rstack) && Resume(Frames(), Top(), Unread()) == More
    {
      hide Item, Elements, Return, Number;
      var s := buf[pos..];
      var r := SeekNewline(s);
      if r.None? {
        return false;
      }
      var k := r.value;
      NumberOfLine(s);
      var n := ReadLongLong(s);
      SameNumber(s, s[..k]);
      ArrayIs(s, ridx);
      if n == -1 {
        Complete(Nil, k + 2);
      } else if n > 0 {
        PushTask(n, k + 2);
      } else {
        Complete(Array([]), k + 2);
      }
      return true;
    }

    /** A task for the first element of an array. */
    method PushTask(n: nat, len: nat)
      requires Shape() && 0 <= ridx < MAX_DEPTH && err.None? && Top() == Some(ArrayKind) && len <= |Unread()| && n > 0
      requires ArrayOf(Unread(), ridx, n, Unread()[len..])
      modifies this`pos, this`ridx, rstack
      ensures Led(old(Frames()), old(Top()), old(Unread())) && Top().None? && pos == old(pos) + len
    {
      hide Item, Elements, Return, Resume, ItemOf, SameResume, ArrayOf;
      ghost var frames, u := Frames(), Unread();
      assert u[len..] == buf[pos + len..];
      PushLeads(frames, u, n, u[len..]);
      pos := pos + len;
      rstack[ridx] := rstack[ridx].(elements := n, items := []);
      ridx := ridx + 1;
      rstack[ridx] := Task(None, -1, 0, []);
      assert Frames() == frames + [Frame(n, [])];
    }

    /** __redisReaderSetError: the buffer and the stack are dropped. */
    method SetError(e: Problem)
      requires Shape()
      modifies this`buf, this`pos, this`ridx, this`reply, this`err
      ensures Shape() && err == Some(e) && ridx == -1
    {
      buf, pos, ridx, reply, err := [], 0, -1, None, Some(e);
    }

    /** processItem: true when it has made progress. */
    method ProcessItem() returns (ok: bool)
      requires Shape() && ridx >= 0 && err.None? && (Top() == Some(ArrayKind) ==> ridx < MAX_DEPTH)
      modifies this`buf, this`pos, this`ridx, this`reply, this`err, rstack
      ensures Shape() && (err.Some? ==> !ok && ResumesBad(old(Frames()), old(Top()), old(Unread()), err.value))
      ensures err.None? ==>
                Led(old(Frames()), old(Top()), old(Unread())) && (Top() == Some(ArrayKind) ==> ridx < MAX_DEPTH)
      ensures ok ==> err.None? && |Unread()| < |old(Unread())|
      ensures !ok && err.None? ==> ridx >= 0 && Resume(Frames(), Top(), Unread()) == More
    {
      hide Item, ItemOf, Elements, Return, Resume, SameResume, ResumesBad, ResumesTo;
      ghost var frames, kind, u := Frames(), Top(), Unread();
      SameSelf(frames, kind, u);
      if rstack[ridx].kind.None? {
        if |buf| - pos < 1 {
          NothingYet(frames, u);
          return false;
        }
        var b := buf[pos];
        var k := KindOf(b);
        TypeRead(frames, u);
        if k.None? {
          SetError(BadType(b));
          return false;
        }
        pos := pos + 1;
        rstack[ridx] := rstack[ridx].(kind := k);
        assert Frames() == frames && Unread() == u[1..];
      }
      ghost var kind', u' := Top(), Unread();
      if rstack[ridx].kind == Some(ArrayKind) && ridx == MAX_DEPTH {
        DeepBad(frames, kind, u, u');
        SetError(TooDeep);
        return false;
      }
      ok := ProcessTyped();
      if ridx >= 0 {
        SameTwice(frames, kind, u, frames, kind', u', Frames(), Top(), Unread());
      } else {
        ThenDone(frames, kind, u, frames, kind', u', reply.value, Unread());
      }
    }

    /** The item of which the type is known. */
    method ProcessTyped() returns (ok: bool)
      requires Shape() && ridx >= 0 && err.None? && Top().Some? && (Top() == Some(ArrayKind) ==> ridx < MAX_DEPTH)
      modifies this`pos, this`ridx, this`reply, rstack
      ensures Led(old(Frames()), old(Top()), old(Unread())) && pos <= |buf|
      ensures ok ==> Top().None? && old(pos) < pos
      ensures !ok ==> unchanged(this) && unchanged(rstack) && Resume(Frames(), Top(), Unread()) == More
    {
      hide Item, ItemOf, Elements, Return, Resume, SameResume, ResumesTo;
      SameSelf(Frames(), Top(), Unread());
      match rstack[ridx].kind.value {
        case StrKind => ok := ProcessBulkItem();
        case ArrayKind => ok := ProcessMultiBulkItem();
        case _ => ok := ProcessLineItem();
      }
    }

    /** Processes items until the reply is complete, or waits, or is wrong. */
    method ReadItems()
      requires Shape() && ridx >= 0 && err.None? && (Top() == Some(ArrayKind) ==> ridx < MAX_DEPTH)
      requires Follows(fed, given, Frames(), Top(), Unread())
      modifies this`buf, this`pos, this`ridx, this`reply, this`err, rstack
      ensures Shape() && (err.Some? ==> Failed(fed, given, err.value))
      ensures err.None? && ridx < 0 ==> reply.Some? && FollowsDone(fed, given, reply.value, Unread())
      ensures err.None? && ridx >= 0 ==>
                Follows(fed, given, Frames(), Top(), Unread()) && Resume(Frames(), Top(), Unread()) == More
      ensures err.None? && Top() == Some(ArrayKind) ==> ridx < MAX_DEPTH
    {
      hide Item, ItemOf, Elements, Return, Resume, SameResume, ResumesBad, ResumesTo, Follows, Failed, Stream, Continue;
      while ridx >= 0
        invariant Shape() && err.None? && (Top() == Some(ArrayKind) ==> ridx < MAX_DEPTH)
        invariant ridx >= 0 ==> Follows(fed, given, Frames(), Top(), Unread())
        invariant ridx < 0 ==> reply.Some? && FollowsDone(fed, given, reply.value, Unread())
        decreases |Unread()|
      {
        ghost var frames, kind, u := Frames(), Top(), Unread();
        var ok := ProcessItem();
        if err.Some? {
          ThenFails(fed, given, frames, kind, u, err.value);
          return;
        }
        if ridx >= 0 {
          ThenFollows(fed, given, frames, kind, u, Frames(), Top(), Unread());
        } else {
          ThenReply(fed, given, frames, kind, u, reply.value, Unread());
        }
        if !ok {
          break;
        }
      }
    }

    /** redisReaderGetReply: the next reply, if it is complete; not ok once the stream is
        wrong. */
    method GetReply() returns (ok: bool, out: Option<Reply>)
      requires Valid()
      modifies this, rstack
      ensures Valid() && fed == old(fed) && ok == err.None?
      ensures out.Some? ==> ok && given == old(given) + [out.value]
      ensures out.None? ==> given == old(given) && Stream(fed) == Outcome(given, err)
    {
      hide Item, ItemOf, Elements, Return, Resume, SameResume, ResumesBad, ResumesTo, Follows, Failed, Stream, Continue;
      if err.Some? {
        FailedNow(fed, given, err.value);
        return false, None;
      }
      if |buf| == 0 {
        EmptyWaits(fed, given, Frames(), Top(), Unread());
        return true, None;
      }
      if ridx == -1 {
        rstack[0] := Task(None, -1, -1, []);
        ridx := 0;
        assert Frames() == [] && Top() == None;
      }
      ReadItems();
      if err.Some? {
        FailedNow(fed, given, err.value);
        return false, None;
      }
      if pos >= 1024 {
        assert buf[pos..][0..] == buf[pos..];
        buf := buf[pos..];
        pos := 0;
      }
      ok, out := true, None;
      if ridx == -1 {
        out, reply := reply, None;
        ReplyGiven(fed, given, out.value, Unread());
        given := given + [out.value];
      } else {
        WaitsNow(fed, given, Frames(), Top(), Unread());
      }
    }
  }

  // ------------------------------------------------------------ what the steps mean

  ghost predicate SameReturn(frames: seq<Frame>, v: Reply, frames': seq<Frame>, v': Reply)
    requires FramesOk(frames) && FramesOk(frames')
  {
    forall s: seq<Byte> :: Return(frames, v, s) == Return(frames', v', s)
  }

  ghost predicate ReturnsDone(frames: seq<Frame>, v: Reply, w: Reply)
    requires FramesOk(frames)
  {
    forall s: seq<Byte> :: Return(frames, v, s) == Done(w, s)
  }

  ghost predicate ReturnResumes(frames: seq<Frame>, v: Reply, frames': seq<Frame>)
    requires FramesOk(frames) && FramesOk(frames')
  {
    forall s: seq<Byte> :: Return(frames, v, s) == Resume(frames', None, s)
  }

  lemma EmptyReturn(frames: seq<Frame>, v: Reply, w: Reply)
    requires FramesOk(frames) && SameReturn(frames, v, [], w)
    ensures ReturnsDone(frames, v, w)
  {
    forall s: seq<Byte>
      ensures Return(frames, v, s) == Done(w, s)
    {
      assert Return(frames, v, s) == Return([], w, s);
    }
  }

  lemma PopSame(frames: seq<Frame>, v0: Reply, now: seq<Frame>, v: Reply)
    requires FramesOk(frames) && FramesOk(now) && now != [] && SameReturn(frames, v0, now, v)
    requires var f := now[|now| - 1]; |f.items| + 1 == f.elements
    ensures SameReturn(frames, v0, now[..|now| - 1], Array(now[|now| - 1].items + [v]))
  {
    hide Return;
    forall s: seq<Byte>
      ensures Return(frames, v0, s) == Return(now[..|now| - 1], Array(now[|now| - 1].items + [v]), s)
    {
      ReturnPops(now, v, s);
    }
  }

  lemma NextSame(frames: seq<Frame>, v0: Reply, now: seq<Frame>, v: Reply)
    requires FramesOk(frames) && FramesOk(now) && now != [] && SameReturn(frames, v0, now, v)
    requires var f := now[|now| - 1]; |f.items| + 1 < f.elements
    ensures var f := now[|now| - 1];
            var r := now[|now| - 1 := Frame(f.elements, f.items + [v])];
            FramesOk(r) && ReturnResumes(frames, v0, r)
  {
    hide Return, Resume;
    var f := now[|now| - 1];
    var r := now[|now| - 1 := Frame(f.elements, f.items + [v])];
    forall s: seq<Byte>
      ensures Return(frames, v0, s) == Resume(r, None, s)
    {
      ReturnNext(now, v, s);
    }
  }

  lemma FollowsStart()
    ensures Follows([], [], [], None, [])
  {
    forall more: seq<Byte>
      ensures Stream([] + more) == After([], Continue(Resume([], None, [] + more)))
    {
      assert [] + more == more;
    }
  }

  lemma FollowsFed(fed: seq<Byte>, given: seq<Reply>, frames: seq<Frame>, kind: Option<Kind>, s: seq<Byte>,
                   bytes: seq<Byte>)
    requires FramesOk(frames) && Follows(fed, given, frames, kind, s)
    ensures Follows(fed + bytes, given, frames, kind, s + bytes)
  {
    hide Stream, Continue, Resume;
    forall more: seq<Byte>
      ensures Stream(fed + bytes + more) == After(given, Continue(Resume(frames, kind, s + bytes + more)))
    {
      assert fed + bytes + more == fed + (bytes + more);
      assert s + bytes + more == s + (bytes + more);
    }
  }

  // ------------------------------------------------------------------- the items

  /** Whatever follows, the item is v. */
  ghost predicate ItemIs(kind: Kind, s: seq<Byte>, depth: nat, v: Reply, rest: seq<Byte>) {
    forall more: seq<Byte> :: ItemOf(kind, s + more, depth) == Done(v, rest + more)
  }

  /** Whatever follows, the item is an array of n elements to come. */
  ghost predicate ArrayOf(s: seq<Byte>, depth: nat, n: nat, rest: seq<Byte>) {
    forall more: seq<Byte> :: ItemOf(ArrayKind, s + more, depth) == Elements(n, rest + more, depth + 1, [])
  }

  lemma SameNumber(s: seq<Byte>, t: seq<Byte>)
    requires BeforeCr(s) == BeforeCr(t)
    ensures Number(s) == Number(t)
  {
  }

  /** The line does not change with what follows. */
  lemma LineMore(s: seq<Byte>, more: seq<Byte>)
    requires Newline(s).Some?
    ensures Newline(s + more) == Newline(s)
    ensures var k := Newline(s).value; (s + more)[..k] == s[..k] && (s + more)[k + 2..] == s[k + 2..] + more
  {
    NewlineMore(s, more);
  }

  lemma LineIs(kind: Kind, s: seq<Byte>, depth: nat)
    requires Newline(s).Some?
    ensures var k := Newline(s).value;
            && (kind == IntegerKind ==> ItemIs(kind, s, depth, Integer(Number(s[..k])), s[k + 2..]))
            && (kind == StatusKind ==> ItemIs(kind, s, depth, Status(s[..k]), s[k + 2..]))
            && (kind == FailureKind ==> ItemIs(kind, s, depth, Failure(s[..k]), s[k + 2..]))
  {
    hide Number;
    forall more: seq<Byte> {
      LineMore(s, more);
    }
  }

  lemma BulkIs(s: seq<Byte>, depth: nat)
    requires Newline(s).Some?
    ensures var k := Newline(s).value;
            var n := Number(s[..k]);
            && (n < 0 ==> ItemIs(StrKind, s, depth, Nil, s[k + 2..]))
            && (n >= 0 && k + n + 4 <= |s| ==> ItemIs(StrKind, s, depth, Str(s[k + 2..k + 2 + n]), s[k + 2 + n + 2..]))
            && (n >= 0 && k + n + 4 > |s| ==> ItemOf(StrKind, s, depth) == More)
  {
    hide Number;
    var k := Newline(s).value;
    var n := Number(s[..k]);
    if n < 0 {
      forall more: seq<Byte>
        ensures ItemOf(StrKind, s + more, depth) == Done(Nil, s[k + 2..] + more)
      {
        LineMore(s, more);
      }
    } else if k + n + 4 <= |s| {
      forall more: seq<Byte>
        ensures ItemOf(StrKind, s + more, depth) == Done(Str(s[k + 2..k + 2 + n]), s[k + 2 + n + 2..] + more)
      {
        LineMore(s, more);
        var rest := s[k + 2..] + more;
        assert rest[..n] == s[k + 2..k + 2 + n];
        assert rest[n + 2..] == s[k + 2 + n + 2..] + more;
      }
    }
  }

  lemma ArrayIs(s: seq<Byte>, depth: nat)
    requires Newline(s).Some? && depth < MAX_DEPTH
    ensures var k := Newline(s).value;
            var n := Number(s[..k]);
            && (n == -1 ==> ItemIs(ArrayKind, s, depth, Nil, s[k + 2..]))
            && (n != -1 && n <= 0 ==> ItemIs(ArrayKind, s, depth, Array([]), s[k + 2..]))
            && (n > 0 ==> ArrayOf(s, depth, n, s[k + 2..]))
  {
    hide Number, Elements;
    forall more: seq<Byte> {
      LineMore(s, more);
    }
  }

  lemma DoneLeads(frames: seq<Frame>, kind: Kind, s: seq<Byte>, v: Reply, rest: seq<Byte>, w: Reply)
    requires FramesOk(frames) && ItemIs(kind, s, |frames|, v, rest) && ReturnsDone(frames, v, w)
    ensures ResumesTo(frames, Some(kind), s, w, rest)
  {
    hide ItemOf, Return;
  }

  lemma NextLeads(frames: seq<Frame>, kind: Kind, s: seq<Byte>, v: Reply, rest: seq<Byte>, frames': seq<Frame>)
    requires FramesOk(frames) && FramesOk(frames') && ItemIs(kind, s, |frames|, v, rest)
             && ReturnResumes(frames, v, frames')
    ensures SameResume(frames, Some(kind), s, frames', None, rest)
  {
    hide ItemOf, Return, Item;
    forall more: seq<Byte>
      ensures Resume(frames, Some(kind), s + more) == Resume(frames', None, rest + more)
    {
      assert ItemOf(kind, s + more, |frames|) == Done(v, rest + more);
      assert Return(frames, v, rest + more) == Resume(frames', None, rest + more);
    }
  }

  lemma PushLeads(frames: seq<Frame>, s: seq<Byte>, n: nat, rest: seq<Byte>)
    requires FramesOk(frames) && |frames| < MAX_DEPTH && n > 0 && ArrayOf(s, |frames|, n, rest)
    ensures FramesOk(frames + [Frame(n, [])])
    ensures SameResume(frames, Some(ArrayKind), s, frames + [Frame(n, [])], None, rest)
  {
    hide ItemOf, Elements, Return, Item;
    ResumePushes(frames, n, []);
    forall more: seq<Byte>
      ensures Resume(frames, Some(ArrayKind), s + more) == Resume(frames + [Frame(n, [])], None, rest + more)
    {
      assert ItemOf(ArrayKind, s + more, |frames|) == Elements(n, rest + more, |frames| + 1, []);
      ResumePushes(frames, n, rest + more);
    }
  }

  lemma SameSelf(frames: seq<Frame>, kind: Option<Kind>, s: seq<Byte>)
    requires FramesOk(frames)
    ensures SameResume(frames, kind, s, frames, kind, s)
  {
  }

  lemma SameTwice(f: seq<Frame>, k: Option<Kind>, s: seq<Byte>, f': seq<Frame>, k': Option<Kind>, s': seq<Byte>,
                  f'': seq<Frame>, k'': Option<Kind>, s'': seq<Byte>)
    requires FramesOk(f) && FramesOk(f') && FramesOk(f'')
    requires SameResume(f, k, s, f', k', s') && SameResume(f', k', s', f'', k'', s'')
    ensures SameResume(f, k, s, f'', k'', s'')
  {
    hide Resume;
  }

  lemma ThenDone(f: seq<Frame>, k: Option<Kind>, s: seq<Byte>, f': seq<Frame>, k': Option<Kind>, s': seq<Byte>,
                 v: Reply, rest: seq<Byte>)
    requires FramesOk(f) && FramesOk(f') && SameResume(f, k, s, f', k', s') && ResumesTo(f', k', s', v, rest)
    ensures ResumesTo(f, k, s, v, rest)
  {
    hide Resume;
  }

  /** The type byte. */
  lemma TypeRead(frames: seq<Frame>, s: seq<Byte>)
    requires FramesOk(frames) && s != []
    ensures KindOf(s[0]).None? ==> ResumesBad(frames, None, s, BadType(s[0]))
    ensures KindOf(s[0]).Some? ==> SameResume(frames, None, s, frames, KindOf(s[0]), s[1..])
  {
    hide ItemOf, Return;
    forall more: seq<Byte>
      ensures KindOf(s[0]).None? ==> Resume(frames, None, s + more) == Bad(BadType(s[0]))
      ensures KindOf(s[0]).Some? ==> Resume(frames, None, s + more) == Resume(frames, KindOf(s[0]), s[1..] + more)
    {
      assert (s + more)[0] == s[0] && (s + more)[1..] == s[1..] + more;
    }
  }

  lemma NothingYet(frames: seq<Frame>, s: seq<Byte>)
    requires FramesOk(frames) && s == []
    ensures Resume(frames, None, s) == More
  {
  }

  lemma DeepBad(frames: seq<Frame>, kind: Option<Kind>, s: seq<Byte>, s': seq<Byte>)
    requires FramesOk(frames) && |frames| == MAX_DEPTH && SameResume(frames, kind, s, frames, Some(ArrayKind), s')
    ensures ResumesBad(frames, kind, s, TooDeep)
  {
  }

  // --------------------------------------------------------------- the whole stream

  /** The next reply of the stream is v. */
  ghost predicate FollowsDone(fed: seq<Byte>, given: seq<Reply>, v: Reply, s: seq<Byte>) {
    forall more: seq<Byte> :: Stream(fed + more) == After(given, Continue(Done(v, s + more)))
  }

  lemma ThenFollows(fed: seq<Byte>, given: seq<Reply>, f: seq<Frame>, k: Option<Kind>, s: seq<Byte>,
                    f': seq<Frame>, k': Option<Kind>, s': seq<Byte>)
    requires FramesOk(f) && FramesOk(f') && Follows(fed, given, f, k, s) && SameResume(f, k, s, f', k', s')
    ensures Follows(fed, given, f', k', s')
  {
    hide Resume, Stream, Continue;
    forall more: seq<Byte>
      ensures Stream(fed + more) == After(given, Continue(Resume(f', k', s' + more)))
    {
      assert Resume(f, k, s + more) == Resume(f', k', s' + more);
    }
  }

  lemma ThenReply(fed: seq<Byte>, given: seq<Reply>, f: seq<Frame>, k: Option<Kind>, s: seq<Byte>, v: Reply,
                  rest: seq<Byte>)
    requires FramesOk(f) && Follows(fed, given, f, k, s) && ResumesTo(f, k, s, v, rest)
    ensures FollowsDone(fed, given, v, rest)
  {
    hide Resume, Stream, Continue;
    forall more: seq<Byte>
      ensures Stream(fed + more) == After(given, Continue(Done(v, rest + more)))
    {
      assert Resume(f, k, s + more) == Done(v, rest + more);
    }
  }

  lemma ThenFails(fed: seq<Byte>, given: seq<Reply>, f: seq<Frame>, k: Option<Kind>, s: seq<Byte>, e: Problem)
    requires FramesOk(f) && Follows(fed, given, f, k, s) && ResumesBad(f, k, s, e)
    ensures Failed(fed, given, e)
  {
    hide Resume, Stream;
    forall more: seq<Byte>
      ensures Stream(fed + more) == Outcome(given, Some(e))
    {
      assert Resume(f, k, s + more) == Bad(e);
      assert given + [] == given;
    }
  }

  lemma ReplyGiven(fed: seq<Byte>, given: seq<Reply>, v: Reply, s: seq<Byte>)
    requires FollowsDone(fed, given, v, s)
    ensures Follows(fed, given + [v], [], None, s)
  {
    hide Item;
    forall more: seq<Byte>
      ensures Stream(fed + more) == After(given + [v], Continue(Resume([], None, s + more)))
    {
      assert Stream(fed + more) == After(given, Continue(Done(v, s + more)));
      var o := Stream(s + more);
      assert o == Continue(Resume([], None, s + more));
      assert given + ([v] + o.replies) == given + [v] + o.replies;
    }
  }

  lemma FailedNow(fed: seq<Byte>, given: seq<Reply>, e: Problem)
    requires Failed(fed, given, e)
    ensures Stream(fed) == Outcome(given, Some(e))
  {
    hide Stream;
    assert fed + [] == fed;
  }

  lemma WaitsNow(fed: seq<Byte>, given: seq<Reply>, frames: seq<Frame>, kind: Option<Kind>, s: seq<Byte>)
    requires FramesOk(frames) && Follows(fed, given, frames, kind, s) && Resume(frames, kind, s) == More
    ensures Stream(fed) == Outcome(given, None)
  {
    hide Resume, Stream;
    assert fed + [] == fed && s + [] == s && given + [] == given;
    assert Stream(fed + []) == After(given, Continue(Resume(frames, kind, s + [])));
  }

  lemma EmptyWaits(fed: seq<Byte>, given: seq<Reply>, frames: seq<Frame>, kind: Option<Kind>, s: seq<Byte>)
    requires FramesOk(frames) && Follows(fed, given, frames, kind, s) && s == []
             && (kind == Some(ArrayKind) ==> |frames| < MAX_DEPTH)
    ensures Stream(fed) == Outcome(given, None)
  {
    hide Follows, Return, Elements;
    WaitsNow(fed, given, frames, kind, s);
  }

  // ------------------------------------------------------------------------ whole runs

  /** The replies given so far are the first of the stream. */
  lemma GivenIsPrefix(r: Reader)
    requires r.Valid()
    ensures r.given <= Stream(r.fed).replies
  {
    hide Stream, Continue, Resume;
    assert r.fed + [] == r.fed && r.Unread() + [] == r.Unread();
  }

  /** Once the reader has failed, the rest of the stream changes nothing. */
  lemma RestIsLost(r: Reader, more: seq<Byte>)
    requires r.Valid() && r.err.Some?
    ensures Stream(r.fed + more) == Outcome(r.given, r.err)
  {
    hide Stream;
  }

  /** Asks for replies until none comes. */
  method TakeAll(r: Reader) returns (replies: seq<Reply>)
    requires r.Valid()
    modifies r, r.rstack
    ensures r.Valid() && r.fed == old(r.fed) && r.given == old(r.given) + replies
    ensures Stream(r.fed) == Outcome(r.given, r.err)
  {
    hide Stream, Reader.Valid;
    replies := [];
    var more := true;
    while more
      invariant r.Valid() && r.fed == old(r.fed) && r.given == old(r.given) + replies
      invariant !more ==> Stream(r.fed) == Outcome(r.given, r.err)
      decreases |Stream(r.fed).replies| - |r.given|, more
    {
      var ok, out := r.GetReply();
      GivenIsPrefix(r);
      if out.Some? {
        replies := replies + [out.value];
      } else {
        more := false;
      }
    }
  }

  function Joined(chunks: seq<seq<Byte>>): (r: seq<Byte>) {
    if chunks == [] then [] else Joined(chunks[..|chunks| - 1]) + chunks[|chunks| - 1]
  }

  /** A client that feeds what it receives, chunk by chunk, and takes the replies after each: the
      replies, and the error that ends them, do not depend on how the input was cut. */
  method ReadChunks(chunks: seq<seq<Byte>>) returns (replies: seq<Reply>, problem: Option<Problem>)
    ensures Outcome(replies, problem) == Stream(Joined(chunks))
  {
    hide Stream, Reader.Valid;
    var r := new Reader();
    replies := TakeAll(r);
    var k := 0;
    while k < |chunks|
      invariant k <= |chunks| && r.Valid() && fresh(r) && fresh(r.rstack) && r.given == replies
      invariant Stream(Joined(chunks[..k])) == Stream(r.fed) == Outcome(replies, r.err) && r.fed <= Joined(chunks[..k])
      invariant r.err.None? ==> r.fed == Joined(chunks[..k])
    {
      assert Joined(chunks[..k + 1])
               == Joined(chunks[..k]) + chunks[k] by { assert chunks[..k + 1][..k] == chunks[..k]; }
      ghost var fed := r.fed;
      var ok := r.Feed(chunks[k]);
      assert !ok ==> r.fed == fed;
      var more := TakeAll(r);
      replies := replies + more;
      k := k + 1;
      if r.err.Some? {
        var all := Joined(chunks[..k]);
        assert all == r.fed + all[|r.fed|..];
        RestIsLost(r, all[|r.fed|..]);
      }
    }
    problem := r.err;
    assert chunks[..|chunks|] == chunks;
  }
}
