/** inflate.c and uncompr.c: exactly the streams of the format are decompressed. */
module Uncompress {
  import opened Bits
  import opened DeflateFormat
  import opened FormatRead
  import opened FormatRun
  import opened FormatStream
  import opened InflateMachine
  import opened InflateState
  import opened InflateStream
  import S = StreamDecode

  /** The first n bytes are the stream. */
  ghost predicate IsStream(wrap: bool, z: Stream, input: seq<Byte>, n: nat) {
    StreamOk(wrap, z) && n <= |input| && BytesToBits(input[..n]) == StreamBits(wrap, z)
  }

  // --------------------------------------------------------------------------- bytes

  /** The bits of the first bytes. */
  lemma FirstBytes(a: seq<Byte>, b: seq<Byte>, n: nat)
    requires a <= b && n <= |a|
    ensures BytesToBits(b[..n]) == BytesToBits(a)[..8 * n] && a[..n] == b[..n]
  {
    hide BytesToBits;
    BytesToBitsAppend(a[..n], a[n..]);
    assert a == a[..n] + a[n..] && a[..n] == b[..n];
  }

  lemma {:induction false} SameBytes(a: seq<Byte>, b: seq<Byte>)
    requires BytesToBits(a) == BytesToBits(b)
    ensures a == b
    decreases |a|
  {
    if a == [] || b == [] {
    } else {
      var x, y := BytesToBits(a[1..]), BytesToBits(b[1..]);
      assert ToBits(a[0], 8) == (ToBits(a[0], 8) + x)[..8] && ToBits(b[0], 8) == (ToBits(b[0], 8) + y)[..8];
      assert x == (ToBits(a[0], 8) + x)[8..] && y == (ToBits(b[0], 8) + y)[8..];
      SameByte(a[0], b[0]);
      SameBytes(a[1..], b[1..]);
    }
  }

  lemma SameByte(a: Byte, b: Byte)
    requires ToBits(a, 8) == ToBits(b, 8)
    ensures a == b
  {
    hide ToBits, Low, Pow2;
    FromToBits(a, 8);
    FromToBits(b, 8);
    Pow2Values();
    LowSmall(a, 8);
    LowSmall(b, 8);
  }

  /** A stream is whole bytes, the last four of which are the check value. */
  lemma StreamBytes(wrap: bool, z: Stream)
    requires StreamOk(wrap, z)
    ensures |StreamBits(wrap, z)| % 8 == 0
    ensures wrap ==> |StreamBits(wrap, z)| >= 32
                     && StreamBits(wrap, z)[|StreamBits(wrap, z)| - 32..] == BytesToBits(CheckBytes(S.Check(Output(z))))
  {
    hide BlocksOk, InPlace, BlocksBits, BytesToBits, CheckBytes, S.Check, Output, ToBits;
    var tail := if wrap then BytesToBits(CheckBytes(S.Check(Output(z)))) else [];
    if wrap {
      CheckAsBits(S.Check(Output(z)));
    }
    var head, blocks := HeadBits(wrap, z), BlocksBits(z.blocks);
    assert |StreamBits(wrap, z)| == |head| + |blocks| + |z.pad| + |tail|;
    Grouped(blocks, z.pad, tail);
    Grouped(head, blocks + z.pad, tail);
  }

  /** Where a stream ends among the bytes read. */
  lemma StreamEnd(wrap: bool, z: Stream, input: seq<Byte>, rest: seq<bool>) returns (n: nat)
    requires StreamOk(wrap, z) && BytesToBits(input) == StreamBits(wrap, z) + rest
    ensures IsStream(wrap, z, input, n)
    ensures wrap ==> n >= 4 && input[n - 4..n] == CheckBytes(S.Check(Output(z)))
  {
    hide StreamOk, StreamBits, BytesToBits, CheckBytes, S.Check, Output;
    var bits := StreamBits(wrap, z);
    StreamBytes(wrap, z);
    n := |bits| / 8;
    BytesLength(input);
    FirstBytes(input, input, n);
    assert BytesToBits(input)[..8 * n] == bits;
    if wrap {
      BytesToBitsAppend(input[..n - 4], input[n - 4..n]);
      BytesLength(input[..n - 4]);
      assert input[..n - 4] + input[n - 4..n] == input[..n];
      SameBytes(input[n - 4..n], CheckBytes(S.Check(Output(z))));
    }
  }

  // ------------------------------------------------------------------------- inflate

  /** A decoder that has come to the end has read a stream of the format, and written what it
      stands for; the last four bytes of a zlib stream are the Adler-32 of the output. */
  lemma EndIsStream(i: Inflater) returns (z: Stream, n: nat)
    requires i.Valid() && i.Machine().mode == DONE
    ensures IsStream(i.Machine().wrap, z, i.Fed(), n) && i.History() == Output(z)
    ensures i.Machine().wrap ==> n >= 4 && i.Fed()[n - 4..n] == CheckBytes(S.Check(i.History()))
  {
    hide Inflater.Valid, StreamOk, StreamBits, BytesToBits, CheckBytes, S.Check, Output, Reachable, Whole;
    RunOf(i);
    var t := i.Machine();
    z := StreamOf(t.wrap, i.Fed(), t);
    n := StreamEnd(t.wrap, z, i.Fed(), t.unread);
  }

  /** The machine reads a stream of the format to its end. */
  lemma StreamIsRun(wrap: bool, z: Stream, input: seq<Byte>, n: nat) returns (u: State)
    requires IsStream(wrap, z, input, n)
    ensures Reachable(Whole(wrap, input), u) && u.mode == DONE && u.out == Output(z)
  {
    hide StreamOk, StreamBits, BytesToBits, Output, Reachable;
    BytesToBitsAppend(input[..n], input[n..]);
    assert input == input[..n] + input[n..];
    BytesLength(input[n..]);
    u := StreamRun(wrap, z, BytesToBits(input[n..]));
  }

  /** A decoder that is done with its input has come to the end exactly if the input starts with a
      stream of the format. */
  lemma EndsExactly(i: Inflater, input: seq<Byte>)
    requires i.Valid() && Finished(input, i.Fed(), i.Machine())
    ensures i.Machine().mode == DONE <==> exists z: Stream, n: nat :: IsStream(i.Machine().wrap, z, input, n)
    ensures forall z: Stream, n: nat :: IsStream(i.Machine().wrap, z, input, n) ==> i.History() == Output(z)
  {
    hide Inflater.Valid, StreamOk, StreamBits, BytesToBits, Output, Reachable, Whole, Step, CheckBytes, S.Check;
    var wrap := i.Machine().wrap;
    if i.Machine().mode == DONE {
      var z, n := EndIsStream(i);
      Prefixed(wrap, z, i.Fed(), input, n);
    }
    forall z: Stream, n: nat | IsStream(wrap, z, input, n)
      ensures i.Machine().mode == DONE && i.History() == Output(z)
    {
      var u := StreamIsRun(wrap, z, input, n);
      RunOf(i);
      DoneStops(u);
      RunsEndAlike(wrap, input, i.Fed(), i.Machine(), input, u);
    }
  }

  lemma Prefixed(wrap: bool, z: Stream, fed: seq<Byte>, input: seq<Byte>, n: nat)
    requires fed <= input && IsStream(wrap, z, fed, n)
    ensures IsStream(wrap, z, input, n)
  {
    hide StreamOk, StreamBits, BytesToBits;
    assert input[..n] == fed[..n];
  }

  lemma DoneStops(u: State)
    requires u.mode == DONE
    ensures Step(u).None?
  {
  }

  // ---------------------------------------------------------------------- uncompress

  /** A step that writes makes the output longer. */
  lemma WritesMore(t: State, m: nat, u: State)
    requires Writes(t) && Reaches(t, m, u) && u.mode == DONE
    ensures |u.out| > |t.out|
  {
    hide Step, Peek;
    assert m > 0;
    RunGrows(Step(t).value, m - 1, u);
    WriteStep(t);
  }

  lemma WriteStep(t: State)
    requires Writes(t) && Step(t).Some?
    ensures |Step(t).value.out| == |t.out| + 1
  {
    hide Step, Peek;
    if t.mode == LIT {
      LitAt(t);
    } else if t.mode == MATCH {
      MatchAt(t);
    } else {
      CopyAt(t);
    }
  }

  /** The rest of a longer run. */
  lemma {:induction false} RunRest(s: State, m: nat, t: State, n: nat, u: State)
    requires Reaches(s, m, t) && Reaches(s, n, u) && m <= n
    ensures Reaches(t, n - m, u)
    decreases m
  {
    hide Step;
    if m == 0 {
    } else {
      RunRest(Step(s).value, m - 1, t, n - 1, u);
    }
  }

  /** A decoder without room for its next byte has not written all that the stream stands for. */
  lemma NoRoom(i: Inflater, z: Stream, input: seq<Byte>, n: nat)
    requires i.Valid() && i.Fed() <= input && Writes(i.Machine()) && IsStream(i.Machine().wrap, z, input, n)
    ensures |Output(z)| > |i.History()|
  {
    hide Inflater.Valid, StreamOk, StreamBits, BytesToBits, Output, Whole, Step, IsStream;
    var wrap, t := i.Machine().wrap, i.Machine();
    var u := StreamIsRun(wrap, z, input, n);
    RunOf(i);
    RunExtends(wrap, i.Fed(), t, input);
    var s, x := Whole(wrap, input), Plus(t, BytesToBits(input[|i.Fed()|..]));
    var a: nat :| Reaches(s, a, x);
    var b: nat :| Reaches(s, b, u);
    DoneStops(u);
    if b < a {
      ReachesPast(s, b, u, a, x);
    } else {
      RunRest(s, a, x, b, u);
      WritesMore(x, b - a, u);
    }
  }

  /** Behind a block of a zlib stream stands at least the check value. */
  lemma CheckFollows(s: State, n: nat, t: State)
    requires Ends(s, n, t) && s.mode == TYPE && s.wrap
    ensures |s.unread| >= 32
  {
    hide StateOk, Step, BytesToBits, CheckBytes, S.Check;
    if s.last {
      var pad := TailOf(s, n, t);
      CheckAsBits(S.Check(s.out));
    } else {
      var bs, u, m := BlocksOf(s, n, t, 8 - |s.unread| % 8);
      var pad := TailOf(u, m, t);
      CheckAsBits(S.Check(u.out));
    }
  }

  /** As long as there is something to write, more than the check value is to be read. */
  lemma MoreFollows(s: State, n: nat, t: State)
    requires Ends(s, n, t) && s.wrap && Writes(s)
    ensures |s.unread| > 32
  {
    hide StateOk, Step, BytesToBits, BodyOk, BodyBits;
    if s.mode == COPY {
      var data, u, m := BytesOf(s, n, t);
      BytesLength(data);
      CheckFollows(u, m, t);
    } else {
      var a, k;
      if s.mode == LIT {
        Onward(s, n, t);
        LitAt(s);
        a, k := Step(s).value, n - 1;
      } else {
        a, k := CopiedOf(s, n, t);
      }
      var ps, u, m := BodyOf(a, k, t);
      BodySome(a.llens, a.dlens, ps);
      CheckFollows(u, m, t);
    }
  }

  lemma BodySome(llens: seq<nat>, dlens: seq<nat>, ps: seq<Part>)
    requires BodyOk(llens, dlens, ps)
    ensures |BodyBits(llens, dlens, ps)| >= 1
  {
    hide PartsBits, PartsOk;
  }

  /** The decoder holds no more than 32 bits. */
  lemma HoldsLittle(i: Inflater)
    requires i.Valid()
    ensures |i.Machine().unread| <= 32
  {
    hide Tables, Quiet, CheckOk, StateOk, Reachable, Initial, BytesToBits, RingFor, ToBits, Pow2;
  }

  /** A decoder that has read a whole stream is not short of room. */
  lemma StillToRead(i: Inflater, z: Stream, n: nat)
    requires i.Valid() && i.Machine().wrap && Writes(i.Machine())
    ensures !IsStream(true, z, i.Fed(), n)
  {
    hide Inflater.Valid, StreamOk, StreamBits, BytesToBits, Output, Whole, Step, IsStream, StateOk;
    if IsStream(true, z, i.Fed(), n) {
      var t, s := i.Machine(), Whole(true, i.Fed());
      var u := StreamIsRun(true, z, i.Fed(), n);
      RunOf(i);
      StartIs(true, i.Fed());
      var a: nat :| Reaches(s, a, t);
      var b: nat :| Reaches(s, b, u);
      ReachesOk(s, a, t);
      DoneStops(u);
      if b < a {
        ReachesPast(s, b, u, a, t);
      } else {
        RunRest(s, a, t, b, u);
        MoreFollows(t, b - a, u);
        HoldsLittle(i);
      }
    }
  }

  /** uncompress: succeeds exactly if the source starts with a zlib stream whose output fits, and
      then gives that output; if it does not fit, the room is what is missing. */
  method Uncompress(source: seq<Byte>, room: nat) returns (ret: Ret, dest: seq<Byte>)
    ensures ret == Z_OK <==> exists z: Stream, n: nat :: IsStream(true, z, source, n) && |Output(z)| <= room
    ensures forall z: Stream, n: nat :: ret == Z_OK && IsStream(true, z, source, n) ==> dest == Output(z)
    ensures forall z: Stream, n: nat :: IsStream(true, z, source, n) && |Output(z)| > room ==> ret == Z_BUF_ERROR
    ensures ret != Z_STREAM_END && ret != Z_NEED_DICT && |dest| <= room && (ret == Z_BUF_ERROR ==> |dest| == room)
  {
    hide Inflater.Valid, IsStream, Output, Step, Abs, Reachable, Writes;
    var i := new Inflater(true);
    var consumed;
    ret, consumed, dest := i.Inflate(source, room, true);
    assert i.Fed() == source[..consumed] && i.History() == dest;
    Outcome(i, source, room);
    if ret != Z_STREAM_END {
      if ret == Z_NEED_DICT || (ret == Z_BUF_ERROR && consumed == |source|) {
        ret := Z_DATA_ERROR;
      }
    } else {
      ret := Z_OK;
    }
  }

  lemma Outcome(i: Inflater, source: seq<Byte>, room: nat)
    requires i.Valid() && i.Machine().wrap && i.Fed() <= source && |i.History()| <= room
    requires || (i.Fed() == source && Step(i.Machine()).None?)
             || (|i.History()| == room && Writes(i.Machine()))
             || Halted(i.Machine().mode)
    ensures i.Machine().mode == DONE <==>
            exists z: Stream, n: nat :: IsStream(true, z, source, n) && |Output(z)| <= room
    ensures i.Machine().mode == DONE ==>
              forall z: Stream, n: nat :: IsStream(true, z, source, n) ==> i.History() == Output(z)
    ensures forall z: Stream, n: nat :: IsStream(true, z, source, n) && |Output(z)| > room ==>
              !Halted(i.Machine().mode) && i.Fed() != source
  {
    hide Inflater.Valid, IsStream, Output, Step;
    if Finished(source, i.Fed(), i.Machine()) {
      EndsExactly(i, source);
    } else {
      forall z: Stream, n: nat | IsStream(true, z, source, n)
        ensures |Output(z)| > room && i.Fed() != source
      {
        NoRoom(i, z, source, n);
        StillToRead(i, z, n);
      }
    }
  }
}
