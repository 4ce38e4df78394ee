/** inflate.c: literals, lengths, distances and matches, and the final check. */
module InflateDecode {
  import opened Bits
  import opened Canonical
  import opened InflateTable
  import opened InflateMachine
  import opened InflateState
  import opened InflateModes
  import opened InflateCodes
  import opened AdlerSpec
  import opened Adler

  /** The facts of the decoding modes. */
  lemma DecodeFacts(v: Vars, g: Trace)
    requires StateOk(Abs(v, g)) && Tables(v, g) && InDecode(v.mode)
    ensures CodeOk(LENS, g.llens) && |g.llens| <= 288 && CodeOk(DISTS, g.dlens) && |g.dlens| <= 32
    ensures TableFor(v.lencode, v.lenbits, LENS, g.llens) && Linked(v.lencode, v.lenbits)
    ensures TableFor(v.distcode, v.distbits, DISTS, g.dlens) && Linked(v.distcode, v.distbits)
  {
    hide Lookup, LensOk, ToBits, Accepts;
  }

  lemma DecodeTables(v: Vars, g: Trace, v': Vars)
    requires Tables(v, g) && InDecode(v.mode) && v'.mode != CODELENS
    requires v'.lencode == v.lencode && v'.lenbits == v.lenbits
    requires v'.distcode == v.distcode && v'.distbits == v.distbits
    ensures Tables(v', g)
  {
    hide TableFor;
  }

  // ------------------------------------------------------------------------- LEN

  /** What a decoded literal/length symbol leads to. */
  function LenCode(v: Vars, d: Decoded): (r: Vars) {
    var u := v.(length := d.val);
    if d.op == 0 then u.(mode := LIT)
    else if IsEnd(d.op) then u.(mode := TYPE)
    else if IsInvalid(d.op) then u.(mode := BAD)
    else u.(extra := ExtraBits(d.op), mode := LENEXT)
  }

  lemma LenAbs(v: Vars, g: Trace, d: Decoded)
    requires v.mode == LEN
    ensures UseLen(Abs(v, g), d) == Abs(LenCode(v, d), g)
  {
    hide ToBits, IsEnd, IsInvalid, ExtraBits;
  }

  lemma LenStep(v: Vars, g: Trace)
    requires v.mode == LEN && InBounds(v) && CodeOk(LENS, g.llens) && |g.llens| <= 288
    requires TableFor(v.lencode, v.lenbits, LENS, g.llens) && Linked(v.lencode, v.lenbits)
    ensures var d := Lookup(v.lencode, v.lenbits, v.hold);
            if d.used > v.bits then Step(Abs(v, g)).None?
            else Step(Abs(v, g)) == Some(Abs(LenCode(DropBits(v, d.used), d), g))
  {
    hide Low, Shr, Pow2, Step, FromBits, Lookup, TableFor, CodeOk, RefDecode, LenCode, UseLen, Linked, Abs;
    var s := Abs(v, g);
    var d := Lookup(v.lencode, v.lenbits, v.hold);
    AbsUnread(v, g);
    LenAt(s);
    TableIsRef(v.lencode, v.lenbits, LENS, g.llens, v.hold);
    if d.used <= v.bits {
      AbsPeek(v, g, d.used);
      LenAbs(DropBits(v, d.used), g, d);
    }
  }

  lemma AbsUnread(v: Vars, g: Trace)
    requires v.hold < Pow2(v.bits)
    ensures FromBits(Abs(v, g).unread) == v.hold && |Abs(v, g).unread| == v.bits && Abs(v, g).mode == v.mode
    ensures Abs(v, g).llens == g.llens && Abs(v, g).dlens == g.dlens
  {
    hide FromBits, ToBits, Pow2;
    HoldSplit(v.hold, v.bits, 0);
  }

  lemma LenFrame(v: Vars, d: Decoded)
    requires v.mode == LEN
    ensures var r := LenCode(v, d);
            && r == v.(mode := r.mode, length := r.length, extra := r.extra)
            && (r.mode == LIT || r.mode == TYPE || r.mode == BAD || r.mode == LENEXT)
  {
  }

  /** LEN without inflate_fast. */
  method DoLen(v: Vars, ghost g: Trace) returns (leave: bool, v': Vars)
    requires Valid(v, g) && v.mode == LEN
    ensures Valid(v', g) && SameCall(v, v') && v'.output == v.output
    ensures leave ==> Paused(v', g)
    ensures !leave ==> Left(v') < Left(v)
  {
    hide Valid, Tracks, Tables, CheckOk, Quiet, Step, Abs, Paused, StateOk, Pow2, CodeOk, TableFor, Linked,
         Lookup, LenCode, Shr;
    Facts(v, g);
    DecodeFacts(v, g);
    LenStep(v, g);
    var ok, d, w := SlowDecode(v, v.lencode, v.lenbits, LENS, g.llens, g);
    Pulled(v, g, w);
    LenStep(w, g);
    if !ok {
      Suspend(w, g);
      return true, w;
    }
    v' := LenCode(DropBits(w, d.used), d);
    LenEnd(v, g, w, d);
    return false, v';
  }

  lemma LenEnd(v: Vars, g: Trace, w: Vars, d: Decoded)
    requires Valid(v, g) && OnlyPulled(v, w) && Tracks(w, g) && Tables(w, g) && v.mode == LEN && InBounds(w)
    requires 1 <= d.used <= w.bits < d.used + 8
    requires Step(Abs(w, g)) == Some(Abs(LenCode(DropBits(w, d.used), d), g))
    ensures var r := LenCode(DropBits(w, d.used), d);
            Valid(r, g) && SameCall(w, r) && r.output == w.output && Left(r) < Left(w)
  {
    hide Valid, Tracks, Tables, CheckOk, Quiet, Step, Abs, StateOk, Pow2, LenCode, Shr;
    var u := DropBits(w, d.used);
    ShrBound(w.hold, w.bits, d.used);
    LenFrame(u, d);
    DecodeTables(w, g, LenCode(u, d));
    Plain(v, g, w, LenCode(u, d));
  }

  // --------------------------------------------------------------- LENEXT and DIST

  lemma LenExtFacts(v: Vars, g: Trace)
    requires StateOk(Abs(v, g)) && v.mode == LENEXT
    ensures v.extra <= 5
  {
    hide CodeOk, LensOk, ToBits;
  }

  lemma LenExtAbs(v: Vars, g: Trace, x: nat)
    requires v.mode == LENEXT
    ensures AddLength(Abs(v, g), x) == Abs(v.(length := v.length + x, mode := DIST), g)
  {
    hide ToBits;
  }

  lemma AbsExtra(v: Vars, g: Trace)
    requires v.mode == LENEXT || v.mode == DISTEXT
    ensures Abs(v, g).mode == v.mode && Abs(v, g).extra == v.extra && |Abs(v, g).unread| == v.bits
  {
    hide ToBits;
  }

  lemma LenExtStep(v: Vars, g: Trace)
    requires v.mode == LENEXT && InBounds(v)
    ensures if v.bits < v.extra then Step(Abs(v, g)).None?
            else
              var r := DropBits(v, v.extra).(length := v.length + Low(v.hold, v.extra), mode := DIST);
              Step(Abs(v, g)) == Some(Abs(r, g)) && InBounds(r)
  {
    hide Low, Shr, Pow2, Step, Peek, Drop, Abs, AddLength;
    AbsExtra(v, g);
    LenExtAt(Abs(v, g));
    if v.extra <= v.bits {
      AbsPeek(v, g, v.extra);
      LenExtAbs(DropBits(v, v.extra), g, Low(v.hold, v.extra));
    }
  }

  lemma NoExtra(v: Vars)
    ensures v.(length := v.length + Low(v.hold, 0)) == v && v.(offset := v.offset + Low(v.hold, 0)) == v
            && DropBits(v, 0) == v
  {
  }

  method DoLenExt(v: Vars, ghost g: Trace) returns (leave: bool, v': Vars)
    requires Valid(v, g) && v.mode == LENEXT
    ensures Valid(v', g) && SameCall(v, v') && v'.output == v.output && Left(v') <= Left(v)
    ensures leave ==> Paused(v', g)
    ensures !leave ==> v'.mode == DIST
  {
    hide Valid, Tracks, Tables, CheckOk, Quiet, Step, Abs, Paused, StateOk, Pow2, Shr, Low;
    Facts(v, g);
    LenExtFacts(v, g);
    var w := v;
    if v.extra != 0 {
      var ok;
      ok, w := NeedBits(v, v.extra, g);
      if !ok {
        Pulled(v, g, w);
        LenExtStep(w, g);
        Suspend(w, g);
        return true, w;
      }
      v' := DropBits(w, w.extra).(length := w.length + Low(w.hold, w.extra), mode := DIST);
    } else {
      v' := v.(mode := DIST);
      NoExtra(v');
    }
    LenExtEnd(v, g, w, v');
    return false, v';
  }

  lemma LenExtEnd(v: Vars, g: Trace, w: Vars, v': Vars)
    requires Valid(v, g) && OnlyPulled(v, w) && Tracks(w, g) && v.mode == LENEXT && w.extra <= w.bits < w.extra + 8
    requires v' == DropBits(w, w.extra).(length := w.length + Low(w.hold, w.extra), mode := DIST)
    ensures Valid(v', g) && SameCall(w, v')
  {
    hide Valid, Tracks, Tables, CheckOk, Quiet, Step, Abs, StateOk, Pow2, Shr, Low;
    Facts(v, g);
    Pulled(v, g, w);
    LenExtStep(w, g);
    DecodeTables(w, g, v');
    Plain(v, g, w, v');
  }

  function DistCode(v: Vars, d: Decoded): (r: Vars) {
    if IsInvalid(d.op) then v.(mode := BAD)
    else v.(offset := d.val, extra := ExtraBits(d.op), mode := DISTEXT)
  }

  lemma DistAbs(v: Vars, g: Trace, d: Decoded)
    requires v.mode == DIST
    ensures UseDist(Abs(v, g), d) == Abs(DistCode(v, d), g)
  {
    hide ToBits, IsInvalid, ExtraBits;
  }

  lemma DistStep(v: Vars, g: Trace)
    requires v.mode == DIST && InBounds(v) && CodeOk(DISTS, g.dlens) && |g.dlens| <= 32
    requires TableFor(v.distcode, v.distbits, DISTS, g.dlens) && Linked(v.distcode, v.distbits)
    ensures var d := Lookup(v.distcode, v.distbits, v.hold);
            if d.used > v.bits then Step(Abs(v, g)).None?
            else Step(Abs(v, g)) == Some(Abs(DistCode(DropBits(v, d.used), d), g))
  {
    hide Low, Shr, Pow2, Step, FromBits, Lookup, TableFor, CodeOk, RefDecode, DistCode, UseDist, Linked, Abs;
    var s := Abs(v, g);
    var d := Lookup(v.distcode, v.distbits, v.hold);
    AbsUnread(v, g);
    DistAt(s);
    TableIsRef(v.distcode, v.distbits, DISTS, g.dlens, v.hold);
    if d.used <= v.bits {
      AbsPeek(v, g, d.used);
      DistAbs(DropBits(v, d.used), g, d);
    }
  }

  lemma DistFrame(v: Vars, d: Decoded)
    requires v.mode == DIST
    ensures var r := DistCode(v, d);
            && r == v.(mode := r.mode, offset := r.offset, extra := r.extra) && (r.mode == BAD || r.mode == DISTEXT)
  {
  }

  method DoDist(v: Vars, ghost g: Trace) returns (leave: bool, v': Vars)
    requires Valid(v, g) && v.mode == DIST
    ensures Valid(v', g) && SameCall(v, v') && v'.output == v.output
    ensures leave ==> Paused(v', g)
    ensures !leave ==> Left(v') < Left(v)
  {
    hide Valid, Tracks, Tables, CheckOk, Quiet, Step, Abs, Paused, StateOk, Pow2, CodeOk, TableFor, Linked,
         Lookup, DistCode, Shr;
    Facts(v, g);
    DecodeFacts(v, g);
    DistStep(v, g);
    var ok, d, w := SlowDecode(v, v.distcode, v.distbits, DISTS, g.dlens, g);
    Pulled(v, g, w);
    DistStep(w, g);
    if !ok {
      Suspend(w, g);
      return true, w;
    }
    v' := DistCode(DropBits(w, d.used), d);
    DistEnd(v, g, w, d);
    return false, v';
  }

  lemma DistEnd(v: Vars, g: Trace, w: Vars, d: Decoded)
    requires Valid(v, g) && OnlyPulled(v, w) && Tracks(w, g) && Tables(w, g) && v.mode == DIST && InBounds(w)
    requires 1 <= d.used <= w.bits < d.used + 8
    requires Step(Abs(w, g)) == Some(Abs(DistCode(DropBits(w, d.used), d), g))
    ensures var r := DistCode(DropBits(w, d.used), d);
            Valid(r, g) && SameCall(w, r) && r.output == w.output && Left(r) < Left(w)
  {
    hide Valid, Tracks, Tables, CheckOk, Quiet, Step, Abs, StateOk, Pow2, DistCode, Shr;
    var u := DropBits(w, d.used);
    ShrBound(w.hold, w.bits, d.used);
    DistFrame(u, d);
    DecodeTables(w, g, DistCode(u, d));
    Plain(v, g, w, DistCode(u, d));
  }

  // --------------------------------------------------------------------- DISTEXT

  lemma DistExtFacts(v: Vars, g: Trace)
    requires StateOk(Abs(v, g)) && v.mode == DISTEXT
    ensures v.extra <= 13 && 1 <= v.offset && v.offset + Pow2(v.extra) <= 32769
  {
    hide CodeOk, LensOk, ToBits, Pow2;
  }

  /** The distance once its extra bits are there; history is what it may reach. */
  function DistExtCode(v: Vars, history: nat): (r: Vars)
    requires v.extra <= v.bits
  {
    var dist := v.offset + Low(v.hold, v.extra);
    DropBits(v, v.extra).(offset := dist, mode := if dist > history then BAD else MATCH)
  }

  lemma DistExtStep(v: Vars, g: Trace, history: nat)
    requires v.mode == DISTEXT && v.hold < Pow2(v.bits)
    requires v.extra <= v.bits ==>
               var dist := v.offset + Low(v.hold, v.extra);
               dist > history <==> dist > |g.hist0 + v.output|
    ensures if v.bits < v.extra then Step(Abs(v, g)).None?
            else Step(Abs(v, g)) == Some(Abs(DistExtCode(v, history), g))
  {
    hide Low, Shr, Pow2, Step, Peek, Drop, Abs, AddDistance;
    AbsExtra(v, g);
    DistExtAt(Abs(v, g));
    if v.extra <= v.bits {
      AbsPeek(v, g, v.extra);
      DistExtAbs(DropBits(v, v.extra), g, Low(v.hold, v.extra), history);
    }
  }

  lemma DistExtAbs(v: Vars, g: Trace, x: nat, history: nat)
    requires v.mode == DISTEXT && (v.offset + x > history <==> v.offset + x > |g.hist0 + v.output|)
    ensures AddDistance(Abs(v, g), x)
         == Abs(v.(offset := v.offset + x, mode := if v.offset + x > history then BAD else MATCH), g)
  {
    hide ToBits;
  }

  /** The ring and the output of this call reach as far back as a distance can. */
  lemma Reach(window: seq<Byte>, v: Vars, g: Trace, dist: nat)
    requires RingFor(window, v.wsize, v.whave, v.write, g.hist0) && dist <= 32768
    ensures dist > v.whave + |v.output| <==> dist > |g.hist0 + v.output|
  {
  }

  method DoDistExt(v: Vars, ghost g: Trace, ghost window: seq<Byte>) returns (leave: bool, v': Vars)
    requires Valid(v, g) && v.mode == DISTEXT && RingFor(window, v.wsize, v.whave, v.write, g.hist0)
    ensures Valid(v', g) && SameCall(v, v') && v'.output == v.output && Left(v') <= Left(v)
    ensures leave ==> Paused(v', g)
    ensures !leave ==> v'.mode == MATCH || v'.mode == BAD
  {
    hide Valid, Tracks, Tables, CheckOk, Quiet, Step, Abs, Paused, StateOk, Pow2, Shr, Low, RingFor, DistExtCode;
    Facts(v, g);
    DistExtFacts(v, g);
    if v.extra <= v.bits {
      DistExtEnough(v, g);
    }
    var ok, w := NeedBits(v, v.extra, g);
    Pulled(v, g, w);
    if w.extra <= w.bits {
      LowBound(w.hold, w.extra);
      Reach(window, w, g, w.offset + Low(w.hold, w.extra));
    }
    DistExtStep(w, g, w.whave + |w.output|);
    if !ok {
      Suspend(w, g);
      return true, w;
    }
    v' := DistExtCode(w, w.whave + |w.output|);
    DistExtFrame(w, w.whave + |w.output|);
    DecodeTables(w, g, v');
    Plain(v, g, w, v');
    return false, v';
  }

  lemma DistExtEnough(v: Vars, g: Trace)
    requires v.mode == DISTEXT && v.extra <= v.bits
    ensures Step(Abs(v, g)).Some?
  {
    hide ToBits;
  }

  lemma DistExtFrame(v: Vars, history: nat)
    requires v.extra <= v.bits && InBounds(v)
    ensures var r := DistExtCode(v, history);
            && InBounds(r) && r == v.(mode := r.mode, offset := r.offset, hold := r.hold, bits := v.bits - v.extra)
            && (r.mode == BAD || r.mode == MATCH)
  {
    hide Low, Shr, Pow2;
    ShrBound(v.hold, v.bits, v.extra);
  }

  // --------------------------------------------------------------- MATCH and LIT

  lemma MatchFacts(v: Vars, g: Trace)
    requires StateOk(Abs(v, g)) && v.mode == MATCH
    ensures 1 <= v.length <= 258 && 1 <= v.offset <= 32768 && v.offset <= |g.hist0| + |v.output|
  {
    hide CodeOk, LensOk, ToBits, Pow2;
  }

  /** The byte a match copies next. */
  ghost function MatchByte(v: Vars, g: Trace): Byte
    requires 1 <= v.offset <= |g.hist0| + |v.output|
  {
    (g.hist0 + v.output)[|g.hist0| + |v.output| - v.offset]
  }

  /** One byte of a match; the last one ends it. */
  function CopyOne(v: Vars, x: Byte): (r: Vars)
    requires v.length > 0
  {
    v.(output := v.output + [x], length := v.length - 1, mode := if v.length == 1 then LEN else MATCH)
  }

  lemma MatchStep(v: Vars, g: Trace)
    requires v.mode == MATCH && 1 <= v.length && 1 <= v.offset <= |g.hist0| + |v.output|
    ensures Step(Abs(v, g)) == Some(Abs(CopyOne(v, MatchByte(v, g)), g))
  {
    hide Step, Abs, EmitMatch, CopyOne;
    AbsMatch(v, g);
    MatchAt(Abs(v, g));
    EmitAbs(v, g, MatchByte(v, g));
  }

  lemma AbsMatch(v: Vars, g: Trace)
    requires v.mode == MATCH
    ensures var s := Abs(v, g);
            s.mode == MATCH && s.length == v.length && s.offset == v.offset && s.out == g.hist0 + v.output
  {
    hide ToBits;
  }

  lemma EmitAbs(v: Vars, g: Trace, x: Byte)
    requires v.mode == MATCH && v.length > 0
    ensures Abs(v, g).length > 0 && EmitMatch(Abs(v, g), x) == Abs(CopyOne(v, x), g)
  {
    hide ToBits;
    assert g.hist0 + v.output + [x] == g.hist0 + (v.output + [x]);
  }

  lemma MatchTracks(v: Vars, g: Trace, x: Byte)
    requires Tracks(v, g) && v.mode == MATCH && 1 <= v.length && 1 <= v.offset <= |g.hist0| + |v.output|
    requires |v.output| < v.avail && x == MatchByte(v, g)
    ensures Tracks(CopyOne(v, x), g)
  {
    hide Tracks, Step, Abs, Pow2;
    TracksBounds(v, g);
    MatchStep(v, g);
    Advance(v, g, CopyOne(v, x), g);
  }

  /** Where in the window the byte at a distance beyond this call's output stands. */
  lemma WindowByte(window: seq<Byte>, v: Vars, g: Trace)
    requires RingFor(window, v.wsize, v.whave, v.write, g.hist0)
    requires |v.output| < v.offset <= 32768 && v.offset <= |g.hist0| + |v.output|
    ensures MatchByte(v, g) == window[RingIndex(v.write, v.offset - |v.output|)]
    ensures v.wsize == WSIZE
  {
  }

  lemma OutputByte(v: Vars, g: Trace)
    requires 1 <= v.offset <= |v.output|
    ensures MatchByte(v, g) == v.output[|v.output| - v.offset]
  {
  }

  /** Copies n bytes of a match: from the window at from, or from the output. */
  method CopyMatch(v: Vars, n: nat, window: seq<Byte>, inWindow: bool, from: nat, ghost g: Trace) returns (v': Vars)
    requires Tracks(v, g) && v.mode == MATCH && 1 <= n <= v.length && |v.output| + n <= v.avail && v.base == 0
    requires RingFor(window, v.wsize, v.whave, v.write, g.hist0)
    requires inWindow ==> |v.output| + n <= v.offset && from + n <= WSIZE
    requires inWindow ==>
               var far := v.offset - |v.output|;
               forall d :: far - n < d <= far ==> RingIndex(v.write, d) == from + far - d
    requires !inWindow ==> v.offset <= |v.output|
    ensures Tracks(v', g) && v.output <= v'.output && |v'.output| == |v.output| + n
    ensures v' == v.(output := v'.output, length := v.length - n, mode := if n == v.length then LEN else MATCH)
  {
    hide Tracks, Step, Abs, StateOk, RingFor, Pow2, RingIndex, MatchByte;
    var i := 0;
    v' := v;
    while i < n
      invariant i <= n && Tracks(v', g) && v.output <= v'.output && |v'.output| == |v.output| + i
      invariant v' == v.(output := v'.output, length := v.length - i, mode := if i == v.length then LEN else MATCH)
    {
      TracksOk(v', g);
      MatchFacts(v', g);
      var x;
      if inWindow {
        WindowByte(window, v', g);
        assert |window| == WSIZE by { RingSize(window, v, g); }
        x := window[from + i];
      } else {
        OutputByte(v', g);
        x := v'.output[|v'.output| - v'.offset];
      }
      MatchTracks(v', g, x);
      v' := CopyOne(v', x);
      i := i + 1;
    }
  }

  lemma TracksOk(v: Vars, g: Trace)
    requires Tracks(v, g)
    ensures StateOk(Abs(v, g)) && InBounds(v)
  {
    hide StateOk, Abs, InBounds, Reachable;
  }

  lemma RingSize(window: seq<Byte>, v: Vars, g: Trace)
    requires RingFor(window, v.wsize, v.whave, v.write, g.hist0)
    ensures |window| == WSIZE && v.write < WSIZE
  {
  }

  method DoMatch(v: Vars, window: seq<Byte>, ghost g: Trace) returns (leave: bool, v': Vars)
    requires Valid(v, g) && v.mode == MATCH && RingFor(window, v.wsize, v.whave, v.write, g.hist0)
    ensures Valid(v', g) && SameCall(v, v')
    ensures leave ==> Paused(v', g)
    ensures !leave ==> Left(v') < Left(v)
  {
    hide Valid, Tracks, Tables, CheckOk, Quiet, Step, Abs, StateOk, Pow2, RingFor;
    if |v.output| == v.avail {
      return true, v;
    }
    Facts(v, g);
    MatchFacts(v, g);
    RingSize(window, v, g);
    var copy := |v.output|;
    var from := 0;
    var inWindow := v.offset > copy;
    if inWindow {
      WindowByte(window, v, g);
      copy := v.offset - copy;
      if copy > v.write {
        copy := copy - v.write;
        from := v.wsize - copy;
      } else {
        from := v.write - copy;
      }
      if copy > v.length {
        copy := v.length;
      }
    } else {
      copy := v.length;
    }
    if copy > v.avail - |v.output| {
      copy := v.avail - |v.output|;
    }
    v' := CopyMatch(v, copy, window, inWindow, from, g);
    CheckKept(v, g, v', g);
    DecodeTables(v, g, v');
    Finish(v', g);
    return false, v';
  }

  lemma LitStep(v: Vars, g: Trace)
    requires v.mode == LIT && StateOk(Abs(v, g))
    ensures v.length < 256
    ensures Step(Abs(v, g)) == Some(Abs(v.(output := v.output + [v.length], mode := LEN), g))
  {
    hide Step, ToBits, CodeOk, LensOk, Pow2;
    LitAt(Abs(v, g));
    assert v.length < 256;
    assert g.hist0 + v.output + [v.length] == g.hist0 + (v.output + [v.length]);
  }

  method DoLit(v: Vars, ghost g: Trace) returns (leave: bool, v': Vars)
    requires Valid(v, g) && v.mode == LIT
    ensures Valid(v', g) && SameCall(v, v')
    ensures leave ==> Paused(v', g)
    ensures !leave ==> Left(v') < Left(v)
  {
    hide Valid, Tracks, Tables, CheckOk, Quiet, Step, Abs, StateOk, Pow2;
    if |v.output| == v.avail {
      return true, v;
    }
    Facts(v, g);
    LitStep(v, g);
    v' := v.(output := v.output + [v.length], mode := LEN);
    DecodeTables(v, g, v');
    Plain(v, g, v, v');
    return false, v';
  }

  // ----------------------------------------------------------------------- CHECK

  lemma CheckStuck(v: Vars, g: Trace)
    requires v.mode == CHECK && v.wrap && v.bits < 32
    ensures Step(Abs(v, g)).None?
  {
  }

  lemma RawEnd(v: Vars, g: Trace)
    requires v.mode == CHECK && !v.wrap
    ensures Step(Abs(v, g)) == Some(Abs(v.(mode := DONE), g))
  {
  }

  /** CHECK once there are 32 bits and the check value covers all output. */
  function CheckCode(v: Vars): (r: Vars) {
    if Reverse4(v.hold) != v.check then v.(mode := BAD) else v.(hold := 0, bits := 0, mode := DONE)
  }

  lemma CheckStep(v: Vars, g: Trace)
    requires v.mode == CHECK && v.wrap && v.bits == 32 && InBounds(v) && CheckOk(v, g) && v.base == |v.output|
    ensures var r := CheckCode(v);
            && Step(Abs(v, g)) == Some(Abs(r, g)) && InBounds(r) && (r.mode == BAD || r.mode == DONE)
            && r == v.(mode := r.mode, hold := r.hold, bits := r.bits)
  {
    hide Low, Shr, Pow2, FromBits, ToBits, Step, Packed, Feed, Reverse4;
    CheckAt(Abs(v, g));
    AbsPeek(v, g, 32);
    LowSmall(v.hold, 32);
    NoBits(Shr(v.hold, 32));
    NoBits(0);
    assert v.output[..v.base] == v.output;
  }

  /** UPDATE: the check value after all output of this call. */
  method UpdateCheck(v: Vars, ghost g: Trace) returns (v': Vars)
    requires CheckOk(v, g) && v.wrap && v.mode != DICT
    ensures v' == v.(check := v'.check, base := |v.output|)
    ensures v'.check == Packed(Feed(START, g.hist0 + v.output))
  {
    hide Packed, Feed;
    v' := v.(base := |v.output|);
    ghost var s := Feed(START, g.hist0 + v.output[..v.base]);
    PackUnpack(s);
    FeedAppend(START, g.hist0 + v.output[..v.base], v.output[v.base..]);
    assert g.hist0 + v.output[..v.base] + v.output[v.base..] == g.hist0 + v.output;
    if |v.output| > v.base {
      var c := Adler32(v.check, v.output[v.base..]);
      v' := v'.(check := c);
    } else {
      assert v.output[..v.base] == v.output;
    }
  }

  method DoCheck(v: Vars, ghost g: Trace) returns (leave: bool, v': Vars)
    requires Valid(v, g) && v.mode == CHECK
    ensures Valid(v', g) && SameCall(v, v') && v'.output == v.output && Left(v') <= Left(v)
    ensures leave ==> Paused(v', g) && v'.mode == CHECK
    ensures !leave ==> v'.mode == DONE || v'.mode == BAD
  {
    hide Valid, Tracks, Tables, CheckOk, Quiet, Step, Abs, Paused, StateOk, Pow2, CheckCode, Packed, Feed;
    Facts(v, g);
    if !v.wrap {
      v' := v.(mode := DONE);
      RawEnd(v, g);
      NoTables(v', g);
      Plain(v, g, v, v');
      return false, v';
    }
    var ok, w := NeedBits(v, 32, g);
    Pulled(v, g, w);
    if !ok {
      CheckStuck(w, g);
      Suspend(w, g);
      return true, w;
    }
    var u := UpdateCheck(w, g);
    UpdatedOk(w, g, u);
    v' := CheckCode(u);
    CheckEnd(u, g);
    return false, v';
  }

  lemma CheckEnd(u: Vars, g: Trace)
    requires Tracks(u, g) && CheckOk(u, g) && u.mode == CHECK && u.wrap && u.bits == 32 && u.base == |u.output|
    ensures var r := CheckCode(u);
            Valid(r, g) && SameCall(u, r) && r.output == u.output && Left(r) <= Left(u)
            && (r.mode == DONE || r.mode == BAD)
  {
    hide Valid, Tracks, Tables, CheckOk, Quiet, Step, Abs, StateOk, Pow2, CheckCode;
    TracksBounds(u, g);
    CheckStep(u, g);
    var r := CheckCode(u);
    Advance(u, g, r, g);
    NoTables(r, g);
    CheckKept(u, g, r, g);
    Finish(r, g);
  }

  lemma UpdatedOk(w: Vars, g: Trace, u: Vars)
    requires Tracks(w, g) && w.mode == CHECK && w.wrap && u == w.(check := u.check, base := |w.output|)
    requires u.check == Packed(Feed(START, g.hist0 + w.output))
    ensures Tracks(u, g) && CheckOk(u, g)
  {
    hide Packed, Feed, Reachable, StateOk, ToBits, Pow2;
    assert u.output[..u.base] == u.output;
    assert Abs(u, g) == Abs(w, g);
    assert Start(u, g) == Start(w, g);
  }
}
