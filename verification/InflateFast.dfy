/** inffast.c: the fast loop of LEN, which reads input ahead of its needs.

    A ghost copy of the decoder takes only the bytes each code needs and follows
    the reference machine; the fast code's accumulator is always that copy's plus
    whole bytes read ahead, and these are given back at the end. */
module InflateFast {
  import opened Bits
  import opened Canonical
  import opened InflateTable
  import opened InflateMachine
  import opened InflateState
  import opened InflateModes
  import opened InflateCodes
  import opened InflateDecode

  // ------------------------------------------------------------- copying a match

  /** r continues h by bytes each equal to the one d before it. */
  ghost predicate Repeats(h: seq<Byte>, d: nat, r: seq<Byte>) {
    h <= r && d <= |h| && forall i :: |h| <= i < |r| ==> r[i] == r[i - d]
  }

  lemma RepeatsThen(h: seq<Byte>, d: nat, r: seq<Byte>, x: Byte)
    requires Repeats(h, d, r) && 1 <= d && x == r[|r| - d]
    ensures Repeats(h, d, r + [x])
  {
  }

  /** Copying is what the machine does byte by byte. */
  lemma {:induction false} MatchRun(u: Vars, g: Trace, out: seq<Byte>)
    requires Tracks(u, g) && u.mode == MATCH && u.length > 0 && |out| == |u.output| + u.length <= u.avail
    requires Repeats(g.hist0 + u.output, u.offset, g.hist0 + out)
    ensures Tracks(u.(output := out, length := 0, mode := LEN), g)
    decreases u.length
  {
    hide Tracks, Abs, StateOk, Pow2, Repeats;
    TracksOk(u, g);
    MatchFacts(u, g);
    RepeatsNext(u, g, out);
    MatchTracks(u, g, out[|u.output|]);
    var w := CopyOne(u, out[|u.output|]);
    if u.length == 1 {
      assert w.output == out;
    } else {
      MatchRun(w, g, out);
    }
  }

  lemma RepeatsNext(u: Vars, g: Trace, out: seq<Byte>)
    requires Repeats(g.hist0 + u.output, u.offset, g.hist0 + out) && |out| > |u.output|
    requires 1 <= u.offset <= |g.hist0| + |u.output|
    ensures out[|u.output|] == MatchByte(u, g) && out[..|u.output|] == u.output
    ensures u.output + [out[|u.output|]] <= out
    ensures Repeats(g.hist0 + (u.output + [out[|u.output|]]), u.offset, g.hist0 + out)
  {
    var h, r, k := g.hist0 + u.output, g.hist0 + out, |g.hist0| + |u.output|;
    assert r[k] == r[k - u.offset];
    assert r[k - u.offset] == h[k - u.offset];
    assert u.output == h[|g.hist0|..] == r[|g.hist0|..k] == out[..|u.output|];
  }

  /** Where a byte before this call's output stands in the window. */
  lemma RingByte(window: seq<Byte>, wsize: nat, whave: nat, write: nat, h: seq<Byte>, out: seq<Byte>, dist: nat)
    requires RingFor(window, wsize, whave, write, h)
    requires |out| < dist <= 32768 && dist <= |h| + |out|
    ensures |window| == WSIZE && window[RingIndex(write, dist - |out|)] == (h + out)[|h| + |out| - dist]
  {
  }

  /** The copy loops from the window: n bytes from the position from on. */
  method CopyWindow(out: seq<Byte>, window: seq<Byte>, from: nat, n: nat, dist: nat,
                    ghost wsize: nat, ghost whave: nat, write: nat, ghost h: seq<Byte>, ghost out0: seq<Byte>)
    returns (out': seq<Byte>)
    requires RingFor(window, wsize, whave, write, h) && Repeats(h + out0, dist, h + out)
    requires |out| + n <= dist <= 32768 && dist <= |h| + |out| && 1 <= dist
    requires var far := dist - |out|;
             (far > write && n <= far - write && from == WSIZE + write - far) || (far <= write && from == write - far)
    ensures |out'| == |out| + n && Repeats(h + out0, dist, h + out')
  {
    hide RingFor, Repeats;
    out' := out;
    var op := 0;
    while op < n
      invariant op <= n && |out'| == |out| + op && Repeats(h + out0, dist, h + out')
    {
      RingByte(window, wsize, whave, write, h, out', dist);
      var x := window[from + op];
      RepeatsThen(h + out0, dist, h + out', x);
      assert h + out' + [x] == h + (out' + [x]);
      out' := out' + [x];
      op := op + 1;
    }
  }

  /** The copy loops from the output, three bytes at a time. */
  method CopyOutput(out: seq<Byte>, n: nat, dist: nat, ghost h: seq<Byte>, ghost out0: seq<Byte>)
    returns (out': seq<Byte>)
    requires Repeats(h + out0, dist, h + out) && 1 <= dist <= |out|
    ensures |out'| == |out| + n && Repeats(h + out0, dist, h + out')
  {
    hide Repeats;
    out' := out;
    var len := n;
    while len > 2
      invariant 0 <= len <= n && |out'| == |out| + n - len && Repeats(h + out0, dist, h + out')
    {
      out' := CopyByteBack(out', dist, h, out0);
      out' := CopyByteBack(out', dist, h, out0);
      out' := CopyByteBack(out', dist, h, out0);
      len := len - 3;
    }
    if len != 0 {
      out' := CopyByteBack(out', dist, h, out0);
      if len > 1 {
        out' := CopyByteBack(out', dist, h, out0);
      }
    }
  }

  method CopyByteBack(out: seq<Byte>, dist: nat, ghost h: seq<Byte>, ghost out0: seq<Byte>) returns (out': seq<Byte>)
    requires Repeats(h + out0, dist, h + out) && 1 <= dist <= |out|
    ensures |out'| == |out| + 1 && Repeats(h + out0, dist, h + out')
  {
    hide Repeats;
    var x := out[|out| - dist];
    RepeatsThen(h + out0, dist, h + out, x);
    assert h + out + [x] == h + (out + [x]);
    out' := out + [x];
  }

  lemma RepeatsStart(h: seq<Byte>, d: nat)
    requires d <= |h|
    ensures Repeats(h, d, h)
  {
  }

  /** The match: false if it reaches too far back. */
  method FastCopy(out: seq<Byte>, window: seq<Byte>, wsize: nat, whave: nat, write: nat, dist: nat, length: nat,
                  ghost h: seq<Byte>)
    returns (ok: bool, out': seq<Byte>)
    requires RingFor(window, wsize, whave, write, h) && 1 <= dist <= 32768
    ensures ok <==> dist <= |h| + |out|
    ensures ok ==> |out'| == |out| + length && Repeats(h + out, dist, h + out')
  {
    hide Repeats, RingFor;
    RingFacts(window, wsize, whave, write, h);
    out' := out;
    if dist > |out| {
      var op := dist - |out|;
      if op > whave {
        return false, out;
      }
      RepeatsStart(h + out, dist);
      out' := CopyFar(out, window, wsize, whave, write, dist, length, h);
    } else {
      RepeatsStart(h + out, dist);
      out' := CopyOutput(out, length, dist, h, out);
    }
    ok := true;
  }

  lemma RingFacts(window: seq<Byte>, wsize: nat, whave: nat, write: nat, h: seq<Byte>)
    requires RingFor(window, wsize, whave, write, h)
    ensures |window| == WSIZE && write < WSIZE && whave <= |h|
    ensures |h| <= WSIZE ==> whave == |h|
    ensures |h| > WSIZE ==> whave == WSIZE
    ensures whave > 0 ==> wsize == WSIZE
  {
  }

  /** A match that starts in the window: at its end, around it, or before the
      write position. */
  method CopyFar(out: seq<Byte>, window: seq<Byte>, wsize: nat, whave: nat, write: nat, dist: nat, length: nat,
                 ghost h: seq<Byte>)
    returns (out': seq<Byte>)
    requires RingFor(window, wsize, whave, write, h) && |out| < dist <= 32768 && dist - |out| <= whave
    requires Repeats(h + out, dist, h + out)
    ensures |out'| == |out| + length && Repeats(h + out, dist, h + out')
  {
    hide Repeats, RingFor;
    RingFacts(window, wsize, whave, write, h);
    var op := dist - |out|;
    var len := length;
    if write == 0 {
      out' := CopyPart(out, window, wsize - op, op, len, wsize, whave, write, dist, h, out);
    } else if write < op {
      var from := wsize + write - op;
      op := op - write;
      if op < len {
        len := len - op;
        out' := CopyWindow(out, window, from, op, dist, wsize, whave, write, h, out);
        out' := CopyPart(out', window, 0, write, len, wsize, whave, write, dist, h, out);
      } else {
        out' := CopyWindow(out, window, from, len, dist, wsize, whave, write, h, out);
      }
    } else {
      out' := CopyPart(out, window, write - op, op, len, wsize, whave, write, dist, h, out);
    }
  }

  /** op bytes from the window, or as many as the match has, and the rest from the
      output. */
  method CopyPart(out: seq<Byte>, window: seq<Byte>, from: nat, op: nat, len: nat,
                  ghost wsize: nat, ghost whave: nat, write: nat, dist: nat, ghost h: seq<Byte>, ghost out0: seq<Byte>)
    returns (out': seq<Byte>)
    requires RingFor(window, wsize, whave, write, h) && Repeats(h + out0, dist, h + out)
    requires 1 <= op && |out| + op == dist <= 32768 && dist <= |h| + |out|
    requires (op > write == 0 && from == WSIZE - op) || (op <= write && from == write - op)
    ensures |out'| == |out| + len && Repeats(h + out0, dist, h + out')
  {
    hide Repeats, RingFor;
    if op < len {
      out' := CopyWindow(out, window, from, op, dist, wsize, whave, write, h, out0);
      out' := CopyOutput(out', len - op, dist, h, out0);
    } else {
      out' := CopyWindow(out, window, from, len, dist, wsize, whave, write, h, out0);
    }
  }

  // ------------------------------------------------------------- reading ahead

  /** The accumulator and the input position. */
  datatype Acc = Acc(hold: nat, bits: nat, next: nat)

  function AccOf(v: Vars): (a: Acc) {
    Acc(v.hold, v.bits, v.next)
  }

  function DropAcc(a: Acc, n: nat): (r: Acc)
    requires n <= a.bits
  {
    Acc(Shr(a.hold, n), a.bits - n, a.next)
  }

  function PullAcc(a: Acc, input: seq<Byte>): (r: Acc)
    requires a.next < |input|
  {
    Acc(a.hold + Shl(input[a.next], a.bits), a.bits + 8, a.next + 1)
  }

  /** a is u with the bytes between their input positions read as well. */
  ghost predicate Ahead(input: seq<Byte>, u: Acc, a: Acc) {
    && u.next <= a.next <= |input| && a.bits == u.bits + 8 * (a.next - u.next)
    && u.hold < Pow2(u.bits) && a.hold < Pow2(a.bits)
    && ToBits(a.hold, a.bits) == ToBits(u.hold, u.bits) + BytesToBits(input[u.next..a.next])
  }

  lemma AheadSelf(input: seq<Byte>, u: Acc)
    requires u.next <= |input| && u.hold < Pow2(u.bits)
    ensures Ahead(input, u, u)
  {
    assert input[u.next..u.next] == [];
  }

  lemma AheadPull(input: seq<Byte>, u: Acc, a: Acc)
    requires Ahead(input, u, a) && a.next < |input|
    ensures Ahead(input, u, PullAcc(a, input))
  {
    hide ToBits, Pow2, Shl, BytesToBits;
    var x := input[a.next];
    HoldPull(a.hold, a.bits, x);
    assert input[u.next..a.next + 1] == input[u.next..a.next] + [x];
    BytesToBitsAppend(input[u.next..a.next], [x]);
    OneByteBits(x);
  }

  lemma AheadCatch(input: seq<Byte>, u: Acc, a: Acc)
    requires Ahead(input, u, a) && u.next < a.next
    ensures Ahead(input, PullAcc(u, input), a)
  {
    hide ToBits, Pow2, Shl, BytesToBits;
    var x := input[u.next];
    HoldPull(u.hold, u.bits, x);
    assert input[u.next..a.next] == [x] + input[u.next + 1..a.next];
    BytesToBitsAppend([x], input[u.next + 1..a.next]);
    OneByteBits(x);
  }

  lemma AheadDrop(input: seq<Byte>, u: Acc, a: Acc, n: nat)
    requires Ahead(input, u, a) && n <= u.bits
    ensures Ahead(input, DropAcc(u, n), DropAcc(a, n))
  {
    hide ToBits, Pow2, Shr, BytesToBits, FromBits, Low;
    HoldSplit(u.hold, u.bits, n);
    HoldSplit(a.hold, a.bits, n);
    var b := BytesToBits(input[u.next..a.next]);
    assert (ToBits(u.hold, u.bits) + b)[n..] == ToBits(u.hold, u.bits)[n..] + b;
  }

  lemma AheadLow(input: seq<Byte>, u: Acc, a: Acc)
    requires Ahead(input, u, a)
    ensures Low(a.hold, u.bits) == u.hold
  {
    hide ToBits, Pow2, Shr, BytesToBits, FromBits, Low;
    HoldSplit(u.hold, u.bits, u.bits);
    HoldSplit(a.hold, a.bits, u.bits);
    assert ToBits(a.hold, a.bits)[..u.bits] == ToBits(u.hold, u.bits);
  }

  /** Giving the whole bytes back. */
  lemma AheadDone(input: seq<Byte>, u: Acc, a: Acc)
    requires Ahead(input, u, a) && u.bits < 8
    ensures a.next >= a.bits / 8
    ensures u == Acc(Low(a.hold, a.bits % 8), a.bits % 8, a.next - a.bits / 8)
  {
    hide Low, Pow2, ToBits, BytesToBits;
    AheadLow(input, u, a);
  }

  lemma PullTracked(u: Vars, g: Trace)
    requires Tracks(u, g) && u.next < |u.input| && u.bits <= 24
    ensures var a := PullAcc(AccOf(u), u.input);
            Tracks(u.(hold := a.hold, bits := a.bits, next := a.next), g)
  {
    hide Reachable, StateOk, Pow2, Shl, ToBits, BytesToBits, Initial, UsesLength;
    PullTracks(u.wrap, g.fed0, u.input, u.next, Abs(u, g));
    HoldPull(u.hold, u.bits, u.input[u.next]);
  }

  /** The copy that takes only what it needs, with n bits. */
  lemma {:induction false} Catch(u: Vars, g: Trace, a: Acc, n: nat) returns (u': Vars)
    requires Tracks(u, g) && Ahead(u.input, AccOf(u), a) && n <= a.bits && n <= 24
    ensures Tracks(u', g) && Ahead(u.input, AccOf(u'), a) && OnlyPulled(u, u') && Left(u') == Left(u)
    ensures u'.bits >= n && (u.bits >= n ==> u' == u) && (u.bits < n ==> u'.bits < n + 8)
    decreases |u.input| - u.next
  {
    hide Tracks, Ahead, Shl;
    u' := u;
    if u.bits >= n {
    } else {
      AheadFacts(u.input, AccOf(u), a);
      AheadCatch(u.input, AccOf(u), a);
      PullTracked(u, g);
      var b := PullAcc(AccOf(u), u.input);
      u' := Catch(u.(hold := b.hold, bits := b.bits, next := b.next), g, a, n);
    }
  }

  lemma AheadFacts(input: seq<Byte>, u: Acc, a: Acc)
    requires Ahead(input, u, a)
    ensures u.next <= a.next <= |input| && a.bits == u.bits + 8 * (a.next - u.next)
    ensures u.hold < Pow2(u.bits) && a.hold < Pow2(a.bits)
  {
  }

  // ----------------------------------------------------------------- the codes

  predicate IsBase(op: nat) { op / 16 % 2 == 1 }

  /** The tests of inflate_fast, in its order, agree with those of inflate. */
  lemma LenOps(s: nat)
    requires s < 288
    ensures var op := SymOp(LENS, s);
            || op == 0
            || (IsBase(op) && !IsEnd(op) && !IsInvalid(op) && op >= 16)
            || (!IsBase(op) && IsInvalid(op) && op >= 16)
  {
  }

  lemma DistBases(s: nat)
    requires s < 32
    ensures var op := SymOp(DISTS, s); op >= 16 && (IsBase(op) <==> !IsInvalid(op))
  {
  }

  lemma OpTests(t: seq<Entry>, root: nat, ty: CodeType, lens: seq<nat>, w: nat)
    requires TableFor(t, root, ty, lens) && CodeOk(ty, lens) && Linked(t, root) && ty != CODES
    ensures var op := Lookup(t, root, w).op;
            || (ty == LENS && op == 0)
            || (IsBase(op) && !IsInvalid(op) && op >= 16 && (ty == LENS ==> !IsEnd(op)))
            || (!IsBase(op) && IsInvalid(op) && op >= 16)
  {
    hide TableFor, Lookup, Linked, Accepts, SymVal, SymOp, IsBase, IsEnd, IsInvalid;
    ForSize(t, root, ty, lens);
    TableIsRef(t, root, ty, lens, w);
    assert !IsBase(64) && IsInvalid(64) by { MarkerOps(); }
    if !Unmatched(lens, w) {
      if ty == LENS {
        LenOps(StartSym(lens, w));
      } else {
        DistBases(StartSym(lens, w));
      }
    }
  }

  lemma MarkerOps()
    ensures !IsBase(64) && IsInvalid(64)
  {
  }

  lemma LinkOps(op: nat)
    requires 1 <= op <= 15
    ensures !IsBase(op) && !IsInvalid(op)
  {
  }

  /** The lookup without any test for input: 15 bits are there. */
  method FastDecode(a: Acc, t: seq<Entry>, root: nat, ty: CodeType, ghost lens: seq<nat>)
    returns (d: Decoded, a': Acc)
    requires TableFor(t, root, ty, lens) && CodeOk(ty, lens) && Linked(t, root) && ty != CODES && a.bits >= 15
    ensures d == Lookup(t, root, a.hold) && 1 <= d.used <= 15 && a' == DropAcc(a, d.used)
  {
    hide TableFor, CodeOk, Low, Shr, Lookup, Linked, RootEntry, IsInvalid, IsBase, Pow2;
    UsedBound(t, root, ty, lens, a.hold);
    OpTests(t, root, ty, lens, a.hold);
    var e := RootEntry(t, root, a.hold);
    d := Decoded(e.op, e.val, e.bits);
    a' := DropAcc(a, e.bits);
    if IsLink(e) {
      LinkOps(e.op);
    }
    if !(ty == LENS && e.op == 0) && !IsBase(e.op) && !IsInvalid(e.op) {
      // the second level, which has no links
      var f := SubOf(t, root, a.hold, e);
      d := Decoded(f.op, f.val, e.bits + f.bits);
      ShrShr(a.hold, e.bits, f.bits);
      a' := DropAcc(a', f.bits);
    }
  }

  /** The second lookup, after the root bits are gone. */
  function SubOf(t: seq<Entry>, root: nat, hold: nat, l: Entry): (e: Entry)
    requires Linked(t, root) && l == RootEntry(t, root, hold) && IsLink(l)
    ensures Lookup(t, root, hold) == Decoded(e.op, e.val, l.bits + e.bits)
  {
    LowBound(hold, root);
    LowBound(Shr(hold, l.bits), l.op);
    t[l.val + Low(Shr(hold, l.bits), l.op)]
  }

  // ------------------------------------------- the machine's side of each code

  /** The code at the front of the bits read ahead is the code at the front. */
  lemma CodeAhead(t: seq<Entry>, root: nat, ty: CodeType, lens: seq<nat>, u: Acc, a: Acc, input: seq<Byte>)
    requires TableFor(t, root, ty, lens) && CodeOk(ty, lens) && Linked(t, root)
    requires Ahead(input, u, a) && Lookup(t, root, a.hold).used <= u.bits
    ensures Lookup(t, root, u.hold) == Lookup(t, root, a.hold)
  {
    hide TableFor, CodeOk, Linked, Lookup, Low, Ahead;
    AheadLow(input, u, a);
    LowLow(a.hold, Lookup(t, root, a.hold).used, u.bits);
    LookupStable(t, root, ty, lens, a.hold, u.hold);
  }

  lemma ExtraAhead(u: Acc, a: Acc, input: seq<Byte>, n: nat)
    requires Ahead(input, u, a) && n <= u.bits
    ensures Low(u.hold, n) == Low(a.hold, n)
  {
    hide Low, Ahead;
    AheadLow(input, u, a);
    LowLow(a.hold, n, u.bits);
  }

  /** u moved on by reading bits only. */
  function Moved(u: Vars, u': Vars): Vars {
    u.(hold := u'.hold, bits := u'.bits, next := u'.next)
  }

  lemma TakeLen(u: Vars, g: Trace, a: Acc, d: Decoded) returns (u': Vars)
    requires Tracks(u, g) && Tables(u, g) && u.mode == LEN && Ahead(u.input, AccOf(u), a)
    requires u.bits < 8 || Step(Abs(u, g)).None?
    requires Linked(u.lencode, u.lenbits) && d == Lookup(u.lencode, u.lenbits, a.hold) && 1 <= d.used <= 15 <= a.bits
    ensures Tracks(u', g) && Ahead(u.input, AccOf(u'), DropAcc(a, d.used)) && u'.bits < 8
    ensures u' == LenCode(Moved(u, u'), d) && Left(u') < Left(u) && u.next <= u'.next
  {
    hide Tracks, Tables, Step, Abs, StateOk, Pow2, CodeOk, TableFor, Linked, Lookup, LenCode, Shr, Ahead;
    TracksOk(u, g);
    DecodeFacts(u, g);
    LenStep(u, g);
    var w := Catch(u, g, a, d.used);
    TracksOk(w, g);
    CodeAhead(u.lencode, u.lenbits, LENS, g.llens, AccOf(w), a, u.input);
    LenStep(w, g);
    var x := DropBits(w, d.used);
    u' := LenCode(x, d);
    LenFrame(x, d);
    ShrBound(w.hold, w.bits, d.used);
    Advance(w, g, u', g);
    AheadDrop(u.input, AccOf(w), a, d.used);
    assert Moved(u, u') == x;
  }

  lemma TakeLenExt(u: Vars, g: Trace, a: Acc) returns (u': Vars)
    requires Tracks(u, g) && u.mode == LENEXT && Ahead(u.input, AccOf(u), a) && u.bits < 8
    requires u.extra <= a.bits && u.extra <= 5
    ensures Tracks(u', g) && Ahead(u.input, AccOf(u'), DropAcc(a, u.extra)) && u'.bits < 8
    ensures u' == Moved(u, u').(length := u.length + Low(a.hold, u.extra), mode := DIST)
    ensures Left(u') <= Left(u) && u.next <= u'.next
  {
    hide Tracks, Step, Abs, StateOk, Pow2, Shr, Low, Ahead;
    var w := Catch(u, g, a, u.extra);
    TracksOk(w, g);
    ExtraAhead(AccOf(w), a, u.input, u.extra);
    LenExtStep(w, g);
    u' := DropBits(w, w.extra).(length := w.length + Low(w.hold, w.extra), mode := DIST);
    Advance(w, g, u', g);
    AheadDrop(u.input, AccOf(w), a, u.extra);
  }

  lemma TakeDist(u: Vars, g: Trace, a: Acc, d: Decoded) returns (u': Vars)
    requires Tracks(u, g) && Tables(u, g) && u.mode == DIST && Ahead(u.input, AccOf(u), a) && u.bits < 8
    requires Linked(u.distcode, u.distbits) && d == Lookup(u.distcode, u.distbits, a.hold)
             && 1 <= d.used <= 15 <= a.bits
    ensures Tracks(u', g) && Ahead(u.input, AccOf(u'), DropAcc(a, d.used)) && u'.bits < 8
    ensures u' == DistCode(Moved(u, u'), d) && Left(u') < Left(u) && u.next <= u'.next
  {
    hide Tracks, Tables, Step, Abs, StateOk, Pow2, CodeOk, TableFor, Linked, Lookup, DistCode, Shr, Ahead;
    TracksOk(u, g);
    DecodeFacts(u, g);
    var w := Catch(u, g, a, d.used);
    TracksOk(w, g);
    CodeAhead(u.distcode, u.distbits, DISTS, g.dlens, AccOf(w), a, u.input);
    DistStep(w, g);
    var x := DropBits(w, d.used);
    u' := DistCode(x, d);
    DistFrame(x, d);
    ShrBound(w.hold, w.bits, d.used);
    Advance(w, g, u', g);
    AheadDrop(u.input, AccOf(w), a, d.used);
    assert Moved(u, u') == x;
  }

  lemma TakeDistExt(u: Vars, g: Trace, a: Acc) returns (u': Vars)
    requires Tracks(u, g) && u.mode == DISTEXT && Ahead(u.input, AccOf(u), a) && u.bits < 8
    requires u.extra <= a.bits && u.extra <= 13
    ensures Tracks(u', g) && Ahead(u.input, AccOf(u'), DropAcc(a, u.extra)) && u'.bits < 8
    ensures var dist := u.offset + Low(a.hold, u.extra);
            u' == Moved(u, u').(offset := dist, mode := if dist > |g.hist0| + |u.output| then BAD else MATCH)
    ensures Left(u') <= Left(u) && u.next <= u'.next
  {
    hide Tracks, Step, Abs, StateOk, Pow2, Shr, Low, Ahead, DistExtCode;
    var w := Catch(u, g, a, u.extra);
    TracksOk(w, g);
    ExtraAhead(AccOf(w), a, u.input, u.extra);
    var history := |g.hist0| + |u.output|;
    DistExtStep(w, g, history);
    u' := DistExtCode(w, history);
    DistExtFrame(w, history);
    DistExtIs(w, history);
    Advance(w, g, u', g);
    AheadDrop(u.input, AccOf(w), a, u.extra);
  }

  lemma DistExtIs(v: Vars, history: nat)
    requires v.extra <= v.bits
    ensures var r, dist := DistExtCode(v, history), v.offset + Low(v.hold, v.extra);
            r == DropBits(v, v.extra).(offset := dist, mode := if dist > history then BAD else MATCH)
  {
  }

  // ------------------------------------------------------------- one iteration

  /** What inflate_fast leaves alone. */
  predicate FastFrame(v: Vars, u: Vars) {
    && SameCall(v, u) && u.check == v.check && u.base == v.base
    && u.lencode == v.lencode && u.lenbits == v.lenbits && u.distcode == v.distcode && u.distbits == v.distbits
    && u.last == v.last && u.ncode == v.ncode && u.nlen == v.nlen && u.ndist == v.ndist && u.have == v.have
       && u.lens == v.lens
  }

  /** The fast code's accumulator and output, and the copy u that follows the machine. */
  ghost predicate InFast(v: Vars, u: Vars, g: Trace, a: Acc, out: seq<Byte>) {
    Tracks(u, g) && FastFrame(v, u) && u.output == out && Ahead(v.input, AccOf(u), a) && a.bits <= 30
  }

  /** Bits left to read: six bytes are enough for a length and a distance. */
  function Unused(input: seq<Byte>, a: Acc): int {
    8 * (|input| - a.next) + a.bits
  }

  lemma InFastFacts(v: Vars, u: Vars, g: Trace, a: Acc, out: seq<Byte>)
    requires InFast(v, u, g, a, out)
    ensures a.next <= |v.input| && StateOk(Abs(u, g)) && InBounds(u) && u.output == out && u.input == v.input
    ensures Tracks(u, g) && FastFrame(v, u) && Ahead(u.input, AccOf(u), a) && a.bits <= 30
  {
    hide Tracks, Abs, StateOk, Pow2;
    TracksOk(u, g);
  }

  /** Reads one byte ahead. */
  method ReadAhead(v: Vars, a: Acc, out: seq<Byte>, ghost u: Vars, ghost g: Trace) returns (a': Acc)
    requires InFast(v, u, g, a, out) && a.next < |v.input| && a.bits <= 22
    ensures InFast(v, u, g, a', out) && a'.bits == a.bits + 8 && a'.next == a.next + 1
    ensures Unused(v.input, a') == Unused(v.input, a)
  {
    hide Tracks, Shl, Ahead;
    AheadPull(v.input, AccOf(u), a);
    a' := PullAcc(a, v.input);
  }

  /** Reads two bytes ahead if there are fewer than 15 bits. */
  method Refill(v: Vars, a: Acc, out: seq<Byte>, ghost u: Vars, ghost g: Trace) returns (a': Acc)
    requires InFast(v, u, g, a, out) && Unused(v.input, a) >= 28
    ensures InFast(v, u, g, a', out) && a'.bits >= 15 && Unused(v.input, a') == Unused(v.input, a)
    ensures a.next <= a'.next <= a.next + 2
  {
    hide InFast;
    InFastFacts(v, u, g, a, out);
    a' := a;
    if a.bits < 15 {
      a' := ReadAhead(v, a', out, u, g);
      a' := ReadAhead(v, a', out, u, g);
    }
  }

  lemma DropNone(a: Acc)
    ensures DropAcc(a, 0) == a && Low(a.hold, 0) == 0
  {
  }

  /** The extra bits of a length. */
  method FastLenExt(v: Vars, a: Acc, out: seq<Byte>, len0: nat, op: nat, ghost u: Vars, ghost g: Trace)
    returns (len: nat, a': Acc, ghost u': Vars)
    requires InFast(v, u, g, a, out) && Unused(v.input, a) >= 33
    requires u.mode == LENEXT && u.bits < 8 && u.length == len0 && u.extra == op
    ensures InFast(v, u', g, a', out) && Unused(v.input, a') >= Unused(v.input, a) - 5
            && a.next <= a'.next <= a.next + 1
    ensures u'.mode == DIST && u'.bits < 8 && u'.length == len && Left(u') <= Left(u)
  {
    hide Tracks, Abs, StateOk, Pow2, Ahead, Low, Shr;
    InFastFacts(v, u, g, a, out);
    LenExtFacts(u, g);
    len, a' := len0, a;
    DropNone(a);
    if op != 0 {
      if a'.bits < op {
        a' := ReadAhead(v, a', out, u, g);
      }
      u' := TakeLenExt(u, g, a');
      len := len + Low(a'.hold, op);
      a' := DropAcc(a', op);
    } else {
      u' := TakeLenExt(u, g, a');
    }
  }

  /** The extra bits of a distance. */
  method FastDistExt(v: Vars, a: Acc, out: seq<Byte>, dist0: nat, op: nat, ghost u: Vars, ghost g: Trace)
    returns (dist: nat, a': Acc, ghost u': Vars)
    requires InFast(v, u, g, a, out) && Unused(v.input, a) >= 13
    requires u.mode == DISTEXT && u.bits < 8 && u.offset == dist0 && u.extra == op
    ensures InFast(v, u', g, a', out) && 1 <= dist <= 32768 && Unused(v.input, a') >= Unused(v.input, a) - 13
    ensures a.next <= a'.next <= a.next + 2 && (a'.next == a.next + 2 ==> a'.bits < 8)
    ensures u'.mode == (if dist > |g.hist0| + |out| then BAD else MATCH) && u'.bits < 8 && u'.offset == dist
    ensures u'.length == u.length && Left(u') <= Left(u)
  {
    hide Tracks, Abs, StateOk, Pow2, Ahead, Low, Shr;
    InFastFacts(v, u, g, a, out);
    DistExtFacts(u, g);
    a' := a;
    if a'.bits < op {
      a' := ReadAhead(v, a', out, u, g);
      if a'.bits < op {
        a' := ReadAhead(v, a', out, u, g);
      }
    }
    u' := TakeDistExt(u, g, a');
    LowBound(a'.hold, op);
    dist := dist0 + Low(a'.hold, op);
    a' := DropAcc(a', op);
  }

  /** From the distance code on. */
  method FastDist(v: Vars, a: Acc, out: seq<Byte>, len: nat, window: seq<Byte>, ghost u: Vars, ghost g: Trace)
    returns (m: Mode, a': Acc, out': seq<Byte>, ghost u': Vars)
    requires InFast(v, u, g, a, out) && Unused(v.input, a) >= 28 && Tables(u, g)
    requires u.mode == DIST && u.bits < 8 && u.length == len && |out| + 258 <= v.avail
    requires RingFor(window, v.wsize, v.whave, v.write, g.hist0)
    ensures InFast(v, u', g, a', out') && u'.mode == m && (m == LEN || m == BAD) && u'.bits < 8 && Left(u') < Left(u)
    ensures Unused(v.input, a') >= Unused(v.input, a) - 28 && |out| <= |out'| <= |out| + 258
    ensures a.next <= a'.next <= a.next + 4 && (a'.next == a.next + 4 ==> a'.bits < 8)
  {
    hide Tracks, Tables, Abs, StateOk, Pow2, Low, Shr, RingFor, TableFor, CodeOk, Linked, Lookup, DistCode, IsBase,
         IsInvalid, InFast, ExtraBits;
    InFastFacts(v, u, g, a, out);
    DecodeFacts(u, g);
    DistLength(u, g);
    var b := Refill(v, a, out, u, g);
    var d, c := FastDecode(b, v.distcode, v.distbits, DISTS, g.dlens);
    InFastFacts(v, u, g, b, out);
    OpTests(v.distcode, v.distbits, DISTS, g.dlens, b.hold);
    ghost var w := TakeDist(u, g, b, d);
    DistCodeIs(Moved(u, w), d);
    DistTaken(v, u, g, w, d, c, out);
    if IsBase(d.op) {
      var dist, e;
      ghost var x;
      dist, e, x := FastDistExt(v, c, out, d.val, ExtraBits(d.op), w, g);
      m, out', u' := FinishMatch(v, e, out, dist, len, window, x, g);
      return m, e, out', u';
    }
    return BAD, c, out, w;
  }

  lemma DistLength(u: Vars, g: Trace)
    requires StateOk(Abs(u, g)) && u.mode == DIST
    ensures 3 <= u.length <= 258
  {
    hide CodeOk, LensOk, ToBits;
  }

  lemma DistCodeIs(v: Vars, d: Decoded)
    ensures var r := DistCode(v, d);
            if IsInvalid(d.op) then r == v.(mode := BAD)
            else r == v.(offset := d.val, extra := ExtraBits(d.op), mode := DISTEXT)
  {
  }

  lemma DistTaken(v: Vars, u: Vars, g: Trace, w: Vars, d: Decoded, c: Acc, out: seq<Byte>)
    requires FastFrame(v, u) && u.output == out && Tracks(w, g) && Ahead(v.input, AccOf(w), c) && c.bits <= 30
    requires w == DistCode(Moved(u, w), d) && u.next <= w.next
    ensures InFast(v, w, g, c, out) && w.length == u.length
  {
    hide Tracks, Ahead, IsInvalid, ExtraBits;
  }

  /** The copy, and the literal/length code that comes next. */
  method FinishMatch(v: Vars, a: Acc, out: seq<Byte>, dist: nat, len: nat, window: seq<Byte>, ghost u: Vars,
                     ghost g: Trace)
    returns (m: Mode, out': seq<Byte>, ghost u': Vars)
    requires InFast(v, u, g, a, out) && 1 <= dist <= 32768 && u.bits < 8 && u.length == len && 1 <= len <= 258
    requires u.mode == (if dist > |g.hist0| + |out| then BAD else MATCH) && u.offset == dist
    requires RingFor(window, v.wsize, v.whave, v.write, g.hist0) && |out| + 258 <= v.avail
    ensures InFast(v, u', g, a, out') && u'.mode == m && (m == LEN || m == BAD) && u'.bits < 8 && Left(u') <= Left(u)
    ensures |out| <= |out'| <= |out| + 258
  {
    hide Tracks, Ahead, RingFor, Repeats;
    var ok;
    ok, out' := FastCopy(out, window, v.wsize, v.whave, v.write, dist, len, g.hist0);
    if !ok {
      return BAD, out, u;
    }
    MatchRun(u, g, out');
    RepeatsPrefix(g.hist0, out, dist, out');
    return LEN, out', u.(output := out', length := 0, mode := LEN);
  }

  lemma RepeatsPrefix(h: seq<Byte>, out: seq<Byte>, d: nat, out': seq<Byte>)
    requires Repeats(h + out, d, h + out')
    ensures out <= out'
  {
    assert (h + out)[|h|..] == out;
    assert (h + out')[|h|..] == out';
    assert (h + out')[|h|..|h| + |out|] == out;
  }

  lemma LenCodeIs(v: Vars, d: Decoded)
    ensures var r, u := LenCode(v, d), v.(length := d.val);
            if d.op == 0 then r == u.(mode := LIT)
            else if IsEnd(d.op) then r == u.(mode := TYPE)
            else if IsInvalid(d.op) then r == u.(mode := BAD)
            else r == u.(extra := ExtraBits(d.op), mode := LENEXT)
  {
  }

  lemma LenTaken(v: Vars, u: Vars, g: Trace, w: Vars, d: Decoded, c: Acc, out: seq<Byte>)
    requires FastFrame(v, u) && u.output == out && Tracks(w, g) && Ahead(v.input, AccOf(w), c) && c.bits <= 30
    requires w == LenCode(Moved(u, w), d) && u.next <= w.next
    ensures InFast(v, w, g, c, out)
  {
    hide Tracks, Ahead, IsInvalid, ExtraBits, IsEnd;
  }

  /** A literal goes to the output. */
  lemma PutLiteral(v: Vars, u: Vars, g: Trace, a: Acc, out: seq<Byte>) returns (u': Vars)
    requires InFast(v, u, g, a, out) && u.mode == LIT && |out| < v.avail
    ensures u.length < 256
    ensures InFast(v, u', g, a, out + [u.length]) && u'.mode == LEN && u'.bits == u.bits && Left(u') <= Left(u)
  {
    hide Tracks, Ahead, Abs, StateOk, Step, Pow2;
    InFastFacts(v, u, g, a, out);
    LitStep(u, g);
    u' := u.(output := u.output + [u.length], mode := LEN);
    Advance(u, g, u', g);
  }

  /** The body of the loop: at most 48 bits are used, so at most 6 bytes read, and at
      most 258 written. */
  method FastStep(v: Vars, a: Acc, out: seq<Byte>, window: seq<Byte>, ghost u: Vars, ghost g: Trace)
    returns (m: Mode, a': Acc, out': seq<Byte>, ghost u': Vars)
    requires InFast(v, u, g, a, out) && Unused(v.input, a) >= 48 && |out| + 258 <= v.avail && Tables(u, g)
    requires u.mode == LEN && (u.bits < 8 || Step(Abs(u, g)).None?)
    requires RingFor(window, v.wsize, v.whave, v.write, g.hist0)
    ensures InFast(v, u', g, a', out') && u'.mode == m && (m == LEN || m == TYPE || m == BAD)
    ensures u'.bits < 8 && Left(u') < Left(u)
    ensures a.next <= a'.next <= a.next + 6 && |out| <= |out'| <= |out| + 258
  {
    hide Tracks, Tables, Abs, StateOk, Step, Pow2, Low, Shr, RingFor, TableFor, CodeOk, Linked, Lookup, LenCode, IsBase,
         IsInvalid, IsEnd, InFast, ExtraBits;
    InFastFacts(v, u, g, a, out);
    DecodeFacts(u, g);
    var b := Refill(v, a, out, u, g);
    var d, c := FastDecode(b, v.lencode, v.lenbits, LENS, g.llens);
    InFastFacts(v, u, g, b, out);
    OpTests(v.lencode, v.lenbits, LENS, g.llens, b.hold);
    ghost var w := TakeLen(u, g, b, d);
    LenCodeIs(Moved(u, w), d);
    LenTaken(v, u, g, w, d, c, out);
    if d.op == 0 {
      u' := PutLiteral(v, w, g, c, out);
      return LEN, c, out + [d.val], u';
    } else if IsBase(d.op) {
      FastTables(v, u, g, w);
      var len, e;
      ghost var x;
      len, e, x := FastLenExt(v, c, out, d.val, ExtraBits(d.op), w, g);
      InFastFacts(v, x, g, e, out);
      FastTables(v, u, g, x);
      m, a', out', u' := FastDist(v, e, out, len, window, x, g);
      return m, a', out', u';
    } else if IsEnd(d.op) {
      return TYPE, c, out, w;
    }
    return BAD, c, out, w;
  }

  lemma FastTables(v: Vars, u: Vars, g: Trace, w: Vars)
    requires FastFrame(v, u) && Tables(u, g) && InDecode(u.mode)
    ensures FastFrame(v, w) && InDecode(w.mode) ==> Tables(w, g)
  {
    hide TableFor;
  }

  // ------------------------------------------------------------------ the loop

  /** inflate_fast: from a state inflate may be in to a state it may be in, along
      the machine's transitions.  The bytes given back were all read in this call,
      although the accumulator may hold more than the 8 bits the code expects. */
  method Fast(v: Vars, window: seq<Byte>, ghost g: Trace) returns (v': Vars)
    requires Valid(v, g) && v.mode == LEN && RingFor(window, v.wsize, v.whave, v.write, g.hist0)
    requires |v.input| - v.next >= 6 && v.avail - |v.output| >= 258
    ensures Valid(v', g) && SameCall(v, v') && (v'.mode == LEN || v'.mode == TYPE || v'.mode == BAD)
    ensures Left(v') < Left(v) && v'.bits < 8
  {
    hide Valid, Tracks, Tables, CheckOk, Quiet, Step, Abs, StateOk, Pow2, RingFor, InFast, Low, Ahead;
    Facts(v, g);
    var a, out, m := AccOf(v), v.output, LEN;
    ghost var u := v;
    AheadSelf(v.input, a);
    EnterFast(v, g);
    m, a, out, u := FastStep(v, a, out, window, u, g);
    while m == LEN && |v.input| - a.next > 5 && v.avail - |out| > 257
      invariant InFast(v, u, g, a, out) && u.mode == m && (m == LEN || m == TYPE || m == BAD) && u.bits < 8
      invariant Left(u) < Left(v)
      decreases Left(u) + 9
    {
      InFastFacts(v, u, g, a, out);
      LeftBound(u);
      FastTables(v, v, g, u);
      m, a, out, u := FastStep(v, a, out, window, u, g);
    }
    InFastFacts(v, u, g, a, out);
    // give back the bytes not needed
    var len := a.bits / 8;
    AheadDone(v.input, AccOf(u), a);
    v' := v.(mode := m, output := out, next := a.next - len, bits := a.bits % 8, hold := Low(a.hold, a.bits % 8));
    LeaveFast(v, g, u, v');
  }

  lemma EnterFast(v: Vars, g: Trace)
    requires Valid(v, g) && v.mode == LEN && Ahead(v.input, AccOf(v), AccOf(v))
    ensures InFast(v, v, g, AccOf(v), v.output)
  {
    hide Tracks, Tables, CheckOk, Abs, Step, Ahead;
  }

  lemma LeftBound(u: Vars)
    requires InBounds(u)
    ensures Left(u) >= 0
  {
  }

  lemma DeadFields(v: Vars, g: Trace, u: Vars, v': Vars)
    requires FastFrame(v, u) && (u.mode == LEN || u.mode == TYPE || u.mode == BAD)
    requires v' == v.(mode := u.mode, output := u.output, next := u.next, bits := u.bits, hold := u.hold)
    ensures Abs(v', g) == Abs(u, g)
  {
    hide ToBits;
  }

  /** Only the fields that are dead in the final mode differ. */
  lemma LeaveFast(v: Vars, g: Trace, u: Vars, v': Vars)
    requires Valid(v, g) && v.mode == LEN && Tracks(u, g) && FastFrame(v, u) && u.bits < 8
    requires u.mode == LEN || u.mode == TYPE || u.mode == BAD
    requires v' == v.(mode := u.mode, output := u.output, next := u.next, bits := u.bits, hold := u.hold)
    ensures Valid(v', g) && Left(v') == Left(u) && SameCall(v, v')
  {
    hide Tables, CheckOk, Reachable, StateOk, ToBits, TableFor, Step, Pow2, Initial, BytesToBits;
    Facts(v, g);
    DeadFields(v, g, u, v');
    CheckKept(v, g, v', g);
    DecodeTables(v, g, v');
    Finish(v', g);
  }
}
