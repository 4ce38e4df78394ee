/** inflate.c: the variables of the resumable decompressor.

    The decoder keeps a bit accumulator, a ring of the last 32K of output, and
    the fields that say where it stopped.  Its invariant is that the state they
    describe is reached by the reference machine from all bytes consumed so far. */
module InflateState {
  import opened Bits
  import opened Canonical
  import opened InflateTable
  import opened InflateMachine
  import opened AdlerSpec
  import opened Adler

  const WSIZE: nat := 32768

  datatype Ret = Z_OK | Z_STREAM_END | Z_NEED_DICT | Z_DATA_ERROR | Z_BUF_ERROR

  // -------------------------------------------------------- the bit accumulator

  /** BITS(n) and DROPBITS(n) on the accumulator are Peek and Drop on its bits. */
  lemma HoldSplit(hold: nat, bits: nat, n: nat)
    requires hold < Pow2(bits) && n <= bits
    ensures FromBits(ToBits(hold, bits)) == hold
    ensures FromBits(ToBits(hold, bits)[..n]) == Low(hold, n)
    ensures ToBits(hold, bits)[n..] == ToBits(Shr(hold, n), bits - n)
    ensures Shr(hold, n) < Pow2(bits - n)
  {
    hide Low, Shr, Pow2, FromBits, ToBits;
    FromToBits(hold, bits);
    LowSmall(hold, bits);
    ToBitsAppend(hold, n, bits - n);
    assert ToBits(hold, bits)[..n] == ToBits(hold, n);
    FromToBits(hold, n);
    ShrBound(hold, bits, n);
  }

  /** PULLBYTE puts the next byte behind the bits already there. */
  lemma HoldPull(hold: nat, bits: nat, x: Byte)
    requires hold < Pow2(bits)
    ensures hold + Shl(x, bits) < Pow2(bits + 8)
    ensures ToBits(hold + Shl(x, bits), bits + 8) == ToBits(hold, bits) + ToBits(x, 8)
  {
    hide Low, Shr, Shl, Pow2, ToBits;
    var h := hold + Shl(x, bits);
    ShlLow(x, hold, bits);
    ToBitsAppend(h, bits, 8);
    ToBitsLow(h, bits, bits);
    Pow2Values();
    ShlNext(x, bits);
    ShlMono(x + 1, Pow2(8), bits);
    ShlPow2(8, bits);
    assert ToBits(h, bits) == ToBits(hold, bits);
  }

  // ------------------------------------------------------------ the output window

  /** Where the byte d back from the write position stands in the ring. */
  function RingIndex(write: nat, d: nat): (i: nat)
    requires write < WSIZE && 1 <= d <= WSIZE
    ensures i < WSIZE
  {
    if d <= write then write - d else WSIZE + write - d
  }

  function Min(a: nat, b: nat): nat {
    if a < b then a else b
  }

  /** The ring holds the last 32K of the history h. */
  ghost predicate RingFor(window: seq<Byte>, wsize: nat, whave: nat, write: nat, h: seq<Byte>) {
    && |window| == WSIZE && write < WSIZE
    && (if wsize == 0 then h == [] && whave == 0 && write == 0
        else
          && wsize == WSIZE && whave == Min(|h|, WSIZE) && (whave < WSIZE ==> write == whave)
          && forall d :: 1 <= d <= whave ==> window[RingIndex(write, d)] == h[|h| - d])
  }

  /** updatewindow on the ring's contents. */
  function CopyIn(window: seq<Byte>, at: nat, c: seq<Byte>): (r: seq<Byte>)
    requires at + |c| <= |window|
    ensures |r| == |window|
    ensures forall i :: 0 <= i < |window| ==> r[i] == if at <= i < at + |c| then c[i - at] else window[i]
  {
    window[..at] + c + window[at + |c|..]
  }

  lemma RingReplace(window: seq<Byte>, wsize: nat, whave: nat, write: nat, h: seq<Byte>, c: seq<Byte>)
    requires RingFor(window, wsize, whave, write, h) && |c| >= WSIZE
    ensures RingFor(CopyIn(window, 0, c[|c| - WSIZE..]), WSIZE, WSIZE, 0, h + c)
  {
  }

  /** Bytes of the old history keep their slot as long as nothing overwrites it. */
  lemma RingOld(window: seq<Byte>, wsize: nat, whave: nat, write: nat, h: seq<Byte>, c: seq<Byte>, d: nat)
    requires RingFor(window, wsize, whave, write, h) && |c| < d <= |c| + whave && d <= WSIZE
    ensures window[RingIndex(write, d - |c|)] == (h + c)[|h + c| - d]
  {
  }

  lemma RingAppend(window: seq<Byte>, wsize: nat, whave: nat, write: nat, h: seq<Byte>, c: seq<Byte>)
    requires RingFor(window, wsize, whave, write, h) && write + |c| < WSIZE
    ensures RingFor(CopyIn(window, write, c), WSIZE, if whave < WSIZE then whave + |c| else whave, write + |c|, h + c)
  {
    var w', whave', write' := CopyIn(window, write, c), if whave < WSIZE then whave + |c| else whave, write + |c|;
    forall d | 1 <= d <= whave'
      ensures w'[RingIndex(write', d)] == (h + c)[|h + c| - d]
    {
      if d > |c| {
        RingOld(window, wsize, whave, write, h, c, d);
      }
    }
  }

  lemma RingToEnd(window: seq<Byte>, wsize: nat, whave: nat, write: nat, h: seq<Byte>, c: seq<Byte>)
    requires RingFor(window, wsize, whave, write, h) && write + |c| == WSIZE && |c| < WSIZE
    ensures RingFor(CopyIn(window, write, c), WSIZE, WSIZE, 0, h + c)
    ensures whave < WSIZE ==> whave + |c| == WSIZE
  {
    var w' := CopyIn(window, write, c);
    forall d | 1 <= d <= WSIZE
      ensures w'[RingIndex(0, d)] == (h + c)[|h + c| - d]
    {
      if d > |c| {
        RingOld(window, wsize, whave, write, h, c, d);
      }
    }
  }

  lemma RingWrap(window: seq<Byte>, wsize: nat, whave: nat, write: nat, h: seq<Byte>, c: seq<Byte>)
    requires RingFor(window, wsize, whave, write, h) && |c| < WSIZE < write + |c|
    ensures var k := WSIZE - write;
            RingFor(CopyIn(CopyIn(window, write, c[..k]), 0, c[k..]), WSIZE, WSIZE, |c| - k, h + c)
  {
    var k := WSIZE - write;
    var w', write' := CopyIn(CopyIn(window, write, c[..k]), 0, c[k..]), |c| - k;
    forall d | 1 <= d <= WSIZE
      ensures w'[RingIndex(write', d)] == (h + c)[|h + c| - d]
    {
      if d > |c| {
        RingOld(window, wsize, whave, write, h, c, d);
      }
    }
  }

  // ------------------------------------------------------------------ the decoder

  predicate UsesLength(m: Mode) {
    m == COPY || m == LENEXT || m == DIST || m == DISTEXT || m == MATCH || m == LIT
  }

  /** Modes before CHECK in the order of inflate_mode. */
  predicate BeforeCheck(m: Mode) {
    m != CHECK && m != DONE && m != BAD
  }

  /** How many bits the accumulator may hold in each mode. */
  predicate BitsOk(m: Mode, bits: nat) {
    match m
    case HEAD => bits % 8 == 0 && bits <= 16
    case DICTID => bits % 8 == 0 && bits <= 32
    case CHECK => bits % 8 == 0 && bits <= 32
    case STORED => bits < 8 || (bits % 8 == 0 && bits <= 32)
    case COPY => bits == 0
    case TYPE => bits < 8
    case LENLENS => bits < 8
    case LENEXT => bits < 8
    case MATCH => bits < 8
    case LIT => bits < 8
    case _ => bits <= 32
  }

  /** The modes that may stop with more than a byte in the accumulator do so only
      when that is not enough to go on. */
  predicate Hoards(m: Mode) {
    m == TABLE || m == CODELENS || m == LEN || m == DIST || m == DISTEXT
  }

  /** inflate_state and the stream's buffers: input from next on is unread, output
      was written in this call, and check does not cover output from base on. */
  datatype Vars = Vars(
    mode: Mode, wrap: bool, last: bool, check: nat,
    wsize: nat, whave: nat, write: nat, hold: nat, bits: nat, length: nat, offset: nat, extra: nat,
    lencode: seq<Entry>, distcode: seq<Entry>, lenbits: nat, distbits: nat,
    ncode: nat, nlen: nat, ndist: nat, have: nat, lens: seq<nat>,
    input: seq<Byte>, next: nat, output: seq<Byte>, avail: nat, base: nat)

  /** What the proof remembers: the lengths behind the tables in use, the bytes
      consumed and the bytes written before this call. */
  datatype Trace = Trace(clens: seq<nat>, llens: seq<nat>, dlens: seq<nat>, fed0: seq<Byte>, hist0: seq<Byte>)

  /** The machine state the variables describe. */
  ghost function Abs(v: Vars, g: Trace): State {
    State(v.mode, v.wrap, v.last,
          if UsesLength(v.mode) then v.length else 0, if v.mode == DISTEXT || v.mode == MATCH then v.offset else 0,
          if v.mode == LENEXT || v.mode == DISTEXT then v.extra else 0,
          v.nlen, v.ndist, v.ncode, v.have, v.lens, g.clens, g.llens, g.dlens,
          ToBits(v.hold, v.bits), g.hist0 + v.output)
  }

  /** All input so far, in front of the machine. */
  ghost function Start(v: Vars, g: Trace): State
    requires v.next <= |v.input|
  {
    Plus(Initial(v.wrap), BytesToBits(g.fed0 + v.input[..v.next]))
  }

  predicate InBounds(v: Vars) {
    && v.next <= |v.input| && |v.output| <= v.avail && v.base <= |v.output|
    && v.hold < Pow2(v.bits) && v.bits <= 32
  }

  /** The variables describe what the machine reaches from all bytes consumed. */
  ghost predicate Tracks(v: Vars, g: Trace) {
    InBounds(v) && Reachable(Start(v, g), Abs(v, g)) && StateOk(Abs(v, g))
  }

  ghost predicate Tables(v: Vars, g: Trace) {
    && (v.mode == CODELENS ==>
          && TableFor(v.lencode, v.lenbits, CODES, g.clens)
          && forall i :: 0 <= i < |v.lencode| ==> !IsLink(v.lencode[i]))
    && (InDecode(v.mode) ==>
          && TableFor(v.lencode, v.lenbits, LENS, g.llens)
          && TableFor(v.distcode, v.distbits, DISTS, g.dlens))
  }

  ghost predicate Quiet(v: Vars, g: Trace) {
    && BitsOk(v.mode, v.bits) && (v.mode == HEAD && !v.wrap ==> v.bits == 0) && (v.mode == CHECK ==> v.base == 0)
    && (Hoards(v.mode) && v.bits >= 8 ==> v.bits <= 22 && Step(Abs(v, g)).None?)
  }

  ghost predicate CheckOk(v: Vars, g: Trace) {
    && v.base <= |v.output|
    && (v.wrap && v.mode != DICT ==> v.check == Packed(Feed(START, g.hist0 + v.output[..v.base])))
    && (BeforeCheck(v.mode) ==> v.base == 0)
  }

  ghost predicate Valid(v: Vars, g: Trace) {
    Tracks(v, g) && Tables(v, g) && Quiet(v, g) && CheckOk(v, g)
  }

  /** Only the accumulator and the input position may differ. */
  predicate OnlyPulled(v: Vars, v': Vars) {
    v' == v.(hold := v'.hold, bits := v'.bits, next := v'.next) && v.next <= v'.next
  }

  /** Input bits and output space left: shrinks with every transition that uses
      either. */
  function Left(v: Vars): int {
    8 * (|v.input| - v.next) + v.bits + (v.avail - |v.output|)
  }

  /** PULLBYTE: false if there is no input. */
  method PullByte(v: Vars, ghost g: Trace) returns (ok: bool, v': Vars)
    requires Tracks(v, g) && v.bits <= 24
    ensures Tracks(v', g) && OnlyPulled(v, v') && v'.hold < U32 && Left(v') == Left(v)
    ensures !ok ==> v' == v && v.next == |v.input|
    ensures ok ==> v.next < |v.input| && v'.next == v.next + 1 && v'.bits == v.bits + 8
    ensures ok ==> Abs(v', g) == Plus(Abs(v, g), ToBits(v.input[v.next], 8)) && Low(v'.hold, v.bits) == v.hold
  {
    hide Reachable, StateOk, Pow2, Shl, ToBits, BytesToBits, Initial, UsesLength, Low, Shr;
    if v.next == |v.input| {
      HoldFits(v.hold, v.bits);
      return false, v;
    }
    var x := v.input[v.next];
    PullTracks(v.wrap, g.fed0, v.input, v.next, Abs(v, g));
    HoldPull(v.hold, v.bits, x);
    ShlLow(x, v.hold, v.bits);
    v' := v.(hold := v.hold + Shl(x, v.bits), bits := v.bits + 8, next := v.next + 1);
    HoldFits(v'.hold, v'.bits);
    return true, v';
  }

  lemma PulledAgain(v: Vars, u: Vars, w: Vars)
    ensures OnlyPulled(v, v)
    ensures OnlyPulled(v, u) && OnlyPulled(u, w) ==> OnlyPulled(v, w)
  {
  }

  lemma TracksBounds(v: Vars, g: Trace)
    requires Tracks(v, g)
    ensures InBounds(v)
  {
  }

  /** NEEDBITS(n): false if the input ends before there are n bits. */
  method NeedBits(v: Vars, n: nat, ghost g: Trace) returns (ok: bool, v': Vars)
    requires Tracks(v, g) && (n <= 24 || (n <= 32 && n % 8 == 0 == v.bits % 8))
    ensures Tracks(v', g) && OnlyPulled(v, v') && v'.bits == v.bits + 8 * (v'.next - v.next) && Left(v') == Left(v)
    ensures v'.bits % 8 == v.bits % 8
    ensures ok ==> v'.bits >= n && (v.bits >= n ==> v' == v) && (v.bits < n ==> v'.bits < n + 8)
    ensures Low(v'.hold, v.bits) == v.hold
    ensures !ok ==> v.bits <= v'.bits < n && v'.next == |v'.input|
  {
    hide Tracks, Abs, Low, Pow2, OnlyPulled;
    v' := v;
    ok := true;
    PulledAgain(v, v, v);
    TracksBounds(v, g);
    LowSmall(v.hold, v.bits);
    while v'.bits < n
      invariant Tracks(v', g) && OnlyPulled(v, v') && v'.bits == v.bits + 8 * (v'.next - v.next) && Left(v') == Left(v)
      invariant v.bits <= v'.bits && (v'.bits > v.bits ==> v'.bits < n + 8) && (v'.bits == v.bits ==> v' == v)
      invariant Low(v'.hold, v.bits) == v.hold
      decreases n - v'.bits
    {
      ghost var u := v';
      ok, v' := PullByte(v', g);
      if !ok {
        return;
      }
      PulledAgain(v, u, v');
      LowLow(v'.hold, v.bits, u.bits);
    }
  }

  /** DROPBITS(n) */
  function DropBits(v: Vars, n: nat): (r: Vars)
    requires n <= v.bits
  {
    v.(hold := Shr(v.hold, n), bits := v.bits - n)
  }

  lemma AbsPeek(v: Vars, g: Trace, n: nat)
    requires n <= v.bits && v.hold < Pow2(v.bits)
    ensures Peek(Abs(v, g), n) == Low(v.hold, n)
    ensures Drop(Abs(v, g), n) == Abs(DropBits(v, n), g)
    ensures DropBits(v, n).hold < Pow2(v.bits - n)
    ensures |Abs(v, g).unread| == v.bits
  {
    hide Low, Shr, Pow2, FromBits, ToBits, UsesLength;
    HoldSplit(v.hold, v.bits, n);
  }

  /** One transition: the variables after it describe the state after it. */
  lemma Advance(v: Vars, g: Trace, v': Vars, g': Trace)
    requires Tracks(v, g) && Step(Abs(v, g)) == Some(Abs(v', g'))
    requires v'.input == v.input && v'.next == v.next && v'.wrap == v.wrap && InBounds(v')
    requires g'.fed0 == g.fed0
    ensures Tracks(v', g')
  {
    hide Reachable, StateOk, Step, Abs, BytesToBits, Initial, Pow2;
    ReachableThen(Start(v, g), Abs(v, g));
    StepOk(Abs(v, g));
  }

  lemma LowValues(h: nat)
    ensures Low(h, 1) == h % 2 && Low(h, 2) == h % 4 && Low(h, 3) == h % 8 && Low(h, 4) == h % 16 && Low(h, 5) == h % 32
    ensures Low(h, 7) == h % 128 && Low(h, 8) == h % 256 && Low(h, 14) == h % 16384 && Low(h, 16) == h % 65536
    ensures Shr(h, 1) == h / 2 && Shr(h, 3) == h / 8 && Shr(h, 4) == h / 16 && Shr(h, 5) == h / 32
            && Shr(h, 8) == h / 256
    ensures Shr(h, 16) == h / 65536 && Shr(h, 14) == h / 16384
  {
    hide Low, Shr, Pow2;
    Pow2Values();
    LowIsMod(h, 1); LowIsMod(h, 2); LowIsMod(h, 3); LowIsMod(h, 4); LowIsMod(h, 5);
    LowIsMod(h, 7); LowIsMod(h, 8); LowIsMod(h, 14); LowIsMod(h, 16);
  }

  // ------------------------------------------------------- stopping and going on

  /** Why inflate stops: the input is used up and the machine needs more, or the
      output is full and the next transition writes, or the machine has halted. */
  ghost predicate Paused(v: Vars, g: Trace) {
    || (v.next == |v.input| && Step(Abs(v, g)).None?)
    || (|v.output| == v.avail && (v.mode == LIT || v.mode == MATCH || (v.mode == COPY && v.length > 0)))
    || v.mode == DONE || v.mode == BAD || v.mode == DICT
  }

  /** What a mode's code may change, in every mode. */
  predicate SameCall(v: Vars, v': Vars) {
    && v'.wrap == v.wrap && v'.input == v.input && v'.avail == v.avail
    && v'.wsize == v.wsize && v'.whave == v.whave && v'.write == v.write
    && v.next <= v'.next && v.output <= v'.output
  }

  ghost predicate SameTrace(g: Trace, g': Trace) {
    g'.fed0 == g.fed0 && g'.hist0 == g.hist0
  }

  lemma Facts(v: Vars, g: Trace)
    requires Valid(v, g)
    ensures Tracks(v, g) && Tables(v, g) && CheckOk(v, g) && BitsOk(v.mode, v.bits)
    ensures InBounds(v) && StateOk(Abs(v, g)) && (BeforeCheck(v.mode) ==> v.base == 0)
    ensures Hoards(v.mode) && v.bits >= 8 ==> v.bits <= 22 && Step(Abs(v, g)).None?
    ensures v.mode == HEAD && !v.wrap ==> v.bits == 0
    ensures v.mode == CHECK ==> v.base == 0
  {
    hide StateOk, Reachable, Step, Abs, TableFor;
  }

  /** Tables and check value do not depend on the accumulator. */
  lemma Pulled(v: Vars, g: Trace, v': Vars)
    requires Valid(v, g) && OnlyPulled(v, v') && Tracks(v', g)
    ensures Tables(v', g) && CheckOk(v', g) && InBounds(v') && StateOk(Abs(v', g))
  {
    hide StateOk, Reachable, Step, Abs, TableFor;
  }

  lemma Finish(v: Vars, g: Trace)
    requires Tracks(v, g) && Tables(v, g) && CheckOk(v, g)
    requires BitsOk(v.mode, v.bits) && (Hoards(v.mode) ==> v.bits < 8) && v.mode != HEAD
    requires v.mode == CHECK ==> v.base == 0
    ensures Valid(v, g)
  {
    hide Tracks, Tables, CheckOk, Abs;
  }

  /** Stopping for lack of input. */
  lemma Suspend(v: Vars, g: Trace)
    requires Tracks(v, g) && Tables(v, g) && CheckOk(v, g)
    requires BitsOk(v.mode, v.bits) && (Hoards(v.mode) ==> v.bits <= 22) && (v.mode == HEAD ==> v.wrap)
    requires v.mode == CHECK ==> v.base == 0
    requires v.next == |v.input| && Step(Abs(v, g)).None?
    ensures Valid(v, g) && Paused(v, g)
  {
    hide Tracks, Tables, CheckOk, Abs, Step;
  }

  /** The check value is about output, which a change of mode leaves alone. */
  lemma CheckKept(v: Vars, g: Trace, v': Vars, g': Trace)
    requires CheckOk(v, g) && v.mode != DICT && g'.hist0 == g.hist0
    requires v'.wrap == v.wrap && v'.check == v.check && v'.base == v.base
    requires v.output <= v'.output
    requires BeforeCheck(v'.mode) ==> v.base == 0
    ensures CheckOk(v', g')
  {
    hide Packed, Feed;
    assert v'.output[..v'.base] == v.output[..v.base];
  }

  lemma NoTables(v: Vars, g: Trace)
    requires v.mode != CODELENS && !InDecode(v.mode)
    ensures Tables(v, g)
  {
  }

  /** A transition that leaves tables and check value alone keeps everything. */
  lemma Plain(v: Vars, g: Trace, w: Vars, v': Vars)
    requires Valid(v, g) && OnlyPulled(v, w) && Tracks(w, g) && v.mode != DICT
    requires Step(Abs(w, g)) == Some(Abs(v', g)) && InBounds(v') && Tables(v', g)
    requires SameCall(w, v') && v'.next == w.next && v'.check == w.check && v'.base == w.base
    requires BitsOk(v'.mode, v'.bits) && (Hoards(v'.mode) ==> v'.bits < 8) && v'.mode != HEAD
    requires BeforeCheck(v'.mode) || v'.mode == CHECK ==> BeforeCheck(v.mode)
    ensures Valid(v', g)
  {
    hide Valid, Tracks, Tables, CheckOk, Quiet, Step, Abs, Pow2;
    Facts(v, g);
    Pulled(v, g, w);
    Advance(w, g, v', g);
    CheckKept(w, g, v', g);
    Finish(v', g);
  }

  /** The accumulator is 32 bits wide. */
  lemma HoldFits(hold: nat, bits: nat)
    requires hold < Pow2(bits) && bits <= 32
    ensures hold < U32
  {
    Pow2Mono(bits, 32);
    Pow2Values();
    assert Pow2(20) == 1048576 && Pow2(24) == 16777216 && Pow2(28) == 268435456 && Pow2(32) == U32;
  }

  /** One more byte consumed leaves the decoder where it was, with the byte unread. */
  lemma PullTracks(wrap: bool, fed: seq<Byte>, input: seq<Byte>, next: nat, t: State)
    requires next < |input| && Reachable(Plus(Initial(wrap), BytesToBits(fed + input[..next])), t)
    ensures var t' := Plus(t, ToBits(input[next], 8));
            Reachable(Plus(Initial(wrap), BytesToBits(fed + input[..next + 1])), t') && StateOk(t')
  {
    hide Reachable, StateOk, BytesToBits, ToBits;
    FeedOneMore(Initial(wrap), fed, input, next);
    InitialOk(wrap);
    PlusOk(Initial(wrap), BytesToBits(fed + input[..next]));
    ReachableMono(Plus(Initial(wrap), BytesToBits(fed + input[..next])), t, ToBits(input[next], 8));
  }

  lemma FeedOneMore(s: State, fed: seq<Byte>, input: seq<Byte>, next: nat)
    requires next < |input|
    ensures Plus(s, BytesToBits(fed + input[..next + 1]))
         == Plus(Plus(s, BytesToBits(fed + input[..next])), BytesToBits(input[next..next + 1]))
    ensures BytesToBits(input[next..next + 1]) == ToBits(input[next], 8)
  {
    assert fed + input[..next + 1] == fed + input[..next] + input[next..next + 1];
    BytesToBitsAppend(fed + input[..next], input[next..next + 1]);
    assert input[next..next + 1] == [input[next]];
    OneByteBits(input[next]);
  }
}
