/** inflate.c: the call inflate(), its output window, and what holds over any
    sequence of calls. */
module InflateStream {
  import opened Bits
  import opened Canonical
  import opened InflateTable
  import opened InflateMachine
  import opened InflateState
  import opened InflateModes
  import opened InflateCodes
  import opened InflateDecode
  import opened InflateFast
  import opened AdlerSpec
  import opened Adler

  // ------------------------------------------------------------------ dispatch

  /** Modes ordered so that going on without reading or writing goes down. */
  function Rank(m: Mode): nat {
    match m
    case HEAD => 9
    case LENLENS => 8
    case CODELENS => 7
    case LENEXT => 6
    case DIST => 5
    case DISTEXT => 5
    case COPY => 4
    case STORED => 4
    case CHECK => 2
    case DICT => 1
    case DONE => 1
    case BAD => 1
    case _ => 3
  }

  predicate Progress(v: Vars, v': Vars) {
    Left(v') < Left(v) || (Left(v') == Left(v) && Rank(v'.mode) < Rank(v.mode))
  }

  /** The modes before the codes of a block. */
  method HeaderModes(v: Vars, ghost g: Trace) returns (leave: bool, v': Vars, ghost g': Trace)
    requires Valid(v, g) && !InDecode(v.mode) && BeforeCheck(v.mode) && v.mode != DICT
    ensures Valid(v', g') && SameCall(v, v') && SameTrace(g, g')
    ensures leave ==> Paused(v', g')
    ensures !leave ==> Progress(v, v')
  {
    hide Valid, Paused, SameCall;
    g' := g;
    match v.mode {
      case HEAD => leave, v' := DoHead(v, g);
      case DICTID => leave, v' := DoDictId(v, g);
      case TYPE => leave, v', g' := DoType(v, g);
      case STORED => leave, v' := DoStored(v, g);
      case COPY => leave, v' := DoCopy(v, g);
      case TABLE => leave, v' := DoTable(v, g);
      case LENLENS => leave, v', g' := DoLenLens(v, g);
      case CODELENS => leave, v', g' := DoCodeLens(v, g);
    }
  }

  /** The modes that decode a block. */
  method DecodeModes(v: Vars, window: seq<Byte>, ghost g: Trace) returns (leave: bool, v': Vars)
    requires Valid(v, g) && InDecode(v.mode) && RingFor(window, v.wsize, v.whave, v.write, g.hist0)
    ensures Valid(v', g) && SameCall(v, v')
    ensures leave ==> Paused(v', g)
    ensures !leave ==> Progress(v, v')
  {
    hide Valid, Paused, RingFor;
    match v.mode {
      case LEN =>
        if |v.input| - v.next >= 6 && v.avail - |v.output| >= 258 {
          v' := Fast(v, window, g);
          leave := false;
        } else {
          leave, v' := DoLen(v, g);
        }
      case LENEXT => leave, v' := DoLenExt(v, g);
      case DIST => leave, v' := DoDist(v, g);
      case DISTEXT => leave, v' := DoDistExt(v, g, window);
      case MATCH => leave, v' := DoMatch(v, window, g);
      case LIT => leave, v' := DoLit(v, g);
    }
  }

  lemma HaltPaused(v: Vars, g: Trace)
    requires v.mode == DONE || v.mode == BAD || v.mode == DICT
    ensures Paused(v, g)
  {
  }

  lemma SameCallTrans(a: Vars, b: Vars, c: Vars)
    requires SameCall(a, b) && SameCall(b, c)
    ensures SameCall(a, c)
  {
  }

  lemma SameCallSelf(a: Vars)
    ensures SameCall(a, a)
  {
  }

  lemma ValidBounds(v: Vars, g: Trace)
    requires Valid(v, g)
    ensures InBounds(v) && Left(v) >= 0
  {
  }

  /** The loop of inflate(), until it leaves. */
  method Loop(v0: Vars, window: seq<Byte>, ghost g0: Trace) returns (v: Vars, ghost g: Trace)
    requires Valid(v0, g0)
    requires BeforeCheck(v0.mode) ==> RingFor(window, v0.wsize, v0.whave, v0.write, g0.hist0)
    ensures Valid(v, g) && SameCall(v0, v) && SameTrace(g0, g) && Paused(v, g)
    ensures BeforeCheck(v.mode) ==> BeforeCheck(v0.mode)
  {
    hide Valid, Paused, RingFor, SameCall, Progress, InBounds;
    v, g := v0, g0;
    var leave := false;
    SameCallSelf(v0);
    ValidBounds(v, g);
    while !leave
      invariant Valid(v, g) && SameCall(v0, v) && SameTrace(g0, g) && Left(v) >= 0
      invariant leave ==> Paused(v, g)
      invariant BeforeCheck(v.mode) ==> BeforeCheck(v0.mode)
      decreases !leave, Left(v), Rank(v.mode)
    {
      ghost var u := v;
      SameWindow(v0, v);
      if v.mode == CHECK {
        leave, v := DoCheck(v, g);
        if !leave {
          CheckProgress(u, v);
        }
      } else if v.mode == DONE || v.mode == BAD || v.mode == DICT {
        HaltPaused(v, g);
        leave := true;
      } else if InDecode(v.mode) {
        leave, v := DecodeModes(v, window, g);
      } else {
        leave, v, g := HeaderModes(v, g);
      }
      if u != v {
        SameCallTrans(v0, u, v);
      }
      ValidBounds(v, g);
      if !leave {
        ProgressDown(u, v);
      }
    }
  }

  lemma CheckProgress(u: Vars, v: Vars)
    requires u.mode == CHECK && Left(v) <= Left(u) && (v.mode == DONE || v.mode == BAD)
    ensures Progress(u, v)
  {
  }

  lemma ProgressDown(u: Vars, v: Vars)
    requires Progress(u, v)
    ensures Left(v) < Left(u) || (Left(v) == Left(u) && Rank(v.mode) < Rank(u.mode))
  {
  }

  lemma SameWindow(a: Vars, b: Vars)
    requires SameCall(a, b)
    ensures b.wsize == a.wsize && b.whave == a.whave && b.write == a.write
  {
  }

  // ----------------------------------------------------------- between two calls

  /** A call begins: its buffers are added to what was kept. */
  function Begin(s: Vars, input: seq<Byte>, avail: nat): (v: Vars) {
    s.(input := input, next := 0, output := [], avail := avail, base := 0)
  }

  /** No buffers, as between two calls. */
  predicate Idle(s: Vars) {
    s.input == [] && s.next == 0 && s.output == [] && s.avail == 0 && s.base == 0
  }

  function Rest(v: Vars): (s: Vars)
    ensures Idle(s)
  {
    v.(input := [], next := 0, output := [], avail := 0, base := 0)
  }

  /** The trace after a call. */
  ghost function Past(v: Vars, g: Trace): Trace
    requires v.next <= |v.input|
  {
    g.(fed0 := g.fed0 + v.input[..v.next], hist0 := g.hist0 + v.output)
  }

  lemma BeginValid(s: Vars, g: Trace, input: seq<Byte>, avail: nat)
    requires Valid(s, g) && Idle(s)
    ensures Valid(Begin(s, input, avail), g) && Abs(Begin(s, input, avail), g) == Abs(s, g)
  {
    hide TableFor, Step, StateOk, Reachable, Packed, Feed, ToBits, BytesToBits, Initial, Pow2;
    assert Abs(Begin(s, input, avail), g) == Abs(s, g);
    assert g.fed0 + input[..0] == g.fed0 == g.fed0 + s.input[..0];
  }

  /** The check value covers all output of the call. */
  ghost predicate Checked(v: Vars, g: Trace) {
    v.wrap && v.mode != DICT ==> v.check == Packed(Feed(START, g.hist0 + v.output))
  }

  /** A call may end: everything holds, and the check value is up to date. */
  ghost predicate Settled(v: Vars, g: Trace) {
    Tracks(v, g) && Tables(v, g) && Quiet(v, g) && Checked(v, g)
  }

  lemma RestAbs(v: Vars, g: Trace)
    requires v.next <= |v.input|
    ensures Abs(Rest(v), Past(v, g)) == Abs(v, g)
  {
    hide ToBits;
    assert g.hist0 + v.output == g.hist0 + v.output + [];
  }

  lemma RestValid(v: Vars, g: Trace)
    requires Settled(v, g)
    ensures v.next <= |v.input| && Valid(Rest(v), Past(v, g)) && Abs(Rest(v), Past(v, g)) == Abs(v, g)
  {
    hide TableFor, Step, StateOk, Reachable, Packed, Feed, BytesToBits, Initial, Pow2, Abs;
    var s, h := Rest(v), Past(v, g);
    assert v.next <= |v.input|;
    RestAbs(v, g);
    assert h.fed0 + s.input[..0] == g.fed0 + v.input[..v.next];
    assert h.hist0 + s.output[..0] == g.hist0 + v.output;
  }

  lemma CheckedAlready(v: Vars, g: Trace)
    requires Valid(v, g) && (!v.wrap || v.base == |v.output| || v.mode == DICT)
    ensures Settled(v, g)
  {
    hide Tracks, Tables, Quiet, Packed, Feed;
    assert v.output[..|v.output|] == v.output;
  }

  lemma UpdatedValid(v: Vars, g: Trace, v': Vars)
    requires Valid(v, g) && v' == v.(check := v'.check, base := 0)
    requires v'.check == Packed(Feed(START, g.hist0 + v.output))
    ensures Settled(v', g) && Abs(v', g) == Abs(v, g)
  {
    hide TableFor, Step, StateOk, Reachable, Packed, Feed, ToBits, BytesToBits, Initial, Pow2;
    assert Abs(v', g) == Abs(v, g);
  }

  // ------------------------------------------------------------------ the window

  /** zmemcpy into the window. */
  method MemCopy(window: array<Byte>, at: nat, c: seq<Byte>)
    requires at + |c| <= window.Length
    modifies window
    ensures window[..] == CopyIn(old(window[..]), at, c)
  {
    ghost var was := window[..];
    var i := 0;
    while i < |c|
      invariant i <= |c|
      invariant forall k :: 0 <= k < window.Length ==> window[k] == if at <= k < at + i then c[k - at] else was[k]
    {
      window[at + i] := c[i];
      i := i + 1;
    }
    assert window[..] == CopyIn(was, at, c);
  }

  /** updatewindow: appends c to the ring. */
  method UpdateWindow(window: array<Byte>, v: Vars, c: seq<Byte>, ghost h: seq<Byte>) returns (v': Vars)
    requires window.Length == WSIZE && v.write < WSIZE && (v.wsize == 0 || v.wsize == WSIZE)
    modifies window
    ensures v' == v.(wsize := v'.wsize, whave := v'.whave, write := v'.write)
    ensures v'.write < WSIZE && v'.wsize == WSIZE
    ensures RingFor(old(window[..]), v.wsize, v.whave, v.write, h) ==>
              RingFor(window[..], v'.wsize, v'.whave, v'.write, h + c)
  {
    hide RingFor, CopyIn;
    ghost var w := window[..];
    var wsize, whave, write := WSIZE, v.whave, v.write;
    if v.wsize == 0 {
      whave, write := 0, 0;
    }
    ghost var ok := RingFor(w, v.wsize, v.whave, v.write, h);
    FreshRing(w, v.wsize, v.whave, v.write, h);
    assert ok ==> RingFor(w, v.wsize, whave, write, h);
    ghost var ws, wh, wr := v.wsize, whave, write;
    var copy := |c|;
    if copy >= wsize {
      MemCopy(window, 0, c[|c| - wsize..]);
      if ok { RingReplace(w, ws, wh, wr, h, c); }
      write, whave := 0, wsize;
    } else {
      var dist := wsize - write;
      if dist > copy {
        dist := copy;
      }
      MemCopy(window, write, c[..dist]);
      copy := copy - dist;
      if copy != 0 {
        MemCopy(window, 0, c[dist..]);
        if ok { RingWrap(w, ws, wh, wr, h, c); }
        write, whave := copy, wsize;
      } else {
        assert c[..dist] == c;
        write := write + dist;
        if write == wsize {
          if ok { RingToEnd(w, ws, wh, wr, h, c); RingHave(w, ws, wh, wr, h); }
          write := 0;
        } else {
          if ok { RingAppend(w, ws, wh, wr, h, c); }
        }
        if whave < wsize {
          whave := whave + dist;
        }
      }
    }
    v' := v.(wsize := wsize, whave := whave, write := write);
  }

  lemma RingHave(window: seq<Byte>, wsize: nat, whave: nat, write: nat, h: seq<Byte>)
    requires RingFor(window, wsize, whave, write, h)
    ensures whave <= WSIZE
  {
  }

  lemma FreshRing(window: seq<Byte>, wsize: nat, whave: nat, write: nat, h: seq<Byte>)
    ensures RingFor(window, wsize, whave, write, h) && wsize == 0 ==> whave == 0 && write == 0
  {
  }

  lemma NewWindow(v: Vars, g: Trace, v': Vars)
    requires v' == v.(wsize := v'.wsize, whave := v'.whave, write := v'.write)
    ensures InflateState.Valid(v, g) ==> InflateState.Valid(v', g)
    ensures Abs(v', g) == Abs(v, g)
  {
    hide TableFor, Step, StateOk, Reachable, Packed, Feed, BytesToBits, Initial, Pow2, Abs;
    SameAbs(v, g, v');
  }

  lemma SameAbs(v: Vars, g: Trace, v': Vars)
    requires v' == v.(wsize := v'.wsize, whave := v'.whave, write := v'.write)
    ensures Abs(v', g) == Abs(v, g)
  {
    hide ToBits;
  }

  // -------------------------------------------------------------------- the calls

  /** The machine has stopped for good. */
  predicate Halted(m: Mode) {
    m == DONE || m == BAD || m == DICT
  }

  /** The machine's next transition writes a byte. */
  predicate Writes(t: State) {
    t.mode == LIT || t.mode == MATCH || (t.mode == COPY && t.length > 0)
  }

  lemma WhyPaused(v: Vars, g: Trace)
    requires Paused(v, g)
    ensures || (v.next == |v.input| && Step(Abs(v, g)).None?)
            || (|v.output| == v.avail && Writes(Abs(v, g)))
            || Halted(Abs(v, g).mode)
    ensures Abs(v, g).mode == v.mode && Abs(v, g).out == g.hist0 + v.output
  {
    hide Step, ToBits;
  }

  /** The value inflate() returns in each mode. */
  predicate Returns(ret: Ret, m: Mode, finish: bool, idle: bool) {
    match m
    case DONE => ret == Z_STREAM_END
    case BAD => ret == Z_DATA_ERROR
    case DICT => ret == Z_NEED_DICT
    case _ => ret == if idle || finish then Z_BUF_ERROR else Z_OK
  }

  lemma FirstValid(v: Vars, wrap: bool)
    requires v == Vars(HEAD, wrap, false, 1, 0, 0, 0, 0, 0, 0, 0, 0, [], [], 0, 0, 0, 0, 0, 0, Initial(wrap).lens,
                       [], 0, [], 0, 0)
    ensures InflateState.Valid(v, Trace([], [], [], [], [])) && Idle(v)
    ensures Abs(v, Trace([], [], [], [], [])) == Initial(wrap)
  {
    hide Step, TableFor, StateOk;
    var g := Trace([], [], [], [], []);
    InitialOk(wrap);
    var t := Initial(wrap);
    assert Abs(v, g) == t;
    assert v.input[..v.next] == [] && g.fed0 + v.input[..v.next] == [];
    assert Start(v, g) == t;
    assert Reaches(t, 0, t);
    assert g.hist0 + v.output[..v.base] == [];
  }

  /** A zlib (wrap) or raw deflate stream being decompressed. */
  class Inflater {
    var s: Vars
    const window: array<Byte>
    ghost var g: Trace

    ghost predicate Valid()
      reads this, window
    {
      && window.Length == WSIZE && Idle(s) && InflateState.Valid(s, g)
      && s.write < WSIZE && (s.wsize == 0 || s.wsize == WSIZE)
      && (BeforeCheck(s.mode) ==> RingFor(window[..], s.wsize, s.whave, s.write, g.hist0))
    }

    /** All bytes consumed, all bytes written, and the machine state in between. */
    ghost function Fed(): seq<Byte>
      reads this
    {
      g.fed0
    }

    ghost function History(): seq<Byte>
      reads this
    {
      g.hist0
    }

    ghost function Machine(): State
      reads this
    {
      Abs(s, g)
    }

    constructor (wrap: bool)
      ensures Valid() && Fed() == [] && History() == [] && Machine() == Initial(wrap) && fresh(window)
    {
      window := new Byte[WSIZE];
      s := Vars(HEAD, wrap, false, 1, 0, 0, 0, 0, 0, 0, 0, 0, [], [], 0, 0, 0, 0, 0, 0, Initial(wrap).lens,
                [], 0, [], 0, 0);
      g := Trace([], [], [], [], []);
      new;
      FirstValid(s, wrap);
    }

    /** inflate(): reads and writes as much as it can. */
    method Inflate(input: seq<Byte>, avail: nat, finish: bool) returns (ret: Ret, consumed: nat, output: seq<Byte>)
      requires Valid()
      modifies this, window
      ensures Valid() && Machine().wrap == old(Machine().wrap)
      ensures consumed <= |input| && |output| <= avail
      ensures Fed() == old(Fed()) + input[..consumed] && History() == old(History()) + output
      ensures || (consumed == |input| && Step(Machine()).None?)
              || (|output| == avail && Writes(Machine()))
              || Halted(Machine().mode)
      ensures Returns(ret, Machine().mode, finish, consumed == 0 && output == [])
    {
      hide InflateState.Valid, Paused, RingFor, SameCall, Step, Abs, BeforeCheck, Settled, Returns, Writes, Halted;
      var v := Begin(s, input, avail);
      BeginValid(s, g, input, avail);
      AbsWrap(s, g);
      ghost var h;
      v, h := Loop(v, window[..], g);
      AfterLoop(Begin(s, input, avail), v, g, h);
      consumed, output := v.next, v.output;
      ret := ReturnCode(v, finish);
      if v.mode != DICT {
        v := Leave(window, v, h);
      } else {
        CheckedAlready(v, h);
        DictWindow(v, h);
      }
      RestValid(v, h);
      s, g := Rest(v), Past(v, h);
    }
  }

  function ReturnCode(v: Vars, finish: bool): (ret: Ret) {
    match v.mode
    case DONE => Z_STREAM_END
    case BAD => Z_DATA_ERROR
    case DICT => Z_NEED_DICT
    case _ => if (v.next == 0 && |v.output| == v.base) || finish then Z_BUF_ERROR else Z_OK
  }

  lemma AfterLoop(v0: Vars, v: Vars, g0: Trace, g: Trace)
    requires SameCall(v0, v) && SameTrace(g0, g) && InflateState.Valid(v, g) && Paused(v, g)
    ensures v.input == v0.input && v.avail == v0.avail && v.next <= |v.input| && |v.output| <= v.avail
    ensures v.wsize == v0.wsize && v.whave == v0.whave && v.write == v0.write
    ensures Abs(v, g).wrap == v0.wrap && Abs(v, g).mode == v.mode
    ensures || (v.next == |v.input| && Step(Abs(v, g)).None?)
            || (|v.output| == v.avail && Writes(Abs(v, g)))
            || Halted(Abs(v, g).mode)
    ensures g.fed0 == g0.fed0 && g.hist0 == g0.hist0
    ensures forall finish :: Returns(ReturnCode(v, finish), v.mode, finish, v.next == 0 && v.output == [])
  {
    hide Step, InflateState.Valid, Abs, Paused, Writes, Returns, ReturnCode;
    Facts(v, g);
    WhyPaused(v, g);
    AbsWrap(v, g);
    forall finish
      ensures Returns(ReturnCode(v, finish), v.mode, finish, v.next == 0 && v.output == [])
    {
      CodeReturned(v, finish);
    }
  }

  lemma CodeReturned(v: Vars, finish: bool)
    requires Halted(v.mode) || v.base == 0
    ensures Returns(ReturnCode(v, finish), v.mode, finish, v.next == 0 && v.output == [])
  {
  }

  lemma AbsWrap(v: Vars, g: Trace)
    ensures Abs(v, g).wrap == v.wrap
  {
  }

  /** A stream that waits for its dictionary has no output. */
  lemma DictWindow(v: Vars, g: Trace)
    requires InflateState.Valid(v, g) && v.mode == DICT
    ensures g.hist0 + v.output == g.hist0
  {
    hide Step, Tables, Quiet, Reachable, CodeOk, LensOk, ToBits;
  }

  /** inf_leave: the window and the check value take in the output. */
  method Leave(window: array<Byte>, v: Vars, ghost g: Trace) returns (v': Vars)
    requires window.Length == WSIZE && v.write < WSIZE && (v.wsize == 0 || v.wsize == WSIZE)
    requires InflateState.Valid(v, g) && v.mode != DICT
    requires BeforeCheck(v.mode) ==> RingFor(window[..], v.wsize, v.whave, v.write, g.hist0)
    modifies window
    ensures Settled(v', g) && Abs(v', g) == Abs(v, g)
    ensures v'.mode == v.mode && v'.input == v.input && v'.next == v.next && v'.output == v.output
    ensures v'.write < WSIZE && (v'.wsize == 0 || v'.wsize == WSIZE)
    ensures BeforeCheck(v.mode) ==> RingFor(window[..], v'.wsize, v'.whave, v'.write, g.hist0 + v.output)
  {
    hide InflateState.Valid, RingFor, Abs, Settled, Packed, Feed, CheckOk, Tracks, Tables;
    v' := v;
    Facts(v, g);
    if v.wsize != 0 || (BeforeCheck(v.mode) && v.output[v.base..] != []) {
      v' := UpdateWindow(window, v, v.output[v.base..], g.hist0);
    } else {
      assert BeforeCheck(v.mode) ==> g.hist0 + v.output == g.hist0;
    }
    NewWindow(v, g, v');
    Facts(v', g);
    if v'.wrap && v'.output[v'.base..] != [] {
      ghost var u := v';
      v' := UpdateCheck(v', g);
      v' := v'.(base := 0);
      UpdatedValid(u, g, v');
    } else {
      CheckedAlready(v', g);
    }
  }

  // ------------------------------------------------- however the stream is cut

  lemma {:induction false} RunGrows(s: State, n: nat, t: State)
    requires Reaches(s, n, t)
    ensures s.out <= t.out
    decreases n
  {
    hide Step;
    if n == 0 {
    } else {
      StepGrows(s);
      RunGrows(Step(s).value, n - 1, t);
    }
  }

  /** No transition takes output back. */
  lemma StepGrows(s: State)
    requires Step(s).Some?
    ensures s.out <= Step(s).value.out
  {
    hide StepHead, StepType, StepStored, StepTable, StepLenLens, StepCodeLens, StepLen, StepLenExt,
         StepDist, StepDistExt, StepCheck, Peek;
    if s.mode == COPY || s.mode == MATCH || s.mode == LIT || s.mode == DICTID {
    } else if InDecode(s.mode) {
      DecodeKeeps(s);
    } else {
      HeaderKeeps(s);
    }
  }

  lemma DecodeKeeps(s: State)
    requires Step(s).Some? && (s.mode == LEN || s.mode == LENEXT || s.mode == DIST || s.mode == DISTEXT)
    ensures Step(s).value.out == s.out
  {
    hide Decode, Peek, IsEnd, IsInvalid, StepHead, StepType, StepStored, StepTable, StepLenLens, StepCodeLens,
         StepCheck;
  }

  lemma HeaderKeeps(s: State)
    requires Step(s).Some? && !InDecode(s.mode) && s.mode != COPY && s.mode != DICTID
    ensures Step(s).value.out == s.out
  {
    hide Decode, Accepts, Roomy, Peek, ZeroRest, Repeat, Reverse4, Packed, Feed, HeaderBad, BlockMode,
         FixedLens, FixedDists, StepLen, StepLenExt, StepDist, StepDistExt, StepMatch, StepLit, StepCopy;
  }

  lemma {:induction false} LongerRun(s: State, m: nat, t: State, n: nat, u: State)
    requires Reaches(s, m, t) && Reaches(s, n, u) && m <= n
    ensures t.out <= u.out
    decreases m
  {
    hide Step;
    if m == 0 {
      RunGrows(s, n, u);
    } else {
      LongerRun(Step(s).value, m - 1, t, n - 1, u);
    }
  }

  /** What the whole input leads to from the start. */
  ghost function Whole(wrap: bool, input: seq<Byte>): State {
    Plus(Initial(wrap), BytesToBits(input))
  }

  /** A run on part of the input is a run on all of it. */
  lemma RunExtends(wrap: bool, fed: seq<Byte>, t: State, input: seq<Byte>)
    requires fed <= input && Reachable(Whole(wrap, fed), t)
    ensures Reachable(Whole(wrap, input), Plus(t, BytesToBits(input[|fed|..])))
  {
    hide Reachable, BytesToBits, StateOk, Initial;
    var rest := input[|fed|..];
    assert input == fed + rest;
    BytesToBitsAppend(fed, rest);
    InitialOk(wrap);
    PlusOk(Initial(wrap), BytesToBits(fed));
    ReachableMono(Whole(wrap, fed), t, BytesToBits(rest));
    assert Plus(Whole(wrap, fed), BytesToBits(rest)) == Whole(wrap, input);
  }

  /** A run has used up the input, or halted before. */
  ghost predicate Finished(input: seq<Byte>, fed: seq<Byte>, t: State) {
    fed <= input && (Halted(t.mode) || (fed == input && Step(t).None?))
  }

  lemma FinishedStays(input: seq<Byte>, fed: seq<Byte>, t: State)
    requires Finished(input, fed, t)
    ensures Step(Plus(t, BytesToBits(input[|fed|..]))).None?
  {
    hide StepHead, StepType, StepStored, StepCopy, StepTable, StepLenLens, StepCodeLens, StepLen, StepLenExt,
         StepDist, StepDistExt, StepMatch, StepLit, StepCheck;
    if fed == input {
      assert input[|fed|..] == [];
      assert Plus(t, []) == t;
    }
  }

  /** Two runs that both end on the same input end in the same state, with the
      same output and the same input left over. */
  lemma RunsEndAlike(wrap: bool, input: seq<Byte>, fed: seq<Byte>, t: State, fed': seq<Byte>, t': State)
    requires Reachable(Whole(wrap, fed), t) && Finished(input, fed, t)
    requires Reachable(Whole(wrap, fed'), t') && Finished(input, fed', t')
    ensures t.mode == t'.mode && t.out == t'.out
    ensures t.unread + BytesToBits(input[|fed|..]) == t'.unread + BytesToBits(input[|fed'|..])
  {
    hide Step, BytesToBits, Whole;
    RunExtends(wrap, fed, t, input);
    RunExtends(wrap, fed', t', input);
    FinishedStays(input, fed, t);
    FinishedStays(input, fed', t');
    var s, u, u' := Whole(wrap, input), Plus(t, BytesToBits(input[|fed|..])), Plus(t', BytesToBits(input[|fed'|..]));
    var n: nat :| Reaches(s, n, u);
    var n': nat :| Reaches(s, n', u');
    if n < n' {
      ReachesPast(s, n, u, n', u');
    } else if n' < n {
      ReachesPast(s, n', u', n, u);
    } else {
      ReachesUnique(s, n, u, u');
    }
  }

  /** Two runs on parts of one input never disagree about a byte of output. */
  lemma RunsAgree(wrap: bool, input: seq<Byte>, fed: seq<Byte>, t: State, fed': seq<Byte>, t': State)
    requires fed <= input && Reachable(Whole(wrap, fed), t)
    requires fed' <= input && Reachable(Whole(wrap, fed'), t')
    ensures t.out <= t'.out || t'.out <= t.out
  {
    hide Step, BytesToBits, Whole;
    RunExtends(wrap, fed, t, input);
    RunExtends(wrap, fed', t', input);
    var s, u, u' := Whole(wrap, input), Plus(t, BytesToBits(input[|fed|..])), Plus(t', BytesToBits(input[|fed'|..]));
    var n: nat :| Reaches(s, n, u);
    var n': nat :| Reaches(s, n', u');
    if n <= n' {
      LongerRun(s, n, u, n', u');
    } else {
      LongerRun(s, n', u', n, u);
    }
  }

  lemma RunOf(a: Inflater)
    requires a.Valid()
    ensures Reachable(Whole(a.Machine().wrap, a.Fed()), a.Machine()) && a.Machine().out == a.History()
  {
    hide Tables, Quiet, CheckOk, StateOk, Reachable, Initial, BytesToBits, RingFor, ToBits, Pow2;
    assert a.g.fed0 + a.s.input[..a.s.next] == a.g.fed0;
    assert a.g.hist0 + a.s.output == a.g.hist0;
  }

  /** Any two sequences of calls that finish the same stream give the same output
      and the same outcome, however input and output space were cut. */
  lemma ChunkIndependence(a: Inflater, b: Inflater, input: seq<Byte>)
    requires a.Valid() && b.Valid() && a.Machine().wrap == b.Machine().wrap
    requires Finished(input, a.Fed(), a.Machine()) && Finished(input, b.Fed(), b.Machine())
    ensures a.History() == b.History() && a.Machine().mode == b.Machine().mode
  {
    hide Step, Reachable, Finished, Abs, InflateState.Valid, RingFor, Whole;
    RunOf(a);
    RunOf(b);
    RunsEndAlike(a.Machine().wrap, input, a.Fed(), a.Machine(), b.Fed(), b.Machine());
  }

  /** Before that, one output is a prefix of the other. */
  lemma PrefixAgreement(a: Inflater, b: Inflater, input: seq<Byte>)
    requires a.Valid() && b.Valid() && a.Machine().wrap == b.Machine().wrap
    requires a.Fed() <= input && b.Fed() <= input
    ensures a.History() <= b.History() || b.History() <= a.History()
  {
    hide Step, Reachable, Abs, InflateState.Valid, RingFor, Whole;
    RunOf(a);
    RunOf(b);
    RunsAgree(a.Machine().wrap, input, a.Fed(), a.Machine(), b.Fed(), b.Machine());
  }
}
