/** The reference machine of inflate.c: one transition per resumption point.

    A state holds the bits read but not yet used and all output so far.  A
    transition either finds the bits it needs and takes exactly those, or does
    not happen.  It never looks at how the input or the output space was cut into
    calls; that the resumable code only ever follows these transitions is proved
    for each mode in InflateModes.dfy, InflateCodes.dfy and InflateDecode.dfy, for the
    fast loop in InflateFast.dfy, and for whole calls in InflateStream.dfy. */
module InflateMachine {
  import opened Bits
  import opened Canonical
  import opened InflateTable
  import AdlerSpec

  datatype Option<+T> = None | Some(value: T)

  datatype Mode =
    | HEAD | DICTID | DICT | TYPE | STORED | COPY | TABLE | LENLENS | CODELENS
    | LEN | LENEXT | DIST | DISTEXT | MATCH | LIT | CHECK | DONE | BAD

  /** clens, llens and dlens are the lengths of the code-length, literal/length
      and distance codes in use.  length, offset and extra are zero where the code
      no longer reads them. */
  datatype State = State(
    mode: Mode, wrap: bool, last: bool,
    length: nat, offset: nat, extra: nat, nlen: nat, ndist: nat, ncode: nat, have: nat,
    lens: seq<nat>, clens: seq<nat>, llens: seq<nat>, dlens: seq<nat>, unread: seq<bool>, out: seq<Byte>)

  const ORDER: seq<nat> := [16, 17, 18, 0, 8, 7, 9, 6, 10, 5, 11, 4, 12, 3, 13, 2, 14, 1, 15]
  const Z_DEFLATED: nat := 8
  const WBITS: nat := 15
  const LENS_SIZE: nat := 320

  /** fixedtables: the lengths of the fixed codes, section 3.2.6 of RFC 1951. */
  function FixedLens(): (r: seq<nat>)
    ensures |r| == 288 && forall i :: 0 <= i < 288 ==>
              r[i] == if i < 144 then 8 else if i < 256 then 9 else if i < 280 then 7 else 8
  {
    seq(288, i => if i < 144 then 8 else if i < 256 then 9 else if i < 280 then 7 else 8)
  }

  function FixedDists(): (r: seq<nat>)
    ensures |r| == 32 && forall i :: 0 <= i < 32 ==> r[i] == 5
  {
    seq(32, i => 5)
  }

  // ------------------------------------------------------------------- decoding

  /** The symbol whose code a bit string starts with. */
  ghost function StartSym(lens: seq<nat>, w: nat): (s: nat)
    requires !Unmatched(lens, w)
    ensures Starts(lens, s, w)
  {
    var s: nat :| Starts(lens, s, w);
    s
  }

  /** What a bit string w decodes to in the code with these lengths. */
  ghost function RefDecode(ty: CodeType, lens: seq<nat>, w: nat): Decoded
    requires |lens| <= MaxSymbols(ty)
  {
    if Unmatched(lens, w) then NOTHING
    else
      var s := StartSym(lens, w);
      Decoded(SymOp(ty, s), SymVal(ty, s), lens[s])
  }

  lemma RefIs(ty: CodeType, lens: seq<nat>, s: nat, w: nat)
    requires |lens| <= MaxSymbols(ty) && LensOk(lens) && NotOver(lens) && Starts(lens, s, w)
    ensures RefDecode(ty, lens, w) == Decoded(SymOp(ty, s), SymVal(ty, s), lens[s])
  {
    PrefixFree(lens, s, StartSym(lens, w), w);
  }

  /** The code the encoder sends for a symbol, whatever follows it, is decoded to the
      symbol and exactly its length is used. */
  lemma EncoderAgrees(t: seq<Entry>, root: nat, ty: CodeType, lens: seq<nat>, s: nat, following: nat)
    requires TableFor(t, root, ty, lens) && s < |lens| && lens[s] != 0
    ensures Lookup(t, root, Code(lens, s) + Shl(following, lens[s])) == Decoded(SymOp(ty, s), SymVal(ty, s), lens[s])
  {
    hide Low, Shl, Pow2, Rev, Lookup;
    var w := Code(lens, s) + Shl(following, lens[s]);
    RevBound(lens[s], SymCode(lens, s));
    ShlLow(following, Code(lens, s), lens[s]);
    assert Starts(lens, s, w);
  }

  /** With a complete code no bit string is without a symbol. */
  lemma NothingLeft(t: seq<Entry>, root: nat, ty: CodeType, lens: seq<nat>, w: nat) returns (s: nat)
    requires TableFor(t, root, ty, lens) && Complete(lens)
    ensures s < |lens| && lens[s] != 0 && Lookup(t, root, w) == Decoded(SymOp(ty, s), SymVal(ty, s), lens[s])
  {
    hide Low, Lookup, Linked, Code, Complete;
    s := Covered(lens, w);
    assert Starts(lens, s, w);
  }

  /** inflate_table's tables decode as the code says. */
  lemma TableIsRef(t: seq<Entry>, root: nat, ty: CodeType, lens: seq<nat>, w: nat)
    requires TableFor(t, root, ty, lens)
    ensures Lookup(t, root, w) == RefDecode(ty, lens, w)
  {
    if !Unmatched(lens, w) {
      assert Starts(lens, StartSym(lens, w), w);
    }
  }

  predicate CodeOk(ty: CodeType, lens: seq<nat>) {
    |lens| <= MaxSymbols(ty) && LensOk(lens) && Accepts(ty, lens)
  }

  /** Decoding looks at no more than the bits it uses. */
  lemma RefStable(ty: CodeType, lens: seq<nat>, v: nat, w: nat)
    requires CodeOk(ty, lens)
    requires Low(v, RefDecode(ty, lens, v).used) == Low(w, RefDecode(ty, lens, v).used)
    ensures RefDecode(ty, lens, w) == RefDecode(ty, lens, v)
  {
    hide Low, Kraft, Rank;
    AcceptedNotOver(ty, lens);
    if Unmatched(lens, v) {
      UnmatchedStable(ty, lens, v, w);
    } else {
      var s := StartSym(lens, v);
      assert Starts(lens, s, w);
      RefIs(ty, lens, s, w);
    }
  }

  lemma AcceptedNotOver(ty: CodeType, lens: seq<nat>)
    requires CodeOk(ty, lens)
    ensures NotOver(lens)
  {
    if Empty(lens) {
      KraftAbove(lens, 0, MAX_BITS);
    }
  }

  lemma UnmatchedStable(ty: CodeType, lens: seq<nat>, v: nat, w: nat)
    requires CodeOk(ty, lens) && Unmatched(lens, v) && Low(v, 1) == Low(w, 1)
    ensures Unmatched(lens, w)
  {
    if Empty(lens) {
    } else if Complete(lens) {
      var s := Covered(lens, v);
      assert Starts(lens, s, v);
    } else {
      var s :| 0 <= s < |lens| && lens[s] != 0;
      RankBound(lens, s);
      OneCodeSpace(lens);
      OneCode(lens, v);
      OneCode(lens, w);
    }
  }

  /** Decodes the next symbol, if the unread bits hold a whole code. */
  ghost function Decode(ty: CodeType, lens: seq<nat>, unread: seq<bool>): Option<Decoded>
    requires |lens| <= MaxSymbols(ty)
  {
    var d := RefDecode(ty, lens, FromBits(unread));
    if d.used <= |unread| then Some(d) else None
  }

  lemma DecodeMono(ty: CodeType, lens: seq<nat>, unread: seq<bool>, more: seq<bool>)
    requires CodeOk(ty, lens) && Decode(ty, lens, unread).Some?
    ensures Decode(ty, lens, unread + more) == Decode(ty, lens, unread)
  {
    var d := RefDecode(ty, lens, FromBits(unread));
    FromBitsSplit(unread, d.used);
    FromBitsSplit(unread + more, d.used);
    assert (unread + more)[..d.used] == unread[..d.used];
    RefStable(ty, lens, FromBits(unread), FromBits(unread + more));
  }

  // ---------------------------------------------------------------- transitions

  /** The next n unread bits as a number. */
  function Peek(s: State, n: nat): (r: nat)
    requires n <= |s.unread|
  {
    FromBits(s.unread[..n])
  }

  function Drop(s: State, n: nat): (r: State)
    requires n <= |s.unread|
  {
    s.(unread := s.unread[n..])
  }

  /** BYTEBITS: go to a byte boundary. */
  function Align(s: State): (r: State) {
    Drop(s, |s.unread| % 8)
  }

  /** The first two bytes of a zlib stream fail their check, or name another method. */
  predicate HeaderBad(h: nat) {
    (h % 256 * 256 + h / 256) % 31 != 0 || h % 16 != Z_DEFLATED
  }

  function StepHead(s: State): (r: Option<State>) {
    if !s.wrap then Some(s.(mode := TYPE))
    else if |s.unread| < 16 then None
    else
      var h := Peek(s, 16);
      if HeaderBad(h) then Some(s.(mode := BAD))
      else if h / 16 % 16 + 8 > WBITS then Some(Drop(s, 4).(mode := BAD))
      else Some(Drop(s, 16).(mode := if h / 8192 % 2 == 1 then DICTID else TYPE))
  }

  function StepType(s: State): (r: Option<State>) {
    if s.last then Some(Align(s).(mode := CHECK))
    else if |s.unread| < 3 then None
    else
      var h := Peek(s, 3);
      Some(NewBlock(Drop(s, 3), h % 2 == 1, BlockMode(h / 2)))
  }

  /** The mode a block type leads to. */
  function BlockMode(sel: nat): (m: Mode)
    ensures m == STORED || m == LEN || m == TABLE || m == BAD
  {
    if sel == 0 then STORED else if sel == 1 then LEN else if sel == 2 then TABLE else BAD
  }

  function NewBlock(s: State, last: bool, m: Mode): (r: State) {
    s.(last := last, mode := m,
       llens := if m == LEN then FixedLens() else s.llens, dlens := if m == LEN then FixedDists() else s.dlens)
  }

  function StepStored(s: State): (r: Option<State>) {
    if |s.unread| % 8 != 0 then Some(Align(s))
    else if |s.unread| < 32 then None
    else
      var h := Peek(s, 32);
      if h % 65536 != 65535 - h / 65536 then Some(s.(mode := BAD))
      else Some(Drop(s, 32).(mode := COPY, length := h % 65536))
  }

  function StepCopy(s: State): (r: Option<State>) {
    if s.length == 0 then Some(s.(mode := TYPE))
    else if |s.unread| < 8 then None
    else
      var x := Peek(s, 8);
      if x < 256 then Some(Drop(s, 8).(out := s.out + [x], length := s.length - 1)) else None
  }

  function StepTable(s: State): (r: Option<State>) {
    if |s.unread| < 14 then None
    else
      var h := Peek(s, 14);
      Some(NewTable(Drop(s, 14), Hlit(h), Hdist(h), Hclen(h)))
  }

  // the fields of a dynamic block's header
  function Hlit(h: nat): nat { h % 32 + 257 }
  function Hdist(h: nat): nat { h / 32 % 32 + 1 }
  function Hclen(h: nat): nat { h / 1024 + 4 }

  function NewTable(s: State, nlen: nat, ndist: nat, ncode: nat): (r: State) {
    var t := s.(nlen := nlen, ndist := ndist, ncode := ncode);
    if nlen > 286 || ndist > 30 then t.(mode := BAD) else t.(have := 0, mode := LENLENS)
  }

  /** The code-length code lengths not sent are zero. */
  function ZeroRest(lens: seq<nat>, have: nat): (r: seq<nat>)
    requires |lens| == LENS_SIZE
    ensures |r| == LENS_SIZE
    decreases 19 - have
  {
    if have >= 19 then lens else ZeroRest(lens[ORDER[have] := 0], have + 1)
  }

  function StepLenLens(s: State): (r: Option<State>) {
    if |s.lens| != LENS_SIZE then None
    else if s.have < s.ncode && s.have < 19 then
      if |s.unread| < 3 then None
      else Some(Drop(s, 3).(lens := s.lens[ORDER[s.have] := Peek(s, 3)], have := s.have + 1))
    else
      var lens := ZeroRest(s.lens, s.have);
      if Accepts(CODES, lens[..19]) then Some(s.(lens := lens, clens := lens[..19], have := 0, mode := CODELENS))
      else Some(s.(lens := lens, have := 19, mode := BAD))
  }

  /** lens[have .. have + n] set to v. */
  function Repeat(lens: seq<nat>, have: nat, n: nat, v: nat): (r: seq<nat>)
    requires have + n <= |lens|
    ensures |r| == |lens|
    ensures forall i :: 0 <= i < |lens| ==> r[i] == if have <= i < have + n then v else lens[i]
    decreases n
  {
    if n == 0 then lens else Repeat(lens[have := v], have + 1, n - 1, v)
  }

  /** Enters a run of n copies of v, unless there are too many. */
  function EnterRun(s: State, n: nat, v: nat): (r: State)
  {
    if s.have + n > s.nlen + s.ndist || s.have + n > |s.lens| then s.(mode := BAD)
    else s.(lens := Repeat(s.lens, s.have, n, v), have := s.have + n)
  }

  /** The bits a code-length symbol takes after its code. */
  function RepeatBits(sym: nat): nat {
    if sym < 16 then 0 else if sym == 16 then 2 else if sym == 17 then 3 else 7
  }

  lemma RepeatSmall(sym: nat)
    ensures RepeatBits(sym) <= 7
  {
  }

  /** Every symbol of the code length code has a place in the order. */
  lemma InOrder(p: nat)
    requires p < 19
    ensures var inv := [3, 17, 15, 13, 11, 9, 7, 5, 4, 6, 8, 10, 12, 14, 16, 18, 0, 1, 2];
            0 <= inv[p] < 19 && ORDER[inv[p]] == p
  {
  }

  /** Enters what the code-length symbol sym, whose code takes n bits, stands for. */
  function UseSym(s: State, sym: nat, n: nat): (r: Option<State>)
    requires n <= |s.unread| && s.have < |s.lens|
  {
    var x := RepeatBits(sym);
    if |s.unread| < n + x then None
    else if sym < 16 then Some(Drop(s, n).(lens := s.lens[s.have := sym], have := s.have + 1))
    else if sym == 16 && s.have == 0 then Some(Drop(s, n).(mode := BAD))
    else Some(EnterRun(Drop(s, n + x), (if sym < 18 then 3 else 11) + Peek(Drop(s, n), x),
                       if sym == 16 then s.lens[s.have - 1] else 0))
  }

  ghost function StepCodeLens(s: State): Option<State>
  {
    if |s.clens| > 19 || |s.lens| != LENS_SIZE || s.nlen > 286 || s.ndist > 30 || s.have > s.nlen + s.ndist then None
    else if s.have < s.nlen + s.ndist then
      var d := Decode(CODES, s.clens, s.unread);
      if d.None? then None else UseSym(s, d.value.val, d.value.used)
    else Some(NewCodes(s, s.lens[..s.nlen], s.lens[s.nlen..s.nlen + s.ndist]))
  }

  /** The two codes of a dynamic block, if they are acceptable. */
  function NewCodes(s: State, llens: seq<nat>, dlens: seq<nat>): (r: State) {
    if Accepts(LENS, llens) && Accepts(DISTS, dlens)
    then s.(llens := llens, dlens := dlens, mode := LEN)
    else s.(mode := BAD)
  }

  // the bits of an entry's op: end of block, invalid code, number of extra bits
  predicate IsEnd(op: nat) { op / 32 % 2 == 1 }
  predicate IsInvalid(op: nat) { op / 64 % 2 == 1 }
  function ExtraBits(op: nat): nat { op % 16 }

  /** What a decoded literal/length symbol leads to. */
  function UseLen(s: State, d: Decoded): (r: State) {
    if d.op == 0 then s.(mode := LIT, length := d.val)
    else if IsEnd(d.op) then s.(mode := TYPE)
    else if IsInvalid(d.op) then s.(mode := BAD)
    else s.(mode := LENEXT, length := d.val, extra := ExtraBits(d.op))
  }

  ghost function StepLen(s: State): Option<State> {
    if |s.llens| > 288 then None
    else
      var d := Decode(LENS, s.llens, s.unread);
      if d.None? then None else Some(UseLen(Drop(s, d.value.used), d.value))
  }

  function StepLenExt(s: State): (r: Option<State>) {
    if |s.unread| < s.extra then None
    else Some(AddLength(Drop(s, s.extra), Peek(s, s.extra)))
  }

  /** The length is complete. */
  function AddLength(s: State, x: nat): (r: State) {
    s.(mode := DIST, length := s.length + x, extra := 0)
  }

  function UseDist(s: State, d: Decoded): (r: State) {
    if IsInvalid(d.op) then s.(mode := BAD, length := 0)
    else s.(mode := DISTEXT, offset := d.val, extra := ExtraBits(d.op))
  }

  ghost function StepDist(s: State): Option<State> {
    if |s.dlens| > 32 then None
    else
      var d := Decode(DISTS, s.dlens, s.unread);
      if d.None? then None else Some(UseDist(Drop(s, d.value.used), d.value))
  }

  function StepDistExt(s: State): (r: Option<State>) {
    if |s.unread| < s.extra then None
    else Some(AddDistance(Drop(s, s.extra), Peek(s, s.extra)))
  }

  /** The distance is complete: it must not reach beyond all output so far. */
  function AddDistance(s: State, x: nat): (r: State) {
    if s.offset + x > |s.out| then s.(mode := BAD, length := 0, offset := 0, extra := 0)
    else s.(mode := MATCH, offset := s.offset + x, extra := 0)
  }

  /** One byte of a match. */
  function StepMatch(s: State): (r: Option<State>) {
    if s.length == 0 || s.offset == 0 || s.offset > |s.out| then None
    else Some(EmitMatch(s, s.out[|s.out| - s.offset]))
  }

  function EmitMatch(s: State, x: Byte): (r: State)
    requires s.length > 0
  {
    if s.length == 1 then s.(mode := LEN, length := 0, offset := 0, out := s.out + [x])
    else s.(length := s.length - 1, out := s.out + [x])
  }

  function StepLit(s: State): (r: Option<State>) {
    if s.length >= 256 then None else Some(s.(mode := LEN, length := 0, out := s.out + [s.length]))
  }

  /** The check value is stored most significant byte first. */
  function Reverse4(h: nat): (r: nat) {
    h / 16777216 % 256 + h / 65536 % 256 * 256 + h / 256 % 256 * 65536 + h % 256 * 16777216
  }

  function StepCheck(s: State): (r: Option<State>) {
    if !s.wrap then Some(s.(mode := DONE))
    else if |s.unread| < 32 then None
    else if Reverse4(Peek(s, 32)) != AdlerSpec.Packed(AdlerSpec.Feed(AdlerSpec.START, s.out)) then Some(s.(mode := BAD))
    else Some(Drop(s, 32).(mode := DONE))
  }

  ghost function Step(s: State): Option<State> {
    match s.mode
    case HEAD => StepHead(s)
    case DICTID => if |s.unread| < 32 then None else Some(Drop(s, 32).(mode := DICT))
    case DICT => None
    case TYPE => StepType(s)
    case STORED => StepStored(s)
    case COPY => StepCopy(s)
    case TABLE => StepTable(s)
    case LENLENS => StepLenLens(s)
    case CODELENS => StepCodeLens(s)
    case LEN => StepLen(s)
    case LENEXT => StepLenExt(s)
    case DIST => StepDist(s)
    case DISTEXT => StepDistExt(s)
    case MATCH => StepMatch(s)
    case LIT => StepLit(s)
    case CHECK => StepCheck(s)
    case DONE => None
    case BAD => None
  }

  // Step, mode by mode: helpers that give a proof the one branch it is about and hide the
  // others.  What the transitions mean is stated further down.

  lemma HeadAt(s: State)
    requires s.mode == HEAD
    ensures Step(s) == StepHead(s)
  {
    hide StepHead;
  }

  lemma TypeAt(s: State)
    requires s.mode == TYPE
    ensures Step(s) == StepType(s)
  {
    hide StepType;
  }

  lemma StoredAt(s: State)
    requires s.mode == STORED
    ensures Step(s) == StepStored(s)
  {
    hide StepStored;
  }

  lemma CopyAt(s: State)
    requires s.mode == COPY
    ensures Step(s) == StepCopy(s)
  {
    hide StepCopy;
  }

  lemma TableAt(s: State)
    requires s.mode == TABLE
    ensures Step(s) == StepTable(s)
  {
    hide StepTable;
  }

  lemma LenLensAt(s: State)
    requires s.mode == LENLENS
    ensures Step(s) == StepLenLens(s)
  {
    hide StepLenLens;
  }

  lemma CodeLensAt(s: State)
    requires s.mode == CODELENS
    ensures Step(s) == StepCodeLens(s)
  {
    hide StepCodeLens;
  }

  lemma LenAt(s: State)
    requires s.mode == LEN
    ensures Step(s) == StepLen(s)
  {
    hide StepLen;
  }

  lemma LenExtAt(s: State)
    requires s.mode == LENEXT
    ensures Step(s) == StepLenExt(s)
  {
    hide StepLenExt;
  }

  lemma DistAt(s: State)
    requires s.mode == DIST
    ensures Step(s) == StepDist(s)
  {
    hide StepDist;
  }

  lemma DistExtAt(s: State)
    requires s.mode == DISTEXT
    ensures Step(s) == StepDistExt(s)
  {
    hide StepDistExt;
  }

  lemma MatchAt(s: State)
    requires s.mode == MATCH
    ensures Step(s) == StepMatch(s)
  {
    hide StepMatch;
  }

  lemma LitAt(s: State)
    requires s.mode == LIT
    ensures Step(s) == StepLit(s)
  {
    hide StepLit;
  }

  lemma CheckAt(s: State)
    requires s.mode == CHECK
    ensures Step(s) == StepCheck(s)
  {
    hide StepCheck;
  }

  lemma LensDone(s: State)
    requires s.mode == CODELENS && |s.clens| <= 19 && |s.lens| == LENS_SIZE && s.nlen <= 286 && s.ndist <= 30
    requires s.have == s.nlen + s.ndist
    ensures Step(s) == Some(NewCodes(s, s.lens[..s.nlen], s.lens[s.nlen..s.nlen + s.ndist]))
  {
    hide Step, NewCodes, Decode, UseSym;
    CodeLensAt(s);
  }

  function Initial(wrap: bool): State {
    State(HEAD, wrap, false, 0, 0, 0, 0, 0, 0, 0, seq(LENS_SIZE, _ => 0), [], [], [], [], [])
  }

  // ------------------------------------------------------------ state invariants

  predicate InDecode(m: Mode) {
    m == LEN || m == LENEXT || m == DIST || m == DISTEXT || m == MATCH || m == LIT
  }

  /** The first have code-length code lengths are 3-bit numbers. */
  predicate Small(lens: seq<nat>, have: nat) {
    |lens| == LENS_SIZE && forall i :: 0 <= i < have && i < 19 ==> lens[ORDER[i]] <= 7
  }

  lemma SmallNext(lens: seq<nat>, have: nat, x: nat)
    requires Small(lens, have) && have < 19 && x <= 7
    ensures Small(lens[ORDER[have] := x], have + 1)
  {
  }

  /** Holds initially and after every transition. */
  predicate StateOk(s: State) {
    && |s.lens| == LENS_SIZE && LensOk(s.lens)
    && (s.mode == HEAD || s.mode == DICTID || s.mode == DICT ==> s.out == [])
    && (s.mode == COPY ==> s.length < 65536)
    && (s.mode == LENLENS ==>
          257 <= s.nlen <= 286 && 1 <= s.ndist <= 30 && 4 <= s.ncode <= 19 && s.have <= 19 && Small(s.lens, s.have))
    && (s.mode == CODELENS ==>
          CodeOk(CODES, s.clens) && 257 <= s.nlen <= 286 && 1 <= s.ndist <= 30 && s.have <= s.nlen + s.ndist)
    && (InDecode(s.mode) ==> CodeOk(LENS, s.llens) && CodeOk(DISTS, s.dlens))
    && (s.mode == LENEXT ==> s.extra <= 5 && 3 <= s.length && s.length + Pow2(s.extra) <= 259)
    && (s.mode == DIST || s.mode == DISTEXT ==> 3 <= s.length <= 258)
    && (s.mode == DISTEXT ==> s.extra <= 13 && 1 <= s.offset && s.offset + Pow2(s.extra) <= 32769)
    && (s.mode == MATCH ==> 1 <= s.length <= 258 && 1 <= s.offset <= 32768 && s.offset <= |s.out|)
    && (s.mode == LIT ==> s.length < 256)
  }

  lemma PeekBound(s: State, n: nat)
    requires n <= |s.unread|
    ensures Peek(s, n) < Pow2(n)
  {
    FromBitsBound(s.unread[..n]);
  }

  lemma {:induction false} RankRun(lens: seq<nat>, l: nat, a: nat, b: nat, v: nat)
    requires a <= b <= |lens| && forall i :: a <= i < b ==> lens[i] == v
    ensures Rank(lens, l, b) == Rank(lens, l, a) + if v == l then b - a else 0
    decreases b
  {
    if a == b {
    } else {
      RankRun(lens, l, a, b - 1, v);
    }
  }

  lemma FixedDistCounts(l: nat)
    ensures Count(FixedDists(), l) == if l == 5 then 32 else 0
  {
    RankRun(FixedDists(), l, 0, 32, 5);
  }

  lemma FixedCounts(l: nat)
    ensures Count(FixedLens(), l) == if l == 7 then 24 else if l == 8 then 152 else if l == 9 then 112 else 0
    ensures Count(FixedDists(), l) == if l == 5 then 32 else 0
  {
    var f := FixedLens();
    RankRun(f, l, 0, 144, 8);
    RankRun(f, l, 144, 256, 9);
    RankRun(f, l, 256, 280, 7);
    RankRun(f, l, 280, 288, 8);
    FixedDistCounts(l);
  }

  /** What the code space holds up to each length of the fixed codes. */
  lemma {:induction false} FixedKraft(l: nat)
    requires l <= MAX_BITS
    ensures Kraft(FixedLens(), l) == if l < 7 then 0 else if l == 7 then 6144 else if l == 8 then 25600 else 32768
    ensures Kraft(FixedDists(), l) == if l < 5 then 0 else 32768
  {
    hide Shl, Count, FixedLens, FixedDists;
    if l == 0 {
    } else {
      FixedKraft(l - 1);
      FixedCounts(l);
      ShlZero(MAX_BITS - l);
      FixedShares();
    }
  }

  lemma FixedShares()
    ensures Shl(24, 8) == 6144 && Shl(152, 7) == 19456 && Shl(112, 6) == 7168 && Shl(32, 10) == 32768
  {
    assert Shl(24, 4) == 384;
    assert Shl(32, 5) == 1024;
  }

  lemma FixedComplete()
    ensures Complete(FixedLens()) && Complete(FixedDists())
  {
    hide Kraft;
    FixedKraft(MAX_BITS);
    Pow2Values();
  }

  lemma FixedOk()
    ensures CodeOk(LENS, FixedLens()) && CodeOk(DISTS, FixedDists())
  {
    hide Complete;
    FixedComplete();
  }

  /** The values a literal/length table yields. */
  lemma LenSymTable(s: nat)
    requires s < 288
    ensures var op, val := SymOp(LENS, s), SymVal(LENS, s);
            && (op == 0 ==> val < 256)
            && (op != 0 && !IsEnd(op) && !IsInvalid(op) ==>
                  ExtraBits(op) <= 5 && 3 <= val && val + Pow2(ExtraBits(op)) <= 259)
  {
    hide Pow2;
    Pow2One();
    Pow2Values();
  }

  lemma LenSym(lens: seq<nat>, w: nat)
    requires CodeOk(LENS, lens)
    ensures var d := RefDecode(LENS, lens, w);
            && (d.op == 0 ==> d.val < 256)
            && (d.op != 0 && !IsEnd(d.op) && !IsInvalid(d.op) ==>
                  ExtraBits(d.op) <= 5 && 3 <= d.val && d.val + Pow2(ExtraBits(d.op)) <= 259)
  {
    hide SymOp, SymVal, Pow2;
    assert IsInvalid(64) && 64 != 0;
    if !Unmatched(lens, w) {
      LenSymTable(StartSym(lens, w));
    }
  }

  lemma DistSymTable(s: nat)
    requires s < 32
    ensures var op, val := SymOp(DISTS, s), SymVal(DISTS, s);
            !IsInvalid(op) ==> ExtraBits(op) <= 13 && 1 <= val && val + Pow2(ExtraBits(op)) <= 32769
  {
    hide Pow2;
    Pow2One();
    Pow2Values();
  }

  lemma DistSym(lens: seq<nat>, w: nat)
    requires CodeOk(DISTS, lens)
    ensures var d := RefDecode(DISTS, lens, w);
            !IsInvalid(d.op) ==> ExtraBits(d.op) <= 13 && 1 <= d.val && d.val + Pow2(ExtraBits(d.op)) <= 32769
  {
    hide SymOp, SymVal, Pow2;
    assert IsInvalid(64);
    if !Unmatched(lens, w) {
      DistSymTable(StartSym(lens, w));
    }
  }

  lemma {:induction false} ZeroRestOk(lens: seq<nat>, have: nat)
    requires |lens| == LENS_SIZE && LensOk(lens)
    ensures LensOk(ZeroRest(lens, have))
    decreases 19 - have
  {
    if have >= 19 {
    } else {
      ZeroRestOk(lens[ORDER[have] := 0], have + 1);
    }
  }

  lemma Peek3(s: State)
    requires |s.unread| >= 3
    ensures Peek(s, 3) < 8
  {
    PeekBound(s, 3);
    Pow2Values();
  }

  lemma Peek14(s: State)
    requires |s.unread| >= 14
    ensures Peek(s, 14) < 16384
  {
    PeekBound(s, 14);
    Pow2Values();
  }

  lemma EnterRunOk(s: State, n: nat, v: nat)
    requires StateOk(s) && s.mode == CODELENS && v <= MAX_BITS
    ensures StateOk(EnterRun(s, n, v))
  {
    hide CodeOk;
  }

  lemma DropOk(s: State, n: nat)
    requires StateOk(s) && n <= |s.unread|
    ensures StateOk(Drop(s, n))
  {
    hide CodeOk, LensOk;
  }

  lemma UseSymOk(s: State, sym: nat, n: nat)
    requires StateOk(s) && s.mode == CODELENS && n <= |s.unread| && s.have < s.nlen + s.ndist
    requires UseSym(s, sym, n).Some?
    ensures StateOk(UseSym(s, sym, n).value)
  {
    hide Accepts, Peek, EnterRun, StateOk;
    LensFacts(s);
    CodeLensFacts(s);
    DropOk(s, n);
    if sym < 16 {
      EnterOneOk(Drop(s, n), sym);
    } else {
      var x := RepeatBits(sym);
      DropOk(s, n + x);
      EnterRunOk(Drop(s, n + x), (if sym < 18 then 3 else 11) + Peek(Drop(s, n), x),
                 if sym == 16 && s.have > 0 then s.lens[s.have - 1] else 0);
      BadOk(Drop(s, n));
    }
  }

  lemma CodeLensOk(s: State)
    requires StateOk(s) && s.mode == CODELENS && StepCodeLens(s).Some?
    ensures StateOk(StepCodeLens(s).value)
  {
    hide Decode, Accepts, Roomy, UseSym, StateOk;
    LensFacts(s);
    CodeLensFacts(s);
    if s.have < s.nlen + s.ndist {
      DecodeFits(CODES, s.clens, s.unread);
      var d := Decode(CODES, s.clens, s.unread).value;
      UseSymOk(s, d.val, d.used);
    } else {
      BadOk(s);
      var llens, dlens := s.lens[..s.nlen], s.lens[s.nlen..s.nlen + s.ndist];
      if Accepts(LENS, llens) && Accepts(DISTS, dlens) {
        TablesOk(s);
      }
    }
  }

  lemma LensFacts(s: State)
    requires StateOk(s)
    ensures |s.lens| == LENS_SIZE && LensOk(s.lens)
  {
  }

  lemma CodeLensFacts(s: State)
    requires StateOk(s) && s.mode == CODELENS
    ensures CodeOk(CODES, s.clens) && |s.clens| <= 19 && 257 <= s.nlen <= 286 && 1 <= s.ndist <= 30
            && s.have <= s.nlen + s.ndist
  {
  }

  lemma BadOk(s: State)
    requires StateOk(s)
    ensures StateOk(s.(mode := BAD))
  {
  }

  lemma EnterOneOk(s: State, v: nat)
    requires StateOk(s) && s.mode == CODELENS && s.have < s.nlen + s.ndist && v <= MAX_BITS
    ensures StateOk(s.(lens := s.lens[s.have := v], have := s.have + 1))
  {
    hide CodeOk;
  }

  lemma TablesOk(s: State)
    requires StateOk(s) && s.mode == CODELENS
    requires var llens, dlens := s.lens[..s.nlen], s.lens[s.nlen..s.nlen + s.ndist];
             Accepts(LENS, llens) && Accepts(DISTS, dlens)
    ensures var llens, dlens := s.lens[..s.nlen], s.lens[s.nlen..s.nlen + s.ndist];
            StateOk(s.(llens := llens, dlens := dlens, mode := LEN))
  {
    hide Accepts;
  }

  lemma LenLensOk(s: State)
    requires StateOk(s) && s.mode == LENLENS && StepLenLens(s).Some?
    ensures StateOk(StepLenLens(s).value)
  {
    hide Accepts, Pow2, FromBits, ZeroRest, Small;
    ZeroRestOk(s.lens, s.have);
    if |s.unread| >= 3 {
      Peek3(s);
      if s.have < 19 {
        SmallNext(s.lens, s.have, Peek(s, 3));
      }
    }
  }

  lemma TypeOk(s: State)
    requires StateOk(s) && s.mode == TYPE && StepType(s).Some?
    ensures StateOk(StepType(s).value)
  {
    hide CodeOk, Peek, FixedLens, FixedDists, StateOk, NewBlock, BlockMode;
    DropOk(s, |s.unread| % 8);
    if |s.unread| >= 3 {
      DropOk(s, 3);
      NewBlockOk(Drop(s, 3), Peek(s, 3) % 2 == 1, BlockMode(Peek(s, 3) / 2));
    }
    NewModeOk(Align(s), CHECK);
  }

  lemma NewModeOk(s: State, m: Mode)
    requires StateOk(s) && (m == CHECK || m == TYPE || m == STORED || m == TABLE || m == BAD)
    ensures StateOk(s.(mode := m))
  {
    hide CodeOk, LensOk;
  }

  lemma NewBlockOk(s: State, last: bool, m: Mode)
    requires StateOk(s) && (m == STORED || m == LEN || m == TABLE || m == BAD)
    ensures StateOk(NewBlock(s, last, m))
  {
    hide CodeOk, LensOk, FixedLens, FixedDists, Pow2;
    FixedOk();
  }

  lemma StoredOk(s: State)
    requires StateOk(s) && s.mode == STORED && StepStored(s).Some?
    ensures StateOk(StepStored(s).value)
  {
    hide CodeOk, FromBits, Pow2;
  }

  lemma TableOk(s: State)
    requires StateOk(s) && s.mode == TABLE && StepTable(s).Some?
    ensures StateOk(StepTable(s).value)
  {
    hide CodeOk, FromBits, Pow2;
    Peek14(s);
  }

  lemma ExtOk(s: State)
    requires StateOk(s) && (s.mode == LENEXT || s.mode == DISTEXT) && Step(s).Some?
    ensures StateOk(Step(s).value)
  {
    hide CodeOk, Peek, Pow2;
    PeekBound(s, s.extra);
  }

  lemma ByteOk(s: State)
    requires StateOk(s) && (s.mode == COPY || s.mode == MATCH || s.mode == LIT) && Step(s).Some?
    ensures StateOk(Step(s).value)
  {
    hide CodeOk, FromBits, Pow2;
  }

  lemma EndsOk(s: State)
    requires StateOk(s) && (s.mode == HEAD || s.mode == DICTID || s.mode == CHECK) && Step(s).Some?
    ensures StateOk(Step(s).value)
  {
    hide CodeOk, FromBits, Pow2, Reverse4, AdlerSpec.Packed, AdlerSpec.Feed;
  }

  /** Every transition keeps the invariant. */
  lemma StepOk(s: State)
    requires StateOk(s) && Step(s).Some?
    ensures StateOk(Step(s).value)
  {
    hide StateOk, StepHead, StepType, StepStored, StepCopy, StepTable, StepLenLens, StepCodeLens, StepLen, StepLenExt,
         StepDist, StepDistExt, StepMatch, StepLit, StepCheck;
    match s.mode
    case TYPE => TypeOk(s);
    case STORED => StoredOk(s);
    case TABLE => TableOk(s);
    case LENLENS => LenLensOk(s);
    case CODELENS => CodeLensOk(s);
    case LEN => LenStepOk(s);
    case LENEXT => ExtOk(s);
    case DIST => DistStepOk(s);
    case DISTEXT => ExtOk(s);
    case COPY => ByteOk(s);
    case MATCH => ByteOk(s);
    case LIT => ByteOk(s);
    case _ => EndsOk(s);
  }

  lemma LenStepOk(s: State)
    requires StateOk(s) && s.mode == LEN && StepLen(s).Some?
    ensures StateOk(StepLen(s).value)
  {
    hide RefDecode, Accepts, FromBits, Pow2, CodeOk, IsEnd, IsInvalid, ExtraBits;
    LenSym(s.llens, FromBits(s.unread));
  }

  lemma DistStepOk(s: State)
    requires StateOk(s) && s.mode == DIST && StepDist(s).Some?
    ensures StateOk(StepDist(s).value)
  {
    hide RefDecode, Accepts, FromBits, Pow2, CodeOk, IsInvalid, ExtraBits;
    DistSym(s.dlens, FromBits(s.unread));
  }

  lemma InitialOk(wrap: bool)
    ensures StateOk(Initial(wrap))
  {
  }

  // ----------------------------------------------------------- more input, and runs

  /** The state with more input behind what is unread. */
  function Plus(s: State, more: seq<bool>): (r: State) {
    s.(unread := s.unread + more)
  }

  lemma PlusPeek(s: State, more: seq<bool>, n: nat)
    requires n <= |s.unread|
    ensures Peek(Plus(s, more), n) == Peek(s, n) && Drop(Plus(s, more), n) == Plus(Drop(s, n), more)
  {
    assert (s.unread + more)[..n] == s.unread[..n];
    assert (s.unread + more)[n..] == s.unread[n..] + more;
  }

  lemma UseSymMono(s: State, sym: nat, n: nat, more: seq<bool>)
    requires n <= |s.unread| && s.have < |s.lens| && UseSym(s, sym, n).Some?
    ensures UseSym(Plus(s, more), sym, n) == Some(Plus(UseSym(s, sym, n).value, more))
  {
    hide Peek, EnterRun;
    var x := RepeatBits(sym);
    PlusPeek(s, more, n);
    PlusPeek(s, more, n + x);
    PlusPeek(Drop(s, n), more, x);
    if sym >= 16 {
      EnterRunPlus(Drop(s, n + x), (if sym < 18 then 3 else 11) + Peek(Drop(s, n), x),
                   if sym == 16 && s.have > 0 then s.lens[s.have - 1] else 0, more);
    }
  }

  lemma CodeLensMono(s: State, more: seq<bool>)
    requires StateOk(s) && s.mode == CODELENS && StepCodeLens(s).Some?
    ensures StepCodeLens(Plus(s, more)) == Some(Plus(StepCodeLens(s).value, more))
  {
    hide Decode, Accepts, Roomy, UseSym, LensOk, StateOk, CodeOk;
    CodeLensFacts(s);
    if s.have < s.nlen + s.ndist {
      DecodeMono(CODES, s.clens, s.unread, more);
      DecodeFits(CODES, s.clens, s.unread);
      var d := Decode(CODES, s.clens, s.unread).value;
      UseSymMono(s, d.val, d.used, more);
    }
  }

  lemma EnterRunPlus(s: State, n: nat, v: nat, more: seq<bool>)
    ensures EnterRun(Plus(s, more), n, v) == Plus(EnterRun(s, n, v), more)
  {
  }

  lemma DecodeFits(ty: CodeType, lens: seq<nat>, unread: seq<bool>)
    requires |lens| <= MaxSymbols(ty) && Decode(ty, lens, unread).Some?
    ensures Decode(ty, lens, unread).value.used <= |unread|
  {
  }

  lemma LenMono(s: State, more: seq<bool>)
    requires StateOk(s) && s.mode == LEN && StepLen(s).Some?
    ensures StepLen(Plus(s, more)) == Some(Plus(StepLen(s).value, more))
  {
    hide Decode, Accepts, Peek, LensOk;
    DecodeMono(LENS, s.llens, s.unread, more);
    DecodeFits(LENS, s.llens, s.unread);
    PlusPeek(s, more, Decode(LENS, s.llens, s.unread).value.used);
  }

  lemma DistMono(s: State, more: seq<bool>)
    requires StateOk(s) && s.mode == DIST && StepDist(s).Some?
    ensures StepDist(Plus(s, more)) == Some(Plus(StepDist(s).value, more))
  {
    hide Decode, Accepts, Peek, LensOk;
    DecodeMono(DISTS, s.dlens, s.unread, more);
    DecodeFits(DISTS, s.dlens, s.unread);
    PlusPeek(s, more, Decode(DISTS, s.dlens, s.unread).value.used);
  }

  lemma HeadMono(s: State, more: seq<bool>)
    requires StepHead(s).Some?
    ensures StepHead(Plus(s, more)) == Some(Plus(StepHead(s).value, more))
  {
    hide Peek;
    if s.wrap {
      PlusPeek(s, more, 16);
      PlusPeek(s, more, 4);
    }
  }

  lemma AlignPlus(s: State, more: seq<bool>)
    requires |more| % 8 == 0
    ensures Align(Plus(s, more)) == Plus(Align(s), more) && |Plus(s, more).unread| % 8 == |s.unread| % 8
  {
    PlusPeek(s, more, |s.unread| % 8);
    assert (|s.unread| + |more|) % 8 == |s.unread| % 8;
  }

  lemma TypeMono(s: State, more: seq<bool>)
    requires StepType(s).Some? && |more| % 8 == 0
    ensures StepType(Plus(s, more)) == Some(Plus(StepType(s).value, more))
  {
    hide Peek, FixedLens, FixedDists, Align, BlockMode;
    AlignPlus(s, more);
    if !s.last {
      PlusPeek(s, more, 3);
    }
  }

  lemma StoredMono(s: State, more: seq<bool>)
    requires StepStored(s).Some? && |more| % 8 == 0
    ensures StepStored(Plus(s, more)) == Some(Plus(StepStored(s).value, more))
  {
    hide Peek, Align;
    AlignPlus(s, more);
    if |s.unread| % 8 == 0 {
      PlusPeek(s, more, 32);
    }
  }

  lemma CopyMono(s: State, more: seq<bool>)
    requires StepCopy(s).Some?
    ensures StepCopy(Plus(s, more)) == Some(Plus(StepCopy(s).value, more))
  {
    hide Peek;
    if s.length != 0 {
      PlusPeek(s, more, 8);
    }
  }

  lemma TableMono(s: State, more: seq<bool>)
    requires StepTable(s).Some?
    ensures StepTable(Plus(s, more)) == Some(Plus(StepTable(s).value, more))
  {
    hide Peek;
    PlusPeek(s, more, 14);
  }

  lemma LenLensMono(s: State, more: seq<bool>)
    requires StepLenLens(s).Some?
    ensures StepLenLens(Plus(s, more)) == Some(Plus(StepLenLens(s).value, more))
  {
    hide Peek, ZeroRest, Accepts;
    if s.have < s.ncode && s.have < 19 {
      PlusPeek(s, more, 3);
    }
  }

  lemma ExtMono(s: State, more: seq<bool>)
    requires s.extra <= |s.unread|
    ensures StepLenExt(Plus(s, more)) == Some(Plus(StepLenExt(s).value, more))
    ensures StepDistExt(Plus(s, more)) == Some(Plus(StepDistExt(s).value, more))
  {
    hide Peek;
    PlusPeek(s, more, s.extra);
  }

  lemma CheckMono(s: State, more: seq<bool>)
    requires StepCheck(s).Some?
    ensures StepCheck(Plus(s, more)) == Some(Plus(StepCheck(s).value, more))
  {
    hide Peek, Reverse4, AdlerSpec.Packed, AdlerSpec.Feed;
    if s.wrap {
      PlusPeek(s, more, 32);
    }
  }

  /** A transition that can happen also happens, with the same effect, when more
      input is there. */
  lemma StepMono(s: State, more: seq<bool>)
    requires StateOk(s) && Step(s).Some? && |more| % 8 == 0
    ensures Step(Plus(s, more)) == Some(Plus(Step(s).value, more))
  {
    hide StateOk, StepHead, StepType, StepStored, StepCopy, StepTable, StepLenLens, StepCodeLens, StepLen,
         StepDist, StepCheck, Peek;
    match s.mode
    case HEAD => HeadMono(s, more);
    case DICTID => PlusPeek(s, more, 32);
    case TYPE => TypeMono(s, more);
    case STORED => StoredMono(s, more);
    case COPY => CopyMono(s, more);
    case TABLE => TableMono(s, more);
    case LENLENS => LenLensMono(s, more);
    case CODELENS => CodeLensMono(s, more);
    case LEN => LenMono(s, more);
    case LENEXT => ExtMono(s, more);
    case DIST => DistMono(s, more);
    case DISTEXT => ExtMono(s, more);
    case CHECK => CheckMono(s, more);
    case _ =>
  }

  /** n transitions lead from s to t. */
  ghost predicate Reaches(s: State, n: nat, t: State)
    decreases n
  {
    if n == 0 then s == t else Step(s).Some? && Reaches(Step(s).value, n - 1, t)
  }

  lemma {:induction false} ReachesThen(s: State, n: nat, t: State)
    requires Reaches(s, n, t) && Step(t).Some?
    ensures Reaches(s, n + 1, Step(t).value)
    decreases n
  {
    hide Step;
    if n == 0 {
    } else {
      ReachesThen(Step(s).value, n - 1, t);
    }
  }

  lemma {:induction false} ReachesOk(s: State, n: nat, t: State)
    requires StateOk(s) && Reaches(s, n, t)
    ensures StateOk(t)
    decreases n
  {
    hide Step, StateOk;
    if n == 0 {
    } else {
      StepOk(s);
      ReachesOk(Step(s).value, n - 1, t);
    }
  }

  lemma {:induction false} ReachesMono(s: State, n: nat, t: State, more: seq<bool>)
    requires StateOk(s) && Reaches(s, n, t) && |more| % 8 == 0
    ensures Reaches(Plus(s, more), n, Plus(t, more))
    decreases n
  {
    hide Step, StateOk;
    if n == 0 {
    } else {
      StepOk(s);
      StepMono(s, more);
      ReachesMono(Step(s).value, n - 1, t, more);
    }
  }

  lemma {:induction false} ReachesUnique(s: State, n: nat, t: State, u: State)
    requires Reaches(s, n, t) && Reaches(s, n, u)
    ensures t == u
    decreases n
  {
    hide Step;
    if n == 0 {
    } else {
      ReachesUnique(Step(s).value, n - 1, t, u);
    }
  }

  /** A longer run passes through the end of a shorter one. */
  lemma {:induction false} ReachesPast(s: State, m: nat, t: State, n: nat, u: State)
    requires Reaches(s, m, t) && Reaches(s, n, u) && m < n
    ensures Step(t).Some?
    decreases m
  {
    hide Step;
    if m == 0 {
    } else {
      ReachesPast(Step(s).value, m - 1, t, n - 1, u);
    }
  }

  lemma {:induction false} ReachesJoin(s: State, m: nat, t: State, n: nat, u: State)
    requires Reaches(s, m, t) && Reaches(t, n, u)
    ensures Reaches(s, m + n, u)
    decreases m
  {
    hide Step;
    if m == 0 {
    } else {
      ReachesJoin(Step(s).value, m - 1, t, n, u);
    }
  }

  ghost predicate Reachable(s: State, t: State) {
    exists n: nat :: Reaches(s, n, t)
  }

  lemma ReachableThen(s: State, t: State)
    requires Reachable(s, t) && Step(t).Some?
    ensures Reachable(s, Step(t).value)
  {
    hide Step;
    var n: nat :| Reaches(s, n, t);
    ReachesThen(s, n, t);
  }

  lemma ReachableJoin(s: State, t: State, u: State)
    requires Reachable(s, t) && Reachable(t, u)
    ensures Reachable(s, u)
  {
    hide Step;
    var m: nat :| Reaches(s, m, t);
    var n: nat :| Reaches(t, n, u);
    ReachesJoin(s, m, t, n, u);
  }

  lemma ReachableStep(s: State)
    requires Step(s).Some?
    ensures Reachable(s, Step(s).value)
  {
    hide Step;
    var t := Step(s).value;
    assert Reaches(t, 0, t);
    assert Reaches(s, 1, t);
  }

  lemma ReachableSelf(s: State)
    ensures Reachable(s, s)
  {
    assert Reaches(s, 0, s);
  }

  lemma ReachableMono(s: State, t: State, more: seq<bool>)
    requires StateOk(s) && Reachable(s, t) && |more| % 8 == 0
    ensures Reachable(Plus(s, more), Plus(t, more)) && StateOk(Plus(t, more))
  {
    hide Step, StateOk;
    var n: nat :| Reaches(s, n, t);
    ReachesMono(s, n, t, more);
    PlusOk(s, more);
    ReachesOk(Plus(s, more), n, Plus(t, more));
  }

  lemma PlusOk(s: State, more: seq<bool>)
    requires StateOk(s)
    ensures StateOk(Plus(s, more))
  {
  }
}
