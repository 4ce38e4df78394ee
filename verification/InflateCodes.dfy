/** inflate.c: the header of a dynamic block, and decoding with the tables. */
module InflateCodes {
  import opened Bits
  import opened Canonical
  import opened InflateTable
  import opened InflateMachine
  import opened InflateState
  import opened InflateModes
  import opened Enough

  // --------------------------------------------------------------------- LENLENS

  lemma LenLensFacts(v: Vars, g: Trace)
    requires StateOk(Abs(v, g)) && v.mode == LENLENS
    ensures |v.lens| == LENS_SIZE && LensOk(v.lens) && Small(v.lens, v.have)
    ensures 257 <= v.nlen <= 286 && 1 <= v.ndist <= 30 && 4 <= v.ncode <= 19 && v.have <= 19
  {
    hide LensOk, Small, ToBits, CodeOk;
  }

  lemma LenLensStuck(v: Vars, g: Trace)
    requires StateOk(Abs(v, g)) && v.mode == LENLENS && v.have < v.ncode && v.bits < 3
    ensures Step(Abs(v, g)).None?
  {
    hide Step, StateOk, Small, LensOk;
    LenLensFacts(v, g);
    LenLensAt(Abs(v, g));
  }

  /** One code-length code length once there are 3 bits. */
  function LenLensCode(v: Vars): (r: Vars)
    requires v.bits >= 3 && v.have < 19 && |v.lens| == LENS_SIZE
  {
    DropBits(v.(lens := v.lens[ORDER[v.have] := Low(v.hold, 3)], have := v.have + 1), 3)
  }

  lemma LenLensStep(v: Vars, g: Trace)
    requires v.mode == LENLENS && v.bits >= 3 && v.have < 19 && v.have < v.ncode && |v.lens| == LENS_SIZE && InBounds(v)
    ensures var r := LenLensCode(v);
            && Step(Abs(v, g)) == Some(Abs(r, g)) && InBounds(r) && r.bits == v.bits - 3
            && r == v.(lens := r.lens, have := v.have + 1, hold := r.hold, bits := r.bits)
  {
    hide Low, Shr, Pow2, Step, Peek, FromBits, ToBits;
    LenLensAt(Abs(v, g));
    AbsPeek(v, g, 3);
  }

  /** Every symbol has its place in the order. */
  lemma SmallAll(lens: seq<nat>, p: nat)
    requires Small(lens, 19) && p < 19
    ensures lens[p] <= 7
  {
    InOrder(p);
  }

  lemma {:induction false} ZeroRestSmall(lens: seq<nat>, have: nat)
    requires Small(lens, have) && have <= 19
    ensures |lens| == LENS_SIZE && Small(ZeroRest(lens, have), 19)
    decreases 19 - have
  {
    hide Small;
    SmallSize(lens, have);
    if have == 19 {
    } else {
      SmallNext(lens, have, 0);
      ZeroRestSmall(lens[ORDER[have] := 0], have + 1);
    }
  }

  lemma CodeLensStart(v: Vars, g: Trace, r: Vars, g': Trace)
    requires StateOk(Abs(v, g)) && v.mode == LENLENS && v.have >= v.ncode && InBounds(v)
    requires var lens := ZeroRest(v.lens, v.have);
             if Accepts(CODES, lens[..19])
             then r == v.(lens := lens, have := 0, mode := CODELENS, lencode := r.lencode, lenbits := r.lenbits)
                  && g' == g.(clens := lens[..19])
             else r == v.(lens := lens, have := 19, mode := BAD, lenbits := r.lenbits) && g' == g
    ensures Step(Abs(v, g)) == Some(Abs(r, g')) && InBounds(r)
  {
    hide Step, ZeroRest, Accepts, StateOk, ToBits, Pow2;
    LenLensFacts(v, g);
    LenLensAt(Abs(v, g));
  }

  /** Reads the code-length code lengths: false if the input ends first. */
  method ReadLenLens(v: Vars, ghost g: Trace) returns (ok: bool, v': Vars)
    requires Valid(v, g) && v.mode == LENLENS
    ensures Valid(v', g) && SameCall(v, v') && v'.output == v.output && v'.mode == LENLENS && Left(v') <= Left(v)
    ensures ok ==> v'.have >= v'.ncode
    ensures !ok ==> Paused(v', g)
  {
    hide Valid, Tracks, Tables, CheckOk, Quiet, Step, Abs, Paused, StateOk, Pow2, LenLensCode, Small, LensOk;
    v' := v;
    while v'.have < v'.ncode
      invariant Valid(v', g) && SameCall(v, v') && v'.output == v.output && v'.mode == LENLENS && Left(v') <= Left(v)
      decreases v'.ncode - v'.have
    {
      Facts(v', g);
      var enough, w := NeedBits(v', 3, g);
      Pulled(v', g, w);
      LenLensFacts(w, g);
      if !enough {
        LenLensStuck(w, g);
        Suspend(w, g);
        return false, w;
      }
      var r := LenLensCode(w);
      LenLensStep(w, g);
      NoTables(r, g);
      Plain(v', g, w, r);
      v' := r;
    }
    return true, v';
  }

  method DoLenLens(v: Vars, ghost g: Trace) returns (leave: bool, v': Vars, ghost g': Trace)
    requires Valid(v, g) && v.mode == LENLENS
    ensures Valid(v', g') && SameCall(v, v') && SameTrace(g, g') && v'.output == v.output && Left(v') <= Left(v)
    ensures leave ==> Paused(v', g')
    ensures !leave ==> v'.mode == CODELENS || v'.mode == BAD
  {
    hide Valid, Tracks, Tables, CheckOk, Quiet, Step, Abs, Paused, StateOk, Pow2, Small, LensOk, ZeroRest, Accepts,
         TableFor, IsLink;
    g' := g;
    var ok, u := ReadLenLens(v, g);
    if !ok {
      return true, u, g';
    }
    Facts(u, g);
    LenLensFacts(u, g);
    var lens := ZeroFill(u.lens, u.have);
    ZeroRestOk(u.lens, u.have);
    var r := BuildCodeLengths(lens);
    if r.Built? {
      v' := u.(lens := lens, have := 0, mode := CODELENS, lencode := r.table, lenbits := r.root);
      g' := g.(clens := lens[..19]);
    } else {
      v' := u.(lens := lens, have := 19, mode := BAD);
    }
    CodeLensStart(u, g, v', g');
    Advance(u, g, v', g');
    CheckKept(u, g, v', g');
    CodeLensTables(v', g', r);
    Finish(v', g');
    return false, v', g';
  }

  lemma CodeLensTables(v: Vars, g: Trace, r: TableResult)
    requires v.mode == BAD || v.mode == CODELENS
    requires v.mode == CODELENS ==>
               && r.Built? && v.lencode == r.table && v.lenbits == r.root && TableFor(r.table, r.root, CODES, g.clens)
               && forall i :: 0 <= i < |r.table| ==> !IsLink(r.table[i])
    ensures Tables(v, g)
  {
    hide TableFor, IsLink;
  }

  method ZeroFill(lens0: seq<nat>, have0: nat) returns (lens: seq<nat>)
    requires Small(lens0, have0) && have0 <= 19
    ensures lens == ZeroRest(lens0, have0) && Small(lens, 19)
  {
    hide Small;
    SmallSize(lens0, have0);
    ghost var all := ZeroRest(lens0, have0);
    ZeroRestSmall(lens0, have0);
    var have := have0;
    lens := lens0;
    while have < 19
      invariant have <= 19 && |lens| == LENS_SIZE && ZeroRest(lens, have) == all
    {
      lens := lens[ORDER[have] := 0];
      have := have + 1;
    }
  }

  lemma SmallSize(lens: seq<nat>, have: nat)
    requires Small(lens, have)
    ensures |lens| == LENS_SIZE
  {
  }

  method BuildCodeLengths(lens: seq<nat>) returns (r: TableResult)
    requires Small(lens, 19) && |lens| == LENS_SIZE && LensOk(lens)
    ensures r.Built? <==> Accepts(CODES, lens[..19])
    ensures r.Built? ==> TableFor(r.table, r.root, CODES, lens[..19])
    ensures r.Built? ==> forall i :: 0 <= i < |r.table| ==> !IsLink(r.table[i])
  {
    hide Accepts, TableFor, IsLink, Small;
    r := BuildTable(CODES, lens[..19], 7);
    forall s | 0 <= s < 19
      ensures lens[..19][s] <= 7
    {
      SmallAll(lens, s);
    }
  }

  // -------------------------------------------------------------------- decoding

  lemma UsedBound(t: seq<Entry>, root: nat, ty: CodeType, lens: seq<nat>, w: nat)
    requires TableFor(t, root, ty, lens) && CodeOk(ty, lens)
    ensures 1 <= Lookup(t, root, w).used <= MAX_BITS
  {
    hide TableFor, Lookup, Accepts, SymOp, SymVal;
    ForLinked(t, root, ty, lens);
    TableIsRef(t, root, ty, lens, w);
  }

  lemma ForLinked(t: seq<Entry>, root: nat, ty: CodeType, lens: seq<nat>)
    requires TableFor(t, root, ty, lens)
    ensures Linked(t, root)
  {
  }

  /** A table looks at no more bits than it uses. */
  lemma LookupStable(t: seq<Entry>, root: nat, ty: CodeType, lens: seq<nat>, v: nat, w: nat)
    requires TableFor(t, root, ty, lens) && CodeOk(ty, lens) && Linked(t, root)
    requires Low(v, Lookup(t, root, v).used) == Low(w, Lookup(t, root, v).used)
    ensures Lookup(t, root, w) == Lookup(t, root, v)
  {
    hide TableFor, Lookup, CodeOk, RefDecode, Low, Linked;
    ForSize(t, root, ty, lens);
    TableIsRef(t, root, ty, lens, v);
    TableIsRef(t, root, ty, lens, w);
    RefStable(ty, lens, v, w);
  }

  lemma ForSize(t: seq<Entry>, root: nat, ty: CodeType, lens: seq<nat>)
    requires TableFor(t, root, ty, lens)
    ensures |lens| <= MaxSymbols(ty)
  {
  }

  /** More bits do not change a complete code. */
  lemma SameCode(t: seq<Entry>, root: nat, ty: CodeType, lens: seq<nat>, hold: nat, bits: nat, hold': nat)
    requires TableFor(t, root, ty, lens) && CodeOk(ty, lens) && Linked(t, root)
    requires Lookup(t, root, hold).used <= bits && Low(hold', bits) == hold
    ensures Lookup(t, root, hold') == Lookup(t, root, hold)
  {
    hide TableFor, Lookup, CodeOk, Low, Linked;
    LowLow(hold', Lookup(t, root, hold).used, bits);
    LookupStable(t, root, ty, lens, hold, hold');
  }

  /** No byte was read beyond what the code needs. */
  ghost predicate Lean(t: seq<Entry>, root: nat, v: Vars, v': Vars)
    requires Linked(t, root)
  {
    v' == v || (v'.bits >= 8 && Lookup(t, root, Low(v'.hold, v'.bits - 8)).used > v'.bits - 8)
  }

  lemma LeanEnd(t: seq<Entry>, root: nat, ty: CodeType, lens: seq<nat>, v: Vars, v': Vars)
    requires TableFor(t, root, ty, lens) && CodeOk(ty, lens) && Linked(t, root) && Lean(t, root, v, v')
    requires Lookup(t, root, v'.hold).used <= v'.bits
    ensures v' == v || v'.bits - Lookup(t, root, v'.hold).used < 8
  {
    hide TableFor, Lookup, CodeOk, Low, Linked;
    var n := Lookup(t, root, v'.hold).used;
    if v' != v && v'.bits - n >= 8 {
      LowLow(v'.hold, n, v'.bits - 8);
      LookupStable(t, root, ty, lens, v'.hold, Low(v'.hold, v'.bits - 8));
    }
  }

  /** The entry of the root table. */
  function RootEntry(t: seq<Entry>, root: nat, hold: nat): (e: Entry)
    requires Linked(t, root)
    ensures e.bits <= Lookup(t, root, hold).used
    ensures !IsLink(e) ==> Lookup(t, root, hold) == Decoded(e.op, e.val, e.bits)
    ensures IsLink(e) ==> e.bits == root
  {
    LowBound(hold, root);
    var e := t[Low(hold, root)];
    LowBound(Shr(hold, e.bits), e.op);
    e
  }

  /** Reads until the root entry's code is complete: false if the input ends first. */
  method DecodeRoot(v: Vars, t: seq<Entry>, root: nat, ghost ty: CodeType, ghost lens: seq<nat>, ghost g: Trace)
    returns (ok: bool, e: Entry, v': Vars)
    requires Tracks(v, g) && TableFor(t, root, ty, lens) && CodeOk(ty, lens) && v.bits <= 22 && Linked(t, root)
    ensures Tracks(v', g) && OnlyPulled(v, v') && Left(v') == Left(v) && Lean(t, root, v, v')
    ensures e == RootEntry(t, root, v'.hold)
    ensures ok ==> e.bits <= v'.bits <= 22
    ensures !ok ==> e.bits > v'.bits && v'.next == |v'.input| && v'.bits <= 22
  {
    hide Tracks, TableFor, CodeOk, Low, Lookup, Linked, RootEntry, Pow2, Abs;
    v' := v;
    e := RootEntry(t, root, v'.hold);
    while e.bits > v'.bits
      invariant Tracks(v', g) && OnlyPulled(v, v') && Left(v') == Left(v) && v'.bits <= 22
      invariant Lean(t, root, v, v')
      invariant e == RootEntry(t, root, v'.hold)
      decreases |v'.input| - v'.next
    {
      UsedBound(t, root, ty, lens, v'.hold);
      ghost var u := v';
      ok, v' := PullByte(v', g);
      if !ok {
        return;
      }
      e := RootEntry(t, root, v'.hold);
    }
    ok := true;
  }

  lemma LinkKept(root: nat, hold: nat, bits: nat, hold': nat)
    requires root <= bits && Low(hold', bits) == hold
    ensures Low(hold', root) == Low(hold, root)
  {
    LowLow(hold', root, bits);
  }

  /** The sub-table entry a link leads to. */
  function SubEntry(t: seq<Entry>, root: nat, hold: nat, l: Entry): (e: Entry)
    requires Linked(t, root) && l == RootEntry(t, root, hold) && IsLink(l)
    ensures Lookup(t, root, hold) == Decoded(e.op, e.val, l.bits + e.bits)
  {
    SubPlace(t, root, hold, l);
    t[l.val + Shr(Low(hold, l.bits + l.op), l.bits)]
  }

  lemma SubPlace(t: seq<Entry>, root: nat, hold: nat, l: Entry)
    requires Linked(t, root) && l == RootEntry(t, root, hold) && IsLink(l)
    ensures var i := l.val + Shr(Low(hold, l.bits + l.op), l.bits);
            i < |t| && Lookup(t, root, hold) == Decoded(t[i].op, t[i].val, l.bits + t[i].bits)
  {
    hide Low, Shr, Pow2;
    ShrLow(hold, l.bits, l.bits + l.op);
    LowBound(hold, root);
    LowBound(Shr(hold, l.bits), l.op);
  }

  method DecodeSub(v0: Vars, v: Vars, t: seq<Entry>, root: nat, l: Entry,
                   ghost ty: CodeType, ghost lens: seq<nat>, ghost g: Trace)
    returns (ok: bool, e: Entry, v': Vars)
    requires Tracks(v, g) && TableFor(t, root, ty, lens) && CodeOk(ty, lens) && Linked(t, root)
    requires l == RootEntry(t, root, v.hold) && IsLink(l) && l.bits <= v.bits <= 22
    requires OnlyPulled(v0, v) && Lean(t, root, v0, v)
    ensures Tracks(v', g) && OnlyPulled(v0, v') && Left(v') == Left(v) && Lean(t, root, v0, v')
    ensures Lookup(t, root, v'.hold) == Decoded(e.op, e.val, l.bits + e.bits)
    ensures ok ==> l.bits + e.bits <= v'.bits <= 22
    ensures !ok ==> l.bits + e.bits > v'.bits && v'.next == |v'.input| && v'.bits <= 22
  {
    hide Tracks, TableFor, CodeOk, Low, Lookup, Linked, RootEntry, SubEntry, Pow2, IsLink, Abs;
    v' := v;
    e := SubEntry(t, root, v'.hold, l);
    while l.bits + e.bits > v'.bits
      invariant Tracks(v', g) && OnlyPulled(v0, v') && Left(v') == Left(v) && l.bits <= v'.bits <= 22
      invariant Lean(t, root, v0, v') && l == RootEntry(t, root, v'.hold)
      invariant Lookup(t, root, v'.hold) == Decoded(e.op, e.val, l.bits + e.bits)
      decreases |v'.input| - v'.next
    {
      UsedBound(t, root, ty, lens, v'.hold);
      ghost var u := v';
      ok, v' := PullByte(v', g);
      if !ok {
        return;
      }
      SameRoot(t, root, u.hold, u.bits, v'.hold);
      e := SubEntry(t, root, v'.hold, l);
    }
    ok := true;
  }

  lemma SameRoot(t: seq<Entry>, root: nat, hold: nat, bits: nat, hold': nat)
    requires Linked(t, root) && root <= bits && Low(hold', bits) == hold
    ensures RootEntry(t, root, hold') == RootEntry(t, root, hold)
  {
    hide Low;
    LinkKept(root, hold, bits, hold');
  }

  /** Distance tables have no entry with op 0, so that the weaker test for a link
      in DIST is the one in LEN. */
  lemma NoZeroDist(t: seq<Entry>, root: nat, lens: seq<nat>, w: nat)
    requires TableFor(t, root, DISTS, lens) && CodeOk(DISTS, lens) && Linked(t, root)
    ensures Lookup(t, root, w).op >= 16
  {
    hide TableFor, Lookup, Linked, Accepts, SymVal;
    ForSize(t, root, DISTS, lens);
    TableIsRef(t, root, DISTS, lens, w);
    if !Unmatched(lens, w) {
      DistOps(StartSym(lens, w));
    }
  }

  lemma DistOps(s: nat)
    requires s < 32
    ensures SymOp(DISTS, s) >= 16
  {
  }

  /** The lookup loops of LEN and DIST: false if the input ends first. */
  method SlowDecode(v: Vars, t: seq<Entry>, root: nat, ty: CodeType, ghost lens: seq<nat>, ghost g: Trace)
    returns (ok: bool, d: Decoded, v': Vars)
    requires Tracks(v, g) && TableFor(t, root, ty, lens) && CodeOk(ty, lens) && v.bits <= 22 && ty != CODES
    requires Linked(t, root)
    ensures Tracks(v', g) && OnlyPulled(v, v') && Left(v') == Left(v)
    ensures 1 <= d.used && (ok ==> d == Lookup(t, root, v'.hold))
    ensures ok ==> d.used <= v'.bits <= 22 && (v' == v || v'.bits - d.used < 8)
    ensures !ok ==> Lookup(t, root, v'.hold).used > v'.bits && v'.next == |v'.input| && v'.bits <= 22
  {
    hide Tracks, TableFor, CodeOk, Low, Lookup, Linked, RootEntry, SubEntry, Pow2, Lean, Abs;
    var e;
    ok, e, v' := DecodeRoot(v, t, root, ty, lens, g);
    d := Decoded(e.op, e.val, e.bits);
    UsedBound(t, root, ty, lens, v'.hold);
    if !ok {
      d := NOTHING;
      return;
    }
    if ty == DISTS {
      NoZeroDist(t, root, lens, v'.hold);
    }
    if (ty == DISTS || e.op != 0) && e.op < 16 {
      var f;
      ok, f, v' := DecodeSub(v, v', t, root, e, ty, lens, g);
      d := Decoded(f.op, f.val, e.bits + f.bits);
      UsedBound(t, root, ty, lens, v'.hold);
      if !ok {
        return;
      }
    }
    LeanEnd(t, root, ty, lens, v, v');
  }

  // -------------------------------------------------------------------- CODELENS

  lemma CodeLensVars(v: Vars, g: Trace)
    requires StateOk(Abs(v, g)) && v.mode == CODELENS
    ensures |v.lens| == LENS_SIZE && LensOk(v.lens) && CodeOk(CODES, g.clens)
    ensures |g.clens| <= 19 && 257 <= v.nlen <= 286 && 1 <= v.ndist <= 30 && v.have <= v.nlen + v.ndist
  {
    hide LensOk, ToBits, CodeOk, StateOk;
    LensFacts(Abs(v, g));
    CodeLensFacts(Abs(v, g));
  }

  /** A run of copies, or an error if there are too many. */
  function RunCode(v: Vars, copy: nat, len: nat): (r: Vars)
    requires v.nlen + v.ndist <= |v.lens|
  {
    if v.have + copy > v.nlen + v.ndist then v.(mode := BAD)
    else v.(lens := Repeat(v.lens, v.have, copy, len), have := v.have + copy)
  }

  /** What a code-length symbol whose code takes n bits leads to. */
  function SymCode(v: Vars, sym: nat, n: nat): (r: Vars)
    requires n + RepeatBits(sym) <= v.bits && v.have < v.nlen + v.ndist <= |v.lens|
  {
    var a := DropBits(v, n);
    if sym < 16 then a.(lens := a.lens[a.have := sym], have := a.have + 1)
    else if sym == 16 && a.have == 0 then a.(mode := BAD)
    else
      var x := RepeatBits(sym);
      RunCode(DropBits(a, x), (if sym < 18 then 3 else 11) + Low(a.hold, x),
              if sym == 16 then a.lens[a.have - 1] else 0)
  }

  lemma RunAbs(v: Vars, g: Trace, copy: nat, len: nat)
    requires v.mode == CODELENS && v.nlen + v.ndist <= |v.lens|
    ensures EnterRun(Abs(v, g), copy, len) == Abs(RunCode(v, copy, len), g)
  {
    hide ToBits, Repeat;
  }

  lemma SymStep(v: Vars, g: Trace, sym: nat, n: nat)
    requires v.mode == CODELENS && InBounds(v) && n + RepeatBits(sym) <= v.bits && v.have < v.nlen + v.ndist <= |v.lens|
    ensures n <= |Abs(v, g).unread| && v.have < |Abs(v, g).lens|
    ensures UseSym(Abs(v, g), sym, n) == Some(Abs(SymCode(v, sym, n), g))
  {
    hide Low, Shr, Pow2, Peek, Drop, EnterRun, RepeatBits, RunCode, Abs;
    var x := RepeatBits(sym);
    AbsPeek(v, g, n);
    var a := DropBits(v, n);
    AbsFields(v, g);
    AbsFields(a, g);
    if sym < 16 {
      AbsEnter(a, g, sym);
    } else if sym == 16 && v.have == 0 {
    } else {
      AbsPeek(v, g, n + x);
      AbsPeek(a, g, x);
      ShrShr(v.hold, n, x);
      assert Drop(Abs(v, g), n + x) == Abs(DropBits(a, x), g);
      RunAbs(DropBits(a, x), g, (if sym < 18 then 3 else 11) + Low(a.hold, x),
             if sym == 16 then v.lens[v.have - 1] else 0);
    }
  }

  lemma AbsFields(v: Vars, g: Trace)
    requires v.mode == CODELENS
    ensures var s := Abs(v, g);
            s.mode == v.mode && s.clens == g.clens && s.lens == v.lens && s.have == v.have && s.nlen == v.nlen
            && s.ndist == v.ndist && |s.unread| == v.bits
    ensures Abs(v.(mode := BAD), g) == Abs(v, g).(mode := BAD)
  {
  }

  lemma AbsEnter(v: Vars, g: Trace, sym: nat)
    requires v.mode == CODELENS && v.have < |v.lens|
    ensures Abs(v, g).lens == v.lens && Abs(v, g).have == v.have
    ensures Abs(v.(lens := v.lens[v.have := sym], have := v.have + 1), g)
         == Abs(v, g).(lens := v.lens[v.have := sym], have := v.have + 1)
  {
  }

  lemma SymFrame(v: Vars, sym: nat, n: nat)
    requires v.mode == CODELENS && InBounds(v) && n + RepeatBits(sym) <= v.bits && v.have < v.nlen + v.ndist <= |v.lens|
    ensures var r := SymCode(v, sym, n);
            && InBounds(r) && r == v.(mode := r.mode, lens := r.lens, have := r.have, hold := r.hold, bits := r.bits)
            && (r.mode == BAD || r.mode == CODELENS) && r.bits <= v.bits
            && (r.mode == CODELENS ==> r.bits == v.bits - n - RepeatBits(sym) && r.have > v.have)
  {
    hide Low, Shr, Pow2, Repeat;
    var x := RepeatBits(sym);
    ShrBound(v.hold, v.bits, n);
    ShrBound(Shr(v.hold, n), v.bits - n, x);
  }

  /** Where the machine stands with the table's answer. */
  lemma CodeLensStep(v: Vars, g: Trace)
    requires v.mode == CODELENS && StateOk(Abs(v, g)) && Tables(v, g) && InBounds(v) && v.have < v.nlen + v.ndist
    requires Linked(v.lencode, v.lenbits)
    ensures v.nlen + v.ndist <= |v.lens|
    ensures var d := Lookup(v.lencode, v.lenbits, v.hold);
            if d.used + RepeatBits(d.val) > v.bits then Step(Abs(v, g)).None?
            else Step(Abs(v, g)) == Some(Abs(SymCode(v, d.val, d.used), g))
  {
    hide Low, Shr, Pow2, Step, StateOk, FromBits, ToBits, Lookup, TableFor, CodeOk, LensOk, RefDecode, RepeatBits,
         SymCode, Linked;
    CodeLensVars(v, g);
    var s := Abs(v, g);
    var d := Lookup(v.lencode, v.lenbits, v.hold);
    CodeLensAt(s);
    TableIsRef(v.lencode, v.lenbits, CODES, g.clens, v.hold);
    HoldSplit(v.hold, v.bits, 0);
    if d.used + RepeatBits(d.val) <= v.bits {
      SymStep(v, g, d.val, d.used);
    } else if d.used <= v.bits {
      assert UseSym(s, d.val, d.used).None?;
    }
  }

  lemma CodeTable(v: Vars, g: Trace)
    requires Tables(v, g) && v.mode == CODELENS
    ensures Linked(v.lencode, v.lenbits) && TableFor(v.lencode, v.lenbits, CODES, g.clens)
  {
    hide Lookup;
  }

  lemma CodeNoLink(v: Vars, g: Trace, hold: nat)
    requires Tables(v, g) && v.mode == CODELENS && Linked(v.lencode, v.lenbits)
    ensures !IsLink(RootEntry(v.lencode, v.lenbits, hold))
  {
    LowBound(hold, v.lenbits);
  }

  lemma CodeTablesKept(v: Vars, g: Trace, v': Vars)
    requires Tables(v, g) && v.mode == CODELENS && (v'.mode == CODELENS || v'.mode == BAD)
    requires v'.lencode == v.lencode && v'.lenbits == v.lenbits
    ensures Tables(v', g)
  {
    hide TableFor, IsLink;
  }

  lemma SymEnd(v: Vars, g: Trace, w: Vars, sym: nat, n: nat)
    requires Valid(v, g) && OnlyPulled(v, w) && Tracks(w, g) && Tables(w, g) && v.mode == CODELENS && InBounds(w)
    requires n + RepeatBits(sym) <= w.bits < n + RepeatBits(sym) + 8
    requires w.have < w.nlen + w.ndist <= |w.lens|
    requires Step(Abs(w, g)) == Some(Abs(SymCode(w, sym, n), g))
    ensures var r := SymCode(w, sym, n);
            && Valid(r, g) && SameCall(w, r) && r.output == w.output && Left(r) <= Left(w)
            && (r.mode == BAD || (r.mode == CODELENS && r.have > w.have)) && r.nlen == w.nlen && r.ndist == w.ndist
  {
    hide Valid, Tracks, Tables, CheckOk, Quiet, Step, Abs, StateOk, Pow2, SymCode, RepeatBits;
    SymFrame(w, sym, n);
    CodeTablesKept(w, g, SymCode(w, sym, n));
    Plain(v, g, w, SymCode(w, sym, n));
  }

  /** Reads one symbol of the code lengths and enters it. */
  method ReadCodeLen(v: Vars, ghost g: Trace) returns (leave: bool, v': Vars)
    requires Valid(v, g) && v.mode == CODELENS && v.have < v.nlen + v.ndist
    ensures Valid(v', g) && SameCall(v, v') && v'.output == v.output && Left(v') <= Left(v)
    ensures leave ==> Paused(v', g)
    ensures !leave ==> v'.mode == BAD || (v'.mode == CODELENS && v'.have > v.have)
    ensures v'.nlen == v.nlen && v'.ndist == v.ndist
  {
    hide Valid, Tracks, Tables, CheckOk, Quiet, Step, Abs, Paused, StateOk, Pow2, LensOk, CodeOk, TableFor, Linked,
         Lookup, RootEntry, IsLink, Lean, SymCode, RepeatBits;
    Facts(v, g);
    CodeLensVars(v, g);
    CodeTable(v, g);
    if v.bits >= 8 {
      CodeLensStep(v, g);
    }
    var ok, e, u := DecodeRoot(v, v.lencode, v.lenbits, CODES, g.clens, g);
    Pulled(v, g, u);
    CodeNoLink(v, g, u.hold);
    CodeLensStep(u, g);
    if !ok {
      Suspend(u, g);
      return true, u;
    }
    LeanEnd(v.lencode, v.lenbits, CODES, g.clens, v, u);
    RepeatSmall(e.val);
    UsedBound(v.lencode, v.lenbits, CODES, g.clens, u.hold);
    var enough, w := NeedBits(u, e.bits + RepeatBits(e.val), g);
    Pulled(v, g, w);
    SameCode(v.lencode, v.lenbits, CODES, g.clens, u.hold, u.bits, w.hold);
    CodeLensStep(w, g);
    if !enough {
      Suspend(w, g);
      return true, w;
    }
    v' := SymCode(w, e.val, e.bits);
    SymEnd(v, g, w, e.val, e.bits);
    return false, v';
  }

  lemma CodeLensEnd(v: Vars, g: Trace, r: Vars, g': Trace)
    requires StateOk(Abs(v, g)) && v.mode == CODELENS && v.have >= v.nlen + v.ndist && InBounds(v)
    requires v.nlen + v.ndist <= |v.lens|
    requires var llens, dlens := v.lens[..v.nlen], v.lens[v.nlen..v.nlen + v.ndist];
             if Accepts(LENS, llens) && Accepts(DISTS, dlens)
             then r == v.(mode := LEN, lencode := r.lencode, lenbits := r.lenbits, distcode := r.distcode,
                          distbits := r.distbits) && g' == g.(llens := llens, dlens := dlens)
             else r == v.(mode := BAD, lencode := r.lencode, lenbits := r.lenbits) && g' == g
    ensures Step(Abs(v, g)) == Some(Abs(r, g')) && InBounds(r)
  {
    hide Step, Accepts, Roomy, StateOk, Pow2, LensOk, Abs, NewCodes, Decode, UseSym, CodeOk;
    CodeLensVars(v, g);
    AbsFields(v, g);
    LensDone(Abs(v, g));
    NewCodesAbs(v, g, v.lens[..v.nlen], v.lens[v.nlen..v.nlen + v.ndist], r, g');
  }

  lemma NewCodesAbs(v: Vars, g: Trace, llens: seq<nat>, dlens: seq<nat>, r: Vars, g': Trace)
    requires v.mode == CODELENS
    requires if Accepts(LENS, llens) && Accepts(DISTS, dlens)
             then r == v.(mode := LEN, lencode := r.lencode, lenbits := r.lenbits, distcode := r.distcode,
                          distbits := r.distbits) && g' == g.(llens := llens, dlens := dlens)
             else r == v.(mode := BAD, lencode := r.lencode, lenbits := r.lenbits) && g' == g
    ensures NewCodes(Abs(v, g), llens, dlens) == Abs(r, g')
  {
    hide Accepts, Roomy, ToBits;
  }

  lemma SliceLensOk(lens: seq<nat>, a: nat, b: nat)
    requires LensOk(lens) && a <= b <= |lens|
    ensures LensOk(lens[a..b])
  {
  }

  method DoCodeLens(v: Vars, ghost g: Trace) returns (leave: bool, v': Vars, ghost g': Trace)
    requires Valid(v, g) && v.mode == CODELENS
    ensures Valid(v', g') && SameCall(v, v') && SameTrace(g, g') && v'.output == v.output && Left(v') <= Left(v)
    ensures leave ==> Paused(v', g')
    ensures !leave ==> v'.mode == LEN || v'.mode == BAD
  {
    hide Valid, Tracks, Tables, CheckOk, Quiet, Step, Abs, Paused, StateOk, Pow2, LensOk;
    var u := v;
    while u.have < u.nlen + u.ndist
      invariant Valid(u, g) && SameCall(v, u) && u.output == v.output && Left(u) <= Left(v) && u.mode == CODELENS
      decreases u.nlen + u.ndist - u.have
    {
      leave, u := ReadCodeLen(u, g);
      if leave || u.mode == BAD {
        return leave, u, g;
      }
    }
    v', g' := BuildTables(u, g);
    return false, v', g';
  }

  /** The literal/length and distance tables of a dynamic block. */
  method BuildTables(v: Vars, ghost g: Trace) returns (v': Vars, ghost g': Trace)
    requires Valid(v, g) && v.mode == CODELENS && v.have >= v.nlen + v.ndist
    ensures Valid(v', g') && SameCall(v, v') && SameTrace(g, g') && v'.output == v.output && Left(v') == Left(v)
    ensures v'.mode == LEN || v'.mode == BAD
  {
    hide Valid, Tracks, Tables, CheckOk, Quiet, Step, Abs, StateOk, Pow2, LensOk, Accepts, Roomy, TableFor;
    Facts(v, g);
    CodeLensVars(v, g);
    g' := g;
    SliceLensOk(v.lens, 0, v.nlen);
    SliceLensOk(v.lens, v.nlen, v.nlen + v.ndist);
    var llens, dlens := v.lens[..v.nlen], v.lens[v.nlen..v.nlen + v.ndist];
    assert llens == v.lens[0..v.nlen];
    var l := BuildTable(LENS, llens, 9);
    if Accepts(LENS, llens) {
      AlwaysRoomy(llens);
    }
    v' := v.(mode := BAD);
    if l.Built? {
      var d := BuildTable(DISTS, dlens, 6);
      DistRoomy(dlens, 6);
      if d.Built? {
        v' := v.(mode := LEN, lencode := l.table, lenbits := l.root, distcode := d.table, distbits := d.root);
        g' := g.(llens := llens, dlens := dlens);
      } else {
        v' := v.(mode := BAD, lencode := l.table, lenbits := l.root);
      }
    }
    CodeLensEnd(v, g, v', g');
    Advance(v, g, v', g');
    CheckKept(v, g, v', g');
    BuiltTables(v', g');
    Finish(v', g');
  }

  lemma BuiltTables(v: Vars, g: Trace)
    requires v.mode == BAD || v.mode == LEN
    requires v.mode == LEN ==>
               && TableFor(v.lencode, v.lenbits, LENS, g.llens)
               && TableFor(v.distcode, v.distbits, DISTS, g.dlens)
    ensures Tables(v, g)
  {
    hide TableFor;
  }
}
