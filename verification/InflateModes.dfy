/** inflate.c: the code of each mode, up to the next resumption point.

    Each method either makes transitions of the reference machine or stops where
    the machine, too, can go no further without more input or output space. */
module InflateModes {
  import opened Bits
  import opened Canonical
  import opened InflateTable
  import opened InflateMachine
  import opened InflateState
  import opened AdlerSpec
  import opened Adler
  import opened Enough

  // ------------------------------------------------------------------------ HEAD

  /** HEAD once there are 16 bits. */
  function HeadCode(v: Vars): (r: Vars)
    requires v.bits == 16
  {
    var h := v.hold;
    if HeaderBad(h) then v.(mode := BAD)
    else
      var d := DropBits(v, 4);
      if d.hold % 16 + 8 > WBITS then d.(mode := BAD)
      else d.(check := 1, mode := if d.hold / 512 % 2 == 1 then DICTID else TYPE, hold := 0, bits := 0)
  }

  method DoHead(v: Vars, ghost g: Trace) returns (leave: bool, v': Vars)
    requires Valid(v, g) && v.mode == HEAD
    ensures Valid(v', g) && SameCall(v, v') && v'.output == v.output && Left(v') <= Left(v)
    ensures leave ==> Paused(v', g)
    ensures !leave ==> v'.mode != HEAD
  {
    hide Valid, Tracks, Tables, CheckOk, Quiet, Step, Abs, Paused, StateOk, Pow2, HeadCode;
    Facts(v, g);
    if !v.wrap {
      v' := v.(mode := TYPE);
      HeadRaw(v, g);
      NoTables(v', g);
      Plain(v, g, v, v');
      return false, v';
    }
    var ok, w := NeedBits(v, 16, g);
    Pulled(v, g, w);
    if !ok {
      HeadStuck(w, g);
      Suspend(w, g);
      return true, w;
    }
    v' := HeadCode(w);
    HeadStep(w, g);
    Advance(w, g, v', g);
    HeadCheck(w, g, v', g);
    NoTables(v', g);
    Finish(v', g);
    return false, v';
  }

  lemma HeadStuck(v: Vars, g: Trace)
    requires v.mode == HEAD && v.wrap && v.bits < 16
    ensures Step(Abs(v, g)).None?
  {
  }

  lemma HeadRaw(v: Vars, g: Trace)
    requires v.mode == HEAD && !v.wrap
    ensures Step(Abs(v, g)) == Some(Abs(v.(mode := TYPE), g))
  {
  }

  lemma HeadCheck(v: Vars, g: Trace, v': Vars, g': Trace)
    requires CheckOk(v, g) && StateOk(Abs(v, g)) && v.mode == HEAD && g'.hist0 == g.hist0
    requires v'.wrap == v.wrap && (v'.check == 1 || v'.check == v.check) && v'.base == v.base && v'.output == v.output
    ensures CheckOk(v', g')
  {
    hide Packed, Feed;
    assert g.hist0 + v.output == [];
    EmptyCheck(v, g);
    assert v'.output[..v'.base] == v.output[..v.base];
  }

  lemma EmptyCheck(v: Vars, g: Trace)
    requires g.hist0 == [] && v.output == [] && v.base == 0
    ensures Packed(Feed(START, g.hist0 + v.output[..v.base])) == 1
  {
    assert g.hist0 + v.output[..v.base] == [];
  }

  lemma HeadStep(v: Vars, g: Trace)
    requires v.mode == HEAD && v.wrap && v.bits == 16 && InBounds(v)
    ensures var r := HeadCode(v);
            && Step(Abs(v, g)) == Some(Abs(r, g)) && InBounds(r) && BitsOk(r.mode, r.bits)
            && SameCall(v, r) && r.next == v.next && r.output == v.output && r.base == v.base
            && (r.check == v.check || r.check == 1) && (r.mode == BAD || r.mode == DICTID || r.mode == TYPE)
            && r.bits <= v.bits
  {
    hide Low, Shr, Pow2, FromBits, ToBits, Step, HeaderBad;
    HeadAt(Abs(v, g));
    AbsPeek(v, g, 16);
    AbsPeek(v, g, 4);
    LowSmall(v.hold, 16);
    ShrFour(v.hold);
    NoBits(Shr(v.hold, 16));
    NoBits(0);
  }

  lemma ShrFour(h: nat)
    ensures Shr(h, 4) == h / 16 && Shr(h, 4) / 512 == h / 8192
  {
    hide Shr;
    LowValues(h);
  }

  lemma NoBits(h: nat)
    ensures ToBits(h, 0) == [] && Pow2(0) == 1
  {
  }

  // ---------------------------------------------------------------------- DICTID

  method DoDictId(v: Vars, ghost g: Trace) returns (leave: bool, v': Vars)
    requires Valid(v, g) && v.mode == DICTID
    ensures Valid(v', g) && SameCall(v, v') && v'.output == v.output && Left(v') <= Left(v)
    ensures leave ==> Paused(v', g)
    ensures !leave ==> v'.mode == DICT
  {
    hide Valid, Tracks, Tables, CheckOk, Quiet, Step, Abs, Paused, StateOk, Pow2;
    Facts(v, g);
    var ok, w := NeedBits(v, 32, g);
    Pulled(v, g, w);
    if !ok {
      DictIdStuck(w, g);
      Suspend(w, g);
      return true, w;
    }
    v' := w.(check := Reverse4(w.hold), hold := 0, bits := 0, mode := DICT);
    DictIdStep(w, g, v');
    Advance(w, g, v', g);
    NoTables(v', g);
    Finish(v', g);
    return false, v';
  }

  lemma DictIdStuck(v: Vars, g: Trace)
    requires v.mode == DICTID && v.bits < 32
    ensures Step(Abs(v, g)).None?
  {
  }

  lemma DictIdStep(v: Vars, g: Trace, v': Vars)
    requires v.mode == DICTID && v.bits == 32 && InBounds(v)
    requires v' == v.(check := v'.check, hold := 0, bits := 0, mode := DICT)
    ensures Step(Abs(v, g)) == Some(Abs(v', g)) && InBounds(v')
    ensures v.base == 0 ==> CheckOk(v', g)
  {
    hide Low, Shr, Pow2, FromBits, ToBits;
    AbsPeek(v, g, 32);
    NoBits(Shr(v.hold, 32));
    NoBits(0);
  }

  // ------------------------------------------------------------------------ TYPE

  /** The block header once there are 3 bits, without the table set-up. */
  function TypeCode(v: Vars): (r: Vars)
    requires v.bits >= 3
  {
    var d := DropBits(v.(last := Low(v.hold, 1) == 1), 1);
    var sel := Low(d.hold, 2);
    DropBits(d.(mode := BlockMode(sel)), 2)
  }

  lemma TypeStuck(v: Vars, g: Trace)
    requires v.mode == TYPE && !v.last && v.bits < 3
    ensures Step(Abs(v, g)).None?
  {
  }

  lemma LastStep(v: Vars, g: Trace)
    requires v.mode == TYPE && v.last && InBounds(v) && v.bits < 8
    ensures var r := DropBits(v, v.bits % 8).(mode := CHECK);
            Step(Abs(v, g)) == Some(Abs(r, g)) && InBounds(r) && r.bits == 0
  {
    hide Low, Shr, Pow2, FromBits, ToBits, Step;
    TypeAt(Abs(v, g));
    AbsPeek(v, g, v.bits % 8);
  }

  lemma ThreeBits(h: nat)
    ensures Low(h, 3) % 2 == Low(h, 1) && Low(h, 3) / 2 == Low(Shr(h, 1), 2) && Shr(Shr(h, 1), 2) == Shr(h, 3)
    ensures Low(Shr(h, 1), 2) < 4
  {
    ShrShr(h, 1, 2);
    assert Shr(h, 1) == h / 2;
    assert Low(h, 3) == h % 2 + 2 * Low(h / 2, 2);
    assert Low(h, 1) == h % 2;
    SplitAt(h / 2, 2);
    Pow2Values();
  }

  lemma TypeCodeIs(v: Vars)
    requires v.bits >= 3
    ensures TypeCode(v) ==
            DropBits(v, 3).(last := Low(v.hold, 3) % 2 == 1, mode := BlockMode(Low(v.hold, 3) / 2))
  {
    hide Low, Shr, BlockMode;
    ThreeBits(v.hold);
  }

  ghost function FixedTrace(m: Mode, g: Trace): Trace {
    if m == LEN then g.(llens := FixedLens(), dlens := FixedDists()) else g
  }

  lemma BlockAbs(v: Vars, g: Trace, last: bool, m: Mode)
    requires v.mode == TYPE && (m == STORED || m == LEN || m == TABLE || m == BAD)
    ensures NewBlock(Abs(v, g), last, m) == Abs(v.(last := last, mode := m), FixedTrace(m, g))
  {
    hide ToBits, FixedLens, FixedDists;
  }

  lemma TypeStep(v: Vars, g: Trace)
    requires v.mode == TYPE && !v.last && v.bits >= 3 && InBounds(v)
    ensures var r := TypeCode(v);
            && Step(Abs(v, g)) == Some(Abs(r, FixedTrace(r.mode, g))) && InBounds(r) && r.bits == v.bits - 3
            && r == v.(last := r.last, mode := r.mode, hold := r.hold, bits := r.bits)
            && (r.mode == STORED || r.mode == LEN || r.mode == TABLE || r.mode == BAD)
  {
    hide Low, Pow2, Step, BlockMode, TypeCode, NewBlock, Peek, Drop, FixedTrace, Shr;
    TypeAt(Abs(v, g));
    AbsPeek(v, g, 3);
    TypeCodeIs(v);
    var h := Low(v.hold, 3);
    BlockAbs(DropBits(v, 3), g, h % 2 == 1, BlockMode(h / 2));
    assert !Abs(v, g).last;
  }

  /** fixedtables */
  method FixedTables(v: Vars) returns (v': Vars)
    ensures v' == v.(lencode := v'.lencode, distcode := v'.distcode, lenbits := v'.lenbits, distbits := v'.distbits)
    ensures TableFor(v'.lencode, v'.lenbits, LENS, FixedLens())
    ensures TableFor(v'.distcode, v'.distbits, DISTS, FixedDists())
  {
    hide Accepts, Roomy, TableFor, FixedLens, FixedDists;
    FixedOk();
    AlwaysRoomy(FixedLens());
    DistRoomy(FixedDists(), 5);
    var l := BuildTable(LENS, FixedLens(), 9);
    var d := BuildTable(DISTS, FixedDists(), 5);
    return v.(lencode := l.table, lenbits := l.root, distcode := d.table, distbits := d.root);
  }

  method DoType(v: Vars, ghost g: Trace) returns (leave: bool, v': Vars, ghost g': Trace)
    requires Valid(v, g) && v.mode == TYPE
    ensures Valid(v', g') && SameCall(v, v') && SameTrace(g, g') && v'.output == v.output
    ensures leave ==> Paused(v', g')
    ensures !leave ==> (v'.mode == CHECK && Left(v') <= Left(v)) || Left(v') < Left(v)
  {
    hide Valid, Tracks, Tables, CheckOk, Quiet, Step, Abs, Paused, StateOk, Pow2, TypeCode, FixedLens, FixedDists;
    Facts(v, g);
    g' := g;
    if v.last {
      v' := DropBits(v, v.bits % 8).(mode := CHECK);
      LastStep(v, g);
      NoTables(v', g);
      Plain(v, g, v, v');
      return false, v', g';
    }
    var ok, w := NeedBits(v, 3, g);
    Pulled(v, g, w);
    if !ok {
      TypeStuck(w, g);
      Suspend(w, g);
      return true, w, g';
    }
    v' := TypeCode(w);
    TypeStep(w, g);
    ghost var u := v';
    if v'.mode == LEN {
      v' := FixedTables(v');
    }
    g' := FixedTrace(v'.mode, g);
    TypeEnd(w, g, u, v', g');
    Advance(w, g, v', g');
    CheckKept(w, g, v', g');
    Finish(v', g');
    return false, v', g';
  }

  lemma TypeEnd(w: Vars, g: Trace, u: Vars, v': Vars, g': Trace)
    requires u.mode == STORED || u.mode == LEN || u.mode == TABLE || u.mode == BAD
    requires v' == u.(lencode := v'.lencode, distcode := v'.distcode, lenbits := v'.lenbits, distbits := v'.distbits)
    requires u.mode == LEN ==>
               && TableFor(v'.lencode, v'.lenbits, LENS, FixedLens())
               && TableFor(v'.distcode, v'.distbits, DISTS, FixedDists())
    requires g' == FixedTrace(u.mode, g)
    ensures Tables(v', g') && Abs(v', g') == Abs(u, g')
  {
    hide TableFor, FixedLens, FixedDists, ToBits;
  }

  // -------------------------------------------------------------- STORED and COPY

  lemma AlignStep(v: Vars, g: Trace)
    requires v.mode == STORED && InBounds(v) && v.bits % 8 != 0
    ensures var r := DropBits(v, v.bits % 8);
            Step(Abs(v, g)) == Some(Abs(r, g)) && InBounds(r)
  {
    hide Low, Shr, Pow2, FromBits, ToBits, Step;
    StoredAt(Abs(v, g));
    AbsPeek(v, g, v.bits % 8);
  }

  lemma StoredStuck(v: Vars, g: Trace)
    requires v.mode == STORED && v.bits < 32 && v.bits % 8 == 0
    ensures Step(Abs(v, g)).None?
  {
  }

  /** The stored block's length and its complement, once there are 32 bits. */
  function StoredCode(v: Vars): (r: Vars) {
    if v.hold % 65536 != 65535 - v.hold / 65536 then v.(mode := BAD)
    else v.(length := v.hold % 65536, hold := 0, bits := 0, mode := COPY)
  }

  lemma StoredStep(v: Vars, g: Trace)
    requires v.mode == STORED && v.bits == 32 && InBounds(v)
    ensures var r := StoredCode(v);
            && Step(Abs(v, g)) == Some(Abs(r, g)) && InBounds(r) && BitsOk(r.mode, r.bits)
            && SameCall(v, r) && r.next == v.next && r.output == v.output && r.base == v.base && r.check == v.check
            && ((r.mode == BAD && r.bits == v.bits) || (r.mode == COPY && r.bits == 0))
  {
    hide Low, Shr, Pow2, FromBits, ToBits, Step;
    StoredAt(Abs(v, g));
    AbsPeek(v, g, 32);
    LowSmall(v.hold, 32);
    NoBits(Shr(v.hold, 32));
    NoBits(0);
  }

  /** BYTEBITS */
  function ToByte(v: Vars): (r: Vars) {
    DropBits(v, v.bits % 8)
  }

  method ByteBits(v: Vars, ghost g: Trace) returns (v': Vars)
    requires Valid(v, g) && v.mode == STORED
    ensures Valid(v', g) && v' == ToByte(v) && Tracks(v', g) && v'.bits % 8 == 0 && v'.bits <= 32
  {
    hide Valid, Tracks, Tables, CheckOk, Quiet, Step, Abs, StateOk, Pow2;
    Facts(v, g);
    v' := DropBits(v, v.bits % 8);
    if v.bits % 8 != 0 {
      AlignStep(v, g);
      NoTables(v', g);
      Plain(v, g, v, v');
      Facts(v', g);
    } else {
      ShrNone(v.hold);
    }
  }

  method DoStored(v: Vars, ghost g: Trace) returns (leave: bool, v': Vars)
    requires Valid(v, g) && v.mode == STORED
    ensures Valid(v', g) && SameCall(v, v') && v'.output == v.output
    ensures leave ==> Paused(v', g)
    ensures !leave ==> (v'.mode == BAD && Left(v') <= Left(v)) || Left(v') < Left(v)
  {
    hide Valid, Tracks, Tables, CheckOk, Quiet, Step, Abs, Paused, StateOk, Pow2, StoredCode, Shr;
    var u := ByteBits(v, g);
    var ok, w := NeedBits(u, 32, g);
    Pulled(u, g, w);
    if !ok {
      StoredStuck(w, g);
      Suspend(w, g);
      return true, w;
    }
    v' := StoredCode(w);
    StoredStep(w, g);
    NoTables(v', g);
    Plain(u, g, w, v');
    return false, v';
  }

  /** One stored byte goes from the input to the output. */
  lemma CopyByte(v: Vars, g: Trace)
    requires Tracks(v, g) && v.mode == COPY && v.length > 0 && v.bits == 0
    requires v.next < |v.input| && |v.output| < v.avail
    ensures Tracks(v.(next := v.next + 1, output := v.output + [v.input[v.next]], length := v.length - 1), g)
  {
    hide Reachable, StateOk, BytesToBits, Initial, Step, Pow2, Shl, ToBits, FromBits;
    var x := v.input[v.next];
    NoBits(v.hold);
    HoldPull(v.hold, 0, x);
    ShlNone(x);
    PullTracks(v.wrap, g.fed0, v.input, v.next, Abs(v, g));
    var w := v.(hold := x, bits := 8, next := v.next + 1);
    assert Abs(w, g) == Plus(Abs(v, g), ToBits(x, 8));
    var r := v.(next := v.next + 1, output := v.output + [x], length := v.length - 1);
    CopyStep(v, g, w, x, r);
    Advance(w, g, r, g);
  }

  lemma CopyStep(v: Vars, g: Trace, w: Vars, x: Byte, r: Vars)
    requires v.mode == COPY && v.length > 0 && v.bits == 0 && v.hold == 0
    requires w == v.(hold := x, bits := 8, next := w.next) && w.hold < Pow2(8)
    requires r == v.(next := w.next, output := v.output + [x], length := v.length - 1)
    ensures Step(Abs(w, g)) == Some(Abs(r, g))
  {
    hide Low, Shr, Pow2, FromBits, ToBits, Step;
    CopyAt(Abs(w, g));
    AbsPeek(w, g, 8);
    LowSmall(x, 8);
    NoBits(Shr(w.hold, 8));
    NoBits(0);
    assert g.hist0 + v.output + [x] == g.hist0 + (v.output + [x]);
  }

  lemma CopyEnd(v: Vars, g: Trace)
    requires v.mode == COPY && v.length == 0
    ensures Step(Abs(v, g)) == Some(Abs(v.(mode := TYPE), g))
  {
    hide ToBits, Step;
    CopyAt(Abs(v, g));
  }

  lemma CopyStuck(v: Vars, g: Trace)
    requires v.mode == COPY && v.length > 0 && v.bits == 0
    ensures Step(Abs(v, g)).None?
  {
  }

  method DoCopy(v: Vars, ghost g: Trace) returns (leave: bool, v': Vars)
    requires Valid(v, g) && v.mode == COPY
    ensures Valid(v', g) && SameCall(v, v')
    ensures leave ==> Paused(v', g)
    ensures !leave ==> Left(v') < Left(v) || (v'.mode == TYPE && Left(v') == Left(v))
  {
    hide Valid, Tracks, Tables, CheckOk, Quiet, Step, Abs, StateOk, Pow2;
    Facts(v, g);
    var copy := v.length;
    v' := v;
    if copy != 0 {
      if copy > |v.input| - v.next {
        copy := |v.input| - v.next;
      }
      if copy > v.avail - |v.output| {
        copy := v.avail - |v.output|;
      }
      if copy == 0 {
        CopyStuck(v, g);
        return true, v;
      }
      // zmemcpy(put, next, copy)
      var n := 0;
      while n < copy
        invariant 0 <= n <= copy && Tracks(v', g)
        invariant v' == v.(next := v.next + n, output := v'.output, length := v.length - n)
        invariant v.output <= v'.output && |v'.output| == |v.output| + n
      {
        CopyByte(v', g);
        v' := v'.(next := v'.next + 1, output := v'.output + [v'.input[v'.next]], length := v'.length - 1);
        n := n + 1;
      }
      CheckKept(v, g, v', g);
      NoTables(v', g);
      Finish(v', g);
      return false, v';
    }
    v' := v.(mode := TYPE);
    CopyEnd(v, g);
    NoTables(v', g);
    NoBits(v.hold);
    Plain(v, g, v, v');
    return false, v';
  }

  // ----------------------------------------------------------------------- TABLE

  lemma TableStuck(v: Vars, g: Trace)
    requires v.mode == TABLE && v.bits < 14
    ensures Step(Abs(v, g)).None?
  {
  }

  /** The counts of a dynamic block once there are 14 bits. */
  function TableCode(v: Vars): (r: Vars)
    requires v.bits >= 14
  {
    var a := DropBits(v.(nlen := Low(v.hold, 5) + 257), 5);
    var b := DropBits(a.(ndist := Low(a.hold, 5) + 1), 5);
    var c := DropBits(b.(ncode := Low(b.hold, 4) + 4), 4);
    if c.nlen > 286 || c.ndist > 30 then c.(mode := BAD) else c.(have := 0, mode := LENLENS)
  }

  lemma FourteenBits(h: nat)
    ensures Low(h, 5) == Low(h, 14) % 32
    ensures Low(Shr(h, 5), 5) == Low(h, 14) / 32 % 32
    ensures Low(Shr(Shr(h, 5), 5), 4) == Low(h, 14) / 1024
    ensures Shr(Shr(Shr(h, 5), 5), 4) == Shr(h, 14)
  {
    hide Low, Shr, Pow2;
    Pow2Values();
    var x := Low(h, 14);
    LowLow(h, 5, 14);
    LowIsMod(x, 5);
    ShrLow(h, 5, 14);
    LowLow(Shr(h, 5), 5, 9);
    LowIsMod(Shr(x, 5), 5);
    ShrShr(h, 5, 5);
    ShrShr(x, 5, 5);
    ShrLow(h, 10, 14);
    LowIsMod(x, 10);
    assert Pow2(10) == 1024 by { ShlPow2(9, 1); assert Shl(512, 1) == 1024; }
    ShrShr(h, 10, 4);
  }

  /** The limits on the counts. */
  function TableTail(v: Vars): (r: Vars) {
    if v.nlen > 286 || v.ndist > 30 then v.(mode := BAD) else v.(have := 0, mode := LENLENS)
  }

  lemma TableCodeIs(v: Vars)
    requires v.bits >= 14
    ensures var h := Low(v.hold, 14);
            TableCode(v) == TableTail(DropBits(v, 14).(nlen := Hlit(h), ndist := Hdist(h), ncode := Hclen(h)))
  {
    hide Low, Shr;
    FourteenBits(v.hold);
  }

  lemma TableAbs(v: Vars, g: Trace, nlen: nat, ndist: nat, ncode: nat)
    requires v.mode == TABLE
    ensures Abs(TableTail(v.(nlen := nlen, ndist := ndist, ncode := ncode)), g) ==
            NewTable(Abs(v, g), nlen, ndist, ncode)
  {
    hide ToBits;
  }

  lemma TableStep(v: Vars, g: Trace)
    requires v.mode == TABLE && v.bits >= 14 && InBounds(v)
    ensures var r := TableCode(v);
            && Step(Abs(v, g)) == Some(Abs(r, g)) && InBounds(r) && r.bits == v.bits - 14
            && SameCall(v, r) && r.next == v.next && r.output == v.output && r.base == v.base && r.check == v.check
            && (r.mode == BAD || r.mode == LENLENS)
  {
    hide Low, Shr, Pow2, Step, Peek, Drop, Abs, TableCode, Hlit, Hdist, Hclen, NewTable;
    AbsMode(v, g);
    TableAt(Abs(v, g));
    AbsPeek(v, g, 14);
    TableCodeIs(v);
    var h := Low(v.hold, 14);
    TableAbs(DropBits(v, 14), g, Hlit(h), Hdist(h), Hclen(h));
  }

  lemma AbsMode(v: Vars, g: Trace)
    ensures Abs(v, g).mode == v.mode
  {
  }

  method DoTable(v: Vars, ghost g: Trace) returns (leave: bool, v': Vars)
    requires Valid(v, g) && v.mode == TABLE
    ensures Valid(v', g) && SameCall(v, v') && v'.output == v.output
    ensures leave ==> Paused(v', g)
    ensures !leave ==> Left(v') < Left(v)
  {
    hide Valid, Tracks, Tables, CheckOk, Quiet, Step, Abs, Paused, StateOk, Pow2, TableCode;
    Facts(v, g);
    if v.bits >= 14 {
      TableEnough(v, g);
    }
    var ok, w := NeedBits(v, 14, g);
    Pulled(v, g, w);
    if !ok {
      TableStuck(w, g);
      Suspend(w, g);
      return true, w;
    }
    v' := TableCode(w);
    TableStep(w, g);
    NoTables(v', g);
    Plain(v, g, w, v');
    return false, v';
  }

  lemma TableEnough(v: Vars, g: Trace)
    requires v.mode == TABLE && v.bits >= 14
    ensures Step(Abs(v, g)).Some?
  {
  }
}
