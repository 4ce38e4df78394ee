/** deflate.c: whole runs of deflate, a call with Z_SYNC_FLUSH and one with Z_FINISH. */
module DeflateRuns {
  import opened Bits
  import opened Matcher
  import opened Lz77
  import opened LazyParse
  import opened BitWriter
  import opened BlockEncoder
  import opened TreeTables
  import opened StreamDecode
  import opened Deflate
  import opened DeflateBlocks
  import opened DeflateTrace
  import opened DeflateStream
  import opened ForcedParse
  import T = Tokens

  // ------------------------------------------------------------------ how much is sent

  /** Each token stands for a byte at least. */
  lemma {:induction false} TokensFew(ev: seq<Event>, data: seq<Byte>, c: Config, w: nat)
    requires AllOk(ev, data, c, w)
    ensures var s := RunOf(ev, data, c); |s.tokens| + (if s.waits then 1 else 0) <= s.pos
    decreases |ev|
  {
    hide LookOk;
    if ev == [] {
    } else {
      var n := |ev| - 1;
      FrontOk(ev, data, c, w, n);
      TokensFew(ev[..n], data, c, w);
      NextEvent(ev, n, data, c, w);
      assert ev[..n + 1] == ev;
    }
  }

  /** So full blocks are few. */
  lemma {:induction false} PacksFew(packs: seq<Pack>, m: nat)
    requires m <= |packs| && forall i :: m <= i < |packs| ==> |packs[i].tokens| >= 1
    ensures |packs| <= m + |PackTokens(packs)|
    decreases |packs|
  {
    if |packs| == m {
    } else {
      PacksFew(packs[..|packs| - 1], m);
    }
  }

  lemma FullPacks(ev0: seq<Event>, ev: seq<Event>, pk0: seq<Pack>, pk: seq<Pack>, ins0: set<nat>, from: nat, size: nat,
                  data: seq<Byte>, c: Config, all: bool)
    requires CallOk(ev0, ev, pk0, pk, ins0, from, size, data, c, all) && size >= 2
    ensures |pk| <= |pk0| + 1 + |PackTokens(pk)|
  {
    hide SawEnough;
    if |pk| > |pk0| {
      var front := pk[..|pk| - 1];
      assert forall i :: 0 <= i < |front| ==> front[i] == pk[i];
      PacksFew(front, |pk0|);
    }
  }

  /** Room enough for n bytes of input. */
  function Room(size: nat, n: nat): (r: nat) {
    4 * size * (2 * n + 8) + 8
  }

  lemma RoomIs(size: nat, blocks: nat, n: nat)
    requires blocks <= 2 * n + 8
    ensures 4 * size * blocks + 8 <= Room(size, n)
  {
    assert 4 * size * blocks <= 4 * size * (2 * n + 8) by {
      Multiples(4 * size, blocks, 2 * n + 8);
    }
  }

  /** What is known of a stream between two calls. */
  lemma StreamFacts(d: Deflater)
    requires d.Valid() && d.level > 3
    ensures d.Logged() && d.Spent() && Pos(d.z, d.g) <= |d.g.data| && d.enc.litBufsize >= 128
    ensures d.z.wSize == Pow2(d.wBits)
    ensures d.status == BusyState ==> SlowOk(d.enc, d.z, d.g, d.c.hashBits)
  {
    hide Encoder.Valid, MsbBits, ZlibHeader, AfterAll, BlocksOk, Check, LengthsOk, DistsOk, Writer.Sent, BytesToBits,
         TrailerBits, OutBits, MatcherOk, Stands, MatchAt, Pow2, Traced, PacksOk, Deflater.Head;
    Pow2Values();
    Pow2Mono(1, d.memLevel);
    if !d.trailed {
      d.Sizes();
    }
  }

  /** A stream that has not yet been given that much room cannot have filled it. */
  lemma NotFilled(d: Deflater, m: Mark, all: bool, full: bool, n: nat)
    requires d.Valid() && d.level > 3 && d.History(m, all, full) && |d.g.data| <= n
    requires |d.blocks| - |d.packs| <= 4 && |m.packs| <= n + 1
    ensures |d.output| < Room(d.enc.litBufsize, n)
    ensures |d.packs| <= |m.packs| + 1 + |d.g.data|
  {
    hide Deflater.Valid, PacksOk, RunOf, AllOk, CallOk, Room;
    StreamFacts(d);
    TokensFew(d.events, d.g.data, d.c, d.z.wSize);
    FullPacks(m.events, d.events, m.packs, d.packs, m.ins, m.pos, d.enc.litBufsize, d.g.data, d.c, all);
    RoomIs(d.enc.litBufsize, |d.blocks|, n);
  }

  // ---------------------------------------------------------------------- the first call

  /** All input so far has been sent, and nothing waits. */
  ghost predicate Synced(d: Deflater)
    reads d, d.enc, d.enc.w, d.enc.w.buf
  {
    && d.Valid() && d.level > 3 && Covered(d.z, d.g) && d.enc.w.count == 0 && d.enc.w.biValid == 0 && d.enc.tokens == []
    && d.status == BusyState
  }

  lemma SyncedFacts(d: Deflater)
    requires Synced(d)
    ensures Fresh(RunOf(d.events, d.g.data, d.c), |d.g.data|) && d.enc.w.Valid() && d.enc.w.Sent() == []
    ensures RunOf(d.events, d.g.data, d.c).tokens == PackTokens(d.packs)
  {
    hide Deflater.Valid, PacksOk, RunOf, AllOk, MatchAt, MatcherOk, LengthsOk, DistsOk, Overlay.Kept, T.TreePart;
    StreamFacts(d);
    assert PackTokens(d.packs) + [] == PackTokens(d.packs);
    assert T.Expand(d.g.data[..BlockPos(d.z, d.g)], []) == d.g.data[..BlockPos(d.z, d.g)];
  }

  /** A new stream is given its first input and asked to send all of it. */
  method FirstCall(d: Deflater, first: seq<Byte>)
    requires d.Valid() && d.level > 3 && d.status != FinishState && first != []
    requires d.g.data == [] && d.events == [] && d.packs == [] && d.blocks == [] && Pos(d.z, d.g) == 0
    modifies d, d.enc, d.enc.w, d.enc.w.buf
    ensures Synced(d) && d.g.data == first && |d.packs| <= |first| + 1 && |d.blocks| - |d.packs| <= 2
    ensures Passed(d.g, 0, |first|)
  {
    hide Deflater.Valid, Room, CallOk, RunOf;
    var ret, next := d.Deflate(first, Room(d.enc.litBufsize, |first|), Z_SYNC_FLUSH);
    assert first[..|first|] == first;
    NotFilled(d, old(d.MarkNow()), next == |first|, false, |first|);
  }

  // ---------------------------------------------------------------------- the last call

  /** The strings of the first a bytes are in ins. */
  ghost predicate Holds(ins: set<nat>, a: nat) {
    forall r :: 0 <= r && r + 3 <= a ==> r in ins
  }

  /** The history of a stream that was finished in a second call: from event n and block m
      on it is that of the second call, whose searches saw the strings in ins. */
  ghost predicate TwoCallLog(events: seq<Event>, packs: seq<Pack>, data: seq<Byte>, c: Config, size: nat, w: nat,
                             a: nat, n: nat, m: nat, ins: set<nat>)
  {
    && n < |events| && m < |packs| && a <= |data| && AllOk(events, data, c, w) && Holds(ins, a)
    && Fresh(RunOf(events[..n], data, c), a) && GoodEvents(events, n, |events| - 1, data, c, ins, a)
    && events[|events| - 1].Rest? && RunOf(events, data, c).pos == |data|
    && RunOf(events, data, c).tokens == PackTokens(packs)
    && RunOf(events[..n], data, c).tokens == PackTokens(packs[..m])
    && packs[m].sent == [] && (m == |packs| - 1 || |packs[m].tokens| + 1 == size)
  }

  lemma FinishedFacts(d: Deflater)
    requires d.Valid() && d.level > 3 && d.Complete()
    ensures d.Logged() && d.Rested() && d.enc.tokens == [] && Covered(d.z, d.g)
  {
    hide Encoder.Valid, Deflater.Sound, Deflater.InLoop, Deflater.Ended, Deflater.Logged, Deflater.Head;
  }

  /** The searches of a call that has read all its input saw enough. */
  lemma CallIsGood(ev0: seq<Event>, ev: seq<Event>, pk0: seq<Pack>, pk: seq<Pack>, ins0: set<nat>, from: nat, size: nat,
                   data: seq<Byte>, c: Config, w: nat)
    requires CallOk(ev0, ev, pk0, pk, ins0, from, size, data, c, true) && AllOk(ev, data, c, w)
    requires |ev0| < |ev| && ev[|ev| - 1].Rest?
    ensures GoodEvents(ev, |ev0|, |ev| - 1, data, c, ins0, from)
  {
    hide RunOf, LookOk;
    forall i | |ev0| <= i < |ev| - 1
      ensures GoodEvent(ev, i, data, c, ins0, from)
    {
      assert SawEnough(ev, i, ins0, from, data, c, true);
      NextEvent(ev, i, data, c, w);
    }
  }

  lemma CallParts(ev0: seq<Event>, ev: seq<Event>, pk0: seq<Pack>, pk: seq<Pack>, ins0: set<nat>, from: nat, size: nat,
                  data: seq<Byte>, c: Config, all: bool)
    requires CallOk(ev0, ev, pk0, pk, ins0, from, size, data, c, all)
    ensures ev0 <= ev && pk0 <= pk && ev[..|ev0|] == ev0 && pk[..|pk0|] == pk0
    ensures |pk0| < |pk| ==> |pk0| == |pk| - 1 || |pk[|pk0|].tokens| + 1 == size
  {
    hide SawEnough;
  }

  /** What the second call adds, put together with what the first left. */
  lemma LogOfCalls(events: seq<Event>, packs: seq<Pack>, first: seq<Byte>, second: seq<Byte>, c: Config, size: nat,
                   w: nat, ev0: seq<Event>, pk0: seq<Pack>, ins: set<nat>, w0: nat)
    requires CallOk(ev0, events, pk0, packs, ins, |first|, size, first + second, c, true) && AllOk(ev0, first, c, w0)
    requires Fresh(RunOf(ev0, first, c), |first|) && RunOf(ev0, first, c).tokens == PackTokens(pk0)
    requires AllOk(events, first + second, c, w) && RunOf(events, first + second, c).pos == |first + second|
    requires RunOf(events, first + second, c).tokens == PackTokens(packs)
    requires events != [] && events[|events| - 1].Rest? && second != []
    requires |pk0| < |packs| && packs[|pk0|].sent == [] && Holds(ins, |first|)
    ensures TwoCallLog(events, packs, first + second, c, size, w, |first|, |ev0|, |pk0|, ins)
  {
    hide AllOk, RunOf, CallOk, PackTokens, GoodEvents, Holds;
    MoreInput(ev0, first, second, c, w0);
    CallParts(ev0, events, pk0, packs, ins, |first|, size, first + second, c, true);
    assert |ev0| == |events| ==> events == ev0;
    CallIsGood(ev0, events, pk0, packs, ins, |first|, size, first + second, c, w);
  }

  /** The rest of the input, and all that there is to send. */
  method LastCall(d: Deflater, first: seq<Byte>, second: seq<Byte>)
    requires Synced(d) && d.g.data == first && second != []
    requires |d.packs| <= |first| + 1 && |d.blocks| - |d.packs| <= 2 && Passed(d.g, 0, |first|)
    modifies d, d.enc, d.enc.w, d.enc.w.buf
    ensures d.Valid() && d.Complete() && d.g.data == first + second
    ensures TwoCallLog(d.events, d.packs, d.g.data, d.c, d.enc.litBufsize, d.z.wSize, |first|, old(|d.events|),
                       old(|d.packs|), old(d.g.ins))
  {
    hide Deflater.Valid, Deflater.Complete, Room, CallOk, RunOf, AllOk, TwoCallLog, Fresh, PacksOk;
    SyncedFacts(d);
    StreamFacts(d);
    ghost var was, w := d.MarkNow(), d.z.wSize;
    var ret, next := d.Deflate(second, Room(d.enc.litBufsize, |first| + |second|), Z_FINISH);
    NotFilled(d, was, next == |second|, false, |first| + |second|);
    assert second[..|second|] == second;
    FinishedFacts(d);
    assert PackTokens(d.packs) + [] == PackTokens(d.packs);
    LogOfCalls(d.events, d.packs, first, second, d.c, d.enc.litBufsize, d.z.wSize, was.events, was.packs, was.ins, w);
  }

  /** Two calls. */
  method TwoCalls(d: Deflater, first: seq<Byte>, second: seq<Byte>)
    returns (ghost n: nat, ghost m: nat, ghost ins: set<nat>)
    requires d.Valid() && d.level > 3 && d.status != FinishState && first != [] && second != []
    requires d.g.data == [] && d.events == [] && d.packs == [] && d.blocks == [] && Pos(d.z, d.g) == 0
    modifies d, d.enc, d.enc.w, d.enc.w.buf
    ensures d.Valid() && d.Complete() && d.g.data == first + second
    ensures TwoCallLog(d.events, d.packs, d.g.data, d.c, d.enc.litBufsize, d.z.wSize, |first|, n, m, ins)
  {
    hide Deflater.Valid, Deflater.Complete, Room, CallOk, RunOf, Synced, GoodEvents, AllOk;
    FirstCall(d, first);
    SyncedFacts(d);
    n, m, ins := |d.events|, |d.packs|, d.g.ins;
    LastCall(d, first, second);
  }

  // ------------------------------------------------------------------------ its first block

  lemma {:induction false} FrontTokens(packs: seq<Pack>, k: nat)
    requires k <= |packs|
    ensures PackTokens(packs[..k]) <= PackTokens(packs)
    decreases |packs|
  {
    if k == |packs| {
      assert packs[..k] == packs;
    } else {
      var front := packs[..|packs| - 1];
      FrontTokens(front, k);
      assert front[..k] == packs[..k];
    }
  }

  /** If the second call has just as many tokens as a block holds, its first block has them all. */
  lemma FirstBlock(packs: seq<Pack>, m: nat, size: nat, plan: seq<T.Token>)
    requires m < |packs| && (m == |packs| - 1 || |packs[m].tokens| + 1 == size) && |plan| + 1 == size
    requires PackTokens(packs) == PackTokens(packs[..m]) + plan
    ensures packs[m].tokens == plan
  {
    var was, now := PackTokens(packs[..m]), packs[m].tokens;
    assert packs[..m + 1] == packs[..m] + [packs[m]];
    OneMorePack(packs[..m], packs[m]);
    FrontTokens(packs, m + 1);
    if m == |packs| - 1 {
      assert packs[..m + 1] == packs;
      assert (was + now)[|was|..] == now && (was + plan)[|was|..] == plan;
    } else {
      var all := PackTokens(packs);
      assert (was + now) == all[..|was + now|];
      assert now == all[|was|..|was| + |now|] == plan[..|now|];
    }
  }

  /** On an input that leaves deflate_slow no choice, the first block of the second call is known. */
  lemma ForcedBlock(events: seq<Event>, packs: seq<Pack>, data: seq<Byte>, c: Config, size: nat, w: nat, a: nat, n: nat,
                    m: nat, ins: set<nat>, pieces: seq<Piece>, b: nat)
    requires TwoCallLog(events, packs, data, c, size, w, a, n, m, ins)
    requires SlowConfig(c) && ForcedRow(data, c, w, pieces) && pieces != [] && NoneAlike(data, b, w)
    requires pieces[0].p == a && var x := pieces[|pieces| - 1]; b == x.p + x.n <= |data|
    requires forall i :: 0 <= i < |pieces| ==> Known(ins, a, pieces[i])
    requires |pieces| + (|data| - b) + 1 == size
    ensures forall i :: 0 <= i < |pieces| ==> pieces[i].q < pieces[i].p
    ensures packs[m].tokens == TokensOf(pieces) + LiteralsOf(data[b..])
  {
    hide AllOk, RunOf, ForcedRow, NoneAlike, GoodEvents, PackTokens, TokensOf, LiteralsOf, Known;
    KnownPieces(ins, a, pieces);
    WholeRun(events, n, data, c, w, ins, a, pieces, b);
    var t, u := TokensOf(pieces), LiteralsOf(data[b..]);
    assert PackTokens(packs[..m]) + t + u == PackTokens(packs[..m]) + (t + u);
    FirstBlock(packs, m, size, t + u);
  }

  lemma KnownPieces(ins: set<nat>, from: nat, pieces: seq<Piece>)
    requires forall i :: 0 <= i < |pieces| ==> Known(ins, from, pieces[i])
    ensures forall i :: 0 <= i < |pieces| ==> pieces[i].q < pieces[i].p
  {
    forall i | 0 <= i < |pieces|
      ensures pieces[i].q < pieces[i].p
    {
      assert Known(ins, from, pieces[i]);
    }
  }

  lemma OneLost(t: Tables, size: nat, fixed: bool, reach: int, packs: seq<Pack>, clean: bool, m: nat)
    requires PacksOk(t, size, fixed, reach, packs, clean) && m < |packs| && !PackClear(t, size, packs[m])
    ensures !clean
  {
    hide PackOk, PackClear;
  }
}
