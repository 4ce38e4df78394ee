/** deflate.c: the history of a stream, its searches and its blocks. */
module DeflateTrace {
  import opened Bits
  import opened Matcher
  import opened LazyParse
  import opened Deflate
  import opened DeflateBlocks
  import opened TreeTables
  import opened BlockEncoder
  import T = Tokens

  // ----------------------------------------------------------------------- the blocks

  /** All tokens of the blocks flushed so far. */
  ghost function PackTokens(packs: seq<Pack>): seq<T.Token> {
    if packs == [] then [] else PackTokens(packs[..|packs| - 1]) + packs[|packs| - 1].tokens
  }

  lemma OneMorePack(packs: seq<Pack>, p: Pack)
    ensures PackTokens(packs + [p]) == PackTokens(packs) + p.tokens
  {
    assert (packs + [p])[..|packs|] == packs;
  }

  /** The blocks that were flushed, and that clean says whether all of them were clear. */
  ghost predicate PacksOk(t: Tables, size: nat, fixed: bool, reach: int, packs: seq<Pack>, clean: bool) {
    && (forall i :: 0 <= i < |packs| ==> PackOk(t, fixed, reach, packs[i]) && |packs[i].tokens| < size)
    && (clean <==> forall i :: 0 <= i < |packs| ==> PackClear(t, size, packs[i]))
  }

  lemma PacksMore(t: Tables, size: nat, fixed: bool, reach: int, packs: seq<Pack>, clean: bool, p: Pack, clean': bool)
    requires PacksOk(t, size, fixed, reach, packs, clean) && PackOk(t, fixed, reach, p) && |p.tokens| < size
    requires clean' == (clean && PackClear(t, size, p))
    ensures PacksOk(t, size, fixed, reach, packs + [p], clean')
  {
    hide PackOk, PackClear;
    var all := packs + [p];
    assert forall i :: 0 <= i < |packs| ==> all[i] == packs[i];
    assert all[|packs|] == p;
  }

  // --------------------------------------------------------------------- the searches

  /** The searches lead to where deflate_slow is, and to the tokens there are. */
  ghost predicate Traced(events: seq<Event>, z: Lz, g: Past, c: Config, tokens: seq<T.Token>) {
    && AllOk(events, g.data, c, z.wSize)
    && var s := RunOf(events, g.data, c);
       && s.pos == Pos(z, g) && s.len == z.matchLength && s.waits == z.matchAvailable && s.tokens == tokens
       && (s.len >= MIN_MATCH ==> s.start == g.base + z.matchStart)
  }

  /** A round: r is where it ends, at once or after it moved on. */
  lemma TraceRound(events: seq<Event>, e: Event, z: Lz, g: Past, c: Config, r: Lz, k: Past, waits: bool,
                   was: seq<T.Token>, now: seq<T.Token>, before: seq<T.Token>, end: Lz)
    requires Traced(events, z, g, c, before + was) && Pos(z, g) < |g.data|
    requires 1 <= Pos(z, g) <= |g.data| || !z.matchAvailable
    requires z.matchLength >= MIN_MATCH ==> z.matchAvailable && 0 <= g.base + z.matchStart < Pos(z, g) - 1
    requires RoundIs(z, g, c, e, r, waits, was, now) && e.end == |g.data|
    requires LookOk(g.data, e.ins, c, z.wSize, Pos(z, g), z.matchLength, e.len, e.start)
    requires k.data == g.data && k.base == g.base && end.wSize == z.wSize
    requires end == if waits then r.(strstart := end.strstart, lookahead := end.lookahead, matchAvailable := true,
                                     blockStart := end.blockStart)
                    else r
    requires waits ==> end.strstart == r.strstart + 1
    ensures Traced(events + [e], end, k, c, before + now)
  {
    hide LookOk, AllOk, RunOf;
    assert g.data[..|g.data|] == g.data;
    var s := RunOf(events, g.data, c);
    OneMoreEvent(events, e, g.data, c, z.wSize);
    assert before + now == s.tokens + now[|was|..];
  }

  /** More input, and perhaps a window that has moved. */
  lemma TraceFill(events: seq<Event>, z: Lz, g: Past, c: Config, tokens: seq<T.Token>, r: Lz, k: Past, more: seq<Byte>)
    requires Traced(events, z, g, c, tokens) && k.data == g.data + more && SameStrings(z, r, k.base - g.base)
    ensures Traced(events, r, k, c, tokens)
  {
    hide AllOk, RunOf;
    MoreInput(events, g.data, more, c, z.wSize);
  }

  /** Nothing that the trace speaks of changes. */
  lemma TraceSame(events: seq<Event>, z: Lz, g: Past, c: Config, tokens: seq<T.Token>, r: Lz, k: Past)
    requires Traced(events, z, g, c, tokens) && k.data == g.data && k.base == g.base
    requires r.wSize == z.wSize && r.strstart == z.strstart && r.matchLength == z.matchLength
             && r.matchStart == z.matchStart && r.matchAvailable == z.matchAvailable
    ensures Traced(events, r, k, c, tokens)
  {
    hide AllOk, RunOf;
  }

  /** The string that waits becomes a literal at the end. */
  lemma TraceRest(events: seq<Event>, z: Lz, g: Past, c: Config, tokens: seq<T.Token>)
    requires Traced(events, z, g, c, tokens) && Pos(z, g) <= |g.data| && z.matchLength < MIN_MATCH
    requires z.matchAvailable ==> Pos(z, g) >= 1
    ensures Traced(events + [Rest], z.(matchAvailable := false), g, c,
                   tokens + if z.matchAvailable then [T.Literal(g.data[Pos(z, g) - 1])] else [])
  {
    hide AllOk, RunOf;
    OneMoreEvent(events, Rest, g.data, c, z.wSize);
  }

  // ------------------------------------------------------------------------- one call

  /** What a call of deflate_slow adds to the history.  Each search saw enough input, or all
      there is, all that was in the chains before the call, and the strings since; what waits is put out only at
      the very end; and each block but the last was full. */
  ghost predicate CallOk(ev0: seq<Event>, ev: seq<Event>, pk0: seq<Pack>, pk: seq<Pack>, ins0: set<nat>, from: nat,
                         size: nat,
                         data: seq<Byte>, c: Config, all: bool)
  {
    && ev0 <= ev && pk0 <= pk
    && (forall i :: |ev0| <= i < |ev| ==> SawEnough(ev, i, ins0, from, data, c, all))
    && (forall i :: |ev0| <= i < |ev| && ev[i].Rest? ==> i == |ev| - 1)
    && (forall i :: |pk0| <= i < |pk| - 1 ==> |pk[i].tokens| + 1 == size)
  }

  /** The strings from one position to another were in the chains. */
  ghost predicate SawBetween(e: Event, from: nat, to: nat)
    requires e.Look?
  {
    forall r :: from <= r < to && r + 3 <= e.end ==> r in e.ins
  }

  ghost predicate SawEnough(ev: seq<Event>, i: nat, ins0: set<nat>, from: nat, data: seq<Byte>, c: Config, all: bool)
    requires i < |ev|
  {
    ev[i].Look? ==>
      && ins0 <= ev[i].ins && SawBetween(ev[i], from, RunOf(ev[..i], data, c).pos)
      && (ev[i].end >= RunOf(ev[..i], data, c).pos + MIN_LOOKAHEAD || (all && ev[i].end == |data|))
  }

  /** More input, unless all had been read. */
  lemma CallFill(ev0: seq<Event>, ev: seq<Event>, pk0: seq<Pack>, pk: seq<Pack>, ins0: set<nat>, from: nat, size: nat,
                 data: seq<Byte>, more: seq<Byte>, c: Config, w: nat, all: bool, all': bool)
    requires CallOk(ev0, ev, pk0, pk, ins0, from, size, data, c, all) && (all ==> all' && more == [])
    requires AllOk(ev, data, c, w)
    ensures CallOk(ev0, ev, pk0, pk, ins0, from, size, data + more, c, all')
  {
    hide AllOk, RunOf;
    forall i | |ev0| <= i < |ev|
      ensures SawEnough(ev, i, ins0, from, data + more, c, all')
    {
      assert SawEnough(ev, i, ins0, from, data, c, all);
      FrontOk(ev, data, c, w, i);
      MoreInput(ev[..i], data, more, c, w);
      assert all ==> data + more == data;
    }
  }

  lemma FrontOk(ev: seq<Event>, data: seq<Byte>, c: Config, w: nat, i: nat)
    requires AllOk(ev, data, c, w) && i <= |ev|
    ensures AllOk(ev[..i], data, c, w)
  {
    hide EventOk, RunOf;
    assert forall j :: 0 <= j < i ==> ev[..i][..j] == ev[..j] && ev[..i][j] == ev[j];
  }

  /** One more search. */
  lemma CallMore(ev0: seq<Event>, ev: seq<Event>, e: Event, pk0: seq<Pack>, pk: seq<Pack>, ins0: set<nat>,
                 from: nat, size: nat, data: seq<Byte>, c: Config, all: bool)
    requires CallOk(ev0, ev, pk0, pk, ins0, from, size, data, c, all) && e.Look? && ins0 <= e.ins
    requires SawBetween(e, from, RunOf(ev, data, c).pos)
    requires e.end >= RunOf(ev, data, c).pos + MIN_LOOKAHEAD || (all && e.end == |data|)
    requires forall i :: |ev0| <= i < |ev| ==> ev[i].Look?
    ensures CallOk(ev0, ev + [e], pk0, pk, ins0, from, size, data, c, all)
    ensures forall i :: |ev0| <= i < |ev + [e]| ==> (ev + [e])[i].Look?
  {
    hide RunOf;
    var now := ev + [e];
    forall i | |ev0| <= i < |now|
      ensures SawEnough(now, i, ins0, from, data, c, all)
    {
      if i < |ev| {
        assert SawEnough(ev, i, ins0, from, data, c, all);
        assert now[..i] == ev[..i];
      } else {
        assert now[..i] == ev;
      }
    }
  }

  lemma CallRest(ev0: seq<Event>, ev: seq<Event>, pk0: seq<Pack>, pk: seq<Pack>, ins0: set<nat>,
                 from: nat, size: nat, data: seq<Byte>, c: Config, all: bool)
    requires CallOk(ev0, ev, pk0, pk, ins0, from, size, data, c, all)
    requires forall i :: |ev0| <= i < |ev| ==> ev[i].Look?
    ensures CallOk(ev0, ev + [Rest], pk0, pk, ins0, from, size, data, c, all)
  {
    hide RunOf;
    var now := ev + [Rest];
    forall i | |ev0| <= i < |now|
      ensures SawEnough(now, i, ins0, from, data, c, all)
    {
      if i < |ev| {
        assert SawEnough(ev, i, ins0, from, data, c, all);
        assert now[..i] == ev[..i];
      }
    }
  }

  /** One more block, after full ones. */
  lemma CallPack(ev0: seq<Event>, ev: seq<Event>, pk0: seq<Pack>, pk: seq<Pack>, p: Pack, ins0: set<nat>,
                 from: nat, size: nat, data: seq<Byte>, c: Config, all: bool)
    requires CallOk(ev0, ev, pk0, pk, ins0, from, size, data, c, all)
    requires forall i :: |pk0| <= i < |pk| ==> |pk[i].tokens| + 1 == size
    ensures CallOk(ev0, ev, pk0, pk + [p], ins0, from, size, data, c, all)
  {
    hide SawEnough;
  }

  /** The history at the start of a call, and how many blocks were not made of tokens. */
  datatype Mark = Mark(events: seq<Event>, packs: seq<Pack>, ins: set<nat>, sent: seq<bool>, pos: nat, extra: int)

  /** What deflate_slow has added to the history since then; n is the number of blocks, and all
      says that it has read all its input. */
  ghost predicate Since(m: Mark, z: Lz, g: Past, events: seq<Event>, packs: seq<Pack>, n: nat, size: nat, c: Config,
                        all: bool)
  {
    && CallOk(m.events, events, m.packs, packs, m.ins, m.pos, size, g.data, c, all)
    && (|m.packs| < |packs| ==> packs[|m.packs|].sent == m.sent)
    && n - |packs| == m.extra
    && m.ins <= g.ins && m.pos <= Pos(z, g) && Passed(g, m.pos, Pos(z, g))
  }

  /** Until the first block nothing is sent. */
  ghost predicate Still(m: Mark, packs: seq<Pack>, sent: seq<bool>) {
    packs == m.packs ==> sent == m.sent
  }

  /** All blocks since then were full. */
  ghost predicate AllFull(m: Mark, packs: seq<Pack>, size: nat) {
    forall i :: |m.packs| <= i < |packs| ==> |packs[i].tokens| + 1 == size
  }

  /** Inside the loop: nothing has yet been put out because the input ended. */
  ghost predicate Running(m: Mark, z: Lz, g: Past, events: seq<Event>, packs: seq<Pack>, n: nat, size: nat, c: Config,
                          all: bool)
  {
    && Since(m, z, g, events, packs, n, size, c, all) && AllFull(m, packs, size)
    && (forall i :: |m.events| <= i < |events| ==> events[i].Look?)
    && (all || Pos(z, g) == m.pos || z.lookahead >= MIN_MATCH)
  }

  lemma BeginCall(m: Mark, z: Lz, g: Past, events: seq<Event>, packs: seq<Pack>, n: nat, size: nat, c: Config,
                  all: bool)
    requires m.events == events && m.packs == packs && m.ins == g.ins && m.pos == Pos(z, g) && m.extra == n - |packs|
    ensures Running(m, z, g, events, packs, n, size, c, all)
  {
    hide RunOf;
  }

  /** Reading more adds nothing. */
  lemma FillSince(m: Mark, z: Lz, g: Past, r: Lz, k: Past, more: seq<Byte>, events: seq<Event>, packs: seq<Pack>,
                  n: nat,
                  size: nat, c: Config, tokens: seq<T.Token>, all: bool, all': bool)
    requires Running(m, z, g, events, packs, n, size, c, all) && Traced(events, z, g, c, tokens)
    requires k.data == g.data + more && k.ins == g.ins && SameStrings(z, r, k.base - g.base)
    requires (all ==> all' && more == []) && |g.data| == Pos(z, g) + z.lookahead
    ensures Running(m, r, k, events, packs, n, size, c, all')
  {
    hide AllOk, RunOf, SawEnough;
    CallFill(m.events, events, m.packs, packs, m.ins, m.pos, size, g.data, more, c, z.wSize, all, all');
  }

  /** One block more of tokens. */
  ghost predicate PackAdded(was: seq<Pack>, now: seq<Pack>, tokens: seq<T.Token>, sent: seq<bool>) {
    |now| == |was| + 1 && now == was + [now[|was|]] && now[|was|].tokens == tokens && now[|was|].sent == sent
  }

  /** A block that is flushed. */
  lemma PackSince(m: Mark, z: Lz, g: Past, r: Lz, events: seq<Event>, packs: seq<Pack>, now: seq<Pack>, n: nat,
                  size: nat,
                  c: Config, tokens: seq<T.Token>, sent: seq<bool>, all: bool)
    requires Since(m, z, g, events, packs, n, size, c, all) && AllFull(m, packs, size) && Still(m, packs, sent)
    requires PackAdded(packs, now, tokens, sent) && r.strstart == z.strstart && r.lookahead == z.lookahead
    ensures Since(m, r, g, events, now, n + 1, size, c, all) && |now| > |m.packs|
    ensures |tokens| + 1 == size ==> AllFull(m, now, size)
    ensures |tokens| + 1 == size && Running(m, z, g, events, packs, n, size, c, all) ==>
              Running(m, r, g, events, now, n + 1, size, c, all)
  {
    hide SawEnough, Passed;
    CallPack(m.events, events, m.packs, packs, now[|packs|], m.ins, m.pos, size, g.data, c, all);
  }

  /** A round of deflate_slow, with the block that it may have flushed. */
  lemma RoundSince(m: Mark, z: Lz, g: Past, r: Lz, k: Past, events: seq<Event>, e: Event, packs: seq<Pack>,
                   now: seq<Pack>,
                   n: nat, n': nat, size: nat, c: Config, tokens: seq<T.Token>, added: seq<T.Token>, sent: seq<bool>,
                   sent': seq<bool>, all: bool)
    requires Running(m, z, g, events, packs, n, size, c, all) && Still(m, packs, sent)
    requires Traced(events, z, g, c, tokens) && e.Look?
    requires k.data == g.data && e.end == |g.data| && g.ins <= e.ins && g.ins <= k.ins
    requires Pos(z, g) <= Pos(r, k) && Passed(k, Pos(z, g), Pos(r, k)) && (all || r.lookahead >= MIN_MATCH)
    requires |g.data| >= Pos(z, g) + MIN_LOOKAHEAD || all
    requires if now == packs then sent' == sent && n' == n
             else PackAdded(packs, now, added, sent) && n' == n + 1 && |added| + 1 == size
    ensures Running(m, r, k, events + [e], now, n', size, c, all) && Still(m, now, sent')
    ensures now != packs ==> |now| > |m.packs|
  {
    hide SawEnough, AllOk, RunOf;
    CallMore(m.events, events, e, m.packs, packs, m.ins, m.pos, size, g.data, c, all);
    if now != packs {
      CallPack(m.events, events + [e], m.packs, packs, now[|packs|], m.ins, m.pos, size, g.data, c, all);
    }
  }

  /** What waits is put out at the end. */
  lemma RestSince(m: Mark, z: Lz, g: Past, r: Lz, events: seq<Event>, packs: seq<Pack>, n: nat, size: nat, c: Config,
                  all: bool)
    requires Running(m, z, g, events, packs, n, size, c, all) && r.strstart == z.strstart
    ensures Since(m, r, g, events + [Rest], packs, n, size, c, all) && AllFull(m, packs, size)
  {
    hide SawEnough, RunOf;
    CallRest(m.events, events, m.packs, packs, m.ins, m.pos, size, g.data, c, all);
  }
}
