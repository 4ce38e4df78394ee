/** deflate.c: what deflate_slow makes of the matches that it finds, as a function of the
    searches. */
module LazyParse {
  import opened Bits
  import opened Matcher
  import T = Tokens

  const TOO_FAR: nat := 4096

  /** A search at the next string: what longest_match gave, and how much input there was and
      which strings were in the chains; or the end of the input, where a string that waits
      becomes a literal. */
  datatype Event = Look(len: nat, start: int, end: nat, ins: set<nat>) | Rest

  /** deflate_slow between two rounds: the next string, the match found at the one before, and
      whether that one waits; and all tokens so far. */
  datatype Cut = Cut(pos: nat, len: nat, start: int, waits: bool, tokens: seq<T.Token>)

  /** Short matches are dropped if they do not pay. */
  function Kept(c: Config, len: nat, dist: int): nat {
    if len <= 5 && (c.strategy == Z_FILTERED || (len == MIN_MATCH && dist > TOO_FAR)) then MIN_MATCH - 1 else len
  }

  /** The match before is taken if the one found now is no longer. */
  predicate Takes(s: Cut, c: Config, len: nat, start: int) {
    s.len >= MIN_MATCH && Kept(c, len, s.pos - start) <= s.len
  }

  /** The literal for the string that waits. */
  function Waiting(s: Cut, data: seq<Byte>): seq<T.Token> {
    if s.waits && 1 <= s.pos <= |data| then [T.Literal(data[s.pos - 1])] else []
  }

  function Turn(s: Cut, e: Event, data: seq<Byte>, c: Config): Cut {
    match e
    case Rest => s.(waits := false, tokens := s.tokens + Waiting(s, data))
    case Look(len, start, _, _) =>
      if Takes(s, c, len, start) && s.pos - 1 - s.start >= 0 then
        Cut(s.pos - 1 + s.len, MIN_MATCH - 1, s.start, false, s.tokens + [T.Match(s.pos - 1 - s.start, s.len)])
      else
        Cut(s.pos + 1, Kept(c, len, s.pos - start), start, true, s.tokens + Waiting(s, data))
  }

  function RunOf(events: seq<Event>, data: seq<Byte>, c: Config): Cut {
    if events == [] then Cut(0, MIN_MATCH - 1, 0, false, [])
    else Turn(RunOf(events[..|events| - 1], data, c), events[|events| - 1], data, c)
  }

  /** The string before is in the chains, and the one here begins by repeating it. */
  ghost predicate RunThere(data: seq<Byte>, ins: set<nat>, w: nat, pos: nat) {
    pos >= 2 && pos - 1 in ins && MatchAt(data, pos, pos - 1, MIN_MATCH, w)
  }

  /** A search misses no longer match that it had to see; with Z_RLE it sees runs only, and with
      Z_HUFFMAN_ONLY nothing. */
  ghost predicate SearchOk(data: seq<Byte>, ins: set<nat>, c: Config, w: nat, pos: nat, prev: nat, len: nat, start: int)
  {
    match c.strategy
    case Z_HUFFMAN_ONLY => len < MIN_MATCH
    case Z_RLE =>
      && (len >= MIN_MATCH && len > prev ==> start == pos - 1)
      && (RunThere(data, ins, w, pos) ==> len >= MIN_MATCH)
    case _ => NoneSeen(data, ins, c, w, pos, prev, len)
  }

  /** The search found a match that is one, and unless it was not made it missed no longer one
      that it had to see. */
  ghost predicate LookOk(data: seq<Byte>, ins: set<nat>, c: Config, w: nat, pos: nat, prev: nat, len: nat, start: int) {
    && FoundOk(data, w, pos, prev, len, start) && len <= MAX_MATCH
    && (if prev >= c.maxLazy then len < MIN_MATCH else SearchOk(data, ins, c, w, pos, prev, len, start))
  }

  ghost predicate EventOk(s: Cut, e: Event, data: seq<Byte>, c: Config, w: nat) {
    && s.pos <= |data| && (s.len >= MIN_MATCH ==> s.waits && 0 <= s.start < s.pos - 1)
    && (e.Look? ==> s.pos < e.end <= |data| && LookOk(data[..e.end], e.ins, c, w, s.pos, s.len, e.len, e.start))
  }

  ghost predicate AllOk(events: seq<Event>, data: seq<Byte>, c: Config, w: nat) {
    forall i :: 0 <= i < |events| ==> EventOk(RunOf(events[..i], data, c), events[i], data, c, w)
  }

  lemma OneMoreEvent(events: seq<Event>, e: Event, data: seq<Byte>, c: Config, w: nat)
    requires AllOk(events, data, c, w) && EventOk(RunOf(events, data, c), e, data, c, w)
    ensures AllOk(events + [e], data, c, w)
    ensures RunOf(events + [e], data, c) == Turn(RunOf(events, data, c), e, data, c)
  {
    hide EventOk, Turn;
    var all := events + [e];
    assert all[..|all| - 1] == events;
    forall i | 0 <= i < |all|
      ensures EventOk(RunOf(all[..i], data, c), all[i], data, c, w)
    {
      if i < |events| {
        assert all[..i] == events[..i];
      } else {
        assert all[..i] == events;
      }
    }
  }

  /** More input changes nothing of what is past. */
  lemma {:induction false} MoreInput(events: seq<Event>, data: seq<Byte>, more: seq<Byte>, c: Config, w: nat)
    requires AllOk(events, data, c, w)
    ensures AllOk(events, data + more, c, w) && RunOf(events, data + more, c) == RunOf(events, data, c)
    decreases |events|
  {
    hide EventOk, Turn;
    if events == [] {
    } else {
      var n := |events| - 1;
      var front := events[..n];
      assert forall i :: 0 <= i < n ==> front[..i] == events[..i];
      assert forall i :: 0 <= i < n ==> front[i] == events[i];
      MoreInput(front, data, more, c, w);
      SameEvent(RunOf(front, data, c), events[n], data, more, c, w);
      assert events == front + [events[n]];
      OneMoreEvent(front, events[n], data + more, c, w);
    }
  }

  lemma SameEvent(s: Cut, e: Event, data: seq<Byte>, more: seq<Byte>, c: Config, w: nat)
    requires EventOk(s, e, data, c, w)
    ensures EventOk(s, e, data + more, c, w) && Turn(s, e, data + more, c) == Turn(s, e, data, c)
  {
    hide LookOk;
    if e.Look? {
      assert (data + more)[..e.end] == data[..e.end];
    }
  }
}
