/** async.c: what a run of a connection was asked for, by the user and by the callbacks that
    fired, and what came of it. */
module AsyncTrace {
  import opened Bits
  import opened RespSpec
  import opened AsyncSpec

  /** A call into the connection, or a callback that was given NULL. */
  datatype Asked = Did(action: Action) | Stop

  function Dids(actions: seq<Action>): (r: seq<Asked>)
    ensures |r| == |actions| && forall i :: 0 <= i < |r| ==> r[i] == Did(actions[i])
  {
    seq(|actions|, i requires 0 <= i < |actions| => Did(actions[i]))
  }

  /** What the n-th callback to run did. */
  function Acts(f: Fired, n: nat, behave: Behaviour): (r: seq<Action>) {
    if f.cb.fn.Some? then behave(f.cb.fn.value, f.cb.privdata, f.reply, n) else []
  }

  function OfFired(f: Fired, n: nat, behave: Behaviour): (r: seq<Asked>) {
    (if f.reply.None? then [Stop] else []) + Dids(Acts(f, n, behave))
  }

  /** What the callbacks in the log asked for, those in front left out. */
  function FromLog(log: seq<Fired>, from: nat, behave: Behaviour): (r: seq<Asked>) {
    if from >= |log| then []
    else FromLog(log[..|log| - 1], from, behave) + OfFired(log[|log| - 1], |log|, behave)
  }

  function AskedBy(e: Event): (r: seq<Asked>) {
    if e.User? then [Did(e.action)] else []
  }

  const NEW: Conn := Conn([], [], [], [], false, false, 0, false)

  /** Everything a run was asked for, in order: the user's calls, and those of each callback when
      it fired. */
  ghost function AllAsked(events: seq<Event>, behave: Behaviour): (r: seq<Asked>)
    requires Runs(NEW, events, behave).Some?
  {
    if events == [] then []
    else
      var n := |events| - 1;
      var t, r := Runs(NEW, events[..n], behave).value, Runs(NEW, events, behave).value;
      if t.freed then AllAsked(events[..n], behave)
      else AllAsked(events[..n], behave) + (AskedBy(events[n]) + FromLog(r.log, |t.log|, behave))
  }

  /** Nothing but commands. */
  predicate Open(asks: seq<Asked>) {
    forall i :: 0 <= i < |asks| ==> asks[i].Did? && asks[i].action.Issue?
  }

  /** The commands in front of the first call that is none. */
  function Taken(asks: seq<Asked>): (r: seq<Callback>) {
    if asks == [] || !asks[0].Did? || !asks[0].action.Issue? then [] else [asks[0].action.cb] + Taken(asks[1..])
  }

  // ------------------------------------------------------------------- what is kept

  /** Commands have been accepted until the end was asked for; what was asked for is noted. */
  predicate Kept(s: Conn, asks: seq<Asked>) {
    && s.accepted == Taken(asks)
    && (!s.freed ==> && Stop !in asks && (s.disconnecting <==> Did(Disconnect) in asks)
                     && (s.freeing <==> Did(Free) in asks))
  }

  lemma {:induction false} TakenMore(asks: seq<Asked>, more: seq<Asked>)
    ensures Taken(asks + more) == Taken(asks) + if Open(asks) then Taken(more) else []
    decreases |asks|
  {
    if asks == [] {
      assert asks + more == more;
    } else {
      hide Open;
      assert (asks + more)[1..] == asks[1..] + more;
      TakenMore(asks[1..], more);
      OpenFirst(asks);
      if asks[0].Did? && asks[0].action.Issue? {
        Grouped([asks[0].action.cb], Taken(asks[1..]), if Open(asks) then Taken(more) else []);
      }
    }
  }

  lemma OpenFirst(asks: seq<Asked>)
    requires asks != []
    ensures Open(asks) <==> asks[0].Did? && asks[0].action.Issue? && Open(asks[1..])
  {
    if Open(asks[1..]) {
      assert forall i :: 0 < i < |asks| ==> asks[i] == asks[1..][i - 1];
    }
  }

  lemma TakenStop(asks: seq<Asked>, more: seq<Asked>)
    ensures Taken(asks + ([Stop] + more)) == Taken(asks)
  {
    TakenMore(asks, [Stop] + more);
  }

  lemma OpenIs(asks: seq<Asked>)
    ensures Open(asks) <==> Stop !in asks && Did(Disconnect) !in asks && Did(Free) !in asks
  {
    if Stop !in asks && Did(Disconnect) !in asks && Did(Free) !in asks {
      forall i | 0 <= i < |asks|
        ensures asks[i].Did? && asks[i].action.Issue?
      {
        assert asks[i] in asks;
      }
    }
  }

  lemma DoesKept(s: Conn, a: Action, asks: seq<Asked>)
    requires Kept(s, asks) && !s.freed
    ensures Kept(Does(s, a), asks + [Did(a)]) && !Does(s, a).freed
  {
    hide Taken, Open;
    TakenMore(asks, [Did(a)]);
    OpenIs(asks);
    TakenOne(Did(a));
  }

  lemma TakenOne(x: Asked)
    ensures Taken([x]) == if x.Did? && x.action.Issue? then [x.action.cb] else []
  {
    assert [x][1..] == [];
  }

  lemma {:induction false} DoesAllKept(s: Conn, actions: seq<Action>, asks: seq<Asked>)
    requires Kept(s, asks) && !s.freed
    ensures Kept(DoesAll(s, actions), asks + Dids(actions)) && !DoesAll(s, actions).freed
    decreases |actions|
  {
    hide Kept, Does;
    if actions == [] {
      assert asks + Dids(actions) == asks;
    } else {
      var n := |actions| - 1;
      DoesAllKept(s, actions[..n], asks);
      DoesKept(DoesAll(s, actions[..n]), actions[n], asks + Dids(actions[..n]));
      assert asks + Dids(actions[..n]) + [Did(actions[n])] == asks + Dids(actions);
    }
  }

  /** The log grows by one, and what it says of the new callback. */
  lemma FireLogs(s: Conn, reply: Option<Reply>, behave: Behaviour)
    requires Fair(s) && s.waiting != [] && (reply.Some? ==> |s.log| == |s.arrived|)
    ensures var r := Fire(s, reply, behave);
            && r.log == s.log + [Fired(s.waiting[0], reply)]
            && FromLog(r.log, |s.log|, behave) == OfFired(Fired(s.waiting[0], reply), |s.log| + 1, behave)
  {
    hide Fire, Fair, OfFired;
    FireKeeps(s, reply, behave);
    var r := Fire(s, reply, behave);
    assert r.log == s.log + [r.log[|s.log|]];
    assert r.log[..|s.log|] == s.log;
    var o := OfFired(Fired(s.waiting[0], reply), |s.log| + 1, behave);
    assert [] + o == o;
  }

  lemma FireKept(s: Conn, reply: Reply, behave: Behaviour, asks: seq<Asked>)
    requires Kept(s, asks) && Fair(s) && !s.freed && s.waiting != [] && |s.log| == |s.arrived|
    ensures var r := Fire(s, Some(reply), behave);
            Kept(r, asks + FromLog(r.log, |s.log|, behave)) && !r.freed
  {
    FireLogs(s, Some(reply), behave);
    hide FromLog, DoesAll, Fair, Taken;
    var cb := s.waiting[0];
    var t := s.(waiting := s.waiting[1..], log := s.log + [Fired(cb, Some(reply))],
                arrived := s.arrived + [reply]);
    var actions := Acts(Fired(cb, Some(reply)), |s.log| + 1, behave);
    assert OfFired(Fired(cb, Some(reply)), |s.log| + 1, behave) == Dids(actions);
    assert DoesAll(t, []) == t by {
      DoesNone(t);
    }
    DoesAllKept(t, actions, asks);
  }

  lemma DoesNone(t: Conn)
    ensures DoesAll(t, []) == t
  {
  }

  lemma {:induction false} FromLogSplit(log: seq<Fired>, a: nat, b: nat, behave: Behaviour)
    requires a <= b <= |log|
    ensures FromLog(log, a, behave) == FromLog(log[..b], a, behave) + FromLog(log, b, behave)
    decreases |log|
  {
    hide OfFired;
    if b == |log| {
      assert log[..b] == log;
    } else {
      var n := |log| - 1;
      FromLogSplit(log[..n], a, b, behave);
      assert log[..n][..b] == log[..b];
      Grouped(FromLog(log[..b], a, behave), FromLog(log[..n], b, behave), OfFired(log[n], |log|, behave));
    }
  }

  /** What callbacks that are given NULL ask for comes too late. */
  lemma {:induction false} DrainKept(s: Conn, behave: Behaviour, asks: seq<Asked>)
    requires Fair(s) && Closing(s) && s.accepted == Taken(asks)
    ensures var r := Drain(s, behave);
            s.log <= r.log && Kept(r, asks + FromLog(r.log, |s.log|, behave))
    decreases |s.waiting|
  {
    hide Fire, Fair, Taken, FromLog, OfFired;
    DrainKeeps(s, behave);
    if s.waiting == [] {
      NoneLogged(s.log, behave);
      assert asks + [] == asks;
    } else {
      var t := Fire(s, None, behave);
      FireKeeps(s, None, behave);
      FireLogs(s, None, behave);
      StopFirst(s.waiting[0], |s.log| + 1, behave, asks);
      DrainKept(t, behave, asks + FromLog(t.log, |s.log|, behave));
      LogJoin(s.log, t.log, Drain(s, behave).log, asks, behave);
    }
  }

  lemma NoneLogged(log: seq<Fired>, behave: Behaviour)
    ensures FromLog(log, |log|, behave) == []
  {
  }

  lemma LogJoin(a: seq<Fired>, b: seq<Fired>, c: seq<Fired>, asks: seq<Asked>, behave: Behaviour)
    requires a <= b <= c
    ensures asks + FromLog(b, |a|, behave) + FromLog(c, |b|, behave) == asks + FromLog(c, |a|, behave)
  {
    hide FromLog;
    assert c[..|b|] == b;
    FromLogSplit(c, |a|, |b|, behave);
  }

  lemma StopFirst(cb: Callback, n: nat, behave: Behaviour, asks: seq<Asked>)
    ensures Taken(asks + OfFired(Fired(cb, None), n, behave)) == Taken(asks)
  {
    hide Taken;
    TakenStop(asks, Dids(Acts(Fired(cb, None), n, behave)));
  }

  lemma BreakKept(s: Conn, behave: Behaviour, asks: seq<Asked>)
    requires Fair(s) && s.accepted == Taken(asks)
    ensures var r := Break(s, behave);
            s.log <= r.log && Kept(r, asks + FromLog(r.log, |s.log|, behave))
  {
    hide Drain, FromLog, Taken;
    DrainKept(s.(disconnecting := true), behave, asks);
  }

  lemma {:induction false} DeliverKept(s: Conn, incoming: seq<Reply>, behave: Behaviour, asks: seq<Asked>)
    requires Good(s) && !s.freed && Kept(s, asks) && Deliver(s, incoming, behave).Some?
    ensures var r := Deliver(s, incoming, behave).value;
            s.log <= r.log && Kept(r, asks + FromLog(r.log, |s.log|, behave))
    decreases |incoming|
  {
    hide Fire, Drain, Break, FromLog, Taken, Callbacks, InOrder;
    if incoming == [] {
      NoneLogged(s.log, behave);
      assert asks + [] == asks;
    } else if s.waiting == [] {
      BreakKept(s, behave, asks);
    } else {
      var t := Fire(s, Some(incoming[0]), behave);
      FireKeeps(s, Some(incoming[0]), behave);
      FireKept(s, incoming[0], behave, asks);
      var more := asks + FromLog(t.log, |s.log|, behave);
      if t.freeing {
        DrainKept(t, behave, more);
      } else {
        DeliverKept(t, incoming[1..], behave, more);
      }
      LogJoin(s.log, t.log, Deliver(s, incoming, behave).value.log, asks, behave);
    }
  }

  lemma UserKept(s: Conn, a: Action, behave: Behaviour, asks: seq<Asked>)
    requires Good(s) && !s.freed && Kept(s, asks)
    ensures var r := Next(s, User(a), behave).value;
            s.log <= r.log && Kept(r, asks + [Did(a)] + FromLog(r.log, |s.log|, behave))
  {
    hide Drain, FromLog, Taken, Callbacks, InOrder;
    DoesKept(s, a, asks);
    var t := Does(s, a);
    DoesKeeps(s, a);
    if a.Issue? || (a.Disconnect? && s.waiting != []) {
      NoneLogged(s.log, behave);
      assert asks + [Did(a)] + [] == asks + [Did(a)];
    } else {
      DrainKept(t, behave, asks + [Did(a)]);
    }
  }

  lemma NextKept(s: Conn, e: Event, behave: Behaviour, asks: seq<Asked>)
    requires Good(s) && !s.freed && Kept(s, asks) && Next(s, e, behave).Some?
    ensures var r := Next(s, e, behave).value;
            s.log <= r.log && Kept(r, asks + (AskedBy(e) + FromLog(r.log, |s.log|, behave)))
  {
    hide Drain, Break, FromLog, Taken, Callbacks, InOrder, Deliver;
    var r := Next(s, e, behave).value;
    match e
    case User(a) =>
      UserKept(s, a, behave, asks);
      assert asks + [Did(a)] + FromLog(r.log, |s.log|, behave) == asks + ([Did(a)] + FromLog(r.log, |s.log|, behave));
    case _ =>
      EventKept(s, e, behave, asks);
      assert AskedBy(e) + FromLog(r.log, |s.log|, behave) == FromLog(r.log, |s.log|, behave);
  }

  lemma EventKept(s: Conn, e: Event, behave: Behaviour, asks: seq<Asked>)
    requires Good(s) && !s.freed && Kept(s, asks) && Next(s, e, behave).Some? && !e.User?
    ensures var r := Next(s, e, behave).value;
            s.log <= r.log && Kept(r, asks + FromLog(r.log, |s.log|, behave))
  {
    hide Drain, Break, FromLog, Taken, Callbacks, InOrder, Deliver;
    match e
    case Readable(incoming, readOk, parseOk) =>
      if !readOk {
        BreakKept(s, behave, asks);
      } else {
        DeliverKept(s, incoming, behave, asks);
        DeliverKeeps(s, incoming, behave);
        var t := Deliver(s, incoming, behave).value;
        var more := asks + FromLog(t.log, |s.log|, behave);
        SettleKept(t, parseOk, behave, more);
        LogJoin(s.log, t.log, Settle(t, parseOk, behave).log, asks, behave);
      }
    case Writable(writeOk, done) =>
      if !writeOk {
        BreakKept(s, behave, asks);
      } else {
        NoneLogged(s.log, behave);
        assert asks + [] == asks;
      }
  }

  lemma SettleKept(s: Conn, ok: bool, behave: Behaviour, asks: seq<Asked>)
    requires Good(s) && Kept(s, asks)
    ensures var r := Settle(s, ok, behave); s.log <= r.log && Kept(r, asks + FromLog(r.log, |s.log|, behave))
  {
    hide Drain, Break, FromLog, Taken, Callbacks, InOrder;
    NoneLogged(s.log, behave);
    assert asks + [] == asks;
    if !s.freed {
      if !ok {
        BreakKept(s, behave, asks);
      } else if s.disconnecting && s.unsent == 0 && s.waiting == [] {
        DrainKept(s, behave, asks);
      }
    }
  }

  lemma NewIsGood()
    ensures Good(NEW) && Kept(NEW, [])
  {
  }

  /** Over any run the commands accepted are those asked for, by the user or by callbacks, in
      front of the first call that asks for the end and the first callback given NULL; and while
      the connection lives no callback has been given NULL and none has asked for it to be freed. */
  lemma {:induction false} AcceptedExactly(events: seq<Event>, behave: Behaviour)
    requires Runs(NEW, events, behave).Some?
    ensures var r, asks := Runs(NEW, events, behave).value, AllAsked(events, behave);
            && r.accepted == Taken(asks)
            && (!r.freed ==> Stop !in asks && Did(Free) !in asks && (r.disconnecting <==> Did(Disconnect) in asks))
            && Kept(r, asks) && Good(r)
    decreases |events|
  {
    hide Next, Good, FromLog, Taken;
    if events == [] {
      NewIsGood();
    } else {
      var n := |events| - 1;
      AcceptedExactly(events[..n], behave);
      var t := Runs(NEW, events[..n], behave).value;
      if !t.freed {
        NextKept(t, events[n], behave, AllAsked(events[..n], behave));
        NextKeeps(t, events[n], behave);
        NotFreeing(Runs(NEW, events, behave).value);
      }
    }
  }

  lemma NotFreeing(r: Conn)
    requires Good(r)
    ensures !r.freed ==> !r.freeing
  {
  }

  // --------------------------------------------------------------- when it ends

  /** How many commands had been accepted when everything was last written. */
  ghost function Written(events: seq<Event>, behave: Behaviour): (r: nat)
    requires Runs(NEW, events, behave).Some?
  {
    if events == [] then 0
    else
      var n := |events| - 1;
      var t := Runs(NEW, events[..n], behave).value;
      if !t.freed && events[n] == Writable(true, true) then |t.accepted| else Written(events[..n], behave)
  }

  /** unsent counts the commands accepted. */
  predicate Counts(s: Conn, t: Conn) {
    |t.accepted| - t.unsent == |s.accepted| - s.unsent
  }

  lemma {:induction false} DoesCounts(s: Conn, actions: seq<Action>)
    ensures Counts(s, DoesAll(s, actions))
    decreases |actions|
  {
    if actions == [] {
    } else {
      DoesCounts(s, actions[..|actions| - 1]);
    }
  }

  lemma FireCounts(s: Conn, reply: Option<Reply>, behave: Behaviour)
    requires s.waiting != []
    ensures Counts(s, Fire(s, reply, behave))
  {
    hide DoesAll;
    var cb := s.waiting[0];
    var t := s.(waiting := s.waiting[1..], log := s.log + [Fired(cb, reply)],
                arrived := s.arrived + if reply.Some? then [reply.value] else []);
    if cb.fn.Some? {
      DoesCounts(t, behave(cb.fn.value, cb.privdata, reply, |t.log|));
    }
  }

  lemma {:induction false} DrainCounts(s: Conn, behave: Behaviour)
    requires Closing(s)
    ensures Counts(s, Drain(s, behave))
    decreases |s.waiting|
  {
    hide Fire;
    if s.waiting == [] {
    } else {
      FireCounts(s, None, behave);
      DrainCounts(Fire(s, None, behave), behave);
    }
  }

  lemma {:induction false} DeliverCounts(s: Conn, incoming: seq<Reply>, behave: Behaviour)
    requires Deliver(s, incoming, behave).Some?
    ensures Counts(s, Deliver(s, incoming, behave).value)
    decreases |incoming|
  {
    hide Fire, Drain;
    if incoming == [] {
    } else if s.waiting == [] {
      DrainCounts(s.(disconnecting := true), behave);
    } else {
      var t := Fire(s, Some(incoming[0]), behave);
      FireCounts(s, Some(incoming[0]), behave);
      if t.freeing {
        DrainCounts(t, behave);
      } else {
        DeliverCounts(t, incoming[1..], behave);
      }
    }
  }

  lemma NextCounts(s: Conn, e: Event, behave: Behaviour)
    requires Next(s, e, behave).Some?
    ensures var r := Next(s, e, behave).value;
            if e == Writable(true, true) then r.unsent == 0 && r.accepted == s.accepted else Counts(s, r)
  {
    hide Drain, Deliver;
    match e
    case User(Issue(_)) =>
    case User(a) =>
      DrainCounts(s.(freeing := true), behave);
      DrainCounts(s.(disconnecting := true), behave);
    case Readable(incoming, readOk, _) =>
      DrainCounts(s.(disconnecting := true), behave);
      if readOk {
        DeliverCounts(s, incoming, behave);
        var t := Deliver(s, incoming, behave).value;
        DrainCounts(t.(disconnecting := true), behave);
        if Closing(t) {
          DrainCounts(t, behave);
        }
      }
    case Writable(_, _) =>
      DrainCounts(s.(disconnecting := true), behave);
  }

  lemma {:induction false} UnsentIs(events: seq<Event>, behave: Behaviour)
    requires Runs(NEW, events, behave).Some?
    ensures var r := Runs(NEW, events, behave).value; r.unsent == |r.accepted| - Written(events, behave)
    decreases |events|
  {
    hide Next;
    if events == [] {
    } else {
      var n := |events| - 1;
      UnsentIs(events[..n], behave);
      var t := Runs(NEW, events[..n], behave).value;
      if !t.freed {
        NextCounts(t, events[n], behave);
      }
    }
  }

  /** What ends a connection that lives: t is the state before the event, r that behind it, asks
      all that was asked for until then, written the number of commands that had been sent. */
  predicate MustEnd(t: Conn, e: Event, r: Conn, asks: seq<Asked>, written: nat) {
    match e
    case User(Issue(_)) => false
    case User(Disconnect) => |t.arrived| == |t.accepted|
    case User(Free) => true
    case Writable(writeOk, _) => !writeOk
    case Readable(incoming, readOk, parseOk) =>
      || !readOk || !parseOk || Did(Free) in asks
      || |r.arrived| < |t.arrived| + |incoming|
      || (Did(Disconnect) in asks && |r.arrived| == |r.accepted| == written)
  }

  /** A connection is freed by exactly these events.  In particular a disconnect that had to wait
      for replies happens behind the last of them, when nothing is left to be written. */
  lemma FreedExactly(events: seq<Event>, behave: Behaviour)
    requires events != [] && Runs(NEW, events, behave).Some?
    ensures var n := |events| - 1;
            && Runs(NEW, events[..n], behave).Some?
            && var t, r := Runs(NEW, events[..n], behave).value, Runs(NEW, events, behave).value;
            r.freed <==> t.freed || MustEnd(t, events[n], r, AllAsked(events, behave), Written(events, behave))
  {
    hide Good, Kept, FromLog, Deliver, Drain, Break, AllAsked, Settle, Written;
    var n := |events| - 1;
    AcceptedExactly(events[..n], behave);
    AcceptedExactly(events, behave);
    var t, r := Runs(NEW, events[..n], behave).value, Runs(NEW, events, behave).value;
    if !t.freed {
      Waits(t);
      if events[n].Readable? {
        AskedNext(events, behave);
        UnsentIs(events, behave);
        ReadEnds(t, events[n], r, AllAsked(events[..n], behave), Written(events, behave), behave);
      }
    }
  }

  lemma AskedNext(events: seq<Event>, behave: Behaviour)
    requires events != [] && events[|events| - 1].Readable? && Runs(NEW, events, behave).Some?
    requires var t := Runs(NEW, events[..|events| - 1], behave); t.Some? && !t.value.freed
    ensures var t, r := Runs(NEW, events[..|events| - 1], behave).value, Runs(NEW, events, behave).value;
            AllAsked(events, behave) == AllAsked(events[..|events| - 1], behave) + FromLog(r.log, |t.log|, behave)
  {
    hide FromLog, Runs;
    var t, r := Runs(NEW, events[..|events| - 1], behave).value, Runs(NEW, events, behave).value;
    var l := FromLog(r.log, |t.log|, behave);
    assert [] + l == l;
  }

  /** What waits has no reply yet. */
  lemma Waits(s: Conn)
    requires Good(s) && !s.freed
    ensures s.waiting == [] <==> |s.arrived| == |s.accepted|
    ensures |s.arrived| <= |s.accepted|
  {
  }

  /** Replies end a connection if one is surplus, or a callback asks for it. */
  lemma {:induction false} DeliverEnds(s: Conn, incoming: seq<Reply>, behave: Behaviour, asks: seq<Asked>)
    requires Good(s) && !s.freed && Kept(s, asks) && Deliver(s, incoming, behave).Some?
    ensures var r := Deliver(s, incoming, behave).value;
            r.freed ==> |r.arrived| < |s.arrived| + |incoming| || Did(Free) in asks + FromLog(r.log, |s.log|, behave)
    decreases |incoming|
  {
    hide Fire, Drain, Break, FromLog, Taken, Callbacks, InOrder;
    if incoming == [] {
    } else if s.waiting == [] {
      BreakKeeps(s, behave);
    } else {
      var t := Fire(s, Some(incoming[0]), behave);
      FireKeeps(s, Some(incoming[0]), behave);
      FireKept(s, incoming[0], behave, asks);
      var more := asks + FromLog(t.log, |s.log|, behave);
      var r := Deliver(s, incoming, behave).value;
      if t.freeing {
        DrainKept(t, behave, more);
        LogJoin(s.log, t.log, r.log, asks, behave);
        assert Did(Free) in more + FromLog(r.log, |t.log|, behave);
      } else {
        DeliverEnds(t, incoming[1..], behave, more);
        DeliverKept(t, incoming[1..], behave, more);
        LogJoin(s.log, t.log, r.log, asks, behave);
      }
    }
  }

  lemma ReadEnds(t: Conn, e: Event, r: Conn, asks: seq<Asked>, written: nat, behave: Behaviour)
    requires Good(t) && !t.freed && Kept(t, asks) && e.Readable? && Next(t, e, behave) == Some(r) && Good(r)
    requires !r.freed ==> Kept(r, asks + FromLog(r.log, |t.log|, behave))
    requires r.unsent == |r.accepted| - written
    ensures r.freed <==> MustEnd(t, e, r, asks + FromLog(r.log, |t.log|, behave), written)
  {
    hide Good, Deliver, Drain, Break, Taken, FromLog;
    NextKeeps(t, e, behave);
    if !r.freed {
      Waits(r);
      NotFreeing(r);
    } else if e.readOk && e.parseOk {
      DeliverKeeps(t, e.incoming, behave);
      DeliverKept(t, e.incoming, behave, asks);
      DeliverEnds(t, e.incoming, behave, asks);
      var d := Deliver(t, e.incoming, behave).value;
      if !d.freed {
        Waits(d);
        DrainNone(d, behave);
      }
    }
  }

  lemma DrainNone(d: Conn, behave: Behaviour)
    requires Closing(d) && d.waiting == []
    ensures Drain(d, behave) == d.(freed := true)
  {
  }
}
