/** async.c: an asynchronous connection on values, as a machine that events drive.

    Callbacks are the user's code: what each does is an arbitrary list of calls back
    into the connection.  Subscriptions and MONITOR are not modelled. */
module AsyncSpec {
  import opened RespSpec

  /** A callback function, which may be NULL, with its private data. */
  datatype Callback = Callback(fn: Option<nat>, privdata: nat)

  /** What the user may do. */
  datatype Action = Issue(cb: Callback) | Disconnect | Free

  /** What the event loop may report. */
  datatype Event =
    | User(action: Action)
    | Readable(incoming: seq<Reply>, readOk: bool, parseOk: bool)
    | Writable(writeOk: bool, done: bool)

  /** A callback with the reply it was given, NULL at the end of the connection. */
  datatype Fired = Fired(cb: Callback, reply: Option<Reply>)

  /** What the callback with this function and this data does, when it is the n-th to run. */
  type Behaviour = (nat, nat, Option<Reply>, nat) -> seq<Action>

  /** The connection: the callbacks that wait, those of all commands accepted, those that have
      fired and the replies they were given; unsent counts the commands to be written. */
  datatype Conn = Conn(waiting: seq<Callback>, accepted: seq<Callback>, log: seq<Fired>, arrived: seq<Reply>,
                       disconnecting: bool, freeing: bool, unsent: nat, freed: bool)

  /** Commands are refused once the connection is about to be closed. */
  predicate Closing(s: Conn) {
    s.disconnecting || s.freeing
  }

  function Ask(s: Conn, cb: Callback): (r: Conn)
    ensures Closing(r) == Closing(s)
  {
    if Closing(s) then s
    else s.(waiting := s.waiting + [cb], accepted := s.accepted + [cb], unsent := s.unsent + 1)
  }

  /** What a call from inside a callback does: an end that it asks for waits. */
  function Does(s: Conn, a: Action): (r: Conn)
    ensures Closing(s) ==> Closing(r) && r.waiting == s.waiting && r.accepted == s.accepted
  {
    match a
    case Issue(cb) => Ask(s, cb)
    case Disconnect => s.(disconnecting := true)
    case Free => s.(freeing := true)
  }

  function DoesAll(s: Conn, actions: seq<Action>): (r: Conn)
    ensures Closing(s) ==> Closing(r) && r.waiting == s.waiting && r.accepted == s.accepted
  {
    if actions == [] then s else Does(DoesAll(s, actions[..|actions| - 1]), actions[|actions| - 1])
  }

  /** The first callback that waits is given a reply. */
  function Fire(s: Conn, reply: Option<Reply>, behave: Behaviour): (r: Conn)
    requires s.waiting != []
    ensures Closing(s) ==> Closing(r) && r.waiting == s.waiting[1..] && r.accepted == s.accepted
  {
    var cb := s.waiting[0];
    var t := s.(waiting := s.waiting[1..], log := s.log + [Fired(cb, reply)],
                arrived := s.arrived + if reply.Some? then [reply.value] else []);
    if cb.fn.Some? then DoesAll(t, behave(cb.fn.value, cb.privdata, reply, |t.log|)) else t
  }

  /** The end: all that wait are given NULL. */
  function Drain(s: Conn, behave: Behaviour): (r: Conn)
    requires Closing(s)
    ensures r.freed && r.waiting == [] && r.accepted == s.accepted && Closing(r)
    decreases |s.waiting|
  {
    if s.waiting == [] then s.(freed := true) else Drain(Fire(s, None, behave), behave)
  }

  /** An end by an error. */
  function Break(s: Conn, behave: Behaviour): (r: Conn)
    ensures r.freed && r.waiting == [] && r.accepted == s.accepted && Closing(r)
  {
    Drain(s.(disconnecting := true), behave)
  }

  /** Replies go to the callbacks in order.  None is a reply nobody asked for that is no error,
      where the program asserts. */
  function Deliver(s: Conn, incoming: seq<Reply>, behave: Behaviour): (r: Option<Conn>)
    decreases |incoming|
  {
    if incoming == [] then Some(s)
    else if s.waiting == [] then if incoming[0].Failure? then Some(Break(s, behave)) else None
    else
      var t := Fire(s, Some(incoming[0]), behave);
      if t.freeing then Some(Drain(t, behave)) else Deliver(t, incoming[1..], behave)
  }

  /** Behind the replies: the end, if they could not be read or it was asked for and nothing is
      left to do. */
  function Settle(s: Conn, ok: bool, behave: Behaviour): (r: Conn) {
    if s.freed then s
    else if !ok then Break(s, behave)
    else if s.disconnecting && s.unsent == 0 && s.waiting == [] then Drain(s, behave)
    else s
  }

  function Next(s: Conn, e: Event, behave: Behaviour): (r: Option<Conn>) {
    match e
    case User(Issue(cb)) => Some(Ask(s, cb))
    case User(Disconnect) =>
      var t := s.(disconnecting := true);
      Some(if s.waiting == [] then Drain(t, behave) else t)
    case User(Free) => Some(Drain(s.(freeing := true), behave))
    case Readable(incoming, readOk, parseOk) =>
      if !readOk then Some(Break(s, behave))
      else
        var t := Deliver(s, incoming, behave);
        if t.None? then None else Some(Settle(t.value, parseOk, behave))
    case Writable(writeOk, done) =>
      Some(if !writeOk then Break(s, behave) else if done then s.(unsent := 0) else s)
  }

  /** A run: nothing happens to a connection that is freed. */
  function Runs(s: Conn, events: seq<Event>, behave: Behaviour): (r: Option<Conn>) {
    if events == [] then Some(s)
    else
      var n := |events| - 1;
      var t := Runs(s, events[..n], behave);
      if t.None? || t.value.freed then t else Next(t.value, events[n], behave)
  }

  // ---------------------------------------------------------------- what every run keeps

  function Callbacks(log: seq<Fired>): (r: seq<Callback>)
    ensures |r| == |log| && forall i :: 0 <= i < |r| ==> r[i] == log[i].cb
  {
    seq(|log|, i requires 0 <= i < |log| => log[i].cb)
  }

  /** The replies went to the first callbacks in order; the others were given NULL. */
  predicate InOrder(log: seq<Fired>, arrived: seq<Reply>) {
    && |arrived| <= |log|
    && forall i :: 0 <= i < |log| ==> log[i].reply == if i < |arrived| then Some(arrived[i]) else None
  }

  /** Every command accepted has had its callback, or waits for it, in the order of issue; NULL
      is given only at the end, and then none waits. */
  predicate Good(s: Conn) {
    && s.accepted == Callbacks(s.log) + s.waiting && InOrder(s.log, s.arrived)
    && if s.freed then s.waiting == [] else |s.log| == |s.arrived| && !s.freeing
  }

  /** The same in the middle, where the end may have begun. */
  predicate Fair(s: Conn) {
    s.accepted == Callbacks(s.log) + s.waiting && InOrder(s.log, s.arrived)
  }

  /** t is a later state: nothing accepted or fired is taken back. */
  predicate Later(s: Conn, t: Conn) {
    && s.accepted <= t.accepted && s.log <= t.log && s.arrived <= t.arrived
    && (Closing(s) ==> Closing(t) && t.accepted == s.accepted)
  }

  /** t has been given a part of the replies that were brought, all of them if it lives. */
  predicate Given(s: Conn, t: Conn, brought: seq<Reply>) {
    && s.arrived <= t.arrived && t.arrived[|s.arrived|..] <= brought
    && (!t.freed ==> t.arrived == s.arrived + brought)
  }

  lemma DoesKeeps(s: Conn, a: Action)
    requires Fair(s)
    ensures var r := Does(s, a);
            Fair(r) && Later(s, r) && r.log == s.log && r.arrived == s.arrived && r.freed == s.freed
    ensures a == Disconnect || Does(s, a).disconnecting == s.disconnecting
  {
    hide Callbacks, InOrder;
    if a.Issue? {
      assert Callbacks(s.log) + (s.waiting + [a.cb]) == Callbacks(s.log) + s.waiting + [a.cb];
    }
  }

  lemma {:induction false} DoesAllKeeps(s: Conn, actions: seq<Action>)
    requires Fair(s)
    ensures var r := DoesAll(s, actions);
            Fair(r) && Later(s, r) && r.log == s.log && r.arrived == s.arrived && r.freed == s.freed
    decreases |actions|
  {
    hide Callbacks, InOrder, Does;
    if actions == [] {
    } else {
      var n := |actions| - 1;
      DoesAllKeeps(s, actions[..n]);
      DoesKeeps(DoesAll(s, actions[..n]), actions[n]);
    }
  }

  lemma FireKeeps(s: Conn, reply: Option<Reply>, behave: Behaviour)
    requires Fair(s) && s.waiting != [] && (reply.Some? ==> |s.log| == |s.arrived|)
    ensures var r := Fire(s, reply, behave);
            && Fair(r) && Later(s, r) && r.freed == s.freed && |r.log| == |s.log| + 1
            && r.log[|s.log|] == Fired(s.waiting[0], reply)
            && r.arrived == s.arrived + if reply.Some? then [reply.value] else []
  {
    hide DoesAll;
    var cb := s.waiting[0];
    var t := s.(waiting := s.waiting[1..], log := s.log + [Fired(cb, reply)],
                arrived := s.arrived + if reply.Some? then [reply.value] else []);
    assert Callbacks(t.log) == Callbacks(s.log) + [cb];
    assert Callbacks(s.log) + s.waiting == Callbacks(s.log) + [cb] + s.waiting[1..];
    if cb.fn.Some? {
      DoesAllKeeps(t, behave(cb.fn.value, cb.privdata, reply, |t.log|));
    }
  }

  /** At the end every command accepted has had its callback, and no more replies. */
  lemma {:induction false} DrainKeeps(s: Conn, behave: Behaviour)
    requires Fair(s) && Closing(s)
    ensures var r := Drain(s, behave); Good(r) && Later(s, r) && r.arrived == s.arrived
    decreases |s.waiting|
  {
    hide Fire, Callbacks, InOrder;
    if s.waiting == [] {
    } else {
      FireKeeps(s, None, behave);
      DrainKeeps(Fire(s, None, behave), behave);
    }
  }

  lemma BreakKeeps(s: Conn, behave: Behaviour)
    requires Fair(s)
    ensures var r := Break(s, behave); Good(r) && Later(s, r) && r.arrived == s.arrived
  {
    hide Drain, Callbacks, InOrder;
    DrainKeeps(s.(disconnecting := true), behave);
  }

  /** The replies go to the callbacks as far as they are needed, all of them if the connection
      lives on. */
  lemma {:induction false} DeliverKeeps(s: Conn, incoming: seq<Reply>, behave: Behaviour)
    requires Good(s) && !s.freed && Deliver(s, incoming, behave).Some?
    ensures var r := Deliver(s, incoming, behave).value; Good(r) && Later(s, r) && Given(s, r, incoming)
    decreases |incoming|
  {
    hide Fire, Drain, Break, Callbacks, InOrder;
    if incoming == [] {
      assert s.arrived + [] == s.arrived;
    } else if s.waiting == [] {
      BreakKeeps(s, behave);
    } else {
      var t := Fire(s, Some(incoming[0]), behave);
      FireKeeps(s, Some(incoming[0]), behave);
      if t.freeing {
        DrainKeeps(t, behave);
        assert t.arrived[|s.arrived|..] == [incoming[0]] <= incoming;
      } else {
        DeliverKeeps(t, incoming[1..], behave);
        var r := Deliver(t, incoming[1..], behave).value;
        assert r.arrived[|s.arrived|..] == [incoming[0]] + r.arrived[|t.arrived|..];
        assert incoming == [incoming[0]] + incoming[1..];
      }
    }
  }

  /** The replies that an event brings. */
  function Brought(e: Event): seq<Reply> {
    if e.Readable? && e.readOk then e.incoming else []
  }

  lemma NextKeeps(s: Conn, e: Event, behave: Behaviour)
    requires Good(s) && !s.freed && Next(s, e, behave).Some?
    ensures var r := Next(s, e, behave).value; Good(r) && Later(s, r) && Given(s, r, Brought(e))
  {
    hide Fire, Drain, Break, Callbacks, InOrder, Deliver;
    match e
    case User(Issue(cb)) => DoesKeeps(s, e.action);
    case User(Disconnect) =>
      if s.waiting == [] {
        DrainKeeps(s.(disconnecting := true), behave);
      }
    case User(Free) => DrainKeeps(s.(freeing := true), behave);
    case Readable(incoming, readOk, parseOk) =>
      if !readOk {
        BreakKeeps(s, behave);
      } else {
        DeliverKeeps(s, incoming, behave);
        var t := Deliver(s, incoming, behave).value;
        if !t.freed {
          if !parseOk {
            BreakKeeps(t, behave);
          } else if t.disconnecting && t.unsent == 0 && t.waiting == [] {
            DrainKeeps(t, behave);
          }
        }
      }
    case Writable(writeOk, done) =>
      if !writeOk {
        BreakKeeps(s, behave);
      }
  }

  /** All replies that a run brings. */
  function AllBrought(events: seq<Event>): seq<Reply> {
    if events == [] then [] else AllBrought(events[..|events| - 1]) + Brought(events[|events| - 1])
  }

  lemma GivenMore(s: Conn, t: Conn, r: Conn, a: seq<Reply>, b: seq<Reply>)
    requires Given(s, t, a) && Given(t, r, b) && !t.freed
    ensures Given(s, r, a + b)
  {
    assert r.arrived[|s.arrived|..] == a + r.arrived[|t.arrived|..];
  }

  /** Over any run the callbacks of accepted commands fire in the order of issue, once each, with
      the replies in the order in which they were read, none skipped; NULL is given only when the
      connection ends, and then to all that wait.  What has fired stays fired. */
  lemma {:induction false} RunsKeep(s: Conn, events: seq<Event>, behave: Behaviour)
    requires Good(s) && Runs(s, events, behave).Some?
    ensures var r := Runs(s, events, behave).value; Good(r) && Later(s, r) && Given(s, r, AllBrought(events))
    decreases |events|
  {
    hide Next, Good, Brought, Given;
    if events == [] {
      GivenNone(s);
    } else {
      var n := |events| - 1;
      RunsKeep(s, events[..n], behave);
      var t, a, b := Runs(s, events[..n], behave).value, AllBrought(events[..n]), Brought(events[n]);
      if t.freed {
        GivenStill(s, t, a, b);
      } else {
        NextKeeps(t, events[n], behave);
        GivenMore(s, t, Runs(s, events, behave).value, a, b);
      }
    }
  }

  lemma GivenNone(s: Conn)
    ensures Given(s, s, [])
  {
    assert s.arrived + [] == s.arrived;
  }

  lemma GivenStill(s: Conn, t: Conn, a: seq<Reply>, b: seq<Reply>)
    requires Given(s, t, a) && t.freed
    ensures Given(s, t, a + b)
  {
  }

  // ------------------------------------------------------------------- what an event does

  /** A run up to event i, and behind it. */
  lemma {:induction false} RunsFrom(s: Conn, events: seq<Event>, i: nat, behave: Behaviour)
    requires i <= |events| && Good(s) && Runs(s, events, behave).Some?
    ensures Runs(s, events[..i], behave).Some?
            && Good(Runs(s, events[..i], behave).value)
            && Later(Runs(s, events[..i], behave).value, Runs(s, events, behave).value)
            && (Runs(s, events[..i], behave).value.freed ==> Runs(s, events, behave) == Runs(s, events[..i], behave))
    decreases |events|
  {
    hide Next, Good;
    if i == |events| {
      assert events[..i] == events;
      RunsKeep(s, events, behave);
    } else {
      var n := |events| - 1;
      RunsFrom(s, events[..n], i, behave);
      assert events[..n][..i] == events[..i];
      RunsKeep(s, events[..n], behave);
      var t := Runs(s, events[..n], behave).value;
      if !t.freed {
        NextKeeps(t, events[n], behave);
      }
    }
  }

  /** A command issued while the connection is open is accepted, in its place; none is accepted
      afterwards. */
  lemma IssueIsAccepted(s: Conn, events: seq<Event>, i: nat, behave: Behaviour)
    requires Good(s) && Runs(s, events, behave).Some? && i < |events| && events[i].User? && events[i].action.Issue?
    ensures Runs(s, events[..i], behave).Some?
    ensures var t, r := Runs(s, events[..i], behave).value, Runs(s, events, behave).value;
            if Closing(t) then r.accepted == t.accepted
            else !t.freed ==> |t.accepted| < |r.accepted| && r.accepted[|t.accepted|] == events[i].action.cb
  {
    hide Good;
    RunsFrom(s, events, i, behave);
    RunsFrom(s, events, i + 1, behave);
    assert events[..i + 1][..i] == events[..i];
  }

  /** The events that end the connection. */
  predicate Ends(s: Conn, e: Event) {
    match e
    case User(Issue(_)) => false
    case User(Disconnect) => s.waiting == []
    case User(Free) => true
    case Readable(_, readOk, parseOk) => !readOk || !parseOk
    case Writable(writeOk, _) => !writeOk
  }

  /** After such an event the connection is freed, and every command accepted has had its
      callback. */
  lemma EndsFreed(s: Conn, events: seq<Event>, i: nat, behave: Behaviour)
    requires Good(s) && Runs(s, events, behave).Some? && i < |events|
    requires Runs(s, events[..i], behave).Some? && Ends(Runs(s, events[..i], behave).value, events[i])
    ensures var r := Runs(s, events, behave).value; r.freed && Callbacks(r.log) == r.accepted
  {
    hide Callbacks, InOrder, Drain, Break, Deliver;
    RunsFrom(s, events, i + 1, behave);
    assert events[..i + 1][..i] == events[..i];
    var r := Runs(s, events[..i + 1], behave).value;
    assert Callbacks(r.log) + [] == Callbacks(r.log);
  }

  /** Where the program asserts: more replies than callbacks, and the first too many no error.
      If the server sends no more than it is asked for, that is never so. */
  lemma {:induction false} DeliverIsSome(s: Conn, incoming: seq<Reply>, behave: Behaviour)
    requires forall i :: |s.waiting| <= i < |incoming| ==> incoming[i].Failure?
    ensures Deliver(s, incoming, behave).Some?
    decreases |incoming|
  {
    hide Drain, Break;
    if incoming == [] || s.waiting == [] {
    } else {
      var t := Fire(s, Some(incoming[0]), behave);
      FireWaits(s, Some(incoming[0]), behave);
      if !t.freeing {
        DeliverIsSome(t, incoming[1..], behave);
      }
    }
  }

  lemma FireWaits(s: Conn, reply: Option<Reply>, behave: Behaviour)
    requires s.waiting != []
    ensures |Fire(s, reply, behave).waiting| >= |s.waiting| - 1
  {
    hide DoesAll;
    var cb := s.waiting[0];
    var t := s.(waiting := s.waiting[1..], log := s.log + [Fired(cb, reply)],
                arrived := s.arrived + if reply.Some? then [reply.value] else []);
    if cb.fn.Some? {
      AllWait(t, behave(cb.fn.value, cb.privdata, reply, |t.log|));
    }
  }

  lemma {:induction false} AllWait(s: Conn, actions: seq<Action>)
    ensures |DoesAll(s, actions).waiting| >= |s.waiting|
    decreases |actions|
  {
    if actions == [] {
    } else {
      AllWait(s, actions[..|actions| - 1]);
    }
  }
}
