/** async.c: the queue of callbacks of an asynchronous connection. */
module Async {
  import opened RespSpec
  import opened AsyncSpec

  // ------------------------------------------------------------- the callback list

  class Node {
    const cb: Callback
    var next: Node?

    constructor (cb: Callback)
      ensures this.cb == cb && next == null
    {
      this.cb, next := cb, null;
    }
  }

  ghost function CallbacksOf(nodes: seq<Node>): (r: seq<Callback>)
    ensures |r| == |nodes| && forall i :: 0 <= i < |r| ==> r[i] == nodes[i].cb
  {
    if nodes == [] then [] else [nodes[0].cb] + CallbacksOf(nodes[1..])
  }

  /** redisCallbackList: nodes linked from head to tail. */
  class List {
    var head: Node?
    var tail: Node?
    ghost var nodes: seq<Node>
    ghost var repr: set<Node>

    ghost predicate Valid()
      reads this, repr
    {
      && (forall i :: 0 <= i < |nodes| ==> nodes[i] in repr)
      && (forall i, j :: 0 <= i < j < |nodes| ==> nodes[i] != nodes[j])
      && (forall i :: 0 <= i < |nodes| - 1 ==> nodes[i].next == nodes[i + 1])
      && (nodes == [] ==> head == null && tail == null)
      && (nodes != [] ==> head == nodes[0] && tail == nodes[|nodes| - 1] && nodes[|nodes| - 1].next == null)
    }

    ghost function Contents(): (r: seq<Callback>)
      reads this
    {
      CallbacksOf(nodes)
    }

    constructor ()
      ensures Valid() && nodes == [] && repr == {}
    {
      head, tail, nodes, repr := null, null, [], {};
    }

    /** __redisPushCallback */
    method Push(source: Callback)
      requires Valid()
      modifies this, repr
      ensures Valid() && Contents() == old(Contents()) + [source] && fresh(repr - old(repr))
    {
      var cb := new Node(source);
      if head == null {
        head := cb;
      }
      if tail != null {
        tail.next := cb;
      }
      tail := cb;
      nodes, repr := nodes + [cb], repr + {cb};
    }

    /** __redisShiftCallback */
    method Shift() returns (target: Option<Callback>)
      requires Valid()
      modifies this
      ensures Valid() && repr == old(repr)
      ensures old(Contents()) == [] ==> target.None? && Contents() == []
      ensures old(Contents()) != [] ==> target.Some? && old(Contents()) == [target.value] + Contents()
    {
      var cb := head;
      if cb == null {
        return None;
      }
      assert nodes != [] && cb == nodes[0] && CallbacksOf(nodes) == [cb.cb] + CallbacksOf(nodes[1..]);
      head := cb.next;
      if cb == tail {
        tail := null;
      }
      nodes := nodes[1..];
      return Some(cb.cb);
    }
  }

  lemma NullHead(l: List)
    requires l.Valid()
    ensures l.head == null <==> l.Contents() == []
  {
  }

  // --------------------------------------------------------------- the connection

  class Context {
    const replies: List
    const behave: Behaviour
    var ran: nat
    var disconnecting: bool
    var freeing: bool
    var inCallback: bool
    var failed: bool
    var unsent: nat
    var freed: bool
    ghost var accepted: seq<Callback>
    ghost var log: seq<Fired>
    ghost var arrived: seq<Reply>

    ghost function State(): (s: Conn)
      reads this, replies
    {
      Conn(replies.Contents(), accepted, log, arrived, disconnecting, freeing, unsent, freed)
    }

    /** What every call keeps. */
    ghost predicate Valid()
      reads this, replies, replies.repr
    {
      replies.Valid() && ran == |log|
    }

    /** Between two events. */
    ghost predicate Ready()
      reads this, replies, replies.repr
    {
      Valid() && Good(State()) && !inCallback && (!freed ==> !failed)
    }

    constructor (behave: Behaviour)
      ensures Ready() && State() == Conn([], [], [], [], false, false, 0, false) && this.behave == behave
      ensures fresh(replies) && replies.repr == {}
    {
      this.behave := behave;
      replies := new List();
      disconnecting, freeing, inCallback, failed, unsent, freed, ran := false, false, false, false, 0, false, 0;
      accepted, log, arrived := [], [], [];
    }

    /** __redisAsyncCommand: refused once the connection is about to be closed. */
    method Command(cb: Callback) returns (ok: bool)
      requires Valid()
      modifies this`unsent, this`accepted, replies, replies.repr
      ensures Valid() && ok == !Closing(old(State())) && State() == Ask(old(State()), cb)
      ensures fresh(replies.repr - old(replies.repr))
    {
      if disconnecting || freeing {
        return false;
      }
      replies.Push(cb);
      unsent := unsent + 1;
      accepted := accepted + [cb];
      return true;
    }

    /** A call from inside a callback. */
    method Act(a: Action)
      requires Valid() && inCallback
      modifies this`unsent, this`accepted, this`disconnecting, this`freeing, replies, replies.repr
      ensures Valid() && State() == Does(old(State()), a) && fresh(replies.repr - old(replies.repr))
    {
      match a {
        case Issue(cb) => var _ := Command(cb);
        case Disconnect => disconnecting := true;
        case Free => freeing := true;
      }
    }

    method RunActions(actions: seq<Action>)
      requires Valid() && inCallback
      modifies this`unsent, this`accepted, this`disconnecting, this`freeing, replies, replies.repr
      ensures Valid() && State() == DoesAll(old(State()), actions) && fresh(replies.repr - old(replies.repr))
    {
      hide List.Valid, List.Contents, Does;
      var i := 0;
      while i < |actions|
        invariant i <= |actions| && Valid() && State() == DoesAll(old(State()), actions[..i])
        invariant fresh(replies.repr - old(replies.repr))
      {
        Act(actions[i]);
        assert actions[..i + 1][..i] == actions[..i];
        i := i + 1;
      }
      assert actions[..|actions|] == actions;
    }

    /** __redisShiftCallback and __redisRunCallback: the first callback that waits, if any. */
    method RunNext(reply: Option<Reply>) returns (some: bool)
      requires Valid() && !inCallback
      modifies this`log, this`arrived, this`ran, this`inCallback, this`unsent, this`accepted, this`disconnecting,
               this`freeing, replies, replies.repr
      ensures Valid() && !inCallback && some == (old(State().waiting) != []) && fresh(replies.repr - old(replies.repr))
      ensures State() == if some then Fire(old(State()), reply, behave) else old(State())
    {
      hide List.Valid, List.Contents, DoesAll;
      var cb := replies.Shift();
      if cb.None? {
        return false;
      }
      log := log + [Fired(cb.value, reply)];
      arrived := arrived + if reply.Some? then [reply.value] else [];
      ran := ran + 1;
      if cb.value.fn.Some? {
        inCallback := true;
        RunActions(behave(cb.value.fn.value, cb.value.privdata, reply, ran));
        inCallback := false;
      }
      return true;
    }

    /** __redisAsyncFree: every callback that waits is given NULL, in order; none of them
        can add to the queue. */
    method TearDown()
      requires Valid() && !inCallback && Closing(State())
      modifies this, replies, replies.repr
      ensures Valid() && !inCallback && State() == Drain(old(State()), behave)
      ensures fresh(replies.repr - old(replies.repr))
    {
      hide List.Valid, List.Contents, Fire;
      var some := RunNext(None);
      while some
        invariant Valid() && !inCallback && Closing(State()) && fresh(replies.repr - old(replies.repr))
        invariant Drain(State(), behave) == Drain(old(State()), behave) && (!some ==> State().waiting == [])
        decreases |State().waiting|, some
      {
        some := RunNext(None);
      }
      freed := true;
    }

    /** __redisAsyncDisconnect: a clean disconnect finds the queue empty. */
    method DisconnectNow()
      requires Valid() && !inCallback && (!failed ==> disconnecting && State().waiting == [])
      modifies this, replies, replies.repr
      ensures Valid() && !inCallback && fresh(replies.repr - old(replies.repr))
      ensures State() == if old(failed) then Break(old(State()), behave) else Drain(old(State()), behave)
    {
      hide List.Valid, List.Contents, Drain;
      if !failed {
        var none := replies.Shift();
        assert none.None?;
      } else {
        disconnecting := true;
      }
      TearDown();
    }

    /** redisAsyncDisconnect and redisAsyncFree, called from outside a callback. */
    method Request(a: Action)
      requires Ready() && !freed && !a.Issue?
      modifies this, replies, replies.repr
      ensures Valid() && !inCallback && Some(State()) == Next(old(State()), User(a), behave)
      ensures (!freed ==> !failed) && fresh(replies.repr - old(replies.repr))
    {
      hide List.Valid, List.Contents, Drain;
      match a {
        case Free =>
          freeing := true;
          TearDown();
        case Disconnect =>
          disconnecting := true;
          NullHead(replies);
          if replies.head == null {
            DisconnectNow();
          }
      }
    }

    /** redisProcessCallbacks; not sane is where the program asserts. */
    method ProcessCallbacks(incoming: seq<Reply>, ok: bool) returns (sane: bool)
      requires Ready() && !freed
      modifies this, replies, replies.repr
      ensures sane == Next(old(State()), Readable(incoming, true, ok), behave).Some?
      ensures sane ==>
                Valid() && !inCallback && Some(State()) == Next(old(State()), Readable(incoming, true, ok), behave)
      ensures (sane && !freed ==> !failed) && fresh(replies.repr - old(replies.repr))
    {
      hide List.Valid, List.Contents, Drain, Fire, Break;
      var i := 0;
      while i < |incoming|
        invariant i <= |incoming| && Valid() && !inCallback && !failed && !freed && Good(State())
        invariant Deliver(State(), incoming[i..], behave) == Deliver(old(State()), incoming, behave)
        invariant fresh(replies.repr - old(replies.repr))
      {
        var reply := incoming[i];
        assert incoming[i..][1..] == incoming[i + 1..];
        if State().waiting != [] {
          FireKeeps(State(), Some(reply), behave);
        }
        i := i + 1;
        var some := RunNext(Some(reply));
        if !some {
          if !reply.Failure? {
            return false;
          }
          failed := true;
          DisconnectNow();
          return true;
        }
        if freeing {
          TearDown();
          return true;
        }
      }
      NullHead(replies);
      if !ok {
        failed := true;
        DisconnectNow();
      } else if disconnecting && unsent == 0 && replies.head == null {
        DisconnectNow();
      }
      return true;
    }

    /** redisAsyncHandleRead on a connection that is established. */
    method HandleRead(incoming: seq<Reply>, readOk: bool, parseOk: bool) returns (sane: bool)
      requires Ready() && !freed
      modifies this, replies, replies.repr
      ensures sane == Next(old(State()), Readable(incoming, readOk, parseOk), behave).Some?
      ensures sane ==> Valid() && !inCallback
                       && Some(State()) == Next(old(State()), Readable(incoming, readOk, parseOk), behave)
      ensures (sane && !freed ==> !failed) && fresh(replies.repr - old(replies.repr))
    {
      hide List.Valid, List.Contents, Drain, Deliver, Break;
      if !readOk {
        failed := true;
        DisconnectNow();
        return true;
      }
      sane := ProcessCallbacks(incoming, parseOk);
    }

    /** redisAsyncHandleWrite on a connection that is established. */
    method HandleWrite(writeOk: bool, done: bool)
      requires Ready() && !freed
      modifies this, replies, replies.repr
      ensures Valid() && !inCallback && Some(State()) == Next(old(State()), Writable(writeOk, done), behave)
      ensures (!freed ==> !failed) && fresh(replies.repr - old(replies.repr))
    {
      hide List.Valid, List.Contents, Drain;
      if !writeOk {
        failed := true;
        DisconnectNow();
      } else if done {
        unsent := 0;
      }
    }

    /** One event. */
    method Handle(e: Event) returns (sane: bool)
      requires Ready() && !freed
      modifies this, replies, replies.repr
      ensures sane == Next(old(State()), e, behave).Some?
      ensures sane ==> Ready() && Some(State()) == Next(old(State()), e, behave)
      ensures fresh(replies.repr - old(replies.repr))
    {
      hide List.Valid, List.Contents, Drain, Deliver, Break, Good;
      sane := true;
      match e {
        case User(Issue(cb)) => var _ := Command(cb);
        case User(a) => Request(a);
        case Readable(incoming, readOk, parseOk) => sane := HandleRead(incoming, readOk, parseOk);
        case Writable(writeOk, done) => HandleWrite(writeOk, done);
      }
      if sane {
        NextKeeps(old(State()), e, behave);
      }
    }

    /** Any run of the connection.  What that means for callbacks and replies is proved of Runs. */
    method Run(events: seq<Event>) returns (sane: bool)
      requires Ready()
      modifies this, replies, replies.repr
      ensures sane == Runs(old(State()), events, behave).Some?
      ensures sane ==> Ready() && Some(State()) == Runs(old(State()), events, behave)
      ensures sane ==> Later(old(State()), State()) && Given(old(State()), State(), AllBrought(events))
    {
      hide List.Valid, List.Contents, Next, Good, Later, Given;
      sane := true;
      var k := 0;
      while k < |events|
        invariant k <= |events| && sane == Runs(old(State()), events[..k], behave).Some?
        invariant sane ==> Ready() && Some(State()) == Runs(old(State()), events[..k], behave)
        invariant fresh(replies.repr - old(replies.repr))
      {
        assert events[..k + 1][..k] == events[..k];
        if sane && !freed {
          sane := Handle(events[k]);
        }
        k := k + 1;
      }
      assert events[..|events|] == events;
      if sane {
        RunsKeep(old(State()), events, behave);
      }
    }
  }
}
