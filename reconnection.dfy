/** The factory the module exports: one connection at a time, the connection
    listeners registered through `RabbitMQ.on`, and the shared event bus on
    which every queue wrapper registers its `restart` for the `reconnect`
    signal. */
module Reconnection {
  import opened Amqp
  import opened Topology
  import opened Queue

  /** An entry of `listeners`: `{event, cb}`. */
  datatype Listener = Listener(event: string, cb: CallbackId)

  /** What `on` does with a callback once the connection `conn` settles: calls
      it, calls it with the connection's error, or attaches it to the
      connection's own `event`. */
  datatype Hook =
    | Called(conn: nat, cb: CallbackId)
    | CalledWithError(conn: nat, cb: CallbackId)
    | Attached(conn: nat, event: string, cb: CallbackId)

  /** A handler on the bus's `reconnect` event. A wrapper registers the bound
      function `this.restart.bind(this)`; `destroy` removes the unbound
      prototype method `this.restart`, which is a different function. */
  datatype ReconnectHandler = PrototypeRestart | BoundRestart(target: Wrapper)

  /** The hooks `on(l.event, l.cb)` leaves on connection `c`: when it opens, a
      "connect" callback is called and any other is attached to the
      connection; when it fails, an "error" callback is called with the error,
      a "close" callback is called, and any other is dropped. */
  function HookFor(c: nat, connected: bool, l: Listener): (r: seq<Hook>)
    ensures |r| <= 1
    ensures forall h :: h in r ==> h.conn == c && h.cb == l.cb
    ensures connected ==> r == [if l.event == "connect" then Called(c, l.cb) else Attached(c, l.event, l.cb)]
    ensures !connected ==> (r == [] <==> l.event != "error" && l.event != "close")
    ensures !connected && l.event == "error" ==> r == [CalledWithError(c, l.cb)]
    ensures !connected && l.event == "close" ==> r == [Called(c, l.cb)]
  {
    if connected then
      if l.event == "connect" then [Called(c, l.cb)] else [Attached(c, l.event, l.cb)]
    else if l.event == "error" then [CalledWithError(c, l.cb)]
    else if l.event == "close" then [Called(c, l.cb)]
    else []
  }

  /** The hooks the `reconnect` loop `for (listener of listeners) on(..., true)`
      leaves on connection `c`, listener after listener. */
  function Rehooks(c: nat, connected: bool, ls: seq<Listener>): (r: seq<Hook>)
    ensures |r| <= |ls|
    decreases |ls|
  {
    if ls == [] then []
    else Rehooks(c, connected, ls[..|ls| - 1]) + HookFor(c, connected, ls[|ls| - 1])
  }

  /** On a connection that opens, every listener leaves exactly one hook, the
      `i`-th hook being the `i`-th listener's. */
  lemma {:induction false} RehooksConnected(c: nat, ls: seq<Listener>)
    ensures |Rehooks(c, true, ls)| == |ls|
    ensures forall i :: 0 <= i < |ls| ==> [Rehooks(c, true, ls)[i]] == HookFor(c, true, ls[i])
    decreases |ls|
  {
    if ls != [] {
      var init := ls[..|ls| - 1];
      RehooksConnected(c, init);
      forall i | 0 <= i < |ls| ensures [Rehooks(c, true, ls)[i]] == HookFor(c, true, ls[i]) {
        if i < |init| {
          assert ls[i] == init[i];
        }
      }
    }
  }

  /** Every hook belongs to connection `c` and comes from some listener, and
      every hook some listener leaves is among them. */
  lemma {:induction false} RehooksFromListeners(c: nat, connected: bool, ls: seq<Listener>)
    ensures forall h :: h in Rehooks(c, connected, ls) ==>
      h.conn == c && exists l :: l in ls && h in HookFor(c, connected, l)
    ensures forall l, h :: l in ls && h in HookFor(c, connected, l) ==> h in Rehooks(c, connected, ls)
    decreases |ls|
  {
    if ls != [] {
      var init, last := ls[..|ls| - 1], ls[|ls| - 1];
      RehooksFromListeners(c, connected, init);
      assert ls == init + [last];
      forall h | h in Rehooks(c, connected, ls)
        ensures h.conn == c && exists l :: l in ls && h in HookFor(c, connected, l)
      {
        if h in Rehooks(c, connected, init) {
          var l :| l in init && h in HookFor(c, connected, l);
          assert l in ls;
        } else {
          assert h in HookFor(c, connected, last);
        }
      }
    }
  }

  /** `emitter.removeListener(event, h)`: removes the most recently added
      entry equal to `h`, if there is one. */
  function RemoveListener(bus: seq<ReconnectHandler>, h: ReconnectHandler): (r: seq<ReconnectHandler>)
    ensures h !in bus ==> r == bus
    ensures h in bus ==> |r| == |bus| - 1
    decreases |bus|
  {
    if bus == [] then []
    else
      var init, last := bus[..|bus| - 1], bus[|bus| - 1];
      assert bus == init + [last];
      if last == h then init
      else RemoveListener(init, h) + [last]
  }

  /** The position of the most recently added entry equal to `h`, or -1. */
  function LastIndexOf(bus: seq<ReconnectHandler>, h: ReconnectHandler): (k: int)
    ensures -1 <= k < |bus|
    ensures k == -1 <==> h !in bus
    ensures 0 <= k ==> bus[k] == h && h !in bus[k + 1..]
    decreases |bus|
  {
    if bus == [] then -1
    else if bus[|bus| - 1] == h then |bus| - 1
    else
      var init := bus[..|bus| - 1];
      assert bus == init + [bus[|bus| - 1]];
      var k := LastIndexOf(init, h);
      assert 0 <= k ==> bus[k + 1..] == init[k + 1..] + [bus[|bus| - 1]];
      k
  }

  /** The entry `removeListener` drops is the last one equal to `h`, and the
      others keep their order. */
  lemma {:induction false} RemoveListenerLast(bus: seq<ReconnectHandler>, h: ReconnectHandler)
    requires h in bus
    ensures var k := LastIndexOf(bus, h); RemoveListener(bus, h) == bus[..k] + bus[k + 1..]
    decreases |bus|
  {
    var init, last := bus[..|bus| - 1], bus[|bus| - 1];
    assert bus == init + [last];
    var k := LastIndexOf(bus, h);
    if last == h {
      assert bus[..k] + bus[k + 1..] == init;
    } else {
      assert h in init;
      RemoveListenerLast(init, h);
      assert k == LastIndexOf(init, h);
      calc {
        RemoveListener(bus, h);
        RemoveListener(init, h) + [last];
        init[..k] + init[k + 1..] + [last];
        { assert bus[..k] == init[..k]; assert bus[k + 1..] == init[k + 1..] + [last]; }
        bus[..k] + bus[k + 1..];
      }
    }
  }

  /** A bus that holds only bound restart handlers has no entry `destroy` can
      remove. */
  lemma DestroyDetachesNothing(bus: seq<ReconnectHandler>)
    requires forall i :: 0 <= i < |bus| ==> bus[i].BoundRestart?
    ensures RemoveListener(bus, PrototypeRestart) == bus
  {
    assert PrototypeRestart !in bus;
  }

  /** The closure `module.exports(url, opt)` returns: the current connection,
      its listeners, and the event bus its wrappers share. */
  class Factory {
    /** The number of the current connection (`connect`). */
    var conn: nat
    /** Whether the current connection opened. */
    var connected: bool
    /** `listeners`, in registration order. */
    var listeners: seq<Listener>
    /** What `on` did with each callback, in order. */
    var hooks: seq<Hook>
    /** The `reconnect` handlers of the shared emitter, in registration order. */
    var bus: seq<ReconnectHandler>
    /** The connections each `reconnect` signal carried, in order. */
    var signals: seq<nat>

    /** Every handler on the bus is a wrapper's bound restart, and no wrapper
        registered twice. */
    ghost predicate Distinct()
      reads this
    {
      && (forall i :: 0 <= i < |bus| ==> bus[i].BoundRestart?)
      && (forall i, j :: 0 <= i < j < |bus| ==> bus[i].target != bus[j].target)
    }

    /** The wrappers listening for `reconnect`. */
    ghost function Wrappers(): set<Wrapper>
      reads this
    {
      set i | 0 <= i < |bus| && bus[i].BoundRestart? :: bus[i].target
    }

    /** `module.exports(url, opt)`: connection 0, no listeners, no wrappers. */
    constructor (connected: bool)
      ensures Distinct()
      ensures conn == 0 && this.connected == connected
      ensures listeners == [] && hooks == [] && bus == [] && signals == []
    {
      conn, this.connected := 0, connected;
      listeners, hooks, bus, signals := [], [], [], [];
    }

    /** `new RabbitMQ(exchanger, queue, queueOptions, exchangerOptions)`: a
        wrapper on the current connection whose restart joins the bus. Its
        channel is created from the connection, so on a failed connection the
        channel fails too. */
    method Create(exchanger: Option<string>, queue: string, queueOptions: QueueOptions,
                  exchangeOptions: ExchangeOptions, channelOk: bool, assertAccepted: nat)
      returns (w: Wrapper)
      requires Distinct()
      requires !connected ==> !channelOk
      modifies this`bus
      ensures Distinct()
      ensures fresh(w) && w.Valid()
      ensures w.exchanger == ExchangerName(exchanger) && w.queue == queue
      ensures w.queueOptions == queueOptions && w.exchangeOptions == exchangeOptions
      ensures w.conn == conn && w.channelOk == channelOk
      ensures w.asserted == (channelOk && Completes(w.Plan(), assertAccepted))
      ensures w.cache == None && w.ct == None && w.binds == [] && w.restarts == 0
      ensures w.trace == w.EpochCommands(conn, channelOk, assertAccepted)
      ensures bus == old(bus) + [BoundRestart(w)]
      ensures !connected ==> !w.asserted
    {
      w := new Wrapper(exchanger, queue, queueOptions, exchangeOptions, conn, channelOk, assertAccepted);
      bus := bus + [BoundRestart(w)];
    }

    /** `RabbitMQ.on(event, cb, re)`: remembers the listener unless `re`, and
        hooks the callback to the current connection. */
    method On(event: string, cb: CallbackId, re: bool)
      modifies this`listeners, this`hooks
      ensures listeners == if re then old(listeners) else old(listeners) + [Listener(event, cb)]
      ensures hooks == old(hooks) + HookFor(conn, connected, Listener(event, cb))
    {
      if !re {
        listeners := listeners + [Listener(event, cb)];
      }
      hooks := hooks + HookFor(conn, connected, Listener(event, cb));
    }

    /** `RabbitMQ.reconnect()`: opens connection `conn + 1`, hooks every
        remembered listener to it without remembering it again, and signals
        `reconnect`, which restarts every wrapper on the bus in registration
        order; `inputs[i]` are the broker's answers to the `i`-th restart.
        Every channel is created from the new connection, so when it fails
        no channel opens. */
    method Reconnect(connected: bool, inputs: seq<RestartInput>)
      requires Distinct()
      requires |inputs| == |bus|
      requires !connected ==> forall i :: 0 <= i < |inputs| ==> !inputs[i].channelOk
      requires forall i :: 0 <= i < |bus| ==> bus[i].target.Valid()
      modifies this`conn, this`connected, this`listeners, this`hooks, this`signals, Wrappers()
      ensures conn == old(conn) + 1 && this.connected == connected
      ensures listeners == old(listeners) && bus == old(bus)
      ensures hooks == old(hooks) + Rehooks(conn, connected, listeners)
      ensures signals == old(signals) + [conn]
      ensures forall i :: 0 <= i < |bus| ==>
        var w := bus[i].target;
        && w.Valid() && w.restarts == old(w.restarts) + 1
        && w.Restarted(conn, inputs[i], old(w.cache), old(w.ct), old(w.binds), old(w.trace))
      ensures !connected ==> forall i :: 0 <= i < |bus| ==> !bus[i].target.asserted
    {
      conn, this.connected := conn + 1, connected;
      Rehook();
      signals := signals + [conn];
      Signal(conn, inputs);
    }

    /** `events.emit('reconnect', connect)`: every handler on the bus, in
        registration order, restarts its wrapper on connection `c`. */
    method Signal(c: nat, inputs: seq<RestartInput>)
      requires Distinct()
      requires |inputs| == |bus|
      requires forall i :: 0 <= i < |bus| ==> bus[i].target.Valid()
      modifies Wrappers()
      ensures forall i :: 0 <= i < |bus| ==>
        var w := bus[i].target;
        && w.Valid() && w.restarts == old(w.restarts) + 1
        && w.Restarted(c, inputs[i], old(w.cache), old(w.ct), old(w.binds), old(w.trace))
    {
      var i := 0;
      while i < |bus|
        invariant 0 <= i <= |bus|
        invariant forall j :: 0 <= j < i ==>
          var w := bus[j].target;
          && w.Valid() && w.restarts == old(w.restarts) + 1
          && w.Restarted(c, inputs[j], old(w.cache), old(w.ct), old(w.binds), old(w.trace))
        invariant forall j :: i <= j < |bus| ==>
          var w := bus[j].target;
          && w.Valid() && w.restarts == old(w.restarts)
          && w.cache == old(w.cache) && w.ct == old(w.ct) && w.binds == old(w.binds) && w.trace == old(w.trace)
      {
        var w := bus[i].target;
        var _ := w.Restart(c, inputs[i]);
        i := i + 1;
      }
    }

    /** The `for (listener of listeners) RabbitMQ.on(listener.event, listener.cb, true)`
        loop of `reconnect`. */
    method Rehook()
      modifies this`listeners, this`hooks
      ensures listeners == old(listeners)
      ensures hooks == old(hooks) + Rehooks(conn, connected, listeners)
    {
      var n := 0;
      while n < |listeners|
        invariant 0 <= n <= |listeners|
        invariant listeners == old(listeners)
        invariant hooks == old(hooks) + Rehooks(conn, connected, listeners[..n])
      {
        assert listeners[..n + 1][..n] == listeners[..n];
        On(listeners[n].event, listeners[n].cb, true);
        n := n + 1;
      }
      assert listeners[..n] == listeners;
    }

    /** `destroy()` of wrapper `w`: `removeListener('reconnect', this.restart)`
        with the unbound prototype method, which is not on the bus, so the
        wrapper keeps answering `reconnect`. */
    method Destroy(w: Wrapper)
      requires Distinct()
      modifies this`bus
      ensures Distinct()
      ensures bus == old(bus)
    {
      DestroyDetachesNothing(bus);
      bus := RemoveListener(bus, PrototypeRestart);
    }
  }
}
