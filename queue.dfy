/** One queue wrapper (the `RabbitMQ` class the factory returns): its channel
    and assertion for the current connection epoch, its cached subscription and
    consumer tag, its list of bound routing keys, and the requests it has sent
    to the broker.

    The asynchronous steps of each operation run here one after the other. The
    broker's answers come in as parameters: `channelOk` says whether the
    channel of an epoch could be opened, and `accepted` says how many of the
    requests one call sends the broker accepts before it rejects the next. */
module Queue {
  import opened Amqp
  import opened Topology
  import opened BindList

  /** An opaque caller-supplied callback. */
  type CallbackId = nat

  /** The consume options the wrapper reads: `prefetch`, and a `noAck` that
      overrides the one derived from `ack`. */
  datatype SubscribeOptions = SubscribeOptions(prefetch: Option<int>, noAck: Option<bool>)

  /** `_subscribeCache`: the arguments of the last subscription, replayed on restart. */
  datatype Subscription = Subscription(handler: CallbackId, ack: bool, options: Option<SubscribeOptions>)

  /** The broker's answers during one restart. */
  datatype RestartInput = RestartInput(
    channelOk: bool, assertAccepted: nat, subscribeAccepted: nat, tag: string, bindAccepted: nat)

  /** JavaScript truthiness of the consumer tag `ct`. */
  predicate HasTag(ct: Option<string>)
  {
    ct.Some? && ct.value != ""
  }

  /** The `noAck` flag consume receives: `_.extend({noAck: !ack}, options)`,
      where a `noAck` of the options, coming later, wins. */
  function ConsumeNoAck(ack: bool, o: SubscribeOptions): (r: bool)
    ensures o.noAck.Some? ==> r == o.noAck.value
    ensures o.noAck.None? ==> r == !ack
  {
    if o.noAck.Some? then o.noAck.value else !ack
  }

  /** The requests a subscription sends once the assertion has resolved: a
      prefetch when the options define one, then exactly one consume. */
  function SubscribePlan(queue: string, ack: bool, o: SubscribeOptions): (r: seq<Command>)
    ensures r != [] && r[|r| - 1] == Consume(queue, ConsumeNoAck(ack, o))
    ensures forall i :: 0 <= i < |r| - 1 ==> r[i].Prefetch?
    ensures |r| == if o.prefetch.Some? then 2 else 1
    ensures o.prefetch.Some? ==> r[0] == Prefetch(o.prefetch.value)
  {
    (if o.prefetch.Some? then [Prefetch(o.prefetch.value)] else [])
    + [Consume(queue, ConsumeNoAck(ack, o))]
  }

  class Wrapper {
    const exchanger: string
    const queue: string
    const queueOptions: QueueOptions
    const exchangeOptions: ExchangeOptions

    /** The connection the current channel was derived from. */
    var conn: nat
    /** Whether the current channel could be opened. */
    var channelOk: bool
    /** Whether the current epoch's assertion resolved. */
    var asserted: bool
    /** `_subscribeCache`. */
    var cache: Option<Subscription>
    /** `ct`, the consumer tag; None is null or undefined. */
    var ct: Option<string>
    /** `binds`, the routing keys bound so far. */
    var binds: seq<string>
    /** Every request sent to the broker, in order. */
    var trace: seq<Command>
    /** How many times this wrapper was restarted. */
    ghost var restarts: nat

    /** Keys are only ever bound against a named exchange, a consumer tag is
        only recorded after a subscription was cached, and an assertion only
        resolves on an open channel. */
    ghost predicate Valid()
      reads this
    {
      && (binds != [] ==> exchanger != "")
      && (ct.Some? ==> cache.Some?)
      && (asserted ==> channelOk)
    }

    /** The requests of this wrapper's `assert()`. */
    function Plan(): seq<Command>
    {
      AssertPlan(queue, exchanger, queueOptions, exchangeOptions)
    }

    /** The requests that open an epoch on connection `c`: the channel, then,
        if it opened, the assertion plan up to the first rejected request. */
    function EpochCommands(c: nat, ok: bool, accepted: nat): seq<Command>
    {
      [CreateChannel(c)] + (if ok then Issued(Plan(), accepted) else [])
    }

    /** Why an operation that awaits the channel and then the assertion stops
        there, if it does. */
    function Blocked(): Option<Failure>
      reads this`channelOk, this`asserted
    {
      if !channelOk then Some(ChannelUnavailable)
      else if !asserted then Some(AssertionFailed)
      else None
    }

    /** `new RabbitMQ(exchanger, queue, queueOptions, exchangerOptions)` on
        connection `c`: opens a channel and starts the assertion. */
    constructor (exchanger: Option<string>, queue: string, queueOptions: QueueOptions,
                 exchangeOptions: ExchangeOptions, c: nat, channelOk: bool, assertAccepted: nat)
      ensures Valid()
      ensures this.exchanger == ExchangerName(exchanger) && this.queue == queue
      ensures this.queueOptions == queueOptions && this.exchangeOptions == exchangeOptions
      ensures conn == c && this.channelOk == channelOk
      ensures asserted == (channelOk && Completes(Plan(), assertAccepted))
      ensures cache == None && ct == None && binds == [] && restarts == 0
      ensures trace == EpochCommands(c, channelOk, assertAccepted)
    {
      this.exchanger := ExchangerName(exchanger);
      this.queue := queue;
      this.queueOptions := queueOptions;
      this.exchangeOptions := exchangeOptions;
      conn, this.channelOk, asserted := c, false, false;
      cache, ct, binds, trace, restarts := None, None, [], [], 0;
      new;
      Open(c, channelOk, assertAccepted);
    }

    /** `this.channel = connecting(c); this.assertion = this.assert()`. */
    method Open(c: nat, ok: bool, accepted: nat)
      modifies this`conn, this`channelOk, this`asserted, this`trace
      ensures conn == c && channelOk == ok
      ensures asserted == (ok && Completes(Plan(), accepted))
      ensures trace == old(trace) + EpochCommands(c, ok, accepted)
    {
      conn, channelOk := c, ok;
      trace := trace + [CreateChannel(c)];
      asserted := false;
      if ok {
        asserted := Send(Plan(), accepted);
      }
    }

    /** Sends `plan` one request at a time until the broker rejects one. */
    method Send(plan: seq<Command>, accepted: nat) returns (ok: bool)
      modifies this`trace
      ensures trace == old(trace) + Issued(plan, accepted)
      ensures ok == Completes(plan, accepted)
    {
      trace := trace + Issued(plan, accepted);
      ok := Completes(plan, accepted);
    }

    /** `subscribe(handler, ack, options, replay)`, with `_subscribe` inlined.
        A subscription already cached is not repeated unless `replay`; the
        string tag `_subscribe` then hands back has no `consumerTag`, so a
        truthy `ct` is cleared. Otherwise the cache is set before the
        assertion is awaited, so it stays set when a later step fails. */
    method Subscribe(handler: CallbackId, ack: bool, options: Option<SubscribeOptions>,
                     replay: bool, accepted: nat, tag: string) returns (r: Outcome<()>)
      requires Valid()
      modifies this`cache, this`ct, this`trace
      ensures Valid()
      ensures !channelOk ==>
        r == Rejected(ChannelUnavailable) && cache == old(cache) && ct == old(ct) && trace == old(trace)
      ensures channelOk && old(cache).Some? && !replay ==>
        && r == Resolved(())
        && cache == old(cache) && trace == old(trace)
        && ct == (if HasTag(old(ct)) then None else old(ct))
      ensures channelOk && (old(cache).None? || replay) ==>
        cache == Some(Subscription(handler, ack, options))
      ensures channelOk && (old(cache).None? || replay) && !asserted ==>
        r == Rejected(AssertionFailed) && ct == old(ct) && trace == old(trace)
      ensures channelOk && (old(cache).None? || replay) && asserted && options.None? ==>
        r == Rejected(NoSubscribeOptions) && ct == old(ct) && trace == old(trace)
      ensures channelOk && (old(cache).None? || replay) && asserted && options.Some? ==>
        var plan := SubscribePlan(queue, ack, options.value);
        && trace == old(trace) + Issued(plan, accepted)
        && (Completes(plan, accepted) ==> r == Resolved(()) && ct == Some(tag))
        && (!Completes(plan, accepted) ==> r == Rejected(BrokerRejected) && ct == old(ct))
    {
      if !channelOk {
        return Rejected(ChannelUnavailable);
      }
      if cache.Some? && !replay {
        if HasTag(ct) {
          ct := None;
        }
        return Resolved(());
      }
      cache := Some(Subscription(handler, ack, options));
      if !asserted {
        return Rejected(AssertionFailed);
      }
      if options.None? {
        return Rejected(NoSubscribeOptions);
      }
      var ok := Send(SubscribePlan(queue, ack, options.value), accepted);
      if !ok {
        return Rejected(BrokerRejected);
      }
      ct := Some(tag);
      r := Resolved(());
    }

    /** `unsubscribe()`: with a truthy tag and an open channel, cancels that
        consumer (without waiting for the broker's answer) and forgets both
        the tag and the cached subscription. */
    method Unsubscribe() returns (r: Outcome<()>)
      requires Valid()
      modifies this`cache, this`ct, this`trace
      ensures Valid()
      ensures !HasTag(old(ct)) ==>
        r == Resolved(()) && cache == old(cache) && ct == old(ct) && trace == old(trace)
      ensures HasTag(old(ct)) && !channelOk ==>
        r == Rejected(ChannelUnavailable) && cache == old(cache) && ct == old(ct) && trace == old(trace)
      ensures HasTag(old(ct)) && channelOk ==>
        r == Resolved(()) && trace == old(trace) + [Cancel(old(ct).value)] && ct == None && cache == None
    {
      if !HasTag(ct) {
        return Resolved(());
      }
      if !channelOk {
        return Rejected(ChannelUnavailable);
      }
      trace := trace + [Cancel(ct.value)];
      ct, cache := None, None;
      r := Resolved(());
    }

    /** `delete()`: deletes the queue on the current channel, without
        awaiting the assertion. */
    method Delete(accepted: nat) returns (r: Outcome<()>)
      modifies this`trace
      ensures !channelOk ==> r == Rejected(ChannelUnavailable) && trace == old(trace)
      ensures channelOk ==>
        && trace == old(trace) + Issued([DeleteQueue(queue)], accepted)
        && r == (if accepted > 0 then Resolved(()) else Rejected(BrokerRejected))
    {
      if !channelOk {
        return Rejected(ChannelUnavailable);
      }
      var ok := Send([DeleteQueue(queue)], accepted);
      r := if ok then Resolved(()) else Rejected(BrokerRejected);
    }

    /** `publish(message, routingKey, options)`: publishes `body` (the
        message's JSON text) to the wrapper's exchange as it is, the default
        exchange when that is "", under `routingKey` or, when that is missing
        or empty, the queue's name. Resolves to the channel's `publish` answer
        `written`. */
    method Publish(routingKey: Option<string>, body: string, written: bool) returns (r: Outcome<bool>)
      modifies this`trace
      ensures Blocked().Some? ==> r == Rejected(Blocked().value) && trace == old(trace)
      ensures Blocked().None? ==>
        && r == Resolved(written)
        && trace == old(trace) + [Command.Publish(exchanger, if routingKey.Some? && routingKey.value != "" then routingKey.value else queue, body)]
    {
      if !channelOk {
        return Rejected(ChannelUnavailable);
      }
      if !asserted {
        return Rejected(AssertionFailed);
      }
      var key := if routingKey.Some? && routingKey.value != "" then routingKey.value else queue;
      trace := trace + [Command.Publish(exchanger, key, body)];
      r := Resolved(written);
    }

    /** `bind(routingKeys)`. */
    method Bind(keys: Keys, accepted: nat) returns (r: Outcome<()>)
      requires Valid()
      modifies this`binds, this`trace
      ensures Valid()
      ensures exchanger == "" ==> r == Thrown(NoBindToDefault) && binds == old(binds) && trace == old(trace)
      ensures exchanger != "" && Blocked().Some? ==>
        r == Rejected(Blocked().value) && binds == old(binds) && trace == old(trace)
      ensures exchanger != "" && Blocked().None? && Routes(keys).None? ==>
        r == Rejected(NotIterable) && binds == old(binds) && trace == old(trace)
      ensures exchanger != "" && Blocked().None? && Routes(keys).Some? ==>
        var ks := Routes(keys).value;
        && binds == old(binds) + ks[..Min(accepted, |ks|)]
        && trace == old(trace) + Requests(BindKey, queue, exchanger, ks[..Min(accepted + 1, |ks|)])
        && r == (if |ks| <= accepted then Resolved(()) else Rejected(BrokerRejected))
    {
      r := BindProcess(BindKey, keys, false, accepted);
      if exchanger != "" && Blocked().None? && Routes(keys).Some? {
        BindEachKey(Routes(keys).value, old(binds), accepted);
      }
    }

    /** `unbind(routingKeys)`. */
    method Unbind(keys: Keys, accepted: nat) returns (r: Outcome<()>)
      requires Valid()
      modifies this`binds, this`trace
      ensures Valid()
      ensures exchanger == "" ==> r == Thrown(NoUnbindFromDefault) && binds == old(binds) && trace == old(trace)
      ensures exchanger != "" && Blocked().Some? ==>
        r == Rejected(Blocked().value) && binds == old(binds) && trace == old(trace)
      ensures exchanger != "" && Blocked().None? && Routes(keys).None? ==>
        r == Rejected(NotIterable) && binds == old(binds) && trace == old(trace)
      ensures exchanger != "" && Blocked().None? && Routes(keys).Some? ==>
        var ks := Routes(keys).value;
        && binds == ApplyAll(RemoveBind, old(binds), ks[..Min(accepted, |ks|)])
        && |binds| == Max(|old(binds)| - Min(accepted, |ks|), 0)
        && trace == old(trace) + Requests(UnbindKey, queue, exchanger, ks[..Min(accepted + 1, |ks|)])
        && r == (if |ks| <= accepted then Resolved(()) else Rejected(BrokerRejected))
    {
      r := BindProcess(UnbindKey, keys, false, accepted);
      if exchanger != "" && Blocked().None? && Routes(keys).Some? {
        UnbindEachKey(Routes(keys).value, old(binds), accepted);
      }
    }

    /** `_bindProccess(method, routingKeys)`: throws at once against the
        default exchange; otherwise awaits the channel and the assertion, then
        sends one request per key and updates `binds` after each accepted one.
        With `live` the loop iterates `binds` itself, as `bind(this.binds)`
        does. */
    method BindProcess(op: BindOp, keys: Keys, live: bool, accepted: nat) returns (r: Outcome<()>)
      requires Valid()
      modifies this`binds, this`trace
      ensures Valid()
      ensures exchanger == "" ==>
        && r == Thrown(if op == BindKey then NoBindToDefault else NoUnbindFromDefault)
        && binds == old(binds) && trace == old(trace)
      ensures exchanger != "" && Blocked().Some? ==>
        r == Rejected(Blocked().value) && binds == old(binds) && trace == old(trace)
      ensures exchanger != "" && Blocked().None? && Routes(keys).None? ==>
        r == Rejected(NotIterable) && binds == old(binds) && trace == old(trace)
      ensures exchanger != "" && Blocked().None? && Routes(keys).Some? ==>
        Ran(op, Routes(keys).value, live, old(binds), accepted, queue, exchanger, old(trace), binds, trace, r)
    {
      if exchanger == "" {
        return Thrown(if op == BindKey then NoBindToDefault else NoUnbindFromDefault);
      }
      if !channelOk {
        return Rejected(ChannelUnavailable);
      }
      if !asserted {
        return Rejected(AssertionFailed);
      }
      var routes := Routes(keys);
      if routes.None? {
        return Rejected(NotIterable);
      }
      r := Iterate(op, routes.value, live, accepted);
    }

    /** The `for (route of routingKeys)` loop of `_bindProccess`, over `fixed`
        or, with `live`, over `binds` itself. */
    method Iterate(op: BindOp, fixed: seq<string>, live: bool, accepted: nat) returns (r: Outcome<()>)
      requires exchanger != ""
      modifies this`binds, this`trace
      ensures Ran(op, fixed, live, old(binds), accepted, queue, exchanger, old(trace), binds, trace, r)
    {
      var step, i, left, done, completed := Apply(op), 0, accepted, false, false;
      ghost var sent: seq<string> := [];
      ghost var whole := Resume(step, fixed, live, binds, 0, accepted, []);
      while !done
        invariant !done ==> whole == Resume(step, fixed, live, binds, i, left, sent) && !completed
        invariant done ==> whole == Walked(binds, sent, completed)
        invariant trace == old(trace) + Requests(op, queue, exchanger, sent)
        decreases if done then 0 else 1, left
      {
        done, completed, sent := Step(op, step, fixed, live, i, left, whole, sent, old(trace));
        if !done {
          i, left := i + 1, left - 1;
        }
      }
      RanWhenResumed(op, fixed, live, old(binds), accepted, queue, exchanger, old(trace), binds, sent, completed);
      r := if completed then Resolved(()) else Rejected(BrokerRejected);
    }

    /** One pass of the loop body: the request for the key at position `i`
        and, if the broker accepts it, the update of `binds`. */
    method Step(op: BindOp, step: Update, fixed: seq<string>, live: bool, i: nat, left: nat,
                ghost whole: Walked, ghost sent: seq<string>, ghost t0: seq<Command>)
      returns (done: bool, completed: bool, ghost sent': seq<string>)
      requires whole == Resume(step, fixed, live, binds, i, left, sent)
      requires trace == t0 + Requests(op, queue, exchanger, sent)
      modifies this`binds, this`trace
      ensures trace == t0 + Requests(op, queue, exchanger, sent')
      ensures done ==> whole == Walked(binds, sent', completed)
      ensures !done ==> !completed && left > 0 && whole == Resume(step, fixed, live, binds, i + 1, left - 1, sent')
    {
      var list := if live then binds else fixed;
      if i >= |list| {
        return true, true, sent;
      }
      var route := list[i];
      RequestsSnoc(op, queue, exchanger, sent, route);
      trace := trace + [Request(op, queue, exchanger, route)];
      sent' := sent + [route];
      if left == 0 {
        return true, false, sent';
      }
      binds := step(binds, route);
      done, completed := false, false;
    }

    /** The state `restart(c)` leaves, given the wrapper's cache, consumer tag,
        `binds` and trace before it: the new epoch on connection `c`; the cached
        subscription sent again when the assertion resolved and it has options,
        the new tag kept only when the broker accepted all of it; and, when
        that succeeded and keys were bound, the bound keys repeated
        cyclically until the broker rejected a bind. */
    ghost predicate Restarted(c: nat, input: RestartInput, cache0: Option<Subscription>, ct0: Option<string>,
                              binds0: seq<string>, trace0: seq<Command>)
      reads this
    {
      var resent := cache0.Some? && asserted && cache0.value.options.Some?;
      var plan := if resent then SubscribePlan(queue, cache0.value.ack, cache0.value.options.value) else [];
      var subscribed := cache0.None? || (resent && Completes(plan, input.subscribeAccepted));
      var replay := subscribed && binds0 != [] && asserted;
      && conn == c && channelOk == input.channelOk
      && asserted == (input.channelOk && Completes(Plan(), input.assertAccepted))
      && cache == cache0
      && ct == (if cache0.Some? && subscribed then Some(input.tag) else ct0)
      && binds == (if replay then binds0 + Cycle(binds0, input.bindAccepted) else binds0)
      && trace == trace0 + EpochCommands(c, input.channelOk, input.assertAccepted)
                  + (if resent then Issued(plan, input.subscribeAccepted) else [])
                  + (if replay then Requests(BindKey, queue, exchanger, Cycle(binds0, input.bindAccepted + 1)) else [])
    }

    /** How the promise `restart(c)` returns ends, given the cache and `binds`
        before it: rejected when the subscription replay failed, otherwise
        resolved when no keys were bound, and otherwise rejected, because the
        bind replay only ends with a rejection. */
    ghost function RestartOutcome(input: RestartInput, cache0: Option<Subscription>, binds0: seq<string>): Outcome<()>
      reads this
    {
      var resent := cache0.Some? && asserted && cache0.value.options.Some?;
      var plan := if resent then SubscribePlan(queue, cache0.value.ack, cache0.value.options.value) else [];
      var subscribed := cache0.None? || (resent && Completes(plan, input.subscribeAccepted));
      if !subscribed then Rejected(if Blocked().Some? then Blocked().value
                                   else if cache0.value.options.None? then NoSubscribeOptions
                                   else BrokerRejected)
      else if binds0 == [] then Resolved(())
      else if Blocked().Some? then Rejected(Blocked().value)
      else Rejected(BrokerRejected)
    }

    /** `restart(conn)`, the wrapper's answer to a `reconnect` signal: opens a
        channel on the new connection and starts a new assertion, replays a
        cached subscription with the replay flag set, and then, if that
        succeeded and keys were bound, runs `bind(this.binds)`. That loop
        iterates the very list it appends to, so it goes on until the broker
        rejects a bind: after `k` accepted binds `binds` is the old list
        followed by its first `k` elements repeated cyclically. */
    method Restart(c: nat, input: RestartInput) returns (r: Outcome<()>)
      requires Valid()
      modifies this`conn, this`channelOk, this`asserted, this`cache, this`ct, this`binds, this`trace, this`restarts
      ensures Valid()
      ensures restarts == old(restarts) + 1
      ensures Restarted(c, input, old(cache), old(ct), old(binds), old(trace))
      ensures r == RestartOutcome(input, old(cache), old(binds))
    {
      Open(c, input.channelOk, input.assertAccepted);
      restarts := restarts + 1;
      r := Recover(input.subscribeAccepted, input.tag, input.bindAccepted);
    }

    /** What `restart` does once the new epoch is open: the cached
        subscription is replayed, and, if that succeeded and keys were bound,
        `bind(this.binds)` runs. */
    method Recover(subscribeAccepted: nat, tag: string, bindAccepted: nat) returns (r: Outcome<()>)
      requires Valid()
      modifies this`cache, this`ct, this`binds, this`trace
      ensures Valid()
      ensures cache == old(cache)
      ensures
        var sub := cache;
        var resent := sub.Some? && asserted && sub.value.options.Some?;
        var plan := if resent then SubscribePlan(queue, sub.value.ack, sub.value.options.value) else [];
        var subscribed := sub.None? || (resent && Completes(plan, subscribeAccepted));
        var replay := subscribed && old(binds) != [] && asserted;
        && ct == (if sub.Some? && subscribed then Some(tag) else old(ct))
        && binds == (if replay then old(binds) + Cycle(old(binds), bindAccepted) else old(binds))
        && trace == old(trace) + (if resent then Issued(plan, subscribeAccepted) else [])
                    + (if replay then Requests(BindKey, queue, exchanger, Cycle(old(binds), bindAccepted + 1)) else [])
        && r == (if !subscribed then Rejected(if Blocked().Some? then Blocked().value
                                              else if sub.value.options.None? then NoSubscribeOptions
                                              else BrokerRejected)
                 else if old(binds) == [] then Resolved(())
                 else if Blocked().Some? then Rejected(Blocked().value)
                 else Rejected(BrokerRejected))
    {
      r := Resubscribe(subscribeAccepted, tag);
      ghost var t2 := trace;
      if !r.Resolved? {
        assert trace == t2 + [];
        return;
      }
      if |binds| > 0 {
        r := ReplayBinds(bindAccepted);
      } else {
        assert trace == t2 + [];
      }
    }

    /** The first step of `restart`: `subscribe(...cache, true)` when a
        subscription is cached. It is sent again when the assertion resolved
        and the cached options exist, and it succeeds when there was nothing
        to replay or the broker accepted the whole subscription. */
    method Resubscribe(accepted: nat, tag: string) returns (r: Outcome<()>)
      requires Valid()
      modifies this`cache, this`ct, this`trace
      ensures Valid()
      ensures cache == old(cache)
      ensures
        var sub := cache;
        var resent := sub.Some? && asserted && sub.value.options.Some?;
        var plan := if resent then SubscribePlan(queue, sub.value.ack, sub.value.options.value) else [];
        var subscribed := sub.None? || (resent && Completes(plan, accepted));
        && ct == (if sub.Some? && subscribed then Some(tag) else old(ct))
        && trace == old(trace) + (if resent then Issued(plan, accepted) else [])
        && r == (if subscribed then Resolved(())
                 else Rejected(if Blocked().Some? then Blocked().value
                               else if sub.value.options.None? then NoSubscribeOptions
                               else BrokerRejected))
    {
      if cache.None? {
        assert trace == old(trace) + [];
        return Resolved(());
      }
      var s := cache.value;
      r := Subscribe(s.handler, s.ack, s.options, true, accepted, tag);
      if !asserted || s.options.None? {
        assert trace == old(trace) + [];
      }
    }

    /** The last step of `restart`: `bind(this.binds)`, which iterates the
        list it appends to and so goes on until the broker rejects a bind. */
    method ReplayBinds(accepted: nat) returns (r: Outcome<()>)
      requires Valid() && binds != []
      modifies this`binds, this`trace
      ensures Valid()
      ensures binds == (if asserted then old(binds) + Cycle(old(binds), accepted) else old(binds))
      ensures trace == old(trace) + (if asserted then Requests(BindKey, queue, exchanger, Cycle(old(binds), accepted + 1)) else [])
      ensures r == Rejected(if Blocked().Some? then Blocked().value else BrokerRejected)
    {
      r := BindProcess(BindKey, Many(binds), true, accepted);
      if asserted {
        Replay(old(binds), old(binds), accepted);
      } else {
        assert trace == old(trace) + [];
      }
    }
  }
}
