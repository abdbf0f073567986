# rmqlite: queue wrappers that survive reconnects

This project models the coordination layer of rmqlite, a thin wrapper over an
AMQP client library. The model has two levels.

- The factory is the closure that `module.exports(url, opt)` returns. It owns
  one connection at a time and a registry of connection listeners. It also
  owns a shared event bus, on which every queue wrapper registers its
  `restart` for the `reconnect` signal.
- A queue wrapper (the `RabbitMQ` class) opens a channel for each "connection
  epoch". On that channel it asserts its topology: the queue, the exchange,
  and the binding of the queue to the exchange under the queue's name. It
  remembers its last subscription (`_subscribeCache`), its consumer tag (`ct`)
  and the routing keys it has bound (`binds`). On `reconnect` it replays the
  subscription and the binds.

The broker appears only as a trace of the requests each wrapper sends
(`Amqp.Command`). Its answers are parameters:

- whether a channel opens;
- for every call, how many of the call's requests the broker accepts before
  it rejects the next one;
- the consumer tag it hands out;
- whether a publish was written.

Each asynchronous operation runs as one sequential method.

Modules:

- `Amqp`: commands, failures, and how a promise-returning call ends.
- `Topology`: the option switches and the assertion plan of `assert()`.
  `Topology.IsAssertPlan` describes the plan, and `AssertPlanUnique` shows it
  determines `AssertPlan`.
- `BindList`: the `binds` list, JavaScript's `indexOf`/`splice`, and the
  `for..of` loop of `_bindProccess` as the function `Walk`. `Walk` takes the
  update of `binds` after an accepted request as a parameter: `Append` for
  bind, `RemoveBind` for unbind.
  - `Walk` can iterate `binds` itself while appending to it ("live"), which
    is what `bind(this.binds)` in `restart` does.
  - `Replay` proves what that self-feeding loop leaves behind.
- `Queue`: the class `Wrapper`.
- `Reconnection`: the class `Factory`, its listener registry, and the bus.

## Model

| member | source | states |
|---|---|---|
| Amqp.Issued | lib/RabbitMQ.js:99-110 | the requests reaching the broker when each waits for the previous one: the accepted prefix and the first rejected request |
| Topology.ExchangerName | lib/RabbitMQ.js:85 | a falsy exchanger argument names the default exchange "" and any other is kept |
| Topology.ExchangeType | lib/RabbitMQ.js:105 | the given type when it is non-empty, otherwise fanout |
| Topology.AssertPlan | lib/RabbitMQ.js:98-111 | at most three requests; what they are is stated by AssertPlanMeets and AssertPlanUnique |
| Topology.AssertPlanMeets | lib/RabbitMQ.js:98-111 | the queue is asserted exactly when `assert` is not the literal false; the exchange is asserted exactly when one is named; the binding under the queue's name is made exactly when an exchange is named and neither switch is false; nothing else is sent; they go in that order |
| Topology.PlanMembers | lib/RabbitMQ.js:101-108 | under that description, which commands a plan holds depends only on the queue, the exchange and the switches |
| Topology.AssertPlanUnique | lib/RabbitMQ.js:98-111 | any request sequence meeting that description is exactly AssertPlan's |
| Topology.TopicExchangeScenario | lib/RabbitMQ.js:98-111 | queue "q1" on a topic exchange "events" asserts the queue, the topic exchange, then binds under "q1" |
| BindList.Routes | lib/RabbitMQ.js:197-199 | a truthy single key becomes a one-element list, an empty string iterates as nothing, an array is kept, and only a missing argument is not iterable |
| BindList.IndexFrom | lib/RabbitMQ.js:214 | the scan of `indexOf` from a position: -1 or a position at or after it that holds the key; the first-occurrence property is IndexFromSpec |
| BindList.IndexFromSpec | lib/RabbitMQ.js:214 | the scan from a position finds the first occurrence at or after it, and gives -1 exactly when there is none |
| BindList.IndexOf | lib/RabbitMQ.js:214 | `indexOf` gives -1 or a position holding the key; that the position is the first one, and -1 exactly when the key is absent, is IndexOfSpec |
| BindList.IndexOfSpec | lib/RabbitMQ.js:214 | indexOf is -1 exactly when the key is absent; otherwise it is the position of the first occurrence |
| BindList.SpliceOne | lib/RabbitMQ.js:214 | `splice(start, 1)`: a start past the end removes nothing; any other start, a negative one counting from the end, removes exactly one element of a non-empty list, the one at a non-negative start |
| BindList.RemoveBind | lib/RabbitMQ.js:214 | `splice(indexOf(k), 1)` shortens a non-empty list by exactly one; which element goes is RemoveBindSpec |
| BindList.RemoveBindSpec | lib/RabbitMQ.js:214 | splice(indexOf(k), 1) drops the first occurrence of a present key; it drops the last element when the key is absent; the list is one shorter whenever it was non-empty |
| BindList.RequestsEach | lib/RabbitMQ.js:209-210 | one bind or unbind request per key, in order, for this queue and exchange |
| BindList.BindAllAppends | lib/RabbitMQ.js:211-212 | accepted binds append their keys to `binds` in order |
| BindList.UnbindAllLength | lib/RabbitMQ.js:213-214 | each accepted unbind shortens a non-empty `binds` by one |
| BindList.Walk | lib/RabbitMQ.js:209-216 | with `left` acceptances at most `left + 1` keys are sent, and a loop that does not complete has sent the key the broker rejected; the closed forms are WalkFixed and Replay |
| BindList.ResumeIsWalk | lib/RabbitMQ.js:209-216 | running the loop one pass at a time, collecting the keys sent, ends where Walk says |
| BindList.RanWhenResumed | lib/RabbitMQ.js:209-217 | a step-by-step run leaves `binds`, the trace and the outcome as Walk describes them |
| BindList.WalkFixed | lib/RabbitMQ.js:209-216 | over a fixed key list, the broker sees the keys up to and including the first one it rejects; `binds` absorbs exactly the accepted keys; the loop completes exactly when all are accepted |
| BindList.WalkFixedEnds | lib/RabbitMQ.js:209-216 | over a fixed list the loop completes exactly when the broker accepts every remaining key |
| BindList.WalkFixedRoutes | lib/RabbitMQ.js:209-216 | over a fixed list the keys sent are the remaining ones up to and including the first rejected one |
| BindList.WalkFixedBinds | lib/RabbitMQ.js:209-216 | over a fixed list `binds` takes in exactly the accepted keys, in order |
| BindList.BindEachKey | lib/RabbitMQ.js:209-212 | bind: `binds` gains the accepted prefix of the keys; the requests are that prefix plus the rejected key |
| BindList.UnbindEachKey | lib/RabbitMQ.js:209-214 | unbind: `binds` loses one element per accepted key, and the later keys are not sent |
| BindList.BindThenUnbind | lib/RabbitMQ.js:212-214 | binding then unbinding a key keeps the length of `binds`; for a key not bound before, it restores the list |
| BindList.BindUnbindScenario | lib/RabbitMQ.js:209-214 | binding ["a.b", "a.c"] and unbinding "a.b" leaves ["a.c"] |
| BindList.ReplayFrom | lib/RabbitMQ.js:209-212 | the loop over the list it appends to is never exhausted; each step appends the element one cycle back; only a rejection ends it |
| BindList.Replay | lib/RabbitMQ.js:228-230 | after k accepted replay binds, `binds` is the original list followed by original[i mod n] for i < k; k + 1 requests go out; the replay never completes |
| Queue.ConsumeNoAck | lib/RabbitMQ.js:251-253 | `_.extend({noAck: !ack}, options)`: the options' `noAck` when given, otherwise `!ack` |
| Queue.SubscribePlan | lib/RabbitMQ.js:248-253 | a prefetch only when the options define one, then exactly one consume; its noAck is the options' noAck when given, otherwise !ack |
| Queue.Wrapper.constructor | lib/RabbitMQ.js:84-96 | the normalised exchanger and options; no cache, no tag, no binds; the first epoch's channel and assertion plan on the given connection |
| Queue.Wrapper.Open | lib/RabbitMQ.js:222-223 | a new epoch: the channel on the new connection, then the assertion plan; the assertion resolves exactly when the channel opened and the broker accepted the whole plan |
| Queue.Wrapper.Send | lib/RabbitMQ.js:247-253 | a chain of awaited broker calls appends the accepted requests and the first rejected one to the trace, and succeeds exactly when all were accepted |
| Queue.Wrapper.Subscribe | lib/RabbitMQ.js:234-254 | every branch of subscribe/_subscribe: channel failure; cached and not replayed (nothing sent, cache kept, a truthy tag cleared); the cache set before the assertion is awaited; failure at missing options; prefetch and consume sent, with the tag stored only on success |
| Queue.Wrapper.Unsubscribe | lib/RabbitMQ.js:138-149 | nothing without a truthy tag; otherwise one cancel of that tag, then tag and cache cleared |
| Queue.Wrapper.Delete | lib/RabbitMQ.js:155-160 | one queue deletion on the current channel, without awaiting the assertion |
| Queue.Wrapper.Publish | lib/RabbitMQ.js:169-176 | after channel and assertion, one publish to the exchanger as it is, under `routingKey` or else the queue name; no other state changes |
| Queue.Wrapper.Bind | lib/RabbitMQ.js:183-185 | throws against the default exchange without sending or changing anything; otherwise as BindEachKey |
| Queue.Wrapper.Unbind | lib/RabbitMQ.js:192-194 | throws against the default exchange without sending or changing anything; otherwise as UnbindEachKey |
| Queue.Wrapper.BindProcess | lib/RabbitMQ.js:196-218 | the synchronous throw; rejection while channel or assertion failed; rejection on a missing key argument; otherwise the loop's result as Walk describes it |
| Queue.Wrapper.Iterate | lib/RabbitMQ.js:209-216 | the loop leaves `binds`, the trace and the outcome exactly as Walk describes |
| Queue.Wrapper.Step | lib/RabbitMQ.js:210-215 | one loop pass: the request, then the update of `binds` only if the broker accepted it |
| Queue.Wrapper.Restart | lib/RabbitMQ.js:220-232 | a new epoch; a cached subscription is replayed with the replay flag and a new tag; then, if that succeeded, the binds are replayed as in Replay; the tag, `binds`, the trace (`Restarted`) and the outcome (`RestartOutcome`) hold in every case |
| Queue.Wrapper.Recover | lib/RabbitMQ.js:224-231 | after the epoch opened: the subscription replay, then the bind replay only when that succeeded and keys were bound; the result of whichever ran last |
| Queue.Wrapper.Resubscribe | lib/RabbitMQ.js:224-226 | the replayed subscription keeps the cache and stores the new tag only when consume succeeds |
| Queue.Wrapper.ReplayBinds | lib/RabbitMQ.js:228-230 | `bind(this.binds)` appends the cyclic repetition and always ends rejected |
| Reconnection.HookFor | lib/RabbitMQ.js:275-289 | on an open connection a "connect" callback is called and any other is attached; on a failed one only "error" (with the error) and "close" callbacks are called |
| Reconnection.Rehooks | lib/RabbitMQ.js:299-301 | re-registering the listeners leaves at most one hook per listener |
| Reconnection.RehooksConnected | lib/RabbitMQ.js:298-302 | re-registering on an open connection gives one hook per remembered listener, in order |
| Reconnection.RehooksFromListeners | lib/RabbitMQ.js:298-302 | every re-registration hook belongs to the new connection and comes from a remembered listener; every hook a listener leaves is among them |
| Reconnection.RemoveListener | lib/RabbitMQ.js:261 | an absent handler leaves the bus unchanged; a present one makes it exactly one entry shorter |
| Reconnection.LastIndexOf | lib/RabbitMQ.js:261 | the position of the most recently added entry equal to the handler, or -1 exactly when there is none |
| Reconnection.RemoveListenerLast | lib/RabbitMQ.js:261 | the entry removed is the most recently added equal one, and the others keep their order |
| Reconnection.DestroyDetachesNothing | lib/RabbitMQ.js:95 | a bus of bound restart handlers holds nothing the prototype method matches |
| Reconnection.Factory.constructor | lib/RabbitMQ.js:67-70 | connection 0, no listeners, an empty bus |
| Reconnection.Factory.Create | lib/RabbitMQ.js:84-96 | a fresh wrapper on the current connection whose bound restart joins the end of the bus; on a failed connection its channel fails, so its assertion does not resolve and nothing is sent: the trace holds only the epoch marker |
| Reconnection.Factory.On | lib/RabbitMQ.js:271-290 | without `re` exactly one listener is remembered; with `re` the registry is unchanged; the callback is hooked to the current connection |
| Reconnection.Factory.Rehook | lib/RabbitMQ.js:298-302 | every remembered listener is hooked to the new connection, in order, and the registry is unchanged |
| Reconnection.Factory.Signal | lib/RabbitMQ.js:304 | each wrapper on the bus, in order, restarts once on the new connection and is left as `Restarted` describes: the new epoch, the subscription replayed, the binds replayed; nothing but those wrappers changes |
| Reconnection.Factory.Reconnect | lib/RabbitMQ.js:296-305 | the connection is replaced; listeners are re-hooked with the registry unchanged; one reconnect signal carries the new connection; every wrapper on the bus restarts once on it and is left as `Restarted` describes; on a failed connection no wrapper's assertion resolves |
| Reconnection.Factory.Destroy | lib/RabbitMQ.js:260-262 | the bus is unchanged: the wrapper stays registered |

## Left out

- The AMQP client library's I/O is left out. The connection, channel creation and every channel call appear only as trace entries, and their results are parameters.
- Concurrency is left out: the `co` runner, the promises, and calls that interleave while they await the same channel or assertion. Each operation runs alone, start to finish.
- The assertion's requests are recorded when the epoch opens, not when a later operation awaits them.
- `Reconnection.Factory.Signal`: the outcome of each wrapper's restart is dropped, as `emit` drops it. The state each restart leaves is stated in full; the outcome is stated by `Queue.Wrapper.Restart`.
- `Reconnection.Factory.Reconnect`: drops each restart's outcome, as Signal does.
- `Reconnection.Factory.Create`: `CreateChannel(c)` is an epoch marker, not a request. It is recorded even when the connection failed and `createChannel` was never called (`connecting` calls it only once the connection opened). The same holds for the epochs `Reconnection.Factory.Reconnect` opens.
- Message envelopes (`toString`, `toJSON`, `message`, `ack`) are left out. They rely on buffer decoding and JSON parsing. Delivery to the handler is not modelled either, so a handler is an opaque identifier.
- `Queue.Wrapper.Publish`: the JSON encoding of the message is not modelled; the body is given as its text. Publish options are not modelled. Whether the message was written is a parameter.
- Options are not passed on to the broker. The assertion and consume commands carry only the fields the wrapper itself reads (`assert`, `bind`, `type`, `prefetch`, `noAck`).
- A `prefetch` of `null`, or one of another type, is not modelled; prefetch is an integer or absent.
- The unused `this.connect` field is left out.
- `index.js` is a pass-through to the factory.
- Node's EventEmitter is reduced to a sequence of handlers. `setMaxListeners(0)` is left out.
- A user calling `bind(w.binds)` or `unbind(w.binds)` directly is not a separate entry point. Both iterate the array they change: `bind` appends to it, `unbind` splices it. `Bind` and `Unbind` iterate a fixed list. The self-iterating loop is modelled for the `bind(this.binds)` call that `restart` makes.
- `BindList.Replay`: the replay loop never ends while the broker accepts binds. Its length is bounded by the broker's acceptance count, so every restart has a last rejected bind.
- Three behaviours are modelled as the code has them, though a reader might expect otherwise:
  - a repeated non-replay subscribe clears a truthy consumer tag rather than returning it;
  - unbinding an absent key removes the last bound key;
  - `destroy` detaches nothing, although the program's comment at lib/RabbitMQ.js:257 says it removes the object from the event emitter.
