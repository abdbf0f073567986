/** The vocabulary the rest of the model shares: optional values, the requests a
    queue wrapper sends to the broker (the amqplib channel calls it makes), and
    how one of the wrapper's promise-returning operations ends. */
module Amqp {

  datatype Option<+T> = None | Some(value: T)

  /** One entry of a wrapper's trace, in the order the wrapper issues it. Every
      entry but `CreateChannel` is a request to the broker. `CreateChannel(conn)`
      marks the start of a connection epoch: the wrapper's channel is derived
      from connection number `conn`, and the entry is recorded even when that
      connection failed and no channel was requested. */
  datatype Command =
    | CreateChannel(conn: nat)
    | AssertQueue(queue: string)
    | AssertExchange(exchange: string, kind: string)
    | BindQueue(queue: string, exchange: string, key: string)
    | UnbindQueue(queue: string, exchange: string, key: string)
    | Prefetch(count: int)
    | Consume(queue: string, noAck: bool)
    | Cancel(tag: string)
    | Publish(exchange: string, key: string, body: string)
    | DeleteQueue(queue: string)

  /** Why an operation failed. The first two are thrown synchronously, before any
      asynchronous work; the last two are TypeErrors raised inside the
      asynchronous body (iterating a missing key list, reading `prefetch` of a
      missing options object). */
  datatype Failure =
    | NoBindToDefault
    | NoUnbindFromDefault
    | ChannelUnavailable
    | AssertionFailed
    | BrokerRejected
    | NotIterable
    | NoSubscribeOptions

  /** How a call ends: its promise resolves, it throws before returning a
      promise, or its promise rejects. */
  datatype Outcome<+T> = Resolved(value: T) | Thrown(error: Failure) | Rejected(error: Failure)

  /** The requests that reach the broker when `plan` is sent one request after
      the other, each waiting for the previous one, and the broker accepts only
      the first `accepted` of them: the accepted ones and the one it rejects. */
  function Issued(plan: seq<Command>, accepted: nat): (r: seq<Command>)
    ensures r <= plan
    ensures |r| == if accepted < |plan| then accepted + 1 else |plan|
  {
    if accepted < |plan| then plan[..accepted + 1] else plan
  }

  /** Whether every request of `plan` is accepted. */
  predicate Completes(plan: seq<Command>, accepted: nat)
  {
    |plan| <= accepted
  }
}
