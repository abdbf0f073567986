/** The topology a queue wrapper asserts once per connection epoch: the queue,
    the exchange when one is named, and the binding of the queue to that
    exchange under the queue's own name. */
module Topology {
  import opened Amqp

  /** A recognised key of an options object. Only the literal `false` switches
      a feature off (the source compares with `!== false`), so an absent key and
      any other value, `0` or `null` included, leave it on. */
  datatype Switch = Absent | LiteralFalse | OtherValue

  predicate On(s: Switch)
  {
    s != LiteralFalse
  }

  /** The queue options the wrapper reads: `assert` and `bind`. A missing
      options object behaves as `QueueOptions(Absent, Absent)`. */
  datatype QueueOptions = QueueOptions(assertion: Switch, binding: Switch)

  /** The exchange options the wrapper reads: `type`. */
  datatype ExchangeOptions = ExchangeOptions(kind: Option<string>)

  /** `exchanger || ''`: any falsy exchanger argument (None) names the default exchange. */
  function ExchangerName(e: Option<string>): (r: string)
    ensures e.Some? ==> r == e.value
    ensures e.None? ==> r == ""
  {
    if e.Some? then e.value else ""
  }

  /** `exchangerOptions.type || 'fanout'`: a missing or empty type means fanout. */
  function ExchangeType(x: ExchangeOptions): (t: string)
    ensures x.kind.Some? && x.kind.value != "" ==> t == x.kind.value
    ensures x.kind.None? || x.kind.value == "" ==> t == "fanout"
  {
    if x.kind.Some? && x.kind.value != "" then x.kind.value else "fanout"
  }

  /** Position of a command kind in an assertion plan. */
  function Rank(c: Command): nat
  {
    match c
    case AssertQueue(_) => 0
    case AssertExchange(_, _) => 1
    case _ => 2
  }

  predicate StrictlyRanked(s: seq<Command>)
  {
    forall i, j :: 0 <= i < j < |s| ==> Rank(s[i]) < Rank(s[j])
  }

  /** What `assert()` promises, stated without computing it: it asserts the
      queue exactly when `assert` is on, asserts the named exchange with its
      type exactly when an exchange is named, binds the queue to it under the
      queue's name exactly when an exchange is named and both `assert` and
      `bind` are on, issues nothing else, and issues them in that order. */
  ghost predicate IsAssertPlan(s: seq<Command>, queue: string, exchanger: string, q: QueueOptions, x: ExchangeOptions)
  {
    var aq, ax, bq := AssertQueue(queue), AssertExchange(exchanger, ExchangeType(x)), BindQueue(queue, exchanger, queue);
    (forall i :: 0 <= i < |s| ==> s[i] == aq || s[i] == ax || s[i] == bq)
    && (aq in s <==> On(q.assertion))
    && (ax in s <==> exchanger != "")
    && (bq in s <==> exchanger != "" && On(q.assertion) && On(q.binding))
    && StrictlyRanked(s)
  }

  /** The requests `assert()` sends, in order, once the channel is open. */
  function AssertPlan(queue: string, exchanger: string, q: QueueOptions, x: ExchangeOptions): (r: seq<Command>)
    ensures |r| <= 3
  {
    (if On(q.assertion) then [AssertQueue(queue)] else [])
    + (if exchanger != "" then
         [AssertExchange(exchanger, ExchangeType(x))]
         + (if On(q.assertion) && On(q.binding) then [BindQueue(queue, exchanger, queue)] else [])
       else [])
  }

  /** AssertPlan meets the description of `assert()`. */
  lemma AssertPlanMeets(queue: string, exchanger: string, q: QueueOptions, x: ExchangeOptions)
    ensures IsAssertPlan(AssertPlan(queue, exchanger, q, x), queue, exchanger, q, x)
  {
  }

  /** Dropping the head of a strictly ranked sequence leaves a strictly ranked
      sequence that holds every other member and not the head. */
  lemma RankedTail(s: seq<Command>)
    requires StrictlyRanked(s) && s != []
    ensures StrictlyRanked(s[1..])
    ensures forall c :: c in s[1..] <==> c in s && c != s[0]
  {
    forall c | c in s && c != s[0] ensures c in s[1..] {
      var n :| 0 <= n < |s| && s[n] == c;
      assert s[1..][n - 1] == c;
    }
    forall c | c in s[1..] ensures c != s[0] {
      var m :| 0 <= m < |s[1..]| && s[1..][m] == c;
      assert s[m + 1] == c;
    }
  }

  /** The head of a strictly ranked sequence has the least rank of its members. */
  lemma RankedHead(s: seq<Command>, c: Command)
    requires StrictlyRanked(s) && c in s
    ensures Rank(s[0]) <= Rank(c)
  {
    var n :| 0 <= n < |s| && s[n] == c;
  }

  /** Two strictly ranked sequences with the same members, taken from a set in
      which no two commands share a rank, are the same sequence. */
  lemma {:induction false} RankedUnique(s: seq<Command>, t: seq<Command>, allowed: set<Command>)
    requires StrictlyRanked(s) && StrictlyRanked(t)
    requires forall c :: c in s <==> c in t
    requires forall c :: c in s ==> c in allowed
    requires forall a, b :: a in allowed && b in allowed && Rank(a) == Rank(b) ==> a == b
    ensures s == t
    decreases |s|
  {
    if s != [] {
      assert s[0] in s;
      assert t[0] in t;
      RankedHead(s, t[0]);
      RankedHead(t, s[0]);
      assert s[0] == t[0];
      RankedTail(s);
      RankedTail(t);
      RankedUnique(s[1..], t[1..], allowed);
      assert s == [s[0]] + s[1..];
      assert t == [t[0]] + t[1..];
    }
  }

  /** Under the description in IsAssertPlan, which commands a plan holds
      depends only on the queue, the exchange and the switches. */
  lemma PlanMembers(s: seq<Command>, queue: string, exchanger: string, q: QueueOptions, x: ExchangeOptions, c: Command)
    requires IsAssertPlan(s, queue, exchanger, q, x)
    ensures c in s <==>
      || (c == AssertQueue(queue) && On(q.assertion))
      || (c == AssertExchange(exchanger, ExchangeType(x)) && exchanger != "")
      || (c == BindQueue(queue, exchanger, queue) && exchanger != "" && On(q.assertion) && On(q.binding))
  {
    if c in s {
      var i :| 0 <= i < |s| && s[i] == c;
    }
  }

  /** The description in IsAssertPlan determines the plan: `assert()` issues
      exactly AssertPlan's requests and in AssertPlan's order. */
  lemma AssertPlanUnique(s: seq<Command>, queue: string, exchanger: string, q: QueueOptions, x: ExchangeOptions)
    requires IsAssertPlan(s, queue, exchanger, q, x)
    ensures s == AssertPlan(queue, exchanger, q, x)
  {
    var r := AssertPlan(queue, exchanger, q, x);
    AssertPlanMeets(queue, exchanger, q, x);
    forall c ensures c in s <==> c in r {
      PlanMembers(s, queue, exchanger, q, x, c);
      PlanMembers(r, queue, exchanger, q, x, c);
    }
    var aq, ax, bq := AssertQueue(queue), AssertExchange(exchanger, ExchangeType(x)), BindQueue(queue, exchanger, queue);
    RankedUnique(s, r, {aq, ax, bq});
  }

  /** An exchange "events" of type topic with queue "q1" and empty queue
      options: the queue, then the topic exchange, then the binding under "q1". */
  lemma TopicExchangeScenario()
    ensures AssertPlan("q1", "events", QueueOptions(Absent, Absent), ExchangeOptions(Some("topic")))
         == [AssertQueue("q1"), AssertExchange("events", "topic"), BindQueue("q1", "events", "q1")]
  {
  }
}
