/** The list of routing keys a queue wrapper has bound (`binds`) and the loop
    that binds or unbinds a list of keys one key at a time, updating `binds`
    after each request the broker accepts. */
module BindList {
  import opened Amqp

  datatype BindOp = BindKey | UnbindKey

  /** The `routingKeys` argument: missing (undefined or null), one string, or
      an array of strings. */
  datatype Keys = Missing | Single(key: string) | Many(keys: seq<string>)

  /** What the loop iterates: a truthy single key is wrapped into a list, an
      empty string is left as it is and iterates as no characters, and a
      missing argument cannot be iterated at all. */
  function Routes(k: Keys): (r: Option<seq<string>>)
    ensures r.None? <==> k.Missing?
    ensures k.Single? && k.key != "" ==> r == Some([k.key])
    ensures k == Single("") ==> r == Some([])
    ensures k.Many? ==> r == Some(k.keys)
  {
    match k
    case Missing => None
    case Single(key) => if key != "" then Some([key]) else Some([])
    case Many(keys) => Some(keys)
  }

  function Min(a: int, b: int): int { if a <= b then a else b }
  function Max(a: int, b: int): int { if a <= b then b else a }

  /** Array.prototype.indexOf: the first position of `k` in `s`, or -1. */
  function IndexOf(s: seq<string>, k: string): (r: int)
    ensures -1 <= r < |s|
    ensures 0 <= r ==> s[r] == k
  {
    IndexFrom(s, k, 0)
  }

  /** The scan of indexOf from position `j` on. */
  function IndexFrom(s: seq<string>, k: string, j: nat): (r: int)
    ensures -1 <= r < |s|
    ensures 0 <= r ==> j <= r && s[r] == k
    decreases |s| - j
  {
    if j >= |s| then -1
    else if s[j] == k then j
    else IndexFrom(s, k, j + 1)
  }

  /** The scan from `j` finds the first occurrence of `k` at or after `j`,
      and gives -1 exactly when there is none. */
  lemma {:induction false} IndexFromSpec(s: seq<string>, k: string, j: nat)
    requires j <= |s|
    ensures IndexFrom(s, k, j) == -1 || j <= IndexFrom(s, k, j) < |s|
    ensures IndexFrom(s, k, j) == -1 <==> k !in s[j..]
    ensures 0 <= IndexFrom(s, k, j) ==> s[IndexFrom(s, k, j)] == k && k !in s[j..IndexFrom(s, k, j)]
    decreases |s| - j
  {
    if j < |s| && s[j] != k {
      IndexFromSpec(s, k, j + 1);
      assert s[j..] == [s[j]] + s[j + 1..];
      var r := IndexFrom(s, k, j + 1);
      if r >= 0 {
        assert s[j..r] == [s[j]] + s[j + 1..r];
      }
    }
  }

  /** IndexOf is -1 exactly when `k` is absent, and otherwise the position of
      its first occurrence. */
  lemma IndexOfSpec(s: seq<string>, k: string)
    ensures -1 <= IndexOf(s, k) < |s|
    ensures IndexOf(s, k) == -1 <==> k !in s
    ensures 0 <= IndexOf(s, k) ==> s[IndexOf(s, k)] == k && k !in s[..IndexOf(s, k)]
  {
    IndexFromSpec(s, k, 0);
    assert s[0..] == s;
    if 0 <= IndexOf(s, k) {
      assert s[0..IndexOf(s, k)] == s[..IndexOf(s, k)];
    }
  }

  /** Array.prototype.splice(start, 1): removes one element at `start`, a
      negative start counting from the end and clamped at 0; nothing when the
      position is past the end. */
  function SpliceOne(s: seq<string>, start: int): (r: seq<string>)
    ensures start >= |s| ==> r == s
    ensures start < |s| ==> |r| == Max(|s| - 1, 0)
    ensures 0 <= start < |s| ==> r == s[..start] + s[start + 1..]
  {
    var i := if start < 0 then Max(|s| + start, 0) else start;
    if i < |s| then s[..i] + s[i + 1..] else s
  }

  /** `binds.splice(binds.indexOf(k), 1)`: removes the first occurrence of
      `k`; when `k` is absent, indexOf gives -1 and the LAST element goes. */
  function RemoveBind(binds: seq<string>, k: string): (r: seq<string>)
    ensures |r| == Max(|binds| - 1, 0)
  {
    SpliceOne(binds, IndexOf(binds, k))
  }

  /** What RemoveBind does: a list one shorter whenever it was non-empty,
      without the first occurrence of a present key, and without the last
      element when the key is absent. */
  lemma RemoveBindSpec(binds: seq<string>, k: string)
    ensures var r := RemoveBind(binds, k);
      && |r| == Max(|binds| - 1, 0)
      && (k in binds ==>
            var i := IndexOf(binds, k);
            && 0 <= i < |binds| && binds[i] == k && k !in binds[..i]
            && r == binds[..i] + binds[i + 1..]
            && multiset(r) == multiset(binds) - multiset{k})
      && (k !in binds && binds != [] ==> r == binds[..|binds| - 1])
      && (binds == [] ==> r == [])
  {
    IndexOfSpec(binds, k);
    var i := IndexOf(binds, k);
    if 0 <= i {
      SpliceAt(binds, i);
    }
  }

  /** Splicing out position `i` removes exactly that element. */
  lemma SpliceAt(s: seq<string>, i: nat)
    requires i < |s|
    ensures multiset(s[..i] + s[i + 1..]) == multiset(s) - multiset{s[i]}
  {
    assert s == s[..i] + [s[i]] + s[i + 1..];
  }

  /** A change of `binds` after the broker accepted the request for a key. */
  type Update = (seq<string>, string) -> seq<string>

  /** `binds.push(k)`. */
  function Append(binds: seq<string>, k: string): seq<string>
  {
    binds + [k]
  }

  /** The update of `binds` after the broker accepted one request of kind `op`. */
  function Apply(op: BindOp): Update
  {
    match op
    case BindKey => Append
    case UnbindKey => RemoveBind
  }

  /** The request sent for key `k`. */
  function Request(op: BindOp, queue: string, exchanger: string, k: string): Command
  {
    match op
    case BindKey => BindQueue(queue, exchanger, k)
    case UnbindKey => UnbindQueue(queue, exchanger, k)
  }

  /** The requests sent for `routes`, in order. */
  function Requests(op: BindOp, queue: string, exchanger: string, routes: seq<string>): seq<Command>
  {
    if routes == [] then []
    else Requests(op, queue, exchanger, routes[..|routes| - 1]) + [Request(op, queue, exchanger, routes[|routes| - 1])]
  }

  /** One request per key of `routes`, the `i`-th for the `i`-th key. */
  lemma {:induction false} RequestsEach(op: BindOp, queue: string, exchanger: string, routes: seq<string>)
    ensures |Requests(op, queue, exchanger, routes)| == |routes|
    ensures forall i :: 0 <= i < |routes| ==> Requests(op, queue, exchanger, routes)[i] == Request(op, queue, exchanger, routes[i])
    decreases |routes|
  {
    if routes != [] {
      var init := routes[..|routes| - 1];
      RequestsEach(op, queue, exchanger, init);
      forall i | 0 <= i < |init| ensures routes[i] == init[i] { }
    }
  }

  /** `binds` after every key of `ks` was accepted, in order. */
  function ApplyAll(step: Update, binds: seq<string>, ks: seq<string>): seq<string>
    decreases |ks|
  {
    if ks == [] then binds else ApplyAll(step, step(binds, ks[0]), ks[1..])
  }

  /** Where the loop `for (route of list)` stops: the final `binds`, the keys
      whose request went out (the last one rejected unless `completed`), and
      whether the loop ran to its end. */
  datatype Walked = Walked(binds: seq<string>, routes: seq<string>, completed: bool)

  /** The loop `for (route of list) { request(route); update binds }` from
      position `i`, while the broker accepts `left` more requests. The loop
      iterates `keys`, or, when `live`, the `binds` list itself, which an
      iterator over a JavaScript array re-reads at every step: that is what
      `bind(this.binds)` in `restart` iterates while pushing onto it. */
  function Walk(step: Update, keys: seq<string>, live: bool, binds: seq<string>, i: nat, left: nat): (r: Walked)
    ensures |r.routes| <= left + 1
    ensures !r.completed ==> r.routes != []
    decreases left
  {
    var list := if live then binds else keys;
    if i >= |list| then Walked(binds, [], true)
    else if left == 0 then Walked(binds, [list[i]], false)
    else
      var w := Walk(step, keys, live, step(binds, list[i]), i + 1, left - 1);
      w.(routes := [list[i]] + w.routes)
  }

  lemma RequestsSnoc(op: BindOp, queue: string, exchanger: string, routes: seq<string>, k: string)
    ensures Requests(op, queue, exchanger, routes + [k]) == Requests(op, queue, exchanger, routes) + [Request(op, queue, exchanger, k)]
  {
    assert (routes + [k])[..|routes|] == routes;
  }

  /** The same loop as the program runs it, one step at a time, with the keys
      sent so far collected in `sent`. */
  function Resume(step: Update, keys: seq<string>, live: bool, binds: seq<string>, i: nat, left: nat,
                  sent: seq<string>): Walked
    decreases left
  {
    var list := if live then binds else keys;
    if i >= |list| then Walked(binds, sent, true)
    else if left == 0 then Walked(binds, sent + [list[i]], false)
    else Resume(step, keys, live, step(binds, list[i]), i + 1, left - 1, sent + [list[i]])
  }

  /** Running the loop step by step ends where Walk says, after the keys
      already sent. */
  lemma {:induction false} ResumeIsWalk(step: Update, keys: seq<string>, live: bool, b: seq<string>,
                                        i: nat, left: nat, sent: seq<string>)
    ensures var w := Walk(step, keys, live, b, i, left);
      Resume(step, keys, live, b, i, left, sent) == Walked(w.binds, sent + w.routes, w.completed)
    decreases left
  {
    var list := if live then b else keys;
    if i < |list| && left > 0 {
      var k := list[i];
      ResumeIsWalk(step, keys, live, step(b, k), i + 1, left - 1, sent + [k]);
      var v := Walk(step, keys, live, step(b, k), i + 1, left - 1);
      assert sent + ([k] + v.routes) == (sent + [k]) + v.routes;
    }
  }

  /** What the loop leaves behind when it starts on `b0` with `accepted`
      acceptances: `binds` as Walk says, one request per key it sent appended
      to the trace `t0`, and a promise that resolves exactly when the loop
      completed. */
  ghost predicate Ran(op: BindOp, keys: seq<string>, live: bool, b0: seq<string>, accepted: nat,
                      queue: string, exchanger: string,
                      t0: seq<Command>, binds: seq<string>, trace: seq<Command>, r: Outcome<()>)
  {
    var w := Walk(Apply(op), keys, live, b0, 0, accepted);
    && binds == w.binds
    && trace == t0 + Requests(op, queue, exchanger, w.routes)
    && r == (if w.completed then Resolved(()) else Rejected(BrokerRejected))
  }

  /** Binding appends the keys, in order. */
  lemma {:induction false} BindAllAppends(b: seq<string>, ks: seq<string>)
    ensures ApplyAll(Append, b, ks) == b + ks
    decreases |ks|
  {
    if ks != [] {
      BindAllAppends(b + [ks[0]], ks[1..]);
      assert b + [ks[0]] + ks[1..] == b + ks;
    }
  }

  /** Every accepted unbind shortens a non-empty list by exactly one. */
  lemma {:induction false} UnbindAllLength(b: seq<string>, ks: seq<string>)
    ensures |ApplyAll(RemoveBind, b, ks)| == Max(|b| - |ks|, 0)
    decreases |ks|
  {
    if ks != [] {
      RemoveBindSpec(b, ks[0]);
      UnbindAllLength(RemoveBind(b, ks[0]), ks[1..]);
    }
  }

  /** Iterating a fixed list from `i`: the broker sees the next keys up to and
      including the first it rejects, `binds` takes in exactly the accepted
      ones, and the loop completes exactly when all were accepted. */
  lemma WalkFixed(step: Update, keys: seq<string>, b: seq<string>, i: nat, left: nat)
    requires i <= |keys|
    ensures var w := Walk(step, keys, false, b, i, left);
      && w.completed == (|keys| - i <= left)
      && w.routes == keys[i..i + Min(left + 1, |keys| - i)]
      && w.binds == ApplyAll(step, b, keys[i..i + Min(left, |keys| - i)])
  {
    WalkFixedEnds(step, keys, b, i, left);
    WalkFixedRoutes(step, keys, b, i, left);
    WalkFixedBinds(step, keys, b, i, left);
  }

  lemma {:induction false} WalkFixedEnds(step: Update, keys: seq<string>, b: seq<string>, i: nat, left: nat)
    requires i <= |keys|
    ensures Walk(step, keys, false, b, i, left).completed == (|keys| - i <= left)
    decreases left
  {
    if i < |keys| && left > 0 {
      WalkFixedEnds(step, keys, step(b, keys[i]), i + 1, left - 1);
    }
  }

  lemma {:induction false} WalkFixedRoutes(step: Update, keys: seq<string>, b: seq<string>, i: nat, left: nat)
    requires i <= |keys|
    ensures Walk(step, keys, false, b, i, left).routes == keys[i..i + Min(left + 1, |keys| - i)]
    decreases left
  {
    if i < |keys| && left > 0 {
      WalkFixedRoutes(step, keys, step(b, keys[i]), i + 1, left - 1);
      RoutesStep(step, keys, b, i, left);
    } else {
      RoutesBase(step, keys, b, i, left);
    }
  }

  /** The inductive step of WalkFixedRoutes: an accepted key heads the rest. */
  lemma RoutesStep(step: Update, keys: seq<string>, b: seq<string>, i: nat, left: nat)
    requires i < |keys| && left > 0
    requires Walk(step, keys, false, step(b, keys[i]), i + 1, left - 1).routes
          == keys[i + 1..i + 1 + Min(left, |keys| - (i + 1))]
    ensures Walk(step, keys, false, b, i, left).routes == keys[i..i + Min(left + 1, |keys| - i)]
  {
    var n := Min(left + 1, |keys| - i);
    assert Walk(step, keys, false, b, i, left).routes
        == [keys[i]] + Walk(step, keys, false, step(b, keys[i]), i + 1, left - 1).routes;
    assert Min(left, |keys| - (i + 1)) == n - 1;
    assert keys[i..i + n] == [keys[i]] + keys[i + 1..i + n];
  }

  /** The base cases of WalkFixedRoutes: the end of the list, or a rejection. */
  lemma RoutesBase(step: Update, keys: seq<string>, b: seq<string>, i: nat, left: nat)
    requires i <= |keys| && !(i < |keys| && left > 0)
    ensures Walk(step, keys, false, b, i, left).routes == keys[i..i + Min(left + 1, |keys| - i)]
  {
    if i < |keys| {
      assert Min(left + 1, |keys| - i) == 1;
      assert keys[i..i + 1] == [keys[i]];
    } else {
      assert Min(left + 1, |keys| - i) == 0;
    }
  }

  lemma {:induction false} WalkFixedBinds(step: Update, keys: seq<string>, b: seq<string>, i: nat, left: nat)
    requires i <= |keys|
    ensures Walk(step, keys, false, b, i, left).binds == ApplyAll(step, b, keys[i..i + Min(left, |keys| - i)])
    decreases left
  {
    if i < |keys| && left > 0 {
      WalkFixedBinds(step, keys, step(b, keys[i]), i + 1, left - 1);
      BindsStep(step, keys, b, i, left);
    } else {
      assert Min(left, |keys| - i) == 0;
      assert keys[i..i] == [];
    }
  }

  /** The inductive step of WalkFixedBinds: an accepted key is applied first. */
  lemma BindsStep(step: Update, keys: seq<string>, b: seq<string>, i: nat, left: nat)
    requires i < |keys| && left > 0
    requires Walk(step, keys, false, step(b, keys[i]), i + 1, left - 1).binds
          == ApplyAll(step, step(b, keys[i]), keys[i + 1..i + 1 + Min(left - 1, |keys| - (i + 1))])
    ensures Walk(step, keys, false, b, i, left).binds == ApplyAll(step, b, keys[i..i + Min(left, |keys| - i)])
  {
    var m := Min(left, |keys| - i);
    assert Min(left - 1, |keys| - (i + 1)) == m - 1;
    var s := keys[i..i + m];
    assert s[0] == keys[i] && s[1..] == keys[i + 1..i + m];
  }

  /** `bind(keys)` on a fixed list: `binds` gains the accepted prefix of
      `keys`, and the requests are that prefix plus the rejected key. */
  lemma BindEachKey(keys: seq<string>, b: seq<string>, accepted: nat)
    ensures var w := Walk(Append, keys, false, b, 0, accepted);
      && w.binds == b + keys[..Min(accepted, |keys|)]
      && w.routes == keys[..Min(accepted + 1, |keys|)]
      && w.completed == (|keys| <= accepted)
  {
    WalkFixed(Append, keys, b, 0, accepted);
    BindAllAppends(b, keys[..Min(accepted, |keys|)]);
  }

  /** `unbind(keys)` on a fixed list: each accepted key removes one element
      (its first occurrence, or the last element when it is absent). */
  lemma UnbindEachKey(keys: seq<string>, b: seq<string>, accepted: nat)
    ensures var w := Walk(RemoveBind, keys, false, b, 0, accepted);
      && w.binds == ApplyAll(RemoveBind, b, keys[..Min(accepted, |keys|)])
      && |w.binds| == Max(|b| - Min(accepted, |keys|), 0)
      && w.routes == keys[..Min(accepted + 1, |keys|)]
      && w.completed == (|keys| <= accepted)
  {
    WalkFixed(RemoveBind, keys, b, 0, accepted);
    UnbindAllLength(b, keys[..Min(accepted, |keys|)]);
  }

  /** Binding a key and then unbinding it leaves a list as long as before;
      when the key was not bound earlier, exactly the earlier list. */
  lemma BindThenUnbind(b: seq<string>, k: string)
    ensures |RemoveBind(b + [k], k)| == |b|
    ensures k !in b ==> RemoveBind(b + [k], k) == b
  {
    assert k in b + [k];
    RemoveBindSpec(b + [k], k);
    IndexOfSpec(b + [k], k);
    if k !in b {
      assert IndexOf(b + [k], k) == |b|;
      assert (b + [k])[..|b|] == b;
    }
  }

  /** Binding ["a.b", "a.c"] and then unbinding "a.b" leaves ["a.c"]. */
  lemma BindUnbindScenario()
    ensures Walk(RemoveBind, ["a.b"], false, Walk(Append, ["a.b", "a.c"], false, [], 0, 2).binds, 0, 1).binds == ["a.c"]
  {
    var b := ["a.b", "a.c"];
    BindEachKey(b, [], 2);
    assert [] + b[..2] == b;
    UnbindEachKey(["a.b"], b, 1);
    assert ["a.b"][..1] == ["a.b"];
    assert ApplyAll(RemoveBind, b, ["a.b"]) == RemoveBind(b, "a.b");
    assert IndexOf(b, "a.b") == 0;
    assert RemoveBind(b, "a.b") == b[1..];
  }

  /** Element `i` of `b` repeated without end, `b[i mod |b|]`, counted off
      one copy of `b` at a time. */
  function At(b: seq<string>, i: nat): string
    requires b != []
    decreases i
  {
    if i < |b| then b[i] else At(b, i - |b|)
  }

  /** The first `k` elements of `b` repeated without end. */
  function Cycle(b: seq<string>, k: nat): seq<string>
    requires b != []
  {
    seq(k, i requires 0 <= i < k => At(b, i))
  }

  /** One step of the self-iterating replay: position `j` of `b + Cycle(b, j)`
      holds `At(b, j)`, so the list is never exhausted and only the broker's
      rejection stops the loop. */
  lemma {:induction false} ReplayFrom(keys: seq<string>, b: seq<string>, j: nat, left: nat)
    requires b != []
    ensures Walk(Append, keys, true, b + Cycle(b, j), j, left)
         == Walked(b + Cycle(b, j + left), Cycle(b, j + left + 1)[j..], false)
    decreases left
  {
    var n := |b|;
    var list := b + Cycle(b, j);
    assert list[j] == At(b, j) by {
      if j >= n {
        assert list[j] == Cycle(b, j)[j - n];
      }
    }
    assert list + [list[j]] == b + Cycle(b, j + 1);
    if left == 0 {
      assert [list[j]] == Cycle(b, j + 1)[j..];
    } else {
      ReplayFrom(keys, b, j + 1, left - 1);
      assert [list[j]] + Cycle(b, j + left + 1)[j + 1..] == Cycle(b, j + left + 1)[j..];
    }
  }

  /** `bind(this.binds)` with `binds == b` non-empty and a broker that accepts
      `k` requests: after `k` accepted binds the list is `b` followed by
      `b[i mod |b|]` for `i < k`, the broker saw `k + 1` requests, and the loop
      does not complete (it ends only with the broker's rejection). */
  lemma Replay(keys: seq<string>, b: seq<string>, k: nat)
    requires b != []
    ensures Walk(Append, keys, true, b, 0, k) == Walked(b + Cycle(b, k), Cycle(b, k + 1), false)
  {
    ReplayFrom(keys, b, 0, k);
    assert b + Cycle(b, 0) == b;
    assert Cycle(b, k + 1)[0..] == Cycle(b, k + 1);
  }

  /** A step-by-step run from `b0` that ended with `binds`, having sent
      `sent`, leaves what Ran describes. */
  lemma RanWhenResumed(op: BindOp, keys: seq<string>, live: bool, b0: seq<string>, accepted: nat,
                       queue: string, exchanger: string, t0: seq<Command>,
                       binds: seq<string>, sent: seq<string>, completed: bool)
    requires Resume(Apply(op), keys, live, b0, 0, accepted, []) == Walked(binds, sent, completed)
    ensures Ran(op, keys, live, b0, accepted, queue, exchanger, t0, binds, t0 + Requests(op, queue, exchanger, sent),
                if completed then Resolved(()) else Rejected(BrokerRejected))
  {
    ResumeIsWalk(Apply(op), keys, live, b0, 0, accepted, []);
    var w := Walk(Apply(op), keys, live, b0, 0, accepted);
    assert [] + w.routes == w.routes;
  }
}
