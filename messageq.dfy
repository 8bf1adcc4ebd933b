/**
 * The bus (messageq/messageq.go).
 *
 * A MessageQueue owns a discovery service, a decaying memo of its
 * Subscribers, and a table of queue handles, one per endpoint.  The
 * results of the relyq calls it makes (push and close of each endpoint's
 * queue) are foreign; they come in as functions `pushResult` and
 * `closeResult` from endpoint to the error relyq returns.
 */
module MessageQ {
  import opened Outcomes
  import opened RedisDisco
  import opened Memo
  import opened Queues

  /** One minute of time.Duration, in nanoseconds. */
  const Minute: int := 60 * 1_000_000_000

  /** The subscriber-list decay Config.Defaults puts in place of zero. */
  const DefaultDecay: int := 5 * Minute

  /** The bus configuration: relyq's settings, and the subscriber-list decay. */
  datatype Config = Config(RelyQConfig: RelyQConfig, SubscriberListDecay: int)

  /**
   * Config.Defaults: a zero decay becomes five minutes, any other is kept;
   * the relyq settings are left as they are.
   */
  function Defaults(cfg: Config): (r: Config)
    ensures r.RelyQConfig == cfg.RelyQConfig
    ensures cfg.SubscriberListDecay != 0 ==> r == cfg
    ensures cfg.SubscriberListDecay == 0 ==> r.SubscriberListDecay == DefaultDecay
    ensures r.SubscriberListDecay != 0
  {
    if cfg.SubscriberListDecay == 0 then cfg.(SubscriberListDecay := DefaultDecay) else cfg
  }

  /** Applying the defaults twice is the same as applying them once. */
  lemma DefaultsIdempotent(cfg: Config)
    ensures Defaults(Defaults(cfg)) == Defaults(cfg)
  {
  }

  // ------------------------------------------------ the waiter

  /**
   * What gowaiter's Wait reports for a set of slots, each known by its
   * result: nil exactly when every slot succeeded.  Which error it reports
   * otherwise is not modelled.
   */
  function WaitAll(results: seq<Outcome>): (r: Outcome)
    ensures r.Pass? <==> forall i :: 0 <= i < |results| ==> results[i].Pass?
  {
    if results == [] then Pass
    else if results[0].Fail? then results[0]
    else WaitAll(results[1..])
  }

  /** One more slot succeeds together with the waiter exactly when it and all earlier slots succeed. */
  lemma WaitAllSnoc(results: seq<Outcome>, r: Outcome)
    ensures WaitAll(results + [r]).Pass? <==> WaitAll(results).Pass? && r.Pass?
  {
    var rs := results + [r];
    assert forall i :: 0 <= i < |results| ==> rs[i] == results[i];
    assert rs[|results|] == r;
  }

  // ------------------------------------------------ publish results

  /** The results relyq gives for pushes onto each endpoint of a list, in list order. */
  function PushResults(list: seq<string>, pushResult: string -> Outcome): (r: seq<Outcome>)
    ensures |r| == |list|
    ensures forall i :: 0 <= i < |list| ==> r[i] == pushResult(list[i])
  {
    seq(|list|, i requires 0 <= i < |list| => pushResult(list[i]))
  }

  /** The last error among a sequence of results, or nil when there is none. */
  function LastFailure(results: seq<Outcome>): (r: Outcome)
    ensures r.Pass? <==> forall i :: 0 <= i < |results| ==> results[i].Pass?
    decreases |results|
  {
    if results == [] then Pass
    else if results[|results| - 1].Fail? then results[|results| - 1]
    else LastFailure(results[..|results| - 1])
  }

  /** A failure LastFailure reports is the one at some slot `j`, and every slot after `j` succeeded. */
  lemma {:induction false} LastFailureIsLast(results: seq<Outcome>)
    requires LastFailure(results).Fail?
    ensures exists j :: 0 <= j < |results| && results[j] == LastFailure(results) &&
                        forall k :: j < k < |results| ==> results[k].Pass?
    decreases |results|
  {
    var n := |results| - 1;
    if results[n].Fail? {
      assert results[n] == LastFailure(results);
    } else {
      var init := results[..n];
      LastFailureIsLast(init);
      var j :| 0 <= j < |init| && init[j] == LastFailure(init) && forall k :: j < k < |init| ==> init[k].Pass?;
      assert forall k :: j < k < |results| ==> results[k].Pass? by {
        forall k | j < k < |results| ensures results[k].Pass? {
          if k < n { assert results[k] == init[k]; }
        }
      }
    }
  }

  /**
   * The as-written Publish discards push errors: once the lookup has
   * succeeded the answer is nil, even when relyq refused a push.
   */
  lemma PushErrorIsDiscarded(e: Error)
    ensures var outcomes := PushResults(["a"], _ => Fail(e));
      LastFailure(outcomes) == Fail(e) && ResultAsWritten(outcomes) == Pass
  {
    var outcomes := PushResults(["a"], _ => Fail(e));
    assert outcomes == [Fail(e)];
  }

  /**
   * What the as-written fan-out loop leaves in `err`: it starts nil, and
   * after each push the push's result replaces it only when `err` itself is
   * already an error.
   */
  function ResultAsWritten(results: seq<Outcome>): Outcome
    decreases |results|
  {
    if results == [] then Pass
    else
      var err := ResultAsWritten(results[..|results| - 1]);
      if err.Fail? then results[|results| - 1] else err
  }

  /** `err` is never an error when the as-written test reads it, so the loop ends with nil. */
  lemma {:induction false} ResultAsWrittenIsNil(results: seq<Outcome>)
    ensures ResultAsWritten(results) == Pass
    decreases |results|
  {
    if results != [] {
      ResultAsWrittenIsNil(results[..|results| - 1]);
    }
  }

  /**
   * With the test on `err2`, a single refused push is enough to make the
   * publish fail, and it fails with the last error relyq reported.
   */
  lemma {:induction false} IntendedReportsPushErrors(list: seq<string>, pushResult: string -> Outcome, i: nat)
    requires i < |list| && pushResult(list[i]).Fail?
    ensures LastFailure(PushResults(list, pushResult)).Fail?
  {
    var rs := PushResults(list, pushResult);
    assert rs[i].Fail?;
  }

  // ------------------------------------------------ counting pushes

  /** How many times an endpoint occurs in a list. */
  function Count(list: seq<string>, e: string): nat
    decreases |list|
  {
    if list == [] then 0
    else Count(list[..|list| - 1], e) + (if list[|list| - 1] == e then 1 else 0)
  }

  /** `n` copies of one message. */
  function Copies<M>(m: M, n: nat): seq<M>
  {
    if n == 0 then [] else Copies(m, n - 1) + [m]
  }

  /** An endpoint occurs in a list exactly when it is counted there. */
  lemma {:induction false} CountPositive(list: seq<string>, e: string)
    ensures Count(list, e) > 0 <==> e in list
    decreases |list|
  {
    if list != [] {
      var init := list[..|list| - 1];
      CountPositive(init, e);
      assert list == init + [list[|list| - 1]];
    }
  }

  /**
   * In a listing without repeats (a Redis set's members) every listed
   * endpoint is counted exactly once: fan-out pushes once per subscriber.
   */
  lemma {:induction false} CountNoDups(list: seq<string>, e: string)
    requires NoDups(list)
    ensures Count(list, e) == (if e in list then 1 else 0)
    decreases |list|
  {
    if list != [] {
      var init := list[..|list| - 1];
      assert NoDups(init);
      CountNoDups(init, e);
      assert list == init + [list[|list| - 1]];
      if list[|list| - 1] == e {
        assert e !in init by {
          forall j | 0 <= j < |init| ensures init[j] != e {
            assert list[j] == init[j];
          }
        }
      }
    }
  }

  // ------------------------------------------------ fan-out over the handle table

  /**
   * Handle table `q1` with handle states `v1` is what pushing `m` once per
   * occurrence of each endpoint of `list` makes of table `q0` with states
   * `v0`: the old handles are kept, a new initial handle is opened for each
   * endpoint the table lacked, and every handle's push log grows by one copy
   * of `m` per occurrence of its endpoint; nothing else changes.
   */
  ghost predicate FannedData<M>(q0: map<string, Queue<M>>, v0: map<string, HandleView<M>>,
                                q1: map<string, Queue<M>>, v1: map<string, HandleView<M>>,
                                list: seq<string>, m: M)
  {
    && v0.Keys == q0.Keys && v1.Keys == q1.Keys
    && q1.Keys == q0.Keys + Elems(list)
    && (forall e :: e in q0 ==> q1[e] == q0[e])
    && (forall e :: e in q1 && e !in q0 ==> v1[e] == HandleView(null, 0, Copies(m, Count(list, e)), false))
    && (forall e :: e in q0 ==> v1[e] == v0[e].(pushed := v0[e].pushed + Copies(m, Count(list, e))))
  }

  /** Pushing onto no endpoint changes nothing. */
  lemma FanOutNone<M>(q0: map<string, Queue<M>>, v0: map<string, HandleView<M>>, m: M)
    requires v0.Keys == q0.Keys
    ensures FannedData(q0, v0, q0, v0, [], m)
  {
    forall e | e in q0 ensures v0[e] == v0[e].(pushed := v0[e].pushed + Copies(m, Count([], e))) {
      assert v0[e].pushed + [] == v0[e].pushed;
    }
  }

  /**
   * Table `q1` with states `v1` is table `qL` with states `vL` after one
   * push of `m` onto `endp`: the push either opens `endp`'s handle with `m`
   * as its only message, or appends `m` to the log of the handle already
   * there; every other handle is kept as it was.
   */
  ghost predicate PushedOnto<M>(qL: map<string, Queue<M>>, vL: map<string, HandleView<M>>,
                                q1: map<string, Queue<M>>, v1: map<string, HandleView<M>>,
                                endp: string, m: M)
  {
    && vL.Keys == qL.Keys && v1.Keys == q1.Keys && q1.Keys == qL.Keys + {endp}
    && (forall e :: e in qL ==> q1[e] == qL[e])
    && (forall e :: e in qL && e != endp ==> v1[e] == vL[e])
    && (endp in qL ==> v1[endp] == vL[endp].(pushed := vL[endp].pushed + [m]))
    && (endp !in qL ==> v1[endp] == HandleView(null, 0, [m], false))
  }

  /**
   * One more push, onto `endp`, extends a fan-out over `done` to a fan-out
   * over `done + [endp]`: the push either opens `endp`'s handle with `m` as
   * its only message, or appends `m` to the log of the handle already there.
   */
  lemma {:induction false} FanOutStep<M>(q0: map<string, Queue<M>>, v0: map<string, HandleView<M>>,
                                         qL: map<string, Queue<M>>, vL: map<string, HandleView<M>>,
                                         q1: map<string, Queue<M>>, v1: map<string, HandleView<M>>,
                                         done: seq<string>, endp: string, next: seq<string>, m: M)
    requires next == done + [endp]
    requires FannedData(q0, v0, qL, vL, done, m)
    requires PushedOnto(qL, vL, q1, v1, endp, m)
    ensures FannedData(q0, v0, q1, v1, next, m)
  {
    assert q1.Keys == q0.Keys + Elems(next) by {
      assert Elems(next) == Elems(done) + {endp};
    }
    forall e | e in q1 && e !in q0
      ensures v1[e] == HandleView(null, 0, Copies(m, Count(next, e)), false)
    {
      FanOutStepAt(q0, v0, qL, vL, q1, v1, done, endp, next, m, e);
    }
    forall e | e in q0
      ensures v1[e] == v0[e].(pushed := v0[e].pushed + Copies(m, Count(next, e)))
    {
      FanOutStepAt(q0, v0, qL, vL, q1, v1, done, endp, next, m, e);
    }
  }

  /** FanOutStep for the handle of one endpoint `e`. */
  lemma FanOutStepAt<M>(q0: map<string, Queue<M>>, v0: map<string, HandleView<M>>,
                        qL: map<string, Queue<M>>, vL: map<string, HandleView<M>>,
                        q1: map<string, Queue<M>>, v1: map<string, HandleView<M>>,
                        done: seq<string>, endp: string, next: seq<string>, m: M, e: string)
    requires next == done + [endp]
    requires FannedData(q0, v0, qL, vL, done, m)
    requires PushedOnto(qL, vL, q1, v1, endp, m)
    requires e in q1
    ensures e !in q0 ==> v1[e] == HandleView(null, 0, Copies(m, Count(next, e)), false)
    ensures e in q0 ==> v1[e] == v0[e].(pushed := v0[e].pushed + Copies(m, Count(next, e)))
  {
    CountSnoc(done, endp, e);
    if e != endp {
      assert v1[e] == vL[e] && Count(next, e) == Count(done, e);
    } else if e !in qL {
      CountPositive(done, e);
      assert e !in q0 && Count(next, e) == 1;
    } else if e in q0 {
      assert vL[e] == v0[e].(pushed := v0[e].pushed + Copies(m, Count(done, e)));
      assert v0[e].pushed + Copies(m, Count(done, e)) + [m] == v0[e].pushed + Copies(m, Count(next, e));
    } else {
      assert vL[e] == HandleView(null, 0, Copies(m, Count(done, e)), false);
    }
  }

  /** Appending an endpoint counts it once more and every other endpoint as before. */
  lemma CountSnoc(done: seq<string>, endp: string, e: string)
    ensures Count(done + [endp], e) == Count(done, e) + (if e == endp then 1 else 0)
  {
    assert (done + [endp])[..|done|] == done;
  }

  // ------------------------------------------------ the bus

  class MessageQueue<M> {
    /** The configuration, after Defaults. */
    const cfg: Config
    const discovery: RedisDiscovery
    const subscribers: SubscribersMemo
    /** The handle table: at most one handle per endpoint. */
    var queues: map<string, Queue<M>>
    /** Whether the Errors channel is still open. */
    var errorsOpen: bool

    /**
     * The memo wraps this bus's discovery service with the configured
     * decay; every handle was opened with the bus's relyq settings and its
     * own endpoint as prefix; no two endpoints share a handle.
     */
    ghost predicate Valid()
      reads this, subscribers
    {
      && subscribers.Valid()
      && subscribers.S == discovery
      && subscribers.Decay == cfg.SubscriberListDecay
      && (forall e :: e in queues ==> queues[e].cfg == cfg.RelyQConfig.(Prefix := e))
      && (forall e1, e2 :: e1 in queues && e2 in queues && e1 != e2 ==> queues[e1] != queues[e2])
    }

    /** New: applies the defaults; no handles yet, an open Errors channel, an empty memo. */
    constructor (disco: RedisDiscovery, cfg0: Config)
      ensures Valid()
      ensures cfg == Defaults(cfg0) && discovery == disco
      ensures queues == map[] && errorsOpen
      ensures fresh(subscribers) && subscribers.M == map[]
      ensures subscribers.Decay != 0
    {
      var c := Defaults(cfg0);
      cfg := c;
      discovery := disco;
      subscribers := new SubscribersMemo(disco, c.SubscriberListDecay);
      queues := map[];
      errorsOpen := true;
    }

    /**
     * getEndpoint: this bus's relyq prefix, the delimiter, then the
     * channel; the channel can be read back off the end.
     */
    function GetEndpoint(channel: string): (r: string)
      ensures var head := cfg.RelyQConfig.Prefix + cfg.RelyQConfig.Delimiter;
        |r| == |head| + |channel| && r[..|head|] == head && r[|head|..] == channel
    {
      cfg.RelyQConfig.Prefix + cfg.RelyQConfig.Delimiter + channel
    }

    /** Different channels have different endpoints on one bus. */
    lemma EndpointInjective(c1: string, c2: string)
      ensures GetEndpoint(c1) == GetEndpoint(c2) <==> c1 == c2
    {
      var n := |cfg.RelyQConfig.Prefix + cfg.RelyQConfig.Delimiter|;
      if GetEndpoint(c1) == GetEndpoint(c2) {
        assert c1 == GetEndpoint(c1)[n..] == GetEndpoint(c2)[n..] == c2;
      }
    }

    /** newQueue: a copy of the bus's relyq settings with only the prefix replaced by the endpoint. */
    method NewQueue(endpoint: string) returns (q: Queue<M>)
      ensures fresh(q) && q.Initial()
      ensures q.cfg == cfg.RelyQConfig.(Prefix := endpoint)
    {
      var qcfg := cfg.RelyQConfig;
      qcfg := qcfg.(Prefix := endpoint);
      q := new Queue(qcfg);
    }

    /** getQueue: the endpoint's handle, opened and entered in the table on first use. */
    method GetQueue(endpoint: string) returns (q: Queue<M>)
      requires Valid()
      modifies this
      ensures Valid() && errorsOpen == old(errorsOpen)
      ensures endpoint in queues && q == queues[endpoint]
      ensures endpoint in old(queues) ==> queues == old(queues)
      ensures endpoint !in old(queues) ==> fresh(q) && q.Initial() && queues == old(queues)[endpoint := q]
    {
      if endpoint in queues {
        return queues[endpoint];
      }
      q := NewQueue(endpoint);
      queues := queues[endpoint := q];
    }

    /** endpoint: a channel's endpoint and its handle. */
    method Endpoint(channel: string) returns (name: string, q: Queue<M>)
      requires Valid()
      modifies this
      ensures Valid() && errorsOpen == old(errorsOpen)
      ensures name == GetEndpoint(channel) && name in queues && q == queues[name]
      ensures name in old(queues) ==> queues == old(queues)
      ensures name !in old(queues) ==> fresh(q) && q.Initial() && queues == old(queues)[name := q]
    {
      name := GetEndpoint(channel);
      q := GetQueue(name);
    }

    /**
     * Subscribe: makes sure the channel's endpoint has a handle, registers
     * the endpoint with discovery, and returns the handle's stream together
     * with the registration error, whether or not it is nil.
     */
    method Subscribe(channel: string) returns (s: MessageStream<M>, err: Outcome)
      requires Valid()
      modifies this, discovery, queues.Values
      ensures Valid() && errorsOpen == old(errorsOpen)
      ensures var name := GetEndpoint(channel);
        && name in queues && queues[name].c == s
        && queues.Keys == old(queues).Keys + {name}
        && (forall e :: e in old(queues) ==> queues[e] == old(queues[e]))
        && (forall e :: e in old(queues) && e != name ==> queues[e].View() == old(queues[e].View()))
        && (name in old(queues) && old(queues[name].c) != null ==> s == old(queues[name].c))
        && (name !in old(queues) || old(queues[name].c) == null ==> fresh(s) && s.endpoint == name)
        && (name !in old(queues) ==> fresh(queues[name]) && queues[name].View() == HandleView(s, 1, [], false))
        && (name in old(queues) ==>
              var v := old(queues[name].View());
              queues[name].View() == v.(c := s, listens := if v.c == null then v.listens + 1 else v.listens))
        && discovery.calls == old(discovery.calls) + [RegisterCall(channel, name)]
        && err == old(discovery.Status()) && discovery.unreachable == old(discovery.unreachable)
        && (err.Pass? ==>
              discovery.store == old(discovery.store)[Key(discovery.prefix, channel) := old(discovery.Members(channel)) + {name}])
        && (err.Pass? ==> discovery.Members(channel) == old(discovery.Members(channel)) + {name})
        && (err.Fail? ==> discovery.store == old(discovery.store))
    {
      var name, q := Endpoint(channel);
      err := discovery.Register(channel, name);
      s := q.Messages();
      assert q.cfg.Prefix == name;
    }

    /** send: the endpoint's handle, opened if need be, pushes the message. */
    method Send(endpoint: string, message: M, result: Outcome) returns (err: Outcome)
      requires Valid()
      modifies this, queues.Values
      ensures Valid() && errorsOpen == old(errorsOpen) && err == result
      ensures PushedOnto(old(queues), old(Views()), queues, Views(), endpoint, message)
      ensures endpoint !in old(queues) ==> fresh(queues[endpoint])
    {
      var q := GetQueue(endpoint);
      err := q.Push(message, result);
    }

    /** Every handle's state, by endpoint. */
    ghost function Views(): (r: map<string, HandleView<M>>)
      reads this, queues.Values
      ensures r.Keys == queues.Keys
      ensures forall e :: e in queues ==> r[e] == queues[e].View()
    {
      map e | e in queues :: queues[e].View()
    }

    /**
     * The handle table after pushing `m` once per occurrence of each
     * endpoint in `list`: handles are created for endpoints not yet in the
     * table, handles already there are kept, and each endpoint's push log
     * grows by one copy per occurrence; nothing else about a handle changes.
     */
    twostate predicate FannedOut(list: seq<string>, m: M)
      reads this, queues.Values
    {
      && FannedData(old(queues), old(Views()), queues, Views(), list, m)
      && (forall e :: e in queues && e !in old(queues) ==> fresh(queues[e]))
    }

    /** One turn of the fan-out loop: a send onto `endp` extends the fan-out over `done` by `endp`. */
    method PushStep(ghost q0: map<string, Queue<M>>, ghost v0: map<string, HandleView<M>>,
                    ghost done: seq<string>, ghost next: seq<string>,
                    endp: string, message: M, result: Outcome) returns (err: Outcome)
      requires next == done + [endp]
      requires Valid() && FannedData(q0, v0, queues, Views(), done, message)
      modifies this, queues.Values
      ensures Valid() && errorsOpen == old(errorsOpen) && err == result
      ensures FannedData(q0, v0, queues, Views(), next, message)
      ensures forall e :: e in old(queues) ==> queues[e] == old(queues[e])
      ensures forall e :: e in queues && e !in old(queues) ==> fresh(queues[e])
    {
      ghost var qL, vL := queues, Views();
      err := Send(endp, message, result);
      FanOutStep(q0, v0, qL, vL, queues, Views(), done, endp, next, message);
    }

    /**
     * The fan-out loop of Publish, over a listing that has been looked up.
     * Go tests `err` after each push; `testPushError` chooses between that
     * test as written (false: `err` is nil there, so no push error is kept)
     * and the test on `err2` that was meant (true: the last push error is kept).
     */
    method PushAll(list: seq<string>, message: M, pushResult: string -> Outcome, testPushError: bool)
        returns (err: Outcome)
      requires Valid()
      modifies this, queues.Values
      ensures Valid() && errorsOpen == old(errorsOpen)
      ensures FannedOut(list, message)
      ensures !testPushError ==> err == ResultAsWritten(PushResults(list, pushResult))
      ensures testPushError ==> err == LastFailure(PushResults(list, pushResult))
    {
      ghost var q0, v0 := queues, Views();
      err := Pass;
      var i := 0;
      assert FannedData(q0, v0, queues, Views(), list[..0], message) by {
        FanOutNone(q0, v0, message);
      }
      while i < |list|
        invariant 0 <= i <= |list|
        invariant Valid() && errorsOpen == old(errorsOpen)
        invariant FannedData(q0, v0, queues, Views(), list[..i], message)
        invariant forall e :: e in queues && e !in q0 ==> fresh(queues[e])
        invariant !testPushError ==> err == ResultAsWritten(PushResults(list[..i], pushResult))
        invariant testPushError ==> err == LastFailure(PushResults(list[..i], pushResult))
      {
        var endp := list[i];
        ghost var done, next := list[..i], list[..i + 1];
        assert next[..i] == done && next[i] == endp && next == done + [endp];
        assert PushResults(next, pushResult)[..i] == PushResults(done, pushResult);
        var err2 := PushStep(q0, v0, done, next, endp, message, pushResult(endp));
        assert FannedData(q0, v0, queues, Views(), next, message);
        if (if testPushError then err2 else err).Fail? {
          err := err2;
        }
        i := i + 1;
        assert list[..i] == next;
      }
      assert list[..i] == list;
    }

    /**
     * Publish: looks the channel's subscribers up through the memo and
     * returns the lookup error at once, pushing nothing; otherwise pushes
     * the message onto every listed endpoint and returns nil, whatever the
     * pushes returned, since the loop tests `err` instead of `err2`.
     */
    method Publish(channel: string, message: M, now: int, stamp: int, pushResult: string -> Outcome)
        returns (err: Outcome, ghost list: Result<seq<string>>)
      requires Valid()
      modifies this, subscribers, discovery, queues.Values
      ensures Valid() && errorsOpen == old(errorsOpen)
      ensures subscribers.Answered(channel, now, stamp, list)
      ensures list.Err? ==> err == Fail(list.error) && queues == old(queues)
      ensures list.Err? ==> forall e :: e in queues ==> queues[e].View() == old(queues[e].View())
      ensures list.Ok? ==> err == ResultAsWritten(PushResults(list.value, pushResult)) && err == Pass
      ensures list.Ok? ==> NoDups(list.value) && FannedOut(list.value, message)
    {
      var l := subscribers.Subscribers(channel, now, stamp);
      list := l;
      assert queues == old(queues) && Views() == old(Views());
      if l.Err? {
        return Fail(l.error), list;
      }
      err := PushAll(l.value, message, pushResult, false);
      ResultAsWrittenIsNil(PushResults(l.value, pushResult));
    }

    /** Publish as evidently intended: the same, except that the last push error is returned. */
    method PublishReportingPushErrors(channel: string, message: M, now: int, stamp: int, pushResult: string -> Outcome)
        returns (err: Outcome, ghost list: Result<seq<string>>)
      requires Valid()
      modifies this, subscribers, discovery, queues.Values
      ensures Valid() && errorsOpen == old(errorsOpen)
      ensures subscribers.Answered(channel, now, stamp, list)
      ensures list.Err? ==> err == Fail(list.error) && queues == old(queues)
      ensures list.Err? ==> forall e :: e in queues ==> queues[e].View() == old(queues[e].View())
      ensures list.Ok? ==> err == LastFailure(PushResults(list.value, pushResult))
      ensures list.Ok? ==> NoDups(list.value) && FannedOut(list.value, message)
    {
      var l := subscribers.Subscribers(channel, now, stamp);
      list := l;
      assert queues == old(queues) && Views() == old(Views());
      if l.Err? {
        return Fail(l.error), list;
      }
      err := PushAll(l.value, message, pushResult, true);
    }

    /**
     * Unsubscribe: drops the endpoint's handle from the table and closes it
     * when there is one (the other slot of the waiter is bypassed when there
     * is not), and always unregisters the endpoint; fails exactly when one
     * of the two did.
     */
    method Unsubscribe(channel: string, closeResult: string -> Outcome) returns (err: Outcome)
      requires Valid()
      modifies this, discovery, queues.Values
      ensures Valid() && errorsOpen == old(errorsOpen)
      ensures var name := GetEndpoint(channel);
        && queues == old(queues) - {name}
        && (forall e :: e in queues ==> queues[e].View() == old(queues[e].View()))
        && (name in old(queues) ==> old(queues)[name].View() == old(queues[name].View()).(closed := true))
        && discovery.calls == old(discovery.calls) + [UnregisterCall(channel, name)]
        && discovery.unreachable == old(discovery.unreachable)
        && (old(discovery.Status()).Pass? ==>
              discovery.store == old(discovery.store)[Key(discovery.prefix, channel) := old(discovery.Members(channel)) - {name}])
        && (old(discovery.Status()).Pass? ==> discovery.Members(channel) == old(discovery.Members(channel)) - {name})
        && (old(discovery.Status()).Fail? ==> discovery.store == old(discovery.store))
        && (err.Pass? <==> old(discovery.Status()).Pass? && (name in old(queues) ==> closeResult(name).Pass?))
    {
      var name := GetEndpoint(channel);
      var closed: Outcome;
      if name in queues {
        var q := queues[name];
        queues := queues - {name};
        closed := q.Close(closeResult(name));
      } else {
        closed := Pass;
      }
      var unregistered := discovery.Unregister(channel, name);
      assert [closed, unregistered][0] == closed && [closed, unregistered][1] == unregistered;
      err := WaitAll([closed, unregistered]);
    }

    /** Closes the handle of `e`, and only that handle. */
    method CloseHandle(e: string, result: Outcome) returns (err: Outcome)
      requires Valid() && e in queues
      modifies queues[e]
      ensures err == result
      ensures queues[e].View() == old(queues[e].View()).(closed := true)
      ensures forall e' :: e' in queues && e' != e ==> queues[e'].View() == old(queues[e'].View())
    {
      var q := queues[e];
      err := q.Close(result);
      assert forall e' :: e' in queues && e' != e ==> queues[e'] != q;
    }

    /**
     * The loop of Close: each handle's close is added to the waiter's
     * slots `results0`, one handle at a time in no promised order.
     */
    method CloseQueues(results0: seq<Outcome>, closeResult: string -> Outcome) returns (results: seq<Outcome>)
      requires Valid()
      modifies queues.Values
      ensures forall e :: e in queues ==> queues[e].View() == old(queues[e].View()).(closed := true)
      ensures WaitAll(results).Pass? <==> WaitAll(results0).Pass? && forall e :: e in queues ==> closeResult(e).Pass?
    {
      results := results0;
      var rest := queues.Keys;
      while rest != {}
        invariant rest <= queues.Keys
        invariant forall e :: e in queues && e !in rest ==> queues[e].View() == old(queues[e].View()).(closed := true)
        invariant forall e :: e in rest ==> queues[e].View() == old(queues[e].View())
        invariant WaitAll(results).Pass? <==>
          WaitAll(results0).Pass? && forall e :: e in queues && e !in rest ==> closeResult(e).Pass?
        decreases rest
      {
        var e :| e in rest;
        var r := CloseHandle(e, closeResult(e));
        WaitAllSnoc(results, r);
        results := results + [r];
        rest := rest - {e};
      }
    }

    /**
     * Close: closes the discovery service and every handle in the table,
     * waits for all of them, then closes Errors (a second Close would close
     * it twice, which panics in Go).  Fails exactly when some handle's close failed.
     */
    method Close(closeResult: string -> Outcome) returns (err: Outcome)
      requires Valid() && errorsOpen
      modifies this, discovery, queues.Values
      ensures Valid() && !errorsOpen && queues == old(queues)
      ensures forall e :: e in queues ==> queues[e].View() == old(queues[e].View()).(closed := true)
      ensures discovery.calls == old(discovery.calls) + [CloseCall]
      ensures discovery.store == old(discovery.store) && discovery.unreachable == old(discovery.unreachable)
      ensures err.Pass? <==> forall e :: e in queues ==> closeResult(e).Pass?
    {
      var d := discovery.Close();
      var results := CloseQueues([d], closeResult);
      err := WaitAll(results);
      errorsOpen := false;
    }
  }
}
