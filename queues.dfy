/**
 * The per-endpoint queue handle (messageq/queues.go).
 *
 * A handle stands for one relyq queue whose Redis prefix is the endpoint.
 * The relyq queue is foreign code: the model records the calls the handle
 * makes on it (pushes, listens, close) and takes their results as
 * parameters.  The message stream is created lazily, once.
 */
module Queues {
  import opened Outcomes

  /**
   * relyq's Config: the key prefix of the queue, the delimiter, and every
   * other relyq setting, which messageq copies without looking at.
   */
  datatype RelyQConfig = RelyQConfig(Prefix: string, Delimiter: string, Options: map<string, string>)

  /** The `chan Message` a handle hands to subscribers. */
  class MessageStream<M> {
    /** The endpoint whose queue feeds this stream. */
    const endpoint: string

    constructor (endpoint: string)
      ensures this.endpoint == endpoint
    {
      this.endpoint := endpoint;
    }
  }

  /** A snapshot of a handle's mutable state. */
  datatype HandleView<M> = HandleView(c: MessageStream?<M>, listens: nat, pushed: seq<M>, closed: bool)

  /** A queue handle: a relyq queue and, once somebody listens, its message stream. */
  class Queue<M> {
    /** The relyq configuration the queue was opened with. */
    const cfg: RelyQConfig
    /** The message stream; null until the first Messages call. */
    var c: MessageStream?<M>
    /** How many times the relyq queue has been asked to Listen. */
    var listens: nat
    /** Every message pushed onto the relyq queue, oldest first. */
    var pushed: seq<M>
    /** Whether the relyq queue has been closed. */
    var closed: bool

    /** relyq.NewRedisJson: a freshly opened queue. */
    constructor (cfg: RelyQConfig)
      ensures this.cfg == cfg && Initial()
    {
      this.cfg := cfg;
      c := null;
      listens := 0;
      pushed := [];
      closed := false;
    }

    /** The state of a handle nobody has used yet: no stream, no listener, nothing pushed. */
    ghost predicate Initial()
      reads this
    {
      c == null && listens == 0 && pushed == [] && !closed
    }

    ghost function View(): HandleView<M>
      reads this
    {
      HandleView(c, listens, pushed, closed)
    }

    /** q.q.Push: hands a message to relyq, which answers `result`. */
    method Push(m: M, result: Outcome) returns (err: Outcome)
      modifies this
      ensures err == result
      ensures View() == old(View()).(pushed := old(pushed) + [m])
    {
      pushed := pushed + [m];
      err := result;
    }

    /** Close: closes the relyq queue and passes its result on. */
    method Close(result: Outcome) returns (err: Outcome)
      modifies this
      ensures err == result
      ensures View() == old(View()).(closed := true)
    {
      closed := true;
      err := result;
    }

    /**
     * Messages: the first call listens on the relyq queue and wraps the
     * listener in a new stream; every later call returns that same stream
     * and does not listen again.
     */
    method Messages() returns (s: MessageStream<M>)
      modifies this
      ensures old(c) == null ==> fresh(s) && s.endpoint == cfg.Prefix && listens == old(listens) + 1
      ensures old(c) != null ==> s == old(c) && listens == old(listens)
      ensures c == s && pushed == old(pushed) && closed == old(closed)
    {
      if c == null {
        listens := listens + 1;
        c := new MessageStream(cfg.Prefix);
      }
      s := c;
    }
  }

  // ------------------------------------------------ wrapChan

  /** What the forwarding loop of wrapChan does, one step at a time. */
  datatype Event<M> =
    | Deliver(task: M)    // mc <- msg
    | Finish(task: M)     // l.Finish <- msg
    | FailTask(task: M)   // l.Fail <- msg
    | CloseFinish | CloseFail | CloseStream

  /** The forwarding steps for a sequence of tasks: each is delivered, then finished. */
  function Forwarded<M>(tasks: seq<M>): seq<Event<M>>
    decreases |tasks|
  {
    if tasks == [] then []
    else Forwarded(tasks[..|tasks| - 1]) + [Deliver(tasks[|tasks| - 1]), Finish(tasks[|tasks| - 1])]
  }

  /** The whole life of the wrapChan goroutine over a finite task sequence. */
  function WrapTrace<M>(tasks: seq<M>): seq<Event<M>>
  {
    Forwarded(tasks) + [CloseFinish, CloseFail, CloseStream]
  }

  /** The body of wrapChan's goroutine, run to the end of the task sequence. */
  method WrapChan<M>(tasks: seq<M>) returns (trace: seq<Event<M>>)
    ensures trace == WrapTrace(tasks)
  {
    trace := [];
    var i := 0;
    while i < |tasks|
      invariant 0 <= i <= |tasks|
      invariant trace == Forwarded(tasks[..i])
    {
      var msg := tasks[i];
      assert tasks[..i + 1][..i] == tasks[..i];
      trace := trace + [Deliver(msg)];
      trace := trace + [Finish(msg)];
      i := i + 1;
    }
    assert tasks[..i] == tasks;
    trace := trace + [CloseFinish, CloseFail, CloseStream];
  }

  /**
   * Task `i` is delivered at step `2i` and finished right after it, at step
   * `2i + 1`; nothing else happens while tasks are forwarded.
   */
  lemma {:induction false} ForwardedAt<M>(tasks: seq<M>, i: nat)
    requires i < |tasks|
    ensures |Forwarded(tasks)| == 2 * |tasks|
    ensures Forwarded(tasks)[2 * i] == Deliver(tasks[i])
    ensures Forwarded(tasks)[2 * i + 1] == Finish(tasks[i])
    decreases |tasks|
  {
    var init := tasks[..|tasks| - 1];
    if i < |init| {
      ForwardedAt(init, i);
    } else if init != [] {
      ForwardedAt(init, 0);
    }
  }

  /** Forwarding never sends a task to Fail and never closes anything. */
  lemma {:induction false} ForwardedOnlyDeliversAndFinishes<M>(tasks: seq<M>, k: nat)
    requires k < |Forwarded(tasks)|
    ensures Forwarded(tasks)[k].Deliver? || Forwarded(tasks)[k].Finish?
    decreases |tasks|
  {
    var init := tasks[..|tasks| - 1];
    if k < |Forwarded(init)| {
      ForwardedOnlyDeliversAndFinishes(init, k);
    }
  }

  /**
   * wrapChan as a whole: every task is delivered and then finished, in task
   * order; no task is ever failed; and once the tasks run out, Finish, Fail
   * and the message stream are closed, in that order, as the last three steps.
   */
  lemma WrapTraceShape<M>(tasks: seq<M>)
    ensures |WrapTrace(tasks)| == 2 * |tasks| + 3
    ensures forall i :: 0 <= i < |tasks| ==>
      WrapTrace(tasks)[2 * i] == Deliver(tasks[i]) && WrapTrace(tasks)[2 * i + 1] == Finish(tasks[i])
    ensures forall k :: 0 <= k < |WrapTrace(tasks)| ==> !WrapTrace(tasks)[k].FailTask?
    ensures WrapTrace(tasks)[2 * |tasks|..] == [CloseFinish, CloseFail, CloseStream]
  {
    var fw := Forwarded(tasks);
    if tasks != [] {
      ForwardedAt(tasks, 0);
    } else {
      assert fw == [];
    }
    forall i | 0 <= i < |tasks|
      ensures WrapTrace(tasks)[2 * i] == Deliver(tasks[i]) && WrapTrace(tasks)[2 * i + 1] == Finish(tasks[i])
    {
      ForwardedAt(tasks, i);
    }
    forall k | 0 <= k < |WrapTrace(tasks)|
      ensures !WrapTrace(tasks)[k].FailTask?
    {
      if k < |fw| {
        ForwardedOnlyDeliversAndFinishes(tasks, k);
      }
    }
  }
}
