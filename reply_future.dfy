/**
 * The single-slot reply cell behind a method call, and the future that observes it.
 *
 * The cell is shared by the reply callback (the producer) and the future (the consumer).
 * It holds a delivered result, or the waker of a consumer that found it empty, or
 * nothing. Waking a waker is recorded in the cell's `woken` log.
 */
module ReplyFuture {
  import opened Wrappers

  /** A D-Bus error: its error name and a human-readable message. */
  datatype Error = Error(name: string, message: string)

  const FailedErrorName: string := "org.freedesktop.DBus.Error.Failed"

  /** The error a method call resolves to when its message could not be sent. */
  const SendFailed: Error := Error(FailedErrorName, "Failed to send message")

  /** The state of the cell. */
  datatype MRInner<M, W> = Ready(result: Result<M, Error>) | Pending(waker: W) | Neither

  /** What a poll reports: the finished output, or "not yet". */
  datatype Poll<T> = PollReady(output: Result<T, Error>) | PollPending

  /** The cell after the reply callback has run with `msg`. */
  function Delivered<M, W>(msg: M): (next: MRInner<M, W>)
  {
    Ready(Ok(msg))
  }

  /** The wakers the reply callback wakes when it finds the cell in state `s`. */
  function WokenByDelivery<M, W>(s: MRInner<M, W>): (woken: seq<W>)
    ensures |woken| <= 1
    ensures woken != [] <==> s.Pending?
    ensures s.Pending? ==> woken == [s.waker]
  {
    if s.Pending? then [s.waker] else []
  }

  /** The cell after a poll that found it in state `s`: emptied if ready, else parked on `waker`. */
  function AfterPoll<M, W>(s: MRInner<M, W>, waker: W): (next: MRInner<M, W>)
    ensures next.Neither? <==> s.Ready?
    ensures !s.Ready? ==> next == Pending(waker)
  {
    if s.Ready? then Neither else Pending(waker)
  }

  /** A read function followed by `f`, which runs only on what the read function produced. */
  function ComposeRead<M, T, T2>(first: M -> Result<T, Error>, f: T -> Result<T2, Error>): (composed: M -> Result<T2, Error>)
  {
    (m: M) => first(m).AndThen(f)
  }

  /** The composed read function fails exactly where the first step fails, and otherwise is `f`. */
  lemma ComposeReadRunsOnlyOnSuccess<M, T, T2>(first: M -> Result<T, Error>, f: T -> Result<T2, Error>, m: M)
    ensures first(m).Err? ==> ComposeRead(first, f)(m) == Err(first(m).error)
    ensures first(m).Ok? ==> ComposeRead(first, f)(m) == f(first(m).value)
  {
  }

  /** The shared cell (`Arc<Mutex<MRInner>>`); the lock is not modelled. */
  class ReplyCell<M, W> {
    var inner: MRInner<M, W>
    var woken: seq<W>

    constructor ()
      ensures inner == Neither && woken == []
    {
      inner := Neither;
      woken := [];
    }

    /**
     * The reply callback: stores the reply as a successful result and wakes the consumer
     * that was waiting, if any.
     */
    method Complete(msg: M)
      modifies this
      ensures inner == Delivered(msg)
      ensures woken == old(woken) + WokenByDelivery(old(inner))
    {
      var old_ := inner;
      inner := Ready(Ok(msg));
      if old_.Pending? {
        woken := woken + [old_.waker];
      }
    }

    /** The send-failure path: the cell is made ready with an error and nobody is woken. */
    method FailSend()
      modifies this`inner
      ensures inner == Ready(Err(SendFailed))
    {
      inner := Ready(Err(SendFailed));
    }
  }

  /** The future: the shared cell and the read function, which the first ready poll consumes. */
  class MethodReply<M, W, T> {
    const cell: ReplyCell<M, W>
    var readfn: Option<M -> Result<T, Error>>

    constructor (cell: ReplyCell<M, W>, readfn: M -> Result<T, Error>)
      ensures this.cell == cell && this.readfn == Some(readfn)
    {
      this.cell := cell;
      this.readfn := Some(readfn);
    }

    /**
     * A ready cell is emptied and its result, passed through the read function, is the output;
     * the read function is used up. Otherwise the cell is parked on `waker`, replacing any
     * earlier waker without waking it. Finding the cell ready after the read function was used
     * up would panic, so callers must not.
     */
    method Poll(waker: W) returns (p: Poll<T>)
      requires cell.inner.Ready? ==> readfn.Some?
      modifies this`readfn, cell`inner
      ensures cell.inner == AfterPoll(old(cell.inner), waker)
      ensures old(cell.inner).Ready? ==>
        p == PollReady(old(cell.inner).result.AndThen(old(readfn).value)) && readfn == None
      ensures !old(cell.inner).Ready? ==> p == PollPending && readfn == old(readfn)
    {
      var r := cell.inner;
      cell.inner := Neither;
      if !r.Ready? {
        cell.inner := Pending(waker);
        return PollPending;
      }
      var f := readfn.value;
      readfn := None;
      p := PollReady(r.result.AndThen(f));
    }

    /**
     * `and_then`: consumes this future and returns one on the same cell whose read function
     * continues with `f`. This future's read function moves into the new one, so the cell
     * keeps a single consumer.
     */
    method AndThen<T2>(f: T -> Result<T2, Error>) returns (next: MethodReply<M, W, T2>)
      requires readfn.Some?
      modifies this`readfn
      ensures fresh(next) && next.cell == cell
      ensures next.readfn == Some(ComposeRead(old(readfn).value, f))
      ensures readfn == None
    {
      next := new MethodReply(cell, ComposeRead(readfn.value, f));
      readfn := None;
    }
  }

  /** Something that happens to a reply cell. */
  datatype CellEvent<M, W> = Deliver(msg: M) | PollBy(waker: W)

  /** One event on a cell in state `s`: the next state, the wakers woken and the result taken out. */
  function CellStep<M, W>(s: MRInner<M, W>, e: CellEvent<M, W>): (r: (MRInner<M, W>, seq<W>, seq<Result<M, Error>>))
  {
    match e
    case Deliver(msg) => (Delivered(msg), WokenByDelivery(s), [])
    case PollBy(w) => (AfterPoll(s, w), [], if s.Ready? then [s.result] else [])
  }

  /**
   * Runs `events` on a cell in state `s`; returns the final state, the wakers woken and
   * the results the polls took out, in order.
   */
  function Replay<M, W>(s: MRInner<M, W>, events: seq<CellEvent<M, W>>): (r: (MRInner<M, W>, seq<W>, seq<Result<M, Error>>))
    decreases |events|
  {
    if events == [] then (s, [], [])
    else
      var here := CellStep(s, events[0]);
      var rest := Replay(here.0, events[1..]);
      (rest.0, here.1 + rest.1, here.2 + rest.2)
  }

  /** How many deliveries `events` holds. */
  function Deliveries<M, W>(events: seq<CellEvent<M, W>>): (n: nat)
    ensures n <= |events|
    decreases |events|
  {
    if events == [] then 0 else (if events[0].Deliver? then 1 else 0) + Deliveries(events[1..])
  }

  /** The result a cell in state `s` holds, if any. */
  function Held<M, W>(s: MRInner<M, W>): (held: seq<Result<M, Error>>)
    ensures held != [] <==> s.Ready?
    ensures s.Ready? ==> held == [s.result]
  {
    if s.Ready? then [s.result] else []
  }

  /** The results the deliveries in `events` store, in order. */
  function DeliveredResults<M, W>(events: seq<CellEvent<M, W>>): (results: seq<Result<M, Error>>)
    ensures |results| == Deliveries(events)
    ensures forall i :: 0 <= i < |results| ==> results[i].Ok?
    decreases |events|
  {
    if events == [] then []
    else (if events[0].Deliver? then [Ok(events[0].msg)] else []) + DeliveredResults(events[1..])
  }

  /**
   * Each delivery wakes at most one consumer, and each result is taken out at most once:
   * the results the polls take out are, counted with multiplicity, among the result the cell
   * held at the start and the results delivered to it.
   */
  lemma {:induction false} ReplayWakesAndTakesOnce<M, W>(s: MRInner<M, W>, events: seq<CellEvent<M, W>>)
    ensures |Replay(s, events).1| <= Deliveries(events)
    ensures multiset(Replay(s, events).2) <= multiset(Held(s) + DeliveredResults(events))
    decreases |events|
  {
    if events != [] {
      var here := CellStep(s, events[0]);
      var tail := events[1..];
      ReplayWakesAndTakesOnce(here.0, tail);
      var rest := Replay(here.0, tail);
      match events[0]
      case Deliver(m) =>
        assert Held(here.0) == [Ok(m)];
        assert DeliveredResults(events) == [Ok(m)] + DeliveredResults(tail);
        assert here.2 == [];
      case PollBy(w) =>
        assert Held(here.0) == [];
        assert DeliveredResults(events) == DeliveredResults(tail);
        assert here.2 == Held(s);
    }
  }

  /**
   * The waker woken by a delivery is the one the most recent poll left: consumers that
   * polled earlier are not woken separately.
   */
  lemma LatestWakerWoken<M, W>(s: MRInner<M, W>, w1: W, w2: W, msg: M)
    requires !s.Ready?
    ensures Replay(s, [PollBy(w1), PollBy(w2), Deliver(msg)]).1 == [w2]
    ensures Replay(s, [PollBy(w1), PollBy(w2), Deliver(msg)]).0 == Ready(Ok(msg))
  {
    var third: seq<CellEvent<M, W>> := [Deliver(msg)];
    var second := [PollBy(w2)] + third;
    var first := [PollBy(w1)] + second;
    assert third[1..] == [] && second[1..] == third && first[1..] == second;
    assert Replay(Ready(Ok(msg)), third[1..]).0 == Ready(Ok(msg));
    var last := Replay(Pending(w2), third);
    assert last.0 == Ready(Ok(msg)) && last.1 == [w2];
    assert second[0] == PollBy(w2);
    var middle := Replay(Pending(w1), second);
    assert middle.0 == last.0 && middle.1 == [] + last.1;
    assert first == [PollBy(w1), PollBy(w2), Deliver(msg)];
  }

  /** After the result has been taken out, polling again parks the consumer instead of finishing. */
  lemma SecondPollPends<M, W>(r: Result<M, Error>, w1: W, w2: W)
    ensures Replay(Ready(r), [PollBy(w1), PollBy(w2)]).2 == [r]
    ensures Replay(Ready(r), [PollBy(w1), PollBy(w2)]).0 == Pending(w2)
  {
    var second: seq<CellEvent<M, W>> := [PollBy(w2)];
    var first := [PollBy(w1)] + second;
    assert second[1..] == [] && first[1..] == second;
    assert Replay(Pending(w2), second[1..]).0 == Pending(w2);
    var last := Replay(Neither, second);
    assert last.0 == Pending(w2) && last.2 == [];
    assert first == [PollBy(w1), PollBy(w2)];
  }
}
