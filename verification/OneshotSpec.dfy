/** The oneshot channel as a state machine: two flags, a value slot and one stored waker per side. */
module OneshotSpec {
  import opened Base

  /**
   * `complete` and `closed` are the flags VALUE_SENT and CLOSED. `tx` and `rx` say which
   * handles still point at the channel; a receiver may outlive its pointer (`rxAlive`).
   */
  datatype Chan<T> = Chan(
    complete: bool,
    closed: bool,
    value: Option<T>,
    rxTask: Option<Waker>,
    txTask: Option<Waker>,
    tx: bool,
    rx: bool,
    rxAlive: bool)

  datatype Op<T> =
    | Send(v: T)
    | DropTx
    | PollClosed(w: Waker)
    | Close
    | TryRecv
    | PollRx(w: Waker)
    | DropRx

  /** What a call returns: to the sender, then to the receiver. */
  datatype Out<T> =
    | Done
    | SentOk
    | Returned(v: T)
    | HungUp
    | StillOpen
    | Received(v: T)
    | Empty
    | Failed
    | RecvPending

  /** What happens in one waker slot: the clones stored into it and the wakers dropped from it. */
  datatype Churn = Churn(cloned: seq<Waker>, released: seq<Waker>)

  /** A call also wakes, changes the waker slots and may drop the value with the channel. */
  datatype Effect<T> = Effect(
    c: Chan<T>,
    out: Out<T>,
    woken: seq<Waker>,
    rxSlot: Churn,
    txSlot: Churn,
    dropped: seq<T>)

  const STILL := Churn([], [])

  /** A call that does no more than answer and wake. */
  ghost function Only<T>(c: Chan<T>, out: Out<T>, woken: seq<Waker>): Effect<T> {
    Effect(c, out, woken, STILL, STILL, [])
  }

  ghost function Init<T>(): Chan<T> {
    Chan(false, false, None, None, None, true, true, true)
  }

  /** A receiver that has got its value must not be polled again: that panics. */
  ghost predicate Enabled<T>(c: Chan<T>, op: Op<T>) {
    match op
    case Send(v) => c.tx
    case DropTx => c.tx
    case PollClosed(w) => c.tx
    case Close => c.rxAlive
    case TryRecv => c.rxAlive
    case PollRx(w) => c.rx
    case DropRx => c.rxAlive
  }

  /**
   * The sender's pointer goes exactly when VALUE_SENT is set, the receiver's only when there
   * is nothing to wait for; what is left in a channel nobody points at has been dropped.
   */
  ghost predicate Inv<T>(c: Chan<T>) {
    && (c.tx <==> !c.complete)
    && (c.value.Some? ==> c.complete)
    && (c.rx ==> c.rxAlive)
    && (!c.rx ==> c.complete || c.closed)
    && (!c.tx && !c.rx ==> c.value == None && c.rxTask == None && c.txTask == None)
  }

  /** A handle is gone. With the last one go the wakers and a value nobody took. */
  ghost function Release<T>(c: Chan<T>, out: Out<T>, woken: seq<Waker>): Effect<T> {
    if c.tx || c.rx then Only(c, out, woken)
    else
      Effect(Chan(c.complete, c.closed, None, None, None, false, false, c.rxAlive), out, woken,
             Churn([], ToSeq(c.rxTask)), Churn([], ToSeq(c.txTask)), ToSeq(c.value))
  }

  /** `complete`: a receiver that has not hung up is woken. */
  ghost function WokenByComplete<T>(c: Chan<T>): seq<Waker> {
    if c.closed then [] else ToSeq(c.rxTask)
  }

  /** `close`: a sender still there is woken. */
  ghost function WokenByClose<T>(c: Chan<T>): seq<Waker> {
    if c.complete then [] else ToSeq(c.txTask)
  }

  /** The stored waker stays if it wakes the polling task; otherwise it is dropped for a clone. */
  predicate Suits(stored: Option<Waker>, w: Waker) {
    stored.Some? && stored.value.WillWake(w)
  }

  ghost function Step<T>(c: Chan<T>, op: Op<T>): Effect<T>
    requires Enabled(c, op)
  {
    match op
    case Send(v) =>
      if c.closed then
        Release(Chan(true, true, None, c.rxTask, c.txTask, false, c.rx, c.rxAlive), Returned(v), [])
      else
        Release(Chan(true, false, Some(v), c.rxTask, c.txTask, false, c.rx, c.rxAlive), SentOk, ToSeq(c.rxTask))
    case DropTx =>
      Release(Chan(true, c.closed, c.value, c.rxTask, c.txTask, false, c.rx, c.rxAlive), Done, WokenByComplete(c))
    case PollClosed(w) =>
      if c.closed then Only(c, HungUp, [])
      else if Suits(c.txTask, w) then Only(c, StillOpen, [])
      else
        Effect(Chan(c.complete, false, c.value, c.rxTask, Some(w), c.tx, c.rx, c.rxAlive), StillOpen,
               [], STILL, Churn([w], ToSeq(c.txTask)), [])
    case Close =>
      if !c.rx then Only(c, Done, [])
      else
        Only(Chan(c.complete, true, c.value, c.rxTask, c.txTask, c.tx, true, true), Done, WokenByClose(c))
    case TryRecv =>
      if !c.rx then Only(c, Failed, [])
      else if c.complete then
        Release(Chan(true, c.closed, None, c.rxTask, c.txTask, c.tx, false, true),
                if c.value.Some? then Received(c.value.value) else Failed, [])
      else if c.closed then Release(Chan(false, true, c.value, c.rxTask, c.txTask, c.tx, false, true), Failed, [])
      else Only(c, Empty, [])
    case PollRx(w) =>
      if c.complete then
        if c.value.Some? then
          Release(Chan(true, c.closed, None, c.rxTask, c.txTask, c.tx, false, c.rxAlive), Received(c.value.value), [])
        else Only(c, Failed, [])
      else if c.closed then Only(c, Failed, [])
      else if Suits(c.rxTask, w) then Only(c, RecvPending, [])
      else
        Effect(Chan(false, false, c.value, Some(w), c.txTask, c.tx, c.rx, c.rxAlive), RecvPending,
               [], Churn([w], ToSeq(c.rxTask)), STILL, [])
    case DropRx =>
      if !c.rx then Only(Chan(c.complete, c.closed, c.value, c.rxTask, c.txTask, c.tx, false, false), Done, [])
      else
        Release(Chan(c.complete, true, c.value, c.rxTask, c.txTask, c.tx, false, false), Done, WokenByClose(c))
  }

  lemma StepKeeps<T>(c: Chan<T>, op: Op<T>)
    requires Inv(c) && Enabled(c, op)
    ensures Inv(Step(c, op).c)
  {
  }

  /** `send` succeeds exactly on a channel that was not closed before, and then the receiver is there. */
  lemma SendMeans<T>(c: Chan<T>, v: T)
    requires Inv(c) && c.tx
    ensures var e := Step(c, Send(v));
      && (e.out == SentOk <==> !c.closed)
      && (e.out == Returned(v) <==> c.closed)
      && (if c.closed then e.c.value == None && e.woken == [] else e.c.value == Some(v) && e.c.rx)
  {
    assert !c.closed ==> c.rx;
  }

  /** A receiver is left pending only while the channel is open and a sender is there. */
  lemma PollMeans<T>(c: Chan<T>, w: Waker)
    requires Inv(c) && c.rx
    ensures var e := Step(c, PollRx(w));
      && (e.out == RecvPending <==> c.tx && !c.closed)
      && (e.out.Received? <==> c.value.Some?)
      && (e.out == Failed <==> c.value == None && (!c.tx || c.closed))
      && (e.out == RecvPending ==> e.c.rxTask.Some? && e.c.rxTask.value.WillWake(w))
      && (e.out == Failed ==> e.c == c && e.dropped == [])
  {
  }

  /**
   * A value that was sent outlives `close`, and the next `try_recv` or poll delivers it;
   * after that the receiver lets go of the channel.
   */
  lemma ValueSurvivesClose<T>(c: Chan<T>, w: Waker)
    requires Inv(c) && c.value.Some?
    ensures c.rx && Step(c, Close).c.value == c.value && Step(c, Close).woken == []
    ensures forall op | op in {TryRecv, PollRx(w)} :: Step(c, op).out == Received(c.value.value) && !Step(c, op).c.rx
    ensures forall op | op in {TryRecv, PollRx(w)} :: Step(Step(c, Close).c, op).out == Received(c.value.value)
  {
  }
}
