/** Whole runs of the bounded channel: what was accepted, received and woken. */
module ChannelRuns {
  import opened Base
  import opened WakeLists
  import opened ChannelSpec
  import Laws = ChannelLaws
  import SemLaws = SemaphoreLaws
  import Sem = SemaphoreSpec
  import SemRuns = SemaphoreRuns

  /**
   * What callers know, from the calls alone: how many senders there are, which `send` calls
   * are under way and with what value, whether the receiver closed the channel, and whether
   * it is still there.
   */
  datatype Books<Id(==), T> = Books(senders: int, sends: map<Id, T>, shut: bool, receiver: bool)

  /**
   * `accepted` lists the values whose `send` returned Ok, `received` those handed to the
   * receiver. `sendPend` and `recvPend` keep, for calls whose last poll was Pending, that
   * poll's waker and the length of the wake-up log at that time. `notices` marks those
   * entries of the log that woke the receiver because of a push or the last sender's drop.
   */
  datatype Sys<Id(==), T> = Sys(
    c: Chan<Id, T>,
    books: Books<Id, T>,
    accepted: seq<T>,
    received: seq<T>,
    log: seq<Waker>,
    notices: set<int>,
    sendPend: map<Id, (Waker, nat)>,
    recvPend: Option<(Waker, nat)>)

  ghost function Start<Id, T>(buffer: nat): Sys<Id, T> {
    Sys(ChannelSpec.Init(buffer), Books(1, map[], false, true), [], [], [], {}, map[], None)
  }

  ghost function Book<Id, T>(b: Books<Id, T>, op: Op<Id, T>, out: Out<T>): Books<Id, T> {
    match op
    case StartSend(id, v) => Books(b.senders, b.sends[id := v], b.shut, b.receiver)
    case PollSend(id, w) => if out.SendPending? then b else Books(b.senders, b.sends - {id}, b.shut, b.receiver)
    case CancelSend(id) => Books(b.senders, b.sends - {id}, b.shut, b.receiver)
    case CloneTx => Books(b.senders + 1, b.sends, b.shut, b.receiver)
    case DropTx => Books(b.senders - 1, b.sends, b.shut, b.receiver)
    case CloseRx => Books(b.senders, b.sends, true, b.receiver)
    case DropRx => Books(b.senders, b.sends, true, false)
    case _ => b
  }

  /** The channel counts its senders right, remembers their values, and is open as long as it should be. */
  ghost predicate BooksAgree<Id, T>(c: Chan<Id, T>, b: Books<Id, T>) {
    && c.txs == b.senders && c.sends == b.sends && c.rxAlive == b.receiver
    && (c.sem.closed <==> b.shut || b.senders == 0)
  }

  ghost function SendPend<Id, T>(s: Sys<Id, T>, op: Op<Id, T>, out: Out<T>): map<Id, (Waker, nat)> {
    match op
    case PollSend(id, w) => if out.SendPending? then s.sendPend[id := (w, |s.log|)] else s.sendPend - {id}
    case CancelSend(id) => s.sendPend - {id}
    case _ => s.sendPend
  }

  ghost function RecvPend<Id, T>(s: Sys<Id, T>, op: Op<Id, T>, out: Out<T>): Option<(Waker, nat)> {
    match op
    case Recv(w) => if out.RecvPending? then Some((w, |s.log|)) else None
    case DropRx => None
    case _ => s.recvPend
  }

  /** Calls that wake a registered receiver: a value is pushed, or the last sender goes. */
  ghost predicate Notifies<Id, T>(c: Chan<Id, T>, op: Op<Id, T>, out: Out<T>) {
    c.rxWaker.Some? && if op.PollSend? then out.Sent? else op.DropTx? && c.txs == 1
  }

  ghost function Step<Id, T>(s: Sys<Id, T>, op: Op<Id, T>): Sys<Id, T>
    requires Sem.Inv(s.c.sem) && Waiting(s.c) && Enabled(s.c, op)
  {
    var e := ChannelSpec.Step(s.c, op);
    Sys(e.c,
        Book(s.books, op, e.out),
        s.accepted + if op.PollSend? && e.out.Sent? && op.id in s.books.sends then [s.books.sends[op.id]] else [],
        s.received + if e.out.Got? then [e.out.v] else [],
        s.log + e.woken,
        if Notifies(s.c, op, e.out) then s.notices + {|s.log| + |e.woken| - 1} else s.notices,
        SendPend(s, op, e.out),
        RecvPend(s, op, e.out))
  }

  // ----- order

  /** Nothing is lost, duplicated or reordered while there is a receiver. */
  ghost predicate InOrder<Id, T>(s: Sys<Id, T>) {
    if s.c.rxAlive then s.accepted == s.received + s.c.queue else s.received <= s.accepted
  }

  lemma OrderKept<Id, T>(s: Sys<Id, T>, op: Op<Id, T>)
    requires Sem.Inv(s.c.sem) && Waiting(s.c) && Ends(s.c) && Enabled(s.c, op) && InOrder(s)
    requires BooksAgree(s.c, s.books)
    ensures InOrder(Step(s, op))
  {
    hide Sem.Inv, Sem.Distribute, Sem.Close, Sem.Drop, Sem.Create, WakeOrder, SendPend, RecvPend;
    var none: seq<T> := [];
    assert s.accepted + none == s.accepted && s.received + none == s.received;
    if s.c.rxAlive && s.c.queue != [] {
      assert s.received + [s.c.queue[0]] + s.c.queue[1..] == s.received + s.c.queue;
    }
    if op.PollSend? {
      var more := [s.c.sends[op.id]];
      assert s.received + s.c.queue + more == s.received + (s.c.queue + more);
    }
  }

  // ----- books

  lemma BooksKept<Id, T>(s: Sys<Id, T>, op: Op<Id, T>, cap: nat)
    requires Inv(s.c, cap) && Enabled(s.c, op) && BooksAgree(s.c, s.books)
    ensures BooksAgree(Step(s, op).c, Step(s, op).books)
  {
    hide Inv, Sem.Inv, Sem.Poll, Sem.Drop, Sem.Distribute, Sem.Close, WakeOrder, RecvPend, SendPend;
    InvGives(s.c, cap);
    WhenClosed(s.c, op, cap);
  }

  /** The semaphore is closed by the receiver or by the last sender's drop, and by nothing else. */
  lemma WhenClosed<Id, T>(c: Chan<Id, T>, op: Op<Id, T>, cap: nat)
    requires Inv(c, cap) && Enabled(c, op)
    ensures Sem.Inv(c.sem) && Waiting(c)
    ensures ChannelSpec.Step(c, op).c.sem.closed <==>
      c.sem.closed || op.CloseRx? || op.DropRx? || (op.DropTx? && c.txs == 1)
  {
    hide Sem.Inv, Sem.Owned, Sem.Poll, PollSendStep, CloseStep, DropTxStep, DropRxStep, Take, Finish;
    InvGives(c, cap);
    Laws.EveryCallSettles(c, op, cap);
    if op.PollSend? {
      AcquiredIsSent(c, op.id, op.w);
      SemLaws.PollAnswers(c.sem, op.id, op.w);
    }
  }

  // ----- wake-ups of the receiver

  /** Some wake-up at or after `mark` that a push or the last sender's drop caused wakes the task of `w`. */
  ghost predicate NotifiedSince(log: seq<Waker>, notices: set<int>, mark: nat, w: Waker) {
    exists k :: k in notices && mark <= k < |log| && log[k].WillWake(w)
  }

  /** A receiver left pending is registered, or has been notified since. */
  ghost predicate ReceiverNotLost<Id, T>(s: Sys<Id, T>) {
    s.recvPend.Some? ==>
      var (w, mark) := s.recvPend.value;
      && mark <= |s.log|
      && ((s.c.rxWaker.Some? && s.c.rxWaker.value.WillWake(w)) || NotifiedSince(s.log, s.notices, mark, w))
  }

  lemma ReceiverKept<Id, T>(s: Sys<Id, T>, op: Op<Id, T>)
    requires Sem.Inv(s.c.sem) && Waiting(s.c) && Enabled(s.c, op) && ReceiverNotLost(s)
    ensures ReceiverNotLost(Step(s, op))
  {
    hide Sem.Inv, ChannelSpec.Step;
    var t, e := Step(s, op), ChannelSpec.Step(s.c, op);
    ReceiverMoves(s.c, op);
    if t.recvPend.Some? && t.recvPend == s.recvPend && !op.Recv? {
      var (w, mark) := s.recvPend.value;
      if k :| k in s.notices && mark <= k < |s.log| && s.log[k].WillWake(w) {
        assert k in t.notices && t.log[k] == s.log[k];
      } else if t.c.rxWaker != s.c.rxWaker {
        var k := |s.log| + |e.woken| - 1;
        assert k in t.notices && t.log[k] == s.c.rxWaker.value;
      }
    }
  }

  /**
   * The stored waker is only ever taken by a call that notifies, and then it is woken, last.
   * A receiver left pending has just been registered.
   */
  lemma ReceiverMoves<Id, T>(c: Chan<Id, T>, op: Op<Id, T>)
    requires Sem.Inv(c.sem) && Waiting(c) && Enabled(c, op)
    ensures var e := ChannelSpec.Step(c, op);
      && (e.c.rxWaker != c.rxWaker && c.rxWaker.Some? && !op.Recv? ==> Notifies(c, op, e.out))
      && (Notifies(c, op, e.out) ==> e.woken != [] && e.woken[|e.woken| - 1] == c.rxWaker.value)
      && (op.Recv? && e.out.RecvPending? ==> e.c.rxWaker.Some? && e.c.rxWaker.value.WillWake(op.w))
  {
    hide Sem.Inv, Sem.Distribute, Sem.Close, Sem.Drop, WakeOrder;
  }

  // ----- wake-ups of the senders

  ghost predicate SenderNotLost<Id, T>(c: Chan<Id, T>, log: seq<Waker>, pend: map<Id, (Waker, nat)>) {
    SemRuns.NoLostWakeup(c.sem, log, pend)
  }

  lemma ResumedWakes<Id, T>(c: Chan<Id, T>, id: Id, acquired: bool, log: seq<Waker>, pend: map<Id, (Waker, nat)>)
    requires Sem.Inv(c.sem) && id in c.sem.futs && id in c.sends && SenderNotLost(c, log, pend)
    ensures var e := Resumed(c, id, acquired); SenderNotLost(e.c, log + e.woken, pend - {id})
  {
    hide Sem.Inv, SemRuns.NoLostWakeup, Sem.Drop;
    SemRuns.DropWakes(c.sem, id, log, pend);
    if acquired {
      var (d, ws) := Finish(c, c.sem, id);
      var e := Push(d, c.sends[id]);
      SemRuns.MoreWakes(d.sem, log + ws, e.woken, pend - {id});
      assert (log + ws) + e.woken == log + (ws + e.woken);
    }
  }

  lemma PollSendWakes<Id, T>(c: Chan<Id, T>, id: Id, w: Waker, log: seq<Waker>, pend: map<Id, (Waker, nat)>)
    requires Sem.Inv(c.sem) && Waiting(c) && id in c.sends && SenderNotLost(c, log, pend)
    ensures var e := PollSendStep(c, id, w);
      SenderNotLost(e.c, log + e.woken, if e.out.SendPending? then pend[id := (w, |log|)] else pend - {id})
  {
    hide Sem.Inv, SemRuns.NoLostWakeup, Sem.Poll, Sem.Drop;
    var (t, r) := Sem.Poll(c.sem, id, w);
    Sem.PollKeeps(c.sem, id, w);
    SemRuns.PollWakes(c.sem, id, w, log, pend);
    if r.Pending? {
      assert log + [] == log;
    } else {
      ResumedWakes(WithSem(c, t), id, r.Acquired?, log, pend - {id});
      assert pend - {id} - {id} == pend - {id};
    }
  }

  lemma CloseStepWakes<Id, T>(c: Chan<Id, T>, log: seq<Waker>, pend: map<Id, (Waker, nat)>)
    requires Sem.Inv(c.sem) && SenderNotLost(c, log, pend)
    ensures var e := CloseStep(c); SenderNotLost(e.c, log + e.woken, pend)
  {
    hide SemRuns.NoLostWakeup;
    SemRuns.CloseWakes(c.sem, log, pend);
  }

  lemma DropTxWakes<Id, T>(c: Chan<Id, T>, log: seq<Waker>, pend: map<Id, (Waker, nat)>)
    requires Sem.Inv(c.sem) && SenderNotLost(c, log, pend) && 0 < c.txs
    ensures var e := DropTxStep(c); SenderNotLost(e.c, log + e.woken, pend)
  {
    hide Sem.Inv, SemRuns.NoLostWakeup;
    if c.txs == 1 {
      var e := CloseStep(c);
      CloseStepWakes(c, log, pend);
      SemRuns.MoreWakes(e.c.sem, log + e.woken, ToSeq(c.rxWaker), pend);
      assert (log + e.woken) + ToSeq(c.rxWaker) == log + (e.woken + ToSeq(c.rxWaker));
    } else {
      assert log + [] == log;
    }
  }

  lemma DropRxWakes<Id, T>(c: Chan<Id, T>, log: seq<Waker>, pend: map<Id, (Waker, nat)>)
    requires Sem.Inv(c.sem) && SenderNotLost(c, log, pend)
    ensures var e := DropRxStep(c); SenderNotLost(e.c, log + e.woken, pend)
  {
    hide Sem.Inv, SemRuns.NoLostWakeup;
    Sem.InvLists(c.sem);
    Sem.CloseKeeps(c.sem);
    var (t, ws) := Sem.Close(c.sem);
    Sem.InvLists(t);
    SemRuns.CloseWakes(c.sem, log, pend);
    SemRuns.ReleaseWakes(t, |c.queue|, log + ws, pend);
    var vs := Sem.Distribute(t, |c.queue|).1;
    assert (log + ws) + WakeOrder(vs) == log + (ws + WakeOrder(vs));
  }

  lemma SendersKept<Id, T>(s: Sys<Id, T>, op: Op<Id, T>)
    requires Sem.Inv(s.c.sem) && Waiting(s.c) && Enabled(s.c, op)
    requires SenderNotLost(s.c, s.log, s.sendPend)
    ensures var t := Step(s, op); SenderNotLost(t.c, t.log, t.sendPend)
  {
    hide Sem.Inv, SemRuns.NoLostWakeup, Sem.Distribute, PollSendStep, CloseStep, DropTxStep, DropRxStep;
    var c := s.c;
    assert s.log + [] == s.log;
    match op
    case StartSend(id, v) => SemRuns.CreateWakes(c.sem, id, 1, s.log, s.sendPend);
    case PollSend(id, w) => PollSendWakes(c, id, w, s.log, s.sendPend);
    case CancelSend(id) => SemRuns.DropWakes(c.sem, id, s.log, s.sendPend);
    case CloneTx =>
    case DropTx => DropTxWakes(c, s.log, s.sendPend);
    case TryRecv => if c.queue != [] { SemRuns.ReleaseWakes(c.sem, 1, s.log, s.sendPend); }
    case Recv(w) => if c.queue != [] { SemRuns.ReleaseWakes(c.sem, 1, s.log, s.sendPend); }
    case CloseRx => CloseStepWakes(c, s.log, s.sendPend);
    case DropRx => DropRxWakes(c, s.log, s.sendPend);
  }

  // ----- runs

  ghost predicate SysInv<Id, T>(s: Sys<Id, T>, cap: nat) {
    && Inv(s.c, cap) && BooksAgree(s.c, s.books) && InOrder(s)
    && ReceiverNotLost(s) && SenderNotLost(s.c, s.log, s.sendPend)
  }

  lemma StartHolds<Id, T>(buffer: nat)
    ensures SysInv(Start<Id, T>(buffer), buffer % (Sem.MAX_PERMITS + 1))
  {
    InitHolds<Id, T>(buffer);
  }

  lemma SysKept<Id, T>(s: Sys<Id, T>, op: Op<Id, T>, cap: nat)
    requires SysInv(s, cap) && Enabled(s.c, op)
    ensures SysInv(Step(s, op), cap)
  {
    hide Sem.Inv, SemRuns.NoLostWakeup, BooksAgree, InOrder, ReceiverNotLost, SenderNotLost;
    hide Book, SendPend, RecvPend, ChannelSpec.Step;
    StepKeeps(s.c, op, cap);
    BooksKept(s, op, cap);
    OrderKept(s, op);
    ReceiverKept(s, op);
    SendersKept(s, op);
  }

  ghost predicate Legal<Id, T>(s: Sys<Id, T>, ops: seq<Op<Id, T>>, cap: nat)
    requires SysInv(s, cap)
    decreases |ops|
  {
    ops == [] || (Enabled(s.c, ops[0]) && (SysKept(s, ops[0], cap); Legal(Step(s, ops[0]), ops[1..], cap)))
  }

  ghost function Run<Id, T>(s: Sys<Id, T>, ops: seq<Op<Id, T>>, cap: nat): Sys<Id, T>
    requires SysInv(s, cap) && Legal(s, ops, cap)
    decreases |ops|
  {
    if ops == [] then s else SysKept(s, ops[0], cap); Run(Step(s, ops[0]), ops[1..], cap)
  }

  lemma {:induction false} RunKeeps<Id, T>(s: Sys<Id, T>, ops: seq<Op<Id, T>>, cap: nat)
    requires SysInv(s, cap) && Legal(s, ops, cap)
    ensures SysInv(Run(s, ops, cap), cap)
    decreases |ops|
  {
    if ops != [] {
      SysKept(s, ops[0], cap);
      RunKeeps(Step(s, ops[0]), ops[1..], cap);
    }
  }

  /** `Semaphore::new` masks the requested capacity. */
  function Capacity(buffer: nat): nat {
    buffer % (Sem.MAX_PERMITS + 1)
  }

  ghost predicate LegalFromStart<Id, T>(buffer: nat, ops: seq<Op<Id, T>>) {
    StartHolds<Id, T>(buffer);
    Legal(Start<Id, T>(buffer), ops, Capacity(buffer))
  }

  /** Where a run from a new channel ends. */
  ghost function Reached<Id, T>(buffer: nat, ops: seq<Op<Id, T>>): Sys<Id, T>
    requires LegalFromStart(buffer, ops)
  {
    StartHolds<Id, T>(buffer);
    Run(Start(buffer), ops, Capacity(buffer))
  }

  lemma ReachedHolds<Id, T>(buffer: nat, ops: seq<Op<Id, T>>)
    requires LegalFromStart(buffer, ops)
    ensures SysInv(Reached(buffer, ops), Capacity(buffer))
  {
    StartHolds<Id, T>(buffer);
    RunKeeps(Start(buffer), ops, Capacity(buffer));
  }

  /**
   * Exactly-once delivery in order: while the receiver lives, what it got followed by what
   * is queued is what was accepted; once it is gone nothing stays in the queue.
   */
  lemma EveryRunDelivers<Id, T>(buffer: nat, ops: seq<Op<Id, T>>)
    requires LegalFromStart(buffer, ops)
    ensures var t := Reached(buffer, ops);
      if t.c.rxAlive then t.accepted == t.received + t.c.queue else t.received <= t.accepted && t.c.queue == []
  {
    hide Sem.Inv;
    ReachedHolds(buffer, ops);
    var t := Reached(buffer, ops);
    assert InOrder(t) && Ends(t.c);
  }

  /** The masked capacity is never exceeded, and no slot of it is ever lost. */
  lemma EveryRunWithinCapacity<Id, T>(buffer: nat, ops: seq<Op<Id, T>>)
    requires LegalFromStart(buffer, ops)
    ensures var c := Reached(buffer, ops).c;
      && c.sem.avail + Sum(Sem.CreditMap(c.sem.futs)) + |c.queue| == Capacity(buffer) <= Sem.MAX_PERMITS
      && (c.sem.queue != [] ==> c.sem.avail == 0)
  {
    ReachedHolds(buffer, ops);
    var t := Reached(buffer, ops);
    assert Ledger(t.c, Capacity(buffer));
  }

  /** A `send` whose permit came through is queued: the check for a closed channel never fails then. */
  lemma AcquiredIsSent<Id, T>(c: Chan<Id, T>, id: Id, w: Waker)
    requires Sem.Inv(c.sem) && Waiting(c) && id in c.sends
    ensures var e := PollSendStep(c, id, w); var r := Sem.Poll(c.sem, id, w).1;
      && (r.Acquired? <==> e.out.Sent?)
      && (r.Closed? <==> e.out.RxClosed?)
      && (r.Pending? <==> e.out.SendPending?)
      && (e.out.Sent? <==> e.c.queue == c.queue + [c.sends[id]])
      && (c.sem.closed ==> e.out.RxClosed? && e.c.queue == c.queue)
  {
    Sem.PollKeeps(c.sem, id, w);
    var (t, r) := Sem.Poll(c.sem, id, w);
    if !r.Pending? {
      Sem.DropFrame(t, id);
    }
  }

  /**
   * What the receiver is answered after any run, in terms of the calls made so far: the next
   * accepted value if there is one; otherwise that there is none yet, or none to come.
   */
  lemma EveryRunReceives<Id, T>(buffer: nat, ops: seq<Op<Id, T>>, w: Waker)
    requires LegalFromStart(buffer, ops)
    ensures var t := Reached(buffer, ops);
      && Sem.Inv(t.c.sem) && Waiting(t.c) && t.c.rxAlive == t.books.receiver
      && (t.books.receiver ==>
            var a, b := ChannelSpec.Step(t.c, TryRecv).out, ChannelSpec.Step(t.c, Recv(w)).out;
            if t.received != t.accepted then
              |t.received| < |t.accepted| && a == b == Got(t.accepted[|t.received|])
            else if t.books.senders != 0 then 0 < t.books.senders && a == Empty && b == RecvPending
            else a == Disconnected && b == Ended)
  {
    hide Sem.Inv;
    ReachedHolds(buffer, ops);
    var t := Reached(buffer, ops);
    assert InOrder(t) && BooksAgree(t.c, t.books);
    assert t.c.queue == [] ==> t.received + t.c.queue == t.received;
  }

  /**
   * What a `send` is answered after any run: refused iff the receiver closed the channel or
   * is gone, queued iff its permit was granted or, on its first poll, a slot is free.
   */
  lemma EveryRunSends<Id, T>(buffer: nat, ops: seq<Op<Id, T>>, id: Id, w: Waker)
    requires LegalFromStart(buffer, ops) && id in Reached(buffer, ops).books.sends
    ensures var t := Reached(buffer, ops);
      && Sem.Inv(t.c.sem) && Waiting(t.c) && id in t.c.sends && id in t.c.sem.futs
      && var f, e := t.c.sem.futs[id], PollSendStep(t.c, id, w);
      && (e.out == RxClosed <==> t.books.shut)
      && (e.out == Sent <==> !t.books.shut && if f.queued then f.state == 0 else 1 <= t.c.sem.avail)
      && (e.out == SendPending <==> !t.books.shut && if f.queued then 0 < f.state else t.c.sem.avail == 0)
      && e.c.queue == t.c.queue + if e.out == Sent then [t.books.sends[id]] else []
  {
    hide Sem.Inv, Sem.Poll, Sem.Drop;
    ReachedHolds(buffer, ops);
    var t := Reached(buffer, ops);
    assert BooksAgree(t.c, t.books) && Ends(t.c);
    AcquiredIsSent(t.c, id, w);
    SemLaws.PollAnswers(t.c.sem, id, w);
    assert t.c.queue + [] == t.c.queue;
  }

  /** The channel stays open until the receiver closes it or the last sender is dropped. */
  lemma EveryRunStaysOpen<Id, T>(buffer: nat, ops: seq<Op<Id, T>>)
    requires LegalFromStart(buffer, ops)
    ensures var t := Reached(buffer, ops);
      && (t.c.sem.closed <==> t.books.shut || t.books.senders == 0)
      && t.c.txs == t.books.senders && t.c.sends == t.books.sends
  {
    hide Sem.Inv;
    ReachedHolds(buffer, ops);
    assert BooksAgree(Reached(buffer, ops).c, Reached(buffer, ops).books);
  }

  /** The end is reported exactly when every sender is gone and every accepted value received. */
  lemma EndMeansAllReceived<Id, T>(buffer: nat, ops: seq<Op<Id, T>>, w: Waker)
    requires LegalFromStart(buffer, ops)
    requires Reached(buffer, ops).c.rxAlive
    ensures var t := Reached(buffer, ops);
      && Sem.Inv(t.c.sem) && Waiting(t.c)
      && (ChannelSpec.Step(t.c, Recv(w)).out.Ended? <==> t.books.senders == 0 && t.accepted == t.received)
      && (ChannelSpec.Step(t.c, TryRecv).out.Disconnected? <==> t.books.senders == 0 && t.accepted == t.received)
  {
    hide Sem.Inv, Waiting, Reached, ChannelSpec.Step;
    EveryRunReceives(buffer, ops, w);
    ReachedHolds(buffer, ops);
  }

  /** Once the end is reached no call leads away from it. */
  lemma {:induction false} EndIsFinal<Id, T>(s: Sys<Id, T>, ops: seq<Op<Id, T>>, cap: nat)
    requires SysInv(s, cap) && Legal(s, ops, cap) && s.c.txs == 0 && s.c.queue == []
    ensures var t := Run(s, ops, cap); t.c.txs == 0 && t.c.queue == [] && t.accepted == s.accepted
    decreases |ops|
  {
    if ops != [] {
      SysKept(s, ops[0], cap);
      EndKept(s, ops[0], cap);
      EndIsFinal(Step(s, ops[0]), ops[1..], cap);
    }
  }

  lemma EndKept<Id, T>(s: Sys<Id, T>, op: Op<Id, T>, cap: nat)
    requires SysInv(s, cap) && Enabled(s.c, op) && s.c.txs == 0 && s.c.queue == []
    ensures var t := Step(s, op); t.c.txs == 0 && t.c.queue == [] && t.accepted == s.accepted
  {
    hide Sem.Inv, SenderNotLost;
  }

  /**
   * A receiver left pending is registered with a waker for its task, or has been woken since
   * by a push or by the last sender's drop.
   */
  lemma EveryRunWakesReceiver<Id, T>(buffer: nat, ops: seq<Op<Id, T>>)
    requires LegalFromStart(buffer, ops)
    requires Reached(buffer, ops).recvPend.Some?
    ensures var t := Reached(buffer, ops); var (w, mark) := t.recvPend.value;
      && (t.c.rxWaker.Some? ==> t.c.queue == [] && 0 < t.c.txs)
      && ((t.c.rxWaker.Some? && t.c.rxWaker.value.WillWake(w)) || NotifiedSince(t.log, t.notices, mark, w))
  {
    hide Sem.Inv;
    ReachedHolds(buffer, ops);
    var t := Reached(buffer, ops);
    assert ReceiverNotLost(t) && Ends(t.c);
  }

  /** A sender left pending waits in the queue, or was woken since and its next poll is Ready. */
  lemma EveryRunWakesSenders<Id, T>(buffer: nat, ops: seq<Op<Id, T>>, id: Id, w: Waker)
    requires LegalFromStart(buffer, ops)
    requires id in Reached(buffer, ops).sendPend
    ensures var t := Reached(buffer, ops); var (v, mark) := t.sendPend[id];
      && Sem.Inv(t.c.sem) && Waiting(t.c) && id in t.c.sends
      && if id in t.c.sem.queue then t.c.sem.futs[id].waker.Some? && t.c.sem.futs[id].waker.value.WillWake(v)
         else WokenSince(t.log, mark, v) && !PollSendStep(t.c, id, w).out.SendPending?
  {
    ReachedHolds(buffer, ops);
    var t := Reached(buffer, ops);
    assert SemRuns.NotLost(t.c.sem, t.log, id, t.sendPend[id].0, t.sendPend[id].1);
    AcquiredIsSent(t.c, id, w);
  }

  // ----- first come, first served

  /** As long as `a` waits, `b` waits behind it or has not been polled. */
  ghost predicate InTurn<Id>(s: Sem.State<Id>, a: Id, b: Id) {
    && a != b
    && (a in s.futs ==> s.futs[a].queued)
    && (a in s.queue ==> SemRuns.Behind(s, a, b))
  }

  lemma InTurnByHandOver<Id>(s: Sem.State<Id>, t: Sem.State<Id>, woken: seq<Waker>, a: Id, b: Id)
    requires Distinct(s.queue) && InTurn(s, a, b) && SemLaws.HandsOver(s, t, woken) && SemLaws.WantOneEach(s)
    ensures InTurn(t, a, b)
  {
    if a in t.queue {
      var q := s.queue;
      DistinctTail(q);
      if i, j :| 0 <= i < j < |q| && q[i] == a && q[j] == b {
        if i > 0 {
          assert t.queue[i - 1] == a && t.queue[j - 1] == b;
        }
      } else {
        assert !SemRuns.Before(q, a, b);
      }
    }
  }

  lemma InTurnByLeaving<Id>(s: Sem.State<Id>, id: Id, t: Sem.State<Id>, woken: seq<Waker>, a: Id, b: Id)
    requires Distinct(s.queue) && InTurn(s, a, b) && SemLaws.WantOneEach(s)
    requires id in s.futs && SemLaws.Leaves(s, id, t, woken)
    ensures InTurn(t, a, b)
  {
    var rest := Sem.State(s.avail, s.closed, Without(s.queue, id), s.futs - {id});
    DistinctWithout(s.queue, id);
    if SemRuns.Before(s.queue, a, b) && id != a && id != b {
      SemRuns.BeforeWithout(s.queue, id, a, b);
    }
    assert InTurn(rest, a, b);
    if s.futs[id].queued && s.futs[id].state == 0 {
      InTurnByHandOver(rest, t, woken, a, b);
    }
  }

  lemma InTurnByPoll<Id>(s: Sem.State<Id>, t: Sem.State<Id>, r: Sem.PollResult, id: Id, w: Waker, a: Id, b: Id)
    requires Sem.Inv(s) && Sem.Pollable(s, id) && InTurn(s, a, b)
    requires SemLaws.WantOneEach(s) && SemLaws.Awaited(s, t, r, id, w)
    ensures InTurn(t, a, b)
  {
    if a in t.queue {
      assert a in s.queue;
      var x :| 0 <= x < |s.queue| && s.queue[x] == a;
      assert |t.queue| >= |s.queue| && t.queue[x] == a;
      if i, j :| 0 <= i < j < |s.queue| && s.queue[i] == a && s.queue[j] == b {
        assert t.queue[i] == a && t.queue[j] == b;
      } else if id == b && |t.queue| > |s.queue| {
        assert t.queue[|s.queue|] == b;
      }
    }
  }

  lemma InTurnKept<Id, T>(c: Chan<Id, T>, op: Op<Id, T>, cap: nat, a: Id, b: Id)
    requires Inv(c, cap) && Enabled(c, op) && InTurn(c.sem, a, b) && (op.StartSend? ==> op.id != a)
    ensures Sem.Inv(c.sem) && Waiting(c) && InTurn(ChannelSpec.Step(c, op).c.sem, a, b)
  {
    hide Sem.Inv, Sem.Owned, ChannelSpec.Step, SemLaws.Awaited, SemLaws.HandsOver, SemLaws.Leaves, SemRuns.Behind;
    InvGives(c, cap);
    QueueIsDistinct(c.sem);
    Laws.EveryCallSettles(c, op, cap);
    var e := ChannelSpec.Step(c, op);
    match op
    case StartSend(id, v) => InTurnByStart(c.sem, e.c.sem, id, a, b);
    case PollSend(id, w) =>
      var r: Sem.PollResult :| e.out == Laws.AnswerTo(r) && SemLaws.Awaited(c.sem, e.c.sem, r, id, w);
      InTurnByPoll(c.sem, e.c.sem, r, id, w, a, b);
    case CancelSend(id) => InTurnByLeaving(c.sem, id, e.c.sem, e.woken, a, b);
    case TryRecv => if e.out.Got? { InTurnByHandOver(c.sem, e.c.sem, e.woken, a, b); }
    case Recv(w) => if e.out.Got? { InTurnByHandOver(c.sem, e.c.sem, e.woken, a, b); }
    case _ =>
  }

  lemma QueueIsDistinct<Id>(s: Sem.State<Id>)
    requires Sem.Inv(s)
    ensures Distinct(s.queue)
  {
  }

  lemma InTurnByStart<Id>(s: Sem.State<Id>, t: Sem.State<Id>, id: Id, a: Id, b: Id)
    requires InTurn(s, a, b) && id != a && id !in s.futs
    requires t == Sem.State(s.avail, s.closed, s.queue, s.futs[id := Sem.Fut(1, 1, false, false, None)])
    ensures InTurn(t, a, b)
  {
  }

  lemma {:induction false} InTurnRun<Id, T>(s: Sys<Id, T>, ops: seq<Op<Id, T>>, cap: nat, a: Id, b: Id)
    requires SysInv(s, cap) && Legal(s, ops, cap) && InTurn(s.c.sem, a, b)
    requires forall i :: 0 <= i < |ops| ==> !ops[i].StartSend? || ops[i].id != a
    ensures InTurn(Run(s, ops, cap).c.sem, a, b)
    decreases |ops|
  {
    if ops != [] {
      SysKept(s, ops[0], cap);
      InTurnKept(s.c, ops[0], cap, a, b);
      InTurnRun(Step(s, ops[0]), ops[1..], cap, a, b);
    }
  }

  /**
   * Senders are served in the order in which they began to wait: while a `send` that waits is
   * neither granted its permit nor dropped, no `send` behind it is granted one or succeeds.
   */
  lemma SendersInOrder<Id, T>(s: Sys<Id, T>, ops: seq<Op<Id, T>>, cap: nat, a: Id, b: Id, w: Waker)
    requires SysInv(s, cap) && Legal(s, ops, cap)
    requires a != b && a in s.c.sem.queue && SemRuns.Behind(s.c.sem, a, b)
    requires forall i :: 0 <= i < |ops| ==> !ops[i].StartSend? || ops[i].id != a
    ensures var c := Run(s, ops, cap).c;
      a in c.sem.queue && b in c.sends ==>
        && Sem.Inv(c.sem) && Waiting(c) && PollSendStep(c, b, w).out == SendPending
        && !(c.sem.futs[b].queued && c.sem.futs[b].state == 0)
  {
    InTurnRun(s, ops, cap, a, b);
    RunKeeps(s, ops, cap);
    var c := Run(s, ops, cap).c;
    if a in c.sem.queue && b in c.sends {
      AcquiredIsSent(c, b, w);
    }
  }
}
