/** What the oneshot channel promises over whole runs: where values and wakers go, and who is woken. */
module OneshotRuns {
  import opened Base
  import opened OneshotSpec

  /** Where every value went. */
  datatype Values<T> = Values(sent: seq<T>, received: seq<T>, returned: seq<T>, dropped: seq<T>)

  /**
   * What callers know, from the calls and their answers alone: whether the sender has sent or
   * was dropped, whether the receiver closed the channel or was dropped while it still
   * pointed at it, whether it points at it no more, and whether it is gone.
   */
  datatype Books = Books(ended: bool, hungUp: bool, letGo: bool, gone: bool)

  ghost function Book<T>(b: Books, op: Op<T>, out: Out<T>): Books {
    match op
    case Send(v) => Books(true, b.hungUp, b.letGo, b.gone)
    case DropTx => Books(true, b.hungUp, b.letGo, b.gone)
    case PollClosed(w) => b
    case Close => Books(b.ended, b.hungUp || !b.letGo, b.letGo, b.gone)
    case TryRecv => Books(b.ended, b.hungUp, b.letGo || !out.Empty?, b.gone)
    case PollRx(w) => Books(b.ended, b.hungUp, b.letGo || out.Received?, b.gone)
    case DropRx => Books(b.ended, b.hungUp || !b.letGo, true, true)
  }

  ghost predicate BooksAgree<T>(c: Chan<T>, b: Books) {
    && c.tx == !b.ended && c.complete == b.ended
    && c.closed == b.hungUp && c.rx == !b.letGo && c.rxAlive == !b.gone
  }

  ghost function Then(a: Churn, b: Churn): Churn {
    Churn(a.cloned + b.cloned, a.released + b.released)
  }

  /**
   * A run: `log` lists the wake-ups; `rxPend` and `txPend` keep, for a handle whose last poll
   * was Pending, its waker and the length of the log then; `refused` is set when the sender
   * ended on a channel that had been closed. `rxSlot` and `txSlot` add up the wakers cloned
   * into and dropped from each slot.
   */
  datatype Sys<T> = Sys(
    c: Chan<T>,
    books: Books,
    vals: Values<T>,
    rxSlot: Churn,
    txSlot: Churn,
    log: seq<Waker>,
    rxPend: Option<(Waker, nat)>,
    txPend: Option<(Waker, nat)>,
    refused: bool)

  ghost function Start<T>(): Sys<T> {
    Sys(Init(), Books(false, false, false, false), Values([], [], [], []), STILL, STILL, [], None, None, false)
  }

  ghost function Count<T>(vs: Values<T>, op: Op<T>, e: Effect<T>): Values<T> {
    Values(
      if op.Send? then vs.sent + [op.v] else vs.sent,
      if e.out.Received? then vs.received + [e.out.v] else vs.received,
      if e.out.Returned? then vs.returned + [e.out.v] else vs.returned,
      vs.dropped + e.dropped)
  }

  ghost function RxPend<T>(s: Sys<T>, op: Op<T>, out: Out<T>): Option<(Waker, nat)> {
    match op
    case PollRx(w) => if out.RecvPending? then Some((w, |s.log|)) else None
    case TryRecv => if out.Empty? then s.rxPend else None
    case DropRx => None
    case _ => s.rxPend
  }

  ghost function TxPend<T>(s: Sys<T>, op: Op<T>, out: Out<T>): Option<(Waker, nat)> {
    match op
    case PollClosed(w) => if out.StillOpen? then Some((w, |s.log|)) else None
    case Send(v) => None
    case DropTx => None
    case _ => s.txPend
  }

  ghost function SysStep<T>(s: Sys<T>, op: Op<T>): Sys<T>
    requires Enabled(s.c, op)
  {
    var e := Step(s.c, op);
    Sys(e.c, Book(s.books, op, e.out), Count(s.vals, op, e), Then(s.rxSlot, e.rxSlot), Then(s.txSlot, e.txSlot),
        s.log + e.woken,
        RxPend(s, op, e.out), TxPend(s, op, e.out), if op.Send? || op.DropTx? then s.c.closed else s.refused)
  }

  // ----- the invariants of a run

  /** At most one value is ever sent, and it is in exactly one place. */
  ghost predicate OnePlace<T>(c: Chan<T>, vs: Values<T>) {
    && |vs.sent| <= 1
    && (c.tx ==> vs.sent == [])
    && ToSeq(c.value) + vs.received + vs.returned + vs.dropped == vs.sent
  }

  /** Every clone put into a slot has been dropped, in that order, but for the one still there. */
  ghost predicate Balanced(slot: Option<Waker>, total: Churn) {
    total.cloned == total.released + ToSeq(slot)
  }

  /** The task of the last poll is registered until the sender ends, and then it is woken. */
  ghost predicate ReceiverWoken<T>(s: Sys<T>) {
    s.rxPend.Some? ==>
      var (w, mark) := s.rxPend.value;
      if !s.c.complete then Suits(s.c.rxTask, w) else s.refused || WokenSince(s.log, mark, w)
  }

  /** The same for a sender waiting for the channel to close. */
  ghost predicate SenderWoken<T>(s: Sys<T>) {
    s.txPend.Some? ==>
      var (w, mark) := s.txPend.value;
      s.c.tx && if !s.c.closed then Suits(s.c.txTask, w) else WokenSince(s.log, mark, w)
  }

  ghost predicate Marks<T>(s: Sys<T>) {
    && (s.rxPend.Some? ==> s.rxPend.value.1 <= |s.log| && s.c.rx)
    && (s.txPend.Some? ==> s.txPend.value.1 <= |s.log|)
    && (s.refused ==> s.c.closed && s.c.complete)
  }

  ghost predicate Slots<T>(s: Sys<T>) {
    Balanced(s.c.rxTask, s.rxSlot) && Balanced(s.c.txTask, s.txSlot)
  }

  ghost predicate SysInv<T>(s: Sys<T>) {
    && Inv(s.c) && BooksAgree(s.c, s.books) && OnePlace(s.c, s.vals) && Slots(s)
    && ReceiverWoken(s) && SenderWoken(s) && Marks(s)
  }

  lemma StartHolds<T>()
    ensures SysInv(Start<T>())
  {
  }

  /** Only the sender fills the slot, and one call takes a value out of it at most one way. */
  lemma StepMoves<T>(c: Chan<T>, op: Op<T>)
    requires Inv(c) && Enabled(c, op)
    ensures var e := Step(c, op);
      var given := if e.out.Received? || e.out.Returned? then [e.out.v] else [];
      && ToSeq(e.c.value) + given + e.dropped == ToSeq(c.value) + (if op.Send? then [op.v] else [])
      && (e.out.Returned? ==> op.Send?)
      && (e.c.tx <==> c.tx && !op.Send? && !op.DropTx?)
  {
  }

  lemma NotOutYet<T>(c: Chan<T>, vs: Values<T>)
    requires OnePlace(c, vs) && (c.tx || c.value.Some?)
    ensures vs.received == vs.returned == vs.dropped == [] && vs.sent == ToSeq(c.value)
  {
    assert |ToSeq(c.value) + vs.received + vs.returned + vs.dropped| == |vs.sent| <= 1;
  }

  /** Nothing moved, or the only value did. */
  lemma ValuesKept<T>(s: Sys<T>, op: Op<T>)
    requires SysInv(s) && Enabled(s.c, op)
    ensures OnePlace(SysStep(s, op).c, SysStep(s, op).vals)
  {
    hide Step, BooksAgree, Slots, ReceiverWoken, SenderWoken, Marks, Book, Then, RxPend, TxPend;
    StepMoves(s.c, op);
    var e := Step(s.c, op);
    if s.c.value == None && !op.Send? {
      assert e.dropped == [] && e.c.value == None;
      assert SysStep(s, op).vals == s.vals;
    } else {
      NotOutYet(s.c, s.vals);
    }
  }

  /** One call on one slot: nothing, a fresh clone for the old waker, or the last drop. */
  lemma StepChurns<T>(c: Chan<T>, op: Op<T>)
    requires Inv(c) && Enabled(c, op)
    ensures var e := Step(c, op);
      && ToSeq(c.rxTask) + e.rxSlot.cloned == e.rxSlot.released + ToSeq(e.c.rxTask)
      && ToSeq(c.txTask) + e.txSlot.cloned == e.txSlot.released + ToSeq(e.c.txTask)
  {
  }

  lemma BalancedStep(was: Option<Waker>, total: Churn, churn: Churn, now: Option<Waker>)
    requires Balanced(was, total) && ToSeq(was) + churn.cloned == churn.released + ToSeq(now)
    ensures Balanced(now, Then(total, churn))
  {
    calc {
      total.cloned + churn.cloned;
      total.released + (ToSeq(was) + churn.cloned);
      (total.released + churn.released) + ToSeq(now);
    }
  }

  lemma SlotsKept<T>(s: Sys<T>, op: Op<T>)
    requires SysInv(s) && Enabled(s.c, op)
    ensures Slots(SysStep(s, op))
  {
    hide Step, Balanced, Then, OnePlace, ReceiverWoken, SenderWoken, Marks;
    StepChurns(s.c, op);
    BalancedStep(s.c.rxTask, s.rxSlot, Step(s.c, op).rxSlot, Step(s.c, op).c.rxTask);
    BalancedStep(s.c.txTask, s.txSlot, Step(s.c, op).txSlot, Step(s.c, op).c.txTask);
  }

  lemma ReceiverWokenKept<T>(s: Sys<T>, op: Op<T>)
    requires SysInv(s) && Enabled(s.c, op)
    ensures ReceiverWoken(SysStep(s, op))
  {
    hide WokenSince, OnePlace, Slots, SenderWoken;
    var e := Step(s.c, op);
    if s.rxPend.Some? {
      var (w, mark) := s.rxPend.value;
      if !s.c.complete {
        LogGains(s.log, ToSeq(s.c.rxTask), mark, s.c.rxTask.value, w);
      } else if !s.refused {
        LogGrows(s.log, e.woken, mark, w);
      }
    }
  }

  lemma SenderWokenKept<T>(s: Sys<T>, op: Op<T>)
    requires SysInv(s) && Enabled(s.c, op)
    ensures SenderWoken(SysStep(s, op))
  {
    hide WokenSince, OnePlace, Slots, ReceiverWoken;
    var e := Step(s.c, op);
    if s.txPend.Some? {
      var (w, mark) := s.txPend.value;
      if !s.c.closed {
        LogGains(s.log, ToSeq(s.c.txTask), mark, s.c.txTask.value, w);
      } else {
        LogGrows(s.log, e.woken, mark, w);
      }
    }
  }

  lemma SysKept<T>(s: Sys<T>, op: Op<T>)
    requires SysInv(s) && Enabled(s.c, op)
    ensures SysInv(SysStep(s, op))
  {
    hide Step, BooksAgree, OnePlace, Slots, ReceiverWoken, SenderWoken, Marks, Inv;
    hide Book, Count, Then, RxPend, TxPend;
    BooksKept(s.c, op, s.books);
    StepKeeps(s.c, op);
    ValuesKept(s, op);
    SlotsKept(s, op);
    ReceiverWokenKept(s, op);
    SenderWokenKept(s, op);
    MarksKept(s, op);
  }

  lemma BooksKept<T>(c: Chan<T>, op: Op<T>, b: Books)
    requires Inv(c) && Enabled(c, op) && BooksAgree(c, b)
    ensures BooksAgree(Step(c, op).c, Book(b, op, Step(c, op).out))
  {
  }

  lemma MarksKept<T>(s: Sys<T>, op: Op<T>)
    requires SysInv(s) && Enabled(s.c, op)
    ensures Marks(SysStep(s, op))
  {
    hide OnePlace, Slots, ReceiverWoken, SenderWoken;
  }

  // ----- runs

  ghost predicate Legal<T>(s: Sys<T>, ops: seq<Op<T>>)
    decreases |ops|
  {
    ops == [] || (Enabled(s.c, ops[0]) && Legal(SysStep(s, ops[0]), ops[1..]))
  }

  ghost function Run<T>(s: Sys<T>, ops: seq<Op<T>>): Sys<T>
    requires Legal(s, ops)
    decreases |ops|
  {
    if ops == [] then s else Run(SysStep(s, ops[0]), ops[1..])
  }

  lemma {:induction false} RunKeeps<T>(s: Sys<T>, ops: seq<Op<T>>)
    requires SysInv(s) && Legal(s, ops)
    ensures SysInv(Run(s, ops))
    decreases |ops|
  {
    if ops != [] {
      SysKept(s, ops[0]);
      RunKeeps(SysStep(s, ops[0]), ops[1..]);
    }
  }

  /**
   * In every run at most one value is sent and it is in one place; once both handles are gone
   * nothing is left in the channel, and every clone of a waker has been dropped, in order.
   */
  lemma EveryRunBalances<T>(ops: seq<Op<T>>)
    requires Legal(Start<T>(), ops)
    ensures var t := Run(Start(), ops);
      && |t.vals.sent| <= 1
      && ToSeq(t.c.value) + t.vals.received + t.vals.returned + t.vals.dropped == t.vals.sent
      && t.rxSlot.cloned == t.rxSlot.released + ToSeq(t.c.rxTask)
      && t.txSlot.cloned == t.txSlot.released + ToSeq(t.c.txTask)
      && (!t.c.tx && !t.c.rx ==> t.c.value == None && t.c.rxTask == None && t.c.txTask == None)
  {
    StartHolds<T>();
    RunKeeps(Start(), ops);
  }

  /**
   * A receiver left pending is registered with its latest waker as long as the sender is there;
   * if the sender ends on a channel the receiver did not close, that task has been woken and
   * its next poll is answered. So is a sender waiting for the channel to close.
   */
  lemma EveryRunWakes<T>(ops: seq<Op<T>>, w: Waker)
    requires Legal(Start<T>(), ops)
    ensures var t := Run(Start(), ops);
      && (t.rxPend.Some? ==> t.c.rx && var (v, mark) := t.rxPend.value;
            if t.c.tx then Suits(t.c.rxTask, v)
            else (t.refused || WokenSince(t.log, mark, v)) && Step(t.c, PollRx(w)).out != RecvPending)
      && (t.txPend.Some? ==> t.c.tx && var (v, mark) := t.txPend.value;
            if !t.c.closed then Suits(t.c.txTask, v)
            else WokenSince(t.log, mark, v) && Step(t.c, PollClosed(w)).out == HungUp)
      && (t.refused ==> t.c.closed)
  {
    StartHolds<T>();
    RunKeeps(Start(), ops);
  }

  ghost predicate LeavesValue<T>(ops: seq<Op<T>>) {
    forall i :: 0 <= i < |ops| ==> !ops[i].TryRecv? && !ops[i].PollRx? && !ops[i].DropRx?
  }

  lemma {:induction false} ValueWaits<T>(s: Sys<T>, ops: seq<Op<T>>)
    requires SysInv(s) && Legal(s, ops) && s.c.value.Some? && LeavesValue(ops)
    ensures Run(s, ops).c.value == s.c.value && SysInv(Run(s, ops))
    decreases |ops|
  {
    if ops != [] {
      SysKept(s, ops[0]);
      ValueSurvivesClose(s.c, Waker(0, 0));
      ValueWaits(SysStep(s, ops[0]), ops[1..]);
    }
  }

  /** After a `send` that returned Ok, whatever happens before the next receive, that receive gets the value. */
  lemma OkIsDelivered<T>(s: Sys<T>, v: T, ops: seq<Op<T>>, w: Waker)
    requires SysInv(s) && s.c.tx && Step(s.c, Send(v)).out == SentOk
    requires Legal(SysStep(s, Send(v)), ops) && LeavesValue(ops)
    ensures var t := Run(SysStep(s, Send(v)), ops);
      && Enabled(t.c, TryRecv) && Step(t.c, TryRecv).out == Received(v)
      && Enabled(t.c, PollRx(w)) && Step(t.c, PollRx(w)).out == Received(v)
      && t.vals.received == []
  {
    hide Legal, Run, OnePlace;
    SysKept(s, Send(v));
    SendMeans(s.c, v);
    var t := Run(SysStep(s, Send(v)), ops);
    ValueWaits(SysStep(s, Send(v)), ops);
    ValueSurvivesClose(t.c, w);
    NotOutYet(t.c, t.vals);
  }

  lemma {:induction false} ReturnedStays<T>(s: Sys<T>, ops: seq<Op<T>>)
    requires Legal(s, ops) && !s.c.tx
    ensures Run(s, ops).vals.returned == s.vals.returned && Run(s, ops).vals.sent == s.vals.sent
    decreases |ops|
  {
    if ops != [] {
      ReturnedStays(SysStep(s, ops[0]), ops[1..]);
    }
  }

  /** A value handed back by `send` is never received, nor dropped by the channel. */
  lemma RefusedIsNeverReceived<T>(s: Sys<T>, v: T, ops: seq<Op<T>>)
    requires SysInv(s) && s.c.tx && s.c.closed
    requires Legal(SysStep(s, Send(v)), ops)
    ensures var t := Run(SysStep(s, Send(v)), ops);
      t.vals.sent == t.vals.returned == [v] && t.vals.received == [] && t.vals.dropped == [] && t.c.value == None
  {
    var u := SysStep(s, Send(v));
    SysKept(s, Send(v));
    assert u.vals.returned == [v] == u.vals.sent;
    ReturnedStays(u, ops);
    RunKeeps(u, ops);
    var t := Run(u, ops);
    assert |ToSeq(t.c.value) + t.vals.received + t.vals.returned + t.vals.dropped| == 1;
  }

  /** The value that was sent and accepted, and has gone nowhere since. */
  ghost function Outstanding<T>(vs: Values<T>): seq<T> {
    if vs.received == [] && vs.returned == [] && vs.dropped == [] then vs.sent else []
  }

  lemma OutstandingIsStored<T>(c: Chan<T>, vs: Values<T>)
    requires OnePlace(c, vs)
    ensures ToSeq(c.value) == Outstanding(vs)
  {
    assert |ToSeq(c.value) + vs.received + vs.returned + vs.dropped| <= 1;
    if Outstanding(vs) == [] && vs.sent != [] {
      assert c.value == None;
    }
  }

  /** What the sender is answered, in terms of what callers know. */
  ghost predicate SenderAnswers<T>(c: Chan<T>, b: Books, v: T, w: Waker) {
    && c.tx == !b.ended
    && (!b.ended ==> Step(c, Send(v)).out == if b.hungUp then Returned(v) else SentOk)
    && (!b.ended ==> Step(c, PollClosed(w)).out == if b.hungUp then HungUp else StillOpen)
  }

  /** What the receiver is due, `otherwise` being the answer while there is hope. */
  ghost function Due<T>(b: Books, vs: Values<T>, otherwise: Out<T>): Out<T> {
    if Outstanding(vs) != [] then Received(Outstanding(vs)[0])
    else if b.ended || b.hungUp then Failed
    else otherwise
  }

  /** What the receiver is answered, in terms of what callers know. */
  ghost predicate ReceiverAnswers<T>(c: Chan<T>, b: Books, vs: Values<T>, w: Waker) {
    && c.rxAlive == !b.gone && c.rx == !b.letGo
    && (!b.gone ==> Step(c, TryRecv).out == if b.letGo then Failed else Due(b, vs, Empty))
    && (!b.letGo ==> Step(c, PollRx(w)).out == Due(b, vs, RecvPending))
  }

  /**
   * The answers after any run. `send` succeeds iff the receiver has not closed the channel nor
   * been dropped, and `poll_closed` reports just that. The receiver gets the value if it is
   * outstanding, is told to wait while there is hope, and that there is none otherwise.
   */
  lemma EveryRunAnswers<T>(ops: seq<Op<T>>, v: T, w: Waker)
    requires Legal(Start<T>(), ops)
    ensures var t := Run(Start(), ops);
      SenderAnswers(t.c, t.books, v, w) && ReceiverAnswers(t.c, t.books, t.vals, w)
  {
    StartHolds<T>();
    RunKeeps(Start(), ops);
    var t := Run(Start(), ops);
    OutstandingIsStored(t.c, t.vals);
  }

  /** Closing an open channel makes the next `send` fail. */
  lemma CloseRefuses<T>(c: Chan<T>, v: T)
    requires Inv(c) && c.tx && c.rx
    ensures Step(c, Close).c.tx && Step(Step(c, Close).c, Send(v)).out == Returned(v)
  {
  }

  /** Whom a call wakes: the receiver when the sender ends, the sender when the receiver hangs up, else nobody. */
  lemma StepWakes<T>(c: Chan<T>, op: Op<T>)
    requires Inv(c) && Enabled(c, op)
    ensures Step(c, op).woken ==
      if op.Send? || op.DropTx? then (if c.closed then [] else ToSeq(c.rxTask))
      else if (op.Close? || op.DropRx?) && c.rx && c.tx then ToSeq(c.txTask)
      else []
  {
  }

  /** Which wakers are stored: a poll left pending refreshes its side's, and the last handle takes both along. */
  lemma StepStores<T>(c: Chan<T>, op: Op<T>)
    requires Inv(c) && Enabled(c, op)
    ensures var e := Step(c, op);
      if !e.c.tx && !e.c.rx then e.c.rxTask == None && e.c.txTask == None
      else
        && e.c.rxTask == (if op.PollRx? && e.out == RecvPending && !Suits(c.rxTask, op.w) then Some(op.w) else c.rxTask)
        && e.c.txTask == if op.PollClosed? && e.out == StillOpen && !Suits(c.txTask, op.w) then Some(op.w) else c.txTask
  {
  }
}
