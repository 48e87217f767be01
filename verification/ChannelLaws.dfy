/** What each call on the channel does to the semaphore, to the stored waker and to the tasks it wakes. */
module ChannelLaws {
  import opened Base
  import opened WakeLists
  import opened ChannelSpec
  import Laws = SemaphoreLaws
  import Sem = SemaphoreSpec

  /** What a push or the last sender's drop adds to the wake-ups. */
  ghost function Notice<Id, T>(c: Chan<Id, T>, e: Effect<Id, T>, op: Op<Id, T>): seq<Waker> {
    if (op.PollSend? && e.out.Sent?) || (op.DropTx? && c.txs == 1) then ToSeq(c.rxWaker) else []
  }

  /** The answers of a `send`, by what its await of the permit gave. */
  ghost function AnswerTo<T>(r: Sem.PollResult): Out<T> {
    match r
    case Pending => SendPending
    case Acquired => Sent
    case Closed => RxClosed
  }

  lemma PollSendLeaves<Id, T>(c: Chan<Id, T>, id: Id, w: Waker, cap: nat)
    requires Inv(c, cap) && id in c.sends
    ensures Sem.Inv(c.sem) && Sem.Pollable(c.sem, id)
    ensures var e, r := PollSendStep(c, id, w), Sem.Poll(c.sem, id, w).1;
      && e.out == AnswerTo(r) && Laws.Awaited(c.sem, e.c.sem, r, id, w)
      && e.woken == Notice(c, e, PollSend(id, w))
  {
    hide Sem.Inv, Sem.Owned, Sem.Poll, Sem.Drop, Laws.Awaited;
    PollSendMeans(c, id, w, cap);
    Laws.AwaitOfOne(c.sem, id, w);
    WakeOrderNothing<Waker>();
    var t := Sem.Poll(c.sem, id, w).0;
    Sem.PollKeeps(c.sem, id, w);
  }

  /** What a call does to the semaphore, and whom it wakes. */
  ghost predicate Settles<Id, T>(c: Chan<Id, T>, op: Op<Id, T>, e: Effect<Id, T>)
    requires Sem.Inv(c.sem) && Waiting(c) && Enabled(c, op)
  {
    var s, t := c.sem, e.c.sem;
    match op
    case StartSend(id, v) =>
      t == Sem.State(s.avail, s.closed, s.queue, s.futs[id := Sem.Fut(1, 1, false, false, None)]) && e.woken == []
    case PollSend(id, w) =>
      && e.woken == Notice(c, e, op)
      && exists r: Sem.PollResult :: e.out == AnswerTo(r) && Laws.Awaited(s, t, r, id, w)
    case CancelSend(id) => Laws.Leaves(s, id, t, e.woken)
    case CloneTx => t == s && e.woken == []
    case DropTx =>
      if c.txs == 1 then
        && |s.queue| <= |e.woken| && Laws.Shuts(s, t, e.woken[..|s.queue|]) && e.woken[|s.queue|..] == ToSeq(c.rxWaker)
      else t == s && e.woken == []
    case TryRecv => if e.out.Got? then Laws.HandsOver(s, t, e.woken) else t == s && e.woken == []
    case Recv(w) => if e.out.Got? then Laws.HandsOver(s, t, e.woken) else t == s && e.woken == []
    case CloseRx => Laws.Shuts(s, t, e.woken)
    case DropRx =>
      |c.queue| <= t.avail && Laws.Shuts(s, Sem.State(t.avail - |c.queue|, t.closed, t.queue, t.futs), e.woken)
  }

  lemma EveryCallSettles<Id, T>(c: Chan<Id, T>, op: Op<Id, T>, cap: nat)
    requires Inv(c, cap) && Enabled(c, op)
    ensures Settles(c, op, Step(c, op))
  {
    hide Sem.Inv, Sem.Owned, Sem.Distribute, Sem.Close, Sem.Drop, Sem.Poll, PollSendStep, Laws.Awaited;
    hide Laws.HandsOver, Laws.Leaves, Laws.Shuts, CloseStep, DropTxStep, DropRxStep;
    InvGives(c, cap);
    WakeOrderNothing<Waker>();
    match op
    case StartSend(id, v) =>
    case PollSend(id, w) => PollSendLeaves(c, id, w, cap);
    case CancelSend(id) => Laws.DropOfOne(c.sem, id);
    case CloneTx =>
    case DropTx => DropTxSettles(c, cap);
    case TryRecv => Laws.OnePermitGoes(c.sem);
    case Recv(w) => Laws.OnePermitGoes(c.sem);
    case CloseRx => CloseSettles(c, cap);
    case DropRx => DropRxSettles(c, cap);
  }

  lemma CloseSettles<Id, T>(c: Chan<Id, T>, cap: nat)
    requires Inv(c, cap)
    ensures Laws.Shuts(c.sem, CloseStep(c).c.sem, CloseStep(c).woken)
  {
    Laws.CloseMeans(c.sem);
  }

  lemma DropTxSettles<Id, T>(c: Chan<Id, T>, cap: nat)
    requires Inv(c, cap) && Enabled(c, DropTx)
    ensures Settles(c, DropTx, DropTxStep(c))
  {
    hide Sem.Inv, Laws.Shuts;
    if c.txs == 1 {
      CloseSettles(c, cap);
      ShutsLength(c.sem, CloseStep(c).c.sem, CloseStep(c).woken);
      var ws := CloseStep(c).woken;
      assert (ws + ToSeq(c.rxWaker))[..|ws|] == ws && (ws + ToSeq(c.rxWaker))[|ws|..] == ToSeq(c.rxWaker);
    }
  }

  lemma ShutsLength<Id>(s: Sem.State<Id>, t: Sem.State<Id>, woken: seq<Waker>)
    requires Laws.Shuts(s, t, woken)
    ensures |woken| == |s.queue| && t.queue == []
  {
  }

  lemma DropRxSettles<Id, T>(c: Chan<Id, T>, cap: nat)
    requires Inv(c, cap) && c.rxAlive
    ensures Settles(c, DropRx, DropRxStep(c))
  {
    CloseSettles(c, cap);
    Sem.CloseKeeps(c.sem);
    WakeOrderNothing<Waker>();
    var ws := CloseStep(c).woken;
    assert ws + [] == ws;
  }

  /** The stored waker: refreshed by a receiver left pending, taken by a notice, else untouched. */
  lemma RxWakerMoves<Id, T>(c: Chan<Id, T>, op: Op<Id, T>)
    requires Sem.Inv(c.sem) && Waiting(c) && Enabled(c, op)
    ensures var e := Step(c, op);
      e.c.rxWaker ==
        if (op.PollSend? && e.out.Sent?) || (op.DropTx? && c.txs == 1) then None
        else if op.Recv? && e.out.RecvPending? then Sem.Refresh(c.rxWaker, op.w)
        else c.rxWaker
  {
    hide Sem.Inv, Sem.Distribute, Sem.Close, Sem.Drop, WakeOrder;
  }
}
