/** What each call on the once cell does to its semaphore, and whom it wakes. */
module OnceCellLaws {
  import opened Base
  import opened WakeLists
  import opened OnceCellSpec
  import Laws = SemaphoreLaws
  import Sem = SemaphoreSpec

  /** The answers of a waiting call, by what its await of the permit gave. */
  ghost predicate AnswersTo<Id, T>(c: Cell<Id, T>, out: Out<T>, r: Sem.PollResult) {
    match r
    case Pending => out == Waiting
    case Acquired => out == Started
    case Closed => c.value.Some? && out == Value(c.value.value)
  }

  /** What a call does to the semaphore, and whom it wakes. */
  ghost predicate Settles<Id, T>(c: Cell<Id, T>, op: Op<Id, T>, e: Effect<Id, T>)
    requires Inv(c) && Enabled(c, op)
  {
    var s, t := c.sem, e.c.sem;
    match op
    case Set(v) =>
      if e.out == Done then
        1 <= s.avail && Laws.Shuts(Sem.State(s.avail - 1, s.closed, s.queue, s.futs), t, e.woken)
      else e.c == c && e.woken == []
    case Begin(id) =>
      && e.woken == []
      && t == if c.isSet then s
              else Sem.State(s.avail, s.closed, s.queue, s.futs[id := Sem.Fut(1, 1, false, false, None)])
    case Poll(id, w) =>
      e.woken == [] && exists r: Sem.PollResult :: AnswersTo(c, e.out, r) && Laws.Awaited(s, t, r, id, w)
    case Finish(id, v) => Laws.Shuts(s, t, e.woken)
    case Abort(id) => Laws.HandsOver(s, t, e.woken)
    case Cancel(id) => Laws.Leaves(s, id, t, e.woken)
    case Take => t == Sem.State(1, false, [], map[]) && e.woken == []
  }

  lemma PollSettles<Id, T>(c: Cell<Id, T>, id: Id, w: Waker)
    requires Inv(c) && id in c.sem.futs
    ensures Settles(c, Poll(id, w), PollStep(c, id, w))
  {
    hide Sem.Inv, Sem.Owned, Sem.Poll, Sem.Drop, Laws.Awaited;
    Laws.AwaitOfOne(c.sem, id, w);
    Laws.PollAnswers(c.sem, id, w);
    WakeOrderNothing<Waker>();
    Sem.PollKeeps(c.sem, id, w);
    var r := Sem.Poll(c.sem, id, w).1;
    assert AnswersTo(c, PollStep(c, id, w).out, r);
  }

  lemma SetSettles<Id, T>(c: Cell<Id, T>, v: T)
    requires Inv(c)
    ensures Settles(c, Set(v), SetStep(c, v))
  {
    hide Sem.Inv, Sem.Owned, Sem.Close, Laws.Shuts;
    Sem.TryAcquireKeeps(c.sem, 1);
    Laws.CloseShuts(Sem.TryAcquire(c.sem, 1).0);
  }

  lemma EveryCallSettles<Id, T>(c: Cell<Id, T>, op: Op<Id, T>)
    requires Inv(c) && Enabled(c, op)
    ensures Settles(c, op, Step(c, op))
  {
    hide Sem.Inv, Sem.Owned, Sem.Distribute, Sem.Close, Sem.Drop, Sem.Poll, SetStep, PollStep;
    hide Laws.HandsOver, Laws.Leaves, Laws.Shuts, Laws.Awaited;
    match op
    case Set(v) => SetSettles(c, v);
    case Begin(id) =>
    case Poll(id, w) => PollSettles(c, id, w);
    case Finish(id, v) => Laws.CloseShuts(c.sem);
    case Abort(id) => Laws.OnePermitGoes(c.sem);
    case Cancel(id) => Laws.DropOfOne(c.sem, id);
    case Take =>
  }
}
