/**
 * Whole runs of the public semaphore: futures, outstanding permits and the wake-up log,
 * under any order of calls.
 */
module SemaphoreRuns {
  import opened Base
  import opened WakeLists
  import SemaphoreLaws
  import opened SemaphoreSpec

  const U32: nat := 0x1_0000_0000

  datatype Op<Id(==)> =
    | Acquire(id: Id, n: nat)
    | Poll(id: Id, w: Waker)
    | DropFuture(id: Id)
    | TryAcquire(id: Id, n: nat)
    | AddPermits(n: nat)
    | DropPermit(id: Id)
    | Forget(id: Id)
    | Close

  /**
   * What callers know of their futures: the size each live one was asked for, which of them
   * have answered Ok, and whether `close` was ever called.
   */
  datatype Books<Id(==)> = Books(asked: map<Id, nat>, finished: set<Id>, shut: bool)

  /**
   * `held` gives the size of every live `SemaphorePermit`, named after the call that made
   * it; `total` is what was put in less what was forgotten. `pend` keeps, for each future
   * whose last poll was Pending, that poll's waker and the length of the log at that time.
   */
  datatype Sys<Id(==)> = Sys(
    sem: State<Id>,
    books: Books<Id>,
    held: map<Id, nat>,
    total: int,
    used: set<Id>,
    log: seq<Waker>,
    pend: map<Id, (Waker, nat)>)

  ghost function Start<Id>(permits: nat): Sys<Id> {
    Sys(SemaphoreSpec.Init(permits), Books(map[], {}, false), map[], permits % (MAX_PERMITS + 1), {}, [], map[])
  }

  /** What a caller may do: no name is reused, and only what is there is polled or dropped. */
  ghost predicate Allowed<Id>(s: Sys<Id>, op: Op<Id>) {
    match op
    case Acquire(id, n) => id !in s.used && n < U32
    case Poll(id, w) => id in s.books.asked && id !in s.books.finished
    case DropFuture(id) => id in s.books.asked
    case TryAcquire(id, n) => id !in s.used && n < U32
    case AddPermits(n) => true
    case DropPermit(id) => id in s.held
    case Forget(id) => id in s.held
    case Close => true
  }

  /** The semaphore has the futures its callers know of, and is closed iff they closed it. */
  ghost predicate BooksAgree<Id>(t: State<Id>, b: Books<Id>) {
    && t.futs.Keys == b.asked.Keys && b.finished <= b.asked.Keys
    && (t.closed <==> b.shut)
    && forall id | id in t.futs :: t.futs[id].num == b.asked[id] && (t.futs[id].done <==> id in b.finished)
  }

  ghost predicate Sane<Id>(s: Sys<Id>) {
    SemaphoreSpec.Inv(s.sem) && BooksAgree(s.sem, s.books)
  }

  /** The calls that panic. */
  ghost predicate Panicking<Id>(s: Sys<Id>, op: Op<Id>)
    requires Sane(s) && Allowed(s, op)
  {
    match op
    case Poll(id, w) => PollPanics(s.sem, id)
    case DropFuture(id) => DropPanics(s.sem, id)
    case AddPermits(n) => Panics(s.sem, n)
    case DropPermit(id) => Panics(s.sem, s.held[id])
    case _ => false
  }

  /** A run goes on as long as no call panics; nothing else limits the number of permits. */
  ghost predicate Enabled<Id>(s: Sys<Id>, op: Op<Id>)
    requires Sane(s)
  {
    Allowed(s, op) && !Panicking(s, op)
  }

  ghost function Book<Id>(b: Books<Id>, op: Op<Id>, ok: bool): Books<Id> {
    match op
    case Acquire(id, n) => Books(b.asked[id := n], b.finished, b.shut)
    case Poll(id, w) => if ok then Books(b.asked, b.finished + {id}, b.shut) else b
    case DropFuture(id) => Books(b.asked - {id}, b.finished - {id}, b.shut)
    case Close => Books(b.asked, b.finished, true)
    case _ => b
  }

  ghost function Release<Id>(s: Sys<Id>, n: nat): Sys<Id>
    requires Listed(s.sem)
  {
    var (t, ws) := Distribute(s.sem, n);
    Sys(t, s.books, s.held, s.total, s.used, s.log + WakeOrder(ws), s.pend)
  }

  ghost function Step<Id>(s: Sys<Id>, op: Op<Id>): Sys<Id>
    requires Sane(s) && Enabled(s, op)
  {
    match op
    case Acquire(id, n) =>
      Sys(SemaphoreSpec.Create(s.sem, id, n), Book(s.books, op, false), s.held, s.total, s.used + {id}, s.log, s.pend)
    case Poll(id, w) =>
      var (t, r) := SemaphoreSpec.Poll(s.sem, id, w);
      Sys(t, Book(s.books, op, r.Acquired?), if r.Acquired? then s.held[id := s.books.asked[id]] else s.held,
          s.total, s.used, s.log, if r.Pending? then s.pend[id := (w, |s.log|)] else s.pend - {id})
    case DropFuture(id) =>
      var (t, ws) := SemaphoreSpec.Drop(s.sem, id);
      Sys(t, Book(s.books, op, false), s.held, s.total, s.used, s.log + WakeOrder(ws), s.pend - {id})
    case TryAcquire(id, n) =>
      var (t, r) := SemaphoreSpec.TryAcquire(s.sem, n);
      Sys(t, s.books, if r.Granted? then s.held[id := n] else s.held, s.total, s.used + {id}, s.log, s.pend)
    case AddPermits(n) => Release(s.(total := s.total + n), n)
    case DropPermit(id) => Release(s.(held := s.held - {id}), s.held[id])
    case Forget(id) => s.(held := s.held - {id}, total := s.total - s.held[id])
    case Close =>
      var (t, ws) := SemaphoreSpec.Close(s.sem);
      Sys(t, Book(s.books, op, false), s.held, s.total, s.used, s.log + ws, s.pend)
  }

  // ----- books

  lemma BooksKept<Id>(s: Sys<Id>, op: Op<Id>)
    requires Sane(s) && NamesOk(s) && Enabled(s, op)
    ensures BooksAgree(Step(s, op).sem, Step(s, op).books)
  {
    hide SemaphoreSpec.Inv, Owned, Panics, Serves;
    hide Distribute, SemaphoreSpec.Drop, SemaphoreSpec.Poll, SemaphoreSpec.Close;
    match op
    case Acquire(id, n) =>
    case Poll(id, w) =>
      SemaphoreLaws.PollLeaves(s.sem, id, w);
      PollKeeps(s.sem, id, w);
    case DropFuture(id) =>
      DropFrame(s.sem, id);
    case TryAcquire(id, n) =>
    case AddPermits(n) =>
      DistributeKeeps(s.sem, n);
      DistributeFrame(s.sem, n);
    case DropPermit(id) =>
      DistributeKeeps(s.sem, s.held[id]);
      DistributeFrame(s.sem, s.held[id]);
    case Forget(id) =>
    case Close =>
      CloseKeeps(s.sem);
      SemaphoreLaws.CloseMeans(s.sem);
  }

  // ----- conservation

  /** Names are never reused, and a future still running has no permit yet. */
  ghost predicate NamesOk<Id>(s: Sys<Id>) {
    && s.sem.futs.Keys <= s.used
    && s.held.Keys <= s.used
    && (forall id | id in s.sem.futs && !s.sem.futs[id].done :: id !in s.held)
  }

  ghost predicate Ledger<Id>(s: Sys<Id>) {
    Owned(s.sem) + Sum(s.held) == s.total && NamesOk(s) && Fits(s.sem)
  }

  // ----- wake-ups

  /**
   * A future whose last poll was Pending either stands in the queue with a waker for the
   * task that polled it, or that task has been woken since and the next poll is Ready.
   */
  ghost predicate NotLost<Id>(s: State<Id>, log: seq<Waker>, id: Id, w: Waker, mark: nat)
    requires id in s.futs
  {
    var f := s.futs[id];
    && f.queued && !f.done
    && if id in s.queue then f.waker.Some? && f.waker.value.WillWake(w)
       else WokenSince(log, mark, w) && (s.closed || f.state == 0)
  }

  ghost predicate NoLostWakeup<Id>(s: State<Id>, log: seq<Waker>, pend: map<Id, (Waker, nat)>) {
    && (forall id | id in pend :: id in s.futs && pend[id].1 <= |log| && NotLost(s, log, id, pend[id].0, pend[id].1))
    && (forall id | id in s.queue :: id in pend)
  }

  ghost predicate SysInv<Id>(s: Sys<Id>) {
    Sane(s) && Ledger(s) && NoLostWakeup(s.sem, s.log, s.pend)
  }

  lemma StartHolds<Id>(permits: nat)
    ensures SysInv(Start<Id>(permits))
  {
    SemaphoreSpec.InitKeeps<Id>(permits);
    assert CreditMap(Start<Id>(permits).sem.futs) == map[];
  }

  lemma ReleaseLedger<Id>(s: Sys<Id>, n: nat)
    requires Sane(s)
    requires Owned(s.sem) + n + Sum(s.held) == s.total && NamesOk(s) && !Panics(s.sem, n)
    ensures Ledger(Release(s, n))
  {
    DistributeKeeps(s.sem, n);
    DistributeFrame(s.sem, n);
  }

  lemma PollLedger<Id>(s: Sys<Id>, id: Id, w: Waker)
    requires Sane(s) && Ledger(s) && Enabled(s, Op.Poll(id, w))
    ensures Ledger(Step(s, Op.Poll(id, w)))
  {
    hide SemaphoreSpec.Inv, Owned, SemaphoreSpec.Poll;
    PollKeeps(s.sem, id, w);
    SemaphoreLaws.PollLeaves(s.sem, id, w);
    SumUpdate(s.held, id, s.books.asked[id]);
    assert s.held - {id} == s.held;
  }

  lemma DropLedger<Id>(s: Sys<Id>, id: Id)
    requires Sane(s) && Ledger(s) && Enabled(s, DropFuture(id))
    ensures Ledger(Step(s, DropFuture(id)))
  {
    DropKeeps(s.sem, id);
    UnlinkKeeps(s.sem, id);
    DistributeFrame(Unlink(s.sem, id), Credit(s.sem.futs[id]));
  }

  lemma LedgerKept<Id>(s: Sys<Id>, op: Op<Id>)
    requires Sane(s) && Ledger(s) && Enabled(s, op)
    ensures Ledger(Step(s, op))
  {
    match op
    case Acquire(id, n) => CreateKeeps(s.sem, id, n);
    case Poll(id, w) => PollLedger(s, id, w);
    case DropFuture(id) => DropLedger(s, id);
    case TryAcquire(id, n) =>
      SumUpdate(s.held, id, n);
      assert s.held - {id} == s.held;
    case AddPermits(n) => ReleaseLedger(s.(total := s.total + n), n);
    case DropPermit(id) =>
      SumRemove(s.held, id);
      ReleaseLedger(s.(held := s.held - {id}), s.held[id]);
    case Forget(id) => SumRemove(s.held, id);
    case Close => CloseKeeps(s.sem);
  }

  lemma SemKept<Id>(s: Sys<Id>, op: Op<Id>)
    requires Sane(s) && NamesOk(s) && Enabled(s, op)
    ensures SemaphoreSpec.Inv(Step(s, op).sem)
  {
    match op
    case Acquire(id, n) => CreateKeeps(s.sem, id, n);
    case Poll(id, w) => PollKeeps(s.sem, id, w);
    case DropFuture(id) => DropKeeps(s.sem, id);
    case TryAcquire(id, n) => TryAcquireKeeps(s.sem, n);
    case AddPermits(n) => DistributeKeeps(s.sem, n);
    case DropPermit(id) => DistributeKeeps(s.sem, s.held[id]);
    case Forget(id) =>
    case Close => CloseKeeps(s.sem);
  }

  lemma WakersAt<Id>(q: seq<Id>, futs: map<Id, Fut>, i: nat)
    requires forall k {:trigger q[k]} :: 0 <= k < |q| ==> q[k] in futs
    requires i < |q| && futs[q[i]].waker.Some?
    ensures futs[q[i]].waker.value in Wakers(q, futs)
  {
    if i > 0 {
      WakersAt(q[1..], futs, i - 1);
    }
  }

  lemma {:induction false} ReleaseWakes<Id>(s: State<Id>, n: nat, log: seq<Waker>, pend: map<Id, (Waker, nat)>)
    requires SemaphoreSpec.Inv(s) && NoLostWakeup(s, log, pend)
    ensures var (t, ws) := Distribute(s, n); NoLostWakeup(t, log + WakeOrder(ws), pend)
  {
    var (t, ws) := Distribute(s, n);
    var k := DistributeServes(s, n);
    forall id | id in pend
      ensures NotLost(t, log + WakeOrder(ws), id, pend[id].0, pend[id].1)
    {
      NotLostByRelease(s, n, t, ws, k, log, id, pend[id].0, pend[id].1);
    }
  }

  lemma NotLostByRelease<Id>(s: State<Id>, n: nat, t: State<Id>, ws: seq<Waker>, k: nat,
                             log: seq<Waker>, id: Id, w: Waker, mark: nat)
    requires QueueOk(s.queue, s.futs) && Serves(s, n, t, ws, k)
    requires id in s.futs && mark <= |log| && NotLost(s, log, id, w, mark)
    ensures NotLost(t, log + WakeOrder(ws), id, w, mark)
  {
    if id in s.queue {
      var i :| 0 <= i < |s.queue| && s.queue[i] == id;
      ServesAt(s, n, t, ws, k, i);
      if i < k {
        TakenIsGone(s.queue, k, i);
        WakersAt(s.queue[..k], s.futs, i);
        WakeOrderIsPermutation(ws);
        assert s.futs[id].waker.value in multiset(WakeOrder(ws));
        LogGains(log, WakeOrder(ws), mark, s.futs[id].waker.value, w);
      } else {
        assert id in t.queue;
      }
    } else {
      ServesElsewhere(s, n, t, ws, k, id);
      LogGrows(log, WakeOrder(ws), mark, w);
    }
  }

  /** What is taken from the front of a queue is no longer behind. */
  lemma TakenIsGone<T>(q: seq<T>, k: nat, i: nat)
    requires Distinct(q) && i < k <= |q|
    ensures q[i] !in q[k..]
  {
    OthersDiffer(q, i);
  }

  lemma CloseWakes<Id>(s: State<Id>, log: seq<Waker>, pend: map<Id, (Waker, nat)>)
    requires SemaphoreSpec.Inv(s) && NoLostWakeup(s, log, pend)
    ensures var (t, ws) := SemaphoreSpec.Close(s); NoLostWakeup(t, log + ws, pend)
  {
    var (t, ws) := SemaphoreSpec.Close(s);
    forall id | id in pend
      ensures NotLost(t, log + ws, id, pend[id].0, pend[id].1)
    {
      if id in s.queue {
        var i :| 0 <= i < |s.queue| && s.queue[i] == id;
        WakersAt(s.queue, s.futs, i);
        LogGains(log, ws, pend[id].1, s.futs[id].waker.value, pend[id].0);
      } else {
        LogGrows(log, ws, pend[id].1, pend[id].0);
      }
    }
  }

  lemma DropWakes<Id>(s: State<Id>, id: Id, log: seq<Waker>, pend: map<Id, (Waker, nat)>)
    requires SemaphoreSpec.Inv(s) && id in s.futs && NoLostWakeup(s, log, pend)
    ensures var (t, ws) := SemaphoreSpec.Drop(s, id); NoLostWakeup(t, log + WakeOrder(ws), pend - {id})
  {
    UnlinkKeeps(s, id);
    ReleaseWakes(Unlink(s, id), Credit(s.futs[id]), log, pend - {id});
  }

  lemma PollWakes<Id>(s: State<Id>, id: Id, w: Waker, log: seq<Waker>, pend: map<Id, (Waker, nat)>)
    requires SemaphoreSpec.Inv(s) && Pollable(s, id) && NoLostWakeup(s, log, pend)
    ensures var (t, r) := SemaphoreSpec.Poll(s, id, w);
      NoLostWakeup(t, log, if r.Pending? then pend[id := (w, |log|)] else pend - {id})
  {
  }

  lemma CreateWakes<Id>(s: State<Id>, id: Id, n: nat, log: seq<Waker>, pend: map<Id, (Waker, nat)>)
    requires NoLostWakeup(s, log, pend) && id !in s.futs
    ensures NoLostWakeup(SemaphoreSpec.Create(s, id, n), log, pend)
  {
  }

  /** Wake-ups that have nothing to do with the semaphore do no harm. */
  lemma MoreWakes<Id>(s: State<Id>, log: seq<Waker>, more: seq<Waker>, pend: map<Id, (Waker, nat)>)
    requires NoLostWakeup(s, log, pend)
    ensures NoLostWakeup(s, log + more, pend)
  {
    forall id | id in pend
      ensures NotLost(s, log + more, id, pend[id].0, pend[id].1)
    {
      if id !in s.queue {
        LogGrows(log, more, pend[id].1, pend[id].0);
      }
    }
  }

  lemma WakeupsKept<Id>(s: Sys<Id>, op: Op<Id>)
    requires SysInv(s) && Enabled(s, op)
    ensures var t := Step(s, op); NoLostWakeup(t.sem, t.log, t.pend)
  {
    match op
    case Acquire(id, n) =>
    case Poll(id, w) => PollWakes(s.sem, id, w, s.log, s.pend);
    case DropFuture(id) => DropWakes(s.sem, id, s.log, s.pend);
    case TryAcquire(id, n) =>
    case AddPermits(n) => ReleaseWakes(s.sem, n, s.log, s.pend);
    case DropPermit(id) => ReleaseWakes(s.sem, s.held[id], s.log, s.pend);
    case Forget(id) =>
    case Close => CloseWakes(s.sem, s.log, s.pend);
  }

  // ----- runs

  ghost predicate Legal<Id>(s: Sys<Id>, ops: seq<Op<Id>>)
    requires SysInv(s)
    decreases |ops|
  {
    ops == [] || (Enabled(s, ops[0]) && (StepKeeps(s, ops[0]); Legal(Step(s, ops[0]), ops[1..])))
  }

  ghost function Run<Id>(s: Sys<Id>, ops: seq<Op<Id>>): Sys<Id>
    requires SysInv(s) && Legal(s, ops)
    decreases |ops|
  {
    if ops == [] then s else StepKeeps(s, ops[0]); Run(Step(s, ops[0]), ops[1..])
  }

  lemma {:induction false} RunKeeps<Id>(s: Sys<Id>, ops: seq<Op<Id>>)
    requires SysInv(s) && Legal(s, ops)
    ensures SysInv(Run(s, ops))
    decreases |ops|
  {
    if ops != [] {
      StepKeeps(s, ops[0]);
      RunKeeps(Step(s, ops[0]), ops[1..]);
    }
  }

  lemma StepKeeps<Id>(s: Sys<Id>, op: Op<Id>)
    requires SysInv(s) && Enabled(s, op)
    ensures SysInv(Step(s, op))
  {
    hide SemaphoreSpec.Inv, BooksAgree, NoLostWakeup, Owned, Step, Enabled;
    SemKept(s, op);
    BooksKept(s, op);
    LedgerKept(s, op);
    WakeupsKept(s, op);
  }

  ghost predicate LegalFromStart<Id>(permits: nat, ops: seq<Op<Id>>) {
    StartHolds<Id>(permits);
    Legal(Start<Id>(permits), ops)
  }

  /** Where a run from a new semaphore ends. */
  ghost function Reached<Id>(permits: nat, ops: seq<Op<Id>>): Sys<Id>
    requires LegalFromStart(permits, ops)
  {
    StartHolds<Id>(permits);
    Run(Start(permits), ops)
  }

  lemma ReachedHolds<Id>(permits: nat, ops: seq<Op<Id>>)
    requires LegalFromStart(permits, ops)
    ensures SysInv(Reached(permits, ops))
  {
    StartHolds<Id>(permits);
    RunKeeps(Start(permits), ops);
  }

  /**
   * Callers that respect the documented limit never see a panic: not when they add permits,
   * and not when they poll, drop a future or drop a permit.
   */
  lemma WithinLimitNeverPanics<Id>(s: Sys<Id>, op: Op<Id>)
    requires SysInv(s) && Allowed(s, op)
    requires s.total + (if op.AddPermits? then op.n else 0) <= MAX_PERMITS
    ensures Enabled(s, op) && Step(s, op).total <= MAX_PERMITS
  {
    match op
    case Poll(id, w) => CallsWithinLimit(s.sem, id);
    case DropFuture(id) => CallsWithinLimit(s.sem, id);
    case AddPermits(n) => WithinLimit(s.sem, n);
    case DropPermit(id) =>
      SumRemove(s.held, id);
      WithinLimit(s.sem, s.held[id]);
    case _ =>
  }

  /** No permit is lost or made up, and the shifted permit word always fits a `usize`. */
  lemma EveryRunConserves<Id>(permits: nat, ops: seq<Op<Id>>)
    requires LegalFromStart(permits, ops)
    ensures var t := Reached(permits, ops);
      && t.sem.avail + Sum(CreditMap(t.sem.futs)) + Sum(t.held) == t.total
      && 2 * t.sem.avail + 1 < USIZE
  {
    ReachedHolds(permits, ops);
  }

  /**
   * The rule the code relies on without stating it: while anyone waits no permit is
   * available, only the oldest waiter is partly filled, and the wait list holds exactly
   * the queued futures that still lack permits, as long as the semaphore is open.
   */
  ghost predicate QueueRule<Id>(t: State<Id>) {
    && (t.queue != [] ==> t.avail == 0)
    && (forall id | id in t.queue :: id in t.futs && t.futs[id].state <= t.futs[id].num)
    && (forall i {:trigger t.queue[i]} :: 0 < i < |t.queue| ==> t.futs[t.queue[i]].state == t.futs[t.queue[i]].num)
    && (forall id | id in t.futs :: id in t.queue <==> t.futs[id].queued && 0 < t.futs[id].state && !t.closed)
  }

  lemma InvMeans<Id>(t: State<Id>)
    requires SemaphoreSpec.Inv(t)
    ensures QueueRule(t)
  {
  }

  lemma EveryRunKeepsQueue<Id>(permits: nat, ops: seq<Op<Id>>)
    requires LegalFromStart(permits, ops)
    ensures QueueRule(Reached(permits, ops).sem)
  {
    ReachedHolds(permits, ops);
    InvMeans(Reached(permits, ops).sem);
  }

  /**
   * The answers after any run, in terms of what callers know: closed means somebody called
   * `close`, and a future or `try_acquire` is refused only for that or for want of permits.
   */
  lemma EveryRunAnswers<Id>(permits: nat, ops: seq<Op<Id>>, id: Id, n: nat, w: Waker)
    requires LegalFromStart(permits, ops)
    ensures var t := Reached(permits, ops);
      && Sane(t)
      && SemaphoreSpec.TryAcquire(t.sem, n).1
         == (if t.books.shut then IsClosed else if n <= t.sem.avail then Granted else NoPermits)
      && (Allowed(t, Op.Poll(id, w)) ==>
            var f, r := t.sem.futs[id], SemaphoreSpec.Poll(t.sem, id, w).1;
            && f.num == t.books.asked[id]
            && (r == Closed <==> t.books.shut)
            && (r == Acquired <==>
                  !t.books.shut && if f.queued then f.state == 0 else t.books.asked[id] <= t.sem.avail))
  {
    ReachedHolds(permits, ops);
    var t := Reached(permits, ops);
    if Allowed(t, Op.Poll(id, w)) {
      SemaphoreLaws.PollAnswers(t.sem, id, w);
    }
  }

  /** Whoever was left pending is still registered, or was woken and will get its permits or the news of the close. */
  lemma EveryRunWakes<Id>(permits: nat, ops: seq<Op<Id>>, id: Id, w: Waker)
    requires LegalFromStart(permits, ops)
    requires id in Reached(permits, ops).pend
    ensures var t := Reached(permits, ops); var (v, mark) := t.pend[id];
      && SemaphoreSpec.Inv(t.sem) && Pollable(t.sem, id)
      && if id in t.sem.queue then t.sem.futs[id].waker.Some? && t.sem.futs[id].waker.value.WillWake(v)
         else WokenSince(t.log, mark, v)
              && SemaphoreSpec.Poll(t.sem, id, w).1 == if t.books.shut then Closed else Acquired
  {
    ReachedHolds(permits, ops);
    var t := Reached(permits, ops);
    assert NotLost(t.sem, t.log, id, t.pend[id].0, t.pend[id].1);
  }

  // ----- progress

  /** Nothing is granted that its future has not been polled for. */
  ghost predicate AllPolled<Id>(s: State<Id>) {
    forall id | id in s.futs :: s.futs[id].queued ==> 0 < s.futs[id].state
  }

  /** Then only the oldest waiter has any permits assigned. */
  lemma OnlyOldestHolds<Id>(s: State<Id>)
    requires SemaphoreSpec.Inv(s) && s.queue != [] && AllPolled(s)
    ensures s.queue[0] in s.futs && var f := s.futs[s.queue[0]];
      f.state <= f.num && Sum(CreditMap(s.futs)) == f.num - f.state
  {
    var oldest, m := s.queue[0], CreditMap(s.futs);
    forall id | id in m - {oldest}
      ensures m[id] == 0
    {
      if s.futs[id].queued {
        var i :| 0 <= i < |s.queue| && s.queue[i] == id;
        assert i > 0;
      }
    }
    SumRemove(m, oldest);
    SumOfZeros(m - {oldest});
  }

  /**
   * A semaphore never sits on permits. Whenever someone waits and every grant has been
   * picked up, all permits there are, less those held by callers, are with the oldest waiter,
   * and it wants more than that. If no caller holds any, it wants more than there are.
   */
  lemma WaitingMeansScarce<Id>(permits: nat, ops: seq<Op<Id>>)
    requires LegalFromStart(permits, ops)
    requires var t := Reached(permits, ops); t.sem.queue != [] && AllPolled(t.sem)
    ensures var t := Reached(permits, ops);
      && t.sem.queue[0] in t.sem.futs && var f := t.sem.futs[t.sem.queue[0]];
      && t.total == Sum(t.held) + f.num - f.state < Sum(t.held) + f.num
      && (t.held == map[] ==> t.total < f.num)
  {
    ReachedHolds(permits, ops);
    OnlyOldestHolds(Reached(permits, ops).sem);
  }

  // ----- releases

  /** `release(a)` then `release(b)` ends where `release(a + b)` does and wakes the same wakers. */
  lemma ReleaseAdds<Id>(s: State<Id>, a: nat, b: nat)
    requires SemaphoreSpec.Inv(s)
    ensures var (t, ws) := Distribute(s, a); var (u, vs) := Distribute(t, b); var (x, zs) := Distribute(s, a + b);
      u == x && multiset(WakeOrder(ws) + WakeOrder(vs)) == multiset(WakeOrder(zs))
  {
    DistributeAdds(s, a, b);
    var (t, ws) := Distribute(s, a);
    var vs := Distribute(t, b).1;
    WakeOrderIsPermutation(ws);
    WakeOrderIsPermutation(vs);
    WakeOrderIsPermutation(ws + vs);
  }

  /** What the documentation of `release` promises to panic on. */
  ghost predicate ExceedsLimit<Id>(s: State<Id>, n: nat) {
    MAX_PERMITS < Owned(s) + n
  }

  /**
   * The check fires only for a `release` by more than the limit and the demand of all
   * waiters together, so it meets its documentation exactly for releases that large and for
   * those that keep the total within the limit.
   */
  lemma LimitCheckMeans<Id>(s: State<Id>, n: nat)
    requires SemaphoreSpec.Inv(s)
    ensures Listed(s)
    ensures LimitCheckFires(s, n) <==> MAX_PERMITS + Demand(s.queue, s.futs) < n
    ensures (LimitCheckFires(s, n) <==> ExceedsLimit(s, n))
      <==> (Owned(s) + n <= MAX_PERMITS || MAX_PERMITS + Demand(s.queue, s.futs) < n)
  {
    var k := DistributeServes(s, n);
    assert s.queue[..|s.queue|] == s.queue;
    if k < |s.queue| {
      SemaphoreLaws.DemandOfMore(s.queue, s.futs, k);
    }
  }

  /** One permit too many goes through: a full semaphore accepts `release(1)` without a panic. */
  lemma LimitCheckMisses<Id>()
    ensures var s := SemaphoreSpec.Init<Id>(MAX_PERMITS);
      SemaphoreSpec.Inv(s) && ExceedsLimit(s, 1) && Listed(s) && !LimitCheckFires(s, 1)
  {
    SemaphoreSpec.InitKeeps<Id>(MAX_PERMITS);
  }

  /** One wake-up for every waiter that leaves the queue, and none besides. */
  lemma OneWakeEach<Id>(s: State<Id>, n: nat)
    requires SemaphoreSpec.Inv(s)
    ensures Listed(s)
    ensures var (t, ws) := Distribute(s, n);
      && |WakeOrder(ws)| == |ws| == |s.queue| - |t.queue|
      && forall w | w in ws :: exists id :: id in s.queue && s.futs[id].waker == Some(w)
  {
    var (t, ws) := Distribute(s, n);
    var k := DistributeServes(s, n);
    WakersOfServed(s.queue[..k], s.futs);
    WakeOrderIsPermutation(ws);
    assert |multiset(WakeOrder(ws))| == |multiset(ws)|;
    forall w | w in ws
      ensures exists id :: id in s.queue && s.futs[id].waker == Some(w)
    {
      var id :| id in s.queue[..k] && s.futs[id].waker == Some(w);
    }
  }

  lemma {:induction false} WakersOfServed<Id>(q: seq<Id>, futs: map<Id, Fut>)
    requires forall i {:trigger q[i]} :: 0 <= i < |q| ==> q[i] in futs && futs[q[i]].waker.Some?
    ensures |Wakers(q, futs)| == |q|
    ensures forall w | w in Wakers(q, futs) :: exists id :: id in q && futs[id].waker == Some(w)
  {
    if q != [] {
      WakersOfServed(q[1..], futs);
    }
  }

  // ----- closing

  /** The CLOSED bit is never cleared. */
  lemma {:induction false} ClosedStays<Id>(s: Sys<Id>, ops: seq<Op<Id>>)
    requires SysInv(s) && Legal(s, ops) && s.sem.closed
    ensures Run(s, ops).sem.closed
    decreases |ops|
  {
    if ops != [] {
      StepKeeps(s, ops[0]);
      ClosedKept(s, ops[0]);
      ClosedStays(Step(s, ops[0]), ops[1..]);
    }
  }

  lemma ClosedKept<Id>(s: Sys<Id>, op: Op<Id>)
    requires SysInv(s) && Enabled(s, op) && s.sem.closed
    ensures Step(s, op).sem.closed
  {
    match op
    case DropFuture(id) => DropFrame(s.sem, id);
    case AddPermits(n) => DistributeKeeps(s.sem, n);
    case DropPermit(id) => DistributeKeeps(s.sem, s.held[id]);
    case _ =>
  }

  /**
   * A closed semaphore gives out nothing and changes nothing when asked; a future that had
   * been given some of its permits returns them when it is dropped, to nobody in particular.
   */
  lemma ClosedMeans<Id>(s: State<Id>, id: Id, n: nat, w: Waker)
    requires SemaphoreSpec.Inv(s) && s.closed
    ensures s.queue == [] && SemaphoreSpec.TryAcquire(s, n) == (s, IsClosed)
    ensures Pollable(s, id) ==> SemaphoreSpec.Poll(s, id, w) == (s, Closed)
    ensures id in s.futs ==>
      SemaphoreSpec.Drop(s, id) == (State(s.avail + Credit(s.futs[id]), true, [], s.futs - {id}), [])
  {
    if id in s.futs {
      SemaphoreLaws.DropWhenClosed(s, id);
    }
  }

  lemma RunFirst<Id>(s: Sys<Id>, op: Op<Id>, rest: seq<Op<Id>>)
    requires SysInv(s) && Enabled(s, op)
    requires SysInv(Step(s, op)) && Legal(Step(s, op), rest)
    ensures Legal(s, [op] + rest) && Run(s, [op] + rest) == Run(Step(s, op), rest)
  {
    assert ([op] + rest)[1..] == rest;
  }

  /** A semaphore with one granted future that has not been polled since. */
  ghost function OneGranted<Id>(id: Id, avail: nat): State<Id> {
    State(avail, false, [], map[id := Fut(1, 0, true, false, None)])
  }

  lemma OneGrantedGrows<Id>(s: Sys<Id>, id: Id, avail: nat, n: nat)
    requires SysInv(s) && s.sem == OneGranted(id, avail)
    requires n <= MAX_PERMITS && 2 * (avail + n) + 1 < USIZE
    ensures Enabled(s, AddPermits(n)) && Step(s, AddPermits(n)).sem == OneGranted(id, avail + n)
  {
  }

  /** The first two calls of the run below: a future waits for a permit of an empty semaphore. */
  lemma OneAsks<Id>(s: Sys<Id>, id: Id)
    requires Sane(s) && s.sem == State(0, false, [], map[]) && id !in s.used
    ensures Enabled(s, Acquire(id, 1))
    ensures Step(s, Acquire(id, 1)).sem == State(0, false, [], map[id := Fut(1, 1, false, false, None)])
  {
  }

  lemma OneWaits<Id>(s: Sys<Id>, id: Id, w: Waker)
    requires Sane(s) && s.sem == State(0, false, [], map[id := Fut(1, 1, false, false, None)])
    ensures Enabled(s, Op.Poll(id, w))
    ensures Step(s, Op.Poll(id, w)).sem == State(0, false, [id], map[id := Fut(1, 1, true, false, Some(w))])
  {
  }

  /** The third call grants the future its permit and stores all the limit allows. */
  lemma OneIsGranted<Id>(s: Sys<Id>, id: Id, w: Waker)
    requires SysInv(s) && s.sem == State(0, false, [id], map[id := Fut(1, 1, true, false, Some(w))])
    ensures Enabled(s, AddPermits(MAX_PERMITS + 1))
    ensures Step(s, AddPermits(MAX_PERMITS + 1)).sem == OneGranted(id, MAX_PERMITS)
  {
    var p := SemaphoreSpec.PopOldest(s.sem);
    assert p == OneGranted(id, 0);
    assert Distribute(p, MAX_PERMITS).0 == OneGranted(id, MAX_PERMITS);
  }

  /**
   * The excess shows later, in an unrelated call. Four calls, none of which panics, fill an
   * empty semaphore with more than the limit; polling a future granted on the way panics
   * then, and the available permits are gone.
   */
  lemma OverfullPollPanics<Id>(id: Id, w: Waker) returns (ops: seq<Op<Id>>)
    ensures LegalFromStart(0, ops)
    ensures var s := Reached(0, ops).sem; s == OneGranted(id, MAX_PERMITS + 1) && PollPanics(s, id)
  {
    hide SysInv, Allowed, Panicking, Step, Enabled;
    var a, b, c, d: Op<Id> := Acquire(id, 1), Op.Poll(id, w), AddPermits(MAX_PERMITS + 1), AddPermits(1);
    var s0 := Start<Id>(0);
    StartHolds<Id>(0);
    SysInvGives(s0);
    OneAsks(s0, id);
    var s1 := Step(s0, a);
    StepKeeps(s0, a);
    SysInvGives(s1);
    OneWaits(s1, id, w);
    var s2 := Step(s1, b);
    StepKeeps(s1, b);
    SysInvGives(s2);
    OneIsGranted(s2, id, w);
    var s3 := Step(s2, c);
    StepKeeps(s2, c);
    SysInvGives(s3);
    OneGrantedGrows(s3, id, MAX_PERMITS, 1);
    StepKeeps(s3, d);
    RunFirst(s3, d, []);
    RunFirst(s2, c, [d] + []);
    RunFirst(s1, b, [c] + ([d] + []));
    RunFirst(s0, a, [b] + ([c] + ([d] + [])));
    ops := [a] + ([b] + ([c] + ([d] + [])));
  }

  lemma SysInvGives<Id>(s: Sys<Id>)
    requires SysInv(s)
    ensures Sane(s)
  {
  }

  // ----- fairness

  /** A caller that has not been queued gets its permits at once iff they are there. */
  lemma ImmediateOnlyWithoutWaiters<Id>(s: State<Id>, id: Id, n: nat, w: Waker)
    requires SemaphoreSpec.Inv(s) && 1 <= n
    ensures SemaphoreSpec.TryAcquire(s, n).1.Granted? <==> !s.closed && n <= s.avail
    ensures SemaphoreSpec.TryAcquire(s, n).1.Granted? ==> s.queue == []
    ensures Pollable(s, id) && !s.futs[id].queued && s.futs[id].num == n ==>
      var r := SemaphoreSpec.Poll(s, id, w).1;
      (r.Acquired? <==> !s.closed && n <= s.avail) && (r.Acquired? ==> s.queue == [])
  {
  }

  ghost predicate Before<T>(q: seq<T>, a: T, b: T) {
    exists i, j :: 0 <= i < j < |q| && q[i] == a && q[j] == b
  }

  /** `id` wants something and has been promised all of it. */
  ghost predicate Won<Id>(s: State<Id>, id: Id) {
    id in s.futs && 1 <= s.futs[id].num && (s.futs[id].done || (s.futs[id].queued && s.futs[id].state == 0))
  }

  /** `b` is behind `a`: unknown, not yet polled, queued later, or asking for nothing. */
  ghost predicate Behind<Id>(s: State<Id>, a: Id, b: Id) {
    b in s.futs ==>
      s.futs[b].num == 0 || (!s.futs[b].queued && !s.futs[b].done) || Before(s.queue, a, b)
  }

  ghost predicate Fair<Id>(s: State<Id>, a: Id, b: Id) {
    && a != b
    && a in s.futs
    && (|| s.futs[a].state == 0
        || (a in s.queue && Behind(s, a, b))
        || (s.closed && !Won(s, b)))
  }

  lemma FairMeans<Id>(s: State<Id>, a: Id, b: Id)
    requires SemaphoreSpec.Inv(s) && Fair(s, a, b) && Won(s, b)
    ensures s.futs[a].state == 0
  {
  }

  lemma FairByRelease<Id>(s: State<Id>, n: nat, a: Id, b: Id)
    requires SemaphoreSpec.Inv(s) && Fair(s, a, b)
    ensures Fair(Distribute(s, n).0, a, b)
  {
    var k := DistributeServes(s, n);
    FairAfterServing(s, n, Distribute(s, n).0, Distribute(s, n).1, k, a, b);
  }

  lemma FairAfterServing<Id>(s: State<Id>, n: nat, t: State<Id>, ws: seq<Waker>, k: nat, a: Id, b: Id)
    requires QueueOk(s.queue, s.futs) && Serves(s, n, t, ws, k) && Fair(s, a, b)
    requires s.queue != [] ==> !s.closed
    ensures Fair(t, a, b)
  {
    hide Covers, AfterServing, Wakers, Demand;
    if a in s.queue {
      var i :| 0 <= i < |s.queue| && s.queue[i] == a;
      ServesAt(s, n, t, ws, k, i);
      OthersDiffer(s.queue, i);
      if i >= k && b in s.queue {
        var j :| 0 <= j < |s.queue| && s.queue[j] == b;
        ServesAt(s, n, t, ws, k, j);
        if Before(s.queue, a, b) {
          var x, y :| 0 <= x < y < |s.queue| && s.queue[x] == a && s.queue[y] == b;
          assert t.queue[i - k] == a && t.queue[y - k] == b;
        }
      } else if i >= k && b in s.futs {
        ServesElsewhere(s, n, t, ws, k, b);
      }
    } else {
      ServesElsewhere(s, n, t, ws, k, a);
      if s.closed && b in s.futs {
        ServesElsewhere(s, n, t, ws, k, b);
      }
    }
  }

  lemma BeforeWithout<T>(q: seq<T>, x: T, a: T, b: T)
    requires Distinct(q) && Before(q, a, b) && x != a && x != b
    ensures Before(Without(q, x), a, b)
  {
    if x in q {
      var i, j :| 0 <= i < j < |q| && q[i] == a && q[j] == b;
      var k :| 0 <= k < |q| && q[k] == x;
      WithoutAt(q, k);
      var r := Without(q, x);
      assert r[if i < k then i else i - 1] == a && r[if j < k then j else j - 1] == b;
    } else {
      WithoutAbsent(q, x);
    }
  }

  lemma FairByUnlink<Id>(s: State<Id>, id: Id, a: Id, b: Id)
    requires SemaphoreSpec.Inv(s) && Fair(s, a, b) && id in s.futs && id != a
    ensures Fair(Unlink(s, id), a, b)
  {
    if Before(s.queue, a, b) && id != b {
      BeforeWithout(s.queue, id, a, b);
    }
  }

  lemma FairByPoll<Id>(s: State<Id>, id: Id, w: Waker, a: Id, b: Id)
    requires SemaphoreSpec.Inv(s) && Fair(s, a, b) && Pollable(s, id)
    ensures Fair(SemaphoreSpec.Poll(s, id, w).0, a, b)
  {
    var t := SemaphoreSpec.Poll(s, id, w).0;
    if a in s.queue {
      var x :| 0 <= x < |s.queue| && s.queue[x] == a;
      assert t.queue[x] == a;
      if Before(s.queue, a, b) {
        var i, j :| 0 <= i < j < |s.queue| && s.queue[i] == a && s.queue[j] == b;
        assert t.queue[i] == a && t.queue[j] == b;
      } else if id == b && |t.queue| > |s.queue| {
        assert t.queue[|s.queue|] == b;
      }
    }
  }

  lemma FairStep<Id>(s: Sys<Id>, op: Op<Id>, a: Id, b: Id)
    requires SysInv(s) && Enabled(s, op) && op != DropFuture(a) && Fair(s.sem, a, b)
    ensures Fair(Step(s, op).sem, a, b)
  {
    match op
    case Acquire(id, n) =>
    case Poll(id, w) => FairByPoll(s.sem, id, w, a, b);
    case DropFuture(id) =>
      UnlinkKeeps(s.sem, id);
      FairByUnlink(s.sem, id, a, b);
      FairByRelease(Unlink(s.sem, id), Credit(s.sem.futs[id]), a, b);
    case TryAcquire(id, n) =>
    case AddPermits(n) => FairByRelease(s.sem, n, a, b);
    case DropPermit(id) => FairByRelease(s.sem, s.held[id], a, b);
    case Forget(id) =>
    case Close =>
  }

  /**
   * First come, first served: from the moment `a` stands in the queue, and until it is
   * dropped, no future that is not already ahead of `a` gets its permits before `a` has all
   * of its own, whatever else is called in between.
   */
  lemma {:induction false} NoOvertaking<Id>(s: Sys<Id>, ops: seq<Op<Id>>, a: Id, b: Id)
    requires SysInv(s) && Legal(s, ops)
    requires forall i :: 0 <= i < |ops| ==> ops[i] != DropFuture(a)
    requires a != b && a in s.sem.queue && Behind(s.sem, a, b)
    ensures var t := Run(s, ops).sem;
      a in t.futs && (Won(t, b) ==> t.futs[a].state == 0)
  {
    FairRun(s, ops, a, b);
    RunKeeps(s, ops);
    FairMeansAfter(Run(s, ops), a, b);
  }

  lemma FairMeansAfter<Id>(t: Sys<Id>, a: Id, b: Id)
    requires SysInv(t) && Fair(t.sem, a, b)
    ensures Won(t.sem, b) ==> t.sem.futs[a].state == 0
  {
    if Won(t.sem, b) {
      FairMeans(t.sem, a, b);
    }
  }

  lemma {:induction false} FairRun<Id>(s: Sys<Id>, ops: seq<Op<Id>>, a: Id, b: Id)
    requires SysInv(s) && Legal(s, ops)
    requires forall i :: 0 <= i < |ops| ==> ops[i] != DropFuture(a)
    requires Fair(s.sem, a, b)
    ensures Fair(Run(s, ops).sem, a, b)
    decreases |ops|
  {
    if ops != [] {
      StepKeeps(s, ops[0]);
      FairStep(s, ops[0], a, b);
      FairRun(Step(s, ops[0]), ops[1..], a, b);
    }
  }
}
