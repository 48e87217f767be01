/**
 * The semaphore as the program runs it: a shifted permit word, an intrusive wait list
 * of waiters that live inside their futures, and a batched hand-out of permits.
 */
module Semaphores {
  import opened Base
  import opened WakeLists
  import opened LinkedLists
  import Spec = SemaphoreSpec

  /** The permit word: available permits above the CLOSED bit. */
  function Shifted(word: nat): nat {
    word / 2
  }

  predicate ClosedBit(word: nat) {
    word % 2 == 1
  }

  ghost function FutOf(w: Waiter): Spec.Fut
    reads w`state, w`waker, w`queued, w`done
  {
    Spec.Fut(w.numPermits, w.state, w.queued, w.done, w.waker)
  }

  /** How one attempt to serve the oldest waiter ends. */
  datatype Served = Nobody | Partly | Popped(waker: Option<Waker>)

  class Inner {
    /** The available permits, shifted past the CLOSED bit. */
    var permits: nat
    var closed: bool
    const queue: LinkedList
    /** Every future not yet dropped, and what it holds as the specification sees it. */
    ghost var futs: map<Waiter, Spec.Fut>

    ghost function Footprint(): set<object>
      reads this
    {
      {this, queue} + set w | w in futs :: w
    }

    ghost function View(): Spec.State<Waiter>
      reads this, queue
    {
      Spec.State(Shifted(permits), ClosedBit(permits), queue.nodes, futs)
    }

    /** Only live waiters are listed, and every other live waiter is unlinked. */
    ghost predicate Links()
      reads this`futs, queue, futs.Keys`prev, futs.Keys`next
    {
      && queue.members <= futs.Keys
      && (forall w {:trigger w.Unlinked()} | w in futs && w !in queue.members :: w.Unlinked())
    }

    /** The ghost view and the flag bit agree with the fields. */
    ghost predicate Mirrors()
      reads this, futs.Keys`state, futs.Keys`waker, futs.Keys`queued, futs.Keys`done
    {
      && (closed <==> ClosedBit(permits))
      && (forall w | w in futs :: futs[w] == FutOf(w))
    }

    ghost predicate Sound()
      reads this, queue, queue.members`prev, queue.members`next, futs.Keys
    {
      queue.Valid() && Links() && Mirrors()
    }

    ghost predicate Valid()
      reads this, queue, queue.members`prev, queue.members`next, futs.Keys
    {
      Sound() && Spec.Inv(View()) && Spec.Fits(View())
    }

    constructor (n: nat)
      ensures Valid() && View() == Spec.Init<Waiter>(n)
      ensures fresh(Footprint() - {this})
    {
      permits := 2 * (n % (Spec.MAX_PERMITS + 1));
      closed := false;
      queue := new LinkedList();
      futs := map[];
      new;
      Spec.InitKeeps<Waiter>(n);
    }

    method AvailablePermits() returns (n: nat)
      requires Valid()
      ensures n == View().avail
    {
      n := Shifted(permits);
    }

    method IsClosed() returns (b: bool)
      requires Valid()
      ensures b == View().closed
    {
      b := ClosedBit(permits);
    }

    /** Takes all available permits out of the permit word of an open semaphore. */
    method Clear()
      requires Sound() && !View().closed
      modifies this`permits
      ensures Sound()
      ensures View() == Spec.State(0, false, queue.nodes, futs)
    {
      permits := 0;
    }

    /** Gives a waiter as much of `rem` as it needs. */
    method Assign(w: Waiter, rem: nat) returns (left: nat, satisfied: bool)
      requires Sound() && w in futs
      modifies this`futs, w`state
      ensures Sound()
      ensures satisfied <==> w.state == 0
      ensures w.state + rem == old(w.state) + left && (w.state == 0 || left == 0)
      ensures futs == old(futs)[w := FutOf(w)]
    {
      left, satisfied := w.AssignPermits(rem);
      futs := futs[w := FutOf(w)];
    }

    /** Pops the oldest waiter and takes its waker. */
    method PopOldest(w: Waiter) returns (waker: Option<Waker>)
      requires Sound() && queue.nodes != [] && queue.nodes[0] == w
      modifies this`futs, queue, futs.Keys
      ensures Sound() && futs.Keys == old(futs.Keys)
      ensures queue.nodes == old(queue.nodes)[1..]
      ensures w in old(futs) && waker == old(futs)[w].waker
      ensures futs == old(futs)[w := old(futs)[w].(waker := None)]
    {
      assert futs[w] == FutOf(w);
      var popped := queue.PopBack();
      waker := w.waker;
      w.waker := None;
      futs := futs[w := futs[w].(waker := None)];
    }

    lemma OldestIsLive()
      requires Sound()
      ensures queue.Valid()
      ensures queue.nodes != [] ==> queue.nodes[0] in futs && futs[queue.nodes[0]] == FutOf(queue.nodes[0])
    {
    }

    /** Serves the oldest waiter: nobody there, too few permits, or filled and popped. */
    method ServeOldest(rem: nat, ghost s: Spec.State<Waiter>) returns (left: nat, r: Served)
      requires Sound() && s == View()
      modifies this`futs, queue, futs.Keys
      ensures Sound() && futs.Keys == old(futs.Keys)
      ensures r.Nobody? ==> s.queue == [] && left == rem && View() == s
      ensures r.Partly? ==> s.queue != [] && rem < s.futs[s.queue[0]].state
      ensures r.Partly? ==> left == 0 && View() == Spec.TopUpOldest(s, rem)
      ensures r.Popped? ==> s.queue != [] && s.futs[s.queue[0]].state <= rem
      ensures r.Popped? ==> left == rem - s.futs[s.queue[0]].state && View() == Spec.PopOldest(s)
      ensures r.Popped? ==> r.waker == s.futs[s.queue[0]].waker
    {
      hide Sound, LinkedList.Valid;
      OldestIsLive();
      var last := queue.Last();
      if last.None? {
        return rem, Nobody;
      }
      var w := last.value;
      var satisfied;
      left, satisfied := Assign(w, rem);
      if !satisfied {
        assert FutOf(w) == Spec.Topped(s.futs[w], rem);
        return left, Partly;
      }
      ghost var f := futs[w];
      var waker := PopOldest(w);
      MapUpdatedTwice(s.futs, w, f, futs[w]);
      assert futs[w] == Spec.Filled(s.futs[w]);
      r := Popped(waker);
    }

    /** One round of the inner loop of `add_permits`. */
    method ServeInto(rem: nat, wakers: WakeList, ghost s: Spec.State<Waiter>) returns (left: nat, r: Served)
      requires Sound() && s == View()
      requires wakers.Valid() && |wakers.pending| < NUM_WAKERS
      modifies this`futs, queue, futs.Keys, wakers`curr, wakers`pending, wakers.inner
      ensures Sound() && wakers.Valid() && futs.Keys == old(futs.Keys)
      ensures !r.Popped? ==> wakers.pending == old(wakers.pending)
      ensures r.Nobody? ==> s.queue == [] && left == rem && View() == s
      ensures r.Partly? ==> s.queue != [] && rem < s.futs[s.queue[0]].state
      ensures r.Partly? ==> left == 0 && View() == Spec.TopUpOldest(s, rem)
      ensures r.Popped? ==> s.queue != [] && s.futs[s.queue[0]].state <= rem
      ensures r.Popped? ==> left == rem - s.futs[s.queue[0]].state && View() == Spec.PopOldest(s)
      ensures r.Popped? ==> wakers.pending == old(wakers.pending) + ToSeq(s.futs[s.queue[0]].waker)
    {
      left, r := ServeOldest(rem, s);
      if r.Popped? && r.waker.Some? {
        wakers.Push(r.waker.value);
      }
    }

    /**
     * The inner loop: serves waiters until the batch of wakers is full, the permits are
     * used up or nobody waits.
     */
    method FillBatch(n: nat, wakers: WakeList, ghost s0: Spec.State<Waiter>) returns (rem: nat, isEmpty: bool)
      requires Sound() && Spec.Inv(s0) && s0 == View()
      requires wakers.Valid() && wakers.pending == []
      modifies this`futs, queue, futs.Keys, wakers`curr, wakers`pending, wakers.inner
      ensures Sound() && wakers.Valid() && futs.Keys == old(futs.Keys)
      ensures Spec.InProgress(s0, n, View(), rem, wakers.pending)
      ensures isEmpty ==> queue.nodes == []
      ensures isEmpty || rem == 0 || |wakers.pending| == NUM_WAKERS
    {
      hide Spec.InProgress, LinkedList.Valid, Links, Mirrors;
      rem, isEmpty := n, false;
      Spec.ProgressStarts(s0, n);
      while wakers.CanPush()
        invariant Sound() && wakers.Valid() && futs.Keys == old(futs.Keys)
        invariant Spec.InProgress(s0, n, View(), rem, wakers.pending)
        decreases |queue.nodes|
      {
        ghost var s, rem0, batch := View(), rem, wakers.pending;
        var served;
        rem, served := ServeInto(rem, wakers, s);
        match served {
          case Nobody =>
            isEmpty := true;
            break;
          case Partly =>
            Spec.ProgressByTopUp(s0, n, s, rem0, batch);
            break;
          case Popped(_) =>
            Spec.ProgressByPop(s0, n, s, rem0, batch);
        }
      }
    }

    /**
     * Puts permits nobody waits for back into the permit word. It panics if they are more
     * than the limit, or if the addition overflows.
     */
    method StoreRest(rem: nat) returns (panicked: bool)
      requires Sound()
      modifies this`permits
      ensures Sound()
      ensures var s := old(View());
        var t := Spec.State(s.avail + rem, s.closed, s.queue, s.futs);
        && (panicked <==> Spec.MAX_PERMITS < rem || !Spec.Fits(t))
        && View() == if panicked then s else t
    {
      if rem > Spec.MAX_PERMITS {
        return true;
      }
      if permits + 2 * rem >= Spec.USIZE {
        return true;
      }
      permits := permits + 2 * rem;
      panicked := false;
    }

    /** One round of the outer loop, short of waking the batch. */
    method HandOutBatch(n: nat, wakers: WakeList, ghost s0: Spec.State<Waiter>) returns (rem: nat, panicked: bool)
      requires Sound() && Spec.Inv(s0) && s0 == View() && Spec.Fits(s0)
      requires wakers.Valid() && wakers.pending == []
      modifies this`permits, this`futs, queue, futs.Keys, wakers`curr, wakers`pending, wakers.inner
      ensures Sound() && wakers.Valid() && futs.Keys == old(futs.Keys)
      ensures Spec.InProgress(s0, n, View(), rem, wakers.pending)
      ensures |wakers.pending| <= NUM_WAKERS
      ensures if panicked then rem > 0 && Spec.Stuck(View(), rem)
              else Spec.StoredWell(s0, View()) && (rem == 0 || |wakers.pending| == NUM_WAKERS)
    {
      hide Shifted, ClosedBit, LinkedList.Valid, Links, Mirrors, Spec.Inv, Spec.InProgress, Spec.Owned;
      var isEmpty;
      rem, isEmpty := FillBatch(n, wakers, s0);
      panicked := false;
      Spec.ProgressMeans(s0, n, View(), rem, wakers.pending);
      if rem > 0 && isEmpty {
        Spec.ProgressByStore(s0, n, View(), rem, wakers.pending);
        panicked := StoreRest(rem);
        if !panicked {
          rem := 0;
        }
      }
    }

    /** One round of the outer loop. */
    method HandOutRound(n: nat, wakers: WakeList, ghost s0: Spec.State<Waiter>)
      returns (rem: nat, batch: seq<Waker>, panicked: bool)
      requires Sound() && Spec.Inv(s0) && s0 == View() && Spec.Fits(s0)
      requires wakers.Valid() && wakers.pending == []
      modifies this`permits, this`futs, queue, futs.Keys, wakers`curr, wakers`pending, wakers.inner
      ensures Sound() && Spec.Inv(View()) && Spec.Listed(View()) && futs.Keys == old(futs.Keys)
      ensures Spec.Listed(s0) && Spec.Distribute(View(), rem).0 == Spec.Distribute(s0, n).0
      ensures rem > 0 ==> View().avail == s0.avail
      ensures panicked ==> rem > 0 && Spec.Stuck(View(), rem)
      ensures !panicked ==> wakers.Valid() && wakers.pending == [] && Spec.StoredWell(s0, View())
      ensures |View().queue| <= |s0.queue| && (!panicked && rem > 0 ==> |View().queue| < |s0.queue|)
      ensures !panicked ==>
        batch + WakeOrder(Spec.Distribute(View(), rem).1) == WakeOrder(Spec.Distribute(s0, n).1)
    {
      hide Sound, Shifted, ClosedBit, WakeList.Valid, WakeOrder;
      hide Spec.Inv, Spec.InProgress, Spec.Listed, Spec.Distribute, Spec.Owned, Spec.Stuck, Spec.StoredWell;
      Spec.InvLists(s0);
      batch := [];
      rem, panicked := HandOutBatch(n, wakers, s0);
      Spec.ProgressMeans(s0, n, View(), rem, wakers.pending);
      if !panicked {
        FlushBatch(wakers.pending, Spec.Distribute(View(), rem).1);
        batch := wakers.WakeAll();
      }
    }

    /**
     * The batched hand-out: it does what serving one waiter after the other does and ends
     * with every permit placed, unless storing the leftover panics.
     */
    method AddPermits(n: nat) returns (woken: seq<Waker>, panicked: bool)
      requires Sound() && Spec.Inv(View()) && Spec.Fits(View())
      modifies this`permits, this`futs, queue, futs.Keys
      ensures Valid() && futs.Keys == old(futs.Keys)
      ensures panicked <==> Spec.Panics(old(View()), n)
      ensures View() == if panicked then Spec.Unstored(old(View()), n) else Spec.Distribute(old(View()), n).0
      ensures var all := WakeOrder(Spec.Distribute(old(View()), n).1);
        if panicked then woken <= all else woken == all
    {
      hide Sound, Shifted, ClosedBit, WakeList.Valid, WakeOrder;
      hide Spec.Inv, Spec.Listed, Spec.Distribute, Spec.Stuck, Spec.Panics, Spec.Unstored, Spec.Owned;
      ghost var s := View();
      Spec.InvLists(s);
      var rem: nat := n;
      var wakers := new WakeList();
      woken, panicked := [], false;
      while rem > 0
        invariant Sound() && Spec.Inv(View()) && futs.Keys == old(futs.Keys)
        invariant Spec.Listed(View()) && Spec.StoredWell(s, View()) && (rem > 0 ==> View().avail == s.avail)
        invariant wakers.Valid() && wakers.pending == [] && fresh(wakers) && fresh(wakers.inner)
        invariant Spec.Distribute(View(), rem).0 == Spec.Distribute(s, n).0
        invariant woken + WakeOrder(Spec.Distribute(View(), rem).1) == WakeOrder(Spec.Distribute(s, n).1)
        decreases |View().queue| + if rem > 0 then 1 else 0
      {
        var batch;
        rem, batch, panicked := HandOutRound(rem, wakers, View());
        if panicked {
          Spec.StuckMeans(s, n, View(), rem);
          return;
        }
        woken := woken + batch;
      }
      Spec.DistributeNothing(View());
      Spec.StoredMeans(s, n, View());
      WakeOrderNothing<Waker>();
    }

    /** `acquire(n)`: a new future, not yet polled. */
    method Acquire(n: nat) returns (w: Waiter)
      requires Valid()
      modifies this`futs
      ensures Valid() && fresh(w)
      ensures View() == Spec.Create(old(View()), w, n)
    {
      hide Spec.Inv, Spec.Owned;
      w := new Waiter(n);
      Spec.CreateKeeps(View(), w, n);
      futs := futs[w := FutOf(w)];
    }

    method TryAcquire(n: nat) returns (r: Spec.TryResult)
      requires Valid()
      modifies this`permits
      ensures Valid()
      ensures View() == Spec.TryAcquire(old(View()), n).0 && r == Spec.TryAcquire(old(View()), n).1
    {
      hide Spec.Inv, Spec.Owned, LinkedList.Valid;
      Spec.TryAcquireKeeps(View(), n);
      var curr := permits;
      if ClosedBit(curr) {
        return Spec.IsClosed;
      }
      if curr < 2 * n {
        return Spec.NoPermits;
      }
      permits := curr - 2 * n;
      r := Spec.Granted;
    }

    /** `release`: with nothing to add the wait list is not even looked at. */
    method Release(n: nat) returns (woken: seq<Waker>, panicked: bool)
      requires Valid()
      modifies this`permits, this`futs, queue, futs.Keys
      ensures Valid() && futs.Keys == old(futs.Keys)
      ensures panicked <==> Spec.Panics(old(View()), n)
      ensures View() == if panicked then Spec.Unstored(old(View()), n) else Spec.Distribute(old(View()), n).0
      ensures var all := WakeOrder(Spec.Distribute(old(View()), n).1);
        if panicked then woken <= all else woken == all
    {
      hide Shifted, ClosedBit, LinkedList.Valid, Links, Mirrors, WakeOrder;
      hide Spec.Inv, Spec.Listed, Spec.Distribute, Spec.Owned;
      Spec.InvLists(View());
      if n == 0 {
        Spec.DistributeNothing(View());
        WakeOrderNothing<Waker>();
        return [], false;
      }
      woken, panicked := AddPermits(n);
    }

    /** Dropping a future, finished or not: what it was given goes on to the others. */
    method Drop(w: Waiter) returns (woken: seq<Waker>, panicked: bool)
      requires Valid() && w in futs
      modifies this`permits, this`futs, queue, futs.Keys
      ensures Valid() && futs.Keys == old(futs.Keys) - {w}
      ensures panicked <==> Spec.DropPanics(old(View()), w)
      ensures !panicked ==> View() == Spec.Drop(old(View()), w).0
      ensures panicked ==> View() == Spec.DropUnstored(old(View()), w)
      ensures var all := WakeOrder(Spec.Drop(old(View()), w).1);
        if panicked then woken <= all else woken == all
    {
      hide Shifted, ClosedBit, WakeOrder, Spec.Inv, Spec.Distribute, Spec.Owned, Spec.Panics, Spec.Unstored;
      ghost var s := View();
      LiveWaiter(w);
      Spec.UnlinkKeeps(s, w);
      Spec.DropKeeps(s, w);
      Spec.NothingNeverPanics(Spec.Unlink(s, w));
      if !w.queued {
        Spec.DropUnqueued(s, w);
        futs := futs - {w};
        WakeOrderNothing<Waker>();
        return [], false;
      }
      Detach(w);
      var acquired: nat := w.numPermits - w.state;
      if acquired > 0 {
        woken, panicked := AddPermits(acquired);
      } else {
        Spec.DistributeNothing(View());
        WakeOrderNothing<Waker>();
        woken, panicked := [], false;
      }
    }

    lemma UnqueuedIsUnlisted(w: Waiter)
      requires Valid() && w in futs && !w.queued
      ensures w !in queue.members
    {
      assert w in queue.members ==> Occurs(queue.nodes, w);
    }

    /** Takes a waiter off the list, if it is there, and out of the books. */
    method Detach(w: Waiter)
      requires Sound() && w in futs
      modifies this`futs, queue, queue.members`prev, queue.members`next
      ensures Sound()
      ensures View() == Spec.Unlink(old(View()), w)
    {
      hide LinkedList.Valid;
      assert w in queue.members || w.Unlinked();
      var removed := queue.Remove(w);
      futs := futs - {w};
    }

    /**
     * Polling an `Acquire`. The branch that hands leftover permits back is reached exactly
     * by futures that were granted everything while queued. It wakes nobody, and panics if
     * the semaphore holds more than the limit; the permits it has cleared are lost then.
     */
    method Poll(w: Waiter, cx: Waker) returns (r: Spec.PollResult, woken: seq<Waker>, panicked: bool)
      requires Valid() && Spec.Pollable(View(), w)
      modifies this`permits, this`futs, queue, futs.Keys
      ensures Valid() && futs.Keys == old(futs.Keys) && woken == []
      ensures panicked <==> Spec.PollPanics(old(View()), w)
      ensures !panicked ==> View() == Spec.Poll(old(View()), w, cx).0 && r == Spec.Poll(old(View()), w, cx).1
      ensures panicked ==> View() == Spec.Emptied(old(View()))
    {
      hide Spec.Inv, Spec.Owned, Spec.Distribute, LinkedList.Valid;
      ghost var s := View();
      Spec.PollKeeps(s, w, cx);
      assert futs[w] == FutOf(w);
      var curr := permits;
      if ClosedBit(curr) {
        return Spec.Closed, [], false;
      }
      var needed := if w.queued then 2 * w.state else 2 * w.numPermits;
      if curr >= needed && !w.queued {
        permits := curr - needed;
        Finish(w);
        return Spec.Acquired, [], false;
      }
      r, woken, panicked := PollSlowly(w, cx);
    }

    /** The rest of a poll that could not be answered at once. */
    method PollSlowly(w: Waiter, cx: Waker) returns (r: Spec.PollResult, woken: seq<Waker>, panicked: bool)
      requires Valid() && Spec.Pollable(View(), w) && !View().closed
      requires !w.queued ==> View().avail < w.numPermits
      modifies this`permits, this`futs, queue, futs.Keys
      ensures Valid() && futs.Keys == old(futs.Keys) && woken == []
      ensures panicked <==> Spec.PollPanics(old(View()), w)
      ensures !panicked ==> View() == Spec.Poll(old(View()), w, cx).0 && r == Spec.Poll(old(View()), w, cx).1
      ensures panicked ==> View() == Spec.Emptied(old(View()))
    {
      hide Sound, Shifted, ClosedBit, Spec.Inv, Spec.Owned, Spec.Distribute, Spec.Listed, Spec.Panics, Spec.Unstored;
      ghost var s := View();
      ValidIsSound();
      LiveWaiter(w);
      Spec.PollKeeps(s, w, cx);
      Spec.SlowPoll(s, w);
      var avail := Shifted(permits);
      Clear();
      var left, satisfied := Assign(w, avail);
      ghost var f := futs[w];
      if satisfied {
        MapUnchanged(s.futs, w);
        Spec.SlowPollPanics(s, w);
        woken, panicked := PutBack(w, left);
        return Spec.Acquired, woken, panicked;
      }
      Register(w, cx);
      MapUpdatedTwice(s.futs, w, f, futs[w]);
      assert futs[w] == Spec.Enqueued(s.futs[w], avail, cx);
      r, woken, panicked := Spec.Pending, [], false;
    }

    /** What the books say of a live future, and that only queued ones are listed. */
    lemma LiveWaiter(w: Waiter)
      requires Valid() && w in futs
      ensures futs[w] == FutOf(w) == Spec.Fut(w.numPermits, w.state, w.queued, w.done, w.waker)
      ensures w.state <= w.numPermits && (!w.queued ==> w !in queue.members)
    {
      if !w.queued {
        UnqueuedIsUnlisted(w);
      }
    }

    /** Permits the future did not need go back; nobody was waiting for them. Then it is finished. */
    method PutBack(w: Waiter, left: nat) returns (woken: seq<Waker>, panicked: bool)
      requires Sound() && w in futs && Spec.Inv(View()) && Spec.Fits(View()) && Spec.Listed(View())
      requires Spec.Distribute(View(), left) == (Spec.State(View().avail + left, View().closed, View().queue, futs), [])
      modifies this`permits, this`futs, queue, futs.Keys
      ensures Sound() && futs.Keys == old(futs.Keys) && woken == []
      ensures panicked <==> Spec.Panics(old(View()), left)
      ensures var s := old(View());
        View() == if panicked then s
          else Spec.State(s.avail + left, s.closed, s.queue, s.futs[w := s.futs[w].(queued := false, done := true)])
    {
      hide Sound, Spec.Inv, Spec.Owned, Spec.Distribute, Spec.Panics;
      WakeOrderNothing<Waker>();
      woken, panicked := AddPermits(left);
      ValidIsSound();
      if !panicked {
        Finish(w);
      }
    }

    lemma ValidIsSound()
      requires Valid()
      ensures Sound()
    {
    }

    /** A future that has answered Ready(Ok) is not queued any more. */
    method Finish(w: Waiter)
      requires Sound() && w in futs
      modifies this`futs, w`queued, w`done
      ensures Sound()
      ensures futs == old(futs)[w := old(futs)[w].(queued := false, done := true)]
    {
      hide LinkedList.Valid;
      w.queued, w.done := false, true;
      futs := futs[w := FutOf(w)];
    }

    /** Keeps the stored waker if it wakes the polling task, and replaces it otherwise. */
    method StoreWaker(w: Waiter, cx: Waker)
      requires Sound() && w in futs
      modifies this`futs, w`waker
      ensures Sound()
      ensures futs == old(futs)[w := old(futs)[w].(waker := Spec.Refresh(old(futs)[w].waker, cx))]
    {
      hide LinkedList.Valid;
      if w.waker == None || !w.waker.value.WillWake(cx) {
        w.waker := Some(cx);
      }
      futs := futs[w := FutOf(w)];
    }

    /** Joins the queue, if not in it. */
    method Enqueue(w: Waiter)
      requires Sound() && w in futs && (!w.queued ==> w !in queue.members)
      modifies this`futs, w`queued, queue, futs.Keys`prev, futs.Keys`next
      ensures Sound()
      ensures queue.nodes == if old(w.queued) then old(queue.nodes) else old(queue.nodes) + [w]
      ensures futs == old(futs)[w := old(futs)[w].(queued := true)]
    {
      hide LinkedList.Valid;
      if !w.queued {
        queue.PushFront(w);
      }
      w.queued := true;
      futs := futs[w := FutOf(w)];
    }

    /** Stores the waker and joins the queue. */
    method Register(w: Waiter, cx: Waker)
      requires Sound() && w in futs && (!w.queued ==> w !in queue.members)
      modifies this`futs, queue, futs.Keys
      ensures Sound() && futs.Keys == old(futs.Keys)
      ensures queue.nodes == if old(w.queued) then old(queue.nodes) else old(queue.nodes) + [w]
      ensures futs == old(futs)[w := old(futs)[w].(queued := true, waker := Spec.Refresh(old(futs)[w].waker, cx))]
    {
      hide Sound, Spec.Refresh;
      ghost var s := futs;
      StoreWaker(w, cx);
      ghost var f := futs[w];
      Enqueue(w);
      MapUpdatedTwice(s, w, f, futs[w]);
    }

    /** Raises the CLOSED bit; the available permits stay as they are. */
    method SetClosed()
      requires Sound()
      modifies this`permits, this`closed
      ensures Sound() && ClosedBit(permits) && Shifted(permits) == old(Shifted(permits))
    {
      permits := if ClosedBit(permits) then permits else permits + 1;
      closed := true;
    }

    /** Sets the CLOSED bit, then pops and wakes every waiter, oldest first. */
    method Close() returns (woken: seq<Waker>)
      requires Valid()
      modifies this`permits, this`closed, this`futs, queue, futs.Keys
      ensures Valid() && futs.Keys == old(futs.Keys)
      ensures Spec.Listed(old(View()))
      ensures View() == Spec.Close(old(View())).0 && woken == Spec.Close(old(View())).1
    {
      hide LinkedList.Valid, Links, Mirrors, Spec.Inv, Spec.Owned, Spec.Wakers, Spec.Silenced, Spec.Listed;
      ghost var s := View();
      Spec.InvLists(s);
      Spec.CloseKeeps(s);
      SetClosed();
      woken := [];
      ghost var i := 0;
      Spec.SilencedNobody(s.futs);
      assert s.queue[..0] == [] && s.queue[0..] == s.queue;
      var last := queue.Last();
      while last.Some?
        invariant Sound() && futs.Keys == s.futs.Keys
        invariant last == if queue.nodes == [] then None else Some(queue.nodes[0])
        invariant 0 <= i <= |s.queue| && queue.nodes == s.queue[i..]
        invariant ClosedBit(permits) && Shifted(permits) == s.avail
        invariant futs == Spec.Silenced(s.futs, s.queue[..i])
        invariant woken == Spec.Wakers(s.queue[..i], s.futs)
        decreases |queue.nodes|
      {
        var w := last.value;
        Spec.SilencedOneMore(s.futs, s.queue, i);
        Spec.WakersOneMore(s.queue, s.futs, i);
        Spec.NotSilencedYet(s, i);
        var waker := PopOldest(w);
        if waker.Some? {
          woken := woken + [waker.value];
        }
        i := i + 1;
        last := queue.Last();
      }
      assert s.queue[..i] == s.queue;
    }
  }
}
