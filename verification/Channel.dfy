/** The bounded channel as the program runs it: the block queue and the semaphore side by side. */
module Channels {
  import opened Base
  import opened WakeLists
  import opened BlockQueues
  import opened LinkedLists
  import opened Semaphores
  import Sem = SemaphoreSpec
  import Spec = ChannelSpec

  class Chan<T> {
    const queue: Queue<T>
    const semaphore: Inner
    var rxWaker: Option<Waker>
    var txCount: nat
    /** The value captured by each `send` call still in progress, by its waiter. */
    var sends: map<Waiter, T>
    ghost var rxAlive: bool
    ghost const cap: nat

    ghost function View(): Spec.Chan<Waiter, T>
      reads this, queue, semaphore, semaphore.queue
    {
      Spec.Chan(semaphore.View(), queue.contents, rxWaker, txCount, sends, rxAlive)
    }

    ghost predicate Parts()
      reads queue, queue.blocks, queue.buffers
      reads semaphore, semaphore.queue, semaphore.queue.members`prev, semaphore.queue.members`next, semaphore.futs.Keys
    {
      semaphore.Valid() && queue.Valid()
    }

    ghost predicate Valid()
      reads this, queue, queue.blocks, queue.buffers
      reads semaphore, semaphore.queue, semaphore.queue.members`prev, semaphore.queue.members`next, semaphore.futs.Keys
    {
      Parts() && Spec.Inv(View(), cap)
    }

    constructor (buffer: nat)
      ensures Valid() && View() == Spec.Init(buffer) && cap == buffer % (Sem.MAX_PERMITS + 1)
      ensures fresh(queue) && fresh(queue.blocks) && fresh(queue.buffers) && fresh(semaphore.Footprint())
    {
      queue := new Queue<T>();
      semaphore := new Inner(buffer);
      rxWaker, txCount, sends := None, 1, map[];
      rxAlive, cap := true, buffer % (Sem.MAX_PERMITS + 1);
      new;
      Spec.InitHolds<Waiter, T>(buffer);
    }

    /** Cloning a sender. */
    method CloneTx()
      requires Valid() && Spec.Enabled(View(), Spec.CloneTx)
      modifies this`txCount
      ensures Valid() && View() == Spec.Step(old(View()), Spec.CloneTx).c
    {
      hide Inner.Valid, Queue.Valid, Spec.Inv;
      Spec.StepKeeps(View(), Spec.CloneTx, cap);
      txCount := txCount + 1;
    }

    /** Starting `send`: its value is captured and its future created. */
    method StartSend(v: T) returns (w: Waiter)
      requires Valid() && 0 < txCount
      modifies this`sends, semaphore`futs
      ensures Valid() && fresh(w)
      ensures Spec.Enabled(old(View()), Spec.StartSend(w, v))
      ensures View() == Spec.Step(old(View()), Spec.StartSend(w, v)).c
      ensures semaphore.futs.Keys == old(semaphore.futs.Keys) + {w}
    {
      hide Inner.Valid, Queue.Valid, Spec.Inv;
      w := semaphore.Acquire(1);
      Spec.StepKeeps(old(View()), Spec.StartSend(w, v), cap);
      sends := sends[w := v];
    }

    /** `chan::Tx::send`: the caller has made sure there is room. */
    method Send(v: T) returns (sent: bool, woken: seq<Waker>)
      requires Parts()
      modifies this`rxWaker, queue, queue.blocks, queue.buffers
      ensures Parts()
      ensures var e := Spec.Push(old(View()), v);
        View() == e.c && woken == e.woken && (sent <==> e.out.Sent?)
      ensures old(queue.blocks) <= queue.blocks
      ensures fresh(queue.blocks - old(queue.blocks))
      ensures fresh(queue.buffers - old(queue.buffers))
    {
      hide Inner.Valid, Queue.Valid;
      var closed := semaphore.IsClosed();
      if closed {
        return false, [];
      }
      queue.PushUnchecked(v);
      woken := ToSeq(rxWaker);
      rxWaker := None;
      sent := true;
    }

    /** The awaited `Acquire` is dropped, and the captured value is out of the future. */
    method FinishSend(w: Waiter) returns (woken: seq<Waker>)
      requires Parts() && Sem.Inv(semaphore.View()) && w in semaphore.futs
      requires Sem.Owned(semaphore.View()) <= Sem.MAX_PERMITS
      modifies this`sends, semaphore`permits, semaphore`futs, semaphore.queue, semaphore.futs.Keys
      ensures Parts()
      ensures (View(), woken) == Spec.Finish(old(View()), old(semaphore.View()), w)
      ensures semaphore.futs.Keys <= old(semaphore.futs.Keys)
    {
      hide Inner.Valid, Queue.Valid, Sem.Inv, Sem.Owned, Sem.Drop, Sem.DropPanics, Sem.DropUnstored;
      Sem.CallsWithinLimit(semaphore.View(), w);
      var panicked;
      woken, panicked := semaphore.Drop(w);
      assert !panicked;
      sends := sends - {w};
    }

    /** The awaited `Acquire` is polled; within the capacity that never panics. */
    method PollAcquire(w: Waiter, cx: Waker) returns (r: Sem.PollResult)
      requires Valid() && w in sends
      modifies semaphore`permits, semaphore`futs, semaphore.queue, semaphore.futs.Keys
      ensures Parts() && semaphore.futs.Keys == old(semaphore.futs.Keys)
      ensures Sem.Inv(semaphore.View()) && Sem.Owned(semaphore.View()) <= Sem.MAX_PERMITS && w in semaphore.futs
      ensures r.Acquired? ==> !Spec.Finish(View(), semaphore.View(), w).0.sem.closed
      ensures Sem.Inv(old(View()).sem) && Spec.Waiting(old(View()))
      ensures Spec.PollSendStep(old(View()), w, cx)
        == if r.Pending? then Spec.Effect(View(), Spec.SendPending, []) else Spec.Resumed(View(), w, r.Acquired?)
      ensures Spec.Inv(Spec.PollSendStep(old(View()), w, cx).c, cap)
    {
      hide Inner.Valid, Queue.Valid, Spec.Inv, Sem.Inv, Sem.Owned, Sem.Poll, Sem.PollPanics, Sem.Drop;
      hide Spec.PollSendStep, Spec.Finish, Spec.Resumed, Spec.Waiting;
      Spec.PollSendMeans(View(), w, cx, cap);
      Sem.CallsWithinLimit(semaphore.View(), w);
      var woken, panicked;
      r, woken, panicked := semaphore.Poll(w, cx);
      assert !panicked && woken == [];
    }

    /** Polling `send`. Once the permit is acquired the value is queued without fail. */
    method PollSend(w: Waiter, cx: Waker) returns (out: Spec.Out<T>, woken: seq<Waker>)
      requires Valid() && w in sends
      modifies this`sends, this`rxWaker, queue, queue.blocks, queue.buffers
      modifies semaphore`permits, semaphore`futs, semaphore.queue, semaphore.futs.Keys
      ensures Valid()
      ensures Sem.Inv(old(View()).sem) && Spec.Waiting(old(View()))
      ensures Spec.PollSendStep(old(View()), w, cx) == Spec.Effect(View(), out, woken)
      ensures semaphore.futs.Keys <= old(semaphore.futs.Keys)
      ensures old(queue.blocks) <= queue.blocks
      ensures fresh(queue.blocks - old(queue.blocks))
      ensures fresh(queue.buffers - old(queue.buffers))
    {
      hide Parts, Spec.Inv, Sem.Inv, Sem.Owned, Spec.PollSendStep, Spec.Finish, Spec.Resumed, Spec.Waiting;
      var r := PollAcquire(w, cx);
      if r.Pending? {
        return Spec.SendPending, [];
      }
      out, woken := Resume(w, r.Acquired?);
    }

    /** A `send` after its await: with a permit the value is queued without fail. */
    method Resume(w: Waiter, acquired: bool) returns (out: Spec.Out<T>, woken: seq<Waker>)
      requires Parts() && Sem.Inv(semaphore.View()) && w in semaphore.futs && w in sends
      requires Sem.Owned(semaphore.View()) <= Sem.MAX_PERMITS
      requires acquired ==> !Spec.Finish(View(), semaphore.View(), w).0.sem.closed
      modifies this`sends, this`rxWaker, queue, queue.blocks, queue.buffers
      modifies semaphore`permits, semaphore`futs, semaphore.queue, semaphore.futs.Keys
      ensures Parts()
      ensures Spec.Resumed(old(View()), w, acquired) == Spec.Effect(View(), out, woken)
      ensures semaphore.futs.Keys <= old(semaphore.futs.Keys)
      ensures old(queue.blocks) <= queue.blocks
      ensures fresh(queue.blocks - old(queue.blocks))
      ensures fresh(queue.buffers - old(queue.buffers))
    {
      hide Parts, Sem.Inv, Sem.Owned, Sem.Drop, Spec.Push;
      var v := sends[w];
      woken := FinishSend(w);
      if !acquired {
        return Spec.RxClosed, woken;
      }
      Spec.PushWhenOpen(View(), v);
      var sent, more := Send(v);
      assert sent;
      out, woken := Spec.Sent, woken + more;
    }

    /** Dropping a `send` that was still waiting. */
    method CancelSend(w: Waiter) returns (woken: seq<Waker>)
      requires Valid() && w in sends
      modifies this`sends, semaphore`permits, semaphore`futs, semaphore.queue, semaphore.futs.Keys
      ensures Valid()
      ensures Sem.Inv(old(View()).sem) && Spec.Waiting(old(View()))
      ensures Spec.Step(old(View()), Spec.CancelSend(w)) == Spec.Effect(View(), Spec.Done, woken)
      ensures semaphore.futs.Keys <= old(semaphore.futs.Keys)
    {
      hide Inner.Valid, Queue.Valid, Spec.Inv, Sem.Inv, Spec.Finish;
      Spec.InvGives(View(), cap);
      Spec.CancelKeeps(View(), w, cap);
      woken := FinishSend(w);
    }

    /** Dropping a sender. The last one closes the semaphore and wakes the receiver. */
    method DropTx() returns (woken: seq<Waker>)
      requires Valid() && Spec.Enabled(View(), Spec.DropTx)
      modifies this`txCount, this`rxWaker
      modifies semaphore`permits, semaphore`closed, semaphore`futs, semaphore.queue, semaphore.futs.Keys
      ensures Valid()
      ensures Sem.Inv(old(View()).sem) && Spec.Waiting(old(View()))
      ensures Spec.Step(old(View()), Spec.DropTx) == Spec.Effect(View(), Spec.Done, woken)
      ensures semaphore.futs.Keys <= old(semaphore.futs.Keys)
    {
      hide Inner.Valid, Queue.Valid, Spec.Inv, Sem.Inv, Sem.Close;
      Spec.InvGives(View(), cap);
      Spec.DropTxKeeps(View(), cap);
      var cnt := txCount;
      txCount := cnt - 1;
      woken := [];
      if cnt == 1 {
        woken := semaphore.Close();
        woken := woken + ToSeq(rxWaker);
        rxWaker := None;
      }
    }

    /** The receiver closes the channel. */
    method CloseRx() returns (woken: seq<Waker>)
      requires Valid() && rxAlive
      modifies semaphore`permits, semaphore`closed, semaphore`futs, semaphore.queue, semaphore.futs.Keys
      ensures Valid()
      ensures Sem.Inv(old(View()).sem) && Spec.Waiting(old(View()))
      ensures Spec.Step(old(View()), Spec.CloseRx) == Spec.Effect(View(), Spec.Done, woken)
      ensures semaphore.futs.Keys <= old(semaphore.futs.Keys)
    {
      hide Inner.Valid, Queue.Valid, Spec.Inv, Sem.Inv, Sem.Close;
      Spec.InvGives(View(), cap);
      Spec.CloseStepKeeps(View(), cap);
      woken := semaphore.Close();
    }

    /** Takes the oldest value and frees its permit. */
    method Take() returns (v: T, woken: seq<Waker>)
      requires Valid() && queue.contents != []
      modifies queue, queue.blocks, queue.buffers
      modifies semaphore`permits, semaphore`futs, semaphore.queue, semaphore.futs.Keys
      ensures Valid()
      ensures Sem.Inv(old(View()).sem)
      ensures Spec.Take(old(View())) == Spec.Effect(View(), Spec.Got(v), woken)
      ensures semaphore.futs.Keys <= old(semaphore.futs.Keys)
      ensures queue.blocks == old(queue.blocks) && queue.buffers == old(queue.buffers)
    {
      hide Inner.Valid, Queue.Valid, Spec.Inv, Sem.Inv, Sem.Distribute, Sem.Owned;
      Spec.InvGives(View(), cap);
      Spec.TakeKeeps(View(), cap);
      v := queue.PopUnchecked();
      Sem.WithinLimit(semaphore.View(), 1);
      var panicked;
      woken, panicked := semaphore.Release(1);
      assert !panicked;
    }

    method TryRecv() returns (out: Spec.Out<T>, woken: seq<Waker>)
      requires Valid() && rxAlive
      modifies queue, queue.blocks, queue.buffers
      modifies semaphore`permits, semaphore`futs, semaphore.queue, semaphore.futs.Keys
      ensures Valid()
      ensures Sem.Inv(old(View()).sem) && Spec.Waiting(old(View()))
      ensures Spec.Step(old(View()), Spec.TryRecv) == Spec.Effect(View(), out, woken)
      ensures semaphore.futs.Keys <= old(semaphore.futs.Keys)
      ensures queue.blocks == old(queue.blocks) && queue.buffers == old(queue.buffers)
    {
      hide Inner.Valid, Spec.Inv, Sem.Inv, Spec.Take;
      Spec.InvGives(View(), cap);
      if !queue.IsEmpty() {
        var v;
        v, woken := Take();
        return Spec.Got(v), woken;
      }
      out := if txCount == 0 then Spec.Disconnected else Spec.Empty;
      woken := [];
    }

    /** Polling `recv`. */
    method Recv(cx: Waker) returns (out: Spec.Out<T>, woken: seq<Waker>)
      requires Valid() && rxAlive
      modifies this`rxWaker, queue, queue.blocks, queue.buffers
      modifies semaphore`permits, semaphore`futs, semaphore.queue, semaphore.futs.Keys
      ensures Valid()
      ensures Sem.Inv(old(View()).sem) && Spec.Waiting(old(View()))
      ensures Spec.Step(old(View()), Spec.Recv(cx)) == Spec.Effect(View(), out, woken)
      ensures semaphore.futs.Keys <= old(semaphore.futs.Keys)
      ensures queue.blocks == old(queue.blocks) && queue.buffers == old(queue.buffers)
    {
      hide Inner.Valid, Sem.Inv, Spec.Take, Sem.Owned;
      if !queue.IsEmpty() {
        var v;
        v, woken := Take();
        return Spec.Got(v), woken;
      }
      if txCount == 0 {
        return Spec.Ended, [];
      }
      if rxWaker == None || !rxWaker.value.WillWake(cx) {
        rxWaker := Some(cx);
      }
      out, woken := Spec.RecvPending, [];
    }

    /** Throws away everything queued. */
    method Drain()
      requires queue.Valid()
      modifies queue, queue.blocks, queue.buffers
      ensures queue.Valid() && queue.contents == []
      ensures queue.blocks == old(queue.blocks) && queue.buffers == old(queue.buffers)
    {
      while !queue.IsEmpty()
        invariant queue.Valid() && queue.blocks == old(queue.blocks) && queue.buffers == old(queue.buffers)
        decreases |queue.contents|
      {
        var v := queue.PopUnchecked();
      }
    }

    /** Closing, as far as the semaphore is concerned. */
    method CloseSemaphore() returns (woken: seq<Waker>)
      requires Parts() && Sem.Inv(semaphore.View())
      modifies semaphore`permits, semaphore`closed, semaphore`futs, semaphore.queue, semaphore.futs.Keys
      ensures Parts() && Sem.Listed(old(semaphore.View()))
      ensures (semaphore.View(), woken) == Sem.Close(old(semaphore.View()))
      ensures semaphore.futs.Keys <= old(semaphore.futs.Keys)
    {
      hide Inner.Valid, Queue.Valid, Sem.Inv, Sem.Owned, Sem.Close, Sem.Listed;
      woken := semaphore.Close();
    }

    /** Dropping the receiver: nobody can send any more, and what was queued is gone. */
    method DropRx() returns (woken: seq<Waker>)
      requires Valid() && rxAlive
      modifies this`rxAlive, queue, queue.blocks, queue.buffers
      modifies semaphore`permits, semaphore`closed, semaphore`futs, semaphore.queue, semaphore.futs.Keys
      ensures Valid()
      ensures Sem.Inv(old(View()).sem) && Spec.Waiting(old(View()))
      ensures Spec.Step(old(View()), Spec.DropRx) == Spec.Effect(View(), Spec.Done, woken)
      ensures semaphore.futs.Keys <= old(semaphore.futs.Keys)
      ensures queue.blocks == old(queue.blocks) && queue.buffers == old(queue.buffers)
    {
      hide Parts, Spec.Inv, Sem.Inv, Sem.Close, Sem.Distribute, Sem.Owned, Sem.Listed;
      Spec.InvGives(View(), cap);
      Spec.DropRxKeeps(View(), cap);
      Sem.CloseKeeps(semaphore.View());
      woken := CloseSemaphore();
      var more := Discard();
      woken := woken + more;
      rxAlive := false;
    }

    /** The queued values are thrown away and their permits returned. */
    method Discard() returns (woken: seq<Waker>)
      requires Parts() && Sem.Inv(semaphore.View())
      requires Sem.Owned(semaphore.View()) + |queue.contents| <= Sem.MAX_PERMITS
      modifies queue, queue.blocks, queue.buffers
      modifies semaphore`permits, semaphore`futs, semaphore.queue, semaphore.futs.Keys
      ensures Parts() && queue.contents == [] && Sem.Listed(old(semaphore.View()))
      ensures (semaphore.View(), woken) == (
        var (u, vs) := Sem.Distribute(old(semaphore.View()), |old(queue.contents)|); (u, WakeOrder(vs)))
      ensures semaphore.futs.Keys <= old(semaphore.futs.Keys)
      ensures queue.blocks == old(queue.blocks) && queue.buffers == old(queue.buffers)
    {
      Sem.InvLists(semaphore.View());
      hide Inner.Valid, Queue.Valid, Sem.Inv, Sem.Owned, Sem.Distribute, Sem.Listed;
      var len := queue.Len();
      Drain();
      Sem.WithinLimit(semaphore.View(), len);
      var panicked;
      woken, panicked := semaphore.Release(len);
      assert !panicked;
    }

    /**
     * The last handle is gone. The queue is empty by then, so the loop that clears it finds
     * nothing, and every block is given back once.
     */
    method Drop()
      requires Valid() && txCount == 0 && !rxAlive
      modifies queue, queue.blocks, queue.buffers
      ensures forall b | b in queue.blocks :: b.freed
    {
      hide Inner.Valid, Sem.Inv, Sem.Owned;
      assert queue.IsEmpty();
      Drain();
      queue.FreeBlocks();
    }
  }
}
