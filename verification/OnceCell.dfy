/** The once cell as the program runs it. */
module OnceCells {
  import opened Base
  import opened WakeLists
  import opened LinkedLists
  import opened Semaphores
  import Sem = SemaphoreSpec
  import Spec = OnceCellSpec
  import Laws = OnceCellRuns

  class OnceCell<T> {
    var valueSet: bool
    /** The value's memory; None while it is uninitialised. */
    var value: Option<T>
    var semaphore: Inner
    /** The calls that hold the permit while their initialiser runs. */
    ghost var running: set<Waiter>

    ghost function View(): Spec.Cell<Waiter, T>
      reads this, semaphore, semaphore.queue
    {
      Spec.Cell(semaphore.View(), value, valueSet, running)
    }

    ghost predicate Valid()
      reads this, semaphore, semaphore.queue, semaphore.queue.members`prev, semaphore.queue.members`next
      reads semaphore.futs.Keys
    {
      semaphore.Valid() && Spec.Inv(View())
    }

    constructor New()
      ensures Valid() && View() == Spec.New() && fresh(semaphore.Footprint())
    {
      valueSet, value, running := false, None, {};
      semaphore := new Inner(1);
      new;
      Spec.NewHolds<Waiter, T>();
    }

    constructor From(v: T)
      ensures Valid() && View() == Spec.From(v) && fresh(semaphore.Footprint())
    {
      hide Sem.Inv, Sem.Owned, Inner.Valid;
      valueSet, value, running := true, Some(v), {};
      semaphore := new Inner(0);
      new;
      Spec.FromHolds<Waiter, T>(v);
      var woken := semaphore.Close();
    }

    /** `get`: the value is only read when it is there. */
    method Get() returns (o: Option<T>)
      requires Valid()
      ensures o == View().value
    {
      o := if valueSet then Some(value.value) else None;
    }

    /** `set_value`, with the permit in hand; the permit is forgotten. */
    method SetValue(v: T) returns (woken: seq<Waker>)
      requires semaphore.Valid() && Sem.Inv(View().sem)
      modifies this`value, this`valueSet
      modifies semaphore`permits, semaphore`closed, semaphore`futs, semaphore.queue, semaphore.futs.Keys
      ensures semaphore.Valid()
      ensures var e := Spec.SetValue(old(View()), v); View() == e.c && woken == e.woken
      ensures semaphore.futs.Keys <= old(semaphore.futs.Keys)
    {
      hide Inner.Valid, Sem.Inv, Sem.Close, Sem.Owned;
      value := Some(v);
      valueSet := true;
      woken := semaphore.Close();
    }

    method Set(v: T) returns (out: Spec.Out<T>, woken: seq<Waker>)
      requires Valid()
      modifies this`value, this`valueSet
      modifies semaphore`permits, semaphore`closed, semaphore`futs, semaphore.queue, semaphore.futs.Keys
      ensures Valid()
      ensures Spec.Step(old(View()), Spec.Set(v)) == Spec.Effect(View(), out, woken)
      ensures semaphore.futs.Keys <= old(semaphore.futs.Keys)
    {
      hide Sem.Inv, Sem.Close, Sem.Owned, Inner.Valid;
      Spec.SetKeeps(View(), v);
      Sem.TryAcquireKeeps(View().sem, 1);
      Laws.SetMeans(View(), v);
      if valueSet {
        return Spec.AlreadyInitialized, [];
      }
      var r := semaphore.TryAcquire(1);
      match r {
        case Granted =>
          assert !valueSet;
          woken := SetValue(v);
          out := Spec.Done;
        case NoPermits =>
          out, woken := Spec.Initializing, [];
        case IsClosed =>
          assert false;
      }
    }

    /** The first steps of `get_or_init`, up to the await. */
    method Begin() returns (out: Spec.Out<T>, w: Waiter)
      requires Valid()
      modifies semaphore`futs
      ensures Valid() && fresh(w)
      ensures Spec.Enabled(old(View()), Spec.Begin(w))
      ensures Spec.Step(old(View()), Spec.Begin(w)) == Spec.Effect(View(), out, [])
      ensures semaphore.futs.Keys <= old(semaphore.futs.Keys) + {w}
    {
      hide Sem.Inv, Sem.Owned, Inner.Valid;
      if valueSet {
        w := new Waiter(1);
        return Spec.Value(value.value), w;
      }
      w := semaphore.Acquire(1);
      Spec.StepKeeps(old(View()), Spec.Begin(w));
      out := Spec.Waiting;
    }

    /**
     * Polling a waiting call. Both debug assertions hold: a permit is only handed out by an
     * empty cell, and a closed semaphore means there is a value to read.
     */
    method Poll(w: Waiter, cx: Waker) returns (out: Spec.Out<T>, woken: seq<Waker>)
      requires Valid() && w in semaphore.futs
      modifies this`running, semaphore`permits, semaphore`futs, semaphore.queue, semaphore.futs.Keys
      ensures Valid()
      ensures Spec.PollStep(old(View()), w, cx) == Spec.Effect(View(), out, woken)
      ensures semaphore.futs.Keys <= old(semaphore.futs.Keys)
    {
      hide Sem.Inv, Sem.Poll, Sem.Drop, Sem.Owned, Inner.Valid, WakeOrder;
      Spec.PollKeeps(View(), w, cx);
      Laws.PollMeans(View(), w, cx);
      Sem.PollKeeps(View().sem, w, cx);
      Sem.CallsWithinLimit(View().sem, w);
      Sem.CallsWithinLimit(Sem.Poll(View().sem, w, cx).0, w);
      var r, none, panicked := semaphore.Poll(w, cx);
      assert !panicked;
      if r.Pending? {
        return Spec.Waiting, [];
      }
      woken, panicked := semaphore.Drop(w);
      assert !panicked;
      if r.Acquired? {
        assert !valueSet;
        running := running + {w};
        return Spec.Started, woken;
      }
      assert valueSet;
      out := Spec.Value(value.value);
    }

    /** The initialiser is done: its value becomes the cell's, for good. */
    method Finish(w: Waiter, v: T) returns (woken: seq<Waker>)
      requires Valid() && w in running
      modifies this`value, this`valueSet, this`running
      modifies semaphore`permits, semaphore`closed, semaphore`futs, semaphore.queue, semaphore.futs.Keys
      ensures Valid()
      ensures Spec.Step(old(View()), Spec.Finish(w, v)) == Spec.Effect(View(), Spec.Done, woken)
      ensures semaphore.futs.Keys <= old(semaphore.futs.Keys)
    {
      hide Sem.Inv, Sem.Close, Sem.Owned, Inner.Valid;
      Spec.FinishKeeps(View(), w, v);
      Laws.OneInitialiser(View(), w, w);
      running := running - {w};
      woken := SetValue(v);
    }

    /** The initialiser failed, or its call was dropped: the permit goes back. */
    method Abort(w: Waiter) returns (woken: seq<Waker>)
      requires Valid() && w in running
      modifies this`running, semaphore`permits, semaphore`futs, semaphore.queue, semaphore.futs.Keys
      ensures Valid()
      ensures Spec.AbortStep(old(View()), w) == Spec.Effect(View(), Spec.Done, woken)
      ensures semaphore.futs.Keys <= old(semaphore.futs.Keys)
    {
      hide Sem.Inv, Sem.Distribute, Sem.Owned, Inner.Valid, WakeOrder;
      Spec.AbortKeeps(View(), w);
      Laws.OneInitialiser(View(), w, w);
      assert |running - {w}| == |running| - 1;
      running := running - {w};
      Sem.WithinLimit(View().sem, 1);
      var panicked;
      woken, panicked := semaphore.Release(1);
      assert !panicked;
    }

    /** A call is dropped while it waits. */
    method Cancel(w: Waiter) returns (woken: seq<Waker>)
      requires Valid() && w in semaphore.futs
      modifies semaphore`permits, semaphore`futs, semaphore.queue, semaphore.futs.Keys
      ensures Valid()
      ensures Spec.CancelStep(old(View()), w) == Spec.Effect(View(), Spec.Done, woken)
      ensures semaphore.futs.Keys <= old(semaphore.futs.Keys)
    {
      hide Sem.Inv, Sem.Drop, Sem.Owned, Inner.Valid, WakeOrder;
      Spec.CancelKeeps(View(), w);
      Sem.CallsWithinLimit(View().sem, w);
      var panicked;
      woken, panicked := semaphore.Drop(w);
      assert !panicked;
    }

    /** Moves the contents of another cell, which nobody uses any more, into a new one. */
    constructor Moved(isSet: bool, v: Option<T>, sem: Inner)
      ensures valueSet == isSet && value == v && semaphore == sem
    {
      valueSet, value, semaphore, running := isSet, v, sem, {};
    }

    /** `into_inner`: the flag goes down with the value, so the destructor finds nothing to drop. */
    method IntoInner() returns (o: Option<T>)
      requires valueSet <==> value.Some?
      modifies this`valueSet, this`value
      ensures o == old(value) && !valueSet && value == None
    {
      if !valueSet {
        return None;
      }
      valueSet := false;
      o := value;
      value := None;
    }

    /** `take`: the cell starts over, with a semaphore of its own. */
    method Take() returns (o: Option<T>)
      requires Valid() && Spec.Enabled(View(), Spec.Take)
      modifies this
      ensures Valid()
      ensures Spec.Step(old(View()), Spec.Take) == Spec.Effect(View(), Spec.Taken(o), [])
      ensures fresh(semaphore.Footprint())
    {
      hide Sem.Inv, Sem.Owned, Inner.Valid;
      Spec.NewHolds<Waiter, T>();
      var was := new OnceCell<T>.Moved(valueSet, value, semaphore);
      valueSet, value := false, None;
      semaphore := new Inner(1);
      running := {};
      o := was.IntoInner();
    }

    /** The destructor drops the value exactly if it is still there. */
    method Drop() returns (dropped: Option<T>)
      requires Valid()
      modifies this`value
      ensures dropped == old(View()).value && value == None
    {
      dropped := if valueSet then value else None;
      value := None;
    }
  }
}
