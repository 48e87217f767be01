/** The oneshot channel as the program runs it: a word of flags and two hand-managed waker slots. */
module Oneshots {
  import opened Base
  import Spec = OneshotSpec

  const RX_TASK_SET: bv64 := 1
  const VALUE_SENT: bv64 := 2
  const CLOSED: bv64 := 4
  const TX_TASK_SET: bv64 := 8

  predicate IsRxTaskSet(s: bv64) {
    s & RX_TASK_SET == RX_TASK_SET
  }

  predicate IsComplete(s: bv64) {
    s & VALUE_SENT == VALUE_SENT
  }

  predicate IsClosed(s: bv64) {
    s & CLOSED == CLOSED
  }

  predicate IsTxTaskSet(s: bv64) {
    s & TX_TASK_SET == TX_TASK_SET
  }

  /** The flags of `r` are those of `s` except where `flag` says otherwise. */
  ghost predicate Flags(r: bv64, rx: bool, complete: bool, closed: bool, tx: bool) {
    && (IsRxTaskSet(r) <==> rx)
    && (IsComplete(r) <==> complete)
    && (IsClosed(r) <==> closed)
    && (IsTxTaskSet(r) <==> tx)
  }

  function WithRxTask(s: bv64): (r: bv64)
    ensures Flags(r, true, IsComplete(s), IsClosed(s), IsTxTaskSet(s))
  {
    s | RX_TASK_SET
  }

  function WithoutRxTask(s: bv64): (r: bv64)
    ensures Flags(r, false, IsComplete(s), IsClosed(s), IsTxTaskSet(s))
  {
    s & !RX_TASK_SET
  }

  function WithTxTask(s: bv64): (r: bv64)
    ensures Flags(r, IsRxTaskSet(s), IsComplete(s), IsClosed(s), true)
  {
    s | TX_TASK_SET
  }

  function WithoutTxTask(s: bv64): (r: bv64)
    ensures Flags(r, IsRxTaskSet(s), IsComplete(s), IsClosed(s), false)
  {
    s & !TX_TASK_SET
  }

  function WithComplete(s: bv64): (r: bv64)
    ensures Flags(r, IsRxTaskSet(s), true, IsClosed(s), IsTxTaskSet(s))
  {
    s | VALUE_SENT
  }

  function WithClosed(s: bv64): (r: bv64)
    ensures Flags(r, IsRxTaskSet(s), IsComplete(s), true, IsTxTaskSet(s))
  {
    s | CLOSED
  }

  lemma NoFlags()
    ensures Flags(0, false, false, false, false)
  {
  }

  /** Memory for one waker; None while it is uninitialised. */
  class Task {
    var memory: Option<Waker>

    constructor ()
      ensures memory == None
    {
      memory := None;
    }

    /** Only initialised memory may be read. */
    method WillWake(cx: Waker) returns (b: bool)
      requires memory.Some?
      ensures b <==> Spec.Suits(memory, cx)
    {
      b := memory.value.WillWake(cx);
    }

    method WakeByRef() returns (woken: seq<Waker>)
      requires memory.Some?
      ensures woken == ToSeq(memory)
    {
      woken := [memory.value];
    }

    /** Drops the waker in place, so the memory must not be used until it is written again. */
    method DropTask() returns (released: seq<Waker>)
      requires memory.Some?
      modifies this
      ensures memory == None && released == ToSeq(old(memory))
    {
      released := [memory.value];
      memory := None;
    }

    /** Writes without dropping what is there, so nothing may be there. */
    method SetTask(cx: Waker) returns (cloned: seq<Waker>)
      requires memory == None
      modifies this
      ensures memory == Some(cx) && cloned == [cx]
    {
      memory := Some(cx);
      cloned := [cx];
    }
  }

  class Inner<T> {
    var state: bv64
    var value: Option<T>
    const txTask: Task
    const rxTask: Task
    /** How many handles point here. */
    var handles: nat
    ghost var tx: bool
    ghost var rx: bool
    ghost var rxAlive: bool

    ghost function View(): Spec.Chan<T>
      reads this, txTask, rxTask
    {
      Spec.Chan(IsComplete(state), IsClosed(state), value, rxTask.memory, txTask.memory, tx, rx, rxAlive)
    }

    /** A slot holds a waker exactly if its flag is set. */
    ghost predicate SlotsMatch()
      reads this`state, txTask, rxTask
    {
      && (IsRxTaskSet(state) <==> rxTask.memory.Some?)
      && (IsTxTaskSet(state) <==> txTask.memory.Some?)
    }

    ghost predicate Counted()
      reads this`handles, this`tx, this`rx
    {
      handles == (if tx then 1 else 0) + if rx then 1 else 0
    }

    ghost predicate Valid()
      reads this, txTask, rxTask
    {
      && rxTask != txTask
      && Counted()
      && (handles > 0 ==> SlotsMatch())
      && Spec.Inv(View())
    }

    constructor ()
      ensures Valid() && View() == Spec.Init() && fresh(rxTask) && fresh(txTask)
    {
      hide Flags, IsComplete, IsClosed, IsRxTaskSet, IsTxTaskSet;
      state, value := 0, None;
      rxTask := new Task();
      txTask := new Task();
      handles := 2;
      tx, rx, rxAlive := true, true, true;
      new;
      NoFlags();
    }

    /** `complete`: false, and nobody woken, if the receiver has closed the channel. */
    method Complete() returns (ok: bool, woken: seq<Waker>)
      requires SlotsMatch()
      modifies this`state
      ensures SlotsMatch() && state == WithComplete(old(state))
      ensures ok <==> !IsClosed(old(state))
      ensures woken == if ok then ToSeq(rxTask.memory) else []
    {
      hide IsComplete, IsClosed, IsRxTaskSet, IsTxTaskSet, WithComplete;
      state := WithComplete(state);
      if IsClosed(state) {
        return false, [];
      }
      ok, woken := true, [];
      if IsRxTaskSet(state) {
        woken := rxTask.WakeByRef();
      }
    }

    method ConsumeValue() returns (o: Option<T>)
      modifies this`value
      ensures o == old(value) && value == None
    {
      o := value;
      value := None;
    }

    /** `close`: the sender is woken if it waits and has not ended. */
    method Close() returns (woken: seq<Waker>)
      requires SlotsMatch()
      modifies this`state
      ensures SlotsMatch() && state == WithClosed(old(state))
      ensures woken == if IsComplete(state) then [] else ToSeq(txTask.memory)
    {
      hide IsComplete, IsClosed, IsRxTaskSet, IsTxTaskSet, WithClosed;
      state := WithClosed(state);
      woken := [];
      if IsTxTaskSet(state) && !IsComplete(state) {
        woken := txTask.WakeByRef();
      }
    }

    /**
     * Registers the receiver's task on an open channel. The two checks for a value that
     * arrived in the meantime, left over from the multi-threaded original, never succeed.
     */
    method RegisterRx(cx: Waker) returns (churn: Spec.Churn)
      requires SlotsMatch() && rxTask != txTask && !IsComplete(state) && !IsClosed(state)
      modifies this`state, rxTask
      ensures SlotsMatch() && !IsComplete(state) && !IsClosed(state)
      ensures if Spec.Suits(old(rxTask.memory), cx) then rxTask.memory == old(rxTask.memory) && churn == Spec.STILL
              else rxTask.memory == Some(cx) && churn == Spec.Churn([cx], ToSeq(old(rxTask.memory)))
    {
      hide IsComplete, IsClosed, IsRxTaskSet, IsTxTaskSet, WithRxTask, WithoutRxTask;
      var cloned, released := [], [];
      var s := state;
      if IsRxTaskSet(s) {
        var willNotify := rxTask.WillWake(cx);
        if !willNotify {
          state := WithoutRxTask(state);
          s := state;
          if IsComplete(s) {
            assert false;
          }
          released := rxTask.DropTask();
        }
      }
      if !IsRxTaskSet(s) {
        cloned := rxTask.SetTask(cx);
        state := WithRxTask(state);
        if IsComplete(state) {
          assert false;
        }
      }
      churn := Spec.Churn(cloned, released);
    }

    /** The same for a sender that waits for the channel to close. */
    method RegisterTx(cx: Waker) returns (churn: Spec.Churn)
      requires SlotsMatch() && rxTask != txTask && !IsClosed(state)
      modifies this`state, txTask
      ensures SlotsMatch() && !IsClosed(state) && (IsComplete(state) <==> IsComplete(old(state)))
      ensures if Spec.Suits(old(txTask.memory), cx) then txTask.memory == old(txTask.memory) && churn == Spec.STILL
              else txTask.memory == Some(cx) && churn == Spec.Churn([cx], ToSeq(old(txTask.memory)))
    {
      hide IsComplete, IsClosed, IsRxTaskSet, IsTxTaskSet, WithTxTask, WithoutTxTask;
      var cloned, released := [], [];
      var s := state;
      if IsTxTaskSet(s) {
        var willNotify := txTask.WillWake(cx);
        if !willNotify {
          state := WithoutTxTask(state);
          s := state;
          if IsClosed(s) {
            assert false;
          }
          released := txTask.DropTask();
        }
      }
      if !IsTxTaskSet(s) {
        cloned := txTask.SetTask(cx);
        state := WithTxTask(state);
        if IsClosed(state) {
          assert false;
        }
      }
      churn := Spec.Churn(cloned, released);
    }

    /** What is left once the handle of one side is gone. */
    ghost function Without(sender: bool): Spec.Chan<T>
      reads this, txTask, rxTask
    {
      Spec.Chan(IsComplete(state), IsClosed(state), value, rxTask.memory, txTask.memory,
                tx && !sender, rx && sender, rxAlive)
    }

    /** A handle is dropped; the last one takes the stored wakers and an untaken value along. */
    method LetGo(ghost sender: bool, ghost out: Spec.Out<T>, ghost woken: seq<Waker>)
      returns (rxFreed: seq<Waker>, txFreed: seq<Waker>, dropped: seq<T>)
      requires rxTask != txTask && Counted() && SlotsMatch() && if sender then tx else rx
      modifies this`handles, this`tx, this`rx, this`value, rxTask, txTask
      ensures Counted() && (handles > 0 ==> SlotsMatch())
      ensures (tx <==> old(tx) && !sender) && (rx <==> old(rx) && sender)
      ensures Spec.Release(old(Without(sender)), out, woken)
        == Spec.Effect(View(), out, woken, Spec.Churn([], rxFreed), Spec.Churn([], txFreed), dropped)
    {
      hide IsComplete, IsClosed, IsRxTaskSet, IsTxTaskSet;
      rxFreed, txFreed, dropped := [], [], [];
      handles := handles - 1;
      if sender {
        tx := false;
      } else {
        rx := false;
      }
      if handles == 0 {
        rxFreed, txFreed := Drop();
        dropped := ToSeq(value);
        value := None;
      }
    }

    /** The destructor drops exactly the wakers that are there. */
    method Drop() returns (rxFreed: seq<Waker>, txFreed: seq<Waker>)
      requires rxTask != txTask && SlotsMatch()
      modifies rxTask, txTask
      ensures rxTask.memory == None && txTask.memory == None
      ensures rxFreed == ToSeq(old(rxTask.memory)) && txFreed == ToSeq(old(txTask.memory))
    {
      hide IsRxTaskSet, IsTxTaskSet;
      rxFreed, txFreed := [], [];
      if IsRxTaskSet(state) {
        rxFreed := rxTask.DropTask();
      }
      if IsTxTaskSet(state) {
        txFreed := txTask.DropTask();
      }
    }
  }

  class Sender<T> {
    /** Null once `send` has taken it. */
    var inner: Inner?<T>
    ghost const chan: Inner<T>

    ghost predicate Valid()
      reads this, chan, chan.txTask, chan.rxTask
    {
      chan.Valid() && (inner != null <==> chan.tx) && (inner != null ==> inner == chan)
    }

    constructor (i: Inner<T>)
      ensures inner == chan == i
    {
      inner, chan := i, i;
    }

    /** Sends, and consumes the sender; a refused value comes back. */
    method Send(v: T) returns (out: Spec.Out<T>, woken: seq<Waker>, rxFreed: seq<Waker>, txFreed: seq<Waker>,
        dropped: seq<T>)
      requires Valid() && chan.tx
      modifies this, chan`state, chan`value, chan`handles, chan`tx, chan`rx, chan.rxTask, chan.txTask
      ensures Valid() && (chan.rx <==> old(chan.rx))
      ensures Spec.Step(old(chan.View()), Spec.Send(v))
        == Spec.Effect(chan.View(), out, woken, Spec.Churn([], rxFreed), Spec.Churn([], txFreed), dropped)
    {
      hide IsComplete, IsClosed, IsRxTaskSet, IsTxTaskSet, WithComplete, Spec.Release;
      Spec.StepKeeps(chan.View(), Spec.Send(v));
      var i := inner;
      inner := null;
      assert i.value == None;
      i.value := Some(v);
      var ok;
      ok, woken := i.Complete();
      out := Spec.SentOk;
      if !ok {
        var back := i.ConsumeValue();
        out := Spec.Returned(back.value);
      }
      rxFreed, txFreed, dropped := i.LetGo(true, out, woken);
    }

    /** Dropping a sender that has not sent. */
    method Drop() returns (woken: seq<Waker>, rxFreed: seq<Waker>, txFreed: seq<Waker>, dropped: seq<T>)
      requires Valid() && chan.tx
      modifies this, chan`state, chan`value, chan`handles, chan`tx, chan`rx, chan.rxTask, chan.txTask
      ensures Valid() && (chan.rx <==> old(chan.rx))
      ensures Spec.Step(old(chan.View()), Spec.DropTx)
        == Spec.Effect(chan.View(), Spec.Done, woken, Spec.Churn([], rxFreed), Spec.Churn([], txFreed), dropped)
    {
      hide IsComplete, IsClosed, IsRxTaskSet, IsTxTaskSet, WithComplete, Spec.Release;
      Spec.StepKeeps(chan.View(), Spec.DropTx);
      var ok;
      ok, woken := inner.Complete();
      rxFreed, txFreed, dropped := inner.LetGo(true, Spec.Done, woken);
      inner := null;
    }

    method PollClosed(cx: Waker) returns (out: Spec.Out<T>, churn: Spec.Churn)
      requires Valid() && chan.tx
      modifies chan`state, chan.txTask
      ensures Valid()
      ensures Spec.Step(old(chan.View()), Spec.PollClosed(cx))
        == Spec.Effect(chan.View(), out, [], Spec.STILL, churn, [])
    {
      hide IsComplete, IsClosed, IsRxTaskSet, IsTxTaskSet;
      if IsClosed(inner.state) {
        return Spec.HungUp, Spec.STILL;
      }
      churn := inner.RegisterTx(cx);
      out := Spec.StillOpen;
    }
  }

  class Receiver<T> {
    /** Null once the channel has answered for good. */
    var inner: Inner?<T>
    ghost const chan: Inner<T>

    ghost predicate Valid()
      reads this, chan, chan.txTask, chan.rxTask
    {
      chan.Valid() && (inner != null <==> chan.rx) && (inner != null ==> inner == chan)
    }

    constructor (i: Inner<T>)
      ensures inner == chan == i
    {
      inner, chan := i, i;
    }

    method Close() returns (woken: seq<Waker>)
      requires Valid() && chan.rxAlive
      modifies chan`state
      ensures Valid()
      ensures Spec.Step(old(chan.View()), Spec.Close) == Spec.Only(chan.View(), Spec.Done, woken)
    {
      hide IsComplete, IsClosed, IsRxTaskSet, IsTxTaskSet, WithClosed;
      woken := [];
      if inner != null {
        woken := inner.Close();
      }
    }

    /** Answers for good whenever there can be no better answer, and then lets go of the channel. */
    method TryRecv() returns (out: Spec.Out<T>, rxFreed: seq<Waker>, txFreed: seq<Waker>, dropped: seq<T>)
      requires Valid() && chan.rxAlive
      modifies this, chan`value, chan`handles, chan`tx, chan`rx, chan.rxTask, chan.txTask
      ensures Valid() && (chan.tx <==> old(chan.tx))
      ensures Spec.Step(old(chan.View()), Spec.TryRecv)
        == Spec.Effect(chan.View(), out, [], Spec.Churn([], rxFreed), Spec.Churn([], txFreed), dropped)
    {
      hide IsComplete, IsClosed, IsRxTaskSet, IsTxTaskSet, Spec.Release;
      Spec.StepKeeps(chan.View(), Spec.TryRecv);
      if inner == null {
        return Spec.Failed, [], [], [];
      }
      if IsComplete(inner.state) {
        var taken := inner.ConsumeValue();
        out := if taken.Some? then Spec.Received(taken.value) else Spec.Failed;
      } else if IsClosed(inner.state) {
        out := Spec.Failed;
      } else {
        return Spec.Empty, [], [], [];
      }
      rxFreed, txFreed, dropped := inner.LetGo(false, out, []);
      inner := null;
    }

    /** Polling for the value. An error leaves the receiver holding on to the channel. */
    method Poll(cx: Waker) returns (out: Spec.Out<T>, churn: Spec.Churn, rxFreed: seq<Waker>, txFreed: seq<Waker>,
        dropped: seq<T>)
      requires Valid() && chan.rx
      modifies this, chan`state, chan`value, chan`handles, chan`tx, chan`rx, chan.rxTask, chan.txTask
      ensures Valid() && (chan.tx <==> old(chan.tx))
      ensures Spec.Step(old(chan.View()), Spec.PollRx(cx)) == Spec.Effect(chan.View(), out, [],
        Spec.Churn(churn.cloned, churn.released + rxFreed), Spec.Churn([], txFreed), dropped)
    {
      hide IsComplete, IsClosed, IsRxTaskSet, IsTxTaskSet, Spec.Release;
      Spec.StepKeeps(chan.View(), Spec.PollRx(cx));
      churn, rxFreed, txFreed, dropped := Spec.STILL, [], [], [];
      if IsComplete(inner.state) {
        var taken := inner.ConsumeValue();
        if taken == None {
          return Spec.Failed, churn, [], [], [];
        }
        out := Spec.Received(taken.value);
        rxFreed, txFreed, dropped := inner.LetGo(false, out, []);
        inner := null;
        assert [] + rxFreed == rxFreed;
      } else if IsClosed(inner.state) {
        out := Spec.Failed;
      } else {
        churn := inner.RegisterRx(cx);
        out := Spec.RecvPending;
        assert churn.released + [] == churn.released;
      }
    }

    method Drop() returns (woken: seq<Waker>, rxFreed: seq<Waker>, txFreed: seq<Waker>, dropped: seq<T>)
      requires Valid() && chan.rxAlive
      modifies this, chan`state, chan`value, chan`handles, chan`tx, chan`rx, chan`rxAlive, chan.rxTask, chan.txTask
      ensures Valid() && (chan.tx <==> old(chan.tx))
      ensures Spec.Step(old(chan.View()), Spec.DropRx)
        == Spec.Effect(chan.View(), Spec.Done, woken, Spec.Churn([], rxFreed), Spec.Churn([], txFreed), dropped)
    {
      hide IsComplete, IsClosed, IsRxTaskSet, IsTxTaskSet, WithClosed, Spec.Release;
      Spec.StepKeeps(chan.View(), Spec.DropRx);
      woken, rxFreed, txFreed, dropped := [], [], [], [];
      chan.rxAlive := false;
      if inner != null {
        woken := inner.Close();
        rxFreed, txFreed, dropped := inner.LetGo(false, Spec.Done, woken);
        inner := null;
      }
    }
  }

  /** `channel`: both handles point at one fresh channel. */
  method Channel<T>() returns (tx: Sender<T>, rx: Receiver<T>)
    ensures fresh(tx) && fresh(rx) && rx.chan == tx.chan
    ensures fresh(tx.chan) && fresh(tx.chan.rxTask) && fresh(tx.chan.txTask)
    ensures tx.Valid() && rx.Valid() && tx.chan.View() == Spec.Init()
  {
    var inner := new Inner<T>();
    tx := new Sender(inner);
    rx := new Receiver(inner);
  }
}
