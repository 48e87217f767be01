/** The bounded channel as a state machine: the semaphore's state, the queued values and the receiver's waker. */
module ChannelSpec {
  import opened Base
  import opened WakeLists
  import Sem = SemaphoreSpec

  /**
   * `sends` holds the value of every `send` call that is still waiting; its future in `sem`
   * has the same name. `txs` counts the senders.
   */
  datatype Chan<Id(==), T> = Chan(
    sem: Sem.State<Id>,
    queue: seq<T>,
    rxWaker: Option<Waker>,
    txs: nat,
    sends: map<Id, T>,
    rxAlive: bool)

  datatype Op<Id(==), T> =
    | StartSend(id: Id, v: T)
    | PollSend(id: Id, w: Waker)
    | CancelSend(id: Id)
    | CloneTx
    | DropTx
    | TryRecv
    | Recv(w: Waker)
    | CloseRx
    | DropRx

  /** What a call returns. */
  datatype Out<T> = Done | SendPending | Sent | RxClosed | Got(v: T) | Empty | Disconnected | RecvPending | Ended

  datatype Effect<Id(==), T> = Effect(c: Chan<Id, T>, out: Out<T>, woken: seq<Waker>)

  ghost function Init<Id, T>(buffer: nat): Chan<Id, T> {
    Chan(Sem.Init(buffer), [], None, 1, map[], true)
  }

  /** A pending `send` borrows its sender, so the last one cannot go while a `send` waits. */
  ghost predicate Enabled<Id, T>(c: Chan<Id, T>, op: Op<Id, T>) {
    match op
    case StartSend(id, v) => id !in c.sem.futs && 0 < c.txs
    case PollSend(id, w) => id in c.sends
    case CancelSend(id) => id in c.sends
    case CloneTx => 0 < c.txs
    case DropTx => 0 < c.txs && (c.txs == 1 ==> c.sends == map[])
    case TryRecv => c.rxAlive
    case Recv(w) => c.rxAlive
    case CloseRx => c.rxAlive
    case DropRx => c.rxAlive
  }

  // ----- what is always true

  ghost predicate Waiting<Id, T>(c: Chan<Id, T>) {
    && c.sends.Keys == c.sem.futs.Keys
    && forall id | id in c.sem.futs :: c.sem.futs[id].num == 1 && !c.sem.futs[id].done
  }

  /** Permits free, permits promised to waiting senders and queued values make up the capacity. */
  ghost predicate Ledger<Id, T>(c: Chan<Id, T>, cap: nat) {
    Sem.Owned(c.sem) + |c.queue| == cap <= Sem.MAX_PERMITS
  }

  ghost predicate Ends<Id, T>(c: Chan<Id, T>) {
    && (c.rxWaker.Some? ==> c.queue == [] && 0 < c.txs)
    && (!c.rxAlive ==> c.queue == [] && c.sem.closed)
    && (c.txs == 0 ==> c.sends == map[] && c.sem.closed)
  }

  ghost predicate Inv<Id, T>(c: Chan<Id, T>, cap: nat) {
    Sem.Inv(c.sem) && Waiting(c) && Ledger(c, cap) && Ends(c)
  }

  // ----- the calls

  /** `chan::Tx::send`: refused once the semaphore is closed, otherwise queued; wakes the receiver. */
  ghost function Push<Id, T>(c: Chan<Id, T>, v: T): Effect<Id, T> {
    if c.sem.closed then Effect(c, RxClosed, [])
    else Effect(Chan(c.sem, c.queue + [v], None, c.txs, c.sends, c.rxAlive), Sent, ToSeq(c.rxWaker))
  }

  /** The awaited `Acquire` is gone, and with it the captured value. */
  ghost function Finish<Id, T>(c: Chan<Id, T>, sem: Sem.State<Id>, id: Id): (r: (Chan<Id, T>, seq<Waker>))
    requires Sem.Inv(sem) && id in sem.futs
  {
    var (t, ws) := Sem.Drop(sem, id);
    (Chan(t, c.queue, c.rxWaker, c.txs, c.sends - {id}, c.rxAlive), WakeOrder(ws))
  }

  ghost function WithSem<Id, T>(c: Chan<Id, T>, sem: Sem.State<Id>): Chan<Id, T> {
    Chan(sem, c.queue, c.rxWaker, c.txs, c.sends, c.rxAlive)
  }

  /** The rest of a `send` whose await is over, with a permit or with an error. */
  ghost function Resumed<Id, T>(c: Chan<Id, T>, id: Id, acquired: bool): Effect<Id, T>
    requires Sem.Inv(c.sem) && id in c.sem.futs && id in c.sends
  {
    var (d, ws) := Finish(c, c.sem, id);
    if !acquired then Effect(d, RxClosed, ws)
    else
      var e := Push(d, c.sends[id]);
      Effect(e.c, e.out, ws + e.woken)
  }

  ghost function PollSendStep<Id, T>(c: Chan<Id, T>, id: Id, w: Waker): Effect<Id, T>
    requires Sem.Inv(c.sem) && Waiting(c) && id in c.sends
  {
    Sem.PollKeeps(c.sem, id, w);
    var (t, r) := Sem.Poll(c.sem, id, w);
    if r.Pending? then Effect(WithSem(c, t), SendPending, []) else Resumed(WithSem(c, t), id, r.Acquired?)
  }

  /** Receiving from a queue that is not empty frees one permit. */
  ghost function Take<Id, T>(c: Chan<Id, T>): Effect<Id, T>
    requires Sem.Inv(c.sem) && c.queue != []
  {
    var (t, ws) := Sem.Distribute(c.sem, 1);
    Effect(Chan(t, c.queue[1..], c.rxWaker, c.txs, c.sends, c.rxAlive), Got(c.queue[0]), WakeOrder(ws))
  }

  ghost function CloseStep<Id, T>(c: Chan<Id, T>): Effect<Id, T>
    requires Sem.Inv(c.sem)
  {
    var (t, ws) := Sem.Close(c.sem);
    Effect(Chan(t, c.queue, c.rxWaker, c.txs, c.sends, c.rxAlive), Done, ws)
  }

  /** The last sender closes the semaphore and wakes the receiver. */
  ghost function DropTxStep<Id, T>(c: Chan<Id, T>): Effect<Id, T>
    requires Sem.Inv(c.sem) && 0 < c.txs
  {
    if c.txs == 1 then
      var e := CloseStep(c);
      Effect(Chan(e.c.sem, c.queue, None, 0, c.sends, c.rxAlive), Done, e.woken + ToSeq(c.rxWaker))
    else Effect(Chan(c.sem, c.queue, c.rxWaker, c.txs - 1, c.sends, c.rxAlive), Done, [])
  }

  /** The receiver closes the semaphore, throws the queued values away and returns their permits. */
  ghost function DropRxStep<Id, T>(c: Chan<Id, T>): Effect<Id, T>
    requires Sem.Inv(c.sem)
  {
    Sem.CloseKeeps(c.sem);
    var (t, ws) := Sem.Close(c.sem);
    var (u, vs) := Sem.Distribute(t, |c.queue|);
    Effect(Chan(u, [], c.rxWaker, c.txs, c.sends, false), Done, ws + WakeOrder(vs))
  }

  ghost function Step<Id, T>(c: Chan<Id, T>, op: Op<Id, T>): Effect<Id, T>
    requires Sem.Inv(c.sem) && Waiting(c) && Enabled(c, op)
  {
    match op
    case StartSend(id, v) =>
      Effect(Chan(Sem.Create(c.sem, id, 1), c.queue, c.rxWaker, c.txs, c.sends[id := v], c.rxAlive), Done, [])
    case PollSend(id, w) => PollSendStep(c, id, w)
    case CancelSend(id) => var (d, ws) := Finish(c, c.sem, id); Effect(d, Done, ws)
    case CloneTx => Effect(Chan(c.sem, c.queue, c.rxWaker, c.txs + 1, c.sends, c.rxAlive), Done, [])
    case DropTx => DropTxStep(c)
    case TryRecv =>
      if c.queue != [] then Take(c)
      else Effect(c, if c.txs == 0 then Disconnected else Empty, [])
    case Recv(w) =>
      if c.queue != [] then Take(c)
      else if c.txs == 0 then Effect(c, Ended, [])
      else
        var waker := Some(Sem.Refresh(c.rxWaker, w).value);
        Effect(Chan(c.sem, c.queue, waker, c.txs, c.sends, c.rxAlive), RecvPending, [])
    case CloseRx => CloseStep(c)
    case DropRx => DropRxStep(c)
  }

  lemma InitHolds<Id, T>(buffer: nat)
    ensures Inv(Init<Id, T>(buffer), buffer % (Sem.MAX_PERMITS + 1))
  {
    Sem.NoCredits<Id>();
  }

  // ----- what every call keeps

  lemma FinishKeeps<Id, T>(c: Chan<Id, T>, sem: Sem.State<Id>, id: Id)
    requires Sem.Inv(sem) && id in sem.futs && c.sends.Keys == sem.futs.Keys
    requires forall x | x in sem.futs && x != id :: sem.futs[x].num == 1 && !sem.futs[x].done
    ensures var d := Finish(c, sem, id).0;
      Sem.Inv(d.sem) && Waiting(d) && Sem.Owned(d.sem) == Sem.Owned(sem) && d.sem.closed == sem.closed
  {
    hide Sem.Inv, Sem.Owned, Sem.Drop;
    Sem.DropKeeps(sem, id);
    Sem.DropFrame(sem, id);
  }

  lemma PollSendKeeps<Id, T>(c: Chan<Id, T>, id: Id, w: Waker, cap: nat)
    requires Inv(c, cap) && id in c.sends
    ensures Inv(PollSendStep(c, id, w).c, cap)
  {
    hide Sem.Inv, Sem.Owned;
    Sem.PollKeeps(c.sem, id, w);
    var (t, r) := Sem.Poll(c.sem, id, w);
    if !r.Pending? {
      FinishKeeps(c, t, id);
    }
  }

  lemma TakeKeeps<Id, T>(c: Chan<Id, T>, cap: nat)
    requires Inv(c, cap) && c.queue != []
    ensures Inv(Take(c).c, cap)
  {
    hide Sem.Inv, Sem.Owned;
    Sem.InvLists(c.sem);
    Sem.DistributeKeeps(c.sem, 1);
    Sem.DistributeFrame(c.sem, 1);
  }

  lemma DropRxKeeps<Id, T>(c: Chan<Id, T>, cap: nat)
    requires Inv(c, cap)
    ensures Inv(DropRxStep(c).c, cap)
  {
    hide Sem.Inv, Sem.Owned;
    Sem.InvLists(c.sem);
    Sem.CloseKeeps(c.sem);
    var t := Sem.Close(c.sem).0;
    Sem.InvLists(t);
    Sem.DistributeKeeps(t, |c.queue|);
    Sem.DistributeFrame(t, |c.queue|);
  }

  lemma CloseStepKeeps<Id, T>(c: Chan<Id, T>, cap: nat)
    requires Inv(c, cap)
    ensures Inv(CloseStep(c).c, cap)
  {
    hide Sem.Inv, Sem.Owned;
    Sem.InvLists(c.sem);
    Sem.CloseKeeps(c.sem);
  }

  lemma StartSendKeeps<Id, T>(c: Chan<Id, T>, id: Id, v: T, cap: nat)
    requires Inv(c, cap) && Enabled(c, StartSend(id, v))
    ensures Inv(Step(c, StartSend(id, v)).c, cap)
  {
    hide Sem.Inv, Sem.Owned;
    Sem.CreateKeeps(c.sem, id, 1);
  }

  lemma CancelKeeps<Id, T>(c: Chan<Id, T>, id: Id, cap: nat)
    requires Inv(c, cap) && id in c.sends
    ensures Inv(Finish(c, c.sem, id).0, cap)
  {
    hide Sem.Inv, Sem.Owned;
    FinishKeeps(c, c.sem, id);
  }

  lemma DropTxKeeps<Id, T>(c: Chan<Id, T>, cap: nat)
    requires Inv(c, cap) && Enabled(c, DropTx)
    ensures Inv(DropTxStep(c).c, cap)
  {
    hide Sem.Inv, Sem.Owned;
    CloseStepKeeps(c, cap);
  }

  lemma StepKeeps<Id, T>(c: Chan<Id, T>, op: Op<Id, T>, cap: nat)
    requires Inv(c, cap) && Enabled(c, op)
    ensures Inv(Step(c, op).c, cap)
  {
    hide Sem.Inv, Sem.Owned, Finish, PollSendStep, Take, CloseStep, DropTxStep, DropRxStep;
    match op
    case StartSend(id, v) => StartSendKeeps(c, id, v, cap);
    case PollSend(id, w) => PollSendKeeps(c, id, w, cap);
    case CancelSend(id) => CancelKeeps(c, id, cap);
    case CloneTx =>
    case DropTx => DropTxKeeps(c, cap);
    case TryRecv => if c.queue != [] { TakeKeeps(c, cap); }
    case Recv(w) => if c.queue != [] { TakeKeeps(c, cap); }
    case CloseRx => CloseStepKeeps(c, cap);
    case DropRx => DropRxKeeps(c, cap);
  }

  /** What polling a waiting `send` can rely on, and where it ends. */
  lemma PollSendMeans<Id, T>(c: Chan<Id, T>, id: Id, w: Waker, cap: nat)
    requires Inv(c, cap) && id in c.sends
    ensures Sem.Inv(c.sem) && Waiting(c) && id in c.sem.futs && Sem.Pollable(c.sem, id)
    ensures Inv(PollSendStep(c, id, w).c, cap)
    ensures var (t, r) := Sem.Poll(c.sem, id, w);
      && Sem.Inv(t) && id in t.futs && Sem.Owned(t) <= Sem.Owned(c.sem) <= Sem.MAX_PERMITS
      && (r.Acquired? ==> !Finish(WithSem(c, t), t, id).0.sem.closed)
      && PollSendStep(c, id, w)
         == if r.Pending? then Effect(WithSem(c, t), SendPending, []) else Resumed(WithSem(c, t), id, r.Acquired?)
  {
    hide Sem.Inv, Sem.Owned;
    PollSendKeeps(c, id, w, cap);
    Sem.PollKeeps(c.sem, id, w);
    FinishKeeps(c, Sem.Poll(c.sem, id, w).0, id);
  }

  lemma PushWhenOpen<Id, T>(c: Chan<Id, T>, v: T)
    requires !c.sem.closed
    ensures Push(c, v).out.Sent?
  {
  }

  lemma InvGives<Id, T>(c: Chan<Id, T>, cap: nat)
    requires Inv(c, cap)
    ensures Sem.Inv(c.sem) && Sem.Listed(c.sem) && Waiting(c) && Ledger(c, cap) && Ends(c)
  {
  }
}
