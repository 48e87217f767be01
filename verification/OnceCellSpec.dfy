/** The once cell as a state machine: a one-permit semaphore guarding a value. */
module OnceCellSpec {
  import opened Base
  import opened WakeLists
  import Sem = SemaphoreSpec

  /**
   * The futures of `sem` are the calls of `get_or_init` waiting for the permit; `running`
   * are those that hold it, their own initialiser under way.
   */
  datatype Cell<Id(==), T> = Cell(sem: Sem.State<Id>, value: Option<T>, isSet: bool, running: set<Id>)

  datatype Op<Id(==), T> =
    | Set(v: T)
    | Begin(id: Id)
    | Poll(id: Id, w: Waker)
    | Finish(id: Id, v: T)
    | Abort(id: Id)
    | Cancel(id: Id)
    | Take

  datatype Out<T> = Done | AlreadyInitialized | Initializing | Waiting | Started | Value(v: T) | Taken(o: Option<T>)

  datatype Effect<Id(==), T> = Effect(c: Cell<Id, T>, out: Out<T>, woken: seq<Waker>)

  ghost function New<Id, T>(): Cell<Id, T> {
    Cell(Sem.Init(1), None, false, {})
  }

  /** `From<T>`: no permit was ever there, and the semaphore is closed from the start. */
  ghost function From<Id, T>(v: T): Cell<Id, T> {
    Cell(Sem.Close<Id>(Sem.Init(0)).0, Some(v), true, {})
  }

  /** A call in progress borrows the cell, so it can only be taken when there is none. */
  ghost predicate Enabled<Id, T>(c: Cell<Id, T>, op: Op<Id, T>) {
    match op
    case Set(v) => true
    case Begin(id) => id !in c.sem.futs && id !in c.running
    case Poll(id, w) => id in c.sem.futs
    case Finish(id, v) => id in c.running
    case Abort(id) => id in c.running
    case Cancel(id) => id in c.sem.futs
    case Take => c.sem.futs == map[] && c.running == {}
  }

  // ----- what is always true

  ghost predicate Calls<Id, T>(c: Cell<Id, T>) {
    && (forall id | id in c.sem.futs :: c.sem.futs[id].num == 1 && !c.sem.futs[id].done)
    && c.running !! c.sem.futs.Keys
  }

  /** The semaphore is closed exactly when there is a value, and the one permit is never duplicated. */
  ghost predicate Protocol<Id, T>(c: Cell<Id, T>) {
    && (c.isSet <==> c.value.Some?)
    && (c.isSet <==> c.sem.closed)
    && Sem.Owned(c.sem) + |c.running| == if c.isSet then 0 else 1
  }

  ghost predicate Inv<Id, T>(c: Cell<Id, T>) {
    Sem.Inv(c.sem) && Calls(c) && Protocol(c)
  }

  // ----- the calls

  /** `set_value`: write, raise the flag, close the semaphore, forget the permit. */
  ghost function SetValue<Id, T>(c: Cell<Id, T>, v: T): Effect<Id, T>
    requires Sem.Inv(c.sem)
  {
    var (t, ws) := Sem.Close(c.sem);
    Effect(Cell(t, Some(v), true, c.running), Done, ws)
  }

  ghost function SetStep<Id, T>(c: Cell<Id, T>, v: T): Effect<Id, T>
    requires Sem.Inv(c.sem)
  {
    Sem.TryAcquireKeeps(c.sem, 1);
    if c.isSet then Effect(c, AlreadyInitialized, [])
    else
      var (t, r) := Sem.TryAcquire(c.sem, 1);
      match r
      case Granted => SetValue(Cell(t, c.value, c.isSet, c.running), v)
      case NoPermits => Effect(c, Initializing, [])
      case IsClosed => Effect(c, AlreadyInitialized, [])
  }

  /** The await is over either way, so the `Acquire` is dropped at once. */
  ghost function PollStep<Id, T>(c: Cell<Id, T>, id: Id, w: Waker): Effect<Id, T>
    requires Inv(c) && id in c.sem.futs
  {
    Sem.PollKeeps(c.sem, id, w);
    var (t, r) := Sem.Poll(c.sem, id, w);
    if r.Pending? then Effect(Cell(t, c.value, c.isSet, c.running), Waiting, [])
    else
      var (d, ws) := Sem.Drop(t, id);
      if r.Acquired? then Effect(Cell(d, c.value, c.isSet, c.running + {id}), Started, WakeOrder(ws))
      else Effect(Cell(d, c.value, c.isSet, c.running), Value(c.value.value), WakeOrder(ws))
  }

  /** The initialiser failed or was dropped, and its permit with it. */
  ghost function AbortStep<Id, T>(c: Cell<Id, T>, id: Id): Effect<Id, T>
    requires Sem.Inv(c.sem)
  {
    var (t, ws) := Sem.Distribute(c.sem, 1);
    Effect(Cell(t, c.value, c.isSet, c.running - {id}), Done, WakeOrder(ws))
  }

  ghost function CancelStep<Id, T>(c: Cell<Id, T>, id: Id): Effect<Id, T>
    requires Sem.Inv(c.sem) && id in c.sem.futs
  {
    var (t, ws) := Sem.Drop(c.sem, id);
    Effect(Cell(t, c.value, c.isSet, c.running), Done, WakeOrder(ws))
  }

  ghost function Step<Id, T>(c: Cell<Id, T>, op: Op<Id, T>): Effect<Id, T>
    requires Inv(c) && Enabled(c, op)
  {
    match op
    case Set(v) => SetStep(c, v)
    case Begin(id) =>
      if c.isSet then Effect(c, Value(c.value.value), [])
      else Effect(Cell(Sem.Create(c.sem, id, 1), c.value, c.isSet, c.running), Waiting, [])
    case Poll(id, w) => PollStep(c, id, w)
    case Finish(id, v) => SetValue(Cell(c.sem, c.value, c.isSet, c.running - {id}), v)
    case Abort(id) => AbortStep(c, id)
    case Cancel(id) => CancelStep(c, id)
    case Take => Effect(New(), Taken(c.value), [])
  }

  // ----- what every call keeps

  lemma NewHolds<Id, T>()
    ensures Inv(New<Id, T>())
  {
    Sem.InitKeeps<Id>(1);
  }

  lemma FromHolds<Id, T>(v: T)
    ensures Inv(From<Id, T>(v)) && From<Id, T>(v).value == Some(v)
  {
    Sem.InitKeeps<Id>(0);
    Sem.CloseKeeps(Sem.Init<Id>(0));
  }

  lemma SetKeeps<Id, T>(c: Cell<Id, T>, v: T)
    requires Inv(c)
    ensures Inv(SetStep(c, v).c)
  {
    hide Sem.Inv, Sem.Owned;
    Sem.TryAcquireKeeps(c.sem, 1);
    Sem.CloseKeeps(Sem.TryAcquire(c.sem, 1).0);
  }

  lemma PollKeeps<Id, T>(c: Cell<Id, T>, id: Id, w: Waker)
    requires Inv(c) && id in c.sem.futs
    ensures Inv(PollStep(c, id, w).c)
  {
    hide Sem.Inv, Sem.Owned, Sem.Drop;
    Sem.PollKeeps(c.sem, id, w);
    var (t, r) := Sem.Poll(c.sem, id, w);
    Sem.DropKeeps(t, id);
    Sem.DropFrame(t, id);
  }

  lemma FinishKeeps<Id, T>(c: Cell<Id, T>, id: Id, v: T)
    requires Inv(c) && id in c.running
    ensures Inv(Step(c, Finish(id, v)).c)
  {
    hide Sem.Inv, Sem.Owned;
    Sem.CloseKeeps(c.sem);
    assert |c.running - {id}| == |c.running| - 1;
  }

  lemma AbortKeeps<Id, T>(c: Cell<Id, T>, id: Id)
    requires Inv(c) && id in c.running
    ensures Inv(AbortStep(c, id).c)
  {
    hide Sem.Inv, Sem.Owned;
    Sem.InvLists(c.sem);
    Sem.DistributeKeeps(c.sem, 1);
    Sem.DistributeFrame(c.sem, 1);
    assert |c.running - {id}| == |c.running| - 1;
  }

  lemma CancelKeeps<Id, T>(c: Cell<Id, T>, id: Id)
    requires Inv(c) && id in c.sem.futs
    ensures Inv(CancelStep(c, id).c)
  {
    hide Sem.Inv, Sem.Owned, Sem.Drop;
    Sem.DropKeeps(c.sem, id);
    Sem.DropFrame(c.sem, id);
  }

  lemma StepKeeps<Id, T>(c: Cell<Id, T>, op: Op<Id, T>)
    requires Inv(c) && Enabled(c, op)
    ensures Inv(Step(c, op).c)
  {
    hide Sem.Inv, Sem.Owned, SetStep, PollStep, AbortStep, CancelStep;
    match op
    case Set(v) => SetKeeps(c, v);
    case Begin(id) => Sem.CreateKeeps(c.sem, id, 1);
    case Poll(id, w) => PollKeeps(c, id, w);
    case Finish(id, v) => FinishKeeps(c, id, v);
    case Abort(id) => AbortKeeps(c, id);
    case Cancel(id) => CancelKeeps(c, id);
    case Take => NewHolds<Id, T>();
  }
}
