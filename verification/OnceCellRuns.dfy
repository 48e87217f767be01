/** What the once cell promises its callers, call by call and over whole runs. */
module OnceCellRuns {
  import opened Base
  import opened OnceCellSpec
  import CellLaws = OnceCellLaws
  import Laws = SemaphoreLaws
  import Sem = SemaphoreSpec
  import SemRuns = SemaphoreRuns

  /** A waiting call that has been given the permit and has not been polled since. */
  ghost predicate Granted<Id, T>(c: Cell<Id, T>, id: Id) {
    id in c.sem.futs && c.sem.futs[id].queued && c.sem.futs[id].state == 0
  }

  /** Somebody has the permit: an initialiser, or a waiter about to become one. */
  ghost predicate Busy<Id, T>(c: Cell<Id, T>) {
    c.running != {} || exists id :: id in c.sem.futs && Granted(c, id)
  }

  lemma {:induction false} SumPositive<K>(m: map<K, nat>) returns (k: K)
    requires 0 < Sum(m)
    ensures k in m && 0 < m[k]
    decreases |m|
  {
    var j :| j in m && Sum(m) == m[j] + Sum(m - {j});
    if m[j] > 0 {
      k := j;
    } else {
      k := SumPositive(m - {j});
    }
  }

  /** While the cell is empty the permit is available exactly when nobody has it. */
  lemma PermitAccount<Id, T>(c: Cell<Id, T>)
    requires Inv(c) && !c.isSet
    ensures c.sem.avail == if Busy(c) then 0 else 1
  {
    var m := Sem.CreditMap(c.sem.futs);
    if c.sem.avail == 0 && c.running == {} {
      var id := SumPositive(m);
      assert Granted(c, id);
    }
    if id :| id in c.sem.futs && Granted(c, id) {
      SumRemove(m, id);
    }
  }

  /** At most one initialiser runs, and never once the value is there. */
  lemma OneInitialiser<Id, T>(c: Cell<Id, T>, a: Id, b: Id)
    requires Inv(c) && a in c.running && b in c.running
    ensures a == b && !c.isSet && !Granted(c, a)
    ensures forall id | id in c.sem.futs :: !Granted(c, id)
  {
    assert |c.running - {a}| == |c.running| - 1 <= 0;
    assert c.running <= {a};
    forall id | id in c.sem.futs
      ensures !Granted(c, id)
    {
      if Granted(c, id) {
        SumRemove(Sem.CreditMap(c.sem.futs), id);
      }
    }
  }

  /**
   * What `set` answers means what it says, the answer for a closed semaphore is never
   * needed, and a refused `set` changes nothing.
   */
  lemma SetMeans<Id, T>(c: Cell<Id, T>, v: T)
    requires Inv(c)
    ensures var e := SetStep(c, v);
      && (e.out == AlreadyInitialized <==> c.isSet)
      && (e.out == Initializing <==> !c.isSet && Busy(c))
      && (e.out == Done <==> !c.isSet && !Busy(c))
      && (if e.out == Done then e.c.isSet && e.c.value == Some(v) else e.c == c && e.woken == [])
    ensures !c.isSet ==> !Sem.TryAcquire(c.sem, 1).1.IsClosed?
  {
    if !c.isSet {
      PermitAccount(c);
    }
  }

  /** An initialiser starts only in an empty cell; a call that is told to read finds the value. */
  lemma PollMeans<Id, T>(c: Cell<Id, T>, id: Id, w: Waker)
    requires Inv(c) && id in c.sem.futs
    ensures var e := PollStep(c, id, w);
      && (e.out.Started? ==> !c.isSet && e.c.running == {id} && c.running == {})
      && (c.isSet ==> e.out == Value(c.value.value))
      && (e.out.Value? ==> c.isSet)
      && (e.out.Started? <==> !c.isSet && (Granted(c, id) || (!c.sem.futs[id].queued && !Busy(c))))
  {
    hide Sem.Drop;
    PollKeeps(c, id, w);
    if !c.isSet {
      PermitAccount(c);
      if Granted(c, id) || (!c.sem.futs[id].queued && !Busy(c)) {
        var d := PollStep(c, id, w).c;
        assert id in d.running;
        OnlyOne(d, id);
      }
    }
  }

  lemma OnlyOne<Id, T>(c: Cell<Id, T>, id: Id)
    requires Inv(c) && id in c.running
    ensures c.running == {id}
  {
    forall x | x in c.running
      ensures x == id
    {
      OneInitialiser(c, x, id);
    }
  }

  /**
   * When an initialiser fails or is dropped the oldest waiter gets the permit and is woken;
   * with nobody waiting the permit is available again.
   */
  lemma AbortHandsOver<Id, T>(c: Cell<Id, T>, id: Id)
    requires Inv(c) && id in c.running
    ensures var e := AbortStep(c, id);
      if c.sem.queue == [] then e.c.sem.avail == 1 && e.woken == [] && !Busy(e.c)
      else
        var next := c.sem.queue[0];
        && next in c.sem.futs && c.sem.futs[next].waker.Some? && e.woken == [c.sem.futs[next].waker.value]
        && Granted(e.c, next) && e.c.sem.queue == c.sem.queue[1..] && e.c.sem.avail == 0
  {
    AbortKeeps(c, id);
    OneInitialiser(c, id, id);
    Laws.OnePermitGoes(c.sem);
    PermitAccount(AbortStep(c, id).c);
  }

  /** A waiter that is dropped after it was given the permit passes it on in the same way. */
  lemma CancelHandsOver<Id, T>(c: Cell<Id, T>, id: Id)
    requires Inv(c) && Granted(c, id)
    ensures var e := CancelStep(c, id);
      if c.sem.queue == [] then e.c.sem.avail == c.sem.avail + 1 && e.woken == []
      else
        var next := c.sem.queue[0];
        && next in c.sem.futs && c.sem.futs[next].waker.Some? && e.woken == [c.sem.futs[next].waker.value]
        && Granted(e.c, next) && e.c.sem.queue == c.sem.queue[1..]
  {
    WithoutAbsent(c.sem.queue, id);
    Laws.DropOfOne(c.sem, id);
  }

  /** As long as somebody waits for an empty cell, somebody has the permit. */
  lemma NoStall<Id, T>(c: Cell<Id, T>)
    requires Inv(c) && !c.isSet && c.sem.queue != []
    ensures Busy(c)
  {
    PermitAccount(c);
  }

  // ----- runs

  /**
   * What callers know, from the calls and their answers alone: the value last written and not
   * taken, which calls run their initialiser and which ones wait.
   */
  datatype Books<Id(==), T> = Books(content: Option<T>, running: set<Id>, waiting: set<Id>)

  ghost function Book<Id, T>(b: Books<Id, T>, op: Op<Id, T>, out: Out<T>): Books<Id, T> {
    match op
    case Set(v) => if out.Done? then Books(Some(v), b.running, b.waiting) else b
    case Begin(id) => if out.Waiting? then Books(b.content, b.running, b.waiting + {id}) else b
    case Poll(id, w) =>
      if out.Waiting? then b
      else Books(b.content, if out.Started? then b.running + {id} else b.running, b.waiting - {id})
    case Finish(id, v) => Books(Some(v), b.running - {id}, b.waiting)
    case Abort(id) => Books(b.content, b.running - {id}, b.waiting)
    case Cancel(id) => Books(b.content, b.running, b.waiting - {id})
    case Take => Books(None, b.running, b.waiting)
  }

  ghost predicate BooksAgree<Id, T>(c: Cell<Id, T>, b: Books<Id, T>) {
    c.value == b.content && c.running == b.running && c.sem.futs.Keys == b.waiting
  }

  lemma SetBooks<Id, T>(c: Cell<Id, T>, v: T, b: Books<Id, T>)
    requires Inv(c) && BooksAgree(c, b)
    ensures BooksAgree(SetStep(c, v).c, Book(b, Set(v), SetStep(c, v).out))
  {
    hide Sem.Inv, Sem.Owned, Sem.Close;
    Sem.TryAcquireKeeps(c.sem, 1);
    Sem.CloseKeeps(Sem.TryAcquire(c.sem, 1).0);
  }

  lemma PollBooks<Id, T>(c: Cell<Id, T>, id: Id, w: Waker, b: Books<Id, T>)
    requires Inv(c) && id in c.sem.futs && BooksAgree(c, b)
    ensures BooksAgree(PollStep(c, id, w).c, Book(b, Poll(id, w), PollStep(c, id, w).out))
  {
    hide Sem.Inv, Sem.Owned, Sem.Poll, Sem.Drop;
    Sem.PollKeeps(c.sem, id, w);
    Laws.PollAnswers(c.sem, id, w);
    Sem.DropKeeps(Sem.Poll(c.sem, id, w).0, id);
  }

  lemma BooksKept<Id, T>(c: Cell<Id, T>, op: Op<Id, T>, b: Books<Id, T>)
    requires Inv(c) && Enabled(c, op) && BooksAgree(c, b)
    ensures BooksAgree(Step(c, op).c, Book(b, op, Step(c, op).out))
  {
    hide Sem.Inv, Sem.Owned, Sem.Distribute, Sem.Drop, Sem.Close, SetStep, PollStep;
    match op
    case Set(v) => SetBooks(c, v, b);
    case Begin(id) =>
    case Poll(id, w) => PollBooks(c, id, w, b);
    case Finish(id, v) => Sem.CloseKeeps(c.sem);
    case Abort(id) => Sem.DistributeKeeps(c.sem, 1);
    case Cancel(id) => Sem.DropKeeps(c.sem, id);
    case Take =>
  }

  /**
   * `writes` counts the values written since the cell was last empty; `pend` keeps, for
   * waiting calls whose last poll was Pending, its waker and the length of the log then.
   */
  datatype Sys<Id(==), T> = Sys(
    c: Cell<Id, T>,
    books: Books<Id, T>,
    writes: nat,
    log: seq<Waker>,
    pend: map<Id, (Waker, nat)>)

  ghost function Pend<Id, T>(s: Sys<Id, T>, op: Op<Id, T>, out: Out<T>): map<Id, (Waker, nat)> {
    match op
    case Poll(id, w) => if out.Waiting? then s.pend[id := (w, |s.log|)] else s.pend - {id}
    case Cancel(id) => s.pend - {id}
    case _ => s.pend
  }

  ghost function Writes<Id, T>(s: Sys<Id, T>, op: Op<Id, T>, out: Out<T>): nat {
    match op
    case Set(v) => if out.Done? then s.writes + 1 else s.writes
    case Finish(id, v) => s.writes + 1
    case Take => 0
    case _ => s.writes
  }

  ghost function SysStep<Id, T>(s: Sys<Id, T>, op: Op<Id, T>): Sys<Id, T>
    requires Inv(s.c) && Enabled(s.c, op)
  {
    var e := Step(s.c, op);
    Sys(e.c, Book(s.books, op, e.out), Writes(s, op, e.out), s.log + e.woken, Pend(s, op, e.out))
  }

  ghost predicate SysInv<Id, T>(s: Sys<Id, T>) {
    && Inv(s.c)
    && BooksAgree(s.c, s.books)
    && s.writes == (if s.c.isSet then 1 else 0)
    && SemRuns.NoLostWakeup(s.c.sem, s.log, s.pend)
  }

  /** `new_with`: an empty cell, or one that holds a value from the start. */
  ghost function Start<Id, T>(o: Option<T>): (s: Sys<Id, T>)
    ensures SysInv(s) && s.c.value == o
  {
    NewHolds<Id, T>();
    var books := Books(o, {}, {});
    if o.Some? then FromHolds<Id, T>(o.value); Sys(From(o.value), books, 1, [], map[])
    else Sys(New(), books, 0, [], map[])
  }

  lemma WakesKept<Id, T>(s: Sys<Id, T>, op: Op<Id, T>)
    requires SysInv(s) && Enabled(s.c, op)
    ensures var t := SysStep(s, op); SemRuns.NoLostWakeup(t.c.sem, t.log, t.pend)
  {
    hide Sem.Inv, Sem.Distribute, Sem.Drop, Sem.Close, Sem.Owned;
    var c := s.c;
    assert s.log + [] == s.log;
    match op
    case Set(v) =>
      Sem.TryAcquireKeeps(c.sem, 1);
      SemRuns.CloseWakes(Sem.TryAcquire(c.sem, 1).0, s.log, s.pend);
    case Begin(id) => SemRuns.CreateWakes(c.sem, id, 1, s.log, s.pend);
    case Poll(id, w) => PollCellWakes(c, id, w, s.log, s.pend);
    case Finish(id, v) => SemRuns.CloseWakes(c.sem, s.log, s.pend);
    case Abort(id) => SemRuns.ReleaseWakes(c.sem, 1, s.log, s.pend);
    case Cancel(id) => SemRuns.DropWakes(c.sem, id, s.log, s.pend);
    case Take =>
  }

  lemma PollCellWakes<Id, T>(c: Cell<Id, T>, id: Id, w: Waker, log: seq<Waker>, pend: map<Id, (Waker, nat)>)
    requires Inv(c) && id in c.sem.futs && SemRuns.NoLostWakeup(c.sem, log, pend)
    ensures var e := PollStep(c, id, w);
      SemRuns.NoLostWakeup(e.c.sem, log + e.woken, if e.out.Waiting? then pend[id := (w, |log|)] else pend - {id})
  {
    hide Sem.Inv, Sem.Poll, Sem.Drop, Sem.Owned, SemRuns.NoLostWakeup;
    var (t, r) := Sem.Poll(c.sem, id, w);
    Sem.PollKeeps(c.sem, id, w);
    SemRuns.PollWakes(c.sem, id, w, log, pend);
    if r.Pending? {
      assert log + [] == log;
    } else {
      SemRuns.DropWakes(t, id, log, pend - {id});
      assert pend - {id} - {id} == pend - {id};
    }
  }

  lemma WritesKept<Id, T>(s: Sys<Id, T>, op: Op<Id, T>)
    requires SysInv(s) && Enabled(s.c, op)
    ensures var t := SysStep(s, op); t.writes == if t.c.isSet then 1 else 0
  {
    hide Sem.Inv, Sem.Drop;
    match op
    case Set(v) => SetMeans(s.c, v);
    case Finish(id, v) => OneInitialiser(s.c, id, id);
    case _ =>
  }

  lemma SysKept<Id, T>(s: Sys<Id, T>, op: Op<Id, T>)
    requires SysInv(s) && Enabled(s.c, op)
    ensures SysInv(SysStep(s, op))
  {
    hide Sem.Inv, SemRuns.NoLostWakeup, Step, Writes, Pend, Book, BooksAgree;
    StepKeeps(s.c, op);
    BooksKept(s.c, op, s.books);
    WakesKept(s, op);
    WritesKept(s, op);
  }

  ghost predicate Legal<Id, T>(s: Sys<Id, T>, ops: seq<Op<Id, T>>)
    requires SysInv(s)
    decreases |ops|
  {
    ops == [] || (Enabled(s.c, ops[0]) && (SysKept(s, ops[0]); Legal(SysStep(s, ops[0]), ops[1..])))
  }

  ghost function Run<Id, T>(s: Sys<Id, T>, ops: seq<Op<Id, T>>): Sys<Id, T>
    requires SysInv(s) && Legal(s, ops)
    decreases |ops|
  {
    if ops == [] then s else SysKept(s, ops[0]); Run(SysStep(s, ops[0]), ops[1..])
  }

  lemma {:induction false} RunKeeps<Id, T>(s: Sys<Id, T>, ops: seq<Op<Id, T>>)
    requires SysInv(s) && Legal(s, ops)
    ensures SysInv(Run(s, ops))
    decreases |ops|
  {
    if ops != [] {
      SysKept(s, ops[0]);
      RunKeeps(SysStep(s, ops[0]), ops[1..]);
    }
  }

  /** Once written, the value stays as it is, however the calls go on, until it is taken. */
  lemma {:induction false} ValueStays<Id, T>(s: Sys<Id, T>, ops: seq<Op<Id, T>>)
    requires SysInv(s) && Legal(s, ops) && s.c.isSet
    requires forall i :: 0 <= i < |ops| ==> !ops[i].Take?
    ensures var t := Run(s, ops); t.c.isSet && t.c.value == s.c.value && t.writes == 1
    decreases |ops|
  {
    if ops != [] {
      SysKept(s, ops[0]);
      ValueKept(s.c, ops[0]);
      ValueStays(SysStep(s, ops[0]), ops[1..]);
    }
  }

  lemma ValueKept<Id, T>(c: Cell<Id, T>, op: Op<Id, T>)
    requires Inv(c) && Enabled(c, op) && c.isSet && !op.Take?
    ensures Step(c, op).c.isSet && Step(c, op).c.value == c.value
  {
    hide Sem.Inv, Sem.Drop;
    match op
    case Finish(id, v) => OneInitialiser(c, id, id);
    case _ =>
  }

  /**
   * In every run from an empty or a filled cell: the protocol's books balance, nothing is
   * written twice, and a call left waiting is registered or was woken and will get an answer.
   */
  lemma EveryRun<Id, T>(o: Option<T>, ops: seq<Op<Id, T>>, id: Id, w: Waker)
    requires Legal(Start(o), ops)
    ensures var t := Run(Start(o), ops);
      && Inv(t.c) && t.writes == (if t.c.isSet then 1 else 0)
      && (t.c.isSet <==> t.c.value.Some?) && (t.c.isSet <==> t.c.sem.closed)
      && t.c.sem.avail + Sum(Sem.CreditMap(t.c.sem.futs)) + |t.c.running| == (if t.c.isSet then 0 else 1)
      && (id in t.pend ==> id in t.c.sem.futs && var (v, mark) := t.pend[id];
            if id in t.c.sem.queue then t.c.sem.futs[id].waker.Some? && t.c.sem.futs[id].waker.value.WillWake(v)
            else WokenSince(t.log, mark, v) && !PollStep(t.c, id, w).out.Waiting?)
  {
    hide Sem.Distribute, Sem.Inv, SysStep, Step;
    RunKeeps(Start(o), ops);
    var t := Run(Start(o), ops);
    if id in t.pend {
      assert SemRuns.NotLost(t.c.sem, t.log, id, t.pend[id].0, t.pend[id].1);
    }
  }

  /** What `set`, a new call and `take` are answered, in terms of what callers know. */
  ghost predicate AnswersRight<Id, T>(c: Cell<Id, T>, b: Books<Id, T>, id: Id, v: T)
    requires Inv(c)
  {
    && BooksAgree(c, b)
    && (SetStep(c, v).out == AlreadyInitialized <==> b.content.Some?)
    && (SetStep(c, v).out == Initializing <==> b.content == None && Busy(c))
    && (SetStep(c, v).out == Done <==> b.content == None && !Busy(c))
    && (Enabled(c, Begin(id)) ==>
          Step(c, Begin(id)).out == if b.content.Some? then Value(b.content.value) else Waiting)
    && (b.waiting == {} && b.running == {} ==>
          Enabled(c, Take) && Step(c, Take).out == Taken(b.content) && Step(c, Take).c == New())
  }

  /**
   * After any run `take` gives back what was last written and leaves an empty cell, and `set`
   * and a new call go by what was written, too.
   */
  lemma EveryRunAnswers<Id, T>(o: Option<T>, ops: seq<Op<Id, T>>, id: Id, v: T)
    requires Legal(Start(o), ops)
    ensures var t := Run(Start(o), ops); Inv(t.c) && AnswersRight(t.c, t.books, id, v)
  {
    hide Sem.Inv, Sem.Owned, SetStep, SysStep, Run, Legal;
    RunKeeps(Start(o), ops);
    var t := Run(Start(o), ops);
    SetMeans(t.c, v);
    assert t.books.waiting == {} ==> t.c.sem.futs == map[];
  }

  /** And a waiting call: it reads, starts its initialiser, or goes on waiting. */
  lemma EveryRunPolls<Id, T>(o: Option<T>, ops: seq<Op<Id, T>>, id: Id, w: Waker)
    requires Legal(Start(o), ops) && id in Run(Start(o), ops).books.waiting
    ensures var t := Run(Start(o), ops); var b := t.books;
      && Inv(t.c) && id in t.c.sem.futs
      && var out := PollStep(t.c, id, w).out;
      && (b.content.Some? <==> out.Value?) && (out.Value? ==> out.v == b.content.value)
      && (out == Started <==>
            b.content == None && (Granted(t.c, id) || (!t.c.sem.futs[id].queued && !Busy(t.c))))
      && (out == Waiting <==> out != Started && !out.Value?)
      && (out == Started ==> b.running == {})
  {
    hide Sem.Inv, Sem.Owned, PollStep, SysStep;
    RunKeeps(Start(o), ops);
    var t := Run(Start(o), ops);
    PollMeans(t.c, id, w);
    CellLaws.PollSettles(t.c, id, w);
  }
}
