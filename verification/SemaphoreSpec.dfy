/**
 * The semaphore as a state machine on values. Permits are handed out one waiter at a
 * time, oldest first; `queue` lists the waiting futures in that order.
 */
module SemaphoreSpec {
  import opened Base

  /** One past the largest `usize`, on a 64-bit platform. */
  const USIZE: nat := 0x1_0000_0000_0000_0000
  /** `usize::MAX >> 3` */
  const MAX_PERMITS: nat := 0x1FFF_FFFF_FFFF_FFFF

  /**
   * An `Acquire` future: it wants `num` permits and still lacks `state` of them.
   * `done` marks one that has returned Ready(Ok), which nobody polls again.
   */
  datatype Fut = Fut(num: nat, state: nat, queued: bool, done: bool, waker: Option<Waker>)

  datatype State<Id(==)> = State(avail: nat, closed: bool, queue: seq<Id>, futs: map<Id, Fut>)

  datatype PollResult = Pending | Acquired | Closed

  datatype TryResult = Granted | IsClosed | NoPermits

  // ----- reachable states

  ghost predicate FutOk(f: Fut) {
    && f.state <= f.num
    && (f.done ==> !f.queued)
    && (!f.queued && !f.done ==> f.state == f.num)
  }

  ghost predicate Waits(f: Fut) {
    f.queued && 0 < f.state && f.waker.Some?
  }

  /** Everyone in the queue waits with a waker, and only the oldest may be partly filled. */
  ghost predicate QueueOk<Id>(queue: seq<Id>, futs: map<Id, Fut>) {
    && Distinct(queue)
    && (forall i {:trigger queue[i]} :: 0 <= i < |queue| ==> queue[i] in futs && Waits(futs[queue[i]]))
    && (forall i {:trigger queue[i]} :: 0 < i < |queue| ==> futs[queue[i]].state == futs[queue[i]].num)
  }

  ghost predicate Inv<Id>(s: State<Id>) {
    && QueueOk(s.queue, s.futs)
    && (forall id | id in s.futs :: FutOk(s.futs[id]))
    && (s.queue != [] ==> s.avail == 0 && !s.closed)
    && (forall id | id in s.futs && s.futs[id].queued && 0 < s.futs[id].state && !s.closed :: id in s.queue)
  }

  lemma QueueOkUpdate<Id>(queue: seq<Id>, futs: map<Id, Fut>, id: Id, f: Fut)
    requires QueueOk(queue, futs)
    requires id in queue ==> Waits(f) && (queue[0] == id || f.state == f.num)
    ensures QueueOk(queue, futs[id := f])
  {
    if queue != [] {
      OthersDiffer(queue, 0);
    }
  }

  lemma QueueOkTail<Id>(queue: seq<Id>, futs: map<Id, Fut>)
    requires QueueOk(queue, futs) && queue != []
    ensures QueueOk(queue[1..], futs) && queue[0] !in queue[1..]
  {
    DistinctTail(queue);
  }

  /** Permits a future has been assigned but not yet returned to its caller. */
  ghost function Credit(f: Fut): nat {
    if f.queued && f.state <= f.num then f.num - f.state else 0
  }

  ghost function CreditMap<Id>(futs: map<Id, Fut>): map<Id, nat> {
    map id | id in futs :: Credit(futs[id])
  }

  /** Every permit the semaphore still owns, available or assigned to a waiter. */
  ghost function Owned<Id>(s: State<Id>): nat {
    s.avail + Sum(CreditMap(s.futs))
  }

  lemma CreditUpdate<Id>(futs: map<Id, Fut>, id: Id, f: Fut)
    requires id in futs
    ensures Sum(CreditMap(futs[id := f])) + Credit(futs[id]) == Sum(CreditMap(futs)) + Credit(f)
  {
    SumRemove(CreditMap(futs), id);
    SumUpdate(CreditMap(futs), id, Credit(f));
    assert CreditMap(futs[id := f]) == CreditMap(futs)[id := Credit(f)];
  }

  lemma CreditAdd<Id>(futs: map<Id, Fut>, id: Id, f: Fut)
    requires id !in futs
    ensures Sum(CreditMap(futs[id := f])) == Sum(CreditMap(futs)) + Credit(f)
  {
    SumUpdate(CreditMap(futs), id, Credit(f));
    assert CreditMap(futs) - {id} == CreditMap(futs);
    assert CreditMap(futs[id := f]) == CreditMap(futs)[id := Credit(f)];
  }

  lemma CreditRemove<Id>(futs: map<Id, Fut>, id: Id)
    requires id in futs
    ensures Sum(CreditMap(futs)) == Sum(CreditMap(futs - {id})) + Credit(futs[id])
  {
    SumRemove(CreditMap(futs), id);
    assert CreditMap(futs - {id}) == CreditMap(futs) - {id};
  }

  // ----- distributing permits

  /** A waiter with all its permits: out of the queue, its waker taken. */
  ghost function Filled(f: Fut): Fut {
    f.(state := 0, waker := None)
  }

  ghost function Topped(f: Fut, n: nat): Fut
    requires n <= f.state
  {
    f.(state := f.state - n)
  }

  ghost predicate Listed<Id>(s: State<Id>) {
    forall i {:trigger s.queue[i]} :: 0 <= i < |s.queue| ==> s.queue[i] in s.futs
  }

  /** The state in which the oldest waiter has been filled and popped. */
  ghost function PopOldest<Id>(s: State<Id>): (t: State<Id>)
    requires s.queue != [] && Listed(s)
    ensures Listed(t)
  {
    State(s.avail, s.closed, s.queue[1..], s.futs[s.queue[0] := Filled(s.futs[s.queue[0]])])
  }

  /** Fewer permits than the oldest waiter needs all go to it. */
  ghost function TopUpOldest<Id>(s: State<Id>, n: nat): (t: State<Id>)
    requires s.queue != [] && Listed(s) && n < s.futs[s.queue[0]].state
    ensures Listed(t)
  {
    State(s.avail, s.closed, s.queue, s.futs[s.queue[0] := Topped(s.futs[s.queue[0]], n)])
  }

  /** Hands `n` permits to the waiters one by one; also the wakers taken, in that order. */
  ghost function Distribute<Id>(s: State<Id>, n: nat): (r: (State<Id>, seq<Waker>))
    requires Listed(s)
    ensures Listed(r.0)
    decreases |s.queue|
  {
    if s.queue == [] then (s.(avail := s.avail + n), [])
    else
      var f := s.futs[s.queue[0]];
      if n < f.state then (TopUpOldest(s, n), [])
      else
        var (t, ws) := Distribute(PopOldest(s), n - f.state);
        (t, ToSeq(f.waker) + ws)
  }

  /** The permit word, shifted and with its flag, is a `usize`. */
  ghost predicate Fits<Id>(s: State<Id>) {
    2 * s.avail + 1 < USIZE
  }

  /** The check in `add_permits` looks at what is left once every waiter is served. */
  ghost predicate LimitCheckFires<Id>(s: State<Id>, n: nat)
    requires Listed(s)
  {
    MAX_PERMITS < Distribute(s, n).0.avail - s.avail
  }

  /** Handing out `n` permits trips the check, or overflows the permit word. */
  ghost predicate Panics<Id>(s: State<Id>, n: nat)
    requires Listed(s)
  {
    LimitCheckFires(s, n) || !Fits(Distribute(s, n).0)
  }

  /** What a hand-out that panics leaves behind: everyone is served, and the rest is lost. */
  ghost function Unstored<Id>(s: State<Id>, n: nat): State<Id>
    requires Listed(s)
  {
    var t := Distribute(s, n).0;
    State(s.avail, t.closed, t.queue, t.futs)
  }

  lemma NothingNeverPanics<Id>(s: State<Id>)
    requires Inv(s) && Fits(s)
    ensures Listed(s) && !Panics(s, 0)
  {
    DistributeNothing(s);
  }

  /** As long as the documented limit is respected no hand-out panics. */
  lemma WithinLimit<Id>(s: State<Id>, n: nat)
    requires Inv(s) && Owned(s) + n <= MAX_PERMITS
    ensures Listed(s) && !Panics(s, n)
  {
    DistributeKeeps(s, n);
  }

  lemma DistributeNothing<Id>(s: State<Id>)
    requires Inv(s)
    ensures Distribute(s, 0) == (s, [])
  {
    if s.queue != [] {
      var id := s.queue[0];
      assert s.futs[id := Topped(s.futs[id], 0)] == s.futs;
    }
  }

  /** What the first waiters in `q` still need together. */
  ghost function Demand<Id>(q: seq<Id>, futs: map<Id, Fut>): nat
    requires forall i {:trigger q[i]} :: 0 <= i < |q| ==> q[i] in futs
  {
    if q == [] then 0 else futs[q[0]].state + Demand(q[1..], futs)
  }

  lemma PopOldestKeeps<Id>(s: State<Id>)
    requires Inv(s) && s.queue != []
    ensures Inv(PopOldest(s))
    ensures Owned(PopOldest(s)) == Owned(s) + s.futs[s.queue[0]].state
  {
    var id := s.queue[0];
    QueueOkTail(s.queue, s.futs);
    QueueOkUpdate(s.queue[1..], s.futs, id, Filled(s.futs[id]));
    CreditUpdate(s.futs, id, Filled(s.futs[id]));
    var t := PopOldest(s);
    forall x | x in t.futs && t.futs[x].queued && 0 < t.futs[x].state && !t.closed
      ensures x in t.queue
    {
      var i :| 0 <= i < |s.queue| && s.queue[i] == x;
      assert t.queue[i - 1] == x;
    }
  }

  lemma TopUpOldestKeeps<Id>(s: State<Id>, n: nat)
    requires Inv(s) && s.queue != [] && n < s.futs[s.queue[0]].state
    ensures Inv(TopUpOldest(s, n))
    ensures Owned(TopUpOldest(s, n)) == Owned(s) + n
  {
    var id, f := s.queue[0], s.futs[s.queue[0]];
    QueueOkUpdate(s.queue, s.futs, id, Topped(f, n));
    CreditUpdate(s.futs, id, Topped(f, n));
  }

  lemma {:induction false} DistributeKeeps<Id>(s: State<Id>, n: nat)
    requires Inv(s)
    ensures var t := Distribute(s, n).0;
      Inv(t) && Owned(t) == Owned(s) + n && t.closed == s.closed && t.futs.Keys == s.futs.Keys
    decreases |s.queue|
  {
    if s.queue != [] {
      var need := s.futs[s.queue[0]].state;
      if n < need {
        TopUpOldestKeeps(s, n);
      } else {
        PopOldestKeeps(s);
        DistributeKeeps(PopOldest(s), n - need);
      }
    }
  }

  /** The wakers stored for the waiters `q`, in order. */
  ghost function Wakers<Id>(q: seq<Id>, futs: map<Id, Fut>): seq<Waker>
    requires forall i {:trigger q[i]} :: 0 <= i < |q| ==> q[i] in futs
  {
    if q == [] then [] else ToSeq(futs[q[0]].waker) + Wakers(q[1..], futs)
  }

  /** Future `id` once the first `k` waiters are filled and the next has got the rest of `n`. */
  ghost function AfterServing<Id>(s: State<Id>, n: nat, k: nat, id: Id): Fut
    requires id in s.futs && Covers(s, n, k)
  {
    var f := s.futs[id];
    if id in s.queue[..k] then Fut(f.num, 0, f.queued, f.done, None)
    else if k < |s.queue| && id == s.queue[k] then
      Fut(f.num, f.state - (n - Demand(s.queue[..k], s.futs)), f.queued, f.done, f.waker)
    else f
  }

  /** `k` is the largest number of waiters, from the oldest on, whose joint demand is at most `n`. */
  ghost predicate Covers<Id>(s: State<Id>, n: nat, k: nat) {
    && Listed(s)
    && k <= |s.queue|
    && Demand(s.queue[..k], s.futs) <= n
    && (k < |s.queue| ==> n < Demand(s.queue[..k], s.futs) + s.futs[s.queue[k]].state)
  }

  /**
   * What handing out `n` permits means, without following the hand-out: the first `k`
   * waiters are filled, popped and their wakers taken; what is left goes to the next
   * waiter, or to the counter if there is none.
   */
  ghost predicate Serves<Id>(s: State<Id>, n: nat, t: State<Id>, ws: seq<Waker>, k: nat) {
    && Covers(s, n, k)
    && t.closed == s.closed
    && t.queue == s.queue[k..]
    && ws == Wakers(s.queue[..k], s.futs)
    && t.avail == s.avail + (if k == |s.queue| then n - Demand(s.queue, s.futs) else 0)
    && t.futs == map id | id in s.futs :: AfterServing(s, n, k, id)
  }

  /** Changing a future outside `q` changes neither its demand nor its wakers. */
  lemma {:induction false} DemandFrame<Id>(q: seq<Id>, futs: map<Id, Fut>, id: Id, f: Fut)
    requires forall i {:trigger q[i]} :: 0 <= i < |q| ==> q[i] in futs
    requires id !in q
    ensures Demand(q, futs[id := f]) == Demand(q, futs)
    ensures Wakers(q, futs[id := f]) == Wakers(q, futs)
  {
    if q != [] {
      DemandFrame(q[1..], futs, id, f);
    }
  }

  lemma {:induction false} DistributeServes<Id>(s: State<Id>, n: nat) returns (k: nat)
    requires Inv(s)
    ensures Serves(s, n, Distribute(s, n).0, Distribute(s, n).1, k)
    decreases |s.queue|
  {
    k := 0;
    if s.queue == [] || n < s.futs[s.queue[0]].state {
      ServesNobody(s, n);
    } else {
      var p, left := PopOldest(s), n - s.futs[s.queue[0]].state;
      PopOldestKeeps(s);
      k := DistributeServes(p, left);
      QueueOkTail(s.queue, s.futs);
      ServesOneMore(s, n, Distribute(p, left).0, Distribute(p, left).1, k);
      k := k + 1;
    }
  }

  /** What the hand-out does to the `i`-th waiter. */
  lemma ServesAt<Id>(s: State<Id>, n: nat, t: State<Id>, ws: seq<Waker>, k: nat, i: nat)
    requires QueueOk(s.queue, s.futs) && Serves(s, n, t, ws, k) && i < |s.queue|
    ensures s.queue[i] in t.futs
    ensures i < k ==> t.futs[s.queue[i]] == Filled(s.futs[s.queue[i]]) && s.queue[i] in s.queue[..k]
    ensures i >= k ==> t.queue[i - k] == s.queue[i] && var f, g := s.futs[s.queue[i]], t.futs[s.queue[i]];
      g == Fut(f.num, g.state, f.queued, f.done, f.waker) && 0 < g.state
  {
    if i < k {
      assert s.queue[..k][i] == s.queue[i];
    } else {
      OthersDiffer(s.queue, i);
      assert s.queue[i] !in s.queue[..k];
    }
  }

  lemma ServesElsewhere<Id>(s: State<Id>, n: nat, t: State<Id>, ws: seq<Waker>, k: nat, id: Id)
    requires QueueOk(s.queue, s.futs) && Serves(s, n, t, ws, k) && id in s.futs && id !in s.queue
    ensures id in t.futs && t.futs[id] == s.futs[id] && id !in t.queue
  {
  }

  /** The same futures with the same requests, as far along as before. */
  ghost predicate SameRequests<Id>(a: map<Id, Fut>, b: map<Id, Fut>) {
    && a.Keys == b.Keys
    && forall id | id in a :: a[id].num == b[id].num && a[id].done == b[id].done && a[id].queued == b[id].queued
  }

  /** Handing out permits touches neither the size nor the progress flags of a future. */
  lemma DistributeFrame<Id>(s: State<Id>, n: nat)
    requires Inv(s)
    ensures SameRequests(s.futs, Distribute(s, n).0.futs)
  {
    var k := DistributeServes(s, n);
  }

  lemma ServesNobody<Id>(s: State<Id>, n: nat)
    requires Listed(s) && (s.queue == [] || n < s.futs[s.queue[0]].state)
    ensures Serves(s, n, Distribute(s, n).0, Distribute(s, n).1, 0)
  {
    assert s.queue[..0] == [] && s.queue[0..] == s.queue;
    var t := Distribute(s, n).0;
    assert forall id | id in s.futs :: t.futs[id] == AfterServing(s, n, 0, id);
  }

  lemma CoversOneMore<Id>(s: State<Id>, n: nat, k: nat)
    requires Listed(s) && s.queue != [] && s.futs[s.queue[0]].state <= n
    requires s.queue[0] !in s.queue[1..]
    requires Covers(PopOldest(s), n - s.futs[s.queue[0]].state, k)
    ensures Covers(s, n, k + 1)
    ensures Demand(s.queue[..k + 1], s.futs)
      == s.futs[s.queue[0]].state + Demand(s.queue[1..][..k], PopOldest(s).futs)
    ensures Wakers(s.queue[..k + 1], s.futs)
      == ToSeq(s.futs[s.queue[0]].waker) + Wakers(s.queue[1..][..k], PopOldest(s).futs)
  {
    var q := s.queue;
    assert q[..k + 1][1..] == q[1..][..k];
    DemandFrame(q[1..][..k], s.futs, q[0], Filled(s.futs[q[0]]));
  }

  lemma ServesOneMore<Id>(s: State<Id>, n: nat, t: State<Id>, ws: seq<Waker>, k: nat)
    requires Listed(s) && s.queue != [] && s.futs[s.queue[0]].state <= n
    requires s.queue[0] !in s.queue[1..]
    requires Serves(PopOldest(s), n - s.futs[s.queue[0]].state, t, ws, k)
    ensures Serves(s, n, t, ToSeq(s.futs[s.queue[0]].waker) + ws, k + 1)
  {
    hide AfterServing, Covers, Wakers;
    var q, p, left := s.queue, PopOldest(s), n - s.futs[s.queue[0]].state;
    CoversOneMore(s, n, k);
    assert q[..|q|] == q && q[1..][..|q| - 1] == q[1..];
    forall id | id in s.futs
      ensures AfterServing(s, n, k + 1, id) == AfterServing(p, left, k, id)
    {
      AfterServingOneMore(s, n, k, id);
    }
  }

  lemma AfterServingOneMore<Id>(s: State<Id>, n: nat, k: nat, id: Id)
    requires Listed(s) && s.queue != [] && s.futs[s.queue[0]].state <= n && id in s.futs
    requires s.queue[0] !in s.queue[1..]
    requires Covers(PopOldest(s), n - s.futs[s.queue[0]].state, k) && Covers(s, n, k + 1)
    ensures AfterServing(s, n, k + 1, id) == AfterServing(PopOldest(s), n - s.futs[s.queue[0]].state, k, id)
  {
    CoversOneMore(s, n, k);
    assert s.queue[..k + 1] == [s.queue[0]] + PopOldest(s).queue[..k];
  }

  /** A top-up is forgotten when the rest of the demand arrives. */
  lemma TopUpAdds<Id>(s: State<Id>, a: nat, b: nat)
    requires Listed(s) && s.queue != [] && a < s.futs[s.queue[0]].state
    ensures Distribute(s, a + b) == Distribute(TopUpOldest(s, a), b)
  {
    var id, need := s.queue[0], s.futs[s.queue[0]].state;
    var t := TopUpOldest(s, a);
    if need <= a + b {
      assert t.futs[id := Filled(t.futs[id])] == s.futs[id := Filled(s.futs[id])];
      assert PopOldest(t) == PopOldest(s);
    } else {
      assert t.futs[id := Topped(t.futs[id], b)] == s.futs[id := Topped(s.futs[id], a + b)];
    }
  }

  lemma FirstServed<Id>(s: State<Id>, n: nat)
    requires Listed(s) && s.queue != [] && s.futs[s.queue[0]].state <= n
    ensures var (t, ws) := Distribute(PopOldest(s), n - s.futs[s.queue[0]].state);
      Distribute(s, n) == (t, ToSeq(s.futs[s.queue[0]].waker) + ws)
  {
  }

  lemma PopAdds<Id>(s: State<Id>, a: nat, b: nat)
    requires Listed(s) && s.queue != [] && s.futs[s.queue[0]].state <= a
    requires var (t, ws) := Distribute(PopOldest(s), a - s.futs[s.queue[0]].state); var (u, vs) := Distribute(t, b);
      Distribute(PopOldest(s), a - s.futs[s.queue[0]].state + b) == (u, ws + vs)
    ensures var (t, ws) := Distribute(s, a); var (u, vs) := Distribute(t, b); Distribute(s, a + b) == (u, ws + vs)
  {
    hide PopOldest, Distribute;
    FirstServed(s, a);
    FirstServed(s, a + b);
    var first, ws := ToSeq(s.futs[s.queue[0]].waker), Distribute(PopOldest(s), a - s.futs[s.queue[0]].state).1;
    var vs := Distribute(Distribute(s, a).0, b).1;
    assert first + (ws + vs) == (first + ws) + vs;
  }

  /** Releasing in two steps is releasing at once: same state, same wake-ups. */
  lemma {:induction false} DistributeAdds<Id>(s: State<Id>, a: nat, b: nat)
    requires Listed(s)
    ensures var (t, ws) := Distribute(s, a); var (u, vs) := Distribute(t, b);
      Distribute(s, a + b) == (u, ws + vs)
    decreases |s.queue|
  {
    if s.queue == [] {
      var none: seq<Waker> := [];
      assert none + none == none;
    } else {
      var need := s.futs[s.queue[0]].state;
      if need <= a {
        DistributeAdds(PopOldest(s), a - need, b);
        PopAdds(s, a, b);
      } else {
        TopUpAdds(s, a, b);
        assert [] + Distribute(TopUpOldest(s, a), b).1 == Distribute(TopUpOldest(s, a), b).1;
      }
    }
  }

  lemma InvLists<Id>(s: State<Id>)
    requires Inv(s)
    ensures Listed(s) && s.avail <= Owned(s)
  {
  }

  lemma OldestWaits<Id>(s: State<Id>)
    requires Inv(s) && s.queue != []
    ensures s.queue[0] in s.futs && s.futs[s.queue[0]].waker.Some? && |PopOldest(s).queue| + 1 == |s.queue|
    ensures PopOldest(s).futs.Keys == s.futs.Keys && PopOldest(s).avail == s.avail
  {
  }

  // ----- a hand-out in progress

  /**
   * Part of a hand-out of `n` permits in `s0` is done: `s` is where it stands, `rem` what is
   * left to hand out and `batch` the wakers taken so far.
   */
  ghost predicate InProgress<Id>(s0: State<Id>, n: nat, s: State<Id>, rem: nat, batch: seq<Waker>) {
    && Inv(s0) && Inv(s)
    && Owned(s) + rem == Owned(s0) + n
    && s.futs.Keys == s0.futs.Keys
    && |s.queue| + |batch| <= |s0.queue|
    && (0 < rem ==> s.avail == s0.avail)
    && Distribute(s0, n).0 == Distribute(s, rem).0
    && Distribute(s0, n).1 == batch + Distribute(s, rem).1
  }

  lemma ProgressStarts<Id>(s: State<Id>, n: nat)
    requires Inv(s)
    ensures InProgress(s, n, s, n, [])
  {
    assert [] + Distribute(s, n).1 == Distribute(s, n).1;
  }

  lemma ProgressByPop<Id>(s0: State<Id>, n: nat, s: State<Id>, rem: nat, batch: seq<Waker>)
    requires InProgress(s0, n, s, rem, batch)
    requires s.queue != [] && s.futs[s.queue[0]].state <= rem
    ensures var f := s.futs[s.queue[0]];
      f.waker.Some? && InProgress(s0, n, PopOldest(s), rem - f.state, batch + [f.waker.value])
  {
    hide Inv, Owned, PopOldest;
    InvLists(s);
    OldestWaits(s);
    PopOldestKeeps(s);
    var f := s.futs[s.queue[0]];
    var rest := Distribute(PopOldest(s), rem - f.state).1;
    assert batch + ([f.waker.value] + rest) == (batch + [f.waker.value]) + rest;
  }

  lemma ProgressByTopUp<Id>(s0: State<Id>, n: nat, s: State<Id>, rem: nat, batch: seq<Waker>)
    requires InProgress(s0, n, s, rem, batch)
    requires s.queue != [] && rem < s.futs[s.queue[0]].state
    ensures InProgress(s0, n, TopUpOldest(s, rem), 0, batch)
  {
    TopUpOldestKeeps(s, rem);
    DistributeNothing(TopUpOldest(s, rem));
  }

  lemma ProgressByStore<Id>(s0: State<Id>, n: nat, s: State<Id>, rem: nat, batch: seq<Waker>)
    requires InProgress(s0, n, s, rem, batch) && s.queue == []
    ensures InProgress(s0, n, State(s.avail + rem, s.closed, s.queue, s.futs), 0, batch)
  {
    DistributeNothing(State(s.avail + rem, s.closed, s.queue, s.futs));
  }

  lemma ProgressMeans<Id>(s0: State<Id>, n: nat, s: State<Id>, rem: nat, batch: seq<Waker>)
    requires InProgress(s0, n, s, rem, batch)
    ensures Inv(s) && Listed(s) && Owned(s) + rem == Owned(s0) + n && s.avail <= Owned(s)
    ensures s.futs.Keys == s0.futs.Keys && |s.queue| + |batch| <= |s0.queue|
    ensures 0 < rem ==> s.avail == s0.avail
    ensures Distribute(s0, n) == (Distribute(s, rem).0, batch + Distribute(s, rem).1)
    ensures rem == 0 ==> Distribute(s, rem) == (s, [])
  {
    if rem == 0 {
      DistributeNothing(s);
    }
  }

  /** Permits are left that nobody waits for and that cannot be stored. */
  ghost predicate Stuck<Id>(s: State<Id>, rem: nat) {
    0 < rem && s.queue == [] && (MAX_PERMITS < rem || USIZE <= 2 * (s.avail + rem) + 1)
  }

  /** Whatever was stored since `s0` passed the check and left the word a `usize`. */
  ghost predicate StoredWell<Id>(s0: State<Id>, s: State<Id>) {
    s.avail <= s0.avail + MAX_PERMITS && Fits(s)
  }

  lemma StuckMeans<Id>(s0: State<Id>, n: nat, s: State<Id>, rem: nat)
    requires Listed(s0) && Listed(s) && Stuck(s, rem) && s.avail == s0.avail
    requires Distribute(s, rem).0 == Distribute(s0, n).0
    ensures Panics(s0, n) && s == Unstored(s0, n) && (Fits(s0) ==> Fits(s))
  {
  }

  lemma StoredMeans<Id>(s0: State<Id>, n: nat, s: State<Id>)
    requires Listed(s0) && s == Distribute(s0, n).0 && StoredWell(s0, s)
    ensures !Panics(s0, n)
  {
  }

  // ----- the operations

  /** `Inner::new`: the initial count is masked to the three-bits-short range. */
  ghost function Init<Id>(permits: nat): State<Id> {
    State(permits % (MAX_PERMITS + 1), false, [], map[])
  }

  /** `acquire`: a future that has not been polled yet. */
  ghost function Create<Id>(s: State<Id>, id: Id, n: nat): State<Id> {
    State(s.avail, s.closed, s.queue, s.futs[id := Fut(n, n, false, false, None)])
  }

  ghost predicate Pollable<Id>(s: State<Id>, id: Id) {
    id in s.futs && !s.futs[id].done
  }

  /** The stored waker is kept when it already wakes the polling task. */
  function Refresh(stored: Option<Waker>, w: Waker): (r: Option<Waker>)
    ensures r.Some? && r.value.WillWake(w)
    ensures r == Some(w) || (r == stored && stored.value.WillWake(w))
    ensures stored.Some? && stored.value.WillWake(w) ==> r == stored
  {
    if stored.Some? && stored.value.WillWake(w) then stored else Some(w)
  }

  /** With every available permit taken out of the word. */
  ghost function Emptied<Id>(s: State<Id>): State<Id> {
    State(0, s.closed, s.queue, s.futs)
  }

  /** A future left pending takes every available permit and stands in the queue. */
  ghost function Enqueued(f: Fut, avail: nat, w: Waker): Fut
    requires avail <= f.state
  {
    Fut(f.num, f.state - avail, true, f.done, Refresh(f.waker, w))
  }

  ghost function Poll<Id>(s: State<Id>, id: Id, w: Waker): (r: (State<Id>, PollResult))
    requires Inv(s) && Pollable(s, id)
  {
    var f := s.futs[id];
    if s.closed then (s, Closed)
    else if !f.queued && f.num <= s.avail then
      (State(s.avail - f.num, false, s.queue, s.futs[id := f.(done := true)]), Acquired)
    else if f.state == 0 then
      (State(s.avail, false, s.queue, s.futs[id := f.(queued := false, done := true)]), Acquired)
    else
      (State(0, false, if f.queued then s.queue else s.queue + [id], s.futs[id := Enqueued(f, s.avail, w)]), Pending)
  }

  /** Only a granted future whose semaphore holds more than the limit makes `poll` panic. */
  ghost predicate PollPanics<Id>(s: State<Id>, id: Id)
    requires Pollable(s, id)
  {
    !s.closed && s.futs[id].queued && s.futs[id].state == 0 && MAX_PERMITS < s.avail
  }

  /** Dropping a future: it leaves the queue and its permits go to the others. */
  ghost function Unlink<Id>(s: State<Id>, id: Id): State<Id> {
    State(s.avail, s.closed, Without(s.queue, id), s.futs - {id})
  }

  ghost function Drop<Id>(s: State<Id>, id: Id): (r: (State<Id>, seq<Waker>))
    requires Inv(s) && id in s.futs
  {
    UnlinkKeeps(s, id);
    Distribute(Unlink(s, id), Credit(s.futs[id]))
  }

  /** Passing its permits on may panic like any other hand-out. */
  ghost predicate DropPanics<Id>(s: State<Id>, id: Id)
    requires Inv(s) && id in s.futs
  {
    UnlinkKeeps(s, id);
    Panics(Unlink(s, id), Credit(s.futs[id]))
  }

  ghost function DropUnstored<Id>(s: State<Id>, id: Id): State<Id>
    requires Inv(s) && id in s.futs
  {
    UnlinkKeeps(s, id);
    Unstored(Unlink(s, id), Credit(s.futs[id]))
  }

  ghost function TryAcquire<Id>(s: State<Id>, n: nat): (r: (State<Id>, TryResult)) {
    if s.closed then (s, IsClosed)
    else if s.avail < n then (s, NoPermits)
    else (State(s.avail - n, s.closed, s.queue, s.futs), Granted)
  }

  /** Closing empties the queue and wakes everyone in it; no permits move. */
  ghost function Close<Id>(s: State<Id>): (r: (State<Id>, seq<Waker>))
    requires Listed(s)
  {
    (State(s.avail, true, [], Silenced(s.futs, s.queue)), Wakers(s.queue, s.futs))
  }

  /** The futures once the wakers of those in `q` are taken. */
  ghost function Silenced<Id>(futs: map<Id, Fut>, q: seq<Id>): map<Id, Fut> {
    map id | id in futs :: if id in q then futs[id].(waker := None) else futs[id]
  }

  lemma SilencedNobody<Id>(futs: map<Id, Fut>)
    ensures Silenced(futs, []) == futs && Wakers([], futs) == []
  {
  }

  lemma SilencedOneMore<Id>(futs: map<Id, Fut>, q: seq<Id>, i: nat)
    requires i < |q| && q[i] in futs
    ensures Silenced(futs, q[..i + 1]) == Silenced(futs, q[..i])[q[i] := futs[q[i]].(waker := None)]
  {
    assert q[..i + 1] == q[..i] + [q[i]];
  }

  lemma NotSilencedYet<Id>(s: State<Id>, i: nat)
    requires Inv(s) && i < |s.queue|
    ensures s.queue[i] in s.futs && s.queue[i] !in s.queue[..i]
    ensures Silenced(s.futs, s.queue[..i])[s.queue[i]] == s.futs[s.queue[i]]
  {
    OthersDiffer(s.queue, i);
  }

  lemma {:induction false} WakersOneMore<Id>(q: seq<Id>, futs: map<Id, Fut>, i: nat)
    requires forall k {:trigger q[k]} :: 0 <= k < |q| ==> q[k] in futs
    requires i < |q|
    ensures Wakers(q[..i + 1], futs) == Wakers(q[..i], futs) + ToSeq(futs[q[i]].waker)
  {
    if i > 0 {
      WakersOneMore(q[1..], futs, i - 1);
      assert q[..i + 1][1..] == q[1..][..i] && q[..i][1..] == q[1..][..i - 1];
      assert q[..i + 1][0] == q[..i][0] == q[0];
    } else {
      assert q[..1][1..] == [] && q[..0] == [];
    }
  }

  // ----- what every operation keeps

  lemma InitKeeps<Id>(permits: nat)
    ensures Inv(Init<Id>(permits)) && Owned(Init<Id>(permits)) <= MAX_PERMITS
    ensures permits <= MAX_PERMITS ==> Owned(Init<Id>(permits)) == permits
  {
    NoCredits<Id>();
    if permits <= MAX_PERMITS {
      SmallMod(permits, MAX_PERMITS + 1);
    }
  }

  lemma NoCredits<Id>()
    ensures Sum(CreditMap<Id>(map[])) == 0
  {
    assert CreditMap<Id>(map[]) == map[];
  }

  lemma SmallMod(x: nat, m: nat)
    requires x < m
    ensures x % m == x
  {
  }

  lemma CreateKeeps<Id>(s: State<Id>, id: Id, n: nat)
    requires Inv(s) && id !in s.futs
    ensures Inv(Create(s, id, n)) && Owned(Create(s, id, n)) == Owned(s)
  {
    var f := Fut(n, n, false, false, None);
    QueueOkUpdate(s.queue, s.futs, id, f);
    CreditAdd(s.futs, id, f);
  }

  lemma UnlinkKeeps<Id>(s: State<Id>, id: Id)
    requires Inv(s) && id in s.futs
    ensures Inv(Unlink(s, id))
    ensures Owned(Unlink(s, id)) + Credit(s.futs[id]) == Owned(s)
  {
    CreditRemove(s.futs, id);
    QueueOkWithout(s.queue, s.futs, id);
  }

  lemma QueueOkWithout<Id>(queue: seq<Id>, futs: map<Id, Fut>, id: Id)
    requires QueueOk(queue, futs)
    ensures QueueOk(Without(queue, id), futs - {id})
  {
    DistinctWithout(queue, id);
    if id in queue {
      var k :| 0 <= k < |queue| && queue[k] == id;
      WithoutAt(queue, k);
      var q := queue[..k] + queue[k + 1..];
      assert forall i {:trigger q[i]} :: 0 <= i < |q| ==> q[i] == queue[if i < k then i else i + 1];
    } else {
      WithoutAbsent(queue, id);
    }
  }

  lemma DropKeeps<Id>(s: State<Id>, id: Id)
    requires Inv(s) && id in s.futs
    ensures Inv(Drop(s, id).0) && Owned(Drop(s, id).0) == Owned(s)
    ensures Drop(s, id).0.futs.Keys == s.futs.Keys - {id}
  {
    UnlinkKeeps(s, id);
    DistributeKeeps(Unlink(s, id), Credit(s.futs[id]));
  }

  /** A future that is not queued holds nothing and waits nowhere. */
  lemma DropUnqueued<Id>(s: State<Id>, id: Id)
    requires Inv(s) && id in s.futs && !s.futs[id].queued
    ensures Drop(s, id) == (State(s.avail, s.closed, s.queue, s.futs - {id}), [])
  {
    WithoutAbsent(s.queue, id);
    UnlinkKeeps(s, id);
    DistributeNothing(Unlink(s, id));
  }

  lemma TryAcquireKeeps<Id>(s: State<Id>, n: nat)
    requires Inv(s)
    ensures var (t, r) := TryAcquire(s, n);
      Inv(t) && Owned(s) == Owned(t) + if r.Granted? then n else 0
  {
  }

  lemma DropFrame<Id>(s: State<Id>, id: Id)
    requires Inv(s) && id in s.futs
    ensures SameRequests(s.futs - {id}, Drop(s, id).0.futs) && Drop(s, id).0.closed == s.closed
  {
    UnlinkKeeps(s, id);
    DistributeFrame(Unlink(s, id), Credit(s.futs[id]));
    DistributeKeeps(Unlink(s, id), Credit(s.futs[id]));
  }

  lemma CloseKeeps<Id>(s: State<Id>)
    requires Inv(s)
    ensures Inv(Close(s).0) && Owned(Close(s).0) == Owned(s) && SameRequests(s.futs, Close(s).0.futs)
  {
    assert CreditMap(Close(s).0.futs) == CreditMap(s.futs);
  }

  /**
   * A poll that is not answered at once finds either a granted future, and then clearing
   * the counter and handing it back changes nothing, or one that still lacks permits.
   */
  lemma SlowPoll<Id>(s: State<Id>, id: Id)
    requires Inv(s) && Pollable(s, id) && !s.closed
    requires !s.futs[id].queued ==> s.avail < s.futs[id].num
    ensures s.futs[id].state <= s.avail <==> s.futs[id].state == 0
    ensures s.futs[id].state == 0 ==> s.futs[id].queued
    ensures Inv(State(0, false, s.queue, s.futs)) && Listed(State(0, false, s.queue, s.futs))
    ensures Owned(State(0, false, s.queue, s.futs)) + s.avail == Owned(s)
    ensures s.futs[id].state == 0 ==> Distribute(State(0, false, s.queue, s.futs), s.avail) == (s, [])
  {
    if s.futs[id].state == 0 && s.queue != [] {
      DistributeNothing(s);
    }
  }

  /** Handing back what was cleared panics exactly when it was more than the limit. */
  lemma SlowPollPanics<Id>(s: State<Id>, id: Id)
    requires Inv(s) && Fits(s) && Pollable(s, id) && !s.closed && s.futs[id].queued && s.futs[id].state == 0
    ensures Listed(Emptied(s)) && (Panics(Emptied(s), s.avail) <==> PollPanics(s, id))
  {
    SlowPoll(s, id);
  }

  lemma PollKeeps<Id>(s: State<Id>, id: Id, w: Waker)
    requires Inv(s) && Pollable(s, id)
    ensures var (t, r) := Poll(s, id, w);
      Inv(t) && Owned(s) == Owned(t) + (if r.Acquired? then s.futs[id].num else 0) && t.futs.Keys == s.futs.Keys
  {
    var f := s.futs[id];
    if s.closed {
    } else if !f.queued && f.num <= s.avail {
      QueueOkUpdate(s.queue, s.futs, id, f.(done := true));
      CreditUpdate(s.futs, id, f.(done := true));
    } else if f.state == 0 {
      QueueOkUpdate(s.queue, s.futs, id, f.(queued := false, done := true));
      CreditUpdate(s.futs, id, f.(queued := false, done := true));
    } else {
      PendingKeeps(s, id, w);
    }
  }

  lemma PendingKeeps<Id>(s: State<Id>, id: Id, w: Waker)
    requires Inv(s) && Pollable(s, id) && Poll(s, id, w).1.Pending?
    ensures Inv(Poll(s, id, w).0) && Owned(Poll(s, id, w).0) == Owned(s)
  {
    var f := s.futs[id];
    var g := Enqueued(f, s.avail, w);
    CreditUpdate(s.futs, id, g);
    if f.queued {
      QueueOkUpdate(s.queue, s.futs, id, g);
    } else {
      QueueOkPush(s.queue, s.futs, id, g);
    }
  }

  /** Within the documented limit neither a poll nor a drop panics. */
  lemma CallsWithinLimit<Id>(s: State<Id>, id: Id)
    requires Inv(s) && Owned(s) <= MAX_PERMITS && id in s.futs
    ensures !DropPanics(s, id)
    ensures Pollable(s, id) ==> !PollPanics(s, id)
  {
    UnlinkKeeps(s, id);
    WithinLimit(Unlink(s, id), Credit(s.futs[id]));
  }

  lemma QueueOkPush<Id>(queue: seq<Id>, futs: map<Id, Fut>, id: Id, f: Fut)
    requires QueueOk(queue, futs)
    requires id !in queue
    requires Waits(f) && (queue == [] || f.state == f.num)
    ensures QueueOk(queue + [id], futs[id := f])
  {
    DistinctPush(queue, id);
  }
}
