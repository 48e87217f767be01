/**
 * What each call on the semaphore answers, what it changes and what it leaves alone,
 * without following how it is computed.
 */
module SemaphoreLaws {
  import opened Base
  import opened WakeLists
  import opened SemaphoreSpec

  /** The limits of a 64-bit platform, as numbers. */
  lemma LimitsAre()
    ensures USIZE == 18_446_744_073_709_551_616
    ensures MAX_PERMITS == 2_305_843_009_213_693_951 && 8 * MAX_PERMITS + 7 == USIZE - 1
  {
  }

  /** Everything about the other futures is as it was. */
  ghost predicate OthersKept<Id>(s: State<Id>, t: State<Id>, id: Id) {
    && t.futs.Keys == s.futs.Keys
    && forall x | x in s.futs && x != id :: t.futs[x] == s.futs[x]
  }

  /** A new semaphore is open and empty, with what was asked for available; excess bits are cut off. */
  lemma InitMeans<Id>(permits: nat) returns (cut: nat)
    ensures var s := Init<Id>(permits);
      && !s.closed && s.queue == [] && s.futs == map[] && s.avail <= MAX_PERMITS
      && permits == s.avail + cut * 2_305_843_009_213_693_952
  {
    cut := permits / (MAX_PERMITS + 1);
  }

  /** `acquire(n)` makes a future for exactly `n` permits that has nothing and waits nowhere. */
  lemma CreateMeans<Id>(s: State<Id>, id: Id, n: nat, w: Waker)
    requires Inv(s) && id !in s.futs
    ensures var t := Create(s, id, n);
      && Inv(t) && Pollable(t, id) && !t.futs[id].queued && t.futs[id].num == t.futs[id].state == n
      && t.futs[id].waker == None
      && (t.avail, t.closed, t.queue) == (s.avail, s.closed, s.queue)
      && t.futs.Keys == s.futs.Keys + {id}
      && forall x | x in s.futs :: t.futs[x] == s.futs[x]
    ensures var (u, r) := Poll(Create(s, id, n), id, w);
      !s.closed && n <= s.avail ==> r == Acquired && u.avail == s.avail - n && u.queue == s.queue
  {
    CreateKeeps(s, id, n);
  }

  /**
   * Which answer a poll gives, whatever the size of the request. A waiting future gets its
   * answer from what it was granted, a new one from what is available.
   */
  lemma PollAnswers<Id>(s: State<Id>, id: Id, w: Waker)
    requires Inv(s) && Pollable(s, id)
    ensures var f, r := s.futs[id], Poll(s, id, w).1;
      && (r == Closed <==> s.closed)
      && (r == Acquired <==> !s.closed && if f.queued then f.state == 0 else f.num <= s.avail)
      && (r == Pending <==> !s.closed && if f.queued then 0 < f.state else s.avail < f.num)
  {
  }

  /** What a poll does to the rest, answer by answer. */
  lemma PollLeaves<Id>(s: State<Id>, id: Id, w: Waker)
    requires Inv(s) && Pollable(s, id)
    ensures var f := s.futs[id]; var (t, r) := Poll(s, id, w);
      && OthersKept(s, t, id) && t.closed == s.closed && t.futs[id].num == f.num
      && (r == Closed ==> t == s)
      && (r == Acquired ==>
            && t.futs[id].done && !t.futs[id].queued && t.queue == s.queue
            && s.avail == t.avail + if f.queued then 0 else f.num)
      && (r == Pending ==>
            && t.avail == 0 && t.futs[id].state + s.avail == f.state
            && t.futs[id].queued && !t.futs[id].done && t.futs[id].waker == Refresh(f.waker, w)
            && t.queue == s.queue + if f.queued then [] else [id])
  {
    if s.futs[id].queued {
      assert s.queue + [] == s.queue;
    }
  }

  /** Which answer `try_acquire` gives for any number, zero included; it takes just that number. */
  lemma TryAcquireMeans<Id>(s: State<Id>, n: nat)
    ensures var (t, r) := TryAcquire(s, n);
      && (r == IsClosed <==> s.closed)
      && (r == NoPermits <==> !s.closed && s.avail < n)
      && (r == Granted <==> !s.closed && n <= s.avail)
      && s.avail == t.avail + (if r == Granted then n else 0)
      && (t.closed, t.queue, t.futs) == (s.closed, s.queue, s.futs)
  {
  }

  /** The wakers of a queue whose members all have one, place by place. */
  lemma {:induction false} WakersAre<Id>(q: seq<Id>, futs: map<Id, Fut>)
    requires forall i {:trigger q[i]} :: 0 <= i < |q| ==> q[i] in futs && futs[q[i]].waker.Some?
    ensures |Wakers(q, futs)| == |q|
    ensures forall i :: 0 <= i < |q| ==> Some(Wakers(q, futs)[i]) == futs[q[i]].waker
  {
    if q != [] {
      WakersAre(q[1..], futs);
    }
  }

  /** Closing closes, empties the queue and wakes each waiter once, oldest first; it grants nothing. */
  lemma CloseMeans<Id>(s: State<Id>)
    requires Inv(s)
    ensures Listed(s)
    ensures var (t, ws) := Close(s);
      && t.closed && t.queue == [] && t.avail == s.avail && t.futs.Keys == s.futs.Keys
      && |ws| == |s.queue| && (forall i :: 0 <= i < |ws| ==> Some(ws[i]) == s.futs[s.queue[i]].waker)
      && (forall id | id in s.futs && id !in s.queue :: t.futs[id] == s.futs[id])
      && forall id | id in s.queue :: var f := s.futs[id]; t.futs[id] == Fut(f.num, f.state, f.queued, f.done, None)
  {
    WakersAre(s.queue, s.futs);
  }

  /** Dropping a future is leaving the queue and handing out exactly what it was assigned and never returned. */
  lemma DropServes<Id>(s: State<Id>, id: Id) returns (k: nat)
    requires Inv(s) && id in s.futs
    ensures var f := s.futs[id];
      var rest := State(s.avail, s.closed, Without(s.queue, id), s.futs - {id});
      f.state <= f.num && var n := if f.queued then f.num - f.state else 0;
      Inv(rest) && Serves(rest, n, Drop(s, id).0, Drop(s, id).1, k)
  {
    UnlinkKeeps(s, id);
    k := DistributeServes(Unlink(s, id), Credit(s.futs[id]));
  }

  /** Handing out `n` permits panics iff what nobody wants exceeds the limit, or no longer fits the word. */
  lemma PanicsMeans<Id>(s: State<Id>, n: nat)
    requires Inv(s) && 2 * s.avail + 1 < 18_446_744_073_709_551_616
    ensures Listed(s)
    ensures Panics(s, n) <==> var left := n - Demand(s.queue, s.futs);
      MAX_PERMITS < left || (0 < left && 18_446_744_073_709_551_616 <= 2 * (s.avail + left) + 1)
  {
    var k := DistributeServes(s, n);
    assert s.queue[..|s.queue|] == s.queue;
    if k < |s.queue| {
      DemandOfMore(s.queue, s.futs, k);
    }
  }

  /** The first waiters and the next one need no more than all of them. */
  lemma {:induction false} DemandOfMore<Id>(q: seq<Id>, futs: map<Id, Fut>, k: nat)
    requires forall i {:trigger q[i]} :: 0 <= i < |q| ==> q[i] in futs
    requires k < |q|
    ensures Demand(q[..k], futs) + futs[q[k]].state <= Demand(q, futs)
  {
    if k > 0 {
      assert q[..k][1..] == q[1..][..k - 1];
      DemandOfMore(q[1..], futs, k - 1);
    }
  }

  /** Dropping a future panics iff handing out its permits to the others does. */
  lemma DropPanicsMeans<Id>(s: State<Id>, id: Id)
    requires Inv(s) && id in s.futs && 2 * s.avail + 1 < 18_446_744_073_709_551_616
    ensures var f := s.futs[id]; var rest := State(s.avail, s.closed, Without(s.queue, id), s.futs - {id});
      Listed(rest) && f.state <= f.num && (DropPanics(s, id) <==>
        var left := (if f.queued then f.num - f.state else 0) - Demand(rest.queue, rest.futs);
        MAX_PERMITS < left || (0 < left && 18_446_744_073_709_551_616 <= 2 * (s.avail + left) + 1))
  {
    UnlinkKeeps(s, id);
    PanicsMeans(Unlink(s, id), Credit(s.futs[id]));
  }

  /** A poll that panics has only emptied the counter; a drop that panics leaves what its hand-out leaves. */
  lemma PanickedCallsLeave<Id>(s: State<Id>, id: Id)
    requires Inv(s) && id in s.futs
    ensures Emptied(s) == State(0, s.closed, s.queue, s.futs)
    ensures var f := s.futs[id]; var rest := State(s.avail, s.closed, Without(s.queue, id), s.futs - {id});
      f.state <= f.num && Listed(rest) && DropUnstored(s, id) == Unstored(rest, if f.queued then f.num - f.state else 0)
  {
    UnlinkKeeps(s, id);
  }

  /** A hand-out that panics has still filled every waiter; only the leftover is missing. */
  lemma PanicLeaves<Id>(s: State<Id>, n: nat)
    requires Inv(s) && Fits(s)
    ensures Listed(s) && Panics(s, n) ==>
      var t := Unstored(s, n);
      && t.avail == s.avail && t.closed == s.closed && t.queue == [] && t.futs.Keys == s.futs.Keys
      && forall id | id in s.futs :: var f := s.futs[id];
           t.futs[id] == if id in s.queue then Fut(f.num, 0, f.queued, f.done, None) else f
  {
    var k := DistributeServes(s, n);
    assert s.queue[..|s.queue|] == s.queue;
  }

  // ----- when everyone wants one permit

  ghost predicate WantOneEach<Id>(s: State<Id>) {
    forall id | id in s.futs :: s.futs[id].num == 1
  }

  /** One permit goes to the oldest waiter, which is woken, or becomes available if nobody waits. */
  ghost predicate HandsOver<Id>(s: State<Id>, t: State<Id>, woken: seq<Waker>) {
    if s.queue == [] then t == State(s.avail + 1, s.closed, [], s.futs) && woken == []
    else
      var oldest := s.queue[0];
      && oldest in s.futs && var f := s.futs[oldest];
      && f.waker.Some? && woken == [f.waker.value]
      && t == State(s.avail, s.closed, s.queue[1..], s.futs[oldest := Fut(1, 0, f.queued, f.done, None)])
  }

  lemma OnePermitGoes<Id>(s: State<Id>)
    requires Inv(s) && WantOneEach(s)
    ensures Listed(s) && HandsOver(s, Distribute(s, 1).0, WakeOrder(Distribute(s, 1).1))
  {
    hide Inv, Owned, PopOldest;
    InvLists(s);
    if s.queue != [] {
      OldestLacksOne(s);
      PopOldestKeeps(s);
      DistributeNothing(PopOldest(s));
      var first := ToSeq(s.futs[s.queue[0]].waker);
      assert first + [] == first;
    }
  }

  lemma OldestLacksOne<Id>(s: State<Id>)
    requires Inv(s) && s.queue != [] && WantOneEach(s)
    ensures s.queue[0] in s.futs && var f := s.futs[s.queue[0]];
      f.state == 1 && f.waker.Some?
      && PopOldest(s) == State(s.avail, s.closed, s.queue[1..], s.futs[s.queue[0] := Fut(1, 0, f.queued, f.done, None)])
  {
  }

  /** A dropped future hands its permit over if it was granted one; otherwise it just leaves. */
  ghost predicate Leaves<Id>(s: State<Id>, id: Id, t: State<Id>, woken: seq<Waker>)
    requires id in s.futs
  {
    var rest := State(s.avail, s.closed, Without(s.queue, id), s.futs - {id});
    if s.futs[id].queued && s.futs[id].state == 0 then HandsOver(rest, t, woken) else t == rest && woken == []
  }

  lemma DropOfOne<Id>(s: State<Id>, id: Id)
    requires Inv(s) && WantOneEach(s) && id in s.futs
    ensures Leaves(s, id, Drop(s, id).0, WakeOrder(Drop(s, id).1))
  {
    hide Owned, Distribute, HandsOver;
    UnlinkKeeps(s, id);
    if s.futs[id].queued && s.futs[id].state == 0 {
      OnePermitGoes(Unlink(s, id));
    } else {
      DistributeNothing(Unlink(s, id));
      WakeOrderNothing<Waker>();
    }
  }

  /** Everyone waiting is woken, oldest first, and nobody is granted anything. */
  ghost predicate Shuts<Id>(s: State<Id>, t: State<Id>, woken: seq<Waker>) {
    && t.closed && t.queue == [] && t.avail == s.avail && t.futs.Keys == s.futs.Keys
    && |woken| == |s.queue|
    && (forall i {:trigger woken[i]} :: 0 <= i < |woken| ==>
          s.queue[i] in s.futs && Some(woken[i]) == s.futs[s.queue[i]].waker)
    && forall id | id in s.futs :: var f := s.futs[id];
         t.futs[id] == if id in s.queue then Fut(f.num, f.state, f.queued, f.done, None) else f
  }

  lemma CloseShuts<Id>(s: State<Id>)
    requires Inv(s)
    ensures Listed(s) && Shuts(s, Close(s).0, Close(s).1)
  {
    CloseMeans(s);
  }

  /**
   * An await of one permit is polled: its future waits, or has answered and is gone. A future
   * that had been granted its permit and finds the semaphore closed leaves the permit behind.
   */
  ghost predicate Awaited<Id>(s: State<Id>, t: State<Id>, r: PollResult, id: Id, w: Waker)
    requires id in s.futs
  {
    var f := s.futs[id];
    match r
    case Pending =>
      t == State(0, false, s.queue + (if f.queued then [] else [id]),
                 s.futs[id := Fut(1, 1, true, false, Refresh(f.waker, w))])
    case Acquired =>
      t == State(t.avail, false, s.queue, s.futs - {id}) && s.avail == t.avail + if f.queued then 0 else 1
    case Closed =>
      t == State(s.avail + (if f.queued && f.state == 0 then 1 else 0), true, [], s.futs - {id})
  }

  lemma AwaitOfOne<Id>(s: State<Id>, id: Id, w: Waker)
    requires Inv(s) && Pollable(s, id) && WantOneEach(s)
    ensures var (t, r) := Poll(s, id, w);
      && Inv(t) && id in t.futs
      && (r == Pending ==> Awaited(s, t, r, id, w))
      && (r != Pending ==> Awaited(s, Drop(t, id).0, r, id, w) && Drop(t, id).1 == [])
  {
    hide Drop, Owned;
    PollKeeps(s, id, w);
    var (t, r) := Poll(s, id, w);
    if r.Acquired? {
      DropUnqueued(t, id);
      assert t.futs - {id} == s.futs - {id};
    } else if r.Closed? {
      DropWhenClosed(s, id);
    } else if s.futs[id].queued {
      assert s.queue + [] == s.queue;
    }
  }

  lemma DropWhenClosed<Id>(s: State<Id>, id: Id)
    requires Inv(s) && s.closed && id in s.futs
    ensures Drop(s, id) == (State(s.avail + Credit(s.futs[id]), true, [], s.futs - {id}), [])
  {
    WithoutAbsent(s.queue, id);
    UnlinkKeeps(s, id);
  }

  // ----- the order of wake-ups

  lemma WakeOrderLength<T>(s: seq<T>)
    ensures |WakeOrder(s)| == |s|
  {
    WakeOrderIsPermutation(s);
    assert |multiset(WakeOrder(s))| == |multiset(s)|;
  }

  /** Which waker of a hand-out is woken `j`-th in batch `b`: batches hold 32, each goes backwards. */
  lemma {:induction false} WakeOrderAt<T>(s: seq<T>, b: nat, j: nat)
    requires j < 32 && 32 * b + j < |s|
    ensures |WakeOrder(s)| == |s|
    ensures var size := if |s| - 32 * b < 32 then |s| - 32 * b else 32;
      WakeOrder(s)[32 * b + j] == s[32 * b + size - 1 - j]
  {
    WakeOrderLength(s);
    if |s| <= 32 {
      ReverseAt(s, j);
    } else if b == 0 {
      ReverseAt(s[..32], j);
    } else {
      WakeOrderAt(s[32..], b - 1, j);
      assert |s[..32]| == 32;
    }
  }
}
