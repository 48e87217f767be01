/** The fixed buffer of wakers that `add_permits` fills and flushes. */
module WakeLists {
  import opened Base

  const NUM_WAKERS := 32

  ghost function Reverse<T>(s: seq<T>): (r: seq<T>)
    ensures |r| == |s|
    ensures multiset(r) == multiset(s)
  {
    if s == [] then [] else
      assert s == [s[0]] + s[1..];
      Reverse(s[1..]) + [s[0]]
  }

  lemma {:induction false} ReverseAt<T>(s: seq<T>, k: nat)
    requires k < |s|
    ensures Reverse(s)[k] == s[|s| - 1 - k]
  {
    if k < |s| - 1 {
      ReverseAt(s[1..], k);
    }
  }

  /** The order in which popped wakers are woken: batch after batch, each batch backwards. */
  ghost function WakeOrder<T>(s: seq<T>): seq<T> {
    if |s| <= NUM_WAKERS then Reverse(s) else Reverse(s[..NUM_WAKERS]) + WakeOrder(s[NUM_WAKERS..])
  }

  /** Batching changes the order of the wake-ups, never which wakers are woken or how often. */
  lemma {:induction false} WakeOrderIsPermutation<T>(s: seq<T>)
    ensures multiset(WakeOrder(s)) == multiset(s)
  {
    if |s| > NUM_WAKERS {
      WakeOrderIsPermutation(s[NUM_WAKERS..]);
      assert s == s[..NUM_WAKERS] + s[NUM_WAKERS..];
    }
  }

  lemma WakeOrderNothing<T>()
    ensures WakeOrder<T>([]) == []
  {
  }

  /** Flushing one batch and going on is the same as having taken all the wakers at once. */
  lemma FlushBatch<T>(batch: seq<T>, rest: seq<T>)
    requires |batch| <= NUM_WAKERS
    requires |batch| == NUM_WAKERS || rest == []
    ensures WakeOrder(batch + rest) == Reverse(batch) + WakeOrder(rest)
  {
    assert rest == [] ==> batch + rest == batch;
    assert (batch + rest)[..|batch|] == batch;
    assert (batch + rest)[|batch|..] == rest;
  }

  class WakeList {
    const inner: array<Option<Waker>>
    var curr: nat
    /** The wakers pushed and not yet woken, in push order. */
    ghost var pending: seq<Waker>

    ghost predicate Valid()
      reads this, inner
    {
      && inner.Length == NUM_WAKERS
      && curr == |pending| <= NUM_WAKERS
      && forall i :: 0 <= i < curr ==> inner[i] == Some(pending[i])
    }

    constructor ()
      ensures Valid() && pending == [] && fresh(inner)
    {
      inner := new Option<Waker>[NUM_WAKERS](_ => None);
      curr := 0;
      pending := [];
    }

    predicate CanPush()
      reads this
    {
      curr < NUM_WAKERS
    }

    method Push(w: Waker)
      requires Valid()
      requires |pending| < NUM_WAKERS
      modifies this`curr, this`pending, inner
      ensures Valid() && pending == old(pending) + [w]
    {
      inner[curr] := Some(w);
      curr := curr + 1;
      pending := pending + [w];
    }

    /**
     * Every slot read is initialised; the batch is woken last-pushed first. A `wake` only
     * schedules, so the calls are reported as the sequence of wakers woken.
     */
    method WakeAll() returns (woken: seq<Waker>)
      requires Valid()
      modifies this`curr, this`pending
      ensures Valid() && pending == []
      ensures woken == Reverse(old(pending))
    {
      woken := [];
      while curr > 0
        invariant 0 <= curr <= |old(pending)|
        invariant Valid() && pending == old(pending)[..curr]
        invariant woken == Reverse(old(pending)[curr..])
      {
        curr := curr - 1;
        assert old(pending)[curr..][1..] == old(pending)[curr + 1..];
        woken := woken + [inner[curr].value];
        pending := pending[..curr];
      }
    }
  }
}
