/** The intrusive wait list: the waiters themselves carry the links. */
module LinkedLists {
  import opened Base

  /**
   * An `Acquire` future together with the waiter embedded in it: one object, as in memory.
   * `state` counts the permits it still needs; `prev` and `next` are its links.
   */
  class Waiter {
    const numPermits: nat
    var queued: bool
    var state: nat
    var waker: Option<Waker>
    var prev: Waiter?
    var next: Waiter?
    /** Set once the future has returned Ready(Ok). */
    ghost var done: bool

    constructor (permits: nat)
      ensures numPermits == state == permits && !queued && !done && waker == None && Unlinked()
    {
      numPermits, state, waker := permits, permits, None;
      queued, done := false, false;
      prev, next := null, null;
    }

    ghost predicate Unlinked()
      reads this`prev, this`next
    {
      prev == null && next == null
    }

    /** Moves as many of the `n` permits to the waiter as it still needs. */
    method AssignPermits(n: nat) returns (left: nat, satisfied: bool)
      modifies this`state
      ensures state + n == old(state) + left
      ensures state == 0 || left == 0
      ensures satisfied <==> state == 0
    {
      var assign := if state < n then state else n;
      state := state - assign;
      left := n - assign;
      satisfied := state == 0;
    }
  }

  class LinkedList {
    var head: Waiter?
    var tail: Waiter?
    /** The linked waiters, tail (oldest) first: the order in which `PopBack` returns them. */
    ghost var nodes: seq<Waiter>
    /** The same waiters as a set. */
    ghost var members: set<Waiter>

    ghost predicate Valid()
      reads this, members`prev, members`next
    {
      && Distinct(nodes)
      && Enumerates(nodes, members)
      && Linked(nodes)
    }

    /** `prev` leads from the tail to the head, `next` back, and both ends are null. */
    ghost predicate Linked(ns: seq<Waiter>)
      reads this, ns`prev, ns`next
    {
      && tail == (if ns == [] then null else ns[0])
      && head == (if ns == [] then null else ns[|ns| - 1])
      && (forall i {:trigger ns[i].prev} :: 0 <= i < |ns| ==>
            ns[i].prev == if i + 1 < |ns| then ns[i + 1] else null)
      && (forall i {:trigger ns[i].next} :: 0 <= i < |ns| ==>
            ns[i].next == if i > 0 then ns[i - 1] else null)
    }

    /** Every waiter of `ns` except the `k`-th is linked as if the `k`-th were not there. */
    ghost predicate Bypassed(ns: seq<Waiter>, k: nat)
      requires k < |ns|
      reads this, ns`prev, ns`next
    {
      var before := if k > 0 then ns[k - 1] else null;
      var after := if k + 1 < |ns| then ns[k + 1] else null;
      && tail == (if k > 0 then ns[0] else after)
      && head == (if k + 1 < |ns| then ns[|ns| - 1] else before)
      && (forall i {:trigger ns[i].prev} :: 0 <= i < |ns| && i != k ==>
            ns[i].prev == if i + 1 == k then after else if i + 1 < |ns| then ns[i + 1] else null)
      && (forall i {:trigger ns[i].next} :: 0 <= i < |ns| && i != k ==>
            ns[i].next == if i == k + 1 then before else if i > 0 then ns[i - 1] else null)
    }

    lemma BypassedIsLinked(ns: seq<Waiter>, k: nat)
      requires k < |ns| && Bypassed(ns, k)
      requires Distinct(ns)
      ensures Linked(Without(ns, ns[k]))
    {
      WithoutAt(ns, k);
      var ms := ns[..k] + ns[k + 1..];
      assert forall i :: 0 <= i < |ms| ==> ms[i] == ns[if i < k then i else i + 1];
      forall i {:trigger ms[i].prev} | 0 <= i < |ms|
        ensures ms[i].prev == if i + 1 < |ms| then ms[i + 1] else null
      {
        assert ms[i] == ns[if i < k then i else i + 1];
      }
      forall i {:trigger ms[i].next} | 0 <= i < |ms|
        ensures ms[i].next == if i > 0 then ms[i - 1] else null
      {
        assert ms[i] == ns[if i < k then i else i + 1];
      }
    }

    constructor ()
      ensures Valid() && nodes == [] && members == {}
    {
      head, tail := null, null;
      nodes, members := [], {};
    }

    method PushFront(w: Waiter)
      requires Valid()
      requires w !in members
      modifies this, members`prev, w`prev, w`next
      ensures Valid() && nodes == old(nodes) + [w] && members == old(members) + {w}
    {
      assert head != w;
      DistinctPush(nodes, w);
      EnumeratesPush(nodes, members, w);
      if nodes != [] {
        OthersDiffer(nodes, |nodes| - 1);
      }
      w.next := head;
      w.prev := null;
      if head != null {
        head.prev := w;
      }
      head := w;
      if tail == null {
        tail := w;
      }
      nodes, members := nodes + [w], members + {w};
    }

    method PopBack() returns (r: Option<Waiter>)
      requires Valid()
      modifies this, members`prev, members`next
      ensures Valid()
      ensures r == if old(nodes) == [] then None else Some(old(nodes)[0])
      ensures nodes == if old(nodes) == [] then [] else old(nodes)[1..]
      ensures members == if old(nodes) == [] then {} else old(members) - {old(nodes)[0]}
      ensures r.Some? ==> r.value.Unlinked()
    {
      if tail == null {
        assert members == {} by {
          assert forall w | w in members :: Occurs(nodes, w);
        }
        return None;
      }
      var last := tail;
      DistinctTail(nodes);
      EnumeratesTail(nodes, members);
      if |nodes| > 1 {
        OthersDiffer(nodes, 1);
      }
      tail := last.prev;
      if last.prev != null {
        last.prev.next := null;
      } else {
        head := null;
      }
      last.prev := null;
      last.next := null;
      nodes, members := nodes[1..], members - {last};
      r := Some(last);
    }

    method Last() returns (r: Option<Waiter>)
      requires Valid()
      ensures r == if nodes == [] then None else Some(nodes[0])
    {
      r := if tail != null then Some(tail) else None;
    }

    method IsEmpty() returns (b: bool)
      requires Valid()
      ensures b <==> nodes == []
    {
      if head != null {
        return false;
      }
      assert tail == null;
      b := true;
    }

    /**
     * Unlinks `w` wherever it stands; a waiter that is in no list is left alone.
     * Both debug assertions of the source hold, and its second `None` return, which
     * would leave `head` changed, is never reached.
     */
    method Remove(w: Waiter) returns (r: Option<Waiter>)
      requires Valid()
      requires w in members || w.Unlinked()
      modifies this, members`prev, members`next
      ensures Valid() && w.Unlinked()
      ensures nodes == Without(old(nodes), w) && members == old(members) - {w}
      ensures r == if w in old(members) then Some(w) else None
      ensures w !in old(members) ==> unchanged(this) && unchanged(old(members))
    {
      if w.prev == null && head != w {
        assert w in members ==> Occurs(nodes, w);
        WithoutAbsent(nodes, w);
        return None;
      }
      assert Occurs(nodes, w);
      ghost var k :| 0 <= k < |nodes| && nodes[k] == w;
      Splice(w, k);
      BypassedIsLinked(nodes, k);
      DistinctWithout(nodes, w);
      EnumeratesWithout(nodes, members, w);
      nodes, members := Without(nodes, w), members - {w};
      r := Some(w);
    }

    /** The pointer surgery of `Remove` on a linked waiter. */
    method Splice(w: Waiter, ghost k: nat)
      requires Valid()
      requires k < |nodes| && nodes[k] == w
      modifies this`head, this`tail, members`prev, members`next
      ensures Bypassed(nodes, k) && w.Unlinked()
    {
      OthersDiffer(nodes, k);
      if k > 0 {
        OthersDiffer(nodes, k - 1);
      }
      if k + 1 < |nodes| {
        OthersDiffer(nodes, k + 1);
      }
      if w.prev != null {
        assert w.prev.next == w;
        w.prev.next := w.next;
      } else {
        head := w.next;
      }
      if w.next != null {
        assert w.next.prev == w;
        w.next.prev := w.prev;
      } else {
        if tail != w {
          assert false;
        }
        tail := w.prev;
      }
      w.next := null;
      w.prev := null;
    }
  }
}
