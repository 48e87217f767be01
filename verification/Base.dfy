/** Small shared vocabulary: options, wakers, and facts about sequences, sets and maps. */
module Base {

  datatype Option<+T> = None | Some(value: T)

  /** An option as a sequence of at most one element. */
  function ToSeq<T>(o: Option<T>): seq<T> {
    match o
    case None => []
    case Some(x) => [x]
  }

  /** A handle to a task. Two handles are interchangeable when they wake the same task. */
  datatype Waker = Waker(task: nat, handle: nat) {
    predicate WillWake(other: Waker) {
      task == other.task
    }
  }

  /** Some entry of `log` at or after `mark` wakes the task of `w`. */
  ghost predicate WokenSince(log: seq<Waker>, mark: nat, w: Waker) {
    exists k :: mark <= k < |log| && log[k].WillWake(w)
  }

  /** A wake-up that happened stays in the log. */
  lemma LogGrows(log: seq<Waker>, more: seq<Waker>, mark: nat, w: Waker)
    requires WokenSince(log, mark, w)
    ensures WokenSince(log + more, mark, w)
  {
    var k :| mark <= k < |log| && log[k].WillWake(w);
    assert (log + more)[k] == log[k];
  }

  /** A wake-up that is just happening counts from any earlier mark on. */
  lemma LogGains(log: seq<Waker>, more: seq<Waker>, mark: nat, v: Waker, w: Waker)
    requires v in more && v.WillWake(w) && mark <= |log|
    ensures WokenSince(log + more, mark, w)
  {
    var k :| 0 <= k < |more| && more[k] == v;
    assert (log + more)[|log| + k] == v;
  }

  ghost predicate Differ<T>(s: seq<T>, i: nat, j: nat)
    requires i < |s| && j < |s|
  {
    s[i] != s[j]
  }

  /** No element occurs twice. (`Differ` keeps the solver from trying every pair of indices.) */
  ghost predicate Distinct<T>(s: seq<T>) {
    forall i, j :: 0 <= i < j < |s| ==> Differ(s, i, j)
  }

  ghost predicate Occurs<T>(s: seq<T>, x: T) {
    x in s
  }

  /** `m` is the set of the elements of `s`. */
  ghost predicate Enumerates<T>(s: seq<T>, m: set<T>) {
    && (forall i :: 0 <= i < |s| ==> s[i] in m)
    && (forall x {:trigger Occurs(s, x)} | x in m :: Occurs(s, x))
  }

  lemma EnumeratesPush<T>(s: seq<T>, m: set<T>, x: T)
    requires Enumerates(s, m)
    ensures Enumerates(s + [x], m + {x})
  {
    forall y | y in m + {x}
      ensures Occurs(s + [x], y)
    {
      assert y in m ==> Occurs(s, y);
    }
  }

  lemma EnumeratesTail<T>(s: seq<T>, m: set<T>)
    requires Enumerates(s, m) && s != [] && Distinct(s)
    ensures Enumerates(s[1..], m - {s[0]})
  {
    DistinctTail(s);
    forall y | y in m - {s[0]}
      ensures Occurs(s[1..], y)
    {
      assert Occurs(s, y);
    }
  }

  lemma EnumeratesWithout<T>(s: seq<T>, m: set<T>, x: T)
    requires Enumerates(s, m)
    ensures Enumerates(Without(s, x), m - {x})
  {
    var r := Without(s, x);
    forall i | 0 <= i < |r|
      ensures r[i] in m - {x}
    {
      assert r[i] in r;
    }
    forall y | y in m - {x}
      ensures Occurs(r, y)
    {
      assert Occurs(s, y);
    }
  }

  lemma EnumeratesRecycled<T>(s: seq<T>, m: set<T>, k: nat)
    requires Enumerates(s, m) && k < |s|
    ensures Enumerates(Recycled(s, k), m)
  {
    var r := Recycled(s, k);
    forall x | x in m
      ensures Occurs(r, x)
    {
      assert Occurs(s, x);
      var i :| 0 <= i < |s| && s[i] == x;
      assert r[if i == 0 then k else if i <= k then i - 1 else i] == x;
    }
  }

  /** A sequence that lists a set once each is as long as the set is large. */
  lemma {:induction false} EnumeratesCounts<T>(s: seq<T>, m: set<T>)
    requires Enumerates(s, m) && Distinct(s)
    ensures |m| == |s|
  {
    if s == [] {
      assert forall x | x in m :: Occurs(s, x);
      assert m == {};
    } else {
      EnumeratesTail(s, m);
      DistinctTail(s);
      EnumeratesCounts(s[1..], m - {s[0]});
    }
  }

  lemma OthersDiffer<T>(s: seq<T>, k: nat)
    requires Distinct(s) && k < |s|
    ensures forall i :: 0 <= i < |s| && i != k ==> s[i] != s[k]
  {
    forall i | 0 <= i < |s| && i != k
      ensures s[i] != s[k]
    {
      assert if i < k then Differ(s, i, k) else Differ(s, k, i);
    }
  }

  lemma DistinctTail<T>(s: seq<T>)
    requires Distinct(s) && s != []
    ensures Distinct(s[1..]) && s[0] !in s[1..]
  {
    OthersDiffer(s, 0);
    forall i, j | 0 <= i < j < |s| - 1
      ensures Differ(s[1..], i, j)
    {
      assert Differ(s, i + 1, j + 1);
    }
  }

  lemma DistinctPush<T>(s: seq<T>, x: T)
    requires Distinct(s) && x !in s
    ensures Distinct(s + [x])
  {
    forall i, j | 0 <= i < j < |s| + 1
      ensures Differ(s + [x], i, j)
    {
      assert j < |s| ==> Differ(s, i, j);
    }
  }

  /** `s` with its first element moved behind position `k`. */
  ghost function Recycled<T>(s: seq<T>, k: nat): (r: seq<T>)
    requires k < |s|
    ensures |r| == |s| && forall i :: 0 <= i < |s| ==> r[i] == s[if i < k then i + 1 else if i == k then 0 else i]
  {
    s[1..k + 1] + [s[0]] + s[k + 1..]
  }

  lemma DistinctRecycled<T>(s: seq<T>, k: nat)
    requires Distinct(s) && k < |s|
    ensures Distinct(Recycled(s, k))
  {
    forall i, j | 0 <= i < j < |s|
      ensures Differ(Recycled(s, k), i, j)
    {
      var x := if i < k then i + 1 else if i == k then 0 else i;
      var y := if j < k then j + 1 else if j == k then 0 else j;
      assert if x < y then Differ(s, x, y) else Differ(s, y, x);
    }
  }

  lemma DistinctWithout<T>(s: seq<T>, x: T)
    requires Distinct(s)
    ensures Distinct(Without(s, x))
  {
    if x in s {
      var k :| 0 <= k < |s| && s[k] == x;
      WithoutAt(s, k);
      var r := s[..k] + s[k + 1..];
      forall i, j | 0 <= i < j < |r|
        ensures Differ(r, i, j)
      {
        assert Differ(s, if i < k then i else i + 1, if j < k then j else j + 1);
      }
    } else {
      WithoutAbsent(s, x);
    }
  }

  /** `s` without any occurrence of `x`, the rest in the same order. */
  ghost function Without<T>(s: seq<T>, x: T): (r: seq<T>)
    ensures x !in r
    ensures forall y | y in r :: y in s && y != x
    ensures forall y | y in s && y != x :: y in r
  {
    if s == [] then [] else if s[0] == x then Without(s[1..], x) else [s[0]] + Without(s[1..], x)
  }

  lemma {:induction false} WithoutAbsent<T>(s: seq<T>, x: T)
    requires x !in s
    ensures Without(s, x) == s
  {
    if s != [] {
      WithoutAbsent(s[1..], x);
    }
  }

  lemma {:induction false} WithoutAt<T>(s: seq<T>, k: nat)
    requires k < |s|
    requires Distinct(s)
    ensures Without(s, s[k]) == s[..k] + s[k + 1..]
  {
    DistinctTail(s);
    if k == 0 {
      WithoutAbsent(s[1..], s[0]);
    } else {
      assert Differ(s, 0, k);
      WithoutAt(s[1..], k - 1);
      assert s[..k] + s[k + 1..] == [s[0]] + (s[1..][..k - 1] + s[1..][k..]);
    }
  }

  /** The sum of the values of a finite map. */
  ghost function Sum<K>(m: map<K, nat>): nat {
    if m == map[] then 0 else
      var k :| k in m;
      m[k] + Sum(m - {k})
  }

  lemma {:induction false} SumRemove<K>(m: map<K, nat>, k: K)
    requires k in m
    ensures Sum(m) == m[k] + Sum(m - {k})
    decreases |m|
  {
    var j :| j in m && Sum(m) == m[j] + Sum(m - {j});
    if j != k {
      SumRemove(m - {j}, k);
      SumRemove(m - {k}, j);
      assert m - {j} - {k} == m - {k} - {j};
    }
  }

  lemma {:induction false} SumOfZeros<K>(m: map<K, nat>)
    requires forall k | k in m :: m[k] == 0
    ensures Sum(m) == 0
    decreases |m|
  {
    if m != map[] {
      var j :| j in m && Sum(m) == m[j] + Sum(m - {j});
      SumOfZeros(m - {j});
    }
  }

  lemma SumUpdate<K>(m: map<K, nat>, k: K, v: nat)
    ensures Sum(m[k := v]) == v + Sum(m - {k})
  {
    SumRemove(m[k := v], k);
    assert m[k := v] - {k} == m - {k};
  }

  lemma MapUpdatedTwice<K, V>(m: map<K, V>, k: K, u: V, v: V)
    ensures m[k := u][k := v] == m[k := v]
  {
  }

  lemma MapUnchanged<K, V>(m: map<K, V>, k: K)
    requires k in m
    ensures m[k := m[k]] == m
  {
  }
}
