/** The queues of an event loop and the flags that say which of them an event is on. */
module Queues {

  /** An event or a bare callback: on which queues it is, what kind it is, its priority, and when and
      in which common-timeout list (-1 for the heap) it times out. */
  datatype Ev = Ev(timeout: bool, inserted: bool, active: bool, later: bool,
                   internal: bool, finalizing: bool, isEvent: bool, io: bool, persist: bool,
                   pri: nat, deadline: int, list: int, resTimeout: bool)

  type Queue = seq<nat>

  /** One of the queues. */
  datatype Which = Active(pri: nat) | Later | Heap | Common(l: nat)

  predicate Member(e: Ev, k: Which) {
    match k
    case Active(p) => e.active && e.pri == p
    case Later => e.later
    case Heap => e.timeout && e.list < 0
    case Common(l) => e.timeout && e.list == l
  }

  datatype Queues = Queues(active: seq<Queue>, later: Queue, heap: Queue, lists: seq<Queue>)

  predicate IsQueue(qs: Queues, k: Which) {
    match k
    case Active(p) => p < |qs.active|
    case Common(l) => l < |qs.lists|
    case _ => true
  }

  function Get(qs: Queues, k: Which): Queue
    requires IsQueue(qs, k)
  {
    match k
    case Active(p) => qs.active[p]
    case Later => qs.later
    case Heap => qs.heap
    case Common(l) => qs.lists[l]
  }

  function Put(qs: Queues, k: Which, q: Queue): (qs': Queues)
    requires IsQueue(qs, k)
    ensures |qs'.active| == |qs.active| && |qs'.lists| == |qs.lists|
    ensures forall j :: IsQueue(qs, j) ==> IsQueue(qs', j) && Get(qs', j) == if j == k then q else Get(qs, j)
  {
    match k
    case Active(p) => qs.(active := qs.active[p := q])
    case Later => qs.(later := q)
    case Heap => qs.(heap := q)
    case Common(l) => qs.(lists := qs.lists[l := q])
  }

  // ----- flags and membership

  ghost predicate NoDup(q: Queue) {
    forall i, j :: 0 <= i < j < |q| ==> q[i] != q[j]
  }

  /** The queue holds, once each, the events that are flagged as being on it. */
  ghost predicate Holds(evs: seq<Ev>, q: Queue, k: Which) {
    && NoDup(q)
    && (forall x: nat :: x in q <==> x < |evs| && Member(evs[x], k))
  }

  ghost predicate QueuesOk(evs: seq<Ev>, qs: Queues) {
    forall k {:trigger Get(qs, k)} :: IsQueue(qs, k) ==> Holds(evs, Get(qs, k), k)
  }

  /** Remove x. */
  function Without(q: Queue, x: nat): Queue {
    if q == [] then [] else if q[0] == x then q[1..] else [q[0]] + Without(q[1..], x)
  }

  lemma {:induction false} WithoutRight(q: Queue, x: nat)
    requires NoDup(q)
    ensures NoDup(Without(q, x)) && forall y :: y in Without(q, x) <==> y in q && y != x
    ensures |Without(q, x)| == |q| - if x in q then 1 else 0
  {
    if q != [] {
      if q[0] == x {
        assert forall i :: 0 < i < |q| ==> q[i] != x;
        assert forall i, j :: 0 <= i < j < |q[1..]| ==> q[1..][i] == q[i + 1] && q[1..][j] == q[j + 1];
      } else {
        assert forall i, j :: 0 <= i < j < |q[1..]| ==> q[1..][i] == q[i + 1] && q[1..][j] == q[j + 1];
        WithoutRight(q[1..], x);
        var w := Without(q[1..], x);
        assert q[0] !in w by {
          assert q[0] !in q[1..];
        }
      }
    }
  }

  /** A queue with x put in at place i. */
  function InsertAt(q: Queue, i: nat, x: nat): Queue
    requires i <= |q|
  {
    q[..i] + [x] + q[i..]
  }

  lemma {:induction false} InsertAtRight(q: Queue, i: nat, x: nat)
    requires NoDup(q) && x !in q && i <= |q|
    ensures NoDup(InsertAt(q, i, x)) && forall y :: y in InsertAt(q, i, x) <==> y in q || y == x
  {
    var r := InsertAt(q, i, x);
    forall a, b | 0 <= a < b < |r|
      ensures r[a] != r[b]
    {
      assert r[a] == if a < i then q[a] else if a == i then x else q[a - 1];
      assert r[b] == if b < i then q[b] else if b == i then x else q[b - 1];
    }
    forall y
      ensures y in r <==> y in q || y == x
    {
      if y in q {
        var a :| 0 <= a < |q| && q[a] == y;
        assert r[if a < i then a else a + 1] == y;
      }
      assert r[i] == x;
    }
  }

  /** x leaves queue k: the flag is cleared and the queue loses it. */
  lemma {:induction false} HoldsRemove(evs: seq<Ev>, q: Queue, k: Which, x: nat, e: Ev)
    requires Holds(evs, q, k) && x < |evs| && !Member(e, k)
    ensures Holds(evs[x := e], Without(q, x), k)
  {
    WithoutRight(q, x);
  }

  lemma {:induction false} HoldsInsert(evs: seq<Ev>, q: Queue, k: Which, x: nat, e: Ev, i: nat)
    requires Holds(evs, q, k) && x < |evs| && !Member(evs[x], k) && Member(e, k) && i <= |q|
    ensures Holds(evs[x := e], InsertAt(q, i, x), k)
  {
    InsertAtRight(q, i, x);
  }

  /** Nothing changes for a queue that x neither joins nor leaves. */
  lemma {:induction false} HoldsSame(evs: seq<Ev>, q: Queue, k: Which, x: nat, e: Ev)
    requires Holds(evs, q, k) && x < |evs| && (Member(e, k) <==> Member(evs[x], k))
    ensures Holds(evs[x := e], q, k)
  {
  }

  /** x changes its membership in queue k only. */
  lemma {:induction false} OneQueue(evs: seq<Ev>, qs: Queues, x: nat, e: Ev, k: Which, q: Queue)
    requires QueuesOk(evs, qs) && x < |evs| && IsQueue(qs, k) && Holds(evs[x := e], q, k)
    requires forall j :: j != k ==> (Member(e, j) <==> Member(evs[x], j))
    ensures QueuesOk(evs[x := e], Put(qs, k, q))
  {
    forall j | IsQueue(Put(qs, k, q), j)
      ensures Holds(evs[x := e], Get(Put(qs, k, q), j), j)
    {
      assert IsQueue(qs, j);
      if j != k {
        HoldsSame(evs, Get(qs, j), j, x, e);
      }
    }
  }

  // ----- counters

  function One(b: bool): nat { if b then 1 else 0 }

  /** How many queues does a non-internal event count for? */
  function Weight(e: Ev): nat {
    if e.internal then 0 else One(e.timeout) + One(e.inserted) + One(e.active) + One(e.later)
  }

  function Sum(evs: seq<Ev>): nat {
    if evs == [] then 0 else Weight(evs[0]) + Sum(evs[1..])
  }

  lemma {:induction false} SumUpdate(evs: seq<Ev>, x: nat, e: Ev)
    requires x < |evs|
    ensures Sum(evs[x := e]) == Sum(evs) - Weight(evs[x]) + Weight(e)
  {
    if x > 0 {
      assert evs[x := e][1..] == evs[1..][x - 1 := e];
      SumUpdate(evs[1..], x - 1, e);
    } else {
      assert evs[x := e][1..] == evs[1..];
    }
  }

  lemma {:induction false} SumAppend(evs: seq<Ev>, e: Ev)
    ensures Sum(evs + [e]) == Sum(evs) + Weight(e)
  {
    if evs == [] {
      assert evs + [e] == [e];
    } else {
      assert (evs + [e])[1..] == evs[1..] + [e];
      SumAppend(evs[1..], e);
    }
  }

  function Lengths(qs: seq<Queue>): nat {
    if qs == [] then 0 else |qs[0]| + Lengths(qs[1..])
  }

  lemma {:induction false} LengthsUpdate(qs: seq<Queue>, p: nat, q: Queue)
    requires p < |qs|
    ensures Lengths(qs[p := q]) == Lengths(qs) - |qs[p]| + |q|
  {
    if p > 0 {
      assert qs[p := q][1..] == qs[1..][p - 1 := q];
      LengthsUpdate(qs[1..], p - 1, q);
    } else {
      assert qs[p := q][1..] == qs[1..];
    }
  }

  /** The number of callbacks queued to run, now or later. */
  function Pending(qs: Queues): nat {
    Lengths(qs.active) + |qs.later|
  }

  lemma {:induction false} PendingPut(qs: Queues, k: Which, q: Queue)
    requires IsQueue(qs, k)
    ensures Pending(Put(qs, k, q)) == Pending(qs) + if k.Active? || k.Later? then |q| - |Get(qs, k)| else 0
  {
    if k.Active? {
      LengthsUpdate(qs.active, k.pri, q);
    }
  }

  // ----- common-timeout lists

  /** When does an event time out? */
  function Due(evs: seq<Ev>, x: nat): int {
    if x < |evs| then evs[x].deadline else 0
  }

  ghost predicate Sorted(evs: seq<Ev>, q: Queue) {
    forall i, j :: 0 <= i < j < |q| ==> Due(evs, q[i]) <= Due(evs, q[j])
  }

  lemma {:induction false} SortedSame(evs: seq<Ev>, q: Queue, x: nat, e: Ev)
    requires Sorted(evs, q) && x < |evs| && (x !in q || e.deadline == evs[x].deadline)
    ensures Sorted(evs[x := e], q)
  {
  }

  lemma {:induction false} SortedTail(evs: seq<Ev>, q: Queue)
    requires Sorted(evs, q) && q != []
    ensures Sorted(evs, q[1..])
  {
    forall i, j | 0 <= i < j < |q[1..]|
      ensures Due(evs, q[1..][i]) <= Due(evs, q[1..][j])
    {
      assert q[1..][i] == q[i + 1] && q[1..][j] == q[j + 1];
    }
  }

  lemma {:induction false} SortedCons(evs: seq<Ev>, x: nat, q: Queue)
    requires Sorted(evs, q) && forall y :: y in q ==> Due(evs, x) <= Due(evs, y)
    ensures Sorted(evs, [x] + q)
  {
    var r := [x] + q;
    forall i, j | 0 <= i < j < |r|
      ensures Due(evs, r[i]) <= Due(evs, r[j])
    {
      assert r[j] == q[j - 1] && r[j] in q;
      if i > 0 {
        assert r[i] == q[i - 1];
      }
    }
  }

  lemma {:induction false} SortedWithout(evs: seq<Ev>, q: Queue, x: nat)
    requires Sorted(evs, q)
    ensures Sorted(evs, Without(q, x)) && forall y :: y in Without(q, x) ==> y in q
  {
    if q != [] {
      SortedTail(evs, q);
      if q[0] != x {
        SortedWithout(evs, q[1..], x);
        forall y | y in Without(q[1..], x)
          ensures Due(evs, q[0]) <= Due(evs, y)
        {
          assert y in q[1..];
          var j :| 0 <= j < |q[1..]| && q[1..][j] == y;
          assert q[j + 1] == y;
        }
        SortedCons(evs, q[0], Without(q[1..], x));
      }
    }
  }

  lemma {:induction false} SortedInsert(evs: seq<Ev>, q: Queue, i: nat, x: nat)
    requires Sorted(evs, q) && i <= |q|
    requires forall j :: 0 <= j < i ==> Due(evs, q[j]) <= Due(evs, x)
    requires forall j :: i <= j < |q| ==> Due(evs, x) <= Due(evs, q[j])
    ensures Sorted(evs, InsertAt(q, i, x))
  {
    var r := InsertAt(q, i, x);
    forall a, b | 0 <= a < b < |r|
      ensures Due(evs, r[a]) <= Due(evs, r[b])
    {
      assert r[a] == if a < i then q[a] else if a == i then x else q[a - 1];
      assert r[b] == if b < i then q[b] else if b == i then x else q[b - 1];
    }
  }
}
