/** The event loop's operations on its queues: adding, deleting and activating events, timeouts, and
    the lists of events that share a timeout. */
module EventLoop {
  import opened Queues

  ghost predicate EvOk(e: Ev, qs: Queues) {
    && !(e.active && e.later)
    && (e.finalizing ==> !e.timeout)
    && (e.inserted ==> e.io)
    && e.pri < |qs.active| && e.list < |qs.lists|
  }

  /** Flags are memberships, counters are sizes, and common-timeout lists are sorted. */
  ghost predicate StateOk(evs: seq<Ev>, qs: Queues, count: int, pending: int) {
    && QueuesOk(evs, qs)
    && (forall x :: 0 <= x < |evs| ==> EvOk(evs[x], qs))
    && (forall l :: 0 <= l < |qs.lists| ==> Sorted(evs, qs.lists[l]))
    && count == Sum(evs) && pending == Pending(qs)
  }

  function Queued(k: Which, n: int): int {
    if k.Active? || k.Later? then n else 0
  }

  lemma {:induction false} SortedRest(evs: seq<Ev>, qs: Queues, x: nat, e: Ev, j: nat)
    requires QueuesOk(evs, qs) && j < |qs.lists| && Sorted(evs, qs.lists[j]) && x < |evs|
    requires e.deadline == evs[x].deadline || !evs[x].timeout
    ensures Sorted(evs[x := e], qs.lists[j])
  {
    assert Holds(evs, Get(qs, Common(j)), Common(j));
    SortedSame(evs, qs.lists[j], x, e);
  }

  /** x joins or leaves queue k, which becomes q. */
  lemma {:induction false} Change(evs: seq<Ev>, qs: Queues, count: int, pending: int, x: nat, e: Ev, k: Which, q: Queue)
    requires StateOk(evs, qs, count, pending) && x < |evs| && EvOk(e, qs) && IsQueue(qs, k)
    requires Holds(evs[x := e], q, k) && (k.Common? ==> Sorted(evs[x := e], q))
    requires forall j :: j != k ==> (Member(e, j) <==> Member(evs[x], j))
    requires e.deadline == evs[x].deadline || !evs[x].timeout
    ensures StateOk(evs[x := e], Put(qs, k, q), count - Weight(evs[x]) + Weight(e),
                    pending + Queued(k, |q| - |Get(qs, k)|))
  {
    OneQueue(evs, qs, x, e, k, q);
    SumUpdate(evs, x, e);
    PendingPut(qs, k, q);
    var evs', qs' := evs[x := e], Put(qs, k, q);
    forall y | 0 <= y < |evs'|
      ensures EvOk(evs'[y], qs')
    {
    }
    forall j | 0 <= j < |qs'.lists|
      ensures Sorted(evs', qs'.lists[j])
    {
      assert Get(qs', Common(j)) == if Common(j) == k then q else Get(qs, Common(j));
      SortedRest(evs, qs, x, e, j);
    }
  }

  /** x changes without joining or leaving a queue. */
  lemma {:induction false} ChangeOnly(evs: seq<Ev>, qs: Queues, count: int, pending: int, x: nat, e: Ev)
    requires StateOk(evs, qs, count, pending) && x < |evs| && EvOk(e, qs)
    requires forall j :: Member(e, j) <==> Member(evs[x], j)
    requires e.deadline == evs[x].deadline || !evs[x].timeout
    ensures StateOk(evs[x := e], qs, count - Weight(evs[x]) + Weight(e), pending)
  {
    SumUpdate(evs, x, e);
    forall k | IsQueue(qs, k)
      ensures Holds(evs[x := e], Get(qs, k), k)
    {
      HoldsSame(evs, Get(qs, k), k, x, e);
    }
    forall j | 0 <= j < |qs.lists|
      ensures Sorted(evs[x := e], qs.lists[j])
    {
      SortedRest(evs, qs, x, e, j);
    }
  }

  /** The queue of an event's timeout. */
  function TimeoutQueue(e: Ev): Which {
    if e.list < 0 then Heap else Common(e.list)
  }

  /** x leaves queue k. */
  lemma {:induction false} Leave(evs: seq<Ev>, qs: Queues, count: int, pending: int, x: nat, e: Ev, k: Which, q: Queue)
    requires StateOk(evs, qs, count, pending) && x < |evs| && EvOk(e, qs) && IsQueue(qs, k)
    requires Member(evs[x], k) && !Member(e, k) && forall j :: j != k ==> (Member(e, j) <==> Member(evs[x], j))
    requires e.deadline == evs[x].deadline && Weight(e) == Weight(evs[x]) - One(!e.internal)
    requires q == Without(Get(qs, k), x)
    ensures StateOk(evs[x := e], Put(qs, k, q), count - One(!e.internal), pending - Queued(k, 1))
  {
    assert Holds(evs, Get(qs, k), k);
    HoldsRemove(evs, Get(qs, k), k, x, e);
    WithoutRight(Get(qs, k), x);
    if k.Common? {
      SortedWithout(evs, Get(qs, k), x);
      SortedSame(evs, q, x, e);
    }
    Change(evs, qs, count, pending, x, e, k, q);
  }

  /** Where in queue q does an event belong that is due at d? Anywhere, if the queue is not sorted. */
  ghost predicate Place(evs: seq<Ev>, q: Queue, i: nat, d: int) {
    && i <= |q|
    && (forall j :: 0 <= j < i ==> Due(evs, q[j]) <= d)
    && (forall j :: i <= j < |q| ==> d <= Due(evs, q[j]))
  }

  /** Place i of a list is behind all that are due no later than d, and ahead of the others. */
  ghost predicate Behind(evs: seq<Ev>, q: Queue, i: nat, d: int) {
    && i <= |q|
    && (forall j :: 0 <= j < i ==> Due(evs, q[j]) <= d)
    && (forall j :: i <= j < |q| ==> d < Due(evs, q[j]))
  }

  /** x joins queue k at place i. */
  lemma {:induction false} Join(evs: seq<Ev>, qs: Queues, count: int, pending: int, x: nat, e: Ev, k: Which, i: nat,
                                q: Queue)
    requires StateOk(evs, qs, count, pending) && x < |evs| && EvOk(e, qs) && IsQueue(qs, k) && i <= |Get(qs, k)|
    requires !Member(evs[x], k) && Member(e, k) && forall j :: j != k ==> (Member(e, j) <==> Member(evs[x], j))
    requires e.deadline == evs[x].deadline && Weight(e) == Weight(evs[x]) + One(!e.internal)
    requires k.Common? ==> Place(evs, Get(qs, k), i, e.deadline)
    requires q == InsertAt(Get(qs, k), i, x)
    ensures StateOk(evs[x := e], Put(qs, k, q), count + One(!e.internal), pending + Queued(k, 1))
  {
    assert Holds(evs, Get(qs, k), k);
    HoldsInsert(evs, Get(qs, k), k, x, e, i);
    if k.Common? {
      SortedInsert(evs, Get(qs, k), i, x);
      SortedSame(evs, q, x, e);
    }
    Change(evs, qs, count, pending, x, e, k, q);
  }

  /** A snapshot of the loop. */
  datatype Snapshot = Snapshot(evs: seq<Ev>, qs: Queues, count: int, countActive: int, wake: seq<nat>,
                               durations: seq<int>, current: int)

  function Start(priorities: nat): Snapshot {
    Snapshot([], Queues(seq(priorities, _ => []), [], [], []), 0, 0, [], [], -1)
  }

  /** When is an event to time out? */
  datatype Timeout = Never | At(deadline: int, list: int)

  predicate IsDue(e: Ev, now: int) {
    e.timeout && e.list < 0 && e.deadline <= now
  }

  /** An event whose timeout has passed: off every other queue, and active because of the timeout. */
  function Expired(e: Ev): Ev {
    Deleted(e).(active := true, resTimeout := true)
  }

  lemma {:induction false} WakesExpired(evs: seq<Ev>, qs: Queues, qs': Queues, wake: seq<nat>, current: int, x: nat,
                                        e: Ev)
    requires QueuesOk(evs, qs) && (forall l :: 0 <= l < |qs.lists| ==> Sorted(evs, qs.lists[l]))
    requires WakesOk(evs, qs, wake, current) && x < |evs| && ListsLose(qs, qs', x) && e == Expired(evs[x])
    ensures WakesOk(evs[x := e], qs', wake, current)
  {
    if x in wake {
      var l :| 0 <= l < |wake| && wake[l] == x;
      WakeNotListed(evs, qs, qs', wake, l);
      WakesChanged(evs, qs, qs', wake, current, l, e, current);
    } else {
      WakesKept(evs, qs, qs', wake, current, x, e, current);
    }
  }

  lemma {:induction false} AllLater(evs: seq<Ev>, q: Queue, now: int)
    requires Sorted(evs, q) && (forall x :: x in q ==> x < |evs|) && (q != [] ==> now < Due(evs, q[0]))
    ensures forall x :: x in q ==> now < evs[x].deadline
  {
    forall x | x in q
      ensures now < evs[x].deadline
    {
      var i :| 0 <= i < |q| && q[i] == x;
      assert i > 0 ==> Due(evs, q[0]) <= Due(evs, q[i]);
    }
  }

  lemma {:induction false} ListNotWake(evs: seq<Ev>, qs: Queues, wake: seq<nat>, l: nat)
    requires QueuesOk(evs, qs) && WakeIdsOk(evs, qs, wake) && l < |wake|
    ensures forall x :: x in qs.lists[l] ==> x !in wake
  {
    assert Holds(evs, Get(qs, Common(l)), Common(l));
  }

  /** An event whose callback is about to run. */
  function Taken(e: Ev): Ev {
    if e.isEvent && !(e.persist || e.finalizing) then Deleted(e) else e.(active := false)
  }

  lemma {:induction false} PromotedState(evs: seq<Ev>, qs: Queues, count: int, pending: int, x: nat, qs1: Queues,
                                         e2: Ev)
    requires StateOk(evs, qs, count, pending) && qs.later != [] && qs.later[0] == x && x < |evs| && evs[x].later
    requires qs1 == Put(qs, Later, qs.later[1..]) && e2 == evs[x].(later := false, active := true)
    ensures e2.pri < |qs1.active| && qs1.lists == qs.lists
    ensures var k := Active(e2.pri);
            StateOk(evs[x := e2], Put(qs1, k, Appended(Get(qs1, k), x)), count, pending)
  {
    assert EvOk(evs[x], qs);
    var e1 := evs[x].(later := false);
    var n := One(!e1.internal);
    Leave(evs, qs, count, pending, x, e1, Later, qs.later[1..]);
    var k := Active(e2.pri);
    Join(evs[x := e1], qs1, count - n, pending - 1, x, e2, k, |Get(qs1, k)|, Appended(Get(qs1, k), x));
    assert evs[x := e1][x := e2] == evs[x := e2];
  }

  lemma {:induction false} Promoted(evs: seq<Ev>, qs: Queues, qs': Queues, wake: seq<nat>, current: int, x: nat, e: Ev)
    requires QueuesOk(evs, qs) && (forall l :: 0 <= l < |qs.lists| ==> Sorted(evs, qs.lists[l]))
    requires WakesOk(evs, qs, wake, current) && x < |evs| && qs'.lists == qs.lists
    requires e == evs[x].(later := false, active := true)
    ensures WakesOk(evs[x := e], qs', wake, current)
  {
    if x in wake {
      var l :| 0 <= l < |wake| && wake[l] == x;
      WakesChanged(evs, qs, qs', wake, current, l, e, current);
    } else {
      WakesKept(evs, qs, qs', wake, current, x, e, current);
    }
  }

  const MAX_COMMON_TIMEOUTS: nat := 256

  /** The internal event that wakes the loop for a new list. */
  const WAKE := Ev(false, false, false, false, true, false, true, false, false, 0, 0, -1, false)

  predicate Fresh(e: Ev) {
    !e.timeout && !e.inserted && !e.active && !e.later && !e.finalizing && e.list < 0
  }

  lemma {:induction false} NoLengths(qs: seq<Queue>)
    requires forall p :: 0 <= p < |qs| ==> qs[p] == []
    ensures Lengths(qs) == 0
  {
    if qs != [] {
      NoLengths(qs[1..]);
    }
  }

  /** A new event, and perhaps a new empty list. */
  lemma {:induction false} Appending(evs: seq<Ev>, qs: Queues, qs': Queues, count: int, pending: int, e: Ev)
    requires StateOk(evs, qs, count, pending) && Fresh(e) && e.pri < |qs.active|
    requires qs' == qs || qs' == qs.(lists := qs.lists + [[]])
    ensures StateOk(evs + [e], qs', count, pending)
  {
    SumAppend(evs, e);
    var evs' := evs + [e];
    forall k | IsQueue(qs', k)
      ensures Holds(evs', Get(qs', k), k)
    {
      if IsQueue(qs, k) {
        assert Holds(evs, Get(qs, k), k) && Get(qs', k) == Get(qs, k);
      } else {
        assert forall x: nat :: x < |evs'| ==> !Member(evs'[x], k);
      }
    }
    forall l | 0 <= l < |qs'.lists|
      ensures Sorted(evs', qs'.lists[l])
    {
      if l < |qs.lists| {
        assert Holds(evs, Get(qs, Common(l)), Common(l));
        assert forall i :: 0 <= i < |qs.lists[l]| ==> qs.lists[l][i] in qs.lists[l];
      }
    }
  }

  lemma {:induction false} WakesAppend(evs: seq<Ev>, qs: Queues, wake: seq<nat>, current: int, e: Ev)
    requires QueuesOk(evs, qs) && WakesOk(evs, qs, wake, current)
    ensures WakesOk(evs + [e], qs, wake, current)
  {
    forall l | 0 <= l < |wake|
      ensures Woken(evs + [e], qs.lists[l], wake[l], current)
    {
      assert Holds(evs, Get(qs, Common(l)), Common(l));
      assert qs.lists[l] != [] ==> qs.lists[l][0] in qs.lists[l];
    }
  }

  lemma {:induction false} WakesMore(evs: seq<Ev>, qs: Queues, qs': Queues, wake: seq<nat>, current: int, w: nat)
    requires WakesOk(evs, qs, wake, current) && qs' == qs.(lists := qs.lists + [[]])
    requires w < |evs| && IsWake(evs[w]) && w !in wake
    ensures WakesOk(evs, qs', wake + [w], current)
  {
    forall l | 0 <= l < |wake + [w]|
      ensures Woken(evs, qs'.lists[l], (wake + [w])[l], current)
    {
      assert l < |wake| ==> (wake + [w])[l] == wake[l] && qs'.lists[l] == qs.lists[l];
    }
  }

  /** The events of a queue that have priority p, in order. */
  function OfPri(evs: seq<Ev>, q: Queue, p: nat): Queue {
    if q == [] then []
    else
      var x := q[|q| - 1];
      OfPri(evs, q[..|q| - 1], p) + if x < |evs| && evs[x].pri == p then [x] else []
  }

  lemma {:induction false} NextOfPri(evs: seq<Ev>, q: Queue, start: seq<Queue>, active: seq<Queue>,
                                     active': seq<Queue>, x: nat)
    requires q != [] && q[|q| - 1] == x < |evs| && evs[x].pri < |active| == |start|
    requires active' == active[evs[x].pri := Appended(active[evs[x].pri], x)]
    requires forall p :: 0 <= p < |active| ==> active[p] == start[p] + OfPri(evs, q[..|q| - 1], p)
    ensures forall p :: 0 <= p < |active| ==> active'[p] == start[p] + OfPri(evs, q, p)
  {
    forall p | 0 <= p < |active|
      ensures active'[p] == start[p] + OfPri(evs, q, p)
    {
      var before := OfPri(evs, q[..|q| - 1], p);
      if p == evs[x].pri {
        assert Appended(start[p] + before, x) == start[p] + (before + [x]);
      } else {
        assert before + [] == before;
      }
    }
  }

  /** Does adding the event register it with the backend? */
  predicate Registers(e: Ev) {
    e.io && !(e.inserted || e.active || e.later)
  }

  /** Is an add refused? Exactly for an event that is being finalized, and for one with a descriptor that is on
      no queue and cannot be registered. */
  predicate Refused(e: Ev, evmapOk: bool) {
    e.finalizing || (e.io && !e.inserted && !e.active && !e.later && !evmapOk)
  }

  /** What an add makes of an event: one with a descriptor is registered unless it is about to run, nothing
      else is, and a new deadline takes the place of the old one and of an activation by the old timeout. */
  predicate IsAdded(e: Ev, e': Ev, tv: Timeout) {
    && e'.inserted == (e.inserted || (e.io && !e.active && !e.later))
    && (match tv
        case Never => e'.timeout == e.timeout && e'.deadline == e.deadline && e'.list == e.list && e'.active == e.active
        case At(deadline, list) =>
          e'.timeout && e'.deadline == deadline && e'.list == list && e'.active == (e.active && !e.resTimeout))
    && e'.later == e.later && e'.internal == e.internal && e'.finalizing == e.finalizing && e'.isEvent == e.isEvent
    && e'.io == e.io && e'.persist == e.persist && e'.pri == e.pri && e'.resTimeout == e.resTimeout
  }

  function Added(e: Ev, tv: Timeout): Ev {
    var e1 := if Registers(e) then e.(inserted := true) else e;
    if tv.At? then Timed(e1, tv.deadline, tv.list) else e1
  }

  /** x has been put at place i of a list, or on the heap. */
  ghost predicate Gained(qs: Queues, qs': Queues, x: nat, list: int, i: nat) {
    && |qs'.lists| == |qs.lists|
    && if 0 <= list < |qs.lists|
       then i <= |qs.lists[list]| && qs'.lists == qs.lists[list := InsertAt(qs.lists[list], i, x)]
       else qs'.lists == qs.lists
  }

  lemma {:induction false} LoseAndGain(qs0: Queues, qs1: Queues, qs2: Queues, x: nat, list: int, i: nat)
    requires ListsLose(qs0, qs1, x) && list < |qs0.lists| && Gained(qs1, qs2, x, list, i)
    ensures ListsGain(qs0, qs2, x, list, i)
  {
  }

  lemma Overwrite(evs: seq<Ev>, x: nat, a: Ev, b: Ev)
    requires x < |evs|
    ensures evs[x := a][x := b] == evs[x := b]
  {
  }

  /** Did a timeout activate the event? More than one thing may, until the callback runs. */
  function Result(e: Ev, byTimeout: bool): bool {
    if e.active || e.later then e.resTimeout || byTimeout else byTimeout
  }

  function Activated(e: Ev, byTimeout: bool): Ev {
    if e.finalizing then e else e.(active := true, later := false, resTimeout := Result(e, byTimeout))
  }

  function Timed(e: Ev, deadline: int, list: int): Ev {
    e.(timeout := true, deadline := deadline, list := list, active := e.active && !e.resTimeout)
  }

  /** x has been moved to place i of a common-timeout list, or to the heap. */
  ghost predicate ListsGain(qs: Queues, qs': Queues, x: nat, list: int, i: nat) {
    && |qs'.lists| == |qs.lists|
    && forall l {:trigger qs.lists[l]} {:trigger qs'.lists[l]} :: 0 <= l < |qs.lists| ==>
         var q := Without(qs.lists[l], x);
         if l == list then i <= |q| && qs'.lists[l] == InsertAt(q, i, x) else qs'.lists[l] == q
  }

  function Removed(e: Ev): Ev {
    e.(timeout := false, active := false, later := false, inserted := false)
  }

  function Deleted(e: Ev): Ev {
    if e.finalizing then e else Removed(e)
  }

  /** x has been taken out of every common-timeout list. */
  ghost predicate ListsLose(qs: Queues, qs': Queues, x: nat) {
    && |qs'.lists| == |qs.lists|
    && forall l :: 0 <= l < |qs.lists| ==> qs'.lists[l] == Without(qs.lists[l], x)
  }

  /** x has been taken out of the queues of callbacks to run. */
  ghost predicate ActiveLose(qs: Queues, qs': Queues, x: nat) {
    && |qs'.active| == |qs.active| && qs'.later == Without(qs.later, x)
    && forall p :: 0 <= p < |qs.active| ==> qs'.active[p] == Without(qs.active[p], x)
  }

  /** Taking an event out of a queue of callbacks that it is not on changes nothing. */
  lemma {:induction false} NotActive(evs: seq<Ev>, qs: Queues, x: nat)
    requires QueuesOk(evs, qs) && x < |evs|
    ensures forall p :: 0 <= p < |qs.active| && !Member(evs[x], Active(p)) ==> Without(qs.active[p], x) == qs.active[p]
    ensures !evs[x].later ==> Without(qs.later, x) == qs.later
  {
    forall p | 0 <= p < |qs.active| && !Member(evs[x], Active(p))
      ensures Without(qs.active[p], x) == qs.active[p]
    {
      assert Holds(evs, Get(qs, Active(p)), Active(p));
      WithoutAbsent(qs.active[p], x);
    }
    if !evs[x].later {
      assert Holds(evs, Get(qs, Later), Later);
      WithoutAbsent(qs.later, x);
    }
  }

  lemma {:induction false} WithoutAbsent(q: Queue, x: nat)
    requires x !in q
    ensures Without(q, x) == q
  {
    if q != [] {
      WithoutAbsent(q[1..], x);
    }
  }

  /** Taking an event out of a timeout queue that it is not on changes nothing. */
  lemma {:induction false} NotIn(evs: seq<Ev>, qs: Queues, x: nat)
    requires QueuesOk(evs, qs) && x < |evs|
    ensures forall l :: 0 <= l < |qs.lists| && !Member(evs[x], Common(l)) ==> Without(qs.lists[l], x) == qs.lists[l]
    ensures !Member(evs[x], Heap) ==> Without(qs.heap, x) == qs.heap
  {
    forall l | 0 <= l < |qs.lists| && !Member(evs[x], Common(l))
      ensures Without(qs.lists[l], x) == qs.lists[l]
    {
      assert Holds(evs, Get(qs, Common(l)), Common(l));
      WithoutAbsent(qs.lists[l], x);
    }
    if !Member(evs[x], Heap) {
      assert Holds(evs, Get(qs, Heap), Heap);
      WithoutAbsent(qs.heap, x);
    }
  }

  // ----- waking up for common timeouts

  ghost predicate IsWake(e: Ev) {
    e.internal && e.isEvent && !e.io && !e.persist && !e.finalizing && e.list < 0 && !e.inserted
  }

  /** The list is empty, or its wake event is queued to run, or runs, or is on the heap no later than
      the first event of the list is due. */
  ghost predicate Woken(evs: seq<Ev>, q: Queue, w: nat, current: int)
    requires w < |evs|
  {
    || q == []
    || evs[w].active || evs[w].later || current == w
    || (evs[w].timeout && evs[w].deadline <= Due(evs, q[0]))
  }

  ghost predicate WakeIdsOk(evs: seq<Ev>, qs: Queues, wake: seq<nat>) {
    && |wake| == |qs.lists|
    && (forall l :: 0 <= l < |wake| ==> wake[l] < |evs| && IsWake(evs[wake[l]]))
    && NoDup(wake)
  }

  ghost predicate WakesOk(evs: seq<Ev>, qs: Queues, wake: seq<nat>, current: int) {
    && WakeIdsOk(evs, qs, wake)
    && (forall l :: 0 <= l < |wake| ==> Woken(evs, qs.lists[l], wake[l], current))
  }

  /** The first event left after removing one is due no earlier. */
  lemma {:induction false} HeadLater(evs: seq<Ev>, q: Queue, x: nat)
    requires Sorted(evs, q) && Without(q, x) != []
    ensures q != [] && Due(evs, q[0]) <= Due(evs, Without(q, x)[0]) && (Without(q, x)[0] in q)
  {
    if q[0] == x {
      assert Without(q, x)[0] == q[1];
    }
  }

  /** Events other than wake events may change, and may leave their lists. */
  lemma {:induction false} WakeKept(evs: seq<Ev>, q: Queue, w: nat, current: int, x: nat, e: Ev, current': int)
    requires w < |evs| && x < |evs| && w != x && Woken(evs, q, w, current) && Sorted(evs, q) && NoDup(q)
    requires current' == current || current != w
    ensures Woken(evs[x := e], Without(q, x), w, current')
    ensures e.deadline == evs[x].deadline ==> Woken(evs[x := e], q, w, current')
  {
    if Without(q, x) != [] {
      HeadLater(evs, q, x);
      WithoutRight(q, x);
    }
  }

  /** An operation on an event that is not a wake event: its lists lose it. */
  lemma {:induction false} WakesKept(evs: seq<Ev>, qs: Queues, qs': Queues, wake: seq<nat>, current: int, x: nat,
                                     e: Ev, current': int)
    requires QueuesOk(evs, qs) && (forall l :: 0 <= l < |qs.lists| ==> Sorted(evs, qs.lists[l]))
    requires WakesOk(evs, qs, wake, current) && x < |evs| && x !in wake && (current' == current || current !in wake)
    requires |qs'.lists| == |qs.lists|
    requires ListsLose(qs, qs', x) || (qs'.lists == qs.lists && e.deadline == evs[x].deadline)
    ensures WakesOk(evs[x := e], qs', wake, current')
  {
    forall l | 0 <= l < |wake|
      ensures wake[l] < |evs| && IsWake(evs[x := e][wake[l]]) && Woken(evs[x := e], qs'.lists[l], wake[l], current')
    {
      assert Holds(evs, Get(qs, Common(l)), Common(l));
      WakeKept(evs, qs.lists[l], wake[l], current, x, e, current');
    }
  }

  /** A wake event changes: its own list must be fine afterwards. */
  lemma {:induction false} WakesChanged(evs: seq<Ev>, qs: Queues, qs': Queues, wake: seq<nat>, current: int,
                                        l: nat, e: Ev, current': int)
    requires QueuesOk(evs, qs) && WakeIdsOk(evs, qs, wake) && l < |wake| && IsWake(e) && qs'.lists == qs.lists
    requires forall j :: 0 <= j < |wake| && j != l ==> Woken(evs, qs.lists[j], wake[j], current)
    requires current' == current || current !in wake
    requires Woken(evs[wake[l] := e], qs.lists[l], wake[l], current')
    ensures WakesOk(evs[wake[l] := e], qs', wake, current')
  {
    var evs' := evs[wake[l] := e];
    forall j | 0 <= j < |wake|
      ensures wake[j] < |evs'| && IsWake(evs'[wake[j]]) && Woken(evs', qs'.lists[j], wake[j], current')
    {
      if j != l {
        assert wake[j] != wake[l];
        assert Holds(evs, Get(qs, Common(j)), Common(j));
        assert IsWake(evs[wake[l]]);
      }
    }
  }

  /** Joining a list other than as its head leaves its wake event right. */
  lemma {:induction false} WakesButOne(evs: seq<Ev>, qs: Queues, qs': Queues, wake: seq<nat>, current: int, x: nat,
                                       e: Ev, list: int, i: nat)
    requires QueuesOk(evs, qs) && (forall l :: 0 <= l < |qs.lists| ==> Sorted(evs, qs.lists[l]))
    requires WakesOk(evs, qs, wake, current) && x < |evs| && x !in wake && ListsGain(qs, qs', x, list, i)
    ensures WakeIdsOk(evs[x := e], qs', wake)
    ensures forall j :: 0 <= j < |wake| && j != list ==> Woken(evs[x := e], qs'.lists[j], wake[j], current)
    ensures 0 <= list < |wake| ==> qs'.lists[list] != []
    ensures 0 <= list < |wake| && qs'.lists[list][0] != x ==> Woken(evs[x := e], qs'.lists[list], wake[list], current)
  {
    var evs' := evs[x := e];
    forall j | 0 <= j < |wake|
      ensures wake[j] < |evs'| && IsWake(evs'[wake[j]])
      ensures Woken(evs', Without(qs.lists[j], x), wake[j], current)
    {
      assert Holds(evs, Get(qs, Common(j)), Common(j));
      WakeKept(evs, qs.lists[j], wake[j], current, x, e, current);
    }
    if 0 <= list < |wake| {
      var q := Without(qs.lists[list], x);
      assert qs'.lists[list] == InsertAt(q, i, x);
      assert qs'.lists[list][0] == if i == 0 then x else q[0];
    }
  }

  /** Wake events are in no list. */
  lemma {:induction false} WakeNotListed(evs: seq<Ev>, qs: Queues, qs': Queues, wake: seq<nat>, l: nat)
    requires QueuesOk(evs, qs) && WakeIdsOk(evs, qs, wake) && l < |wake| && ListsLose(qs, qs', wake[l])
    ensures qs'.lists == qs.lists
  {
    assert IsWake(evs[wake[l]]);
    NotIn(evs, qs, wake[l]);
  }

  function Appended(q: Queue, x: nat): Queue {
    InsertAt(q, |q|, x)
  }

  /** Search a sorted list from its end for the place of a deadline: behind those that are due at the same
      time, and ahead of all that are due later. */
  method FindPlace(evs: seq<Ev>, q: Queue, d: int) returns (i: nat)
    requires Sorted(evs, q)
    ensures Behind(evs, q, i, d) && Place(evs, q, i, d)
  {
    i := |q|;
    while i > 0 && d < Due(evs, q[i - 1])
      invariant i <= |q| && forall j :: i <= j < |q| ==> d < Due(evs, q[j])
    {
      i := i - 1;
    }
  }

  class Loop {
    var evs: seq<Ev>
    var qs: Queues
    /** The number of memberships of non-internal events, and of queued callbacks. */
    var count: int
    var countActive: int
    /** The internal event that wakes the loop for each common-timeout list. */
    var wake: seq<nat>
    /** The duration that each common-timeout list is for. */
    var durations: seq<int>
    /** The callback that runs, or -1. */
    var current: int

    ghost predicate Base()
      reads this
    {
      StateOk(evs, qs, count, countActive)
    }

    // ----- single queues

    method RemoveInserted(x: nat)
      requires Base() && x < |evs| && evs[x].inserted
      modifies this`evs, this`count
      ensures Base() && evs == old(evs)[x := old(evs)[x].(inserted := false)]
    {
      var e := evs[x].(inserted := false);
      ChangeOnly(evs, qs, count, countActive, x, e);
      count := count - One(!e.internal);
      evs := evs[x := e];
    }

    method InsertInserted(x: nat)
      requires Base() && x < |evs| && !evs[x].inserted && evs[x].io
      modifies this`evs, this`count
      ensures Base() && evs == old(evs)[x := old(evs)[x].(inserted := true)]
    {
      var e := evs[x].(inserted := true);
      ChangeOnly(evs, qs, count, countActive, x, e);
      count := count + One(!e.internal);
      evs := evs[x := e];
    }

    method RemoveActive(x: nat)
      requires Base() && x < |evs| && evs[x].active && IsQueue(qs, Active(evs[x].pri))
      modifies this`evs, this`qs, this`count, this`countActive
      ensures Base() && evs == old(evs)[x := old(evs)[x].(active := false)]
      ensures qs == Put(old(qs), Active(evs[x].pri), Without(Get(old(qs), Active(evs[x].pri)), x))
      ensures qs.lists == old(qs).lists && qs.heap == old(qs).heap && |qs.active| == |old(qs).active|
    {
      var e := evs[x].(active := false);
      var k := Active(e.pri);
      Leave(evs, qs, count, countActive, x, e, k, Without(Get(qs, k), x));
      count := count - One(!e.internal);
      countActive := countActive - 1;
      evs, qs := evs[x := e], Put(qs, k, Without(Get(qs, k), x));
    }

    method RemoveLater(x: nat)
      requires Base() && x < |evs| && evs[x].later
      modifies this`evs, this`qs, this`count, this`countActive
      ensures Base() && evs == old(evs)[x := old(evs)[x].(later := false)]
      ensures qs == Put(old(qs), Later, Without(old(qs).later, x))
      ensures qs.lists == old(qs).lists && qs.heap == old(qs).heap && |qs.active| == |old(qs).active|
    {
      var e := evs[x].(later := false);
      Leave(evs, qs, count, countActive, x, e, Later, Without(qs.later, x));
      count := count - One(!e.internal);
      countActive := countActive - 1;
      evs, qs := evs[x := e], Put(qs, Later, Without(qs.later, x));
    }

    method RemoveTimeout(x: nat)
      requires Base() && x < |evs| && evs[x].timeout && IsQueue(qs, TimeoutQueue(evs[x]))
      modifies this`evs, this`qs, this`count
      ensures Base() && evs == old(evs)[x := old(evs)[x].(timeout := false)]
      ensures qs == Put(old(qs), TimeoutQueue(evs[x]), Without(Get(old(qs), TimeoutQueue(evs[x])), x))
      ensures qs.active == old(qs).active && qs.later == old(qs).later
    {
      var e := evs[x].(timeout := false);
      var k := TimeoutQueue(e);
      Leave(evs, qs, count, countActive, x, e, k, Without(Get(qs, k), x));
      count := count - One(!e.internal);
      evs, qs := evs[x := e], Put(qs, k, Without(Get(qs, k), x));
    }

    /** A second insertion has no effect. */
    method InsertActive(x: nat)
      requires Base() && x < |evs| && !evs[x].later && IsQueue(qs, Active(evs[x].pri))
      modifies this`evs, this`qs, this`count, this`countActive
      ensures Base() && evs == old(evs)[x := old(evs)[x].(active := true)]
      ensures qs == if old(evs)[x].active then old(qs)
                    else Put(old(qs), Active(evs[x].pri), Appended(Get(old(qs), Active(evs[x].pri)), x))
      ensures qs.lists == old(qs).lists && qs.heap == old(qs).heap && |qs.active| == |old(qs).active|
    {
      if evs[x].active {
        return;
      }
      var e := evs[x].(active := true);
      var k := Active(e.pri);
      Join(evs, qs, count, countActive, x, e, k, |Get(qs, k)|, Appended(Get(qs, k), x));
      count := count + One(!e.internal);
      countActive := countActive + 1;
      evs, qs := evs[x := e], Put(qs, k, Appended(Get(qs, k), x));
    }

    method InsertLater(x: nat)
      requires Base() && x < |evs|
      modifies this`evs, this`qs, this`count, this`countActive
      ensures Base() && evs == old(evs)[x := old(evs)[x].(later := !old(evs)[x].active)]
      ensures qs == if old(evs)[x].active || old(evs)[x].later then old(qs)
                    else Put(old(qs), Later, Appended(old(qs).later, x))
      ensures qs.lists == old(qs).lists && qs.heap == old(qs).heap && |qs.active| == |old(qs).active|
    {
      assert EvOk(evs[x], qs);
      if evs[x].active || evs[x].later {
        return;
      }
      var e := evs[x].(later := true);
      Join(evs, qs, count, countActive, x, e, Later, |qs.later|, Appended(qs.later, x));
      count := count + One(!e.internal);
      countActive := countActive + 1;
      evs, qs := evs[x := e], Put(qs, Later, Appended(qs.later, x));
    }

    /** Into the heap, or into a common-timeout list before the first later deadline from its end. */
    method InsertTimeout(x: nat) returns (i: nat)
      requires Base() && x < |evs| && !evs[x].timeout && !evs[x].finalizing && IsQueue(qs, TimeoutQueue(evs[x]))
      modifies this`evs, this`qs, this`count
      ensures Base() && evs == old(evs)[x := old(evs)[x].(timeout := true)]
      ensures i <= |Get(old(qs), TimeoutQueue(evs[x]))|
      ensures qs == Put(old(qs), TimeoutQueue(evs[x]), InsertAt(Get(old(qs), TimeoutQueue(evs[x])), i, x))
      ensures |qs.active| == |old(qs).active| && Gained(old(qs), qs, x, evs[x].list, i)
      ensures evs[x].list >= 0 ==> Behind(old(evs), old(qs).lists[evs[x].list], i, evs[x].deadline)
    {
      var e := evs[x].(timeout := true);
      var k := TimeoutQueue(e);
      i := |Get(qs, k)|;
      if k.Common? {
        i := FindPlace(evs, Get(qs, k), e.deadline);
      }
      Join(evs, qs, count, countActive, x, e, k, i, InsertAt(Get(qs, k), i, x));
      count := count + One(!e.internal);
      evs, qs := evs[x := e], Put(qs, k, InsertAt(Get(qs, k), i, x));
    }

    // ----- events

    /** Every common-timeout list with events in it will be looked at in time. */
    ghost predicate Valid()
      reads this
    {
      Base() && WakesOk(evs, qs, wake, current) && |durations| == |wake| <= MAX_COMMON_TIMEOUTS
    }

    ghost function Now(): Snapshot
      reads this
    {
      Snapshot(evs, qs, count, countActive, wake, durations, current)
    }

    /** Take an event off its timeout queue, if it is on one. */
    method ClearTimeout(x: nat)
      requires Base() && x < |evs|
      modifies this`evs, this`qs, this`count
      ensures Base() && evs == old(evs)[x := old(evs)[x].(timeout := false)] && ListsLose(old(qs), qs, x)
      ensures qs.heap == Without(old(qs).heap, x) && qs.active == old(qs).active && qs.later == old(qs).later
    {
      NotIn(evs, qs, x);
      assert EvOk(evs[x], qs);
      if evs[x].timeout {
        RemoveTimeout(x);
      }
    }

    /** Take an event off the queues of callbacks to run, if it is on one. */
    method ClearActive(x: nat)
      requires Base() && x < |evs|
      modifies this`evs, this`qs, this`count, this`countActive
      ensures Base() && evs == old(evs)[x := old(evs)[x].(active := false, later := false)]
      ensures qs.lists == old(qs).lists && qs.heap == old(qs).heap && ActiveLose(old(qs), qs, x)
    {
      NotActive(evs, qs, x);
      assert EvOk(evs[x], qs);
      if evs[x].active {
        RemoveActive(x);
      } else if evs[x].later {
        RemoveLater(x);
      }
    }

    /** event_del: off every queue, unless the event is being finalized and that is to stop it. */
    method DelNolock(x: nat, evenIfFinalizing: bool)
      requires Base() && x < |evs|
      modifies this`evs, this`qs, this`count, this`countActive
      ensures Base() && evs == old(evs)[x := if evenIfFinalizing then Removed(old(evs)[x]) else Deleted(old(evs)[x])]
      ensures ListsLose(old(qs), qs, x) && qs.heap == Without(old(qs).heap, x) && |qs.active| == |old(qs).active|
      ensures if old(evs)[x].finalizing && !evenIfFinalizing then qs == old(qs) else ActiveLose(old(qs), qs, x)
    {
      if !evs[x].finalizing || evenIfFinalizing {
        ClearAll(x);
      } else {
        NotIn(evs, qs, x);
        assert EvOk(evs[x], qs);
      }
    }

    /** Take an event off every queue it is on. */
    method ClearAll(x: nat)
      requires Base() && x < |evs|
      modifies this`evs, this`qs, this`count, this`countActive
      ensures Base() && evs == old(evs)[x := Removed(old(evs)[x])]
      ensures ListsLose(old(qs), qs, x) && qs.heap == Without(old(qs).heap, x) && ActiveLose(old(qs), qs, x)
    {
      ghost var evs0 := evs;
      ClearTimeout(x);
      ghost var e1 := evs[x];
      ClearActive(x);
      Overwrite(evs0, x, e1, evs[x]);
      ghost var e2 := evs[x];
      if evs[x].inserted {
        RemoveInserted(x);
        Overwrite(evs0, x, e2, evs[x]);
      }
    }

    /** event_active: queue the callback to run; being active already, or to be finalized, is fine. */
    method ActiveNolock(x: nat, byTimeout: bool)
      requires Base() && x < |evs|
      modifies this`evs, this`qs, this`count, this`countActive
      ensures Base() && evs == old(evs)[x := Activated(old(evs)[x], byTimeout)]
      ensures qs.lists == old(qs).lists && qs.heap == old(qs).heap && |qs.active| == |old(qs).active|
      ensures var e := old(evs)[x];
              if e.finalizing || e.active then qs == old(qs)
              else e.pri < |qs.active| && qs.active == old(qs).active[e.pri := Appended(old(qs).active[e.pri], x)]
    {
      assert EvOk(evs[x], qs);
      if evs[x].finalizing {
        return;
      }
      SetResult(x, Result(evs[x], byTimeout));
      if !evs[x].active {
        var r := CallbackActivateNolock(x);
      }
    }

    /** Queue a callback to run now; 0 if it was queued already, for now or for later. */
    method CallbackActivateNolock(x: nat) returns (r: int)
      requires Base() && x < |evs|
      modifies this`evs, this`qs, this`count, this`countActive
      ensures Base() && qs.lists == old(qs).lists && qs.heap == old(qs).heap && |qs.active| == |old(qs).active|
      ensures var e := old(evs)[x];
              if e.finalizing || e.active then evs == old(evs) && qs == old(qs)
              else
                && evs == old(evs)[x := e.(active := true, later := false)]
                && e.pri < |qs.active| && qs.active == old(qs).active[e.pri := Appended(old(qs).active[e.pri], x)]
      ensures r == if old(evs)[x].finalizing || old(evs)[x].active || old(evs)[x].later then 0 else 1
    {
      assert EvOk(evs[x], qs);
      if evs[x].finalizing || evs[x].active {
        return 0;
      }
      r := 1;
      if evs[x].later {
        RemoveLater(x);
        r := 0;
      }
      InsertActive(x);
    }

    method SetResult(x: nat, byTimeout: bool)
      requires Base() && x < |evs|
      modifies this`evs
      ensures Base() && evs == old(evs)[x := old(evs)[x].(resTimeout := byTimeout)]
    {
      assert EvOk(evs[x], qs);
      ChangeOnly(evs, qs, count, countActive, x, evs[x].(resTimeout := byTimeout));
      evs := evs[x := evs[x].(resTimeout := byTimeout)];
    }

    method ActiveLaterNolock(x: nat, byTimeout: bool)
      requires Base() && x < |evs|
      modifies this`evs, this`qs, this`count, this`countActive
      ensures Base()
      ensures var e := old(evs)[x];
              evs == old(evs)[x := e.(resTimeout := Result(e, byTimeout), later := !e.active)]
      ensures qs.lists == old(qs).lists && qs.heap == old(qs).heap && |qs.active| == |old(qs).active|
    {
      SetResult(x, Result(evs[x], byTimeout));
      InsertLater(x);
    }

    /** Set or change the timeout of an event. If its callback is queued because of the old timeout, it
        no longer is. */
    method SetTimeout(x: nat, deadline: int, list: int) returns (i: nat)
      requires Base() && x < |evs| && !evs[x].finalizing && list < |qs.lists|
      modifies this`evs, this`qs, this`count, this`countActive
      ensures Base() && evs == old(evs)[x := Timed(old(evs)[x], deadline, list)]
      ensures ListsGain(old(qs), qs, x, list, i) && |qs.active| == |old(qs).active|
    {
      ghost var evs0, qs0 := evs, qs;
      Unschedule(x, deadline, list);
      ghost var e, qs1 := evs[x], qs;
      i := InsertTimeout(x);
      Overwrite(evs0, x, e, evs[x]);
      LoseAndGain(qs0, qs1, qs, x, list, i);
    }

    /** Drop the old timeout and what it has activated, and note the new one. */
    method Unschedule(x: nat, deadline: int, list: int)
      requires Base() && x < |evs| && list < |qs.lists|
      modifies this`evs, this`qs, this`count, this`countActive
      ensures Base() && evs == old(evs)[x := Timed(old(evs)[x], deadline, list).(timeout := false)]
      ensures ListsLose(old(qs), qs, x) && |qs.active| == |old(qs).active|
    {
      ghost var evs0 := evs;
      ClearTimeout(x);
      ClearTimedOut(x);
      Overwrite(evs0, x, evs0[x].(timeout := false), evs[x]);
      ghost var e := evs[x];
      Retime(x, deadline, list);
      Overwrite(evs0, x, e, evs[x]);
    }

    /** Off the queue of callbacks to run, if a timeout put the event there. */
    method ClearTimedOut(x: nat)
      requires Base() && x < |evs|
      modifies this`evs, this`qs, this`count, this`countActive
      ensures Base() && evs == old(evs)[x := old(evs)[x].(active := old(evs)[x].active && !old(evs)[x].resTimeout)]
      ensures qs.lists == old(qs).lists && qs.heap == old(qs).heap && |qs.active| == |old(qs).active|
    {
      assert EvOk(evs[x], qs);
      if evs[x].active && evs[x].resTimeout {
        RemoveActive(x);
      }
    }

    method Retime(x: nat, deadline: int, list: int)
      requires Base() && x < |evs| && !evs[x].timeout && list < |qs.lists|
      modifies this`evs
      ensures Base() && evs == old(evs)[x := old(evs)[x].(deadline := deadline, list := list)]
    {
      assert EvOk(evs[x], qs);
      ChangeOnly(evs, qs, count, countActive, x, evs[x].(deadline := deadline, list := list));
      evs := evs[x := evs[x].(deadline := deadline, list := list)];
    }

    // ----- what users and the loop do

    /** event_del on a user's event. */
    method Del(x: nat, evenIfFinalizing: bool)
      requires Valid() && x < |evs| && !evs[x].internal
      modifies this`evs, this`qs, this`count, this`countActive
      ensures Valid() && evs == old(evs)[x := if evenIfFinalizing then Removed(old(evs)[x]) else Deleted(old(evs)[x])]
    {
      ghost var evs0, qs0 := evs, qs;
      DelNolock(x, evenIfFinalizing);
      WakesKept(evs0, qs0, qs, wake, current, x, evs[x], current);
    }

    method Activate(x: nat, byTimeout: bool)
      requires Valid() && x < |evs| && !evs[x].internal
      modifies this`evs, this`qs, this`count, this`countActive
      ensures Valid() && evs == old(evs)[x := Activated(old(evs)[x], byTimeout)]
    {
      ghost var evs0, qs0 := evs, qs;
      ActiveNolock(x, byTimeout);
      WakesKept(evs0, qs0, qs, wake, current, x, evs[x], current);
    }

    method ActivateLater(x: nat, byTimeout: bool)
      requires Valid() && x < |evs| && !evs[x].internal
      modifies this`evs, this`qs, this`count, this`countActive
      ensures Valid()
      ensures var e := old(evs)[x];
              evs == old(evs)[x := e.(resTimeout := Result(e, byTimeout), later := !e.active)]
    {
      ghost var evs0, qs0 := evs, qs;
      ActiveLaterNolock(x, byTimeout);
      WakesKept(evs0, qs0, qs, wake, current, x, evs[x], current);
    }

    /** event_finalize: delete the event and run its finalizer. */
    method Finalize(x: nat)
      requires Valid() && x < |evs| && !evs[x].internal
      modifies this`evs, this`qs, this`count, this`countActive
      ensures Valid() && evs == old(evs)[x := Activated(Deleted(old(evs)[x]), false).(finalizing := true)]
    {
      ghost var before := evs;
      Del(x, false);
      ghost var e1 := evs[x];
      Activate(x, false);
      Overwrite(before, x, e1, evs[x]);
      ghost var e2 := evs[x];
      FlagFinalizing(x);
      Overwrite(before, x, e2, evs[x]);
    }

    /** From now on the event can be neither added nor activated. */
    method FlagFinalizing(x: nat)
      requires Valid() && x < |evs| && !evs[x].internal && !evs[x].timeout
      modifies this`evs
      ensures Valid() && evs == old(evs)[x := old(evs)[x].(finalizing := true)]
    {
      assert EvOk(evs[x], qs);
      ghost var evs0 := evs;
      ChangeOnly(evs, qs, count, countActive, x, evs[x].(finalizing := true));
      evs := evs[x := evs[x].(finalizing := true)];
      WakesKept(evs0, qs, qs, wake, current, x, evs[x], current);
    }

    /** Put the wake event of a list on the heap for the first event of the list. */
    method Schedule(l: nat)
      requires Base() && WakeIdsOk(evs, qs, wake) && |durations| == |wake| <= MAX_COMMON_TIMEOUTS
      requires l < |wake| && qs.lists[l] != []
      requires forall j :: 0 <= j < |wake| && j != l ==> Woken(evs, qs.lists[j], wake[j], current)
      modifies this`evs, this`qs, this`count, this`countActive
      ensures Valid() && qs.lists == old(qs).lists
      ensures evs == old(evs)[wake[l] := Timed(old(evs)[wake[l]], Due(old(evs), qs.lists[l][0]), -1)]
    {
      ghost var evs0, qs0 := evs, qs;
      var w := wake[l];
      assert IsWake(evs[w]);
      assert Holds(evs, Get(qs, Common(l)), Common(l));
      assert qs.lists[l][0] in qs.lists[l];
      var d := Due(evs, qs.lists[l][0]);
      var i := SetTimeout(w, d, -1);
      assert ListsLose(qs0, qs, w);
      WakeNotListed(evs0, qs0, qs, wake, l);
      WakesChanged(evs0, qs0, qs, wake, current, l, evs[w], current);
    }

    /** event_add on a user's event, with a deadline that may come from a common timeout. evmapOk says
        whether the descriptor could be registered. */
    method Add(x: nat, tv: Timeout, evmapOk: bool) returns (r: int)
      requires Valid() && x < |evs| && !evs[x].internal && (tv.At? ==> tv.list < |qs.lists|)
      modifies this`evs, this`qs, this`count, this`countActive
      ensures Valid() && r == if Refused(old(evs)[x], evmapOk) then -1 else 0
      ensures r == -1 ==> evs == old(evs) && qs == old(qs)
      ensures |evs| == |old(evs)| && (r == 0 ==> IsAdded(old(evs)[x], evs[x], tv))
      ensures r == 0 ==> evs[x] == Added(old(evs)[x], tv)
      ensures forall y :: 0 <= y < |evs| && y != x && y !in wake ==> evs[y] == old(evs)[y]
    {
      assert EvOk(evs[x], qs);
      assert x !in wake;
      if evs[x].finalizing {
        return -1;
      }
      if Registers(evs[x]) {
        if !evmapOk {
          return -1;
        }
        ghost var evs0 := evs;
        InsertInserted(x);
        WakesKept(evs0, qs, qs, wake, current, x, evs[x], current);
      }
      r := 0;
      if tv.At? {
        AddTimeout(x, tv.deadline, tv.list);
      }
    }

    /** The part of event_add that is about time: a new head of a common list wakes the loop. */
    method AddTimeout(x: nat, deadline: int, list: int)
      requires Valid() && x < |evs| && x !in wake && !evs[x].finalizing && list < |qs.lists|
      modifies this`evs, this`qs, this`count, this`countActive
      ensures Valid() && |evs| == |old(evs)| && evs[x] == Timed(old(evs)[x], deadline, list)
      ensures forall y :: 0 <= y < |evs| && y != x && y !in wake ==> evs[y] == old(evs)[y]
    {
      ghost var evs0, qs0 := evs, qs;
      var i := SetTimeout(x, deadline, list);
      WakesButOne(evs0, qs0, qs, wake, current, x, evs[x], list, i);
      if list >= 0 && qs.lists[list][0] == x {
        Schedule(list);
      }
    }

    /** The timeout of an event has passed: delete it and activate it. */
    method Expire(x: nat)
      requires Valid() && x < |evs| && evs[x].timeout
      modifies this`evs, this`qs, this`count, this`countActive
      ensures Valid() && evs == old(evs)[x := Expired(old(evs)[x])] && ListsLose(old(qs), qs, x)
      ensures qs.heap == Without(old(qs).heap, x)
    {
      ghost var evs0, qs0 := evs, qs;
      assert EvOk(evs[x], qs);
      DelNolock(x, false);
      ghost var e := evs[x];
      ActiveNolock(x, true);
      Overwrite(evs0, x, e, evs[x]);
      WakesExpired(evs0, qs0, qs, wake, current, x, evs[x]);
    }

    /** Some event on the heap that is due first. */
    method HeapTop() returns (x: nat)
      requires Base() && qs.heap != []
      ensures x in qs.heap && x < |evs| && Member(evs[x], Heap)
      ensures forall y :: y in qs.heap ==> Due(evs, x) <= Due(evs, y)
    {
      assert Holds(evs, Get(qs, Heap), Heap);
      x := qs.heap[0];
      for i := 1 to |qs.heap|
        invariant x in qs.heap && forall j :: 0 <= j < i ==> Due(evs, x) <= Due(evs, qs.heap[j])
      {
        if Due(evs, qs.heap[i]) < Due(evs, x) {
          x := qs.heap[i];
        }
      }
    }

    /** Activate every event on the heap that is due. */
    method TimeoutProcess(now: int)
      requires Valid()
      modifies this`evs, this`qs, this`count, this`countActive
      ensures Valid() && |evs| == |old(evs)|
      ensures forall x :: 0 <= x < |evs| ==>
                evs[x] == if IsDue(old(evs)[x], now) then Expired(old(evs)[x]) else old(evs)[x]
      ensures forall x :: x in qs.heap ==> x < |evs| && now < evs[x].deadline
    {
      assert Holds(evs, Get(qs, Heap), Heap);
      while qs.heap != []
        invariant Valid() && |evs| == |old(evs)|
        invariant forall x :: 0 <= x < |evs| ==>
                    evs[x] == old(evs)[x] || (IsDue(old(evs)[x], now) && evs[x] == Expired(old(evs)[x]))
        decreases |qs.heap|
      {
        var x := HeapTop();
        if evs[x].deadline > now {
          break;
        }
        assert Holds(evs, Get(qs, Heap), Heap);
        WithoutRight(qs.heap, x);
        Expire(x);
      }
      assert Holds(evs, Get(qs, Heap), Heap);
    }

    /** The callback of a wake event: activate the events of the list that are due, and wake up again
        for the first of the others. */
    method CommonTimeoutCallback(l: nat, now: int)
      requires Valid() && l < |wake| && current == wake[l]
      modifies this`evs, this`qs, this`count, this`countActive, this`current
      ensures Valid() && current == -1 && |evs| == |old(evs)|
      ensures forall x :: 0 <= x < |evs| && x != wake[l] ==>
                evs[x] == if old(evs)[x].timeout && old(evs)[x].list == l && old(evs)[x].deadline <= now
                          then Expired(old(evs)[x]) else old(evs)[x]
      ensures forall x :: x in qs.lists[l] ==> x < |evs| && now < evs[x].deadline
      ensures qs.lists[l] != [] ==> evs[wake[l]].timeout && evs[wake[l]].deadline == Due(evs, qs.lists[l][0])
    {
      RunExpired(l, now);
      if qs.lists[l] != [] {
        ListNotWake(evs, qs, wake, l);
        Schedule(l);
        assert qs.lists[l][0] in qs.lists[l];
      }
      current := -1;
    }

    /** Activate the events of a list that are due. */
    method RunExpired(l: nat, now: int)
      requires Valid() && l < |wake| && current == wake[l]
      modifies this`evs, this`qs, this`count, this`countActive
      ensures Valid() && |evs| == |old(evs)|
      ensures forall x :: 0 <= x < |evs| ==>
                evs[x] == if old(evs)[x].timeout && old(evs)[x].list == l && old(evs)[x].deadline <= now
                          then Expired(old(evs)[x]) else old(evs)[x]
      ensures forall x :: x in qs.lists[l] ==> x < |evs| && now < evs[x].deadline
    {
      while qs.lists[l] != []
        invariant Valid() && |evs| == |old(evs)|
        invariant forall x :: 0 <= x < |evs| ==>
                    (evs[x] == old(evs)[x]
                     || (old(evs)[x].timeout && old(evs)[x].list == l && old(evs)[x].deadline <= now &&
                         evs[x] == Expired(old(evs)[x])))
        decreases |qs.lists[l]|
      {
        assert Holds(evs, Get(qs, Common(l)), Common(l));
        var x := qs.lists[l][0];
        assert x in qs.lists[l];
        if evs[x].deadline > now {
          break;
        }
        WithoutRight(qs.lists[l], x);
        Expire(x);
      }
      assert Holds(evs, Get(qs, Common(l)), Common(l));
      AllLater(evs, qs.lists[l], now);
    }

    /** Take the next callback of a priority off its queue; it runs from now on. */
    method ProcessNext(p: nat) returns (x: nat)
      requires Valid() && p < |qs.active| && qs.active[p] != [] && current < 0
      modifies this`evs, this`qs, this`count, this`countActive, this`current
      ensures Valid() && x == old(qs).active[p][0] == current && x < |old(evs)|
      ensures evs == old(evs)[x := Taken(old(evs)[x])] && ActiveLose(old(qs), qs, x)
    {
      ghost var evs0, qs0, current0 := evs, qs, current;
      assert Holds(evs, Get(qs, Active(p)), Active(p));
      x := qs.active[p][0];
      assert x in qs.active[p];
      TakeOff(x);
      current := x;
      if x in wake {
        ghost var l :| 0 <= l < |wake| && wake[l] == x;
        WakeNotListed(evs0, qs0, qs, wake, l);
        WakesChanged(evs0, qs0, qs, wake, current0, l, evs[x], current);
      } else {
        WakesKept(evs0, qs0, qs, wake, current0, x, evs[x], current);
      }
    }

    /** An event that is not persistent is deleted before it runs. */
    method TakeOff(x: nat)
      requires Base() && x < |evs| && evs[x].active && (x in wake ==> IsWake(evs[x]))
      modifies this`evs, this`qs, this`count, this`countActive
      ensures Base() && evs == old(evs)[x := Taken(old(evs)[x])] && ActiveLose(old(qs), qs, x)
      ensures |qs.lists| == |old(qs).lists| && (ListsLose(old(qs), qs, x) || qs.lists == old(qs).lists)
      ensures x in wake ==> ListsLose(old(qs), qs, x)
    {
      NotActive(evs, qs, x);
      assert EvOk(evs[x], qs);
      if evs[x].isEvent && !(evs[x].persist || evs[x].finalizing) {
        DelNolock(x, false);
      } else {
        RemoveActive(x);
      }
    }

    /** A callback other than a wake event's returns. */
    method EndCallback()
      requires Valid() && current !in wake
      modifies this`current
      ensures Valid() && current == -1
    {
      current := -1;
    }

    /** Everything that was to run later runs in this round, in the same order. */
    method MakeLaterEventsActive()
      requires Valid()
      modifies this`evs, this`qs
      ensures Valid() && qs.later == [] && |evs| == |old(evs)| && |qs.active| == |old(qs).active|
      ensures forall x :: 0 <= x < |evs| ==>
                evs[x] == old(evs)[x].(later := false, active := old(evs)[x].active || old(evs)[x].later)
      ensures forall p :: 0 <= p < |qs.active| ==> qs.active[p] == old(qs).active[p] + OfPri(old(evs), old(qs).later, p)
    {
      ghost var later0 := qs.later;
      ghost var n := 0;
      while qs.later != []
        invariant Valid() && |evs| == |old(evs)| && |qs.active| == |old(qs).active|
        invariant forall x :: 0 <= x < |evs| ==>
                    var e := old(evs)[x];
                    evs[x] == e || evs[x] == e.(later := false, active := e.active || e.later)
        invariant n <= |later0| && qs.later == later0[n..]
        invariant forall p :: 0 <= p < |qs.active| ==>
                    qs.active[p] == old(qs).active[p] + OfPri(old(evs), later0[..n], p)
        decreases |qs.later|
      {
        ghost var x, active0 := qs.later[0], qs.active;
        Promote();
        assert later0[..n + 1][..n] == later0[..n] && later0[n] == x;
        assert evs[x].pri == old(evs)[x].pri;
        NextOfPri(old(evs), later0[..n + 1], old(qs).active, active0, qs.active, x);
        n := n + 1;
      }
      assert later0[..n] == later0;
      assert Holds(evs, Get(qs, Later), Later);
    }

    /** The first callback of the later queue goes to the end of its active queue. */
    method Promote()
      requires Valid() && qs.later != []
      modifies this`evs, this`qs
      ensures Valid() && qs.later == old(qs).later[1..] && old(qs).later[0] < |old(evs)|
      ensures var x := old(qs).later[0];
              evs == old(evs)[x := old(evs)[x].(later := false, active := true)] && old(evs)[x].later
      ensures var x := old(qs).later[0];
              var p := old(evs)[x].pri;
              p < |old(qs).active| && qs.active == old(qs).active[p := Appended(old(qs).active[p], x)]
    {
      assert Holds(evs, Get(qs, Later), Later);
      var x := qs.later[0];
      assert x in qs.later;
      assert EvOk(evs[x], qs);
      ghost var evs0, qs0 := evs, qs;
      var e2 := evs[x].(later := false, active := true);
      var qs1 := Put(qs, Later, qs.later[1..]);
      PromotedState(evs, qs, count, countActive, x, qs1, e2);
      var k := Active(e2.pri);
      qs := Put(qs1, k, Appended(Get(qs1, k), x));
      evs := evs[x := e2];
      Promoted(evs0, qs0, qs, wake, current, x, e2);
    }

    constructor (priorities: nat)
      ensures Valid() && Now() == Start(priorities)
    {
      evs, wake, durations, current, count, countActive := [], [], [], -1, 0, 0;
      qs := Queues(seq(priorities, _ => []), [], [], []);
      new;
      NoLengths(qs.active);
      forall k | IsQueue(qs, k)
        ensures Holds(evs, Get(qs, k), k)
      {
        assert Get(qs, k) == [];
      }
    }

    /** event_assign: a new event, on no queue. */
    method NewEvent(e: Ev) returns (x: nat)
      requires Valid() && e.pri < |qs.active| && Fresh(e)
      modifies this`evs
      ensures Valid() && x == |old(evs)| && evs == old(evs) + [e]
    {
      x := |evs|;
      Appending(evs, qs, qs, count, countActive, e);
      WakesAppend(evs, qs, wake, current, e);
      evs := evs + [e];
    }

    /** event_base_init_common_timeout: the list of a duration, made if there is none, at most 256. */
    method InitCommonTimeout(duration: int) returns (l: int)
      requires Valid() && 0 < |qs.active|
      modifies this`evs, this`qs, this`wake, this`durations
      ensures Valid() && (l == -1 <==> duration !in old(durations) && |old(durations)| >= MAX_COMMON_TIMEOUTS)
      ensures l >= -1 && (l >= 0 ==> l < |durations| && durations[l] == duration)
      ensures duration in old(durations) || l == -1 ==> Now() == old(Now())
      ensures duration !in old(durations) && l >= 0 ==>
                && durations == old(durations) + [duration] && qs.lists == old(qs).lists + [[]]
                && evs == old(evs) + [WAKE] && wake == old(wake) + [|old(evs)|]
    {
      for i := 0 to |durations|
        invariant duration !in durations[..i]
      {
        if durations[i] == duration {
          return i;
        }
        assert durations[..i + 1] == durations[..i] + [durations[i]];
      }
      assert durations[..|durations|] == durations;
      if |durations| >= MAX_COMMON_TIMEOUTS {
        return -1;
      }
      l := |durations|;
      var qs' := qs.(lists := qs.lists + [[]]);
      Appending(evs, qs, qs', count, countActive, WAKE);
      WakesAppend(evs, qs, wake, current, WAKE);
      assert |evs| !in wake;
      WakesMore(evs + [WAKE], qs, qs', wake, current, |evs|);
      wake := wake + [|evs|];
      durations := durations + [duration];
      evs, qs := evs + [WAKE], qs';
    }
  }
}
