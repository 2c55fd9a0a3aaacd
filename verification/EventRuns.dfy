/** Whole runs of an event loop. */
module EventRuns {
  import opened Queues
  import opened EventLoop

  datatype Op = New(e: Ev) | NewCommon(duration: int) | Adding(x: nat, tv: Timeout, ok: bool)
              | Deleting(x: nat, evenIfFinalizing: bool)
              | Activating(x: nat, byTimeout: bool) | ActivatingLater(x: nat, byTimeout: bool) | Finalizing(x: nat)
              | Timers(now: int) | Promoting | Running(p: nat) | Returning(now: int)

  /** May the operation be done now? Users only touch their own events, and one callback runs at a time. */
  predicate Enabled(op: Op, evs: seq<Ev>, qs: Queues, current: int) {
    match op
    case New(e) => e.pri < |qs.active| && Fresh(e) && !e.internal
    case NewCommon(_) => |qs.active| > 0
    case Adding(x, tv, _) => x < |evs| && !evs[x].internal && (tv.At? ==> tv.list < |qs.lists|)
    case Deleting(x, _) => x < |evs| && !evs[x].internal
    case Activating(x, _) => x < |evs| && !evs[x].internal
    case ActivatingLater(x, _) => x < |evs| && !evs[x].internal
    case Finalizing(x) => x < |evs| && !evs[x].internal
    case Timers(_) => true
    case Promoting => true
    case Running(p) => p < |qs.active| && qs.active[p] != [] && current < 0
    case Returning(_) => current >= 0
  }

  /** Off every queue. */
  function Off(e: Ev): Ev {
    e.(timeout := false, active := false, later := false, inserted := false)
  }

  /** Off every queue but that of its priority, where the timeout has put it. */
  function TimedOut(e: Ev): Ev {
    e.(timeout := false, active := true, later := false, inserted := false, resTimeout := true)
  }

  /** What an operation does to the events. */
  ghost predicate Changes(op: Op, s: Snapshot, evs: seq<Ev>, evs': seq<Ev>) {
    match op
    case New(e) => evs' == evs + [e]
    case NewCommon(d) => evs' == if d in s.durations || |s.durations| >= MAX_COMMON_TIMEOUTS then evs else evs + [WAKE]
    case Adding(x, tv, ok) =>
      && |evs'| == |evs| && x < |evs| && (forall y :: 0 <= y < |evs| && y != x && y !in s.wake ==> evs'[y] == evs[y])
      && (if Refused(evs[x], ok) then evs'[x] == evs[x] else IsAdded(evs[x], evs'[x], tv))
    case Deleting(x, evenIfFinalizing) =>
      x < |evs| && evs' == evs[x := if evs[x].finalizing && !evenIfFinalizing then evs[x] else Off(evs[x])]
    case Activating(x, byTimeout) =>
      && x < |evs|
      && var e := evs[x];
         // being active or later already, it keeps what activated it
         var res := byTimeout || ((e.active || e.later) && e.resTimeout);
         evs' == evs[x := if e.finalizing then e else e.(active := true, later := false, resTimeout := res)]
    case ActivatingLater(x, byTimeout) =>
      && x < |evs|
      && var e := evs[x];
         var res := byTimeout || ((e.active || e.later) && e.resTimeout);
         evs' == evs[x := e.(resTimeout := res, later := !e.active)]
    case Finalizing(x) =>
      && x < |evs|
      && evs' == evs[x := if evs[x].finalizing then evs[x] else Off(evs[x]).(active := true, resTimeout := false,
                                                                             finalizing := true)]
    case Timers(now) =>
      |evs'| == |evs| && forall x :: 0 <= x < |evs| ==>
          evs'[x] == if evs[x].timeout && evs[x].list < 0 && evs[x].deadline <= now then TimedOut(evs[x]) else evs[x]
    case Promoting =>
      |evs'| == |evs| && forall x :: 0 <= x < |evs| ==>
          evs'[x] == evs[x].(later := false, active := evs[x].active || evs[x].later)
    case Running(p) =>
      && p < |s.qs.active| && s.qs.active[p] != []
      && var x := s.qs.active[p][0];
         // a persistent event stays registered, and keeps its timeout
         x < |evs| && evs' == evs[x := if evs[x].isEvent && !evs[x].persist && !evs[x].finalizing then Off(evs[x])
                                       else evs[x].(active := false)]
    case Returning(now) =>
      && |evs'| == |evs| && (s.current !in s.wake ==> evs' == evs)
      && forall l :: 0 <= l < |s.wake| && s.wake[l] == s.current ==>
           forall x :: 0 <= x < |evs| && x != s.wake[l] ==>
             evs'[x] ==
               if evs[x].timeout && evs[x].list == l && evs[x].deadline <= now then TimedOut(evs[x])
               else evs[x]
  }

  /** What an operation does; one that cannot be done changes nothing. */
  ghost predicate Does(op: Op, s: Snapshot, s': Snapshot) {
    if !Enabled(op, s.evs, s.qs, s.current) then s' == s
    else
      && Changes(op, s, s.evs, s'.evs)
      && (if op.Running? then s'.current == s.qs.active[op.p][0]
          else if op.Returning? then s'.current == -1
          else s'.current == s.current)
      && (if op.NewCommon?
          then s.wake <= s'.wake && (op.duration in s'.durations || |s.durations| >= MAX_COMMON_TIMEOUTS)
          else s'.wake == s.wake && s'.durations == s.durations)
  }

  /** One operation, if it can be done now. */
  method Do(loop: Loop, op: Op)
    requires loop.Valid()
    modifies loop
    ensures loop.Valid() && Does(op, old(loop.Now()), loop.Now())
  {
    if !Enabled(op, loop.evs, loop.qs, loop.current) {
      return;
    }
    match op
    case New(e) => var x := loop.NewEvent(e);
    case NewCommon(d) => var l := loop.InitCommonTimeout(d);
    case Adding(x, tv, ok) => var r := loop.Add(x, tv, ok);
    case Deleting(_, _) => OnOne(loop, op);
    case Activating(_, _) => OnOne(loop, op);
    case ActivatingLater(_, _) => OnOne(loop, op);
    case Finalizing(_) => OnOne(loop, op);
    case Timers(now) => loop.TimeoutProcess(now);
    case Promoting => loop.MakeLaterEventsActive();
    case Running(p) => var x := loop.ProcessNext(p);
    case Returning(now) => Return(loop, now);
  }

  /** The operations on one event that are not about time. */
  method OnOne(loop: Loop, op: Op)
    requires loop.Valid() && Enabled(op, loop.evs, loop.qs, loop.current)
    requires op.Deleting? || op.Activating? || op.ActivatingLater? || op.Finalizing?
    modifies loop
    ensures loop.Valid() && Changes(op, old(loop.Now()), old(loop.evs), loop.evs)
    ensures loop.current == old(loop.current) && loop.wake == old(loop.wake) && loop.durations == old(loop.durations)
  {
    match op
    case Deleting(x, evenIfFinalizing) => loop.Del(x, evenIfFinalizing);
    case Activating(x, byTimeout) => loop.Activate(x, byTimeout);
    case ActivatingLater(x, byTimeout) => loop.ActivateLater(x, byTimeout);
    case Finalizing(x) => loop.Finalize(x);
  }

  /** The running callback does its work, if it is a wake event's, and returns. */
  method Return(loop: Loop, now: int)
    requires loop.Valid() && loop.current >= 0
    modifies loop
    ensures loop.Valid() && loop.current == -1 && loop.wake == old(loop.wake) && loop.durations == old(loop.durations)
    ensures Changes(Returning(now), old(loop.Now()), old(loop.evs), loop.evs)
  {
    var l := 0;
    while l < |loop.wake| && loop.wake[l] != loop.current
      invariant l <= |loop.wake| && forall j :: 0 <= j < l ==> loop.wake[j] != loop.current
      modifies {}
    {
      l := l + 1;
    }
    if l < |loop.wake| {
      loop.CommonTimeoutCallback(l, now);
    } else {
      loop.EndCallback();
    }
  }

  // ----- what holds in every state

  ghost predicate LoopOk(s: Snapshot) {
    StateOk(s.evs, s.qs, s.count, s.countActive) && WakesOk(s.evs, s.qs, s.wake, s.current)
  }

  /** Flags are memberships, never active and later together, counters are sizes, and common-timeout
      lists are sorted. */
  ghost predicate Consistent(s: Snapshot) {
    && (forall x, p :: 0 <= x < |s.evs| && 0 <= p < |s.qs.active| ==>
          (x in s.qs.active[p] <==> s.evs[x].active && s.evs[x].pri == p))
    && (forall x :: 0 <= x < |s.evs| ==> (x in s.qs.later <==> s.evs[x].later))
    && (forall x :: 0 <= x < |s.evs| ==> !(s.evs[x].active && s.evs[x].later))
    && (forall x :: 0 <= x < |s.evs| ==> (s.evs[x].inserted ==> s.evs[x].io))
    && (forall x :: 0 <= x < |s.evs| ==> (x in s.qs.heap <==> s.evs[x].timeout && s.evs[x].list < 0))
    && (forall x, l :: 0 <= x < |s.evs| && 0 <= l < |s.qs.lists| ==>
          (x in s.qs.lists[l] <==> s.evs[x].timeout && s.evs[x].list == l))
    && s.countActive == Lengths(s.qs.active) + |s.qs.later|
    && s.count == Sum(s.evs)
    && (forall l :: 0 <= l < |s.qs.lists| ==> Sorted(s.evs, s.qs.lists[l]))
  }

  lemma {:induction false} OkIsConsistent(s: Snapshot)
    requires LoopOk(s)
    ensures Consistent(s)
  {
    forall p | 0 <= p < |s.qs.active|
      ensures Holds(s.evs, s.qs.active[p], Active(p))
    {
      assert Holds(s.evs, Get(s.qs, Active(p)), Active(p));
    }
    forall l | 0 <= l < |s.qs.lists|
      ensures Holds(s.evs, s.qs.lists[l], Common(l))
    {
      assert Holds(s.evs, Get(s.qs, Common(l)), Common(l));
    }
    assert Holds(s.evs, Get(s.qs, Later), Later);
    assert Holds(s.evs, Get(s.qs, Heap), Heap);
    forall x | 0 <= x < |s.evs|
      ensures !(s.evs[x].active && s.evs[x].later)
    {
      assert EvOk(s.evs[x], s.qs);
    }
  }

  /** The wake event of a common-timeout list that is not empty is on the heap no later than the first
      event of the list is due, or its callback is queued or running. */
  lemma {:induction false} WokenInTime(s: Snapshot, l: nat)
    requires LoopOk(s) && l < |s.qs.lists| && s.qs.lists[l] != []
    ensures var w := s.wake[l];
            || (w in s.qs.heap && Due(s.evs, w) <= Due(s.evs, s.qs.lists[l][0]))
            || s.evs[w].active || s.evs[w].later || s.current == w
  {
    assert IsWake(s.evs[s.wake[l]]) && Woken(s.evs, s.qs.lists[l], s.wake[l], s.current);
    assert Holds(s.evs, Get(s.qs, Heap), Heap);
  }

  /** After the timers have been processed, every common-timeout list with an event that is due has
      its wake event queued or running. */
  lemma {:induction false} NothingMissed(s: Snapshot, now: int, l: nat)
    requires LoopOk(s) && l < |s.qs.lists| && s.qs.lists[l] != [] && Due(s.evs, s.qs.lists[l][0]) <= now
    requires forall x :: x in s.qs.heap ==> now < Due(s.evs, x)
    ensures var w := s.wake[l]; s.evs[w].active || s.evs[w].later || s.current == w
  {
    WokenInTime(s, l);
  }

  // ----- runs

  /** A run: each operation leads from one state to the next, and every state is in order. */
  ghost predicate IsRun(priorities: nat, ops: seq<Op>, trace: seq<Snapshot>) {
    && |trace| == |ops| + 1 && trace[0] == Start(priorities)
    && (forall i :: 0 <= i < |trace| ==> LoopOk(trace[i]) && Consistent(trace[i]))
    && (forall i :: 0 <= i < |ops| ==> Does(ops[i], trace[i], trace[i + 1]))
  }

  lemma {:induction false} Longer(priorities: nat, ops: seq<Op>, i: nat, trace: seq<Snapshot>, s: Snapshot)
    requires i < |ops| && IsRun(priorities, ops[..i], trace) && LoopOk(s) && Does(ops[i], trace[i], s)
    ensures IsRun(priorities, ops[..i + 1], trace + [s])
  {
    OkIsConsistent(s);
    var ops', trace' := ops[..i + 1], trace + [s];
    forall k | 0 <= k < |ops'|
      ensures Does(ops'[k], trace'[k], trace'[k + 1])
    {
      if k < i {
        assert ops'[k] == ops[..i][k] && trace'[k] == trace[k] && trace'[k + 1] == trace[k + 1];
      }
    }
  }

  /** Any operations in any order make a run. */
  method Run(priorities: nat, ops: seq<Op>) returns (loop: Loop, ghost trace: seq<Snapshot>)
    ensures IsRun(priorities, ops, trace) && loop.Valid() && loop.Now() == trace[|ops|]
  {
    loop := new Loop(priorities);
    trace := [loop.Now()];
    OkIsConsistent(loop.Now());
    for i := 0 to |ops|
      invariant fresh(loop) && loop.Valid() && |trace| == i + 1 && loop.Now() == trace[i]
      invariant IsRun(priorities, ops[..i], trace)
    {
      Do(loop, ops[i]);
      Longer(priorities, ops, i, trace, loop.Now());
      trace := trace + [loop.Now()];
    }
    assert ops[..|ops|] == ops;
  }
}
