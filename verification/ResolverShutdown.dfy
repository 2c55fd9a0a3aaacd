/** Shutting down a resolver in which a name lookup has its sub-requests: which of them hear of it. */
module ResolverShutdown {
  import opened GetAddrInfo
  import opened GetAddrInfoRuns
  import T = RequestTable
  import W = RequestShutdown

  /** Requests w4 and w6 of the table are the sub-requests that have no reply yet. */
  ghost predicate Holds(t: T.Table, s: State, w4: nat, w6: nat) {
    && w4 != w6
    && T.OpenIn(t, w4) == (if s.v4.Outstanding? then 1 else 0)
    && T.OpenIn(t, w6) == (if s.v6.Outstanding? then 1 else 0)
  }

  /** What a shutdown that tells these requests is to the lookup. */
  function AsStep(failed: seq<nat>, w4: nat, w6: nat): Step {
    ShutsDown(W.Times(failed, w4) > 0, W.Times(failed, w6) > 0)
  }

  /** A possible shutdown of the table. */
  ghost predicate Closes(t: T.Table, ids: seq<nat>, end: W.Walk)
    requires T.TableOk(t)
  {
    W.Walks(W.Begin(t), ids, end) && W.Done(end)
  }

  /** After a shutdown of the table the resolver is never used, short of a cancel, if and only if no
      callback was queued, no timer was pending and neither sub-request was left in the table; and neither
      is if none of them waited, or if the table cannot miss a request. */
  lemma {:induction false} TableShutdown(s: State, t: T.Table, ids: seq<nat>, end: W.Walk, w4: nat, w6: nat)
    requires Ok(s) && s.base == Alive && T.TableOk(t) && Holds(t, s, w4, w6) && Closes(t, ids, end)
    ensures NeverMisused(Next(s, AsStep(end.failed, w4, w6))) <==>
              Quiet(s) && T.OpenIn(end.t, w4) == 0 && T.OpenIn(end.t, w6) == 0
    ensures !W.CanMiss(t) || (T.Count(t.waiting, T.OfWho(w4)) == 0 && T.Count(t.waiting, T.OfWho(w6)) == 0) ==>
              T.OpenIn(end.t, w4) == 0 && T.OpenIn(end.t, w6) == 0
  {
    var step := AsStep(end.failed, w4, w6);
    SafeShutdown(s, step.reach4, step.reach6);
    W.OnlyWaitingMissed(t, ids, end, w4);
    W.OnlyWaitingMissed(t, ids, end, w6);
    if s.v4.Outstanding? {
      W.ToldUnlessMissed(t, ids, end, w4);
    }
    if s.v6.Outstanding? {
      W.ToldUnlessMissed(t, ids, end, w6);
    }
  }

  /** A lookup that is quiet in a table that cannot miss a request ends with its shutdown callbacks. */
  lemma {:induction false} TableShutdownEnds(s: State, t: T.Table, ids: seq<nat>, end: W.Walk, w4: nat, w6: nat,
                                             f: Family)
    requires Ok(s) && s.base == Alive && Quiet(s)
    requires T.TableOk(t) && !W.CanMiss(t) && Holds(t, s, w4, w6) && Closes(t, ids, end)
    ensures var end := Run(Next(s, AsStep(end.failed, w4, w6)), [RunCallback(f), RunCallback(Opposite(f))]);
            Ok(end) && end.frees == 1 && !end.misused && end.answers == [Expected(end)]
  {
    var step := AsStep(end.failed, w4, w6);
    if s.v4.Outstanding? {
      W.ToldUnlessMissed(t, ids, end, w4);
    }
    if s.v6.Outstanding? {
      W.ToldUnlessMissed(t, ids, end, w6);
    }
    ShutdownEnds(s, f, step.reach4, step.reach6);
  }

  /** Nothing is queued and no timer is pending, and yet some ids leave the lookup without an answer, and
      with a use of the freed resolver to come. */
  ghost predicate MissedThoughQuiet(s: State, t: T.Table, w4: nat, w6: nat) {
    && Ok(s) && s.base == Alive && Quiet(s) && T.TableOk(t) && Holds(t, s, w4, w6)
    && exists ids, end :: Closes(t, ids, end) && !NeverMisused(Next(s, AsStep(end.failed, w4, w6)))
  }

  lemma {:induction false} ForgottenIsMissed(s: State, t: T.Table, w4: nat, w6: nat)
    requires Ok(s) && s.base == Alive && Quiet(s) && T.TableOk(t) && Holds(t, s, w4, w6) && W.NotTold(t, w4)
    ensures MissedThoughQuiet(s, t, w4, w6)
  {
    var ids, end :| W.Walks(W.Begin(t), ids, end) && W.Done(end) && W.Times(end.failed, w4) < T.OpenIn(t, w4);
    assert Closes(t, ids, end);
    W.OnlyWaitingMissed(t, ids, end, w4);
    TableShutdown(s, t, ids, end, w4, w6);
  }

  /** A lookup whose one sub-request waits behind n in flight, of which six are allowed. */
  lemma {:induction false} QuietButMissed(n: nat, s: State, t: T.Table)
    requires 6 <= n <= 100 && s == Init(true, false) && t == W.OddAndOne(n)
    ensures MissedThoughQuiet(s, t, n + 1, n + 2)
  {
    InitOk(true, false);
    W.WaitingIsForgotten(n, t);
    ForgottenIsMissed(s, t, n + 1, n + 2);
  }
}
