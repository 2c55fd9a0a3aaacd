/** What holds of every run of the name lookup, whatever the interleaving. */
module GetAddrInfoRuns {
  import opened GetAddrInfo

  lemma {:induction false} RunConcat(s: State, x: seq<Step>, y: seq<Step>)
    ensures Run(s, x + y) == Run(Run(s, x), y)
    decreases |x|
  {
    if x == [] {
      assert x + y == y;
    } else {
      assert (x + y)[0] == x[0] && (x + y)[1..] == x[1..] + y;
      RunConcat(Next(s, x[0]), x[1..], y);
    }
  }

  // ----- using the resolver

  /** Does the step lock the resolver, count in it, or read the skew from it? */
  predicate Uses(s: State, step: Step) {
    match step
    case Retransmits(f) => true
    case RunCallback(f) => s.Get(f).Scheduled? && s.Get(f).reply != Failure(ShutDown)
    case TimerFires => s.AnyLive()
    case UserCancels => true
    case _ => false
  }

  /** What every step keeps, and what only certain steps change. */
  ghost predicate Stepped(s: State, step: Step, t: State) {
    && (t.misused <==> s.misused || (Enabled(s, step) && Uses(s, step) && s.base != Alive))
    && (t.byTimer <==> s.byTimer || (step.TimerFires? && s.timer))
    && (s.userCanceled ==> t.userCanceled)
    && (t.v4.Idle? <==> s.v4.Idle?) && (t.v6.Idle? <==> s.v6.Idle?)
    && s.answers <= t.answers && s.frees <= t.frees
  }

  lemma {:induction false} ReplyStepped(s: State, f: Family, reply: Reply)
    requires s.Get(f).Outstanding?
    ensures Stepped(s, NetReply(f, reply), s.Put(f, Scheduled(reply)))
  {
  }

  lemma {:induction false} CallbackStepped(s: State, f: Family)
    requires s.Get(f).Scheduled?
    ensures Stepped(s, RunCallback(f), AfterCallback(s, f))
    ensures AfterCallback(s, f).base == if s.Get(f).reply == Failure(ShutDown) then Null else s.base
    ensures AfterCallback(s, f).timer ==> s.timer || (s.Get(Opposite(f)).Live() && s.Get(f).reply != Failure(ShutDown))
    ensures AfterCallback(s, f).Get(f).Delivered? && AfterCallback(s, f).Get(Opposite(f)) == s.Get(Opposite(f))
  {
    var result := s.Get(f).reply;
    var s1 := Arrived(s, f, result);
    ArrivedKeeps(s, f, result, s1);
    DecideKeeps(s1, f, result);
  }

  /** Only the timer, what is pending, the calls and the frees may differ. */
  ghost predicate Kept(s: State, t: State) {
    && t.v4 == s.v4 && t.v6 == s.v6 && t.base == s.base && t.misused == s.misused && t.byTimer == s.byTimer
    && t.userCanceled == s.userCanceled && s.answers <= t.answers && s.frees <= t.frees
  }

  lemma {:induction false} FreeKeeps(s: State)
    ensures Kept(s, s.Free()) && !s.Free().timer
  {
  }

  lemma {:induction false} TellKeeps(s: State, o: Outcome)
    ensures Kept(s, s.Tell(o).Free()) && !s.Tell(o).Free().timer
  {
  }

  lemma {:induction false} WaitingKeeps(s: State, result: Reply)
    ensures Kept(s, Waiting(s, result)) && (result == Failure(ShutDown) ==> Waiting(s, result).timer == s.timer)
  {
  }

  lemma {:induction false} DecideKeeps(s: State, f: Family, result: Reply)
    ensures var t := Decide(s, f, result);
            && Kept(s, t)
            && (t.timer ==> s.timer || (s.Get(Opposite(f)).Live() && result != Failure(ShutDown)))
  {
    FreeKeeps(s);
    TellKeeps(s, Final(s, f, result));
    WaitingKeeps(s, result);
  }

  lemma {:induction false} ArrivedKeeps(s: State, f: Family, result: Reply, s1: State)
    requires s.Get(f) == Scheduled(result) && s1 == Arrived(s, f, result)
    ensures Stepped(s, RunCallback(f), s1) && s1.byTimer == s.byTimer && s1.answers == s.answers && s1.frees == s.frees
    ensures s1.base == (if result == Failure(ShutDown) then Null else s.base) && s1.timer == s.timer
    ensures s1.Get(f).Delivered? && s1.Get(Opposite(f)) == s.Get(Opposite(f))
  {
  }

  lemma {:induction false} TimerStepped(s: State)
    requires s.timer
    ensures Stepped(s, TimerFires, AfterTimer(s))
  {
  }

  lemma {:induction false} CancelStepped(s: State)
    requires s.frees == 0
    ensures Stepped(s, UserCancels, AfterCancel(s))
  {
  }

  lemma {:induction false} ShutdownStepped(s: State, reach4: bool, reach6: bool)
    requires s.base == Alive
    ensures Stepped(s, ShutsDown(reach4, reach6), AfterShutdown(s, reach4, reach6))
  {
  }

  lemma {:induction false} NextStepped(s: State, step: Step)
    ensures Stepped(s, step, Next(s, step))
  {
    if Enabled(s, step) {
      match step
      case NetReply(f, reply) => ReplyStepped(s, f, reply);
      case Retransmits(f) =>
      case RunCallback(f) => CallbackStepped(s, f);
      case TimerFires => TimerStepped(s);
      case UserCancels => CancelStepped(s);
      case ShutsDown(reach4, reach6) => ShutdownStepped(s, reach4, reach6);
    }
  }

  /** Does the run ever use a resolver that is not alive? */
  predicate UsesDead(s: State, script: seq<Step>)
    decreases |script|
  {
    script != [] &&
    ((Enabled(s, script[0]) && Uses(s, script[0]) && s.base != Alive) || UsesDead(Next(s, script[0]), script[1..]))
  }

  lemma {:induction false} MisusedIff(s: State, script: seq<Step>)
    ensures Run(s, script).misused <==> s.misused || UsesDead(s, script)
    decreases |script|
  {
    if script != [] {
      NextStepped(s, script[0]);
      MisusedIff(Next(s, script[0]), script[1..]);
    }
  }

  lemma {:induction false} StaysAlive(s: State, step: Step)
    requires Ok(s) && s.base == Alive && !step.ShutsDown?
    ensures Next(s, step).base == Alive
  {
    if Enabled(s, step) && step.RunCallback? {
      CallbackStepped(s, step.f);
    }
  }

  /** Without a shutdown the resolver is always there. */
  lemma {:induction false} AliveWithoutShutdown(s: State, script: seq<Step>)
    requires Ok(s) && s.base == Alive && forall i :: 0 <= i < |script| ==> !script[i].ShutsDown?
    ensures Run(s, script).base == Alive && !Run(s, script).misused
    decreases |script|
  {
    RunOk(s, script);
    if script != [] {
      NextOk(s, script[0]);
      StaysAlive(s, script[0]);
      AliveWithoutShutdown(Next(s, script[0]), script[1..]);
    }
  }

  /** No callback is queued and no timer is pending. */
  predicate Quiet(s: State) {
    !s.timer && !s.v4.Scheduled? && !s.v6.Scheduled?
  }

  /** Only shutdown callbacks are left to run. */
  predicate WindingDown(s: State) {
    && s.base != Alive && !s.timer && !s.misused && !s.v4.Outstanding? && !s.v6.Outstanding?
    && (s.v4.Scheduled? ==> s.v4.reply == Failure(ShutDown)) && (s.v6.Scheduled? ==> s.v6.reply == Failure(ShutDown))
  }

  lemma {:induction false} NextWindsDown(s: State, step: Step)
    requires WindingDown(s) && !step.UserCancels?
    ensures WindingDown(Next(s, step))
  {
    if Enabled(s, step) && step.RunCallback? {
      CallbackStepped(s, step.f);
    }
  }

  lemma {:induction false} WindsDown(s: State, script: seq<Step>)
    requires WindingDown(s) && UserCancels !in script
    ensures WindingDown(Run(s, script))
    decreases |script|
  {
    if script != [] {
      assert script[0] in script && forall x :: x in script[1..] ==> x in script;
      NextWindsDown(s, script[0]);
      WindsDown(Next(s, script[0]), script[1..]);
    }
  }

  /** Every sub-request that has no reply yet is reached by the shutdown. */
  predicate Reached(s: State, reach4: bool, reach6: bool) {
    (s.v4.Outstanding? ==> reach4) && (s.v6.Outstanding? ==> reach6)
  }

  /** The resolver is never used after the shutdown, whatever follows, short of a cancel. */
  ghost predicate NeverMisused(s: State) {
    forall after :: UserCancels !in after ==> !Run(s, after).misused
  }

  /** Exactly which shutdowns are safe: whatever follows, short of a cancel, never uses the freed or
      forgotten resolver if and only if no callback was queued, no timer was pending, and no sub-request was
      missed; if a cancel may follow, if and only if the request was gone already. */
  lemma {:induction false} SafeShutdown(s: State, reach4: bool, reach6: bool)
    requires Ok(s) && s.base == Alive
    ensures NeverMisused(Next(s, ShutsDown(reach4, reach6))) <==> Quiet(s) && Reached(s, reach4, reach6)
    ensures (forall after :: !Run(Next(s, ShutsDown(reach4, reach6)), after).misused) <==> s.frees == 1
  {
    var s1 := Next(s, ShutsDown(reach4, reach6));
    if Quiet(s) && Reached(s, reach4, reach6) {
      forall after | UserCancels !in after
        ensures !Run(s1, after).misused
      {
        WindsDown(s1, after);
      }
    } else {
      var step := if s.timer then TimerFires else if s.v4.Scheduled? then RunCallback(V4)
                  else if s.v6.Scheduled? then RunCallback(V6)
                  else if s1.v4.Outstanding? then Retransmits(V4) else Retransmits(V6);
      OneStep(s1, step);
      assert UserCancels !in [step] && Run(s1, [step]).misused;
    }
    if s.frees == 1 {
      forall after
        ensures !Run(s1, after).misused
      {
        GoneForGood(s1, after);
      }
    } else {
      OneStep(s1, UserCancels);
      assert Run(s1, [UserCancels]).misused;
    }
  }

  lemma {:induction false} OneStep(s: State, step: Step)
    ensures Run(s, [step]) == Next(s, step)
  {
    assert [step][1..] == [];
    assert Run(Next(s, step), []) == Next(s, step);
  }

  /** A freed request is never touched again. */
  lemma {:induction false} GoneForGood(s: State, script: seq<Step>)
    requires Ok(s) && s.frees == 1
    ensures Run(s, script) == s.(base := Run(s, script).base)
    decreases |script|
  {
    if script != [] {
      NextOk(s, script[0]);
      GoneForGood(Next(s, script[0]), script[1..]);
    }
  }

  /** A reply that is queued when the resolver shuts down finds it freed. */
  lemma {:induction false} QueuedReplyFindsFreedResolver()
    ensures Run(Init(true, true), [NetReply(V4, Addresses([1])), ShutsDown(true, true), RunCallback(V4)]).misused
  {
    var s0 := Init(true, true);
    var script := [NetReply(V4, Addresses([1])), ShutsDown(true, true), RunCallback(V4)];
    var s1 := Next(s0, script[0]);
    var s2 := Next(s1, script[1]);
    assert script[1..] == [ShutsDown(true, true), RunCallback(V4)] && script[1..][1..] == [RunCallback(V4)];
    OneStep(s2, RunCallback(V4));
    assert Run(s1, script[1..]) == Run(s2, [RunCallback(V4)]);
  }

  // ----- sub-requests that a shutdown missed

  /** A sub-request has no reply, and there is no resolver any more. */
  predicate Missed(s: State) {
    s.base != Alive && (s.v4.Outstanding? || s.v6.Outstanding?)
  }

  /** Does the run have a shutdown that misses a sub-request? */
  predicate Misses(s: State, script: seq<Step>)
    decreases |script|
  {
    script != [] &&
    ((script[0].ShutsDown? && s.base == Alive && !Reached(s, script[0].reach4, script[0].reach6)) ||
     Misses(Next(s, script[0]), script[1..]))
  }

  lemma {:induction false} NextMissed(s: State, step: Step)
    requires Ok(s) && !(Enabled(s, step) && Uses(s, step) && s.base != Alive)
    ensures Missed(Next(s, step)) <==>
              Missed(s) || (step.ShutsDown? && s.base == Alive && !Reached(s, step.reach4, step.reach6))
    ensures Missed(s) ==> Next(s, step).answers == s.answers && Next(s, step).frees == 0
  {
    NextOk(s, step);
    if Enabled(s, step) && step.RunCallback? {
      CallbackStepped(s, step.f);
    }
  }

  /** A run that uses no dead resolver ends with a missed sub-request if and only if a shutdown missed one. */
  lemma {:induction false} MissedIff(s: State, script: seq<Step>)
    requires Ok(s) && !UsesDead(s, script)
    ensures Missed(Run(s, script)) <==> Missed(s) || Misses(s, script)
    decreases |script|
  {
    if script != [] {
      NextOk(s, script[0]);
      NextMissed(s, script[0]);
      MissedIff(Next(s, script[0]), script[1..]);
    }
  }

  /** Once a sub-request has been missed, the user hears nothing more and the request is never freed, unless
      the freed resolver is used. */
  lemma {:induction false} MissedIsNeverTold(s: State, script: seq<Step>)
    requires Ok(s) && Missed(s) && !UsesDead(s, script)
    ensures Run(s, script).answers == s.answers && Run(s, script).frees == 0
    decreases |script|
  {
    if script != [] {
      NextOk(s, script[0]);
      NextMissed(s, script[0]);
      MissedIsNeverTold(Next(s, script[0]), script[1..]);
    }
  }

  // ----- exactly once

  /** The outcome that a finished run must have given. */
  ghost function Expected(s: State): Outcome
    requires Ok(s) && s.frees == 1
  {
    if s.v4.Idle? && s.v6.Idle? then Error(EaiFail)
    else if s.byTimer then Single(s.Get(s.first).reply)
    else if s.userCanceled then Error(EaiCancel)
    else Combined(s.v4, s.v6, s.Get(s.last).reply)
  }

  /** Does the user cancel in the run, as long as the request exists? */
  predicate Cancels(s: State, script: seq<Step>)
    decreases |script|
  {
    script != [] && ((script[0].UserCancels? && s.frees == 0) || Cancels(Next(s, script[0]), script[1..]))
  }

  lemma {:induction false} CanceledIff(s: State, script: seq<Step>)
    requires Ok(s)
    ensures Run(s, script).userCanceled <==> s.userCanceled || Cancels(s, script)
    decreases |script|
  {
    if script != [] {
      NextOk(s, script[0]);
      if Enabled(s, script[0]) {
        NextMoves(s, script[0]);
      }
      CanceledIff(Next(s, script[0]), script[1..]);
    }
  }

  /** In every run that does not use a dead resolver: the user is called and the request freed at most
      once; the request is freed exactly when no sub-request is left, and then the user has been called
      once with the right outcome and only the resolver itself is still to come; before that, something
      is still to come, unless a shutdown missed a sub-request; the timer is pending only with exactly one
      sub-request left, and always if the other one has called back and the user is still to be answered; and
      the user counts as having canceled exactly if he did. */
  lemma {:induction false} ExactlyOnce(a: bool, aaaa: bool, script: seq<Step>)
    requires !UsesDead(Init(a, aaaa), script)
    ensures var s := Run(Init(a, aaaa), script);
            && Ok(s) && !s.misused && s.frees <= 1 && |s.answers| <= 1
            && (s.frees == 1 <==> !s.v4.Live() && !s.v6.Live())
            && (s.frees == 1 ==> s.answers == [Expected(s)])
            && (s.frees == 1 ==> forall step :: Enabled(s, step) ==> step.ShutsDown?)
            && (s.frees == 0 && !Misses(Init(a, aaaa), script) ==>
                  exists f :: Enabled(s, RunCallback(f)) || Enabled(s, NetReply(f, Failure(Timeout))))
            && (s.timer ==> s.OneLive())
            && WaitBounded(s)
            && (s.userCanceled <==> Cancels(Init(a, aaaa), script))
  {
    CanceledIff(Init(a, aaaa), script);
    var s := Run(Init(a, aaaa), script);
    InitOk(a, aaaa);
    RunOk(Init(a, aaaa), script);
    MisusedIff(Init(a, aaaa), script);
    MissedIff(Init(a, aaaa), script);
    if s.frees == 0 && !Missed(s) {
      var f := if s.v4.Live() then V4 else V6;
      assert Enabled(s, RunCallback(f)) || Enabled(s, NetReply(f, Failure(Timeout)));
    }
  }

  /** Nothing that the user was told is taken back or said twice. */
  lemma {:induction false} AnswersStay(s: State, script: seq<Step>)
    requires Ok(s)
    ensures s.answers <= Run(s, script).answers && s.frees <= Run(s, script).frees
    decreases |script|
  {
    if script != [] {
      NextOk(s, script[0]);
      NextStepped(s, script[0]);
      AnswersStay(Next(s, script[0]), script[1..]);
    }
  }

  /** After a safe shutdown the callbacks that were queued by it, in either order, end the request. */
  lemma {:induction false} ShutdownEnds(s: State, f: Family, reach4: bool, reach6: bool)
    requires Ok(s) && s.base == Alive && Quiet(s) && Reached(s, reach4, reach6)
    ensures var t := Run(Next(s, ShutsDown(reach4, reach6)), [RunCallback(f), RunCallback(Opposite(f))]);
            Ok(t) && t.frees == 1 && !t.misused && t.answers == [Expected(t)] && s.answers <= t.answers
  {
    var s1 := Next(s, ShutsDown(reach4, reach6));
    NextOk(s, ShutsDown(reach4, reach6));
    var script := [RunCallback(f), RunCallback(Opposite(f))];
    RunOk(s1, script);
    AnswersStay(s1, script);
    WindsDown(s1, script);
    assert script[1..] == [RunCallback(Opposite(f))];
    OneStep(Next(s1, RunCallback(f)), RunCallback(Opposite(f)));
    BothDelivered(s1, f);
  }

  /** When no reply is outstanding, the callbacks of both sub-requests leave none of them. */
  lemma {:induction false} BothDelivered(s: State, f: Family)
    requires !s.v4.Outstanding? && !s.v6.Outstanding?
    ensures var t := Next(Next(s, RunCallback(f)), RunCallback(Opposite(f))); !t.v4.Live() && !t.v6.Live()
  {
    if s.Get(f).Scheduled? {
      CallbackStepped(s, f);
    }
    var s1 := Next(s, RunCallback(f));
    if s1.Get(Opposite(f)).Scheduled? {
      CallbackStepped(s1, Opposite(f));
    }
  }

  // ----- canceling

  /** Does the timer fire in the run? */
  predicate TimerHappens(s: State, script: seq<Step>)
    decreases |script|
  {
    script != [] && ((script[0].TimerFires? && s.timer) || TimerHappens(Next(s, script[0]), script[1..]))
  }

  lemma {:induction false} ByTimerIff(s: State, script: seq<Step>)
    ensures Run(s, script).byTimer <==> s.byTimer || TimerHappens(s, script)
    decreases |script|
  {
    if script != [] {
      NextStepped(s, script[0]);
      ByTimerIff(Next(s, script[0]), script[1..]);
    }
  }

  lemma {:induction false} CanceledStays(s: State, script: seq<Step>)
    requires s.userCanceled
    ensures Run(s, script).userCanceled
    decreases |script|
  {
    if script != [] {
      NextStepped(s, script[0]);
      CanceledStays(Next(s, script[0]), script[1..]);
    }
  }

  lemma {:induction false} LaunchedStays(s: State, script: seq<Step>)
    requires !(s.v4.Idle? && s.v6.Idle?)
    ensures !(Run(s, script).v4.Idle? && Run(s, script).v6.Idle?)
    decreases |script|
  {
    if script != [] {
      NextStepped(s, script[0]);
      LaunchedStays(Next(s, script[0]), script[1..]);
    }
  }

  lemma {:induction false} StillNoTimer(s: State, step: Step)
    requires !s.timer && !(s.v4.Live() && s.v6.Live())
    ensures var t := Next(s, step); !t.timer && !(t.v4.Live() && t.v6.Live())
  {
    if Enabled(s, step) && step.RunCallback? {
      CallbackStepped(s, step.f);
    }
  }

  /** The timer is only set while both sub-requests are left. */
  lemma {:induction false} NoTimerAnyMore(s: State, script: seq<Step>)
    requires Ok(s) && !s.timer && !(s.v4.Live() && s.v6.Live())
    ensures !TimerHappens(s, script)
    decreases |script|
  {
    if script != [] {
      NextOk(s, script[0]);
      StillNoTimer(s, script[0]);
      NoTimerAnyMore(Next(s, script[0]), script[1..]);
    }
  }

  /** The user cancels a request that has not answered yet. Whatever follows, the request is answered
      with the cancel error if and only if the timer does not fire before it ends; it cannot fire if
      exactly one sub-request was left at the cancel. */
  lemma {:induction false} CancelIsReported(s: State, script: seq<Step>)
    requires Ok(s) && s.base == Alive && s.frees == 0 && s.answers == []
    ensures var s1 := Next(s, UserCancels);
            var t := Run(s1, script);
            && (t.frees == 1 ==> (t.answers == [Error(EaiCancel)] <==> !TimerHappens(s1, script)))
            && (s.OneLive() ==> !TimerHappens(s1, script))
            && (t.frees == 0 && !TimerHappens(s1, script) ==> t.answers == [])
  {
    var s1 := Next(s, UserCancels);
    var t := Run(s1, script);
    NextOk(s, UserCancels);
    RunOk(s1, script);
    ByTimerIff(s1, script);
    CanceledStays(s1, script);
    LaunchedStays(s1, script);
    if s.OneLive() {
      NoTimerAnyMore(s1, script);
    }
  }

  lemma {:induction false} NextStopped(s: State, step: Step)
    requires !s.v4.Outstanding? && !s.v6.Outstanding?
    ensures !Next(s, step).v4.Outstanding? && !Next(s, step).v6.Outstanding?
  {
    if Enabled(s, step) && step.RunCallback? {
      CallbackStepped(s, step.f);
    }
  }

  /** A cancel leaves nothing waiting for the network, neither at once nor later, and stops the timer; a reply
      that came before stays what it is, and a sub-request that had none fails as canceled. */
  lemma {:induction false} CancelStops(s: State, script: seq<Step>)
    requires Ok(s) && s.frees == 0
    ensures var s1 := Next(s, UserCancels);
            && s1.userCanceled && !s1.timer && s1.answers == s.answers && s1.frees == 0
            && (forall f :: s1.Get(f) == if s.Get(f).Outstanding? then Scheduled(Failure(Canceled)) else s.Get(f))
            && !Run(s1, script).v4.Outstanding? && !Run(s1, script).v6.Outstanding?
  {
    StaysStopped(Next(s, UserCancels), script);
  }

  /** The timer answers with what came, and leaves nothing waiting for the network either. */
  lemma {:induction false} TimerStops(s: State, script: seq<Step>)
    requires Ok(s) && s.timer
    ensures var s1 := Next(s, TimerFires);
            && s1.answers == [Single(s.Get(s.first).reply)] && !s1.userCb && !s1.timer && s1.frees == 0
            && (forall f :: s1.Get(f) == if s.Get(f).Outstanding? then Scheduled(Failure(Canceled)) else s.Get(f))
            && !Run(s1, script).v4.Outstanding? && !Run(s1, script).v6.Outstanding?
  {
    NextOk(s, TimerFires);
    StaysStopped(Next(s, TimerFires), script);
  }

  lemma {:induction false} StaysStopped(s: State, script: seq<Step>)
    requires !s.v4.Outstanding? && !s.v6.Outstanding?
    ensures !Run(s, script).v4.Outstanding? && !Run(s, script).v6.Outstanding?
    decreases |script|
  {
    if script != [] {
      NextStopped(s, script[0]);
      StaysStopped(Next(s, script[0]), script[1..]);
    }
  }

  /** With both sub-requests left, a timer that fires after the cancel fires between the two callbacks. */
  lemma {:induction false} TimerFiresBetween(s: State, script: seq<Step>, i: nat)
    requires Ok(s) && i < |script| && script[i].TimerFires? && Run(s, script[..i]).timer && s.v4.Live() && s.v6.Live()
    ensures Run(s, script[..i]).OneLive() && (exists j :: 0 <= j < i && script[j].RunCallback?)
  {
    RunOk(s, script[..i]);
    if forall j :: 0 <= j < i ==> !script[j].RunCallback? {
      BothStay(s, script[..i]);
    }
  }

  lemma {:induction false} BothStay(s: State, script: seq<Step>)
    requires Ok(s) && s.v4.Live() && s.v6.Live() && forall j :: 0 <= j < |script| ==> !script[j].RunCallback?
    ensures Run(s, script).v4.Live() && Run(s, script).v6.Live()
    decreases |script|
  {
    if script != [] {
      NextOk(s, script[0]);
      BothStay(Next(s, script[0]), script[1..]);
    }
  }

  /** A canceled request reported as failed: the first canceled sub-request starts the timer again. */
  lemma {:induction false} CancelSeenAsFailure()
    ensures var s := Init(true, true);
            var t := Run(Next(s, UserCancels), [RunCallback(V4), TimerFires, RunCallback(V6)]);
            t.frees == 1 && t.userCanceled && t.answers == [Error(EaiFail)] && !t.misused
  {
    var s1 := Next(Init(true, true), UserCancels);
    var script := [RunCallback(V4), TimerFires, RunCallback(V6)];
    var s2 := Next(s1, RunCallback(V4));
    var s3 := Next(s2, TimerFires);
    assert script[1..] == [TimerFires, RunCallback(V6)] && script[1..][1..] == [RunCallback(V6)];
    OneStep(s3, RunCallback(V6));
    assert Run(s2, script[1..]) == Run(s3, [RunCallback(V6)]);
    assert [] + [Error(EaiFail)] == [Error(EaiFail)];
  }
}
