/** The name lookup as its callbacks carry it out, against its state machine. */
module GetAddrInfoRequest {
  import opened GetAddrInfo
  import opened GetAddrInfoRuns

  /** What is left of the sub-requests has been canceled. */
  function LeftCanceled(s: State): State {
    s.(v4 := s.v4.Failing(Canceled), v6 := s.v6.Failing(Canceled),
       misused := s.misused || (s.AnyLive() && s.base != Alive))
  }

  /** The reply that came has been reported. */
  function Reported(s: State): State {
    s.(answers := s.answers + [Pending(s)], pendingResult := [])
  }

  lemma {:induction false} TimerResult(s: State)
    requires s.AnyLive()
    ensures Reported(LeftCanceled(s.(timer := false))).(userCb := false, byTimer := true) == AfterTimer(s)
  {
    var s1 := LeftCanceled(s.(timer := false));
    assert Pending(s1) == Pending(s);
  }

  lemma {:induction false} ArrivedResult(s: State, t: State, f: Family, result: Reply)
    requires t.v4 == (if f.V4? then Delivered(result) else s.v4) && t.v6 == (if f.V6? then Delivered(result) else s.v6)
    requires t.base == (if result == Failure(ShutDown) then Null else s.base)
    requires t.misused == (s.misused || (result != Failure(ShutDown) && s.base != Alive))
    requires t.requestDone == (s.requestDone || (result != Failure(ShutDown) && !s.Get(Opposite(f)).Live()))
    requires t.last == f && t.first == (if s.Get(Opposite(f)).Delivered? then s.first else f)
    requires t.userCb == s.userCb && t.pendingResult == s.pendingResult && t.pendingError == s.pendingError
    requires t.timer == s.timer
    requires t.userCanceled == s.userCanceled && t.answers == s.answers && t.frees == s.frees && t.byTimer == s.byTimer
    ensures t == Arrived(s, f, result)
  {
  }

  class Request {
    var v4: Sub
    var v6: Sub
    var userCb: bool
    var pendingResult: seq<int>
    var pendingError: Eai
    var timer: bool
    var userCanceled: bool
    var requestDone: bool
    var base: Resolver

    // what has happened
    ghost var answers: seq<Outcome>
    ghost var frees: nat
    ghost var first: Family
    ghost var last: Family
    ghost var byTimer: bool
    ghost var misused: bool

    ghost function Now(): State
      reads this
    {
      State(v4, v6, userCb, pendingResult, pendingError, timer, userCanceled, requestDone, base,
            answers, frees, first, last, byTimer, misused)
    }

    constructor (a: bool, aaaa: bool)
      ensures Now() == Init(a, aaaa)
    {
      v4 := if a then Outstanding else Idle;
      v6 := if aaaa then Outstanding else Idle;
      userCb, pendingResult, pendingError, timer, userCanceled, requestDone := true, [], EaiOk, false, false, false;
      base := Alive;
      first, last, byTimer, misused := V4, V4, false, false;
      if a || aaaa {
        answers, frees := [], 0;
      } else {
        answers, frees := [Error(EaiFail)], 1;
      }
    }

    function Handle(f: Family): Sub
      reads this
    {
      if f.V4? then v4 else v6
    }

    method SetHandle(f: Family, sub: Sub)
      modifies this`v4, this`v6
      ensures v4 == (if f.V4? then sub else old(v4)) && v6 == (if f.V6? then sub else old(v6))
    {
      if f.V4? {
        v4 := sub;
      } else {
        v6 := sub;
      }
    }

    /** Lock the resolver, count in it, or read the skew from it. */
    method UseBase()
      modifies this`misused
      ensures misused == (old(misused) || base != Alive)
    {
      misused := misused || base != Alive;
    }

    /** Cancel a sub-request: nothing happens if its callback is queued already. */
    method CancelSub(f: Family)
      modifies this`v4, this`v6
      ensures v4 == (if f.V4? then old(v4).Failing(Canceled) else old(v4))
      ensures v6 == (if f.V6? then old(v6).Failing(Canceled) else old(v6))
    {
      if Handle(f).Outstanding? {
        SetHandle(f, Scheduled(Failure(Canceled)));
      }
    }

    method CallUser(o: Outcome)
      requires userCb
      modifies this`answers
      ensures Now() == old(Now()).Tell(o)
    {
      answers := answers + [o];
    }

    /** Not to be called while a sub-request is left. */
    method Free()
      requires !v4.Live() && !v6.Live() && frees == 0
      modifies this`frees, this`timer, this`pendingResult
      ensures Now() == old(Now()).Free()
    {
      pendingResult := [];
      timer := false;
      frees := frees + 1;
    }

    /** The resolver shuts down, fails the requests it reaches and is freed. */
    method Shutdown(reach4: bool, reach6: bool)
      modifies this`v4, this`v6, this`base
      ensures Now() == AfterShutdown(old(Now()), reach4, reach6)
    {
      if reach4 && v4.Outstanding? {
        v4 := Scheduled(Failure(ShutDown));
      }
      if reach6 && v6.Outstanding? {
        v6 := Scheduled(Failure(ShutDown));
      }
      base := Dangling;
    }

    /** The user cancels; allowed until the request is freed. */
    method Cancel()
      requires frees == 0
      modifies this`v4, this`v6, this`timer, this`userCanceled, this`misused
      ensures Now() == AfterCancel(old(Now()))
    {
      UseBase();
      if requestDone {
        return;
      }
      timer := false;
      userCanceled := true;
      if v4.Live() {
        CancelSub(V4);
      }
      if v6.Live() {
        CancelSub(V6);
      }
    }

    /** The skew timer: report what came and cancel the other sub-request. */
    method TimeoutCb()
      requires Ok(Now()) && timer
      modifies this
      ensures Now() == AfterTimer(old(Now())) && old(Now()).OneLive()
    {
      TimeOut();
    }

    /** What the skew timer does, with exactly one sub-request left. */
    method TimeOut()
      requires userCb && v4.Live() != v6.Live()
      modifies this
      ensures Now() == AfterTimer(old(Now()))
    {
      timer := false;
      var v4TimedOut, v6TimedOut := CancelLeft();
      assert !v4TimedOut || !v6TimedOut;
      ReportPending();
      userCb := false;
      byTimer := true;
      // the branch that frees the request because neither was left is never taken
      assert v4TimedOut || v6TimedOut;
      TimerResult(old(Now()));
    }

    /** Cancel what is left, and count it in the resolver. */
    method CancelLeft() returns (v4TimedOut: bool, v6TimedOut: bool)
      modifies this`v4, this`v6, this`misused
      ensures v4TimedOut == old(v4.Live()) && v6TimedOut == old(v6.Live())
      ensures Now() == LeftCanceled(old(Now()))
    {
      v4TimedOut, v6TimedOut := v4.Live(), v6.Live();
      if v4TimedOut {
        CancelSub(V4);
        UseBase();
      }
      if v6TimedOut {
        CancelSub(V6);
        UseBase();
      }
    }

    /** Report the outcome of the sub-request that did not time out. */
    method ReportPending()
      requires userCb
      modifies this`answers, this`pendingResult
      ensures Now() == Reported(old(Now()))
    {
      if pendingResult != [] {
        CallUser(Found(pendingResult));
        pendingResult := [];
      } else {
        CallUser(Error(if pendingError == EaiOk then EaiAgain else pendingError));
      }
    }

    /** Clear the handle of a sub-request whose callback runs. */
    method Arrive(f: Family) returns (result: Reply, otherLeft: bool)
      requires Handle(f).Scheduled?
      modifies this`v4, this`v6, this`requestDone, this`base, this`first, this`last, this`misused
      ensures result == old(Handle(f)).reply && otherLeft == Handle(Opposite(f)).Live()
      ensures Now() == Arrived(old(Now()), f, result)
    {
      result := Handle(f).reply;
      otherLeft := Handle(Opposite(f)).Live();
      CheckIn(result, otherLeft);
      NoteOrder(f);
      SetHandle(f, Delivered(result));
      ArrivedResult(old(Now()), Now(), f, result);
    }

    /** Remember which callback came first and which last. */
    method NoteOrder(f: Family)
      modifies this`first, this`last
      ensures last == f && first == if Handle(Opposite(f)).Delivered? then old(first) else f
    {
      if !Handle(Opposite(f)).Delivered? {
        first := f;
      }
      last := f;
    }

    /** Note the callback in the resolver, unless it is gone. */
    method CheckIn(result: Reply, otherLeft: bool)
      modifies this`requestDone, this`base, this`misused
      ensures base == if result == Failure(ShutDown) then Null else old(base)
      ensures misused == (old(misused) || (result != Failure(ShutDown) && old(base) != Alive))
      ensures requestDone == (old(requestDone) || (result != Failure(ShutDown) && !otherLeft))
    {
      if result != Failure(ShutDown) {
        UseBase();
        if !otherLeft {
          requestDone := true;
        }
      } else {
        base := Null;
      }
    }

    /** The callback of a sub-request. */
    method GotResolve(f: Family)
      requires Ok(Now()) && Handle(f).Scheduled?
      modifies this
      ensures Now() == AfterCallback(old(Now()), f)
    {
      ArriveOk(Now(), f, Handle(f).reply);
      var result, otherLeft := Arrive(f);
      if result == Failure(Canceled) && !userCanceled {
        if !otherLeft {
          Free();
        }
        return;
      }
      if !userCb {
        Free();
        return;
      }
      var err := ErrorOf(result);
      if err != EaiOk {
        GotError(f, result, err, otherLeft);
      } else if userCanceled {
        if !otherLeft {
          CallUser(Error(EaiCancel));
          Free();
        }
      } else {
        GotAddresses(f, result, otherLeft);
      }
    }

    method GotError(f: Family, result: Reply, err: Eai, otherLeft: bool)
      requires userCb && frees == 0 && Handle(f) == Delivered(result) && otherLeft == Handle(Opposite(f)).Live()
      requires err == ErrorOf(result) != EaiOk && (result == Failure(Canceled) ==> userCanceled)
      modifies this`timer, this`pendingError, this`pendingResult, this`answers, this`frees
      ensures Now() == Decide(old(Now()), f, result)
    {
      if otherLeft {
        if result != Failure(ShutDown) {
          timer := true;
        }
        pendingError := err;
        return;
      }
      if userCanceled {
        CallUser(Error(EaiCancel));
      } else if pendingResult != [] {
        CallUser(Found(pendingResult));
        pendingResult := [];
      } else {
        CallUser(Error(if pendingError != EaiOk then MergeErr(err, pendingError) else err));
      }
      Free();
    }

    method GotAddresses(f: Family, result: Reply, otherLeft: bool)
      requires userCb && frees == 0 && Handle(f) == Delivered(result) && otherLeft == Handle(Opposite(f)).Live()
      requires ErrorOf(result) == EaiOk && !userCanceled
      modifies this`timer, this`pendingResult, this`answers, this`frees
      ensures Now() == Decide(old(Now()), f, result)
    {
      if otherLeft {
        timer := true;
        pendingResult := result.addrs;
        return;
      }
      var res := result.addrs;
      assert res + [] == res && [] + res == res;
      if pendingResult != [] {
        res := if f.V4? then res + pendingResult else pendingResult + res;
        pendingResult := [];
      }
      CallUser(Found(res));
      Free();
    }
  }

  /** One step, if it can happen. */
  method Take(q: Request, step: Step)
    requires Ok(q.Now())
    modifies q
    ensures q.Now() == Next(old(q.Now()), step) && Ok(q.Now())
  {
    NextOk(q.Now(), step);
    match step
    case NetReply(f, reply) =>
      if q.Handle(f).Outstanding? && q.base == Alive && reply != Failure(Canceled) && reply != Failure(ShutDown) {
        q.SetHandle(f, Scheduled(reply));
      }
    case Retransmits(f) =>
      if q.Handle(f).Outstanding? {
        q.UseBase();
      }
    case RunCallback(f) =>
      if q.Handle(f).Scheduled? {
        q.GotResolve(f);
      }
    case TimerFires =>
      if q.timer {
        q.TimeoutCb();
      }
    case UserCancels =>
      if q.v4.Live() || q.v6.Live() {
        q.Cancel();
      }
    case ShutsDown(reach4, reach6) =>
      if q.base == Alive {
        q.Shutdown(reach4, reach6);
      }
  }

  /** Any interleaving, any number of steps: the request goes through the states of its state machine.
      If no dead resolver is used, the user is called and the request freed exactly once, when the last
      sub-request has called back. */
  method RunScript(a: bool, aaaa: bool, script: seq<Step>) returns (q: Request)
    ensures fresh(q) && q.Now() == Run(Init(a, aaaa), script) && Ok(q.Now())
    ensures q.misused <==> UsesDead(Init(a, aaaa), script)
    ensures !q.misused && q.frees == 1 ==> q.answers == [Expected(q.Now())]
    ensures !q.misused ==> (q.frees == 1 <==> !q.v4.Live() && !q.v6.Live())
    ensures !q.misused ==> (Missed(q.Now()) <==> Misses(Init(a, aaaa), script))
  {
    InitOk(a, aaaa);
    q := new Request(a, aaaa);
    for i := 0 to |script|
      invariant fresh(q) && Ok(q.Now()) && Run(q.Now(), script[i..]) == Run(Init(a, aaaa), script)
    {
      assert script[i..][0] == script[i] && script[i..][1..] == script[i + 1..];
      Take(q, script[i]);
    }
    MisusedIff(Init(a, aaaa), script);
    if !q.misused {
      MissedIff(Init(a, aaaa), script);
      ExactlyOnce(a, aaaa, script);
    }
  }
}
