/** The asynchronous name lookup that runs an A and an AAAA request side by side, merges their
    answers, and bounds the wait for the slower one with a skew timer: its state machine. */
module GetAddrInfo {

  datatype Family = V4 | V6

  function Opposite(f: Family): Family {
    if f.V4? then V6 else V4
  }

  datatype DnsErr = Format | ServerFailed | NotExist | NotImpl | Refused | Truncated | Unknown | Timeout | NoData
                  | ShutDown | Canceled

  /** What a sub-request's callback is given; a reply may hold no address at all. */
  datatype Reply = Addresses(addrs: seq<int>) | Failure(err: DnsErr)

  datatype Eai = EaiOk | EaiNoName | EaiFail | EaiNoData | EaiAgain | EaiCancel

  /** What the user's callback is given. */
  datatype Outcome = Found(list: seq<int>) | Error(code: Eai)

  /** A sub-request: never launched, waiting for the network, with its callback queued but not yet
      run (from then on it can no longer be canceled), or with its callback run. */
  datatype Sub = Idle | Outstanding | Scheduled(reply: Reply) | Delivered(reply: Reply) {
    /** Is the handle of the sub-request still set? */
    predicate Live() {
      Outstanding? || Scheduled?
    }
    /** Fail for good, or cancel: nothing happens if the callback is queued already. */
    function Failing(err: DnsErr): Sub {
      if Outstanding? then Scheduled(Failure(err)) else this
    }
  }

  /** A name that does not exist and one without addresses have errors of their own; all else is a failure. */
  function ErrorOf(reply: Reply): (r: Eai)
    ensures r == EaiOk <==> reply.Addresses? && reply.addrs != []
    ensures r == EaiNoData <==> reply == Addresses([])
    ensures r == EaiNoName <==> reply == Failure(NotExist)
    ensures r == EaiFail <==> reply.Failure? && reply.err != NotExist
  {
    match reply
    case Addresses(addrs) => if addrs == [] then EaiNoData else EaiOk
    case Failure(err) => if err == NotExist then EaiNoName else EaiFail
  }

  /** The more informative of two errors. */
  function MergeErr(e1: Eai, e2: Eai): (r: Eai)
    ensures (r == EaiOk <==> e1 == EaiOk && e2 == EaiOk) && (e1 != EaiOk ==> r == e1)
  {
    if e1 == EaiOk then e2 else e1
  }

  // ----- what the user should get

  function AddrsOf(s: Sub): seq<int> {
    if s.Delivered? && s.reply.Addresses? then s.reply.addrs else []
  }

  /** The outcome of one reply alone. */
  function Single(reply: Reply): Outcome {
    if ErrorOf(reply) == EaiOk then Found(reply.addrs) else Error(ErrorOf(reply))
  }

  /** The outcome of all replies: IPv4 addresses first, and an error only if there is no address
      at all, the one of the reply that came last. */
  function Combined(v4: Sub, v6: Sub, last: Reply): Outcome {
    if AddrsOf(v4) + AddrsOf(v6) != [] then Found(AddrsOf(v4) + AddrsOf(v6)) else Error(ErrorOf(last))
  }

  // ----- states

  /** The request's reference to the resolver: good, dangling since the resolver was freed, or null. */
  datatype Resolver = Alive | Dangling | Null

  /** The fields of a request, and what has happened to it: every call of the user's callback, how
      often it was freed, the sub-requests whose callbacks ran first and last, whether the skew timer
      gave the answer, and whether a dangling or null resolver was used. */
  datatype State = State(v4: Sub, v6: Sub, userCb: bool, pendingResult: seq<int>, pendingError: Eai, timer: bool,
                         userCanceled: bool, requestDone: bool, base: Resolver,
                         answers: seq<Outcome>, frees: nat, first: Family, last: Family, byTimer: bool, misused: bool) {
    function Get(f: Family): Sub {
      if f.V4? then v4 else v6
    }
    function Put(f: Family, sub: Sub): State {
      if f.V4? then this.(v4 := sub) else this.(v6 := sub)
    }
    predicate OneLive() {
      v4.Live() != v6.Live()
    }
    predicate AnyLive() {
      v4.Live() || v6.Live()
    }
    /** The resolver is locked, counted in, or asked for the skew. */
    function UseBase(): State {
      this.(misused := misused || base != Alive)
    }
    /** The request is gone, with its pending result and its timer. */
    function Free(): State {
      this.(frees := frees + 1, timer := false, pendingResult := [])
    }
    function Tell(o: Outcome): State {
      this.(answers := answers + [o])
    }
  }

  /** Launch the requests that are wanted and could be made; without any, fail at once. */
  function Init(a: bool, aaaa: bool): State {
    State(if a then Outstanding else Idle, if aaaa then Outstanding else Idle,
          true, [], EaiOk, false, false, false, Alive,
          if a || aaaa then [] else [Error(EaiFail)], if a || aaaa then 0 else 1, V4, V4, false, false)
  }

  // ----- steps

  /** A shutdown may miss a sub-request that waits to be sent (RequestShutdown); reach4 and reach6 say which
      ones it reaches. A sub-request without an answer is sent again after a while. */
  datatype Step = NetReply(f: Family, reply: Reply) | Retransmits(f: Family) | RunCallback(f: Family)
                | TimerFires | UserCancels | ShutsDown(reach4: bool, reach6: bool)

  /** Can the step happen? The user may cancel as long as the request exists, and the resolver can be
      shut down once; after that it gets no replies. */
  predicate Enabled(s: State, step: Step) {
    match step
    case NetReply(f, reply) =>
      s.Get(f).Outstanding? && s.base == Alive && reply != Failure(Canceled) && reply != Failure(ShutDown)
    case Retransmits(f) => s.Get(f).Outstanding?
    case RunCallback(f) => s.Get(f).Scheduled?
    case TimerFires => s.timer
    case UserCancels => s.frees == 0
    case ShutsDown(_, _) => s.base == Alive
  }

  /** The resolver fails the requests that it reaches and is freed at once. */
  function AfterShutdown(s: State, reach4: bool, reach6: bool): State {
    s.(v4 := if reach4 then s.v4.Failing(ShutDown) else s.v4, v6 := if reach6 then s.v6.Failing(ShutDown) else s.v6,
       base := Dangling)
  }

  function AfterCancel(s: State): State {
    if s.requestDone then s.UseBase()
    else s.(timer := false, userCanceled := true, v4 := s.v4.Failing(Canceled), v6 := s.v6.Failing(Canceled),
            misused := s.misused || s.base != Alive)
  }

  /** What the timer reports: the reply that came. */
  function Pending(s: State): Outcome {
    if s.pendingResult != [] then Found(s.pendingResult)
    else Error(if s.pendingError == EaiOk then EaiAgain else s.pendingError)
  }

  function AfterTimer(s: State): State {
    s.(v4 := s.v4.Failing(Canceled), v6 := s.v6.Failing(Canceled),
       misused := s.misused || (s.AnyLive() && s.base != Alive),
       answers := s.answers + [Pending(s)], timer := false, pendingResult := [], userCb := false, byTimer := true,
       frees := if s.AnyLive() then s.frees else s.frees + 1)
  }

  /** The handle of f is cleared, and the resolver used, or forgotten after a shutdown. */
  function Arrived(s: State, f: Family, result: Reply): State {
    var other := s.Get(Opposite(f));
    var shut := result == Failure(ShutDown);
    s.(v4 := if f.V4? then Delivered(result) else s.v4, v6 := if f.V6? then Delivered(result) else s.v6,
       base := if shut then Null else s.base, misused := s.misused || (!shut && s.base != Alive),
       requestDone := s.requestDone || (!shut && !other.Live()),
       last := f, first := if other.Delivered? then s.first else f)
  }

  /** The other sub-request is still working: keep the reply and let the timer bound the wait. */
  function Waiting(s: State, result: Reply): State {
    var err := ErrorOf(result);
    if err != EaiOk then s.(timer := s.timer || result != Failure(ShutDown), pendingError := err)
    else if s.userCanceled then s
    else s.(timer := true, pendingResult := result.addrs)
  }

  /** The answer after the last callback. */
  function Final(s: State, f: Family, result: Reply): Outcome {
    var err := ErrorOf(result);
    if s.userCanceled then Error(EaiCancel)
    else if err == EaiOk then Found(if f.V4? then result.addrs + s.pendingResult else s.pendingResult + result.addrs)
    else if s.pendingResult != [] then Found(s.pendingResult)
    else Error(MergeErr(err, s.pendingError))
  }

  /** Answer now, wait, or, if the user has been answered, just clean up. */
  function Decide(s: State, f: Family, result: Reply): State {
    var left := s.Get(Opposite(f)).Live();
    if result == Failure(Canceled) && !s.userCanceled then (if left then s else s.Free())
    else if !s.userCb then s.Free()
    else if left then Waiting(s, result)
    else s.Tell(Final(s, f, result)).Free()
  }

  function AfterCallback(s: State, f: Family): State
    requires s.Get(f).Scheduled?
  {
    Decide(Arrived(s, f, s.Get(f).reply), f, s.Get(f).reply)
  }

  /** One step; a step that cannot happen changes nothing. */
  function Next(s: State, step: Step): State {
    if !Enabled(s, step) then s
    else
      match step
      case NetReply(f, reply) => s.Put(f, Scheduled(reply))
      case Retransmits(f) => s.UseBase()
      case RunCallback(f) => AfterCallback(s, f)
      case TimerFires => AfterTimer(s)
      case UserCancels => AfterCancel(s)
      case ShutsDown(reach4, reach6) => AfterShutdown(s, reach4, reach6)
  }

  function Run(s: State, script: seq<Step>): State
    decreases |script|
  {
    if script == [] then s else Run(Next(s, script[0]), script[1..])
  }

  // ----- the invariant

  /** While one sub-request is left and the user waits, the other's reply is kept. */
  ghost predicate PendingOk(s: State) {
    && (s.frees == 0 && !s.v4.Delivered? && !s.v6.Delivered? ==> s.pendingResult == [] && s.pendingError == EaiOk)
    && (s.frees == 0 && s.userCb && (s.v4.Delivered? || s.v6.Delivered?) ==>
          && s.Get(s.first).Delivered? && s.Get(Opposite(s.first)).Live()
          && (!s.userCanceled || s.timer ==>
                s.pendingResult == AddrsOf(s.Get(s.first)) && s.pendingError == ErrorOf(s.Get(s.first).reply)))
  }

  /** At the end, the answer is the right one. */
  ghost predicate DoneOk(s: State) {
    s.frees == 1 && !s.byTimer ==>
      if s.v4.Idle? && s.v6.Idle? then s.answers == [Error(EaiFail)]
      else
        && s.Get(s.last).Delivered?
        && s.answers == [if s.userCanceled then Error(EaiCancel) else Combined(s.v4, s.v6, s.Get(s.last).reply)]
  }

  /** What is known of the resolver. */
  ghost predicate BaseOk(s: State) {
    && (s.misused ==> s.base != Alive)
    && (s.base == Null ==> !s.timer && !(s.v4.Live() && s.v6.Live()))
    && (s.base == Alive ==> s.v4 != Scheduled(Failure(ShutDown)) && s.v6 != Scheduled(Failure(ShutDown)))
  }

  /** Once one sub-request has called back, and not because of a shutdown, the timer bounds the wait for the
      other one, until the user has been answered or has canceled. */
  ghost predicate WaitBounded(s: State) {
    && s.frees == 0 && s.answers == [] && !s.userCanceled && s.OneLive()
    && (|| (s.v4.Delivered? && s.v4.reply != Failure(ShutDown))
        || (s.v6.Delivered? && s.v6.reply != Failure(ShutDown)))
    ==> s.timer
  }

  /** Calls, frees, timer and cancellation. */
  ghost predicate Core(s: State) {
    && s.frees == (if s.AnyLive() then 0 else 1)
    && (s.frees == 0 ==> (s.userCb <==> s.answers == []))
    && (s.frees == 1 ==> |s.answers| == 1 && s.pendingResult == [])
    && |s.answers| <= 1
    && (s.requestDone ==> s.frees == 1)
    && (s.timer ==> s.frees == 0 && s.userCb && s.OneLive() && s.Get(s.first).Delivered?)
    && (s.timer && s.userCanceled ==> ErrorOf(s.Get(s.first).reply) != EaiOk)
    && (s.frees == 0 && !s.userCb ==> s.OneLive() && s.byTimer)
    && (s.byTimer ==> s.Get(s.first).Delivered? && s.answers == [Single(s.Get(s.first).reply)])
    && (s.v4 == Scheduled(Failure(Canceled)) || s.v6 == Scheduled(Failure(Canceled)) ==> s.userCanceled || !s.userCb)
  }

  ghost predicate Ok(s: State) {
    Core(s) && PendingOk(s) && DoneOk(s) && BaseOk(s) && WaitBounded(s)
  }

  lemma {:induction false} InitOk(a: bool, aaaa: bool)
    ensures var s := Init(a, aaaa);
            && Ok(s) && s.base == Alive && !s.userCanceled && !s.byTimer && !s.misused
            && (s.v4 == if a then Outstanding else Idle) && (s.v6 == if aaaa then Outstanding else Idle)
  {
  }

  /** What a step does to the two sub-requests, to which of them called back first and last, and to what is known
      of a cancel by the user. */
  ghost predicate Moves(s: State, step: Step, t: State) {
    && (t.userCanceled <==> s.userCanceled || step.UserCancels?)
    && t.last == (if step.RunCallback? then step.f else s.last)
    && t.first == (if step.RunCallback? && !s.Get(Opposite(step.f)).Delivered? then step.f else s.first)
    && forall f ::
         t.Get(f) == match step
                     case NetReply(g, reply) => if f == g then Scheduled(reply) else s.Get(f)
                     case Retransmits(_) => s.Get(f)
                     case RunCallback(g) =>
                       if f == g && s.Get(g).Scheduled? then Delivered(s.Get(g).reply) else s.Get(f)
                     case ShutsDown(reach4, reach6) =>
                       if s.Get(f).Outstanding? && (if f.V4? then reach4 else reach6) then Scheduled(Failure(ShutDown))
                       else s.Get(f)
                     case _ => if s.Get(f).Outstanding? then Scheduled(Failure(Canceled)) else s.Get(f)
  }

  /** The handle of f has just been cleared and nothing else has been done yet. */
  ghost predicate JustArrived(s: State, f: Family, result: Reply) {
    var other := s.Get(Opposite(f));
    && s.Get(f) == Delivered(result) && s.last == f
    && s.frees == 0 && |s.answers| <= 1 && (s.userCb <==> s.answers == [])
    && (s.requestDone ==> !other.Live())
    && (s.timer ==> !other.Live() && s.userCb && other.Delivered?)
    && (!s.userCb ==> !other.Live() && s.byTimer)
    && s.first == (if other.Delivered? then Opposite(f) else f)
    && (s.byTimer ==> other.Delivered? && s.answers == [Single(other.reply)])
    && (result == Failure(Canceled) || other == Scheduled(Failure(Canceled)) ==> s.userCanceled || !s.userCb)
    && (!other.Delivered? ==> s.pendingResult == [] && s.pendingError == EaiOk)
    && (other.Delivered? && s.userCb && (!s.userCanceled || s.timer) ==>
          s.pendingResult == AddrsOf(other) && s.pendingError == ErrorOf(other.reply))
    && (s.base == Alive ==> other != Scheduled(Failure(ShutDown)) && !s.misused)
    && (s.base == Null && other.Live() ==> result == Failure(ShutDown))
    && (s.base == Null && s.timer ==> result == Failure(ShutDown))
  }

  lemma {:induction false} ArriveOk(s: State, f: Family, result: Reply)
    requires Ok(s) && s.Get(f) == Scheduled(result)
    ensures JustArrived(Arrived(s, f, result), f, result)
  {
  }

  /** The user waits for the other sub-request. */
  lemma {:induction false} WaitingOk(s: State, f: Family, result: Reply)
    requires JustArrived(s, f, result) && s.Get(Opposite(f)).Live()
    ensures Ok(Waiting(s, result))
  {
  }

  lemma {:induction false} FreedOk(s: State, f: Family, result: Reply)
    requires JustArrived(s, f, result) && !s.Get(Opposite(f)).Live() && !s.userCb
    ensures Ok(s.Free())
  {
  }

  lemma {:induction false} AnsweredOk(s: State, f: Family, result: Reply, o: Outcome)
    requires JustArrived(s, f, result) && !s.Get(Opposite(f)).Live() && s.userCb
    requires o == if s.userCanceled then Error(EaiCancel) else Combined(s.v4, s.v6, result)
    ensures Ok(s.Tell(o).Free())
  {
  }

  lemma {:induction false} FinalRight(s: State, f: Family, result: Reply)
    requires JustArrived(s, f, result) && !s.Get(Opposite(f)).Live() && s.userCb && !s.userCanceled
    ensures Final(s, f, result) == Combined(s.v4, s.v6, result)
  {
    var p := s.pendingResult;
    assert p + [] == p && [] + p == p;
    if result.Addresses? {
      assert result.addrs + [] == result.addrs && [] + result.addrs == result.addrs;
    }
  }

  lemma {:induction false} DecideOk(s: State, f: Family, result: Reply)
    requires JustArrived(s, f, result)
    ensures Ok(Decide(s, f, result))
  {
    if s.Get(Opposite(f)).Live() {
      WaitingOk(s, f, result);
    } else if !s.userCb {
      FreedOk(s, f, result);
    } else {
      if !s.userCanceled {
        FinalRight(s, f, result);
      }
      AnsweredOk(s, f, result, Final(s, f, result));
    }
  }

  lemma {:induction false} CallbackOk(s: State, f: Family)
    requires Ok(s) && s.Get(f).Scheduled?
    ensures Ok(AfterCallback(s, f))
  {
    var result := s.Get(f).reply;
    ArriveOk(s, f, result);
    DecideOk(Arrived(s, f, result), f, result);
  }

  lemma {:induction false} TimerOk(s: State)
    requires Ok(s) && s.timer
    ensures Ok(AfterTimer(s))
  {
  }

  lemma {:induction false} CancelOk(s: State)
    requires Ok(s) && s.frees == 0
    ensures Ok(AfterCancel(s))
  {
  }

  /** Every step keeps the invariant. */
  lemma {:induction false} NextOk(s: State, step: Step)
    requires Ok(s)
    ensures Ok(Next(s, step))
  {
    if Enabled(s, step) {
      match step
      case NetReply(f, reply) =>
      case Retransmits(f) =>
      case RunCallback(f) => CallbackOk(s, f);
      case TimerFires => TimerOk(s);
      case UserCancels => CancelOk(s);
      case ShutsDown(_, _) =>
    }
  }

  /** Neither sub-request has moved. */
  ghost predicate Still(s: State, t: State) {
    && t.v4 == s.v4 && t.v6 == s.v6 && t.first == s.first && t.last == s.last && t.userCanceled == s.userCanceled
  }

  lemma FreeStill(s: State, o: Outcome)
    ensures Still(s, s.Free()) && Still(s, s.Tell(o).Free())
  {
  }

  lemma WaitingStill(s: State, result: Reply)
    ensures Still(s, Waiting(s, result))
  {
  }

  lemma {:induction false} DecideStill(s: State, f: Family, result: Reply)
    ensures Still(s, Decide(s, f, result))
  {
    FreeStill(s, Final(s, f, result));
    WaitingStill(s, result);
  }

  /** Every step moves the sub-requests as it should: a reply or a callback is of one of them alone, a callback
      delivers the reply that was queued, and a cancel, the timer or a shutdown fails what is outstanding. */
  lemma {:induction false} NextMoves(s: State, step: Step)
    requires Ok(s) && Enabled(s, step)
    ensures Moves(s, step, Next(s, step))
  {
    if step.RunCallback? {
      var result := s.Get(step.f).reply;
      DecideStill(Arrived(s, step.f, result), step.f, result);
    }
  }

  lemma {:induction false} RunOk(s: State, script: seq<Step>)
    requires Ok(s)
    ensures Ok(Run(s, script))
    decreases |script|
  {
    if script != [] {
      NextOk(s, script[0]);
      RunOk(Next(s, script[0]), script[1..]);
    }
  }
}
