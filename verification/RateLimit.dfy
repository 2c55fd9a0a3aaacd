/** A rate-limited buffer event: limits, suspensions, and the timer that refills the bucket. */
module RateLimit {
  import opened Basics
  import opened TokenBucket

  // ----- states

  /** The limits of a buffer event, whether reading or writing is suspended for lack of bandwidth, and
      whether the refill event is pending. */
  datatype State = State(cfg: Option<Cfg>, limit: Bucket, readSuspended: bool, writeSuspended: bool, pending: bool) {
    function Suspended(write: bool): bool { if write then writeSuspended else readSuspended }
    function Suspend(write: bool, suspend: bool): State {
      if write then this.(writeSuspended := suspend) else this.(readSuspended := suspend)
    }
  }

  const START := State(None, Bucket(0, 0, 0), false, false, false)

  /** With a configuration: an exhausted direction is suspended, and a suspended direction will be
      looked at again. */
  ghost predicate Ok(w: Word, s: State) {
    && (s.cfg.Some? ==>
          && s.cfg.value.Ok(w) && BucketOk(w, s.limit)
          && (s.limit.readLimit <= 0 ==> s.readSuspended) && (s.limit.writeLimit <= 0 ==> s.writeSuspended)
          && (s.readSuspended || s.writeSuspended ==> s.pending))
    && (s.cfg.None? ==> !s.readSuspended && !s.writeSuspended && !s.pending)
  }

  const MAX_SINGLE: nat := 16384

  /** What may be moved: the limit, or nothing if it is negative. */
  function Granted(s: State, write: bool): nat {
    if s.cfg.None? then MAX_SINGLE else if s.limit.Limit(write) < 0 then 0 else s.limit.Limit(write)
  }

  /** After a refill of the bucket, without a look at the suspensions. */
  function Updated(w: Word, s: State, tick: nat): State {
    if s.cfg.None? then s else s.(limit := Update(w, s.limit, s.cfg.value, tick))
  }

  /** After bytes have been moved, or given back if negative. */
  function Charged(s: State, write: bool, bytes: int): State {
    if s.cfg.None? then s
    else
      var s1 := s.(limit := s.limit.Take(write, bytes));
      if s1.limit.Limit(write) <= 0 then s1.Suspend(write, true).(pending := true)
      else if s.Suspended(write) then s1.Suspend(write, false).(pending := s.pending && s.Suspended(!write))
      else s1
  }

  /** After the user has taken from, or given back to, the bucket. */
  function Decremented(s: State, write: bool, decr: int): State
    requires s.cfg.Some?
  {
    var before := s.limit.Limit(write);
    var s1 := s.(limit := s.limit.Take(write, decr));
    var after := s1.limit.Limit(write);
    if before > 0 && after <= 0 then s1.Suspend(write, true).(pending := true)
    else if before <= 0 && after > 0 then s1.Suspend(write, false).(pending := s.pending && s.Suspended(!write))
    else s1
  }

  /** After the refill event has fired. */
  function Refilled(w: Word, s: State, tick: nat): State {
    var s1 := Updated(w, s.(pending := false), tick);
    if s.cfg.None? then s1
    else
      var r := s.readSuspended && s1.limit.readLimit <= 0;
      var v := s.writeSuspended && s1.limit.writeLimit <= 0;
      s1.(readSuspended := r, writeSuspended := v, pending := r || v)
  }

  /** After the limits have been set, changed or removed. */
  function Configured(s: State, c: Option<Cfg>, tick: nat): State {
    if c.None? then State(None, s.limit, false, false, false)
    else if s.cfg.Some? && s.cfg.value.id == c.value.id then s
    else
      var b := Init(s.limit, c.value, tick, s.cfg.Some?);
      State(c, b, b.readLimit <= 0, b.writeLimit <= 0, b.readLimit <= 0 || b.writeLimit <= 0)
  }

  // ----- steps

  datatype Op = Asking(tick: nat) | Moving(write: bool, tick: nat, want: nat)
              | Charging(write: bool, amount: int) | Decrementing(write: bool, amount: int)
              | Refilling(tick: nat) | Setting(c: Option<Cfg>, tick: nat)

  /** Can the step happen? A limit must stay a word; the refill event fires when it is pending; one
      configuration object does not change. */
  predicate Enabled(w: Word, s: State, op: Op) {
    match op
    case Asking(tick) => tick < TICKS
    case Moving(_, tick, _) => tick < TICKS
    case Charging(d, n) => s.cfg.Some? && w.Min() <= s.limit.Limit(d) - n <= w.Max()
    case Decrementing(d, n) => s.cfg.Some? && w.Min() <= s.limit.Limit(d) - n <= w.Max()
    case Refilling(tick) => s.pending && tick < TICKS
    case Setting(c, tick) =>
      tick < TICKS && (c.Some? ==> c.value.Ok(w) && (s.cfg.Some? && s.cfg.value.id == c.value.id ==> c == s.cfg))
  }

  /** The bytes that a step moves. */
  function Moved(w: Word, s: State, op: Op): nat {
    if op.Moving? && Enabled(w, s, op) then
      var g := Granted(Updated(w, s, op.tick), op.write);
      if op.want < g then op.want else g
    else 0
  }

  function Next(w: Word, s: State, op: Op): State {
    if !Enabled(w, s, op) then s
    else
      match op
      case Asking(tick) => Updated(w, s, tick)
      case Moving(d, tick, _) => Charged(Updated(w, s, tick), d, Moved(w, s, op))
      case Charging(d, n) => Charged(s, d, n)
      case Decrementing(d, n) => Decremented(s, d, n)
      case Refilling(tick) => Refilled(w, s, tick)
      case Setting(c, tick) => Configured(s, c, tick)
  }

  function Run(w: Word, s: State, ops: seq<Op>): State
    decreases |ops|
  {
    if ops == [] then s else Run(w, Next(w, s, ops[0]), ops[1..])
  }

  // ----- no wakeup is lost

  /** Would a refill wrap the limit of a direction that is not suspended? */
  predicate WrapsAt(w: Word, s: State, write: bool, tick: nat) {
    && s.cfg.Some? && !s.Suspended(write) && Elapsed(s.limit.last, tick) > 0
    && Wraps(w, s.limit.Limit(write), s.cfg.value.Rate(write), s.cfg.value.Max(write), Elapsed(s.limit.last, tick))
  }

  /** Does the step leave an exhausted direction running? Only a refill that wraps does; the direction
      that is charged right after it is looked at again. */
  predicate Breaks(w: Word, s: State, op: Op) {
    && Enabled(w, s, op)
    && match op
       case Asking(tick) => WrapsAt(w, s, false, tick) || WrapsAt(w, s, true, tick)
       case Moving(d, tick, _) => WrapsAt(w, s, !d, tick)
       case Refilling(tick) => WrapsAt(w, s, false, tick) || WrapsAt(w, s, true, tick)
       case _ => false
  }

  /** A refill leaves a direction with bandwidth, or suspended, unless it wraps. */
  lemma {:induction false} UpdatedOk(w: Word, s: State, write: bool, tick: nat)
    requires Ok(w, s) && s.cfg.Some? && tick < TICKS
    ensures w.Min() <= Updated(w, s, tick).limit.Limit(write) <= w.Max() && Updated(w, s, tick).limit.last < TICKS
    ensures WrapsAt(w, s, write, tick) <==> !s.Suspended(write) && Updated(w, s, tick).limit.Limit(write) <= 0
  {
    var n, cfg, limit := Elapsed(s.limit.last, tick), s.cfg.value, s.limit.Limit(write);
    if n > 0 {
      RefillRight(w, limit, cfg.Rate(write), cfg.Max(write), n);
      if limit > 0 {
        WrapsIff(w, limit, cfg.Rate(write), cfg.Max(write), n);
      }
    }
  }

  /** Charging looks at one direction; the other must be in order. */
  lemma {:induction false} ChargedOk(w: Word, s: State, write: bool, m: int)
    requires s.cfg.Some? && s.cfg.value.Ok(w) && BucketOk(w, s.limit) && w.Min() <= s.limit.Limit(write) - m <= w.Max()
    requires s.readSuspended || s.writeSuspended ==> s.pending
    ensures Ok(w, Charged(s, write, m)) <==> (s.limit.Limit(!write) <= 0 ==> s.Suspended(!write))
  {
  }

  lemma {:induction false} DecrementedOk(w: Word, s: State, write: bool, m: int)
    requires Ok(w, s) && s.cfg.Some? && w.Min() <= s.limit.Limit(write) - m <= w.Max()
    ensures Ok(w, Decremented(s, write, m))
  {
  }

  lemma {:induction false} RefilledOk(w: Word, s: State, tick: nat)
    requires Ok(w, s) && s.pending && tick < TICKS
    ensures Ok(w, Refilled(w, s, tick)) <==> !WrapsAt(w, s, false, tick) && !WrapsAt(w, s, true, tick)
  {
    UpdatedOk(w, s, false, tick);
    UpdatedOk(w, s, true, tick);
  }

  lemma {:induction false} ConfiguredOk(w: Word, s: State, c: Option<Cfg>, tick: nat)
    requires Ok(w, s) && Enabled(w, s, Setting(c, tick))
    ensures Ok(w, Configured(s, c, tick))
  {
  }

  lemma {:induction false} MovingOk(w: Word, s: State, op: Op)
    requires Ok(w, s) && op.Moving? && Enabled(w, s, op)
    ensures Ok(w, Next(w, s, op)) <==> !Breaks(w, s, op)
  {
    if s.cfg.Some? {
      UpdatedOk(w, s, false, op.tick);
      UpdatedOk(w, s, true, op.tick);
      ChargedOk(w, Updated(w, s, op.tick), op.write, Moved(w, s, op));
    }
  }

  /** A step keeps the invariant if and only if it does not break it by a refill that wraps. */
  lemma {:induction false} NextOk(w: Word, s: State, op: Op)
    requires Ok(w, s)
    ensures Ok(w, Next(w, s, op)) <==> !Breaks(w, s, op)
  {
    if Enabled(w, s, op) {
      match op
      case Asking(tick) =>
        if s.cfg.Some? {
          UpdatedOk(w, s, false, tick);
          UpdatedOk(w, s, true, tick);
        }
      case Moving(_, _, _) => MovingOk(w, s, op);
      case Charging(d, n) => ChargedOk(w, s, d, n);
      case Decrementing(d, n) => DecrementedOk(w, s, d, n);
      case Refilling(tick) => RefilledOk(w, s, tick);
      case Setting(c, tick) => ConfiguredOk(w, s, c, tick);
    }
  }

  /** Is every state of the run in order? */
  ghost predicate AllOk(w: Word, s: State, ops: seq<Op>)
    decreases |ops|
  {
    Ok(w, s) && (ops != [] ==> AllOk(w, Next(w, s, ops[0]), ops[1..]))
  }

  predicate SomeBreaks(w: Word, s: State, ops: seq<Op>)
    decreases |ops|
  {
    ops != [] && (Breaks(w, s, ops[0]) || SomeBreaks(w, Next(w, s, ops[0]), ops[1..]))
  }

  /** No wakeup is lost: in every state of a run an exhausted direction is suspended and a suspended
      direction has the refill pending, if and only if no refill of the run wraps. */
  lemma {:induction false} NoLostWakeup(w: Word, s: State, ops: seq<Op>)
    requires Ok(w, s)
    ensures AllOk(w, s, ops) <==> !SomeBreaks(w, s, ops)
    decreases |ops|
  {
    if ops != [] {
      NextOk(w, s, ops[0]);
      if Ok(w, Next(w, s, ops[0])) {
        NoLostWakeup(w, Next(w, s, ops[0]), ops[1..]);
      }
    }
  }

  // ----- runs without refunds

  ghost predicate NoRefund(op: Op) {
    op.Charging? || op.Decrementing? ==> op.amount >= 0
  }

  ghost predicate Low(s: State) {
    s.cfg.Some? ==> Unrefunded(s.limit, s.cfg.value)
  }

  lemma {:induction false} LowNoBreak(w: Word, s: State, op: Op)
    requires Low(s)
    ensures !Breaks(w, s, op)
  {
    assert s.cfg.Some? ==> forall d :: s.limit.Limit(d) <= s.cfg.value.Max(d);
  }

  lemma {:induction false} LowUpdated(w: Word, s: State, tick: nat)
    requires Low(s)
    ensures Low(Updated(w, s, tick)) && Updated(w, s, tick).cfg == s.cfg
  {
    if s.cfg.Some? {
      UpdateRight(w, s.limit, s.cfg.value, tick);
    }
  }

  lemma {:induction false} LowCharged(s: State, write: bool, m: nat)
    requires Low(s)
    ensures Low(Charged(s, write, m)) && (s.cfg.Some? ==> Low(Decremented(s, write, m)))
  {
  }

  lemma {:induction false} LowNext(w: Word, s: State, op: Op)
    requires Low(s) && NoRefund(op)
    ensures Low(Next(w, s, op))
  {
    match op
    case Asking(tick) => LowUpdated(w, s, tick);
    case Moving(d, tick, _) =>
      LowUpdated(w, s, tick);
      LowCharged(Updated(w, s, tick), d, Moved(w, s, op));
    case Charging(d, n) => LowCharged(s, d, n);
    case Decrementing(d, n) => LowCharged(s, d, n);
    case Refilling(tick) => LowUpdated(w, s.(pending := false), tick);
    case Setting(c, tick) =>
  }

  /** Without refunds nothing can go wrong. */
  lemma {:induction false} NoLostWakeupWithoutRefunds(w: Word, s: State, ops: seq<Op>)
    requires Ok(w, s) && Low(s) && forall i :: 0 <= i < |ops| ==> NoRefund(ops[i])
    ensures AllOk(w, s, ops)
    decreases |ops|
  {
    if ops != [] {
      LowNext(w, s, ops[0]);
      LowNoBreak(w, s, ops[0]);
      NextOk(w, s, ops[0]);
      NoLostWakeupWithoutRefunds(w, Next(w, s, ops[0]), ops[1..]);
    }
  }

  /** A refund to above the maximum, and a refill that wraps: reading goes on with a negative limit. */
  lemma {:induction false} RefundBreaks()
    ensures var c := Cfg(0, 1, Bits64.Max() - 1, 1, 1, 1);
            SomeBreaks(Bits64, START, [Setting(Some(c), 0), Charging(false, 1 - Bits64.Max()), Asking(1)])
  {
    var w, c := Bits64, Cfg(0, 1, Bits64.Max() - 1, 1, 1, 1);
    var ops := [Setting(Some(c), 0), Charging(false, 1 - Bits64.Max()), Asking(1)];
    var s1 := Next(w, START, ops[0]);
    assert s1 == State(Some(c), Bucket(1, 1, 0), false, false, false);
    var s2 := Next(w, s1, ops[1]);
    assert s2 == State(Some(c), Bucket(Bits64.Max(), 1, 0), false, false, false);
    assert Breaks(w, s2, Asking(1));
    assert ops[1..][0] == ops[1] && ops[1..][1..][0] == ops[2];
    assert SomeBreaks(w, s2, ops[1..][1..]);
    assert SomeBreaks(w, s1, ops[1..]);
  }

  // ----- the bandwidth bound

  /** What can happen while a connection is in use: transfers and refills. */
  predicate InUse(op: Op) {
    (op.Asking? || op.Moving? || op.Refilling?) && op.tick < TICKS
  }

  /** The bytes that a run moves in one direction. */
  function MovedBy(w: Word, s: State, ops: seq<Op>, write: bool): nat
    decreases |ops|
  {
    if ops == [] then 0
    else
      (if ops[0].Moving? && ops[0].write == write then Moved(w, s, ops[0]) else 0)
      + MovedBy(w, Next(w, s, ops[0]), ops[1..], write)
  }

  /** The ticks that a step counts. */
  function TicksOf(w: Word, s: State, op: Op): nat {
    if InUse(op) && Enabled(w, s, op) then Elapsed(s.limit.last, op.tick) else 0
  }

  function TicksBy(w: Word, s: State, ops: seq<Op>): nat
    decreases |ops|
  {
    if ops == [] then 0 else TicksOf(w, s, ops[0]) + TicksBy(w, Next(w, s, ops[0]), ops[1..])
  }

  function Positive(x: int): nat {
    if x < 0 then 0 else x
  }

  ghost predicate Limited(w: Word, s: State, cfg: Cfg) {
    s.cfg == Some(cfg) && cfg.Ok(w) && Unrefunded(s.limit, cfg)
  }

  /** One step: what is moved and what is left come out of what was there and the refill. */
  lemma {:induction false} StepBudget(w: Word, s: State, op: Op, cfg: Cfg, write: bool)
    requires Limited(w, s, cfg) && InUse(op)
    ensures var s' := Next(w, s, op);
            var m := if op.Moving? && op.write == write then Moved(w, s, op) else 0;
            && Limited(w, s', cfg)
            && m + Positive(s'.limit.Limit(write)) <=
                 Positive(s.limit.Limit(write)) + TicksOf(w, s, op) * cfg.Rate(write)
            && (op.Moving? ==> m + Positive(s'.limit.Limit(write)) <= cfg.Max(write))
  {
    UpdateBudget(w, s, op.tick, cfg, write);
    NotNegative(TicksOf(w, s, op), cfg.Rate(write));
    if op.Moving? {
      ChargeBudget(Updated(w, s, op.tick), op, Moved(w, s, op), write, cfg);
    } else if Enabled(w, s, op) {
      assert Next(w, s, op).limit == Updated(w, s, op.tick).limit;
    }
  }

  lemma {:induction false} UpdateBudget(w: Word, s: State, tick: nat, cfg: Cfg, write: bool)
    requires Limited(w, s, cfg)
    ensures var s' := Updated(w, s, tick);
            && Limited(w, s', cfg) && Positive(s'.limit.Limit(write)) <= cfg.Max(write)
            && Positive(s'.limit.Limit(write)) <=
                 Positive(s.limit.Limit(write)) + Elapsed(s.limit.last, tick) * cfg.Rate(write)
  {
    UpdateRight(w, s.limit, cfg, tick);
    NotNegative(Elapsed(s.limit.last, tick), cfg.Rate(write));
  }

  lemma NotNegative(ticks: nat, rate: nat)
    ensures ticks * rate >= 0
  {
  }

  lemma {:induction false} ChargeBudget(s: State, op: Op, m: nat, write: bool, cfg: Cfg)
    requires s.cfg == Some(cfg) && op.Moving? && m <= Positive(s.limit.Limit(op.write))
    ensures var s' := Charged(s, op.write, m);
            && s'.cfg == s.cfg
            && (if op.write == write then m else 0) + Positive(s'.limit.Limit(write)) == Positive(s.limit.Limit(write))
            && s'.limit.Limit(false) <= Positive(s.limit.Limit(false))
            && s'.limit.Limit(true) <= Positive(s.limit.Limit(true))
  {
  }

  lemma {:induction false} RunBudget(w: Word, s: State, ops: seq<Op>, cfg: Cfg, write: bool)
    requires Limited(w, s, cfg) && forall i :: 0 <= i < |ops| ==> InUse(ops[i])
    ensures MovedBy(w, s, ops, write) <= Positive(s.limit.Limit(write)) + TicksBy(w, s, ops) * cfg.Rate(write)
    decreases |ops|
  {
    var rate := cfg.Rate(write);
    if ops == [] {
      NotNegative(0, rate);
    } else {
      var s' := Next(w, s, ops[0]);
      StepBudget(w, s, ops[0], cfg, write);
      RunBudget(w, s', ops[1..], cfg, write);
      Distribute(TicksOf(w, s, ops[0]), TicksBy(w, s', ops[1..]), rate);
    }
  }

  lemma Distribute(m: nat, n: nat, rate: nat)
    ensures (m + n) * rate == m * rate + n * rate
  {
  }

  /** A transfer moves all that is wanted, or all that the limit has. */
  lemma {:induction false} MovesAll(w: Word, s: State, op: Op)
    requires s.cfg.Some? && op.Moving? && Enabled(w, s, op)
    ensures var limit := Updated(w, s, op.tick).limit.Limit(op.write);
            && Moved(w, s, op) == (if limit <= 0 then 0 else if op.want <= limit then op.want else limit)
            && Next(w, s, op).limit.Limit(op.write) == limit - Moved(w, s, op)
            && Next(w, s, op).limit.Limit(!op.write) == Updated(w, s, op.tick).limit.Limit(!op.write)
  {
  }

  /** In any window that begins with a transfer, the bytes moved in one direction are at most the burst
      plus the rate for every tick that passes after that transfer, whatever refills fall in it. */
  lemma {:induction false} Bandwidth(w: Word, s: State, ops: seq<Op>, cfg: Cfg, write: bool)
    requires Limited(w, s, cfg) && ops != [] && ops[0].Moving? && forall i :: 0 <= i < |ops| ==> InUse(ops[i])
    ensures MovedBy(w, s, ops, write) <= cfg.Max(write) + TicksBy(w, Next(w, s, ops[0]), ops[1..]) * cfg.Rate(write)
  {
    StepBudget(w, s, ops[0], cfg, write);
    RunBudget(w, Next(w, s, ops[0]), ops[1..], cfg, write);
  }

  // ----- a suspended direction comes back

  /** The refill event resumes a suspended direction if and only if the ticks that it counts bring the limit
      above zero. */
  lemma {:induction false} RefillResumes(w: Word, s: State, write: bool, tick: nat)
    requires Ok(w, s) && Low(s) && s.cfg.Some? && s.Suspended(write) && tick < TICKS
    ensures s.pending && Ok(w, Next(w, s, Refilling(tick))) && Low(Next(w, s, Refilling(tick)))
    ensures var s', gained := Next(w, s, Refilling(tick)), Elapsed(s.limit.last, tick) * s.cfg.value.Rate(write);
            && s'.cfg == s.cfg
            && (s'.Suspended(write) <==> s.limit.Limit(write) + gained <= 0)
            && (s'.Suspended(write) ==> s'.limit.Limit(write) == s.limit.Limit(write) + gained)
  {
    var n, cfg, limit := Elapsed(s.limit.last, tick), s.cfg.value, s.limit.Limit(write);
    LowNoBreak(w, s, Refilling(tick));
    NextOk(w, s, Refilling(tick));
    LowNext(w, s, Refilling(tick));
    if n == 0 {
      Distribute(0, 0, cfg.Rate(write));
    } else {
      RefillRight(w, limit, cfg.Rate(write), cfg.Max(write), n);
      NotNegative(n, cfg.Rate(write));
    }
  }

  /** A direction that runs is not suspended by a refill. */
  lemma {:induction false} StaysResumed(w: Word, s: State, ops: seq<Op>, write: bool)
    requires !s.Suspended(write) && forall i :: 0 <= i < |ops| ==> ops[i].Refilling?
    ensures !Run(w, s, ops).Suspended(write)
    decreases |ops|
  {
    if ops != [] {
      StaysResumed(w, Next(w, s, ops[0]), ops[1..], write);
    }
  }

  /** However often the refill event fires, the direction stays suspended exactly as long as the ticks that
      were counted do not make up for what is missing. */
  lemma {:induction false} ResumedIff(w: Word, s: State, ops: seq<Op>, write: bool)
    requires Ok(w, s) && Low(s) && s.cfg.Some? && s.Suspended(write)
    requires forall i :: 0 <= i < |ops| ==> ops[i].Refilling? && ops[i].tick < TICKS
    requires s.limit.Limit(write) <= 0
    ensures Run(w, s, ops).Suspended(write) <==>
              s.limit.Limit(write) + TicksBy(w, s, ops) * s.cfg.value.Rate(write) <= 0
    decreases |ops|
  {
    var rate := s.cfg.value.Rate(write);
    if ops == [] {
      Distribute(0, 0, rate);
    } else {
      var s', n := Next(w, s, ops[0]), TicksOf(w, s, ops[0]);
      var more := TicksBy(w, s', ops[1..]);
      RefillResumes(w, s, write, ops[0].tick);
      Distribute(n, more, rate);
      if s'.Suspended(write) {
        ResumedIff(w, s', ops[1..], write);
      } else {
        StaysResumed(w, s', ops[1..], write);
        NotNegative(more, rate);
      }
    }
  }

  const MILLISECONDS := Cfg(1, 1, 1, 1, 1, 1)
  const SECONDS := Cfg(2, 1, 1, 1, 1, 1000)

  /** Reading used up its limit at millisecond 1000000, and the ticks were then made longer. The time of the
      last update stays in milliseconds, so that for the next 999000 seconds no tick is counted, and reading
      stays suspended although the refill event fires every second. */
  lemma {:induction false} LongerTicksStall(second: nat)
    requires 1000 <= second <= 1000000
    ensures var s := Run(Bits64, START, [Setting(Some(MILLISECONDS), 1000000), Moving(false, 1000000, 1),
                                         Setting(Some(SECONDS), 1000)]);
            s.pending && Next(Bits64, s, Refilling(second)) == s && s.readSuspended
  {
    var w := Bits64;
    var ops := [Setting(Some(MILLISECONDS), 1000000), Moving(false, 1000000, 1), Setting(Some(SECONDS), 1000)];
    var s1 := Next(w, START, ops[0]);
    assert s1 == State(Some(MILLISECONDS), Bucket(1, 1, 1000000), false, false, false);
    var s2 := Next(w, s1, ops[1]);
    assert s2 == State(Some(MILLISECONDS), Bucket(0, 1, 1000000), true, false, true);
    var s3 := Next(w, s2, ops[2]);
    assert s3 == State(Some(SECONDS), Bucket(0, 1, 1000000), true, false, true);
    assert ops[1..][0] == ops[1] && ops[1..][1..][0] == ops[2] && ops[1..][1..][1..] == [];
    assert Run(w, s2, ops[1..][1..]) == s3;
    assert Run(w, s1, ops[1..]) == s3;
    assert Elapsed(1000000, second) == 0;
  }

  // ----- the buffer event

  class RateLimited {
    const w: Word
    var cfg: Option<Cfg>
    var limit: Bucket
    var readSuspended: bool
    var writeSuspended: bool
    var refillPending: bool

    ghost function Now(): State
      reads this
    {
      State(cfg, limit, readSuspended, writeSuspended, refillPending)
    }

    /** Enough to compute with: limits are words. */
    ghost predicate Words()
      reads this
    {
      cfg.Some? ==> cfg.value.Ok(w) && BucketOk(w, limit)
    }

    constructor (w: Word)
      ensures this.w == w && Now() == START
    {
      this.w := w;
      cfg, limit, readSuspended, writeSuspended, refillPending := None, Bucket(0, 0, 0), false, false, false;
    }

    function Suspended(write: bool): bool
      reads this
    {
      if write then writeSuspended else readSuspended
    }

    method Suspend(write: bool, suspend: bool)
      modifies this`readSuspended, this`writeSuspended
      ensures Now() == old(Now()).Suspend(write, suspend)
    {
      if write {
        writeSuspended := suspend;
      } else {
        readSuspended := suspend;
      }
    }

    /** How many bytes may be moved now? Refills the bucket first. */
    method GetRlimMax(write: bool, tick: nat) returns (max: nat)
      requires Words() && tick < TICKS
      modifies this`limit
      ensures Words() && Now() == Updated(w, old(Now()), tick) && max == Granted(Now(), write)
      ensures max == if cfg.None? then MAX_SINGLE else if limit.Limit(write) > 0 then limit.Limit(write) else 0
    {
      if cfg.None? {
        return MAX_SINGLE;
      }
      if tick != limit.last {
        limit := UpdateBucket(w, limit, cfg.value, tick);
      }
      max := if limit.Limit(write) < 0 then 0 else limit.Limit(write);
    }

    /** Bytes have been moved, or (if negative) given back. */
    method DecrementBuckets(write: bool, bytes: int)
      requires Words() && (cfg.Some? ==> w.Min() <= limit.Limit(write) - bytes <= w.Max())
      modifies this`limit, this`readSuspended, this`writeSuspended, this`refillPending
      ensures Words() && Now() == Charged(old(Now()), write, bytes)
      ensures cfg == old(cfg) && (cfg.None? ==> Now() == old(Now()))
      ensures cfg.Some? ==>
                && limit == old(limit).Take(write, bytes) && Suspended(!write) == old(Suspended(!write))
                && (Suspended(write) <==> limit.Limit(write) <= 0)
                && (refillPending <==>
                      || limit.Limit(write) <= 0
                      || (old(refillPending) && (old(Suspended(write)) ==> Suspended(!write))))
    {
      if cfg.None? {
        return;
      }
      limit := limit.Take(write, bytes);
      if limit.Limit(write) <= 0 {
        Suspend(write, true);
        refillPending := true;
      } else if Suspended(write) {
        if !Suspended(!write) {
          refillPending := false;
        }
        Suspend(write, false);
      }
    }

    /** A user takes from, or gives back to, the bucket. */
    method DecrementLimit(write: bool, decr: int)
      requires Words() && cfg.Some? && w.Min() <= limit.Limit(write) - decr <= w.Max()
      modifies this`limit, this`readSuspended, this`writeSuspended, this`refillPending
      ensures Words() && Now() == Decremented(old(Now()), write, decr)
      ensures limit == old(limit).Take(write, decr) && Suspended(!write) == old(Suspended(!write))
      ensures var had, has := old(limit).Limit(write) > 0, limit.Limit(write) > 0;
              && Suspended(write) == (if had == has then old(Suspended(write)) else !has)
              && refillPending == ((had && !has) || (old(refillPending) && (had || !has || Suspended(!write))))
    {
      var oldLimit := limit.Limit(write);
      limit := limit.Take(write, decr);
      var newLimit := limit.Limit(write);
      if oldLimit > 0 && newLimit <= 0 {
        Suspend(write, true);
        refillPending := true;
      } else if oldLimit <= 0 && newLimit > 0 {
        if !Suspended(!write) {
          refillPending := false;
        }
        Suspend(write, false);
      }
    }

    /** The refill event fires. */
    method RefillCallback(tick: nat)
      requires Words() && refillPending && tick < TICKS
      modifies this`limit, this`readSuspended, this`writeSuspended, this`refillPending
      ensures Words() && Now() == Refilled(w, old(Now()), tick)
      ensures cfg.Some? ==>
                && (forall d :: Suspended(d) <==> old(Suspended(d)) && limit.Limit(d) <= 0)
                && (refillPending <==> readSuspended || writeSuspended)
    {
      refillPending := false;
      if cfg.None? {
        return;
      }
      limit := UpdateBucket(w, limit, cfg.value, tick);
      var again := false;
      if readSuspended {
        if limit.readLimit > 0 {
          readSuspended := false;
        } else {
          again := true;
        }
      }
      if writeSuspended {
        if limit.writeLimit > 0 {
          writeSuspended := false;
        } else {
          again := true;
        }
      }
      if again {
        refillPending := true;
      }
    }

    /** Set, change or remove the limits. */
    method SetRateLimit(c: Option<Cfg>, tick: nat)
      requires Words() && tick < TICKS && (c.Some? ==> c.value.Ok(w))
      modifies this`cfg, this`limit, this`readSuspended, this`writeSuspended, this`refillPending
      ensures Words() && Now() == Configured(old(Now()), c, tick)
      ensures c.None? ==> cfg == None && !readSuspended && !writeSuspended && !refillPending && limit == old(limit)
      ensures c.Some? && old(cfg).Some? && old(cfg).value.id == c.value.id ==> Now() == old(Now())
      ensures c.Some? && (old(cfg).Some? ==> old(cfg).value.id != c.value.id) ==>
                && cfg == c && (forall d :: Suspended(d) <==> limit.Limit(d) <= 0)
                && (refillPending <==> readSuspended || writeSuspended)
                && limit.last == (if old(cfg).None? then tick else old(limit).last)
                && forall d ::
                     limit.Limit(d) == if old(cfg).None? then c.value.Rate(d)
                                       else if old(limit).Limit(d) > c.value.Max(d) then c.value.Max(d)
                                       else old(limit).Limit(d)
    {
      if c.None? {
        cfg := None;
        readSuspended, writeSuspended := false, false;
        refillPending := false;
        return;
      }
      if cfg.Some? && cfg.value.id == c.value.id {
        return;
      }
      var reinit := cfg.Some?;
      cfg := c;
      limit := Init(limit, c.value, tick, reinit);
      refillPending := false;
      var suspended := false;
      if limit.readLimit > 0 {
        readSuspended := false;
      } else {
        readSuspended := true;
        suspended := true;
      }
      if limit.writeLimit > 0 {
        writeSuspended := false;
      } else {
        writeSuspended := true;
        suspended := true;
      }
      if suspended {
        refillPending := true;
      }
    }

    /** One step, if it can happen. */
    method Do(op: Op) returns (moved: nat)
      requires Words()
      modifies this`cfg, this`limit, this`readSuspended, this`writeSuspended, this`refillPending
      ensures Words() && Now() == Next(w, old(Now()), op) && moved == Moved(w, old(Now()), op)
    {
      moved := 0;
      if !Enabled(w, State(cfg, limit, readSuspended, writeSuspended, refillPending), op) {
        return;
      }
      match op
      case Asking(tick) =>
        var max := GetRlimMax(false, tick);
      case Moving(d, tick, want) =>
        var max := GetRlimMax(d, tick);
        moved := if want < max then want else max;
        DecrementBuckets(d, moved);
      case Charging(d, n) => DecrementBuckets(d, n);
      case Decrementing(d, n) => DecrementLimit(d, n);
      case Refilling(tick) => RefillCallback(tick);
      case Setting(c, tick) => SetRateLimit(c, tick);
    }
  }

  /** Any operations in any order: the buffer event goes through the states of its state machine, each
      of them in order if and only if no refill wraps. */
  method RunScript(w: Word, ops: seq<Op>, write: bool) returns (bev: RateLimited, moved: nat)
    ensures fresh(bev) && bev.w == w && bev.Now() == Run(w, START, ops) && moved == MovedBy(w, START, ops, write)
    ensures AllOk(w, START, ops) <==> !SomeBreaks(w, START, ops)
    ensures (forall i :: 0 <= i < |ops| ==> NoRefund(ops[i])) ==> AllOk(w, START, ops)
  {
    bev := new RateLimited(w);
    moved := 0;
    for i := 0 to |ops|
      invariant fresh(bev) && bev.w == w && bev.Words()
      invariant Run(w, bev.Now(), ops[i..]) == Run(w, START, ops)
      invariant moved + MovedBy(w, bev.Now(), ops[i..], write) == MovedBy(w, START, ops, write)
    {
      assert ops[i..][0] == ops[i] && ops[i..][1..] == ops[i + 1..];
      var m := bev.Do(ops[i]);
      moved := moved + if ops[i].Moving? && ops[i].write == write then m else 0;
    }
    NoLostWakeup(w, START, ops);
    if forall i :: 0 <= i < |ops| ==> NoRefund(ops[i]) {
      NoLostWakeupWithoutRefunds(w, START, ops);
    }
  }
}
