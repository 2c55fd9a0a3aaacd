/** Token buckets: a refill that avoids overflow, and what it means. */
module TokenBucket {
  import opened Basics

  const TICKS: nat := 0x1_0000_0000
  const INT_MAX: nat := 0x7fff_ffff

  /** The width of a size. */
  datatype Word = Bits32 | Bits64 {
    function Size(): nat { if Bits32? then 0x1_0000_0000 else 0x1_0000_0000_0000_0000 }
    function Max(): nat { if Bits32? then 0x7fff_ffff else 0x7fff_ffff_ffff_ffff }
    function Min(): int { if Bits32? then -0x8000_0000 else -0x8000_0000_0000_0000 }
  }

  // ----- one direction

  /** The value of a signed word with these bits. */
  function Signed(w: Word, x: int): int {
    var u := x % w.Size();
    if u <= w.Max() then u else u - w.Size()
  }

  /** The refill of one direction after n ticks, in unsigned words: divide, compare, and only then
      multiply. */
  function RefillWords(w: Word, limit: int, rate: nat, max: nat, n: nat): int
    requires n > 0
  {
    if (max - limit) % w.Size() / n < rate then max else Signed(w, limit + n * rate % w.Size())
  }

  /** The refill without a thought for overflow. */
  function Plain(limit: int, rate: nat, max: nat, n: nat): int {
    if limit + n * rate > max then max else limit + n * rate
  }

  /** The refill that is computed, without division: the plain one up to the maximum. Above it, where
      only a refund can lift the limit, the limit keeps growing, and may wrap, unless the refill is
      enormous. */
  function Refill(w: Word, limit: int, rate: nat, max: nat, n: nat): int {
    var sum := limit + n * rate;
    if limit <= max then Plain(limit, rate, max, n)
    else if n * rate > w.Size() - (limit - max) then max
    else if sum <= w.Max() then sum
    else sum - w.Size()
  }

  lemma {:induction false} DivLess(a: nat, n: nat, r: nat)
    requires n > 0
    ensures a / n < r <==> a < n * r
  {
    var q := a / n;
    assert a == n * q + a % n;
    if q < r {
      MulMono(n, q + 1, r);
    } else {
      MulMono(n, r, q);
    }
  }

  lemma ModSmall(w: Word, x: int)
    ensures 0 <= x < w.Size() ==> x % w.Size() == x
    ensures 0 - w.Size() <= x < 0 ==> x % w.Size() == x + w.Size()
    ensures w.Size() <= x < 2 * w.Size() ==> x % w.Size() == x - w.Size()
  {
  }

  lemma {:induction false} SignedSum(w: Word, s: int)
    requires w.Min() <= s <= w.Size() + w.Max()
    ensures Signed(w, s) == if s <= w.Max() then s else s - w.Size()
  {
    ModSmall(w, s);
  }

  lemma {:induction false} RefillUpTo(w: Word, limit: int, rate: nat, max: nat, n: nat)
    requires 0 < n && max <= w.Max() && w.Min() <= limit <= max
    ensures RefillWords(w, limit, rate, max, n) == Refill(w, limit, rate, max, n)
  {
    ModSmall(w, max - limit);
    DivLess(max - limit, n, rate);
    if max - limit >= n * rate {
      ModSmall(w, n * rate);
      SignedSum(w, limit + n * rate);
    }
  }

  lemma {:induction false} RefillAbove(w: Word, limit: int, rate: nat, max: nat, n: nat)
    requires 0 < n && max < limit <= w.Max()
    ensures RefillWords(w, limit, rate, max, n) == Refill(w, limit, rate, max, n)
  {
    var a := w.Size() - (limit - max);
    ModSmall(w, max - limit);
    DivLess(a, n, rate);
    if n * rate <= a {
      ModSmall(w, n * rate);
      SignedSum(w, limit + n * rate);
    }
  }

  /** The divided form is the plain one, and nothing overflows, as long as the limit is at most the
      maximum; for every limit it is what Refill says. */
  lemma {:induction false} RefillRight(w: Word, limit: int, rate: nat, max: nat, n: nat)
    requires 0 < n && max <= w.Max() && w.Min() <= limit <= w.Max()
    ensures RefillWords(w, limit, rate, max, n) == Refill(w, limit, rate, max, n)
    ensures limit <= max ==> RefillWords(w, limit, rate, max, n) == Plain(limit, rate, max, n)
    ensures limit <= max ==> limit <= Plain(limit, rate, max, n) <= max
    ensures w.Min() <= Refill(w, limit, rate, max, n) <= w.Max()
  {
    if limit <= max {
      RefillUpTo(w, limit, rate, max, n);
    } else {
      RefillAbove(w, limit, rate, max, n);
    }
  }

  /** Above the maximum the divided form is the plain one if and only if the refill is enormous. */
  lemma {:induction false} RefillAboveMax(w: Word, limit: int, rate: nat, max: nat, n: nat)
    requires 0 < n && max < limit <= w.Max()
    ensures RefillWords(w, limit, rate, max, n) == Plain(limit, rate, max, n) <==> n * rate >= w.Size() - (limit - max)
  {
    RefillAbove(w, limit, rate, max, n);
  }

  /** A limit of 11 with a maximum of 10 grows to 12. */
  lemma {:induction false} AboveMaxGrows()
    ensures RefillWords(Bits64, 11, 1, 10, 1) == 12 && Plain(11, 1, 10, 1) == 10
  {
    RefillAbove(Bits64, 11, 1, 10, 1);
  }

  /** Does a refill take all bandwidth away from a direction that has some? */
  predicate Wraps(w: Word, limit: int, rate: nat, max: nat, n: nat) {
    limit > max && n * rate <= w.Size() - (limit - max) && w.Max() < limit + n * rate <= w.Size()
  }

  lemma {:induction false} WrapsIff(w: Word, limit: int, rate: nat, max: nat, n: nat)
    requires 0 < max <= w.Max() && 0 < limit <= w.Max()
    ensures Refill(w, limit, rate, max, n) <= 0 <==> Wraps(w, limit, rate, max, n)
  {
  }

  /** A refund to just above a maximum of 2^63 - 2, and one tick at rate 1. */
  lemma {:induction false} WrapHappens()
    ensures var max := Bits64.Max() - 1;
            Wraps(Bits64, max + 1, 1, max, 1) && RefillWords(Bits64, max + 1, 1, max, 1) == Bits64.Min()
  {
    RefillAbove(Bits64, Bits64.Max(), 1, Bits64.Max() - 1, 1);
  }

  /** Two refills are one refill over all the ticks. */
  lemma {:induction false} PlainTwice(limit: int, rate: nat, max: nat, m: nat, n: nat)
    ensures Plain(Plain(limit, rate, max, m), rate, max, n) == Plain(limit, rate, max, m + n)
  {
    assert (m + n) * rate == m * rate + n * rate;
  }

  // ----- configurations

  lemma ModOf(q: int, r: nat)
    requires r < TICKS
    ensures (TICKS * q + r) % TICKS == r
  {
  }

  /** Rates and bursts per tick. */
  datatype Cfg = Cfg(id: nat, readRate: nat, readMax: nat, writeRate: nat, writeMax: nat, msecPerTick: nat) {
    predicate Ok(w: Word) {
      1 <= readRate <= readMax <= w.Max() && 1 <= writeRate <= writeMax <= w.Max()
    }
    function Rate(write: bool): nat { if write then writeRate else readRate }
    function Max(write: bool): nat { if write then writeMax else readMax }
  }

  const MICROSECONDS: nat := 0x10_0000

  /** A configuration, unless the rates are refused; ticks are measured in whole milliseconds. */
  function CfgNew(w: Word, id: nat, readRate: nat, readBurst: nat, writeRate: nat, writeBurst: nat, sec: nat,
                  usec: nat): Option<Cfg> {
    if readRate > readBurst || writeRate > writeBurst || readRate < 1 || writeRate < 1 then None
    else if readRate > w.Max() || writeRate > w.Max() || readBurst > w.Max() || writeBurst > w.Max() then None
    else Some(Cfg(id, readRate, readBurst, writeRate, writeBurst, (sec * 1000 + usec % MICROSECONDS / 1000) % TICKS))
  }

  /** Exactly the sensible rates are accepted, but so is a tick of no length: one of a multiple of 2^32 whole
      milliseconds. Among shorter ones, these are exactly those of less than one millisecond. */
  lemma {:induction false} CfgNewRight(w: Word, id: nat, readRate: nat, readBurst: nat, writeRate: nat,
                                       writeBurst: nat, sec: nat, usec: nat)
    ensures var c := CfgNew(w, id, readRate, readBurst, writeRate, writeBurst, sec, usec);
            && (c.Some? <==> Cfg(id, readRate, readBurst, writeRate, writeBurst, 1).Ok(w))
            && (c.Some? && usec < 1000000 ==>
                  c.value == Cfg(id, readRate, readBurst, writeRate, writeBurst, (sec * 1000 + usec / 1000) % TICKS))
            && (c.Some? && usec < 1000000 ==>
                  (c.value.msecPerTick == 0 <==> exists k: nat :: sec * 1000 + usec / 1000 == TICKS * k))
            && (c.Some? && usec < 1000000 && sec * 1000 + 1000 <= TICKS ==>
                  (c.value.msecPerTick == 0 <==> sec == 0 && usec < 1000))
  {
    if usec < 1000000 {
      assert usec % MICROSECONDS == usec;
      assert usec / 1000 < 1000;
      MultipleIff(sec * 1000 + usec / 1000);
    }
  }

  lemma {:induction false} MultipleIff(ms: nat)
    ensures ms % TICKS == 0 <==> exists k: nat :: ms == TICKS * k
    ensures ms < TICKS ==> ms % TICKS == ms
  {
    if ms % TICKS == 0 {
      assert ms == TICKS * (ms / TICKS);
    }
    if k: nat :| ms == TICKS * k {
      ModOf(k, 0);
    }
  }

  /** A tick of 2^29 seconds has no length either. */
  lemma {:induction false} HugeTick(sec: nat)
    requires sec == 0x2000_0000
    ensures CfgNew(Bits64, 0, 1, 1, 1, 1, sec, 0) == Some(Cfg(0, 1, 1, 1, 1, 0))
  {
    assert sec * 1000 == TICKS * 125;
    ModOf(125, 0);
  }

  /** A tick of 999 microseconds is accepted, and has no length. */
  lemma {:induction false} EmptyTick()
    ensures CfgNew(Bits64, 0, 1, 1, 1, 1, 0, 999) == Some(Cfg(0, 1, 1, 1, 1, 0))
  {
  }

  // ----- ticks

  /** The tick of a time; none if the tick length is zero, where the code divides by it. */
  function GetTick(sec: nat, usec: nat, cfg: Cfg): Option<nat> {
    if cfg.msecPerTick == 0 then None
    else Some((sec * 1000 + usec / 1000) % Bits64.Size() / cfg.msecPerTick % TICKS)
  }

  /** The ticks that an update counts: none if time stood still or went back. */
  function Elapsed(last: nat, tick: nat): nat {
    var n := (tick - last) % TICKS;
    if n > INT_MAX then 0 else n
  }

  /** An update at a later time counts the ticks between, even where the tick counter wraps. */
  lemma {:induction false} TicksBetween(t: nat, n: nat)
    requires n <= INT_MAX
    ensures Elapsed(t % TICKS, (t + n) % TICKS) == n
  {
    var a, q := t % TICKS, t / TICKS;
    assert t == TICKS * q + a;
    if a + n < TICKS {
      assert t + n == TICKS * q + (a + n);
      ModOf(q, a + n);
    } else {
      assert t + n == TICKS * (q + 1) + (a + n - TICKS);
      ModOf(q + 1, a + n - TICKS);
    }
  }

  lemma {:induction false} CountedBetween(x: Option<nat>, y: Option<nat>, t: nat, t': nat)
    requires x == Some(t % TICKS) && y == Some(t' % TICKS) && t <= t' <= t + INT_MAX
    ensures Elapsed(x.value, y.value) == t' - t
  {
    TicksBetween(t, t' - t);
  }

  /** t whole ticks of n milliseconds have passed after ms of them. */
  ghost predicate IsTick(ms: nat, n: nat, t: nat) {
    n * t <= ms < n * t + n
  }

  /** A time has a tick exactly if the tick length is not zero, and between two times within 2^31 ticks
      of each other whole ticks are counted. */
  lemma {:induction false} GetTickRight(sec: nat, usec: nat, sec': nat, usec': nat, cfg: Cfg, a: nat, b: nat,
                                        t: nat, t': nat)
    requires a == sec * 1000 + usec / 1000 && b == sec' * 1000 + usec' / 1000 && a <= b < Bits64.Size()
    ensures GetTick(sec, usec, cfg).Some? <==> cfg.msecPerTick > 0
    ensures IsTick(a, cfg.msecPerTick, t) && IsTick(b, cfg.msecPerTick, t') && t' - t <= INT_MAX ==>
              t <= t' && Elapsed(GetTick(sec, usec, cfg).value, GetTick(sec', usec', cfg).value) == t' - t
  {
    if IsTick(a, cfg.msecPerTick, t) && IsTick(b, cfg.msecPerTick, t') && t' - t <= INT_MAX {
      TickIs(sec, usec, cfg, a, t);
      TickIs(sec', usec', cfg, b, t');
      LaterTick(a, b, cfg.msecPerTick, t, t');
      CountedBetween(GetTick(sec, usec, cfg), GetTick(sec', usec', cfg), t, t');
    }
  }

  lemma {:induction false} LaterTick(a: nat, b: nat, n: nat, t: nat, t': nat)
    requires IsTick(a, n, t) && IsTick(b, n, t') && a <= b
    ensures t <= t'
  {
    if t > t' {
      MulMono(n, t' + 1, t);
    }
  }

  lemma {:induction false} TickIs(sec: nat, usec: nat, cfg: Cfg, a: nat, t: nat)
    requires a == sec * 1000 + usec / 1000 < Bits64.Size() && IsTick(a, cfg.msecPerTick, t)
    ensures cfg.msecPerTick > 0 && GetTick(sec, usec, cfg) == Some(t % TICKS)
  {
    ModSmall(Bits64, a);
    TickOf(a, cfg.msecPerTick, t);
  }

  lemma {:induction false} TickOf(a: nat, n: nat, t: nat)
    requires IsTick(a, n, t)
    ensures n > 0 && a / n == t
  {
    if a / n < t {
      MulMono(n, a / n + 1, t);
    } else if a / n > t {
      MulMono(n, t + 1, a / n);
    }
  }

  // ----- buckets

  datatype Bucket = Bucket(readLimit: int, writeLimit: int, last: nat) {
    function Limit(write: bool): int { if write then writeLimit else readLimit }
    function Take(write: bool, bytes: int): Bucket {
      if write then this.(writeLimit := writeLimit - bytes) else this.(readLimit := readLimit - bytes)
    }
  }

  /** Limits are words. */
  ghost predicate BucketOk(w: Word, b: Bucket) {
    w.Min() <= b.readLimit <= w.Max() && w.Min() <= b.writeLimit <= w.Max() && b.last < TICKS
  }

  /** No refund has lifted a limit above its maximum. */
  ghost predicate Unrefunded(b: Bucket, cfg: Cfg) {
    b.readLimit <= cfg.readMax && b.writeLimit <= cfg.writeMax
  }

  function Init(b: Bucket, cfg: Cfg, tick: nat, reinitialize: bool): Bucket {
    if reinitialize then
      b.(readLimit := if b.readLimit > cfg.readMax then cfg.readMax else b.readLimit,
         writeLimit := if b.writeLimit > cfg.writeMax then cfg.writeMax else b.writeLimit)
    else Bucket(cfg.readRate, cfg.writeRate, tick)
  }

  /** The bucket after an update at a tick. */
  function Update(w: Word, b: Bucket, cfg: Cfg, tick: nat): Bucket {
    var n := Elapsed(b.last, tick);
    if n == 0 then b
    else Bucket(Refill(w, b.readLimit, cfg.readRate, cfg.readMax, n),
                Refill(w, b.writeLimit, cfg.writeRate, cfg.writeMax, n), tick)
  }

  /** The update as it is computed, in words. */
  method UpdateBucket(w: Word, b: Bucket, cfg: Cfg, tick: nat) returns (b': Bucket)
    requires cfg.Ok(w) && BucketOk(w, b) && tick < TICKS
    ensures b' == Update(w, b, cfg, tick) && BucketOk(w, b')
  {
    var n := (tick - b.last) % TICKS;
    if n == 0 || n > INT_MAX {
      return b;
    }
    RefillRight(w, b.readLimit, cfg.readRate, cfg.readMax, n);
    RefillRight(w, b.writeLimit, cfg.writeRate, cfg.writeMax, n);
    b' := Bucket(RefillWords(w, b.readLimit, cfg.readRate, cfg.readMax, n),
                 RefillWords(w, b.writeLimit, cfg.writeRate, cfg.writeMax, n), tick);
  }

  /** Without refunds an update takes nothing away, adds no more than the rate for every tick, and
      stays within the maxima. */
  lemma {:induction false} UpdateRight(w: Word, b: Bucket, cfg: Cfg, tick: nat)
    requires Unrefunded(b, cfg)
    ensures Unrefunded(Update(w, b, cfg, tick), cfg)
    ensures forall d ::
              b.Limit(d) <= Update(w, b, cfg, tick).Limit(d) <= b.Limit(d) + Elapsed(b.last, tick) * cfg.Rate(d)
    ensures Update(w, b, cfg, tick).last == if Elapsed(b.last, tick) == 0 then b.last else tick
  {
  }

  /** Updating twice is updating once, if the clock goes forward by at most INT_MAX ticks in all. */
  lemma {:induction false} UpdateTwice(w: Word, b: Bucket, cfg: Cfg, t: nat, m: nat, n: nat)
    requires Unrefunded(b, cfg) && m + n <= INT_MAX && b.last == t % TICKS
    ensures Update(w, Update(w, b, cfg, (t + m) % TICKS), cfg, (t + m + n) % TICKS) ==
              Update(w, b, cfg, (t + m + n) % TICKS)
  {
    TicksBetween(t, m);
    TicksBetween(t + m, n);
    TicksBetween(t, m + n);
    UpdateRight(w, b, cfg, (t + m) % TICKS);
    PlainTwice(b.readLimit, cfg.readRate, cfg.readMax, m, n);
    PlainTwice(b.writeLimit, cfg.writeRate, cfg.writeMax, m, n);
  }
}
