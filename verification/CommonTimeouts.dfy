/** How a common timeout hides in the microseconds of a time: 4 bits of magic (0x5), 8 bits of list
    index, 20 bits of microseconds. Masking and shifting such fields is dividing and taking remainders,
    and joining fields that do not overlap is adding. */
module CommonTimeouts {
  import opened Queues
  import opened EventLoop

  const FIELD: nat := 0x10_0000
  const MAGIC: nat := 5
  const SECOND: nat := 1000000

  /** The packed microseconds of list idx. */
  function Pack(usec: nat, idx: nat): nat {
    usec + MAGIC * 256 * FIELD + idx * FIELD
  }

  function Index(packed: nat): nat {
    packed / FIELD % 256
  }

  function Micros(packed: nat): nat {
    packed % FIELD
  }

  /** All but the microseconds. */
  function High(packed: nat): nat {
    packed - Micros(packed)
  }

  /** Does a time belong to one of the common-timeout lists? */
  predicate IsCommon(usec: nat, lists: nat) {
    usec / (256 * FIELD) % 16 == MAGIC && Index(usec) < lists
  }

  /** Nothing is lost for 256 lists. */
  lemma {:induction false} Unpack(usec: nat, idx: nat)
    requires usec < FIELD && idx < 256
    ensures Micros(Pack(usec, idx)) == usec && Index(Pack(usec, idx)) == idx && High(Pack(usec, idx)) == Pack(0, idx)
  {
    var p := Pack(usec, idx);
    assert p == FIELD * (MAGIC * 256 + idx) + usec;
    assert p / FIELD == MAGIC * 256 + idx;
  }

  /** A packed time is recognised exactly for the lists that exist. */
  lemma {:induction false} PackedIsCommon(usec: nat, idx: nat, lists: nat)
    requires usec < FIELD && idx < 256
    ensures IsCommon(Pack(usec, idx), lists) <==> idx < lists
  {
    Unpack(usec, idx);
    assert Pack(usec, idx) == 256 * FIELD * MAGIC + (idx * FIELD + usec);
    assert Pack(usec, idx) / (256 * FIELD) == MAGIC;
  }

  /** The fields of the low 32 bits, for any microseconds at all: what is above them is not looked at. */
  lemma {:induction false} CommonIs(usec: nat, lists: nat)
    ensures var low := usec % 0x1_0000_0000;
            IsCommon(usec, lists) <==> low / 0x1000_0000 == 5 && low / 0x10_0000 % 256 < lists
  {
    var high, low := usec / 0x1_0000_0000, usec % 0x1_0000_0000;
    assert usec / 0x1000_0000 == 16 * high + low / 0x1000_0000;
    assert usec / 0x10_0000 == 4096 * high + low / 0x10_0000;
    assert (16 * high + low / 0x1000_0000) % 16 == low / 0x1000_0000;
    assert (4096 * high + low / 0x10_0000) % 256 == low / 0x10_0000 % 256;
  }

  /** Plain microseconds never look like a common timeout. */
  lemma {:induction false} PlainIsNotCommon(usec: nat, lists: nat)
    requires usec < FIELD
    ensures !IsCommon(usec, lists)
  {
  }

  /** Two packed times are of the same list if and only if their high bits agree. */
  lemma {:induction false} PackedSame(usec: nat, idx: nat, usec': nat, idx': nat)
    requires usec < FIELD && usec' < FIELD && idx < 256 && idx' < 256
    ensures High(Pack(usec, idx)) == High(Pack(usec', idx')) <==> idx == idx'
  {
    Unpack(usec, idx);
    Unpack(usec', idx');
  }

  // ----- times

  /** Seconds, and microseconds that may be packed. */
  datatype Time = Time(sec: int, usec: nat)

  /** The deadline and the list that the event loop reads from a time. */
  function Decode(t: Time, lists: nat): Timeout {
    At(t.sec * SECOND + Micros(t.usec), if IsCommon(t.usec, lists) then Index(t.usec) else -1)
  }

  predicate Earlier(a: Time, b: Time) {
    a.sec < b.sec || (a.sec == b.sec && a.usec <= b.usec)
  }

  /** Comparing whole times, magic and all, compares the deadlines of events on one list; and of events
      on the heap. */
  lemma {:induction false} OrderOfTimes(a: Time, b: Time, u: nat, v: nat, idx: nat)
    requires u < SECOND && v < SECOND && idx < 256
    requires (a.usec == u && b.usec == v) || (a.usec == Pack(u, idx) && b.usec == Pack(v, idx))
    ensures Earlier(a, b) <==> a.sec * SECOND + Micros(a.usec) <= b.sec * SECOND + Micros(b.usec)
  {
    Unpack(u, idx);
    Unpack(v, idx);
  }

  /** The sum of two times. */
  function TimerAdd(a: Time, b: Time): (t: Time)
    ensures t.sec * SECOND + t.usec == (a.sec + b.sec) * SECOND + a.usec + b.usec
    ensures a.usec < SECOND && b.usec < SECOND ==> t.usec < SECOND
  {
    var usec := a.usec + b.usec;
    if usec >= SECOND then Time(a.sec + b.sec + 1, usec - SECOND) else Time(a.sec + b.sec, usec)
  }

  /** The time at which an event times out that is added now with a duration; the list of a common
      timeout is carried over. */
  function TimeoutAt(now: Time, duration: Time, lists: nat): Time {
    if IsCommon(duration.usec, lists) then
      var t := TimerAdd(now, Time(duration.sec, Micros(duration.usec)));
      Time(t.sec, t.usec + High(duration.usec))
    else TimerAdd(now, duration)
  }

  /** The packed duration of a common-timeout list leads to that list, and the event is due that much
      later. */
  lemma {:induction false} CommonDeadline(now: Time, sec: int, usec: nat, idx: nat, lists: nat)
    requires now.usec < SECOND && usec < SECOND && idx < lists <= 256
    ensures Decode(TimeoutAt(now, Time(sec, Pack(usec, idx)), lists), lists)
            == At((now.sec + sec) * SECOND + now.usec + usec, idx)
  {
    Unpack(usec, idx);
    PackedIsCommon(usec, idx, lists);
    var t := TimerAdd(now, Time(sec, usec));
    assert t.usec + High(Pack(usec, idx)) == Pack(t.usec, idx);
    Unpack(t.usec, idx);
    PackedIsCommon(t.usec, idx, lists);
  }

  lemma {:induction false} PlainDeadline(now: Time, duration: Time, lists: nat)
    requires now.usec < SECOND && duration.usec < SECOND
    ensures Decode(TimeoutAt(now, duration, lists), lists)
            == At((now.sec + duration.sec) * SECOND + now.usec + duration.usec, -1)
  {
    PlainIsNotCommon(duration.usec, lists);
    var t := TimerAdd(now, duration);
    PlainIsNotCommon(t.usec, lists);
  }

  /** event_add with a duration: the loop reads deadline and list from the packed time. */
  method AddFor(loop: Loop, x: nat, now: Time, duration: Time, evmapOk: bool, ghost usec: nat,
                ghost list: int) returns (r: int)
    requires loop.Valid() && x < |loop.evs| && !loop.evs[x].internal
    requires now.usec < SECOND && usec < SECOND && -1 <= list < |loop.qs.lists|
    requires duration.usec == if list < 0 then usec else Pack(usec, list)
    modifies loop
    ensures loop.Valid()
    ensures r == if Refused(old(loop.evs)[x], evmapOk) then -1 else 0
    ensures |loop.evs| == |old(loop.evs)|
    ensures r == 0 ==>
              IsAdded(old(loop.evs)[x], loop.evs[x], At((now.sec + duration.sec) * SECOND + now.usec + usec, list))
  {
    var lists := |loop.qs.lists|;
    if list < 0 {
      PlainDeadline(now, duration, lists);
    } else {
      CommonDeadline(now, duration.sec, usec, list, lists);
    }
    r := loop.Add(x, Decode(TimeoutAt(now, duration, lists), lists), evmapOk);
  }

  // ----- flags

  /** What the event count changes by when an event with these flags joins a queue: bit 4 marks internal
      events, which are not counted. */
  function CountStep(flags: nat): nat {
    1 - flags / 16 % 2
  }

  /** The flags of an event as the source's bits. */
  function Flags(e: Ev): nat {
    One(e.timeout) + 2 * One(e.inserted) + 8 * One(e.active) + 16 * One(e.internal) + 32 * One(e.later)
    + 64 * One(e.finalizing) + 128 * One(e.isEvent)
  }

  /** Every flag has a bit of its own. */
  lemma {:induction false} FlagsRight(e: Ev)
    ensures var f := Flags(e);
            && f % 2 == One(e.timeout) && f / 2 % 2 == One(e.inserted) && f / 8 % 2 == One(e.active)
            && f / 16 % 2 == One(e.internal) && f / 32 % 2 == One(e.later) && f / 64 % 2 == One(e.finalizing)
            && f / 128 == One(e.isEvent)
  {
    var f := Flags(e);
    var f64 := One(e.finalizing) + 2 * One(e.isEvent);
    var f16 := One(e.internal) + 2 * One(e.later) + 4 * f64;
    assert f == One(e.timeout) + 2 * One(e.inserted) + 8 * One(e.active) + 16 * f16;
    assert f / 16 == f16 && f16 / 4 == f64;
  }

  lemma {:induction false} CountStepRight(e: Ev)
    ensures CountStep(Flags(e)) == One(!e.internal)
  {
  }
}
