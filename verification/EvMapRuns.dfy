/** Whole runs of adds, deletes and dispatches: the backend that defers and coalesces changes
    against the one that applies each change at once. */
module EvMapRuns {
  import opened EpollTable
  import opened EvMap

  datatype Op = AddEv(ev: Event) | DelEv(ev: Event) | Dispatch

  /** The events registered on a descriptor after a script, newest first: a double add and a
      delete of an event that is not there have no effect. */
  ghost function Registered(script: seq<Op>, fd: nat): seq<Event> {
    if script == [] then []
    else RegisteredStep(Registered(script[..|script| - 1], fd), script[|script| - 1], fd)
  }

  ghost function RegisteredStep(es: seq<Event>, op: Op, fd: nat): seq<Event> {
    match op
    case AddEv(ev) => if ev.fd == fd && ev !in es && !Overflows(es, ev.what) then [ev] + es else es
    case DelEv(ev) => if ev.fd == fd then Without(es, ev) else es
    case Dispatch => es
  }

  lemma {:induction false} WithoutAbsent(es: seq<Event>, ev: Event)
    requires ev !in es
    ensures Without(es, ev) == es
  {
    if es != [] {
      WithoutAbsent(es[1..], ev);
    }
  }

  predicate Wants(es: seq<Event>, k: Kind) {
    Has(InterestOf(es), k)
  }

  /** What is pending on every descriptor of a deferring base after events were added or deleted: what
      became wanted is to be added, and what became unwanted is to be deleted if the kernel has it. */
  twostate predicate Defers(base: EventBase)
    reads base
  {
    && base.kernel == old(base.kernel)
    && forall fd: nat, k ::
         PendingOn(base.io, base.changes, fd, k) ==
           var before, after := old(Wants(base.EventsOn(fd), k)), Wants(base.EventsOn(fd), k);
           if after && !before then EV_CHANGE_ADD
           else if before && !after then (if Has(InterestIn(base.kernel, fd), k) then EV_CHANGE_DEL else 0)
           else old(PendingOn(base.io, base.changes, fd, k))
  }

  /** One step on a base; events carry the flag that says whether they are registered, so a second
      add or a second delete does not reach the maps. */
  method Step(base: EventBase, op: Op)
    requires base.Valid()
    modifies base
    ensures base.Valid()
    ensures forall fd: nat :: base.EventsOn(fd) == RegisteredStep(old(base.EventsOn(fd)), op, fd)
    ensures op.Dispatch? ==>
              && (forall fd: nat :: InterestIn(base.kernel, fd) == InterestOf(base.EventsOn(fd)))
              && (forall fd: nat, k :: PendingOn(base.io, base.changes, fd, k) == 0)
    ensures base.deferred && !op.Dispatch? ==> Defers(base)
  {
    match op
    case AddEv(ev) => StepAdd(base, ev);
    case DelEv(ev) => StepDel(base, ev);
    case Dispatch => base.FlushChanges();
  }

  method StepAdd(base: EventBase, ev: Event)
    requires base.Valid()
    modifies base
    ensures base.Valid()
    ensures forall fd: nat :: base.EventsOn(fd) == RegisteredStep(old(base.EventsOn(fd)), AddEv(ev), fd)
    ensures base.deferred ==> Defers(base)
  {
    if ev.fd < 0 || ev.fd !in base.io || ev !in base.io[ev.fd].events {
      var r := base.AddEvent(ev, false);
    }
  }

  method StepDel(base: EventBase, ev: Event)
    requires base.Valid()
    modifies base
    ensures base.Valid()
    ensures forall fd: nat :: base.EventsOn(fd) == RegisteredStep(old(base.EventsOn(fd)), DelEv(ev), fd)
    ensures base.deferred ==> Defers(base)
  {
    if ev.fd < 0 || ev.fd !in base.io || ev !in base.io[ev.fd].events {
      NothingToDelete(base, ev);
      return;
    }
    WithoutWants(base.EventsOn(ev.fd), ev);
    var r := base.DelEvent(ev);
  }

  lemma {:induction false} WithoutWants(es: seq<Event>, ev: Event)
    requires ev in es
    ensures forall k :: Wants(Without(es, ev), k) ==> Wants(es, k)
  {
    forall k | Wants(Without(es, ev), k)
      ensures Wants(es, k)
    {
      CountWithout(es, ev, k);
    }
  }

  lemma {:induction false} NothingToDelete(base: EventBase, ev: Event)
    requires ev.fd >= 0 ==> ev !in base.EventsOn(ev.fd)
    ensures forall fd: nat :: base.EventsOn(fd) == RegisteredStep(base.EventsOn(fd), DelEv(ev), fd)
  {
    if ev.fd >= 0 {
      WithoutAbsent(base.EventsOn(ev.fd), ev);
    }
  }

  /** A base that applies each change at once is never out of step with the events registered. */
  lemma {:induction false} ImmediateInStep(base: EventBase)
    requires base.Valid() && !base.deferred
    ensures forall fd: nat :: InterestIn(base.kernel, fd) == InterestOf(base.EventsOn(fd))
  {
    forall fd: nat
      ensures InterestIn(base.kernel, fd) == InterestOf(base.EventsOn(fd))
    {
      if fd in base.io {
        assert IoOk(fd, base.io[fd]) && FdSynced(fd, base.io[fd], base.changes, base.kernel);
      }
    }
  }

  // ----- what is pending after a script

  /** The events registered on a descriptor at the last dispatch. */
  ghost function AtDispatch(script: seq<Op>, fd: nat): seq<Event> {
    if script == [] then []
    else if script[|script| - 1].Dispatch? then Registered(script, fd)
    else AtDispatch(script[..|script| - 1], fd)
  }

  /** What has become of the wish for one event of a descriptor since the last dispatch. */
  datatype Mark = Untouched | ToAdd | ToDel

  /** The last operation that made an event wanted marks it to be added, even if it was wanted at the last
      dispatch; the last one that made it unwanted marks it to be deleted if it was wanted then, and else
      takes the mark away. */
  ghost function MarkOn(script: seq<Op>, fd: nat, k: Kind): Mark {
    if script == [] || script[|script| - 1].Dispatch? then Untouched
    else
      var front := script[..|script| - 1];
      var before, after := Wants(Registered(front, fd), k), Wants(Registered(script, fd), k);
      if after && !before then ToAdd
      else if before && !after then (if Wants(AtDispatch(front, fd), k) then ToDel else Untouched)
      else MarkOn(front, fd, k)
  }

  function Code(m: Mark): Delta {
    match m
    case Untouched => 0
    case ToAdd => EV_CHANGE_ADD
    case ToDel => EV_CHANGE_DEL
  }

  /** The kernel has what was registered at the last dispatch, and exactly the marks are pending. */
  ghost predicate Tracks(base: EventBase, script: seq<Op>)
    reads base
  {
    && (forall fd: nat :: base.EventsOn(fd) == Registered(script, fd))
    && (forall fd: nat :: InterestIn(base.kernel, fd) == InterestOf(AtDispatch(script, fd)))
    && (forall fd: nat, k :: PendingOn(base.io, base.changes, fd, k) == Code(MarkOn(script, fd, k)))
  }

  /** One more operation on a deferring base. */
  method StepTracks(base: EventBase, script: seq<Op>, op: Op)
    requires base.Valid() && base.deferred && Tracks(base, script)
    modifies base
    ensures base.Valid() && Tracks(base, script + [op])
  {
    Step(base, op);
    forall fd: nat
      ensures base.EventsOn(fd) == Registered(script + [op], fd)
      ensures AtDispatch(script + [op], fd) == if op.Dispatch? then base.EventsOn(fd) else AtDispatch(script, fd)
    {
      OneMore(script, op, fd);
    }
    forall fd: nat, k
      ensures PendingOn(base.io, base.changes, fd, k) == Code(MarkOn(script + [op], fd, k))
    {
      OneMore(script, op, fd);
      MarkMore(script, op, fd, k);
    }
  }

  /** A script with one operation more. */
  lemma {:induction false} OneMore(script: seq<Op>, op: Op, fd: nat)
    ensures Registered(script + [op], fd) == RegisteredStep(Registered(script, fd), op, fd)
    ensures AtDispatch(script + [op], fd) == if op.Dispatch? then Registered(script, fd) else AtDispatch(script, fd)
  {
    assert (script + [op])[..|script|] == script;
  }

  lemma {:induction false} MarkMore(script: seq<Op>, op: Op, fd: nat, k: Kind)
    ensures var before, after := Wants(Registered(script, fd), k), Wants(Registered(script + [op], fd), k);
            MarkOn(script + [op], fd, k) ==
              if op.Dispatch? then Untouched
              else if after && !before then ToAdd
              else if before && !after then (if Wants(AtDispatch(script, fd), k) then ToDel else Untouched)
              else MarkOn(script, fd, k)
  {
    assert (script + [op])[..|script|] == script;
  }

  /** Run a script on a deferring base. */
  method RunDeferred(script: seq<Op>) returns (base: EventBase)
    ensures fresh(base) && base.Valid() && base.deferred && Tracks(base, script)
  {
    base := new EventBase(true);
    for i := 0 to |script|
      invariant fresh(base) && base.Valid() && base.deferred && Tracks(base, script[..i])
    {
      assert script[..i + 1] == script[..i] + [script[i]];
      StepTracks(base, script[..i], script[i]);
    }
    assert script[..|script|] == script;
  }

  /** The last operation on a descriptor since the last dispatch that told the backend: was it an add? */
  ghost function LastTold(script: seq<Op>, fd: nat): Mark {
    if script == [] || script[|script| - 1].Dispatch? then Untouched
    else
      var front := script[..|script| - 1];
      if InterestOf(Registered(script, fd)) == InterestOf(Registered(front, fd)) then LastTold(front, fd)
      else if script[|script| - 1].AddEv? then ToAdd
      else ToDel
  }

  /** An add that told the backend leaves a mark, and so does not end in a no-op. */
  lemma {:induction false} AddMarks(script: seq<Op>, fd: nat)
    requires LastTold(script, fd) == ToAdd
    ensures exists k :: MarkOn(script, fd, k) == ToAdd
    decreases |script|
  {
    var front, op := script[..|script| - 1], script[|script| - 1];
    assert script == front + [op];
    OneMore(front, op, fd);
    var before, after := Registered(front, fd), Registered(script, fd);
    if InterestOf(after) == InterestOf(before) {
      AddMarks(front, fd);
      var k :| MarkOn(front, fd, k) == ToAdd;
      assert Wants(after, k) == Wants(before, k);
      assert MarkOn(script, fd, k) == ToAdd;
    } else {
      AddWantsMore(before, op.ev, after);
      var k :| Wants(after, k) && !Wants(before, k);
      assert MarkOn(script, fd, k) == ToAdd;
    }
  }

  lemma {:induction false} AddWantsMore(before: seq<Event>, ev: Event, after: seq<Event>)
    requires after == [ev] + before && InterestOf(after) != InterestOf(before)
    ensures exists k :: Wants(after, k) && !Wants(before, k)
  {
    CountInsert(before, ev, Reads);
    CountInsert(before, ev, Writes);
    CountInsert(before, ev, Closes);
    assert (Wants(after, Reads) && !Wants(before, Reads)) || (Wants(after, Writes) && !Wants(before, Writes))
           || (Wants(after, Closes) && !Wants(before, Closes));
  }

  /** A delete of what the kernel does not have takes the mark of an add away. */
  lemma {:induction false} DelUnmarks(script: seq<Op>, ev: Event, k: Kind)
    requires ev.fd >= 0
    requires Wants(Registered(script, ev.fd), k) && !Wants(Registered(script + [DelEv(ev)], ev.fd), k)
    ensures MarkOn(script + [DelEv(ev)], ev.fd, k) == if Wants(AtDispatch(script, ev.fd), k) then ToDel else Untouched
  {
    var next := script + [DelEv(ev)];
    assert next[..|next| - 1] == script;
  }

  /** Run a script on both kinds of base and then dispatch. */
  method RunBoth(script: seq<Op>) returns (lazy: EventBase, eager: EventBase)
    ensures fresh(lazy) && fresh(eager) && lazy.deferred && !eager.deferred && lazy.Valid() && eager.Valid()
    ensures forall fd: nat :: lazy.EventsOn(fd) == eager.EventsOn(fd) == Registered(script, fd)
    ensures forall fd: nat :: InterestIn(lazy.kernel, fd) == InterestIn(eager.kernel, fd) ==
              InterestOf(Registered(script, fd))
  {
    lazy := new EventBase(true);
    eager := new EventBase(false);
    for i := 0 to |script|
      invariant fresh(lazy) && fresh(eager) && lazy != eager && lazy.Valid() && eager.Valid()
      invariant forall fd: nat :: lazy.EventsOn(fd) == Registered(script[..i], fd)
      invariant forall fd: nat :: eager.EventsOn(fd) == Registered(script[..i], fd)
    {
      assert script[..i + 1][..i] == script[..i];
      Step(lazy, script[i]);
      Step(eager, script[i]);
    }
    assert script[..|script|] == script;
    lazy.FlushChanges();
    ImmediateInStep(eager);
  }

  /** The kernel may have lost, or kept, any descriptors behind the base's back (they were closed and
      opened again, or duplicated). Exactly which descriptors are right after the next dispatch: those
      with a pending change that is not a no-op, and those that were right already. */
  method DispatchAfterDisturbance(base: EventBase, disturbed: map<nat, Ev>) returns (k: map<nat, Ev>)
    requires base.Valid()
    ensures forall fd: nat ::
              InterestIn(k, fd) == InterestOf(base.EventsOn(fd)) <==>
                (fd in base.io && base.io[fd].idxplus1 <= |base.changes| && Acts(fd, base.io, base.changes))
                || InterestIn(disturbed, fd) == InterestOf(base.EventsOn(fd))
    ensures forall fd: nat ::
              (fd in base.io && base.io[fd].idxplus1 <= |base.changes| && Acts(fd, base.io, base.changes))
              || InterestIn(k, fd) == InterestIn(disturbed, fd)
  {
    AllSane(base.deferred, base.io, base.changes, base.kernel);
    k := ApplyList(base.io, base.changes, disturbed);
    forall fd: nat
      ensures InterestIn(k, fd) == InterestOf(base.EventsOn(fd)) <==>
                (fd in base.io && base.io[fd].idxplus1 <= |base.changes| && Acts(fd, base.io, base.changes))
                || InterestIn(disturbed, fd) == InterestOf(base.EventsOn(fd))
    {
      if fd in base.io {
        assert IoOk(fd, base.io[fd]) && FdSynced(fd, base.io[fd], base.changes, base.kernel);
      }
    }
  }

  /** Is some event of the descriptor marked after the script? */
  ghost predicate Marked(script: seq<Op>, fd: nat) {
    exists k :: MarkOn(script, fd, k) != Untouched
  }

  /** Whatever the kernel lost or kept since the last dispatch, exactly these descriptors are right after the
      next: those on which the script leaves a mark, and those that were right anyhow. */
  method DispatchAfterScript(script: seq<Op>, disturbed: map<nat, Ev>) returns (k: map<nat, Ev>)
    ensures forall fd: nat ::
              InterestIn(k, fd) == InterestOf(Registered(script, fd)) <==>
                Marked(script, fd) || InterestIn(disturbed, fd) == InterestOf(Registered(script, fd))
    ensures forall fd: nat :: !Marked(script, fd) ==> InterestIn(k, fd) == InterestIn(disturbed, fd)
  {
    var base := RunDeferred(script);
    k := DispatchAfterDisturbance(base, disturbed);
    forall fd: nat
      ensures Marked(script, fd) <==>
                fd in base.io && base.io[fd].idxplus1 <= |base.changes| && Acts(fd, base.io, base.changes)
    {
      MarkedActs(base, script, fd);
    }
  }

  lemma {:induction false} MarkedActs(base: EventBase, script: seq<Op>, fd: nat)
    requires base.Valid() && Tracks(base, script)
    ensures Marked(script, fd) <==>
              fd in base.io && base.io[fd].idxplus1 <= |base.changes| && Acts(fd, base.io, base.changes)
  {
    assert forall k :: PendingOn(base.io, base.changes, fd, k) == Code(MarkOn(script, fd, k));
    if fd in base.io && 0 < base.io[fd].idxplus1 <= |base.changes| {
      var ch := base.changes[base.io[fd].idxplus1 - 1];
      assert NoOp(ch) <==> DeltaOf(ch, Reads) == 0 && DeltaOf(ch, Writes) == 0 && DeltaOf(ch, Closes) == 0;
      assert PendingOn(base.io, base.changes, fd, Reads) == DeltaOf(ch, Reads);
      assert PendingOn(base.io, base.changes, fd, Writes) == DeltaOf(ch, Writes);
      assert PendingOn(base.io, base.changes, fd, Closes) == DeltaOf(ch, Closes);
    }
  }

  /** If the last operation on a descriptor since the last dispatch that told the backend was an add, its
      interest is right after the next dispatch, whatever the kernel has. */
  method AddSurvives(script: seq<Op>, fd: nat, disturbed: map<nat, Ev>) returns (k: map<nat, Ev>)
    requires LastTold(script, fd) == ToAdd
    ensures InterestIn(k, fd) == InterestOf(Registered(script, fd))
  {
    k := DispatchAfterScript(script, disturbed);
    AddMarks(script, fd);
    ghost var kind :| MarkOn(script, fd, kind) == ToAdd;
    assert Marked(script, fd);
  }
}
