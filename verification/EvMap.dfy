/** The per-descriptor event counts, the list of pending changes, and the kernel's interest
    list that they drive. */
module EvMap {
  import opened EpollTable

  datatype Kind = Reads | Writes | Closes

  predicate Has(e: Ev, k: Kind) {
    match k
    case Reads => e.r
    case Writes => e.w
    case Closes => e.c
  }

  datatype Event = Event(id: nat, fd: int, what: Ev)

  /** The record of one descriptor: counts, events, and the place (plus one) of its entry in the
      list of changes. */
  datatype Io = Io(nread: nat, nwrite: nat, nclose: nat, events: seq<Event>, idxplus1: nat) {
    function Counted(): Ev {
      Ev(nread > 0, nwrite > 0, nclose > 0)
    }
  }

  const MAX_COUNT: nat := 0xffff

  /** How many events of a list ask for k? */
  function CountOf(es: seq<Event>, k: Kind): nat {
    if es == [] then 0 else (if Has(es[0].what, k) then 1 else 0) + CountOf(es[1..], k)
  }

  /** The events that some registered event asks for. */
  function InterestOf(es: seq<Event>): Ev {
    Ev(CountOf(es, Reads) > 0, CountOf(es, Writes) > 0, CountOf(es, Closes) > 0)
  }

  lemma {:induction false} CountPositive(es: seq<Event>, k: Kind)
    ensures CountOf(es, k) > 0 <==> exists i :: 0 <= i < |es| && Has(es[i].what, k)
  {
    if es != [] {
      CountPositive(es[1..], k);
      if CountOf(es[1..], k) > 0 {
        var i :| 0 <= i < |es[1..]| && Has(es[1..][i].what, k);
        assert Has(es[i + 1].what, k);
      }
      if i :| 0 < i < |es| && Has(es[i].what, k) {
        assert Has(es[1..][i - 1].what, k);
      }
    }
  }

  lemma {:induction false} CountInsert(es: seq<Event>, e: Event, k: Kind)
    ensures CountOf([e] + es, k) == CountOf(es, k) + if Has(e.what, k) then 1 else 0
  {
    assert ([e] + es)[1..] == es;
  }

  function Without(es: seq<Event>, e: Event): seq<Event> {
    if es == [] then [] else if es[0] == e then es[1..] else [es[0]] + Without(es[1..], e)
  }

  lemma {:induction false} CountWithout(es: seq<Event>, e: Event, k: Kind)
    requires e in es
    ensures CountOf(Without(es, e), k) == CountOf(es, k) - if Has(e.what, k) then 1 else 0
  {
    if es[0] != e {
      CountWithout(es[1..], e, k);
      CountInsert(Without(es[1..], e), es[0], k);
    }
  }

  // ----- the kernel

  datatype Errno = Ok | ENOENT | EEXIST

  /** epoll_ctl on one descriptor of an interest list. */
  function EpollCtl(kernel: map<nat, Ev>, op: CtlOp, fd: nat, ev: Ev): (map<nat, Ev>, Errno) {
    match op
    case CtlAdd => if fd in kernel then (kernel, EEXIST) else (kernel[fd := ev], Ok)
    case CtlMod => if fd in kernel then (kernel[fd := ev], Ok) else (kernel, ENOENT)
    case CtlDel => if fd in kernel then (kernel - {fd}, Ok) else (kernel, ENOENT)
    case _ => (kernel, ENOENT)
  }

  function InterestIn(kernel: map<nat, Ev>, fd: nat): Ev {
    if fd in kernel then kernel[fd] else NONE
  }

  /** Apply one change: look the operation up, and retry it if the kernel had lost the
      descriptor (a failed modify becomes an add) or still had it (a failed add becomes a
      modify). */
  method ApplyOneChange(kernel: map<nat, Ev>, ch: Change) returns (kernel': map<nat, Ev>, ok: bool)
    requires Sane(ch)
    ensures ok
    ensures forall fd :: fd != ch.fd ==>
              (fd in kernel' <==> fd in kernel) && InterestIn(kernel', fd) == InterestIn(kernel, fd)
    ensures NoOp(ch) ==> kernel' == kernel
    ensures !NoOp(ch) ==> (ch.fd in kernel' <==> Wanted(ch) != NONE) && InterestIn(kernel', ch.fd) == Wanted(ch)
  {
    TableIsRule(ch);
    var row := OpTable(Index(ch));
    if row.events == NONE {
      assert row.op == CtlNone;
      return kernel, true;
    }
    var (k1, err) := EpollCtl(kernel, row.op, ch.fd, row.events);
    if err == Ok {
      return k1, true;
    }
    kernel', ok := kernel, false;
    if row.op == CtlMod && err == ENOENT {
      var (k2, err2) := EpollCtl(kernel, CtlAdd, ch.fd, row.events);
      kernel', ok := k2, err2 == Ok;
    } else if row.op == CtlAdd && err == EEXIST {
      var (k2, err2) := EpollCtl(kernel, CtlMod, ch.fd, row.events);
      kernel', ok := k2, err2 == Ok;
    } else if row.op == CtlDel && err == ENOENT {
      ok := true;
    }
  }

  /** Whatever the kernel's view of the descriptor was, a change ends in the wanted set exactly if
      it is not a no-op or the wanted set was there already. */
  method ApplyFromAnyKernel(kernel: map<nat, Ev>, ch: Change) returns (kernel': map<nat, Ev>)
    requires Sane(ch)
    ensures InterestIn(kernel', ch.fd) == Wanted(ch) <==> !NoOp(ch) || InterestIn(kernel, ch.fd) == ch.was
  {
    var ok;
    kernel', ok := ApplyOneChange(kernel, ch);
  }

  // ----- the maps of an event base

  /** The counts of a record are those of its events. */
  ghost predicate IoOk(fd: nat, io: Io) {
    && io.nread == CountOf(io.events, Reads) <= MAX_COUNT
    && io.nwrite == CountOf(io.events, Writes) <= MAX_COUNT
    && io.nclose == CountOf(io.events, Closes) <= MAX_COUNT
    && (forall i :: 0 <= i < |io.events| ==> io.events[i].fd == fd)
  }

  /** The record of the descriptor of change i points back at it. */
  ghost predicate Indexed(io: map<nat, Io>, changes: seq<Change>, i: nat)
    requires i < |changes|
  {
    changes[i].fd in io && io[changes[i].fd].idxplus1 == i + 1
  }

  /** The changes and the records point at each other. */
  ghost predicate ListOk(io: map<nat, Io>, changes: seq<Change>) {
    && (forall i {:trigger Indexed(io, changes, i)} :: 0 <= i < |changes| ==> Indexed(io, changes, i))
    && (forall fd {:trigger io[fd]} :: fd in io && io[fd].idxplus1 > 0 ==>
          io[fd].idxplus1 <= |changes| && changes[io[fd].idxplus1 - 1].fd == fd)
  }

  /** What the kernel has, changed as the entry at idxplus1 says (if there is one), is goal. */
  ghost predicate LeadsTo(fd: nat, idxplus1: nat, changes: seq<Change>, kernel: map<nat, Ev>, goal: Ev) {
    if idxplus1 == 0 then InterestIn(kernel, fd) == goal
    else
      && idxplus1 <= |changes|
      && var ch := changes[idxplus1 - 1];
         Sane(ch) && ch.was == InterestIn(kernel, fd) && Wanted(ch) == goal
  }

  ghost predicate FdSynced(fd: nat, io: Io, changes: seq<Change>, kernel: map<nat, Ev>) {
    LeadsTo(fd, io.idxplus1, changes, kernel, io.Counted())
  }

  /** The kernel knows only descriptors with records, each with some event. */
  ghost predicate KernelOk(io: map<nat, Io>, kernel: map<nat, Ev>) {
    forall fd {:trigger fd in kernel} :: fd in kernel ==> fd in io && kernel[fd] != NONE
  }

  ghost predicate BaseOk(deferred: bool, io: map<nat, Io>, changes: seq<Change>, kernel: map<nat, Ev>) {
    && ListOk(io, changes)
    && (forall fd {:trigger io[fd]} :: fd in io ==> IoOk(fd, io[fd]) && FdSynced(fd, io[fd], changes, kernel))
    && KernelOk(io, kernel)
    && (!deferred ==> changes == [])
  }

  /** The change pending for a descriptor that is not a no-op, if there is one. */
  ghost predicate Acts(fd: nat, io: map<nat, Io>, changes: seq<Change>)
    requires fd in io && io[fd].idxplus1 <= |changes|
  {
    io[fd].idxplus1 > 0 && !NoOp(changes[io[fd].idxplus1 - 1])
  }

  /** Apply a list of changes, whatever the kernel has: exactly the descriptors with a change that is not
      a no-op get the set that it wants. */
  method ApplyList(ghost io: map<nat, Io>, changes: seq<Change>, kernel: map<nat, Ev>) returns (k: map<nat, Ev>)
    requires ListOk(io, changes) && forall i :: 0 <= i < |changes| ==> Sane(changes[i])
    ensures forall fd {:trigger io[fd]} :: fd in io ==>
              InterestIn(k, fd) ==
                if Acts(fd, io, changes) then Wanted(changes[io[fd].idxplus1 - 1]) else InterestIn(kernel, fd)
    ensures forall fd :: fd !in io ==> (fd in k <==> fd in kernel) && InterestIn(k, fd) == InterestIn(kernel, fd)
    ensures KernelOk(io, kernel) ==> KernelOk(io, k)
  {
    k := kernel;
    for i := 0 to |changes|
      invariant KernelOk(io, kernel) ==> KernelOk(io, k)
      invariant forall fd {:trigger io[fd]} :: fd in io ==>
                  InterestIn(k, fd) ==
                    if Acts(fd, io, changes) && io[fd].idxplus1 <= i then Wanted(changes[io[fd].idxplus1 - 1])
                    else InterestIn(kernel, fd)
      invariant forall fd :: fd !in io ==> (fd in k <==> fd in kernel) && InterestIn(k, fd) == InterestIn(kernel, fd)
    {
      var ch := changes[i];
      assert Indexed(io, changes, i);
      ghost var before := k;
      var ok;
      k, ok := ApplyOneChange(k, ch);
      OneApplied(io, changes, kernel, before, k, i);
    }
  }

  lemma {:induction false} OneApplied(io: map<nat, Io>, changes: seq<Change>, kernel: map<nat, Ev>, k: map<nat,
                                      Ev>, k': map<nat, Ev>, i: nat)
    requires ListOk(io, changes) && i < |changes|
    requires forall fd {:trigger io[fd]} :: fd in io ==>
               InterestIn(k, fd) ==
                 if Acts(fd, io, changes) && io[fd].idxplus1 <= i then Wanted(changes[io[fd].idxplus1 - 1])
                 else InterestIn(kernel, fd)
    requires forall fd :: fd != changes[i].fd ==> InterestIn(k', fd) == InterestIn(k, fd)
    requires NoOp(changes[i]) ==> k' == k
    requires !NoOp(changes[i]) ==> InterestIn(k', changes[i].fd) == Wanted(changes[i])
    ensures forall fd {:trigger io[fd]} :: fd in io ==>
              InterestIn(k', fd) ==
                if Acts(fd, io, changes) && io[fd].idxplus1 <= i + 1 then Wanted(changes[io[fd].idxplus1 - 1])
                else InterestIn(kernel, fd)
  {
    var ch := changes[i];
    assert Indexed(io, changes, i);
    forall fd | fd in io
      ensures InterestIn(k', fd) ==
                if Acts(fd, io, changes) && io[fd].idxplus1 <= i + 1 then Wanted(changes[io[fd].idxplus1 - 1])
                else InterestIn(kernel, fd)
    {
      if fd != ch.fd {
        assert io[fd].idxplus1 != i + 1;
      }
    }
  }

  lemma {:induction false} AllSane(deferred: bool, io: map<nat, Io>, changes: seq<Change>, kernel: map<nat, Ev>)
    requires BaseOk(deferred, io, changes, kernel)
    ensures forall i :: 0 <= i < |changes| ==> Sane(changes[i])
  {
    forall i | 0 <= i < |changes|
      ensures Sane(changes[i])
    {
      var fd := changes[i].fd;
      assert Indexed(io, changes, i);
      assert FdSynced(fd, io[fd], changes, kernel);
    }
  }

  /** A record with one more event. */
  function Plus(io: Io, ev: Event): Io {
    Io(io.nread + (if ev.what.r then 1 else 0), io.nwrite + (if ev.what.w then 1 else 0),
       io.nclose + (if ev.what.c then 1 else 0), [ev] + io.events, io.idxplus1)
  }

  /** The events whose count becomes 1. */
  function Newly(io: Io, ev: Event): Ev {
    Ev(ev.what.r && io.nread == 0, ev.what.w && io.nwrite == 0, ev.what.c && io.nclose == 0)
  }

  lemma {:induction false} PlusRight(fd: nat, io: Io, ev: Event)
    requires IoOk(fd, io) && ev.fd == fd
    ensures var io' := Plus(io, ev);
            && io'.Counted() == Union(io.Counted(), Newly(io, ev))
            && (Newly(io, ev) == NONE <==> InterestOf([ev] + io.events) == InterestOf(io.events))
            && (forall k :: Has(Newly(io, ev), k) <==>
                  Has(InterestOf([ev] + io.events), k) && !Has(InterestOf(io.events), k))
            && (Overflows(io.events, ev.what) <==>
                io'.nread > MAX_COUNT || io'.nwrite > MAX_COUNT || io'.nclose > MAX_COUNT)
            && (!Overflows(io.events, ev.what) ==> IoOk(fd, io'))
  {
    CountInsert(io.events, ev, Reads);
    CountInsert(io.events, ev, Writes);
    CountInsert(io.events, ev, Closes);
    assert Has(ev.what, Reads) == ev.what.r && Has(ev.what, Writes) == ev.what.w && Has(ev.what, Closes) == ev.what.c;
  }

  ghost predicate Overflows(es: seq<Event>, what: Ev) {
    exists k :: Has(what, k) && CountOf(es, k) >= MAX_COUNT
  }

  ghost predicate KernelSame(kernel: map<nat, Ev>, kernel': map<nat, Ev>, fd: nat) {
    && (forall f {:trigger f in kernel'} :: f != fd ==>
        (f in kernel' <==> f in kernel) && InterestIn(kernel', f) == InterestIn(kernel, f))
    && (fd in kernel' ==> kernel'[fd] != NONE)
  }

  lemma {:induction false} ListOkUpdate(io: map<nat, Io>, changes: seq<Change>, fd: nat, rec: Io, io': map<nat, Io>)
    requires ListOk(io, changes) && fd in io && rec.idxplus1 == io[fd].idxplus1 && io' == io[fd := rec]
    ensures ListOk(io', changes)
  {
    forall i | 0 <= i < |changes|
      ensures Indexed(io', changes, i)
    {
      assert Indexed(io, changes, i);
    }
    forall f | f in io' && io'[f].idxplus1 > 0
      ensures io'[f].idxplus1 <= |changes| && changes[io'[f].idxplus1 - 1].fd == f
    {
      assert io'[f].idxplus1 == io[f].idxplus1;
    }
  }

  lemma {:induction false} Flushed(deferred: bool, io0: map<nat, Io>, io: map<nat, Io>, kernel: map<nat, Ev>)
    requires forall fd {:trigger io0[fd]} :: fd in io0 ==>
               IoOk(fd, io0[fd]) && InterestIn(kernel, fd) == io0[fd].Counted()
    requires io.Keys == io0.Keys && KernelOk(io0, kernel)
    requires forall fd {:trigger io[fd]} :: fd in io ==> io[fd] == io0[fd].(idxplus1 := 0)
    ensures BaseOk(deferred, io, [], kernel)
    ensures forall fd: nat :: InterestIn(kernel, fd) == InterestOf(if fd in io then io[fd].events else [])
  {
    forall fd | fd in io
      ensures IoOk(fd, io[fd]) && FdSynced(fd, io[fd], [], kernel)
      ensures InterestIn(kernel, fd) == InterestOf(io[fd].events)
    {
      assert io[fd] == io0[fd].(idxplus1 := 0);
    }
  }

  lemma {:induction false} EntryNew(io: map<nat, Io>, changes: seq<Change>, fd: nat, ch: Change)
    requires ListOk(io, changes) && fd in io && io[fd].idxplus1 == 0 && ch.fd == fd
    ensures ListOk(io[fd := io[fd].(idxplus1 := |changes| + 1)], changes + [ch])
    ensures OthersSame(io, changes, io[fd := io[fd].(idxplus1 := |changes| + 1)], changes + [ch], fd)
  {
    var io', changes' := io[fd := io[fd].(idxplus1 := |changes| + 1)], changes + [ch];
    forall i | 0 <= i < |changes'|
      ensures Indexed(io', changes', i)
    {
      if i < |changes| {
        assert Indexed(io, changes, i) && changes'[i] == changes[i];
      }
    }
    forall f | f in io' && io'[f].idxplus1 > 0
      ensures io'[f].idxplus1 <= |changes'| && changes'[io'[f].idxplus1 - 1].fd == f
    {
      if f != fd {
        assert io'[f] == io[f];
      }
    }
  }

  lemma {:induction false} EntrySet(io0: map<nat, Io>, changes0: seq<Change>, io: map<nat, Io>,
                                    changes: seq<Change>, changes': seq<Change>,
                                    fd: nat, idx: nat, ch: Change)
    requires ListOk(io, changes) && fd in io && idx < |changes| && io[fd].idxplus1 == idx + 1
    requires ch.fd == fd && changes' == changes[idx := ch] && OthersSame(io0, changes0, io, changes, fd)
    ensures ListOk(io, changes') && OthersSame(io0, changes0, io, changes', fd)
  {
    assert changes[idx].fd == fd;
    forall i | 0 <= i < |changes'|
      ensures Indexed(io, changes', i)
    {
      assert Indexed(io, changes, i);
    }
    forall i | 0 <= i < |changes0| && changes0[i].fd != fd
      ensures changes'[i] == changes0[i]
    {
      assert changes[i] == changes0[i];
    }
    forall f | f in io && io[f].idxplus1 > 0
      ensures io[f].idxplus1 <= |changes'| && changes'[io[f].idxplus1 - 1].fd == f
    {
      var i := io[f].idxplus1 - 1;
      assert changes[i].fd == f;
    }
  }

  lemma {:induction false} EmptyRecord(deferred: bool, io: map<nat, Io>, changes: seq<Change>, kernel: map<nat, Ev>,
                                       fd: nat)
    requires BaseOk(deferred, io, changes, kernel) && fd !in io
    ensures BaseOk(deferred, io[fd := Io(0, 0, 0, [], 0)], changes, kernel)
  {
    var io' := io[fd := Io(0, 0, 0, [], 0)];
    forall i | 0 <= i < |changes|
      ensures Indexed(io', changes, i)
    {
      assert Indexed(io, changes, i);
    }
    forall f | f in io'
      ensures IoOk(f, io'[f]) && FdSynced(f, io'[f], changes, kernel)
    {
      assert f != fd ==> io'[f] == io[f];
    }
  }

  /** Nothing changes for another descriptor. */
  lemma {:induction false} OtherFd(f: nat, io: map<nat, Io>, changes: seq<Change>, kernel: map<nat, Ev>,
                                   io': map<nat, Io>, changes': seq<Change>, kernel': map<nat, Ev>, fd: nat)
    requires f != fd && f in io && f in io' && io'[f] == io[f] && FdSynced(f, io[f], changes, kernel)
    requires io[f].idxplus1 > 0 ==> changes[io[f].idxplus1 - 1].fd == f
    requires |changes| <= |changes'| && forall i :: 0 <= i < |changes| && changes[i].fd != fd ==>
               changes'[i] == changes[i]
    requires InterestIn(kernel', f) == InterestIn(kernel, f)
    ensures FdSynced(f, io'[f], changes', kernel')
  {
  }

  /** An update of one record, its entry and its descriptor keeps the base consistent. */
  lemma {:induction false} Restore(deferred: bool, io: map<nat, Io>, changes: seq<Change>, kernel: map<nat, Ev>,
                io': map<nat, Io>, changes': seq<Change>, kernel': map<nat, Ev>, fd: nat)
    requires BaseOk(deferred, io, changes, kernel)
    requires ListOk(io', changes') && OthersSame(io, changes, io', changes', fd) && KernelSame(kernel, kernel', fd)
    requires fd in io' && IoOk(fd, io'[fd]) && FdSynced(fd, io'[fd], changes', kernel')
    requires !deferred ==> changes' == []
    ensures BaseOk(deferred, io', changes', kernel')
  {
    forall f | f in io'
      ensures IoOk(f, io'[f]) && FdSynced(f, io'[f], changes', kernel')
    {
      if f != fd {
        assert io'[f] == io[f];
        assert f in kernel' <==> f in kernel;
        OtherFd(f, io, changes, kernel, io', changes', kernel', fd);
      }
    }
    forall f | f in kernel'
      ensures f in io' && kernel'[f] != NONE
    {
      if f != fd {
        assert f in kernel && InterestIn(kernel', f) == InterestIn(kernel, f);
        assert f in io;
        assert io[f] == io'[f];
      }
    }
  }

  function Union(a: Ev, b: Ev): Ev {
    Ev(a.r || b.r, a.w || b.w, a.c || b.c)
  }

  function Minus(a: Ev, b: Ev): Ev {
    Ev(a.r && !b.r, a.w && !b.w, a.c && !b.c)
  }

  /** Nothing changed for descriptors other than fd. */
  ghost predicate OthersSame(io: map<nat, Io>, changes: seq<Change>, io': map<nat, Io>, changes': seq<Change>,
                             fd: nat) {
    && (forall f {:trigger io'[f]} {:trigger io[f]} :: f != fd ==>
          (f in io <==> f in io') && (f in io ==> io'[f] == io[f]))
    && |changes| <= |changes'|
    && (forall i :: 0 <= i < |changes| && changes[i].fd != fd ==> changes'[i] == changes[i])
  }

  /** An entry after an add. */
  function AddTo(ch: Change, events: Ev): Change {
    ch.(read := if events.r then EV_CHANGE_ADD else ch.read,
        write := if events.w then EV_CHANGE_ADD else ch.write,
        close := if events.c then EV_CHANGE_ADD else ch.close)
  }

  /** An entry after a delete: a delete of something that was not set undoes an add instead. */
  function DelFrom(ch: Change, events: Ev): Change {
    ch.(read := if events.r then (if ch.was.r then EV_CHANGE_DEL else 0) else ch.read,
        write := if events.w then (if ch.was.w then EV_CHANGE_DEL else 0) else ch.write,
        close := if events.c then (if ch.was.c then EV_CHANGE_DEL else 0) else ch.close)
  }

  /** Coalescing an add into an entry adds to what it leads to, whatever is pending in it. */
  lemma AddToWants(ch: Change, events: Ev)
    requires Sane(ch)
    ensures var ch' := AddTo(ch, events);
            Sane(ch') && ch'.fd == ch.fd && ch'.was == ch.was && Wanted(ch') == Union(Wanted(ch), events)
  {
  }

  lemma DelFromWants(ch: Change, events: Ev)
    requires Sane(ch)
    ensures var ch' := DelFrom(ch, events);
            Sane(ch') && ch'.fd == ch.fd && ch'.was == ch.was && Wanted(ch') == Minus(Wanted(ch), events)
  {
  }

  /** The change of one event that an entry holds. */
  function DeltaOf(ch: Change, k: Kind): Delta {
    match k
    case Reads => ch.read
    case Writes => ch.write
    case Closes => ch.close
  }

  /** An add is noted whatever the kernel is believed to have, since a delete before it may fail. */
  lemma AddIsNoted(ch: Change, events: Ev, k: Kind)
    ensures DeltaOf(AddTo(ch, events), k) == if Has(events, k) then EV_CHANGE_ADD else DeltaOf(ch, k)
    ensures events != NONE ==> !NoOp(AddTo(ch, events))
  {
  }

  /** A delete is noted only for what the kernel is believed to have, and cancels an add of anything else. */
  lemma DelIsNoted(ch: Change, events: Ev, k: Kind)
    ensures DeltaOf(DelFrom(ch, events), k) ==
              if !Has(events, k) then DeltaOf(ch, k) else if Has(ch.was, k) then EV_CHANGE_DEL else 0
  {
  }

  /** The change of one event that is pending on a descriptor. */
  ghost function PendingOn(io: map<nat, Io>, changes: seq<Change>, fd: nat, k: Kind): Delta {
    if fd in io && 0 < io[fd].idxplus1 <= |changes| then DeltaOf(changes[io[fd].idxplus1 - 1], k) else 0
  }

  /** What is pending on fd after events have been added, or deleted; has is what the kernel has. */
  ghost predicate Noted(io: map<nat, Io>, changes: seq<Change>, io': map<nat, Io>, changes': seq<Change>,
                        fd: nat, has: Ev, events: Ev, adding: bool) {
    forall k ::
      PendingOn(io', changes', fd, k) ==
        if !Has(events, k) then PendingOn(io, changes, fd, k)
        else if adding then EV_CHANGE_ADD
        else if Has(has, k) then EV_CHANGE_DEL
        else 0
  }

  lemma {:induction false} PendingElsewhere(io: map<nat, Io>, changes: seq<Change>, io': map<nat, Io>,
                                            changes': seq<Change>, fd: nat, f: nat, k: Kind)
    requires ListOk(io, changes) && OthersSame(io, changes, io', changes', fd) && f != fd
    ensures PendingOn(io', changes', f, k) == PendingOn(io, changes, f, k)
  {
    if f in io {
      assert io'[f] == io[f];
    }
  }

  lemma {:induction false} AllElsewhere(io: map<nat, Io>, changes: seq<Change>, io': map<nat, Io>,
                                        changes': seq<Change>, fd: nat)
    requires ListOk(io, changes) && OthersSame(io, changes, io', changes', fd)
    ensures forall f: nat, k :: f != fd ==> PendingOn(io', changes', f, k) == PendingOn(io, changes, f, k)
  {
    forall f: nat, k | f != fd
      ensures PendingOn(io', changes', f, k) == PendingOn(io, changes, f, k)
    {
      PendingElsewhere(io, changes, io', changes', fd, f, k);
    }
  }

  lemma {:induction false} SameEntry(io: map<nat, Io>, changes: seq<Change>, fd: nat, rec: Io)
    requires fd in io && rec.idxplus1 == io[fd].idxplus1
    ensures forall f: nat, k :: PendingOn(io[fd := rec], changes, f, k) == PendingOn(io, changes, f, k)
  {
  }

  /** A record with one event less. */
  function Less(io: Io, ev: Event): Io
    requires (ev.what.r ==> io.nread > 0) && (ev.what.w ==> io.nwrite > 0) && (ev.what.c ==> io.nclose > 0)
  {
    Io(io.nread - (if ev.what.r then 1 else 0), io.nwrite - (if ev.what.w then 1 else 0),
       io.nclose - (if ev.what.c then 1 else 0), Without(io.events, ev), io.idxplus1)
  }

  /** The events whose count becomes 0. */
  function NoLonger(io: Io, ev: Event): Ev {
    Ev(ev.what.r && io.nread == 1, ev.what.w && io.nwrite == 1, ev.what.c && io.nclose == 1)
  }

  lemma {:induction false} WithoutIn(es: seq<Event>, e: Event)
    ensures forall x :: x in Without(es, e) ==> x in es
  {
    if es != [] {
      WithoutIn(es[1..], e);
    }
  }

  lemma {:induction false} LessRight(fd: nat, io: Io, ev: Event)
    requires IoOk(fd, io) && ev in io.events
    ensures (ev.what.r ==> io.nread > 0) && (ev.what.w ==> io.nwrite > 0) && (ev.what.c ==> io.nclose > 0)
    ensures var io' := Less(io, ev);
            && IoOk(fd, io') && io'.Counted() == Minus(io.Counted(), NoLonger(io, ev))
            && (NoLonger(io, ev) == NONE <==> InterestOf(io'.events) == InterestOf(io.events))
            && (forall k :: Has(NoLonger(io, ev), k) <==>
                  Has(InterestOf(io.events), k) && !Has(InterestOf(io'.events), k))
  {
    CountWithout(io.events, ev, Reads);
    CountWithout(io.events, ev, Writes);
    CountWithout(io.events, ev, Closes);
    WithoutIn(io.events, ev);
    var es := Without(io.events, ev);
    forall i | 0 <= i < |es|
      ensures es[i].fd == fd
    {
      assert es[i] in io.events;
    }
    assert Has(ev.what, Reads) == ev.what.r && Has(ev.what, Writes) == ev.what.w && Has(ev.what, Closes) == ev.what.c;
  }

  class EventBase {
    /** Which backend: with a list of changes, or with every change applied at once. */
    const deferred: bool
    var io: map<nat, Io>
    var changes: seq<Change>
    var kernel: map<nat, Ev>

    ghost predicate Valid()
      reads this
    {
      BaseOk(deferred, io, changes, kernel)
    }

    constructor (deferred: bool)
      ensures Valid() && this.deferred == deferred && io == map[] && kernel == map[]
    {
      this.deferred, io, changes, kernel := deferred, map[], [], map[];
    }

    /** The events registered on a descriptor. */
    ghost function EventsOn(fd: nat): seq<Event>
      reads this
    {
      if fd in io then io[fd].events else []
    }

    /** The place of the entry for fd in the list of changes, made if there is none. */
    method GetOrConstruct(fd: nat, was: Ev) returns (idx: nat)
      requires fd in io && ListOk(io, changes)
      modifies this`io, this`changes
      ensures ListOk(io, changes) && idx < |changes| && OthersSame(old(io), old(changes), io, changes, fd)
      ensures fd in io && io[fd] == old(io)[fd].(idxplus1 := idx + 1)
      ensures changes[idx] == if old(io)[fd].idxplus1 == 0 then Change(fd, was, 0, 0, 0)
                              else old(changes)[old(io)[fd].idxplus1 - 1]
    {
      if io[fd].idxplus1 == 0 {
        idx := |changes|;
        EntryNew(io, changes, fd, Change(fd, was, 0, 0, 0));
        changes := changes + [Change(fd, was, 0, 0, 0)];
        io := io[fd := io[fd].(idxplus1 := idx + 1)];
      } else {
        idx := io[fd].idxplus1 - 1;
      }
    }

    /** Put an updated change in the entry of fd. */
    method SetEntry(idx: nat, fd: nat, ch: Change, goal: Ev, ghost io0: map<nat, Io>, ghost changes0: seq<Change>)
      requires fd in io && ListOk(io, changes) && idx < |changes| && OthersSame(io0, changes0, io, changes, fd)
      && io[fd].idxplus1 == idx + 1 && ch.fd == fd
      requires Sane(ch) && ch.was == InterestIn(kernel, fd) && Wanted(ch) == goal
      modifies this`changes
      ensures ListOk(io, changes) && OthersSame(io0, changes0, io, changes, fd)
      ensures LeadsTo(fd, idx + 1, changes, kernel, goal) && changes == old(changes)[idx := ch]
    {
      ghost var before := changes;
      changes := changes[idx := ch];
      EntrySet(io0, changes0, io, before, changes, fd, idx, ch);
    }

    /** Queue an add of events; was is what the descriptor had. */
    method ChangelistAdd(fd: nat, was: Ev, events: Ev)
      requires fd in io && ListOk(io, changes) && FdSynced(fd, io[fd], changes, kernel) && was == io[fd].Counted()
      modifies this`io, this`changes
      ensures ListOk(io, changes) && OthersSame(old(io), old(changes), io, changes, fd)
      ensures fd in io && io[fd].idxplus1 > 0 && io[fd] == old(io)[fd].(idxplus1 := io[fd].idxplus1)
      ensures LeadsTo(fd, io[fd].idxplus1, changes, kernel, Union(was, events))
      ensures Noted(old(io), old(changes), io, changes, fd, InterestIn(kernel, fd), events, true)
    {
      ghost var io0, changes0 := io, changes;
      var idx := GetOrConstruct(fd, was);
      AddToWants(changes[idx], events);
      forall k {
        AddIsNoted(changes[idx], events, k);
      }
      SetEntry(idx, fd, AddTo(changes[idx], events), Union(was, events), io0, changes0);
    }

    /** Queue a delete of events. */
    method ChangelistDel(fd: nat, was: Ev, events: Ev)
      requires fd in io && ListOk(io, changes) && FdSynced(fd, io[fd], changes, kernel) && was == io[fd].Counted()
      modifies this`io, this`changes
      ensures ListOk(io, changes) && OthersSame(old(io), old(changes), io, changes, fd)
      ensures fd in io && io[fd].idxplus1 > 0 && io[fd] == old(io)[fd].(idxplus1 := io[fd].idxplus1)
      ensures LeadsTo(fd, io[fd].idxplus1, changes, kernel, Minus(was, events))
      ensures Noted(old(io), old(changes), io, changes, fd, InterestIn(kernel, fd), events, false)
    {
      ghost var io0, changes0 := io, changes;
      var idx := GetOrConstruct(fd, was);
      DelFromWants(changes[idx], events);
      forall k {
        DelIsNoted(changes[idx], events, k);
      }
      SetEntry(idx, fd, DelFrom(changes[idx], events), Minus(was, events), io0, changes0);
    }

    /** Tell the backend about newly wanted events. */
    method BackendAdd(fd: nat, was: Ev, events: Ev)
      requires Valid() && fd in io && was == io[fd].Counted() && events != NONE
      modifies this
      ensures Told(old(io), old(changes), old(kernel), fd, Union(was, events))
      ensures deferred ==>
                && kernel == old(kernel)
                && Noted(old(io), old(changes), io, changes, fd, InterestIn(kernel, fd), events, true)
    {
      if deferred {
        ChangelistAdd(fd, was, events);
      } else {
        var ch := AddTo(Change(fd, was, 0, 0, 0), events);
        var ok;
        kernel, ok := ApplyOneChange(kernel, ch);
      }
    }

    /** Tell the backend about events no longer wanted. */
    method BackendDel(fd: nat, was: Ev, events: Ev)
      requires Valid() && fd in io && was == io[fd].Counted() && events != NONE
      modifies this
      ensures Told(old(io), old(changes), old(kernel), fd, Minus(was, events))
      ensures deferred ==>
                && kernel == old(kernel)
                && Noted(old(io), old(changes), io, changes, fd, InterestIn(kernel, fd), events, false)
    {
      if deferred {
        ChangelistDel(fd, was, events);
      } else {
        var ch := Change(fd, was, if events.r then EV_CHANGE_DEL else 0,
                         if events.w then EV_CHANGE_DEL else 0, if events.c then EV_CHANGE_DEL else 0);
        var ok;
        kernel, ok := ApplyOneChange(kernel, ch);
      }
    }

    /** The backend was told that descriptor fd is to have the events goal; the rest is as before. */
    ghost predicate Told(io0: map<nat, Io>, changes0: seq<Change>, kernel0: map<nat, Ev>, fd: nat, goal: Ev)
      reads this
    {
      && ListOk(io, changes) && OthersSame(io0, changes0, io, changes, fd) && KernelSame(kernel0, kernel, fd)
      && fd in io0 && fd in io && io[fd] == io0[fd].(idxplus1 := io[fd].idxplus1)
      && (!deferred ==> changes == [])
      && LeadsTo(fd, io[fd].idxplus1, changes, kernel, goal)
    }

    /** Register an event: 1 if the backend had to be told, 0 if not, -1 if there are too many or the
        backend fails. */
    method AddEvent(ev: Event, fails: bool) returns (r: int)
      requires Valid()
      modifies this
      ensures Valid()
      ensures forall f: nat :: EventsOn(f) == if f == ev.fd && r >= 0 then [ev] + old(EventsOn(f)) else old(EventsOn(f))
      ensures ev.fd < 0 ==> r == 0
      ensures ev.fd >= 0 ==> -1 <= r <= 1
      ensures ev.fd >= 0 ==>
                (r == -1 <==>
                   || Overflows(old(EventsOn(ev.fd)), ev.what)
                   || (fails && InterestOf([ev] + old(EventsOn(ev.fd))) != InterestOf(old(EventsOn(ev.fd)))))
      ensures ev.fd >= 0 && r >= 0 ==>
                (r == 1 <==> InterestOf([ev] + old(EventsOn(ev.fd))) != InterestOf(old(EventsOn(ev.fd))))
      ensures deferred ==>
                && kernel == old(kernel)
                && forall f: nat, k ::
                     PendingOn(io, changes, f, k) ==
                       if Has(InterestOf(EventsOn(f)), k) && !old(Has(InterestOf(EventsOn(f)), k)) then EV_CHANGE_ADD
                       else old(PendingOn(io, changes, f, k))
    {
      if ev.fd < 0 {
        return 0;
      }
      var fd: nat := ev.fd;
      EnsureRecord(fd);
      var ctx := io[fd];
      PlusRight(fd, ctx, ev);
      var ctx' := Plus(ctx, ev);
      if ctx'.nread > MAX_COUNT || ctx'.nwrite > MAX_COUNT || ctx'.nclose > MAX_COUNT {
        return -1;
      }
      if Newly(ctx, ev) != NONE && fails {
        return -1;
      }
      r := UpdateRecord(fd, ctx', Newly(ctx, ev), true);
    }

    /** Forget an event: 1 if the backend had to be told, 0 if not, -1 for an unknown descriptor. */
    method DelEvent(ev: Event) returns (r: int)
      requires Valid() && (ev.fd >= 0 && ev.fd in io ==> ev in io[ev.fd].events)
      modifies this
      ensures Valid()
      ensures ev.fd < 0 ==> r == 0
      ensures ev.fd >= 0 && ev.fd !in old(io) ==> r == -1
      ensures forall f: nat :: EventsOn(f) == if f == ev.fd then Without(old(EventsOn(f)), ev) else old(EventsOn(f))
      ensures ev.fd >= 0 && ev.fd in old(io) ==>
                && 0 <= r <= 1
                && (r == 1 <==> InterestOf(Without(old(EventsOn(ev.fd)), ev)) != InterestOf(old(EventsOn(ev.fd))))
      ensures deferred ==>
                && kernel == old(kernel)
                && forall f: nat, k ::
                     PendingOn(io, changes, f, k) ==
                       if old(Has(InterestOf(EventsOn(f)), k)) && !Has(InterestOf(EventsOn(f)), k)
                       then (if Has(InterestIn(kernel, f), k) then EV_CHANGE_DEL else 0)
                       else old(PendingOn(io, changes, f, k))
    {
      if ev.fd < 0 {
        return 0;
      }
      var fd: nat := ev.fd;
      if fd !in io {
        return -1;
      }
      var ctx := io[fd];
      LessRight(fd, ctx, ev);
      r := UpdateRecord(fd, Less(ctx, ev), NoLonger(ctx, ev), false);
    }

    /** Store a new record for a descriptor after telling the backend of the events that became
        (or ceased to be) wanted. */
    method UpdateRecord(fd: nat, ctx': Io, res: Ev, adding: bool) returns (r: int)
      requires Valid() && fd in io && IoOk(fd, ctx') && ctx'.idxplus1 == io[fd].idxplus1
      requires ctx'.Counted() == if adding then Union(io[fd].Counted(), res) else Minus(io[fd].Counted(), res)
      modifies this
      ensures Valid() && r == if res == NONE then 0 else 1
      ensures forall f: nat :: EventsOn(f) == if f == fd then ctx'.events else old(EventsOn(f))
      ensures deferred ==>
                && kernel == old(kernel)
                && Noted(old(io), old(changes), io, changes, fd, InterestIn(kernel, fd), res, adding)
      ensures forall f: nat, k :: f != fd ==> PendingOn(io, changes, f, k) == old(PendingOn(io, changes, f, k))
    {
      ghost var io0, changes0, kernel0 := io, changes, kernel;
      var was := io[fd].Counted();
      r := Tell(fd, was, res, adding);
      var rec := ctx'.(idxplus1 := io[fd].idxplus1);
      AllElsewhere(io0, changes0, io, changes, fd);
      StoreRecord(fd, rec, io0, changes0, kernel0);
    }

    /** Tell the backend, if there is anything to tell. */
    method Tell(fd: nat, was: Ev, res: Ev, adding: bool) returns (r: int)
      requires Valid() && fd in io && was == io[fd].Counted()
      modifies this
      ensures Told(old(io), old(changes), old(kernel), fd, if adding then Union(was, res) else Minus(was, res))
      ensures r == if res == NONE then 0 else 1
      ensures deferred ==>
                && kernel == old(kernel)
                && Noted(old(io), old(changes), io, changes, fd, InterestIn(kernel, fd), res, adding)
    {
      if res == NONE {
        return 0;
      }
      if adding {
        BackendAdd(fd, was, res);
      } else {
        BackendDel(fd, was, res);
      }
      return 1;
    }

    method StoreRecord(fd: nat, rec: Io, ghost io0: map<nat, Io>, ghost changes0: seq<Change>,
                       ghost kernel0: map<nat, Ev>)
      requires BaseOk(deferred, io0, changes0, kernel0) && Told(io0, changes0, kernel0, fd, rec.Counted())
      requires IoOk(fd, rec) && rec.idxplus1 == io[fd].idxplus1
      modifies this`io
      ensures Valid() && io == old(io)[fd := rec]
      ensures forall f: nat, k :: PendingOn(io, changes, f, k) == PendingOn(old(io), changes, f, k)
    {
      var io' := io[fd := rec];
      SameEntry(io, changes, fd, rec);
      ListOkUpdate(io, changes, fd, rec, io');
      Restore(deferred, io0, changes0, kernel0, io', changes, kernel, fd);
      io := io';
    }

    /** Apply every pending change to the kernel. */
    method ApplyChanges()
      requires Valid()
      modifies this`kernel
      ensures forall fd {:trigger io[fd]} :: fd in io ==> InterestIn(kernel, fd) == io[fd].Counted()
      ensures KernelOk(io, kernel)
    {
      AllSane(deferred, io, changes, kernel);
      ghost var before := kernel;
      kernel := ApplyList(io, changes, kernel);
      forall fd | fd in io
        ensures InterestIn(kernel, fd) == io[fd].Counted()
      {
        assert FdSynced(fd, io[fd], changes, before);
      }
    }

    /** Forget every pending change. */
    method RemoveAllChanges()
      requires ListOk(io, changes)
      modifies this`io, this`changes
      ensures changes == [] && io.Keys == old(io).Keys
      ensures forall fd {:trigger io[fd]} :: fd in io ==> io[fd] == old(io)[fd].(idxplus1 := 0)
    {
      var m := io;
      for i := 0 to |changes|
        invariant m.Keys == io.Keys
        invariant forall fd {:trigger m[fd]} :: fd in io ==>
                    m[fd] == io[fd].(idxplus1 := if io[fd].idxplus1 <= i then 0 else io[fd].idxplus1)
        modifies {}
      {
        var fd := changes[i].fd;
        assert Indexed(io, changes, i);
        m := m[fd := m[fd].(idxplus1 := 0)];
      }
      io, changes := m, [];
    }

    /** What dispatch does before it waits: afterwards the kernel's interest list is the one that
        the registered events ask for. */
    method FlushChanges()
      requires Valid()
      modifies this
      ensures Valid() && changes == []
      ensures forall fd: nat :: EventsOn(fd) == old(EventsOn(fd))
      ensures forall fd: nat :: InterestIn(kernel, fd) == InterestOf(EventsOn(fd))
    {
      ApplyChanges();
      RemoveAllChanges();
      Flushed(deferred, old(io), io, kernel);
    }

    /** There is a record for the descriptor, an empty one if it is new. */
    method EnsureRecord(fd: nat)
      requires Valid()
      modifies this`io
      ensures Valid() && fd in io && forall f: nat :: EventsOn(f) == old(EventsOn(f))
      ensures forall f: nat, k :: PendingOn(io, changes, f, k) == old(PendingOn(io, changes, f, k))
    {
      if fd !in io {
        NewRecord(fd);
      }
    }

    /** Make an empty record for a descriptor. */
    method NewRecord(fd: nat)
      requires Valid() && fd !in io
      modifies this`io
      ensures Valid() && io == old(io)[fd := Io(0, 0, 0, [], 0)]
    {
      EmptyRecord(deferred, io, changes, kernel, fd);
      io := io[fd := Io(0, 0, 0, [], 0)];
    }
  }
}
