/** Whole runs of the resolver's requests. */
module RequestRuns {
  import opened Basics
  import opened RequestTable

  datatype Op = Submitting(who: nat) | Probing(who: nat, ns: nat) | Finishing(id: nat) | Dropping(k: nat)
              | Swapping(id: nat, to: int) | Resizing(max: int)

  /** Who begins a request with the operation? */
  function Began(op: Op, t: Table): Option<nat> {
    match op
    case Submitting(who) => Some(who)
    case Probing(who, ns) => if ns < |t.servers| && t.inflight < NO_ID then Some(who) else None
    case _ => None
  }

  /** Whose request ends with the operation? */
  function Ended(op: Op, t: Table): Option<nat>
    requires |t.heads| > 0
  {
    match op
    case Finishing(id) => (match Lookup(t.heads, id) case None => None case Some(r) => Some(r.who))
    case Dropping(k) => if k < |t.waiting| then Some(t.waiting[k].who) else None
    case _ => None
  }

  function Once(o: Option<nat>, w: nat): nat {
    if o == Some(w) then 1 else 0
  }

  /** Nothing more can be promoted. */
  ghost predicate Pumped(t: Table) {
    t.waiting == [] || t.inflight >= t.maxInflight || t.servers == []
  }

  /** What an operation does; one that cannot be done changes nothing. */
  ghost predicate Does(op: Op, t: Table, t': Table)
    requires |t.heads| > 0 && |t'.heads| > 0
  {
    && (forall w :: OpenIn(t', w) + Once(Ended(op, t), w) == OpenIn(t, w) + Once(Began(op, t), w))
    && |t'.servers| == |t.servers| && (!op.Resizing? ==> t'.maxInflight == t.maxInflight)
    && match op
       case Submitting(who) =>
         if t.inflight < t.maxInflight && t.servers != [] then
           && t'.waiting == t.waiting && t'.inflight == t.inflight + 1
           && exists r: Req ::
                && r.who == who && FreeIn(t, r.id) && t'.heads == Inserted(t.heads, r)
                && IsPicked(t.servers, t.serverHead, r.ns, t'.serverHead) && t'.servers == Charged(t.servers, r.ns, 1)
         else
           && t'.servers == t.servers && t'.serverHead == t.serverHead && t'.inflight == t.inflight
           && t'.heads == t.heads && |t'.waiting| == |t.waiting| + 1 && t'.waiting[..|t.waiting|] == t.waiting
           && t'.waiting[|t.waiting|].who == who
           && (t'.waiting[|t.waiting|].id == NO_ID <==> t.inflight >= t.maxInflight)
       case Probing(who, ns) =>
         if Began(op, t).Some? then
           && t'.waiting == t.waiting && t'.inflight == t.inflight + 1
           && ns < |t.servers| && t'.servers == Charged(t.servers, ns, 1)
           && (if t.inflight < t.maxInflight then exists ns0 :: IsPicked(t.servers, t.serverHead, ns0, t'.serverHead)
               else t'.serverHead == t.serverHead)
           && exists r: Req :: r.who == who && r.ns == ns && FreeIn(t, r.id) && t'.heads == Inserted(t.heads, r)
         else t' == t
       case Finishing(id) =>
         if Ended(op, t).Some? then
           && Finishes(t, id, t') && Pumped(t') && (t'.inflight < t.inflight || t'.inflight <= t'.maxInflight)
           && forall x :: In(t.heads, x) && x.id != id ==> In(t'.heads, x)
         else t' == t
       case Dropping(k) =>
         if Ended(op, t).Some? then
           && Drops(t, k, t') && Pumped(t') && (t'.inflight == t.inflight || t'.inflight <= t'.maxInflight)
           && forall x :: In(t.heads, x) ==> In(t'.heads, x)
         else t' == t
       case Swapping(id, to) =>
         if Lookup(t.heads, id).Some? && 0 <= to < |t.servers|
         then
           var r := Lookup(t.heads, id).value;
           && t' == t.(heads := t'.heads, servers := t'.servers) && Lookup(t'.heads, id) == Some(r.(ns := to))
           && (forall id': nat :: id' != id ==> Lookup(t'.heads, id') == Lookup(t.heads, id'))
           && 0 <= r.ns < |t.servers| && t'.servers == Recharge(t.servers, r.ns, to)
         else t' == t
       case Resizing(max) =>
         if max <= MAX_MAX then
           && t' == t.(heads := t'.heads, maxInflight := if max < 1 then 1 else max)
           && forall id: nat :: Lookup(t'.heads, id) == Lookup(t.heads, id)
         else t' == t
  }

  /** One operation, if it can be done now. */
  method Do(base: Base, op: Op)
    requires base.Valid()
    modifies base
    ensures base.Valid() && Does(op, old(base.Now()), base.Now())
  {
    match op
    case Submitting(who) => base.Submit(who);
    case Probing(who, ns) => Probe(base, who, ns);
    case Finishing(id) => Finish(base, id);
    case Dropping(k) => Drop(base, k);
    case Swapping(id, to) => Swap(base, id, to);
    case Resizing(max) => Resize(base, max);
  }

  method Probe(base: Base, who: nat, ns: nat)
    requires base.Valid()
    modifies base
    ensures base.Valid() && Does(Probing(who, ns), old(base.Now()), base.Now())
  {
    if ns < |base.servers| && base.inflight < NO_ID {
      base.SendProbe(who, ns);
    }
  }

  method Finish(base: Base, id: nat)
    requires base.Valid()
    modifies base
    ensures base.Valid() && Does(Finishing(id), old(base.Now()), base.Now())
  {
    var r := base.FindFromTransId(id);
    if r.Some? {
      ghost var t := base.Now();
      base.FinishInflight(id);
      FinishDoes(id, t, base.Now());
    }
  }

  lemma {:induction false} FinishDoes(id: nat, t: Table, t': Table)
    requires |t.heads| > 0 && |t'.heads| > 0 && Lookup(t.heads, id).Some?
    requires forall w :: OpenIn(t', w) + (if w == Lookup(t.heads, id).value.who then 1 else 0) == OpenIn(t, w)
    requires |t'.servers| == |t.servers| && t'.maxInflight == t.maxInflight
    requires t'.inflight < t.inflight || t'.inflight <= t'.maxInflight
    requires Finishes(t, id, t') && Pumped(t') && forall x :: In(t.heads, x) && x.id != id ==> In(t'.heads, x)
    ensures Does(Finishing(id), t, t')
  {
  }

  method Drop(base: Base, k: nat)
    requires base.Valid()
    modifies base
    ensures base.Valid() && Does(Dropping(k), old(base.Now()), base.Now())
  {
    if k < |base.waiting| {
      ghost var ids := base.FinishWaiting(k);
    }
  }

  method Swap(base: Base, id: nat, to: int)
    requires base.Valid()
    modifies base
    ensures base.Valid() && Does(Swapping(id, to), old(base.Now()), base.Now())
  {
    var r := base.FindFromTransId(id);
    if r.Some? && 0 <= to < |base.servers| {
      base.SwapNs(id, to);
    }
  }

  method Resize(base: Base, max: int)
    requires base.Valid()
    modifies base
    ensures base.Valid() && Does(Resizing(max), old(base.Now()), base.Now())
  {
    if max <= MAX_MAX {
      base.SetMaxRequestsInflight(max);
    }
  }

  /** A run: each operation leads from one state to the next, and every state is in order. */
  ghost predicate IsRun(up: seq<bool>, ops: seq<Op>, trace: seq<Table>) {
    && |trace| == |ops| + 1 && trace[0] == Start(up)
    && (forall i :: 0 <= i < |trace| ==> TableOk(trace[i]))
    && (forall i :: 0 <= i < |ops| ==> Does(ops[i], trace[i], trace[i + 1]))
  }

  /** How many requests of a person have begun, and ended, in the first n operations of a run? */
  ghost function Begun(ops: seq<Op>, trace: seq<Table>, n: nat, w: nat): nat
    requires n <= |ops| < |trace|
  {
    if n == 0 then 0 else Begun(ops, trace, n - 1, w) + Once(Began(ops[n - 1], trace[n - 1]), w)
  }

  ghost function Finished(ops: seq<Op>, trace: seq<Table>, n: nat, w: nat): nat
    requires n <= |ops| < |trace| && forall i :: 0 <= i < |trace| ==> |trace[i].heads| > 0
  {
    if n == 0 then 0 else Finished(ops, trace, n - 1, w) + Once(Ended(ops[n - 1], trace[n - 1]), w)
  }

  /** No request is lost or duplicated: at every point of every run, the requests in the table are those
      that have begun and not ended. */
  lemma {:induction false} Conserved(up: seq<bool>, ops: seq<Op>, trace: seq<Table>, n: nat, w: nat)
    requires IsRun(up, ops, trace) && n <= |ops|
    ensures OpenIn(trace[n], w) + Finished(ops, trace, n, w) == Begun(ops, trace, n, w)
  {
    if n == 0 {
      EmptyTally(trace[0].heads, OfWho(w));
    } else {
      Conserved(up, ops, trace, n - 1, w);
      assert Does(ops[n - 1], trace[n - 1], trace[n - 1 + 1]);
    }
  }

  /** Any operations in any order make a run. */
  method Run(up: seq<bool>, ops: seq<Op>) returns (base: Base, ghost trace: seq<Table>)
    ensures IsRun(up, ops, trace) && base.Valid() && base.Now() == trace[|ops|]
    ensures forall w :: OpenIn(base.Now(), w) + Finished(ops, trace, |ops|, w) == Begun(ops, trace, |ops|, w)
  {
    base := new Base(up);
    trace := [base.Now()];
    for i := 0 to |ops|
      invariant fresh(base) && |trace| == i + 1 && base.Now() == trace[i] && base.Valid()
      invariant IsRun(up, ops[..i], trace)
    {
      ghost var before := base.Now();
      Do(base, ops[i]);
      Longer(up, ops, i, trace, base.Now());
      trace := trace + [base.Now()];
    }
    assert ops[..|ops|] == ops;
    forall w
      ensures OpenIn(base.Now(), w) + Finished(ops, trace, |ops|, w) == Begun(ops, trace, |ops|, w)
    {
      Conserved(up, ops, trace, |ops|, w);
    }
  }

  lemma {:induction false} Longer(up: seq<bool>, ops: seq<Op>, i: nat, trace: seq<Table>, t: Table)
    requires i < |ops| && IsRun(up, ops[..i], trace) && TableOk(t) && Does(ops[i], trace[i], t)
    ensures IsRun(up, ops[..i + 1], trace + [t])
  {
    var ops', trace' := ops[..i + 1], trace + [t];
    forall k | 0 <= k < |ops'|
      ensures Does(ops'[k], trace'[k], trace'[k + 1])
    {
      if k < i {
        assert ops'[k] == ops[..i][k] && trace'[k] == trace[k] && trace'[k + 1] == trace[k + 1];
      }
    }
  }

  /** A waiting request with a real id: made while there was room but no server. */
  method WaitsWithId() returns (base: Base)
    ensures base.Valid() && |base.waiting| == 1 && base.waiting[0].id != NO_ID
  {
    base := new Base([]);
    EmptyTally(base.heads, All);
    base.Submit(7);
  }
}
