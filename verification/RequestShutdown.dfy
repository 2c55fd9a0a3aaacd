/** Shutting the resolver's request table down.

    The code walks the buckets, fails the first request of the bucket it is at until there is none, and
    then fails the requests that wait. But every request that ends lets waiting ones into flight, under
    ids picked at random, so that they may land in a bucket that the walk has passed. */
module RequestShutdown {
  import opened Basics
  import opened Counting
  import opened RequestTable

  /** The table, the bucket that the walk is at, whether a request has just ended so that waiting ones may
      be promoted, and who has been told. */
  datatype Walk = Walk(t: Table, b: nat, pumping: bool, failed: seq<nat>)

  function Begin(t: Table): Walk {
    Walk(t, 0, false, [])
  }

  predicate Done(w: Walk) {
    !w.pumping && w.b >= |w.t.heads| && w.t.waiting == []
  }

  /** The walk makes sense. */
  ghost predicate WalkOk(w: Walk) {
    TableOk(w.t) && w.b <= |w.t.heads|
  }

  /** May the next step use this id? Only a promotion looks at it. */
  ghost predicate Legal(w: Walk, id: nat)
    requires WalkOk(w)
  {
    w.pumping && CanPump(w.t) ==> FreeIn(w.t, id)
  }

  function Dequeued(t: Table): Table
    requires t.waiting != []
  {
    t.(waiting := t.waiting[1..], waitingCount := t.waitingCount - 1)
  }

  /** The server of a request in flight exists. */
  lemma HasServer(w: Walk)
    requires WalkOk(w) && w.b < |w.t.heads| && w.t.heads[w.b] != []
    ensures 0 <= w.t.heads[w.b][0].ns < |w.t.servers|
  {
    assert BucketOk(w.t.heads[w.b], w.b, |w.t.heads|, |w.t.servers|);
    assert ReqOk(w.t.heads[w.b][0], |w.t.servers|);
  }

  /** One step of the walk. */
  ghost function Next(w: Walk, id: nat): Walk
    requires WalkOk(w) && Legal(w, id)
  {
    if w.pumping then
      if CanPump(w.t) then w.(t := Promoted(w.t, id)) else w.(pumping := false)
    else if w.b < |w.t.heads| then
      if w.t.heads[w.b] == [] then w.(b := w.b + 1)
      else
        HasServer(w);
        Walk(Unlinked(w.t, w.b, 0), w.b, true, w.failed + [w.t.heads[w.b][0].who])
    else if w.t.waiting != [] then Walk(Dequeued(w.t), w.b, true, w.failed + [w.t.waiting[0].who])
    else w
  }

  lemma {:induction false} DequeuedIs(t: Table)
    requires t.waiting != []
    ensures Dequeued(t) == Dropped(t, 0)
  {
    assert Removed(t.waiting, 0) == t.waiting[1..];
  }

  lemma {:induction false} DequeuedOk(t: Table)
    requires TableOk(t) && t.waiting != []
    ensures TableOk(Dequeued(t))
    ensures forall w :: OpenIn(Dequeued(t), w) + (if w == t.waiting[0].who then 1 else 0) == OpenIn(t, w)
  {
  }

  lemma {:induction false} NextOk(w: Walk, id: nat)
    requires WalkOk(w) && Legal(w, id)
    ensures WalkOk(Next(w, id))
  {
    if w.pumping {
      if CanPump(w.t) {
        PromotedOk(w.t, id);
      }
    } else if w.b < |w.t.heads| {
      if w.t.heads[w.b] != [] {
        UnlinkedOk(w.t, w.b, 0);
      }
    } else if w.t.waiting != [] {
      DequeuedOk(w.t);
    }
  }

  /** The ids may be used, one for each step, and the walk comes from w to w'. */
  ghost predicate Walks(w: Walk, ids: seq<nat>, w': Walk)
    requires WalkOk(w)
    decreases |ids|
  {
    if ids == [] then w' == w
    else Legal(w, ids[0]) && (NextOk(w, ids[0]); Walks(Next(w, ids[0]), ids[1..], w'))
  }

  lemma {:induction false} WalksOk(w: Walk, ids: seq<nat>, w': Walk)
    requires WalkOk(w) && Walks(w, ids, w')
    ensures WalkOk(w')
    decreases |ids|
  {
    if ids != [] {
      NextOk(w, ids[0]);
      WalksOk(Next(w, ids[0]), ids[1..], w');
    }
  }

  lemma {:induction false} WalksOn(w: Walk, ids: seq<nat>, w1: Walk, more: seq<nat>, w2: Walk)
    requires WalkOk(w) && Walks(w, ids, w1) && WalkOk(w1) && Walks(w1, more, w2)
    ensures Walks(w, ids + more, w2)
    decreases |ids|
  {
    if ids == [] {
      assert ids + more == more;
    } else {
      assert (ids + more)[1..] == ids[1..] + more;
      NextOk(w, ids[0]);
      WalksOn(Next(w, ids[0]), ids[1..], w1, more, w2);
    }
  }

  lemma {:induction false} WalksOnce(w: Walk, id: nat)
    requires WalkOk(w) && Legal(w, id)
    ensures Walks(w, [id], Next(w, id))
  {
    NextOk(w, id);
    assert Walks(Next(w, id), [], Next(w, id));
    assert [id][1..] == [];
  }

  // ----- nobody is told twice, and nobody disappears

  function Times(failed: seq<nat>, who: nat): nat {
    if failed == [] then 0 else Times(failed[..|failed| - 1], who) + if failed[|failed| - 1] == who then 1 else 0
  }

  lemma {:induction false} TimesMore(failed: seq<nat>, x: nat, who: nat)
    ensures Times(failed + [x], who) == Times(failed, who) + if x == who then 1 else 0
  {
    assert (failed + [x])[..|failed|] == failed;
  }

  ghost function Known(w: Walk, who: nat): nat {
    OpenIn(w.t, who) + Times(w.failed, who)
  }

  lemma {:induction false} NextKnows(w: Walk, id: nat, who: nat)
    requires WalkOk(w) && Legal(w, id)
    ensures Known(Next(w, id), who) == Known(w, who)
  {
    if w.pumping {
      if CanPump(w.t) {
        PromotedOk(w.t, id);
      }
    } else if w.b < |w.t.heads| {
      if w.t.heads[w.b] != [] {
        UnlinkedOk(w.t, w.b, 0);
        TimesMore(w.failed, w.t.heads[w.b][0].who, who);
      }
    } else if w.t.waiting != [] {
      DequeuedOk(w.t);
      TimesMore(w.failed, w.t.waiting[0].who, who);
    }
  }

  /** Every request has been told of the shutdown or is still in the table. */
  lemma {:induction false} ToldOrLeft(w: Walk, ids: seq<nat>, w': Walk, who: nat)
    requires WalkOk(w) && Walks(w, ids, w')
    ensures Known(w', who) == Known(w, who)
    decreases |ids|
  {
    if ids != [] {
      NextOk(w, ids[0]);
      NextKnows(w, ids[0], who);
      ToldOrLeft(Next(w, ids[0]), ids[1..], w', who);
    }
  }

  // ----- when no request can be missed

  /** The requests in flight outside the first bucket. */
  ghost function Outside(t: Table): int
    requires |t.heads| > 0
  {
    t.inflight - |t.heads[0]|
  }

  /** Can a shutdown miss a request? Only one that waits, and only if it can be promoted when the walk has
      left the first bucket, or when there is nothing in flight at all. */
  ghost predicate CanMiss(t: Table)
    requires |t.heads| > 0
  {
    && t.servers != [] && t.waiting != []
    && if t.inflight == 0 then |t.waiting| > 1
       else |t.heads| > 1 && (t.heads[0] == [] || |t.waiting| + Outside(t) > t.maxInflight)
  }

  ghost predicate PassedEmpty(w: Walk)
    requires WalkOk(w)
  {
    forall c :: 0 <= c < w.b ==> w.t.heads[c] == []
  }

  /** Whatever the ids, nothing is promoted into a bucket that has been passed. */
  ghost predicate Safe(w: Walk)
    requires WalkOk(w)
  {
    && PassedEmpty(w)
    && (|| w.t.waiting == [] || w.t.servers == []
        || (!w.pumping && w.t.inflight == 0 && |w.t.waiting| == 1)
        || (w.b == 0 && (w.pumping || w.t.heads[0] != []) &&
            (|w.t.heads| == 1 || |w.t.waiting| + Outside(w.t) <= w.t.maxInflight)))
  }

  lemma {:induction false} NoneInFlight(t: Table)
    requires TableOk(t) && t.servers == []
    ensures forall b :: 0 <= b < |t.heads| ==> t.heads[b] == []
  {
    forall b | 0 <= b < |t.heads|
      ensures t.heads[b] == []
    {
      assert BucketOk(t.heads[b], b, |t.heads|, |t.servers|);
      assert |t.heads[b]| > 0 ==> ReqOk(t.heads[b][0], |t.servers|);
    }
  }

  /** A bucket holds no more than the table. */
  lemma {:induction false} BucketFits(heads: seq<Queue>, b: nat)
    requires b < |heads|
    ensures |heads[b]| <= Tally(heads, All)
    ensures |heads| == 1 ==> |heads[b]| == Tally(heads, All)
  {
    TallyUpdate(heads, b, [], All);
    CountAll(heads[b]);
    if |heads| == 1 {
      assert Tally(heads[1..], All) == 0;
    }
  }

  /** A promotion moves one request out of the queue, into the first bucket or outside. */
  lemma {:induction false} PromotedOutside(t: Table, id: nat)
    requires TableOk(t) && CanPump(t) && FreeIn(t, id)
    ensures var t' := Promoted(t, id);
            && |t'.heads| == |t.heads| && |t'.waiting| == |t.waiting| - 1
            && Outside(t') == Outside(t) + (if id % |t.heads| == 0 then 0 else 1)
            && forall c :: 0 <= c < |t.heads| && c != id % |t.heads| ==> t'.heads[c] == t.heads[c]
  {
  }

  lemma {:induction false} SafePumps(w: Walk, id: nat)
    requires WalkOk(w) && Safe(w) && w.pumping && Legal(w, id)
    ensures WalkOk(Next(w, id)) && Safe(Next(w, id))
  {
    NextOk(w, id);
    if CanPump(w.t) {
      PromotedOutside(w.t, id);
    } else if w.t.waiting != [] && w.t.servers != [] {
      BucketFits(w.t.heads, 0);
    }
  }

  lemma {:induction false} SafeSteps(w: Walk, id: nat)
    requires WalkOk(w) && Safe(w) && !w.pumping
    ensures Legal(w, id) && WalkOk(Next(w, id)) && Safe(Next(w, id))
  {
    NextOk(w, id);
    if w.t.servers == [] {
      NoneInFlight(w.t);
    }
    if w.b < |w.t.heads| {
      BucketFits(w.t.heads, w.b);
    }
  }

  lemma {:induction false} SafeWalks(w: Walk, ids: seq<nat>, w': Walk)
    requires WalkOk(w) && Safe(w) && Walks(w, ids, w')
    ensures WalkOk(w') && Safe(w')
    decreases |ids|
  {
    if ids != [] {
      if w.pumping {
        SafePumps(w, ids[0]);
      } else {
        SafeSteps(w, ids[0]);
      }
      SafeWalks(Next(w, ids[0]), ids[1..], w');
    }
  }

  lemma {:induction false} SafeAtFirst(t: Table)
    requires TableOk(t) && !CanMiss(t)
    ensures WalkOk(Begin(t)) && Safe(Begin(t))
  {
    BucketFits(t.heads, 0);
  }

  // ----- when a request can be missed

  /** Some ids make the walk end with a request left in flight. */
  ghost predicate MayMiss(w: Walk)
    requires WalkOk(w)
  {
    exists ids, w' :: Walks(w, ids, w') && Done(w') && w'.t.inflight > 0
  }

  lemma {:induction false} MayMissNext(w: Walk, id: nat)
    requires WalkOk(w) && Legal(w, id) && WalkOk(Next(w, id)) && MayMiss(Next(w, id))
    ensures MayMiss(w)
  {
    var ids, w' :| Walks(Next(w, id), ids, w') && Done(w') && w'.t.inflight > 0;
    assert ([id] + ids)[1..] == ids;
    assert Walks(w, [id] + ids, w');
  }

  /** A request is in a bucket that the walk has passed. */
  ghost predicate Missed(w: Walk)
    requires WalkOk(w)
  {
    exists c :: 0 <= c < w.b && w.t.heads[c] != []
  }

  lemma {:induction false} MissedStays(w: Walk, id: nat)
    requires WalkOk(w) && Legal(w, id) && Missed(w)
    ensures WalkOk(Next(w, id)) && Missed(Next(w, id))
  {
    NextOk(w, id);
    var c :| 0 <= c < w.b && w.t.heads[c] != [];
    assert Next(w, id).t.heads[c] != [];
  }

  lemma {:induction false} SomeLegal(w: Walk)
    requires WalkOk(w)
    ensures exists id: nat :: Legal(w, id)
  {
    if w.pumping && CanPump(w.t) {
      FreeId(w.t.heads, |w.t.servers|);
      var id: nat :| id < NO_ID && Lookup(w.t.heads, id).None?;
      assert Legal(w, id);
    } else {
      assert Legal(w, 0);
    }
  }

  /** A walk that has missed a request ends with it in flight. */
  lemma {:induction false} MissedForGood(w: Walk)
    requires WalkOk(w) && Missed(w)
    ensures MayMiss(w)
    decreases w.t.inflight + |w.t.waiting|, |w.t.waiting|, w.pumping, |w.t.heads| - w.b
  {
    if Done(w) {
      var c :| 0 <= c < w.b && w.t.heads[c] != [];
      BucketFits(w.t.heads, c);
      assert Walks(w, [], w);
    } else {
      SomeLegal(w);
      var id: nat :| Legal(w, id);
      MissedStays(w, id);
      BucketsCount(w.t);
      MissedForGood(Next(w, id));
      MayMissNext(w, id);
    }
  }

  lemma {:induction false} BucketsCount(t: Table)
    requires TableOk(t)
    ensures t.inflight >= 0 && forall b :: 0 <= b < |t.heads| ==> |t.heads[b]| <= t.inflight
  {
    forall b | 0 <= b < |t.heads|
      ensures |t.heads[b]| <= t.inflight
    {
      BucketFits(t.heads, b);
    }
  }

  predicate IsMultiple(x: nat, n: nat)
    requires n > 0
  {
    x % n == 0
  }

  /** The multiples of n below m. */
  ghost function Multiples(n: nat, m: nat): set<nat>
    requires n > 0
  {
    if m == 0 then {} else if IsMultiple(m - 1, n) then Multiples(n, m - 1) + {m - 1} else Multiples(n, m - 1)
  }

  lemma {:induction false} MultiplesRight(n: nat, m: nat)
    requires n > 0
    ensures forall x: nat :: x in Multiples(n, m) <==> x < m && IsMultiple(x, n)
  {
    if m > 0 {
      MultiplesRight(n, m - 1);
    }
  }

  function RoundedUp(m: nat, n: nat): nat
    requires n > 0
  {
    (m + n - 1) / n
  }

  /** How many there are. */
  lemma {:induction false} MultiplesCount(n: nat, m: nat)
    requires n > 0
    ensures |Multiples(n, m)| == RoundedUp(m, n)
  {
    if m == 0 {
      QuotientIs(n - 1, n, 0, n - 1);
    } else {
      MultiplesCount(n, m - 1);
      MultiplesRight(n, m - 1);
      NextRoundedUp(m - 1, n);
    }
  }

  lemma {:induction false} NextRoundedUp(a: nat, n: nat)
    requires n > 0
    ensures RoundedUp(a + 1, n) == RoundedUp(a, n) + if IsMultiple(a, n) then 1 else 0
  {
    var q, r := a / n, a % n;
    assert a == q * n + r;
    QuotientIs(a + n, n, q + 1, r);
    if r == 0 {
      QuotientIs(a + n - 1, n, q, n - 1);
    } else {
      QuotientIs(a + n - 1, n, q + 1, r - 1);
    }
  }

  lemma {:induction false} QuotientIs(a: nat, n: nat, q: nat, r: nat)
    requires n > 0 && r < n && a == q * n + r
    ensures a / n == q
  {
    if a / n < q {
      MulMono(n, a / n + 1, q);
    } else if a / n > q {
      MulMono(n, q + 1, a / n);
    }
  }

  /** There are few multiples of the number of buckets, and room for all requests besides. */
  lemma {:induction false} FewMultiples(max: nat, n: nat)
    requires max <= MAX_MAX && n == (max + 4) / 5 && n > 1
    ensures max + RoundedUp(NO_ID, n) < NO_ID
  {
    RoundedUpIs(NO_ID, n);
    var q := (NO_ID - 1) / n;
    if n < 6000 {
      Smaller(NO_ID - 1, n, 2);
    } else {
      Smaller(NO_ID - 1, n, 6000);
    }
    FewEnough(max, n, q);
  }

  lemma FewEnough(max: nat, n: nat, q: nat)
    requires max <= MAX_MAX && n == (max + 4) / 5 && q <= if n < 6000 then 32767 else 10
    ensures max + q + 1 < NO_ID
  {
  }

  lemma {:induction false} RoundedUpIs(m: nat, n: nat)
    requires n > 0 && m > 0
    ensures RoundedUp(m, n) == (m - 1) / n + 1
  {
    var q, r := (m - 1) / n, (m - 1) % n;
    assert m - 1 == q * n + r;
    assert (q + 1) * n == q * n + n;
    QuotientIs(m + n - 1, n, q + 1, r);
  }

  lemma {:induction false} Smaller(a: nat, n: nat, k: nat)
    requires n >= k > 0
    ensures a / n <= a / k
  {
    var q := a / n;
    MulMono(q, k, n);
    if q > a / k {
      MulMono(k, a / k + 1, q);
    }
  }

  /** While there is room, an id outside the first bucket is free. */
  lemma {:induction false} FreeOutside(t: Table)
    requires TableOk(t) && t.inflight < t.maxInflight && |t.heads| > 1
    ensures exists id: nat :: FreeIn(t, id) && id % |t.heads| != 0
  {
    var n := |t.heads|;
    AllIdsRight(t.heads);
    MultiplesRight(n, NO_ID);
    MultiplesCount(n, NO_ID);
    FewMultiples(t.maxInflight, n);
    var taken := AllIds(t.heads) + Multiples(n, NO_ID);
    Pigeonhole(taken, NO_ID);
    var id: nat :| id < NO_ID && id !in taken;
    FindInRight(t.heads[id % n], id);
    assert FreeIn(t, id) && !IsMultiple(id, n);
  }

  /** The walk has left the empty first bucket, and there are requests in flight and waiting. */
  lemma {:induction false} MissFurtherOn(w: Walk)
    requires WalkOk(w) && !w.pumping && w.b > 0 && PassedEmpty(w)
    requires w.t.waiting != [] && w.t.servers != [] && w.t.inflight > 0
    ensures MayMiss(w)
    decreases w.t.inflight, |w.t.heads| - w.b
  {
    BucketsCount(w.t);
    assert w.b < |w.t.heads| by {
      if w.b == |w.t.heads| {
        EmptyTally(w.t.heads, All);
      }
    }
    var w1 := Next(w, 0);
    NextOk(w, 0);
    if w.t.heads[w.b] == [] {
      MissFurtherOn(w1);
    } else {
      assert w1.t.heads[0] == [];
      if CanPump(w1.t) {
        var w2 := Next(w1, 0);
        NextOk(w1, 0);
        assert w2.t.heads[0] != [];
        MissedForGood(w2);
        MayMissNext(w1, 0);
      } else {
        NextOk(w1, 0);
        MissFurtherOn(Next(w1, 0));
        MayMissNext(w1, 0);
      }
    }
    MayMissNext(w, 0);
  }

  /** The walk is at the first bucket, and more requests wait than there is room for without those in it. */
  lemma {:induction false} MissLater(w: Walk)
    requires WalkOk(w) && w.b == 0 && |w.t.heads| > 1 && (w.pumping || w.t.inflight > 0)
    requires w.t.waiting != [] && w.t.servers != []
    requires (!w.pumping && w.t.heads[0] == []) || |w.t.waiting| + Outside(w.t) > w.t.maxInflight
    ensures MayMiss(w)
    decreases w.t.inflight + |w.t.waiting|, |w.t.waiting|, w.pumping, |w.t.heads[0]|
  {
    BucketsCount(w.t);
    if w.pumping && CanPump(w.t) {
      FreeOutside(w.t);
      var id: nat :| FreeIn(w.t, id) && id % |w.t.heads| != 0;
      PromotedOutside(w.t, id);
      NextOk(w, id);
      MissLater(Next(w, id));
      MayMissNext(w, id);
    } else {
      NextOk(w, 0);
      if !w.pumping && w.t.heads[0] == [] {
        MissFurtherOn(Next(w, 0));
      } else {
        MissLater(Next(w, 0));
      }
      MayMissNext(w, 0);
    }
  }

  /** Nothing is in flight, and at least two wait: the first that is told lets the second into flight. */
  lemma {:induction false} MissAtTheEnd(w: Walk)
    requires WalkOk(w) && !w.pumping && w.t.inflight == 0 && |w.t.waiting| > 1 && w.t.servers != []
    ensures MayMiss(w)
    decreases |w.t.heads| - w.b
  {
    BucketsCount(w.t);
    var w1 := Next(w, 0);
    NextOk(w, 0);
    if w.b < |w.t.heads| {
      MissAtTheEnd(w1);
    } else {
      SomeLegal(w1);
      var id: nat :| Legal(w1, id);
      NextOk(w1, id);
      assert Next(w1, id).t.heads[id % |w.t.heads|] != [];
      MissedForGood(Next(w1, id));
      MayMissNext(w1, id);
    }
    MayMissNext(w, 0);
  }

  /** Exactly which tables can lose a request when they are shut down. */
  lemma {:induction false} ShutdownMisses(t: Table)
    requires TableOk(t)
    ensures MayMiss(Begin(t)) <==> CanMiss(t)
  {
    var w := Begin(t);
    BucketsCount(t);
    if CanMiss(t) {
      if t.inflight == 0 {
        MissAtTheEnd(w);
      } else {
        MissLater(w);
      }
    } else if ids, w' :| Walks(w, ids, w') && Done(w') && w'.t.inflight > 0 {
      SafeAtFirst(t);
      SafeWalks(w, ids, w');
      EmptyTally(w'.t.heads, All);
      assert false;
    }
  }

  // ----- only a waiting request can be missed

  /** The requests of a person in the buckets that were passed, and in the queue. */
  ghost function AtRisk(w: Walk, who: nat): nat
    requires WalkOk(w)
  {
    Tally(w.t.heads[..w.b], OfWho(who)) + Count(w.t.waiting, OfWho(who))
  }

  lemma {:induction false} TallyFront(heads: seq<Queue>, b: nat, c: nat, q: Queue, s: Selector)
    requires b <= |heads| && c < |heads|
    ensures Tally(heads[c := q][..b], s) ==
              Tally(heads[..b], s) + (if c < b then Count(q, s) - Count(heads[c], s) else 0)
  {
    if c < b {
      assert heads[c := q][..b] == heads[..b][c := q];
      TallyUpdate(heads[..b], c, q, s);
    } else {
      assert heads[c := q][..b] == heads[..b];
    }
  }

  lemma {:induction false} TallyOneMore(heads: seq<Queue>, b: nat, s: Selector)
    requires b < |heads| && heads[b] == []
    ensures Tally(heads[..b + 1], s) == Tally(heads[..b], s)
    decreases b
  {
    if b == 0 {
      assert heads[..1] == [heads[0]];
      assert Tally([heads[0]][1..], s) == 0;
    } else {
      assert heads[..b + 1][1..] == heads[1..][..b] && heads[..b][1..] == heads[1..][..b - 1];
      TallyOneMore(heads[1..], b - 1, s);
    }
  }

  lemma {:induction false} RiskNext(w: Walk, id: nat, who: nat)
    requires WalkOk(w) && Legal(w, id)
    ensures WalkOk(Next(w, id)) && AtRisk(Next(w, id), who) <= AtRisk(w, who)
  {
    NextOk(w, id);
    var t, s := w.t, OfWho(who);
    if w.pumping {
      if CanPump(t) {
        var r := t.waiting[0].(id := id, ns := Picked(t.servers, t.serverHead, t.good));
        var c := id % |t.heads|;
        TallyFront(t.heads, w.b, c, t.heads[c] + [r], s);
        CountAdded(t.heads[c], r, s);
      }
    } else if w.b < |t.heads| {
      if t.heads[w.b] == [] {
        TallyOneMore(t.heads, w.b, s);
      } else {
        TallyFront(t.heads, w.b, w.b, Removed(t.heads[w.b], 0), s);
      }
    }
  }

  lemma {:induction false} RiskFalls(w: Walk, ids: seq<nat>, w': Walk, who: nat)
    requires WalkOk(w) && Walks(w, ids, w')
    ensures WalkOk(w') && AtRisk(w', who) <= AtRisk(w, who)
    decreases |ids|
  {
    if ids != [] {
      RiskNext(w, ids[0], who);
      RiskFalls(Next(w, ids[0]), ids[1..], w', who);
    }
  }

  /** Whatever the ids, every request in flight at the shutdown is told of it: a person is missed at most as
      often as the person had requests waiting. */
  lemma {:induction false} OnlyWaitingMissed(t: Table, ids: seq<nat>, w': Walk, who: nat)
    requires TableOk(t) && Walks(Begin(t), ids, w') && Done(w')
    ensures OpenIn(w'.t, who) <= Count(t.waiting, OfWho(who))
    ensures OpenIn(t, who) == Times(w'.failed, who) + OpenIn(w'.t, who)
  {
    RiskFalls(Begin(t), ids, w', who);
    ToldOrLeft(Begin(t), ids, w', who);
    assert t.heads[..0] == [] && w'.t.heads[..|w'.t.heads|] == w'.t.heads;
  }

  /** A person with one request is told of the shutdown unless it is left behind, and always if none can be. */
  lemma {:induction false} ToldUnlessMissed(t: Table, ids: seq<nat>, w': Walk, who: nat)
    requires TableOk(t) && Walks(Begin(t), ids, w') && Done(w') && OpenIn(t, who) == 1
    ensures Times(w'.failed, who) == 1 <==> OpenIn(w'.t, who) == 0
    ensures !CanMiss(t) || Count(t.waiting, OfWho(who)) == 0 ==> Times(w'.failed, who) == 1
  {
    OnlyWaitingMissed(t, ids, w', who);
    if !CanMiss(t) {
      SafeAtFirst(t);
      SafeWalks(Begin(t), ids, w');
      EmptyTally(w'.t.heads, OfWho(who));
    }
  }

  lemma {:induction false} SomeoneIn(heads: seq<Queue>)
    requires Tally(heads, All) > 0
    ensures exists who :: Tally(heads, OfWho(who)) > 0
    decreases |heads|
  {
    if heads[0] != [] {
      var who := heads[0][0].who;
      assert Count(heads[0], OfWho(who)) > 0;
      assert Tally(heads, OfWho(who)) > 0;
    } else {
      SomeoneIn(heads[1..]);
      var who :| Tally(heads[1..], OfWho(who)) > 0;
      assert Tally(heads, OfWho(who)) > 0;
    }
  }

  /** Some ids make the shutdown end without telling who of all the requests that who has. */
  ghost predicate NotTold(t: Table, who: nat)
    requires TableOk(t)
  {
    exists ids, w' :: Walks(Begin(t), ids, w') && Done(w') && Times(w'.failed, who) < OpenIn(t, who)
  }

  /** Exactly which tables can forget somebody when they are shut down. */
  lemma {:induction false} ShutdownForgets(t: Table)
    requires TableOk(t)
    ensures (exists who :: NotTold(t, who)) <==> CanMiss(t)
  {
    ShutdownMisses(t);
    if CanMiss(t) {
      var ids, w' :| Walks(Begin(t), ids, w') && Done(w') && w'.t.inflight > 0;
      WalksOk(Begin(t), ids, w');
      SomeoneIn(w'.t.heads);
      var who :| Tally(w'.t.heads, OfWho(who)) > 0;
      OnlyWaitingMissed(t, ids, w', who);
      assert NotTold(t, who);
    } else if who :| NotTold(t, who) {
      var ids, w' :| Walks(Begin(t), ids, w') && Done(w') && Times(w'.failed, who) < OpenIn(t, who);
      OnlyWaitingMissed(t, ids, w', who);
      SafeAtFirst(t);
      SafeWalks(Begin(t), ids, w');
      EmptyTally(w'.t.heads, OfWho(who));
      assert false;
    }
  }

  /** Two buckets, with requests in flight in the second, and one that waits. */
  function TwoBuckets(q: Queue, r: Req): Table {
    Table([[], q], [r], |q|, 1, 6, [Server(true, |q|)], 0, 1)
  }

  lemma {:induction false} CountOneServer(q: Queue, s: int)
    requires forall i :: 0 <= i < |q| ==> q[i].ns == s
    ensures Count(q, OfServer(s)) == |q|
  {
    if q != [] {
      CountOneServer(q[1..], s);
    }
  }

  lemma {:induction false} CountNobody(q: Queue, who: nat)
    requires forall i :: 0 <= i < |q| ==> q[i].who != who
    ensures Count(q, OfWho(who)) == 0
  {
    if q != [] {
      CountNobody(q[1..], who);
    }
  }

  lemma {:induction false} TallyTwo(q: Queue, s: Selector)
    ensures Tally([[], q], s) == Count(q, s)
  {
    var heads: seq<Queue> := [[], q];
    assert heads[1..] == [q] && heads[1..][1..] == [];
    assert Tally(heads[1..], s) == Count(q, s);
  }

  lemma {:induction false} TwoBucketsOk(q: Queue, r: Req)
    requires BucketOk(q, 1, 2, 1) && r.ns < 0
    ensures TableOk(TwoBuckets(q, r))
  {
    var t := TwoBuckets(q, r);
    forall i | 0 <= i < |q|
      ensures q[i].ns == 0
    {
      assert ReqOk(q[i], 1);
    }
    CountAll(q);
    CountOneServer(q, 0);
    TallyTwo(q, All);
    TallyTwo(q, OfServer(0));
    assert UpCount(t.servers) == 1 + UpCount(t.servers[1..]);
  }

  lemma {:induction false} OpenInTwo(q: Queue, r: Req, who: nat)
    requires forall i :: 0 <= i < |q| ==> q[i].who != who
    ensures OpenIn(TwoBuckets(q, r), who) == if r.who == who then 1 else 0
  {
    CountNobody(q, who);
    TallyTwo(q, OfWho(who));
    assert [r][1..] == [];
  }

  /** Requests under odd ids. */
  function OddIds(n: nat): (q: Queue)
    ensures |q| == n && forall i :: 0 <= i < n ==> q[i] == Req(i + 1, 2 * i + 1, 0)
  {
    seq(n, i requires 0 <= i < n => Req(i + 1, 2 * i + 1, 0))
  }

  /** n requests in flight under odd ids, and one that waits. */
  function OddAndOne(n: nat): Table {
    TwoBuckets(OddIds(n), Req(n + 1, NO_ID, -1))
  }

  /** With as many in flight as are allowed, and up to 100, the request that waits, the only one of its
      owner, may never hear of the shutdown. */
  lemma {:induction false} WaitingIsForgotten(n: nat, t: Table)
    requires 6 <= n <= 100 && t == OddAndOne(n)
    ensures TableOk(t) && OpenIn(t, n + 1) == 1 && OpenIn(t, n + 2) == 0 && NotTold(t, n + 1)
  {
    var q, r := OddIds(n), Req(n + 1, NO_ID, -1);
    TwoBucketsOk(q, r);
    OpenInTwo(q, r, n + 1);
    OpenInTwo(q, r, n + 2);
    OneIsForgotten(q, r);
  }

  lemma {:induction false} OneIsForgotten(q: Queue, r: Req)
    requires TableOk(TwoBuckets(q, r)) && q != []
    ensures NotTold(TwoBuckets(q, r), r.who)
  {
    var t := TwoBuckets(q, r);
    ShutdownForgets(t);
    var who :| NotTold(t, who);
    var ids, w' :| Walks(Begin(t), ids, w') && Done(w') && Times(w'.failed, who) < OpenIn(t, who);
    OnlyWaitingMissed(t, ids, w', who);
    assert [r][1..] == [];
    assert who == r.who;
  }

  // ----- the code

  /** The promotions after a request has ended are steps of the walk. */
  lemma {:induction false} PumpWalks(w: Walk, ids: seq<nat>, t': Table)
    requires WalkOk(w) && w.pumping && Promotes(w.t, ids, t')
    ensures Walks(w, ids, w.(t := t'))
    decreases |ids|
  {
    if ids != [] {
      NextOk(w, ids[0]);
      PumpWalks(Next(w, ids[0]), ids[1..], t');
    }
  }

  /** Ending a request, and the promotions that follow, are steps of the walk. */
  lemma {:induction false} EndWalks(w0: Walk, ids: seq<nat>, w: Walk, more: seq<nat>, t': Table)
    requires WalkOk(w0) && Walks(w0, ids, w) && WalkOk(w) && !w.pumping && WalkOk(Next(w, 0)) && Next(w, 0).pumping
    requires Promotes(Next(w, 0).t, more, t') && !CanPump(t') && TableOk(t') && |t'.heads| == |w.t.heads|
    ensures Walks(w0, ids + [0] + more + [0], Next(w, 0).(t := t', pumping := false))
  {
    var w1 := Next(w, 0);
    var w2 := w1.(t := t');
    WalksOnce(w, 0);
    WalksOn(w0, ids, w, [0], w1);
    PumpWalks(w1, more, t');
    WalksOn(w0, ids + [0], w1, more, w2);
    WalksOnce(w2, 0);
    WalksOn(w0, ids + [0] + more, w2, [0], w2.(pumping := false));
  }

  /** Tell every request of the shutdown: the walk over the buckets, and then the queue. */
  method ShutDown(base: Base) returns (failed: seq<nat>, ghost ids: seq<nat>)
    requires base.Valid()
    modifies base
    ensures base.Valid() && Walks(Begin(old(base.Now())), ids, Walk(base.Now(), |base.heads|, false, failed))
    ensures Done(Walk(base.Now(), |base.heads|, false, failed))
    ensures forall who :: OpenIn(old(base.Now()), who) == Times(failed, who) + OpenIn(base.Now(), who)
    ensures !CanMiss(old(base.Now())) ==> forall b :: 0 <= b < |base.heads| ==> base.heads[b] == []
  {
    ghost var w0 := Begin(base.Now());
    var i := 0;
    failed, ids := [], [];
    while i < |base.heads|
      invariant base.Valid() && i <= |base.heads| && Walks(w0, ids, Walk(base.Now(), i, false, failed))
      decreases |base.heads| - i
    {
      failed, ids := EmptyBucket(base, i, failed, w0, ids);
      ghost var w := Walk(base.Now(), i, false, failed);
      WalksOnce(w, 0);
      WalksOn(w0, ids, w, [0], Next(w, 0));
      ids := ids + [0];
      i := i + 1;
    }
    while base.waiting != []
      invariant base.Valid() && i == |base.heads| && Walks(w0, ids, Walk(base.Now(), i, false, failed))
      decreases base.inflight + |base.waiting|
    {
      failed, ids := EndWaiting(base, failed, w0, ids);
    }
    Told(w0, ids, Walk(base.Now(), i, false, failed));
  }

  lemma {:induction false} Told(w0: Walk, ids: seq<nat>, w: Walk)
    requires WalkOk(w0) && w0 == Begin(w0.t) && Walks(w0, ids, w) && Done(w)
    ensures forall who :: OpenIn(w0.t, who) == Times(w.failed, who) + OpenIn(w.t, who)
    ensures !CanMiss(w0.t) ==> forall b :: 0 <= b < |w.t.heads| ==> w.t.heads[b] == []
  {
    forall who
      ensures OpenIn(w0.t, who) == Times(w.failed, who) + OpenIn(w.t, who)
    {
      ToldOrLeft(w0, ids, w, who);
    }
    if !CanMiss(w0.t) {
      SafeAtFirst(w0.t);
      SafeWalks(w0, ids, w);
    }
  }

  /** Fail the first request of bucket i until there is none. */
  method EmptyBucket(base: Base, i: nat, failed0: seq<nat>, ghost w0: Walk, ghost ids0: seq<nat>)
      returns (failed: seq<nat>, ghost ids: seq<nat>)
    requires base.Valid() && i < |base.heads|
    requires WalkOk(w0) && Walks(w0, ids0, Walk(base.Now(), i, false, failed0))
    modifies base
    ensures base.Valid() && |base.heads| == |old(base.heads)| && base.heads[i] == []
    ensures Walks(w0, ids, Walk(base.Now(), i, false, failed))
  {
    failed, ids := failed0, ids0;
    while base.heads[i] != []
      invariant base.Valid() && |base.heads| == |old(base.heads)|
      invariant Walks(w0, ids, Walk(base.Now(), i, false, failed))
      decreases base.inflight + |base.waiting|
    {
      ghost var w := Walk(base.Now(), i, false, failed);
      BucketsCount(base.Now());
      NextOk(w, 0);
      failed := failed + [base.heads[i][0].who];
      ghost var more := base.FinishAt(i, 0);
      BucketsCount(base.Now());
      EndWalks(w0, ids, w, more, base.Now());
      ids := ids + [0] + more + [0];
    }
  }

  /** Fail the first waiting request. */
  method EndWaiting(base: Base, failed0: seq<nat>, ghost w0: Walk, ghost ids0: seq<nat>)
      returns (failed: seq<nat>, ghost ids: seq<nat>)
    requires base.Valid() && base.waiting != []
    requires WalkOk(w0) && Walks(w0, ids0, Walk(base.Now(), |base.heads|, false, failed0))
    modifies base
    ensures base.Valid() && |base.heads| == |old(base.heads)|
    ensures 0 <= base.inflight + |base.waiting| < old(base.inflight + |base.waiting|)
    ensures Walks(w0, ids, Walk(base.Now(), |base.heads|, false, failed))
  {
    ghost var w := Walk(base.Now(), |base.heads|, false, failed0);
    NextOk(w, 0);
    failed := failed0 + [base.waiting[0].who];
    DequeuedIs(base.Now());
    ghost var more := base.FinishWaiting(0);
    BucketsCount(base.Now());
    EndWalks(w0, ids0, w, more, base.Now());
    ids := ids0 + [0] + more + [0];
  }
}
