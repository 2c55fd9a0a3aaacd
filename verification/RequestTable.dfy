/** The resolver's requests: a hash table of requests in flight, a queue of requests that wait, and
    the name servers they are assigned to. */
module RequestTable {
  import opened Basics
  import opened Counting

  const NO_ID: nat := 0xffff
  /** No option lets more requests be in flight. */
  const MAX_MAX: nat := 65000

  /** A request: who it is, its transaction id, and its server (-1 for none). */
  datatype Req = Req(who: nat, id: nat, ns: int)

  type Queue = seq<Req>

  // ----- counting requests

  /** Which requests are counted: all, those of one server, or those of one person. */
  datatype Selector = All | OfServer(s: int) | OfWho(who: nat)

  function Hit(r: Req, s: Selector): nat {
    if s.All? || (s.OfServer? && r.ns == s.s) || (s.OfWho? && r.who == s.who) then 1 else 0
  }

  function Count(q: Queue, s: Selector): nat {
    if q == [] then 0 else Hit(q[0], s) + Count(q[1..], s)
  }

  function Tally(heads: seq<Queue>, s: Selector): nat {
    if heads == [] then 0 else Count(heads[0], s) + Tally(heads[1..], s)
  }

  lemma {:induction false} CountConcat(p: Queue, q: Queue, s: Selector)
    ensures Count(p + q, s) == Count(p, s) + Count(q, s)
  {
    if p == [] {
      assert p + q == q;
    } else {
      assert (p + q)[1..] == p[1..] + q;
      CountConcat(p[1..], q, s);
    }
  }

  lemma {:induction false} CountAll(q: Queue)
    ensures Count(q, All) == |q|
  {
    if q != [] {
      CountAll(q[1..]);
    }
  }

  function Removed(q: Queue, i: nat): Queue
    requires i < |q|
  {
    q[..i] + q[i + 1..]
  }

  lemma {:induction false} CountAdded(q: Queue, r: Req, s: Selector)
    ensures Count(q + [r], s) == Count(q, s) + Hit(r, s)
  {
    CountConcat(q, [r], s);
  }

  lemma {:induction false} CountRemoved(q: Queue, i: nat, s: Selector)
    requires i < |q|
    ensures Count(Removed(q, i), s) == Count(q, s) - Hit(q[i], s)
  {
    assert q == q[..i] + ([q[i]] + q[i + 1..]);
    CountConcat(q[..i], [q[i]] + q[i + 1..], s);
    CountConcat([q[i]], q[i + 1..], s);
    CountConcat(q[..i], q[i + 1..], s);
  }

  lemma {:induction false} CountReplaced(q: Queue, i: nat, r: Req, s: Selector)
    requires i < |q|
    ensures Count(q[i := r], s) == Count(q, s) - Hit(q[i], s) + Hit(r, s)
  {
    assert q == q[..i] + ([q[i]] + q[i + 1..]);
    assert q[i := r] == q[..i] + ([r] + q[i + 1..]);
    CountConcat(q[..i], [q[i]] + q[i + 1..], s);
    CountConcat([q[i]], q[i + 1..], s);
    CountConcat(q[..i], [r] + q[i + 1..], s);
    CountConcat([r], q[i + 1..], s);
  }

  lemma {:induction false} TallyUpdate(heads: seq<Queue>, b: nat, q: Queue, s: Selector)
    requires b < |heads|
    ensures Tally(heads[b := q], s) == Tally(heads, s) - Count(heads[b], s) + Count(q, s)
    ensures Count(heads[b], s) <= Tally(heads, s)
  {
    if b > 0 {
      assert heads[b := q][1..] == heads[1..][b - 1 := q];
      TallyUpdate(heads[1..], b - 1, q, s);
    } else {
      assert heads[b := q][1..] == heads[1..];
    }
  }

  // ----- the table

  ghost predicate ReqOk(r: Req, servers: nat) {
    r.id < NO_ID && 0 <= r.ns < servers
  }

  ghost predicate DistinctIds(q: Queue) {
    forall i, j :: 0 <= i < j < |q| ==> q[i].id != q[j].id
  }

  ghost predicate BucketOk(q: Queue, b: nat, n: nat, servers: nat)
    requires n > 0
  {
    && (forall i :: 0 <= i < |q| ==> ReqOk(q[i], servers) && q[i].id % n == b)
    && DistinctIds(q)
  }

  ghost predicate HeadsOk(heads: seq<Queue>, servers: nat) {
    && |heads| > 0
    && forall b :: 0 <= b < |heads| ==> BucketOk(heads[b], b, |heads|, servers)
  }

  function FindIn(q: Queue, id: nat): Option<Req> {
    if q == [] then None else if q[0].id == id then Some(q[0]) else FindIn(q[1..], id)
  }

  /** The request in flight with a transaction id. */
  function Lookup(heads: seq<Queue>, id: nat): Option<Req>
    requires |heads| > 0
  {
    FindIn(heads[id % |heads|], id)
  }

  ghost predicate In(heads: seq<Queue>, r: Req) {
    exists b :: 0 <= b < |heads| && r in heads[b]
  }

  lemma {:induction false} FindInRight(q: Queue, id: nat)
    ensures FindIn(q, id).None? <==> forall i :: 0 <= i < |q| ==> q[i].id != id
    ensures FindIn(q, id).Some? ==> FindIn(q, id).value in q && FindIn(q, id).value.id == id
  {
    if q != [] {
      FindInRight(q[1..], id);
      if FindIn(q, id).None? {
        forall i | 0 <= i < |q|
          ensures q[i].id != id
        {
          assert i > 0 ==> q[i] == q[1..][i - 1];
        }
      }
    }
  }

  /** The lookup sees every request in flight, wherever it is. */
  lemma {:induction false} LookupRight(heads: seq<Queue>, servers: nat, id: nat)
    requires HeadsOk(heads, servers)
    ensures forall r :: Lookup(heads, id) == Some(r) <==> In(heads, r) && r.id == id
  {
    var b := id % |heads|;
    FindInRight(heads[b], id);
    forall r | In(heads, r) && r.id == id
      ensures Lookup(heads, id) == Some(r)
    {
      var c :| 0 <= c < |heads| && r in heads[c];
      assert BucketOk(heads[c], c, |heads|, servers);
      assert c == b;
    }
    assert BucketOk(heads[b], b, |heads|, servers);
  }

  /** No two requests in flight have the same transaction id. */
  lemma {:induction false} IdsDistinct(heads: seq<Queue>, servers: nat, b: nat, i: nat, c: nat, j: nat)
    requires HeadsOk(heads, servers) && b < |heads| && c < |heads| && i < |heads[b]| && j < |heads[c]|
    requires heads[b][i].id == heads[c][j].id
    ensures b == c && i == j
  {
    assert BucketOk(heads[b], b, |heads|, servers) && BucketOk(heads[c], c, |heads|, servers);
  }

  // ----- there is always a free id

  function IdsOf(q: Queue): set<nat> {
    if q == [] then {} else {q[0].id} + IdsOf(q[1..])
  }

  function AllIds(heads: seq<Queue>): set<nat> {
    if heads == [] then {} else IdsOf(heads[0]) + AllIds(heads[1..])
  }

  lemma {:induction false} IdsOfRight(q: Queue)
    ensures |IdsOf(q)| <= |q| && forall r :: r in q ==> r.id in IdsOf(q)
  {
    if q != [] {
      IdsOfRight(q[1..]);
    }
  }

  lemma {:induction false} AllIdsRight(heads: seq<Queue>)
    ensures |AllIds(heads)| <= Tally(heads, All)
    ensures forall b, r :: 0 <= b < |heads| && r in heads[b] ==> r.id in AllIds(heads)
  {
    if heads != [] {
      IdsOfRight(heads[0]);
      CountAll(heads[0]);
      AllIdsRight(heads[1..]);
      forall b, r | 0 <= b < |heads| && r in heads[b]
        ensures r.id in AllIds(heads)
      {
        if b > 0 {
          assert r in heads[1..][b - 1];
        }
      }
    }
  }

  lemma {:induction false} FreeId(heads: seq<Queue>, servers: nat)
    requires HeadsOk(heads, servers) && Tally(heads, All) < NO_ID
    ensures exists id: nat :: id < NO_ID && Lookup(heads, id).None?
  {
    AllIdsRight(heads);
    Pigeonhole(AllIds(heads), NO_ID);
    var id: nat :| id < NO_ID && id !in AllIds(heads);
    var b := id % |heads|;
    FindInRight(heads[b], id);
    assert Lookup(heads, id).None?;
  }

  // ----- changes of one bucket

  lemma {:induction false} HeadsOkUpdate(heads: seq<Queue>, servers: nat, b: nat, q: Queue)
    requires HeadsOk(heads, servers) && b < |heads| && BucketOk(q, b, |heads|, servers)
    ensures HeadsOk(heads[b := q], servers)
  {
  }

  function Inserted(heads: seq<Queue>, r: Req): seq<Queue>
    requires |heads| > 0
  {
    var b := r.id % |heads|;
    heads[b := heads[b] + [r]]
  }

  lemma {:induction false} InUpdate(heads: seq<Queue>, b: nat, q: Queue)
    requires b < |heads| && forall x :: x in heads[b] ==> x in q
    ensures forall x :: In(heads[b := q], x) <==> In(heads, x) || x in q
  {
    var heads' := heads[b := q];
    forall x
      ensures In(heads', x) <==> In(heads, x) || x in q
    {
      if In(heads', x) {
        var c :| 0 <= c < |heads'| && x in heads'[c];
        assert c != b ==> x in heads[c];
      }
      if In(heads, x) {
        var c :| 0 <= c < |heads| && x in heads[c];
        assert x in heads'[c];
      }
      if x in q {
        assert x in heads'[b];
      }
    }
  }

  /** The table with a new request in the bucket of its id. */
  lemma {:induction false} InsertedRight(heads: seq<Queue>, servers: nat, r: Req)
    requires HeadsOk(heads, servers) && ReqOk(r, servers) && Lookup(heads, r.id).None?
    ensures HeadsOk(Inserted(heads, r), servers)
    ensures forall s :: Tally(Inserted(heads, r), s) == Tally(heads, s) + Hit(r, s)
    ensures forall x :: In(Inserted(heads, r), x) <==> In(heads, x) || x == r
  {
    var b := r.id % |heads|;
    var q := heads[b] + [r];
    InUpdate(heads, b, q);
    assert forall x :: x in heads[b] ==> In(heads, x);
    assert forall x :: x in q <==> x in heads[b] || x == r;
    FindInRight(heads[b], r.id);
    assert BucketOk(heads[b], b, |heads|, servers);
    assert BucketOk(q, b, |heads|, servers);
    HeadsOkUpdate(heads, servers, b, q);
    forall s
      ensures Tally(Inserted(heads, r), s) == Tally(heads, s) + Hit(r, s)
    {
      TallyUpdate(heads, b, q, s);
      CountAdded(heads[b], r, s);
    }
  }

  lemma {:induction false} RemovedRight(heads: seq<Queue>, servers: nat, b: nat, i: nat, heads': seq<Queue>)
    requires HeadsOk(heads, servers) && b < |heads| && i < |heads[b]| && heads' == heads[b := Removed(heads[b], i)]
    ensures HeadsOk(heads', servers)
    ensures forall s :: Tally(heads', s) == Tally(heads, s) - Hit(heads[b][i], s)
  {
    var q := Removed(heads[b], i);
    assert BucketOk(heads[b], b, |heads|, servers);
    assert BucketOk(q, b, |heads|, servers);
    HeadsOkUpdate(heads, servers, b, q);
    forall s
      ensures Tally(heads', s) == Tally(heads, s) - Hit(heads[b][i], s)
    {
      TallyUpdate(heads, b, q, s);
      CountRemoved(heads[b], i, s);
    }
  }

  lemma {:induction false} ReplacedRight(heads: seq<Queue>, servers: nat, b: nat, i: nat, r: Req, heads': seq<Queue>)
    requires HeadsOk(heads, servers) && b < |heads| && i < |heads[b]| && heads' == heads[b := heads[b][i := r]]
    requires ReqOk(r, servers) && r.id == heads[b][i].id
    ensures HeadsOk(heads', servers)
    ensures forall s :: Tally(heads', s) == Tally(heads, s) - Hit(heads[b][i], s) + Hit(r, s)
  {
    var q := heads[b][i := r];
    assert BucketOk(heads[b], b, |heads|, servers);
    assert BucketOk(q, b, |heads|, servers);
    HeadsOkUpdate(heads, servers, b, q);
    forall s
      ensures Tally(heads', s) == Tally(heads, s) - Hit(heads[b][i], s) + Hit(r, s)
    {
      TallyUpdate(heads, b, q, s);
      CountReplaced(heads[b], i, r, s);
    }
  }

  lemma {:induction false} ReplacedElsewhere(heads: seq<Queue>, b: nat, i: nat, r: Req)
    requires b < |heads| && i < |heads[b]| && r.id == heads[b][i].id
    ensures forall id: nat :: id != r.id ==> Lookup(heads[b := heads[b][i := r]], id) == Lookup(heads, id)
  {
    forall id: nat | id != r.id
      ensures Lookup(heads[b := heads[b][i := r]], id) == Lookup(heads, id)
    {
      FindElsewhere(heads[b], i, r, id);
    }
  }

  lemma {:induction false} FindElsewhere(q: Queue, i: nat, r: Req, id: nat)
    requires i < |q| && r.id == q[i].id != id
    ensures FindIn(q[i := r], id) == FindIn(q, id)
  {
    if i == 0 {
      assert q[i := r][1..] == q[1..];
    } else {
      assert q[i := r][1..] == q[1..][i - 1 := r];
      FindElsewhere(q[1..], i - 1, r, id);
    }
  }

  // ----- name servers

  datatype Server = Server(up: bool, inflight: int)

  function UpCount(servers: seq<Server>): nat {
    if servers == [] then 0 else (if servers[0].up then 1 else 0) + UpCount(servers[1..])
  }

  lemma {:induction false} UpCountZero(servers: seq<Server>)
    ensures UpCount(servers) == 0 <==> forall i :: 0 <= i < |servers| ==> !servers[i].up
  {
    if servers != [] {
      UpCountZero(servers[1..]);
      if UpCount(servers) == 0 {
        forall i | 0 <= i < |servers|
          ensures !servers[i].up
        {
          assert i > 0 ==> servers[i] == servers[1..][i - 1];
        }
      } else if servers[0].up {
      } else {
        var i :| 0 <= i < |servers[1..]| && servers[1..][i].up;
        assert servers[i + 1].up;
      }
    }
  }

  lemma {:induction false} UpCountSame(servers: seq<Server>, i: nat, n: int)
    requires i < |servers|
    ensures UpCount(servers[i := servers[i].(inflight := n)]) == UpCount(servers)
  {
    var servers' := servers[i := servers[i].(inflight := n)];
    if i > 0 {
      assert servers'[1..] == servers[1..][i - 1 := servers[1..][i - 1].(inflight := n)];
      UpCountSame(servers[1..], i - 1, n);
    } else {
      assert servers'[1..] == servers[1..];
    }
  }

  /** A server with n more requests. */
  function Charged(servers: seq<Server>, i: nat, n: int): seq<Server>
    requires i < |servers|
  {
    servers[i := servers[i].(inflight := servers[i].inflight + n)]
  }

  /** One request moves from a server to another. */
  function Recharge(servers: seq<Server>, was: nat, ns: nat): seq<Server>
    requires was < |servers| && ns < |servers|
  {
    Charged(Charged(servers, was, -1), ns, 1)
  }

  /** Every server's count is the number of requests in flight assigned to it. */
  ghost predicate ServersOk(heads: seq<Queue>, servers: seq<Server>) {
    forall s :: 0 <= s < |servers| ==> servers[s].inflight == Tally(heads, OfServer(s))
  }

  /** A snapshot of the resolver's requests and servers. */
  datatype Table = Table(heads: seq<Queue>, waiting: Queue, inflight: int, waitingCount: int, maxInflight: nat,
                         servers: seq<Server>, serverHead: nat, good: nat)

  /** Counters are sizes, every request in flight is in the bucket of its id and counted by its server,
      and waiting requests have no server. */
  ghost predicate TableOk(t: Table) {
    && HeadsOk(t.heads, |t.servers|) && ServersOk(t.heads, t.servers)
    && t.inflight == Tally(t.heads, All)
    && t.waitingCount == |t.waiting|
    && (forall i :: 0 <= i < |t.waiting| ==> t.waiting[i].ns < 0)
    && 1 <= t.maxInflight <= MAX_MAX && |t.heads| == (t.maxInflight + 4) / 5
    && t.good == UpCount(t.servers) && (t.servers != [] ==> t.serverHead < |t.servers|)
  }

  /** How many unfinished requests has a person? */
  ghost function OpenIn(t: Table, who: nat): nat {
    Tally(t.heads, OfWho(who)) + Count(t.waiting, OfWho(who))
  }

  /** Servers without requests. */
  function Idle(up: seq<bool>): seq<Server> {
    seq(|up|, i requires 0 <= i < |up| => Server(up[i], 0))
  }

  function Start(up: seq<bool>): Table {
    Table(seq(13, _ => []), [], 0, 0, 64, Idle(up), 0, UpCount(Idle(up)))
  }

  /** One request changes its server: each count changes with it. */
  lemma {:induction false} Recharged(heads: seq<Queue>, heads': seq<Queue>, servers: seq<Server>, r: Req, r': Req)
    requires ServersOk(heads, servers) && 0 <= r.ns < |servers| && 0 <= r'.ns < |servers| && r.ns != r'.ns
    requires forall s :: Tally(heads', s) == Tally(heads, s) - Hit(r, s) + Hit(r', s)
    ensures ServersOk(heads', Charged(Charged(servers, r.ns, -1), r'.ns, 1))
  {
  }

  /** The place of a request in its bucket. */
  method Place(q: Queue, id: nat) returns (i: nat)
    requires FindIn(q, id).Some?
    ensures i < |q| && FindIn(q, id) == Some(q[i]) && q[i].id == id
  {
    i := 0;
    while q[i].id != id
      invariant i < |q| && FindIn(q, id) == FindIn(q[i..], id)
      decreases |q| - i
    {
      assert q[i..][1..] == q[i + 1..];
      i := i + 1;
    }
  }

  lemma {:induction false} FindAt(q: Queue, i: nat)
    requires i < |q| && DistinctIds(q)
    ensures FindIn(q, q[i].id) == Some(q[i])
  {
    if i > 0 {
      FindAt(q[1..], i - 1);
    }
  }

  lemma {:induction false} EmptyTally(heads: seq<Queue>, s: Selector)
    requires forall b :: 0 <= b < |heads| ==> heads[b] == []
    ensures Tally(heads, s) == 0
  {
    if heads != [] {
      EmptyTally(heads[1..], s);
    }
  }

  lemma {:induction false} RemovedIn(heads: seq<Queue>, b: nat, i: nat, heads': seq<Queue>)
    requires b < |heads| && i < |heads[b]| && heads' == heads[b := Removed(heads[b], i)]
    ensures forall x :: In(heads', x) ==> In(heads, x)
    ensures forall x :: In(heads, x) && x != heads[b][i] ==> In(heads', x)
  {
    var q := Removed(heads[b], i);
    forall x | x in heads[b] && x != heads[b][i]
      ensures x in q
    {
      var k :| 0 <= k < |heads[b]| && heads[b][k] == x;
      assert x == if k < i then q[k] else q[k - 1];
    }
    forall x | In(heads, x) && x != heads[b][i]
      ensures In(heads', x)
    {
      var c :| 0 <= c < |heads| && x in heads[c];
      assert x in heads'[c];
    }
    forall x | In(heads', x)
      ensures In(heads, x)
    {
      var c :| 0 <= c < |heads'| && x in heads'[c];
      assert x in heads[c];
    }
  }

  // ----- changing the number of buckets

  /** Some requests have been moved from the old table and the rest are still there. */
  ghost predicate Moving(all: seq<Queue>, rem: seq<Queue>, heads: seq<Queue>, servers: nat) {
    && HeadsOk(rem, servers) && HeadsOk(heads, servers)
    && (forall s :: Tally(rem, s) + Tally(heads, s) == Tally(all, s))
    && (forall x :: In(all, x) <==> In(rem, x) || In(heads, x))
    && (forall x, y :: In(rem, x) && In(heads, y) ==> x.id != y.id)
  }

  lemma {:induction false} MoveOne(all: seq<Queue>, rem: seq<Queue>, heads: seq<Queue>, servers: nat, b: nat,
                                   r: Req, rem': seq<Queue>, heads': seq<Queue>)
    requires Moving(all, rem, heads, servers) && b < |rem| && rem[b] != [] && r == rem[b][0]
    requires rem' == rem[b := Removed(rem[b], 0)] && heads' == Inserted(heads, r)
    ensures Moving(all, rem', heads', servers)
  {
    assert BucketOk(rem[b], b, |rem|, servers);
    assert ReqOk(rem[b][0], servers);
    assert In(rem, r) by {
      assert r in rem[b];
    }
    LookupRight(heads, servers, r.id);
    assert Lookup(heads, r.id).None?;
    InsertedRight(heads, servers, r);
    RemovedRight(rem, servers, b, 0, rem');
    RemovedIn(rem, b, 0, rem');
    forall x, y | In(rem', x) && In(heads', y)
      ensures x.id != y.id
    {
      if y == r {
        RemovedGone(rem, servers, b, rem', x);
      }
    }
  }

  lemma {:induction false} RemovedGone(rem: seq<Queue>, servers: nat, b: nat, rem': seq<Queue>, x: Req)
    requires HeadsOk(rem, servers) && b < |rem| && rem[b] != [] && rem' == rem[b := Removed(rem[b], 0)] && In(rem', x)
    ensures x.id != rem[b][0].id
  {
    var c :| 0 <= c < |rem'| && x in rem'[c];
    var k :| 0 <= k < |rem'[c]| && rem'[c][k] == x;
    assert x == if c == b then rem[b][k + 1] else rem[c][k];
    assert BucketOk(rem[b], b, |rem|, servers) && BucketOk(rem[c], c, |rem|, servers);
  }

  /** Move every request to the bucket of its id in a table of another size. */
  method Rehash(all: seq<Queue>, ghost servers: nat, n: nat) returns (heads: seq<Queue>)
    requires HeadsOk(all, servers) && n > 0
    ensures HeadsOk(heads, servers) && |heads| == n
    ensures forall s :: Tally(heads, s) == Tally(all, s)
    ensures forall id: nat :: Lookup(heads, id) == Lookup(all, id)
  {
    var rem := all;
    heads := seq(n, _ => []);
    forall s
      ensures Tally(heads, s) == 0
    {
      EmptyTally(heads, s);
    }
    for b := 0 to |all|
      invariant |rem| == |all| && |heads| == n && Moving(all, rem, heads, servers)
      invariant forall c :: 0 <= c < b ==> rem[c] == []
    {
      while rem[b] != []
        invariant |rem| == |all| && |heads| == n && Moving(all, rem, heads, servers)
        invariant forall c :: 0 <= c < b ==> rem[c] == []
        decreases |rem[b]|
      {
        ghost var rem0, heads0 := rem, heads;
        var r := rem[b][0];
        rem := rem[b := Removed(rem[b], 0)];
        heads := Inserted(heads, r);
        MoveOne(all, rem0, heads0, servers, b, r, rem, heads);
      }
    }
    Moved(all, rem, heads, servers);
  }

  lemma {:induction false} Moved(all: seq<Queue>, rem: seq<Queue>, heads: seq<Queue>, servers: nat)
    requires HeadsOk(all, servers) && Moving(all, rem, heads, servers) && forall b :: 0 <= b < |rem| ==> rem[b] == []
    ensures forall s :: Tally(heads, s) == Tally(all, s)
    ensures forall id: nat :: Lookup(heads, id) == Lookup(all, id)
  {
    forall s
      ensures Tally(heads, s) == Tally(all, s)
    {
      EmptyTally(rem, s);
    }
    forall id: nat
      ensures Lookup(heads, id) == Lookup(all, id)
    {
      LookupRight(heads, servers, id);
      LookupRight(all, servers, id);
      var o := Lookup(all, id);
      if o.Some? {
        assert In(all, o.value);
        assert Lookup(heads, id) == Some(o.value);
      } else if Lookup(heads, id).Some? {
        var x := Lookup(heads, id).value;
        assert Lookup(heads, id) == Some(x);
        assert In(all, x);
        assert Lookup(all, id) == Some(x);
      }
    }
  }

  /** The place k steps further round a circle of n. */
  function Around(start: nat, k: nat, n: nat): (r: nat)
    requires start < n && k <= n
    ensures r < n && (r == start + k || r + n == start + k)
  {
    if start + k < n then start + k else start + k - n
  }

  lemma {:induction false} NoneUp(servers: seq<Server>, start: nat)
    requires start < |servers|
    requires forall k {:trigger Around(start, k, |servers|)} :: 0 <= k < |servers| ==>
               !servers[Around(start, k, |servers|)].up
    ensures UpCount(servers) == 0
  {
    forall s | 0 <= s < |servers|
      ensures !servers[s].up
    {
      var k := if s >= start then s - start else s - start + |servers|;
      assert s == Around(start, k, |servers|);
    }
    UpCountZero(servers);
  }

  // ----- promotions

  /** How many places round the circle, from place k on, is the first server that is up? */
  function FirstUp(servers: seq<Server>, start: nat, k: nat): (n: nat)
    requires start < |servers| && k <= |servers|
    ensures k <= n <= |servers|
    decreases |servers| - k
  {
    if k == |servers| || servers[Around(start, k, |servers|)].up then k else FirstUp(servers, start, k + 1)
  }

  lemma {:induction false} FirstUpIs(servers: seq<Server>, start: nat, k: nat, n: nat)
    requires start < |servers| && k <= n < |servers| && servers[Around(start, n, |servers|)].up
    requires forall j {:trigger Around(start, j, |servers|)} :: k <= j < n ==> !servers[Around(start, j, |servers|)].up
    ensures FirstUp(servers, start, k) == n
    decreases n - k
  {
    if k < n {
      assert !servers[Around(start, k, |servers|)].up;
      FirstUpIs(servers, start, k + 1, n);
    }
  }

  /** The server that is picked next, and where the circle then starts. */
  function Picked(servers: seq<Server>, head: nat, good: nat): (ns: nat)
    requires head < |servers|
    ensures ns < |servers|
  {
    Around(head, if good == 0 then 1 else FirstUp(servers, head, 0), |servers|)
  }

  function HeadAfter(servers: seq<Server>, head: nat, good: nat): nat
    requires head < |servers|
  {
    var ns := Picked(servers, head, good);
    if good == 0 then ns else Around(ns, 1, |servers|)
  }

  /** ns is the server that is picked next, and the circle starts at head' then: ns is the first that is up from
      head on, and head' the one behind it; if none is up, both are the one behind head. */
  ghost predicate IsPicked(servers: seq<Server>, head: nat, ns: int, head': nat) {
    && head < |servers| && 0 <= ns < |servers|
    && if forall s :: 0 <= s < |servers| ==> !servers[s].up then ns == head' == Around(head, 1, |servers|)
       else
         && servers[ns].up && head' == Around(ns, 1, |servers|)
         && exists steps {:trigger Around(head, steps, |servers|)} ::
              && 0 <= steps < |servers| && ns == Around(head, steps, |servers|)
              && forall k {:trigger Around(head, k, |servers|)} ::
                   0 <= k < steps ==> !servers[Around(head, k, |servers|)].up
  }

  predicate CanPump(t: Table) {
    t.inflight < t.maxInflight && t.waiting != [] && t.serverHead < |t.servers| && |t.heads| > 0
  }

  predicate FreeIn(t: Table, id: nat)
    requires |t.heads| > 0
  {
    id < NO_ID && Lookup(t.heads, id).None?
  }

  /** The oldest waiting request goes into flight, with a new id and the next server. */
  function Promoted(t: Table, id: nat): Table
    requires CanPump(t)
  {
    var ns := Picked(t.servers, t.serverHead, t.good);
    t.(heads := Inserted(t.heads, t.waiting[0].(id := id, ns := ns)), inflight := t.inflight + 1,
       waiting := t.waiting[1..], waitingCount := t.waitingCount - 1,
       servers := Charged(t.servers, ns, 1), serverHead := HeadAfter(t.servers, t.serverHead, t.good))
  }

  /** A server that is up is found in at most one turn. */
  lemma {:induction false} PickedIs(servers: seq<Server>, head: nat)
    requires head < |servers|
    ensures IsPicked(servers, head, Picked(servers, head, UpCount(servers)), HeadAfter(servers, head, UpCount(servers)))
  {
    UpCountZero(servers);
    var n := FirstUp(servers, head, 0);
    FirstUpRight(servers, head, 0);
    if n == |servers| {
      NoneUp(servers, head);
    }
  }

  lemma {:induction false} FirstUpRight(servers: seq<Server>, start: nat, k: nat)
    requires start < |servers| && k <= |servers|
    ensures var n := FirstUp(servers, start, k);
            && (n < |servers| ==> servers[Around(start, n, |servers|)].up)
            && forall j {:trigger Around(start, j, |servers|)} ::
                 k <= j < n ==> !servers[Around(start, j, |servers|)].up
    decreases |servers| - k
  {
    if k < |servers| && !servers[Around(start, k, |servers|)].up {
      FirstUpRight(servers, start, k + 1);
    }
  }

  /** A promotion puts the oldest waiting request in flight, to the server that is picked next. */
  lemma {:induction false} PromotedGoes(t: Table, id: nat)
    requires TableOk(t) && CanPump(t) && FreeIn(t, id)
    ensures var t' := Promoted(t, id);
            && t'.waiting == t.waiting[1..] && t.inflight < t'.inflight <= t'.maxInflight == t.maxInflight
            && exists r: Req ::
                 && r == t.waiting[0].(id := id, ns := r.ns) && Lookup(t.heads, id).None?
                 && t'.heads == Inserted(t.heads, r) && IsPicked(t.servers, t.serverHead, r.ns, t'.serverHead)
                 && t'.servers == Charged(t.servers, r.ns, 1)
  {
    PickedIs(t.servers, t.serverHead);
    var r := t.waiting[0].(id := id, ns := Picked(t.servers, t.serverHead, t.good));
    assert r == t.waiting[0].(id := id, ns := r.ns);
  }

  /** Promotions never go above the limit. */
  lemma {:induction false} PromotesWithin(t: Table, ids: seq<nat>, t': Table)
    requires Promotes(t, ids, t')
    ensures t'.inflight == t.inflight + |ids| && t'.maxInflight == t.maxInflight
    ensures ids != [] ==> t'.inflight <= t'.maxInflight
    decreases |ids|
  {
    if ids != [] {
      PromotesWithin(Promoted(t, ids[0]), ids[1..], t');
    }
  }

  /** Promotions with these ids, one after the other, lead from t to t'. */
  ghost predicate Promotes(t: Table, ids: seq<nat>, t': Table)
    decreases |ids|
  {
    if ids == [] then t' == t else CanPump(t) && FreeIn(t, ids[0]) && Promotes(Promoted(t, ids[0]), ids[1..], t')
  }

  lemma {:induction false} PromotesOne(t: Table, ids: seq<nat>, t1: Table, id: nat)
    requires Promotes(t, ids, t1) && CanPump(t1) && FreeIn(t1, id)
    ensures Promotes(t, ids + [id], Promoted(t1, id))
    decreases |ids|
  {
    if ids == [] {
      assert Promotes(Promoted(t, id), [], Promoted(t, id));
      assert ([] + [id])[1..] == [];
    } else {
      assert (ids + [id])[1..] == ids[1..] + [id];
      PromotesOne(Promoted(t, ids[0]), ids[1..], t1, id);
    }
  }

  /** The request at place i of bucket b is taken out. */
  function Unlinked(t: Table, b: nat, i: nat): Table
    requires b < |t.heads| && i < |t.heads[b]| && 0 <= t.heads[b][i].ns < |t.servers|
  {
    t.(heads := t.heads[b := Removed(t.heads[b], i)], inflight := t.inflight - 1,
       servers := Charged(t.servers, t.heads[b][i].ns, -1))
  }

  /** The request with this id is taken out, and waiting ones are promoted while there is room. */
  ghost predicate Finishes(t: Table, id: nat, t': Table)
    requires |t.heads| > 0
  {
    exists i, ids :: FinishesAt(t, id % |t.heads|, i, id, ids, t')
  }

  ghost predicate FinishesAt(t: Table, b: nat, i: nat, id: nat, ids: seq<nat>, t': Table) {
    && b < |t.heads| && i < |t.heads[b]| && t.heads[b][i].id == id && 0 <= t.heads[b][i].ns < |t.servers|
    && Promotes(Unlinked(t, b, i), ids, t') && !CanPump(t')
  }

  /** The request at place k of the waiting queue is taken out. */
  function Dropped(t: Table, k: nat): Table
    requires k < |t.waiting|
  {
    t.(waiting := Removed(t.waiting, k), waitingCount := t.waitingCount - 1)
  }

  ghost predicate Drops(t: Table, k: nat, t': Table) {
    k < |t.waiting| && !CanPump(t') && exists ids :: Promotes(Dropped(t, k), ids, t')
  }

  lemma {:induction false} PromotedOk(t: Table, id: nat)
    requires TableOk(t) && CanPump(t) && FreeIn(t, id)
    ensures TableOk(Promoted(t, id)) && forall w :: OpenIn(Promoted(t, id), w) == OpenIn(t, w)
  {
    var ns := Picked(t.servers, t.serverHead, t.good);
    var r := t.waiting[0].(id := id, ns := ns);
    InsertedRight(t.heads, |t.servers|, r);
    UpCountSame(t.servers, ns, t.servers[ns].inflight + 1);
    forall w
      ensures Count(t.waiting, OfWho(w)) == Count(t.waiting[1..], OfWho(w)) + if w == r.who then 1 else 0
    {
    }
  }

  lemma {:induction false} UnlinkedOk(t: Table, b: nat, i: nat)
    requires TableOk(t) && b < |t.heads| && i < |t.heads[b]|
    ensures 0 <= t.heads[b][i].ns < |t.servers| && TableOk(Unlinked(t, b, i))
    ensures forall w :: OpenIn(Unlinked(t, b, i), w) + (if w == t.heads[b][i].who then 1 else 0) == OpenIn(t, w)
  {
    var r := t.heads[b][i];
    assert BucketOk(t.heads[b], b, |t.heads|, |t.servers|);
    assert ReqOk(r, |t.servers|);
    RemovedRight(t.heads, |t.servers|, b, i, t.heads[b := Removed(t.heads[b], i)]);
    UpCountSame(t.servers, r.ns, t.servers[r.ns].inflight - 1);
  }

  class Base {
    var heads: seq<Queue>
    var waiting: Queue
    var inflight: int
    var waitingCount: int
    var maxInflight: nat
    var servers: seq<Server>
    var serverHead: nat
    var good: nat

    ghost predicate Valid()
      reads this
    {
      TableOk(Now())
    }

    ghost function Now(): Table
      reads this
    {
      Table(heads, waiting, inflight, waitingCount, maxInflight, servers, serverHead, good)
    }

    /** The request in flight with a transaction id. */
    method FindFromTransId(id: nat) returns (r: Option<Req>)
      requires Valid()
      ensures forall q :: r == Some(q) <==> In(heads, q) && q.id == id
      ensures r == Lookup(heads, id)
    {
      LookupRight(heads, |servers|, id);
      var bucket := heads[id % |heads|];
      for i := 0 to |bucket|
        invariant Lookup(heads, id) == FindIn(bucket[i..], id)
      {
        if bucket[i].id == id {
          return Some(bucket[i]);
        }
        assert bucket[i..][1..] == bucket[i + 1..];
      }
      return None;
    }

    /** Some id that is not in flight, at random. */
    method TransactionIdPick() returns (id: nat)
      requires Valid() && inflight < NO_ID
      ensures id < NO_ID && Lookup(heads, id).None?
    {
      FreeId(heads, |servers|);
      id :| id < NO_ID && Lookup(heads, id).None?;
    }

    /** The next server, round-robin, that is up; any server if none is. */
    method NameserverPick() returns (ns: int, ghost steps: nat)
      requires Valid()
      modifies this`serverHead
      ensures Valid()
      ensures ns >= -1 && (ns == -1 <==> servers == []) && (ns == -1 ==> serverHead == old(serverHead))
      ensures ns >= 0 ==> ns < |servers| && (servers[ns].up <==> good > 0)
      ensures ns >= 0 ==> IsPicked(servers, old(serverHead), ns, serverHead)
      ensures ns >= 0 ==>
                && old(serverHead) < |servers| && ns == Picked(servers, old(serverHead), good)
                && serverHead == HeadAfter(servers, old(serverHead), good)
      ensures ns >= 0 && good == 0 ==> ns == serverHead == Around(old(serverHead), 1, |servers|)
      ensures ns >= 0 && good > 0 ==>
                && steps < |servers| && ns == Around(old(serverHead), steps, |servers|)
                && serverHead == Around(ns, 1, |servers|)
                && forall k {:trigger Around(old(serverHead), k, |servers|)} ::
                     0 <= k < steps ==> !servers[Around(old(serverHead), k, |servers|)].up
    {
      ns, steps := -1, 0;
      if servers == [] {
        return;
      }
      UpCountZero(servers);
      var n := |servers|;
      if good == 0 {
        serverHead := Around(serverHead, 1, n);
        ns := serverHead;
        return;
      }
      ghost var start := serverHead;
      assert start == Around(start, 0, n);
      while !servers[serverHead].up
        invariant serverHead < n && steps < n && serverHead == Around(start, steps, n)
        invariant forall k {:trigger Around(start, k, n)} :: 0 <= k < steps ==> !servers[Around(start, k, n)].up
        decreases n - steps
      {
        // coming round to the start would mean that no server is up
        assert steps + 1 < n by {
          if steps + 1 == n {
            NoneUp(servers, start);
          }
        }
        serverHead := Around(serverHead, 1, n);
        steps := steps + 1;
      }
      FirstUpIs(servers, start, 0, steps);
      ns := serverHead;
      serverHead := Around(serverHead, 1, n);
    }

    /** Put a request in flight. */
    method Launch(r: Req)
      requires Valid() && ReqOk(r, |servers|) && Lookup(heads, r.id).None?
      modifies this`heads, this`servers, this`inflight
      ensures Valid() && heads == Inserted(old(heads), r) && servers == Charged(old(servers), r.ns, 1)
      ensures inflight == old(inflight) + 1
      ensures forall w :: OpenIn(Now(), w) == OpenIn(old(Now()), w) + if w == r.who then 1 else 0
      ensures forall x :: In(heads, x) <==> In(old(heads), x) || x == r
    {
      InsertedRight(heads, |servers|, r);
      UpCountSame(servers, r.ns, servers[r.ns].inflight + 1);
      heads := Inserted(heads, r);
      inflight := inflight + 1;
      servers := Charged(servers, r.ns, 1);
    }

    /** Make a request and submit it: in flight if there is room and a server, else it waits. */
    method Submit(who: nat)
      requires Valid()
      modifies this
      ensures Valid() && forall w :: OpenIn(Now(), w) == OpenIn(old(Now()), w) + if w == who then 1 else 0
      ensures maxInflight == old(maxInflight) && |servers| == |old(servers)|
      ensures old(inflight) < maxInflight && servers != [] ==>
                && waiting == old(waiting) && inflight == old(inflight) + 1
                && exists r: Req ::
                     && r.who == who && FreeIn(old(Now()), r.id) && heads == Inserted(old(heads), r)
                     && IsPicked(old(servers), old(serverHead), r.ns, serverHead)
                     && servers == Charged(old(servers), r.ns, 1)
      ensures !(old(inflight) < maxInflight && servers != []) ==>
                && heads == old(heads) && inflight == old(inflight) && |waiting| == |old(waiting)| + 1
                && servers == old(servers) && serverHead == old(serverHead)
                && waiting[..|old(waiting)|] == old(waiting) && waiting[|old(waiting)|].who == who
                && (waiting[|old(waiting)|].id == NO_ID <==> old(inflight) >= maxInflight)
    {
      var id, ns := NO_ID, -1;
      if inflight < maxInflight {
        id := TransactionIdPick();
        ghost var steps;
        ns, steps := NameserverPick();
      }
      var r := Req(who, id, ns);
      if ns >= 0 {
        Launch(r);
        assert r.who == who;
      } else {
        forall w
          ensures Count(waiting + [r], OfWho(w)) == Count(waiting, OfWho(w)) + if w == who then 1 else 0
        {
          CountAdded(waiting, r, OfWho(w));
        }
        waiting := waiting + [r];
        waitingCount := waitingCount + 1;
      }
    }

    /** Probe a server: in flight whatever the limit is. */
    method SendProbe(who: nat, ns: nat)
      requires Valid() && ns < |servers| && inflight < NO_ID
      modifies this
      ensures Valid() && forall w :: OpenIn(Now(), w) == OpenIn(old(Now()), w) + if w == who then 1 else 0
      ensures inflight == old(inflight) + 1 && waiting == old(waiting) && servers == Charged(old(servers), ns, 1)
      ensures maxInflight == old(maxInflight)
      ensures exists r: Req ::
                r.who == who && r.ns == ns && FreeIn(old(Now()), r.id) && heads == Inserted(old(heads), r)
      ensures if old(inflight) < maxInflight then exists ns0 :: IsPicked(old(servers), old(serverHead), ns0, serverHead)
              else serverHead == old(serverHead)
    {
      if inflight < maxInflight {
        // the request takes an id and a server that are then replaced
        var id0 := TransactionIdPick();
        var ns0, steps := NameserverPick();
      }
      var id := TransactionIdPick();
      var r := Req(who, id, ns);
      Launch(r);
      assert r.who == who;
    }

    /** Move waiting requests, oldest first, into flight while there is room. */
    method PumpWaitingQueue() returns (ghost ids: seq<nat>)
      requires Valid()
      modifies this
      ensures Promotes(old(Now()), ids, Now()) && !CanPump(Now())
      ensures Valid() && forall w :: OpenIn(Now(), w) == OpenIn(old(Now()), w)
      ensures maxInflight == old(maxInflight) && |servers| == |old(servers)|
      ensures waiting == [] || inflight >= maxInflight || servers == []
      ensures exists n :: 0 <= n <= |old(waiting)| && waiting == old(waiting)[n..] && inflight == old(inflight) + n
      ensures inflight == old(inflight) || inflight <= maxInflight
      ensures forall x :: In(old(heads), x) ==> In(heads, x)
    {
      ghost var waiting0, n := waiting, 0;
      ids := [];
      while inflight < maxInflight && waitingCount > 0
        invariant Valid() && forall w :: OpenIn(Now(), w) == OpenIn(old(Now()), w)
        invariant maxInflight == old(maxInflight) && |servers| == |old(servers)|
        invariant n <= |waiting0| && waiting == waiting0[n..] && inflight == old(inflight) + n
        invariant inflight == old(inflight) || inflight <= maxInflight
        invariant forall x :: In(old(heads), x) ==> In(heads, x)
        invariant Promotes(old(Now()), ids, Now())
        decreases |waiting|
      {
        ghost var t := Now();
        var moved, id := PumpOne();
        if !moved {
          return;
        }
        PromotesOne(old(Now()), ids, t, id);
        ids := ids + [id];
        assert waiting0[n..][1..] == waiting0[n + 1..];
        n := n + 1;
      }
    }

    /** Move the oldest waiting request into flight, if there is a server. */
    method PumpOne() returns (moved: bool, ghost id: nat)
      requires Valid() && waiting != [] && inflight < maxInflight
      modifies this
      ensures Valid() && forall w :: OpenIn(Now(), w) == OpenIn(old(Now()), w)
      ensures maxInflight == old(maxInflight) && |servers| == |old(servers)|
      ensures moved <==> servers != []
      ensures moved ==> CanPump(old(Now())) && FreeIn(old(Now()), id) && Now() == Promoted(old(Now()), id)
      ensures moved ==> waiting == old(waiting)[1..] && inflight == old(inflight) + 1
      ensures !moved ==> Now() == old(Now())
      ensures forall x :: In(old(heads), x) ==> In(heads, x)
    {
      var ns, steps := NameserverPick();
      if ns < 0 {
        return false, 0;
      }
      var r := Dequeue();
      var picked := TransactionIdPick();
      Launch(r.(id := picked, ns := ns));
      return true, picked;
    }

    /** Take the oldest waiting request off the queue. */
    method Dequeue() returns (r: Req)
      requires Valid() && waiting != []
      modifies this`waiting, this`waitingCount
      ensures Valid() && r == old(waiting)[0] && waiting == old(waiting)[1..]
      ensures forall w :: OpenIn(Now(), w) + (if w == r.who then 1 else 0) == OpenIn(old(Now()), w)
    {
      r := waiting[0];
      waiting := waiting[1..];
      waitingCount := waitingCount - 1;
    }

    constructor (up: seq<bool>)
      ensures Valid() && Now() == Start(up)
      ensures |heads| == 13 && (forall b :: 0 <= b < 13 ==> heads[b] == []) && waiting == [] && maxInflight == 64
      ensures serverHead == 0 && |servers| == |up| && forall s :: 0 <= s < |up| ==> servers[s] == Server(up[s], 0)
    {
      heads, waiting, inflight, waitingCount, maxInflight := seq(13, _ => []), [], 0, 0, 64;
      servers, serverHead, good := Idle(up), 0, UpCount(Idle(up));
      new;
      forall s
        ensures Tally(heads, s) == 0
      {
        EmptyTally(heads, s);
      }
    }

    /** A request in flight ends; others may take its place. */
    method FinishInflight(id: nat)
      requires Valid() && Lookup(heads, id).Some?
      modifies this
      ensures Valid() && Finishes(old(Now()), id, Now())
      ensures forall w :: OpenIn(Now(), w) + (if w == old(Lookup(heads, id)).value.who then 1 else 0) ==
                OpenIn(old(Now()), w)
      ensures waiting == [] || inflight >= maxInflight || servers == []
      ensures inflight + |waiting| == old(inflight) + |old(waiting)| - 1
      ensures inflight < old(inflight) || inflight <= maxInflight
      ensures forall x :: In(old(heads), x) && x.id != id ==> In(heads, x)
      ensures maxInflight == old(maxInflight) && |servers| == |old(servers)|
    {
      var b := id % |heads|;
      var i := Place(heads[b], id);
      ghost var ids := FinishAt(b, i);
      assert FinishesAt(old(Now()), b, i, id, ids, Now());
    }

    /** The request at place i of bucket b ends. */
    method FinishAt(b: nat, i: nat) returns (ghost ids: seq<nat>)
      requires Valid() && b < |heads| && i < |heads[b]|
      modifies this
      ensures Valid() && maxInflight == old(maxInflight) && |servers| == |old(servers)|
      ensures forall w :: OpenIn(Now(), w) + (if w == old(heads)[b][i].who then 1 else 0) == OpenIn(old(Now()), w)
      ensures waiting == [] || inflight >= maxInflight || servers == []
      ensures inflight + |waiting| == old(inflight) + |old(waiting)| - 1
      ensures inflight < old(inflight) || inflight <= maxInflight
      ensures forall x :: In(old(heads), x) && x.id != old(heads)[b][i].id ==> In(heads, x)
      ensures 0 <= old(heads)[b][i].ns < |old(servers)| && Promotes(Unlinked(old(Now()), b, i), ids, Now())
      ensures !CanPump(Now())
    {
      Unlink(b, i);
      ids := PumpWaitingQueue();
    }

    /** Take a request out of its bucket. */
    method Unlink(b: nat, i: nat)
      requires Valid() && b < |heads| && i < |heads[b]|
      modifies this`heads, this`servers, this`inflight
      ensures Valid() && heads == old(heads)[b := Removed(old(heads)[b], i)]
      ensures 0 <= old(heads)[b][i].ns < |old(servers)| && Now() == Unlinked(old(Now()), b, i)
      ensures servers == Charged(old(servers), old(heads)[b][i].ns, -1) && inflight == old(inflight) - 1
      ensures forall w :: OpenIn(Now(), w) + (if w == old(heads)[b][i].who then 1 else 0) == OpenIn(old(Now()), w)
      ensures forall x :: In(old(heads), x) && x.id != old(heads)[b][i].id ==> In(heads, x)
    {
      var r := heads[b][i];
      assert BucketOk(heads[b], b, |heads|, |servers|);
      assert ReqOk(r, |servers|);
      ghost var heads' := heads[b := Removed(heads[b], i)];
      RemovedRight(heads, |servers|, b, i, heads');
      RemovedIn(heads, b, i, heads');
      UpCountSame(servers, r.ns, servers[r.ns].inflight - 1);
      heads := heads[b := Removed(heads[b], i)];
      inflight := inflight - 1;
      servers := Charged(servers, r.ns, -1);
    }

    /** A waiting request ends. */
    method FinishWaiting(k: nat) returns (ghost ids: seq<nat>)
      requires Valid() && k < |waiting|
      modifies this
      ensures Valid()
      ensures forall w :: OpenIn(Now(), w) + (if w == old(waiting)[k].who then 1 else 0) == OpenIn(old(Now()), w)
      ensures inflight + |waiting| == old(inflight) + |old(waiting)| - 1
      ensures inflight == old(inflight) || inflight <= maxInflight
      ensures waiting == [] || inflight >= maxInflight || servers == []
      ensures forall x :: In(old(heads), x) ==> In(heads, x)
      ensures maxInflight == old(maxInflight) && |servers| == |old(servers)|
      ensures Promotes(Dropped(old(Now()), k), ids, Now()) && Drops(old(Now()), k, Now())
    {
      forall w
        ensures Count(Removed(waiting, k), OfWho(w)) == Count(waiting, OfWho(w)) - if w == waiting[k].who then 1 else 0
      {
        CountRemoved(waiting, k, OfWho(w));
      }
      waiting := Removed(waiting, k);
      waitingCount := waitingCount - 1;
      ids := PumpWaitingQueue();
    }

    /** Move a request in flight to another server. */
    method SwapNs(id: nat, ns: int)
      requires Valid() && Lookup(heads, id).Some? && -1 <= ns < |servers|
      modifies this`heads, this`servers
      ensures Valid() && forall w :: OpenIn(Now(), w) == OpenIn(old(Now()), w)
      ensures var was := old(Lookup(heads, id));
              && Lookup(heads, id) == (if ns < 0 then was else Some(was.value.(ns := ns)))
              && if ns < 0 then servers == old(servers)
                 else 0 <= was.value.ns < |old(servers)| && servers == Recharge(old(servers), was.value.ns, ns)
      ensures forall id': nat :: id' != id ==> Lookup(heads, id') == Lookup(old(heads), id')
    {
      var b := id % |heads|;
      var i := Place(heads[b], id);
      var r := heads[b][i];
      assert BucketOk(heads[b], b, |heads|, |servers|);
      FindAt(heads[b], i);
      if ns < 0 || r.ns == ns {
        return;
      }
      ReplacedElsewhere(heads, b, i, r.(ns := ns));
      Reassign(b, i, r.ns, ns);
      assert BucketOk(heads[b], b, |heads|, |servers|);
      FindAt(heads[b], i);
    }

    method Reassign(b: nat, i: nat, was: int, ns: nat)
      requires Valid() && b < |heads| && i < |heads[b]| && ns < |servers| && heads[b][i].ns == was != ns
      modifies this`heads, this`servers
      ensures Valid() && heads == old(heads)[b := old(heads)[b][i := old(heads)[b][i].(ns := ns)]]
      ensures forall w :: OpenIn(Now(), w) == OpenIn(old(Now()), w)
      ensures 0 <= was < |old(servers)| && servers == Recharge(old(servers), was, ns)
    {
      assert BucketOk(heads[b], b, |heads|, |servers|);
      assert ReqOk(heads[b][i], |servers|);
      var r' := heads[b][i].(ns := ns);
      ReplacedRight(heads, |servers|, b, i, r', heads[b := heads[b][i := r']]);
      UpCountSame(servers, was, servers[was].inflight - 1);
      var servers1 := Charged(servers, was, -1);
      UpCountSame(servers1, ns, servers1[ns].inflight + 1);
      var heads' := heads[b := heads[b][i := r']];
      Recharged(heads, heads', servers, heads[b][i], r');
      heads := heads';
      servers := Charged(servers1, ns, 1);
    }

    /** Change how many requests may be in flight, and with it the number of buckets. */
    method SetMaxRequestsInflight(max: int)
      requires Valid() && max <= MAX_MAX
      modifies this`heads, this`maxInflight
      ensures Valid() && maxInflight == (if max < 1 then 1 else max) && |heads| == (maxInflight + 4) / 5
      ensures forall id: nat :: Lookup(heads, id) == Lookup(old(heads), id)
      ensures forall w :: OpenIn(Now(), w) == OpenIn(old(Now()), w)
    {
      var m := if max < 1 then 1 else max;
      heads := Rehash(heads, |servers|, (m + 4) / 5);
      maxInflight := m;
    }
  }
}
