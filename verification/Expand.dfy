/** Making room at the end of an evbuffer and reading into several chunks at once. */
module Expansion {
  import opened Basics
  import opened Chunks
  import opened EvBuffers

  const NUM_READ_IOVEC: nat := 4
  const EVBUFFER_MAX_READ: nat := 4096
  const MAX_TO_COPY_IN_EXPAND: nat := 4096

  /** Position of the first chunk, from the last one with data on, that has space. */
  function FirstSpace(cs: seq<Chunk>, k: nat): nat
    requires k < |cs| && cs[k].Ok()
  {
    if cs[k].Space() == 0 then k + 1 else k
  }

  /** Free bytes in the m chunks from position s on. */
  ghost function Room(cs: seq<Chunk>, s: nat, m: nat): nat
    requires AllOk(cs) && s + m <= |cs|
  {
    if m == 0 then 0 else Room(cs, s, m - 1) + cs[s + m - 1].Space()
  }

  /** The first m chunks with space hold at least n more bytes. */
  ghost predicate HasRoom(cs: seq<Chunk>, k: nat, m: nat, n: nat) {
    && AllOk(cs) && k < |cs|
    && var s := FirstSpace(cs, k);
       && s + m <= |cs| && Room(cs, s, m) >= n
       && (forall i {:trigger cs[i]} :: s <= i < s + m ==> cs[i].Space() > 0)
       && (s == k || cs[k].off > 0)
  }

  /** Room only looks at the chunks it counts. */
  lemma {:induction false} RoomSame(a: seq<Chunk>, b: seq<Chunk>, s: nat, m: nat)
    requires AllOk(a) && AllOk(b) && s + m <= |a| && s + m <= |b|
    requires forall i :: s <= i < s + m ==> a[i] == b[i]
    ensures Room(a, s, m) == Room(b, s, m)
  {
    if m > 0 {
      RoomSame(a, b, s, m - 1);
    }
  }

  lemma {:induction false} RoomFirst(cs: seq<Chunk>, s: nat, m: nat)
    requires AllOk(cs) && 0 < m && s + m <= |cs|
    ensures Room(cs, s, m) >= cs[s].Space()
  {
    if m > 1 {
      RoomFirst(cs, s, m - 1);
    }
  }

  /** Moving the window of an empty chunk changes nothing else. */
  lemma {:induction false} Realign(cs: seq<Chunk>, last: Ref, p: Slot, len: nat, k: nat, i: nat, cs': seq<Chunk>)
    requires Consistent(cs, last, p, len, k) && i < |cs| && cs[i].off == 0
    requires cs' == cs[i := cs[i].(misalign := 0)]
    ensures Consistent(cs', last, p, len, k) && Flatten(cs') == Flatten(cs)
  {
    FlattenAt(cs, i);
    assert cs'[i].Ok();
    FlattenAt(cs', i);
    assert cs'[..i] == cs[..i] && cs'[i + 1..] == cs[i + 1..];
  }

  /** An empty chunk at the end changes nothing but the last pointer. */
  lemma {:induction false} AppendEmpty(cs: seq<Chunk>, last: Ref, p: Slot, len: nat, k: nat, c: Chunk, cs': seq<Chunk>)
    requires Consistent(cs, last, p, len, k) && |cs| > 0
    requires c.Ok() && c.off == 0 && Fresh(c.addr, cs) && cs' == cs + [c]
    ensures Consistent(cs', At(c.addr), p, len, k) && Flatten(cs') == Flatten(cs)
  {
    FlattenOne(c);
    FlattenAppend(cs, [c]);
  }

  lemma {:induction false} OnlyNewSame(a: seq<Chunk>, b: seq<Chunk>, malloc: Option<nat>)
    requires |a| == |b| && forall i :: 0 <= i < |a| ==> a[i].addr == b[i].addr
    ensures OnlyNew(a, b, malloc) && (Unused(malloc, a) ==> Unused(malloc, b))
  {
    forall x | Fresh(x, a)
      ensures Fresh(x, b)
    {
    }
  }

  /** The chunks from the last one with data up to position i have been looked at: used of them
      have space, avail bytes together. */
  ghost predicate Counted(cs: seq<Chunk>, k: nat, i: nat, used: nat, avail: nat) {
    && AllOk(cs) && k < |cs|
    && if i == k then used == 0 && avail == 0
       else && HasRoom(cs, k, used, avail)
            && i == FirstSpace(cs, k) + used
            && Room(cs, FirstSpace(cs, k), used) == avail
  }

  /** Counting one more chunk, realigned if it was empty. */
  lemma {:induction false} CountOne(cs: seq<Chunk>, k: nat, i: nat, used: nat, avail: nat, cs': seq<Chunk>)
    requires Counted(cs, k, i, used, avail) && k <= i < |cs| && AllOk(cs')
    requires |cs'| == |cs| && (forall j :: 0 <= j < |cs| && j != i ==> cs'[j] == cs[j])
    requires cs'[i].off == 0 ==> cs'[i].misalign == 0
    requires i > k ==> cs'[i].off == 0
    ensures var sp := cs'[i].Space();
            Counted(cs', k, i + 1, if sp > 0 then used + 1 else used, avail + sp)
  {
    var s := FirstSpace(cs', k);
    if i > k {
      assert cs'[k] == cs[k];
      RoomSame(cs, cs', s, used);
    }
  }

  /** How much room is there in the first n chunks with space? Empty chunks are realigned on the
      way. */
  method CountRoom(chains: seq<Chunk>, last: Ref, p: Slot, len: nat, ghost k: nat, datlen: nat, n: nat)
      returns (cs: seq<Chunk>, used: nat, avail: nat)
    requires Consistent(chains, last, p, len, k) && |chains| > 0 && n >= 2
    ensures Consistent(cs, last, p, len, k) && Flatten(cs) == Flatten(chains)
    ensures |cs| == |chains| && forall i :: 0 <= i < |cs| ==> cs[i].addr == chains[i].addr
    ensures used <= n && HasRoom(cs, k, used, avail) && Room(cs, FirstSpace(cs, k), used) == avail
    ensures avail < datlen && used < n ==> FirstSpace(cs, k) + used == |cs|
  {
    FollowSlotTo(chains, k);
    cs, used, avail := chains, 0, 0;
    var i, more := Follow(chains, p), true;
    while i < |cs| && more
      invariant Consistent(cs, last, p, len, k) && Flatten(cs) == Flatten(chains)
      invariant |cs| == |chains| && forall j :: 0 <= j < |cs| ==> cs[j].addr == chains[j].addr
      invariant k <= i <= |cs| && used <= n && (i == k ==> more)
      invariant Counted(cs, k, i, used, avail)
      invariant more ==> used < n
      invariant !more ==> avail >= datlen || used == n
      decreases |cs| - i
    {
      cs, used, avail := LookAt(cs, last, p, len, k, i, used, avail);
      i := i + 1;
      more := avail < datlen && used < n;
    }
  }

  /** One round of the counting loop. */
  method LookAt(chains: seq<Chunk>, last: Ref, p: Slot, len: nat, ghost k: nat, i: nat, used0: nat, avail0: nat)
      returns (cs: seq<Chunk>, used: nat, avail: nat)
    requires Consistent(chains, last, p, len, k) && k <= i < |chains| && Counted(chains, k, i, used0, avail0)
    ensures Consistent(cs, last, p, len, k) && Flatten(cs) == Flatten(chains)
    ensures |cs| == |chains| && forall j :: 0 <= j < |cs| ==> cs[j].addr == chains[j].addr
    ensures used <= used0 + 1 && Counted(cs, k, i + 1, used, avail)
  {
    cs := chains;
    if cs[i].off == 0 {
      cs := cs[i := cs[i].(misalign := 0)];
      Realign(chains, last, p, len, k, i, cs);
    }
    CountOne(chains, k, i, used0, avail0, cs);
    var space := cs[i].Space();
    used, avail := if space > 0 then used0 + 1 else used0, avail0 + space;
  }

  /** One more empty chunk behind the ones counted. */
  lemma {:induction false} RoomWithNew(cs: seq<Chunk>, k: nat, used: nat, avail: nat, c: Chunk, m: nat)
    requires HasRoom(cs, k, used, avail) && c.Ok() && c.Space() > 0
    requires FirstSpace(cs, k) + used == |cs| && m == used + 1
    ensures HasRoom(cs + [c], k, m, avail + c.Space())
  {
    assert (cs + [c])[k] == cs[k];
    RoomSame(cs, cs + [c], FirstSpace(cs, k), used);
  }

  /** Make sure that datlen bytes can be stored in at most n chunks at the end; ghost m is the
      number of chunks that takes. It can only fail for want of memory. */
  method ExpandFast(b: EvBuffer, datlen: nat, n: nat, malloc: Option<nat>) returns (ok: bool, ghost m: nat)
    requires b.Valid() && n >= 2 && Unused(malloc, b.chains)
    modifies b
    ensures b.Valid() && b.Content() == old(b.Content()) && OnlyNew(old(b.chains), b.chains, malloc)
    ensures ok ==> m <= n && HasRoom(b.chains, b.k, m, datlen)
    ensures Grants(malloc, datlen) ==> ok
  {
    if |b.chains| == 0 {
      ok, m := FirstChunk(b, datlen, malloc);
      return;
    }
    var cs, used, avail := CountRoom(b.chains, b.last, b.lastWithDatap, b.totalLen, b.k, datlen, n);
    OnlyNewSame(b.chains, cs, malloc);
    b.Commit(cs, b.last, b.lastWithDatap, b.totalLen, b.k);
    if avail >= datlen {
      ok, m := true, used;
    } else if used < n {
      ok, m := AddTail(b, used, avail, datlen - avail, malloc);
    } else {
      RoomFirst(cs, FirstSpace(cs, b.k), used);
      ok, m := ReplaceEmpty(b, datlen, avail, malloc);
    }
  }

  /** There was no chunk at all. */
  method FirstChunk(b: EvBuffer, datlen: nat, malloc: Option<nat>) returns (ok: bool, ghost m: nat)
    requires b.Valid() && b.chains == [] && Unused(malloc, b.chains)
    modifies b
    ensures b.Valid() && b.Content() == old(b.Content()) && OnlyNew(old(b.chains), b.chains, malloc)
    ensures ok <==> Grants(malloc, datlen)
    ensures ok ==> m == 1 && HasRoom(b.chains, b.k, m, datlen)
  {
    var c := NewChunk(malloc, datlen);
    if c.None? {
      return false, 0;
    }
    OnlyNewTail(b.chains, 0, c.value);
    RoomInTwo([], 0, 0, c.value, datlen);
    b.ChainInsert(c.value);
    return true, 1;
  }

  /** The chunks ended before n of them had space: one more may be added. */
  method AddTail(b: EvBuffer, ghost used: nat, avail: nat, more: nat, malloc: Option<nat>)
      returns (ok: bool, ghost m: nat)
    requires b.Valid() && Unused(malloc, b.chains) && more > 0
    requires HasRoom(b.chains, b.k, used, avail) && FirstSpace(b.chains, b.k) + used == |b.chains|
    modifies b
    ensures b.Valid() && b.Content() == old(b.Content()) && OnlyNew(old(b.chains), b.chains, malloc)
    ensures m == used + 1 && (ok ==> HasRoom(b.chains, b.k, m, avail + more))
    ensures Grants(malloc, more) ==> ok
  {
    m := used + 1;
    var block := NewChunk(malloc, more);
    if block.None? {
      return false, m;
    }
    var tmp := block.value;
    var cs := b.chains + [tmp];
    AppendEmpty(b.chains, b.last, b.lastWithDatap, b.totalLen, b.k, tmp, cs);
    RoomWithNew(b.chains, b.k, used, avail, tmp, m);
    OnlyNewTail(b.chains, |b.chains|, tmp);
    assert b.chains[..|b.chains|] == b.chains;
    b.Commit(cs, At(tmp.addr), b.lastWithDatap, b.totalLen, b.k);
    ok := true;
  }

  /** n chunks with space were not enough: one new chunk takes the place of all empty ones. They are
      freed first, and stay so if there is no memory for the new one. */
  method ReplaceEmpty(b: EvBuffer, datlen: nat, ghost avail: nat, malloc: Option<nat>) returns (ok: bool, ghost m: nat)
    requires b.Valid() && Unused(malloc, b.chains) && |b.chains| > 0
    requires b.chains[b.k].off > 0 ==> b.chains[b.k].Space() <= avail
    requires avail < datlen
    modifies b
    ensures b.Valid() && b.Content() == old(b.Content()) && OnlyNew(old(b.chains), b.chains, malloc)
    ensures m <= 2 && (ok ==> HasRoom(b.chains, b.k, m, datlen))
    ensures Grants(malloc, datlen) ==> ok
  {
    FollowSlotTo(b.chains, b.k);
    var i := Follow(b.chains, b.lastWithDatap);
    var front, left := [], 0;
    if b.chains[i].off > 0 {
      front, left := b.chains[..i + 1], b.chains[i].Space();
    }
    m := if left > 0 then 2 else 1;
    var block := NewChunk(malloc, datlen - left);
    if block.None? {
      DropEmpty(b, front);
      OnlyNewPrefix(old(b.chains), |front|, malloc);
      return false, m;
    }
    var tmp := block.value;
    var cs := front + [tmp];
    ReplaceTail(b.chains, b.last, b.lastWithDatap, b.totalLen, b.k, tmp);
    OnlyNewTail(b.chains, |front|, tmp);
    RoomInTwo(front, b.k, left, tmp, datlen);
    b.Commit(cs, At(tmp.addr), b.lastWithDatap, b.totalLen, b.k);
    ok := true;
  }

  lemma OnlyNewPrefix(cs: seq<Chunk>, n: nat, malloc: Option<nat>)
    requires n <= |cs|
    ensures OnlyNew(cs, cs[..n], malloc)
  {
  }

  /** The list without the empty chunks at its end. */
  lemma {:induction false} CutEmpty(cs: seq<Chunk>, last: Ref, p: Slot, len: nat, k: nat, front: seq<Chunk>)
    requires Consistent(cs, last, p, len, k) && k < |cs| && cs[k].off > 0 && front == cs[..k + 1]
    ensures Consistent(front, At(front[k].addr), p, len, k) && Flatten(front) == Flatten(cs)
  {
    KeptFlatten(cs, k);
    assert Good(front, k);
    assert SlotTo(front, k) == SlotTo(cs, k);
  }

  /** Free the empty chunks behind front. */
  method DropEmpty(b: EvBuffer, front: seq<Chunk>)
    requires b.Valid() && |b.chains| > 0
    requires front == if b.chains[b.k].off > 0 then b.chains[..b.k + 1] else []
    modifies b
    ensures b.Valid() && b.Content() == old(b.Content()) && b.chains == front
  {
    if front == [] {
      KeptFlatten(b.chains, b.k);
      b.Zero();
    } else {
      CutEmpty(b.chains, b.last, b.lastWithDatap, b.totalLen, b.k, front);
      b.Commit(front, At(front[|front| - 1].addr), b.lastWithDatap, b.totalLen, b.k);
    }
  }

  lemma {:induction false} RoomInTwo(front: seq<Chunk>, k: nat, left: nat, c: Chunk, datlen: nat)
    requires AllOk(front) && c.Ok() && left + c.Space() >= datlen && c.Space() > 0
    requires if front == [] then k == 0 && left == 0
             else |front| == k + 1 && front[k].off > 0 && left == front[k].Space()
    ensures HasRoom(front + [c], k, if left > 0 then 2 else 1, datlen)
  {
    var cs := front + [c];
    if front == [] {
      assert Room(cs, 0, 1) == Room(cs, 0, 0) + cs[0].Space();
    } else if left > 0 {
      assert Room(cs, k, 1) == Room(cs, k, 0) + cs[k].Space();
      assert Room(cs, k, 2) == Room(cs, k, 1) + cs[k + 1].Space();
    } else {
      assert Room(cs, k + 1, 1) == Room(cs, k + 1, 0) + cs[k + 1].Space();
    }
  }

  // ----- room in a single chunk

  /** Chunk r, the last one with data or the one behind it, has room for n bytes. */
  ghost predicate RoomIn(cs: seq<Chunk>, k: nat, r: nat, n: nat) {
    && AllOk(cs) && r < |cs| && cs[r].Space() >= n
    && (r == k || (r == k + 1 && (cs[k].off > 0 || cs[k].Space() == 0)))
  }

  /** Another chunk, with the same data, takes the place of the last one with data. */
  lemma {:induction false} Replace(cs: seq<Chunk>, last: Ref, p: Slot, len: nat, k: nat, c: Chunk,
                                   cs': seq<Chunk>, last': Ref)
    requires Consistent(cs, last, p, len, k) && k < |cs| && cs[k].off > 0
    requires c.Ok() && c.Data() == cs[k].Data() && (Fresh(c.addr, cs) || c.addr == cs[k].addr)
    requires cs' == cs[k := c] && last' == if last == At(cs[k].addr) then At(c.addr) else last
    ensures Consistent(cs', last', p, len, k) && Flatten(cs') == Flatten(cs)
  {
    ReplaceContent(cs, k, c);
    ReplaceRefs(cs, k, c);
    assert Good(cs', k);
  }

  lemma {:induction false} ReplaceContent(cs: seq<Chunk>, k: nat, c: Chunk)
    requires AllOk(cs) && k < |cs| && c.Ok() && c.Data() == cs[k].Data()
    ensures AllOk(cs[k := c]) && Flatten(cs[k := c]) == Flatten(cs)
  {
    var cs' := cs[k := c];
    FlattenAt(cs, k);
    FlattenAt(cs', k);
    assert cs'[..k] == cs[..k] && cs'[k + 1..] == cs[k + 1..];
  }

  lemma {:induction false} ReplaceRefs(cs: seq<Chunk>, k: nat, c: Chunk)
    requires Distinct(cs) && k < |cs|
    ensures LastRef(cs[k := c]) == if LastRef(cs) == At(cs[k].addr) then At(c.addr) else LastRef(cs)
    ensures SlotTo(cs[k := c], k) == SlotTo(cs, k)
  {
    if k < |cs| - 1 {
      assert cs[|cs| - 1].addr != cs[k].addr;
    }
  }

  lemma OnlyNewReplaced(cs: seq<Chunk>, k: nat, c: Chunk)
    requires k < |cs|
    ensures OnlyNew(cs, cs[k := c], Some(c.addr))
  {
  }

  /** Put an empty chunk of at least datlen bytes behind the data. */
  method InsertEmpty(b: EvBuffer, datlen: nat, malloc: Option<nat>) returns (ok: bool, r: nat)
    requires b.Valid() && Unused(malloc, b.chains)
    modifies b
    ensures b.Valid() && b.Content() == old(b.Content()) && OnlyNew(old(b.chains), b.chains, malloc)
    ensures ok <==> Grants(malloc, datlen)
    ensures if ok then RoomIn(b.chains, b.k, r, datlen) else b.chains == old(b.chains)
  {
    var c := NewChunk(malloc, datlen);
    if c.None? {
      return false, 0;
    }
    OnlyNewTail(b.chains, Kept(b.chains, b.k), c.value);
    b.ChainInsert(c.value);
    ok, r := true, |b.chains| - 1;
  }

  /** Put chunk i, the last one with data, in a larger block. */
  method Resize(b: EvBuffer, i: nat, datlen: nat, malloc: Option<nat>) returns (ok: bool)
    requires b.Valid() && Unused(malloc, b.chains) && i == b.k < |b.chains| && b.chains[i].off > 0
    modifies b
    ensures b.Valid() && b.Content() == old(b.Content()) && OnlyNew(old(b.chains), b.chains, malloc)
    ensures ok <==> Grants(malloc, old(b.chains)[i].off + datlen)
    ensures if ok then RoomIn(b.chains, b.k, i, datlen) else b.chains == old(b.chains)
  {
    var chain := b.chains[i];
    var block := NewChunk(malloc, chain.off + datlen);
    if block.None? {
      return false;
    }
    var tmp := block.value.Append(chain.Data());
    var cs := b.chains[i := tmp];
    var last := if b.last == At(chain.addr) then At(tmp.addr) else b.last;
    Replace(b.chains, b.last, b.lastWithDatap, b.totalLen, b.k, tmp, cs, last);
    OnlyNewReplaced(b.chains, i, tmp);
    b.Commit(cs, last, b.lastWithDatap, b.totalLen, b.k);
    ok := true;
  }

  /** Make sure that there is room for datlen bytes in a single chunk, and return its place: the first one
      with space is used, realigned, put in a larger block, or followed by another. It can only fail for
      want of memory, and then changes nothing. */
  method ExpandSinglechain(b: EvBuffer, datlen: nat, malloc: Option<nat>) returns (ok: bool, r: nat)
    requires b.Valid() && Unused(malloc, b.chains)
    modifies b
    ensures b.Valid() && b.Content() == old(b.Content()) && OnlyNew(old(b.chains), b.chains, malloc)
    ensures if ok then RoomIn(b.chains, b.k, r, datlen) else b.chains == old(b.chains)
    ensures Grants(malloc, datlen + MAX_TO_COPY_IN_EXPAND) ==> ok
  {
    FollowSlotTo(b.chains, b.k);
    var i := Follow(b.chains, b.lastWithDatap);
    if i < |b.chains| && b.chains[i].Space() == 0 {
      i := i + 1;
    }
    if i == |b.chains| {
      ok, r := InsertEmpty(b, datlen, malloc);
      return;
    }
    var chain := b.chains[i];
    assert chain.Ok();
    if chain.Space() >= datlen {
      return true, i;
    }
    if chain.off == 0 {
      ok, r := InsertEmpty(b, datlen, malloc);
    } else if chain.ShouldRealign(datlen) {
      OnlyNewUpdate(b.chains, i, chain.Align(), malloc);
      NoMore(b.Content(), chain.Data());
      b.GrowLast(i, chain.Align(), []);
      ok, r := true, i;
    } else if chain.Space() < |chain.buffer| / 8 || chain.off > MAX_TO_COPY_IN_EXPAND
              || datlen >= EVBUFFER_CHAIN_MAX - chain.off {
      if i + 1 < |b.chains| && b.chains[i + 1].Space() >= datlen {
        ok, r := true, i + 1;
      } else {
        ok, r := InsertEmpty(b, datlen, malloc);
      }
    } else {
      r := i;
      ok := Resize(b, i, datlen, malloc);
    }
  }

  lemma NoMore(s: seq<byte>, d: seq<byte>)
    ensures s + [] == s && d + [] == d
  {
  }

  // ----- reading into the room made

  function Sum(ns: seq<nat>): nat {
    if ns == [] then 0 else ns[0] + Sum(ns[1..])
  }

  lemma {:induction false} SumSnoc(ns: seq<nat>, n: nat)
    ensures Sum(ns + [n]) == Sum(ns) + n
  {
    if ns == [] {
      assert Sum([n][1..]) == 0;
    } else {
      assert (ns + [n])[1..] == ns[1..] + [n];
      SumSnoc(ns[1..], n);
    }
  }

  /** Pieces of free space, one a chunk, all but the last one whole. */
  ghost predicate Extents(cs: seq<Chunk>, start: nat, lens: seq<nat>) {
    && AllOk(cs) && start + |lens| <= |cs|
    && (forall j {:trigger lens[j]} :: 0 <= j < |lens| ==> 0 < lens[j] <= cs[start + j].Space())
    && (forall j {:trigger lens[j]} :: 0 <= j < |lens| - 1 ==> lens[j] == cs[start + j].Space())
  }

  lemma {:induction false} OneMoreExtent(cs: seq<Chunk>, start: nat, lens: seq<nat>, n: nat)
    requires Extents(cs, start, lens) && start + |lens| < |cs| && 0 < n <= cs[start + |lens|].Space()
    requires |lens| > 0 ==> lens[|lens| - 1] == cs[start + |lens| - 1].Space()
    ensures Extents(cs, start, lens + [n]) && Sum(lens + [n]) == Sum(lens) + n
  {
    SumSnoc(lens, n);
  }

  /** The extents offered to a vectored read of howmuch bytes: slot p leads to the first chunk
      used, at position start, and lens are the lengths of the pieces. With exact they add up to
      howmuch, else they are all whole. */
  method ReadSetupVecs(chains: seq<Chunk>, lastWithDatap: Slot, howmuch: nat, nVecs: nat, exact: bool,
                       ghost k: nat, ghost m: nat)
      returns (p: Slot, start: nat, lens: seq<nat>)
    requires Good(chains, k) && k < |chains| && lastWithDatap == SlotTo(chains, k)
    requires HasRoom(chains, k, m, howmuch) && m <= nVecs
    ensures start == FirstSpace(chains, k) && p == SlotTo(chains, start)
    ensures |lens| <= nVecs && Extents(chains, start, lens) && Offered(chains, start, lens, howmuch, exact)
  {
    FollowSlotTo(chains, k);
    p, start := lastWithDatap, Follow(chains, lastWithDatap);
    if chains[start].Space() == 0 {
      p, start := NextOf(chains[start].addr), start + 1;
    }
    lens := OfferSpace(chains, start, howmuch, nVecs, exact, m);
  }

  /** The pieces are howmuch bytes together, or whole chunks of which the last one is needed. */
  ghost predicate Offered(cs: seq<Chunk>, start: nat, lens: seq<nat>, howmuch: nat, exact: bool)
    requires Extents(cs, start, lens)
  {
    if exact then Sum(lens) == howmuch
    else
      && Sum(lens) == Room(cs, start, |lens|) >= howmuch
      && (|lens| > 0 ==> Room(cs, start, |lens| - 1) < howmuch)
      && (|lens| > 0 ==> lens[|lens| - 1] == cs[start + |lens| - 1].Space())
  }

  method OfferSpace(chains: seq<Chunk>, start: nat, howmuch: nat, nVecs: nat, exact: bool, ghost m: nat)
      returns (lens: seq<nat>)
    requires AllOk(chains) && start + m <= |chains| && Room(chains, start, m) >= howmuch && m <= nVecs
    requires forall i :: start <= i < start + m ==> chains[i].Space() > 0
    ensures |lens| <= nVecs && Extents(chains, start, lens) && Offered(chains, start, lens, howmuch, exact)
  {
    lens := [];
    var soFar: nat := 0;
    while |lens| < nVecs && soFar < howmuch
      invariant Extents(chains, start, lens) && soFar == Sum(lens) && |lens| <= m
      invariant exact ==> soFar <= howmuch
      invariant soFar < howmuch || !exact ==> soFar == Room(chains, start, |lens|)
      invariant soFar < howmuch || !exact ==> |lens| > 0 ==> lens[|lens| - 1] == chains[start + |lens| - 1].Space()
      invariant |lens| > 0 ==> Room(chains, start, |lens| - 1) < howmuch
      decreases nVecs - |lens|
    {
      var avail := chains[start + |lens|].Space();
      if avail > howmuch - soFar && exact {
        avail := howmuch - soFar;
      }
      OneMoreExtent(chains, start, lens, avail);
      lens := lens + [avail];
      soFar := soFar + avail;
    }
  }

  lemma {:induction false} FillShape(cs: seq<Chunk>, k: nat, i: nat, c: Chunk)
    requires Good(cs, k) && k < |cs| && i < |cs| && (i == k || (i == k + 1 && cs[k].off > 0))
    requires c.Ok() && c.addr == cs[i].addr && c.off > 0
    ensures Good(cs[i := c], i)
  {
  }

  lemma {:induction false} FillContent(cs: seq<Chunk>, i: nat, c: Chunk, d: seq<byte>)
    requires AllOk(cs) && i < |cs| && (forall j :: i < j < |cs| ==> cs[j].off == 0)
    requires c.Ok() && c.Data() == cs[i].Data() + d
    ensures AllOk(cs[i := c]) && Flatten(cs[i := c]) == Flatten(cs) + d
  {
    var cs' := cs[i := c];
    FlattenAt(cs, i);
    FlattenAt(cs', i);
    assert cs'[..i] == cs[..i] && cs'[i + 1..] == cs[i + 1..];
    FlattenEmpty(cs[i + 1..]);
    Assoc(Flatten(cs[..i]), cs[i].Data(), d);
  }

  /** Storing d in the chunk behind all data, or at the end of the last chunk with data. */
  lemma {:induction false} FillNext(cs: seq<Chunk>, last: Ref, p: Slot, len: nat, k: nat, i: nat, c: Chunk,
                                    d: seq<byte>, cs': seq<Chunk>, p': Slot, len': nat)
    requires Consistent(cs, last, p, len, k) && k < |cs| && i < |cs| && d != []
    requires i == k || (i == k + 1 && cs[k].off > 0)
    requires c.Ok() && c.addr == cs[i].addr && c.Data() == cs[i].Data() + d
    requires cs' == cs[i := c] && p' == SlotTo(cs, i) && len' == len + |d| <= EV_SIZE_MAX
    ensures Consistent(cs', last, p', len', i) && Flatten(cs') == Flatten(cs) + d
  {
    FillContent(cs, i, c, d);
    FillShape(cs, k, i, c);
  }

  ghost predicate SameAddrs(a: seq<Chunk>, b: seq<Chunk>) {
    |a| == |b| && forall i {:trigger b[i]} :: 0 <= i < |a| ==> a[i].addr == b[i].addr
  }

  /** The state of a distribution: rest is still to be stored, from chunk i on, in the pieces
      of free space lens. */
  ghost predicate Filling(cs0: seq<Chunk>, cs: seq<Chunk>, last: Ref, p: Slot, len: nat, k: nat,
                          i: nat, lens: seq<nat>, rest: seq<byte>) {
    && SameAddrs(cs0, cs)
    && Consistent(cs, last, p, len, k) && k < |cs| && i < |cs|
    && (i == k || (i == k + 1 && cs[k].off > 0))
    && Extents(cs, i, lens)
    && 0 < |rest| <= Sum(lens) && len + |rest| <= EV_SIZE_MAX
  }

  /** Store the bytes that a vectored read returned: all the space of each chunk in turn, and
      what is left in the chunk that becomes the last one with data. */
  method Distribute(cs0: seq<Chunk>, last: Ref, p0: Slot, len0: nat, ghost k0: nat,
                    q0: Slot, start: nat, lens0: seq<nat>, input: seq<byte>)
      returns (cs: seq<Chunk>, q: Slot, i: nat)
    requires Filling(cs0, cs0, last, p0, len0, k0, start, lens0, input) && q0 == SlotTo(cs0, start)
    ensures Consistent(cs, last, q, len0 + |input|, i) && Flatten(cs) == Flatten(cs0) + input
    ensures SameAddrs(cs0, cs)
  {
    cs, q, i := cs0, q0, start;
    var lens, rest := lens0, input;
    ghost var p: Slot, len: nat, k: nat := p0, len0, k0;
    while cs[i].Space() < |rest|
      invariant Filling(cs0, cs, last, p, len, k, i, lens, rest) && q == SlotTo(cs, i)
      invariant len + |rest| == len0 + |input| && Flatten(cs) + rest == Flatten(cs0) + input
      decreases |lens|
    {
      cs, p, len, k, rest := FillChunk(cs0, cs, last, p, len, k, i, lens, rest);
      q := NextOf(cs[i].addr);
      i, lens := i + 1, lens[1..];
    }
    cs := FillLast(cs0, cs, last, p, len, k, i, lens, rest, len0 + |input|);
  }

  /** The end of a distribution: chunk i takes all that is left. */
  method FillLast(ghost cs0: seq<Chunk>, cs: seq<Chunk>, last: Ref, ghost p: Slot, ghost len: nat, ghost k: nat,
                  i: nat, ghost lens: seq<nat>, rest: seq<byte>, ghost total: nat)
      returns (cs': seq<Chunk>)
    requires Filling(cs0, cs, last, p, len, k, i, lens, rest) && |rest| <= cs[i].Space() && total == len + |rest|
    ensures SameAddrs(cs0, cs') && Consistent(cs', last, SlotTo(cs, i), total, i) && Flatten(cs') == Flatten(cs) + rest
  {
    ghost var p', len', k';
    cs', p', len', k' := StoreAt(cs, last, p, len, k, i, rest);
    SameSlot(cs, cs', i);
  }

  lemma {:induction false} SameSlot(cs: seq<Chunk>, cs': seq<Chunk>, i: nat)
    requires SameAddrs(cs, cs') && i < |cs|
    ensures SlotTo(cs', i) == SlotTo(cs, i)
  {
    if i > 0 {
      assert cs'[i - 1].addr == cs[i - 1].addr;
    }
  }

  /** One round of a distribution: chunk i takes all it has space for. */
  method FillChunk(ghost cs0: seq<Chunk>, cs: seq<Chunk>, last: Ref, ghost p: Slot, ghost len: nat, ghost k: nat,
                   i: nat, ghost lens: seq<nat>, rest: seq<byte>)
      returns (cs': seq<Chunk>, ghost p': Slot, ghost len': nat, ghost k': nat, rest': seq<byte>)
    requires Filling(cs0, cs, last, p, len, k, i, lens, rest) && cs[i].Space() < |rest|
    ensures Filling(cs0, cs', last, p', len', k', i + 1, lens[1..], rest')
    ensures len' + |rest'| == len + |rest| && Flatten(cs') + rest' == Flatten(cs) + rest
  {
    ghost var before := Flatten(cs);
    var sp := cs[i].Space();
    TakeDrop(rest, sp);
    assert lens[0] <= sp;
    assert Sum(lens) == lens[0] + Sum(lens[1..]);
    assert |lens| > 1 && |rest[sp..]| <= Sum(lens[1..]);
    cs', p', len', k' := StoreAt(cs, last, p, len, k, i, rest[..sp]);
    rest' := rest[sp..];
    Assoc(before, rest[..sp], rest[sp..]);
    NextExtent(cs, cs', i, lens);
  }

  lemma {:induction false} NextExtent(cs: seq<Chunk>, cs': seq<Chunk>, i: nat, lens: seq<nat>)
    requires Extents(cs, i, lens) && |lens| > 1 && AllOk(cs') && |cs'| == |cs|
    requires forall x :: i < x < |cs| ==> cs'[x] == cs[x]
    ensures Extents(cs', i + 1, lens[1..])
  {
    var ls := lens[1..];
    forall j | 0 <= j < |ls|
      ensures 0 < ls[j] <= cs'[i + 1 + j].Space() && (j < |ls| - 1 ==> ls[j] == cs'[i + 1 + j].Space())
    {
      assert cs'[i + 1 + j] == cs[i + (j + 1)] && ls[j] == lens[j + 1];
    }
  }

  /** Append d to chunk i. */
  method StoreAt(cs: seq<Chunk>, last: Ref, ghost p: Slot, ghost len: nat, ghost k: nat, i: nat, d: seq<byte>)
      returns (cs': seq<Chunk>, ghost p': Slot, ghost len': nat, ghost k': nat)
    requires Consistent(cs, last, p, len, k) && k < |cs| && i < |cs| && (i == k || (i == k + 1 && cs[k].off > 0))
    requires 0 < |d| <= cs[i].Space() && len + |d| <= EV_SIZE_MAX
    ensures Consistent(cs', last, p', len', k') && Flatten(cs') == Flatten(cs) + d
    ensures SameAddrs(cs, cs') && forall x :: i < x < |cs| ==> cs'[x] == cs[x]
    ensures p' == SlotTo(cs', i) && len' == len + |d| && k' == i && cs'[i].off > 0
  {
    cs' := cs[i := cs[i].Append(d)];
    p', len', k' := SlotTo(cs, i), len + |d|, i;
    FillNext(cs, last, p, len, k, i, cs[i].Append(d), d, cs', p', len');
  }

  /** How many bytes a read asks for: what is wanted, but no more than can be read now, and never more
      than the maximum; the maximum if that is not known. */
  function Clamp(howmuch: int, readable: int): (n: nat)
    ensures n <= EVBUFFER_MAX_READ && (0 <= howmuch ==> n <= howmuch) && (0 < readable ==> n <= readable)
    ensures n == EVBUFFER_MAX_READ || n == howmuch || n == readable > 0
  {
    var n := if readable <= 0 || readable > EVBUFFER_MAX_READ then EVBUFFER_MAX_READ else readable;
    if howmuch < 0 || howmuch > n then n else howmuch
  }

  /** Read into the buffer: readable is how many bytes the descriptor says it has, and input is what the
      vectored read of at most the offered size returns; None for an error, and nothing at the end. */
  method Read(b: EvBuffer, howmuch: int, readable: int, input: Option<seq<byte>>, malloc: Option<nat>)
      returns (result: int)
    requires b.Valid() && Unused(malloc, b.chains)
    requires input.Some? ==> |input.value| <= Clamp(howmuch, readable) && b.totalLen + |input.value| <= EV_SIZE_MAX
    modifies b
    ensures b.Valid() && OnlyNew(old(b.chains), b.chains, malloc)
    ensures result < 0 ==> result == -1 && b.Content() == old(b.Content())
    ensures result >= 0 ==>
              input.Some? && result == |input.value| && b.Content() == old(b.Content()) + input.value
    ensures malloc.Some? && input.Some? ==> result >= 0
  {
    var n := Clamp(howmuch, readable);
    var ok, m := ExpandFast(b, n, NUM_READ_IOVEC, malloc);
    if !ok || input.None? {
      return -1;
    }
    if |input.value| == 0 {
      return 0;
    }
    var q, start, lens := ReadSetupVecs(b.chains, b.lastWithDatap, n, NUM_READ_IOVEC, true, b.k, m);
    var cs, p, k' := Distribute(b.chains, b.last, b.lastWithDatap, b.totalLen, b.k, q, start, lens, input.value);
    OnlyNewSame(b.chains, cs, malloc);
    b.Commit(cs, b.last, p, b.totalLen + |input.value|, k');
    result := |input.value|;
  }
}
