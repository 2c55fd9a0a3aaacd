/** The evbuffer: a list of chunks that behaves like one flat byte string.

    The list order stands for the first and next pointers; last and lastWithDatap are the
    pointers that every operation has to repair. What the allocator answers, an address that is
    not in use or nothing, is a parameter (malloc). */
module EvBuffers {
  import opened Basics
  import opened Chunks

  const EVBUFFER_CHAIN_MAX_AUTO_SIZE: nat := 4096

  /** Can n bytes be added behind the data of a list without, or else with, a new chunk? */
  ghost predicate CanAdd(cs: seq<Chunk>, k: nat, n: nat, malloc: Option<nat>) {
    || Grants(malloc, n)
    || (k < |cs| && cs[k].Ok() && (n <= cs[k].Space() || cs[k].ShouldRealign(n)))
  }

  /** Bytes that can be put in front of the data of a list without a new chunk. */
  function FrontRoom(cs: seq<Chunk>): nat {
    if |cs| == 0 then 0 else if cs[0].off == 0 then |cs[0].buffer| else cs[0].misalign
  }

  datatype Stretch = Stretch(chunks: nat, bytes: nat)

  /** How many chunks lie within the first n bytes of a list, and how many bytes follow them. */
  ghost function Whole(cs: seq<Chunk>, n: nat): (r: Stretch)
    ensures r.bytes <= n
  {
    if cs == [] || n < cs[0].off then Stretch(0, n)
    else
      var r := Whole(cs[1..], n - cs[0].off);
      r.(chunks := r.chunks + 1)
  }

  /** How many of the first n bytes of src do not arrive when they are moved to dst: whole chunks are
      relinked, and a part of a chunk is added behind them if there is memory for it. */
  ghost function Lost(src: seq<Chunk>, dst: seq<Chunk>, k: nat, n: nat, malloc: Option<nat>): (lost: nat)
    ensures lost <= n
  {
    var Stretch(i, rest) := Whole(src, n);
    if (if i > 0 then CanAdd(src, i - 1, rest, malloc) else CanAdd(dst, k, rest, malloc)) then 0 else rest
  }

  /** Free the trailing empty chunks; p is the slot where the list now ends. */
  method TrimTail(chains: seq<Chunk>, lastWithDatap: Slot, ghost k: nat) returns (cs: seq<Chunk>, p: Slot)
    requires Good(chains, k) && k <= |chains| && lastWithDatap == SlotTo(chains, k)
    ensures cs == chains[..Kept(chains, k)] && p == SlotTo(cs, |cs|)
  {
    FollowSlotTo(chains, k);
    p := lastWithDatap;
    var i := Follow(chains, p);
    while i < |chains| && chains[i].off != 0
      invariant k <= i <= |chains| && p == SlotTo(chains, i)
      invariant i == k || i == Kept(chains, k)
    {
      p := NextOf(chains[i].addr);
      i := i + 1;
    }
    cs := chains[..i];
  }

  /** Move a slot forward over the chunks with data. */
  method AdvanceLastWithData(chains: seq<Chunk>, p0: Slot, ghost k0: nat, ghost k: nat) returns (p: Slot)
    requires Good(chains, k) && k0 <= k && p0 == SlotTo(chains, k0)
    ensures p == SlotTo(chains, k)
  {
    FollowSlotTo(chains, k0);
    p := p0;
    var i := Follow(chains, p);
    if i >= |chains| {
      return;
    }
    while i + 1 < |chains| && chains[i + 1].off > 0
      invariant k0 <= i <= k && p == SlotTo(chains, i)
    {
      p := NextOf(chains[i].addr);
      i := i + 1;
    }
  }

  /** Where the pointer to the last chunk with data goes after a pullup. */
  function PulledSlot(goneData: bool, gonePtr: bool, p: Slot, first: nat, rest: seq<Chunk>): Slot {
    if goneData then First
    else if gonePtr then if |rest| > 0 && rest[0].off > 0 then NextOf(first) else First
    else p
  }

  /** Copy the data of one chunk to the end of tmp. */
  method CopyOne(cs: seq<Chunk>, tmp: Chunk, j: nat, ghost j': nat) returns (tmp': Chunk)
    requires AllOk(cs) && j < |cs| && j' == j + 1 && tmp.Ok() && cs[j].off <= tmp.Space()
    requires AllOk(cs[..j]) && tmp.Data() == Flatten(cs[..j])
    ensures tmp'.Ok() && tmp'.addr == tmp.addr && tmp'.misalign == tmp.misalign && |tmp'.buffer| == |tmp.buffer|
    ensures AllOk(cs[..j']) && tmp'.Data() == Flatten(cs[..j']) && tmp'.off == tmp.off + cs[j].off
  {
    tmp' := tmp.Append(cs[j].Data());
    FlattenNext(cs, j);
  }

  /** Copy whole chunks, from chunk j0 on, while they fit in n bytes; note whether the last chunk with
      data, or the one in front of it, was among them. */
  method CopyChunks(cs: seq<Chunk>, ghost k: nat, ghost total: nat, lastWithDatap: Slot, tmp0: Chunk, j0: nat, n: nat)
      returns (tmp: Chunk, j: nat, rem: nat, goneData: bool, gonePtr: bool)
    requires Good(cs, k) && 0 < k && total == |Flatten(cs)| && lastWithDatap == SlotTo(cs, k)
    requires Follow(cs, lastWithDatap) == k
    requires cs[0].off < n <= total && tmp0.Ok() && |tmp0.buffer| - tmp0.misalign >= n
    requires j0 <= 1 && AllOk(cs[..j0]) && tmp0.Data() == Flatten(cs[..j0])
    requires tmp0.off == if j0 == 0 then 0 else cs[0].off
    ensures 0 < j <= |cs| && AllOk(cs[..j]) && (j < |cs| ==> j <= k && rem < cs[j].off)
    ensures tmp.Ok() && tmp.addr == tmp0.addr && tmp.Data() == Flatten(cs[..j])
    ensures rem == n - tmp.off && rem <= tmp.Space() && (j == |cs| ==> rem == 0)
    ensures goneData <==> k < j
    ensures gonePtr <==> j0 < k <= j
  {
    tmp, j, rem, goneData, gonePtr := tmp0, j0, n - tmp0.off, false, false;
    var lwd := Follow(cs, lastWithDatap);
    while j < |cs| && rem >= cs[j].off
      invariant j0 <= j <= |cs| && AllOk(cs[..j])
      invariant tmp.Ok() && tmp.addr == tmp0.addr && tmp.misalign == tmp0.misalign && |tmp.buffer| == |tmp0.buffer|
      invariant tmp.Data() == Flatten(cs[..j]) && rem == n - tmp.off
      invariant goneData <==> k < j
      invariant gonePtr <==> j0 < k <= j
    {
      rem := rem - cs[j].off;
      tmp := CopyOne(cs, tmp, j, j + 1);
      SlotIsAfter(cs, k, j);
      goneData := goneData || j == lwd;
      gonePtr := gonePtr || lastWithDatap == NextOf(cs[j].addr);
      j := j + 1;
    }
    assert cs[..|cs|] == cs;
  }

  lemma {:induction false} WholeIs(cs: seq<Chunk>, n: nat, i: nat, rest: nat)
    requires AllOk(cs) && i < |cs| && rest < cs[i].off
    requires AllOk(cs[..i]) && n == |Flatten(cs[..i])| + rest
    ensures Whole(cs, n) == Stretch(i, rest)
    decreases i
  {
    if i > 0 {
      var tail := cs[1..];
      assert cs[..i] == [cs[0]] + tail[..i - 1];
      FlattenCons(cs[0], tail[..i - 1]);
      WholeIs(tail, n - cs[0].off, i - 1, rest);
    }
  }

  /** What is lost depends on the chunk that the moved ones end with, or else on the old last one. */
  lemma {:induction false} LostIs(src: seq<Chunk>, dst: seq<Chunk>, k: nat, n: nat, i: nat, rest: nat,
                                  dst': seq<Chunk>, k': nat, malloc: Option<nat>)
    requires Whole(src, n) == Stretch(i, rest) && i <= |src|
    requires if i > 0 then k' < |dst'| && dst'[k'] == src[i - 1] else dst' == dst && k' == k
    ensures Lost(src, dst, k, n, malloc) == if CanAdd(dst', k', rest, malloc) then 0 else rest
  {
  }

  /** What is there before the end of a move was added. */
  lemma {:induction false} WithoutEnd(dst: seq<byte>, src: seq<byte>, linked: seq<byte>, part: seq<byte>, n: nat)
    requires n <= |src| && linked + part == dst + src[..n] && |part| <= n
    ensures linked == dst + src[..n - |part|] && linked + part == dst + src[..n - 0]
  {
    assert linked == (linked + part)[..|linked|];
  }

  lemma {:induction false} NothingLinked(cs: seq<Chunk>, front: seq<Chunk>)
    requires AllOk(cs) && front == []
    ensures cs == cs[..|cs|] + front && Flatten(front) == [] && Flatten(cs) == Flatten(cs) + Flatten(front)
  {
  }

  class EvBuffer {
    var chains: seq<Chunk>
    var last: Ref
    var lastWithDatap: Slot
    var totalLen: nat
    /** Position of the last chunk with data. */
    ghost var k: nat

    ghost predicate Valid()
      reads this
    {
      Consistent(chains, last, lastWithDatap, totalLen, k)
    }

    ghost function Content(): seq<byte>
      requires Valid()
      reads this
    {
      Flatten(chains)
    }

    constructor ()
      ensures Valid() && Content() == [] && chains == []
    {
      chains, last, lastWithDatap, totalLen, k := [], Null, First, 0, 0;
    }

    /** Store new values of all fields. */
    method Commit(cs: seq<Chunk>, l: Ref, p: Slot, len: nat, ghost kk: nat)
      requires Consistent(cs, l, p, len, kk)
      modifies this
      ensures Valid() && chains == cs && last == l && lastWithDatap == p && totalLen == len && k == kk
    {
      chains, last, lastWithDatap, totalLen, k := cs, l, p, len, kk;
    }

    /** Put a chunk at the end of the list, in place of the trailing empty ones. */
    method ChainInsert(c: Chunk)
      requires Valid() && c.Ok() && Fresh(c.addr, chains)
      requires totalLen + c.off <= EV_SIZE_MAX
      modifies this
      ensures Valid() && Content() == old(Content()) + c.Data()
      ensures chains == old(chains)[..Kept(old(chains), old(k))] + [c]
      ensures k == if c.off == 0 then old(k) else Kept(old(chains), old(k))
    {
      ReplaceTail(chains, last, lastWithDatap, totalLen, k, c);
      var cs, p := TrimTail(chains, lastWithDatap, k);
      if c.off == 0 {
        p := lastWithDatap;
      }
      Commit(cs + [c], At(c.addr), p, totalLen + c.off, if c.off == 0 then k else Kept(chains, k));
    }

    /** Store the last chunk with data back after it grew by d at its end. */
    method GrowLast(i: nat, c: Chunk, ghost d: seq<byte>)
      requires Valid() && i == k < |chains|
      requires c.Ok() && c.addr == chains[k].addr && c.Data() == chains[k].Data() + d
      requires totalLen + |d| <= EV_SIZE_MAX
      modifies this
      ensures Valid() && Content() == old(Content()) + d
      ensures k == old(k) && chains == old(chains)[k := c]
    {
      ExtendLast(chains, k, c, d);
      Commit(chains[i := c], last, lastWithDatap, totalLen + (c.off - chains[i].off), k);
    }

    /** Append data. */
    method Add(data: seq<byte>, malloc: Option<nat>) returns (ok: bool)
      requires Valid() && Unused(malloc, chains)
      modifies this
      ensures Valid() && OnlyNew(old(chains), chains, malloc)
      ensures ok <==> old(totalLen) + |data| <= EV_SIZE_MAX && CanAdd(old(chains), old(k), |data|, malloc)
      ensures Content() == if ok then old(Content()) + data else old(Content())
    {
      if |data| > EV_SIZE_MAX - totalLen {
        return false;
      }
      FollowSlotTo(chains, k);
      var i := Follow(chains, lastWithDatap);
      if i == |chains| {
        var c := NewChunk(malloc, |data|);
        if c.None? {
          return false;
        }
        ChainInsert(c.value);
        OnlyNewTail(old(chains), 0, c.value);
        FollowSlotTo(chains, k);
        i := Follow(chains, lastWithDatap);
      }
      var c := chains[i];
      assert c.Ok();
      var remain := |c.buffer| - c.misalign - c.off;
      ok := true;
      if remain >= |data| {
        OnlyNewUpdate(chains, i, c.Append(data), malloc);
        GrowLast(i, c.Append(data), data);
      } else if c.ShouldRealign(|data|) {
        OnlyNewUpdate(chains, i, c.Align().Append(data), malloc);
        GrowLast(i, c.Align().Append(data), data);
      } else {
        ok := AddInNewChunk(i, data, remain, malloc);
      }
    }

    /** Append data that does not fit in the last chunk with data: fill that chunk, and put
        the rest in a new one. */
    method AddInNewChunk(i: nat, data: seq<byte>, remain: nat, malloc: Option<nat>) returns (ok: bool)
      requires Valid() && Unused(malloc, chains)
      requires i == k < |chains| && remain == chains[i].Space() < |data|
      requires totalLen + |data| <= EV_SIZE_MAX
      modifies this
      ensures Valid() && OnlyNew(old(chains), chains, malloc)
      ensures ok <==> Grants(malloc, |data|)
      ensures Content() == if ok then old(Content()) + data else old(Content())
    {
      assert data == data[..remain] + data[remain..];
      var toAlloc := |chains[i].buffer|;
      if toAlloc <= EVBUFFER_CHAIN_MAX_AUTO_SIZE / 2 {
        toAlloc := 2 * toAlloc;
      }
      if |data| > toAlloc {
        toAlloc := |data|;
      }
      var tmp := NewChunk(malloc, toAlloc);
      if tmp.None? {
        return false;
      }
      if remain > 0 {
        OnlyNewUpdate(chains, i, chains[i].Append(data[..remain]), malloc);
        GrowLast(i, chains[i].Append(data[..remain]), data[..remain]);
      }
      assert Content() == old(Content()) + data[..remain];
      InsertNew(data[remain..], tmp.value);
      Assoc(old(Content()), data[..remain], data[remain..]);
      ok := true;
    }

    /** Put data in a new chunk at the end of the list. */
    method InsertNew(data: seq<byte>, c: Chunk)
      requires Valid() && c.Ok() && Fresh(c.addr, chains)
      requires c.off == 0 && c.misalign == 0 && |data| <= |c.buffer| && totalLen + |data| <= EV_SIZE_MAX
      modifies this
      ensures Valid() && OnlyNew(old(chains), chains, Some(c.addr))
      ensures Content() == old(Content()) + data
    {
      var tmp := c.Append(data);
      OnlyNewTail(chains, Kept(chains, k), tmp);
      ChainInsert(tmp);
    }

    /** Store the first chunk back after it grew by d at its front. */
    method GrowFirst(c: Chunk, ghost d: seq<byte>)
      requires Valid() && |chains| > 0
      requires c.Ok() && c.addr == chains[0].addr && c.Data() == d + chains[0].Data()
      requires totalLen + |d| <= EV_SIZE_MAX
      modifies this
      ensures Valid() && Content() == d + old(Content())
      ensures chains == old(chains)[0 := c]
    {
      ExtendFirst(chains, k, c, d);
      Commit(chains[0 := c], last, lastWithDatap, totalLen + (c.off - chains[0].off), k);
    }

    /** Put data in front. If there is no memory for a new chunk, the end of the data may be in the
        buffer all the same. */
    method Prepend(data: seq<byte>, malloc: Option<nat>) returns (ok: bool)
      requires Valid() && Unused(malloc, chains)
      modifies this
      ensures Valid() && OnlyNew(old(chains), chains, malloc)
      ensures ok <==>
                && old(totalLen) + |data| <= EV_SIZE_MAX
                && ((old(chains) != [] && |data| <= FrontRoom(old(chains))) ||
                    Grants(malloc, |data| - FrontRoom(old(chains))))
      ensures ok ==> Content() == data + old(Content())
      ensures !ok && old(totalLen) + |data| > EV_SIZE_MAX ==> Content() == old(Content())
      ensures !ok && old(totalLen) + |data| <= EV_SIZE_MAX ==>
                && |data| >= FrontRoom(old(chains))
                && Content() == data[|data| - FrontRoom(old(chains))..] + old(Content())
    {
      if |data| > EV_SIZE_MAX - totalLen {
        return false;
      }
      if |chains| == 0 {
        var c := NewChunk(malloc, |data|);
        if c.None? {
          return false;
        }
        OnlyNewTail(chains, 0, c.value);
        ChainInsert(c.value);
        assert chains == [c.value];
      }
      ok := PrependTo(data, malloc);
    }

    /** Put data in front of a list that has chunks. */
    method PrependTo(data: seq<byte>, malloc: Option<nat>) returns (ok: bool)
      requires Valid() && |chains| > 0 && totalLen + |data| <= EV_SIZE_MAX
      requires |data| > FrontRoom(chains) ==> Unused(malloc, chains)
      modifies this
      ensures Valid() && OnlyNew(old(chains), chains, malloc)
      ensures ok <==> |data| <= FrontRoom(old(chains)) || Grants(malloc, |data| - FrontRoom(old(chains)))
      ensures ok ==> Content() == data + old(Content())
      ensures !ok ==> Content() == data[|data| - FrontRoom(old(chains))..] + old(Content())
    {
      // An empty chunk counts as empty at the front.
      var c := chains[0];
      assert c.Ok();
      if c.off == 0 {
        c := c.(misalign := |c.buffer|);
      }
      if c.misalign >= |data| {
        OnlyNewUpdate(chains, 0, c.Prepend(data), malloc);
        GrowFirst(c.Prepend(data), data);
        ok := true;
      } else {
        ok := PrependInNewChunk(c, data, malloc);
      }
    }

    /** Prepend data that does not fit before the first window: fill that room with the end of
        the data, and put the rest in a new chunk. */
    method PrependInNewChunk(c: Chunk, data: seq<byte>, malloc: Option<nat>) returns (ok: bool)
      requires Valid() && Unused(malloc, chains) && |chains| > 0
      requires c.Ok() && c.addr == chains[0].addr && c.Data() == chains[0].Data()
      requires c.misalign < |data| && (c.off > 0 || c.misalign > 0)
      requires totalLen + |data| <= EV_SIZE_MAX
      modifies this
      ensures Valid() && OnlyNew(old(chains), chains, malloc)
      ensures ok <==> Grants(malloc, |data| - c.misalign)
      ensures Content() == if ok then data + old(Content()) else data[|data| - c.misalign..] + old(Content())
    {
      var n := |data| - c.misalign;
      assert data == data[..n] + data[n..];
      OnlyNewUpdate(chains, 0, c.Prepend(data[n..]), malloc);
      GrowFirst(c.Prepend(data[n..]), data[n..]);
      var block := NewChunk(malloc, n);
      if block.None? {
        return false;
      }
      LinkNew(block.value, data[..n]);
      Assoc(data[..n], data[n..], old(Content()));
      ok := true;
    }

    /** Put data at the end of a new first chunk. */
    method LinkNew(c: Chunk, data: seq<byte>)
      requires Valid() && |chains| > 0 && chains[0].off > 0 && totalLen + |data| <= EV_SIZE_MAX
      requires c.Ok() && c.off == 0 && 0 < |data| <= |c.buffer| && Fresh(c.addr, chains)
      modifies this
      ensures Valid() && OnlyNew(old(chains), chains, Some(c.addr))
      ensures Content() == data + old(Content())
    {
      var tmp := c.(misalign := |c.buffer|).Prepend(data);
      OnlyNewFront(chains, tmp);
      LinkFront(tmp);
    }

    /** Make a chunk with data the first one. */
    method LinkFront(c: Chunk)
      requires Valid() && |chains| > 0 && chains[0].off > 0
      requires c.Ok() && c.off > 0 && Fresh(c.addr, chains)
      requires totalLen + c.off <= EV_SIZE_MAX
      modifies this
      ensures Valid() && chains == [c] + old(chains)
      ensures Content() == c.Data() + old(Content())
    {
      var p, cs := if lastWithDatap == First then NextOf(c.addr) else lastWithDatap, [c] + chains;
      var len := totalLen + c.off;
      ghost var k' := k + 1;
      PushFront(chains, last, lastWithDatap, totalLen, k, c, cs, p, len, k');
      Commit(cs, last, p, len, k');
    }

    /** Drop the first len bytes, or all of them. */
    method Drain(len: nat)
      requires Valid()
      modifies this
      ensures Valid() && forall a :: Fresh(a, old(chains)) ==> Fresh(a, chains)
      ensures Content() == if len >= old(totalLen) then [] else old(Content())[len..]
    {
      if totalLen == 0 {
        return;
      }
      if len >= totalLen {
        Zero();
        return;
      }
      var i, remaining, p := SkipWhole(len);
      CutTo(i, remaining, p, len);
    }

    /** The walk of a drain: how many whole chunks go, how many bytes of the next one, and
        what becomes of the pointer to the last chunk with data. */
    method SkipWhole(len: nat) returns (i: nat, remaining: nat, p: Slot)
      requires Valid() && len < totalLen
      ensures i <= k && i < |chains| && remaining < chains[i].off
      ensures AllOk(chains[..i]) && len == |Flatten(chains[..i])| + remaining
      ensures p == if i == k then First else SlotTo(chains, k)
    {
      i, remaining, p := 0, len, lastWithDatap;
      FlattenIsEmpty(chains, k);
      FollowSlotTo(chains, k);
      while remaining >= chains[i].off
        invariant i <= k && i < |chains|
        invariant AllOk(chains[..i]) && len == |Flatten(chains[..i])| + remaining
        invariant p == if i == k then First else SlotTo(chains, k)
        decreases |chains| - i
      {
        DataBefore(chains, k, i);
        remaining := remaining - chains[i].off;
        if i == Follow(chains, p) {
          p := First;
        }
        if p == NextOf(chains[i].addr) {
          p := First;
        }
        i := i + 1;
      }
    }

    /** Make chunk i, without its first n bytes, the first chunk. */
    method CutTo(i: nat, n: nat, p: Slot, len: nat)
      requires Valid() && i <= k && i < |chains| && n < chains[i].off
      requires p == if i == k then First else SlotTo(chains, k)
      requires AllOk(chains[..i]) && len == |Flatten(chains[..i])| + n
      modifies this
      ensures Valid()
      ensures forall a :: Fresh(a, old(chains)) ==> Fresh(a, chains)
      ensures chains == Rest(old(chains), i, n)
      ensures len <= |old(Content())| && Content() == old(Content())[len..]
      ensures old(Content())[..len] == Flatten(old(chains)[..i]) + old(chains)[i].Data()[..n]
    {
      CutFront(chains, last, lastWithDatap, totalLen, k, i, n);
      Commit(Rest(chains, i, n), last, p, totalLen - len, k - i);
    }

    /** Copy out the first datlen bytes, or all there are. */
    method CopyOut(datlen: nat) returns (out: seq<byte>)
      requires Valid()
      ensures out == if datlen <= totalLen then Content()[..datlen] else Content()
    {
      var left: nat := if datlen > totalLen then totalLen else datlen;
      ghost var want := left;
      out := [];
      var i := 0;
      while left > 0 && left >= chains[i].off
        invariant i <= |chains| && AllOk(chains[..i])
        invariant out == Flatten(chains[..i]) && |out| + left == want && out <= Content()
        invariant left > 0 ==> i < |chains| && i <= k
        decreases |chains| - i
      {
        DataBefore(chains, k, i);
        out := out + chains[i].Data();
        left := left - chains[i].off;
        i := i + 1;
      }
      if left > 0 {
        FlattenAt(chains, i);
        TakeInto(out, chains[i].Data(), Flatten(chains[i + 1..]), left);
        out := out + chains[i].Data()[..left];
      }
      assert out == Content()[..want];
    }

    /** Read and drop the first datlen bytes. */
    method Remove(datlen: nat) returns (out: seq<byte>)
      requires Valid()
      modifies this
      ensures Valid() && forall a :: Fresh(a, old(chains)) ==> Fresh(a, chains)
      ensures out + Content() == old(Content())
      ensures |out| == if datlen <= old(totalLen) then datlen else old(totalLen)
    {
      ghost var s := Content();
      out := CopyOut(datlen);
      TakeDrop(s, |out|);
      if |out| > 0 {
        Drain(|out|);
      }
    }

    /** Move everything in src to the end of this buffer. */
    method AddBuffer(src: EvBuffer)
      requires Valid() && src.Valid()
      requires this != src ==> Apart(chains, src.chains) && totalLen + src.totalLen <= EV_SIZE_MAX
      modifies this, src
      ensures Valid() && src.Valid()
      ensures this == src ==> Content() == old(Content())
      ensures this != src ==> Content() == old(Content()) + old(src.Content()) && src.Content() == []
      ensures forall a :: Fresh(a, old(chains)) && Fresh(a, old(src.chains)) ==>
                Fresh(a, chains) && Fresh(a, src.chains)
      ensures this != src ==> Apart(chains, src.chains)
    {
      if src.totalLen == 0 || this == src {
        return;
      }
      TakeAll(src);
    }

    /** Append the chunks of src, which has data, and leave src empty. */
    method TakeAll(src: EvBuffer)
      requires Valid() && src.Valid() && this != src && src.totalLen > 0
      requires Apart(chains, src.chains) && totalLen + src.totalLen <= EV_SIZE_MAX
      modifies this, src
      ensures Valid() && Content() == old(Content()) + old(src.Content())
      ensures chains == old(chains)[..Kept(old(chains), old(k))] + old(src.chains)
      ensures src.Valid() && src.chains == []
    {
      FlattenIsEmpty(src.chains, src.k);
      FlattenIsEmpty(chains, k);
      assert src.chains[0].off > 0;
      if totalLen == 0 {
        Zero();
      }
      AppendChain(src.chains, src.last, src.lastWithDatap, src.totalLen, src.k);
      src.Zero();
    }

    /** Forget all chunks. */
    method Zero()
      modifies this
      ensures Valid() && chains == [] && k == 0
    {
      chains, last, lastWithDatap, totalLen, k := [], Null, First, 0, 0;
    }

    /** Link a list of chunks that starts with data behind the data of this buffer. */
    method AppendChain(cs: seq<Chunk>, l: Ref, pp: Slot, len: nat, ghost kk: nat)
      requires Valid() && Consistent(cs, l, pp, len, kk) && |cs| > 0 && cs[0].off > 0
      requires Apart(chains, cs) && totalLen + len <= EV_SIZE_MAX
      modifies this
      ensures Valid() && Content() == old(Content()) + Flatten(cs)
      ensures chains == old(chains)[..Kept(old(chains), old(k))] + cs
    {
      var front, p := TrimTail(chains, lastWithDatap, k);
      if pp != First {
        p := pp;
      }
      var joined, sum := front + cs, totalLen + len;
      ghost var k' := Kept(chains, k) + kk;
      JoinTail(chains, last, lastWithDatap, totalLen, k, cs, l, pp, len, kk, joined, p, sum, k');
      Commit(joined, l, p, sum, k');
    }
  
    /** Link chunks with data, cut off the front of another buffer, behind the data of this one. */
    method TakeFront(front: seq<Chunk>, nread: nat)
      requires Valid() && |front| > 0 && Good(front, |front| - 1) && Apart(chains, front)
      requires nread == |Flatten(front)| && totalLen + nread <= EV_SIZE_MAX
      requires front[0].off > 0
      modifies this
      ensures Valid() && Content() == old(Content()) + Flatten(front)
      ensures chains == old(chains)[..Kept(old(chains), old(k))] + front && k == |chains| - 1
    {
      ghost var kf := |front| - 1;
      ghost var k' := Kept(chains, k) + kf;
      var kept, q := TrimTail(chains, lastWithDatap, k);
      var cs, sum := kept + front, totalLen + nread;
      JoinTail(chains, last, lastWithDatap, totalLen, k, front, LastRef(front), SlotTo(front, kf), nread, kf,
               cs, if kf == 0 then q else SlotTo(front, kf), sum, k');
      assert lastWithDatap == SlotTo(cs, k);
      var p := AdvanceLastWithData(cs, lastWithDatap, k, k');
      Commit(cs, At(front[|front| - 1].addr), p, sum, k');
    }

    /** Move the first datlen bytes, or all there are, to the end of dst. When there is no memory for
        the part of a chunk that has to be copied, that part is lost. */
    method RemoveBuffer(dst: EvBuffer, datlen: nat, malloc: Option<nat>) returns (result: int, ghost moved: nat)
      requires Valid() && dst.Valid() && Unused(malloc, chains) && Unused(malloc, dst.chains)
      requires this != dst ==> Apart(chains, dst.chains) && totalLen + dst.totalLen <= EV_SIZE_MAX
      modifies this, dst
      ensures Valid() && dst.Valid() && result == AsInt(moved)
      ensures this == dst ==> moved == 0 && Content() == old(Content())
      ensures this != dst ==> moved == if datlen < old(totalLen) then datlen else old(totalLen)
      ensures this != dst && (datlen >= old(totalLen) || malloc.Some?) ==>
                dst.Content() == old(dst.Content()) + old(Content())[..moved]
      ensures this != dst && datlen < old(totalLen) ==>
                var lost := Lost(old(chains), old(dst.chains), old(dst.k), datlen, malloc);
                dst.Content() == old(dst.Content()) + old(Content())[..moved - lost]
      ensures this != dst ==> Content() == old(Content())[moved..] && Apart(chains, dst.chains)
    {
      if datlen == 0 || dst == this {
        return 0, 0;
      }
      if datlen >= totalLen {
        result, moved := AsInt(totalLen), totalLen;
        dst.AddBuffer(this);
        return;
      }
      MoveSome(dst, datlen, malloc);
      result, moved := AsInt(datlen), datlen;
    }

    /** Move fewer bytes than there are: relink whole chunks, copy the rest. */
    method MoveSome(dst: EvBuffer, datlen: nat, malloc: Option<nat>)
      requires Valid() && dst.Valid() && Unused(malloc, chains) && Unused(malloc, dst.chains)
      requires this != dst && Apart(chains, dst.chains) && totalLen + dst.totalLen <= EV_SIZE_MAX
      requires 0 < datlen < totalLen
      modifies this, dst
      ensures Valid() && dst.Valid()
      ensures var lost := Lost(old(chains), old(dst.chains), old(dst.k), datlen, malloc);
              && dst.Content() == old(dst.Content()) + old(Content())[..datlen - lost]
              && (malloc.Some? ==> lost == 0)
      ensures Content() == old(Content())[datlen..]
      ensures Apart(chains, dst.chains)
    {
      var part := MoveWhole(dst, datlen, malloc);
      ghost var before, linked := dst.chains, dst.Content();
      var ok := dst.Add(part, malloc);
      ApartNew(chains, before, dst.chains, malloc);
      WithoutEnd(old(dst.Content()), old(Content()), linked, part, datlen);
    }

    /** Relink the whole chunks among the first datlen bytes to the end of dst, and cut off the
        part of the next chunk that is left. */
    method MoveWhole(dst: EvBuffer, datlen: nat, ghost malloc: Option<nat>) returns (part: seq<byte>)
      requires Valid() && dst.Valid() && Unused(malloc, chains) && Unused(malloc, dst.chains)
      requires this != dst && Apart(chains, dst.chains) && totalLen + dst.totalLen <= EV_SIZE_MAX
      requires 0 < datlen < totalLen
      modifies this, dst
      ensures Valid() && dst.Valid()
      ensures dst.Content() + part == old(dst.Content()) + old(Content())[..datlen]
      ensures Content() == old(Content())[datlen..]
      ensures Apart(chains, dst.chains) && Unused(malloc, chains) && Unused(malloc, dst.chains)
      ensures |part| == Whole(old(chains), datlen).bytes <= CHUNK_LIMIT
      ensures Lost(old(chains), old(dst.chains), old(dst.k), datlen, malloc) ==
                if CanAdd(dst.chains, dst.k, |part|, malloc) then 0 else |part|
    {
      var i, rest, p := SkipWhole(datlen);
      part := chains[i].Data()[..rest];
      ghost var was, moved := dst.Content(), Flatten(chains[..i]);
      LinkWhole(dst, i, rest, datlen, malloc);
      CutTo(i, rest, p, datlen);
      Assoc(was, moved, part);
    }

    /** Relink the first i chunks to the end of dst; they are still to be cut off here. */
    method LinkWhole(dst: EvBuffer, i: nat, rest: nat, datlen: nat, ghost malloc: Option<nat>)
      requires Valid() && dst.Valid() && Unused(malloc, chains) && Unused(malloc, dst.chains)
      requires this != dst && Apart(chains, dst.chains) && totalLen + dst.totalLen <= EV_SIZE_MAX
      requires i <= k && i < |chains| && rest < chains[i].off
      requires AllOk(chains[..i]) && datlen == |Flatten(chains[..i])| + rest
      modifies dst
      ensures dst.Valid() && dst.Content() == old(dst.Content()) + Flatten(chains[..i])
      ensures Apart(Rest(chains, i, rest), dst.chains) && Unused(malloc, dst.chains)
      ensures Whole(chains, datlen) == Stretch(i, rest) && rest <= CHUNK_LIMIT
      ensures Lost(chains, old(dst.chains), old(dst.k), datlen, malloc) ==
                if CanAdd(dst.chains, dst.k, rest, malloc) then 0 else rest
    {
      var front := chains[..i];
      ghost var n := if i > 0 then Kept(dst.chains, dst.k) else |dst.chains|;
      ApartAfterMove(chains, dst.chains, n, i, chains[i].DropFront(rest));
      if i > 0 {
        FrontPart(chains, k, i);
        UnusedJoin(malloc, dst.chains, n, chains, i);
        dst.TakeFront(front, datlen - rest);
      } else {
        NothingLinked(dst.chains, front);
      }
      WholeIs(chains, datlen, i, rest);
      LostIs(chains, old(dst.chains), old(dst.k), datlen, i, rest, dst.chains, dst.k, malloc);
    }

    /** Make the first size bytes (all for a negative size) contiguous in the first chunk. */
    method Pullup(size: int, malloc: Option<nat>) returns (found: bool)
      requires Valid() && Unused(malloc, chains)
      modifies this
      ensures Valid() && Content() == old(Content()) && OnlyNew(old(chains), chains, malloc)
      ensures var n := if size < 0 then totalLen else size;
              found <==>
                && 0 < n <= totalLen
                && (n <= old(chains)[0].off || n <= |old(chains)[0].buffer| - old(chains)[0].misalign ||
                    Grants(malloc, n))
      ensures found ==> |chains| > 0 && chains[0].off >= (if size < 0 then totalLen else size)
    {
      var n: nat := if size < 0 then totalLen else size;
      if n == 0 || n > totalLen {
        return false;
      }
      FlattenIsEmpty(chains, k);
      var c := chains[0];
      if c.off >= n {
        return true;
      }
      assert c.Ok();
      assert k > 0 by {
        if k == 0 {
          FlattenAt(chains, 0);
          FlattenEmpty(chains[1..]);
        }
      }
      if |c.buffer| - c.misalign >= n {
        Gather(c, 1, n);
      } else {
        var tmp := NewChunk(malloc, n);
        if tmp.None? {
          return false;
        }
        Gather(tmp.value, 0, n);
      }
      found := true;
    }

    /** Copy bytes from chunk j on into tmp until it holds n bytes, free the chunks used up, and
        make tmp the first chunk. */
    method Gather(tmp0: Chunk, j0: nat, n: nat)
      requires Valid() && 0 < k && chains[0].off < n <= totalLen
      requires tmp0.Ok() && |tmp0.buffer| - tmp0.misalign >= n
      requires (j0 == 0 && tmp0.off == 0 && Fresh(tmp0.addr, chains)) || (j0 == 1 && tmp0 == chains[0])
      modifies this
      ensures Valid() && Content() == old(Content()) && OnlyNew(old(chains), chains, Some(tmp0.addr))
      ensures |chains| > 0 && chains[0].off == n
    {
      var tmp, j, rem, goneData, gonePtr := CopyWhole(tmp0, j0, n);
      assert chains[..|chains|] == chains;
      if j < |chains| {
        FinishInside(tmp, j0, j, rem, goneData, gonePtr);
      } else {
        FlattenOne(tmp);
        Commit([tmp], At(tmp.addr), PulledSlot(goneData, gonePtr, lastWithDatap, tmp.addr, []), totalLen, 0);
      }
    }

    /** The end of a pullup that stops inside chunk j. */
    method FinishInside(tmp: Chunk, ghost j0: nat, j: nat, rem: nat, goneData: bool, gonePtr: bool)
      requires Valid() && 0 < j <= k && rem < chains[j].off && AllOk(chains[..j])
      requires tmp.Ok() && tmp.Data() == Flatten(chains[..j]) && rem <= tmp.Space()
      requires (j0 == 0 && Fresh(tmp.addr, chains)) || (j0 == 1 && tmp.addr == chains[0].addr)
      requires (goneData <==> k < j) && (gonePtr <==> j0 < k <= j)
      modifies this
      ensures Valid() && Content() == old(Content())
      ensures OnlyNew(old(chains), chains, Some(tmp.addr))
      ensures |chains| > 0 && chains[0].off == tmp.off + rem
    {
      var full := tmp.Append(chains[j].Data()[..rem]);
      var rest := Rest(chains, j, rem);
      var cs, p := [full] + rest, PulledSlot(goneData, gonePtr, lastWithDatap, tmp.addr, rest);
      ghost var k' := k - j + 1;
      GatherSome(chains, last, lastWithDatap, totalLen, k, j, rem, full, cs, p, k');
      OnlyNewRest(chains, j, rem, full);
      Commit(cs, last, p, totalLen, k');
    }

    /** The copying loop of a pullup. */
    method CopyWhole(tmp0: Chunk, j0: nat, n: nat) returns (tmp: Chunk, j: nat, rem: nat, goneData: bool, gonePtr: bool)
      requires Valid() && 0 < k && chains[0].off < n <= totalLen
      requires tmp0.Ok() && |tmp0.buffer| - tmp0.misalign >= n
      requires (j0 == 0 && tmp0.off == 0 && Fresh(tmp0.addr, chains)) || (j0 == 1 && tmp0 == chains[0])
      ensures 0 < j <= |chains| && AllOk(chains[..j]) && (j < |chains| ==> j <= k && rem < chains[j].off)
      ensures tmp.Ok() && tmp.addr == tmp0.addr && tmp.Data() == Flatten(chains[..j])
      ensures rem == n - tmp.off && rem <= tmp.Space() && (j == |chains| ==> rem == 0)
      ensures goneData <==> k < j
      ensures gonePtr <==> j0 < k <= j
    {
      FollowSlotTo(chains, k);
      FlattenNext(chains, 0);
      tmp, j, rem, goneData, gonePtr := CopyChunks(chains, k, totalLen, lastWithDatap, tmp0, j0, n);
    }
  }
}
