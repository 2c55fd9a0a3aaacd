/** Chunks of an evbuffer and lists of them, as values.

    A chunk is a fixed block of memory with a window of live bytes; it carries the address
    that the allocator gave it, so that pointers to it can be stored and compared. Only
    mutable, unpinned chunks are modelled. */
module Chunks {
  import opened Basics

  const MIN_BUFFER_SIZE: nat := 1024
  /** Size of the header that is allocated together with the block. */
  const EVBUFFER_CHAIN_SIZE: nat := 48
  const EVBUFFER_CHAIN_MAX: nat := 0x7fff_ffff_ffff_ffff
  /** The largest block that a chunk can have. */
  const CHUNK_LIMIT: nat := EVBUFFER_CHAIN_MAX - EVBUFFER_CHAIN_SIZE
  const MAX_TO_REALIGN_IN_EXPAND: nat := 2048

  /** Overwriting the bytes at a place leaves the others. */
  lemma {:induction false} Spliced(b: seq<byte>, at: nat, d: seq<byte>, from: nat, to: nat)
    requires at + |d| <= |b| && from <= at && at + |d| <= to <= |b|
    ensures var c := b[..at] + d + b[at + |d|..];
            |c| == |b| && c[from..to] == b[from..at] + d + b[at + |d|..to]
  {
    var c := b[..at] + d + b[at + |d|..];
    var x, y := c[from..to], b[from..at] + d + b[at + |d|..to];
    forall i | 0 <= i < to - from
      ensures x[i] == y[i]
    {
      assert x[i] == c[from + i];
    }
  }

  datatype Chunk = Chunk(addr: nat, buffer: seq<byte>, misalign: nat, off: nat) {

    predicate Ok() {
      0 < |buffer| <= CHUNK_LIMIT && misalign + off <= |buffer|
    }

    /** The live bytes. */
    function Data(): (d: seq<byte>)
      requires Ok()
      ensures |d| == off
    {
      buffer[misalign..misalign + off]
    }

    /** Room after the live bytes. */
    function Space(): nat
      requires Ok()
    {
      |buffer| - (misalign + off)
    }

    /** Copy d to the end of the window. */
    function Append(d: seq<byte>): (c: Chunk)
      requires Ok() && |d| <= Space()
      ensures c.Ok() && c.Data() == Data() + d
      ensures c.addr == addr && |c.buffer| == |buffer| && c.misalign == misalign
    {
      var at := misalign + off;
      Spliced(buffer, at, d, misalign, at + |d|);
      Chunk(addr, buffer[..at] + d + buffer[at + |d|..], misalign, off + |d|)
    }

    /** Copy d in front of the window. */
    function Prepend(d: seq<byte>): (c: Chunk)
      requires Ok() && |d| <= misalign
      ensures c.Ok() && c.Data() == d + Data()
      ensures c.addr == addr && |c.buffer| == |buffer| && c.misalign == misalign - |d|
    {
      var at := misalign - |d|;
      Spliced(buffer, at, d, at, misalign + off);
      Chunk(addr, buffer[..at] + d + buffer[misalign..], at, off + |d|)
    }

    /** Forget the first n live bytes. */
    function DropFront(n: nat): (c: Chunk)
      requires Ok() && n <= off
      ensures c.Ok() && c.Data() == Data()[n..]
      ensures c.addr == addr && c.buffer == buffer
    {
      Chunk(addr, buffer, misalign + n, off - n)
    }

    /** Move the window to the start of the block. */
    function Align(): (c: Chunk)
      requires Ok()
      ensures c.Ok() && c.Data() == Data()
      ensures c.addr == addr && |c.buffer| == |buffer| && c.misalign == 0
    {
      Chunk(addr, buffer[misalign..misalign + off] + buffer[off..], 0, off)
    }

    /** Is moving the window worth it to make room for n bytes? */
    predicate ShouldRealign(n: nat) {
      |buffer| - off >= n && off < |buffer| / 2 && off <= MAX_TO_REALIGN_IN_EXPAND
    }
  }

  // ----- allocation

  predicate IsDoubling(n: nat) {
    n == MIN_BUFFER_SIZE || (n > MIN_BUFFER_SIZE && n % 2 == 0 && IsDoubling(n / 2))
  }

  lemma {:induction false} Doubled(n: nat)
    requires IsDoubling(n) && n >= MIN_BUFFER_SIZE
    ensures IsDoubling(n * 2) && n * 2 / 2 == n
  {
    assert n * 2 % 2 == 0;
  }

  /** Room for data in a new chunk: the least doubling of the minimum that holds the header
      and the data, and the exact size for very large requests; none above the limit. */
  method Capacity(size: nat) returns (bufferLen: Option<nat>)
    ensures bufferLen.Some? <==> size <= CHUNK_LIMIT
    ensures bufferLen.Some? ==> size <= bufferLen.value <= CHUNK_LIMIT && 0 < bufferLen.value
    ensures size + EVBUFFER_CHAIN_SIZE < EVBUFFER_CHAIN_MAX / 2 ==>
              && IsDoubling(bufferLen.value + EVBUFFER_CHAIN_SIZE)
              && (bufferLen.value + EVBUFFER_CHAIN_SIZE == MIN_BUFFER_SIZE ||
                  (bufferLen.value + EVBUFFER_CHAIN_SIZE) / 2 < size + EVBUFFER_CHAIN_SIZE)
    ensures EVBUFFER_CHAIN_MAX / 2 <= size + EVBUFFER_CHAIN_SIZE <= EVBUFFER_CHAIN_MAX ==> bufferLen.value == size
  {
    if size > CHUNK_LIMIT {
      return None;
    }
    var need := size + EVBUFFER_CHAIN_SIZE;
    var toAlloc := need;
    if need < EVBUFFER_CHAIN_MAX / 2 {
      toAlloc := LeastDoubling(need);
    }
    bufferLen := Some(toAlloc - EVBUFFER_CHAIN_SIZE);
  }

  method LeastDoubling(need: nat) returns (n: nat)
    ensures need <= n && IsDoubling(n) && n >= MIN_BUFFER_SIZE
    ensures n == MIN_BUFFER_SIZE || n / 2 < need
  {
    n := MIN_BUFFER_SIZE;
    while n < need
      invariant IsDoubling(n) && n >= MIN_BUFFER_SIZE
      invariant n == MIN_BUFFER_SIZE || n / 2 < need
      decreases need - n
    {
      Doubled(n);
      n := n * 2;
    }
  }

  /** Does the allocator give a chunk for this size? malloc is the address that it answers with, and
      None when memory has run out. */
  predicate Grants(malloc: Option<nat>, size: nat) {
    malloc.Some? && size <= CHUNK_LIMIT
  }

  /** A new empty chunk at the address that the allocator returned. */
  method NewChunk(malloc: Option<nat>, size: nat) returns (c: Option<Chunk>)
    ensures c.Some? <==> Grants(malloc, size)
    ensures c.Some? ==> c.value.Ok() && c.value.addr == malloc.value
    ensures c.Some? ==> c.value.misalign == 0 && c.value.off == 0 && size <= |c.value.buffer|
  {
    var n := Capacity(size);
    if n.None? || malloc.None? {
      return None;
    }
    c := Some(Chunk(malloc.value, seq(n.value, _ => 0), 0, 0));
  }

  // ----- lists of chunks

  ghost predicate AllOk(cs: seq<Chunk>) {
    forall i {:trigger cs[i]} :: 0 <= i < |cs| ==> cs[i].Ok()
  }

  ghost predicate Distinct(cs: seq<Chunk>) {
    forall i, j {:trigger cs[i].addr, cs[j].addr} :: 0 <= i < j < |cs| ==> cs[i].addr != cs[j].addr
  }

  ghost predicate Fresh(addr: nat, cs: seq<Chunk>) {
    forall i {:trigger cs[i].addr} :: 0 <= i < |cs| ==> cs[i].addr != addr
  }

  /** The one flat byte string that a list of chunks stands for. */
  ghost function Flatten(cs: seq<Chunk>): seq<byte>
    requires AllOk(cs)
  {
    if |cs| == 0 then [] else cs[0].Data() + Flatten(cs[1..])
  }

  lemma {:induction false} FlattenAppend(a: seq<Chunk>, b: seq<Chunk>)
    requires AllOk(a) && AllOk(b)
    ensures AllOk(a + b) && Flatten(a + b) == Flatten(a) + Flatten(b)
  {
    if |a| == 0 {
      assert a + b == b;
    } else {
      assert (a + b)[1..] == a[1..] + b;
      FlattenAppend(a[1..], b);
    }
  }

  lemma {:induction false} FlattenEmpty(cs: seq<Chunk>)
    requires AllOk(cs) && forall i :: 0 <= i < |cs| ==> cs[i].off == 0
    ensures Flatten(cs) == []
  {
    if |cs| != 0 {
      FlattenEmpty(cs[1..]);
    }
  }

  lemma {:induction false} FlattenSplit(cs: seq<Chunk>, i: nat)
    requires AllOk(cs) && i <= |cs|
    ensures AllOk(cs[..i]) && AllOk(cs[i..])
    ensures Flatten(cs) == Flatten(cs[..i]) + Flatten(cs[i..])
  {
    assert cs == cs[..i] + cs[i..];
    FlattenAppend(cs[..i], cs[i..]);
  }

  lemma {:induction false} FlattenNext(cs: seq<Chunk>, i: nat)
    requires AllOk(cs) && i < |cs|
    ensures AllOk(cs[..i]) && AllOk(cs[..i + 1])
    ensures Flatten(cs[..i + 1]) == Flatten(cs[..i]) + cs[i].Data()
  {
    assert cs[..i + 1] == cs[..i] + [cs[i]];
    FlattenAppend(cs[..i], [cs[i]]);
    FlattenOne(cs[i]);
  }

  /** Chunk i sits in the flat string between the chunks before it and those after it. */
  lemma {:induction false} FlattenAt(cs: seq<Chunk>, i: nat)
    requires AllOk(cs) && i < |cs|
    ensures AllOk(cs[..i]) && AllOk(cs[i + 1..])
    ensures Flatten(cs) == Flatten(cs[..i]) + cs[i].Data() + Flatten(cs[i + 1..])
  {
    FlattenSplit(cs, i);
    assert cs[i..][1..] == cs[i + 1..];
  }

  lemma {:induction false} TakeDrop(s: seq<byte>, n: nat)
    requires n <= |s|
    ensures s == s[..n] + s[n..]
  {
  }

  lemma {:induction false} Assoc(a: seq<byte>, b: seq<byte>, c: seq<byte>)
    ensures a + b + c == a + (b + c)
  {
  }

  lemma {:induction false} TakeInto(a: seq<byte>, b: seq<byte>, c: seq<byte>, n: nat)
    requires n <= |b|
    ensures (a + b + c)[..|a| + n] == a + b[..n]
  {
  }

  lemma {:induction false} FlattenOne(c: Chunk)
    requires c.Ok()
    ensures AllOk([c]) && Flatten([c]) == c.Data()
  {
    assert [c][1..] == [];
  }

  /** The chain invariant: well-formed chunks at distinct addresses; k is the position of
      the last chunk with data (0 when there is none), every chunk before it has data and
      every chunk after it is empty. */
  ghost predicate Good(cs: seq<Chunk>, k: nat) {
    && AllOk(cs)
    && Distinct(cs)
    && (k == 0 || k < |cs|)
    && (forall i {:trigger cs[i]} :: 0 <= i <= k && 0 < k ==> cs[i].off > 0)
    && (forall i {:trigger cs[i]} :: k < i < |cs| ==> cs[i].off == 0)
  }

  /** How many chunks stay when the trailing empty ones are freed. */
  ghost function Kept(cs: seq<Chunk>, k: nat): (n: nat)
    requires Good(cs, k)
    ensures n <= |cs|
  {
    if k < |cs| && cs[k].off > 0 then k + 1 else 0
  }

  /** Freeing the trailing empty chunks does not change the flat string. */
  lemma {:induction false} KeptFlatten(cs: seq<Chunk>, k: nat)
    requires Good(cs, k)
    ensures AllOk(cs[..Kept(cs, k)]) && Flatten(cs[..Kept(cs, k)]) == Flatten(cs)
  {
    FlattenSplit(cs, Kept(cs, k));
    FlattenEmpty(cs[Kept(cs, k)..]);
  }

  /** The flat string is empty exactly when nothing is kept. */
  lemma {:induction false} FlattenIsEmpty(cs: seq<Chunk>, k: nat)
    requires Good(cs, k)
    ensures Flatten(cs) == [] <==> Kept(cs, k) == 0
  {
    KeptFlatten(cs, k);
    if Kept(cs, k) > 0 {
      FlattenAt(cs, k);
    }
  }

  // ----- pointers

  /** A pointer to a chunk: its address, or Null. */
  type Ref = x: int | -1 <= x

  const Null: Ref := -1

  function At(addr: nat): Ref { addr }

  /** A pointer to a pointer: the field next of the chunk at an address, or the field first of
      the buffer. */
  type Slot = x: int | -1 <= x

  const First: Slot := -1

  function NextOf(addr: nat): Slot { addr }

  /** The slot that leads to position i. */
  function SlotTo(cs: seq<Chunk>, i: nat): Slot
    requires i <= |cs|
  {
    if i == 0 then First else NextOf(cs[i - 1].addr)
  }

  /** Position of the chunk at addr; the length of the list if there is none. */
  function IndexOf(cs: seq<Chunk>, addr: nat): (i: nat)
    ensures i <= |cs|
    ensures i < |cs| ==> cs[i].addr == addr
  {
    if |cs| == 0 || cs[0].addr == addr then 0 else 1 + IndexOf(cs[1..], addr)
  }

  lemma {:induction false} IndexOfAt(cs: seq<Chunk>, i: nat)
    requires Distinct(cs) && i < |cs|
    ensures IndexOf(cs, cs[i].addr) == i
  {
    if i > 0 {
      IndexOfAt(cs[1..], i - 1);
    }
  }

  /** The position a slot leads to; the length of the list stands for a null pointer. */
  function Follow(cs: seq<Chunk>, p: Slot): (i: nat)
    ensures i <= |cs|
  {
    if p == First then 0
    else var i := IndexOf(cs, p); if i < |cs| then i + 1 else i
  }

  lemma {:induction false} FollowSlotTo(cs: seq<Chunk>, i: nat)
    requires Distinct(cs) && i <= |cs|
    ensures Follow(cs, SlotTo(cs, i)) == i
  {
    if i > 0 {
      IndexOfAt(cs, i - 1);
    }
  }

  lemma {:induction false} SlotIsAfter(cs: seq<Chunk>, k: nat, j: nat)
    requires Distinct(cs) && k <= |cs| && j < |cs|
    ensures SlotTo(cs, k) == NextOf(cs[j].addr) <==> k == j + 1
  {
  }

  function LastRef(cs: seq<Chunk>): Ref {
    if |cs| == 0 then Null else At(cs[|cs| - 1].addr)
  }

  /** The address that the allocator may answer with is not in use. */
  ghost predicate Unused(malloc: Option<nat>, cs: seq<Chunk>) {
    malloc.Some? ==> Fresh(malloc.value, cs)
  }

  /** Every address in use after was in use before, or is the one address allocated. */
  ghost predicate OnlyNew(before: seq<Chunk>, after: seq<Chunk>, malloc: Option<nat>) {
    forall a: nat :: malloc != Some(a) && Fresh(a, before) ==> Fresh(a, after)
  }

  lemma OnlyNewTail(cs: seq<Chunk>, n: nat, c: Chunk)
    requires n <= |cs|
    ensures OnlyNew(cs, cs[..n] + [c], Some(c.addr))
  {
  }

  lemma OnlyNewFront(cs: seq<Chunk>, c: Chunk)
    ensures OnlyNew(cs, [c] + cs, Some(c.addr))
  {
  }

  lemma OnlyNewUpdate(cs: seq<Chunk>, i: nat, c: Chunk, malloc: Option<nat>)
    requires i < |cs| && c.addr == cs[i].addr
    ensures OnlyNew(cs, cs[i := c], malloc)
    ensures Unused(malloc, cs) ==> Unused(malloc, cs[i := c])
  {
    forall a | Fresh(a, cs)
      ensures Fresh(a, cs[i := c])
    {
      assert cs[i].addr != a;
    }
  }

  // ----- the fields of a buffer

  const EV_SIZE_MAX: nat := 0xffff_ffff_ffff_ffff

  /** The fields of a buffer fit together: the shape of the list, the two pointers that every
      operation has to repair, and the cached length. */
  ghost predicate Consistent(cs: seq<Chunk>, last: Ref, p: Slot, len: nat, k: nat) {
    && Good(cs, k)
    && last == LastRef(cs)
    && k <= |cs|
    && p == SlotTo(cs, k)
    && len == |Flatten(cs)|
    && len <= EV_SIZE_MAX
  }

  // ----- what the basic list edits do

  /** Extending the last chunk with data appends to the flat string. */
  lemma {:induction false} ExtendLast(cs: seq<Chunk>, k: nat, c: Chunk, d: seq<byte>)
    requires Good(cs, k) && k < |cs|
    requires c.Ok() && c.addr == cs[k].addr && c.Data() == cs[k].Data() + d
    ensures Good(cs[k := c], k) && Flatten(cs[k := c]) == Flatten(cs) + d
  {
    FlattenAt(cs, k);
    FlattenAt(cs[k := c], k);
    assert cs[k := c][..k] == cs[..k] && cs[k := c][k + 1..] == cs[k + 1..];
    FlattenEmpty(cs[k + 1..]);
  }

  lemma {:induction false} ReplaceTailShape(cs: seq<Chunk>, k: nat, c: Chunk)
    requires Good(cs, k) && c.Ok() && Fresh(c.addr, cs)
    ensures Good(cs[..Kept(cs, k)] + [c], if c.off == 0 then k else Kept(cs, k))
    ensures Flatten(cs[..Kept(cs, k)] + [c]) == Flatten(cs) + c.Data()
  {
    KeptFlatten(cs, k);
    FlattenOne(c);
    FlattenAppend(cs[..Kept(cs, k)], [c]);
  }

  /** Replacing the trailing empty chunks by one chunk appends what that chunk holds. */
  lemma {:induction false} ReplaceTail(cs: seq<Chunk>, last: Ref, p: Slot, len: nat, k: nat, c: Chunk)
    requires Consistent(cs, last, p, len, k)
    requires c.Ok() && Fresh(c.addr, cs) && len + c.off <= EV_SIZE_MAX
    ensures var n := Kept(cs, k);
            Consistent(cs[..n] + [c], At(c.addr), if c.off == 0 then p else SlotTo(cs, n), len + c.off,
                       if c.off == 0 then k else n)
    ensures Flatten(cs[..Kept(cs, k)] + [c]) == Flatten(cs) + c.Data()
  {
    ReplaceTailShape(cs, k, c);
  }

  /** Extending the first chunk at its front prepends to the flat string. */
  lemma {:induction false} ExtendFirst(cs: seq<Chunk>, k: nat, c: Chunk, d: seq<byte>)
    requires Good(cs, k) && |cs| > 0
    requires c.Ok() && c.addr == cs[0].addr && c.Data() == d + cs[0].Data()
    ensures Good(cs[0 := c], k)
    ensures Flatten(cs[0 := c]) == d + Flatten(cs)
  {
    assert cs[0 := c][1..] == cs[1..];
  }

  lemma {:induction false} PushFrontShape(cs: seq<Chunk>, k: nat, c: Chunk)
    requires Good(cs, k) && |cs| > 0 && cs[0].off > 0
    requires c.Ok() && c.off > 0 && Fresh(c.addr, cs)
    ensures Good([c] + cs, k + 1)
  {
  }

  lemma {:induction false} PushFrontRefs(cs: seq<Chunk>, k: nat, c: Chunk, k': nat)
    requires k < |cs| && k' == k + 1
    ensures LastRef([c] + cs) == LastRef(cs)
    ensures SlotTo([c] + cs, k') == if SlotTo(cs, k) == First then NextOf(c.addr) else SlotTo(cs, k)
  {
  }

  /** A new chunk with data in front of a list whose first chunk has data. */
  lemma {:induction false} PushFront(cs: seq<Chunk>, last: Ref, p: Slot, len: nat, k: nat, c: Chunk,
                                     cs': seq<Chunk>, p': Slot, len': nat, k': nat)
    requires Consistent(cs, last, p, len, k) && |cs| > 0 && cs[0].off > 0
    requires c.Ok() && c.off > 0 && Fresh(c.addr, cs) && len' == len + c.off <= EV_SIZE_MAX
    requires cs' == [c] + cs && p' == (if p == First then NextOf(c.addr) else p) && k' == k + 1
    ensures Consistent(cs', last, p', len', k') && Flatten(cs') == c.Data() + Flatten(cs)
  {
    PushFrontShape(cs, k, c);
    PushFrontRefs(cs, k, c, k');
    FlattenCons(c, cs);
  }

  lemma {:induction false} CutShape(cs: seq<Chunk>, k: nat, i: nat, n: nat)
    requires Good(cs, k) && i <= k && i < |cs| && n < cs[i].off
    ensures Good([cs[i].DropFront(n)] + cs[i + 1..], k - i)
  {
  }

  lemma {:induction false} CutRefs(cs: seq<Chunk>, k: nat, i: nat, n: nat)
    requires i <= k < |cs| && cs[i].Ok() && n <= cs[i].off
    ensures var cs' := [cs[i].DropFront(n)] + cs[i + 1..];
            LastRef(cs') == LastRef(cs) && SlotTo(cs', k - i) == if i == k then First else SlotTo(cs, k)
  {
  }

  lemma {:induction false} CutContent(cs: seq<Chunk>, i: nat, n: nat)
    requires AllOk(cs) && i < |cs| && n <= cs[i].off
    ensures AllOk(cs[..i]) && AllOk([cs[i].DropFront(n)] + cs[i + 1..])
    ensures Flatten(cs) == Flatten(cs[..i]) + cs[i].Data()[..n] + Flatten([cs[i].DropFront(n)] + cs[i + 1..])
  {
    FlattenAt(cs, i);
    var c, d := cs[i].DropFront(n), cs[i].Data();
    FlattenCons(c, cs[i + 1..]);
    TakeDrop(d, n);
    Regroup(Flatten(cs[..i]), d[..n], c.Data(), Flatten(cs[i + 1..]));
  }

  lemma {:induction false} FlattenCons(c: Chunk, cs: seq<Chunk>)
    requires c.Ok() && AllOk(cs)
    ensures AllOk([c] + cs) && Flatten([c] + cs) == c.Data() + Flatten(cs)
  {
    assert ([c] + cs)[1..] == cs;
  }

  lemma {:induction false} Regroup(a: seq<byte>, p: seq<byte>, q: seq<byte>, r: seq<byte>)
    ensures a + (p + q) + r == a + p + (q + r)
  {
  }

  /** What is left after i whole chunks and n more bytes. */
  function Rest(cs: seq<Chunk>, i: nat, n: nat): seq<Chunk>
    requires i < |cs| && cs[i].Ok() && n <= cs[i].off
  {
    [cs[i].DropFront(n)] + cs[i + 1..]
  }

  /** Cutting i whole chunks and n more bytes off the front, short of everything. */
  lemma {:induction false} CutFront(cs: seq<Chunk>, last: Ref, p: Slot, len: nat, k: nat, i: nat, n: nat)
    requires Consistent(cs, last, p, len, k) && i <= k && i < |cs| && n < cs[i].off
    ensures AllOk(cs[..i]) && |Flatten(cs[..i])| + n <= len
    ensures Consistent(Rest(cs, i, n), last, if i == k then First else p, len - |Flatten(cs[..i])| - n, k - i)
    ensures Flatten(cs) == Flatten(cs[..i]) + cs[i].Data()[..n] + Flatten(Rest(cs, i, n))
  {
    CutContent(cs, i, n);
    CutShape(cs, k, i, n);
    CutRefs(cs, k, i, n);
  }

  /** One step of a walk from the front: chunk i, and whether data follows it. */
  lemma {:induction false} DataBefore(cs: seq<Chunk>, k: nat, i: nat)
    requires Good(cs, k) && i < |cs|
    ensures AllOk(cs[..i]) && AllOk(cs[..i + 1])
    ensures Flatten(cs[..i + 1]) == Flatten(cs[..i]) + cs[i].Data()
    ensures Flatten(cs[..i + 1]) <= Flatten(cs)
    ensures i < k ==> |Flatten(cs[..i + 1])| < |Flatten(cs)|
    ensures i >= k ==> Flatten(cs[..i + 1]) == Flatten(cs)
  {
    FlattenNext(cs, i);
    FlattenSplit(cs, i + 1);
    if i < k {
      FlattenAt(cs[i + 1..], k - i - 1);
    } else {
      FlattenEmpty(cs[i + 1..]);
    }
  }

  // ----- two lists

  ghost predicate Apart(a: seq<Chunk>, b: seq<Chunk>) {
    forall i, j {:trigger a[i].addr, b[j].addr} :: 0 <= i < |a| && 0 <= j < |b| ==> a[i].addr != b[j].addr
  }

  lemma {:induction false} DistinctJoin(a: seq<Chunk>, b: seq<Chunk>)
    requires Distinct(a) && Distinct(b) && Apart(a, b)
    ensures Distinct(a + b)
  {
  }

  /** Putting a list that starts with data behind a list without empty chunks. */
  lemma {:induction false} Join(a: seq<Chunk>, b: seq<Chunk>, kb: nat, k': nat)
    requires AllOk(a) && Distinct(a) && Good(b, kb) && Apart(a, b) && k' == |a| + kb
    requires forall i :: 0 <= i < |a| ==> a[i].off > 0
    requires |b| > 0 && b[0].off > 0
    ensures Good(a + b, k')
    ensures Flatten(a + b) == Flatten(a) + Flatten(b)
  {
    DistinctJoin(a, b);
    FlattenAppend(a, b);
  }

  lemma {:induction false} JoinKept(a: seq<Chunk>, ka: nat, b: seq<Chunk>, kb: nat, k': nat)
    requires Good(a, ka) && Good(b, kb) && Apart(a, b) && |b| > 0 && b[0].off > 0 && k' == Kept(a, ka) + kb
    ensures Good(a[..Kept(a, ka)] + b, k')
    ensures Flatten(a[..Kept(a, ka)] + b) == Flatten(a) + Flatten(b)
  {
    KeptFlatten(a, ka);
    Join(a[..Kept(a, ka)], b, kb, k');
  }

  lemma {:induction false} JoinRefs(a: seq<Chunk>, n: nat, b: seq<Chunk>, kb: nat, k': nat)
    requires n <= |a| && kb < |b| && k' == n + kb
    ensures LastRef(a[..n] + b) == LastRef(b)
    ensures SlotTo(a[..n] + b, k') == if kb == 0 then SlotTo(a, n) else SlotTo(b, kb)
  {
  }

  /** Linking a list that starts with data in place of the trailing empty chunks. */
  lemma {:induction false} JoinTail(cs: seq<Chunk>, last: Ref, p: Slot, len: nat, k: nat,
                                    cs2: seq<Chunk>, last2: Ref, p2: Slot, len2: nat, k2: nat,
                                    cs': seq<Chunk>, p': Slot, len': nat, k': nat)
    requires Consistent(cs, last, p, len, k) && Consistent(cs2, last2, p2, len2, k2)
    requires Apart(cs, cs2) && |cs2| > 0 && cs2[0].off > 0 && len' == len + len2 <= EV_SIZE_MAX
    requires cs' == cs[..Kept(cs, k)] + cs2 && k' == Kept(cs, k) + k2
    requires p' == if k2 == 0 then SlotTo(cs, Kept(cs, k)) else p2
    ensures Consistent(cs', last2, p', len', k') && Flatten(cs') == Flatten(cs) + Flatten(cs2)
  {
    JoinRefs(cs, Kept(cs, k), cs2, k2, k');
    JoinKept(cs, k, cs2, k2, k');
  }

  /** The chunks in front of position i, all with data, as a list of their own. */
  lemma {:induction false} FrontPart(cs: seq<Chunk>, k: nat, i: nat)
    requires Good(cs, k) && 0 < i <= k
    ensures Good(cs[..i], i - 1)
    ensures |Flatten(cs[..i])| <= |Flatten(cs)|
  {
    FlattenSplit(cs, i);
  }

  /** Chunks moved from the front of one list to the tail of another stay apart from the rest. */
  lemma {:induction false} ApartAfterMove(src: seq<Chunk>, dst: seq<Chunk>, n: nat, i: nat, c: Chunk)
    requires Distinct(src) && Apart(src, dst) && i < |src| && n <= |dst| && c.addr == src[i].addr
    ensures Apart([c] + src[i + 1..], dst[..n] + src[..i])
  {
    var a, b := [c] + src[i + 1..], dst[..n] + src[..i];
    forall x, y | 0 <= x < |a| && 0 <= y < |b|
      ensures a[x].addr != b[y].addr
    {
      assert a[x].addr == src[i + x].addr;
      if y >= n {
        assert b[y].addr == src[y - n].addr;
      } else {
        assert b[y].addr == dst[y].addr;
      }
    }
  }

  lemma {:induction false} UnusedJoin(malloc: Option<nat>, a: seq<Chunk>, n: nat, b: seq<Chunk>, i: nat)
    requires Unused(malloc, a) && Unused(malloc, b) && Apart(b, a) && n <= |a| && i <= |b|
    ensures Unused(malloc, a[..n] + b[..i]) && Apart(a, b[..i])
  {
  }

  lemma {:induction false} ApartNew(a: seq<Chunk>, b: seq<Chunk>, b': seq<Chunk>, malloc: Option<nat>)
    requires Apart(a, b) && OnlyNew(b, b', malloc) && Unused(malloc, a)
    ensures Apart(a, b')
  {
    forall x, y | 0 <= x < |a| && 0 <= y < |b'|
      ensures a[x].addr != b'[y].addr
    {
      assert Fresh(a[x].addr, b);
      assert Fresh(a[x].addr, b');
    }
  }

  lemma {:induction false} FreshRest(cs: seq<Chunk>, j: nat, n: nat, a: nat)
    requires Distinct(cs) && 0 < j < |cs| && cs[j].Ok() && n <= cs[j].off
    requires Fresh(a, cs) || a == cs[0].addr
    ensures Fresh(a, Rest(cs, j, n))
  {
    var rest := Rest(cs, j, n);
    forall i | 0 <= i < |rest|
      ensures rest[i].addr != a
    {
      assert rest[i].addr == cs[j + i].addr;
    }
  }

  lemma {:induction false} OnlyNewRest(cs: seq<Chunk>, j: nat, n: nat, c: Chunk)
    requires j < |cs| && cs[j].Ok() && n <= cs[j].off
    ensures OnlyNew(cs, [c] + Rest(cs, j, n), Some(c.addr))
  {
    var cs' := [c] + Rest(cs, j, n);
    forall a | a != c.addr && Fresh(a, cs)
      ensures Fresh(a, cs')
    {
      assert forall i {:trigger cs'[i].addr} :: 1 <= i < |cs'| ==> cs'[i].addr == cs[j + i - 1].addr;
    }
  }

  lemma {:induction false} GatherShape(cs: seq<Chunk>, k: nat, j: nat, n: nat, tmp: Chunk, k': nat)
    requires Good(cs, k) && 0 < j <= k && n < cs[j].off && k' == k - j + 1
    requires tmp.Ok() && tmp.off > 0 && (Fresh(tmp.addr, cs) || tmp.addr == cs[0].addr)
    ensures Good([tmp] + Rest(cs, j, n), k')
  {
    CutShape(cs, k, j, n);
    FreshRest(cs, j, n, tmp.addr);
    PushFrontShape(Rest(cs, j, n), k - j, tmp);
  }

  lemma {:induction false} GatherRefs(cs: seq<Chunk>, k: nat, j: nat, n: nat, tmp: Chunk, k': nat)
    requires 0 < j <= k < |cs| && cs[j].Ok() && n <= cs[j].off && k' == k - j + 1
    ensures LastRef([tmp] + Rest(cs, j, n)) == LastRef(cs)
    ensures SlotTo([tmp] + Rest(cs, j, n), k') == if j == k then NextOf(tmp.addr) else SlotTo(cs, k)
  {
  }

  lemma {:induction false} GatherContent(cs: seq<Chunk>, j: nat, n: nat, tmp: Chunk)
    requires AllOk(cs) && j < |cs| && n <= cs[j].off
    requires AllOk(cs[..j]) && tmp.Ok() && tmp.Data() == Flatten(cs[..j]) + cs[j].Data()[..n]
    ensures AllOk([tmp] + Rest(cs, j, n))
    ensures Flatten([tmp] + Rest(cs, j, n)) == Flatten(cs)
  {
    CutContent(cs, j, n);
    FlattenCons(tmp, Rest(cs, j, n));
  }

  /** Gathering j whole chunks and n more bytes of the next one in the chunk tmp. */
  lemma {:induction false} GatherSome(cs: seq<Chunk>, last: Ref, p: Slot, len: nat, k: nat, j: nat, n: nat, tmp: Chunk,
                                      cs': seq<Chunk>, p': Slot, k': nat)
    requires Consistent(cs, last, p, len, k) && 0 < j <= k && n < cs[j].off
    requires AllOk(cs[..j]) && tmp.Ok() && tmp.Data() == Flatten(cs[..j]) + cs[j].Data()[..n]
    requires Fresh(tmp.addr, cs) || tmp.addr == cs[0].addr
    requires cs' == [tmp] + Rest(cs, j, n) && k' == k - j + 1 && p' == if j == k then NextOf(tmp.addr) else p
    ensures Consistent(cs', last, p', len, k') && Flatten(cs') == Flatten(cs)
  {
    assert tmp.off > 0 by {
      FrontPart(cs, k, j);
      FlattenIsEmpty(cs[..j], j - 1);
    }
    GatherContent(cs, j, n, tmp);
    GatherShape(cs, k, j, n, tmp, k');
    GatherRefs(cs, k, j, n, tmp, k');
  }
}
