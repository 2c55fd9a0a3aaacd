/** Positions in an evbuffer and searching across chunk boundaries. */
module Searching {
  import opened Basics
  import opened Chunks
  import opened EvBuffers

  /** A position in a buffer: its distance from the start, and the chunk and offset where it is.
      pos == -1 stands for not found. */
  datatype Ptr = Ptr(pos: int, chain: Ref, inChain: nat)

  const NotFound := Ptr(-1, Null, 0)

  datatype How = Set | Add

  /** Ptr q is at distance n: inside chunk i, or behind the last chunk. */
  ghost predicate Inside(cs: seq<Chunk>, q: Ptr, n: nat, i: nat) {
    AllOk(cs) && i < |cs| && q.pos == n && q.chain == At(cs[i].addr) && q.inChain < cs[i].off &&
    AllOk(cs[..i]) && n == |Flatten(cs[..i])| + q.inChain
  }

  ghost predicate PtrAt(cs: seq<Chunk>, q: Ptr, n: nat) {
    AllOk(cs) &&
    ((exists i :: Inside(cs, q, n, i)) || (n == |Flatten(cs)| && q == Ptr(n, Null, 0)))
  }

  /** The flat string, seen from chunk i. */
  lemma {:induction false} ByteAt(cs: seq<Chunk>, i: nat, j: nat)
    requires AllOk(cs) && i < |cs| && j < cs[i].off
    ensures AllOk(cs[..i]) && |Flatten(cs[..i])| + j < |Flatten(cs)|
    ensures Flatten(cs)[|Flatten(cs[..i])| + j] == cs[i].Data()[j]
  {
    FlattenAt(cs, i);
  }

  lemma {:induction false} PrefixGrows(cs: seq<Chunk>, i: nat, j: nat)
    requires AllOk(cs) && i <= j <= |cs|
    ensures AllOk(cs[..i]) && AllOk(cs[..j]) && |Flatten(cs[..i])| <= |Flatten(cs[..j])|
    decreases j - i
  {
    if i < j {
      PrefixGrows(cs, i, j - 1);
      FlattenNext(cs, j - 1);
    }
  }

  lemma {:induction false} SameChunk(cs: seq<Chunk>, a: Ptr, i: nat, b: Ptr, j: nat, n: nat)
    requires Inside(cs, a, n, i) && Inside(cs, b, n, j)
    ensures i >= j
  {
    if i < j {
      FlattenNext(cs, i);
      PrefixGrows(cs, i + 1, j);
    }
  }

  /** There is only one pointer at a distance. */
  lemma {:induction false} PtrUnique(cs: seq<Chunk>, a: Ptr, b: Ptr, n: nat)
    requires PtrAt(cs, a, n) && PtrAt(cs, b, n)
    ensures a == b
  {
    if i: nat :| Inside(cs, a, n, i) {
      ByteAt(cs, i, a.inChain);
      var j: nat :| Inside(cs, b, n, j);
      SameChunk(cs, a, i, b, j, n);
      SameChunk(cs, b, j, a, i, n);
    } else if j: nat :| Inside(cs, b, n, j) {
      ByteAt(cs, j, b.inChain);
    }
  }

  /** Offset j of chunk i is at distance pos. */
  ghost predicate Cursor(cs: seq<Chunk>, i: nat, j: nat, pos: nat) {
    && AllOk(cs) && i <= |cs| && AllOk(cs[..i])
    && pos == |Flatten(cs[..i])| + j <= |Flatten(cs)|
    && if i < |cs| then j <= cs[i].off else j == 0
  }

  lemma {:induction false} CursorNext(cs: seq<Chunk>, i: nat, j: nat, pos: nat, pos': nat)
    requires Cursor(cs, i, j, pos) && i < |cs| && pos' == pos + (cs[i].off - j)
    ensures Cursor(cs, i + 1, 0, pos') && Cursor(cs, i, cs[i].off, pos')
  {
    FlattenNext(cs, i);
    FlattenSplit(cs, i + 1);
  }

  /** One byte on: in the same chunk or, at its end, in the next. */
  lemma {:induction false} CursorStep(cs: seq<Chunk>, i: nat, j: nat, pos: nat, pos': nat)
    requires Cursor(cs, i, j, pos) && i < |cs| && j < cs[i].off && pos' == pos + 1
    ensures Cursor(cs, i, j + 1, pos') && (j + 1 == cs[i].off ==> Cursor(cs, i + 1, 0, pos'))
  {
    CursorNext(cs, i, j, pos, pos + (cs[i].off - j));
  }

  lemma {:induction false} CursorByte(cs: seq<Chunk>, i: nat, j: nat, pos: nat)
    requires Cursor(cs, i, j, pos) && i < |cs| && j < cs[i].off
    ensures pos < |Flatten(cs)| && Flatten(cs)[pos] == cs[i].Data()[j]
    ensures Inside(cs, Ptr(pos, At(cs[i].addr), j), pos, i)
  {
    ByteAt(cs, i, j);
  }

  lemma {:induction false} CursorEnd(cs: seq<Chunk>, pos: nat)
    requires Cursor(cs, |cs|, 0, pos)
    ensures pos == |Flatten(cs)|
  {
    assert cs[..|cs|] == cs;
  }

  /** The chunk that a pointer names; the length of the list for Null. */
  function Where(cs: seq<Chunk>, r: Ref): (i: nat)
    ensures i <= |cs|
  {
    if r == Null then |cs| else IndexOf(cs, r)
  }

  /** Walk left bytes on from offset position of chunk i. */
  method Walk(cs: seq<Chunk>, i0: nat, position0: nat, left0: nat, pos: nat) returns (q: Ptr, ok: bool)
    requires AllOk(cs) && i0 <= |cs| && AllOk(cs[..i0])
    requires if i0 < |cs| then position0 <= cs[i0].off else position0 == 0
    requires pos == |Flatten(cs[..i0])| + position0 + left0
    ensures ok <==> pos <= |Flatten(cs)|
    ensures ok ==> PtrAt(cs, q, pos)
    ensures !ok ==> q == NotFound
  {
    var i, position, left := i0, position0, left0;
    while i < |cs| && position + left >= cs[i].off
      invariant i <= |cs| && AllOk(cs[..i])
      invariant if i < |cs| then position <= cs[i].off else position == 0
      invariant 0 <= position && 0 <= left && pos == |Flatten(cs[..i])| + position + left
      decreases |cs| - i
    {
      FlattenNext(cs, i);
      left := left - (cs[i].off - position);
      i, position := i + 1, 0;
    }
    if i < |cs| {
      q, ok := Ptr(pos, At(cs[i].addr), position + left), true;
      ByteAt(cs, i, position + left);
      assert Inside(cs, q, pos, i);
    } else if left == 0 {
      assert cs[..i] == cs;
      q, ok := Ptr(pos, Null, 0), true;
    } else {
      assert cs[..i] == cs;
      q, ok := NotFound, false;
    }
  }

  /** Move a pointer to an absolute position, or on from where it is. */
  method PtrSet(b: EvBuffer, q0: Ptr, position: nat, how: How) returns (q: Ptr, ok: bool)
    requires b.Valid() && position <= EV_SIZE_MAX
    requires how == Add && q0.pos >= 0 ==> PtrAt(b.chains, q0, q0.pos)
    ensures how == Set ==>
              && (ok <==> position <= b.totalLen)
              && if ok then PtrAt(b.chains, q, position) else q == NotFound
    ensures how == Add && (q0.pos < 0 || q0.pos + position > EV_SIZE_MAX) ==> !ok && q == q0
    ensures how == Add && 0 <= q0.pos && q0.pos + position <= EV_SIZE_MAX ==>
              && (ok <==> q0.pos + position <= b.totalLen)
              && if ok then PtrAt(b.chains, q, q0.pos + position) else q == NotFound
  {
    match how
    case Set =>
      q, ok := Walk(b.chains, 0, 0, position, position);
    case Add =>
      if q0.pos < 0 || EV_SIZE_MAX - position < q0.pos {
        return q0, false;
      }
      var i := Where(b.chains, q0.chain);
      if x :| Inside(b.chains, q0, q0.pos, x) {
        IndexOfAt(b.chains, x);
      }
      assert b.chains[..|b.chains|] == b.chains;
      q, ok := Walk(b.chains, i, q0.inChain, position, q0.pos + position);
  }

  /** Moving on from a valid pointer agrees with going to the summed position. */
  method PtrAddAgrees(b: EvBuffer, q0: Ptr, d: nat) returns (byAdd: Ptr, bySet: Ptr)
    requires b.Valid() && q0.pos >= 0 && PtrAt(b.chains, q0, q0.pos) && q0.pos + d <= EV_SIZE_MAX
    ensures byAdd == bySet
  {
    var okA, okS;
    byAdd, okA := PtrSet(b, q0, d, Add);
    bySet, okS := PtrSet(b, NotFound, q0.pos + d, Set);
    if okA {
      PtrUnique(b.chains, byAdd, bySet, q0.pos + d);
    }
  }

  /** Move a pointer back. */
  method PtrSubtract(b: EvBuffer, q0: Ptr, howfar: nat) returns (q: Ptr, ok: bool)
    requires b.Valid() && q0.pos >= 0 && PtrAt(b.chains, q0, q0.pos)
    ensures ok <==> howfar <= q0.pos
    ensures if ok then PtrAt(b.chains, q, q0.pos - howfar) else q == q0
  {
    if howfar > q0.pos {
      return q0, false;
    }
    if q0.chain != Null && howfar <= q0.inChain {
      q, ok := Ptr(q0.pos - howfar, q0.chain, q0.inChain - howfar), true;
      ghost var i: nat :| Inside(b.chains, q0, q0.pos, i);
      assert Inside(b.chains, q, q0.pos - howfar, i);
    } else {
      PtrInBounds(b.chains, q0, q0.pos);
      q, ok := PtrSet(b, q0, q0.pos - howfar, Set);
    }
  }

  lemma {:induction false} PtrInBounds(cs: seq<Chunk>, q: Ptr, n: nat)
    requires PtrAt(cs, q, n)
    ensures n <= |Flatten(cs)|
  {
    if i: nat :| Inside(cs, q, n, i) {
      ByteAt(cs, i, q.inChain);
    }
  }

  /** The byte at a pointer that is not at the end. */
  function GetChr(cs: seq<Chunk>, q: Ptr): byte
    requires AllOk(cs) && Where(cs, q.chain) < |cs| && q.inChain < cs[Where(cs, q.chain)].off
  {
    var c := cs[Where(cs, q.chain)];
    c.buffer[c.misalign + q.inChain]
  }

  lemma {:induction false} GetChrIs(cs: seq<Chunk>, q: Ptr, n: nat)
    requires Distinct(cs) && PtrAt(cs, q, n) && n < |Flatten(cs)|
    ensures Where(cs, q.chain) < |cs| && q.inChain < cs[Where(cs, q.chain)].off
    ensures GetChr(cs, q) == Flatten(cs)[n]
  {
    var i: nat :| Inside(cs, q, n, i);
    IndexOfAt(cs, i);
    assert Where(cs, q.chain) == i;
    ByteAt(cs, i, q.inChain);
    ByteOf(cs[i], q.inChain);
  }

  lemma ByteOf(c: Chunk, j: nat)
    requires c.Ok() && j < c.off
    ensures c.Data()[j] == c.buffer[c.misalign + j]
  {
  }

  // ----- searching

  ghost predicate Matches(s: seq<byte>, n: int, what: seq<byte>) {
    0 <= n && n + |what| <= |s| && s[n..n + |what|] == what
  }

  /** Position of the first b in s at or after from; the length of s if there is none. */
  method MemChr(s: seq<byte>, from: nat, b: byte) returns (i: nat)
    requires from <= |s|
    ensures from <= i <= |s| && (i < |s| ==> s[i] == b)
    ensures forall j :: from <= j < i ==> s[j] != b
  {
    i := from;
    while i < |s| && s[i] != b
      invariant from <= i <= |s| && forall j :: from <= j < i ==> s[j] != b
    {
      i := i + 1;
    }
  }

  /** In the order of byte strings of one length, a comes before b. */
  ghost predicate Before(a: seq<byte>, b: seq<byte>) {
    |a| == |b| && exists d: nat :: FirstLess(a, b, d)
  }

  /** Place d is the first where a and b differ, and a has less there. */
  ghost predicate FirstLess(a: seq<byte>, b: seq<byte>, d: nat) {
    d < |a| && d < |b| && a[d] < b[d] && forall j :: 0 <= j < d ==> a[j] == b[j]
  }

  /** The sign of r says how a compares to b. */
  ghost predicate Compares(r: int, a: seq<byte>, b: seq<byte>) {
    (r == 0 <==> a == b) && (r < 0 <==> Before(a, b)) && (r > 0 <==> Before(b, a))
  }

  lemma {:induction false} BeforeIsStrict(a: seq<byte>, b: seq<byte>)
    requires Before(a, b)
    ensures a != b && !Before(b, a)
  {
    var d: nat :| FirstLess(a, b, d);
    assert forall e: nat :: FirstLess(b, a, e) ==> d == e;
  }

  /** Strings that agree up to a place compare as what comes there does. */
  lemma {:induction false} BeforeInside(a: seq<byte>, b: seq<byte>, done: nat, n: nat)
    requires |a| == |b| && done + n <= |a| && a[..done] == b[..done]
    requires Before(a[done..done + n], b[done..done + n])
    ensures Before(a, b)
  {
    var x, y := a[done..done + n], b[done..done + n];
    var d: nat :| FirstLess(x, y, d);
    forall j | 0 <= j < done + d
      ensures a[j] == b[j]
    {
      if j < done {
        assert a[..done][j] == b[..done][j];
      } else {
        assert x[j - done] == y[j - done];
      }
    }
    assert a[done + d] == x[d] && b[done + d] == y[d];
    assert FirstLess(a, b, done + d);
  }

  /** Compare two byte strings of one length. */
  method Compare(a: seq<byte>, b: seq<byte>) returns (r: int)
    requires |a| == |b|
    ensures Compares(r, a, b)
  {
    for i := 0 to |a|
      invariant forall j :: 0 <= j < i ==> a[j] == b[j]
    {
      if a[i] < b[i] {
        assert FirstLess(a, b, i);
        BeforeIsStrict(a, b);
        return -1;
      } else if a[i] > b[i] {
        assert FirstLess(b, a, i);
        BeforeIsStrict(b, a);
        return 1;
      }
    }
    r := 0;
  }

  /** Compare the bytes of chunk i from position on, at distance at, to a piece of what, when all before
      agree. */
  method CompareChunk(cs: seq<Chunk>, i: nat, position: nat, ghost pos: nat, ghost at: nat, what: seq<byte>, done: nat)
      returns (r: int, n: nat)
    requires Cursor(cs, i, position, at) && i < |cs| && at == pos + done
    requires done <= |what| && pos + |what| <= |Flatten(cs)| && Flatten(cs)[pos..at] == what[..done]
    ensures done + n <= |what|
    ensures r == 0 ==> Flatten(cs)[pos..at + n] == what[..done + n]
    ensures r == 0 && done + n < |what| ==> Cursor(cs, i + 1, 0, at + n) && i + 1 < |cs|
    ensures r != 0 ==> Compares(r, Flatten(cs)[pos..pos + |what|], what)
  {
    n := if |what| - done + position > cs[i].off then cs[i].off - position else |what| - done;
    ghost var s, to := Flatten(cs), at + n;
    var piece, part := cs[i].Data()[position..position + n], what[done..done + n];
    PieceAt(cs, i, position, at, n, to, piece);
    r := Compare(piece, part);
    if r != 0 {
      DecidedHere(s, pos, what, done, at, to, part, r);
    } else {
      SliceJoin(s, pos, what, done, at, to, part);
      CursorNext(cs, i, position, at, at + (cs[i].off - position));
      if i + 1 == |cs| {
        CursorEnd(cs, at + (cs[i].off - position));
      }
    }
  }

  /** How do the bytes at offset position0 of chunk i0, and on, compare to what? Too few of them come
      before it. */
  method MemCmp(cs: seq<Chunk>, totalLen: nat, i0: nat, position0: nat, pos: nat, what: seq<byte>) returns (r: int)
    requires Cursor(cs, i0, position0, pos) && i0 < |cs| && totalLen == |Flatten(cs)|
    ensures pos + |what| > totalLen ==> r == -1
    ensures pos + |what| <= totalLen ==> Compares(r, Flatten(cs)[pos..pos + |what|], what)
  {
    if pos + |what| > totalLen {
      return -1;
    }
    r := CompareChunks(cs, i0, position0, pos, what);
  }

  method CompareChunks(cs: seq<Chunk>, i0: nat, position0: nat, ghost pos: nat, what: seq<byte>) returns (r: int)
    requires Cursor(cs, i0, position0, pos) && i0 < |cs| && pos + |what| <= |Flatten(cs)|
    ensures Compares(r, Flatten(cs)[pos..pos + |what|], what)
  {
    ghost var s, at := Flatten(cs), pos;
    var i, position: nat, done := i0, position0, 0;
    while done < |what| && i < |cs|
      invariant i <= |cs| && 0 <= done <= |what| && at == pos + done
      invariant done < |what| ==> Cursor(cs, i, position, at) && i < |cs|
      invariant s[pos..at] == what[..done]
      decreases |cs| - i
    {
      var n;
      r, n := CompareChunk(cs, i, position, pos, at, what, done);
      if r != 0 {
        return;
      }
      i, position, done, at := i + 1, 0, done + n, at + n;
    }
    AllSame(s, pos, at, what, done);
    r := 0;
  }

  lemma {:induction false} AllSame(s: seq<byte>, pos: nat, at: nat, what: seq<byte>, done: nat)
    requires pos + |what| == at <= |s| && done == |what| && s[pos..at] == what[..done]
    ensures Compares(0, s[pos..pos + |what|], what)
  {
    assert what[..done] == what;
  }

  lemma {:induction false} ZeroIsMatch(s: seq<byte>, pos: nat, what: seq<byte>, r: int)
    requires if pos + |what| <= |s| then Compares(r, s[pos..pos + |what|], what) else r == -1
    ensures r == 0 <==> Matches(s, pos, what)
  {
  }

  lemma {:induction false} SliceOfSlice(s: seq<byte>, pos: nat, len: nat, at: nat, n: nat)
    requires pos + len <= |s| && at + n <= len
    ensures s[pos..pos + len][at..at + n] == s[pos + at..pos + at + n]
  {
    var t, u := s[pos..pos + len][at..at + n], s[pos + at..pos + at + n];
    assert forall x :: 0 <= x < n ==> t[x] == u[x];
  }

  /** The first stretch that differs decides. */
  lemma {:induction false} DecidedHere(s: seq<byte>, pos: nat, what: seq<byte>, done: nat, at: nat, to: nat,
                                       part: seq<byte>, r: int)
    requires pos + done == at <= to <= pos + |what| <= |s| && part == what[done..to - pos]
    requires s[pos..at] == what[..done] && r != 0 && Compares(r, s[at..to], part)
    ensures Compares(r, s[pos..pos + |what|], what)
  {
    var t, n := s[pos..pos + |what|], to - at;
    SliceOfSlice(s, pos, |what|, 0, done);
    SliceOfSlice(s, pos, |what|, done, n);
    if r < 0 {
      BeforeInside(t, what, done, n);
      BeforeIsStrict(t, what);
    } else {
      BeforeInside(what, t, done, n);
      BeforeIsStrict(what, t);
    }
  }

  lemma {:induction false} PieceAt(cs: seq<Chunk>, i: nat, j: nat, at: nat, n: nat, to: nat, piece: seq<byte>)
    requires Cursor(cs, i, j, at) && i < |cs| && j + n <= cs[i].off && to == at + n && piece == cs[i].Data()[j..j + n]
    ensures to <= |Flatten(cs)| && Flatten(cs)[at..to] == piece
  {
    SliceAt(cs, i, j, n);
  }

  lemma {:induction false} SliceAt(cs: seq<Chunk>, i: nat, j: nat, n: nat)
    requires AllOk(cs) && i < |cs| && j + n <= cs[i].off
    ensures AllOk(cs[..i]) && |Flatten(cs[..i])| + j + n <= |Flatten(cs)|
    ensures var at := |Flatten(cs[..i])| + j; Flatten(cs)[at..at + n] == cs[i].Data()[j..j + n]
  {
    FlattenAt(cs, i);
  }

  lemma {:induction false} SliceJoin(s: seq<byte>, pos: nat, what: seq<byte>, done: nat, at: nat, to: nat,
                                     part: seq<byte>)
    requires pos + done == at <= to <= pos + |what| <= |s| && part == what[done..to - pos]
    requires s[pos..at] == what[..done] && s[at..to] == part
    ensures s[pos..to] == what[..to - pos]
  {
    assert s[pos..to] == s[pos..at] + s[at..to];
    assert what[..to - pos] == what[..done] + part;
  }

  /** A pointer from which a search may start: at a byte, at the end, or at the first chunk. */
  ghost predicate Started(cs: seq<Chunk>, q: Ptr) {
    0 <= q.pos && Cursor(cs, Where(cs, q.chain), q.inChain, q.pos)
  }

  function StartOf(cs: seq<Chunk>): Ptr {
    Ptr(0, if |cs| == 0 then Null else At(cs[0].addr), 0)
  }

  lemma {:induction false} StartOfIsStarted(cs: seq<Chunk>)
    requires AllOk(cs)
    ensures Started(cs, StartOf(cs))
  {
  }

  lemma {:induction false} PtrIsStarted(cs: seq<Chunk>, q: Ptr, n: nat)
    requires Distinct(cs) && PtrAt(cs, q, n)
    ensures Started(cs, q)
  {
    if i: nat :| Inside(cs, q, n, i) {
      IndexOfAt(cs, i);
      ByteAt(cs, i, q.inChain);
    } else {
      assert cs[..|cs|] == cs;
    }
  }

  /** A stretch of chunk i without the byte b holds no byte b of the flat string. */
  lemma {:induction false} NoByte(cs: seq<Chunk>, i: nat, from: nat, to: nat, b: byte)
    requires AllOk(cs) && i < |cs| && from <= to <= cs[i].off
    requires forall j :: from <= j < to ==> cs[i].Data()[j] != b
    ensures AllOk(cs[..i]) && |Flatten(cs[..i])| + to <= |Flatten(cs)|
    ensures var at := |Flatten(cs[..i])|; forall n :: at + from <= n < at + to ==> Flatten(cs)[n] != b
  {
    FlattenAt(cs, i);
    var at := |Flatten(cs[..i])|;
    forall n | at + from <= n < at + to
      ensures Flatten(cs)[n] != b
    {
      ByteAt(cs, i, n - at);
    }
  }

  lemma {:induction false} NoMatch(s: seq<byte>, what: seq<byte>, from: nat, to: nat)
    requires |what| > 0 && to <= |s|
    requires forall n :: from <= n < to ==> s[n] != what[0]
    ensures forall n :: from <= n < to ==> !Matches(s, n, what)
  {
    forall n | from <= n < to
      ensures !Matches(s, n, what)
    {
      if n + |what| <= |s| {
        assert s[n..n + |what|][0] == s[n];
      }
    }
  }

  ghost predicate NoneUpTo(s: seq<byte>, what: seq<byte>, from: int, to: int) {
    forall n :: from <= n < to ==> !Matches(s, n, what)
  }

  /** The first place in chunk i, from the cursor on, that begins like what; the end if there is none. */
  method Candidate(cs: seq<Chunk>, i: nat, j: nat, pos: nat, what: seq<byte>) returns (p: nat, hit: nat, end: nat)
    requires Cursor(cs, i, j, pos) && i < |cs| && |what| > 0
    ensures j <= p <= cs[i].off && pos <= hit && Cursor(cs, i, p, hit) && Cursor(cs, i + 1, 0, end)
    ensures (p == cs[i].off ==> hit == end) && NoneUpTo(Flatten(cs), what, pos, hit)
  {
    p := MemChr(cs[i].Data(), j, what[0]);
    NoByte(cs, i, j, p, what[0]);
    hit, end := pos + (p - j), pos + (cs[i].off - j);
    NoMatch(Flatten(cs), what, pos, hit);
    CursorNext(cs, i, j, pos, end);
  }

  /** One byte on, in the same chunk or in the next. */
  method StepOn(cs: seq<Chunk>, i0: nat, j0: nat, pos: nat) returns (i: nat, j: nat)
    requires Cursor(cs, i0, j0, pos) && i0 < |cs| && j0 < cs[i0].off
    ensures Cursor(cs, i, j, pos + 1)
    ensures (i == i0 && j == j0 + 1 < cs[i].off) || (i == i0 + 1 && j == 0)
  {
    CursorStep(cs, i0, j0, pos, pos + 1);
    i, j := i0, j0 + 1;
    if j == cs[i].off {
      i, j := i + 1, 0;
    }
  }

  // ----- copying from a position

  /** The copied bytes grow by n bytes of chunk i. */
  lemma {:induction false} CopiedMore(cs: seq<Chunk>, i: nat, j: nat, pos: nat, n: nat, from: nat, out: seq<byte>)
    requires Cursor(cs, i, j, pos) && i < |cs| && j + n <= cs[i].off && from <= pos
    requires out == Flatten(cs)[from..pos]
    ensures pos + n <= |Flatten(cs)| && out + cs[i].Data()[j..j + n] == Flatten(cs)[from..pos + n]
  {
    SliceAt(cs, i, j, n);
    assert Flatten(cs)[from..pos + n] == Flatten(cs)[from..pos] + Flatten(cs)[pos..pos + n];
  }

  /** Copy out datlen bytes, or all there are, from a pointer on. */
  method CopyOutFrom(b: EvBuffer, q: Ptr, datlen: nat) returns (out: Option<seq<byte>>)
    requires b.Valid() && 0 <= q.pos <= EVBUFFER_CHAIN_MAX && PtrAt(b.chains, q, q.pos)
    ensures out.None? <==> datlen > EVBUFFER_CHAIN_MAX - q.pos
    ensures q.pos <= b.totalLen
    ensures out.Some? ==>
              out.value ==
                if q.pos + datlen <= b.totalLen then b.Content()[q.pos..q.pos + datlen] else b.Content()[q.pos..]
  {
    PtrIsStarted(b.chains, q, q.pos);
    if datlen > EVBUFFER_CHAIN_MAX - q.pos {
      return None;
    }
    var want: nat := if q.pos + datlen > b.totalLen then b.totalLen - q.pos else datlen;
    var d := CopyFrom(b.chains, Where(b.chains, q.chain), q.inChain, q.pos, want);
    assert b.Content()[q.pos..b.totalLen] == b.Content()[q.pos..];
    out := Some(d);
  }

  method CopyFrom(cs: seq<Chunk>, i0: nat, j0: nat, ghost from: nat, want: nat) returns (out: seq<byte>)
    requires Cursor(cs, i0, j0, from) && from + want <= |Flatten(cs)|
    ensures out == Flatten(cs)[from..from + want]
  {
    var i: nat, j: nat, left: nat := i0, j0, want;
    ghost var pos: nat := from;
    out := [];
    if i == |cs| {
      CursorEnd(cs, pos);
    }
    while left > 0 && left >= cs[i].off - j
      invariant 0 <= left <= want && pos == from + (want - left) && Cursor(cs, i, j, pos)
      invariant out == Flatten(cs)[from..pos]
      invariant left > 0 ==> i < |cs|
      decreases |cs| - i
    {
      var n := cs[i].off - j;
      CopiedMore(cs, i, j, pos, n, from, out);
      CursorNext(cs, i, j, pos, pos + n);
      out := out + cs[i].Data()[j..j + n];
      left, pos := left - n, pos + n;
      i, j := i + 1, 0;
      if i == |cs| {
        CursorEnd(cs, pos);
      }
    }
    if left > 0 {
      CopiedMore(cs, i, j, pos, left, from, out);
      out := out + cs[i].Data()[j..j + left];
    }
  }

  // ----- searching a range

  /** Does a match at n lie before the end of the search? */
  ghost predicate Within(end: Option<Ptr>, n: int, len: nat) {
    end.Some? ==> n + len <= end.value.pos
  }

  /** No match is left before the end of the search. */
  ghost predicate NoneWithin(s: seq<byte>, what: seq<byte>, from: int, end: Option<Ptr>) {
    forall n :: from <= n && Within(end, n, |what|) ==> !Matches(s, n, what)
  }

  /** A search that has used up the chunk of its end has passed its end. */
  lemma {:induction false} PastEnd(cs: seq<Chunk>, i: nat, q: Ptr, pos: nat)
    requires Distinct(cs) && q.pos >= 0 && PtrAt(cs, q, q.pos)
    requires i < |cs| && q.chain == At(cs[i].addr) && Cursor(cs, i + 1, 0, pos)
    ensures q.pos < pos
  {
    var x: nat :| Inside(cs, q, q.pos, x);
    IndexOfAt(cs, x);
    IndexOfAt(cs, i);
    FlattenNext(cs, i);
  }

  /** What looking for one candidate leads to: going on, a match, or the end of the search. */
  datatype Probe = More(i: nat, j: nat, pos: nat) | Hit(q: Ptr) | Over

  /** Is there a match at this byte? */
  method ProbeByte(cs: seq<Chunk>, totalLen: nat, i: nat, j: nat, pos: nat, what: seq<byte>, end: Option<Ptr>)
    returns (p: Probe)
    requires AllOk(cs) && totalLen == |Flatten(cs)| && Cursor(cs, i, j, pos)
    requires i < |cs| && j < cs[i].off && |what| > 0
    ensures p.More? ==> Cursor(cs, p.i, p.j, p.pos) && p.pos == pos + 1 && !Matches(Flatten(cs), pos, what)
    ensures p.More? ==> p.i == i + 1 || (p.i == i && j < p.j < cs[i].off)
    ensures p.Hit? ==> p.q.pos == pos && PtrAt(cs, p.q, pos) && Matches(Flatten(cs), pos, what)
    ensures p.Hit? ==> Within(end, pos, |what|)
    ensures p.Over? ==> end.Some? && pos + |what| > end.value.pos
  {
    var r := MemCmp(cs, totalLen, i, j, pos, what);
    ZeroIsMatch(Flatten(cs), pos, what, r);
    if r != 0 {
      var i', j' := StepOn(cs, i, j, pos);
      p := More(i', j', pos + 1);
    } else if end.Some? && pos + |what| > end.value.pos {
      p := Over;
    } else {
      CursorByte(cs, i, j, pos);
      p := Hit(Ptr(pos, At(cs[i].addr), j));
    }
  }

  method ProbeChunk(cs: seq<Chunk>, totalLen: nat, i: nat, j: nat, pos: nat, what: seq<byte>, end: Option<Ptr>)
    returns (p: Probe)
    requires AllOk(cs) && Distinct(cs) && totalLen == |Flatten(cs)| && Cursor(cs, i, j, pos)
    requires i < |cs| && |what| > 0
    requires end.Some? ==> end.value.pos >= 0 && PtrAt(cs, end.value, end.value.pos)
    ensures p.More? ==> Cursor(cs, p.i, p.j, p.pos) && pos <= p.pos && NoneUpTo(Flatten(cs), what, pos, p.pos)
    ensures p.More? ==> p.i == i + 1 || (p.i == i && j < p.j < cs[i].off)
    ensures p.Hit? ==> pos <= p.q.pos && PtrAt(cs, p.q, p.q.pos) && Matches(Flatten(cs), p.q.pos, what)
    ensures p.Hit? ==> Within(end, p.q.pos, |what|) && NoneUpTo(Flatten(cs), what, pos, p.q.pos)
    ensures p.Over? ==> NoneWithin(Flatten(cs), what, pos, end)
  {
    var at, hit, past := Candidate(cs, i, j, pos, what);
    if at < cs[i].off {
      p := ProbeByte(cs, totalLen, i, at, hit, what, end);
    } else if end.Some? && end.value.chain == At(cs[i].addr) {
      PastEnd(cs, i, end.value, past);
      p := Over;
    } else {
      p := More(i + 1, 0, past);
    }
  }

  /** The first place at or after q0, and before the end if there is one, where what occurs, even across
      chunks. */
  method SearchRange(cs: seq<Chunk>, totalLen: nat, what: seq<byte>, q0: Ptr, end: Option<Ptr>) returns (q: Ptr)
    requires AllOk(cs) && Distinct(cs) && totalLen == |Flatten(cs)| && Started(cs, q0)
    requires end.Some? ==> end.value.pos >= 0 && PtrAt(cs, end.value, end.value.pos)
    ensures |what| == 0 || |what| > EVBUFFER_CHAIN_MAX ==> q == q0
    ensures 0 < |what| <= EVBUFFER_CHAIN_MAX && q.pos >= 0 ==>
              && PtrAt(cs, q, q.pos) && q0.pos <= q.pos && Matches(Flatten(cs), q.pos, what)
              && Within(end, q.pos, |what|) && NoneUpTo(Flatten(cs), what, q0.pos, q.pos)
    ensures 0 < |what| <= EVBUFFER_CHAIN_MAX && q.pos < 0 ==>
              q == NotFound && NoneWithin(Flatten(cs), what, q0.pos, end)
  {
    if |what| == 0 || |what| > EVBUFFER_CHAIN_MAX {
      return q0;
    }
    var i, j: nat, pos: nat := Where(cs, q0.chain), q0.inChain, q0.pos;
    while i < |cs|
      invariant Cursor(cs, i, j, pos) && q0.pos <= pos && NoneUpTo(Flatten(cs), what, q0.pos, pos)
      decreases |cs| - i, if i < |cs| then cs[i].off - j else 0
    {
      var p := ProbeChunk(cs, totalLen, i, j, pos, what, end);
      match p
      case More(i', j', pos') =>
        i, j, pos := i', j', pos';
      case Hit(found) =>
        return found;
      case Over =>
        return NotFound;
    }
    CursorEnd(cs, pos);
    q := NotFound;
  }

  /** The first place at or after q0 where what occurs. */
  method Search(cs: seq<Chunk>, totalLen: nat, what: seq<byte>, q0: Ptr) returns (q: Ptr)
    requires AllOk(cs) && Distinct(cs) && totalLen == |Flatten(cs)| && Started(cs, q0)
    ensures |what| == 0 || |what| > EVBUFFER_CHAIN_MAX ==> q == q0
    ensures 0 < |what| <= EVBUFFER_CHAIN_MAX && q.pos >= 0 ==>
              && PtrAt(cs, q, q.pos) && q0.pos <= q.pos && Matches(Flatten(cs), q.pos, what)
              && NoneUpTo(Flatten(cs), what, q0.pos, q.pos)
    ensures 0 < |what| <= EVBUFFER_CHAIN_MAX && q.pos < 0 ==>
              q == NotFound && forall n :: q0.pos <= n ==> !Matches(Flatten(cs), n, what)
  {
    q := SearchRange(cs, totalLen, what, q0, None);
    if 0 < |what| <= EVBUFFER_CHAIN_MAX && q.pos < 0 {
      assert forall n :: Within(None, n, |what|);
    }
  }
}
