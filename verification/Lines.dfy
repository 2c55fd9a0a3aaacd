/** Finding ends of lines in an evbuffer and reading lines. */
module Lines {
  import opened Basics
  import opened Chunks
  import opened EvBuffers
  import opened Searching

  const LF: byte := 10
  const CR: byte := 13
  const NUL: byte := 0
  const CHUNK_SZ: nat := 128

  datatype EolStyle = Any | Crlf | CrlfStrict | Lf | Nul

  datatype Eol = NoEol | EolAt(pos: nat, len: nat)

  // ----- what an end of line is, on the flat string

  /** First position at or after from of a byte in bs; the length of s if there is none. */
  function FirstIn(s: seq<byte>, from: nat, bs: set<byte>): (n: nat)
    requires from <= |s|
    ensures from <= n <= |s| && (n < |s| ==> s[n] in bs)
    ensures forall j :: from <= j < n ==> s[j] !in bs
    decreases |s| - from
  {
    if from == |s| || s[from] in bs then from else FirstIn(s, from + 1, bs)
  }

  /** First position at or after from of a byte not in bs. */
  function SpanEnd(s: seq<byte>, from: nat, bs: set<byte>): (n: nat)
    requires from <= |s|
    ensures from <= n <= |s| && (n < |s| ==> s[n] !in bs)
    ensures forall j :: from <= j < n ==> s[j] in bs
    decreases |s| - from
  {
    if from == |s| || s[from] !in bs then from else SpanEnd(s, from + 1, bs)
  }

  /** First position at or after from of the pair CR LF. */
  function FirstPair(s: seq<byte>, from: nat): (n: nat)
    requires from <= |s|
    ensures from <= n <= |s|
    ensures n < |s| ==> n + 1 < |s| && s[n] == CR && s[n + 1] == LF
    ensures forall j :: from <= j < n && j + 1 < |s| ==> !(s[j] == CR && s[j + 1] == LF)
    decreases |s| - from
  {
    if from == |s| then from
    else if from + 1 < |s| && s[from] == CR && s[from + 1] == LF then from
    else FirstPair(s, from + 1)
  }

  /** The first end of line of a style at or after from. */
  function FirstEol(s: seq<byte>, from: nat, style: EolStyle): Eol
    requires from <= |s|
  {
    match style
    case Any =>
      var n := FirstIn(s, from, {CR, LF});
      if n == |s| then NoEol else EolAt(n, SpanEnd(s, n, {CR, LF}) - n)
    case CrlfStrict =>
      var n := FirstPair(s, from);
      if n == |s| then NoEol else EolAt(n, 2)
    case Crlf =>
      var n := FirstIn(s, from, {LF});
      if n == |s| then NoEol
      else if n > from && s[n - 1] == CR then EolAt(n - 1, 2)
      else EolAt(n, 1)
    case Lf =>
      var n := FirstIn(s, from, {LF});
      if n == |s| then NoEol else EolAt(n, 1)
    case Nul =>
      var n := FirstIn(s, from, {NUL});
      if n == |s| then NoEol else EolAt(n, 1)
  }

  /** Bytes e.pos to e.pos + e.len of s are a terminator of the style. */
  ghost predicate Terminates(s: seq<byte>, from: nat, style: EolStyle, e: Eol) {
    && e.EolAt? && from <= e.pos && 0 < e.len && e.pos + e.len <= |s|
    && var t := s[e.pos..e.pos + e.len];
       match style
       case Any =>
         && (forall j :: 0 <= j < |t| ==> t[j] in {CR, LF})
         && (e.pos + e.len < |s| ==> s[e.pos + e.len] !in {CR, LF})
       case CrlfStrict => t == [CR, LF]
       case Crlf => t == [CR, LF] || (t == [LF] && (e.pos > from ==> s[e.pos - 1] != CR))
       case Lf => t == [LF]
       case Nul => t == [NUL]
  }

  /** FirstEol finds a terminator ... */
  lemma {:induction false} FirstEolTerminates(s: seq<byte>, from: nat, style: EolStyle)
    requires from <= |s| && FirstEol(s, from, style).EolAt?
    ensures Terminates(s, from, style, FirstEol(s, from, style))
  {
    var e := FirstEol(s, from, style);
    var t := s[e.pos..e.pos + e.len];
    if e.len == 1 && !style.Any? {
      assert t == [s[e.pos]];
    } else if e.len == 2 && !style.Any? {
      assert t == [s[e.pos], s[e.pos + 1]];
    } else {
      assert forall j :: 0 <= j < |t| ==> t[j] == s[e.pos + j];
    }
  }

  /** ... whenever there is one, and none starts before it. */
  lemma {:induction false} FirstEolIsFirst(s: seq<byte>, from: nat, style: EolStyle, other: Eol)
    requires from <= |s| && Terminates(s, from, style, other)
    ensures FirstEol(s, from, style).EolAt? && FirstEol(s, from, style).pos <= other.pos
  {
    var t := s[other.pos..other.pos + other.len];
    assert t[0] == s[other.pos] && t[|t| - 1] == s[other.pos + other.len - 1];
  }

  // ----- finding it in the chunks

  lemma {:induction false} FirstInIs(s: seq<byte>, from: nat, bs: set<byte>, n: nat)
    requires from <= n <= |s| && (n < |s| ==> s[n] in bs)
    requires forall j :: from <= j < n ==> s[j] !in bs
    ensures FirstIn(s, from, bs) == n
  {
  }

  lemma {:induction false} SpanEndIs(s: seq<byte>, from: nat, bs: set<byte>, n: nat)
    requires from <= n <= |s| && (n < |s| ==> s[n] !in bs)
    requires forall j :: from <= j < n ==> s[j] in bs
    ensures SpanEnd(s, from, bs) == n
  {
  }

  /** The first CR or LF, looked for in pieces of 128 bytes. */
  method FindEolChar(s: seq<byte>, from: nat) returns (i: nat)
    requires from <= |s|
    ensures i == FirstIn(s, from, {CR, LF})
  {
    var at := from;
    while at < |s|
      invariant from <= at
      invariant forall j :: from <= j < at && j < |s| ==> s[j] !in {CR, LF}
    {
      var chunk := if at + CHUNK_SZ < |s| then CHUNK_SZ else |s| - at;
      var window := s[..at + chunk];
      var cr := MemChr(window, at, CR);
      var lf := MemChr(window, at, LF);
      if cr < |window| {
        i := if lf < |window| && lf < cr then lf else cr;
        FirstInIs(s, from, {CR, LF}, i);
        return;
      } else if lf < |window| {
        i := lf;
        FirstInIs(s, from, {CR, LF}, i);
        return;
      }
      at := at + CHUNK_SZ;
    }
    i := |s|;
    FirstInIs(s, from, {CR, LF}, i);
  }

  /** What a scan looks for: one byte, or either end-of-line byte. */
  datatype Wanted = One(b: byte) | EitherEol

  function Bytes(w: Wanted): set<byte> {
    match w
    case One(b) => {b}
    case EitherEol => {CR, LF}
  }

  method FindInChunk(d: seq<byte>, from: nat, w: Wanted) returns (i: nat)
    requires from <= |d|
    ensures i == FirstIn(d, from, Bytes(w))
  {
    match w
    case One(b) =>
      i := MemChr(d, from, b);
      FirstInIs(d, from, {b}, i);
    case EitherEol =>
      i := FindEolChar(d, from);
  }

  /** A stretch of chunk i without bytes in bs holds none of them in the flat string. */
  lemma {:induction false} NoneIn(cs: seq<Chunk>, i: nat, from: nat, to: nat, bs: set<byte>)
    requires AllOk(cs) && i < |cs| && from <= to <= cs[i].off
    requires forall j :: from <= j < to ==> cs[i].Data()[j] !in bs
    ensures AllOk(cs[..i]) && |Flatten(cs[..i])| + to <= |Flatten(cs)|
    ensures var at := |Flatten(cs[..i])|; forall n :: at + from <= n < at + to ==> Flatten(cs)[n] !in bs
  {
    FlattenAt(cs, i);
    var at := |Flatten(cs[..i])|;
    forall n | at + from <= n < at + to
      ensures Flatten(cs)[n] !in bs
    {
      ByteAt(cs, i, n - at);
    }
  }

  /** The first wanted byte at or after q0. */
  method FindFirst(cs: seq<Chunk>, q0: Ptr, w: Wanted) returns (q: Ptr)
    requires Started(cs, q0)
    ensures var n := FirstIn(Flatten(cs), q0.pos, Bytes(w));
            if n < |Flatten(cs)| then PtrAt(cs, q, n) else q == NotFound
  {
    ghost var s := Flatten(cs);
    var i, j: nat, pos: nat := Where(cs, q0.chain), q0.inChain, q0.pos;
    while i < |cs|
      invariant Cursor(cs, i, j, pos) && q0.pos <= pos
      invariant forall n :: q0.pos <= n < pos ==> s[n] !in Bytes(w)
      decreases |cs| - i
    {
      var p := FindInChunk(cs[i].Data(), j, w);
      NoneIn(cs, i, j, p, Bytes(w));
      CursorNext(cs, i, j, pos, pos + (cs[i].off - j));
      if p < cs[i].off {
        pos, j := pos + (p - j), p;
        CursorByte(cs, i, j, pos);
        FirstInIs(s, q0.pos, Bytes(w), pos);
        return Ptr(pos, At(cs[i].addr), j);
      }
      pos := pos + (cs[i].off - j);
      i, j := i + 1, 0;
    }
    CursorEnd(cs, pos);
    FirstInIs(s, q0.pos, Bytes(w), |s|);
    q := NotFound;
  }

  /** How many bytes from q0 on are CR or LF? */
  method StrSpn(cs: seq<Chunk>, q0: Ptr) returns (count: nat)
    requires Started(cs, q0)
    ensures count == SpanEnd(Flatten(cs), q0.pos, {CR, LF}) - q0.pos
  {
    ghost var s, pos := Flatten(cs), q0.pos;
    count := 0;
    var i, j: nat := Where(cs, q0.chain), q0.inChain;
    while i < |cs|
      invariant pos == q0.pos + count && Cursor(cs, i, j, pos)
      invariant forall n :: q0.pos <= n < pos ==> s[n] in {CR, LF}
      decreases |cs| - i, if i < |cs| then cs[i].off - j else 0
    {
      if j < cs[i].off {
        CursorByte(cs, i, j, pos);
        if cs[i].Data()[j] !in {CR, LF} {
          SpanEndIs(s, q0.pos, {CR, LF}, pos);
          return;
        }
        count, j, pos := count + 1, j + 1, pos + 1;
      } else {
        CursorNext(cs, i, j, pos, pos);
        i, j := i + 1, 0;
      }
    }
    CursorEnd(cs, pos);
    SpanEndIs(s, q0.pos, {CR, LF}, |s|);
  }

  lemma {:induction false} PairMatches(s: seq<byte>, n: nat)
    ensures Matches(s, n, [CR, LF]) <==> n + 1 < |s| && s[n] == CR && s[n + 1] == LF
  {
    if n + 1 < |s| {
      assert s[n..n + 2] == [s[n], s[n + 1]];
    }
  }

  lemma {:induction false} FirstPairIs(s: seq<byte>, from: nat, n: nat)
    requires from <= n <= |s| && (n < |s| ==> Matches(s, n, [CR, LF]))
    requires forall j :: from <= j < n ==> !Matches(s, j, [CR, LF])
    ensures FirstPair(s, from) == n
  {
    var m := FirstPair(s, from);
    PairMatches(s, n);
    PairMatches(s, m);
  }

  /** Where a search starts: at the beginning, or at a pointer. */
  datatype StartAt = Beginning | From(q: Ptr)

  function StartPos(start: StartAt): (r: int)
    ensures forall q :: start == From(q) ==> r == q.pos
    ensures start == Beginning ==> r == 0
  {
    if start.Beginning? then 0 else start.q.pos
  }

  /** Find the first end of line of a style; len is its length. */
  method SearchEol(b: EvBuffer, start: StartAt, style: EolStyle) returns (q: Ptr, len: nat)
    requires b.Valid()
    requires start.From? ==> start.q.pos >= 0 && PtrAt(b.chains, start.q, start.q.pos)
    ensures 0 <= StartPos(start) <= b.totalLen
    ensures match FirstEol(b.Content(), StartPos(start), style)
            case NoEol => q == NotFound && len == 0
            case EolAt(n, l) => PtrAt(b.chains, q, n) && len == l
  {
    var it := if start.Beginning? then StartOf(b.chains) else start.q;
    StartOfIsStarted(b.chains);
    if start.From? {
      PtrIsStarted(b.chains, start.q, start.q.pos);
      if it.chain == Null {
        CursorEnd(b.chains, it.pos);
        return NotFound, 0;
      }
    }
    match style
    case Any =>
      q := FindFirst(b.chains, it, EitherEol);
      len := 0;
      if q.pos >= 0 {
        PtrIsStarted(b.chains, q, q.pos);
        len := StrSpn(b.chains, q);
      }
    case CrlfStrict =>
      q, len := FindCrlfStrict(b, it);
    case Crlf =>
      q, len := FindCrlf(b, it);
    case Lf =>
      q := FindFirst(b.chains, it, One(LF));
      len := if q.pos >= 0 then 1 else 0;
    case Nul =>
      q := FindFirst(b.chains, it, One(NUL));
      len := if q.pos >= 0 then 1 else 0;
  }

  /** The first CR with an LF right behind it. */
  method FindCrlfStrict(b: EvBuffer, it: Ptr) returns (q: Ptr, len: nat)
    requires b.Valid() && Started(b.chains, it)
    ensures match FirstEol(b.Content(), it.pos, CrlfStrict)
            case NoEol => q == NotFound && len == 0
            case EolAt(n, l) => PtrAt(b.chains, q, n) && len == l
  {
    q := Search(b.chains, b.totalLen, [CR, LF], it);
    len := if q.pos >= 0 then 2 else 0;
    FirstPairIs(b.Content(), it.pos, if q.pos >= 0 then q.pos else b.totalLen);
  }

  /** The first LF, together with a CR in front of it. */
  method FindCrlf(b: EvBuffer, it: Ptr) returns (q: Ptr, len: nat)
    requires b.Valid() && Started(b.chains, it)
    ensures match FirstEol(b.Content(), it.pos, Crlf)
            case NoEol => q == NotFound && len == 0
            case EolAt(n, l) => PtrAt(b.chains, q, n) && len == l
  {
    q := FindFirst(b.chains, it, One(LF));
    ghost var n := FirstIn(b.Content(), it.pos, Bytes(One(LF)));
    len := if q.pos < 0 then 0 else 1;
    if q.pos >= 0 && q.pos != it.pos {
      q, len := BackOverCr(b, q, n);
    }
  }

  /** Include a CR in front of an LF that is not at the start of the buffer. */
  method BackOverCr(b: EvBuffer, q0: Ptr, ghost n: nat) returns (q: Ptr, len: nat)
    requires b.Valid() && 0 < n < b.totalLen && PtrAt(b.chains, q0, n)
    ensures b.Content()[n - 1] == CR ==> PtrAt(b.chains, q, n - 1) && len == 2
    ensures b.Content()[n - 1] != CR ==> q == q0 && len == 1
  {
    q, len := q0, 1;
    var q2, ok := PtrSubtract(b, q0, 1);
    GetChrIs(b.chains, q2, n - 1);
    if GetChr(b.chains, q2) == CR {
      q, len := q2, 2;
    }
  }

  datatype Line = NoLine | GotLine(text: seq<byte>)

  /** Read a line without its terminator, and drop the terminator. */
  method ReadLn(b: EvBuffer, style: EolStyle) returns (line: Line)
    requires b.Valid()
    modifies b
    ensures b.Valid() && forall a :: Fresh(a, old(b.chains)) ==> Fresh(a, b.chains)
    ensures match FirstEol(old(b.Content()), 0, style)
            case NoEol => line == NoLine && b.Content() == old(b.Content())
            case EolAt(n, l) =>
              n + l <= old(b.totalLen) && line == GotLine(old(b.Content())[..n]) &&
                  b.Content() == old(b.Content())[n + l..]
  {
    var q, len := SearchEol(b, Beginning, style);
    if q.pos < 0 {
      return NoLine;
    }
    ghost var s, n := b.Content(), q.pos;
    FirstEolTerminates(s, 0, style);
    var text := b.Remove(q.pos);
    ghost var mid := b.Content();
    b.Drain(len);
    SplitLine(s, text, mid, b.Content(), n, len);
    line := GotLine(text);
  }

  /** A string taken apart in two steps. */
  lemma {:induction false} SplitLine(s: seq<byte>, text: seq<byte>, mid: seq<byte>, rest: seq<byte>, n: nat, l: nat)
    requires s == text + mid && |text| == n && n + l <= |s| && rest == if l >= |mid| then [] else mid[l..]
    ensures text == s[..n] && rest == s[n + l..]
  {
  }
}
