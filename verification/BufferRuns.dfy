/** Whole runs of two evbuffers: whatever the sequence of operations, the chunk lists stay
    consistent and the pair behaves like two flat byte strings. */
module BufferRuns {
  import opened Basics
  import opened Chunks
  import opened EvBuffers
  import opened Expansion
  import opened Lines

  /** What is done to one of two buffers. */
  datatype Act =
    | AddOp(data: seq<byte>)
    | PrependOp(data: seq<byte>)
    | ReadOp(howmuch: int, readable: int, input: Option<seq<byte>>)
    | DrainOp(n: nat)
    | RemoveOp(n: nat)
    | ReadLnOp(style: EolStyle)
    | PullupOp(size: int)
    | ExpandOp(n: nat)
    | TakeAll               // everything in the other buffer goes to the end of this one
    | GiveSome(n: nat)      // the first n bytes of this buffer go to the end of the other

  /** Either buffer may be the one that is acted on. */
  datatype Op = Op(second: bool, act: Act)

  /** Two flat strings, and what was handed to the caller so far. */
  datatype Flat = Flat(a: seq<byte>, b: seq<byte>, out: seq<seq<byte>>)

  function Min(x: nat, y: nat): nat {
    if x < y then x else y
  }

  /** Is there room for n more bytes? */
  predicate Takes(a: seq<byte>, n: nat) {
    |a| + n <= EV_SIZE_MAX && n <= CHUNK_LIMIT
  }

  function FlatAct(s: Flat, act: Act): Flat {
    match act
    case AddOp(d) => if Takes(s.a, |d|) then s.(a := s.a + d) else s
    case PrependOp(d) => if Takes(s.a, |d|) then s.(a := d + s.a) else s
    case ReadOp(_, _, d) => if d.Some? then s.(a := s.a + d.value) else s
    case DrainOp(n) => s.(a := s.a[Min(n, |s.a|)..])
    case RemoveOp(n) => Flat(s.a[Min(n, |s.a|)..], s.b, s.out + [s.a[..Min(n, |s.a|)]])
    case ReadLnOp(style) =>
      (match FirstEol(s.a, 0, style)
       case NoEol => s
       case EolAt(n, l) =>
         if n + l <= |s.a| then Flat(s.a[n + l..], s.b, s.out + [s.a[..n]]) else s)
    case PullupOp(_) => s
    case ExpandOp(_) => s
    case TakeAll => Flat(s.a + s.b, [], s.out)
    case GiveSome(n) => Flat(s.a[Min(n, |s.a|)..], s.b + s.a[..Min(n, |s.a|)], s.out)
  }

  function Swapped(s: Flat): Flat {
    Flat(s.b, s.a, s.out)
  }

  function FlatStep(s: Flat, op: Op): Flat {
    if op.second then Swapped(FlatAct(Swapped(s), op.act)) else FlatAct(s, op.act)
  }

  function FlatRun(s: Flat, ops: seq<Op>): Flat
    decreases |ops|
  {
    if ops == [] then s else FlatRun(FlatStep(s, ops[0]), ops[1..])
  }

  /** A read returns no more than was asked for, and nobody prepends more than a chunk can hold. */
  predicate Possible(act: Act) {
    && (act.ReadOp? && act.input.Some? ==> |act.input.value| <= Clamp(act.howmuch, act.readable))
    && (act.PrependOp? ==> |act.data| <= CHUNK_LIMIT)
  }

  /** At no time do the two strings together outgrow the memory. */
  predicate Fits(s: Flat, ops: seq<Op>)
    decreases |ops|
  {
    && |s.a| + |s.b| <= EV_SIZE_MAX
    && (ops != [] ==> Possible(ops[0].act) && Fits(FlatStep(s, ops[0]), ops[1..]))
  }

  /** An address that no chunk of two lists has: the allocator. */
  method Malloc(cs: seq<Chunk>, ds: seq<Chunk>) returns (a: nat)
    ensures Fresh(a, cs) && Fresh(a, ds)
  {
    a := 0;
    for i := 0 to |cs|
      invariant forall j :: 0 <= j < i ==> cs[j].addr < a
    {
      if cs[i].addr >= a { a := cs[i].addr + 1; }
    }
    for i := 0 to |ds|
      invariant forall j :: 0 <= j < |cs| ==> cs[j].addr < a
      invariant forall j :: 0 <= j < i ==> ds[j].addr < a
    {
      if ds[i].addr >= a { a := ds[i].addr + 1; }
    }
  }

  ghost predicate Pair(x: EvBuffer, y: EvBuffer)
    reads x, y
  {
    x != y && x.Valid() && y.Valid() && Apart(x.chains, y.chains)
  }

  lemma {:induction false} StillApart(cs: seq<Chunk>, cs': seq<Chunk>, ds: seq<Chunk>)
    requires Apart(cs, ds) && forall a :: Fresh(a, cs) ==> Fresh(a, cs')
    ensures Apart(cs', ds)
  {
    forall i, j | 0 <= i < |cs'| && 0 <= j < |ds|
      ensures cs'[i].addr != ds[j].addr
    {
      assert Fresh(ds[j].addr, cs);
      assert Fresh(ds[j].addr, cs');
    }
  }

  /** One operation on a pair of buffers. */
  method Step(x: EvBuffer, y: EvBuffer, act: Act, ghost out: seq<seq<byte>>) returns (o: seq<seq<byte>>)
    requires Pair(x, y) && Possible(act) && x.totalLen + y.totalLen <= EV_SIZE_MAX
    requires act.ReadOp? && act.input.Some? ==> x.totalLen + |act.input.value| <= EV_SIZE_MAX
    modifies x, y
    ensures Pair(x, y)
    ensures Flat(x.Content(), y.Content(), out + o) == FlatAct(Flat(old(x.Content()), old(y.Content()), out), act)
  {
    o := [];
    NothingMore(out);
    if act.TakeAll? || act.GiveSome? {
      StepMoving(x, y, act);
    } else if act.DrainOp? || act.RemoveOp? || act.ReadLnOp? {
      o := StepTaking(x, y, act);
    } else {
      StepWithChunk(x, y, act);
    }
  }

  lemma NothingMore(out: seq<seq<byte>>)
    ensures out + [] == out
  {
  }

  /** The operations that move bytes from one buffer to the other. */
  method StepMoving(x: EvBuffer, y: EvBuffer, act: Act)
    requires Pair(x, y) && x.totalLen + y.totalLen <= EV_SIZE_MAX && (act.TakeAll? || act.GiveSome?)
    modifies x, y
    ensures Pair(x, y)
    ensures forall out :: FlatAct(Flat(old(x.Content()), old(y.Content()), out), act) ==
              Flat(x.Content(), y.Content(), out)
  {
    if act.TakeAll? {
      x.AddBuffer(y);
    } else {
      var m := Malloc(x.chains, y.chains);
      var _, moved := x.RemoveBuffer(y, act.n, Some(m));
    }
  }

  /** The operations that may need a new chunk. */
  method StepWithChunk(x: EvBuffer, y: EvBuffer, act: Act)
    requires Pair(x, y) && Possible(act)
    requires act.ReadOp? && act.input.Some? ==> x.totalLen + |act.input.value| <= EV_SIZE_MAX
    requires act.AddOp? || act.PrependOp? || act.ReadOp? || act.PullupOp? || act.ExpandOp?
    modifies x
    ensures Pair(x, y)
    ensures forall out :: FlatAct(Flat(old(x.Content()), y.Content(), out), act) == Flat(x.Content(), y.Content(), out)
  {
    var a := Malloc(x.chains, y.chains);
    var m := Some(a);
    if act.PullupOp? || act.ExpandOp? {
      Reshape(x, act, m);
    } else {
      Bring(x, act, m);
    }
    ApartBoth(old(x.chains), x.chains, y.chains, a);
  }

  /** The operations that bring bytes in. */
  method Bring(x: EvBuffer, act: Act, m: Option<nat>)
    requires x.Valid() && m.Some? && Unused(m, x.chains) && Possible(act)
    requires act.ReadOp? && act.input.Some? ==> x.totalLen + |act.input.value| <= EV_SIZE_MAX
    requires act.AddOp? || act.PrependOp? || act.ReadOp?
    modifies x
    ensures x.Valid() && OnlyNew(old(x.chains), x.chains, m)
    ensures forall b, out :: FlatAct(Flat(old(x.Content()), b, out), act) == Flat(x.Content(), b, out)
  {
    match act {
      case AddOp(d) =>
        var _ := x.Add(d, m);
      case PrependOp(d) =>
        var _ := x.Prepend(d, m);
      case ReadOp(h, r, d) =>
        var _ := Read(x, h, r, d, m);
    }
  }

  /** The operations that only move bytes within the buffer. */
  method Reshape(x: EvBuffer, act: Act, m: Option<nat>)
    requires x.Valid() && Unused(m, x.chains) && (act.PullupOp? || act.ExpandOp?)
    modifies x
    ensures x.Valid() && OnlyNew(old(x.chains), x.chains, m) && x.Content() == old(x.Content())
  {
    if act.PullupOp? {
      var _ := x.Pullup(act.size, m);
    } else {
      var _, _ := ExpandSinglechain(x, act.n, m);
    }
  }

  /** The operations that take bytes out. */
  method StepTaking(x: EvBuffer, y: EvBuffer, act: Act) returns (o: seq<seq<byte>>)
    requires Pair(x, y) && (act.DrainOp? || act.RemoveOp? || act.ReadLnOp?)
    modifies x
    ensures Pair(x, y)
    ensures forall out :: FlatAct(Flat(old(x.Content()), y.Content(), out), act) ==
              Flat(x.Content(), y.Content(), out + o)
  {
    if act.DrainOp? {
      o := [];
      DropMin(x.Content(), act.n);
      x.Drain(act.n);
      forall out: seq<seq<byte>>
        ensures out + o == out
      {
        NothingMore(out);
      }
    } else if act.RemoveOp? {
      ghost var s := x.Content();
      var d := x.Remove(act.n);
      o := [d];
      TakeMin(s, d, x.Content(), act.n);
    } else {
      o := StepLine(x, act.style);
    }
    StillApart(old(x.chains), x.chains, y.chains);
  }

  method StepLine(x: EvBuffer, style: EolStyle) returns (o: seq<seq<byte>>)
    requires x.Valid()
    modifies x
    ensures x.Valid() && forall a :: Fresh(a, old(x.chains)) ==> Fresh(a, x.chains)
    ensures forall b, out :: FlatAct(Flat(old(x.Content()), b, out), ReadLnOp(style)) == Flat(x.Content(), b, out + o)
  {
    var line := ReadLn(x, style);
    if line.GotLine? {
      o := [line.text];
    } else {
      o := [];
      forall out: seq<seq<byte>>
        ensures out + o == out
      {
        NothingMore(out);
      }
    }
  }

  lemma {:induction false} DropMin(s: seq<byte>, n: nat)
    ensures s[Min(n, |s|)..] == if n >= |s| then [] else s[n..]
  {
  }

  lemma {:induction false} TakeMin(s: seq<byte>, d: seq<byte>, rest: seq<byte>, n: nat)
    requires d + rest == s && |d| == Min(n, |s|)
    ensures d == s[..Min(n, |s|)] && rest == s[Min(n, |s|)..]
  {
  }

  lemma {:induction false} ApartBoth(cs: seq<Chunk>, cs': seq<Chunk>, ds: seq<Chunk>, malloc: nat)
    requires Apart(cs, ds) && OnlyNew(cs, cs', Some(malloc)) && Fresh(malloc, ds)
    ensures Apart(cs', ds)
  {
    forall i, j | 0 <= i < |cs'| && 0 <= j < |ds|
      ensures cs'[i].addr != ds[j].addr
    {
      assert Fresh(ds[j].addr, cs);
      assert Fresh(ds[j].addr, cs');
    }
  }

  /** The next step of a run that fits. */
  lemma FitsNext(s: Flat, ops: seq<Op>)
    requires Fits(s, ops) && ops != []
    ensures Possible(ops[0].act) && |s.a| + |s.b| <= EV_SIZE_MAX && Fits(FlatStep(s, ops[0]), ops[1..])
    ensures var t := FlatStep(s, ops[0]); |t.a| + |t.b| <= EV_SIZE_MAX
    ensures var act := ops[0].act;
            act.ReadOp? && act.input.Some? ==> |if ops[0].second then s.b else s.a| + |act.input.value| <= EV_SIZE_MAX
  {
  }

  /** From two empty buffers, every run of operations refines the run on flat strings: the
      contents and everything handed to the caller agree, and the chunk lists are consistent. */
  method Run(ops: seq<Op>) returns (x: EvBuffer, y: EvBuffer, out: seq<seq<byte>>)
    requires Fits(Flat([], [], []), ops)
    ensures Pair(x, y)
    ensures Flat(x.Content(), y.Content(), out) == FlatRun(Flat([], [], []), ops)
  {
    x := new EvBuffer();
    y := new EvBuffer();
    out := [];
    for i := 0 to |ops|
      invariant Pair(x, y) && fresh(x) && fresh(y)
      invariant FlatRun(Flat(x.Content(), y.Content(), out), ops[i..]) == FlatRun(Flat([], [], []), ops)
      invariant Fits(Flat(x.Content(), y.Content(), out), ops[i..])
    {
      assert ops[i..][0] == ops[i] && ops[i..][1..] == ops[i + 1..];
      FitsNext(Flat(x.Content(), y.Content(), out), ops[i..]);
      var o;
      if ops[i].second {
        o := Step(y, x, ops[i].act, out);
      } else {
        o := Step(x, y, ops[i].act, out);
      }
      out := out + o;
    }
  }

  // ----- when memory runs out

  /** A buffer of one chunk. */
  method OneChunk(c: Chunk) returns (x: EvBuffer)
    requires c.Ok()
    ensures fresh(x) && x.Valid() && x.chains == [c] && x.k == 0 && x.Content() == c.Data()
  {
    x := new EvBuffer();
    FlattenOne(c);
    x.Commit([c], At(c.addr), First, c.off, 0);
  }

  /** Moving one byte of two without memory: the byte has left, and did not arrive. */
  method MoveLosesByte() returns (x: EvBuffer, y: EvBuffer, result: int)
    ensures x.Valid() && y.Valid() && result == 1 && x.Content() == [8] && y.Content() == []
  {
    x := OneChunk(Chunk(0, [7, 8], 0, 2));
    y := new EvBuffer();
    ghost var moved;
    result, moved := x.RemoveBuffer(y, 1, None);
  }

  /** Prepending two bytes without memory is refused, and one of them is there all the same. */
  method PrependKeepsByte() returns (x: EvBuffer, ok: bool)
    ensures x.Valid() && !ok && x.Content() == [8, 9]
  {
    x := OneChunk(Chunk(0, [0, 9], 1, 1));
    ok := x.Prepend([7, 8], None);
  }
}
