/** The next pointers of chunk lists.

    Elsewhere the order of a list of chunks is the order of a sequence. Here are the pointer writes by
    which the buffer code makes that order, on a memory that holds the next field of every live chunk.
    Two buffers share the memory; nothing dangles and nothing leaks. */
module Links {
  import opened Chunks

  type Memory = map<nat, Ref>

  /** Walking from r passes the chunks at addresses a and comes to end. */
  ghost predicate Leads(m: Memory, r: Ref, a: seq<nat>, end: Ref)
    decreases |a|
  {
    if a == [] then r == end else r == At(a[0]) && a[0] in m && Leads(m, m[a[0]], a[1..], end)
  }

  ghost predicate NoRepeat(a: seq<nat>) {
    forall i, j :: 0 <= i < j < |a| ==> a[i] != a[j]
  }

  ghost predicate Disjoint(a: seq<nat>, b: seq<nat>) {
    forall x :: x in a ==> x !in b
  }

  /** The addresses of a list of chunks, and the slot that leads to place i. */
  ghost function Addrs(cs: seq<Chunk>): (a: seq<nat>)
    ensures |a| == |cs| && forall i :: 0 <= i < |cs| ==> a[i] == cs[i].addr
  {
    seq(|cs|, i requires 0 <= i < |cs| => cs[i].addr)
  }

  ghost function SlotAt(a: seq<nat>, i: nat): Slot
    requires i <= |a|
  {
    if i == 0 then First else NextOf(a[i - 1])
  }

  // ----- walking

  lemma {:induction false} Frame(m: Memory, m': Memory, r: Ref, a: seq<nat>, end: Ref)
    requires Leads(m, r, a, end) && forall x :: x in a ==> x in m' && (x in m ==> m'[x] == m[x])
    ensures Leads(m', r, a, end)
    decreases |a|
  {
    if a != [] {
      Frame(m, m', m[a[0]], a[1..], end);
    }
  }

  lemma {:induction false} Members(m: Memory, r: Ref, a: seq<nat>, end: Ref)
    requires Leads(m, r, a, end)
    ensures forall x :: x in a ==> x in m
    decreases |a|
  {
    if a != [] {
      Members(m, m[a[0]], a[1..], end);
    }
  }

  lemma {:induction false} Join(m: Memory, r: Ref, a: seq<nat>, mid: Ref, b: seq<nat>, end: Ref)
    requires Leads(m, r, a, mid) && Leads(m, mid, b, end)
    ensures Leads(m, r, a + b, end)
    decreases |a|
  {
    if a == [] {
      assert a + b == b;
    } else {
      assert (a + b)[1..] == a[1..] + b;
      Join(m, m[a[0]], a[1..], mid, b, end);
    }
  }

  /** What the slot to place i holds. */
  ghost function PlaceAt(a: seq<nat>, i: nat, end: Ref): Ref
    requires i <= |a|
  {
    if i < |a| then At(a[i]) else end
  }

  lemma {:induction false} Split(m: Memory, r: Ref, a: seq<nat>, i: nat, end: Ref)
    requires Leads(m, r, a, end) && i <= |a|
    ensures Leads(m, r, a[..i], PlaceAt(a, i, end)) && Leads(m, PlaceAt(a, i, end), a[i..], end)
    decreases i
  {
    if i > 0 {
      Split(m, m[a[0]], a[1..], i - 1, end);
      assert a[..i][1..] == a[1..][..i - 1] && a[1..][i - 1..] == a[i..];
    }
  }

  /** The memory and the first pointers of two buffers. */
  datatype Heads = Heads(m: Memory, first: Ref, other: Ref)

  /** Read and write through a slot of the first buffer. */
  function Read(h: Heads, p: Slot): Ref
    requires p == First || p in h.m
  {
    if p == First then h.first else h.m[p]
  }

  function Write(h: Heads, p: Slot, r: Ref): Heads {
    if p == First then h.(first := r) else h.(m := h.m[p := r])
  }

  function Free(h: Heads, a: seq<nat>): Heads {
    h.(m := map x | x in h.m && x !in a :: h.m[x])
  }

  /** A slot holds the address of the chunk it leads to. */
  lemma {:induction false} ReadSlot(h: Heads, a: seq<nat>, i: nat, end: Ref)
    requires Leads(h.m, h.first, a, end) && i <= |a|
    ensures SlotAt(a, i) == First || SlotAt(a, i) in h.m
    ensures Read(h, SlotAt(a, i)) == PlaceAt(a, i, end)
  {
    if i > 0 {
      Split(h.m, h.first, a, i - 1, end);
      assert a[i - 1..][1..] == a[i..];
    }
  }

  /** Writing the slot at the end of a list leads it on to r. */
  lemma {:induction false} SetEnd(h: Heads, a: seq<nat>, end: Ref, r: Ref)
    requires Leads(h.m, h.first, a, end) && NoRepeat(a)
    ensures var h' := Write(h, SlotAt(a, |a|), r); Leads(h'.m, h'.first, a, r)
  {
    if a != [] {
      var h', n := Write(h, SlotAt(a, |a|), r), |a| - 1;
      Split(h.m, h.first, a, n, end);
      Members(h.m, h.first, a[..n], At(a[n]));
      assert forall x :: x in a[..n] ==> x != a[n];
      Frame(h.m, h'.m, h.first, a[..n], At(a[n]));
      assert a == a[..n] + [a[n]];
      Join(h'.m, h.first, a[..n], At(a[n]), [a[n]], r);
    }
  }

  // ----- two buffers

  /** The first pointers lead through exactly the live chunks: first through a, other through b. */
  ghost predicate TwoLists(h: Heads, a: seq<nat>, b: seq<nat>) {
    && Leads(h.m, h.first, a, Null) && Leads(h.m, h.other, b, Null)
    && NoRepeat(a) && NoRepeat(b) && Disjoint(a, b)
    && forall x :: x in h.m <==> x in a || x in b
  }

  lemma Swap(h: Heads, a: seq<nat>, b: seq<nat>)
    requires TwoLists(h, a, b)
    ensures TwoLists(Heads(h.m, h.other, h.first), b, a)
  {
  }

  /** Free the chunks from place n on and end the list there: what is left is a list. */
  function CutTail(h: Heads, p: Slot, tail: seq<nat>): Heads {
    Write(Free(h, tail), p, Null)
  }

  lemma {:induction false} CutTailRight(h: Heads, a: seq<nat>, b: seq<nat>, n: nat)
    requires TwoLists(h, a, b) && n <= |a|
    ensures TwoLists(CutTail(h, SlotAt(a, n), a[n..]), a[..n], b)
  {
    var h1 := Free(h, a[n..]);
    Parts(a, n);
    Split(h.m, h.first, a, n, Null);
    Frame(h.m, h1.m, h.first, a[..n], PlaceAt(a, n, Null));
    Frame(h.m, h1.m, h.other, b, Null);
    var h2 := Write(h1, SlotAt(a, n), Null);
    assert SlotAt(a, n) == SlotAt(a[..n], n);
    SetEnd(h1, a[..n], PlaceAt(a, n, Null), Null);
    Frame(h1.m, h2.m, h.other, b, Null);
  }

  /** A list without repeats falls into two that have no address in common. */
  lemma {:induction false} Parts(a: seq<nat>, n: nat)
    requires NoRepeat(a) && n <= |a|
    ensures NoRepeat(a[..n]) && NoRepeat(a[n..]) && Disjoint(a[..n], a[n..]) && Disjoint(a[n..], a[..n])
    ensures forall x :: x in a <==> x in a[..n] || x in a[n..]
  {
    assert a == a[..n] + a[n..];
  }

  lemma {:induction false} Joined(a: seq<nat>, b: seq<nat>)
    requires NoRepeat(a) && NoRepeat(b) && Disjoint(a, b)
    ensures NoRepeat(a + b) && forall x :: x in a + b <==> x in a || x in b
  {
    var c := a + b;
    forall i, j | 0 <= i < j < |c|
      ensures c[i] != c[j]
    {
      if i < |a| <= j {
        assert c[i] in a && c[j] in b;
      }
    }
  }

  /** Put a new chunk behind place n, in place of the chunks from there on (evbuffer_chain_insert). */
  function Insert(h: Heads, p: Slot, tail: seq<nat>, c: nat): Heads {
    var h1 := CutTail(h, p, tail);
    Write(h1.(m := h1.m[c := Null]), p, At(c))
  }

  lemma {:induction false} InsertRight(h: Heads, a: seq<nat>, b: seq<nat>, n: nat, c: nat)
    requires TwoLists(h, a, b) && n <= |a| && c !in a && c !in b
    ensures TwoLists(Insert(h, SlotAt(a, n), a[n..], c), a[..n] + [c], b)
  {
    var p := SlotAt(a, n);
    var h0 := CutTail(h, p, a[n..]);
    CutTailRight(h, a, b, n);
    var h1 := h0.(m := h0.m[c := Null]);
    Frame(h0.m, h1.m, h0.first, a[..n], Null);
    var h2 := Write(h1, p, At(c));
    assert p == SlotAt(a[..n], n);
    SetEnd(h1, a[..n], Null, At(c));
    assert Leads(h2.m, At(c), [c], Null);
    Join(h2.m, h2.first, a[..n], At(c), [c], Null);
    Frame(h0.m, h2.m, h0.other, b, Null);
    Joined(a[..n], [c]);
  }

  /** Link the whole other list behind place n (APPEND_CHAIN). */
  function Append(h: Heads, p: Slot, tail: seq<nat>): Heads {
    var h1 := CutTail(h, p, tail);
    Write(h1, p, h1.other).(other := Null)
  }

  lemma {:induction false} AppendRight(h: Heads, a: seq<nat>, b: seq<nat>, n: nat)
    requires TwoLists(h, a, b) && n <= |a|
    ensures TwoLists(Append(h, SlotAt(a, n), a[n..]), a[..n] + b, [])
  {
    var p := SlotAt(a, n);
    var h1 := CutTail(h, p, a[n..]);
    CutTailRight(h, a, b, n);
    assert p == SlotAt(a[..n], n);
    SetEnd(h1, a[..n], Null, h1.other);
    var h2 := Write(h1, p, h1.other);
    Frame(h1.m, h2.m, h1.other, b, Null);
    Join(h2.m, h2.first, a[..n], h1.other, b, Null);
    Joined(a[..n], b);
  }

  /** Move the first i chunks of the other list, of which the last is previous, behind place n; rest is
      what the walk has come to (evbuffer_remove_buffer). */
  function Move(h: Heads, p: Slot, tail: seq<nat>, previous: nat, rest: Ref): Heads {
    var h1 := CutTail(h, p, tail);
    var h2 := Write(h1, p, h1.other);
    Write(h2, NextOf(previous), Null).(other := rest)
  }

  lemma {:induction false} MoveRight(h: Heads, a: seq<nat>, b: seq<nat>, n: nat, i: nat)
    requires TwoLists(h, a, b) && n <= |a| && 0 < i <= |b|
    ensures TwoLists(Move(h, SlotAt(a, n), a[n..], b[i - 1], PlaceAt(b, i, Null)), a[..n] + b[..i], b[i..])
  {
    var p := SlotAt(a, n);
    var h1 := CutTail(h, p, a[n..]);
    CutTailRight(h, a, b, n);
    Parts(b, i);
    Split(h1.m, h1.other, b, i, Null);
    MoveLinks(h1, a[..n], b, i);
    Joined(a[..n], b[..i]);
  }

  /** The two writes of a move, on lists without anything to free. */
  lemma {:induction false} MoveLinks(h: Heads, a: seq<nat>, b: seq<nat>, i: nat)
    requires TwoLists(h, a, b) && 0 < i <= |b|
    ensures var h' := Write(Write(h, SlotAt(a, |a|), h.other), NextOf(b[i - 1]), Null);
            && Leads(h'.m, h'.first, a + b[..i], Null) && Leads(h'.m, PlaceAt(b, i, Null), b[i..], Null)
            && forall x :: x in h'.m <==> x in h.m
  {
    var h1 := Write(h, SlotAt(a, |a|), h.other);
    var h' := Write(h1, NextOf(b[i - 1]), Null);
    Parts(b, i);
    Split(h.m, h.other, b, i, Null);
    SetEnd(h, a, Null, h.other);
    Frame(h1.m, h'.m, h1.first, a, h.other);
    var back := Heads(h.m, h.other, Null);
    SetEnd(back, b[..i], PlaceAt(b, i, Null), Null);
    Frame(Write(back, NextOf(b[i - 1]), Null).m, h'.m, h.other, b[..i], Null);
    Frame(h.m, h'.m, PlaceAt(b, i, Null), b[i..], Null);
    Join(h'.m, h'.first, a, h.other, b[..i], Null);
  }

  /** Put a new chunk in front (evbuffer_prepend). */
  function PushFront(h: Heads, c: nat): Heads {
    h.(m := h.m[c := h.first], first := At(c))
  }

  lemma {:induction false} PushFrontRight(h: Heads, a: seq<nat>, b: seq<nat>, c: nat)
    requires TwoLists(h, a, b) && c !in a && c !in b
    ensures TwoLists(PushFront(h, c), [c] + a, b)
  {
    var h' := PushFront(h, c);
    Frame(h.m, h'.m, h.first, a, Null);
    Frame(h.m, h'.m, h.other, b, Null);
    assert ([c] + a)[1..] == a;
    Joined([c], a);
  }

  /** Free the first i chunks (evbuffer_drain). */
  function DropFront(h: Heads, front: seq<nat>, rest: Ref): Heads {
    Free(h, front).(first := rest)
  }

  lemma {:induction false} DropFrontRight(h: Heads, a: seq<nat>, b: seq<nat>, i: nat)
    requires TwoLists(h, a, b) && i <= |a|
    ensures TwoLists(DropFront(h, a[..i], PlaceAt(a, i, Null)), a[i..], b)
  {
    var h' := DropFront(h, a[..i], PlaceAt(a, i, Null));
    Parts(a, i);
    Split(h.m, h.first, a, i, Null);
    Frame(h.m, h'.m, h'.first, a[i..], Null);
    Frame(h.m, h'.m, h.other, b, Null);
  }

  /** Put a new chunk in the place of the first i, which are freed (evbuffer_pullup). */
  function Gather(h: Heads, front: seq<nat>, rest: Ref, c: nat): Heads {
    PushFront(DropFront(h, front, rest), c)
  }

  lemma {:induction false} GatherRight(h: Heads, a: seq<nat>, b: seq<nat>, i: nat, c: nat)
    requires TwoLists(h, a, b) && i <= |a| && c !in a[i..] && c !in b
    ensures TwoLists(Gather(h, a[..i], PlaceAt(a, i, Null), c), [c] + a[i..], b)
  {
    DropFrontRight(h, a, b, i);
    PushFrontRight(DropFront(h, a[..i], PlaceAt(a, i, Null)), a[i..], b, c);
  }

  /** Put a new chunk in the place of an old one, which is freed (evbuffer_expand_singlechain). */
  function Exchange(h: Heads, p: Slot, was: nat, c: nat): Heads
    requires was in h.m
  {
    Free(Write(h.(m := h.m[c := h.m[was]]), p, At(c)), [was])
  }

  /** A list falls into what comes before a chunk, the chunk, and what comes behind it. */
  lemma {:induction false} AroundChunk(a: seq<nat>, i: nat, front: seq<nat>, rest: seq<nat>)
    requires NoRepeat(a) && i < |a| && front == a[..i] && rest == a[i + 1..]
    ensures NoRepeat(front) && a[i] !in front && a[i] !in rest && Disjoint(front, rest)
    ensures forall x :: x in front || x in rest ==> x in a
    ensures i > 0 ==> a[i - 1] in front
  {
    assert i > 0 ==> front[i - 1] == a[i - 1];
  }

  /** What an exchange does to the memory. */
  lemma {:induction false} ExchangeMemory(h: Heads, a: seq<nat>, i: nat, c: nat, front: seq<nat>, h': Heads)
    requires i < |a| && front == a[..i] && a[i] in h.m && c !in a && (i > 0 ==> a[i - 1] in front) && a[i] !in front
    requires h' == Exchange(h, SlotAt(a, i), a[i], c)
    ensures c in h'.m && h'.m[c] == h.m[a[i]] && h'.other == h.other
    ensures var h2 := Write(h.(m := h.m[c := h.m[a[i]]]), SlotAt(front, i), At(c));
            && h'.first == h2.first
            && forall x :: x != a[i] ==> (x in h'.m <==> x in h2.m) && (x in h'.m ==> h'.m[x] == h2.m[x])
    ensures forall x :: x !in front && x != a[i] && x != c ==>
              (x in h'.m <==> x in h.m) && (x in h'.m ==> h'.m[x] == h.m[x])
    ensures forall x :: x in h'.m <==> x == c || (x in h.m && x != a[i]) || (i > 0 && x == a[i - 1])
  {
  }

  lemma {:induction false} ExchangeRight(h: Heads, a: seq<nat>, b: seq<nat>, i: nat, c: nat)
    requires TwoLists(h, a, b) && i < |a| && c !in a && c !in b
    ensures a[i] in h.m && TwoLists(Exchange(h, SlotAt(a, i), a[i], c), a[i := c], b)
  {
    var front, rest := a[..i], a[i + 1..];
    var h' := Exchange(h, SlotAt(a, i), a[i], c);
    AroundChunk(a, i, front, rest);
    ExchangeMemory(h, a, i, c, front, h');
    ExchangeLeads(h, a, b, i, c, front, rest, h');
    Exchanged(a, i, c);
  }

  lemma {:induction false} ExchangeLeads(h: Heads, a: seq<nat>, b: seq<nat>, i: nat, c: nat,
                                         front: seq<nat>, rest: seq<nat>, h': Heads)
    requires TwoLists(h, a, b) && i < |a| && c !in a && c !in b && front == a[..i] && rest == a[i + 1..]
    requires a[i] in h.m && h' == Exchange(h, SlotAt(a, i), a[i], c)
    ensures Leads(h'.m, h'.first, a[i := c], Null) && Leads(h'.m, h'.other, b, Null)
  {
    Split(h.m, h.first, a, i, Null);
    assert a[i..][1..] == rest && a[i..][0] == a[i];
    ExchangeFront(h, a, i, c, front, h');
    ExchangeRest(h, a, b, i, c, front, rest, h');
    assert ([c] + rest)[1..] == rest;
    Join(h'.m, h'.first, front, At(c), [c] + rest, Null);
    assert a[i := c] == front + ([c] + rest);
  }

  lemma {:induction false} ExchangeFront(h: Heads, a: seq<nat>, i: nat, c: nat, front: seq<nat>, h': Heads)
    requires NoRepeat(a) && i < |a| && c !in a && front == a[..i] && Leads(h.m, h.first, front, At(a[i]))
    requires a[i] in h.m && h' == Exchange(h, SlotAt(a, i), a[i], c)
    ensures Leads(h'.m, h'.first, front, At(c))
  {
    AroundChunk(a, i, front, a[i + 1..]);
    ExchangeMemory(h, a, i, c, front, h');
    var h1 := h.(m := h.m[c := h.m[a[i]]]);
    Members(h.m, h.first, front, At(a[i]));
    Frame(h.m, h1.m, h.first, front, At(a[i]));
    SetEnd(h1, front, At(a[i]), At(c));
    var h2 := Write(h1, SlotAt(front, i), At(c));
    Members(h2.m, h2.first, front, At(c));
    Frame(h2.m, h'.m, h'.first, front, At(c));
  }

  lemma {:induction false} ExchangeRest(h: Heads, a: seq<nat>, b: seq<nat>, i: nat, c: nat,
                                        front: seq<nat>, rest: seq<nat>, h': Heads)
    requires TwoLists(h, a, b) && i < |a| && c !in a && c !in b && front == a[..i] && rest == a[i + 1..]
    requires a[i] in h.m && h' == Exchange(h, SlotAt(a, i), a[i], c) && Leads(h.m, h.m[a[i]], rest, Null)
    ensures c in h'.m && Leads(h'.m, h'.m[c], rest, Null) && Leads(h'.m, h'.other, b, Null)
  {
    AroundChunk(a, i, front, rest);
    ExchangeMemory(h, a, i, c, front, h');
    Frame(h.m, h'.m, h.m[a[i]], rest, Null);
    Frame(h.m, h'.m, h.other, b, Null);
  }

  lemma {:induction false} Exchanged(a: seq<nat>, i: nat, c: nat)
    requires NoRepeat(a) && i < |a| && c !in a
    ensures NoRepeat(a[i := c]) && forall x :: x in a[i := c] <==> x == c || (x in a && x != a[i])
  {
    var a' := a[i := c];
    forall x
      ensures x in a' <==> x == c || (x in a && x != a[i])
    {
      if x == c {
        assert a'[i] == c;
      } else if x in a && x != a[i] {
        var j :| 0 <= j < |a| && a[j] == x;
        assert a'[j] == x;
      }
    }
  }

  // ----- whole runs

  /** The edits that the buffer operations make to the first of two lists. */
  datatype Edit =
    | Cutting(n: nat)
    | Inserting(n: nat, c: nat)
    | Appending(n: nat)
    | Moving(n: nat, i: nat)
    | Pushing(c: nat)
    | Dropping(i: nat)
    | Gathering(i: nat, c: nat)
    | Replacing(i: nat, c: nat)

  /** Places are inside the lists, and new chunks are at new addresses. */
  ghost predicate Possible(e: Edit, a: seq<nat>, b: seq<nat>) {
    match e
    case Cutting(n) => n <= |a|
    case Inserting(n, c) => n <= |a| && c !in a && c !in b
    case Appending(n) => n <= |a|
    case Moving(n, i) => n <= |a| && 0 < i <= |b|
    case Pushing(c) => c !in a && c !in b
    case Dropping(i) => i <= |a|
    case Gathering(i, c) => i <= |a| && c !in a[i..] && c !in b
    case Replacing(i, c) => i < |a| && c !in a && c !in b
  }

  datatype Both = Both(a: seq<nat>, b: seq<nat>)

  /** What an edit makes of the lists. */
  ghost function Edited(e: Edit, a: seq<nat>, b: seq<nat>): Both
    requires Possible(e, a, b)
  {
    match e
    case Cutting(n) => Both(a[..n], b)
    case Inserting(n, c) => Both(a[..n] + [c], b)
    case Appending(n) => Both(a[..n] + b, [])
    case Moving(n, i) => Both(a[..n] + b[..i], b[i..])
    case Pushing(c) => Both([c] + a, b)
    case Dropping(i) => Both(a[i..], b)
    case Gathering(i, c) => Both([c] + a[i..], b)
    case Replacing(i, c) => Both(a[i := c], b)
  }

  /** Which pointers it writes and what it frees. */
  ghost function Written(e: Edit, h: Heads, a: seq<nat>, b: seq<nat>): Heads
    requires Possible(e, a, b)
  {
    match e
    case Cutting(n) => CutTail(h, SlotAt(a, n), a[n..])
    case Inserting(n, c) => Insert(h, SlotAt(a, n), a[n..], c)
    case Appending(n) => Append(h, SlotAt(a, n), a[n..])
    case Moving(n, i) => Move(h, SlotAt(a, n), a[n..], b[i - 1], PlaceAt(b, i, Null))
    case Pushing(c) => PushFront(h, c)
    case Dropping(i) => DropFront(h, a[..i], PlaceAt(a, i, Null))
    case Gathering(i, c) => Gather(h, a[..i], PlaceAt(a, i, Null), c)
    case Replacing(i, c) => if a[i] in h.m then Exchange(h, SlotAt(a, i), a[i], c) else h
  }

  lemma {:induction false} TailEditRight(e: Edit, h: Heads, a: seq<nat>, b: seq<nat>)
    requires TwoLists(h, a, b) && Possible(e, a, b) && (e.Cutting? || e.Inserting? || e.Appending? || e.Moving?)
    ensures TwoLists(Written(e, h, a, b), Edited(e, a, b).a, Edited(e, a, b).b)
  {
    match e
    case Cutting(n) => CutTailRight(h, a, b, n);
    case Inserting(n, c) => InsertRight(h, a, b, n, c);
    case Appending(n) => AppendRight(h, a, b, n);
    case Moving(n, i) => MoveRight(h, a, b, n, i);
  }

  lemma {:induction false} FrontEditRight(e: Edit, h: Heads, a: seq<nat>, b: seq<nat>)
    requires TwoLists(h, a, b) && Possible(e, a, b) && (e.Pushing? || e.Dropping? || e.Gathering? || e.Replacing?)
    ensures TwoLists(Written(e, h, a, b), Edited(e, a, b).a, Edited(e, a, b).b)
  {
    match e
    case Pushing(c) => PushFrontRight(h, a, b, c);
    case Dropping(i) => DropFrontRight(h, a, b, i);
    case Gathering(i, c) => GatherRight(h, a, b, i, c);
    case Replacing(i, c) => ExchangeRight(h, a, b, i, c);
  }

  lemma {:induction false} EditRight(e: Edit, h: Heads, a: seq<nat>, b: seq<nat>)
    requires TwoLists(h, a, b) && Possible(e, a, b)
    ensures TwoLists(Written(e, h, a, b), Edited(e, a, b).a, Edited(e, a, b).b)
  {
    if e.Pushing? || e.Dropping? || e.Gathering? || e.Replacing? {
      FrontEditRight(e, h, a, b);
    } else {
      TailEditRight(e, h, a, b);
    }
  }

  /** Memory, heads and the two lists. */
  datatype World = World(h: Heads, a: seq<nat>, b: seq<nat>)

  function Turned(w: World): World {
    World(Heads(w.h.m, w.h.other, w.h.first), w.b, w.a)
  }

  /** An edit of one of the lists. */
  datatype Turn = Turn(second: bool, edit: Edit)

  /** An edit of either list; one that is not possible is not made. */
  ghost function Step(w: World, t: Turn): World {
    var v, e := if t.second then Turned(w) else w, t.edit;
    if !Possible(e, v.a, v.b) then w
    else
      var lists := Edited(e, v.a, v.b);
      var v' := World(Written(e, v.h, v.a, v.b), lists.a, lists.b);
      if t.second then Turned(v') else v'
  }

  ghost function Run(w: World, ts: seq<Turn>): World
    decreases |ts|
  {
    if ts == [] then w else Run(Step(w, ts[0]), ts[1..])
  }

  /** From two empty buffers, whatever is done to either of them, following the pointers passes exactly the
      chunks of the two lists, in their order, and these are all the chunks there are. */
  lemma {:induction false} RunRight(w: World, ts: seq<Turn>)
    requires TwoLists(w.h, w.a, w.b)
    ensures var w' := Run(w, ts); TwoLists(w'.h, w'.a, w'.b)
    decreases |ts|
  {
    if ts != [] {
      var v := if ts[0].second then Turned(w) else w;
      if Possible(ts[0].edit, v.a, v.b) {
        EditRight(ts[0].edit, v.h, v.a, v.b);
      }
      RunRight(Step(w, ts[0]), ts[1..]);
    }
  }

  // ----- the edits of the buffer operations

  /** The slot that the code writes is the one that leads to the place of the edit. */
  lemma {:induction false} SlotOfChunks(cs: seq<Chunk>, i: nat)
    requires i <= |cs|
    ensures SlotAt(Addrs(cs), i) == SlotTo(cs, i) && Addrs(cs[..i]) == Addrs(cs)[..i]
    ensures Addrs(cs[i..]) == Addrs(cs)[i..]
  {
  }

  /** Moving the first i chunks of src, as evbuffer_remove_buffer does, is such an edit. */
  lemma {:induction false} MoveIsEdit(dst: seq<Chunk>, k: nat, src: seq<Chunk>, i: nat, n: nat)
    requires Good(dst, k) && 0 < i < |src| && src[i].Ok() && n <= src[i].off
    ensures var e := Moving(Kept(dst, k), i);
            && Possible(e, Addrs(dst), Addrs(src)) && SlotAt(Addrs(dst), e.n) == SlotTo(dst, e.n)
            && Edited(e, Addrs(dst), Addrs(src)) == Both(Addrs(dst[..e.n] + src[..i]), Addrs(Rest(src, i, n)))
  {
    SlotOfChunks(dst, Kept(dst, k));
    assert Addrs(dst[..Kept(dst, k)] + src[..i]) == Addrs(dst)[..Kept(dst, k)] + Addrs(src)[..i];
    assert Addrs(Rest(src, i, n)) == Addrs(src)[i..];
  }

  /** So is linking a whole list behind the data, as APPEND_CHAIN does. */
  lemma {:induction false} AppendIsEdit(dst: seq<Chunk>, k: nat, src: seq<Chunk>)
    requires Good(dst, k)
    ensures var e := Appending(Kept(dst, k));
            && Possible(e, Addrs(dst), Addrs(src)) && SlotAt(Addrs(dst), e.n) == SlotTo(dst, e.n)
            && Edited(e, Addrs(dst), Addrs(src)) == Both(Addrs(dst[..e.n] + src), Addrs([]))
  {
    SlotOfChunks(dst, Kept(dst, k));
    assert Addrs(dst[..Kept(dst, k)] + src) == Addrs(dst)[..Kept(dst, k)] + Addrs(src);
  }

  /** Adding a chunk behind the data, as evbuffer_chain_insert does. */
  lemma {:induction false} InsertIsEdit(cs: seq<Chunk>, k: nat, c: Chunk, other: seq<Chunk>)
    requires Good(cs, k) && Fresh(c.addr, cs) && Fresh(c.addr, other)
    ensures var e := Inserting(Kept(cs, k), c.addr);
            && Possible(e, Addrs(cs), Addrs(other)) && SlotAt(Addrs(cs), e.n) == SlotTo(cs, e.n)
            && Edited(e, Addrs(cs), Addrs(other)) == Both(Addrs(cs[..e.n] + [c]), Addrs(other))
  {
    SlotOfChunks(cs, Kept(cs, k));
    assert Addrs(cs[..Kept(cs, k)] + [c]) == Addrs(cs)[..Kept(cs, k)] + [c.addr];
  }

  /** Linking a chunk in front, as evbuffer_prepend does. */
  lemma {:induction false} PushIsEdit(cs: seq<Chunk>, c: Chunk, other: seq<Chunk>)
    requires Fresh(c.addr, cs) && Fresh(c.addr, other)
    ensures var e := Pushing(c.addr);
            && Possible(e, Addrs(cs), Addrs(other))
            && Edited(e, Addrs(cs), Addrs(other)) == Both(Addrs([c] + cs), Addrs(other))
  {
    assert Addrs([c] + cs) == [c.addr] + Addrs(cs);
  }

  /** Dropping i chunks and n bytes of the next one, as evbuffer_drain does. */
  lemma {:induction false} DropIsEdit(cs: seq<Chunk>, i: nat, n: nat, other: seq<Chunk>)
    requires i < |cs| && cs[i].Ok() && n <= cs[i].off
    ensures var e := Dropping(i);
            && Possible(e, Addrs(cs), Addrs(other))
            && Edited(e, Addrs(cs), Addrs(other)) == Both(Addrs(Rest(cs, i, n)), Addrs(other))
  {
    assert Addrs(Rest(cs, i, n)) == Addrs(cs)[i..];
  }

  /** Gathering j chunks, and n bytes of the next, in one, as evbuffer_pullup does. */
  lemma {:induction false} GatherIsEdit(cs: seq<Chunk>, j: nat, n: nat, tmp: Chunk, other: seq<Chunk>)
    requires Distinct(cs) && 0 < j < |cs| && cs[j].Ok() && n <= cs[j].off
    requires (Fresh(tmp.addr, cs) || tmp.addr == cs[0].addr) && Apart(cs, other) && Fresh(tmp.addr, other)
    ensures var e := Gathering(j, tmp.addr);
            && Possible(e, Addrs(cs), Addrs(other))
            && Edited(e, Addrs(cs), Addrs(other)) == Both(Addrs([tmp] + Rest(cs, j, n)), Addrs(other))
  {
    assert Addrs([tmp] + Rest(cs, j, n)) == [tmp.addr] + Addrs(cs)[j..];
  }

  /** Putting chunk i in another block, as evbuffer_expand_singlechain does. */
  lemma {:induction false} ReplaceIsEdit(cs: seq<Chunk>, i: nat, c: Chunk, other: seq<Chunk>)
    requires i < |cs| && Fresh(c.addr, cs) && Fresh(c.addr, other)
    ensures var e := Replacing(i, c.addr);
            && Possible(e, Addrs(cs), Addrs(other)) && SlotAt(Addrs(cs), i) == SlotTo(cs, i)
            && Edited(e, Addrs(cs), Addrs(other)) == Both(Addrs(cs[i := c]), Addrs(other))
  {
    SlotOfChunks(cs, i);
    assert Addrs(cs[i := c]) == Addrs(cs)[i := c.addr];
  }
}
