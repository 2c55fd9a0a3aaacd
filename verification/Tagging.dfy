/** Tagged data in a buffer: a tag, a length, and a payload. */
module Tagging {
  import opened Basics
  import opened TagCodec

  const U32: nat := 0x1_0000_0000
  const INT_LIMIT: nat := 0x8000_0000

  /** Drop k bytes; a negative count becomes an enormous unsigned one. */
  function Drained(c: seq<byte>, k: int): seq<byte> {
    if k < 0 || k >= |c| then [] else c[k..]
  }

  // ----- what is written

  function Record(tag: nat, payload: seq<byte>): seq<byte>
    requires |payload| < U32
  {
    WordDigits(|payload|);
    TagBytes(tag) + IntBytes(|payload|) + payload
  }

  /** The low 32 bits of a signed number. */
  function Low32(x: int): nat {
    x % U32
  }

  function TimeBytes(sec: int, usec: int): seq<byte> {
    WordDigits(Low32(sec));
    WordDigits(Low32(usec));
    IntBytes(Low32(sec)) + IntBytes(Low32(usec))
  }

  // ----- what is read

  /** The outcome of reading something off the front of the buffer, and what is left. */
  datatype Got<T> = Failed(rest: seq<byte>) | Took(value: T, rest: seq<byte>)

  function TakeTag(c: seq<byte>): Got<nat> {
    match TagSpec(c, 0)
    case None => Failed(c)
    case Some(r) => Took(r.number, c[r.length..])
  }

  function TakeInt(c: seq<byte>): Got<nat> {
    match DecodeSpec(c, 8)
    case None => Failed(c)
    case Some(r) => Took(r.number, c[r.length..])
  }

  datatype Head = Head(tag: nat, len: nat)

  /** Tag and length, if the whole payload is there. */
  function TakeHead(c: seq<byte>): (g: Got<Head>)
    ensures g.Took? ==> |g.rest| >= g.value.len
  {
    match TakeTag(c)
    case Failed(rest) => Failed(rest)
    case Took(tag, c1) =>
      match TakeInt(c1)
      case Failed(rest) => Failed(rest)
      case Took(len, c2) => if |c2| < len then Failed(c2) else Took(Head(tag, len), c2)
  }

  /** Reading the header of a record that has been written, whatever follows it. */
  lemma {:induction false} HeadRoundTrip(tag: nat, payload: seq<byte>, rest: seq<byte>)
    requires tag < U32 && |payload| < U32
    ensures TakeHead(Record(tag, payload) + rest) == Took(Head(tag, |payload|), payload + rest)
  {
    WordDigits(|payload|);
    var t, n := TagBytes(tag), IntBytes(|payload|);
    var c1 := n + (payload + rest);
    assert Record(tag, payload) + rest == t + c1;
    TagRoundTrip(tag, c1);
    DropPrefix(t, c1);
    IntRoundTrip(|payload|, payload + rest, 8);
    DropPrefix(n, payload + rest);
  }

  function UnmarshalIntSpec(c: seq<byte>, need: nat, max: nat): Got<nat> {
    match TakeTag(c)
    case Failed(rest) => Failed(rest)
    case Took(tag, c1) =>
      if tag != need then Failed(c1)
      else
        match TakeInt(c1)
        case Failed(rest) => Failed(rest)
        case Took(len, c2) =>
          if |c2| < len then Failed(c2)
          else
            match DecodeSpec(c2, max)
            case None => Failed(c2[len..])
            case Some(r) => if r.length > len then Failed(c2[len..]) else Took(r.number, c2[len..])
  }

  /** An integer that has been written is read back, and what follows is untouched. */
  lemma {:induction false} IntRecordRoundTrip(tag: nat, n: nat, rest: seq<byte>, max: nat)
    requires tag < U32 && |Written(n)| <= max <= 16
    ensures UnmarshalIntSpec(Record(tag, IntBytes(n)) + rest, tag, max) == Took(n, rest)
  {
    HeadRoundTrip(tag, IntBytes(n), rest);
    IntRoundTrip(n, rest, max);
    assert (IntBytes(n) + rest)[|IntBytes(n)|..] == rest;
  }

  /** An integer is read exactly if the record is there, has the tag, and its payload alone holds an integer. The
      record goes away even if the integer is bad, but of a record with another tag only the tag does. */
  lemma {:induction false} UnmarshalIntRight(c: seq<byte>, need: nat, max: nat)
    ensures var g, head := UnmarshalIntSpec(c, need, max), TakeHead(c);
            if head.Failed? then g.Failed? && (TakeTag(c).Failed? || TakeTag(c).value == need ==> g.rest == head.rest)
            else
              var Took(Head(tag, len), c2) := head;
              if tag != need then g == Failed(TakeTag(c).rest)
              else
                var r := DecodeSpec(c2[..len], max);
                g == if r.Some? then Took(r.value.number, c2[len..]) else Failed(c2[len..])
  {
    if TakeHead(c).Took? {
      ReadInPrefix(TakeHead(c).rest, TakeHead(c).value.len, max);
    }
  }

  datatype Time = Time(sec: int, usec: int)

  function UnmarshalTimeSpec(c: seq<byte>, need: nat): Got<Time> {
    match TakeHead(c)
    case Failed(rest) => Failed(rest)
    case Took(head, c2) =>
      var left := Drained(c2, AsInt(head.len));
      if head.len == U32 - 1 then Failed(c2)
      else if head.tag != need then Failed(left)
      else
        match DecodeSpec(c2, 8)
        case None => Failed(left)
        case Some(a) =>
          match DecodeSpec(c2[a.length..], 8)
          case None => Failed(left)
          case Some(b) =>
            if a.length + b.length > AsInt(head.len) then Failed(left) else Took(Time(a.number, b.number), left)
  }

  /** A time is read exactly if the record is there, has the tag, is shorter than 2^31 bytes, and its payload alone
      holds two integers. The record goes away even if they are bad. */
  lemma {:induction false} UnmarshalTimeRight(c: seq<byte>, need: nat)
    ensures var g, head := UnmarshalTimeSpec(c, need), TakeHead(c);
            if head.Failed? then g == Failed(head.rest)
            else
              var Took(Head(tag, len), c2) := head;
              if len == U32 - 1 then g == Failed(c2)
              else if tag != need || len >= INT_LIMIT then g == Failed(if len < INT_LIMIT then c2[len..] else [])
              else
                var a := DecodeSpec(c2[..len], 8);
                if a.None? then g == Failed(c2[len..])
                else
                  var b := DecodeSpec(c2[a.value.length..len], 8);
                  g == if b.None? then Failed(c2[len..]) else Took(Time(a.value.number, b.value.number), c2[len..])
  {
    if TakeHead(c).Took? {
      HeadLength(c);
      TwoInPrefix(TakeHead(c).rest, TakeHead(c).value.len);
    }
  }

  /** Two integers are in a prefix exactly if they end in it. */
  lemma {:induction false} TwoInPrefix(c: seq<byte>, len: nat)
    requires len <= |c|
    ensures var a := DecodeSpec(c, 8);
            && DecodeSpec(c[..len], 8) == (if a.Some? && a.value.length <= len then a else None)
            && (a.Some? && a.value.length <= len ==>
                  var b := DecodeSpec(c[a.value.length..], 8);
                  DecodeSpec(c[a.value.length..len], 8) ==
                  if b.Some? && a.value.length + b.value.length <= len then b else None)
  {
    ReadInPrefix(c, len, 8);
    var a := DecodeSpec(c, 8);
    if a.Some? && a.value.length <= len {
      var n := a.value.length;
      assert c[n..][..len - n] == c[n..len];
      ReadInPrefix(c[n..], len - n, 8);
    }
  }

  /** A time is read back with its low 32 bits: it is the one that was written if and only if both
      numbers are unsigned 32-bit numbers. */
  lemma {:induction false} TimeRoundTrip(tag: nat, t: Time, rest: seq<byte>)
    requires tag < U32
    ensures |TimeBytes(t.sec, t.usec)| < U32
    ensures UnmarshalTimeSpec(Record(tag, TimeBytes(t.sec, t.usec)) + rest, tag) ==
              Took(Time(Low32(t.sec), Low32(t.usec)), rest)
    ensures Time(Low32(t.sec), Low32(t.usec)) == t <==> 0 <= t.sec < U32 && 0 <= t.usec < U32
  {
    var s, u := Low32(t.sec), Low32(t.usec);
    WordDigits(s);
    WordDigits(u);
    var payload := TimeBytes(t.sec, t.usec);
    HeadRoundTrip(tag, payload, rest);
    TwoInts(s, u, payload, rest);
    LowBits(t.sec);
    LowBits(t.usec);
  }

  /** Two integers, one after the other. */
  lemma {:induction false} TwoInts(s: nat, u: nat, payload: seq<byte>, rest: seq<byte>)
    requires |Written(s)| <= 8 && |Written(u)| <= 8 && payload == IntBytes(s) + IntBytes(u)
    ensures 2 <= |payload| < 32
    ensures DecodeSpec(payload + rest, 8) == Some(Read(s, |IntBytes(s)|))
    ensures DecodeSpec((payload + rest)[|IntBytes(s)|..], 8) == Some(Read(u, |IntBytes(u)|))
    ensures Drained(payload + rest, |payload|) == rest
  {
    var a, b := IntBytes(s), IntBytes(u);
    AssocBytes(a, b, rest);
    IntRoundTrip(s, b + rest, 8);
    DropPrefix(a, b + rest);
    IntRoundTrip(u, rest, 8);
    DropPrefix(payload, rest);
  }

  lemma DropPrefix(a: seq<byte>, b: seq<byte>)
    ensures (a + b)[|a|..] == b
  {
  }

  lemma LowBits(x: int)
    ensures Low32(x) == x <==> 0 <= x < U32
  {
  }

  // ----- lengths

  /** What peek_length reports: header and payload, in 32 bits. */
  function PeekSpec(c: seq<byte>): Option<nat> {
    match TagSpec(c, 0)
    case None => None
    case Some(t) =>
      match DecodeSpec(c[t.length..], 8)
      case None => None
      case Some(n) => Some((n.number + n.length + t.length) % U32)
  }

  /** What consume leaves, if it succeeds. */
  function ConsumeSpec(c: seq<byte>): Got<()> {
    match TakeHead(c)
    case Failed(rest) => Failed(rest)
    case Took(head, rest) => if AsInt(head.len) == -1 then Failed(rest) else Took((), Drained(rest, AsInt(head.len)))
  }

  lemma {:induction false} HeadLength(c: seq<byte>)
    requires TakeHead(c).Took?
    ensures var g := TakeHead(c);
            && g.value.len < U32 && |g.rest| <= |c| && g.rest == c[|c| - |g.rest|..]
            && PeekSpec(c) == Some((g.value.len + |c| - |g.rest|) % U32) && 2 <= |c| - |g.rest| <= 10
  {
    var t := TagSpec(c, 0).value;
    var c1 := c[t.length..];
    Pow16Words();
    DecodedFits(c1, 8);
    TagLength(c, 0);
    var n := DecodeSpec(c1, 8).value;
    assert c1[n.length..] == c[t.length + n.length..];
  }

  lemma {:induction false} TagLength(c: seq<byte>, i: nat)
    requires TagSpec(c, i).Some?
    ensures TagSpec(c, i).value.length <= 5
    decreases |c| - i
  {
    if c[i] >= 128 {
      TagLength(c, i + 1);
    }
  }

  /** A length is reported exactly if a tag and a length of 32 bits are there, whether or not the payload is; a record
      is consumed exactly if all of it is there and its length is not that of -1; 2^31 bytes and more drain all. */
  lemma {:induction false} PeekAndConsume(c: seq<byte>)
    ensures PeekSpec(c).Some? <==> TakeTag(c).Took? && TakeInt(TakeTag(c).rest).Took?
    ensures PeekSpec(c).Some? ==>
              var c2 := TakeInt(TakeTag(c).rest);
              PeekSpec(c).value == (c2.value + |c| - |c2.rest|) % U32
    ensures var g, head := ConsumeSpec(c), TakeHead(c);
            if head.Failed? then g == Failed(head.rest)
            else if head.value.len == 0xffff_ffff then g == Failed(head.rest)
            else g == Took((), if head.value.len < 0x8000_0000 then head.rest[head.value.len..] else [])
  {
    if TakeHead(c).Took? {
      HeadLength(c);
    }
  }

  /** Consume removes exactly the bytes that peek_length reports. */
  ghost predicate PeekAgrees(c: seq<byte>) {
    && PeekSpec(c).Some? && ConsumeSpec(c).Took?
    && PeekSpec(c).value <= |c| && ConsumeSpec(c).rest == c[PeekSpec(c).value..]
  }

  /** They agree if and only if the whole payload is there, and its length is a non-negative int, or it ends
      the buffer and the sum does not wrap. What cannot be peeked cannot be consumed. */
  lemma {:induction false} PeekIsConsumed(c: seq<byte>)
    ensures PeekSpec(c).None? ==> ConsumeSpec(c).Failed?
    ensures PeekAgrees(c) <==>
              && TakeHead(c).Took?
              && var head, before := TakeHead(c).value, |c| - |TakeHead(c).rest|;
                 head.len < INT_LIMIT || (head.len != U32 - 1 && |c| == before + head.len < U32)
  {
    if TakeHead(c).Took? {
      HeadLength(c);
      var g := TakeHead(c);
      PeekedLength(c, g.rest, g.value.len, |c| - |g.rest|);
    }
  }

  /** A header whose payload has not come yet: peek_length reports 3 bytes, and consume fails and has drained
      the header. */
  lemma {:induction false} PeekedTooEarly(c: seq<byte>)
    requires c == [1, 1]
    ensures PeekSpec(c) == Some(3) && ConsumeSpec(c) == Failed([])
  {
    var c1 := c[1..];
    assert c1 == [1] && c1[1..] == [];
    var d := NibblesOf(c1, 1);
    assert d[0] == NibbleAt(c1, 1) && Value(d) == d[0] + 16 * Value(d[1..]);
    assert DecodeSpec(c1, 8) == Some(Read(1, 1));
  }

  /** Dropping len bytes of the rest, seen as an int, against dropping the reported bytes of the whole. */
  lemma {:induction false} PeekedLength(c: seq<byte>, rest: seq<byte>, len: nat, before: nat)
    requires before <= 10 && |c| == before + |rest| && rest == c[before..] && len <= |rest| && len < U32
    ensures var peek := (len + before) % U32;
            AsInt(len) != -1 && peek <= |c| && Drained(rest, AsInt(len)) == c[peek..]
            <==> len < INT_LIMIT || (len != U32 - 1 && |c| == before + len < U32)
  {
    var all := len + before;
    assert all % U32 == if all < U32 then all else all - U32;
    if len < INT_LIMIT {
      assert rest[len..] == c[all..];
    } else {
      assert Drained(rest, AsInt(len)) == [];
    }
  }

  /** A payload of 2^31 bytes with one byte behind it: consume drains that byte too. */
  lemma {:induction false} PeekDisagrees(payload: seq<byte>)
    requires |payload| == INT_LIMIT
    ensures var c := Record(1, payload) + [0];
            && ConsumeSpec(c) == Took((), []) && PeekSpec(c) == Some(|c| - 1)
  {
    HeadRoundTrip(1, payload, [0]);
    NegativeLength(Record(1, payload) + [0], payload + [0]);
  }

  lemma {:induction false} NegativeLength(c: seq<byte>, rest: seq<byte>)
    requires TakeHead(c) == Took(Head(1, INT_LIMIT), rest) && |rest| == INT_LIMIT + 1
    ensures ConsumeSpec(c) == Took((), []) && PeekSpec(c) == Some(|c| - 1)
  {
    HeadLength(c);
    var before := |c| - |rest|;
    assert (INT_LIMIT + before) % U32 == INT_LIMIT + before;
  }

  // ----- the buffer

  class TaggedBuffer {
    var content: seq<byte>

    constructor ()
      ensures content == []
    {
      content := [];
    }

    method Drain(k: int)
      modifies this
      ensures content == Drained(old(content), k)
    {
      content := if k < 0 || k >= |content| then [] else content[k..];
    }

    method Marshal(tag: nat, data: seq<byte>)
      requires |data| < U32
      modifies this
      ensures content == old(content) + Record(tag, data)
    {
      var t := EncodeTag(tag);
      content := content + t;
      WordDigits(|data|);
      var n := EncodeInt(|data|, 8);
      content := content + n;
      content := content + data;
      assert content == old(content) + (t + n + data);
    }

    /** An integer of 32 (max is 8) or 64 bits (max is 16). */
    method MarshalInt(tag: nat, n: nat, max: nat)
      requires max == 8 || max == 16
      requires n < if max == 8 then U32 else U32 * U32
      modifies this
      ensures |Written(n)| <= max && content == old(content) + Record(tag, IntBytes(n))
    {
      WordDigits(n);
      var data := EncodeInt(n, max);
      Marshal(tag, data);
    }

    method MarshalTimeval(tag: nat, t: Time)
      modifies this
      ensures |TimeBytes(t.sec, t.usec)| < U32 && content == old(content) + Record(tag, TimeBytes(t.sec, t.usec))
    {
      WordDigits(Low32(t.sec));
      WordDigits(Low32(t.usec));
      var data := EncodeInt(Low32(t.sec), 8);
      var more := EncodeInt(Low32(t.usec), 8);
      Marshal(tag, data + more);
    }

    /** Drain a tag, or -1 and leave everything as it is. */
    method ReadTag() returns (g: Got<nat>)
      modifies this
      ensures g == TakeTag(old(content)) && content == g.rest
    {
      var r := DecodeTag(content);
      if r.None? {
        return Failed(content);
      }
      content := content[r.value.length..];
      return Took(r.value.number, content);
    }

    method ReadInt() returns (g: Got<nat>)
      modifies this
      ensures g == TakeInt(old(content)) && content == g.rest
    {
      var r := DecodeInt(content, 8);
      if r.None? {
        return Failed(content);
      }
      content := content[r.value.length..];
      return Took(r.value.number, content);
    }

    /** Drain tag and length. On failure what has been read is gone. */
    method UnmarshalHeader() returns (r: int, tag: nat)
      modifies this
      ensures content == TakeHead(old(content)).rest
      ensures TakeHead(old(content)).Failed? ==> r == -1
      ensures TakeHead(old(content)).Took? ==>
                r == AsInt(TakeHead(old(content)).value.len) && tag == TakeHead(old(content)).value.tag
    {
      var t := ReadTag();
      if t.Failed? {
        return -1, 0;
      }
      var n := ReadInt();
      if n.Failed? {
        return -1, 0;
      }
      if |content| < n.value {
        return -1, 0;
      }
      return AsInt(n.value), t.value;
    }

    method Consume() returns (r: int)
      modifies this
      ensures content == ConsumeSpec(old(content)).rest && r == if ConsumeSpec(old(content)).Took? then 0 else -1
    {
      var len, tag := UnmarshalHeader();
      if len == -1 {
        return -1;
      }
      Drain(len);
      return 0;
    }

    method PeekLength() returns (r: Option<nat>)
      ensures r == PeekSpec(content)
    {
      var t := DecodeTag(content);
      if t.None? {
        return None;
      }
      var n := DecodeInt(content[t.value.length..], 8);
      if n.None? {
        return None;
      }
      return Some((n.value.number + n.value.length + t.value.length) % U32);
    }

    /** Move a payload to another buffer. A length that turned negative is an enormous one to add to dst,
        which refuses it. */
    method Unmarshal(dst: TaggedBuffer) returns (r: int, tag: nat)
      requires dst != this
      modifies this, dst
      ensures TakeHead(old(content)).Failed? ==>
                r == -1 && content == TakeHead(old(content)).rest && dst.content == old(dst.content)
      ensures TakeHead(old(content)).Took? && TakeHead(old(content)).value.len >= INT_LIMIT ==>
                r == -1 && content == TakeHead(old(content)).rest && dst.content == old(dst.content)
      ensures TakeHead(old(content)).Took? && TakeHead(old(content)).value.len < INT_LIMIT ==>
                var g := TakeHead(old(content));
                && r == g.value.len && tag == g.value.tag
                && dst.content == old(dst.content) + g.rest[..r] && content == g.rest[r..]
    {
      HeadFits(content);
      r, tag := UnmarshalHeader();
      if r < 0 {
        return -1, tag;
      }
      dst.content := dst.content + content[..r];
      content := content[r..];
    }

    method UnmarshalInt(need: nat, max: nat) returns (g: Got<nat>)
      modifies this
      ensures g == UnmarshalIntSpec(old(content), need, max) && content == g.rest
    {
      var t := ReadTag();
      if t.Failed? || t.value != need {
        return Failed(content);
      }
      var n := ReadInt();
      if n.Failed? || |content| < n.value {
        return Failed(content);
      }
      var r := DecodeInt(content, max);
      content := content[n.value..];
      if r.None? || r.value.length > n.value {
        return Failed(content);
      }
      return Took(r.value.number, content);
    }

    method UnmarshalTimeval(need: nat) returns (g: Got<Time>)
      modifies this
      ensures g == UnmarshalTimeSpec(old(content), need) && content == g.rest
    {
      HeadFits(content);
      var len, tag := UnmarshalHeader();
      if len == -1 {
        return Failed(content);
      }
      if tag != need {
        Drain(len);
        return Failed(content);
      }
      var a := DecodeInt(content, 8);
      if a.None? {
        Drain(len);
        return Failed(content);
      }
      var b := DecodeInt(content[a.value.length..], 8);
      Drain(len);
      if b.None? || a.value.length + b.value.length > len {
        return Failed(content);
      }
      return Took(Time(a.value.number, b.value.number), content);
    }
  }

  lemma {:induction false} HeadFits(c: seq<byte>)
    ensures TakeHead(c).Took? ==> TakeHead(c).value.len < U32
  {
    if TakeHead(c).Took? {
      HeadLength(c);
    }
  }

  // ----- whole streams

  datatype Item = Item(tag: nat, payload: seq<byte>)

  ghost predicate ItemsOk(items: seq<Item>) {
    forall i :: 0 <= i < |items| ==> items[i].tag < U32 && |items[i].payload| < U32
  }

  function Stream(items: seq<Item>): seq<byte>
    requires ItemsOk(items)
  {
    if items == [] then []
    else
      assert items[0].tag < U32;
      Record(items[0].tag, items[0].payload) + Stream(items[1..])
  }

  lemma {:induction false} StreamAppend(items: seq<Item>, x: Item)
    requires ItemsOk(items) && x.tag < U32 && |x.payload| < U32
    ensures ItemsOk(items + [x]) && Stream(items + [x]) == Stream(items) + Record(x.tag, x.payload)
  {
    var all := items + [x];
    if items == [] {
      assert all == [x] && all[1..] == [];
      assert Record(x.tag, x.payload) + [] == Record(x.tag, x.payload);
    } else {
      var first := items[0];
      assert all[0] == first && all[1..] == items[1..] + [x] && first.tag < U32;
      StreamAppend(items[1..], x);
      AssocBytes(Record(first.tag, first.payload), Stream(items[1..]), Record(x.tag, x.payload));
    }
  }

  method MarshalAll(items: seq<Item>) returns (b: TaggedBuffer)
    requires ItemsOk(items)
    ensures fresh(b) && b.content == Stream(items)
  {
    b := new TaggedBuffer();
    for i := 0 to |items|
      invariant fresh(b) && b.content == Stream(items[..i])
    {
      assert items[..i + 1] == items[..i] + [items[i]];
      assert items[i].tag < U32;
      StreamAppend(items[..i], items[i]);
      b.Marshal(items[i].tag, items[i].payload);
    }
    assert items[..|items|] == items;
  }

  lemma {:induction false} NextItem(items: seq<Item>, rest: seq<byte>, later: seq<byte>)
    requires ItemsOk(items) && items != [] && later == Stream(items[1..]) + rest
    ensures items[0].tag < U32 && |items[0].payload| < U32
    ensures Stream(items) + rest == Record(items[0].tag, items[0].payload) + later
  {
    var first := items[0];
    assert first.tag < U32;
    AssocBytes(Record(first.tag, first.payload), Stream(items[1..]), rest);
  }

  /** Read one record. */
  method TakeItem(b: TaggedBuffer, ghost x: Item, ghost later: seq<byte>) returns (got: Item)
    requires x.tag < U32 && |x.payload| < INT_LIMIT && b.content == Record(x.tag, x.payload) + later
    modifies b
    ensures got == x && b.content == later
  {
    HeadRoundTrip(x.tag, x.payload, later);
    var dst := new TaggedBuffer();
    var r, tag := b.Unmarshal(dst);
    assert (x.payload + later)[..|x.payload|] == x.payload && (x.payload + later)[|x.payload|..] == later;
    assert [] + x.payload == x.payload;
    got := Item(tag, dst.content);
  }

  /** Reading a stream of records one after the other gives the records, and leaves what follows. */
  method UnmarshalAll(b: TaggedBuffer, ghost items: seq<Item>, n: nat, ghost rest: seq<byte>) returns (got: seq<Item>)
    requires ItemsOk(items) && n == |items| && b.content == Stream(items) + rest
    requires forall i :: 0 <= i < |items| ==> |items[i].payload| < INT_LIMIT
    modifies b
    ensures got == items && b.content == rest
  {
    got := [];
    ghost var left := items;
    for i := 0 to n
      invariant ItemsOk(left) && |left| == n - i && got + left == items
      invariant b.content == Stream(left) + rest && forall i :: 0 <= i < |left| ==> |left[i].payload| < INT_LIMIT
    {
      ghost var later := Stream(left[1..]) + rest;
      NextItem(left, rest, later);
      var x := TakeItem(b, left[0], later);
      Shift(got, left);
      got := got + [x];
      left := left[1..];
    }
    assert got + left == got;
    assert [] + rest == rest;
  }

  lemma {:induction false} Shift(got: seq<Item>, left: seq<Item>)
    requires left != []
    ensures (got + [left[0]]) + left[1..] == got + left
  {
  }
}
