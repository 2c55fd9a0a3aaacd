/** Domain names in DNS messages (sections 3.1 and 4.1.4 of RFC 1035): the writer, which shares
    suffixes through a table of labels, and the parser. */
module DnsNames {
  import opened Basics

  type Name = seq<byte>

  const DOT: byte := 46
  const MAX_LABELS := 128

  // ----- the format

  /** The labels of the name at p of a message, following at most jumps pointers. A length byte with
      either of its two top bits set starts a pointer. */
  function ReadLabels(m: seq<byte>, p: nat, jumps: nat): Option<seq<Name>>
    decreases jumps, |m| - p
  {
    if p >= |m| then None
    else if m[p] == 0 then Some([])
    else if m[p] >= 64 then
      if p + 1 < |m| && jumps > 0 && Target(m, p) < |m| then ReadLabels(m, Target(m, p), jumps - 1) else None
    else if p + 1 + m[p] > |m| then None
    else Prepend([m[p + 1..p + 1 + m[p]]], ReadLabels(m, p + 1 + m[p], jumps))
  }

  function Target(m: seq<byte>, p: nat): nat
    requires p + 1 < |m|
  {
    var high: int := m[p];
    high % 64 * 256 + m[p + 1]
  }

  function Prepend(ls: seq<Name>, o: Option<seq<Name>>): Option<seq<Name>> {
    match o
    case None => None
    case Some(ms) => Some(ls + ms)
  }

  lemma PrependTwice(a: seq<Name>, b: seq<Name>, o: Option<seq<Name>>)
    ensures Prepend(a, Prepend(b, o)) == Prepend(a + b, o)
  {
    if o.Some? {
      assert a + (b + o.value) == a + b + o.value;
    }
  }

  /** The place after the name at p: after its zero byte or its first pointer. */
  function EndAt(m: seq<byte>, p: nat): nat
    decreases |m| - p
  {
    if p >= |m| then p
    else if m[p] == 0 then p + 1
    else if m[p] >= 64 then p + 2
    else EndAt(m, p + 1 + m[p])
  }

  /** Labels with a dot between any two. */
  function Join(ls: seq<Name>): Name {
    if ls == [] then [] else if |ls| == 1 then ls[0] else ls[0] + [DOT] + Join(ls[1..])
  }

  /** A name may be read for longer, and later bytes of the message do not matter to it. */
  lemma {:induction false} ReadMore(m: seq<byte>, p: nat, jumps: nat, x: seq<byte>, jumps': nat)
    requires ReadLabels(m, p, jumps).Some? && jumps <= jumps'
    ensures ReadLabels(m + x, p, jumps') == ReadLabels(m, p, jumps)
    ensures EndAt(m + x, p) == EndAt(m, p)
    decreases jumps, |m| - p
  {
    var m' := m + x;
    assert m'[p] == m[p];
    if m[p] == 0 {
    } else if m[p] >= 64 {
      assert m'[p + 1] == m[p + 1];
      assert Target(m', p) == Target(m, p);
      ReadMore(m, Target(m, p), jumps - 1, x, jumps' - 1);
    } else {
      ReadMore(m, p + 1 + m[p], jumps, x, jumps');
      assert m'[p + 1..p + 1 + m[p]] == m[p + 1..p + 1 + m[p]];
    }
  }

  /** The 14 bits of a pointer. */
  function Offset(m: seq<byte>, p: nat): nat
    requires p + 1 < |m| && m[p] >= 192
  {
    var high: int := m[p];
    (high - 192) * 256 + m[p + 1]
  }

  /** The name at p as section 4.1.4 of RFC 1035 has it: a length byte below 64 starts a label, one from 192
      on a pointer of 14 bits to an earlier place, before limit, and there are no others. */
  function StrictLabels(m: seq<byte>, p: nat, limit: nat): Option<seq<Name>>
    decreases limit, |m| - p
  {
    if p >= |m| then None
    else if m[p] == 0 then Some([])
    else if m[p] < 64 then
      if p + 1 + m[p] > |m| then None
      else Prepend([m[p + 1..p + 1 + m[p]]], StrictLabels(m, p + 1 + m[p], limit))
    else if m[p] < 192 || p + 1 >= |m| then None
    else
      var target := Offset(m, p);
      if target < limit then StrictLabels(m, target, target) else None
  }

  /** A name of the format is read by the parser's rules as well, with no more jumps than bytes before it. */
  lemma {:induction false} StrictIsRead(m: seq<byte>, p: nat, limit: nat)
    requires StrictLabels(m, p, limit).Some? && limit <= |m|
    ensures ReadLabels(m, p, limit) == StrictLabels(m, p, limit)
    decreases limit, |m| - p
  {
    if m[p] == 0 {
    } else if m[p] < 64 {
      StrictIsRead(m, p + 1 + m[p], limit);
    } else {
      var target := Offset(m, p);
      assert Target(m, p) == target;
      StrictIsRead(m, target, target);
      ReadMore(m, target, target, [], limit - 1);
      assert m + [] == m;
    }
  }

  /** The limit may be later, and later bytes of the message do not matter. */
  lemma {:induction false} StrictMore(m: seq<byte>, p: nat, limit: nat, x: seq<byte>, limit': nat)
    requires StrictLabels(m, p, limit).Some? && limit <= limit'
    ensures StrictLabels(m + x, p, limit') == StrictLabels(m, p, limit)
    ensures EndAt(m + x, p) == EndAt(m, p)
    decreases limit, |m| - p
  {
    var m' := m + x;
    assert m'[p] == m[p];
    if m[p] == 0 {
    } else if m[p] < 64 {
      StrictMore(m, p + 1 + m[p], limit, x, limit');
      assert m'[p + 1..p + 1 + m[p]] == m[p + 1..p + 1 + m[p]];
    } else {
      var target := Offset(m, p);
      assert m'[p + 1] == m[p + 1];
      StrictMore(m, target, target, x, target);
    }
  }

  // ----- the parser

  datatype Parsed = Bad | Good(name: Name, next: nat)

  /** Does the joined name of the labels at p fit in outLen bytes with its terminator? */
  function Fitting(o: Option<seq<Name>>, next: nat, outLen: nat): Parsed {
    if o.Some? && |Join(o.value)| < outLen then Good(Join(o.value), next) else Bad
  }

  lemma {:induction false} JoinAppend(ls: seq<Name>, l: Name)
    ensures Join(ls + [l]) == if ls == [] then l else Join(ls) + [DOT] + l
  {
    if ls == [] {
      assert ls + [l] == [l];
    } else {
      var all := ls + [l];
      assert all[0] == ls[0] && all[1..] == ls[1..] + [l];
      JoinAppend(ls[1..], l);
      if |ls| > 1 {
        assert ls[0] + [DOT] + (Join(ls[1..]) + [DOT] + l) == ls[0] + [DOT] + Join(ls[1..]) + [DOT] + l;
      }
    }
  }

  lemma {:induction false} JoinLonger(a: seq<Name>, b: seq<Name>)
    ensures |Join(a)| <= |Join(a + b)|
  {
    if b == [] {
      assert a + b == a;
    } else {
      var c := b[..|b| - 1];
      JoinLonger(a, c);
      assert a + b == (a + c) + [b[|b| - 1]];
      JoinAppend(a + c, b[|b| - 1]);
    }
  }

  lemma {:induction false} PrependLonger(a: seq<Name>, o: Option<seq<Name>>, next: nat, outLen: nat)
    requires |Join(a)| >= outLen
    ensures Fitting(Prepend(a, o), next, outLen) == Bad
  {
    if o.Some? {
      JoinLonger(a, o.value);
    }
  }

  /** Read a name: success exactly if the format has one at idx that fits. */
  method NameParse(packet: seq<byte>, idx: nat, outLen: nat) returns (r: Parsed)
    ensures r == Fitting(ReadLabels(packet, idx, |packet|), EndAt(packet, idx), outLen)
  {
    var length := |packet|;
    var nameEnd: int := -1;
    var j: nat := idx;
    var ptrCount: nat := 0;
    var out: Name := [];
    ghost var done: seq<Name> := [];
    ghost var all := ReadLabels(packet, idx, length);
    ghost var end := EndAt(packet, idx);
    assert all.Some? ==> [] + all.value == all.value;
    while true
      invariant ptrCount <= length
      invariant all == Prepend(done, ReadLabels(packet, j, length - ptrCount))
      invariant end == if nameEnd < 0 then EndAt(packet, j) else nameEnd
      invariant out == Join(done) && (out == [] <==> done == []) && (done != [] ==> |out| < outLen)
      decreases length - ptrCount, length - j
    {
      if j >= length {
        return Bad;
      }
      var labelLen := packet[j];
      if labelLen == 0 {
        break;
      }
      if labelLen >= 64 {
        if j + 1 >= length {
          return Bad;
        }
        if nameEnd < 0 {
          nameEnd := j + 2;
        }
        var target := Target(packet, j);
        if target >= length {
          return Bad;
        }
        JumpStep(packet, j, length - ptrCount);
        ptrCount := ptrCount + 1;
        if ptrCount > length {
          return Bad;
        }
        j := target;
        continue;
      }
      // from here on the length is below 64, so no label is too long
      var q := j + 1 + labelLen;
      ghost var rest := ReadLabels(packet, q, length - ptrCount);
      ghost var part := if q <= length then packet[j + 1..q] else [];
      LabelStep(packet, j, q, part, length - ptrCount, done, all, rest);
      var ok, out' := AppendLabel(packet, j + 1, q, out, outLen, done, part);
      if !ok {
        PrependAnyLonger(done, part, rest, all, end, outLen);
        return Bad;
      }
      out, done, j := out', done + [part], q;
    }
    assert all.Some? ==> done + [] == done;
    if |out| >= outLen {
      return Bad;
    }
    return Good(out, if nameEnd < 0 then j + 1 else nameEnd);
  }

  /** Put a label behind the name read so far, with a dot between them, if it is there and fits. */
  method AppendLabel(packet: seq<byte>, p: nat, q: nat, out: Name, outLen: nat, ghost done: seq<Name>, ghost part: Name)
      returns (ok: bool, out': Name)
    requires p < q && out == Join(done) && (out == [] <==> done == [])
    requires part == if q <= |packet| then packet[p..q] else []
    ensures ok ==> q <= |packet| && out' == Join(done + [part]) && out' != [] && |out'| < outLen
    ensures !ok ==> q > |packet| || |Join(done + [part])| >= outLen
  {
    JoinAppend(done, part);
    out' := out;
    var dot: Name := [];
    if out != [] {
      dot := [DOT];
      if |out| + 1 >= outLen {
        return false, out;
      }
    }
    if |out| + |dot| + (q - p) >= outLen {
      return false, out;
    }
    if q > |packet| {
      return false, out;
    }
    ok, out' := true, out + dot + packet[p..q];
  }

  /** A pointer is followed, unless there were too many. */
  lemma {:induction false} JumpStep(m: seq<byte>, p: nat, jumps: nat)
    requires p + 1 < |m| && m[p] >= 64 && Target(m, p) < |m|
    ensures ReadLabels(m, p, jumps) == if jumps > 0 then ReadLabels(m, Target(m, p), jumps - 1) else None
    ensures EndAt(m, p) == p + 2
  {
  }

  /** A label is read, or there is no name because it does not end in the packet. */
  lemma {:induction false} LabelStep(m: seq<byte>, p: nat, q: nat, part: Name, jumps: nat, done: seq<Name>,
                                     all: Option<seq<Name>>, rest: Option<seq<Name>>)
    requires p < |m| && 0 < m[p] < 64 && q == p + 1 + m[p] && all == Prepend(done, ReadLabels(m, p, jumps))
    requires part == (if q <= |m| then m[p + 1..q] else []) && rest == ReadLabels(m, q, jumps)
    ensures if q <= |m| then all == Prepend(done + [part], rest) else all == None
    ensures EndAt(m, p) == EndAt(m, q)
  {
    PrependTwice(done, [part], rest);
  }

  lemma {:induction false} PrependAnyLonger(done: seq<Name>, part: Name, rest: Option<seq<Name>>,
                                            all: Option<seq<Name>>, next: nat, outLen: nat)
    requires all == None || (all == Prepend(done + [part], rest) && |Join(done + [part])| >= outLen)
    ensures Fitting(all, next, outLen) == Bad
  {
    if all.Some? {
      PrependLonger(done + [part], rest, next, outLen);
    }
  }

  // ----- the writer

  /** A suffix of some name and the place in the message where it was written. */
  datatype Entry = Entry(suffix: Name, pos: nat)

  /** The place of the first dot, or the length of the name if there is none. */
  function Dot(name: Name): (i: nat)
    ensures i <= |name| && (i < |name| ==> name[i] == DOT) && (forall k :: 0 <= k < i ==> name[k] != DOT)
  {
    if name == [] || name[0] == DOT then 0 else 1 + Dot(name[1..])
  }

  /** The labels of a name up to its first empty one: what can be read back. */
  function Canon(name: Name): seq<Name> {
    var i := Dot(name);
    if i == 0 then [] else if i == |name| then [name] else [name[..i]] + Canon(name[i + 1..])
  }

  /** The first entry for a name; the length of the table if there is none. */
  function IndexOf(table: seq<Entry>, name: Name): (i: nat)
    ensures i <= |table| && (i < |table| ==> table[i].suffix == name)
    ensures forall k :: 0 <= k < i ==> table[k].suffix != name
  {
    if table == [] || table[0].suffix == name then 0 else 1 + IndexOf(table[1..], name)
  }

  /** Where a name was written first. */
  function Find(table: seq<Entry>, name: Name): Option<nat> {
    var i := IndexOf(table, name);
    if i < |table| then Some(table[i].pos) else None
  }

  /** A full table silently stays as it is. */
  function Remember(table: seq<Entry>, name: Name, pos: nat): seq<Entry> {
    if |table| == MAX_LABELS then table else table + [Entry(name, pos)]
  }

  /** The outcome of writing a name: an error, or the message and the table afterwards. */
  datatype Encoded = LabelTooLong | NoRoom | Done(message: seq<byte>, table: seq<Entry>)

  function Pointer(pos: nat): seq<byte>
    requires pos < 0x4000
  {
    [0xc0 + pos / 256, pos % 256]
  }

  ghost predicate Below(table: seq<Entry>, limit: nat) {
    forall e :: e in table ==> e.pos < limit
  }

  /** A length byte and a label. */
  function Part(name: Name, i: nat): seq<byte>
    requires i <= |name| && i <= 63
  {
    [i] + name[..i]
  }

  /** The zero byte after the last label; an empty last label is one itself. */
  function Closing(name: Name): seq<byte> {
    if name == [] then [] else [0]
  }

  /** Write a name at the end of a message, label by label. */
  ghost function Encode(m: seq<byte>, name: Name, table: seq<Entry>, bufLen: nat): Encoded
    requires bufLen <= 0x4000 && Below(table, bufLen)
    decreases |name|
  {
    var found := Find(table, name);
    if found.Some? then (if |m| + 2 > bufLen then NoRoom else Done(m + Pointer(found.value), table))
    else
      var i := Dot(name);
      if i > 63 then LabelTooLong
      else if |m| + i + 1 > bufLen then NoRoom
      else if i == |name| then Done(m + Part(name, i) + Closing(name), Remember(table, name, |m|))
      else Encode(m + Part(name, i), name[i + 1..], Remember(table, name, |m|), bufLen)
  }

  ghost predicate EntryOk(m: seq<byte>, e: Entry) {
    StrictLabels(m, e.pos, e.pos) == Some(Canon(e.suffix))
  }

  /** Every suffix in the table can be read back from its place. */
  ghost predicate TableOk(m: seq<byte>, table: seq<Entry>) {
    forall e :: e in table ==> EntryOk(m, e)
  }

  /** While a name that began at start is being written, the table also holds longer suffixes of it. */
  ghost predicate OwnOrOk(m: seq<byte>, table: seq<Entry>, start: nat, n: nat) {
    forall e :: e in table ==> if e.pos < start then EntryOk(m, e) else |e.suffix| > n
  }

  /** Would the parser stop before the end of what is written for the name? It does if an empty label
      other than the last one is written out. */
  ghost predicate StopsEarly(name: Name, table: seq<Entry>)
    decreases |name|
  {
    var i := Dot(name);
    Find(table, name).None? && i < |name| && (i == 0 || StopsEarly(name[i + 1..], table))
  }

  /** What was remembered for the name is what can be read. */
  ghost predicate NewOk(m: seq<byte>, table: seq<Entry>, table': seq<Entry>, start: nat) {
    && table <= table'
    && forall i :: |table| <= i < |table'| ==> ReadsFrom(m, table'[i], start)
  }

  ghost predicate ReadsFrom(m: seq<byte>, e: Entry, start: nat) {
    start <= e.pos && StrictLabels(m, e.pos, start) == Some(Canon(e.suffix))
  }

  /** Writing only adds to the message; how much, and when it is refused. */
  lemma {:induction false} EncodeAccepts(m: seq<byte>, name: Name, table: seq<Entry>, bufLen: nat)
    requires bufLen <= 0x4000 && Below(table, bufLen)
    ensures Acceptable(Encode(m, name, table, bufLen), m, name, bufLen)
    decreases |name|
  {
    var i := Dot(name);
    if Find(table, name).None? && i < |name| && i <= 63 && |m| + i + 1 <= bufLen {
      var m1, rest, table1 := m + Part(name, i), name[i + 1..], Remember(table, name, |m|);
      LabelWritten(m, name, table, table1, bufLen, m1, rest);
      EncodeAccepts(m1, rest, table1, bufLen);
      assert m < m1;
    }
  }

  /** The table never has more than 128 entries, and none of them goes away. */
  lemma {:induction false} EncodeTable(m: seq<byte>, name: Name, table: seq<Entry>, bufLen: nat)
    requires bufLen <= 0x4000 && Below(table, bufLen) && |table| <= 128
    ensures var e := Encode(m, name, table, bufLen); e.Done? ==> table <= e.table && |e.table| <= 128
    decreases |name|
  {
    var i := Dot(name);
    if Find(table, name).None? && i < |name| && i <= 63 && |m| + i + 1 <= bufLen {
      var m1, rest, table1 := m + Part(name, i), name[i + 1..], Remember(table, name, |m|);
      LabelWritten(m, name, table, table1, bufLen, m1, rest);
      EncodeTable(m1, rest, table1, bufLen);
    }
  }

  /** Only a label of more than 63 bytes, or too little room for the whole name, is refused. */
  ghost predicate Acceptable(e: Encoded, m: seq<byte>, name: Name, bufLen: nat) {
    match e
    case LabelTooLong => !LabelsFit(name)
    case NoRoom => |m| + |name| + 2 > bufLen
    case Done(m', table') => m < m' && |m'| <= |m| + |name| + 2 && |m'| <= bufLen + 1 && Below(table', bufLen)
  }

  /** No label is longer than 63 bytes. */
  predicate LabelsFit(name: Name) {
    var i := Dot(name);
    i <= 63 && (i < |name| ==> LabelsFit(name[i + 1..]))
  }

  lemma {:induction false} NewOkOne(m: seq<byte>, name: Name, pos: nat, table: seq<Entry>, table1: seq<Entry>,
                                    table': seq<Entry>, start: nat)
    requires table1 == Remember(table, name, pos) && NewOk(m, table1, table', start)
    requires ReadsFrom(m, Entry(name, pos), start)
    ensures NewOk(m, table, table', start)
  {
  }

  /** A name is written label by label. */
  lemma {:induction false} LabelWritten(m: seq<byte>, name: Name, table: seq<Entry>, table1: seq<Entry>,
                                        bufLen: nat, m1: seq<byte>, rest: Name)
    requires bufLen <= 0x4000 && Below(table, bufLen) && Find(table, name).None? && Dot(name) < |name|
    requires Dot(name) <= 63
    requires |m| + Dot(name) + 1 <= bufLen && table1 == Remember(table, name, |m|) && m1 == m + Part(name, Dot(name))
    requires rest == name[Dot(name) + 1..]
    ensures Below(table1, bufLen) && SuffixOf(rest, name)
    ensures Encode(m, name, table, bufLen) == Encode(m1, rest, table1, bufLen)
  {
    var all, inner := Encode(m, name, table, bufLen), Encode(m1, rest, table1, bufLen);
    assert all == inner;
  }

  ghost predicate SuffixOf(rest: Name, name: Name) {
    |rest| < |name| && forall x :: x in rest ==> x in name
  }

  /** Reading the bytes written for a name gives the name. */
  lemma {:induction false} EncodeReads(m: seq<byte>, name: Name, table: seq<Entry>, bufLen: nat, start: nat,
                                       m': seq<byte>, table': seq<Entry>)
    requires bufLen <= 0x4000 && Below(table, bufLen) && start <= |m| && OwnOrOk(m, table, start, |name|)
    requires Encode(m, name, table, bufLen) == Done(m', table')
    ensures StrictLabels(m', |m|, start) == Some(Canon(name)) && NewOk(m', table, table', start)
    decreases |name|
  {
    if Find(table, name).Some? {
      PointerReads(m, name, table, start, m');
    } else {
      var i := Dot(name);
      var table1 := Remember(table, name, |m|);
      if i == |name| {
        LiteralReads(m, name, start, m');
      } else {
        var m1, rest := m + Part(name, i), name[i + 1..];
        LabelWritten(m, name, table, table1, bufLen, m1, rest);
        OwnOrOkLater(m, table, start, name, Part(name, i), rest);
        EncodeReads(m1, rest, table1, bufLen, start, m', table');
        EncodeAccepts(m1, rest, table1, bufLen);
        LabelReads(m, name, i, start, m', m1);
      }
      NewOkOne(m', name, |m|, table, table1, table', start);
    }
  }

  lemma {:induction false} OwnOrOkLater(m: seq<byte>, table: seq<Entry>, start: nat, name: Name, x: seq<byte>,
                                        rest: Name)
    requires OwnOrOk(m, table, start, |name|) && |rest| < |name| && start <= |m|
    ensures OwnOrOk(m + x, Remember(table, name, |m|), start, |rest|)
  {
    var table1 := Remember(table, name, |m|);
    forall e | e in table1
      ensures if e.pos < start then EntryOk(m + x, e) else |e.suffix| > |rest|
    {
      if e in table && e.pos < start {
        StrictMore(m, e.pos, e.pos, x, e.pos);
      }
    }
  }

  lemma {:induction false} PointerReads(m: seq<byte>, name: Name, table: seq<Entry>, start: nat, m': seq<byte>)
    requires Below(table, 0x4000) && start <= |m| && OwnOrOk(m, table, start, |name|) && Find(table, name).Some?
    requires m' == m + Pointer(Find(table, name).value)
    ensures StrictLabels(m', |m|, start) == Some(Canon(name))
  {
    var e := table[IndexOf(table, name)];
    assert e in table;
    assert m'[|m|] == 0xc0 + e.pos / 256 && m'[|m| + 1] == e.pos % 256;
    StrictMore(m, e.pos, e.pos, Pointer(e.pos), e.pos);
  }

  /** The last label of a name and the zero byte. */
  lemma {:induction false} LiteralReads(m: seq<byte>, name: Name, jumps: nat, m': seq<byte>)
    requires Dot(name) == |name| <= 63 && m' == m + Part(name, |name|) + Closing(name)
    ensures StrictLabels(m', |m|, jumps) == Some(Canon(name))
  {
    var j := |m|;
    assert name[..|name|] == name;
    assert m'[j] == |name|;
    if name != [] {
      var q := j + 1 + |name|;
      assert m'[q] == 0 && m'[j + 1..q] == name && |m'| == q + 1;
      var none: seq<Name> := [];
      assert [name] + none == [name];
      assert StrictLabels(m', q, jumps) == Some([]);
    }
  }

  /** A label that is not the last one; if it is empty, reading stops there. */
  lemma {:induction false} LabelReads(m: seq<byte>, name: Name, i: nat, jumps: nat, m': seq<byte>, m1: seq<byte>)
    requires i == Dot(name) < |name| && i <= 63 && m1 == m + Part(name, i) && m1 <= m'
    requires StrictLabels(m', |m1|, jumps) == Some(Canon(name[i + 1..]))
    ensures StrictLabels(m', |m|, jumps) == Some(Canon(name))
  {
    var j := |m|;
    assert m'[j] == m1[j] == i;
    if i > 0 {
      LabelBytes(m, name, i, m', m1);
    }
  }

  lemma {:induction false} LabelBytes(m: seq<byte>, name: Name, i: nat, m': seq<byte>, m1: seq<byte>)
    requires 0 < i < |name| && i <= 63 && m1 == m + Part(name, i) && m1 <= m'
    ensures |m1| == |m| + 1 + i && m'[|m| + 1..|m| + 1 + i] == name[..i]
  {
    var j, q := |m|, |m| + 1 + i;
    assert m'[j + 1..q] == m1[j + 1..q];
    assert m1[j + 1..q] == name[..i];
  }

  lemma {:induction false} LabelEnds(m: seq<byte>, name: Name, i: nat, m': seq<byte>, m1: seq<byte>)
    requires i <= |name| && i <= 63 && m1 == m + Part(name, i) && m1 <= m'
    ensures EndAt(m', |m|) == if i == 0 then |m1| else EndAt(m', |m1|)
  {
    assert m'[|m|] == m1[|m|] == i;
  }

  lemma {:induction false} LiteralEnds(m: seq<byte>, name: Name, m': seq<byte>)
    requires Dot(name) == |name| <= 63 && m' == m + Part(name, |name|) + Closing(name)
    ensures EndAt(m', |m|) == |m'|
  {
    var m1 := m + Part(name, |name|);
    assert name[..|name|] == name;
    LabelEnds(m, name, |name|, m', m1);
    if name != [] {
      assert m'[|m1|] == 0;
    }
  }

  lemma {:induction false} EncodeExtends(m: seq<byte>, name: Name, table: seq<Entry>, bufLen: nat, m': seq<byte>,
                                         table': seq<Entry>)
    requires bufLen <= 0x4000 && Below(table, bufLen) && Encode(m, name, table, bufLen) == Done(m', table')
    ensures m < m'
  {
    EncodeAccepts(m, name, table, bufLen);
  }

  /** What follows a label ends where reading ends, unless the label is empty. */
  lemma {:induction false} EndsAfterLabel(m: seq<byte>, name: Name, m1: seq<byte>, table0: seq<Entry>, m': seq<byte>)
    requires Dot(name) < |name| && Dot(name) <= 63 && Find(table0, name).None?
    requires m1 == m + Part(name, Dot(name)) && m1 < m' && EndAt(m', |m1|) <= |m'|
    requires EndAt(m', |m1|) == |m'| <==> !StopsEarly(name[Dot(name) + 1..], table0)
    ensures EndAt(m', |m|) <= |m'| && (EndAt(m', |m|) == |m'| <==> !StopsEarly(name, table0))
  {
    LabelEnds(m, name, Dot(name), m', m1);
  }

  lemma {:induction false} PointerEnds(m: seq<byte>, pos: nat, m': seq<byte>)
    requires pos < 0x4000 && m' == m + Pointer(pos)
    ensures EndAt(m', |m|) == |m'|
  {
    assert m'[|m|] == Pointer(pos)[0];
  }

  /** The parser ends where the writer ended, unless it stops early. */
  lemma {:induction false} EncodeEnds(m: seq<byte>, name: Name, table0: seq<Entry>, table: seq<Entry>, bufLen: nat,
                                      m': seq<byte>, table': seq<Entry>)
    requires bufLen <= 0x4000 && Below(table, bufLen) && LongerSince(table0, table, |name|)
    requires Encode(m, name, table, bufLen) == Done(m', table')
    ensures EndAt(m', |m|) <= |m'| && (EndAt(m', |m|) == |m'| <==> !StopsEarly(name, table0))
    decreases |name|
  {
    SameFind(table0, table, name);
    var found := Find(table, name);
    if found.Some? {
      PointerEnds(m, found.value, m');
      assert !StopsEarly(name, table0);
    } else {
      var i := Dot(name);
      if i == |name| {
        LiteralEnds(m, name, m');
        assert !StopsEarly(name, table0);
      } else {
        var m1, rest, table1 := m + Part(name, i), name[i + 1..], Remember(table, name, |m|);
        LabelWritten(m, name, table, table1, bufLen, m1, rest);
        EncodeExtends(m1, rest, table1, bufLen, m', table');
        EncodeEnds(m1, rest, table0, table1, bufLen, m', table');
        EndsAfterLabel(m, name, m1, table0, m');
      }
    }
  }

  /** Is no suffix of the name in the table, so that all of it is written out? */
  predicate Unshared(name: Name, table: seq<Entry>)
    decreases |name|
  {
    Find(table, name).None? && (Dot(name) < |name| ==> Unshared(name[Dot(name) + 1..], table))
  }

  /** The name is written out, ends in a label, and fills the buffer: the closing zero byte goes one
      past it. */
  predicate Overruns(m: seq<byte>, name: Name, table: seq<Entry>, bufLen: nat) {
    LabelsFit(name) && Unshared(name, table) && name != [] && name[|name| - 1] != DOT && |m| + |name| + 1 == bufLen
  }

  /** Exactly when a byte is written past the end. */
  lemma {:induction false} OverrunsExactly(m: seq<byte>, name: Name, table0: seq<Entry>, table: seq<Entry>, bufLen: nat)
    requires bufLen <= 0x4000 && Below(table, bufLen) && LongerSince(table0, table, |name|)
    ensures var e := Encode(m, name, table, bufLen);
            e.Done? && |e.message| > bufLen <==> Overruns(m, name, table0, bufLen)
    decreases |name|
  {
    SameFind(table0, table, name);
    var i := Dot(name);
    if Find(table, name).None? && i < |name| && i <= 63 && |m| + i + 1 <= bufLen {
      var m1, rest, table1 := m + Part(name, i), name[i + 1..], Remember(table, name, |m|);
      LabelWritten(m, name, table, table1, bufLen, m1, rest);
      OverrunsExactly(m1, rest, table0, table1, bufLen);
      OverrunsRest(m, name, i, rest, m1, table0, bufLen);
    }
  }

  lemma {:induction false} OverrunsRest(m: seq<byte>, name: Name, i: nat, rest: Name, m1: seq<byte>,
                                        table: seq<Entry>, bufLen: nat)
    requires i == Dot(name) < |name| && i <= 63 && rest == name[i + 1..] && m1 == m + Part(name, i)
    requires Find(table, name).None?
    ensures Overruns(m, name, table, bufLen) <==> Overruns(m1, rest, table, bufLen)
  {
    assert |m1| + |rest| == |m| + |name|;
    if rest == [] {
      assert name[|name| - 1] == DOT;
    } else {
      assert rest[|rest| - 1] == name[|name| - 1];
    }
  }

  /** The name "a" in a buffer of two bytes takes three. */
  lemma {:induction false} OverrunHappens()
    ensures Overruns([], [97], [], 2) && Encode([], [97], [], 2) == Done([1, 97, 0], [Entry([97], 0)])
  {
    var name: Name := [97];
    assert Dot(name) == 1 && name[..1] == name;
    assert [] + Part(name, 1) + Closing(name) == [1, 97, 0];
    assert Remember([], name, 0) == [Entry(name, 0)];
  }

  /** What was added to the table is longer than n. */
  ghost predicate LongerSince(table0: seq<Entry>, table: seq<Entry>, n: nat) {
    table0 <= table && forall i :: |table0| <= i < |table| ==> |table[i].suffix| > n
  }

  lemma {:induction false} SameFind(a: seq<Entry>, b: seq<Entry>, name: Name)
    requires LongerSince(a, b, |name|)
    ensures Find(a, name).Some? <==> Find(b, name).Some?
  {
    var i, j := IndexOf(a, name), IndexOf(b, name);
    if i < |a| {
      assert b[i].suffix == name;
    }
    if j < |b| {
      assert a[j].suffix == name;
    }
  }

  /** The name, and each of its suffixes up to one that was known before, is in the table. */
  ghost predicate Known(name: Name, table0: seq<Entry>, table: seq<Entry>)
    decreases |name|
  {
    && Find(table, name).Some?
    && (Find(table0, name).None? && Dot(name) < |name| ==> Known(name[Dot(name) + 1..], table0, table))
  }

  lemma {:induction false} FindStays(table: seq<Entry>, name: Name, table': seq<Entry>)
    requires table <= table' && Find(table, name).Some?
    ensures Find(table', name).Some?
  {
    assert table'[IndexOf(table, name)].suffix == name;
  }

  lemma {:induction false} KnownStays(name: Name, table0: seq<Entry>, table1: seq<Entry>, table: seq<Entry>)
    requires Known(name, table1, table) && LongerSince(table0, table1, |name|)
    ensures Known(name, table0, table)
    decreases |name|
  {
    SameFind(table0, table1, name);
    if Find(table0, name).None? && Dot(name) < |name| {
      KnownStays(name[Dot(name) + 1..], table0, table1, table);
    }
  }

  /** As long as the table does not fill up, everything that was written out is remembered. */
  lemma {:induction false} EncodeRemembers(m: seq<byte>, name: Name, table: seq<Entry>, bufLen: nat, m': seq<byte>,
                                           table': seq<Entry>)
    requires bufLen <= 0x4000 && Below(table, bufLen) && Encode(m, name, table, bufLen) == Done(m', table')
    requires |table'| < MAX_LABELS
    ensures table <= table' && Known(name, table, table')
    decreases |name|
  {
    if Find(table, name).None? {
      var i, table1 := Dot(name), Remember(table, name, |m|);
      if i < |name| {
        var m1, rest := m + Part(name, i), name[i + 1..];
        LabelWritten(m, name, table, table1, bufLen, m1, rest);
        EncodeRemembers(m1, rest, table1, bufLen, m', table');
        KnownStays(rest, table, table1, table');
      } else {
        assert |table1| == |table| + 1;
      }
      assert table1[|table|].suffix == name;
      FindStays(table1, name, table');
    }
  }

  /** A name that was written before takes two bytes. */
  lemma {:induction false} AgainIsPointer(m: seq<byte>, name: Name, table: seq<Entry>, bufLen: nat, m': seq<byte>,
                                          table': seq<Entry>, n: seq<byte>)
    requires bufLen <= 0x4000 && Below(table, bufLen) && Encode(m, name, table, bufLen) == Done(m', table')
    requires |table'| < MAX_LABELS && Below(table', bufLen) && |n| + 2 <= bufLen
    ensures var e := Encode(n, name, table', bufLen); e.Done? && |e.message| == |n| + 2 && e.table == table'
  {
    EncodeRemembers(m, name, table, bufLen, m', table');
  }

  /** What one write keeps: the new name can be read back, and so can everything in the table. */
  lemma {:induction false} EncodeRight(m: seq<byte>, name: Name, table: seq<Entry>, bufLen: nat, m': seq<byte>,
                                       table': seq<Entry>)
    requires bufLen <= 0x4000 && Below(table, bufLen) && Below(table, |m|) && TableOk(m, table)
    requires Encode(m, name, table, bufLen) == Done(m', table')
    ensures StrictLabels(m', |m|, |m|) == Some(Canon(name)) == ReadLabels(m', |m|, |m'|)
    ensures EndAt(m', |m|) <= |m'| && (EndAt(m', |m|) == |m'| <==> !StopsEarly(name, table))
    ensures TableOk(m', table') && Below(table', |m'|)
  {
    var start := |m|;
    EncodeReads(m, name, table, bufLen, start, m', table');
    EncodeEnds(m, name, table, table, bufLen, m', table');
    EncodeAccepts(m, name, table, bufLen);
    var x := m'[|m|..];
    assert m' == m + x && m' + [] == m';
    StrictIsRead(m', start, start);
    ReadMore(m', start, start, [], |m'|);
    forall e | e in table'
      ensures EntryOk(m', e) && e.pos < |m'|
    {
      var i :| 0 <= i < |table'| && table'[i] == e;
      if i < |table| {
        assert table[i] == e;
        StrictMore(m, e.pos, e.pos, x, e.pos);
      } else {
        assert ReadsFrom(m', table'[i], start);
        StrictMore(m', e.pos, start, [], e.pos);
      }
    }
  }

  // ----- which names survive

  function StripDot(name: Name): Name {
    if name != [] && name[|name| - 1] == DOT then name[..|name| - 1] else name
  }

  /** No empty label, except that the name may end in a dot. */
  predicate Plain(name: Name) {
    && (name != [] ==> name[0] != DOT)
    && (forall k :: 0 <= k < |name| - 1 ==> !DoubleDot(name, k))
  }

  predicate DoubleDot(name: Name, k: nat)
    requires k + 1 < |name|
  {
    name[k] == DOT && name[k + 1] == DOT
  }

  lemma {:induction false} PlainRest(name: Name)
    requires 0 < Dot(name) < |name|
    ensures Plain(name) <==> Plain(name[Dot(name) + 1..])
  {
    var i := Dot(name);
    var rest := name[i + 1..];
    if Plain(name) {
      assert rest != [] ==> !DoubleDot(name, i);
      forall k | 0 <= k < |rest| - 1
        ensures !DoubleDot(rest, k)
      {
        assert !DoubleDot(name, i + 1 + k);
        assert rest[k] == name[i + 1 + k] && rest[k + 1] == name[i + 1 + k + 1];
      }
    }
    if Plain(rest) {
      forall k | 0 <= k < |name| - 1
        ensures !DoubleDot(name, k)
      {
        if k > i {
          assert !DoubleDot(rest, k - i - 1);
          assert rest[k - i - 1] == name[k] && rest[k - i - 1 + 1] == name[k + 1];
        } else if k == i {
          assert rest[0] == name[k + 1];
        }
      }
    }
  }

  /** The name read back is the name that was written, up to a trailing dot, if and only if the name
      has no empty label before its end; the root written as a single dot also survives. */
  lemma {:induction false} Survives(name: Name)
    ensures Join(Canon(name)) == StripDot(name) <==> Plain(name) || name == [DOT]
    ensures |Join(Canon(name))| <= |name|
  {
    var i := Dot(name);
    if i == 0 {
      LeadingDot(name);
    } else if i == |name| {
      assert StripDot(name) == name;
    } else {
      var head, rest := name[..i], name[i + 1..];
      PlainRest(name);
      Survives(rest);
      CanonCons(name, head, rest);
      SurvivesStep(head, rest, name, Canon(rest));
    }
  }

  lemma {:induction false} CanonCons(name: Name, head: Name, rest: Name)
    requires 0 < Dot(name) < |name| && head == name[..Dot(name)] && rest == name[Dot(name) + 1..]
    ensures Canon(name) == [head] + Canon(rest) && name == head + [DOT] + rest
  {
  }

  lemma {:induction false} SurvivesStep(head: Name, rest: Name, name: Name, c: seq<Name>)
    requires name == head + [DOT] + rest && c == Canon(rest) && |Join(c)| <= |rest|
    requires Join(c) == StripDot(rest) <==> Plain(rest) || rest == [DOT]
    ensures Join([head] + c) == StripDot(name) <==> Plain(rest)
    ensures |Join([head] + c)| <= |name|
  {
    if c == [] {
      assert [head] + c == [head];
      DottedSurvives(head, rest, name);
    } else {
      assert rest != [DOT];
      LongerSurvives(head, rest, name, Join(c));
      JoinCons(head, c);
    }
  }

  lemma {:induction false} LeadingDot(name: Name)
    requires Dot(name) == 0
    ensures StripDot(name) == [] <==> Plain(name) || name == [DOT]
  {
  }

  lemma {:induction false} JoinCons(head: Name, c: seq<Name>)
    requires c != []
    ensures Join([head] + c) == head + [DOT] + Join(c)
  {
    assert ([head] + c)[1..] == c;
  }

  lemma {:induction false} LongerSurvives(head: Name, rest: Name, name: Name, back: Name)
    requires name == head + [DOT] + rest && rest != []
    ensures head + [DOT] + back == StripDot(name) <==> back == StripDot(rest)
  {
    assert StripDot(name) == head + [DOT] + StripDot(rest);
    SamePrefix(head + [DOT], back, StripDot(rest));
  }

  lemma {:induction false} SamePrefix(p: Name, a: Name, b: Name)
    ensures p + a == p + b <==> a == b
  {
    if p + a == p + b {
      assert a == (p + a)[|p|..] == b;
    }
  }

  lemma {:induction false} DottedSurvives(head: Name, rest: Name, name: Name)
    requires name == head + [DOT] + rest && Canon(rest) == []
    ensures head == StripDot(name) <==> Plain(rest)
  {
    assert Dot(rest) == 0;
    if rest != [] {
      assert rest[0] == DOT;
      assert |StripDot(name)| > |head|;
    } else {
      assert StripDot(name) == head;
    }
  }

  /** A name without empty labels is never read short. */
  lemma {:induction false} PlainEnds(name: Name, table: seq<Entry>)
    requires Plain(name)
    ensures !StopsEarly(name, table)
    decreases |name|
  {
    var i := Dot(name);
    if 0 < i < |name| {
      PlainRest(name);
      PlainEnds(name[i + 1..], table);
    }
  }

  /** An empty label in the middle cuts the name: "a..b" is read back as "a". */
  lemma {:induction false} EmptyLabelCuts()
    ensures var a, b := 97, 98; Join(Canon([a, DOT, DOT, b])) == [a] && StopsEarly([a, DOT, DOT, b], [])
  {
    var name: Name := [97, DOT, DOT, 98];
    assert Dot(name[1..]) == 0 && Dot(name) == 1;
    assert name[2..] == [DOT, 98] && Dot(name[2..]) == 0;
    assert name[..1] == [97];
    assert Canon(name) == [[97]] + Canon(name[2..]);
  }
}
