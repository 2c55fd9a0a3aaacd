/** Writing the names of a DNS message in place, and reading them back. */
module DnsMessage {
  import opened Basics
  import opened DnsNames

  class LabelTable {
    var entries: seq<Entry>

    constructor ()
      ensures entries == []
    {
      entries := [];
    }

    /** The place of a suffix, or -1. */
    method GetPos(name: Name) returns (p: int)
      ensures p == match Find(entries, name) case None => -1 case Some(q) => q
    {
      for i := 0 to |entries|
        invariant forall k :: 0 <= k < i ==> entries[k].suffix != name
      {
        if entries[i].suffix == name {
          return entries[i].pos;
        }
      }
      return -1;
    }

    method Add(name: Name, pos: nat) returns (r: int)
      modifies this
      ensures entries == Remember(old(entries), name, pos)
      ensures if |old(entries)| == 128 then r == -1 && entries == old(entries)
              else r == 0 && entries == old(entries) + [Entry(name, pos)]
    {
      if |entries| == MAX_LABELS {
        return -1;
      }
      entries := entries + [Entry(name, pos)];
      return 0;
    }
  }

  /** Copy bytes into a buffer. */
  method Store(buf: array<byte>, j: nat, bytes: seq<byte>)
    requires j + |bytes| <= buf.Length
    modifies buf
    ensures buf[..j + |bytes|] == old(buf[..j]) + bytes
    ensures buf[j + |bytes|..] == old(buf[j + |bytes|..])
  {
    for k := 0 to |bytes|
      invariant buf[..j + k] == old(buf[..j]) + bytes[..k]
      invariant buf[j + k..] == old(buf[j + k..])
    {
      buf[j + k] := bytes[k];
      assert buf[..j + k + 1] == buf[..j + k] + [bytes[k]];
    }
    assert bytes[..|bytes|] == bytes;
  }

  function Code(e: Encoded): (r: int)
    ensures (e.LabelTooLong? <==> r == -1) && (e.NoRoom? <==> r == -2) && (e.Done? ==> r == |e.message|)
  {
    match e
    case LabelTooLong => -1
    case NoRoom => -2
    case Done(m, _) => |m|
  }

  datatype Wrote = Refused(code: int) | Reference | LastLabel | Label

  /** Write a reference to the whole of a name if it is in the table, or else its first label. */
  method WriteNext(buf: array<byte>, bufLen: nat, j: nat, name: Name, table: LabelTable)
      returns (did: Wrote, j': nat, rest: Name)
    requires bufLen <= buf.Length && bufLen <= 0x4000 && j <= buf.Length && Below(table.entries, bufLen)
    modifies buf, table
    ensures (did.Refused? || j' <= bufLen) && Below(table.entries, bufLen)
    ensures var all := Encode(old(buf[..j]), name, old(table.entries), bufLen);
            match did
            case Refused(code) => code < 0 && !all.Done? && code == Code(all)
            case Reference => all == Done(buf[..j'], table.entries)
            case LastLabel =>
              && |name| <= 63 && EndsWith(buf[..j'], Part(name, |name|))
              && all == Done(buf[..j'] + Closing(name), table.entries)
            case Label => SuffixOf(rest, name) && all == Encode(buf[..j'], rest, table.entries, bufLen)
  {
    j', rest := j, name;
    var ref := table.GetPos(name);
    if ref >= 0 {
      if j + 2 > bufLen {
        did := Refused(-2);
        return;
      }
      Store(buf, j, Pointer(ref));
      did, j' := Reference, j + 2;
      return;
    }
    var i := FindDot(name);
    if i > 63 {
      did := Refused(-1);
      return;
    }
    if j + i + 1 > bufLen {
      did := Refused(-2);
      return;
    }
    did, j', rest := WriteLabel(buf, bufLen, j, name, table, i);
  }

  /** Write the first label, of i bytes, and remember where the name is. */
  method WriteLabel(buf: array<byte>, bufLen: nat, j: nat, name: Name, table: LabelTable, i: nat)
      returns (did: Wrote, j': nat, rest: Name)
    requires bufLen <= buf.Length && bufLen <= 0x4000 && Below(table.entries, bufLen)
    requires Find(table.entries, name).None? && i == Dot(name) <= 63 && j + i + 1 <= bufLen
    modifies buf, table
    ensures j' <= bufLen && Below(table.entries, bufLen)
    ensures var all := Encode(old(buf[..j]), name, old(table.entries), bufLen);
            match did
            case LastLabel =>
              && |name| <= 63 && EndsWith(buf[..j'], Part(name, |name|))
              && all == Done(buf[..j'] + Closing(name), table.entries)
            case Label => SuffixOf(rest, name) && all == Encode(buf[..j'], rest, table.entries, bufLen)
            case _ => false
  {
    j' := j + i + 1;
    ghost var m, before := buf[..j], table.entries;
    var added := table.Add(name, j);
    Store(buf, j, Part(name, i));
    if i == |name| {
      did, rest := LastLabel, [];
      LastWritten(m, name, before, table.entries, bufLen, buf[..j']);
    } else {
      did, rest := Label, name[i + 1..];
      LabelWritten(m, name, before, table.entries, bufLen, buf[..j'], rest);
    }
  }

  lemma {:induction false} LastWritten(m: seq<byte>, name: Name, table: seq<Entry>, table1: seq<Entry>,
                                       bufLen: nat, m1: seq<byte>)
    requires bufLen <= 0x4000 && Below(table, bufLen) && Find(table, name).None? && Dot(name) == |name| <= 63
    requires |m| + |name| + 1 <= bufLen && table1 == Remember(table, name, |m|) && m1 == m + Part(name, |name|)
    ensures Below(table1, bufLen) && EndsWith(m1, Part(name, |name|))
    ensures Encode(m, name, table, bufLen) == Done(m1 + Closing(name), table1)
  {
  }

  /** Write a name at j0. The closing zero byte is written without a test for room: a buffer of exactly
      bufLen bytes will do unless the name overruns it. */
  method DnsNameToLabels(buf: array<byte>, bufLen: nat, j0: nat, name0: Name, table: LabelTable) returns (r: int)
    requires bufLen <= buf.Length && bufLen <= 0x4000 && j0 <= buf.Length && Below(table.entries, bufLen) && 0 !in name0
    requires bufLen == buf.Length && |name0| <= 255 ==> !Overruns(buf[..j0], name0, table.entries, bufLen)
    modifies buf, table
    ensures r == if |name0| > 255 then -2 else Code(Encode(old(buf[..j0]), name0, old(table.entries), bufLen))
    ensures r >= 0 ==>
              && r <= buf.Length
              && Encode(old(buf[..j0]), name0, old(table.entries), bufLen) == Done(buf[..r], table.entries)
  {
    if |name0| > 255 {
      return -2;
    }
    ghost var all := Encode(buf[..j0], name0, table.entries, bufLen);
    OverrunsExactly(buf[..j0], name0, table.entries, table.entries, bufLen);
    EncodeAccepts(buf[..j0], name0, table.entries, bufLen);
    assert all.Done? ==> |all.message| <= buf.Length;
    var name: Name, j: nat := name0, j0;
    while true
      invariant j <= buf.Length && Below(table.entries, bufLen) && 0 !in name
      invariant Encode(buf[..j], name, table.entries, bufLen) == all
      decreases |name|
    {
      var did, j', rest := WriteNext(buf, bufLen, j, name, table);
      match did
      case Refused(code) =>
        return code;
      case Reference =>
        return j';
      case LastLabel =>
        r := Close(buf, j', name);
        return;
      case Label =>
        j, name := j', rest;
    }
  }

  /** End the labels with a zero byte unless there is one already; a C string does not end in one. */
  method Close(buf: array<byte>, j: nat, ghost name: Name) returns (r: nat)
    requires j + |Closing(name)| <= buf.Length && |name| <= 63 && EndsWith(buf[..j], Part(name, |name|)) && 0 !in name
    modifies buf
    ensures j <= r <= buf.Length && buf[..r] == old(buf[..j]) + Closing(name)
  {
    assert buf[j - 1] == buf[..j][j - 1] == Part(name, |name|)[|name|];
    r := j;
    if j == 0 || buf[j - 1] != 0 {
      Store(buf, j, [0]);
      r := j + 1;
    } else {
      assert buf[..j] + [] == buf[..j];
    }
  }

  ghost predicate EndsWith(s: seq<byte>, t: seq<byte>) {
    |t| <= |s| && s[|s| - |t|..] == t
  }

  method FindDot(name: Name) returns (i: nat)
    ensures i == Dot(name)
  {
    i := 0;
    while i < |name| && name[i] != DOT
      invariant i <= |name| && forall k :: 0 <= k < i ==> name[k] != DOT
    {
      i := i + 1;
    }
  }

  // ----- whole messages

  /** A piece of a message: other fields, or a name. */
  datatype Item = Raw(bytes: seq<byte>) | Named(name: Name)

  datatype Written = Written(name: Name, start: nat, end: nat)

  function NamesOf(items: seq<Item>): (names: seq<Name>)
    ensures forall name :: name in names <==> Named(name) in items
  {
    if items == [] then []
    else
      var item := items[|items| - 1];
      NamesOf(items[..|items| - 1]) + if item.Named? then [item.name] else []
  }

  /** The most bytes that the pieces can take. */
  function Worst(items: seq<Item>): nat {
    if items == [] then 0
    else
      var item := items[|items| - 1];
      Worst(items[..|items| - 1]) + if item.Named? then |item.name| + 2 else |item.bytes|
  }

  lemma {:induction false} WorstOfPrefix(items: seq<Item>, k: nat)
    requires k <= |items|
    ensures Worst(items[..k]) <= Worst(items)
  {
    if k < |items| {
      WorstOfPrefix(items[..|items| - 1], k);
      assert items[..|items| - 1][..k] == items[..k];
    } else {
      assert items[..k] == items;
    }
  }

  /** Names of at most 255 bytes, with labels of at most 63. */
  predicate Lawful(name: Name) {
    |name| <= 255 && LabelsFit(name)
  }

  ghost predicate AllLawful(items: seq<Item>) {
    forall i :: 0 <= i < |items| ==> items[i].Named? ==> Lawful(items[i].name)
  }

  /** The name can be read at the place where it was written, and unless it has empty labels the
      reading ends where the writing ended. */
  ghost predicate InMessage(m: seq<byte>, x: Written) {
    && StrictLabels(m, x.start, x.start) == Some(Canon(x.name)) && x.start <= |m|
    && (Plain(x.name) ==> EndAt(m, x.start) == x.end)
  }

  ghost predicate AllInMessage(m: seq<byte>, names: seq<Name>, log: seq<Written>) {
    |log| == |names| && forall i :: 0 <= i < |log| ==> log[i].name == names[i] && InMessage(m, log[i])
  }

  /** Later writes do not disturb earlier names. */
  lemma {:induction false} StaysInMessage(m: seq<byte>, names: seq<Name>, log: seq<Written>, x: seq<byte>,
                                          m': seq<byte>)
    requires AllInMessage(m, names, log) && m' == m + x
    ensures AllInMessage(m', names, log)
  {
    forall i | 0 <= i < |log|
      ensures InMessage(m', log[i])
    {
      StrictMore(m, log[i].start, log[i].start, x, log[i].start);
    }
  }

  lemma {:induction false} StaysInTable(m: seq<byte>, table: seq<Entry>, x: seq<byte>, m': seq<byte>)
    requires TableOk(m, table) && Below(table, |m|) && m' == m + x
    ensures TableOk(m', table) && Below(table, |m'|)
  {
    forall e | e in table
      ensures EntryOk(m', e)
    {
      StrictMore(m, e.pos, e.pos, x, e.pos);
    }
  }

  /** Does some name overrun the buffer when the pieces are written in turn? */
  ghost predicate BuildOverruns(m: seq<byte>, items: seq<Item>, table: seq<Entry>, bufLen: nat)
    requires bufLen <= 0x4000 && Below(table, bufLen)
    decreases |items|
  {
    items != [] &&
    match items[0]
    case Raw(bytes) => |m| + |bytes| <= bufLen && BuildOverruns(m + bytes, items[1..], table, bufLen)
    case Named(name) =>
      |name| <= 255 &&
      (|| Overruns(m, name, table, bufLen)
       || (EncodeAccepts(m, name, table, bufLen);
           match Encode(m, name, table, bufLen)
           case Done(m', table') => BuildOverruns(m', items[1..], table', bufLen)
           case _ => false))
  }

  lemma {:induction false} WorstHead(items: seq<Item>)
    requires items != []
    ensures Worst(items) == Worst(items[..1]) + Worst(items[1..])
  {
    if |items| > 1 {
      var front := items[..|items| - 1];
      WorstHead(front);
      assert front[..1] == items[..1] && front[1..] == items[1..][..|items| - 2];
    } else {
      assert items[..1] == items;
    }
  }

  /** No name overruns if there is room for the most that the pieces can take. */
  lemma {:induction false} RoomForWorst(m: seq<byte>, items: seq<Item>, table: seq<Entry>, bufLen: nat)
    requires bufLen <= 0x4000 && Below(table, bufLen) && |m| + Worst(items) <= bufLen
    ensures !BuildOverruns(m, items, table, bufLen)
    decreases |items|
  {
    if items != [] {
      WorstHead(items);
      assert items[..1][..0] == [] && items[..1][0] == items[0];
      match items[0]
      case Raw(bytes) => RoomForWorst(m + bytes, items[1..], table, bufLen);
      case Named(name) =>
        EncodeAccepts(m, name, table, bufLen);
        var e := Encode(m, name, table, bufLen);
        if e.Done? {
          RoomForWorst(e.message, items[1..], e.table, bufLen);
        }
    }
  }

  /** Write the pieces of a message one after the other, names through one shared table. */
  method BuildMessage(buf: array<byte>, bufLen: nat, items: seq<Item>) returns (ok: bool, len: nat, log: seq<Written>)
    requires bufLen <= buf.Length && bufLen <= 0x4000
    requires forall i :: 0 <= i < |items| ==> items[i].Named? ==> 0 !in items[i].name
    requires bufLen == buf.Length ==> !BuildOverruns([], items, [], bufLen)
    modifies buf
    ensures ok ==> len <= buf.Length && AllInMessage(buf[..len], NamesOf(items), log)
    ensures AllLawful(items) && Worst(items) <= bufLen ==> ok
  {
    var table := new LabelTable();
    len, log := 0, [];
    for k := 0 to |items|
      invariant fresh(table) && len <= buf.Length && len <= Worst(items[..k])
      invariant TableOk(buf[..len], table.entries) && Below(table.entries, len) && Below(table.entries, bufLen)
      invariant AllInMessage(buf[..len], NamesOf(items[..k]), log)
      invariant bufLen == buf.Length ==> !BuildOverruns(buf[..len], items[k..], table.entries, bufLen)
    {
      assert items[..k + 1][..k] == items[..k];
      assert items[k..][0] == items[k] && items[k..][1..] == items[k + 1..];
      WorstOfPrefix(items, k + 1);
      match items[k]
      case Raw(bytes) =>
        if len + |bytes| > bufLen {
          return false, len, log;
        }
        len := AppendRaw(buf, len, bytes, table, NamesOf(items[..k]), log);
      case Named(name) =>
        var end := AppendName(buf, bufLen, len, name, table, NamesOf(items[..k]), log);
        if end < 0 {
          return false, len, log;
        }
        log := log + [Written(name, len, end)];
        len := end;
    }
    assert items[..|items|] == items;
    ok := true;
  }

  method AppendRaw(buf: array<byte>, len: nat, bytes: seq<byte>, table: LabelTable, ghost names: seq<Name>,
                   ghost log: seq<Written>)
      returns (len': nat)
    requires len + |bytes| <= buf.Length && AllInMessage(buf[..len], names, log)
    requires TableOk(buf[..len], table.entries) && Below(table.entries, len)
    modifies buf
    ensures len' == len + |bytes| && buf[..len'] == old(buf[..len]) + bytes
    ensures AllInMessage(buf[..len'], names + [], log)
    ensures TableOk(buf[..len'], table.entries) && Below(table.entries, len')
  {
    ghost var m := buf[..len];
    Store(buf, len, bytes);
    len' := len + |bytes|;
    StaysInMessage(m, names, log, bytes, buf[..len']);
    StaysInTable(m, table.entries, bytes, buf[..len']);
    assert names + [] == names;
  }

  method AppendName(buf: array<byte>, bufLen: nat, len: nat, name: Name, table: LabelTable, ghost names: seq<Name>,
                    ghost log: seq<Written>)
      returns (end: int)
    requires bufLen <= buf.Length && bufLen <= 0x4000 && len <= buf.Length && 0 !in name
    requires AllInMessage(buf[..len], names, log)
    requires Below(table.entries, bufLen)
    requires (bufLen == buf.Length && |name| <= 255 ==> !Overruns(buf[..len], name, table.entries, bufLen))
    requires TableOk(buf[..len], table.entries) && Below(table.entries, len) && Below(table.entries, bufLen)
    modifies buf, table
    ensures end >= 0 ==>
              |name| <= 255 && end <= buf.Length
              && Encode(old(buf[..len]), name, old(table.entries), bufLen) == Done(buf[..end], table.entries)
    ensures end < 0 ==> !Lawful(name) || len + |name| + 2 > bufLen
    ensures end >= 0 ==> len <= end <= buf.Length && end <= len + |name| + 2
    ensures end >= 0 ==> AllInMessage(buf[..end], names + [name], log + [Written(name, len, end)])
    ensures end >= 0 ==> TableOk(buf[..end], table.entries) && Below(table.entries, end) && Below(table.entries, bufLen)
  {
    ghost var m, table0 := buf[..len], table.entries;
    end := DnsNameToLabels(buf, bufLen, len, name, table);
    EncodeAccepts(m, name, table0, bufLen);
    if end >= 0 {
      EncodeRight(m, name, table0, bufLen, buf[..end], table.entries);
      StaysInMessage(m, names, log, buf[..end][len..], buf[..end]);
      if Plain(name) {
        PlainEnds(name, table0);
      }
    }
  }

  /** What reading a written name gives: the name itself up to a trailing dot if and only if it has no
      empty label before its end, and then reading ends where writing ended. */
  ghost predicate ReadBack(x: Written, r: Parsed, outLen: nat) {
    |x.name| < outLen ==>
      && r.Good? && r.name == Join(Canon(x.name))
      && (r.name == StripDot(x.name) <==> Plain(x.name) || x.name == [DOT])
      && (Plain(x.name) ==> r == Good(StripDot(x.name), x.end))
  }

  lemma {:induction false} InMessageReads(m: seq<byte>, x: Written)
    requires InMessage(m, x)
    ensures ReadLabels(m, x.start, |m|) == Some(Canon(x.name))
  {
    StrictIsRead(m, x.start, x.start);
    ReadMore(m, x.start, x.start, [], |m|);
    assert m + [] == m;
  }

  method ReadAll(m: seq<byte>, ghost names: seq<Name>, log: seq<Written>, outLen: nat) returns (parsed: seq<Parsed>)
    requires AllInMessage(m, names, log)
    ensures |parsed| == |log| && forall i :: 0 <= i < |log| ==> ReadBack(log[i], parsed[i], outLen)
  {
    parsed := [];
    for i := 0 to |log|
      invariant |parsed| == i && forall k :: 0 <= k < i ==> ReadBack(log[k], parsed[k], outLen)
    {
      var r := NameParse(m, log[i].start, outLen);
      Survives(log[i].name);
      InMessageReads(m, log[i]);
      parsed := parsed + [r];
    }
  }

  /** Every name written through the table is read back after the whole message has been written. */
  method RoundTrip(buf: array<byte>, bufLen: nat, items: seq<Item>, outLen: nat)
      returns (ok: bool, log: seq<Written>, parsed: seq<Parsed>)
    requires bufLen <= buf.Length && bufLen <= 0x4000
    requires forall i :: 0 <= i < |items| ==> items[i].Named? ==> 0 !in items[i].name
    requires bufLen == buf.Length ==> !BuildOverruns([], items, [], bufLen)
    modifies buf
    ensures AllLawful(items) && Worst(items) <= bufLen ==> ok
    ensures ok ==> |parsed| == |log| == |NamesOf(items)|
    ensures ok ==> forall i :: 0 <= i < |log| ==>
              log[i].name == NamesOf(items)[i] && ReadBack(log[i], parsed[i], outLen)
  {
    var len;
    ok, len, log := BuildMessage(buf, bufLen, items);
    parsed := [];
    if ok {
      parsed := ReadAll(buf[..len], NamesOf(items), log, outLen);
    }
  }
}
