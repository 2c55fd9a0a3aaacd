/** The integers and tags of the tagged wire format: integers in nibbles, tags in groups of 7 bits. */
module TagCodec {
  import opened Basics

  type Nibble = x: int | 0 <= x < 16

  /** A number read from the front of some bytes, and how many bytes it took. */
  datatype Read = Read(number: nat, length: nat)

  function Pow16(k: nat): nat {
    if k == 0 then 1 else 16 * Pow16(k - 1)
  }

  // ----- integers

  /** The hexadecimal digits of a number, lowest first; none for 0. */
  function Digits(n: nat): seq<Nibble> {
    if n == 0 then [] else [n % 16] + Digits(n / 16)
  }

  /** What is written for a number: its digits, or one 0. */
  function Written(n: nat): seq<Nibble> {
    if n == 0 then [0] else Digits(n)
  }

  /** The value of digits, lowest first. */
  function Value(d: seq<Nibble>): nat {
    if d == [] then 0 else d[0] + 16 * Value(d[1..])
  }

  lemma {:induction false} ValueDigits(n: nat)
    ensures Value(Digits(n)) == n
  {
    if n > 0 {
      ValueDigits(n / 16);
      assert Digits(n)[1..] == Digits(n / 16);
    }
  }

  lemma {:induction false} ValueWritten(n: nat)
    ensures Value(Written(n)) == n && |Written(n)| > 0
  {
    ValueDigits(n);
    if n == 0 {
      assert Written(n)[1..] == [];
    }
  }

  lemma {:induction false} DigitsLength(n: nat, k: nat)
    requires n < Pow16(k)
    ensures |Digits(n)| <= k
  {
    if n > 0 {
      DigitsLength(n / 16, k - 1);
    }
  }

  lemma {:induction false} ValueBound(d: seq<Nibble>)
    ensures Value(d) < Pow16(|d|)
  {
    if d != [] {
      ValueBound(d[1..]);
    }
  }

  /** Nibble p of some bytes, high half first. */
  function NibbleAt(c: seq<byte>, p: nat): Nibble
    requires p / 2 < |c|
  {
    var b: int := c[p / 2];
    if p % 2 == 1 then b % 16 else b / 16
  }

  /** The nibbles 1 to k. */
  function NibblesOf(c: seq<byte>, k: nat): (d: seq<Nibble>)
    requires k / 2 < |c|
    ensures |d| == k && forall p :: 1 <= p <= k ==> d[p - 1] == NibbleAt(c, p)
  {
    if k == 0 then [] else NibblesOf(c, k - 1) + [NibbleAt(c, k)]
  }

  /** Bytes that hold the count of digits, less one, and then the digits, padded with 0. */
  ghost predicate Holds(c: seq<byte>, d: seq<Nibble>) {
    && |c| == |d| / 2 + 1 && |d| > 0
    && NibbleAt(c, 0) == |d| - 1
    && (forall p :: 1 <= p <= |d| ==> NibbleAt(c, p) == d[p - 1])
    && (|d| % 2 == 0 ==> NibbleAt(c, |d| + 1) == 0)
  }

  lemma {:induction false} HoldsUnique(c: seq<byte>, c': seq<byte>, d: seq<Nibble>)
    requires Holds(c, d) && Holds(c', d)
    ensures c == c'
  {
    forall i | 0 <= i < |c|
      ensures c[i] == c'[i]
    {
      SameHalf(c, c', d, 2 * i);
      SameHalf(c, c', d, 2 * i + 1);
      Halves(c, i);
      Halves(c', i);
    }
  }

  lemma {:induction false} SameHalf(c: seq<byte>, c': seq<byte>, d: seq<Nibble>, p: nat)
    requires Holds(c, d) && Holds(c', d) && p / 2 < |c|
    ensures NibbleAt(c, p) == NibbleAt(c', p)
  {
    assert p == 0 || (1 <= p <= |d|) || (p == |d| + 1 && |d| % 2 == 0);
  }

  lemma {:induction false} Halves(c: seq<byte>, i: nat)
    requires i < |c|
    ensures c[i] == NibbleAt(c, 2 * i) * 16 + NibbleAt(c, 2 * i + 1)
  {
    assert (2 * i) / 2 == i && (2 * i + 1) / 2 == i && (2 * i) % 2 == 0 && (2 * i + 1) % 2 == 1;
  }

  /** Nibble p of what is written for a number. */
  function WrittenAt(n: nat, p: nat): Nibble
    requires |Written(n)| <= 16
  {
    var d := Written(n);
    if p == 0 then (if |d| > 0 then |d| - 1 else 0) else if p <= |d| then d[p - 1] else 0
  }

  /** The bytes of a number. */
  function IntBytes(n: nat): (c: seq<byte>)
    requires |Written(n)| <= 16
    ensures |c| == |Written(n)| / 2 + 1
  {
    seq(|Written(n)| / 2 + 1, i requires 0 <= i => WrittenAt(n, 2 * i) * 16 + WrittenAt(n, 2 * i + 1))
  }

  lemma {:induction false} IntBytesHold(n: nat)
    requires |Written(n)| <= 16
    ensures Holds(IntBytes(n), Written(n))
  {
    var c := IntBytes(n);
    ValueWritten(n);
    forall p | 0 <= p && p / 2 < |c|
      ensures NibbleAt(c, p) == WrittenAt(n, p)
    {
      var i := p / 2;
      HalvesOf(WrittenAt(n, 2 * i), WrittenAt(n, 2 * i + 1), c[i]);
      assert p == if p % 2 == 1 then 2 * i + 1 else 2 * i;
    }
  }

  lemma HalvesOf(high: Nibble, low: Nibble, b: byte)
    requires b == high * 16 + low
    ensures b / 16 == high && b % 16 == low
  {
  }

  /** Dividing twice by 16 and a power of it. */
  lemma {:induction false} DivideTwice(n: nat, k: nat)
    ensures Pow16(k) > 0 && n / 16 / Pow16(k) == n / Pow16(k + 1)
  {
    PowPositive(k);
    DivDiv(n, Pow16(k));
  }

  lemma {:induction false} PowPositive(k: nat)
    ensures Pow16(k) > 0
  {
    if k > 0 {
      PowPositive(k - 1);
    }
  }

  lemma {:induction false} DivDiv(n: nat, b: nat)
    requires b > 0
    ensures n / 16 / b == n / (16 * b)
  {
    var q, part := n / 16 / b, n / 16 % b;
    assert n / 16 == b * q + part;
    assert 16 * (b * q) == (16 * b) * q;
    QuotientIs(n, 16 * b, q, 16 * part + n % 16);
  }

  lemma {:induction false} QuotientIs(n: nat, d: nat, q: nat, rest: nat)
    requires d > 0 && n == d * q + rest && rest < d
    ensures n / d == q
  {
    var e := n / d - q;
    assert d * e == rest - n % d by {
      assert d * (n / d) + n % d == d * q + rest;
      assert d * e == d * (n / d) - d * q;
    }
    Small(d, e);
  }

  lemma {:induction false} Small(d: nat, e: int)
    requires -1 * d < d * e < d
    ensures e == 0
  {
  }

  /** The digit at place k of a number. */
  function Place(n: nat, k: nat): Nibble {
    PowPositive(k);
    n / Pow16(k) % 16
  }

  /** Digit k of a number is what its k-th hexadecimal place holds, and there are as few of them as can be. */
  lemma {:induction false} DigitIs(n: nat, k: nat)
    ensures Pow16(k) > 0 && if k < |Digits(n)| then n / Pow16(k) > 0 else n / Pow16(k) == 0
    ensures k < |Digits(n)| ==> Digits(n)[k] == n / Pow16(k) % 16
  {
    PowPositive(k);
    if n > 0 && k > 0 {
      DivideTwice(n, k - 1);
      DigitIs(n / 16, k - 1);
    }
  }

  /** The layout of a number: the high half of the first byte is the count of its digits less one; then come the
      digits, the lowest in the low half of that byte, and each further byte holds two, the lower in its high half. */
  lemma {:induction false} IntFormat(n: nat, i: nat)
    requires |Written(n)| <= 16 && i < |IntBytes(n)|
    ensures |IntBytes(n)| == |Written(n)| / 2 + 1 && (n > 0 ==> Pow16(|Written(n)| - 1) <= n < Pow16(|Written(n)|))
    ensures IntBytes(n)[i] ==
            if i == 0 then (|Written(n)| - 1) * 16 + n % 16 else Place(n, 2 * i - 1) * 16 + Place(n, 2 * i)
  {
    ValueWritten(n);
    ValueBound(Written(n));
    if n > 0 {
      DigitIs(n, |Digits(n)| - 1);
      AtLeast(n, Pow16(|Digits(n)| - 1));
    }
    WrittenPlace(n, 2 * i);
    if i > 0 {
      WrittenPlace(n, 2 * i - 1);
    }
  }

  lemma AtLeast(n: nat, d: nat)
    requires d > 0 && n / d > 0
    ensures n >= d
  {
  }

  lemma {:induction false} WrittenPlace(n: nat, k: nat)
    requires |Written(n)| <= 16
    ensures WrittenAt(n, k + 1) == Place(n, k) && Place(n, 0) == n % 16
  {
    DigitIs(n, k);
    assert n / Pow16(0) == n by {
      assert Pow16(0) == 1;
    }
  }

  /** Numbers of 32 and 64 bits have few enough digits. */
  lemma {:induction false} WordDigits(n: nat)
    ensures n < 0x1_0000_0000 ==> 0 < |Written(n)| <= 8
    ensures n < 0x1_0000_0000_0000_0000 ==> 0 < |Written(n)| <= 16
  {
    Pow16Words();
    ValueWritten(n);
    if n < 0x1_0000_0000 {
      DigitsLength(n, 8);
    }
    if n < 0x1_0000_0000_0000_0000 {
      DigitsLength(n, 16);
    }
  }

  /** Put a nibble in its place. */
  function Poke(b: byte, p: nat, v: Nibble): byte {
    var x: int := b;
    if p % 2 == 1 then x / 16 * 16 + v else x % 16 + v * 16
  }

  /** The other half of the byte stays. */
  lemma {:induction false} PokeByte(b: byte, p: nat, v: Nibble)
    ensures var b' := Poke(b, p, v);
            && (p % 2 == 1 ==> b' % 16 == v && b' / 16 == b / 16)
            && (p % 2 == 0 ==> b' / 16 == v && b' % 16 == b % 16)
  {
    if p % 2 == 1 {
      HalvesOf(b / 16, v, Poke(b, p, v));
    } else {
      HalvesOf(v, b % 16, Poke(b, p, v));
    }
  }

  lemma {:induction false} PokeRight(c: seq<byte>, p: nat, v: Nibble, q: nat)
    requires p / 2 < |c| && q / 2 < |c|
    ensures NibbleAt(c[p / 2 := Poke(c[p / 2], p, v)], q) == if q == p then v else NibbleAt(c, q)
  {
    var b, b' := c[p / 2], Poke(c[p / 2], p, v);
    PokeByte(b, p, v);
    if p / 2 == q / 2 && p % 2 == q % 2 {
      assert p == p / 2 * 2 + p % 2 && q == q / 2 * 2 + q % 2;
    }
  }

  /** Write a number of at most max digits; 8 for 32 bits, 16 for 64 bits. */
  method EncodeInt(number0: nat, max: nat) returns (c: seq<byte>)
    requires max <= 16 && max % 2 == 0 && |Digits(number0)| <= max && max > 0
    ensures c == IntBytes(number0)
  {
    var number := number0;
    var data := new byte[max / 2 + 1](_ => 0);
    var off: nat := 1;
    ghost var done: seq<Nibble> := [];
    assert done + Digits(number) == Digits(number0);
    while number > 0
      invariant off == |done| + 1 && done + Digits(number) == Digits(number0)
      invariant HoldsDigits(data[..], done)
      decreases number
    {
      DigitsStep(done, number);
      PokeIn(data, off, number % 16);
      MoreDigits(data[..], done, number % 16, off);
      done := done + [number % 16];
      number := number / 16;
      off := off + 1;
    }
    assert done + Digits(0) == done;
    var nibbles := if off > 2 then off - 2 else 0;
    PokeIn(data, 0, nibbles);
    c := data[..(off + 1) / 2];
    Prefix(data[..], c, number0, nibbles);
    IntBytesHold(number0);
    HoldsUnique(c, IntBytes(number0), Written(number0));
  }

  /** The nibbles from 1 on are the digits, and all others are 0. */
  ghost predicate HoldsDigits(c: seq<byte>, done: seq<Nibble>) {
    forall p {:trigger NibbleAt(c, p)} :: 0 <= p && p / 2 < |c| ==>
        NibbleAt(c, p) == if 1 <= p <= |done| then done[p - 1] else 0
  }

  lemma {:induction false} DigitsStep(done: seq<Nibble>, number: nat)
    requires number > 0
    ensures done + Digits(number) == (done + [number % 16]) + Digits(number / 16)
    ensures |Digits(number)| > 0
  {
    assert done + ([number % 16] + Digits(number / 16)) == (done + [number % 16]) + Digits(number / 16);
  }

  lemma {:induction false} MoreDigits(c: seq<byte>, done: seq<Nibble>, v: Nibble, off: nat)
    requires off == |done| + 1
    requires forall p {:trigger NibbleAt(c, p)} :: 0 <= p && p / 2 < |c| ==>
               NibbleAt(c, p) == if p == off then v else if 1 <= p <= |done| then done[p - 1] else 0
    ensures HoldsDigits(c, done + [v])
  {
  }

  method PokeIn(data: array<byte>, p: nat, v: Nibble)
    requires p / 2 < data.Length
    modifies data
    ensures forall q {:trigger NibbleAt(data[..], q)} :: 0 <= q / 2 < data.Length && q >= 0 ==>
              NibbleAt(data[..], q) == if q == p then v else NibbleAt(old(data[..]), q)
  {
    ghost var before := data[..];
    data[p / 2] := Poke(data[p / 2], p, v);
    assert data[..] == before[p / 2 := Poke(before[p / 2], p, v)];
    forall q | 0 <= q / 2 < data.Length && q >= 0
      ensures NibbleAt(data[..], q) == if q == p then v else NibbleAt(before, q)
    {
      PokeRight(before, p, v, q);
    }
  }

  lemma {:induction false} Prefix(data: seq<byte>, c: seq<byte>, n: nat, nibbles: nat)
    requires |Written(n)| / 2 + 1 <= |data| && c == data[..|Written(n)| / 2 + 1] && nibbles == |Written(n)| - 1
    requires NibbleAt(data, 0) == nibbles
    requires forall p {:trigger NibbleAt(data, p)} :: 1 <= p && p / 2 < |data| ==>
               NibbleAt(data, p) == if p <= |Written(n)| then Written(n)[p - 1] else 0
    ensures Holds(c, Written(n))
  {
    forall p | 0 <= p && p / 2 < |c|
      ensures NibbleAt(c, p) == NibbleAt(data, p)
    {
    }
  }

  /** Read a number of at most max digits. */
  function DecodeSpec(c: seq<byte>, max: nat): (r: Option<Read>)
    ensures r.Some? ==> 0 < r.value.length <= |c|
  {
    if c == [] then None
    else
      var k := NibbleAt(c, 0) + 1;
      if k > max || k / 2 + 1 > |c| then None else Some(Read(Value(NibblesOf(c, k)), k / 2 + 1))
  }

  lemma {:induction false} ValueStep(d: seq<Nibble>, n: nat)
    requires 0 < n <= |d|
    ensures Value(d[n - 1..]) == Value(d[n..]) * 16 + d[n - 1]
  {
    assert d[n - 1..][1..] == d[n..];
  }

  method DecodeInt(c: seq<byte>, max: nat) returns (r: Option<Read>)
    ensures r == DecodeSpec(c, max)
  {
    if |c| == 0 {
      return None;
    }
    var nibbles: nat := NibbleAt(c, 0) + 1;
    if nibbles > max || nibbles / 2 + 1 > |c| {
      return None;
    }
    var len := nibbles / 2 + 1;
    var number: nat := 0;
    ghost var all := NibblesOf(c, nibbles);
    ghost var k := nibbles;
    while nibbles > 0
      invariant 0 <= nibbles <= k && number == Value(all[nibbles..])
    {
      ValueStep(all, nibbles);
      number := number * 16 + NibbleAt(c, nibbles);
      nibbles := nibbles - 1;
    }
    assert all[0..] == all;
    return Some(Read(number, len));
  }

  /** Reading undoes writing, and does not look at what follows. */
  lemma {:induction false} IntRoundTrip(n: nat, rest: seq<byte>, max: nat)
    requires |Written(n)| <= max <= 16
    ensures DecodeSpec(IntBytes(n) + rest, max) == Some(Read(n, |IntBytes(n)|))
  {
    IntBytesHold(n);
    ValueWritten(n);
    HeldIsRead(IntBytes(n), Written(n), IntBytes(n) + rest, max);
  }

  lemma {:induction false} HeldIsRead(c: seq<byte>, d: seq<Nibble>, all: seq<byte>, max: nat)
    requires Holds(c, d) && |d| <= max && c <= all
    ensures DecodeSpec(all, max) == Some(Read(Value(d), |c|))
  {
    assert NibbleAt(all, 0) == NibbleAt(c, 0);
    var got := NibblesOf(all, |d|);
    forall i | 0 <= i < |d|
      ensures got[i] == d[i]
    {
      var p := i + 1;
      assert got[p - 1] == NibbleAt(all, p) && NibbleAt(c, p) == d[p - 1];
      assert all[p / 2] == c[p / 2];
    }
    assert got == d;
  }

  /** What is read is read from its own bytes alone: a number is there in a prefix exactly if it ends in it. */
  lemma {:induction false} ReadInPrefix(c: seq<byte>, len: nat, max: nat)
    requires len <= |c|
    ensures DecodeSpec(c[..len], max) ==
            if DecodeSpec(c, max).Some? && DecodeSpec(c, max).value.length <= len then DecodeSpec(c, max) else None
  {
    if c != [] && len > 0 {
      var k := NibbleAt(c, 0) + 1;
      assert NibbleAt(c[..len], 0) == NibbleAt(c, 0);
      if k / 2 + 1 <= len {
        var d, d' := NibblesOf(c[..len], k), NibblesOf(c, k);
        forall i | 0 <= i < k
          ensures d[i] == d'[i]
        {
          var p := i + 1;
          assert d[p - 1] == NibbleAt(c[..len], p) && d'[p - 1] == NibbleAt(c, p);
          assert c[..len][p / 2] == c[p / 2];
        }
        assert d == d';
      }
    }
  }

  /** No number that is read is too big for its word. */
  lemma {:induction false} DecodedFits(c: seq<byte>, max: nat)
    requires DecodeSpec(c, max).Some?
    ensures DecodeSpec(c, max).value.number < Pow16(max)
  {
    var k := NibbleAt(c, 0) + 1;
    ValueBound(NibblesOf(c, k));
    PowMono(k, max);
  }

  lemma {:induction false} ValuePlace(d: seq<Nibble>, k: nat)
    requires k < |d|
    ensures Place(Value(d), k) == d[k]
  {
    if k == 0 {
      assert Pow16(0) == 1;
      assert Value(d) / 1 == Value(d);
    } else {
      DivideTwice(Value(d), k - 1);
      ValuePlace(d[1..], k - 1);
      assert Value(d) / 16 == Value(d[1..]);
    }
  }

  /** The number that is read has exactly the digits in the bytes, and the reader fails exactly when the count is too
      big for the word or more than there is. */
  lemma {:induction false} DecodedRight(c: seq<byte>, max: nat, p: nat)
    ensures DecodeSpec(c, max).Some? <==> c != [] && c[0] / 16 < max && (c[0] / 16 + 1) / 2 < |c|
    ensures DecodeSpec(c, max).Some? ==>
              var Read(n, used) := DecodeSpec(c, max).value;
              && used == (c[0] / 16 + 1) / 2 + 1 && n < Pow16(c[0] / 16 + 1)
              && (p <= c[0] / 16 ==> Place(n, p) == if p % 2 == 0 then c[p / 2] % 16 else c[p / 2 + 1] / 16)
  {
    if DecodeSpec(c, max).Some? {
      var d := NibblesOf(c, NibbleAt(c, 0) + 1);
      ValueBound(d);
      if p < |d| {
        ValuePlace(d, p);
        assert d[p] == NibbleAt(c, p + 1);
      }
    }
  }

  lemma {:induction false} PowMono(a: nat, b: nat)
    requires a <= b
    ensures Pow16(a) <= Pow16(b)
  {
    if a < b {
      PowMono(a, b - 1);
    }
  }

  lemma Pow16Words()
    ensures Pow16(8) == 0x1_0000_0000 && Pow16(16) == 0x1_0000_0000_0000_0000
  {
    assert Pow16(4) == 0x1_0000;
    assert Pow16(8) == 0x1_0000_0000;
    assert Pow16(12) == 0x1_0000_0000_0000;
  }

  // ----- tags

  /** A tag in groups of 7 bits, lowest first; the high bit says that more follow. */
  function TagBytes(tag: nat): (c: seq<byte>)
    ensures |c| > 0
  {
    if tag < 128 then [tag] else [tag % 128 + 128] + TagBytes(tag / 128)
  }

  lemma AssocBytes(a: seq<byte>, b: seq<byte>, c: seq<byte>)
    ensures a + (b + c) == (a + b) + c
  {
  }

  method EncodeTag(tag0: nat) returns (c: seq<byte>)
    ensures c == TagBytes(tag0)
  {
    var tag := tag0;
    c := [];
    while true
      invariant c + TagBytes(tag) == TagBytes(tag0)
      decreases tag
    {
      var lower := tag % 128;
      TagStep(c, tag);
      c := c + [if tag / 128 > 0 then lower + 128 else lower];
      if tag / 128 == 0 {
        break;
      }
      tag := tag / 128;
    }
  }

  lemma {:induction false} TagStep(c: seq<byte>, tag: nat)
    ensures tag < 128 ==> c + TagBytes(tag) == c + [tag]
    ensures tag >= 128 ==> c + TagBytes(tag) == (c + [tag % 128 + 128]) + TagBytes(tag / 128)
  {
    if tag >= 128 {
      AssocBytes(c, [tag % 128 + 128], TagBytes(tag / 128));
    }
  }

  /** The tag that starts at place i of some bytes, in units of 128^i: at most 5 bytes and 32 bits. */
  function TagSpec(c: seq<byte>, i: nat): (r: Option<Read>)
    ensures r.Some? ==> i < r.value.length <= |c|
    decreases |c| - i
  {
    if i >= |c| || i > 4 || (i == 4 && c[i] % 128 > 15) then None
    else if c[i] < 128 then Some(Read(c[i], i + 1))
    else
      match TagSpec(c, i + 1)
      case None => None
      case Some(r) => Some(Read(c[i] - 128 + 128 * r.number, r.length))
  }

  /** The number so far, in units of scale, and then the rest. */
  ghost function Shifted(number: nat, scale: nat, r: Option<Read>): Option<Read> {
    match r
    case None => None
    case Some(x) => Some(Read(number + scale * x.number, x.length))
  }

  /** Read a tag, shifting 7 bits at a time into place. */
  method DecodeTag(c: seq<byte>) returns (r: Option<Read>)
    ensures r == TagSpec(c, 0)
  {
    var number: nat, count: nat, scale: nat := 0, 0, 1;
    while count < |c|
      invariant count <= |c|
      invariant TagSpec(c, 0) == Shifted(number, scale, TagSpec(c, count))
    {
      var lower: int := c[count];
      if count >= 4 {
        if count > 4 {
          return None;
        }
        if lower % 128 > 15 {
          return None;
        }
      }
      ghost var rest := TagSpec(c, count + 1);
      if lower < 128 {
        return Some(Read(number + scale * lower, count + 1));
      }
      ShiftMore(number, scale, lower - 128, rest);
      number := number + scale * (lower - 128);
      scale := scale * 128;
      count := count + 1;
    }
    return None;
  }

  lemma {:induction false} ShiftMore(number: nat, scale: nat, v: nat, rest: Option<Read>)
    ensures Shifted(number, scale, Shifted(v, 128, rest)) == Shifted(number + scale * v, scale * 128, rest)
  {
    if rest.Some? {
      var x := rest.value.number;
      assert scale * (v + 128 * x) == scale * v + scale * 128 * x;
    }
  }

  /** Reading a tag of 32 bits undoes writing it, and does not look at what follows. */
  lemma {:induction false} TagRoundTrip(tag: nat, rest: seq<byte>)
    requires tag < 0x1_0000_0000
    ensures TagSpec(TagBytes(tag) + rest, 0) == Some(Read(tag, |TagBytes(tag)|))
  {
    TagRoundTripAt([], tag, rest, 0x1_0000_0000);
    assert [] + TagBytes(tag) + rest == TagBytes(tag) + rest;
  }

  /** What the low 7 bits of some bytes say, the lowest group first. */
  function Groups(c: seq<byte>): nat {
    if c == [] then 0 else c[0] % 128 + 128 * Groups(c[1..])
  }

  /** The layout of a tag: its 7-bit groups, as few as can be, with the high bit set in all bytes but the last. */
  lemma {:induction false} TagFormat(tag: nat)
    ensures var c := TagBytes(tag);
            && Groups(c) == tag && (|c| > 1 ==> c[|c| - 1] > 0)
            && forall i :: 0 <= i < |c| ==> (c[i] >= 128 <==> i + 1 < |c|)
  {
    if tag >= 128 {
      TagFormat(tag / 128);
      assert TagBytes(tag)[1..] == TagBytes(tag / 128);
    }
  }

  /** The first byte without the high bit ends the tag. The reader takes it exactly if it is among the first five and
      the fifth leaves the number within 32 bits. */
  lemma {:induction false} TagRight(c: seq<byte>, n: nat)
    requires n <= |c| && (forall i :: 0 <= i < n ==> c[i] >= 128) && (n < |c| ==> c[n] < 128)
    ensures TagSpec(c, 0) == if n < |c| && (n < 4 || (n == 4 && c[n] < 16)) then Some(Read(Groups(c[..n + 1]), n + 1))
                             else None
    ensures TagSpec(c, 0).Some? ==> TagSpec(c, 0).value.number < 0x1_0000_0000
  {
    TagRightAt(c, n, 0, 0x1_0000_0000);
    if n < |c| {
      assert c[0..n + 1] == c[..n + 1];
    }
  }

  lemma {:induction false} TagRightAt(c: seq<byte>, n: nat, i: nat, bound: nat)
    requires i <= n <= |c| && (forall j :: 0 <= j < n ==> c[j] >= 128) && (n < |c| ==> c[n] < 128)
    requires bound == match i
                      case 0 => 0x1_0000_0000
                      case 1 => 0x200_0000
                      case 2 => 0x4_0000
                      case 3 => 0x800
                      case _ => 16
    ensures TagSpec(c, i) == if n < |c| && (n < 4 || (n == 4 && c[n] < 16)) then Some(Read(Groups(c[i..n + 1]), n + 1))
                             else None
    ensures TagSpec(c, i).Some? ==> TagSpec(c, i).value.number < bound
    decreases n - i
  {
    if i < n && i < 4 {
      TagRightAt(c, n, i + 1, match i case 0 => 0x200_0000 case 1 => 0x4_0000 case 2 => 0x800 case _ => 16);
      if n < |c| {
        assert c[i..n + 1][1..] == c[i + 1..n + 1];
      }
    } else if i == n < |c| {
      assert c[n..n + 1] == [c[n]];
      assert c[n..n + 1][1..] == [];
    }
  }

  lemma {:induction false} TagRoundTripAt(before: seq<byte>, tag: nat, rest: seq<byte>, bound: nat)
    requires |before| <= 4 && tag < bound
    requires bound == match |before|
                      case 0 => 0x1_0000_0000
                      case 1 => 0x200_0000
                      case 2 => 0x4_0000
                      case 3 => 0x800
                      case _ => 16
    ensures TagSpec(before + TagBytes(tag) + rest, |before|) == Some(Read(tag, |before| + |TagBytes(tag)|))
    decreases tag
  {
    var c := before + TagBytes(tag) + rest;
    var i := |before|;
    assert c[i] == TagBytes(tag)[0];
    if tag >= 128 {
      var before1 := before + [tag % 128 + 128];
      assert c == before1 + TagBytes(tag / 128) + rest;
      var bound1 := match |before1| case 1 => 0x200_0000 case 2 => 0x4_0000 case 3 => 0x800 case _ => 16;
      TagRoundTripAt(before1, tag / 128, rest, bound1);
    }
  }
}
