/** The ARC4 stream of the random number generator. */
module Arc4 {
  import opened Basics
  import opened Counting

  /** No two places hold the same byte: with 256 places, every byte occurs once. */
  ghost predicate Permutation(s: seq<byte>) {
    |s| == 256 && forall a, b :: 0 <= a < b < 256 ==> s[a] != s[b]
  }

  /** The state with places a and b exchanged. */
  function Swapped(s: seq<byte>, a: nat, b: nat): seq<byte>
    requires a < |s| && b < |s|
  {
    s[a := s[b]][b := s[a]]
  }

  lemma {:induction false} SwappedRight(s: seq<byte>, a: nat, b: nat)
    requires Permutation(s) && a < 256 && b < 256
    ensures var t := Swapped(s, a, b);
            && Permutation(t) && t[a] == s[b] && t[b] == s[a]
            && forall k :: 0 <= k < 256 && k != a && k != b ==> t[k] == s[k]
  {
  }

  /** Every byte occurs in a permutation. */
  lemma {:induction false} EveryByte(s: seq<byte>, v: byte)
    requires Permutation(s)
    ensures v in s
  {
    if v !in s {
      Distinct(s, 256);
      Subset(Places(s, 256), Below(256) - {v});
    }
  }

  ghost function Places(s: seq<byte>, n: nat): set<nat>
    requires n <= |s|
  {
    set k | 0 <= k < n :: s[k] as nat
  }

  lemma {:induction false} Distinct(s: seq<byte>, n: nat)
    requires Permutation(s) && n <= 256
    ensures |Places(s, n)| == n
  {
    if n > 0 {
      Distinct(s, n - 1);
      assert Places(s, n) == Places(s, n - 1) + {s[n - 1]};
      assert s[n - 1] !in Places(s, n - 1);
    }
  }

  /** Add modulo 256, for less than one turn and a half. */
  function Wrap(x: nat): nat {
    if x < 256 then x else if x < 512 then x - 256 else 0
  }

  /** The state of the cipher. */
  datatype State = State(s: seq<byte>, i: nat, j: nat)

  /** One step of the key schedule. */
  function MixedOnce(st: State, d: byte): State
    requires |st.s| == 256
  {
    var i := (st.i + 1) % 256;
    var j := (st.j + st.s[i] + d) % 256;
    State(Swapped(st.s, i, j), i, j)
  }

  /** n steps, going round the data. */
  function Mixed(st: State, dat: seq<byte>, n: nat): (r: State)
    requires |st.s| == 256 && dat != []
    ensures |r.s| == 256
  {
    if n == 0 then st else MixedOnce(Mixed(st, dat, n - 1), dat[(n - 1) % |dat|])
  }

  /** Every step moves on by one place, adds the byte there and the next byte of the data, going round, and exchanges
      the two places. */
  lemma {:induction false} MixedRight(st: State, dat: seq<byte>, n: nat)
    requires |st.s| == 256 && dat != [] && n > 0 && st.i < 256
    ensures var was, now := Mixed(st, dat, n - 1), Mixed(st, dat, n);
            && now.i == (st.i + n) % 256 && now.j == (was.j + was.s[now.i] + dat[(n - 1) % |dat|]) % 256
            && now.s == Swapped(was.s, now.i, now.j)
  {
    MixedIndex(st, dat, n);
  }

  lemma {:induction false} MixedIndex(st: State, dat: seq<byte>, n: nat)
    requires |st.s| == 256 && dat != [] && st.i < 256
    ensures Mixed(st, dat, n).i == (st.i + n) % 256
  {
    if n > 0 {
      MixedIndex(st, dat, n - 1);
      NextMod(st.i + n - 1);
    }
  }

  lemma NextMod(x: nat)
    ensures (x % 256 + 1) % 256 == (x + 1) % 256
  {
  }

  class Stream {
    var i: nat
    var j: nat
    const s: array<byte>

    ghost predicate Valid()
      reads this, s
    {
      i < 256 && j < 256 && s.Length == 256 && Permutation(s[..])
    }

    /** The identity permutation. */
    constructor ()
      ensures Valid() && fresh(s) && i == 0 && j == 0 && forall k :: 0 <= k < 256 ==> s[k] == k
    {
      s := new byte[256](k requires 0 <= k < 256 => k);
      i, j := 0, 0;
    }

    method Swap(a: nat, b: nat)
      requires Valid() && a < 256 && b < 256
      modifies s
      ensures Valid() && s[..] == Swapped(old(s[..]), a, b)
    {
      SwappedRight(s[..], a, b);
      ghost var before := s[..];
      s[a], s[b] := s[b], s[a];
      assert s[..] == Swapped(before, a, b);
    }

    ghost function Now(): State
      reads this, s
    {
      State(s[..], i, j)
    }

    /** Mix data into the state: 256 steps, and then j is set to i. */
    method AddRandom(dat: seq<byte>)
      requires Valid() && dat != []
      modifies this, s
      ensures Valid()
      ensures var before := State(old(s[..]), (old(i) + 255) % 256, old(j));
              var after := Mixed(before, dat, 256);
              Now() == after.(j := after.i) && i == (old(i) + 255) % 256
    {
      i := (i + 255) % 256;
      ghost var start := Now();
      for n := 0 to 256
        invariant Valid() && Now() == Mixed(start, dat, n) && i == Wrap(start.i + n)
      {
        Mix(dat[n % |dat|]);
      }
      j := i;
    }

    /** One step of mixing. */
    method Mix(d: byte)
      requires Valid()
      modifies this, s
      ensures Valid() && i == (old(i) + 1) % 256 == Wrap(old(i) + 1) && j == (old(j) + old(s[..])[i] + d) % 256
      ensures s[..] == Swapped(old(s[..]), i, j) && Now() == MixedOnce(old(Now()), d)
    {
      i := (i + 1) % 256;
      j := (j + s[i] + d) % 256;
      Swap(i, j);
    }

    /** The next byte: two places are exchanged, and their sum picks the byte. */
    method GetByte() returns (r: byte)
      requires Valid()
      modifies this, s
      ensures Valid() && i == (old(i) + 1) % 256 && j == (old(j) + old(s[(i + 1) % 256])) % 256
      ensures s[..] == Swapped(old(s[..]), i, j) && r == s[(s[i] as int + s[j] as int) % 256]
    {
      i := (i + 1) % 256;
      j := (j + s[i]) % 256;
      Swap(i, j);
      r := s[(s[i] as int + s[j] as int) % 256];
    }
  }
}
