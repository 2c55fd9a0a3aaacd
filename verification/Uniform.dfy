/** An unbiased draw below a bound, in 32-bit arithmetic. */
module Uniform {
  import opened Basics

  const WORDS: nat := 0x1_0000_0000

  /** The words below this are drawn again. */
  function Min(bound: nat): nat
    requires 2 <= bound < WORDS
  {
    if bound > 0x8000_0000 then 1 + (WORDS - 1 - bound)
    else ((0xffff_ffff - bound * 2 % WORDS) + 1) % WORDS % bound
  }

  lemma {:induction false} MinIsRemainder(bound: nat)
    requires 2 <= bound < WORDS
    ensures Min(bound) == WORDS % bound
  {
    if bound > 0x8000_0000 {
      ModIs(WORDS, bound, 1, WORDS - bound);
    } else if bound < 0x8000_0000 {
      NoWrap(bound);
      TwiceLess(bound, WORDS - bound * 2);
    }
  }

  lemma NoWrap(bound: nat)
    requires 2 <= bound < 0x8000_0000
    ensures bound * 2 % WORDS == bound * 2 && (0xffff_ffff - bound * 2 + 1) % WORDS == WORDS - bound * 2
  {
  }

  /** Taking the bound away twice does not change the remainder. */
  lemma {:induction false} TwiceLess(n: nat, x: nat)
    requires n > 0
    ensures (x + n * 2) % n == x % n
  {
    var q, r := x / n, x % n;
    TwoMore(n, q);
    ModIs(x + n * 2, n, q + 2, r);
  }

  lemma TwoMore(n: nat, q: nat)
    ensures n * (q + 2) == n * q + n * 2
  {
  }

  lemma {:induction false} ModIs(x: nat, n: nat, q: nat, r: nat)
    requires n > 0 && x == n * q + r && r < n
    ensures x % n == r && x / n == q
  {
    var q', r' := x / n, x % n;
    assert n * q' + r' == n * q + r;
    if q' < q {
      Step(n, q', q);
    } else if q < q' {
      Step(n, q, q');
    }
  }

  lemma Step(n: nat, a: nat, b: nat)
    requires a < b
    ensures n * a + n <= n * b
  {
    MulMono(n, a + 1, b);
  }

  /** The words that are accepted and give a residue. */
  ghost function Accepted(bound: nat, residue: nat): set<int>
    requires 2 <= bound < WORDS
  {
    set w: int | Min(bound) <= w < WORDS && w % bound == residue
  }

  ghost function Hits(from: int, to: int, n: nat, r: nat): set<int>
    requires n > 0
  {
    set w: int | from <= w < to && w % n == r
  }

  /** Among n numbers in a row exactly one has a given remainder. */
  lemma {:induction false} OneHit(from: int, n: nat, r: nat) returns (x: int)
    requires n > 0 && r < n
    ensures from <= x < from + n && x % n == r
    ensures forall w: int :: from <= w < from + n && w % n == r ==> w == x
  {
    var f := from % n;
    var q := from / n;
    assert from == n * q + f;
    x := if r >= f then n * q + r else n * (q + 1) + r;
    assert n * (q + 1) == n * q + n;
    Remainder(x, n, if r >= f then q else q + 1, r);
    forall w: int | from <= w < from + n && w % n == r
      ensures w == x
    {
      Close(w, x, n);
    }
  }

  lemma {:induction false} Remainder(x: int, n: nat, q: int, r: nat)
    requires n > 0 && x == n * q + r && r < n
    ensures x % n == r
  {
    var q', r' := x / n, x % n;
    assert x == n * q' + r';
    assert n * (q' - q) == r - r';
    Small(n, q' - q, r - r');
  }

  /** Two numbers with the same remainder that are less than n apart are equal. */
  lemma {:induction false} Close(a: int, b: int, n: nat)
    requires n > 0 && a % n == b % n && 0 - n < a - b < n
    ensures a == b
  {
    assert a == n * (a / n) + a % n && b == n * (b / n) + b % n;
    assert n * (a / n - b / n) == a - b;
    Small(n, a / n - b / n, a - b);
  }

  lemma {:induction false} Small(n: nat, k: int, d: int)
    requires n * k == d && 0 - n < d < n
    ensures d == 0
  {
    if k >= 1 {
      MulMono(n, 1, k);
    } else if k <= -1 {
      MulMono(n, 1, -k);
    }
  }

  /** Every q * n numbers in a row hit a remainder q times. */
  lemma {:induction false} HitCount(from: int, q: nat, n: nat, r: nat)
    requires n > 0 && r < n
    ensures |Hits(from, from + q * n, n, r)| == q
  {
    if q == 0 {
      assert Hits(from, from + q * n, n, r) == {};
    } else {
      var mid := from + (q - 1) * n;
      var to := from + q * n;
      assert to == mid + n;
      HitCount(from, q - 1, n, r);
      var x := OneHit(mid, n, r);
      assert mid >= from by {
        assert (q - 1) * n >= 0;
      }
      assert Hits(from, to, n, r) == Hits(from, mid, n, r) + {x};
    }
  }

  /** Every residue below the bound is hit by the same number of accepted words. */
  lemma {:induction false} Unbiased(bound: nat, residue: nat)
    requires 2 <= bound < WORDS && residue < bound
    ensures |Accepted(bound, residue)| == WORDS / bound
  {
    MinIsRemainder(bound);
    var q := WORDS / bound;
    assert WORDS == bound * q + WORDS % bound;
    HitCount(Min(bound), q, bound, residue);
    assert Accepted(bound, residue) == Hits(Min(bound), Min(bound) + q * bound, bound, residue);
  }

  /** More than half of all words are accepted. */
  lemma {:induction false} MostAccepted(bound: nat)
    requires 2 <= bound < WORDS
    ensures WORDS - Min(bound) > WORDS / 2
  {
    if bound <= 0x8000_0000 {
      MinIsRemainder(bound);
    }
  }

  /** Draw words until one is accepted; None if the given words run out. */
  method Draw(bound: nat, words: seq<nat>) returns (r: Option<nat>)
    requires bound < WORDS && forall k :: 0 <= k < |words| ==> words[k] < WORDS
    ensures bound < 2 ==> r == Some(0)
    ensures bound >= 2 ==> (r.None? <==> forall k :: 0 <= k < |words| ==> words[k] < WORDS % bound)
    ensures bound >= 2 && r.Some? ==>
              r.value < bound && exists k :: 0 <= k < |words| && words[k] in Accepted(bound, r.value)
                                             && forall m :: 0 <= m < k ==> words[m] < WORDS % bound
  {
    if bound < 2 {
      return Some(0);
    }
    MinIsRemainder(bound);
    var min := Min(bound);
    for k := 0 to |words|
      invariant forall m :: 0 <= m < k ==> words[m] < min
    {
      if words[k] >= min {
        assert words[k] in Accepted(bound, words[k] % bound);
        return Some(words[k] % bound);
      }
    }
    return None;
  }
}
