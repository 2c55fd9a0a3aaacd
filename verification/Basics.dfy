/** Types and facts that many modules share. */
module Basics {

  datatype Option<T> = None | Some(value: T)

  type byte = x: int | 0 <= x < 256

  /** A count as a C int of 32 bits. */
  function AsInt(n: nat): (r: int)
    ensures -0x8000_0000 <= r < 0x8000_0000
    ensures n < 0x1_0000_0000 ==> r == if n < 0x8000_0000 then n else n - 0x1_0000_0000
  {
    var m := n % 0x1_0000_0000;
    if m < 0x8000_0000 then m else m - 0x1_0000_0000
  }

  lemma MulMono(n: nat, a: nat, b: nat)
    requires a <= b
    ensures n * a <= n * b
  {
  }
}
