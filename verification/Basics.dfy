/** Notions every part of the model shares. */
module Basics {

  datatype Option<+T> = None | Some(value: T)

  const U32_LIMIT: nat := 0x1_0000_0000
  const U64_LIMIT: nat := 0x1_0000_0000_0000_0000

  /** What a 32-bit and a 64-bit unsigned result keeps. */
  function Wrap32(x: nat): (r: nat)
    ensures r < U32_LIMIT && (r == x <==> x < U32_LIMIT)
  {
    x % U32_LIMIT
  }

  function Wrap64(x: nat): (r: nat)
    ensures r < U64_LIMIT && (r == x <==> x < U64_LIMIT)
  {
    x % U64_LIMIT
  }

  /** Sums may be cut off at every step or once at the end. */
  lemma {:induction false} WrapAdd(x: nat, y: nat)
    ensures Wrap64(Wrap64(x) + Wrap64(y)) == Wrap64(x + y)
  {
    var q, q' := x / U64_LIMIT, y / U64_LIMIT;
    assert x + y == Wrap64(x) + Wrap64(y) + U64_LIMIT * (q + q');
  }
}
