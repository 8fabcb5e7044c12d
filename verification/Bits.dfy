/** Exclusive or of bytes, and what is needed to know of it. */
module Bits {
  import opened Bytes

  /** x ^ y */
  function Xor(x: byte, y: byte): byte {
    ((x as bv8) ^ (y as bv8)) as byte
  }

  /** z is the exclusive or of x and y, as vectors of eight bits. */
  ghost predicate IsXor(z: byte, x: byte, y: byte) {
    z as bv8 == x as bv8 ^ y as bv8
  }

  lemma BitsBackAndForth(a: bv8)
    ensures (a as byte) as bv8 == a
  {
  }

  lemma ByteBackAndForth(x: byte)
    ensures (x as bv8) as byte == x
  {
  }

  lemma XorIsBitwise(x: byte, y: byte)
    ensures IsXor(Xor(x, y), x, y)
  {
    BitsBackAndForth(x as bv8 ^ y as bv8);
  }

  lemma BitsTwice(a: bv8, b: bv8)
    ensures (a ^ b) ^ b == a
  {
  }

  lemma XorTwice(x: byte, y: byte)
    ensures Xor(Xor(x, y), y) == x
  {
    XorIsBitwise(x, y);
    BitsTwice(x as bv8, y as bv8);
    ByteBackAndForth(x);
  }

  lemma OneXor(a: byte, b: byte, x: byte, y: byte)
    requires IsXor(a, x, y) && IsXor(b, x, y)
    ensures a == b
  {
    ByteBackAndForth(a);
    ByteBackAndForth(b);
  }
}
