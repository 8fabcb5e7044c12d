/** Bytes, fixed-width integers in both byte orders, and the readers and writers of the Go library. */
module Bytes {

  newtype byte = x: int | 0 <= x < 256

  const TWO_16 := 0x1_0000
  const TWO_32 := 0x1_0000_0000

  /** byte(n) keeps the low eight bits. */
  function Low(n: nat): byte {
    (n % 0x100) as byte
  }

  /** uint16(n) and uint32(n), least significant byte first: the value is taken modulo the width. */
  function LE16(n: nat): (b: seq<byte>)
    ensures |b| == 2
  {
    [Low(n), Low(n / 0x100)]
  }

  function LE32(n: nat): (b: seq<byte>)
    ensures |b| == 4
  {
    [Low(n), Low(n / 0x100), Low(n / 0x1_0000), Low(n / 0x100_0000)]
  }

  /** The low width bytes of n, most significant byte first. */
  function BE(n: nat, width: nat): (b: seq<byte>)
    ensures |b| == width
  {
    if width == 0 then [] else BE(n / 0x100, width - 1) + [Low(n)]
  }

  function UBE(s: seq<byte>): nat {
    if s == [] then 0 else 0x100 * UBE(s[..|s| - 1]) + s[|s| - 1] as int
  }

  function Pow256(width: nat): nat {
    if width == 0 then 1 else 0x100 * Pow256(width - 1)
  }

  lemma {:induction false} BERoundTrip(n: nat, width: nat)
    requires n < Pow256(width)
    ensures UBE(BE(n, width)) == n
  {
    if width > 0 {
      BERoundTrip(n / 0x100, width - 1);
      assert BE(n, width)[..width - 1] == BE(n / 0x100, width - 1);
    }
  }

  lemma Pow256Values()
    ensures Pow256(2) == TWO_16 && Pow256(8) == 0x1_0000_0000_0000_0000
  {
    assert Pow256(2) == 0x100 * Pow256(1);
    assert Pow256(4) == 0x100 * Pow256(3) && Pow256(3) == 0x100 * Pow256(2);
    assert Pow256(6) == 0x100 * Pow256(5) && Pow256(5) == 0x100 * Pow256(4);
    assert Pow256(8) == 0x100 * Pow256(7) && Pow256(7) == 0x100 * Pow256(6);
  }

  function U16LE(s: seq<byte>, at: nat): (n: nat)
    requires at + 2 <= |s|
    ensures n < TWO_16
  {
    s[at] as int + 0x100 * s[at + 1] as int
  }

  function U32LE(s: seq<byte>, at: nat): (n: nat)
    requires at + 4 <= |s|
    ensures n < TWO_32
  {
    s[at] as int + 0x100 * s[at + 1] as int + 0x1_0000 * s[at + 2] as int + 0x100_0000 * s[at + 3] as int
  }

  lemma LE16RoundTrip(n: nat)
    ensures U16LE(LE16(n), 0) == n % TWO_16
  {
  }

  lemma LE32RoundTrip(n: nat)
    ensures U32LE(LE32(n), 0) == n % TWO_32
  {
    var a := n / 0x100;
    var b := n / 0x1_0000;
    var c := n / 0x100_0000;
    assert b == a / 0x100 && c == b / 0x100;
    assert n == 0x100 * a + n % 0x100;
    assert a == 0x100 * b + a % 0x100;
    assert b == 0x100 * c + b % 0x100;
    assert c == 0x100 * (n / TWO_32) + c % 0x100;
  }

  /** Four bytes in a row: the name of a part of a file, or the key of a mask. */
  datatype Tag = Tag(a: byte, b: byte, c: byte, d: byte) {
    function Bytes(): (s: seq<byte>)
      ensures |s| == 4
    {
      [a, b, c, d]
    }
  }

  function TagAt(s: seq<byte>, at: nat): Tag
    requires at + 4 <= |s|
  {
    Tag(s[at], s[at + 1], s[at + 2], s[at + 3])
  }

  lemma SliceOfSlice(s: seq<byte>, a: nat, b: nat, c: nat, d: nat)
    requires a <= b <= |s| && c <= d <= b - a
    ensures s[a..b][c..d] == s[a + c..a + d]
  {
    var l, r := s[a..b][c..d], s[a + c..a + d];
    assert |l| == |r|;
    forall k | 0 <= k < |l| ensures l[k] == r[k] {
      assert l[k] == s[a..b][c + k];
    }
  }

  lemma SliceSplits(s: seq<byte>, a: nat, b: nat, n: nat)
    requires a + n <= b <= |s|
    ensures s[a..b][..n] == s[a..a + n] && s[a..b][n..] == s[a + n..b]
  {
  }

  /** How a read of a fixed number of bytes ends. */
  datatype ReadOutcome = Full | Eof | UnexpectedEof

  /** A byte stream that ends after data; pos bytes have been consumed. */
  class Reader {
    const data: seq<byte>
    var pos: nat

    constructor (data: seq<byte>)
      ensures Valid() && this.data == data && pos == 0
    {
      this.data := data;
      pos := 0;
    }

    ghost predicate Valid()
      reads this
    {
      pos <= |data|
    }

    /** The bytes not yet consumed. */
    ghost function Rest(): seq<byte>
      requires Valid()
      reads this
    {
      data[pos..]
    }

    /** io.ReadFull: all n bytes, or what is left and an error. */
    method ReadFull(n: nat) returns (read: seq<byte>, outcome: ReadOutcome)
      requires Valid()
      modifies this
      ensures Valid()
      ensures old(pos) + n <= |data| ==> read == data[old(pos)..old(pos) + n] && pos == old(pos) + n && outcome == Full
      ensures old(pos) + n > |data| ==>
                && read == data[old(pos)..] && pos == |data|
                && outcome == if old(pos) == |data| then Eof else UnexpectedEof
      ensures outcome == Full <==> n <= |old(Rest())|
      ensures outcome == Full ==> read == old(Rest())[..n] && Rest() == old(Rest())[n..]
    {
      if pos + n <= |data| {
        read, outcome := data[pos..pos + n], Full;
        pos := pos + n;
      } else {
        read, outcome := data[pos..], if pos == |data| then Eof else UnexpectedEof;
        pos := |data|;
      }
    }

    /** discardExactly: io.CopyN into nothing. */
    method Discard(n: nat) returns (ok: bool)
      requires Valid()
      modifies this
      ensures Valid() && (ok <==> old(pos) + n <= |data|)
      ensures pos == if ok then old(pos) + n else |data|
    {
      ok := pos + n <= |data|;
      pos := if ok then pos + n else |data|;
    }
  }
}
