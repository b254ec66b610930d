/** Bytes, 16-byte blocks and the conversions between blocks and 128-bit numbers. */
module Bytes {
  import opened Gf2
  import opened Ghash

  type Byte = bv8

  type Block = b: seq<Byte> | |b| == 16 witness seq(16, i => 0)

  function ZeroBlock(): Block { seq(16, i => 0) }

  function XorBytes(a: seq<Byte>, b: seq<Byte>): (r: seq<Byte>)
    requires |a| == |b|
    ensures |r| == |a|
  {
    seq(|a|, i requires 0 <= i < |a| => a[i] ^ b[i])
  }

  function XorBlocks(a: Block, b: Block): Block { XorBytes(a, b) }

  lemma XorBytesTwice(a: seq<Byte>, b: seq<Byte>)
    requires |a| == |b|
    ensures XorBytes(XorBytes(a, b), b) == a
  {}

  // The first bytes of a block, the rest zero (loadn128).
  function Pad(s: seq<Byte>): Block
    requires |s| <= 16
  {
    s + seq(16 - |s|, i => 0)
  }

  // Number of blocks that hold n bytes.
  function BlockCount(n: nat): nat { (n + 15) / 16 }

  // The k-th block of s, padded with zeros when s ends inside it.
  function BlockAt(s: seq<Byte>, k: nat): Block
    requires 16 * k < |s|
  {
    Pad(if |s| < 16 * k + 16 then s[16 * k..] else s[16 * k..16 * k + 16])
  }

  // s cut into blocks, the last one padded with zeros.
  function Blocks(s: seq<Byte>): (r: seq<Block>)
    ensures |r| == BlockCount(|s|)
  {
    seq(BlockCount(|s|), k requires 0 <= k < BlockCount(|s|) => BlockAt(s, k))
  }

  // ---------------------------------------------------------------- big-endian numbers

  function NatOfBytes(s: seq<Byte>): (r: nat)
    ensures r < Pow2(8 * |s|)
  {
    if s == [] then 0
    else
      Pow2Add(8, 8 * (|s| - 1));
      Pow2Of32();
      NatOfBytes(s[..|s| - 1]) * 256 + s[|s| - 1] as nat
  }

  function BytesOfNat(n: nat, k: nat): (r: seq<Byte>)
    ensures |r| == k
  {
    if k == 0 then [] else BytesOfNat(n / 256, k - 1) + [LowByte(n)]
  }

  // The number that eight bits stand for
  function Sum(b7: bool, b6: bool, b5: bool, b4: bool, b3: bool, b2: bool, b1: bool, b0: bool): nat
  {
    2 * (2 * (2 * (2 * (2 * (2 * (2 * One(b7) + One(b6)) + One(b5)) + One(b4)) + One(b3)) + One(b2)) + One(b1))
    + One(b0)
  }

  function One(b: bool): nat { if b then 1 else 0 }

  function Join(b7: bool, b6: bool, b5: bool, b4: bool, b3: bool, b2: bool, b1: bool, b0: bool): Byte
  {
    (if b7 then 0x80 else 0) | (if b6 then 0x40 else 0) | (if b5 then 0x20 else 0) | (if b4 then 0x10 else 0)
      | (if b3 then 8 else 0) | (if b2 then 4 else 0) | (if b1 then 2 else 0) | (if b0 then 1 else 0)
  }

  predicate Odd(n: nat) { n % 2 == 1 }

  function Half(n: nat): nat { n / 2 }

  // The low eight bits of a number
  function LowByte(n: nat): Byte { ByteOf(n % 256) }

  function ByteOf(n: nat): Byte
  {
    var n1 := Half(n); var n2 := Half(n1); var n3 := Half(n2); var n4 := Half(n3); var n5 := Half(n4);
      var n6 := Half(n5); var n7 := Half(n6);
    Join(Odd(n7), Odd(n6), Odd(n5), Odd(n4), Odd(n3), Odd(n2), Odd(n1), Odd(n))
  }

  lemma JoinValue(b7: bool, b6: bool, b5: bool, b4: bool, b3: bool, b2: bool, b1: bool, b0: bool)
    ensures Join(b7, b6, b5, b4, b3, b2, b1, b0) as nat == Sum(b7, b6, b5, b4, b3, b2, b1, b0)
  {}

  lemma Halve(n: nat, limit: nat)
    requires n < 2 * limit
    ensures n == 2 * Half(n) + One(Odd(n)) && Half(n) < limit
  {}

  lemma LowByteValue(n: nat)
    ensures LowByte(n) as nat == n % 256
  {
    ByteOfValue(n % 256);
  }

  lemma ByteOfValue(n: nat)
    requires n < 256
    ensures ByteOf(n) as nat == n
  {
    hide Join, Odd, Sum, Half, One;
    var n1 := Half(n); var n2 := Half(n1); var n3 := Half(n2); var n4 := Half(n3); var n5 := Half(n4);
      var n6 := Half(n5); var n7 := Half(n6);
    JoinValue(Odd(n7), Odd(n6), Odd(n5), Odd(n4), Odd(n3), Odd(n2), Odd(n1), Odd(n));
    Halve(n, 128);
    Halve(n1, 64);
    Halve(n2, 32);
    Halve(n3, 16);
    Halve(n4, 8);
    Halve(n5, 4);
    Halve(n6, 2);
    Halve(n7, 1);
    Weigh(n, n1, n2, n3, n4, n5, n6, n7);
  }

  lemma Weigh(n: nat, n1: nat, n2: nat, n3: nat, n4: nat, n5: nat, n6: nat, n7: nat)
    requires n == 2 * n1 + One(Odd(n)) && n1 == 2 * n2 + One(Odd(n1)) && n2 == 2 * n3 + One(Odd(n2))
      && n3 == 2 * n4 + One(Odd(n3))
    requires n4 == 2 * n5 + One(Odd(n4)) && n5 == 2 * n6 + One(Odd(n5)) && n6 == 2 * n7 + One(Odd(n6))
      && n7 == One(Odd(n7))
    ensures Sum(Odd(n7), Odd(n6), Odd(n5), Odd(n4), Odd(n3), Odd(n2), Odd(n1), Odd(n)) == n
  {
    hide Odd, One;
  }

  // A block as the number in which the first bit of the block is bit 127.
  function BE(b: Block): U128 { NatOfBytes(b) }

  function BlockOf(n: U128): Block { BytesOfNat(n, 16) }
}
