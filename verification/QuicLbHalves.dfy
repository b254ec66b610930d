/** The cipher of the QUIC load balancer draft (draft-ietf-quic-load-balancers), on halves of the
    plaintext as byte strings; the masked blocks of lib/quiclb-impl.h compute it. */
module QuicLbHalves {
  import opened Bytes
  import opened QuicLb

  // Bytes of a half; at odd lengths both contain the middle byte.
  function HalfSize(len: nat): nat { (len + 1) / 2 }

  // The left half ends with the upper four bits of the middle byte.
  function ClearLow(len: nat, h: seq<Byte>): (r: seq<Byte>)
    requires LengthOk(len) && |h| == HalfSize(len)
    ensures |r| == |h|
  {
    if len % 2 == 0 then h else h[..|h| - 1] + [h[|h| - 1] & 0xf0]
  }

  // The right half starts with its lower four bits.
  function ClearHigh(len: nat, h: seq<Byte>): (r: seq<Byte>)
    requires LengthOk(len) && |h| == HalfSize(len)
    ensures |r| == |h|
  {
    if len % 2 == 0 then h else [h[0] & 0x0f] + h[1..]
  }

  // The block that AES is given: a half, zeros, the length and the number of the round
  function Expand(len: nat, h: seq<Byte>, round: Byte): Block
    requires LengthOk(len) && |h| == HalfSize(len)
  {
    h + seq(14 - |h|, i => 0) + [LowByte(len), round]
  }

  function Truncate(len: nat, b: Block): (r: seq<Byte>)
    requires LengthOk(len)
    ensures |r| == HalfSize(len)
  {
    b[..HalfSize(len)]
  }

  function MixRight(aes: Block -> Block, len: nat, l: seq<Byte>, r: seq<Byte>, round: Byte): (s: seq<Byte>)
    requires LengthOk(len) && |l| == |r| == HalfSize(len)
    ensures |s| == HalfSize(len)
  {
    XorBytes(r, ClearHigh(len, Truncate(len, aes(Expand(len, l, round)))))
  }

  function MixLeft(aes: Block -> Block, len: nat, l: seq<Byte>, r: seq<Byte>, round: Byte): (s: seq<Byte>)
    requires LengthOk(len) && |l| == |r| == HalfSize(len)
    ensures |s| == HalfSize(len)
  {
    XorBytes(l, ClearLow(len, Truncate(len, aes(Expand(len, r, round)))))
  }

  function Joined(len: nat, l: seq<Byte>, r: seq<Byte>): seq<Byte>
    requires LengthOk(len) && |l| == |r| == HalfSize(len)
  {
    if len % 2 == 0 then l + r else l[..|l| - 1] + [l[|l| - 1] | r[0]] + r[1..]
  }

  function Encrypted(aes: Block -> Block, input: seq<Byte>): seq<Byte>
    requires LengthOk(|input|)
  {
    var len := |input|;
    var l0, r0 := ClearLow(len, input[..HalfSize(len)]), ClearHigh(len, input[len / 2..]);
    var r1 := MixRight(aes, len, l0, r0, 1);
    var l1 := MixLeft(aes, len, l0, r1, 2);
    var r2 := MixRight(aes, len, l1, r1, 3);
    Joined(len, MixLeft(aes, len, l1, r2, 4), r2)
  }

  function Decrypted(aes: Block -> Block, input: seq<Byte>): seq<Byte>
    requires LengthOk(|input|)
  {
    var len := |input|;
    var l2, r2 := ClearLow(len, input[..HalfSize(len)]), ClearHigh(len, input[len / 2..]);
    var l1 := MixLeft(aes, len, l2, r2, 4);
    var r1 := MixRight(aes, len, l1, r2, 3);
    var l0 := MixLeft(aes, len, l1, r1, 2);
    Joined(len, l0, MixRight(aes, len, l0, r1, 1))
  }

  // ---------------------------------------------------------------- halves in blocks

  // The half that a block holds under its mask
  function LeftOf(len: nat, b: Block): (r: seq<Byte>)
    requires LengthOk(len)
    ensures |r| == HalfSize(len)
  {
    ClearLow(len, Truncate(len, b))
  }

  function RightOf(len: nat, b: Block): (r: seq<Byte>)
    requires LengthOk(len)
    ensures |r| == HalfSize(len)
  {
    ClearHigh(len, Truncate(len, b))
  }

  lemma LeftAt(len: nat, b: Block, i: nat)
    requires LengthOk(len) && i < 16
    ensures i < HalfSize(len) ==> LeftOf(len, b)[i] == b[i] & LeftMask(len, i)
    ensures i >= HalfSize(len) ==> b[i] & LeftMask(len, i) == 0
  {
    FullMask(b[i]);
  }

  lemma RightAt(len: nat, b: Block, i: nat)
    requires LengthOk(len) && i < 16
    ensures i < HalfSize(len) ==> RightOf(len, b)[i] == b[i] & RightMask(len, i)
    ensures i >= HalfSize(len) ==> b[i] & RightMask(len, i) == 0
  {
    FullMask(b[i]);
  }

  lemma OrZero(a: Byte)
    ensures a | 0 == a && 0 | a == a
  {}

  // What reaches AES is the half under the mask, expanded.
  lemma LeftExpanded(len: nat, round: Byte, b: Block)
    requires LengthOk(len)
    ensures Masked(Left(len), LenPass(len, round), b) == Expand(len, LeftOf(len, b), round)
  {
    hide LeftOf, LeftMask, LowByte;
    forall i | 0 <= i < 16
      ensures Masked(Left(len), LenPass(len, round), b)[i] == Expand(len, LeftOf(len, b), round)[i]
    {
      LeftAt(len, b, i);
      OrZero(b[i] & LeftMask(len, i));
      OrZero(LenPass(len, round)[i]);
    }
  }

  lemma RightExpanded(len: nat, round: Byte, b: Block)
    requires LengthOk(len)
    ensures Masked(Right(len), LenPass(len, round), b) == Expand(len, RightOf(len, b), round)
  {
    hide RightOf, RightMask, LowByte;
    forall i | 0 <= i < 16
      ensures Masked(Right(len), LenPass(len, round), b)[i] == Expand(len, RightOf(len, b), round)[i]
    {
      RightAt(len, b, i);
      OrZero(b[i] & RightMask(len, i));
      OrZero(LenPass(len, round)[i]);
    }
  }

  lemma XorMasked(k: Byte, x: Byte, m: Byte)
    ensures (k ^ x) & m == (x & m) ^ (k & m)
  {}

  lemma LeftXor(len: nat, k: Block, x: Block)
    requires LengthOk(len)
    ensures LeftOf(len, XorBlocks(k, x)) == XorBytes(LeftOf(len, x), LeftOf(len, k))
  {
    hide LeftOf, LeftMask;
    forall i | 0 <= i < HalfSize(len)
      ensures LeftOf(len, XorBlocks(k, x))[i] == XorBytes(LeftOf(len, x), LeftOf(len, k))[i]
    {
      LeftAt(len, XorBlocks(k, x), i);
      LeftAt(len, k, i);
      LeftAt(len, x, i);
      XorMasked(k[i], x[i], LeftMask(len, i));
    }
  }

  lemma RightXor(len: nat, k: Block, x: Block)
    requires LengthOk(len)
    ensures RightOf(len, XorBlocks(k, x)) == XorBytes(RightOf(len, x), RightOf(len, k))
  {
    hide RightOf, RightMask;
    forall i | 0 <= i < HalfSize(len)
      ensures RightOf(len, XorBlocks(k, x))[i] == XorBytes(RightOf(len, x), RightOf(len, k))[i]
    {
      RightAt(len, XorBlocks(k, x), i);
      RightAt(len, k, i);
      RightAt(len, x, i);
      XorMasked(k[i], x[i], RightMask(len, i));
    }
  }

  lemma RightRound(aes: Block -> Block, len: nat, round: Byte, l: Block, r: Block)
    requires LengthOk(len)
    ensures RightOf(len, Round(aes, Left(len), LenPass(len, round), r, l))
      == MixRight(aes, len, LeftOf(len, l), RightOf(len, r), round)
  {
    hide Masked, Left, LenPass, Expand, XorBytes, ClearHigh, LeftOf;
    LeftExpanded(len, round, l);
    RightXor(len, aes(Expand(len, LeftOf(len, l), round)), r);
  }

  lemma LeftRound(aes: Block -> Block, len: nat, round: Byte, l: Block, r: Block)
    requires LengthOk(len)
    ensures LeftOf(len, Round(aes, Right(len), LenPass(len, round), l, r))
      == MixLeft(aes, len, LeftOf(len, l), RightOf(len, r), round)
  {
    hide Masked, Right, LenPass, Expand, XorBytes, ClearLow, RightOf;
    RightExpanded(len, round, r);
    LeftXor(len, aes(Expand(len, RightOf(len, r), round)), l);
  }

  lemma SplitHalves(input: seq<Byte>)
    requires LengthOk(|input|)
    ensures LeftOf(|input|, SplitLeft(input)) == ClearLow(|input|, input[..HalfSize(|input|)])
    ensures RightOf(|input|, SplitRight(input)) == ClearHigh(|input|, input[|input| / 2..])
  {
    var len := |input|;
    assert Truncate(len, SplitLeft(input)) == input[..HalfSize(len)];
    assert Truncate(len, SplitRight(input)) == input[len / 2..];
  }

  lemma MergedAt(len: nat, l: Block, r: Block, i: nat)
    requires LengthOk(len) && i < len
    ensures var x, y := LeftOf(len, l), RightOf(len, r);
      MergedByte(len, l, r, i) ==
        if i < len / 2 then x[i]
        else if len % 2 == 1 && i == len / 2 then x[i] | y[0]
        else y[i - len / 2]
  {
    hide LeftOf, RightOf;
    if i < HalfSize(len) {
      LeftAt(len, l, i);
      FullMask(l[i]);
    }
    if i >= len / 2 {
      RightAt(len, r, i - len / 2);
      FullMask(r[i - len / 2]);
    }
  }

  lemma MergeJoins(len: nat, l: Block, r: Block)
    requires LengthOk(len)
    ensures Merge(len, l, r) == Joined(len, LeftOf(len, l), RightOf(len, r))
  {
    hide LeftOf, RightOf, MergedByte;
    var x, y := LeftOf(len, l), RightOf(len, r);
    forall i | 0 <= i < len ensures MergedByte(len, l, r, i) == Joined(len, x, y)[i] {
      MergedAt(len, l, r, i);
    }
  }

  /** The four rounds on masked blocks are the cipher of the draft. */
  lemma EncryptIsDraft(aes: Block -> Block, input: seq<Byte>)
    requires LengthOk(|input|)
    ensures Encrypt(aes, input) == Encrypted(aes, input)
  {
    hide Round, Left, Right, LenPass, Merge, SplitLeft, SplitRight, LeftOf, RightOf, MixLeft, MixRight, Joined,
      ClearLow,
      ClearHigh;
    var len, l, r := |input|, SplitLeft(input), SplitRight(input);
    SplitHalves(input);
    RightRound(aes, len, 1, l, r);
    var r1 := Round(aes, Left(len), LenPass(len, 1), r, l);
    LeftRound(aes, len, 2, l, r1);
    var l1 := Round(aes, Right(len), LenPass(len, 2), l, r1);
    RightRound(aes, len, 3, l1, r1);
    var r2 := Round(aes, Left(len), LenPass(len, 3), r1, l1);
    LeftRound(aes, len, 4, l1, r2);
    MergeJoins(len, Round(aes, Right(len), LenPass(len, 4), l1, r2), r2);
  }

  lemma DecryptIsDraft(aes: Block -> Block, input: seq<Byte>)
    requires LengthOk(|input|)
    ensures Decrypt(aes, input) == Decrypted(aes, input)
  {
    hide Round, Left, Right, LenPass, Merge, SplitLeft, SplitRight, LeftOf, RightOf, MixLeft, MixRight, Joined,
      ClearLow,
      ClearHigh;
    var len, l, r := |input|, SplitLeft(input), SplitRight(input);
    SplitHalves(input);
    LeftRound(aes, len, 4, l, r);
    var l1 := Round(aes, Right(len), LenPass(len, 4), l, r);
    RightRound(aes, len, 3, l1, r);
    var r1 := Round(aes, Left(len), LenPass(len, 3), r, l1);
    LeftRound(aes, len, 2, l1, r1);
    var l0 := Round(aes, Right(len), LenPass(len, 2), l1, r1);
    RightRound(aes, len, 1, l0, r1);
    MergeJoins(len, l0, Round(aes, Left(len), LenPass(len, 1), r1, l0));
  }

  // ---------------------------------------------------------------- what the rounds depend on

  /** Were AES to look at the length and the round alone, rounds 2 and 4 would change the left half, 1 and 3 the
      right one. */
  lemma RoundsByNumber(aes: Block -> Block, key: (Byte, Byte) -> Block, input: seq<Byte>)
    requires LengthOk(|input|) && forall b: Block :: aes(b) == key(b[14], b[15])
    ensures var len, n := |input|, LowByte(|input|);
      Encrypt(aes, input) == Joined(len,
        XorBytes(XorBytes(ClearLow(len, input[..HalfSize(len)]), LeftOf(len, key(n, 2))), LeftOf(len, key(n, 4))),
        XorBytes(XorBytes(ClearHigh(len, input[len / 2..]), RightOf(len, key(n, 1))), RightOf(len, key(n, 3))))
  {
    hide Encrypt, Joined, ClearLow, ClearHigh, XorBytes, LowByte;
    EncryptIsDraft(aes, input);
  }
}
