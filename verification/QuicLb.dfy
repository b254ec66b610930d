/** The QUIC-LB cipher of lib/quiclb-impl.h: four Feistel rounds on halves that, at odd lengths,
    share the middle byte. */
module QuicLb {
  import opened Bytes

  const MIN_LENGTH: nat := 7
  const MAX_LENGTH: nat := 19

  predicate LengthOk(len: nat) { MIN_LENGTH <= len <= MAX_LENGTH }

  // ---------------------------------------------------------------- masks

  // The bits of the left half: len/2 bytes and, at odd lengths, the upper nibble of the next one.
  function LeftMask(len: nat, i: nat): Byte
  {
    if i < len / 2 then 0xff else if len % 2 == 1 && i == len / 2 then 0xf0 else 0
  }

  // The bits of the right half: at odd lengths the lower nibble of the first byte, then len/2 bytes.
  function RightMask(len: nat, i: nat): Byte
  {
    if len % 2 == 1 then (if i == 0 then 0x0f else if i <= len / 2 then 0xff else 0)
    else if i < len / 2 then 0xff else 0
  }

  function Left(len: nat): Block { seq(16, i requires 0 <= i < 16 => LeftMask(len, i)) }

  function Right(len: nat): Block { seq(16, i requires 0 <= i < 16 => RightMask(len, i)) }

  // Two blocks are the same, as far as the mask goes.
  predicate Same(m: Block, x: Block, y: Block)
  {
    forall i | 0 <= i < 16 :: x[i] & m[i] == y[i] & m[i]
  }

  // ---------------------------------------------------------------- halves

  // picotls_quiclb_split_input
  function SplitLeft(input: seq<Byte>): Block
    requires LengthOk(|input|)
  {
    seq(16, i requires 0 <= i < 16 => if i < (|input| + 1) / 2 then input[i] else 0)
  }

  function SplitRight(input: seq<Byte>): Block
    requires LengthOk(|input|)
  {
    seq(16, i requires 0 <= i < 16 => if i < (|input| + 1) / 2 then input[i + |input| / 2] else 0)
  }

  // picotls_quiclb_merge_output
  function MergedByte(len: nat, l: Block, r: Block, i: nat): Byte
    requires LengthOk(len) && i < len
  {
    if i < len / 2 then l[i]
    else if len % 2 == 0 then r[i - len / 2]
    else if i == len / 2 then (l[i] & 0xf0) | (r[0] & 0x0f)
    else r[i - len / 2]
  }

  function Merge(len: nat, l: Block, r: Block): (out: seq<Byte>)
    requires LengthOk(len)
    ensures |out| == len
  {
    seq(len, i requires 0 <= i < len => MergedByte(len, l, r, i))
  }

  lemma Nibbles(a: Byte, b: Byte, c: Byte)
    ensures ((a & 0xf0) | (b & 0x0f)) & 0xf0 == a & 0xf0
    ensures ((a & 0xf0) | (b & 0x0f)) & 0x0f == b & 0x0f
    ensures (c & 0xf0) | (c & 0x0f) == c
  {}

  lemma FullMask(a: Byte)
    ensures a & 0xff == a && a & 0 == 0
  {}

  lemma SplitMergedLeft(len: nat, l: Block, r: Block, i: nat)
    requires LengthOk(len) && i < 16
    ensures SplitLeft(Merge(len, l, r))[i] & LeftMask(len, i) == l[i] & LeftMask(len, i)
  {
    FullMask(SplitLeft(Merge(len, l, r))[i]);
    FullMask(l[i]);
    Nibbles(l[i], r[0], 0);
  }

  lemma SplitMergedRight(len: nat, l: Block, r: Block, i: nat)
    requires LengthOk(len) && i < 16
    ensures SplitRight(Merge(len, l, r))[i] & RightMask(len, i) == r[i] & RightMask(len, i)
  {
    FullMask(SplitRight(Merge(len, l, r))[i]);
    FullMask(r[i]);
    Nibbles(l[len / 2], r[0], 0);
  }

  // Splitting what was merged gives back the halves under their masks.
  lemma SplitMerged(len: nat, l: Block, r: Block)
    requires LengthOk(len)
    ensures Same(Left(len), SplitLeft(Merge(len, l, r)), l)
    ensures Same(Right(len), SplitRight(Merge(len, l, r)), r)
  {
    hide SplitLeft, SplitRight, Merge, LeftMask, RightMask;
    forall i | 0 <= i < 16
      ensures SplitLeft(Merge(len, l, r))[i] & Left(len)[i] == l[i] & Left(len)[i]
      ensures SplitRight(Merge(len, l, r))[i] & Right(len)[i] == r[i] & Right(len)[i]
    {
      SplitMergedLeft(len, l, r, i);
      SplitMergedRight(len, l, r, i);
    }
  }

  lemma MergeSplit(input: seq<Byte>)
    requires LengthOk(|input|)
    ensures Merge(|input|, SplitLeft(input), SplitRight(input)) == input
  {
    var m := Merge(|input|, SplitLeft(input), SplitRight(input));
    forall i | 0 <= i < |input| ensures m[i] == input[i] {
      Nibbles(0, 0, input[i]);
    }
  }

  // Only the bits under the masks reach the output.
  lemma MergeSame(len: nat, l: Block, r: Block, x: Block, y: Block)
    requires LengthOk(len) && Same(Left(len), l, x) && Same(Right(len), r, y)
    ensures Merge(len, l, r) == Merge(len, x, y)
  {
    forall i | 0 <= i < len ensures Merge(len, l, r)[i] == Merge(len, x, y)[i] {
      if i < len / 2 {
        assert l[i] & Left(len)[i] == x[i] & Left(len)[i];
        FullMask(l[i]);
        FullMask(x[i]);
      } else if len % 2 == 1 && i == len / 2 {
        assert l[i] & Left(len)[i] == x[i] & Left(len)[i];
        assert r[0] & Right(len)[0] == y[0] & Right(len)[0];
      } else {
        var j := i - len / 2;
        assert r[j] & Right(len)[j] == y[j] & Right(len)[j];
        FullMask(r[j]);
        FullMask(y[j]);
      }
    }
  }

  // ---------------------------------------------------------------- rounds

  // The length and the round number, which are or'ed into the input of AES.
  function LenPass(len: nat, round: Byte): Block
  {
    seq(16, i requires 0 <= i < 16 => if i == 14 then LowByte(len) else if i == 15 then round else 0)
  }

  function Masked(m: Block, pass: Block, y: Block): Block
  {
    seq(16, i requires 0 <= i < 16 => (y[i] & m[i]) | pass[i])
  }

  // picotls_quiclb_one_round: x ^ AES(mask(y) | len_pass)
  function Round(aes: Block -> Block, m: Block, pass: Block, x: Block, y: Block): Block
  {
    XorBlocks(aes(Masked(m, pass, y)), x)
  }

  datatype Halves = Halves(l: Block, r: Block)

  // The four rounds of encryption
  function Forward(aes: Block -> Block, len: nat, h: Halves): Halves
  {
    var r1 := Round(aes, Left(len), LenPass(len, 1), h.r, h.l);
    var l1 := Round(aes, Right(len), LenPass(len, 2), h.l, r1);
    var r2 := Round(aes, Left(len), LenPass(len, 3), r1, l1);
    Halves(Round(aes, Right(len), LenPass(len, 4), l1, r2), r2)
  }

  // The four rounds of decryption
  function Backward(aes: Block -> Block, len: nat, h: Halves): Halves
  {
    var l1 := Round(aes, Right(len), LenPass(len, 4), h.l, h.r);
    var r1 := Round(aes, Left(len), LenPass(len, 3), h.r, l1);
    var l0 := Round(aes, Right(len), LenPass(len, 2), l1, r1);
    Halves(l0, Round(aes, Left(len), LenPass(len, 1), r1, l0))
  }

  predicate SameHalves(len: nat, a: Halves, b: Halves)
  {
    Same(Left(len), a.l, b.l) && Same(Right(len), a.r, b.r)
  }

  lemma MaskedSame(m: Block, pass: Block, x: Block, y: Block)
    requires Same(m, x, y)
    ensures Masked(m, pass, x) == Masked(m, pass, y)
  {}

  lemma XorUnderMask(k: Byte, x: Byte, y: Byte, m: Byte)
    requires x & m == (k ^ y) & m
    ensures (k ^ x) & m == y & m
  {}

  lemma XorBlocksUnderMask(k: Block, x: Block, y: Block, m: Block)
    requires Same(m, x, XorBlocks(k, y))
    ensures Same(m, XorBlocks(k, x), y)
  {
    forall i | 0 <= i < 16 ensures XorBlocks(k, x)[i] & m[i] == y[i] & m[i] {
      assert x[i] & m[i] == XorBlocks(k, y)[i] & m[i];
      XorUnderMask(k[i], x[i], y[i], m[i]);
    }
  }

  // A round with the same other half undoes itself, as far as the masks go.
  lemma Undo(aes: Block -> Block, m: Block, n: Block, pass: Block, x: Block, y: Block, x': Block, y': Block)
    requires Same(m, y', y) && Same(n, x', Round(aes, m, pass, x, y))
    ensures Same(n, Round(aes, m, pass, x', y'), x)
  {
    hide XorBlocks, Masked, Same;
    MaskedSame(m, pass, y', y);
    XorBlocksUnderMask(aes(Masked(m, pass, y)), x', x, n);
  }

  lemma BackwardUndoes(aes: Block -> Block, len: nat, h: Halves, g: Halves)
    requires SameHalves(len, g, Forward(aes, len, h))
    ensures SameHalves(len, Backward(aes, len, g), h)
  {
    hide Round, Same, Left, Right, LenPass;
    var lm, rm := Left(len), Right(len);
    var r1 := Round(aes, lm, LenPass(len, 1), h.r, h.l);
    var l1 := Round(aes, rm, LenPass(len, 2), h.l, r1);
    var r2 := Round(aes, lm, LenPass(len, 3), r1, l1);
    var l1' := Round(aes, rm, LenPass(len, 4), g.l, g.r);
    Undo(aes, rm, lm, LenPass(len, 4), l1, r2, g.l, g.r);
    var r1' := Round(aes, lm, LenPass(len, 3), g.r, l1');
    Undo(aes, lm, rm, LenPass(len, 3), r1, l1, g.r, l1');
    var l0 := Round(aes, rm, LenPass(len, 2), l1', r1');
    Undo(aes, rm, lm, LenPass(len, 2), h.l, r1, l1', r1');
    Undo(aes, lm, rm, LenPass(len, 1), h.r, h.l, r1', l0);
  }

  lemma ForwardUndoes(aes: Block -> Block, len: nat, h: Halves, g: Halves)
    requires SameHalves(len, g, Backward(aes, len, h))
    ensures SameHalves(len, Forward(aes, len, g), h)
  {
    hide Round, Same, Left, Right, LenPass;
    var lm, rm := Left(len), Right(len);
    var l1 := Round(aes, rm, LenPass(len, 4), h.l, h.r);
    var r1 := Round(aes, lm, LenPass(len, 3), h.r, l1);
    var l0 := Round(aes, rm, LenPass(len, 2), l1, r1);
    var r1' := Round(aes, lm, LenPass(len, 1), g.r, g.l);
    Undo(aes, lm, rm, LenPass(len, 1), r1, l0, g.r, g.l);
    var l1' := Round(aes, rm, LenPass(len, 2), g.l, r1');
    Undo(aes, rm, lm, LenPass(len, 2), l1, r1, g.l, r1');
    var r2 := Round(aes, lm, LenPass(len, 3), r1', l1');
    Undo(aes, lm, rm, LenPass(len, 3), h.r, l1, r1', l1');
    Undo(aes, rm, lm, LenPass(len, 4), h.l, h.r, l1', r2);
  }

  // ---------------------------------------------------------------- the cipher

  function Encrypt(aes: Block -> Block, input: seq<Byte>): (r: seq<Byte>)
    requires LengthOk(|input|)
    ensures |r| == |input|
  {
    var h := Forward(aes, |input|, Halves(SplitLeft(input), SplitRight(input)));
    Merge(|input|, h.l, h.r)
  }

  function Decrypt(aes: Block -> Block, input: seq<Byte>): (r: seq<Byte>)
    requires LengthOk(|input|)
    ensures |r| == |input|
  {
    var h := Backward(aes, |input|, Halves(SplitLeft(input), SplitRight(input)));
    Merge(|input|, h.l, h.r)
  }

  /** For every length from 7 to 19 and any block function, decryption inverts encryption. */
  lemma DecryptInverts(aes: Block -> Block, input: seq<Byte>)
    requires LengthOk(|input|)
    ensures Decrypt(aes, Encrypt(aes, input)) == input
  {
    hide Forward, Backward, Merge, SplitLeft, SplitRight, Same, Left, Right;
    var len, h := |input|, Halves(SplitLeft(input), SplitRight(input));
    var f := Forward(aes, len, h);
    var c := Encrypt(aes, input);
    SplitMerged(len, f.l, f.r);
    var g := Halves(SplitLeft(c), SplitRight(c));
    BackwardUndoes(aes, len, h, g);
    var b := Backward(aes, len, g);
    MergeSame(len, b.l, b.r, h.l, h.r);
    MergeSplit(input);
  }

  /** And encryption inverts decryption. */
  lemma EncryptInverts(aes: Block -> Block, input: seq<Byte>)
    requires LengthOk(|input|)
    ensures Encrypt(aes, Decrypt(aes, input)) == input
  {
    hide Forward, Backward, Merge, SplitLeft, SplitRight, Same, Left, Right;
    var len, h := |input|, Halves(SplitLeft(input), SplitRight(input));
    var b := Backward(aes, len, h);
    var c := Decrypt(aes, input);
    SplitMerged(len, b.l, b.r);
    var g := Halves(SplitLeft(c), SplitRight(c));
    ForwardUndoes(aes, len, h, g);
    var f := Forward(aes, len, g);
    MergeSame(len, f.l, f.r, h.l, h.r);
    MergeSplit(input);
  }

  // ---------------------------------------------------------------- the procedure

  // picotls_quiclb_split_input
  method Split(l: array<Byte>, r: array<Byte>, input: array<Byte>)
    requires l.Length == 16 && r.Length == 16 && l != r && input != l && input != r && LengthOk(input.Length)
    modifies l, r
    ensures l[..] == SplitLeft(input[..]) && r[..] == SplitRight(input[..])
  {
    var len := input.Length;
    var i := 0;
    while i < 16
      invariant 0 <= i <= 16
      invariant forall j | 0 <= j < i :: l[j] == if j < (len + 1) / 2 then input[j] else 0
      invariant forall j | 0 <= j < i :: r[j] == if j < (len + 1) / 2 then input[j + len / 2] else 0
      invariant input[..] == old(input[..])
    {
      l[i] := if i < (len + 1) / 2 then input[i] else 0;
      r[i] := if i < (len + 1) / 2 then input[i + len / 2] else 0;
      i := i + 1;
    }
  }

  // picotls_quiclb_merge_output
  method MergeOutput(output: array<Byte>, l: array<Byte>, r: array<Byte>)
    requires l.Length == 16 && r.Length == 16 && output != l && output != r && LengthOk(output.Length)
    modifies output
    ensures output[..] == Merge(output.Length, l[..], r[..])
  {
    var len := output.Length;
    var i := 0;
    while i < len
      invariant 0 <= i <= len
      invariant forall j | 0 <= j < i :: output[j] == MergedByte(len, l[..], r[..], j)
      invariant l[..] == old(l[..]) && r[..] == old(r[..])
    {
      if i < len / 2 {
        output[i] := l[i];
      } else if len % 2 == 1 && i == len / 2 {
        output[i] := (l[i] & 0xf0) | (r[0] & 0x0f);
      } else {
        output[i] := r[i - len / 2];
      }
      i := i + 1;
    }
  }

  // picotls_quiclb_one_round
  method OneRound(aes: Block -> Block, dest: array<Byte>, x: array<Byte>, y: array<Byte>, m: Block, pass: Block)
    requires dest.Length == 16 && x.Length == 16 && y.Length == 16 && dest != x && dest != y
    modifies dest
    ensures dest[..] == Round(aes, m, pass, x[..], y[..])
  {
    var i := 0;
    while i < 16
      invariant 0 <= i <= 16
      invariant forall j | 0 <= j < i :: dest[j] == (y[j] & m[j]) | pass[j]
    {
      dest[i] := (y[i] & m[i]) | pass[i];
      i := i + 1;
    }
    assert dest[..] == Masked(m, pass, y[..]);
    var k: Block := aes(dest[..]);
    XorInto(dest, k, x);
  }

  method XorInto(dest: array<Byte>, k: Block, x: array<Byte>)
    requires dest.Length == 16 && x.Length == 16 && dest != x
    modifies dest
    ensures dest[..] == XorBlocks(k, x[..])
  {
    var i := 0;
    ghost var mixed := XorBlocks(k, x[..]);
    while i < 16
      invariant 0 <= i <= 16 && x[..] == old(x[..])
      invariant forall j | 0 <= j < i :: dest[j] == mixed[j]
    {
      var b := k[i] ^ x[i];
      assert b == mixed[i];
      dest[i] := b;
      i := i + 1;
    }
  }

  // picotls_quiclb_transform; the output may be the input.
  method Transform(aes: Block -> Block, output: array<Byte>, input: array<Byte>, encrypt: bool)
    requires LengthOk(input.Length) && output.Length == input.Length
    modifies output
    ensures output[..] == if encrypt then Encrypt(aes, old(input[..])) else Decrypt(aes, old(input[..]))
  {
    hide Merge, SplitLeft, SplitRight, Round, Left, Right, LenPass;
    var len := input.Length;
    var l, r := Left(len), Right(len);
    var l0, r0, l1, r1, l2, r2 := new Byte[16], new Byte[16], new Byte[16], new Byte[16], new Byte[16], new Byte[16];
    if encrypt {
      Split(l0, r0, input);
      OneRound(aes, r1, r0, l0, l, LenPass(len, 1));
      OneRound(aes, l1, l0, r1, r, LenPass(len, 2));
      OneRound(aes, r2, r1, l1, l, LenPass(len, 3));
      OneRound(aes, l2, l1, r2, r, LenPass(len, 4));
      MergeOutput(output, l2, r2);
    } else {
      Split(l2, r2, input);
      OneRound(aes, l1, l2, r2, r, LenPass(len, 4));
      OneRound(aes, r1, r2, l1, l, LenPass(len, 3));
      OneRound(aes, l0, l1, r1, r, LenPass(len, 2));
      OneRound(aes, r0, r1, l0, l, LenPass(len, 1));
      MergeOutput(output, l0, r0);
    }
  }
}
