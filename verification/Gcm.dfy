/** AES-GCM as defined by NIST SP 800-38D for 96-bit initialisation vectors, over an
    arbitrary AES round function; and the precomputed table of lib/fusion.c together with
    the lemmas that relate a weighted sum of blocks to the Horner form of GHASH. */
module Gcm {
  import opened Gf2
  import opened Ghash
  import opened Bytes
  import opened Results

  // ---------------------------------------------------------------- AES by rounds

  // _mm_aesenc_si128 and _mm_aesenclast_si128, left arbitrary.
  datatype Aes = Aes(round: (Block, Block) -> Block, last: (Block, Block) -> Block)

  // x after the initial key addition and i rounds.
  function Rounds(aes: Aes, keys: seq<Block>, x: Block, i: nat): Block
    requires i < |keys|
  {
    if i == 0 then XorBlocks(x, keys[0]) else aes.round(Rounds(aes, keys, x, i - 1), keys[i])
  }

  // aesecb_encrypt
  function Cipher(aes: Aes, keys: seq<Block>, x: Block): Block
    requires |keys| >= 2
  {
    aes.last(Rounds(aes, keys, x, |keys| - 2), keys[|keys| - 1])
  }

  // ---------------------------------------------------------------- SP 800-38D

  // inc32 of section 6.2
  function Inc32(n: U128): U128
  {
    Pow2Words();
    n - n % WORD32 + (n + 1) % WORD32
  }

  // J0 for a 96-bit IV, the IV being the upper 96 bits of n.
  function J0(n: U128): U128
  {
    Pow2Words();
    n - n % WORD32 + 1
  }

  // inc32 applied k times
  function IncTimes(n: U128, k: nat): U128
  {
    if k == 0 then n else Inc32(IncTimes(n, k - 1))
  }

  lemma Inc32Low(q: nat, c: nat)
    requires c + 1 < WORD32
    ensures (q * WORD32 + c) % WORD32 == c && (q * WORD32 + c + 1) % WORD32 == c + 1
  {}

  lemma {:induction false} IncTimesIsSum(n: U128, k: nat)
    requires 1 + k < WORD32
    ensures IncTimes(J0(n), k) == J0(n) + k
  {
    hide Pow2;
    Pow2Words();
    if k != 0 {
      IncTimesIsSum(n, k - 1);
      Inc32Low(n / WORD32, k);
    }
  }

  // The i-th byte of the key stream of GCTR started at inc32(J0).
  function KeyStreamByte(aes: Aes, keys: seq<Block>, n: U128, i: nat): Byte
    requires |keys| >= 2
  {
    Cipher(aes, keys, BlockOf(IncTimes(J0(n), 1 + i / 16)))[i % 16]
  }

  // GCTR of section 6.5 started at inc32(J0): its own inverse.
  function Gctr(aes: Aes, keys: seq<Block>, n: U128, p: seq<Byte>): (c: seq<Byte>)
    requires |keys| >= 2
    ensures |c| == |p|
  {
    seq(|p|, i requires 0 <= i < |p| => p[i] ^ KeyStreamByte(aes, keys, n, i))
  }

  lemma GctrInvolution(aes: Aes, keys: seq<Block>, n: U128, p: seq<Byte>)
    requires |keys| >= 2
    ensures Gctr(aes, keys, n, Gctr(aes, keys, n, p)) == p
  {}

  // GHASH of section 6.4
  function GhashOf(h: U128, xs: seq<Block>): U128
  {
    if xs == [] then 0
    else Product(Add(GhashOf(h, xs[..|xs| - 1]), BE(xs[|xs| - 1])), h)
  }

  // [len(A)]64 || [len(C)]64, in bits
  function LengthBlock(aadlen: nat, textlen: nat): Block
  {
    BytesOfNat(8 * aadlen, 8) + BytesOfNat(8 * textlen, 8)
  }

  function HashKey(aes: Aes, keys: seq<Block>): U128
    requires |keys| >= 2
  {
    BE(Cipher(aes, keys, ZeroBlock()))
  }

  // The blocks that GHASH reads.
  function GhashInput(a: seq<Byte>, c: seq<Byte>): seq<Block>
  {
    Blocks(a) + Blocks(c) + [LengthBlock(|a|, |c|)]
  }

  function TagOf(aes: Aes, keys: seq<Block>, n: U128, a: seq<Byte>, c: seq<Byte>): Block
    requires |keys| >= 2
  {
    XorBlocks(BlockOf(GhashOf(HashKey(aes, keys), GhashInput(a, c))), Cipher(aes, keys, BlockOf(J0(n))))
  }

  // GCM-AE of section 7.1: ciphertext followed by the tag.
  function Seal(aes: Aes, keys: seq<Block>, n: U128, a: seq<Byte>, p: seq<Byte>): (r: seq<Byte>)
    requires |keys| >= 2
    ensures |r| == |p| + 16
  {
    var c := Gctr(aes, keys, n, p);
    c + TagOf(aes, keys, n, a, c)
  }

  // ---------------------------------------------------------------- the table of powers

  // The k-th power of the twisted hash key, as setup_one_ghash_entry chains them.
  function Power(h: U128, k: nat): U128
    requires k > 0
  {
    if k == 1 then TransformH(h) else GfMul(Power(h, k - 1), TransformH(h))
  }

  // y times the k-th power
  function Scaled(h: U128, y: U128, k: nat): U128
  {
    if k == 0 then y else GfMul(y, Power(h, k))
  }

  // The accumulator after the first k blocks of xs, weighted for the blocks to come.
  ghost predicate Fed(g: State, h: U128, xs: seq<Block>, k: nat)
  {
    k <= |xs| && DoReduce(g) == Scaled(h, GhashOf(h, xs[..k]), |xs| - k)
  }

  lemma FedNothing(h: U128, xs: seq<Block>, z: U128)
    requires z == 0
    ensures Fed(State(z, z, z), h, xs, 0)
  {
    hide Xor, Mul, GfMul, DoReduce, DoStep, Pow2, Product;
    ReduceOfZero(z);
    if |xs| != 0 { ZeroTimes(z, Power(h, |xs|)); }
  }

  lemma ZeroTimes(z: U128, y: U128)
    requires z == 0
    ensures GfMul(z, y) == 0
  {
    hide Xor, Mul, GfMul, Pow2;
    GfMulDist(z, z, y);
    XorSelf(z);
    XorSelf(GfMul(z, y));
  }

  // Weighting by one power less and multiplying by the key are the same.
  lemma ScaledStep(h: U128, y: U128, k: nat)
    requires k > 0
    ensures Scaled(h, y, k) == Scaled(h, Product(y, h), k - 1)
  {
    hide Xor, Mul, GfMul, Pow2, Product;
    GfMulIsProduct(y, h);
    if k > 1 {
      GfMulAssoc(y, TransformH(h), Power(h, k - 1));
      GfMulComm(TransformH(h), Power(h, k - 1));
    }
  }

  // Feeding block k with the power the table holds for it.
  lemma FeedBlock(g: State, h: U128, xs: seq<Block>, k: nat)
    requires k < |xs| && Fed(g, h, xs, k)
    ensures Fed(DoStep(g, BE(xs[k]), MakeEntry(Power(h, |xs| - k))), h, xs, k + 1)
  {
    hide Xor, Mul, GfMul, DoReduce, DoStep, MakeEntry, Pow2, Product, BE;
    var p := Power(h, |xs| - k);
    var y, x := GhashOf(h, xs[..k]), BE(xs[k]);
    StepAddsProduct(g, x, p);
    GfMulDist(y, x, p);
    ScaledStep(h, Add(y, x), |xs| - k);
    assert xs[..k + 1][..k] == xs[..k];
  }

  lemma FedAll(g: State, h: U128, xs: seq<Block>)
    requires Fed(g, h, xs, |xs|)
    ensures DoReduce(g) == GhashOf(h, xs)
  {
    assert xs[..|xs|] == xs;
  }
}
