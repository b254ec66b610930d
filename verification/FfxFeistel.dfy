/** The cipher of lib/ffx.c as a Feistel network: one pass after the other, each adding the output of the cipher to a
    half. */
module FfxFeistel {
  import opened Bytes
  import opened Ffx

  // Zeros, and the number of rounds at the place of the pass
  function Marker(round: int, rounds: nat): Block { ZeroBlock()[round % 16 := LowByte(rounds)] }

  // The initialisation vector of a pass: tweak, marker and the half that is not changed
  function Initial(c: Context, round: int, source: seq<Byte>): Block
    requires |source| <= 16
  {
    XorBlocks(XorBlocks(c.tweaks, Marker(round, c.rounds)), Pad(source))
  }

  function KeyStream(c: Context, round: int, source: seq<Byte>, size: nat): (r: seq<Byte>)
    requires |source| <= 16 && size <= 16
    ensures |r| == size
  {
    c.confuse(Initial(c, round, source))[..size]
  }

  function LastMasked(s: seq<Byte>, mask: Byte): (r: seq<Byte>)
    requires s != []
    ensures |r| == |s|
  {
    s[..|s| - 1] + [s[|s| - 1] & mask]
  }

  // The pass with this number: the right half changes under the mask, the left one everywhere.
  function OnePass(c: Context, h: Halves, right: bool, round: int): (g: Halves)
    requires Sized(h)
    ensures |g.l| == |h.l| && |g.r| == |h.r|
  {
    if right then Halves(h.l, XorBytes(h.r, LastMasked(KeyStream(c, round, h.l, |h.r|), c.mask)))
    else Halves(XorBytes(h.l, KeyStream(c, round, h.r, |h.l|)), h.r)
  }

  // The passes 0 to n - 1, on the left half and the right in turn
  function Forwards(c: Context, h: Halves, n: nat): (g: Halves)
    requires Sized(h)
    ensures |g.l| == |h.l| && |g.r| == |h.r|
  {
    if n == 0 then h else OnePass(c, Forwards(c, h, n - 1), n % 2 == 0, n - 1)
  }

  // n passes, with numbers going down from top, on the right half and the left in turn
  function Backwards(c: Context, h: Halves, n: nat, top: int): (g: Halves)
    requires Sized(h)
    ensures |g.l| == |h.l| && |g.r| == |h.r|
    decreases n
  {
    if n == 0 then h else OnePass(c, Backwards(c, h, n - 1, top), n % 2 == 1, top - (n - 1))
  }

  lemma XorZero(a: Byte)
    ensures a ^ 0 == a && 0 ^ a == a && a & 0xff == a
  {}

  lemma TweakIs(c: Context, round: int, i: nat)
    requires i < 16
    ensures Tweak(c, round, i) == c.tweaks[i] ^ Marker(round, c.rounds)[i]
  {
    hide LowByte;
    XorZero(c.tweaks[i]);
  }

  lemma VectorIs(c: Context, round: int, source: seq<Byte>)
    requires |source| <= 16
    ensures Vector(c, round, source) == Initial(c, round, source)
  {
    hide LowByte, Tweak, Marker;
    forall i | 0 <= i < 16 ensures Vector(c, round, source)[i] == Initial(c, round, source)[i] {
      TweakIs(c, round, i);
      XorZero(Tweak(c, round, i));
      assert Pad(source)[i] == if i < |source| then source[i] else 0;
    }
  }

  lemma PassIs(c: Context, source: seq<Byte>, target: seq<Byte>, mask: Byte, round: int)
    requires |source| <= 16 && 0 < |target| <= 16
    ensures Pass(c, source, target, mask, round)
      == XorBytes(target, LastMasked(KeyStream(c, round, source, |target|), mask))
  {
    hide Vector, Initial;
    VectorIs(c, round, source);
    var k := c.confuse(Vector(c, round, source));
    var l, r := Pass(c, source, target, mask, round), XorBytes(target, LastMasked(k[..|target|], mask));
    forall j | 0 <= j < |target| ensures l[j] == r[j] {
      XorZero(k[j]);
    }
  }

  lemma AllBits(s: seq<Byte>)
    requires s != []
    ensures LastMasked(s, 0xff) == s
  {
    XorZero(s[|s| - 1]);
  }

  lemma PairIs(c: Context, h: Halves, i: int)
    requires Sized(h)
    ensures Pair(c, h, i) == OnePass(c, OnePass(c, h, false, i), true, i + 1)
    ensures UnPair(c, h, i) == OnePass(c, OnePass(c, h, true, i + 1), false, i)
  {
    hide Pass, KeyStream, XorBytes, LastMasked;
    PassIs(c, h.r, h.l, 0xff, i);
    AllBits(KeyStream(c, i, h.r, |h.l|));
    var l := Pass(c, h.r, h.l, 0xff, i);
    PassIs(c, l, h.r, c.mask, i + 1);
    PassIs(c, h.l, h.r, c.mask, i + 1);
    var r := Pass(c, h.l, h.r, c.mask, i + 1);
    PassIs(c, r, h.l, 0xff, i);
    AllBits(KeyStream(c, i, r, |h.l|));
  }

  lemma {:induction false} UpIs(c: Context, h: Halves, n: nat)
    requires Sized(h)
    ensures Up(c, h, n) == Forwards(c, h, 2 * n)
  {
    hide Pair, OnePass;
    if n != 0 {
      UpIs(c, h, n - 1);
      PairIs(c, Up(c, h, n - 1), 2 * (n - 1));
      assert Forwards(c, h, 2 * n - 1) == OnePass(c, Forwards(c, h, 2 * (n - 1)), false, 2 * (n - 1));
    }
  }

  // Two passes first, or last
  lemma {:induction false} BackwardsFirst(c: Context, h: Halves, n: nat, top: int)
    requires Sized(h)
    ensures Backwards(c, h, 2 * n + 2, top)
      == Backwards(c, OnePass(c, OnePass(c, h, true, top), false, top - 1), 2 * n, top - 2)
  {
    hide OnePass;
    var g := OnePass(c, OnePass(c, h, true, top), false, top - 1);
    if n == 0 {
      assert Backwards(c, h, 1, top) == OnePass(c, h, true, top);
    } else {
      BackwardsFirst(c, h, n - 1, top);
      assert Backwards(c, h, 2 * n + 1, top) == OnePass(c, Backwards(c, h, 2 * n, top), true, top - 2 * n);
      assert Backwards(c, g, 2 * n - 1, top - 2)
        == OnePass(c, Backwards(c, g, 2 * n - 2, top - 2), true, top - 2 - (2 * n - 2));
    }
  }

  lemma {:induction false} DownIs(c: Context, h: Halves, n: nat, base: int)
    requires Sized(h)
    ensures Down(c, h, n, base) == Backwards(c, h, 2 * n, base + 2 * n - 1)
    decreases n
  {
    hide UnPair, OnePass;
    if n != 0 {
      PairIs(c, h, base + 2 * (n - 1));
      var g := UnPair(c, h, base + 2 * (n - 1));
      DownIs(c, g, n - 1, base);
      BackwardsFirst(c, h, n - 1, base + 2 * n - 1);
    }
  }

  // The halves of the input, the last byte under the mask
  function LoadHalves(c: Context, input: seq<Byte>): (h: Halves)
    requires c.Valid() && |input| == c.length
    ensures Sized(h) && |h.l| == c.length / 2 && |h.l| + |h.r| == c.length
  {
    Halves(input[..c.length / 2], LastMasked(input[c.length / 2..], c.mask))
  }

  // Together again, with the bits outside the mask of the input
  function StoreHalves(c: Context, h: Halves, input: seq<Byte>): seq<Byte>
    requires c.Valid() && |input| == |h.l| + |h.r| && h.r != []
  {
    var s, n := h.l + h.r, |input| - 1;
    s[n := (s[n] & c.mask) | (input[n] & !c.mask)]
  }

  lemma LoadIs(c: Context, input: seq<Byte>)
    requires c.Valid() && |input| == c.length
    ensures Load(c, input) == LoadHalves(c, input)
  {
    var n := c.LeftSize();
    assert input[n..][..c.length - n - 1] == input[n..c.length - 1];
  }

  lemma StoreIs(c: Context, h: Halves, input: seq<Byte>)
    requires c.Valid() && |input| == c.length && |h.l| == c.LeftSize() && |h.r| == c.RightSize()
    ensures Store(c, h, input[c.length - 1]) == StoreHalves(c, h, input)
  {
    var n := |h.r| - 1;
    assert h.r == h.r[..n] + [h.r[n]];
  }

  /** Encryption is the passes in order, two at a time: one more than the number of rounds says when that is odd. */
  lemma EncryptIsFeistel(c: Context, input: seq<Byte>)
    requires c.Valid() && |input| == c.length
    ensures Encrypt(c, input)
      == StoreHalves(c, Forwards(c, LoadHalves(c, input), c.rounds + c.rounds % 2), input)
  {
    hide Up, Forwards, Load, Store, LoadHalves, StoreHalves;
    LoadIs(c, input);
    UpIs(c, Load(c, input), Pairs(c));
    StoreIs(c, Up(c, Load(c, input), Pairs(c)), input);
    assert 2 * Pairs(c) == c.rounds + c.rounds % 2;
  }

  /** Decryption is as many passes, with numbers that go down from the last. */
  lemma DecryptIsFeistel(c: Context, input: seq<Byte>)
    requires c.Valid() && |input| == c.length
    ensures Decrypt(c, input)
      == StoreHalves(c, Backwards(c, LoadHalves(c, input), c.rounds + c.rounds % 2, c.rounds - 1), input)
  {
    hide Down, Backwards, Load, Store, LoadHalves, StoreHalves;
    LoadIs(c, input);
    DownIs(c, Load(c, input), Pairs(c), Base(c));
    StoreIs(c, Down(c, Load(c, input), Pairs(c), Base(c)), input);
    assert 2 * Pairs(c) == c.rounds + c.rounds % 2 && Base(c) + 2 * Pairs(c) - 1 == c.rounds - 1;
  }
}
