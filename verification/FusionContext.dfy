/** The AES-GCM context of lib/fusion.c: expanded keys, the table of powers of the hash key
    and its capacity; and the small register-level helpers shared by the encryptors. */
module FusionContext {
  import opened Gf2
  import opened Ghash
  import opened Bytes
  import opened Results
  import opened Gcm

  // aesgcm_calc_ghash_cnt
  function GhashCount(capacity: nat): nat { (capacity + 15) / 16 + 2 }

  // Whatever the split between additional data and text, the table is long enough.
  lemma CapacityCoversSplit(aadlen: nat, textlen: nat)
    ensures BlockCount(aadlen) + BlockCount(textlen) + 1 <= GhashCount(aadlen + textlen)
  {}

  class AesGcmContext {
    const aes: Aes
    const keys: seq<Block>
    var capacity: nat
    var ghash: seq<Entry>

    // The table holds consecutive powers, enough of them for the capacity.
    ghost predicate Valid()
      reads this
    {
      && |keys| >= 11
      && |ghash| >= GhashCount(capacity)
      && TableOk(aes, keys, ghash)
    }

    // new_aesgcm
    constructor (aes: Aes, keys: seq<Block>, capacity: nat)
      requires |keys| >= 11
      ensures Valid()
      ensures this.aes == aes && this.keys == keys && this.capacity == capacity
      ensures |ghash| == GhashCount(capacity)
    {
      this.aes := aes;
      this.keys := keys;
      this.capacity := capacity;
      ghash := [];
      new;
      Grow(GhashCount(capacity));
    }

    // The loop around setup_one_ghash_entry.
    method Grow(count: nat)
      requires |keys| >= 11 && TableOk(aes, keys, ghash)
      modifies this`ghash
      ensures TableOk(aes, keys, ghash)
      ensures |ghash| == if count <= old(|ghash|) then old(|ghash|) else count
      ensures old(ghash) <= ghash
    {
      hide Xor, Mul, GfMul, TransformH, SwapHalves, Pow2, Cipher, BE;
      var h0 := TransformH(BE(Cipher(aes, keys, ZeroBlock())));
      while |ghash| < count
        invariant TableOk(aes, keys, ghash)
        invariant |ghash| <= count || |ghash| == old(|ghash|)
        invariant old(ghash) <= ghash
      {
        // setup_one_ghash_entry
        var h := if ghash == [] then h0 else GfMul(ghash[|ghash| - 1].H, h0);
        assert h == Power(HashKey(aes, keys), |ghash| + 1);
        ghash := ghash + [Entry(h, Add(SwapHalves(h), h))];
      }
    }

    // ptls_fusion_aesgcm_set_capacity: returns early, with the capacity as it was, when the
    // table is long enough already.
    method SetCapacity(newCapacity: nat)
      requires Valid() && newCapacity > capacity
      modifies this
      ensures Valid()
      ensures |ghash| >= GhashCount(newCapacity)
      ensures old(ghash) <= ghash
    {
      var count := GhashCount(newCapacity);
      if count <= |ghash| {
        return;
      }
      capacity := newCapacity;
      Grow(count);
    }

    // aesgcm_ensure_capacity
    method EnsureCapacity(textlen: nat, aadlen: nat)
      requires Valid()
      modifies this
      ensures Valid()
      ensures BlockCount(aadlen) + BlockCount(textlen) + 1 <= |ghash|
    {
      CapacityCoversSplit(aadlen, textlen);
      if textlen + aadlen > capacity {
        SetCapacity(textlen + aadlen);
      }
    }
  }

  ghost predicate TableOk(aes: Aes, keys: seq<Block>, table: seq<Entry>)
    requires |keys| >= 2
  {
    forall i | 0 <= i < |table| :: table[i] == MakeEntry(Power(HashKey(aes, keys), i + 1))
  }

  // gfmul_nextstep128
  function NextStep(g: State, x: Block, e: Entry): State { DoStep(g, BE(x), e) }

  // gfmul_firststep128
  function FirstStep(g: State, x: Block, e: Entry): State { DoStep(State(0, 0, 0), Add(g.lo, BE(x)), e) }

  // gfmul_get_tag128
  function GetTag(lo: U128, ek0: Block): Block { XorBlocks(BlockOf(lo), ek0) }

  // ---------------------------------------------------------------- the counter

  // _mm_add_epi64(ctr, one8): only the low 64 bits count.
  function Add64(ctr: U128): U128
  {
    Pow2Words();
    ctr - ctr % WORD + (ctr % WORD + 1) % WORD
  }

  // _mm_insert_epi32(ctr, 1, 0)
  function InsertOne(ctr: U128): U128
  {
    Pow2Words();
    ctr - ctr % WORD32 + 1
  }

  // The 64-bit increment is the inc32 of the standard until the 32-bit count is used up.
  lemma Add64IsInc(n: U128, k: nat)
    requires k + 2 < WORD32
    ensures J0(n) + k < Pow2(128)
    ensures Add64(J0(n) + k) == J0(n) + k + 1
    ensures J0(n) + k + 1 == IncTimes(J0(n), k + 1)
  {
    hide IncTimes, Pow2;
    Pow2Words();
    IncTimesIsSum(n, k + 1);
    IncTimesIsSum(n, k);
    var q := n / WORD32;
    LowWord(q / WORD32, q % WORD32, 1 + k);
  }

  lemma LowWord(a: nat, b: nat, c: nat)
    requires b < WORD32 && c + 1 < WORD32
    ensures ((a * WORD32 + b) * WORD32 + c) % WORD == b * WORD32 + c < WORD - 1
  {}

  // ---------------------------------------------------------------- the length block

  // (int)len * 8
  function BitLength32(len: nat): nat { (8 * len) % WORD32 }

  // The block `ac`: two 32-bit lengths, each in the low half of a 64-bit lane.
  function LengthBlock32(aadlen: nat, textlen: nat): Block
  {
    Pow2Words();
    BlockOf(BitLength32(aadlen) * WORD + BitLength32(textlen))
  }

  lemma {:induction false} BytesOfNatShift(a: nat, b: nat, j: nat, k: nat)
    requires b < Pow2(8 * k)
    ensures BytesOfNat(a * Pow2(8 * k) + b, j + k) == BytesOfNat(a, j) + BytesOfNat(b, k)
    decreases k
  {
    hide LowByte, Pow2;
    if k == 0 {
      Pow2AtZero();
    } else {
      var w := Pow2(8 * (k - 1));
      var n := a * Pow2(8 * k) + b;
      Pow2Add(8, 8 * (k - 1));
      Pow2Of32();
      ByteOut(a, w, b);
      BytesOfNatShift(a, b / 256, j, k - 1);
      LowByteMod(n, b);
      assert BytesOfNat(n, j + k) == BytesOfNat(n / 256, j + (k - 1)) + [LowByte(n)];
    }
  }

  lemma LowByteMod(m: nat, n: nat)
    requires m % 256 == n % 256
    ensures LowByte(m) == LowByte(n)
  {}

  lemma ByteOut(a: nat, w: nat, b: nat)
    ensures (a * (256 * w) + b) / 256 == a * w + b / 256
    ensures (a * (256 * w) + b) % 256 == b % 256
  {
    assert a * (256 * w) == 256 * (a * w);
  }

  lemma NatOfBytesAppend(s: seq<Byte>, b: Byte)
    ensures NatOfBytes(s + [b]) == NatOfBytes(s) * 256 + b as nat
  {
    assert (s + [b])[..|s|] == s;
  }

  lemma {:induction false} NatOfBytesOfNat(n: nat, k: nat)
    requires n < Pow2(8 * k)
    ensures NatOfBytes(BytesOfNat(n, k)) == n
    decreases k
  {
    if k != 0 {
      assert n / 256 < Pow2(8 * (k - 1)) by {
        hide Pow2;
        Pow2Add(8, 8 * (k - 1));
        Pow2Of32();
      }
      NatOfBytesOfNat(n / 256, k - 1);
      LastByte(n, k);
    }
  }

  lemma LastByte(n: nat, k: nat)
    requires k > 0
    ensures NatOfBytes(BytesOfNat(n, k)) == NatOfBytes(BytesOfNat(n / 256, k - 1)) * 256 + n % 256
  {
    hide NatOfBytes, LowByte, Pow2;
    NatOfBytesAppend(BytesOfNat(n / 256, k - 1), LowByte(n));
    LowByteValue(n);
  }

  // Exactly below 2^29 bytes the 32-bit lengths give the block that the standard asks for.
  lemma LengthBlockExact(aadlen: nat, textlen: nat)
    requires aadlen < Pow2(61) && textlen < Pow2(61)
    ensures LengthBlock32(aadlen, textlen) == LengthBlock(aadlen, textlen)
            <==> aadlen < 0x2000_0000 && textlen < 0x2000_0000
  {
    hide BytesOfNat, NatOfBytes;
    Pow2Words();
    Pow2Add(61, 3);
    assert Pow2(3) == 8;
    var a, t := BitLength32(aadlen), BitLength32(textlen);
    BytesOfNatShift(a, t, 8, 8);
    var l32a, l32t := BytesOfNat(a, 8), BytesOfNat(t, 8);
    var la, lt := BytesOfNat(8 * aadlen, 8), BytesOfNat(8 * textlen, 8);
    assert LengthBlock32(aadlen, textlen) == l32a + l32t;
    if LengthBlock32(aadlen, textlen) == LengthBlock(aadlen, textlen) {
      assert l32a == (l32a + l32t)[..8] == (la + lt)[..8] == la;
      assert l32t == (l32a + l32t)[8..] == (la + lt)[8..] == lt;
      NatOfBytesOfNat(a, 8);
      NatOfBytesOfNat(t, 8);
      NatOfBytesOfNat(8 * aadlen, 8);
      NatOfBytesOfNat(8 * textlen, 8);
    }
  }

  // A text of 2^29 bytes: its length in bits is taken for zero.
  lemma LengthBlockWraps()
    ensures LengthBlock32(0, 0x2000_0000) != LengthBlock(0, 0x2000_0000)
    ensures LengthBlock32(0, 0x2000_0000) == LengthBlock32(0, 0)
  {
    hide BytesOfNat, NatOfBytes;
    Pow2Words();
    Pow2Add(61, 3);
    assert Pow2(3) == 8;
    LengthBlockExact(0, 0x2000_0000);
  }

  // ---------------------------------------------------------------- memory

  method Store(mem: array<Byte>, off: nat, data: seq<Byte>)
    requires off + |data| <= mem.Length
    modifies mem
    ensures forall i | 0 <= i < mem.Length ::
              mem[i] == if off <= i < off + |data| then data[i - off] else old(mem[i])
  {
    forall i | 0 <= i < |data| {
      mem[off + i] := data[i];
    }
  }
}
