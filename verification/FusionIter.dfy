/** fusion_aesgcm_encrypt_iter: one block at a time over a vector of input spans, each GHASH
    step reduced at once. It computes the same function as the pipelined encryptor. */
module FusionIter {
  import opened Gf2
  import opened Ghash
  import opened Bytes
  import opened Results
  import opened Gcm
  import opened FusionContext

  // struct fusion_input: the unread part of the current span, and the spans after it.
  datatype Input = Input(cur: seq<Byte>, rest: seq<seq<Byte>>)
  {
    ghost function Left(): seq<Byte> { cur + Concat(rest) }
  }

  // fusion_input_next: skips empty spans.
  method Next(src: Input) returns (r: Input, more: bool)
    ensures r.Left() == src.Left()
    ensures more <==> r.cur != []
    ensures more <==> src.Left() != []
  {
    r := src;
    while r.cur == [] && r.rest != []
      invariant r.Left() == src.Left()
      decreases |r.rest|
    {
      r := Input(r.rest[0], r.rest[1..]);
    }
    more := r.cur != [];
  }

  // fusion_input_read
  method Read(src: Input, max: nat) returns (data: seq<Byte>, r: Input)
    ensures data + r.Left() == src.Left()
    ensures |data| == if |src.Left()| < max then |src.Left()| else max
  {
    hide Concat;
    data, r := [], src;
    assert data + r.Left() == src.Left();
    var more := true;
    while |data| != max
      invariant |data| <= max && data + r.Left() == src.Left()
      decreases max - |data|
    {
      ghost var before := data + r.Left();
      r, more := Next(r);
      if !more {
        assert r.Left() == [];
        return;
      }
      var len := if max - |data| > |r.cur| then |r.cur| else max - |data|;
      var piece, rest := r.cur[..len], Input(r.cur[len..], r.rest);
      assert piece + rest.Left() == r.Left();
      assert data + piece + rest.Left() == data + (piece + rest.Left());
      data, r := data + piece, rest;
    }
  }

  // fusion_ghash_update128: feed one block and reduce.
  method GhashUpdate(ctx: AesGcmContext, g: State, x: Block, ghost xs: seq<Block>) returns (g': State)
    requires ctx.Valid() && g.lo == GhashOf(HashKey(ctx.aes, ctx.keys), xs)
    ensures g'.lo == GhashOf(HashKey(ctx.aes, ctx.keys), xs + [x])
  {
    var g1 := FirstStep(g, x, ctx.ghash[0]);
    g' := g1.(lo := DoReduce(g1));
    HornerStep(HashKey(ctx.aes, ctx.keys), g, x, xs, 0);
  }

  lemma HornerStep(h: U128, g: State, x: Block, xs: seq<Block>, z: U128)
    requires z == 0 && g.lo == GhashOf(h, xs)
    ensures DoReduce(FirstStep(g, x, MakeEntry(Power(h, 1)))) == GhashOf(h, xs + [x])
  {
    hide Xor, Mul, GfMul, DoReduce, DoStep, MakeEntry, Product, BE, Pow2, TransformH;
    var y := Add(g.lo, BE(x));
    StepAddsProduct(State(z, z, z), y, Power(h, 1));
    ReduceOfZero(z);
    XorZero(GfMul(y, TransformH(h)));
    GfMulIsProduct(y, h);
    assert (xs + [x])[..|xs|] == xs;
  }

  // The blocks of s up to a multiple of 16, and the shorter last one.
  lemma BlocksStep(s: seq<Byte>, k: nat, len: nat)
    requires k % 16 == 0 && 0 < len <= 16 && k + len <= |s| && (len == 16 || k + len == |s|)
    ensures Blocks(s[..k + len]) == Blocks(s[..k]) + [Pad(s[k..k + len])]
  {
    var a, b := Blocks(s[..k + len]), Blocks(s[..k]) + [Pad(s[k..k + len])];
    assert |a| == |b|;
    forall i | 0 <= i < |a|
      ensures a[i] == b[i]
    {
      assert a[i] == BlockAt(s[..k + len], i);
      if i < k / 16 {
        assert b[i] == BlockAt(s[..k], i);
        assert s[..k + len][16 * i..16 * i + 16] == s[..k][16 * i..16 * i + 16];
      } else {
        assert 16 * i == k;
        assert s[..k + len][k..] == s[k..k + len];
        assert len == 16 ==> s[..k + len][k..k + 16] == s[k..k + len];
      }
    }
  }

  // Additional data into GHASH.
  method HashAad(ctx: AesGcmContext, aad: seq<Byte>) returns (g: State)
    requires ctx.Valid()
    ensures g.lo == GhashOf(HashKey(ctx.aes, ctx.keys), Blocks(aad))
  {
    hide GhashOf, HashKey, Blocks;
    g := State(0, 0, 0);
    var pos: nat, aadlen: nat := 0, |aad|;
    EmptyBlocks(HashKey(ctx.aes, ctx.keys), aad[..0]);
    while aadlen >= 16
      invariant pos + aadlen == |aad| && pos % 16 == 0
      invariant g.lo == GhashOf(HashKey(ctx.aes, ctx.keys), Blocks(aad[..pos]))
    {
      BlocksStep(aad, pos, 16);
      assert Pad(aad[pos..pos + 16]) == aad[pos..pos + 16];
      g := GhashUpdate(ctx, g, aad[pos..pos + 16], Blocks(aad[..pos]));
      pos, aadlen := pos + 16, aadlen - 16;
    }
    if aadlen != 0 {
      BlocksStep(aad, pos, aadlen);
      g := GhashUpdate(ctx, g, Pad(aad[pos..pos + aadlen]), Blocks(aad[..pos]));
      pos := pos + aadlen;
    }
    assert aad[..pos] == aad;
  }

  lemma EmptyBlocks(h: U128, s: seq<Byte>)
    requires s == []
    ensures Blocks(s) == [] && GhashOf(h, Blocks(s)) == 0
  {}

  lemma XorPadded(block: seq<Byte>, bits: Block)
    requires |block| <= 16
    ensures XorBlocks(Pad(block), bits)[..|block|] == XorBytes(block, bits[..|block|])
  {}

  // One block: straight from the current span if it is long enough, otherwise gathered.
  method EncryptBlock(ctx: AesGcmContext, out: array<Byte>, at: nat, src: Input, left: nat, bits: Block,
      ghost n: U128, ghost p: seq<Byte>, ghost done: nat)
    returns (input: Input, enc: Block, data: seq<Byte>)
    requires ctx.Valid() && 0 < left && done + left == |p| && done % 16 == 0 && at + left <= out.Length
    requires src.Left() == p[done..]
    requires bits == Cipher(ctx.aes, ctx.keys, BlockOf(IncTimes(J0(n), 1 + done / 16)))
    modifies out
    ensures |data| == if left < 16 then left else 16
    ensures data == Gctr(ctx.aes, ctx.keys, n, p)[done..done + |data|] && enc == Pad(data)
    ensures input.Left() == p[done + |data|..]
    ensures forall i | 0 <= i < out.Length :: out[i] == if at <= i < at + |data| then data[i - at] else old(out[i])
  {
    hide Cipher, IncTimes, BlockOf, J0, Gctr;
    var more;
    input, more := Next(src);
    if more && |input.cur| >= 16 {
      assert input.Left()[..16] == input.cur[..16] == p[done..done + 16];
      assert input.Left()[16..] == input.cur[16..] + Concat(input.rest) == p[done + 16..];
      enc := XorBytes(input.cur[..16], bits);
      data := enc;
      CipherBlock(ctx.aes, ctx.keys, n, p, done, 16, bits);
      Store(out, at, data);
      input := Input(input.cur[16..], input.rest);
    } else {
      var block;
      block, input := Read(input, if left < 16 then left else 16);
      ghost var blocklen := |block|;
      assert block == p[done..done + blocklen] && input.Left() == p[done + blocklen..] by {
        assert block == (block + input.Left())[..blocklen] && input.Left() == (block + input.Left())[blocklen..];
      }
      CipherBlock(ctx.aes, ctx.keys, n, p, done, blocklen, bits);
      data := XorBlocks(Pad(block), bits)[..|block|];
      XorPadded(block, bits);
      Store(out, at, data);
      enc := Pad(data);
    }
  }

  // The text: block by block, each block hashed as it is written.
  method EncryptText(ctx: AesGcmContext, out: array<Byte>, dst: nat, src: Input, inlen: nat, ctrIn: U128, gIn: State,
      ghost n: U128, ghost a: seq<Block>)
    returns (g: State)
    requires ctx.Valid() && inlen == |src.Left()| < 0x1000_0000 && dst + inlen <= out.Length && ctrIn == J0(n)
    requires gIn.lo == GhashOf(HashKey(ctx.aes, ctx.keys), a)
    modifies out
    ensures out[dst..dst + inlen] == Gctr(ctx.aes, ctx.keys, n, src.Left())
    ensures forall i | 0 <= i < out.Length && !(dst <= i < dst + inlen) :: out[i] == old(out[i])
    ensures g.lo == GhashOf(HashKey(ctx.aes, ctx.keys), a + Blocks(Gctr(ctx.aes, ctx.keys, n, src.Left())))
  {
    hide GhashOf, HashKey, Blocks, Cipher, IncTimes, BlockOf, J0, Gctr, Pad, Add64, Concat, TableOk, Pow2;
    ghost var p := src.Left();
    ghost var c := Gctr(ctx.aes, ctx.keys, n, p);
    g := gIn;
    var input, ctr, left: nat := src, ctrIn, inlen;
    var done: nat := 0;
    EmptyBlocks(HashKey(ctx.aes, ctx.keys), c[..0]);
    assert a + Blocks(c[..0]) == a;
    while left != 0
      invariant done + left == inlen && (left != 0 ==> done % 16 == 0 && ctr == J0(n) + done / 16)
      invariant input.Left() == p[done..]
      invariant forall i | 0 <= i < out.Length :: out[i] == if dst <= i < dst + done then c[i - dst] else old(out[i])
      invariant g.lo == GhashOf(HashKey(ctx.aes, ctx.keys), a + Blocks(c[..done]))
      decreases left
    {
      Add64IsInc(n, done / 16);
      ctr := Add64(ctr);
      var bits := Cipher(ctx.aes, ctx.keys, BlockOf(ctr));
      var enc, data;
      input, enc, data := EncryptBlock(ctx, out, dst + done, input, left, bits, n, p, done);
      var blocklen := |data|;
      BlocksStep(c, done, blocklen);
      assert a + Blocks(c[..done + blocklen]) == a + Blocks(c[..done]) + [enc];
      g := GhashUpdate(ctx, g, enc, a + Blocks(c[..done]));
      left, done := left - blocklen, done + blocklen;
    }
    assert c[..done] == c;
  }

  lemma CipherBlock(aes: Aes, keys: seq<Block>, n: U128, p: seq<Byte>, done: nat, len: nat, bits: Block)
    requires |keys| >= 2 && done % 16 == 0 && 0 < len <= 16 && done + len <= |p|
    requires bits == Cipher(aes, keys, BlockOf(IncTimes(J0(n), 1 + done / 16)))
    ensures Gctr(aes, keys, n, p)[done..done + len] == XorBytes(p[done..done + len], bits[..len])
    ensures len == 16 ==> Gctr(aes, keys, n, p)[done..done + len] == XorBytes(p[done..done + len], bits)
    ensures len == 16 ==> Pad(Gctr(aes, keys, n, p)[done..done + len]) == Gctr(aes, keys, n, p)[done..done + len]
  {
    hide Cipher, IncTimes, BlockOf, J0;
    var c := Gctr(aes, keys, n, p);
    forall i | 0 <= i < len
      ensures c[done + i] == p[done + i] ^ bits[i]
    {
      assert (done + i) / 16 == done / 16 && (done + i) % 16 == i;
    }
  }

  // fusion_aesgcm_encrypt_iter
  method EncryptIter(ctx: AesGcmContext, out: array<Byte>, dst: nat, vecs: seq<seq<Byte>>, inlen: nat, ctrIn: U128,
      aad: seq<Byte>)
    requires ctx.Valid() && inlen == |Concat(vecs)| < 0x1000_0000 && |aad| < 0x1000_0000
      && dst + inlen + 16 <= out.Length
    modifies out
    ensures out[dst..dst + inlen + 16] == Seal(ctx.aes, ctx.keys, ctrIn, aad, Concat(vecs))
    ensures forall i | 0 <= i < out.Length && !(dst <= i < dst + inlen + 16) :: out[i] == old(out[i])
  {
    hide GhashOf, HashKey, Blocks, Cipher, IncTimes, BlockOf, Gctr, LengthBlock32, LengthBlock;
    var g := HashAad(ctx, aad);
    var ctr := InsertOne(ctrIn);
    var ek0 := Cipher(ctx.aes, ctx.keys, BlockOf(ctr));
    assert [] + Concat(vecs) == Concat(vecs);
    g := EncryptText(ctx, out, dst, Input([], vecs), inlen, ctr, g, ctrIn, Blocks(aad));
    ghost var c := Gctr(ctx.aes, ctx.keys, ctrIn, Concat(vecs));
    SmallLengths(|aad|, inlen);
    var ac := LengthBlock32(|aad|, inlen);
    g := GhashUpdate(ctx, g, ac, Blocks(aad) + Blocks(c));
    Store(out, dst + inlen, GetTag(g.lo, ek0));
    assert out[dst..dst + inlen] == c;
  }

  lemma SmallLengths(aadlen: nat, textlen: nat)
    requires aadlen < 0x1000_0000 && textlen < 0x1000_0000
    ensures LengthBlock32(aadlen, textlen) == LengthBlock(aadlen, textlen)
  {
    Pow2Of32();
    Pow2Monotone(32, 61);
    LengthBlockExact(aadlen, textlen);
  }
}
