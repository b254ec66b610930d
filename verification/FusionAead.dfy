/** The AEAD callbacks of lib/fusion.c: nonce construction, capacity, the gathering of input
    vectors that may overlap the output, and decryption with its length check. */
module FusionAead {
  import opened Gf2
  import opened Ghash
  import opened Bytes
  import opened Results
  import opened Gcm
  import opened FusionContext
  import opened FusionEncrypt
  import FusionDecrypt

  // ---------------------------------------------------------------- GCM-AD of SP 800-38D

  function Open(aes: Aes, keys: seq<Block>, n: U128, a: seq<Byte>, ct: seq<Byte>): Option<seq<Byte>>
    requires |keys| >= 2
  {
    if |ct| < 16 then None
    else
      var c := ct[..|ct| - 16];
      if ct[|ct| - 16..] == TagOf(aes, keys, n, a, c) then Some(Gctr(aes, keys, n, c)) else None
  }

  lemma OpenInvertsSeal(aes: Aes, keys: seq<Block>, n: U128, a: seq<Byte>, p: seq<Byte>)
    requires |keys| >= 2
    ensures Open(aes, keys, n, a, Seal(aes, keys, n, a, p)) == Some(p)
  {
    hide TagOf, KeyStreamByte;
    var c := Gctr(aes, keys, n, p);
    var ct := Seal(aes, keys, n, a, p);
    assert ct[..|ct| - 16] == c && ct[|ct| - 16..] == TagOf(aes, keys, n, a, c);
    GctrInvolution(aes, keys, n, p);
  }

  // What opens is what was sealed, and nothing else.
  lemma OpenOnlySealed(aes: Aes, keys: seq<Block>, n: U128, a: seq<Byte>, ct: seq<Byte>, p: seq<Byte>)
    requires |keys| >= 2
    ensures Open(aes, keys, n, a, ct) == Some(p) <==> ct == Seal(aes, keys, n, a, p)
  {
    hide TagOf, KeyStreamByte;
    OpenInvertsSeal(aes, keys, n, a, p);
    if Open(aes, keys, n, a, ct) == Some(p) {
      var c := ct[..|ct| - 16];
      GctrInvolution(aes, keys, n, c);
      assert ct == c + ct[|ct| - 16..];
    }
  }

  // ---------------------------------------------------------------- the nonce

  // calc_counter: the static IV sits in the upper 96 bits.
  function CalcCounter(staticIv: U128, sequence: nat): U128
    requires staticIv % WORD32 == 0 && sequence < 0x1_0000_0000_0000_0000
  {
    Pow2Words();
    Add(staticIv, sequence * WORD32)
  }

  // The decryptor relies on the low 32 bits; distinct sequence numbers give distinct nonces.
  lemma CounterLowBits(staticIv: U128, sequence: nat)
    requires staticIv % WORD32 == 0 && sequence < 0x1_0000_0000_0000_0000
    ensures CalcCounter(staticIv, sequence) % WORD32 == 0
  {
    hide Xor;
    Pow2Of32();
    var q := staticIv / WORD32;
    ShlIsProduct(q, 32);
    ShlIsProduct(sequence, 32);
    XorShift(q, sequence, 32);
    ShlIsProduct(Xor(q, sequence), 32);
  }

  lemma NonceInjective(staticIv: U128, s1: nat, s2: nat)
    requires staticIv % WORD32 == 0 && s1 < 0x1_0000_0000_0000_0000 && s2 < 0x1_0000_0000_0000_0000
    requires CalcCounter(staticIv, s1) == CalcCounter(staticIv, s2)
    ensures s1 == s2
  {
    XorCancel(staticIv, s1 * WORD32);
    XorCancel(staticIv, s2 * WORD32);
  }

  // ---------------------------------------------------------------- gathering vectors

  // A span of memory.
  datatype Vec = Vec(base: nat, len: nat)

  function VecsLength(vecs: seq<Vec>): nat
  {
    if vecs == [] then 0 else vecs[0].len + VecsLength(vecs[1..])
  }

  ghost function Contents(m: seq<Byte>, vecs: seq<Vec>): (s: seq<Byte>)
    requires InBounds(vecs, |m|)
    ensures |s| == VecsLength(vecs)
  {
    if vecs == [] then []
    else m[vecs[0].base..vecs[0].base + vecs[0].len] + Contents(m, vecs[1..])
  }

  ghost predicate InBounds(vecs: seq<Vec>, size: nat)
  {
    forall i | 0 <= i < |vecs| :: vecs[i].base + vecs[i].len <= size
  }

  predicate Disjoint(a: nat, alen: nat, b: nat, blen: nat) { a + alen <= b || b + blen <= a || alen == 0 || blen == 0 }

  // Vector i lies either outside the output or exactly where it will end up.
  ghost predicate Settled(vecs: seq<Vec>, out: nat, inlen: nat, off: nat)
  {
    vecs == [] || (
      && (Disjoint(vecs[0].base, vecs[0].len, out, inlen) || vecs[0].base == out + off)
      && Settled(vecs[1..], out, inlen, off + vecs[0].len))
  }

  // The overlap check of aead_do_encrypt_v.
  method NeedsScratch(vecs: seq<Vec>, out: nat, inlen: nat) returns (useScratch: bool)
    requires inlen == VecsLength(vecs)
    ensures !useScratch ==> Settled(vecs, out, inlen, 0)
  {
    var rest, off: nat := vecs, 0;
    useScratch := false;
    while rest != []
      invariant Settled(rest, out, inlen, off) ==> Settled(vecs, out, inlen, 0)
      decreases |rest|
    {
      var v := rest[0];
      if v.len != 0 && v.base < out + inlen && out < v.base + v.len && v.base != out + off {
        useScratch := true;
        return;
      }
      rest, off := rest[1..], off + v.len;
    }
  }

  ghost predicate Apart(vecs: seq<Vec>, buf: nat, len: nat)
  {
    forall i | 0 <= i < |vecs| :: Disjoint(vecs[i].base, vecs[i].len, buf, len)
  }

  // Memory in which only the first bytes of buf have been overwritten.
  ghost predicate Staged(mem: seq<Byte>, m0: seq<Byte>, buf: nat, staged: seq<Byte>)
  {
    && |mem| == |m0|
    && forall i | 0 <= i < |mem| :: mem[i] == if buf <= i < buf + |staged| then staged[i - buf] else m0[i]
  }

  // One memmove: the vector still holds what it held on entry.
  method StageOne(mem: array<Byte>, buf: nat, off: nat, v: Vec, inlen: nat, ghost m0: seq<Byte>,
      ghost staged: seq<Byte>)
    requires v.base + v.len <= mem.Length && buf + inlen <= mem.Length && off + v.len <= inlen && |staged| == off
    requires Disjoint(v.base, v.len, buf, inlen) || v.base == buf + off
    requires Staged(mem[..], m0, buf, staged)
    modifies mem
    ensures Staged(mem[..], m0, buf, staged + m0[v.base..v.base + v.len])
  {
    var data := mem[v.base..v.base + v.len];
    assert data == m0[v.base..v.base + v.len];
    if v.len != 0 {
      Store(mem, buf + off, data);
    }
  }

  // The memmove loop: buf receives the vectors as they were on entry.
  method Stage(mem: array<Byte>, buf: nat, vecs: seq<Vec>, inlen: nat)
    requires InBounds(vecs, mem.Length) && inlen == VecsLength(vecs) && buf + inlen <= mem.Length
    requires Settled(vecs, buf, inlen, 0) || Apart(vecs, buf, inlen)
    modifies mem
    ensures mem[buf..buf + inlen] == Contents(old(mem[..]), vecs)
    ensures forall i | 0 <= i < mem.Length && !(buf <= i < buf + inlen) :: mem[i] == old(mem[i])
  {
    hide Contents;
    ghost var m0 := mem[..];
    var rest, off: nat := vecs, 0;
    ghost var staged: seq<Byte> := [];
    while rest != []
      invariant off + VecsLength(rest) == inlen && InBounds(rest, mem.Length)
      invariant Settled(rest, buf, inlen, off) || Apart(rest, buf, inlen)
      invariant |staged| == off && staged + Contents(m0, rest) == Contents(m0, vecs)
      invariant Staged(mem[..], m0, buf, staged)
      decreases |rest|
    {
      ContentsStep(m0, rest);
      StageOne(mem, buf, off, rest[0], inlen, m0, staged);
      staged := staged + m0[rest[0].base..rest[0].base + rest[0].len];
      rest, off := rest[1..], off + rest[0].len;
    }
    ContentsStep(m0, rest);
    assert mem[buf..buf + inlen] == staged;
  }

  lemma ContentsStep(m: seq<Byte>, vecs: seq<Vec>)
    requires InBounds(vecs, |m|)
    ensures vecs == [] ==> Contents(m, vecs) == []
    ensures vecs != [] ==> Contents(m, vecs) == m[vecs[0].base..vecs[0].base + vecs[0].len] + Contents(m, vecs[1..])
  {}

  // ---------------------------------------------------------------- callbacks

  // aead_do_encrypt
  method DoEncrypt(ctx: AesGcmContext, mem: array<Byte>, out: nat, input: nat, inlen: nat, nonce: U128, aad: nat,
      aadlen: nat, supp: Supp)
    returns (suppOut: Option<Block>)
    requires ctx.Valid() && inlen < 0x1000_0000 && aadlen < 0x1000_0000
    requires Placed(mem.Length, out, inlen + 16, input, inlen)
    requires aad + aadlen <= mem.Length && (aad + aadlen <= out || out + inlen + 16 <= aad)
    requires supp.Supp? ==> supp.input + 16 <= mem.Length && |supp.keys| == |ctx.keys|
    modifies ctx, mem
    ensures ctx.Valid()
    ensures mem[out..out + inlen + 16]
      == Seal(ctx.aes, ctx.keys, nonce, old(mem[aad..aad + aadlen]), old(mem[input..input + inlen]))
    ensures forall i | 0 <= i < mem.Length && !(out <= i < out + inlen + 16) :: mem[i] == old(mem[i])
    ensures suppOut == if supp.NoSupp? then None else Some(Cipher(ctx.aes, supp.keys, mem[supp.input..supp.input + 16]))
  {
    hide Seal, Cipher, TagOf, TableOk;
    ctx.EnsureCapacity(inlen, aadlen);
    ghost var job := Job(ctx.aes, ctx.keys, nonce, mem[aad..aad + aadlen], mem[input..input + inlen], 16);
    suppOut := Encrypt(ctx, mem, out, input, inlen, nonce, aad, aadlen, supp, job);
  }

  // aead_do_encrypt_v. With two or more vectors (or none) they may lie anywhere, also across
  // the output; scratch stands for the memory aesgcm_get_scratch would return.
  method DoEncryptV(ctx: AesGcmContext, mem: array<Byte>, out: nat, vecs: seq<Vec>, inlen: nat, nonce: U128, aad: nat,
      aadlen: nat, scratch: nat)
    requires ctx.Valid() && inlen == VecsLength(vecs) < 0x1000_0000 && aadlen < 0x1000_0000
    requires InBounds(vecs, mem.Length) && out + inlen + 16 <= mem.Length
    requires |vecs| == 1 ==> Placed(mem.Length, out, inlen + 16, vecs[0].base, vecs[0].len)
    requires aad + aadlen <= mem.Length && (aad + aadlen <= out || out + inlen + 16 <= aad)
    requires scratch + inlen <= mem.Length && Apart(vecs, scratch, inlen)
    requires (out + inlen + 16 <= scratch || scratch + inlen <= out)
      && (aad + aadlen <= scratch || scratch + inlen <= aad)
    modifies ctx, mem
    ensures ctx.Valid()
    ensures mem[out..out + inlen + 16]
      == Seal(ctx.aes, ctx.keys, nonce, old(mem[aad..aad + aadlen]), Contents(old(mem[..]), vecs))
    ensures forall i | 0 <= i < mem.Length && !(out <= i < out + inlen + 16)
      && !(scratch <= i < scratch + inlen) :: mem[i] == old(mem[i])
  {
    hide Seal, Settled, TableOk, Contents, Apart;
    var unused;
    if |vecs| == 1 {
      OneVector(mem[..], vecs);
      unused := DoEncrypt(ctx, mem, out, vecs[0].base, vecs[0].len, nonce, aad, aadlen, NoSupp);
      return;
    }
    var useScratch := NeedsScratch(vecs, out, inlen);
    var buf := if useScratch then scratch else out;
    Stage(mem, buf, vecs, inlen);
    assert mem[aad..aad + aadlen] == old(mem[aad..aad + aadlen]);
    unused := DoEncrypt(ctx, mem, out, buf, inlen, nonce, aad, aadlen, NoSupp);
    if useScratch {
      // ptls_clear_memory
      ghost var sealed := mem[out..out + inlen + 16];
      Store(mem, buf, seq(inlen, i => 0));
      assert mem[out..out + inlen + 16] == sealed;
    }
  }

  lemma OneVector(m: seq<Byte>, vecs: seq<Vec>)
    requires |vecs| == 1 && InBounds(vecs, |m|)
    ensures VecsLength(vecs) == vecs[0].len && Contents(m, vecs) == m[vecs[0].base..vecs[0].base + vecs[0].len]
  {
    assert vecs[1..] == [];
  }

  // aead_do_decrypt
  method DoDecrypt(ctx: AesGcmContext, mem: array<Byte>, out: nat, input: nat, inlen: nat, nonce: U128, aad: nat,
      aadlen: nat)
    returns (r: Option<nat>)
    requires ctx.Valid() && inlen < 0x1000_0000 && aadlen < 0x1000_0000 && nonce % WORD32 == 0
    requires input + inlen <= mem.Length && out + inlen <= mem.Length
    requires out == input || out + inlen <= input || input + inlen <= out
    requires aad + aadlen <= mem.Length && (aad + aadlen <= out || out + inlen <= aad)
    modifies ctx, mem
    ensures ctx.Valid()
    ensures r == match Open(ctx.aes, ctx.keys, nonce, old(mem[aad..aad + aadlen]), old(mem[input..input + inlen]))
                 case None => None
                 case Some(p) => Some(|p|)
    ensures r.Some? ==> r.value + 16 == inlen &&
                        Some(mem[out..out + r.value])
                          == Open(ctx.aes, ctx.keys, nonce, old(mem[aad..aad + aadlen]), old(mem[input..input + inlen]))
    ensures forall i | 0 <= i < mem.Length && !(out <= i < out + inlen) :: mem[i] == old(mem[i])
  {
    hide TagOf, KeyStreamByte, TableOk;
    if inlen < 16 {
      return None;
    }
    var enclen := inlen - 16;
    ctx.EnsureCapacity(enclen, aadlen);
    ghost var ct := mem[input..input + inlen];
    assert ct[..enclen] == mem[input..input + enclen] && ct[enclen..] == mem[input + enclen..input + enclen + 16];
    ghost var job := Job(ctx.aes, ctx.keys, nonce, mem[aad..aad + aadlen], mem[input..input + enclen], 0);
    var ok := FusionDecrypt.Decrypt(ctx, mem, out, input, enclen, nonce, aad, aadlen, input + enclen, job);
    if !ok {
      return None;
    }
    r := Some(enclen);
  }
}
