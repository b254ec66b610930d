/** ChaCha20 with a keystream cache (lib/openssl.c) and the streaming AEAD on top of it
    (lib/chacha20poly1305.h), against the one-shot AEAD of section 2.8 of RFC 8439. */
module ChaCha {
  import opened Bytes
  import opened Results

  const BLOCK: nat := 64
  const WRAP: nat := 0x1_0000_0000

  type Block64 = b: seq<Byte> | |b| == 64 witness seq(64, i => 0)

  // The ChaCha20 block function for one key, by nonce and 32-bit block counter; and Poly1305.
  datatype Primitives = Primitives(block: (seq<Byte>, nat) -> Block64, mac: (seq<Byte>, seq<Byte>) -> Block)

  // ---------------------------------------------------------------- the ideal keystream

  // Byte number pos of the keystream that starts with block counter start
  function StreamByte(p: Primitives, nonce: seq<Byte>, start: nat, pos: nat): Byte
  {
    p.block(nonce, (start + pos / BLOCK) % WRAP)[pos % BLOCK]
  }

  function Stream(p: Primitives, nonce: seq<Byte>, start: nat, pos: nat, n: nat): (r: seq<Byte>)
    ensures |r| == n
  {
    seq(n, i requires 0 <= i < n => StreamByte(p, nonce, start, pos + i))
  }

  lemma StreamSplit(p: Primitives, nonce: seq<Byte>, start: nat, pos: nat, m: nat, n: nat)
    ensures Stream(p, nonce, start, pos, m + n)
         == Stream(p, nonce, start, pos, m) + Stream(p, nonce, start, pos + m, n)
  {
    hide StreamByte;
    var l := Stream(p, nonce, start, pos, m) + Stream(p, nonce, start, pos + m, n);
    forall i | 0 <= i < m + n ensures l[i] == StreamByte(p, nonce, start, pos + i) {
      if i >= m { assert pos + m + (i - m) == pos + i; }
    }
  }

  // Data xored with the keystream from position pos on
  function Crypt(p: Primitives, nonce: seq<Byte>, start: nat, pos: nat, data: seq<Byte>): (r: seq<Byte>)
    ensures |r| == |data|
  {
    XorBytes(data, Stream(p, nonce, start, pos, |data|))
  }

  lemma CryptSplit(p: Primitives, nonce: seq<Byte>, start: nat, pos: nat, x: seq<Byte>, y: seq<Byte>)
    ensures Crypt(p, nonce, start, pos, x + y)
         == Crypt(p, nonce, start, pos, x) + Crypt(p, nonce, start, pos + |x|, y)
  {
    hide Stream;
    StreamSplit(p, nonce, start, pos, |x|, |y|);
  }

  lemma CryptTwice(p: Primitives, nonce: seq<Byte>, start: nat, pos: nat, data: seq<Byte>)
    ensures Crypt(p, nonce, start, pos, Crypt(p, nonce, start, pos, data)) == data
  {
    hide Stream;
    XorBytesTwice(data, Stream(p, nonce, start, pos, |data|));
  }

  // ---------------------------------------------------------------- CRYPTO_chacha_20

  function Bulk(p: Primitives, nonce: seq<Byte>, ctr: nat, data: seq<Byte>): (r: seq<Byte>)
    ensures |r| == |data|
  {
    XorBytes(data, seq(|data|, i requires 0 <= i < |data| => p.block(nonce, (ctr + i / BLOCK) % WRAP)[i % BLOCK]))
  }

  lemma WrapAdd(a: nat, b: nat)
    ensures (a % WRAP + b) % WRAP == (a + b) % WRAP
  {
    var q := a / WRAP;
    assert a + b == (a % WRAP + b) + q * WRAP;
    ModShift(a % WRAP + b, q);
  }

  lemma ModShift(x: nat, q: nat)
    ensures (x + q * WRAP) % WRAP == x % WRAP
  {
    if q != 0 {
      ModShift(x, q - 1);
      assert x + q * WRAP == x + (q - 1) * WRAP + WRAP;
    }
  }

  // At a block boundary the bulk function is the keystream.
  lemma BulkIsCrypt(p: Primitives, nonce: seq<Byte>, start: nat, pos: nat, data: seq<Byte>)
    requires pos % BLOCK == 0
    ensures Bulk(p, nonce, (start + pos / BLOCK) % WRAP, data) == Crypt(p, nonce, start, pos, data)
  {
    var ctr := (start + pos / BLOCK) % WRAP;
    var ks := seq(|data|, i requires 0 <= i < |data| => p.block(nonce, (ctr + i / BLOCK) % WRAP)[i % BLOCK]);
    forall i | 0 <= i < |data| ensures ks[i] == StreamByte(p, nonce, start, pos + i) {
      WrapAdd(start + pos / BLOCK, i / BLOCK);
      assert (pos + i) / BLOCK == pos / BLOCK + i / BLOCK && (pos + i) % BLOCK == i % BLOCK;
    }
    assert ks == Stream(p, nonce, start, pos, |data|);
  }

  // ---------------------------------------------------------------- the cipher with its cache

  class ChaCha20 {
    const p: Primitives
    var nonce: seq<Byte>
    // keystream.ctr, keystream.bytes, keystream.len
    var ctr: nat
    var bytes: seq<Byte>
    var len: nat
    // Where in which keystream the cipher is
    ghost var start: nat
    ghost var pos: nat

    /** The cache is the unused rest of the block at the current position, and the counter is that
        of the next block. */
    ghost predicate Valid()
      reads this
    {
      && |bytes| == BLOCK && len < BLOCK
      && (pos + len) % BLOCK == 0
      && ctr == (start + (pos + len) / BLOCK) % WRAP
      && bytes[BLOCK - len..] == Stream(p, nonce, start, pos, len)
    }

    constructor (p: Primitives)
      ensures this.p == p && Valid()
    {
      this.p := p;
      nonce, ctr, bytes, len, start, pos := [], 0, seq(64, i => 0), 0, 0, 0;
    }

    // boringssl_chacha20_init
    method Init(nonce: seq<Byte>, counter: nat)
      requires counter < WRAP
      modifies this
      ensures this.nonce == nonce && start == counter && pos == 0
      ensures |old(bytes)| == BLOCK ==> Valid()
    {
      this.nonce := nonce;
      ctr := counter;
      len := 0;
      start, pos := counter, 0;
    }

    // boringssl_chacha20_transform_buffered: as much as the cache covers.
    method TransformBuffered(input: seq<Byte>) returns (output: seq<Byte>)
      requires Valid()
      modifies this
      ensures Valid() && nonce == old(nonce) && start == old(start)
      ensures |output| == (if |input| < old(len) then |input| else old(len)) && len == old(len) - |output|
      ensures pos == old(pos) + |output|
      ensures output == Crypt(p, nonce, start, old(pos), input[..|output|])
    {
      hide Stream;
      var apply := if |input| < len then |input| else len;
      var ks := bytes[BLOCK - len..];
      StreamSplit(p, nonce, start, pos, apply, len - apply);
      output := XorLoop(input[..apply], ks[..apply]);
      len := len - apply;
      pos := pos + apply;
      assert bytes[BLOCK - len..] == ks[apply..];
    }

    // Whole blocks, straight from the bulk function.
    method TransformBlocks(input: seq<Byte>) returns (output: seq<Byte>)
      requires Valid() && len == 0
      modifies this
      ensures Valid() && len == 0 && nonce == old(nonce) && start == old(start)
      ensures |output| == |input| / BLOCK * BLOCK && pos == old(pos) + |output|
      ensures output == Crypt(p, nonce, start, old(pos), input[..|output|])
    {
      hide StreamByte, Bulk, Crypt;
      var blocks := |input| / BLOCK;
      var n := blocks * BLOCK;
      output := Bulk(p, nonce, ctr, input[..n]);
      BulkIsCrypt(p, nonce, start, pos, input[..n]);
      WrapAdd(start + pos / BLOCK, blocks);
      ctr := (ctr + blocks) % WRAP;
      pos := pos + n;
      BlocksAdvance(old(pos), blocks);
    }

    // Fill the cache with the next block.
    method Refill()
      requires Valid() && len == 0
      modifies this
      ensures |bytes| == BLOCK && len == BLOCK && nonce == old(nonce) && start == old(start) && pos == old(pos)
      ensures ctr == (start + (pos + BLOCK) / BLOCK) % WRAP && pos % BLOCK == 0
      ensures bytes == Stream(p, nonce, start, pos, BLOCK)
    {
      bytes := p.block(nonce, ctr);
      forall i | 0 <= i < BLOCK ensures bytes[i] == StreamByte(p, nonce, start, pos + i) {
        assert (pos + i) / BLOCK == pos / BLOCK && (pos + i) % BLOCK == i;
      }
      WrapAdd(start + pos / BLOCK, 1);
      ctr := (ctr + 1) % WRAP;
      len := BLOCK;
    }

    // The last bytes, fewer than a block, from a block that is cached.
    method TransformTail(input: seq<Byte>) returns (output: seq<Byte>)
      requires Valid() && len == 0 && 0 < |input| < BLOCK
      modifies this
      ensures Valid() && nonce == old(nonce) && start == old(start) && pos == old(pos) + |input|
      ensures output == Crypt(p, nonce, start, old(pos), input)
    {
      hide Stream;
      Refill();
      StreamSplit(p, nonce, start, pos, |input|, BLOCK - |input|);
      output := XorLoop(input, bytes[..|input|]);
      len := BLOCK - |input|;
      pos := pos + |input|;
    }

    // boringssl_chacha20_transform
    method Transform(input: seq<Byte>) returns (output: seq<Byte>)
      requires Valid()
      modifies this
      ensures Valid() && nonce == old(nonce) && start == old(start) && pos == old(pos) + |input|
      ensures output == Crypt(p, nonce, start, old(pos), input)
    {
      hide Crypt, Stream;
      var first := TransformBuffered(input);
      var rest := input[|first|..];
      CryptSplit(p, nonce, start, old(pos), input[..|first|], rest);
      assert input == input[..|first|] + rest;
      CryptNothing(p, nonce, start, pos);
      if rest == [] {
        return first;
      }
      var second := TransformRest(rest);
      output := first + second;
    }

    // The part of it that starts at a block boundary
    method TransformRest(input: seq<Byte>) returns (output: seq<Byte>)
      requires Valid() && len == 0
      modifies this
      ensures Valid() && nonce == old(nonce) && start == old(start) && pos == old(pos) + |input|
      ensures output == Crypt(p, nonce, start, old(pos), input)
    {
      hide Crypt, Stream;
      var middle := TransformBlocks(input);
      var last := input[|middle|..];
      CryptSplit(p, nonce, start, old(pos), input[..|middle|], last);
      assert input == input[..|middle|] + last;
      CryptNothing(p, nonce, start, pos);
      if last == [] {
        return middle;
      }
      var tail := TransformTail(last);
      output := middle + tail;
    }
  }

  // The byte loop of both
  method XorLoop(input: seq<Byte>, ks: seq<Byte>) returns (output: seq<Byte>)
    requires |input| == |ks|
    ensures output == XorBytes(input, ks)
  {
    output := [];
    var i := 0;
    while i < |input|
      invariant 0 <= i <= |input| && |output| == i
      invariant forall j | 0 <= j < i :: output[j] == input[j] ^ ks[j]
    {
      output := output + [input[i] ^ ks[i]];
      i := i + 1;
    }
  }

  lemma CryptNothing(p: Primitives, nonce: seq<Byte>, start: nat, pos: nat)
    ensures Crypt(p, nonce, start, pos, []) == []
  {}

  lemma BlocksAdvance(pos: nat, blocks: nat)
    requires pos % BLOCK == 0
    ensures (pos + blocks * BLOCK) % BLOCK == 0 && (pos + blocks * BLOCK) / BLOCK == pos / BLOCK + blocks
  {}

  // ---------------------------------------------------------------- RFC 8439, section 2.8

  function ZeroBytes(n: nat): seq<Byte> { seq(n, i => 0) }

  // Zeros up to a multiple of sixteen
  function Pad16(n: nat): seq<Byte> { if n % 16 == 0 then [] else ZeroBytes(16 - n % 16) }

  function LittleEndian(s: seq<Byte>): nat
  {
    if s == [] then 0 else s[0] as nat + 256 * LittleEndian(s[1..])
  }

  // k bytes, the lowest first
  function Le(n: nat, k: nat): (r: seq<Byte>)
    ensures |r| == k
  {
    if k == 0 then [] else [LowByte(n)] + Le(n / 0x100, k - 1)
  }

  function Limit(k: nat): nat { if k == 0 then 1 else 0x100 * Limit(k - 1) }

  lemma {:induction false} LeIsLittleEndian(n: nat, k: nat)
    requires n < Limit(k)
    ensures LittleEndian(Le(n, k)) == n
    decreases k
  {
    hide LowByte;
    if k != 0 {
      LowByteValue(n);
      LeIsLittleEndian(n / 0x100, k - 1);
      assert Le(n, k)[1..] == Le(n / 0x100, k - 1);
    }
  }

  // chacha20poly1305_write_u64
  function Le64(n: nat): (r: seq<Byte>)
    ensures |r| == 8
  {
    Le(n, 8)
  }

  /** The lengths that are authenticated are little-endian numbers of 64 bits. */
  lemma Le64IsLittleEndian(n: nat)
    requires n < 0x1_0000_0000_0000_0000
    ensures LittleEndian(Le64(n)) == n
  {
    hide LittleEndian, Le;
    assert Limit(1) == 0x100 && Limit(2) == 0x1_0000 && Limit(3) == 0x100_0000 && Limit(4) == 0x1_0000_0000;
    assert Limit(5) == 0x100_0000_0000 && Limit(6) == 0x1_0000_0000_0000 && Limit(7) == 0x100_0000_0000_0000;
    LeIsLittleEndian(n, 8);
  }

  /** Section 2.8 of RFC 8439, byte by byte: the text is added to the key stream from block 1 on, and the tag is keyed
      with the first half of block 0. */
  lemma SealedBytes(p: Primitives, nonce: seq<Byte>, aad: seq<Byte>, text: seq<Byte>, i: nat)
    requires i < |text|
    ensures var s := Seal(p, nonce, aad, text);
      && |s| == |text| + 16
      && s[i] == text[i] ^ p.block(nonce, (1 + i / 64) % 0x1_0000_0000)[i % 64]
      && s[|text|..] == p.mac(p.block(nonce, 0)[..32], MacData(aad, s[..|text|]))
  {
    hide MacData;
    var c := Crypt(p, nonce, 1, 0, text);
    assert (c + p.mac(MacKey(p, nonce), MacData(aad, c)))[..|text|] == c;
  }

  function MacData(aad: seq<Byte>, text: seq<Byte>): seq<Byte>
  {
    aad + Pad16(|aad|) + text + Pad16(|text|) + Le64(|aad|) + Le64(|text|)
  }

  function MacKey(p: Primitives, nonce: seq<Byte>): seq<Byte> { p.block(nonce, 0)[..32] }

  // The text is encrypted from block 1 on.
  function Seal(p: Primitives, nonce: seq<Byte>, aad: seq<Byte>, text: seq<Byte>): seq<Byte>
  {
    var c := Crypt(p, nonce, 1, 0, text);
    c + p.mac(MacKey(p, nonce), MacData(aad, c))
  }

  function Open(p: Primitives, nonce: seq<Byte>, aad: seq<Byte>, sealed: seq<Byte>): Option<seq<Byte>>
  {
    if |sealed| < 16 then None
    else
      var c := sealed[..|sealed| - 16];
      if sealed[|sealed| - 16..] != p.mac(MacKey(p, nonce), MacData(aad, c)) then None
      else Some(Crypt(p, nonce, 1, 0, c))
  }

  lemma OpenInvertsSeal(p: Primitives, nonce: seq<Byte>, aad: seq<Byte>, text: seq<Byte>)
    ensures Open(p, nonce, aad, Seal(p, nonce, aad, text)) == Some(text)
  {
    hide Crypt, MacData;
    var c := Crypt(p, nonce, 1, 0, text);
    var s := Seal(p, nonce, aad, text);
    assert s[..|s| - 16] == c && s[|s| - 16..] == p.mac(MacKey(p, nonce), MacData(aad, c));
    CryptTwice(p, nonce, 1, 0, text);
  }

  // Only what was sealed opens.
  lemma OpenOnlySealed(p: Primitives, nonce: seq<Byte>, aad: seq<Byte>, sealed: seq<Byte>)
    requires Open(p, nonce, aad, sealed).Some?
    ensures sealed == Seal(p, nonce, aad, Open(p, nonce, aad, sealed).value)
  {
    hide Crypt, MacData;
    CryptTwice(p, nonce, 1, 0, sealed[..|sealed| - 16]);
  }

  // One block into the stream that starts at counter 0 is the start of the stream at counter 1.
  lemma CryptFromBlockOne(p: Primitives, nonce: seq<Byte>, pos: nat, data: seq<Byte>)
    ensures Crypt(p, nonce, 0, BLOCK + pos, data) == Crypt(p, nonce, 1, pos, data)
  {
    var a, b := Stream(p, nonce, 0, BLOCK + pos, |data|), Stream(p, nonce, 1, pos, |data|);
    forall i | 0 <= i < |data| ensures a[i] == b[i] {
      var q := pos + i;
      assert (BLOCK + q) / BLOCK == 1 + q / BLOCK && (BLOCK + q) % BLOCK == q % BLOCK;
      assert a[i] == StreamByte(p, nonce, 0, BLOCK + q) && b[i] == StreamByte(p, nonce, 1, q);
    }
    assert a == b;
  }

  // ---------------------------------------------------------------- the streaming AEAD

  class ChaCha20Poly1305 {
    const p: Primitives
    const chacha: ChaCha20
    var aadlen: nat
    var textlen: nat
    // What poly1305_init and poly1305_update were given
    var polyKey: seq<Byte>
    var polyData: seq<Byte>
    ghost var aad: seq<Byte>
    ghost var text: seq<Byte>

    // In the middle of a message: text is what came out so far.
    ghost predicate Valid()
      reads this, chacha
    {
      && chacha.p == p && chacha.Valid() && chacha.start == 0 && chacha.pos == BLOCK + |text|
      && aadlen == |aad| && textlen == |text|
      && polyKey == MacKey(p, chacha.nonce)
      && polyData == aad + Pad16(|aad|) + text
    }

    constructor (p: Primitives)
      ensures this.p == p && fresh(chacha) && chacha.p == p && chacha.Valid()
    {
      this.p := p;
      chacha := new ChaCha20(p);
      aadlen, textlen, polyKey, polyData, aad, text := 0, 0, [], [], [], [];
    }

    // chacha20poly1305_init
    method Init(nonce: seq<Byte>, aad: seq<Byte>)
      requires chacha.p == p && chacha.Valid()
      modifies this, chacha
      ensures Valid() && chacha.nonce == nonce && this.aad == aad && text == []
    {
      chacha.Init(nonce, 0);
      var first := chacha.Transform(ZeroBytes(BLOCK));
      ZeroesGiveKey(p, nonce);
      polyKey := first[..32];
      polyData := [];
      if |aad| != 0 {
        polyData := polyData + aad;
        polyData := polyData + Pad16(|aad|);
      }
      aadlen, textlen := |aad|, 0;
      this.aad, text := aad, [];
      assert polyData == aad + Pad16(|aad|) + [];
    }

    // chacha20poly1305_encrypt_update
    method Update(input: seq<Byte>) returns (output: seq<Byte>)
      requires Valid()
      modifies this, chacha
      ensures Valid() && chacha.nonce == old(chacha.nonce) && aad == old(aad)
      ensures output == Crypt(p, chacha.nonce, 1, |old(text)|, input) && text == old(text) + output
    {
      output := chacha.Transform(input);
      CryptFromBlockOne(p, chacha.nonce, |text|, input);
      polyData := polyData + output;
      textlen := textlen + |input|;
      assert polyData == aad + Pad16(|aad|) + (text + output);
      text := text + output;
    }

    // chacha20poly1305_finalize, once the ciphertext c was fed to Poly1305
    method Finalize(ghost c: seq<Byte>) returns (tag: seq<Byte>)
      requires aadlen == |aad| && textlen == |c| && polyKey == MacKey(p, chacha.nonce)
        && polyData == aad + Pad16(|aad|) + c
      modifies this`polyData
      ensures tag == p.mac(MacKey(p, chacha.nonce), MacData(aad, c))
    {
      hide Le64, Pad16, MacKey;
      polyData := polyData + Pad16(textlen);
      polyData := polyData + (Le64(aadlen) + Le64(textlen));
      assert polyData == MacData(aad, c);
      tag := p.mac(polyKey, polyData);
    }

    /** ptls_aead__do_encrypt_v: however the text is split over vectors, the output is the one-shot
        ciphertext and tag. */
    method EncryptV(nonce: seq<Byte>, aad: seq<Byte>, input: seq<seq<Byte>>) returns (output: seq<Byte>)
      requires chacha.p == p && chacha.Valid()
      modifies this, chacha
      ensures output == Seal(p, nonce, aad, Concat(input))
    {
      hide Crypt, MacData, MacKey, Pad16;
      Init(nonce, aad);
      output := [];
      CryptNothing(p, nonce, 1, 0);
      assert input[..0] == [];
      var i := 0;
      while i < |input|
        invariant 0 <= i <= |input| && Valid() && chacha.nonce == nonce && this.aad == aad
        invariant output == text == Crypt(p, nonce, 1, 0, Concat(input[..i]))
      {
        ConcatNext(input, i);
        CryptSplit(p, nonce, 1, 0, Concat(input[..i]), input[i]);
        var piece := Update(input[i]);
        output := output + piece;
        i := i + 1;
      }
      assert input[..i] == input;
      var tag := Finalize(text);
      output := output + tag;
    }

    // chacha20poly1305_decrypt
    method Decrypt(nonce: seq<Byte>, aad: seq<Byte>, input: seq<Byte>) returns (output: Option<seq<Byte>>)
      requires chacha.p == p && chacha.Valid()
      modifies this, chacha
      ensures output == Open(p, nonce, aad, input)
    {
      hide MacData;
      if |input| < 16 {
        return None;
      }
      Init(nonce, aad);
      var c := input[..|input| - 16];
      assert aad + Pad16(|aad|) + [] == aad + Pad16(|aad|);
      polyData := polyData + c;
      textlen := |c|;
      var tag := Finalize(c);
      if tag != input[|input| - 16..] {
        return None;
      }
      var plain := chacha.Transform(c);
      CryptFromBlockOne(p, nonce, 0, c);
      output := Some(plain);
    }
  }

  // Encrypting zeros gives the keystream, whose first half-block is the one-time key.
  lemma ZeroesGiveKey(p: Primitives, nonce: seq<Byte>)
    ensures Crypt(p, nonce, 0, 0, ZeroBytes(BLOCK))[..32] == MacKey(p, nonce)
  {
    var c := Crypt(p, nonce, 0, 0, ZeroBytes(BLOCK));
    forall i | 0 <= i < 32 ensures c[i] == MacKey(p, nonce)[i] {
      XorZeroByte(p.block(nonce, 0)[i]);
    }
  }

  lemma XorZeroByte(b: Byte)
    ensures 0 ^ b == b
  {}
}
