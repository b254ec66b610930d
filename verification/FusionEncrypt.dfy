/** ptls_fusion_aesgcm_encrypt: six AES lanes run ahead of a GHASH that reads the cipher
    text from memory one batch later. Memory is one array; the text is encrypted in place
    or into a disjoint region. */
module FusionEncrypt {
  import opened Gf2
  import opened Ghash
  import opened Bytes
  import opened Results
  import opened Gcm
  import opened FusionContext

  // The bits STATE_EK0_BEEN_FED / STATE_EK0_INCOMPLETE.
  datatype Ek0State = NotFed | InLane | Ready

  // The bits STATE_SUPP_USED / STATE_SUPP_IN_PROCESS.
  datatype SuppState = Unused | Wanted | Running

  // ptls_aead_supplementary_encryption_t: where the sample lies and the key schedule to use.
  datatype Supp = NoSupp | Supp(input: nat, keys: seq<Block>)

  // ---------------------------------------------------------------- six lanes

  function LaneKeys(keys: seq<Block>, keys4: seq<Block>, j: nat): seq<Block> { if j == 4 then keys4 else keys }

  // Every lane has gone through i rounds from its input.
  ghost predicate LanesAt(aes: Aes, keys: seq<Block>, keys4: seq<Block>, lanes: seq<Block>, ins: seq<Block>, i: nat)
  {
    && |lanes| == 6 && |ins| == 6 && |keys| == |keys4| && i < |keys|
    && forall j | 0 <= j < 6 :: lanes[j] == Rounds(aes, LaneKeys(keys, keys4, j), ins[j], i)
  }

  // AESECB6_UPDATE
  method Update6(aes: Aes, keys: seq<Block>, keys4: seq<Block>, lanes: seq<Block>, i: nat, ghost ins: seq<Block>)
    returns (r: seq<Block>)
    requires i > 0 && i < |keys| && LanesAt(aes, keys, keys4, lanes, ins, i - 1)
    ensures LanesAt(aes, keys, keys4, r, ins, i)
  {
    var k, k4 := keys[i], keys4[i];
    r := [aes.round(lanes[0], k), aes.round(lanes[1], k), aes.round(lanes[2], k),
          aes.round(lanes[3], k), aes.round(lanes[4], k4), aes.round(lanes[5], k)];
    forall j | 0 <= j < 6
      ensures r[j] == Rounds(aes, LaneKeys(keys, keys4, j), ins[j], i)
    {
    }
  }

  // Where the blocks for GHASH are: collected in gdatabuf, or read straight from memory.
  datatype GData = Buffer(blocks: seq<Block>) | InMemory(off: nat)

  ghost predicate GDataIs(mem: seq<Byte>, gdata: GData, cnt: nat, xs: seq<Block>, at: nat)
  {
    && at + cnt <= |xs|
    && match gdata
       case Buffer(blocks) => |blocks| == cnt && forall k | 0 <= k < cnt :: blocks[k] == xs[at + k]
       case InMemory(off) =>
         off + 16 * cnt <= |mem| && forall k | 0 <= k < cnt :: mem[off + 16 * k..off + 16 * k + 16] == xs[at + k]
  }

  // Interleaves AES rounds, starting with round first, with GHASH steps; then finishes AES.
  method RunBatch(ctx: AesGcmContext, keys4: seq<Block>, lanes0: seq<Block>, mem: array<Byte>, g0: State,
      gdata: GData, cnt: nat, idx0: nat, first: nat, ghost ins: seq<Block>, ghost xs: seq<Block>)
    returns (bits: seq<Block>, g: State, idx: nat)
    requires ctx.Valid() && 1 <= first <= 2 && LanesAt(ctx.aes, ctx.keys, keys4, lanes0, ins, first - 1)
    requires cnt <= 6 && cnt <= idx0 <= |ctx.ghash| && idx0 <= |xs|
    requires Fed(g0, HashKey(ctx.aes, ctx.keys), xs, |xs| - idx0)
    requires GDataIs(mem[..], gdata, cnt, xs, |xs| - idx0)
    ensures |bits| == 6
    ensures forall j | 0 <= j < 6 :: bits[j] == Cipher(ctx.aes, LaneKeys(ctx.keys, keys4, j), ins[j])
    ensures idx == idx0 - cnt && Fed(g, HashKey(ctx.aes, ctx.keys), xs, |xs| - idx)
  {
    hide Cipher, Rounds, DoStep, BE, Fed, HashKey, Power, MakeEntry, DoReduce, GhashOf, Scaled;
    var rounds := |ctx.keys| - 1;
    var lanes, i := lanes0, first;
    g, idx := g0, idx0;
    while i < cnt + first
      invariant first <= i <= cnt + first
      invariant LanesAt(ctx.aes, ctx.keys, keys4, lanes, ins, i - 1)
      invariant idx == idx0 - (i - first) && Fed(g, HashKey(ctx.aes, ctx.keys), xs, |xs| - idx)
    {
      lanes := Update6(ctx.aes, ctx.keys, keys4, lanes, i, ins);
      var x := match gdata case Buffer(blocks) => blocks[i - first]
               case InMemory(off) => mem[off + 16 * (i - first)..off + 16 * (i - first) + 16];
      idx := idx - 1;
      FeedBlock(g, HashKey(ctx.aes, ctx.keys), xs, |xs| - idx - 1);
      g := NextStep(g, x, ctx.ghash[idx]);
      i := i + 1;
    }
    while i < rounds
      invariant cnt + first <= i <= rounds
      invariant LanesAt(ctx.aes, ctx.keys, keys4, lanes, ins, i - 1)
    {
      lanes := Update6(ctx.aes, ctx.keys, keys4, lanes, i, ins);
      i := i + 1;
    }
    bits := LastRound(ctx.aes, ctx.keys, keys4, lanes, ins);
  }

  // AESECB6_FINAL
  method LastRound(aes: Aes, keys: seq<Block>, keys4: seq<Block>, lanes: seq<Block>, ghost ins: seq<Block>)
    returns (bits: seq<Block>)
    requires |keys| >= 2 && LanesAt(aes, keys, keys4, lanes, ins, |keys| - 2)
    ensures |bits| == 6
    ensures forall j | 0 <= j < 6 :: bits[j] == Cipher(aes, LaneKeys(keys, keys4, j), ins[j])
  {
    var k, k4 := keys[|keys| - 1], keys4[|keys| - 1];
    bits := [aes.last(lanes[0], k), aes.last(lanes[1], k), aes.last(lanes[2], k),
             aes.last(lanes[3], k), aes.last(lanes[4], k4), aes.last(lanes[5], k)];
    forall j | 0 <= j < 6
      ensures bits[j] == Cipher(aes, LaneKeys(keys, keys4, j), ins[j])
    {
    }
  }

  // ---------------------------------------------------------------- applying the key stream

  // The source may be read where the destination is written only if both start together.
  ghost predicate Placed(size: nat, dst: nat, dstlen: nat, src: nat, srclen: nat)
  {
    && dst + dstlen <= size && src + srclen <= size
    && (dst == src || dst + dstlen <= src || src + srclen <= dst)
  }

  // The k-th byte of six blocks of key stream.
  function KeyByte(bits: seq<Block>, k: nat): Byte
    requires |bits| == 6 && k < 96
  {
    bits[k / 16][k % 16]
  }

  // The text from done to done' has been combined with the key stream; nothing else changed.
  ghost predicate Applied(mem: seq<Byte>, mem': seq<Byte>, dst: nat, src: nat, done: nat, done': nat, bits: seq<Block>)
  {
    && |mem'| == |mem| && |bits| == 6 && done <= done' <= done + 96 && dst + done' <= |mem| && src + done' <= |mem|
    && (forall i | 0 <= i < dst + done || dst + done' <= i < |mem| :: mem'[i] == mem[i])
    && (forall x | dst + done <= x < dst + done' :: mem'[x] == mem[src + (x - dst)] ^ KeyByte(bits, x - dst - done))
  }

  // Both APPLY sequences: whole batches, and the last, shorter one.
  method Apply(mem: array<Byte>, dst: nat, src: nat, done0: nat, srclen0: nat, bits: seq<Block>)
    returns (done: nat, srclen: nat)
    requires |bits| == 6
    requires Placed(mem.Length, dst, done0 + srclen0, src, done0 + srclen0)
    modifies mem
    ensures done == done0 + (if srclen0 < 96 then srclen0 else 96) && done + srclen == done0 + srclen0
    ensures Applied(old(mem[..]), mem[..], dst, src, done0, done, bits)
  {
    hide Applied;
    var j := 0;
    done, srclen := done0, srclen0;
    AppliedNothing(mem[..], dst, src, done0, bits);
    while j < 6 && srclen >= 16
      invariant 0 <= j <= 6 && done == done0 + 16 * j && done + srclen == done0 + srclen0
      invariant Applied(old(mem[..]), mem[..], dst, src, done0, done, bits)
    {
      ghost var was := mem[..];
      var data := XorBytes(mem[src + done..src + done + 16], bits[j]);
      Store(mem, dst + done, data);
      AppliedMore(old(mem[..]), was, mem[..], dst, src, done0, done, 16, bits, j, data);
      done, srclen, j := done + 16, srclen - 16, j + 1;
    }
    if j < 6 && srclen != 0 {
      // ApplyRemainder
      ghost var was := mem[..];
      var data := XorBlocks(Pad(mem[src + done..src + done + srclen]), bits[j])[..srclen];
      Store(mem, dst + done, data);
      AppliedMore(old(mem[..]), was, mem[..], dst, src, done0, done, srclen, bits, j, data);
      done, srclen := done + srclen, 0;
    }
  }

  lemma AppliedNothing(m: seq<Byte>, dst: nat, src: nat, done: nat, bits: seq<Block>)
    requires |bits| == 6 && dst + done <= |m| && src + done <= |m|
    ensures Applied(m, m, dst, src, done, done, bits)
  {}

  // The bytes that one more block adds
  lemma AppliedByte(m: seq<Byte>, m1: seq<Byte>, dst: nat, src: nat, done0: nat, done: nat, len: nat, bits: seq<Block>,
      j: nat, i: nat)
    requires j < 6 && done == done0 + 16 * j && i < len <= 16
    requires Applied(m, m1, dst, src, done0, done, bits)
    requires dst + done + len <= |m1| && src + done + len <= |m1|
    requires dst == src || dst + done + len <= src || src + done + len <= dst
    ensures m1[src + done + i] == m[src + done + i]
    ensures bits[j][i] == KeyByte(bits, done + i - done0)
  {
    KeyBytesOf(bits, j);
    assert KeyByte(bits, 16 * j + i) == bits[j][i];
  }

  lemma AppliedMore(m: seq<Byte>, m1: seq<Byte>, m2: seq<Byte>, dst: nat, src: nat, done0: nat, done: nat, len: nat,
      bits: seq<Block>, j: nat, data: seq<Byte>)
    requires j < 6 && done == done0 + 16 * j && len <= 16
    requires Applied(m, m1, dst, src, done0, done, bits)
    requires |m2| == |m1| && dst + done + len <= |m1| && src + done + len <= |m1|
    requires dst == src || dst + done + len <= src || src + done + len <= dst
    requires forall i | 0 <= i < dst + done || dst + done + len <= i < |m1| :: m2[i] == m1[i]
    requires |data| == len && forall i | 0 <= i < len :: m2[dst + done + i] == data[i]
    requires forall i | 0 <= i < len :: data[i] == m1[src + done + i] ^ bits[j][i]
    ensures Applied(m, m2, dst, src, done0, done + len, bits)
  {
    hide KeyByte;
    forall x | dst + done <= x < dst + done + len
      ensures m2[x] == m[src + (x - dst)] ^ KeyByte(bits, x - dst - done0)
    {
      var i := x - dst - done;
      AppliedByte(m, m1, dst, src, done0, done, len, bits, j, i);
      assert m2[dst + done + i] == data[i];
      assert data[i] == m1[src + done + i] ^ bits[j][i];
    }
  }

  lemma KeyBytesOf(bits: seq<Block>, j: nat)
    requires |bits| == 6 && j < 6
    ensures forall k | 16 * j <= k < 16 * j + 16 :: KeyByte(bits, k) == bits[j][k - 16 * j]
  {}

  // ---------------------------------------------------------------- collecting GHASH input

  // Blocks of additional data into gdatabuf, up to six.
  method GatherAad(mem: array<Byte>, aad0: nat, aadlen0: nat, ghost base: nat, ghost a: seq<Byte>)
    returns (buf: seq<Block>, aad: nat, aadlen: nat)
    requires base + |a| <= mem.Length && aad0 + aadlen0 == base + |a|
    requires aadlen0 <= |a| && (|a| - aadlen0) % 16 == 0
    requires forall i | 0 <= i < |a| :: mem[base + i] == a[i]
    ensures |buf| <= 6 && aadlen <= aadlen0
    ensures |buf| == BlockCount(aadlen0) - BlockCount(aadlen)
    ensures forall k | 0 <= k < |buf| :: buf[k] == Blocks(a)[BlockCount(|a|) - BlockCount(aadlen0) + k]
    ensures aadlen != 0 ==> |buf| == 6 && (|a| - aadlen) % 16 == 0 && aad == aad0 + (aadlen0 - aadlen)
  {
    hide Blocks;
    buf, aad, aadlen := [], aad0, aadlen0;
    ghost var at := (|a| - aadlen0) / 16;
    assert at == BlockCount(|a|) - BlockCount(aadlen0);
    while |buf| < 6
      invariant |buf| <= 6 && aadlen == aadlen0 - 16 * |buf| && aad == aad0 + 16 * |buf|
      invariant forall k | 0 <= k < |buf| :: buf[k] == Blocks(a)[at + k]
    {
      if aadlen < 16 {
        if aadlen != 0 {
          AlignedBlock(a, |a| - aadlen, mem[aad..aad + aadlen]);
          buf, aadlen := buf + [Pad(mem[aad..aad + aadlen])], 0;
        }
        return;
      }
      AlignedBlock(a, |a| - aadlen, mem[aad..aad + 16]);
      buf, aad, aadlen := buf + [mem[aad..aad + 16]], aad + 16, aadlen - 16;
    }
  }

  // The block of s that starts at a multiple of 16.
  lemma AlignedBlock(s: seq<Byte>, off: nat, part: seq<Byte>)
    requires off % 16 == 0 && 0 < |part| <= 16 && off + |part| <= |s|
    requires |part| == 16 || off + |part| == |s|
    requires forall k | 0 <= k < |part| :: part[k] == s[off + k]
    ensures Pad(part) == Blocks(s)[off / 16]
    ensures |part| == 16 ==> part == Blocks(s)[off / 16]
  {
    var k := off / 16;
    assert Blocks(s)[k] == BlockAt(s, k);
    assert part == s[off..off + |part|];
    if |part| < 16 {
      assert s[off..] == s[off..off + |part|];
    }
  }

  // Blocks of cipher text that has been written, up to six in gdatabuf altogether; finish
  // tells that the text ran out before gdatabuf was full.
  method GatherText(mem: array<Byte>, dst: nat, hashed0: nat, left0: nat, buf0: seq<Block>, ghost c: seq<Byte>)
    returns (buf: seq<Block>, hashed: nat, left: nat, finish: bool)
    requires |buf0| <= 6 && left0 <= |c| && dst + |c| <= mem.Length
    requires left0 != 0 ==> hashed0 + left0 == |c| && hashed0 % 16 == 0
    requires hashed0 <= |c|
    requires forall i | hashed0 <= i < hashed0 + 96 && i < |c| :: mem[dst + i] == c[i]
    ensures buf0 <= buf && |buf| <= 6 && left <= left0
    ensures |buf| - |buf0| == BlockCount(left0) - BlockCount(left)
    ensures forall k | |buf0| <= k < |buf| :: buf[k] == Blocks(c)[BlockCount(|c|) - BlockCount(left0) + k - |buf0|]
    ensures hashed0 <= hashed <= |c| && hashed - hashed0 <= 16 * (BlockCount(left0) - BlockCount(left))
    ensures left != 0 ==> hashed + left == |c| && hashed % 16 == 0
    ensures finish <==> |buf| < 6
    ensures finish ==> left == 0
  {
    hide Blocks;
    buf, hashed, left, finish := buf0, hashed0, left0, false;
    while |buf| < 6
      invariant buf0 <= buf && |buf| <= 6 && !finish
      invariant left == left0 - 16 * (|buf| - |buf0|) && hashed == hashed0 + 16 * (|buf| - |buf0|)
      invariant forall k | |buf0| <= k < |buf| :: buf[k] == Blocks(c)[BlockCount(|c|) - BlockCount(left0) + k - |buf0|]
    {
      if left < 16 {
        if left != 0 {
          AlignedBlock(c, hashed, mem[dst + hashed..dst + hashed + left]);
          buf, left := buf + [Pad(mem[dst + hashed..dst + hashed + left])], 0;
        }
        finish := |buf| < 6;
        return;
      }
      AlignedBlock(c, hashed, mem[dst + hashed..dst + hashed + 16]);
      buf, hashed, left := buf + [mem[dst + hashed..dst + hashed + 16]], hashed + 16, left - 16;
    }
  }

  // ---------------------------------------------------------------- one call

  // What a call is about: the key, the nonce, the additional data and the text.
  // tail bytes follow the text in the output: the tag, when encrypting.
  datatype Job = Job(aes: Aes, keys: seq<Block>, n: U128, a: seq<Byte>, p: seq<Byte>, tail: nat)
  {
    ghost predicate Ok() { |keys| >= 11 && |a| < 0x1000_0000 && |p| < 0x1000_0000 }
    ghost function H(): U128 requires Ok() { HashKey(aes, keys) }
    ghost function C(): (c: seq<Byte>) requires Ok() ensures |c| == |p| { Gctr(aes, keys, n, p) }
    // the counter block of text block k
    ghost function Counter(k: nat): Block { BlockOf(IncTimes(J0(n), 1 + k)) }
    ghost function Ek0In(): Block { BlockOf(J0(n)) }
    ghost function Ek0(): Block requires Ok() { Cipher(aes, keys, Ek0In()) }
    ghost function G(): (xs: seq<Block>)
      requires Ok()
      ensures |xs| == BlockCount(|a|) + BlockCount(|p|) + 1
    {
      GhashInput(a, C())
    }
  }

  // Lanes that will be applied to text hold the counters of that text.
  ghost predicate LaneInputs(job: Job, ins: seq<Block>, keys4: seq<Block>, done: nat, srclen: nat)
  {
    && |ins| == 6
    && forall j | 0 <= j < 6 && 16 * j < srclen ::
      ins[j] == job.Counter(done / 16 + j) && LaneKeys(job.keys, keys4, j) == job.keys
  }

  // Five counter blocks, consecutive while there is text to encrypt.
  method NextCounters(ghost job: Job, ctrIn: U128, ghost more: bool, ghost at: nat)
    returns (counters: seq<Block>, ctr: U128)
    requires more ==> at + 7 < WORD32 && ctrIn == J0(job.n) + at
    ensures |counters| == 5
    ensures more ==> ctr == J0(job.n) + at + 5 && forall j | 0 <= j < 5 :: counters[j] == job.Counter(at + j)
  {
    hide IncTimes, BlockOf, J0, Add64;
    ctr, counters := ctrIn, [];
    while |counters| < 5
      invariant |counters| <= 5
      invariant more ==> ctr == J0(job.n) + at + |counters|
      invariant more ==> forall j | 0 <= j < |counters| :: counters[j] == job.Counter(at + j)
    {
      if more { Add64IsInc(job.n, at + |counters|); }
      ctr := Add64(ctr);
      counters := counters + [BlockOf(ctr)];
    }
  }

  // AESECB6_INIT and the first AESECB6_UPDATE. sampled is the address up to which GHASH
  // has taken the output (dst_ghash).
  method Init6(ghost job: Job, aes: Aes, keys: seq<Block>, keys4In: seq<Block>, lane5: Block, ctrIn: U128, srclen: nat,
      ek0: Block, ek0In: Ek0State, suppIn: SuppState, supp: Supp, mem: array<Byte>, sampled: nat, ghost done: nat)
    returns (lanes: seq<Block>, keys4: seq<Block>, ctr: U128, ek0st: Ek0State, suppst: SuppState, ghost ins: seq<Block>)
    requires job.Ok() && job.aes == aes && job.keys == keys && |keys4In| == |keys|
    requires done + srclen == |job.p|
    requires srclen > 0 ==> done % 16 == 0 && ctrIn == J0(job.n) + done / 16
    requires srclen > 64 ==> keys4In == keys
    requires supp.Supp? ==> supp.input + 16 <= mem.Length && |supp.keys| == |keys|
    requires suppIn == Unused || (suppIn == Wanted && supp.Supp?)
    ensures |ins| == 6 && LanesAt(aes, keys, keys4, lanes, ins, 1)
    ensures LaneInputs(job, ins, keys4, done, srclen)
    ensures srclen >= 96 ==> ctr == J0(job.n) + (done + 96) / 16
    ensures srclen > 64 ==> keys4 == keys
    ensures if srclen <= 80 && ek0In == NotFed then ek0st == InLane && ins[5] == ek0 else ek0st == ek0In
    ensures if suppIn == Wanted && srclen <= 64 && supp.input + 16 <= sampled
            then suppst == Running && keys4 == supp.keys && ins[4] == mem[supp.input..supp.input + 16]
            else suppst == suppIn && keys4 == keys4In
  {
    hide Rounds, IncTimes, BlockOf, Cipher, J0, Add64, LanesAt, Pow2, HashKey, Gctr, GhashInput;
    ctr, keys4, ek0st, suppst := ctrIn, keys4In, ek0In, suppIn;
    var counters: seq<Block>;
    counters, ctr := NextCounters(job, ctrIn, srclen > 0, done / 16);
    var lane4, lane5New := counters[4], lane5;
    if srclen > 80 {
      Add64IsInc(job.n, done / 16 + 5);
      ctr := Add64(ctr);
      lane5New := BlockOf(ctr);
    } else {
      if ek0st == NotFed {
        lane5New := ek0;
        ek0st := InLane;
      }
      if suppst == Wanted && srclen <= 64 && supp.input + 16 <= sampled {
        lane4 := mem[supp.input..supp.input + 16];
        keys4 := supp.keys;
        suppst := Running;
      }
    }
    var inputs: seq<Block> := [counters[0], counters[1], counters[2], counters[3], lane4, lane5New];
    ins := inputs;
    lanes := AddKeys(aes, keys, keys4, inputs);
    lanes := Update6(aes, keys, keys4, lanes, 1, ins);
  }

  method AddKeys(aes: Aes, keys: seq<Block>, keys4: seq<Block>, ins: seq<Block>) returns (lanes: seq<Block>)
    requires |keys| == |keys4| && |keys| > 0 && |ins| == 6
    ensures LanesAt(aes, keys, keys4, lanes, ins, 0)
  {
    var k := keys[0];
    lanes := [XorBlocks(ins[0], k), XorBlocks(ins[1], k), XorBlocks(ins[2], k),
              XorBlocks(ins[3], k), XorBlocks(ins[4], keys4[0]), XorBlocks(ins[5], k)];
    forall j | 0 <= j < 6
      ensures lanes[j] == Rounds(aes, LaneKeys(keys, keys4, j), ins[j], 0)
    {
    }
  }

  // Output written so far, everything else as it was.
  ghost predicate Written(job: Job, mem: seq<Byte>, m0: seq<Byte>, dst: nat, done: nat)
    requires job.Ok()
  {
    && |mem| == |m0| && done <= |job.p| && dst + |job.p| + job.tail <= |mem|
    && forall i | 0 <= i < |mem| :: mem[i] == if dst <= i < dst + done then job.C()[i - dst] else m0[i]
  }

  // The regions of a call and what they held at the start.
  ghost predicate Regions(job: Job, m0: seq<Byte>, dst: nat, src: nat, aad: nat)
  {
    && Placed(|m0|, dst, |job.p| + job.tail, src, |job.p|) && m0[src..src + |job.p|] == job.p
    && aad + |job.a| <= |m0| && (aad + |job.a| <= dst || dst + |job.p| + job.tail <= aad)
      && m0[aad..aad + |job.a|] == job.a
  }

  // The lanes hold the key stream of the text at done.
  lemma LanesAreKeyStream(job: Job, bits: seq<Block>, ins: seq<Block>, keys4: seq<Block>, done: nat, upto: nat, k: nat)
    requires job.Ok() && done % 16 == 0 && k < 96 && k < upto && done + k < |job.p| && |bits| == 6
    requires LaneInputs(job, ins, keys4, done, upto)
    requires forall j | 0 <= j < 6 ::
      |LaneKeys(job.keys, keys4, j)| >= 2 && bits[j] == Cipher(job.aes, LaneKeys(job.keys, keys4, j), ins[j])
    ensures job.C()[done + k] == job.p[done + k] ^ KeyByte(bits, k)
  {
    hide Cipher, IncTimes, BlockOf, J0;
    var j := k / 16;
    assert (done + k) / 16 == done / 16 + j && (done + k) % 16 == k % 16;
    assert ins[j] == job.Counter(done / 16 + j);
  }

  // Key stream applied to the text at done gives cipher text.
  lemma ApplyGivesCipherText(job: Job, m0: seq<Byte>, dst: nat, src: nat, aad: nat, mem: seq<Byte>, mem': seq<Byte>,
      done: nat, done': nat, upto: nat, bits: seq<Block>, ins: seq<Block>, keys4: seq<Block>)
    requires job.Ok() && Regions(job, m0, dst, src, aad) && Written(job, mem, m0, dst, done)
    requires done <= done' <= |job.p| && Applied(mem, mem', dst, src, done, done', bits)
    requires done' != done ==> done % 16 == 0
    requires |bits| == 6 && LaneInputs(job, ins, keys4, done, upto) && done' - done <= upto
    requires forall j | 0 <= j < 6 ::
      |LaneKeys(job.keys, keys4, j)| >= 2 && bits[j] == Cipher(job.aes, LaneKeys(job.keys, keys4, j), ins[j])
    ensures Written(job, mem', m0, dst, done')
  {
    hide Cipher, LaneInputs, Gctr, KeyByte, LaneKeys;
    forall x | 0 <= x < |mem'|
      ensures mem'[x] == if dst <= x < dst + done' then job.C()[x - dst] else m0[x]
    {
      if dst + done <= x < dst + done' {
        var i := x - dst;
        LanesAreKeyStream(job, bits, ins, keys4, done, upto, i - done);
        assert mem[src + i] == m0[src..src + |job.p|][i];
      }
    }
  }

  // How far GHASH has been supplied: idx powers are unused, cnt blocks wait in gdata, aadlen
  // bytes of additional data and left bytes of text remain. It trails AES by a batch.
  ghost predicate Supplied(job: Job, aad: nat, idx: nat, cnt: nat, aadPtr: nat, aadlen: nat, hashed: nat, left: nat,
      batches: nat)
    requires job.Ok()
  {
    && cnt < idx <= |job.G()| && aadlen <= |job.a| && left <= |job.p| && hashed <= |job.p|
    && (aadlen != 0 ==>
          left == |job.p| && hashed == 0 && (|job.a| - aadlen) % 16 == 0 && aadPtr + aadlen == aad + |job.a|)
    && |job.G()| - idx + cnt == BlockCount(|job.a|) - BlockCount(aadlen) + BlockCount(|job.p|) - BlockCount(left)
    && (left != 0 ==> hashed + left == |job.p| && hashed % 16 == 0)
    && hashed <= 96 * batches && BlockCount(|job.p|) - BlockCount(left) <= 6 * batches
  }

  // "setup gdata" of the main loop.
  method Gather(ghost job: Job, mem: array<Byte>, dst: nat, ghost aad: nat, aadIn: nat, aadlenIn: nat, hashedIn: nat,
      leftIn: nat, ghost idx: nat, ghost done: nat, ghost batches: nat)
    returns (gdata: GData, cnt: nat, aadPtr: nat, aadlen: nat, hashed: nat, left: nat, finish: bool)
    requires job.Ok() && aad + |job.a| <= mem.Length && dst + |job.p| <= mem.Length
    requires forall i | 0 <= i < |job.a| :: mem[aad + i] == job.a[i]
    requires done == if 96 * (batches + 1) < |job.p| then 96 * (batches + 1) else |job.p|
    requires forall i | 0 <= i < done :: mem[dst + i] == job.C()[i]
    requires Supplied(job, aad, idx, 0, aadIn, aadlenIn, hashedIn, leftIn, batches)
    ensures GDataIs(mem[..], gdata, cnt, job.G(), |job.G()| - idx)
    ensures cnt <= 6 && (finish <==> cnt < 6) && (finish ==> gdata.Buffer?)
    ensures Supplied(job, aad, idx, cnt, aadPtr, aadlen, hashed, left, batches + 1)
    ensures finish ==> aadlen == 0 && left == 0
    ensures hashedIn <= hashed <= done
  {
    hide GhashInput, Blocks, Gctr, Pad;
    if aadlenIn == 0 && leftIn >= 96 {
      aadPtr, aadlen, finish := aadIn, aadlenIn, false;
      gdata, cnt, hashed, left := InMemory(dst + hashedIn), 6, hashedIn + 96, leftIn - 96;
      TextInMemory(job, mem[..], dst, hashedIn, done, |job.G()| - idx);
    } else {
      var buf;
      buf, aadPtr, aadlen, hashed, left,
        finish := GatherBuffer(job, mem, dst, aad, aadIn, aadlenIn, hashedIn, leftIn, idx, done, batches);
      gdata, cnt := Buffer(buf), |buf|;
    }
  }

  // The part of "setup gdata" that copies into gdatabuf: additional data first, then text.
  method GatherBuffer(ghost job: Job, mem: array<Byte>, dst: nat, ghost aad: nat, aadIn: nat, aadlenIn: nat,
      hashedIn: nat, leftIn: nat, ghost idx: nat, ghost done: nat, ghost batches: nat)
    returns (buf: seq<Block>, aadPtr: nat, aadlen: nat, hashed: nat, left: nat, finish: bool)
    requires job.Ok() && aad + |job.a| <= mem.Length && dst + |job.p| <= mem.Length
    requires forall i | 0 <= i < |job.a| :: mem[aad + i] == job.a[i]
    requires done == if 96 * (batches + 1) < |job.p| then 96 * (batches + 1) else |job.p|
    requires forall i | 0 <= i < done :: mem[dst + i] == job.C()[i]
    requires Supplied(job, aad, idx, 0, aadIn, aadlenIn, hashedIn, leftIn, batches)
    ensures |buf| <= 6 && |buf| < idx && (finish <==> |buf| < 6)
    ensures forall k | 0 <= k < |buf| :: buf[k] == job.G()[|job.G()| - idx + k]
    ensures Supplied(job, aad, idx, |buf|, aadPtr, aadlen, hashed, left, batches + 1)
    ensures finish ==> aadlen == 0 && left == 0
    ensures hashedIn <= hashed <= done
  {
    hide GhashInput, Blocks, Gctr, Pad, HashKey, Pow2, IncTimes, BlockOf, J0, Cipher;
    ghost var at := |job.G()| - idx;
    buf, aadPtr, aadlen, hashed, left, finish := [], aadIn, aadlenIn, hashedIn, leftIn, false;
    if aadlen != 0 {
      buf, aadPtr, aadlen := GatherAad(mem, aadPtr, aadlen, aad, job.a);
      forall k | 0 <= k < |buf| ensures buf[k] == job.G()[at + k] { GhashInputAt(job, at + k); }
    }
    if |buf| < 6 {
      ghost var b := |buf|;
      buf, hashed, left, finish := GatherText(mem, dst, hashed, left, buf, job.C());
      forall k | b <= k < |buf| ensures buf[k] == job.G()[at + k] { GhashInputAt(job, at + k); }
    }
  }

  // Six whole blocks of written text are the GHASH input at their place.
  lemma TextInMemory(job: Job, mem: seq<Byte>, dst: nat, hashed: nat, done: nat, at: nat)
    requires job.Ok() && dst + |job.p| <= |mem| && hashed + 96 <= done <= |job.p| && hashed % 16 == 0
    requires forall i | 0 <= i < done :: mem[dst + i] == job.C()[i]
    requires at == BlockCount(|job.a|) + hashed / 16
    ensures GDataIs(mem, InMemory(dst + hashed), 6, job.G(), at)
  {
    hide GhashInput, Blocks, Gctr, Pad, HashKey, Pow2, IncTimes, BlockOf, J0, Cipher;
    forall k | 0 <= k < 6
      ensures mem[dst + hashed + 16 * k..dst + hashed + 16 * k + 16] == job.G()[at + k]
    {
      GhashInputAt(job, at + k);
      AlignedBlock(job.C(), hashed + 16 * k, mem[dst + hashed + 16 * k..dst + hashed + 16 * k + 16]);
    }
  }

  lemma GhashInputAt(job: Job, k: nat)
    requires job.Ok() && k < BlockCount(|job.a|) + BlockCount(|job.p|)
    ensures job.G()[k] == if k < BlockCount(|job.a|) then Blocks(job.a)[k] else Blocks(job.C())[k - BlockCount(|job.a|)]
  {}

  // ---------------------------------------------------------------- the AES side between batches

  // The variables of the AES side.
  datatype AesSide = AesSide(done: nat, srclen: nat, ctr: U128, lanes: seq<Block>, keys4: seq<Block>, ek0: Block,
      ek0st: Ek0State, suppst: SuppState, suppOut: Option<Block>)

  ghost predicate SuppFits(job: Job, supp: Supp, size: nat)
  {
    supp.Supp? ==> supp.input + 16 <= size && |supp.keys| == |job.keys|
  }

  // Common to both points of the loop: output written, and a finished sample taken from
  // memory that no longer changes.
  ghost predicate BaseOk(job: Job, supp: Supp, s: AesSide, mem: seq<Byte>, m0: seq<Byte>, dst: nat)
  {
    && job.Ok() && s.done + s.srclen == |job.p| && |s.keys4| == |job.keys| && SuppFits(job, supp, |mem|)
    && Written(job, mem, m0, dst, s.done)
    && (s.srclen > 0 ==> s.done % 16 == 0)
    && (s.srclen > 64 ==> s.keys4 == job.keys)
    && (s.ek0st == Ready ==> s.ek0 == job.Ek0())
    && (supp.NoSupp? ==> s.suppst == Unused && s.suppOut == None)
    && (supp.Supp? && s.suppst == Unused ==>
          supp.input + 16 <= dst + s.done
            && s.suppOut == Some(Cipher(job.aes, supp.keys, mem[supp.input..supp.input + 16])))
  }

  // Between AESECB6_FINAL with its stores and the next AESECB6_INIT.
  ghost predicate IdleOk(job: Job, supp: Supp, s: AesSide, mem: seq<Byte>, m0: seq<Byte>, dst: nat)
  {
    && BaseOk(job, supp, s, mem, m0, dst)
    && (s.srclen > 0 ==> s.ctr == J0(job.n) + s.done / 16)
    && s.ek0st != InLane && (s.ek0st == NotFed ==> s.ek0 == job.Ek0In())
    && s.suppst != Running
  }

  // Between AESECB6_INIT and the batch. EK0 is in a lane as soon as one is free.
  ghost predicate LoadedOk(job: Job, supp: Supp, s: AesSide, ins: seq<Block>, mem: seq<Byte>, m0: seq<Byte>, dst: nat)
  {
    && BaseOk(job, supp, s, mem, m0, dst) && |ins| == 6
    && (s.srclen >= 96 ==> s.ctr == J0(job.n) + (s.done + 96) / 16)
    && LanesAt(job.aes, job.keys, s.keys4, s.lanes, ins, 1) && LaneInputs(job, ins, s.keys4, s.done, s.srclen)
    && (s.ek0st == NotFed ==> s.srclen > 80 && s.ek0 == job.Ek0In())
    && (s.ek0st == InLane ==> s.srclen <= 80 && ins[5] == job.Ek0In())
    && (s.suppst == Running ==>
          && supp.Supp? && s.srclen <= 64 && supp.input + 16 <= dst + s.done
          && s.keys4 == supp.keys && ins[4] == mem[supp.input..supp.input + 16])
  }

  method Load(ctx: AesGcmContext, mem: array<Byte>, ghost dst: nat, supp: Supp, s: AesSide, lane5: Block, sampled: nat,
      ghost job: Job, ghost m0: seq<Byte>)
    returns (s': AesSide, ghost ins: seq<Block>)
    requires job.Ok() && job.aes == ctx.aes && job.keys == ctx.keys && sampled <= dst + s.done
    requires IdleOk(job, supp, s, mem[..], m0, dst)
    ensures LoadedOk(job, supp, s', ins, mem[..], m0, dst)
    ensures s'.done == s.done && s'.srclen == s.srclen && (s.ek0st == Ready ==> s'.ek0st == Ready)
  {
    hide Cipher, Rounds, IncTimes, BlockOf, J0, Gctr, LaneInputs, LanesAt, Written;
    var lanes, keys4, ctr, ek0st, suppst;
    lanes, keys4, ctr, ek0st, suppst, ins :=
      Init6(job, ctx.aes, ctx.keys, s.keys4, lane5, s.ctr, s.srclen, s.ek0, s.ek0st, s.suppst, supp, mem, sampled,
        s.done);
    s' := s.(lanes := lanes, keys4 := keys4, ctr := ctr, ek0st := ek0st, suppst := suppst);
  }

  // What the finished lanes give besides key stream.
  method Collect(s: AesSide, bits: seq<Block>, ghost job: Job, ghost supp: Supp, ghost ins: seq<Block>,
      ghost mem: seq<Byte>, ghost m0: seq<Byte>, ghost dst: nat)
    returns (s': AesSide)
    requires LoadedOk(job, supp, s, ins, mem, m0, dst) && |bits| == 6
    requires forall j | 0 <= j < 6 :: bits[j] == Cipher(job.aes, LaneKeys(job.keys, s.keys4, j), ins[j])
    ensures BaseOk(job, supp, s', mem, m0, dst)
    ensures s' == s.(ek0 := s'.ek0, ek0st := s'.ek0st, suppst := s'.suppst, suppOut := s'.suppOut)
    ensures s'.suppst != Running && s'.ek0st != InLane
    ensures s'.ek0st == NotFed ==> s.srclen > 80 && s'.ek0 == job.Ek0In()
  {
    hide Cipher, Rounds, IncTimes, BlockOf, J0, Gctr, LaneInputs, LanesAt, Written;
    s' := s;
    if s.srclen < 96 {
      if s.ek0st == InLane {
        s' := s'.(ek0 := bits[5], ek0st := Ready);
      }
      if s.suppst == Running {
        s' := s'.(suppOut := Some(bits[4]), suppst := Unused);
      }
    }
  }

  // One turn of the main loop, up to the stores.
  method Run(ctx: AesGcmContext, mem: array<Byte>, dst: nat, src: nat, ghost supp: Supp, s: AesSide,
      gIn: State, gdata: GData, cnt: nat, idxIn: nat,
      ghost job: Job, ghost aad: nat, ghost m0: seq<Byte>, ghost ins: seq<Block>)
    returns (s': AesSide, lane5: Block, g: State, idx: nat)
    requires ctx.Valid() && job.Ok() && job.aes == ctx.aes && job.keys == ctx.keys
    requires Regions(job, m0, dst, src, aad) && LoadedOk(job, supp, s, ins, mem[..], m0, dst)
    requires cnt <= 6 && cnt < idxIn <= |ctx.ghash| && idxIn <= |job.G()|
    requires Fed(gIn, job.H(), job.G(), |job.G()| - idxIn) && GDataIs(mem[..], gdata, cnt, job.G(), |job.G()| - idxIn)
    modifies mem
    ensures IdleOk(job, supp, s', mem[..], m0, dst)
    ensures s'.done == if s.done + 96 < |job.p| then s.done + 96 else |job.p|
    ensures s.srclen <= 80 ==> s'.ek0st == Ready
    ensures idx == idxIn - cnt && Fed(g, job.H(), job.G(), |job.G()| - idx)
  {
    hide Cipher, Rounds, IncTimes, BlockOf, J0, Gctr, GhashInput, Fed, HashKey, GDataIs, LaneInputs, LanesAt, Applied,
      Regions, Written;
    var bits;
    bits, g, idx := RunBatch(ctx, s.keys4, s.lanes, mem, gIn, gdata, cnt, idxIn, 2, ins, job.G());
    lane5 := bits[5];
    s' := Collect(s, bits, job, supp, ins, mem[..], m0, dst);
    s' := StoreBatch(mem, dst, src, s', bits, supp, job, aad, m0, ins);
  }

  method StoreBatch(mem: array<Byte>, dst: nat, src: nat, s: AesSide, bits: seq<Block>,
      ghost supp: Supp, ghost job: Job, ghost aad: nat, ghost m0: seq<Byte>, ghost ins: seq<Block>)
    returns (s': AesSide)
    requires BaseOk(job, supp, s, mem[..], m0, dst) && Regions(job, m0, dst, src, aad)
    requires |bits| == 6 && LaneInputs(job, ins, s.keys4, s.done, s.srclen)
    requires forall j | 0 <= j < 6 :: bits[j] == Cipher(job.aes, LaneKeys(job.keys, s.keys4, j), ins[j])
    requires s.srclen >= 96 ==> s.ctr == J0(job.n) + (s.done + 96) / 16
    modifies mem
    ensures BaseOk(job, supp, s', mem[..], m0, dst)
    ensures s' == s.(done := s'.done, srclen := s'.srclen)
    ensures s'.done == if s.done + 96 < |job.p| then s.done + 96 else |job.p|
    ensures s'.srclen > 0 ==> s'.ctr == J0(job.n) + s'.done / 16
  {
    hide Cipher, Rounds, IncTimes, BlockOf, J0, Gctr, LaneInputs, Applied, Regions, Written;
    ghost var was := mem[..];
    assert Placed(mem.Length, dst, |job.p|, src, |job.p|) by { RegionsPlaced(job, m0, dst, src, aad, was, s.done); }
    var done, srclen := Apply(mem, dst, src, s.done, s.srclen, bits);
    ApplyGivesCipherText(job, m0, dst, src, aad, was, mem[..], s.done, done, s.srclen, bits, ins, s.keys4);
    s' := s.(done := done, srclen := srclen);
    AppliedBelow(was, mem[..], dst, src, s.done, done, bits);
    if supp.Supp? && s.suppst == Unused {
      assert mem[..][supp.input..supp.input + 16] == was[supp.input..supp.input + 16];
    }
  }

  lemma RegionsPlaced(job: Job, m0: seq<Byte>, dst: nat, src: nat, aad: nat, mem: seq<Byte>, done: nat)
    requires job.Ok() && Regions(job, m0, dst, src, aad) && Written(job, mem, m0, dst, done)
    ensures Placed(|mem|, dst, |job.p|, src, |job.p|)
  {}

  lemma AppliedBelow(mem: seq<Byte>, mem': seq<Byte>, dst: nat, src: nat, done: nat, done': nat, bits: seq<Block>)
    requires Applied(mem, mem', dst, src, done, done', bits)
    ensures |mem'| == |mem| && forall i | 0 <= i < dst + done :: mem'[i] == mem[i]
  {}

  // ---------------------------------------------------------------- the call

  // The blocks left in gdatabuf at Finish, the length block among them.
  method FeedRest(ctx: AesGcmContext, gIn: State, buf: seq<Block>, ghost xs: seq<Block>) returns (g: State)
    requires ctx.Valid() && |buf| <= |ctx.ghash| && |buf| <= |xs|
    requires Fed(gIn, HashKey(ctx.aes, ctx.keys), xs, |xs| - |buf|)
    requires forall k | 0 <= k < |buf| :: buf[k] == xs[|xs| - |buf| + k]
    ensures DoReduce(g) == GhashOf(HashKey(ctx.aes, ctx.keys), xs)
  {
    hide DoStep, BE, Fed, HashKey, Power, MakeEntry, DoReduce, GhashOf;
    g := gIn;
    var idx := |buf|;
    for i := 0 to |buf|
      invariant idx == |buf| - i && Fed(g, HashKey(ctx.aes, ctx.keys), xs, |xs| - idx)
    {
      idx := idx - 1;
      FeedBlock(g, HashKey(ctx.aes, ctx.keys), xs, |xs| - idx - 1);
      g := NextStep(g, buf[i], ctx.ghash[idx]);
    }
    FedAll(g, HashKey(ctx.aes, ctx.keys), xs);
  }

  // "Finish the calculation of supplemental vector": the remaining rounds on lane 4, or all
  // of them if the sample has not been loaded yet.
  method FinishSupp(aes: Aes, rounds: nat, keys4: seq<Block>, lane4: Block, from: nat, ghost x: Block)
    returns (out: Block)
    requires |keys4| == rounds + 1 && rounds >= 10 && 1 <= from <= 2 && lane4 == Rounds(aes, keys4, x, from - 1)
    ensures out == Cipher(aes, keys4, x)
  {
    var i := from;
    out := aes.round(lane4, keys4[i]);
    i := i + 1;
    while i != rounds
      invariant 2 <= i <= rounds && out == Rounds(aes, keys4, x, i - 1)
    {
      out := aes.round(out, keys4[i]);
      i := i + 1;
    }
    out := aes.last(out, keys4[i]);
  }

  method MainLoop(ctx: AesGcmContext, mem: array<Byte>, dst: nat, src: nat, aad: nat, aadIn: nat, aadlenIn: nat,
      gdataIn: seq<Block>, supp: Supp, sIn: AesSide, idxIn: nat, ghost job: Job, ghost m0: seq<Byte>,
      ghost insIn: seq<Block>)
    returns (s: AesSide, g: State, buf: seq<Block>, ghost ins: seq<Block>)
    requires ctx.Valid() && job.Ok() && job.aes == ctx.aes && job.keys == ctx.keys
    requires Regions(job, m0, dst, src, aad) && LoadedOk(job, supp, sIn, insIn, mem[..], m0, dst) && sIn.done == 0
    requires |gdataIn| <= 6 && idxIn == |job.G()| <= |ctx.ghash|
    requires GDataIs(mem[..], Buffer(gdataIn), |gdataIn|, job.G(), 0)
    requires Supplied(job, aad, idxIn, |gdataIn|, aadIn, aadlenIn, 0, |job.p|, 0)
    modifies mem
    ensures LoadedOk(job, supp, s, ins, mem[..], m0, dst) && s.done == |job.p| && s.ek0st == Ready
    ensures |buf| < 6 && |buf| < |job.G()|
    ensures Fed(g, job.H(), job.G(), |job.G()| - 1 - |buf|)
    ensures forall k | 0 <= k < |buf| :: buf[k] == job.G()[|job.G()| - 1 - |buf| + k]
  {
    hide Cipher, Rounds, IncTimes, BlockOf, J0, Gctr, GhashInput, Fed, HashKey, GDataIs, LaneInputs, LanesAt, Applied,
      Regions, LoadedOk, IdleOk, Pow2, TableOk, Written;
    s, ins, g := sIn, insIn, State(0, 0, 0);
    FedNothing(job.H(), job.G(), g.hi);
    var idx: nat, gdata: GData, cnt: nat := idxIn, Buffer(gdataIn), |gdataIn|;
    var aadPtr: nat, aadlen: nat, hashed: nat, left: nat := aadIn, aadlenIn, 0, s.srclen;
    assert left == |job.p| by { LoadedDone(job, supp, s, ins, mem[..], m0, dst); }
    ghost var batches: nat := 0;
    var finish := false;
    while !finish
      invariant LoadedOk(job, supp, s, ins, mem[..], m0, dst)
      invariant cnt <= 6 && Supplied(job, aad, idx, cnt, aadPtr, aadlen, hashed, left, batches)
      invariant Fed(g, job.H(), job.G(), |job.G()| - idx) && GDataIs(mem[..], gdata, cnt, job.G(), |job.G()| - idx)
      invariant s.done == (if 96 * batches < |job.p| then 96 * batches else |job.p|) && hashed <= s.done
      invariant finish ==> gdata.Buffer? && cnt < 6 && aadlen == 0 && left == 0 && s.ek0st == Ready && s.done == |job.p|
      decreases idx - cnt, if finish then 0 else 1
    {
      ghost var before := |job.p| - s.done;
      assert s.srclen == before by { LoadedDone(job, supp, s, ins, mem[..], m0, dst); }
      var lane5;
      s, lane5, g, idx := Run(ctx, mem, dst, src, supp, s, g, gdata, cnt, idx, job, aad, m0, ins);
      s, ins := Load(ctx, mem, dst, supp, s, lane5, dst + hashed, job, m0);
      MemoryFacts(job, supp, s, ins, mem[..], m0, dst, src, aad);
      ghost var left', aadlen' := left, aadlen;
      gdata, cnt, aadPtr, aadlen, hashed, left, finish :=
        Gather(job, mem, dst, aad, aadPtr, aadlen, hashed, left, idx, s.done, batches);
      if finish { TextRanOut(job, aad, idx, cnt, aadlen', left', batches, before); }
      batches := batches + 1;
    }
    buf := gdata.blocks;
    LastBlocks(job, aad, idx, cnt, aadPtr, hashed, batches, mem[..], buf);
  }

  lemma LoadedDone(job: Job, supp: Supp, s: AesSide, ins: seq<Block>, mem: seq<Byte>, m0: seq<Byte>, dst: nat)
    requires LoadedOk(job, supp, s, ins, mem, m0, dst)
    ensures s.done + s.srclen == |job.p|
  {}

  lemma MemoryFacts(job: Job, supp: Supp, s: AesSide, ins: seq<Block>, mem: seq<Byte>, m0: seq<Byte>, dst: nat,
      src: nat, aad: nat)
    requires LoadedOk(job, supp, s, ins, mem, m0, dst) && Regions(job, m0, dst, src, aad)
    ensures aad + |job.a| <= |mem| && dst + |job.p| <= |mem|
    ensures forall i | 0 <= i < |job.a| :: mem[aad + i] == job.a[i]
    ensures forall i | 0 <= i < s.done :: mem[dst + i] == job.C()[i]
  {
    hide Gctr, LaneInputs, LanesAt;
    forall i | 0 <= i < |job.a|
      ensures mem[aad + i] == job.a[i]
    {
      assert m0[aad..aad + |job.a|][i] == m0[aad + i];
    }
  }

  // GHASH reaches the end of the text only after a batch that had a lane to spare for EK0.
  lemma TextRanOut(job: Job, aad: nat, idx: nat, cnt: nat, aadlen: nat, left: nat, batches: nat, before: nat)
    requires job.Ok() && cnt < 6 && left <= |job.p|
    requires cnt == BlockCount(aadlen) + BlockCount(left)
    requires BlockCount(|job.p|) - BlockCount(left) <= 6 * batches
    requires before == if 96 * batches < |job.p| then |job.p| - 96 * batches else 0
    ensures before <= 80
  {}

  lemma LastBlocks(job: Job, aad: nat, idx: nat, cnt: nat, aadPtr: nat, hashed: nat, batches: nat, mem: seq<Byte>,
      buf: seq<Block>)
    requires job.Ok() && Supplied(job, aad, idx, cnt, aadPtr, 0, hashed, 0, batches)
    requires GDataIs(mem, Buffer(buf), cnt, job.G(), |job.G()| - idx)
    ensures |buf| == cnt && idx == cnt + 1
    ensures forall k | 0 <= k < |buf| :: buf[k] == job.G()[|job.G()| - 1 - |buf| + k]
  {}

  // Up to the main loop: the first AESECB6_INIT and the first gdata, additional data only.
  method Begin(ctx: AesGcmContext, mem: array<Byte>, dst: nat, inlen: nat, ctrIn: U128, aad: nat, aadlenIn: nat,
      supp: Supp, ghost src: nat, ghost job: Job)
    returns (s: AesSide, gdata: seq<Block>, aadPtr: nat, aadlen: nat, ghost ins: seq<Block>)
    requires job.Ok() && job.aes == ctx.aes && job.keys == ctx.keys && job.n == ctrIn
    requires |job.p| == inlen && |job.a| == aadlenIn && Regions(job, mem[..], dst, src, aad)
      && SuppFits(job, supp, mem.Length)
    ensures LoadedOk(job, supp, s, ins, mem[..], mem[..], dst) && s.done == 0
    ensures |gdata| <= 6 && GDataIs(mem[..], Buffer(gdata), |gdata|, job.G(), 0)
    ensures Supplied(job, aad, |job.G()|, |gdata|, aadPtr, aadlen, 0, |job.p|, 0)
  {
    hide Cipher, Rounds, IncTimes, BlockOf, Gctr, GhashInput, Blocks, LaneInputs, LanesAt, LoadedOk;
    var ctr := InsertOne(ctrIn);
    s := AesSide(0, inlen, ctr, [], ctx.keys, BlockOf(ctr), NotFed, if supp.Supp? then Wanted else Unused, None);
    s, ins := Load(ctx, mem, dst, supp, s, ZeroBlock(), dst, job, mem[..]);
    MemoryFacts(job, supp, s, ins, mem[..], mem[..], dst, src, aad);
    gdata, aadPtr, aadlen := [], aad, aadlenIn;
    if aadlenIn != 0 {
      gdata, aadPtr, aadlen := GatherAad(mem, aad, aadlenIn, aad, job.a);
      forall k | 0 <= k < |gdata| ensures gdata[k] == job.G()[k] { GhashInputAt(job, k); }
    }
  }

  // The supplementary output, when it was not computed alongside.
  method SuppAtEnd(ctx: AesGcmContext, mem: array<Byte>, supp: Supp, s: AesSide,
      ghost job: Job, ghost was: seq<Byte>, ghost m0: seq<Byte>, ghost dst: nat, ghost ins: seq<Block>)
    returns (suppOut: Option<Block>)
    requires job.Ok() && job.aes == ctx.aes && job.keys == ctx.keys && LoadedOk(job, supp, s, ins, was, m0, dst)
    requires mem.Length == |was| && forall i | 0 <= i < dst + s.done :: mem[i] == was[i]
    ensures suppOut == if supp.NoSupp? then None else Some(Cipher(ctx.aes, supp.keys, mem[supp.input..supp.input + 16]))
  {
    hide Cipher, Rounds, IncTimes, BlockOf, J0, Gctr, LaneInputs, LanesAt, Written;
    suppOut := s.suppOut;
    if supp.Supp? && s.suppst != Wanted {
      assert mem[supp.input..supp.input + 16] == was[supp.input..supp.input + 16];
    }
    if s.suppst == Wanted {
      var sample: Block := mem[supp.input..supp.input + 16];
      FirstRound(ctx.aes, supp.keys, sample);
      var out := FinishSupp(ctx.aes, |ctx.keys| - 1, supp.keys, XorBlocks(sample, supp.keys[0]), 1, sample);
      suppOut := Some(out);
    } else if s.suppst == Running {
      LaneFour(job.aes, job.keys, s.keys4, s.lanes, ins);
      var out := FinishSupp(ctx.aes, |ctx.keys| - 1, s.keys4, s.lanes[4], 2, ins[4]);
      suppOut := Some(out);
    }
  }

  // ptls_fusion_aesgcm_encrypt
  method Encrypt(ctx: AesGcmContext, mem: array<Byte>, dst: nat, src: nat, inlen: nat, ctrIn: U128, aad: nat,
      aadlenIn: nat, supp: Supp, ghost job: Job)
    returns (suppOut: Option<Block>)
    requires ctx.Valid() && job.Ok() && job.aes == ctx.aes && job.keys == ctx.keys && job.n == ctrIn
    requires |job.p| == inlen && |job.a| == aadlenIn && job.tail == 16 && Regions(job, mem[..], dst, src, aad)
    requires BlockCount(aadlenIn) + BlockCount(inlen) + 1 <= |ctx.ghash|
    requires SuppFits(job, supp, mem.Length)
    modifies mem
    ensures mem[dst..dst + inlen + 16] == Seal(job.aes, job.keys, job.n, job.a, job.p)
    ensures forall i | 0 <= i < mem.Length && !(dst <= i < dst + inlen + 16) :: mem[i] == old(mem[i])
    ensures suppOut == if supp.NoSupp? then None else Some(Cipher(ctx.aes, supp.keys, mem[supp.input..supp.input + 16]))
  {
    hide Cipher, Rounds, IncTimes, BlockOf, J0, Gctr, GhashInput, Blocks, Fed, HashKey, TagOf, LaneInputs, LanesAt,
      DoReduce, GhashOf, Seal,
         GDataIs, Supplied, LengthBlock32, LoadedOk, GetTag, Written, Regions, Pow2, TableOk, SuppFits;
    ghost var m0 := mem[..];
    var s, gdata, aadPtr, aadlen, g, buf;
    ghost var ins;
    s, gdata, aadPtr, aadlen, ins := Begin(ctx, mem, dst, inlen, ctrIn, aad, aadlenIn, supp, src, job);
    s, g, buf, ins := MainLoop(ctx, mem, dst, src, aad, aadPtr, aadlen, gdata, supp, s,
      BlockCount(aadlenIn) + BlockCount(inlen) + 1, job, m0, ins);
    ghost var was := mem[..];
    LoadedWritten(job, supp, s, ins, was, m0, dst);
    FinishTag(ctx, mem, dst, s.done, s.ek0, g, buf + [LengthBlock32(aadlenIn, inlen)], job,
      m0) by { LengthBlockLast(job); }
    suppOut := SuppAtEnd(ctx, mem, supp, s, job, was, m0, dst, ins);
  }

  // The end of GHASH and the tag.
  method FinishTag(ctx: AesGcmContext, mem: array<Byte>, dst: nat, done: nat, ek0: Block, gIn: State, buf: seq<Block>,
      ghost job: Job, ghost m0: seq<Byte>)
    requires ctx.Valid() && job.Ok() && job.aes == ctx.aes && job.keys == ctx.keys && job.tail == 16
    requires Written(job, mem[..], m0, dst, done) && done == |job.p| && ek0 == job.Ek0()
    requires |buf| <= |ctx.ghash| && |buf| <= |job.G()| && Fed(gIn, job.H(), job.G(), |job.G()| - |buf|)
    requires forall k | 0 <= k < |buf| :: buf[k] == job.G()[|job.G()| - |buf| + k]
    modifies mem
    ensures mem[dst..dst + done + 16] == Seal(job.aes, job.keys, job.n, job.a, job.p)
    ensures forall i | 0 <= i < mem.Length && !(dst <= i < dst + done + 16) :: mem[i] == m0[i]
    ensures forall i | 0 <= i < dst + done :: mem[i] == old(mem[i])
  {
    hide Cipher, Rounds, IncTimes, BlockOf, J0, Gctr, GhashInput, Fed, HashKey, TagOf, DoReduce, GhashOf, Seal, GetTag,
      Pow2, TableOk;
    var g := FeedRest(ctx, gIn, buf, job.G());
    TagIs(job, DoReduce(g), ek0);
    SealIs(job);
    Store(mem, dst + done, GetTag(DoReduce(g), ek0));
    assert mem[dst..dst + done] == job.C();
    assert mem[dst + done..dst + done + 16] == TagOf(job.aes, job.keys, job.n, job.a, job.C());
  }

  lemma LoadedWritten(job: Job, supp: Supp, s: AesSide, ins: seq<Block>, mem: seq<Byte>, m0: seq<Byte>, dst: nat)
    requires LoadedOk(job, supp, s, ins, mem, m0, dst)
    ensures Written(job, mem, m0, dst, s.done)
    ensures s.ek0st == Ready ==> s.ek0 == job.Ek0()
  {}

  lemma FirstRound(aes: Aes, keys: seq<Block>, x: Block)
    requires |keys| >= 1
    ensures Rounds(aes, keys, x, 0) == XorBlocks(x, keys[0])
  {}

  lemma LaneFour(aes: Aes, keys: seq<Block>, keys4: seq<Block>, lanes: seq<Block>, ins: seq<Block>)
    requires LanesAt(aes, keys, keys4, lanes, ins, 1)
    ensures |lanes| == 6 && |keys4| == |keys| && 1 < |keys4| && lanes[4] == Rounds(aes, keys4, ins[4], 1)
  {}

  lemma LengthBlockLast(job: Job)
    requires job.Ok()
    ensures job.G()[|job.G()| - 1] == LengthBlock32(|job.a|, |job.p|)
  {
    Pow2Words();
    Pow2Monotone(32, 61);
    Pow2Of32();
    LengthBlockExact(|job.a|, |job.p|);
  }

  lemma TagIs(job: Job, y: U128, ek0: Block)
    requires job.Ok() && y == GhashOf(job.H(), job.G()) && ek0 == job.Ek0()
    ensures GetTag(y, ek0) == TagOf(job.aes, job.keys, job.n, job.a, job.C())
  {}

  lemma SealIs(job: Job)
    requires job.Ok()
    ensures Seal(job.aes, job.keys, job.n, job.a, job.p) == job.C() + TagOf(job.aes, job.keys, job.n, job.a, job.C())
  {}
}
