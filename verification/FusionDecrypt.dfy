/** ptls_fusion_aesgcm_decrypt: GHASH reads the cipher text before AES overwrites it, the
    first lane computes EK0, and lanes are skipped while additional data is hashed. */
module FusionDecrypt {
  import opened Gf2
  import opened Ghash
  import opened Bytes
  import opened Results
  import opened Gcm
  import opened FusionContext
  import opened FusionEncrypt

  // Here the text of a job is the cipher text: GHASH reads the text itself.
  ghost function Xs(job: Job): (xs: seq<Block>)
    ensures |xs| == BlockCount(|job.a|) + BlockCount(|job.p|) + 1
  {
    GhashInput(job.a, job.p)
  }

  lemma XsAt(job: Job, k: nat)
    requires k < |Xs(job)| && job.Ok()
    ensures Xs(job)[k] == if k < BlockCount(|job.a|) then Blocks(job.a)[k]
                          else if k < |Xs(job)| - 1 then Blocks(job.p)[k - BlockCount(|job.a|)]
                          else LengthBlock32(|job.a|, |job.p|)
  {
    if k == |Xs(job)| - 1 { LengthBlockLast(job); }
  }

  // ---------------------------------------------------------------- GHASH input

  // idx powers are unused; aadlen bytes of additional data, left bytes of text and perhaps
  // the length block (more) remain to be collected. GHASH is never behind AES.
  ghost predicate Ahead(job: Job, aad: nat, idx: nat, cnt: nat, aadPtr: nat, aadlen: nat, hashed: nat, left: nat,
      more: bool, done: nat)
  {
    && cnt <= idx <= |Xs(job)| && aadlen <= |job.a| && left <= |job.p| && hashed <= |job.p|
    && (aadlen != 0 ==>
          left == |job.p| && hashed == 0 && (|job.a| - aadlen) % 16 == 0 && aadPtr + aadlen == aad + |job.a|)
    && idx - cnt == BlockCount(aadlen) + BlockCount(left) + (if more then 1 else 0)
    && (left != 0 ==> more && hashed + left == |job.p| && hashed % 16 == 0 && done <= hashed)
    && (aadlen != 0 ==> more)
  }

  // "setup gdata"; fed is the number of blocks of additional data among them.
  method Gather(ghost job: Job, mem: array<Byte>, src: nat, aadlen0: nat, inlen: nat, ghost aad: nat, aadIn: nat,
      aadlenIn: nat, hashedIn: nat, leftIn: nat, moreIn: bool, ghost idx: nat, ghost done: nat)
    returns (gdata: GData, cnt: nat, aadPtr: nat, aadlen: nat, hashed: nat, left: nat, more: bool, fed: nat)
    requires job.Ok() && aad + |job.a| <= mem.Length && src + |job.p| <= mem.Length && aadlen0 == |job.a|
      && inlen == |job.p|
    requires forall i | 0 <= i < |job.a| :: mem[aad + i] == job.a[i]
    requires forall i | done <= i < |job.p| :: mem[src + i] == job.p[i]
    requires Ahead(job, aad, idx, 0, aadIn, aadlenIn, hashedIn, leftIn, moreIn, done)
    ensures cnt <= 6 && fed <= 6 && GDataIs(mem[..], gdata, cnt, Xs(job), |Xs(job)| - idx)
    ensures Ahead(job, aad, idx, cnt, aadPtr, aadlen, hashed, left, more, done)
    ensures fed == BlockCount(aadlenIn) - BlockCount(aadlen) && (aadlenIn == 0 ==> fed == 0)
      && (aadlen != 0 ==> fed == 6)
    ensures left == 0 || hashed == hashedIn + 16 * (6 - fed)
    ensures aadlenIn != 0 ==> aadlen < aadlenIn
  {
    hide GhashInput, Blocks, Gctr, Pad, HashKey, Pow2, IncTimes, BlockOf, J0, Cipher, LengthBlock32;
    ghost var at := |Xs(job)| - idx;
    aadPtr, aadlen, hashed, left, more, fed := aadIn, aadlenIn, hashedIn, leftIn, moreIn, 0;
    if aadlen == 0 && left >= 96 {
      gdata, cnt, hashed, left := InMemory(src + hashed), 6, hashed + 96, left - 96;
      TextReady(job, mem[..], src, hashedIn, done, at);
      return;
    }
    var buf: seq<Block> := [];
    if aadlen != 0 {
      buf, aadPtr, aadlen := GatherAad(mem, aadPtr, aadlen, aad, job.a);
      fed := |buf|;
      forall k | 0 <= k < |buf| ensures buf[k] == Xs(job)[at + k] { XsAt(job, at + k); }
    }
    if |buf| < 6 {
      buf, hashed, left, more := GatherTail(job, mem, src, aadlen0, inlen, hashed, left, more, buf, at, done);
    }
    gdata, cnt := Buffer(buf), |buf|;
  }

  // GdataFillSrc: text, and the length block when the text has run out.
  method GatherTail(ghost job: Job, mem: array<Byte>, src: nat, aadlen0: nat, inlen: nat, hashedIn: nat, leftIn: nat,
      moreIn: bool, bufIn: seq<Block>, ghost at: nat, ghost done: nat)
    returns (buf: seq<Block>, hashed: nat, left: nat, more: bool)
    requires job.Ok() && src + |job.p| <= mem.Length && aadlen0 == |job.a| && inlen == |job.p|
    requires |bufIn| < 6 && leftIn <= |job.p| && hashedIn <= |job.p|
    requires forall i | done <= i < |job.p| :: mem[src + i] == job.p[i]
    requires leftIn != 0 ==> moreIn && hashedIn + leftIn == |job.p| && hashedIn % 16 == 0 && done <= hashedIn
    requires at + |bufIn| + BlockCount(leftIn) + (if moreIn then 1 else 0) == |Xs(job)|
    requires forall k | 0 <= k < |bufIn| :: bufIn[k] == Xs(job)[at + k]
    requires at + |bufIn| >= BlockCount(|job.a|)
    ensures |buf| <= 6 && left <= leftIn && hashed <= |job.p|
    ensures at + |buf| + BlockCount(left) + (if more then 1 else 0) == |Xs(job)|
    ensures forall k | 0 <= k < |buf| :: buf[k] == Xs(job)[at + k]
    ensures left != 0 ==> more && hashed + left == |job.p| && hashed % 16 == 0 && done <= hashed
    ensures left == 0 || hashed == hashedIn + 16 * (6 - |bufIn|)
  {
    hide GhashInput, Blocks, Gctr, Pad, HashKey, Pow2, IncTimes, BlockOf, J0, Cipher, LengthBlock32;
    var finish;
    if leftIn == 0 {
      buf, hashed, left, finish := bufIn, hashedIn, 0, true;
    } else {
      buf, hashed, left, finish := GatherText(mem, src, hashedIn, leftIn, bufIn, job.p);
      TextBlocks(job, buf, |bufIn|, at, leftIn, left);
    }
    more := moreIn;
    if finish && more {
      XsAt(job, at + |buf|);
      buf, more := buf + [LengthBlock32(aadlen0, inlen)], false;
    }
  }

  // Blocks of text are the GHASH input after the additional data.
  lemma TextBlocks(job: Job, buf: seq<Block>, from: nat, at: nat, leftIn: nat, left: nat)
    requires job.Ok() && from <= |buf| && left <= leftIn <= |job.p|
    requires |buf| - from == BlockCount(leftIn) - BlockCount(left)
    requires at + from + BlockCount(leftIn) + 1 == |Xs(job)| && at + from >= BlockCount(|job.a|)
    requires forall k | from <= k < |buf| ::
      buf[k] == Blocks(job.p)[BlockCount(|job.p|) - BlockCount(leftIn) + k - from]
    ensures forall k | from <= k < |buf| :: at + k < |Xs(job)| && buf[k] == Xs(job)[at + k]
  {
    hide GhashInput, Blocks, Gctr, Pad, HashKey, Pow2, LengthBlock32, BlockCount;
    XsLength(job);
    forall k | from <= k < |buf| ensures at + k < |Xs(job)| && buf[k] == Xs(job)[at + k] { XsAt(job, at + k); }
  }

  lemma XsLength(job: Job)
    requires job.Ok()
    ensures |Xs(job)| == BlockCount(|job.a|) + BlockCount(|job.p|) + 1
  {}

  lemma TextReady(job: Job, mem: seq<Byte>, src: nat, hashed: nat, done: nat, at: nat)
    requires job.Ok() && src + |job.p| <= |mem| && done <= hashed && hashed + 96 <= |job.p| && hashed % 16 == 0
    requires forall i | done <= i < |job.p| :: mem[src + i] == job.p[i]
    requires at == BlockCount(|job.a|) + hashed / 16
    ensures GDataIs(mem, InMemory(src + hashed), 6, Xs(job), at)
  {
    hide GhashInput, Blocks, Gctr, Pad, HashKey, Pow2, IncTimes, BlockOf, J0, Cipher, LengthBlock32;
    forall k | 0 <= k < 6
      ensures mem[src + hashed + 16 * k..src + hashed + 16 * k + 16] == Xs(job)[at + k]
    {
      XsAt(job, at + k);
      AlignedBlock(job.p, hashed + 16 * k, mem[src + hashed + 16 * k..src + hashed + 16 * k + 16]);
    }
  }

  // ---------------------------------------------------------------- AES side

  datatype DecSide = DecSide(done: nat, srclen: nat, ctr: U128, lanes: seq<Block>, ek0: Block, firstRun: bool)

  // At the top of the loop: text before done is decrypted, lane 0 holds EK0 until the first batch has run.
  ghost predicate DecOk(job: Job, s: DecSide, mem: seq<Byte>, m0: seq<Byte>, dst: nat)
  {
    && job.Ok() && s.done + s.srclen == |job.p| && |s.lanes| == 6
    && Written(job, mem, m0, dst, s.done)
    && (s.srclen > 0 ==> s.done % 16 == 0)
    && (if s.firstRun then s.lanes[0] == XorBlocks(job.Ek0In(), job.keys[0]) else s.ek0 == job.Ek0())
  }

  // The counter continues with the next block of text.
  ghost predicate CounterOk(job: Job, s: DecSide) { s.srclen > 0 ==> s.ctr == J0(job.n) + s.done / 16 }

  // "setup aes bits": lanes from skip on get counters, the others keep what they held.
  method SetupLanes(aes: Aes, keys: seq<Block>, lanesIn: seq<Block>, ctrIn: U128, skip: nat, ghost job: Job,
      ghost more: bool, ghost at: nat)
    returns (lanes: seq<Block>, ctr: U128, ghost ins: seq<Block>)
    requires |keys| >= 2 && |lanesIn| == 6
    requires more ==> at + 8 < WORD32 && ctrIn == J0(job.n) + at
    ensures LanesAt(aes, keys, keys, lanes, ins, 0)
    ensures more ==> forall j | skip <= j < 6 :: ins[j] == job.Counter(at + j - skip)
    ensures more && skip <= 6 ==> ctr == J0(job.n) + at + (6 - skip)
    ensures more && skip > 6 ==> ctr == ctrIn
    ensures skip > 0 ==> ins[0] == XorBlocks(lanesIn[0], keys[0])
  {
    hide IncTimes, BlockOf, J0, Add64, Rounds, Cipher, Pow2;
    lanes, ctr := lanesIn, ctrIn;
    ins := seq(6, j requires 0 <= j < 6 => XorBlocks(lanesIn[j], keys[0]));
    forall j | 0 <= j < 6 ensures lanes[j] == Rounds(aes, keys, ins[j], 0) { UndoKey(aes, keys, lanesIn[j]); }
    var j := skip;
    while j < 6
      invariant skip <= j && (if skip <= 6 then j <= 6 else j == skip) && |lanes| == 6 && |ins| == 6
      invariant forall i | 0 <= i < 6 :: lanes[i] == Rounds(aes, keys, ins[i], 0)
      invariant more ==> forall i | skip <= i < j && i < 6 :: ins[i] == job.Counter(at + i - skip)
      invariant more ==> ctr == J0(job.n) + at + (j - skip)
      invariant skip > 0 ==> ins[0] == XorBlocks(lanesIn[0], keys[0])
    {
      if more { Add64IsInc(job.n, at + (j - skip)); }
      ctr := Add64(ctr);
      var x := BlockOf(ctr);
      FirstRound(aes, keys, x);
      lanes, ins := lanes[j := XorBlocks(x, keys[0])], ins[j := x];
      j := j + 1;
    }
  }

  lemma UndoKey(aes: Aes, keys: seq<Block>, lane: Block)
    requires |keys| >= 1
    ensures Rounds(aes, keys, XorBlocks(lane, keys[0]), 0) == lane
  {
    XorBytesTwice(lane, keys[0]);
  }

  // The lanes from skip on, moved to the front.
  function Rotated(bits: seq<Block>, skip: nat): (r: seq<Block>)
    requires |bits| == 6 && skip <= 6
    ensures |r| == 6
    ensures forall j | 0 <= j < 6 - skip :: r[j] == bits[skip + j]
  {
    bits[skip..] + bits[..skip]
  }

  // The APPLY switch: whole blocks while more than one block is left.
  method ApplyFrom(mem: array<Byte>, dst: nat, src: nat, done0: nat, srclen0: nat, bits: seq<Block>, skip: nat)
    returns (done: nat, srclen: nat, finished: bool, last: Block, ghost lane: nat)
    requires |bits| == 6 && skip <= 6 && Placed(mem.Length, dst, done0 + srclen0, src, done0 + srclen0)
    modifies mem
    ensures done + srclen == done0 + srclen0
    ensures Applied(old(mem[..]), mem[..], dst, src, done0, done, Rotated(bits, skip))
    ensures finished ==>
      srclen <= 16 && lane < 6 - skip && done == done0 + 16 * lane && last == Rotated(bits, skip)[lane]
    ensures !finished ==> done == done0 + 16 * (6 - skip)
  {
    hide Applied;
    var j := skip;
    done, srclen, finished, last, lane := done0, srclen0, false, bits[0], 0;
    AppliedNothing(mem[..], dst, src, done0, Rotated(bits, skip));
    while j < 6
      invariant skip <= j <= 6 && done == done0 + 16 * (j - skip) && done + srclen == done0 + srclen0 && !finished
      invariant Applied(old(mem[..]), mem[..], dst, src, done0, done, Rotated(bits, skip))
    {
      if srclen > 16 {
        ghost var was := mem[..];
        var data := XorBytes(mem[src + done..src + done + 16], bits[j]);
        Store(mem, dst + done, data);
        AppliedMore(old(mem[..]), was, mem[..], dst, src, done0, done, 16, Rotated(bits, skip), j - skip, data);
        done, srclen := done + 16, srclen - 16;
      } else {
        last, finished, lane := bits[j], true, j - skip;
        return;
      }
      j := j + 1;
    }
  }

  lemma RotatedInputs(job: Job, ins: seq<Block>, bits: seq<Block>, skip: nat, done: nat)
    requires job.Ok() && |ins| == 6 && |bits| == 6 && skip <= 6
    requires forall j | 0 <= j < 6 :: bits[j] == Cipher(job.aes, job.keys, ins[j])
    requires forall j | skip <= j < 6 :: ins[j] == job.Counter(done / 16 + j - skip)
    ensures LaneInputs(job, Rotated(ins, skip), job.keys, done, 16 * (6 - skip))
    ensures forall j | 0 <= j < 6 :: Rotated(bits, skip)[j] == Cipher(job.aes, job.keys, Rotated(ins, skip)[j])
  {
    hide Cipher, IncTimes, BlockOf, J0;
    var r := Rotated(ins, skip);
    forall j | 0 <= j < 6 && 16 * j < 16 * (6 - skip)
      ensures r[j] == job.Counter(done / 16 + j)
    {
      assert r[j] == ins[skip + j];
    }
  }

  // One turn of the loop after "setup gdata".
  method Run(ctx: AesGcmContext, mem: array<Byte>, dst: nat, src: nat, s: DecSide, skip: nat, gIn: State, gdata: GData,
      cnt: nat, idxIn: nat, ghost job: Job, ghost aad: nat, ghost m0: seq<Byte>)
    returns (s': DecSide, g: State, idx: nat, finished: bool, last: Block)
    requires ctx.Valid() && job.Ok() && job.aes == ctx.aes && job.keys == ctx.keys
    requires Regions(job, m0, dst, src, aad) && DecOk(job, s, mem[..], m0, dst) && CounterOk(job, s)
      && (s.firstRun ==> skip > 0)
    requires cnt <= 6 && cnt <= idxIn <= |ctx.ghash| && idxIn <= |Xs(job)|
    requires Fed(gIn, job.H(), Xs(job), |Xs(job)| - idxIn) && GDataIs(mem[..], gdata, cnt, Xs(job), |Xs(job)| - idxIn)
    modifies mem
    ensures DecOk(job, s', mem[..], m0, dst) && !s'.firstRun && s.done <= s'.done
    ensures idx == idxIn - cnt && Fed(g, job.H(), Xs(job), |Xs(job)| - idx)
    ensures finished ==> skip < 6 && s'.srclen <= 16 && |job.p| <= s.done + 16 * (6 - skip)
    ensures finished && s'.srclen != 0 ==> last == Cipher(job.aes, job.keys, job.Counter(s'.done / 16))
    ensures !finished ==> CounterOk(job, s') && s'.done == s.done + (if skip < 6 then 16 * (6 - skip) else 0)
  {
    hide Cipher, Rounds, IncTimes, BlockOf, J0, Gctr, GhashInput, Fed, HashKey, GDataIs, LaneInputs, LanesAt, Applied,
      Regions, Written, Rotated, Pow2, TableOk;
    var lanes, ctr, bits;
    ghost var ins;
    lanes, ctr, ins := SetupLanes(ctx.aes, ctx.keys, s.lanes, s.ctr, skip, job, s.srclen > 0, s.done / 16);
    LanesSize(ctx.aes, ctx.keys, lanes, ins);
    bits, g, idx := RunBatch(ctx, ctx.keys, lanes, mem, gIn, gdata, cnt, idxIn, 1, ins, Xs(job));
    var ek0 := if s.firstRun then bits[0] else s.ek0;
    assert ek0 == job.Ek0() by { if s.firstRun { XorBytesTwice(job.Ek0In(), job.keys[0]); } }
    var done, srclen;
    done, srclen, finished,
      last := StoreText(mem, dst, src, s.done, s.srclen, bits, if skip < 6 then skip else 6, job, aad, m0, ins);
    s' := DecSide(done, srclen, ctr, bits, ek0, false);
  }

  // Both ways of applying the lanes to the text.
  method StoreText(mem: array<Byte>, dst: nat, src: nat, done0: nat, srclen0: nat, bits: seq<Block>, skip: nat,
      ghost job: Job, ghost aad: nat, ghost m0: seq<Byte>, ghost ins: seq<Block>)
    returns (done: nat, srclen: nat, finished: bool, last: Block)
    requires job.Ok() && Regions(job, m0, dst, src, aad) && Written(job, mem[..], m0, dst, done0)
      && done0 + srclen0 == |job.p|
    requires |ins| == 6 && |bits| == 6 && skip <= 6
      && forall j | 0 <= j < 6 :: bits[j] == Cipher(job.aes, job.keys, ins[j])
    requires srclen0 > 0 ==> done0 % 16 == 0 && forall j | skip <= j < 6 :: ins[j] == job.Counter(done0 / 16 + j - skip)
    modifies mem
    ensures done + srclen == |job.p| && done0 <= done && (srclen > 0 ==> done % 16 == 0)
      && Written(job, mem[..], m0, dst, done)
    ensures finished ==> skip < 6 && srclen <= 16 && |job.p| <= done0 + 16 * (6 - skip)
    ensures finished && srclen != 0 ==> last == Cipher(job.aes, job.keys, job.Counter(done / 16))
    ensures !finished ==> done == done0 + 16 * (6 - skip)
  {
    hide Cipher, Rounds, IncTimes, BlockOf, J0, Gctr, LaneInputs, Applied, Regions, Written, Rotated, Pow2;
    ghost var lane;
    ghost var was := mem[..];
    RegionsPlaced(job, m0, dst, src, aad, was, done0);
    if skip == 0 && srclen0 >= 96 {
      done, srclen := Apply(mem, dst, src, done0, srclen0, bits);
      finished, last := false, bits[0];
      WholeRotation(bits);
    } else {
      done, srclen, finished, last, lane := ApplyFrom(mem, dst, src, done0, srclen0, bits, skip);
    }
    if srclen0 > 0 {
      RotatedInputs(job, ins, bits, skip, done0);
      ApplyGivesCipherText(job, m0, dst, src, aad, was, mem[..], done0, done, 16 * (6 - skip), Rotated(bits, skip),
        Rotated(ins, skip), job.keys);
      if finished { LaneCounter(job, ins, skip, done0, lane); }
    } else {
      AppliedNone(was, mem[..], dst, src, done0, Rotated(bits, skip));
    }
  }

  lemma LanesSize(aes: Aes, keys: seq<Block>, lanes: seq<Block>, ins: seq<Block>)
    requires LanesAt(aes, keys, keys, lanes, ins, 0)
    ensures |ins| == 6 && |lanes| == 6
  {}

  lemma WholeRotation(bits: seq<Block>)
    requires |bits| == 6
    ensures Rotated(bits, 0) == bits
  {}

  lemma AppliedNone(mem: seq<Byte>, mem': seq<Byte>, dst: nat, src: nat, done: nat, bits: seq<Block>)
    requires Applied(mem, mem', dst, src, done, done, bits)
    ensures mem' == mem
  {}

  lemma LaneCounter(job: Job, ins: seq<Block>, skip: nat, done: nat, lane: nat)
    requires |ins| == 6 && skip <= 6 && lane < 6 - skip && done % 16 == 0
    requires LaneInputs(job, Rotated(ins, skip), job.keys, done, 16 * (6 - skip))
    ensures Rotated(ins, skip)[lane] == job.Counter((done + 16 * lane) / 16)
  {
    hide IncTimes, BlockOf, J0;
    assert 16 * lane < 16 * (6 - skip);
    assert (done + 16 * lane) / 16 == done / 16 + lane;
  }

  // ---------------------------------------------------------------- the call

  // The main loop. When AES is through, at most the length block is missing from GHASH.
  method MainLoop(ctx: AesGcmContext, mem: array<Byte>, dst: nat, src: nat, inlen: nat, aad: nat, aadlenIn: nat,
      sIn: DecSide, idxIn: nat, ghost job: Job, ghost m0: seq<Byte>)
    returns (s: DecSide, g: State, idx: nat, more: bool, last: Block)
    requires ctx.Valid() && job.Ok() && job.aes == ctx.aes && job.keys == ctx.keys
    requires |job.p| == inlen && |job.a| == aadlenIn && Regions(job, m0, dst, src, aad)
    requires DecOk(job, sIn, mem[..], m0, dst) && CounterOk(job, sIn) && sIn.firstRun && sIn.done == 0
    requires idxIn == |Xs(job)| <= |ctx.ghash|
    modifies mem
    ensures DecOk(job, s, mem[..], m0, dst) && !s.firstRun && s.srclen <= 16
    ensures s.srclen != 0 ==> last == Cipher(job.aes, job.keys, job.Counter(s.done / 16))
    ensures idx == (if more then 1 else 0) && idx <= |Xs(job)| && Fed(g, job.H(), Xs(job), |Xs(job)| - idx)
  {
    hide Cipher, Rounds, IncTimes, BlockOf, J0, Gctr, GhashInput, Fed, HashKey, GDataIs, Regions, Written, Pow2,
      TableOk, DecOk;
    s, g, idx, more, last := sIn, State(0, 0, 0), idxIn, true, ctx.keys[0];
    FedNothing(job.H(), Xs(job), g.hi);
    var aadPtr: nat, aadlen: nat, hashed: nat, left: nat := aad, aadlenIn, 0, inlen;
    var nondata: nat, finished := 1, false;
    while !finished
      invariant DecOk(job, s, mem[..], m0, dst) && (!finished ==> CounterOk(job, s))
      invariant Ahead(job, aad, idx, 0, aadPtr, aadlen, hashed, left, more, if finished then 0 else s.done)
      invariant Fed(g, job.H(), Xs(job), |Xs(job)| - idx)
      invariant nondata == (if s.firstRun then 1 else 0)
      invariant finished ==> aadlen == 0 && left == 0 && !s.firstRun && s.srclen <= 16
      invariant finished && s.srclen != 0 ==> last == Cipher(job.aes, job.keys, job.Counter(s.done / 16))
      decreases !finished, aadlen + (inlen - s.done) + nondata
    {
      TextUntouched(job, s, mem[..], m0, dst, src, aad);
      ghost var was, hashedWas, leftWas := s, hashed, left;
      var gdata, cnt, fed;
      gdata, cnt, aadPtr, aadlen, hashed, left, more, fed :=
        Gather(job, mem, src, aadlenIn, inlen, aad, aadPtr, aadlen, hashed, left, more, idx, s.done);
      nondata := nondata + fed;
      s, g, idx, finished, last := Run(ctx, mem, dst, src, s, nondata, g, gdata, cnt, idx, job, aad, m0);
      DecDone(job, s, mem[..], m0, dst);
      nondata := 0;
    }
  }

  lemma DecDone(job: Job, s: DecSide, mem: seq<Byte>, m0: seq<Byte>, dst: nat)
    requires DecOk(job, s, mem, m0, dst)
    ensures s.done + s.srclen == |job.p|
  {}

  // Text that AES has not reached is still the cipher text, even when decrypting in place.
  lemma TextUntouched(job: Job, s: DecSide, mem: seq<Byte>, m0: seq<Byte>, dst: nat, src: nat, aad: nat)
    requires DecOk(job, s, mem, m0, dst) && Regions(job, m0, dst, src, aad)
    ensures s.done + s.srclen == |job.p| && aad + |job.a| <= |mem| && src + |job.p| <= |mem|
    ensures forall i | 0 <= i < |job.a| :: mem[aad + i] == job.a[i]
    ensures forall i | s.done <= i < |job.p| :: mem[src + i] == job.p[i]
  {
    hide Gctr;
    forall i | 0 <= i < |job.a| ensures mem[aad + i] == job.a[i] {
      assert m0[aad..aad + |job.a|][i] == m0[aad + i];
    }
    forall i | s.done <= i < |job.p| ensures mem[src + i] == job.p[i] {
      assert m0[src..src + |job.p|][i] == m0[src + i];
    }
  }

  // ptls_fusion_aesgcm_decrypt. The counter comes with its low 32 bits clear.
  method Decrypt(ctx: AesGcmContext, mem: array<Byte>, dst: nat, src: nat, inlen: nat, ctrIn: U128, aad: nat,
      aadlen: nat, tag: nat, ghost job: Job)
    returns (ok: bool)
    requires ctx.Valid() && job.Ok() && job.aes == ctx.aes && job.keys == ctx.keys && job.n == ctrIn
      && ctrIn % WORD32 == 0
    requires |job.p| == inlen && |job.a| == aadlen && job.tail == 0 && Regions(job, mem[..], dst, src, aad)
    requires BlockCount(aadlen) + BlockCount(inlen) + 1 <= |ctx.ghash|
    requires tag + 16 <= mem.Length && (tag + 16 <= dst || dst + inlen <= tag)
    modifies mem
    ensures mem[dst..dst + inlen] == Gctr(job.aes, job.keys, job.n, job.p)
    ensures forall i | 0 <= i < mem.Length && !(dst <= i < dst + inlen) :: mem[i] == old(mem[i])
    ensures ok <==> old(mem[tag..tag + 16]) == TagOf(job.aes, job.keys, job.n, job.a, job.p)
  {
    hide Cipher, Rounds, IncTimes, BlockOf, Gctr, GhashInput, Fed, HashKey, Pow2, TableOk, TagOf, DoReduce, GhashOf,
      LengthBlock32, BE, GetTag, Xs, Power, MakeEntry;
    ghost var m0 := mem[..];
    var ctr := Add64(ctrIn);
    assert ctr == J0(job.n) by { FirstCounter(ctrIn); }
    var lane0 := XorBlocks(BlockOf(ctr), ctx.keys[0]);
    var s := DecSide(0, inlen, ctr, [lane0, ZeroBlock(), ZeroBlock(), ZeroBlock(), ZeroBlock(), ZeroBlock()],
      ZeroBlock(), true);
    var g, idx, more, last;
    s, g, idx, more, last := MainLoop(ctx, mem, dst, src, inlen, aad, aadlen, s,
      BlockCount(aadlen) + BlockCount(inlen) + 1, job, m0);
    // Finish
    LastPart(mem, dst, src, s, last, job, aad, m0);
    if more {
      var rest := [LengthBlock32(aadlen, inlen)];
      XsAt(job, |Xs(job)| - 1);
      g := FeedRest(ctx, g, rest, Xs(job));
    } else {
      FedAll(g, job.H(), Xs(job));
    }
    var calctag := GetTag(DoReduce(g), s.ek0);
    DecTagIs(job, DoReduce(g), s.ek0);
    assert mem[tag..tag + 16] == old(mem[tag..tag + 16]);
    ok := calctag == mem[tag..tag + 16];
  }

  lemma FirstCounter(n: U128)
    requires n % WORD32 == 0
    ensures Add64(n) == J0(n)
  {
    Pow2Words();
  }

  lemma DecTagIs(job: Job, y: U128, ek0: Block)
    requires job.Ok() && y == GhashOf(job.H(), Xs(job)) && ek0 == job.Ek0()
    ensures GetTag(y, ek0) == TagOf(job.aes, job.keys, job.n, job.a, job.p)
  {}

  // The bytes of a last block that is not whole
  lemma LastBytes(job: Job, s: DecSide, mem: seq<Byte>, m0: seq<Byte>, dst: nat, src: nat, aad: nat, last: Block,
      data: seq<Byte>)
    requires DecOk(job, s, mem, m0, dst) && Regions(job, m0, dst, src, aad) && 0 < s.srclen <= 16
    requires last == Cipher(job.aes, job.keys, job.Counter(s.done / 16))
    requires src + s.done + s.srclen <= |mem|
    requires data == XorBlocks(Pad(mem[src + s.done..src + s.done + s.srclen]), last)[..s.srclen]
    ensures data == job.C()[s.done..]
  {
    hide Cipher, Rounds, IncTimes, BlockOf, J0, Written;
    TextUntouched(job, s, mem, m0, dst, src, aad);
    forall i | 0 <= i < s.srclen
      ensures data[i] == job.C()[s.done + i]
    {
      assert mem[src + (s.done + i)] == job.p[s.done + i];
      assert (s.done + i) / 16 == s.done / 16 && (s.done + i) % 16 == i;
    }
  }

  // The last block, whole or not, written at Finish.
  method LastPart(mem: array<Byte>, dst: nat, src: nat, s: DecSide, last: Block, ghost job: Job, ghost aad: nat,
      ghost m0: seq<Byte>)
    requires DecOk(job, s, mem[..], m0, dst) && Regions(job, m0, dst, src, aad) && s.srclen <= 16
    requires s.srclen != 0 ==> last == Cipher(job.aes, job.keys, job.Counter(s.done / 16))
    modifies mem
    ensures mem[dst..dst + |job.p|] == job.C()
    ensures forall i | 0 <= i < mem.Length && !(dst <= i < dst + |job.p|) :: mem[i] == m0[i]
  {
    hide Cipher, Rounds, IncTimes, BlockOf, J0, Gctr, Pad, XorBlocks;
    if s.srclen != 0 {
      TextUntouched(job, s, mem[..], m0, dst, src, aad);
      var data := XorBlocks(Pad(mem[src + s.done..src + s.done + s.srclen]), last)[..s.srclen];
      LastBytes(job, s, mem[..], m0, dst, src, aad, last, data);
      Store(mem, dst + s.done, data);
    }
  }
}
