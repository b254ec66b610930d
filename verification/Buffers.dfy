/** ptls_buffer_t: a byte buffer that grows by doubling, and the blocks whose length is written
    once their body is known. */
module Buffers {
  import opened Results
  import opened Wire
  import opened Codec

  const SIZE_MAX: nat := 0xffff_ffff_ffff_ffff

  // The capacity after growing: doubled until it suffices, or what is required.
  function Grown(capacity: nat, required: nat): (r: nat)
    requires capacity >= 1024
    ensures r >= required
    ensures required <= SIZE_MAX && capacity <= SIZE_MAX ==> r <= SIZE_MAX
    decreases required - capacity
  {
    if capacity >= required then capacity
    else if capacity > SIZE_MAX / 2 then required
    else Grown(capacity * 2, required)
  }

  class Buffer {
    var base: array<Octet>
    var off: nat

    ghost predicate Valid()
      reads this
    {
      off <= base.Length <= SIZE_MAX
    }

    ghost function Contents(): Data
      requires Valid()
      reads this, base
    {
      base[..off]
    }

    // ptls_buffer_init with a buffer of the caller
    constructor (size: nat)
      requires size <= SIZE_MAX
      ensures Valid() && fresh(base) && Contents() == []
    {
      base := new Octet[size](_ => 0);
      off := 0;
    }

    // ptls_buffer_reserve: room for delta more bytes, the contents kept. Allocation succeeds.
    method Reserve(delta: nat) returns (ok: bool)
      requires Valid()
      modifies this
      ensures Valid() && off == old(off) && (base == old(base) || fresh(base))
      ensures Contents() == old(Contents())
      ensures ok <==> off + delta <= SIZE_MAX
      ensures ok ==> off + delta <= base.Length
    {
      if delta > SIZE_MAX - off {
        return false;
      }
      var required := off + delta;
      if base.Length < required {
        var capacity := if base.Length < 1024 then 1024 else base.Length;
        ghost var target := Grown(capacity, required);
        while capacity < required
          invariant capacity >= 1024 && Grown(capacity, required) == target
          decreases required - capacity
        {
          if capacity > SIZE_MAX / 2 {
            capacity := required;
            break;
          }
          capacity := capacity * 2;
        }
        assert capacity == target;
        var b, n := base, off;
        var moved := new Octet[capacity](i reads b requires n <= b.Length && 0 <= i => if i < n then b[i] else 0);
        assert moved[..off] == base[..off];
        base := moved;
      }
      return true;
    }

    // ptls_buffer__do_pushv
    method Push(src: Data) returns (ok: bool)
      requires Valid()
      modifies this, base
      ensures Valid() && (base == old(base) || fresh(base))
      ensures ok <==> old(off) + |src| <= SIZE_MAX
      ensures Contents() == if ok then old(Contents()) + src else old(Contents())
    {
      ghost var before := Contents();
      ok := Reserve(|src|);
      if !ok {
        return;
      }
      var i := 0;
      while i < |src|
        invariant 0 <= i <= |src| && Valid() && off == old(off) && off + |src| <= base.Length
        invariant base[..off + i] == before + src[..i]
        invariant base == old(base) || fresh(base)
      {
        base[off + i] := src[i];
        assert base[..off + i + 1] == base[..off + i] + [src[i]];
        assert src[..i + 1] == src[..i] + [src[i]];
        i := i + 1;
      }
      assert src[..i] == src;
      off := off + |src|;
    }

    // The bytes at a position overwritten
    method Patch(at: nat, bytes: Data)
      requires Valid() && at + |bytes| <= off
      modifies base
      ensures Contents() == old(Contents())[..at] + bytes + old(Contents())[at + |bytes|..]
    {
      ghost var before := Contents();
      var i := 0;
      while i < |bytes|
        invariant 0 <= i <= |bytes|
        invariant base[..off] == before[..at] + bytes[..i] + before[at + i..]
      {
        ghost var now := base[..off];
        base[at + i] := bytes[i];
        assert base[..off] == now[at + i := bytes[i]];
        assert bytes[..i + 1] == bytes[..i] + [bytes[i]];
        i := i + 1;
      }
      assert bytes[..i] == bytes;
    }

    // memmove of the last body bytes by so many positions, as they are kept below off
    method Shift(start: nat, gap: nat)
      requires Valid() && start <= off && off + gap <= base.Length
      modifies this, base
      ensures Valid() && base == old(base) && off == old(off) + gap
      ensures Contents()[..start] == old(Contents())[..start] && Contents()[start + gap..] == old(Contents())[start..]
    {
      ghost var before := base[..off];
      var i := off;
      while i > start
        invariant start <= i <= off && off == old(off) && base == old(base)
        invariant base[..i] == before[..i]
        invariant base[i + gap..off + gap] == before[i..]
      {
        i := i - 1;
        ghost var tail := base[i + 1 + gap..off + gap];
        base[i + gap] := base[i];
        assert base[i + gap..off + gap] == [before[i]] + tail;
        assert before[i..] == [before[i]] + before[i + 1..];
        assert base[..i] == before[..i];
      }
      off := off + gap;
    }

    // The end of a block with a fixed prefix: overflow, or the length is written before the body.
    method EndFixed(start: nat, size: nat) returns (ok: bool)
      requires Valid() && size <= start <= off
      modifies base
      ensures ok <==> off - start < Power(size)
      ensures Contents() ==
        if ok then old(Contents())[..start - size] + Be(off - start, size) + old(Contents())[start..]
          else old(Contents())
    {
      if off - start >= Power(size) {
        return false;
      }
      Patch(start - size, Be(off - start, size));
      return true;
    }

    // ptls_buffer__adjust_quic_blocksize: one byte was set aside; the body moves when more are needed.
    method EndQuic(start: nat) returns (ok: bool)
      requires Valid() && 1 <= start <= off
      modifies this, base
      ensures Valid() && (base == old(base) || fresh(base))
      ensures ok <==> old(off) - start < QUIC_LIMIT && old(off) - 1 + |EncodeQuic(old(off) - start)| <= SIZE_MAX
      ensures ok ==>
        Contents() == old(Contents())[..start - 1] + EncodeQuic(old(off) - start) + old(Contents())[start..]
    {
      hide EncodeQuic;
      var size := off - start;
      if size >= QUIC_LIMIT {
        return false;
      }
      var prefix := EncodeQuic(size);
      ghost var before := Contents();
      if |prefix| != 1 {
        var room := Reserve(|prefix| - 1);
        if !room {
          return false;
        }
        Shift(start, |prefix| - 1);
      }
      ghost var moved := Contents();
      assert moved[start + (|prefix| - 1)..] == before[start..];
      Patch(start - 1, prefix);
      assert moved[..start - 1] == before[..start - 1];
      return true;
    }
  }

  // ---------------------------------------------------------------- pushing trees

  // Bytes needed on the way: those of the encoding.
  ghost predicate Exhausts(before: nat, e: Option<Data>) { e.None? || before + |e.value| > SIZE_MAX }

  // Bytes set aside for a prefix before the body is known
  function Room(p: Prefix): nat { if p.Fixed? then p.size else 1 }

  // The end of a block: the prefix is filled in.
  method CloseBlock(b: Buffer, p: Prefix, start: nat, ghost before: Data, ghost body: Data) returns (ok: bool)
    requires b.Valid() && p.Valid() && start == |before| + Room(p) && b.off == start + |body|
    requires b.Contents()[..|before|] == before && b.Contents()[start..] == body
    modifies b, b.base
    ensures b.Valid() && (b.base == old(b.base) || fresh(b.base))
    ensures ok ==> EncodePrefix(p, |body|).Some? && b.Contents() == before + (EncodePrefix(p, |body|).value + body)
    ensures !ok ==> EncodePrefix(p, |body|).None? || |before| + |EncodePrefix(p, |body|).value| + |body| > SIZE_MAX
  {
    hide EncodeQuic, Be, Power;
    if p.Fixed? {
      ok := b.EndFixed(start, p.size);
      assert ok ==> before + Be(|body|, p.size) + body == before + (Be(|body|, p.size) + body);
    } else {
      ok := b.EndQuic(start);
      assert ok ==> before + EncodeQuic(|body|) + body == before + (EncodeQuic(|body|) + body);
    }
  }

  /** Pushing nested blocks appends their encoding, unless a block overflows its prefix or the
      address space is exhausted. */
  method PushNode(b: Buffer, t: Node) returns (ok: bool)
    requires b.Valid() && Valid(t)
    modifies b, b.base
    ensures b.Valid() && (b.base == old(b.base) || fresh(b.base))
    ensures ok ==> Encode(t).Some? && b.Contents() == old(b.Contents()) + Encode(t).value
    ensures !ok ==> Exhausts(old(b.off), Encode(t))
    decreases t
  {
    hide EncodePrefix;
    match t {
      case Leaf(d) =>
        ok := b.Push(d);
      case Block(p, children) =>
        ghost var before := b.Contents();
        PrefixNeeds(t);
        ok := b.Push(Zeros(Room(p)));
        if !ok {
          return;
        }
        var start := b.off;
        ghost var started := b.Contents();
        ok := PushAll(b, children);
        if !ok {
          return;
        }
        ghost var body := EncodeAll(children).value;
        assert b.Contents() == started + body;
        assert b.Contents()[start..] == body && b.Contents()[..|before|] == before;
        ok := CloseBlock(b, p, start, before, body);
    }
  }

  // An encoding is at least as long as its body and the room set aside for the prefix.
  lemma PrefixNeeds(t: Node)
    requires t.Block? && t.prefix.Valid()
    ensures Encode(t).Some? ==>
      && EncodeAll(t.children).Some?
      && EncodePrefix(t.prefix, |EncodeAll(t.children).value|).Some?
      && |Encode(t).value| == |EncodePrefix(t.prefix,
        |EncodeAll(t.children).value|).value| + |EncodeAll(t.children).value|
      && |Encode(t).value| >= |EncodeAll(t.children).value| + (if t.prefix.Fixed? then t.prefix.size else 1)
  {
    hide EncodeQuic, Be;
  }

  lemma EncodeAllParts(ts: seq<Node>)
    ensures ts == [] ==> EncodeAll(ts) == Some([])
    ensures ts != [] ==>
      var h, t := Encode(ts[0]), EncodeAll(ts[1..]);
      EncodeAll(ts) == if h.None? || t.None? then None else Some(h.value + t.value)
  {}

  method PushAll(b: Buffer, ts: seq<Node>) returns (ok: bool)
    requires b.Valid() && forall c | c in ts :: Valid(c)
    modifies b, b.base
    ensures b.Valid() && (b.base == old(b.base) || fresh(b.base))
    ensures ok ==> EncodeAll(ts).Some? && b.Contents() == old(b.Contents()) + EncodeAll(ts).value
    ensures !ok ==> Exhausts(old(b.off), EncodeAll(ts))
    decreases ts
  {
    hide Encode, EncodeAll, Valid;
    EncodeAllParts(ts);
    if ts == [] {
      return true;
    }
    ok := PushNode(b, ts[0]);
    if !ok {
      return;
    }
    ghost var before := old(b.Contents());
    ghost var h := Encode(ts[0]).value;
    assert b.off == |before| + |h|;
    ok := PushAll(b, ts[1..]);
    if ok {
      assert before + h + EncodeAll(ts[1..]).value == before + (h + EncodeAll(ts[1..]).value);
    }
  }
}
