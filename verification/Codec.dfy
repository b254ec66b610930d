/** Nested length-prefixed blocks with prefixes of 1, 2 or 3 bytes or a QUIC variable-length
    integer, pushed to a growing buffer and taken apart again. */
module Codec {
  import opened Results
  import opened Wire

  // ---------------------------------------------------------------- big-endian numbers

  function Power(k: nat): (r: nat)
    ensures r > 0
  {
    if k == 0 then 1 else 256 * Power(k - 1)
  }

  // k bytes, big-endian
  function Be(n: nat, k: nat): (r: Data)
    ensures |r| == k
  {
    if k == 0 then [] else Be(n / 256, k - 1) + [Low(n)]
  }

  lemma {:induction false} NumberOfBe(n: nat, k: nat)
    requires n < Power(k)
    ensures Number(Be(n, k)) == n
    decreases k
  {
    if k != 0 {
      NumberOfBe(n / 256, k - 1);
      var s := Be(n, k);
      assert s[..k - 1] == Be(n / 256, k - 1) && s[k - 1] == Low(n);
    }
  }

  // ---------------------------------------------------------------- QUIC integers

  const QUIC_LIMIT: nat := 0x4000_0000_0000_0000

  // ptls_encode_quicint
  function EncodeQuic(v: nat): (r: Data)
    requires v < QUIC_LIMIT
    ensures 1 <= |r| <= 8
  {
    if v <= 63 then [v as Octet]
    else if v <= 16383 then [(0x40 + v / 0x100) as Octet] + Be(v, 1)
    else if v <= 1073741823 then [(0x80 + v / 0x100_0000) as Octet] + Be(v, 3)
    else [(0xc0 + v / 0x100_0000_0000_0000) as Octet] + Be(v, 7)
  }

  // Number of bytes after the first: 0, 1, 3 or 7
  function BytesLeft(b: Octet): nat { if b < 0x40 then 0 else if b < 0x80 then 1 else if b < 0xc0 then 3 else 7 }

  // ptls_decode_quicint
  function DecodeQuic(s: Data): (r: Option<(nat, Data)>)
    ensures r.Some? ==> |r.value.1| < |s| && r.value.1 == s[|s| - |r.value.1|..]
  {
    if s == [] then None
    else
      var n := BytesLeft(s[0]);
      if |s| - 1 < n then None
      else Some((s[0] as nat % 64 * Power(n) + Number(s[1..1 + n]), s[1 + n..]))
  }

  lemma {:induction false} BeWraps(n: nat, k: nat, h: nat)
    ensures Be(n + h * Power(k), k) == Be(n, k)
    decreases k
  {
    if k != 0 {
      assert h * Power(k) == 256 * (h * Power(k - 1));
      assert (n + 256 * (h * Power(k - 1))) / 256 == n / 256 + h * Power(k - 1);
      BeWraps(n / 256, k - 1, h);
    }
  }

  lemma Powers()
    ensures Power(1) == 0x100 && Power(3) == 0x100_0000 && Power(7) == 0x100_0000_0000_0000
  {
    assert Power(2) == 0x1_0000;
    assert Power(4) == 0x1_0000_0000;
    assert Power(5) == 0x100_0000_0000;
    assert Power(6) == 0x1_0000_0000_0000;
  }

  // A first byte that carries the upper bits and the length, and k more bytes
  lemma QuicParts(h: nat, l: nat, k: nat, first: Octet, rest: Data)
    requires h < 64 && l < Power(k)
    requires first as nat % 64 == h && BytesLeft(first) == k
    ensures DecodeQuic([first] + Be(l + h * Power(k), k) + rest) == Some((l + h * Power(k), rest))
  {
    hide Number, Be, Power;
    var tail := Be(l + h * Power(k), k);
    var s := [first] + tail + rest;
    assert s[0] == first && s[1..1 + k] == tail && s[1 + k..] == rest;
    LowPart(l, k, h);
  }

  lemma LowPart(l: nat, k: nat, h: nat)
    requires l < Power(k)
    ensures Number(Be(l + h * Power(k), k)) == l
  {
    BeWraps(l, k, h);
    NumberOfBe(l, k);
  }

  lemma {:induction false} NumberFirst(x: Octet, s: Data)
    ensures Number([x] + s) == x as nat * Power(|s|) + Number(s)
    decreases |s|
  {
    var t := [x] + s;
    if s == [] {
      assert t[..0] == [];
    } else {
      var n := |s| - 1;
      assert t[..|t| - 1] == [x] + s[..n];
      NumberFirst(x, s[..n]);
      assert x as nat * Power(|s|) == 256 * (x as nat * Power(n));
    }
  }

  // A first byte in front of k bytes: the upper bits and the mark of the length are worth Power(k) each.
  lemma QuicNumber(h: nat, l: nat, k: nat, mark: nat)
    requires h < 64 && mark <= 0xc0 && l < Power(k)
    ensures Number([(mark + h) as Octet] + Be(l + h * Power(k), k)) == mark * Power(k) + (l + h * Power(k))
  {
    hide Number, Be, Power;
    NumberFirst((mark + h) as Octet, Be(l + h * Power(k), k));
    LowPart(l, k, h);
    assert (mark + h) * Power(k) == mark * Power(k) + h * Power(k);
  }

  /** A variable-length integer is big-endian, of the least of the sizes 1, 2, 4 and 8 that holds it, with the size
      marked in its two upper bits. */
  lemma QuicLayout(v: nat)
    requires v < QUIC_LIMIT
    ensures |EncodeQuic(v)| == if v < 0x40 then 1 else if v < 0x4000 then 2 else if v < 0x4000_0000 then 4 else 8
    ensures Number(EncodeQuic(v)) == v +
      if v < 0x40 then 0
      else if v < 0x4000 then 0x4000
      else if v < 0x4000_0000 then 0x8000_0000
      else 0xc000_0000_0000_0000
  {
    hide Number, Be, Power;
    Powers();
    if v < 0x40 {
      NumberFirst(v as Octet, []);
      assert [v as Octet] + [] == [v as Octet];
      NumberNone();
    } else if v < 0x4000 {
      QuicNumber(v / 0x100, v % 0x100, 1, 0x40);
      assert v == v % 0x100 + v / 0x100 * Power(1);
    } else if v < 0x4000_0000 {
      QuicNumber(v / 0x100_0000, v % 0x100_0000, 3, 0x80);
      assert v == v % 0x100_0000 + v / 0x100_0000 * Power(3);
    } else {
      QuicNumber(v / 0x100_0000_0000_0000, v % 0x100_0000_0000_0000, 7, 0xc0);
      assert v == v % 0x100_0000_0000_0000 + v / 0x100_0000_0000_0000 * Power(7);
    }
  }

  lemma NumberNone()
    ensures Number([]) == 0 && Power(0) == 1
  {}

  lemma Quic2(v: nat, rest: Data)
    requires v / 0x100 < 64
    ensures DecodeQuic([(0x40 + v / 0x100) as Octet] + Be(v, 1) + rest) == Some((v, rest))
  {
    hide DecodeQuic, Be, Power;
    Powers();
    var h, l := v / 0x100, v % 0x100;
    assert v == l + h * Power(1);
    QuicParts(h, l, 1, (0x40 + h) as Octet, rest);
  }

  lemma Quic4(v: nat, rest: Data)
    requires v / 0x100_0000 < 64
    ensures DecodeQuic([(0x80 + v / 0x100_0000) as Octet] + Be(v, 3) + rest) == Some((v, rest))
  {
    hide DecodeQuic, Be, Power;
    Powers();
    var h, l := v / 0x100_0000, v % 0x100_0000;
    assert v == l + h * Power(3);
    QuicParts(h, l, 3, (0x80 + h) as Octet, rest);
  }

  lemma Quic8(v: nat, rest: Data)
    requires v / 0x100_0000_0000_0000 < 64
    ensures DecodeQuic([(0xc0 + v / 0x100_0000_0000_0000) as Octet] + Be(v, 7) + rest) == Some((v, rest))
  {
    hide DecodeQuic, Be, Power;
    Powers();
    var h, l := v / 0x100_0000_0000_0000, v % 0x100_0000_0000_0000;
    assert v == l + h * Power(7);
    QuicParts(h, l, 7, (0xc0 + h) as Octet, rest);
  }

  lemma QuicRoundTrip(v: nat, rest: Data)
    requires v < QUIC_LIMIT
    ensures DecodeQuic(EncodeQuic(v) + rest) == Some((v, rest))
  {
    hide DecodeQuic, Be;
    if v <= 63 {
      ShortQuic(v, rest);
    } else if v <= 16383 {
      Quic2(v, rest);
    } else if v <= 1073741823 {
      Quic4(v, rest);
    } else {
      Quic8(v, rest);
    }
  }

  lemma ShortQuic(v: nat, rest: Data)
    requires v <= 63
    ensures DecodeQuic([v as Octet] + rest) == Some((v, rest))
  {
    var s := [v as Octet] + rest;
    assert s[0] == v as Octet && s[1..1] == [] && s[1..] == rest;
  }

  // The loop of ptls_decode_quicint
  method ReadQuic(s: Data) returns (r: Option<(nat, Data)>)
    ensures r == DecodeQuic(s)
  {
    if s == [] {
      return None;
    }
    var left := BytesLeft(s[0]);
    if |s| - 1 < left {
      return None;
    }
    var v := s[0] as nat % 64;
    var i := 0;
    while i < left
      invariant 0 <= i <= left
      invariant v == s[0] as nat % 64 * Power(i) + Number(s[1..1 + i])
    {
      assert s[1..1 + (i + 1)][..i] == s[1..1 + i];
      assert s[0] as nat % 64 * Power(i + 1) == s[0] as nat % 64 * Power(i) * 256;
      v := v * 256 + s[1 + i] as nat;
      i := i + 1;
    }
    return Some((v, s[1 + left..]));
  }

  // ---------------------------------------------------------------- trees of blocks

  datatype Prefix = Fixed(size: nat) | Quic
  {
    predicate Valid() { Fixed? ==> 1 <= size <= 3 }
  }

  datatype Node = Leaf(bytes: Data) | Block(prefix: Prefix, children: seq<Node>)

  // What the prefix of a body of n bytes is, unless it overflows.
  function EncodePrefix(p: Prefix, n: nat): Option<Data>
  {
    match p
    case Fixed(k) => if n < Power(k) then Some(Be(n, k)) else None
    case Quic => if n < QUIC_LIMIT then Some(EncodeQuic(n)) else None
  }

  function Encode(t: Node): Option<Data>
  {
    match t
    case Leaf(d) => Some(d)
    case Block(p, children) =>
      var body := EncodeAll(children);
      if body.None? then None
      else
        var h := EncodePrefix(p, |body.value|);
        if h.None? then None else Some(h.value + body.value)
  }

  function EncodeAll(ts: seq<Node>): Option<Data>
  {
    if ts == [] then Some([])
    else
      var h := Encode(ts[0]);
      if h.None? then None
      else
        var t := EncodeAll(ts[1..]);
        if t.None? then None else Some(h.value + t.value)
  }

  // What the reader knows beforehand: how many bytes a leaf has, which prefix a block has.
  datatype Shape = Take(n: nat) | Nested(prefix: Prefix, shapes: seq<Shape>)

  function ShapeOf(t: Node): Shape
  {
    match t
    case Leaf(d) => Take(|d|)
    case Block(p, children) => Nested(p, ShapesOf(children))
  }

  function ShapesOf(ts: seq<Node>): (r: seq<Shape>)
    ensures |r| == |ts|
  {
    if ts == [] then [] else [ShapeOf(ts[0])] + ShapesOf(ts[1..])
  }

  function DecodePrefix(p: Prefix, s: Data): Option<(nat, Data)>
  {
    match p
    case Fixed(k) => if k > |s| then None else Some((Number(s[..k]), s[k..]))
    case Quic => DecodeQuic(s)
  }

  // ptls_decode_open_block and what is inside: the block must end where its content ends.
  function Decode(shape: Shape, s: Data): Option<(Node, Data)>
    decreases shape
  {
    match shape
    case Take(n) => if n > |s| then None else Some((Leaf(s[..n]), s[n..]))
    case Nested(p, shapes) =>
      var h := DecodePrefix(p, s);
      if h.None? then None
      else
        var n, rest := h.value.0, h.value.1;
        if n > |rest| then None
        else
          var c := DecodeAll(shapes, rest[..n]);
          if c.None? || c.value.1 != [] then None
          else Some((Block(p, c.value.0), rest[n..]))
  }

  function DecodeAll(shapes: seq<Shape>, s: Data): Option<(seq<Node>, Data)>
    decreases shapes
  {
    if shapes == [] then Some(([], s))
    else
      var h := Decode(shapes[0], s);
      if h.None? then None
      else
        var t := DecodeAll(shapes[1..], h.value.1);
        if t.None? then None else Some(([h.value.0] + t.value.0, t.value.1))
  }

  ghost predicate Valid(t: Node)
  {
    t.Block? ==> t.prefix.Valid() && forall c | c in t.children :: Valid(c)
  }

  lemma PrefixRoundTrip(p: Prefix, n: nat, rest: Data)
    requires p.Valid() && EncodePrefix(p, n).Some?
    ensures DecodePrefix(p, EncodePrefix(p, n).value + rest) == Some((n, rest))
  {
    match p
    case Fixed(k) =>
      NumberOfBe(n, k);
      var s := Be(n, k) + rest;
      assert s[..k] == Be(n, k) && s[k..] == rest;
    case Quic => QuicRoundTrip(n, rest);
  }

  /** Reading what was pushed gives back the tree and consumes exactly its bytes. */
  lemma {:induction false} RoundTrip(t: Node, rest: Data)
    requires Valid(t) && Encode(t).Some?
    ensures Decode(ShapeOf(t), Encode(t).value + rest) == Some((t, rest))
    decreases t
  {
    hide EncodePrefix, DecodePrefix;
    match t
    case Leaf(d) =>
      var s := d + rest;
      assert s[..|d|] == d && s[|d|..] == rest;
    case Block(p, children) =>
      var body := EncodeAll(children).value;
      var h := EncodePrefix(p, |body|).value;
      assert h + body + rest == h + (body + rest);
      PrefixRoundTrip(p, |body|, body + rest);
      assert (body + rest)[..|body|] == body && (body + rest)[|body|..] == rest;
      AllRoundTrip(children, []);
      assert body + [] == body;
  }

  lemma {:induction false} AllRoundTrip(ts: seq<Node>, rest: Data)
    requires (forall c | c in ts :: Valid(c)) && EncodeAll(ts).Some?
    ensures DecodeAll(ShapesOf(ts), EncodeAll(ts).value + rest) == Some((ts, rest))
    decreases ts
  {
    if ts == [] {
      assert [] + rest == rest;
    } else {
      var h, t := Encode(ts[0]).value, EncodeAll(ts[1..]).value;
      assert h + t + rest == h + (t + rest);
      assert ts[0] in ts;
      RoundTrip(ts[0], t + rest);
      AllRoundTrip(ts[1..], rest);
      assert ShapesOf(ts)[1..] == ShapesOf(ts[1..]);
      assert [ts[0]] + ts[1..] == ts;
    }
  }
}
