/** The format-preserving cipher of lib/ffx.c: Feistel passes in pairs over two halves of a short
    string whose last byte is only encrypted under a mask. */
module Ffx {
  import opened Bytes

  // The context set up by ptls_ffx_setup_crypto; confuse is the cipher on sixteen zero bytes with
  // the given initialisation vector.
  datatype Context = Context(confuse: Block -> Block, rounds: nat, length: nat, mask: Byte, tweaks: Block)
  {
    predicate Valid() { 2 <= length <= 32 }

    function LeftSize(): nat { length / 2 }

    function RightSize(): nat { length - length / 2 }
  }

  // ---------------------------------------------------------------- one pass

  // The initialisation vector: the tweak, the number of rounds at the place of the round, the source.
  function Vector(c: Context, round: int, source: seq<Byte>): Block
    requires |source| <= 16
  {
    seq(16, i requires 0 <= i < 16 => if i < |source| then Mix(Tweak(c, round, i), source[i]) else Tweak(c, round, i))
  }

  function Mix(a: Byte, b: Byte): Byte { a ^ b }

  function Tweak(c: Context, round: int, i: nat): Byte
    requires i < 16
  {
    if i == round % 16 then c.tweaks[i] ^ LowByte(c.rounds) else c.tweaks[i]
  }

  // The bits of byte j of the target that a pass may change
  function BitsOf(mask: Byte, size: nat, j: nat): Byte { if j == size - 1 then mask else 0xff }

  function Confused(t: Byte, k: Byte, mask: Byte, size: nat, j: nat): Byte { t ^ (k & BitsOf(mask, size, j)) }

  // ptls_ffx_one_pass
  function Pass(c: Context, source: seq<Byte>, target: seq<Byte>, mask: Byte, round: int): (r: seq<Byte>)
    requires |source| <= 16 && 0 < |target| <= 16
    ensures |r| == |target|
  {
    var k := c.confuse(Vector(c, round, source));
    seq(|target|, j requires 0 <= j < |target| => Confused(target[j], k[j], mask, |target|, j))
  }

  // A pass undoes itself.
  lemma PassTwice(c: Context, source: seq<Byte>, target: seq<Byte>, mask: Byte, round: int)
    requires |source| <= 16 && 0 < |target| <= 16
    ensures Pass(c, source, Pass(c, source, target, mask, round), mask, round) == target
  {
    var k := c.confuse(Vector(c, round, source));
    var once := Pass(c, source, target, mask, round);
    var twice := Pass(c, source, once, mask, round);
    forall j | 0 <= j < |target| ensures twice[j] == target[j] {
      XorTwice(target[j], k[j] & BitsOf(mask, |target|, j));
    }
  }

  lemma XorTwice(a: Byte, b: Byte)
    ensures (a ^ b) ^ b == a
  {}

  // The last byte stays within the mask.
  lemma PassMasked(c: Context, source: seq<Byte>, target: seq<Byte>, mask: Byte, round: int)
    requires |source| <= 16 && 0 < |target| <= 16
    requires target[|target| - 1] & mask == target[|target| - 1]
    ensures var r := Pass(c, source, target, mask, round); r[|r| - 1] & mask == r[|r| - 1]
  {
    var k := c.confuse(Vector(c, round, source));
    XorMasked(target[|target| - 1], k[|target| - 1], mask);
  }

  lemma XorMasked(a: Byte, b: Byte, m: Byte)
    requires a & m == a
    ensures (a ^ (b & m)) & m == a ^ (b & m)
  {}

  // ---------------------------------------------------------------- pairs of passes

  datatype Halves = Halves(l: seq<Byte>, r: seq<Byte>)

  predicate Sized(h: Halves) { 0 < |h.l| <= 16 && 0 < |h.r| <= 16 }

  // One round of the encryption loop: the passes with numbers i and i + 1
  function Pair(c: Context, h: Halves, i: int): (g: Halves)
    requires Sized(h)
    ensures |g.l| == |h.l| && |g.r| == |h.r|
  {
    var l := Pass(c, h.r, h.l, 0xff, i);
    Halves(l, Pass(c, l, h.r, c.mask, i + 1))
  }

  // One round of the decryption loop, for the same two numbers
  function UnPair(c: Context, h: Halves, i: int): (g: Halves)
    requires Sized(h)
    ensures |g.l| == |h.l| && |g.r| == |h.r|
  {
    var r := Pass(c, h.l, h.r, c.mask, i + 1);
    Halves(Pass(c, r, h.l, 0xff, i), r)
  }

  lemma UnPairUndoes(c: Context, h: Halves, i: int)
    requires Sized(h)
    ensures UnPair(c, Pair(c, h, i), i) == h
  {
    hide Pass;
    var l := Pass(c, h.r, h.l, 0xff, i);
    PassTwice(c, l, h.r, c.mask, i + 1);
    PassTwice(c, h.r, h.l, 0xff, i);
  }

  lemma PairUndoes(c: Context, h: Halves, i: int)
    requires Sized(h)
    ensures Pair(c, UnPair(c, h, i), i) == h
  {
    hide Pass;
    var r := Pass(c, h.l, h.r, c.mask, i + 1);
    PassTwice(c, r, h.l, 0xff, i);
    PassTwice(c, h.l, h.r, c.mask, i + 1);
  }

  // n pairs, with the numbers 0 to 2n - 1 going up
  function Up(c: Context, h: Halves, n: nat): (g: Halves)
    requires Sized(h)
    ensures |g.l| == |h.l| && |g.r| == |h.r|
  {
    if n == 0 then h else Pair(c, Up(c, h, n - 1), 2 * (n - 1))
  }

  // n pairs going down to the numbers base and base + 1
  function Down(c: Context, h: Halves, n: nat, base: int): (g: Halves)
    requires Sized(h)
    ensures |g.l| == |h.l| && |g.r| == |h.r|
    decreases n
  {
    if n == 0 then h else Down(c, UnPair(c, h, base + 2 * (n - 1)), n - 1, base)
  }

  lemma {:induction false} DownUndoes(c: Context, h: Halves, n: nat)
    requires Sized(h)
    ensures Down(c, Up(c, h, n), n, 0) == h
  {
    hide Pair, UnPair;
    if n != 0 {
      UnPairUndoes(c, Up(c, h, n - 1), 2 * (n - 1));
      DownUndoes(c, h, n - 1);
    }
  }

  lemma {:induction false} UpUndoes(c: Context, h: Halves, n: nat)
    requires Sized(h)
    ensures Up(c, Down(c, h, n, 0), n) == h
    decreases n
  {
    hide Pair, UnPair;
    if n != 0 {
      UpUndoes(c, UnPair(c, h, 2 * (n - 1)), n - 1);
      PairUndoes(c, h, 2 * (n - 1));
    }
  }

  // The last byte of the right half stays within the mask.
  predicate Within(c: Context, h: Halves)
    requires |h.r| > 0
  {
    Inside(h.r[|h.r| - 1], c.mask) == h.r[|h.r| - 1]
  }

  lemma {:induction false} UpWithin(c: Context, h: Halves, n: nat)
    requires Sized(h) && Within(c, h)
    ensures Within(c, Up(c, h, n))
  {
    hide Pass;
    if n != 0 {
      UpWithin(c, h, n - 1);
      var g := Up(c, h, n - 1);
      PassMasked(c, Pass(c, g.r, g.l, 0xff, 2 * (n - 1)), g.r, c.mask, 2 * (n - 1) + 1);
    }
  }

  lemma {:induction false} DownWithin(c: Context, h: Halves, n: nat, base: int)
    requires Sized(h) && Within(c, h)
    ensures Within(c, Down(c, h, n, base))
    decreases n
  {
    hide Pass;
    if n != 0 {
      PassMasked(c, h.l, h.r, c.mask, base + 2 * (n - 1) + 1);
      DownWithin(c, UnPair(c, h, base + 2 * (n - 1)), n - 1, base);
    }
  }

  // ---------------------------------------------------------------- the cipher

  // The bits of a byte that the mask selects
  function Inside(b: Byte, m: Byte): Byte { b & m }

  // The bits of a under the mask and those of b outside it
  function Blend(a: Byte, b: Byte, m: Byte): Byte { (a & m) | (b & !m) }

  function Outside(b: Byte, m: Byte): Byte { b & !m }

  // The two halves, the bits outside the mask set aside.
  function Load(c: Context, input: seq<Byte>): (h: Halves)
    requires c.Valid() && |input| == c.length
    ensures |h.l| == c.LeftSize() && |h.r| == c.RightSize() && Sized(h)
  {
    var n := c.LeftSize();
    Halves(input[..n], input[n..c.length - 1] + [Inside(input[c.length - 1], c.mask)])
  }

  // The halves put together, with the bits outside the mask of the input.
  function Store(c: Context, h: Halves, last: Byte): (out: seq<Byte>)
    requires c.Valid() && |h.l| == c.LeftSize() && |h.r| == c.RightSize()
    ensures |out| == c.length
  {
    var n := |h.r| - 1;
    h.l + h.r[..n] + [Blend(h.r[n], last, c.mask)]
  }

  // How often the loops are gone through: the passes come in pairs.
  function Pairs(c: Context): nat { (c.rounds + 1) / 2 }

  // The lowest number of a pass of the decryption: zero, or one less when the number of rounds is odd
  function Base(c: Context): int { c.rounds - 2 * Pairs(c) }

  // ffx_encrypt in both directions
  function Encrypt(c: Context, input: seq<Byte>): (r: seq<Byte>)
    requires c.Valid() && |input| == c.length
    ensures |r| == c.length
  {
    Store(c, Up(c, Load(c, input), Pairs(c)), input[c.length - 1])
  }

  function Decrypt(c: Context, input: seq<Byte>): (r: seq<Byte>)
    requires c.Valid() && |input| == c.length
    ensures |r| == c.length
  {
    Store(c, Down(c, Load(c, input), Pairs(c), Base(c)), input[c.length - 1])
  }

  lemma BlendBits(a: Byte, b: Byte, m: Byte)
    requires Inside(a, m) == a
    ensures Inside(Blend(a, b, m), m) == a && Outside(Blend(a, b, m), m) == Outside(b, m)
  {}

  lemma BlendBack(b: Byte, last: Byte, m: Byte)
    requires Outside(last, m) == Outside(b, m)
    ensures Blend(Inside(b, m), last, m) == b
  {}

  lemma MaskTwice(b: Byte, m: Byte)
    ensures Inside(Inside(b, m), m) == Inside(b, m)
  {}

  // What was stored is loaded again, and the bits outside the mask are those of the input.
  lemma LoadStored(c: Context, h: Halves, last: Byte)
    requires c.Valid() && |h.l| == c.LeftSize() && |h.r| == c.RightSize() && Within(c, h)
    ensures Load(c, Store(c, h, last)) == h
    ensures Outside(Store(c, h, last)[c.length - 1], c.mask) == Outside(last, c.mask)
  {
    hide Blend, Outside, Inside;
    var s := Store(c, h, last);
    var n := |h.r| - 1;
    BlendBits(h.r[n], last, c.mask);
    assert s[..c.LeftSize()] == h.l;
    assert s[c.LeftSize()..c.length - 1] == h.r[..n];
    assert h.r == h.r[..n] + [h.r[n]];
  }

  lemma StoreLoaded(c: Context, input: seq<Byte>, last: Byte)
    requires c.Valid() && |input| == c.length && Outside(last, c.mask) == Outside(input[c.length - 1], c.mask)
    ensures Store(c, Load(c, input), last) == input
  {
    hide Blend, Outside, Inside;
    var n := c.LeftSize();
    var b := input[c.length - 1];
    BlendBack(b, last, c.mask);
    var h := Load(c, input);
    assert h.r[..|h.r| - 1] == input[n..c.length - 1];
    assert input == input[..n] + input[n..c.length - 1] + [b];
  }

  lemma LoadWithin(c: Context, input: seq<Byte>)
    requires c.Valid() && |input| == c.length
    ensures Within(c, Load(c, input))
  {
    hide Inside;
    MaskTwice(input[c.length - 1], c.mask);
  }

  /** Whatever the number of rounds, the bits outside the mask of the last byte are left alone. */
  lemma OutsideKept(c: Context, input: seq<Byte>)
    requires c.Valid() && |input| == c.length
    ensures Outside(Encrypt(c, input)[c.length - 1], c.mask) == Outside(input[c.length - 1], c.mask)
    ensures Outside(Decrypt(c, input)[c.length - 1], c.mask) == Outside(input[c.length - 1], c.mask)
  {
    hide Load, Store, Up, Down, Within, Outside, Pairs, Base;
    var h, n := Load(c, input), Pairs(c);
    LoadWithin(c, input);
    UpWithin(c, h, n);
    LoadStored(c, Up(c, h, n), input[c.length - 1]);
    DownWithin(c, h, n, Base(c));
    LoadStored(c, Down(c, h, n, Base(c)), input[c.length - 1]);
  }

  /** For every length, tweak and mask, an even number of rounds and any cipher, decryption inverts
      encryption. */
  lemma DecryptInverts(c: Context, input: seq<Byte>)
    requires c.Valid() && |input| == c.length && c.rounds % 2 == 0
    ensures Decrypt(c, Encrypt(c, input)) == input
  {
    hide Load, Store, Up, Down, Within, Outside;
    var h, n := Load(c, input), Pairs(c);
    LoadWithin(c, input);
    UpWithin(c, h, n);
    LoadStored(c, Up(c, h, n), input[c.length - 1]);
    DownUndoes(c, h, n);
    StoreLoaded(c, input, Encrypt(c, input)[c.length - 1]);
  }

  lemma EncryptInverts(c: Context, input: seq<Byte>)
    requires c.Valid() && |input| == c.length && c.rounds % 2 == 0
    ensures Encrypt(c, Decrypt(c, input)) == input
  {
    hide Load, Store, Up, Down, Within, Outside;
    var h, n := Load(c, input), Pairs(c);
    LoadWithin(c, input);
    DownWithin(c, h, n, 0);
    LoadStored(c, Down(c, h, n, 0), input[c.length - 1]);
    UpUndoes(c, h, n);
    StoreLoaded(c, input, Decrypt(c, input)[c.length - 1]);
  }

  // ---------------------------------------------------------------- odd numbers of rounds

  // A permutation of 0..q that leaves only zero in its place, and its inverse
  function Ring(q: nat, j: nat): (r: nat)
    requires j < q && 3 <= q
    ensures r < q && (r == j <==> j == 0)
  {
    if j == 0 then 0 else if j == q - 1 then 1 else j + 1
  }

  function Place(q: nat, r: nat): (j: nat)
    requires r < q && 3 <= q
    ensures j < q && Ring(q, j) == r
  {
    if r == 0 then 0 else if r == 1 then q - 1 else r - 1
  }

  lemma RingPlaced(q: nat, j: nat)
    requires j < q && 3 <= q
    ensures Place(q, Ring(q, j)) == j
  {}

  function Next(q: nat, j: nat): (r: nat)
    requires j < q
    ensures r < q
  {
    if j + 1 == q then 0 else j + 1
  }

  function Prev(q: nat, j: nat): (r: nat)
    requires j < q
    ensures r < q && Next(q, r) == j
  {
    if j == 0 then q - 1 else j - 1
  }

  // What takes Ring(j) to Ring(j + 1), by j, and what takes j - 1 to j, by Ring(j)
  function Flip1(q: nat, b: Byte): Byte
    requires 3 <= q
  {
    var j := b as nat;
    if j < q then LowByte(Ring(q, j)) ^ LowByte(Ring(q, Next(q, j))) else 0
  }

  function Flip2(q: nat, b: Byte): Byte
    requires 3 <= q
  {
    var r := b as nat;
    if r < q then LowByte(Prev(q, Place(q, r))) ^ LowByte(Place(q, r)) else 0
  }

  // A cipher that works in the passes with number 1 and 2
  function Turns(q: nat): Block -> Block
    requires 3 <= q
  {
    (iv: Block) => seq(16, i => if iv[1] != 0 then Flip1(q, iv[0]) else if iv[2] != 0 then Flip2(q, iv[0]) else 0)
  }

  // Two bytes, which that cipher takes around a cycle of length q
  function Turning(n: nat, q: nat): Context
    requires 3 <= q
  {
    Context(Turns(q), n, 2, 0xff, ZeroBlock())
  }

  function Key(q: nat, b: Byte, round: int): Byte
    requires 3 <= q
  {
    if round % 16 == 1 then Flip1(q, b) else if round % 16 == 2 then Flip2(q, b) else 0
  }

  lemma TurnVector(n: nat, q: nat, b: Byte, round: int)
    requires n % 2 == 1 && 3 <= q
    ensures var iv := Vector(Turning(n, q), round, [b]);
      && (iv[1] != 0 <==> round % 16 == 1)
      && (iv[2] != 0 <==> round % 16 == 2)
      && (round % 16 != 0 ==> iv[0] == b)
  {
    hide LowByte, Turns;
    OddByte(n);
    var c := Turning(n, q);
    ZeroXor(b);
    ZeroXor(LowByte(n));
    assert Tweak(c, round, 1) == if round % 16 == 1 then LowByte(n) else 0;
    assert Tweak(c, round, 2) == if round % 16 == 2 then LowByte(n) else 0;
    assert round % 16 != 0 ==> Tweak(c, round, 0) == 0;
  }

  lemma OddByte(n: nat)
    requires n % 2 == 1
    ensures LowByte(n) != 0
  {
    hide LowByte;
    LowByteValue(n);
  }

  lemma ZeroXor(b: Byte)
    ensures 0 ^ b == b
  {}

  lemma TurnPass(n: nat, q: nat, s: Byte, t: Byte, round: int)
    requires n % 2 == 1 && 3 <= q
    ensures Pass(Turning(n, q), [s], [t], 0xff, round) == [Mix(t, Key(q, s, round))]
  {
    hide Vector, Flip1, Flip2;
    TurnVector(n, q, s, round);
    var k := Turning(n, q).confuse(Vector(Turning(n, q), round, [s]));
    assert k[0] == Key(q, s, round);
  }

  lemma XorMoves(a: Byte, b: Byte)
    ensures Mix(a, a ^ b) == b && Mix(b, a ^ b) == a
  {}

  lemma Flip1Moves(q: nat, j: nat)
    requires 3 <= q <= 256 && j < q
    ensures var a, b := LowByte(Ring(q, j)), LowByte(Ring(q, Next(q, j)));
      Mix(a, Flip1(q, LowByte(j))) == b && Mix(b, Flip1(q, LowByte(j))) == a
  {
    hide LowByte, Ring, Next;
    LowByteValue(j);
    XorMoves(LowByte(Ring(q, j)), LowByte(Ring(q, Next(q, j))));
  }

  lemma Flip2Moves(q: nat, j: nat)
    requires 3 <= q <= 256 && j < q
    ensures var a, b := LowByte(Prev(q, j)), LowByte(j);
      Mix(a, Flip2(q, LowByte(Ring(q, j)))) == b && Mix(b, Flip2(q, LowByte(Ring(q, j)))) == a
  {
    hide LowByte, Ring, Place, Prev;
    LowByteValue(Ring(q, j));
    RingPlaced(q, j);
    XorMoves(LowByte(Prev(q, j)), LowByte(j));
  }

  // n steps on from zero
  function Wrap(q: nat, n: nat): (j: nat)
    requires 0 < q
    ensures j < q
  {
    if n == 0 then 0 else Next(q, Wrap(q, n - 1))
  }

  lemma WrapNext(q: nat, n: nat)
    requires 0 < q
    ensures Wrap(q, n + 1) == Next(q, Wrap(q, n)) && Prev(q, Wrap(q, n + 1)) == Wrap(q, n)
  {}

  lemma {:induction false} WrapDivides(q: nat, n: nat) returns (d: nat)
    requires 0 < q
    ensures n == q * d + Wrap(q, n)
    decreases n
  {
    d := 0;
    if n != 0 {
      var e := WrapDivides(q, n - 1);
      d := if Wrap(q, n) == 0 then e + 1 else e;
      if Wrap(q, n) == 0 { assert q * (e + 1) == q * e + q; }
    }
  }

  // How many of m pairs have a pass with number 1 (on the right) and with number 2 (on the left)
  function Ones(m: nat): nat { (m + 7) / 8 }

  function Twos(m: nat): nat { (m + 6) / 8 }

  // The halves j and k steps on
  function Turned(q: nat, j: nat, k: nat): Halves
    requires 3 <= q
  {
    Halves([LowByte(Wrap(q, j))], [LowByte(Ring(q, Wrap(q, k)))])
  }

  // The same with the halves exchanged
  function Swapped(q: nat, j: nat): Halves
    requires 3 <= q
  {
    Halves([LowByte(Ring(q, Wrap(q, j)))], [LowByte(Wrap(q, j))])
  }

  // One pair forwards: with numbers 0 and 1, or 2 and 3, or neither
  lemma PairTurns(n: nat, q: nat, m: nat)
    requires n % 2 == 1 && 3 <= q <= 256
    ensures Pair(Turning(n, q), Turned(q, Twos(m), Ones(m)), 2 * m) == Turned(q, Twos(m + 1), Ones(m + 1))
  {
    hide Pass, LowByte, Ring, Next, Prev, Flip1, Flip2, Turning, Key, Wrap, Ones, Twos,
      Mix;
    TurningMask(n, q);
    Counts(m);
    var j, k := Twos(m), Ones(m);
    var l, r := LowByte(Wrap(q, j)), LowByte(Ring(q, Wrap(q, k)));
    var l1 := Mix(l, Key(q, r, 2 * m));
    TurnPass(n, q, r, l, 2 * m);
    TurnPass(n, q, l1, r, 2 * m + 1);
    Keys(q, r, l1, m);
    XorZero(l);
    XorZero(r);
    WrapNext(q, j);
    WrapNext(q, k);
    if m % 8 == 0 {
      Flip1Moves(q, Wrap(q, k));
    } else if m % 8 == 1 {
      Flip2Moves(q, Wrap(q, k));
    }
  }

  lemma Counts(m: nat)
    ensures Ones(m + 1) == if m % 8 == 0 then Ones(m) + 1 else Ones(m)
    ensures Twos(m + 1) == if m % 8 == 1 then Twos(m) + 1 else Twos(m)
    ensures m % 8 == 0 ==> Ones(m) == Twos(m)
    ensures m % 8 == 1 ==> Ones(m) == Twos(m) + 1
    ensures m % 8 > 1 ==> Ones(m) == Twos(m)
  {}

  // The keys of the passes with numbers 2 * m and then 2 * m + 1
  lemma Keys(q: nat, a: Byte, b: Byte, m: nat)
    requires 3 <= q
    ensures Key(q, a, 2 * m) == if m % 8 == 1 then Flip2(q, a) else 0
    ensures Key(q, b, 2 * m + 1) == if m % 8 == 0 then Flip1(q, b) else 0
  {
    hide Flip1, Flip2;
    NumberOf(m);
  }

  // And of those with numbers 2 * m and then 2 * m - 1
  lemma KeysBack(q: nat, a: Byte, b: Byte, m: nat)
    requires 3 <= q
    ensures Key(q, a, 2 * m) == if m % 8 == 1 then Flip2(q, a) else 0
    ensures Key(q, b, 2 * m - 1) == if m % 8 == 1 then Flip1(q, b) else 0
  {
    hide Flip1, Flip2;
    NumberOf(m);
  }

  lemma TurningMask(n: nat, q: nat)
    requires 3 <= q
    ensures Turning(n, q).mask == 0xff
  {}

  lemma XorZero(b: Byte)
    ensures Mix(b, 0) == b
  {}

  lemma NumberOf(m: nat)
    ensures (2 * m) % 16 == 2 * (m % 8) && (2 * m + 1) % 16 == 2 * (m % 8) + 1
    ensures (2 * m - 1) % 16 == if m % 8 == 0 then 15 else 2 * (m % 8) - 1
  {
    var d := m / 8;
    assert m == 8 * d + m % 8;
  }

  lemma {:induction false} UpTurns(n: nat, q: nat, m: nat)
    requires n % 2 == 1 && 3 <= q <= 256
    ensures Up(Turning(n, q), Turned(q, 0, 0), m) == Turned(q, Twos(m), Ones(m))
    decreases m
  {
    hide Pair, Turned, Turning;
    if m != 0 {
      UpTurns(n, q, m - 1);
      PairTurns(n, q, m - 1);
    }
  }

  // One pair backwards, which undoes what it finds with the halves exchanged
  lemma UnPairTurns(n: nat, q: nat, m: nat)
    requires n % 2 == 1 && 3 <= q <= 256
    ensures UnPair(Turning(n, q), Swapped(q, Twos(m + 1)), 2 * m - 1) == Swapped(q, Twos(m))
  {
    hide Pass, LowByte, Ring, Next, Prev, Flip1, Flip2, Turning, Key, Wrap, Ones, Twos,
      Mix;
    TurningMask(n, q);
    Counts(m);
    var j := Twos(m);
    var l, r := LowByte(Ring(q, Wrap(q, Twos(m + 1)))), LowByte(Wrap(q, Twos(m + 1)));
    var r1 := Mix(r, Key(q, l, 2 * m));
    TurnPass(n, q, l, r, 2 * m);
    TurnPass(n, q, r1, l, 2 * m - 1);
    KeysBack(q, l, r1, m);
    XorZero(l);
    XorZero(r);
    if m % 8 == 1 {
      WrapNext(q, j);
      Flip2Moves(q, Wrap(q, j + 1));
      Flip1Moves(q, Wrap(q, j));
    }
  }

  lemma {:induction false} DownTurns(n: nat, q: nat, m: nat)
    requires n % 2 == 1 && 3 <= q <= 256
    ensures Down(Turning(n, q), Swapped(q, Twos(m)), m, -1) == Swapped(q, 0)
    decreases m
  {
    hide UnPair, Swapped, Turning;
    if m != 0 {
      UnPairTurns(n, q, m - 1);
      DownTurns(n, q, m - 1);
    }
  }

  lemma {:induction false} DownInjective(c: Context, g: Halves, h: Halves, n: nat, base: int)
    requires Sized(g) && Sized(h) && Down(c, g, n, base) == Down(c, h, n, base)
    ensures g == h
    decreases n
  {
    hide UnPair, Pair;
    if n != 0 {
      var i := base + 2 * (n - 1);
      DownInjective(c, UnPair(c, g, i), UnPair(c, h, i), n - 1, base);
      PairUndoes(c, g, i);
      PairUndoes(c, h, i);
    }
  }

  // A length of the cycle that a is not a multiple of
  function Cycle(a: nat): (q: nat)
    ensures 3 <= q <= 256
  {
    if Wrap(16, a) != 0 then 16 else if Wrap(27, a) != 0 then 27 else if Wrap(25, a) != 0 then 25
    else if Wrap(7, a) != 0 then 7 else if Wrap(11, a) != 0 then 11 else if Wrap(13, a) != 0 then 13 else 17
  }

  // p and q have no common factor: a multiple of both, p * a and q * d, is a multiple of their product.
  lemma Divides(p: int, q: int, x: int, y: int, a: int, d: int)
    requires x * p + y * q == 1 && p * a == q * d
    ensures a == q * (x * d + y * a)
  {
    assert a == (x * p + y * q) * a == x * (p * a) + y * q * a == x * (q * d) + q * (y * a);
  }

  lemma Factor(a: nat, p: nat, b: int, q: nat, x: int, y: int) returns (c: int)
    requires a == p * b && 0 < q && Wrap(q, a) == 0 && x * p + y * q == 1
    ensures a == p * q * c
  {
    hide Wrap;
    var d := WrapDivides(q, a);
    Divides(p, q, x, y, b, d);
    c := x * d + y * b;
    assert p * (q * c) == p * q * c;
  }

  lemma CycleFits(a: nat)
    requires 0 < a < 183783600
    ensures Wrap(Cycle(a), a) != 0
  {
    hide Wrap;
    if Wrap(Cycle(a), a) == 0 {
      var b := WrapDivides(16, a);
      var c := Factor(a, 16, b, 27, 22, -13);
      c := Factor(a, 432, c, 25, 18, -311);
      c := Factor(a, 10800, c, 7, 6, -9257);
      c := Factor(a, 75600, c, 11, 7, -48109);
      c := Factor(a, 831600, c, 13, 9, -575723);
      c := Factor(a, 10810800, c, 17, 5, -3179647);
    }
  }

  lemma SameByte(a: nat, b: nat)
    requires a < 256 && b < 256
    ensures LowByte(a) == LowByte(b) ==> a == b
  {
    hide LowByte;
    LowByteValue(a);
    LowByteValue(b);
  }

  lemma Apart(q: nat, m: nat)
    requires 3 <= q <= 256 && m > 0 && (Ones(m) == Twos(m) ==> Wrap(q, Ones(m)) != 0)
    ensures Turned(q, Twos(m), Ones(m)) != Swapped(q, Twos(m))
  {
    hide LowByte, Wrap;
    var j, k := Wrap(q, Twos(m)), Wrap(q, Ones(m));
    SameByte(j, Ring(q, j));
    SameByte(Ring(q, k), j);
    WrapNext(q, Twos(m));
    assert Ones(m) == Twos(m) || Ones(m) == Twos(m) + 1;
    assert j != 0 || Ring(q, k) != 0;
    var g, h := Turned(q, Twos(m), Ones(m)), Swapped(q, Twos(m));
    assert g.l[0] != h.l[0] || g.r[0] != h.r[0];
  }

  lemma TurnLoad(n: nat, q: nat, l: Byte, r: Byte)
    requires 3 <= q
    ensures var c := Turning(n, q);
      && c.Valid()
      && Load(c, [l, r]) == Halves([l], [r])
      && forall last: Byte :: Store(c, Halves([l], [r]), last) == [l, r]
  {
    hide Turns;
    assert [l, r][..1] == [l];
  }

  lemma Zeroth(q: nat)
    requires 3 <= q
    ensures Turned(q, 0, 0) == Swapped(q, 0) == Halves([0], [0])
  {
    LowByteValue(0);
  }

  /** With an odd number of rounds the passes of the two directions have other numbers: for each such number
      that the loops can count there is a cipher for which decryption does not give back what was encrypted. */
  lemma OddRoundsFail(n: nat)
    requires n % 2 == 1 && n < 0x7fff_ffff
    ensures var c := Turning(n, Cycle(Ones((n + 1) / 2))); c.Valid() && Decrypt(c, Encrypt(c, [0, 0])) != [0, 0]
  {
    hide Up, Down, Load, Store, Turns, Cycle, LowByte, Ring;
    var m := (n + 1) / 2;
    var q := Cycle(Ones(m));
    var c := Turning(n, q);
    CycleFits(Ones(m));
    UpTurns(n, q, m);
    DownTurns(n, q, m);
    Apart(q, m);
    Zeroth(q);
    var g := Turned(q, Twos(m), Ones(m));
    TurnLoad(n, q, 0, 0);
    TurnLoad(n, q, g.l[0], g.r[0]);
    var e := Encrypt(c, [0, 0]);
    assert e == [g.l[0], g.r[0]];
    var h := Down(c, g, m, -1);
    TurnLoad(n, q, h.l[0], h.r[0]);
    if Decrypt(c, e) == [0, 0] {
      assert h == Halves([h.l[0]], [h.r[0]]);
      assert Decrypt(c, e) == [h.l[0], h.r[0]] && [0, 0][0] == h.l[0] && [0, 0][1] == h.r[0];
      DownInjective(c, g, Swapped(q, Twos(m)), m, -1);
    }
  }

  // Decryption inverts encryption with so many rounds, whatever the cipher, tweak, length and mask.
  ghost predicate Inverts(n: nat)
  {
    forall c: Context, input: seq<Byte> | c.Valid() && c.rounds == n && |input| == c.length ::
      Decrypt(c, Encrypt(c, input)) == input
  }

  /** It does so if and only if the number of rounds is even. */
  lemma InvertsIfEven(n: nat)
    requires n < 0x7fff_ffff
    ensures Inverts(n) <==> n % 2 == 0
  {
    hide Encrypt, Decrypt;
    if n % 2 == 0 {
      forall c: Context, input: seq<Byte> | c.Valid() && c.rounds == n && |input| == c.length
        ensures Decrypt(c, Encrypt(c, input)) == input
      {
        DecryptInverts(c, input);
      }
    } else {
      OddRoundsFail(n);
      var c := Turning(n, Cycle(Ones((n + 1) / 2)));
      assert c.rounds == n && |[0 as Byte, 0]| == c.length;
    }
  }

  // ---------------------------------------------------------------- the procedure

  // A copy of the tweak with the number of rounds at the place of the round
  method CopyTweak(c: Context, round: int) returns (iv: array<Byte>)
    ensures fresh(iv) && iv.Length == 16 && forall j | 0 <= j < 16 :: iv[j] == Tweak(c, round, j)
  {
    iv := new Byte[16](i requires 0 <= i < 16 => c.tweaks[i]);
    var at := round % 16;
    iv[at] := iv[at] ^ LowByte(c.rounds);
  }

  // The vector of a pass is built by xoring into that copy.
  method BuildVector(c: Context, round: int, source: array<Byte>, size: nat) returns (iv: array<Byte>)
    requires size <= source.Length && size <= 16
    ensures fresh(iv) && iv.Length == 16 && iv[..] == Vector(c, round, source[..size])
  {
    hide Tweak, Mix;
    iv := CopyTweak(c, round);
    var i := 0;
    while i < size
      invariant 0 <= i <= size
      invariant forall j | 0 <= j < 16 ::
        iv[j] == if j < i then Mix(Tweak(c, round, j), source[j]) else Tweak(c, round, j)
    {
      iv[i] := Mix(iv[i], source[i]);
      i := i + 1;
    }
  }

  // ptls_ffx_one_pass
  method OnePass(c: Context, source: array<Byte>, sourceSize: nat, target: array<Byte>, targetSize: nat, mask: Byte,
      round: int)
    requires source != target && sourceSize <= source.Length && sourceSize <= 16 && 0 < targetSize <= target.Length
      && targetSize <= 16
    modifies target
    ensures target[..targetSize] == Pass(c, source[..sourceSize], old(target[..targetSize]), mask, round)
    ensures target[targetSize..] == old(target[targetSize..])
  {
    hide Vector, Confused;
    var iv := BuildVector(c, round, source, sourceSize);
    var confusion: Block := c.confuse(iv[..]);
    var j := 0;
    while j < targetSize
      invariant 0 <= j <= targetSize
      invariant forall i | 0 <= i < j :: target[i] == Confused(old(target[i]), confusion[i], mask, targetSize, i)
      invariant forall i | j <= i < target.Length :: target[i] == old(target[i])
    {
      target[j] := Confused(target[j], confusion[j], mask, targetSize, j);
      j := j + 1;
    }
  }

  // The loop of ffx_encrypt in the direction of encryption
  method Rounds(c: Context, left: array<Byte>, nl: nat, right: array<Byte>, nr: nat)
    requires left != right && 0 < nl <= left.Length && nl <= 16 && 0 < nr <= right.Length && nr <= 16
    modifies left, right
    ensures Halves(left[..nl], right[..nr]) == Up(c, old(Halves(left[..nl], right[..nr])), Pairs(c))
  {
    hide Pass;
    ghost var h := Halves(left[..nl], right[..nr]);
    var i := 0;
    while i < c.rounds
      invariant 0 <= i <= 2 * Pairs(c) && i % 2 == 0
      invariant Halves(left[..nl], right[..nr]) == Up(c, h, i / 2)
    {
      OnePass(c, right, nr, left, nl, 0xff, i);
      OnePass(c, left, nl, right, nr, c.mask, i + 1);
      i := i + 2;
    }
  }

  // The loop in the direction of decryption, with the numbers of the passes going down
  method RoundsBack(c: Context, left: array<Byte>, nl: nat, right: array<Byte>, nr: nat)
    requires left != right && 0 < nl <= left.Length && nl <= 16 && 0 < nr <= right.Length && nr <= 16
    modifies left, right
    ensures Halves(left[..nl], right[..nr]) == Down(c, old(Halves(left[..nl], right[..nr])), Pairs(c), Base(c))
  {
    hide Pass;
    ghost var h := Halves(left[..nl], right[..nr]);
    var i := 0;
    while i < c.rounds
      invariant 0 <= i <= 2 * Pairs(c) && i % 2 == 0
      invariant Down(c, Halves(left[..nl], right[..nr]), Pairs(c) - i / 2, Base(c)) == Down(c, h, Pairs(c), Base(c))
    {
      ghost var g := Halves(left[..nl], right[..nr]);
      assert Base(c) + 2 * (Pairs(c) - i / 2 - 1) == c.rounds - 2 - i;
      OnePass(c, left, nl, right, nr, c.mask, c.rounds - 1 - i);
      OnePass(c, right, nr, left, nl, 0xff, c.rounds - 2 - i);
      assert Halves(left[..nl], right[..nr]) == UnPair(c, g, c.rounds - 2 - i);
      i := i + 2;
    }
  }

  // A buffer of sixteen bytes holding a half, with zeros after it
  method CopyHalf(half: seq<Byte>) returns (a: array<Byte>)
    requires |half| <= 16
    ensures fresh(a) && a.Length == 16 && a[..|half|] == half
  {
    a := new Byte[16](i requires 0 <= i < 16 => if i < |half| then half[i] else 0);
  }

  // The two halves in their zero-filled arrays
  method LoadHalves(c: Context, input: array<Byte>) returns (left: array<Byte>, right: array<Byte>, last: Byte)
    requires c.Valid() && input.Length == c.length
    ensures fresh(left) && fresh(right) && left != right && left.Length == 16 && right.Length == 16
    ensures Halves(left[..c.LeftSize()], right[..c.RightSize()]) == Load(c, input[..]) && last == input[c.length - 1]
  {
    hide Inside;
    var nl, nr := c.length / 2, c.length - c.length / 2;
    var s := input[..];
    left := CopyHalf(s[..nl]);
    right := CopyHalf(s[nl..]);
    last := right[..nr][nr - 1];
    right[nr - 1] := Inside(last, c.mask);
    assert right[..nr] == s[nl..c.length - 1] + [Inside(last, c.mask)];
  }

  method StoreHalves(c: Context, output: array<Byte>, left: array<Byte>, right: array<Byte>, last: Byte)
    requires c.Valid() && output.Length == c.length && left.Length == 16 && right.Length == 16 && output != left
      && output != right
    modifies output
    ensures output[..] == Store(c, Halves(left[..c.LeftSize()], right[..c.RightSize()]), last)
  {
    hide Blend;
    var nl, nr := c.length / 2, c.length - c.length / 2;
    forall i | 0 <= i < c.length {
      output[i] := if i < nl then left[i] else if i < c.length - 1 then right[i - nl]
        else Blend(right[nr - 1], last, c.mask);
    }
  }

  // ffx_encrypt, both directions; the output may be the input.
  method Transform(c: Context, output: array<Byte>, input: array<Byte>, encrypt: bool)
    requires c.Valid() && input.Length == c.length && output.Length == c.length
    modifies output
    ensures output[..] == if encrypt then Encrypt(c, old(input[..])) else Decrypt(c, old(input[..]))
  {
    hide Up, Down, Load, Store;
    var left, right, last := LoadHalves(c, input);
    if encrypt {
      Rounds(c, left, c.LeftSize(), right, c.RightSize());
    } else {
      RoundsBack(c, left, c.LeftSize(), right, c.RightSize());
    }
    StoreHalves(c, output, left, right, last);
  }
}
