/** The bytes of TLS messages, taken as numbers: big-endian integers and length-prefixed
    blocks. */
module Wire {
  import opened Results

  newtype Octet = n: int | 0 <= n < 256

  type Data = seq<Octet>

  // PTLS_MAX_PLAINTEXT_RECORD_SIZE
  const MAX_PLAINTEXT: nat := 16384

  function Low(n: nat): (r: Octet)
    ensures r as nat == n % 256
  {
    (n % 256) as Octet
  }

  function Zeros(n: nat): (r: Data)
    ensures |r| == n
  {
    seq(n, i => 0)
  }

  function Be16(n: nat): (r: Data)
    ensures |r| == 2
  {
    [Low(n / 256), Low(n)]
  }

  function Be24(n: nat): (r: Data)
    ensures |r| == 3
  {
    [Low(n / 65536), Low(n / 256), Low(n)]
  }

  function Number16(s: Data): (r: nat)
    requires |s| >= 2
    ensures r < 65536
  {
    s[0] as nat * 256 + s[1] as nat
  }

  // ntoh24
  function Number24(s: Data): nat
    requires |s| >= 3
  {
    s[0] as nat * 65536 + s[1] as nat * 256 + s[2] as nat
  }

  // The number that bytes stand for, most significant first
  function Number(s: Data): nat
  {
    if s == [] then 0 else Number(s[..|s| - 1]) * 256 + s[|s| - 1] as nat
  }

  /** Both widths are big-endian, in both directions. */
  lemma BigEndian(n: nat, s: Data)
    ensures n < 0x1_0000 ==> Number(Be16(n)) == n
    ensures n < 0x100_0000 ==> Number(Be24(n)) == n
    ensures |s| >= 2 ==> Number16(s) == Number(s[..2])
    ensures |s| >= 3 ==> Number24(s) == Number(s[..3])
  {
    NumberTwo(Be16(n));
    NumberThree(Be24(n));
    if |s| >= 2 {
      NumberTwo(s[..2]);
    }
    if |s| >= 3 {
      NumberThree(s[..3]);
    }
  }

  lemma NumberTwo(s: Data)
    requires |s| == 2
    ensures Number(s) == s[0] as nat * 256 + s[1] as nat
  {
    assert s[..1][..0] == [];
    assert Number(s[..1]) == s[0] as nat;
  }

  lemma NumberThree(s: Data)
    requires |s| == 3
    ensures Number(s) == s[0] as nat * 65536 + s[1] as nat * 256 + s[2] as nat
  {
    NumberTwo(s[..2]);
  }

  lemma Be24OfNumber(s: Data)
    requires |s| == 3
    ensures Number24(s) < 0x100_0000 && Be24(Number24(s)) == s
  {
    ThreeDigits(s[0] as nat, s[1] as nat, s[2] as nat);
  }

  lemma ThreeDigits(a: nat, b: nat, c: nat)
    requires a < 256 && b < 256 && c < 256
    ensures var n := a * 65536 + b * 256 + c; n / 65536 == a && n / 256 % 256 == b && n % 256 == c
  {
    var n := a * 65536 + b * 256 + c;
    assert n / 256 == a * 256 + b && n % 256 == c;
    assert n / 65536 == a;
  }

  lemma Number24Of(n: nat)
    requires n < 0x100_0000
    ensures Number24(Be24(n)) == n
  {
    assert n / 256 == 256 * (n / 65536) + n / 256 % 256 && n == 256 * (n / 256) + n % 256;
  }

  lemma Number16Of(n: nat)
    requires n < 65536
    ensures Number16(Be16(n)) == n
  {}

  lemma Number16Prefix(n: nat, rest: Data)
    requires n < 65536
    ensures var s := Be16(n) + rest; |s| >= 2 && Number16(s) == n && s[2..] == rest
  {
    var s := Be16(n) + rest;
    assert s[0] == Be16(n)[0] && s[1] == Be16(n)[1];
    Number16Of(n);
  }

  lemma Be16OfNumber(s: Data)
    requires |s| == 2
    ensures Be16(Number16(s)) == s
  {}

  function Block1(d: Data): Data { [Low(|d|)] + d }

  function Block2(d: Data): Data { Be16(|d|) + d }

  // buffer_push_extension
  function Extension(kind: nat, d: Data): Data { Be16(kind) + Block2(d) }

  // ptls_buffer_push_message_body: type, 24-bit length, body.
  function Message(kind: Octet, body: Data): Data { [kind] + Be24(|body|) + body }

  // ---------------------------------------------------------------- taking blocks apart

  // ptls_decode_open_block with a one-byte length: content and what follows it.
  function Open1(s: Data): (r: Option<(Data, Data)>)
    ensures r.Some? ==> s == Block1(r.value.0) + r.value.1
  {
    if |s| < 1 || |s| - 1 < s[0] as nat then None
    else Some((s[1..1 + s[0] as nat], s[1 + s[0] as nat..]))
  }

  // The same with a two-byte length
  function Open2(s: Data): (r: Option<(Data, Data)>)
    ensures r.Some? ==> s == Block2(r.value.0) + r.value.1
  {
    if |s| < 2 || |s| - 2 < Number16(s) then None
    else
      Be16OfNumber(s[..2]);
      Some((s[2..2 + Number16(s)], s[2 + Number16(s)..]))
  }

  lemma Open1Of(d: Data, rest: Data)
    requires |d| < 256
    ensures Open1(Block1(d) + rest) == Some((d, rest))
  {
    var s := Block1(d) + rest;
    assert s[0] as nat == |d|;
    assert s[1..1 + |d|] == d && s[1 + |d|..] == rest;
  }

  lemma Open2Of(d: Data, rest: Data)
    requires |d| < 65536
    ensures Open2(Block2(d) + rest) == Some((d, rest))
  {
    var s := Block2(d) + rest;
    Number16Of(|d|);
    assert s[0] == Be16(|d|)[0] && s[1] == Be16(|d|)[1];
    assert s[2..2 + |d|] == d && s[2 + |d|..] == rest;
  }
}
