/** Base64 of lib/pembase64.c: the encoder, and the decoder that takes its text in pieces. */
module Base64 {
  import opened Wire

  // ---------------------------------------------------------------- the alphabet

  const PAD: Octet := 61

  // ptls_base64_alphabet
  function Letter(n: nat): (c: Octet)
    requires n < 64
  {
    if n < 26 then (65 + n) as Octet
    else if n < 52 then (97 + (n - 26)) as Octet
    else if n < 62 then (48 + (n - 52)) as Octet
    else if n == 62 then 43
    else 47
  }

  // ptls_base64_values, -1 for what is not in the alphabet
  function Value(c: Octet): (v: int)
    ensures -1 <= v < 64
  {
    if 65 <= c <= 90 then c as int - 65
    else if 97 <= c <= 122 then c as int - 97 + 26
    else if 48 <= c <= 57 then c as int - 48 + 52
    else if c == 43 then 62
    else if c == 47 then 63
    else -1
  }

  lemma ValueOfLetter(n: nat)
    requires n < 64
    ensures Value(Letter(n)) == n && Letter(n) != PAD && !Blank(Letter(n))
  {}

  /** The alphabet: capitals, small letters, digits, plus and slash; nothing else has a value. */
  lemma Alphabet(n: nat, c: Octet)
    requires n < 64
    ensures Letter(n) as int ==
      if n < 26 then 'A' as int + n
      else if n < 52 then 'a' as int + n - 26
      else if n < 62 then '0' as int + n - 52
      else if n == 62 then '+' as int
      else '/' as int
    ensures Value(c) == n <==> Letter(n) == c
    ensures PAD as int == '=' as int
  {}

  // ---------------------------------------------------------------- encoding

  // ptls_base64_cell: three bytes, four letters
  function Cell(a: Octet, b: Octet, c: Octet): (r: Data)
    ensures |r| == 4
  {
    [Letter(a as nat / 4), Letter(a as nat % 4 * 16 + b as nat / 16),
     Letter(b as nat % 16 * 4 + c as nat / 64), Letter(c as nat % 64)]
  }

  // One or two bytes that are left over
  function LastCell(s: Data): (r: Data)
    requires |s| == 1 || |s| == 2
    ensures |r| == 4
  {
    if |s| == 1 then
      [Letter(s[0] as nat / 4), Letter(s[0] as nat % 4 * 16), PAD, PAD]
    else
      [Letter(s[0] as nat / 4), Letter(s[0] as nat % 4 * 16 + s[1] as nat / 16), Letter(s[1] as nat % 16 * 4), PAD]
  }

  // The number that four letters stand for, six bits each
  function Digits(cell: Data): int
    requires |cell| == 4
  {
    Value(cell[0]) * 0x4_0000 + Value(cell[1]) * 0x1000 + Value(cell[2]) * 0x40 + Value(cell[3])
  }

  /** Three bytes and the four letters for them are the same number; fewer bytes are filled up with zeros, and what
      comes of the filling alone is padding. */
  lemma CellIsNumber(a: Octet, b: Octet, c: Octet)
    ensures Digits(Cell(a, b, c)) == a as int * 0x1_0000 + b as int * 0x100 + c as int
    ensures LastCell([a]) == Cell(a, 0, 0)[..2] + [61, 61]
    ensures LastCell([a, b]) == Cell(a, b, 0)[..3] + [61]
  {
    hide Letter, Value;
    var x, y, z := a as nat, b as nat, c as nat;
    ValueOfLetter(x / 4);
    ValueOfLetter(x % 4 * 16 + y / 16);
    ValueOfLetter(y % 16 * 4 + z / 64);
    ValueOfLetter(z % 64);
  }

  function Encode(data: Data): Data
  {
    if data == [] then []
    else if |data| < 3 then LastCell(data)
    else Cell(data[0], data[1], data[2]) + Encode(data[3..])
  }

  // ptls_base64_howlong
  function HowLong(n: nat): nat { (n + 2) / 3 * 4 }

  lemma {:induction false} EncodeLength(data: Data)
    ensures |Encode(data)| == HowLong(|data|)
    decreases |data|
  {
    hide Cell, LastCell;
    if |data| >= 3 {
      EncodeLength(data[3..]);
      assert HowLong(|data|) == 4 + HowLong(|data| - 3);
    }
  }

  // ptls_base64_encode: the text and its terminator
  method EncodeText(data: Data) returns (text: Data, written: nat)
    ensures text == Encode(data) + [0]
    ensures written == |text| == HowLong(|data|) + 1
  {
    hide Cell, LastCell, HowLong;
    var l := 0;
    text := [];
    assert data[0..] == data;
    while |data| - l >= 3
      invariant 0 <= l <= |data|
      invariant text + Encode(data[l..]) == Encode(data)
      decreases |data| - l
    {
      var cell := Cell(data[l], data[l + 1], data[l + 2]);
      assert data[l..][3..] == data[l + 3..];
      assert text + (cell + Encode(data[l + 3..])) == text + cell + Encode(data[l + 3..]);
      text := text + cell;
      l := l + 3;
    }
    if |data| - l != 0 {
      text := text + LastCell(data[l..]);
    } else {
      assert text + [] == text;
    }
    EncodeLength(data);
    text := text + [0];
    written := |text|;
  }

  // ---------------------------------------------------------------- decoding

  datatype Status = InProgress | Done | Failed

  // nbc, v and status; nbo is 3 while in progress. out is the buffer.
  datatype State = State(count: nat, v: nat, status: Status, out: Data)

  const START := State(0, 0, InProgress, [])

  // Blanks that are skipped at the start of a line
  predicate Blank(c: Octet) { c == 32 || c == 9 || c == 13 || c == 10 }

  // And at its end
  predicate LateBlank(c: Octet) { Blank(c) || c == 11 || c == 12 }

  predicate AllLateBlank(s: Data) { forall i | 0 <= i < |s| :: LateBlank(s[i]) }

  // The first n of the three bytes of a 24-bit number
  function Emit(v: nat, n: nat): Data
    requires n <= 3
  {
    [Low(v / 65536), Low(v / 256), Low(v)][..n]
  }

  function SkipBlanks(s: Data): Data
  {
    if s != [] && Blank(s[0]) then SkipBlanks(s[1..]) else s
  }

  // One letter
  function Push(s: State, value: nat): State
  {
    if s.count == 3 then State(0, 0, InProgress, s.out + Emit(s.v * 64 + value, 3))
    else s.(count := s.count + 1, v := s.v * 64 + value)
  }

  // The main loop of ptls_base64_decode, from a state in progress; the flag is false on an error.
  function Run(s: State, text: Data): (State, bool)
    decreases |text|
  {
    if text == [] || s.status != InProgress then (s, true)
    else if Value(text[0]) != -1 then Run(Push(s, Value(text[0])), text[1..])
    else if s.count == 2 && text[0] == PAD && |text| > 1 && text[1] == PAD then
      (State(4, s.v * 4096, Done, s.out + Emit(s.v * 4096, 1)), true)
    else if s.count == 3 && text[0] == PAD then
      (State(4, s.v * 64, Done, s.out + Emit(s.v * 64, 2)), true)
    else if AllLateBlank(text) then (s, true)
    else (s.(status := Failed), false)
  }

  // ptls_base64_decode
  function Decode(s: State, text: Data): (State, bool)
  {
    Run(s, SkipBlanks(text))
  }

  // ---------------------------------------------------------------- letters

  predicate Letters(s: Data) { forall i | 0 <= i < |s| :: Value(s[i]) != -1 }

  lemma {:induction false} RunLetters(s: State, a: Data, b: Data)
    requires Letters(a) && s.status == InProgress
    ensures Run(s, a).0.status == InProgress && Run(s, a).1
    ensures Run(s, a + b) == Run(Run(s, a).0, b)
    decreases |a|
  {
    hide Value;
    if a == [] {
      assert a + b == b;
    } else {
      assert (a + b)[0] == a[0] && (a + b)[1..] == a[1..] + b;
      RunLetters(Push(s, Value(a[0])), a[1..], b);
    }
  }

  // Four letters of a cell give its three bytes.
  lemma CellDecodes(s: State, a: Octet, b: Octet, c: Octet)
    requires s.count == 0 && s.v == 0 && s.status == InProgress
    ensures Letters(Cell(a, b, c))
    ensures Run(s, Cell(a, b, c)) == (s.(out := s.out + [a, b, c]), true)
  {
    var x, y, z := a as nat, b as nat, c as nat;
    var n0, n1, n2, n3 := x / 4, x % 4 * 16 + y / 16, y % 16 * 4 + z / 64, z % 64;
    ValueOfLetter(n0);
    ValueOfLetter(n1);
    ValueOfLetter(n2);
    ValueOfLetter(n3);
    FourLetters(s, n0, n1, n2, n3);
    CellValue(a, b, c);
  }

  lemma CellValue(a: Octet, b: Octet, c: Octet)
    ensures var x, y, z := a as nat, b as nat, c as nat;
      Emit(((x / 4 * 64 + (x % 4 * 16 + y / 16)) * 64 + (y % 16 * 4 + z / 64)) * 64 + z % 64, 3) == [a, b, c]
  {
    var x, y, z := a as nat, b as nat, c as nat;
    var v := ((x / 4 * 64 + (x % 4 * 16 + y / 16)) * 64 + (y % 16 * 4 + z / 64)) * 64 + z % 64;
    assert v == x * 65536 + y * 256 + z;
    assert v / 65536 == x && v / 256 == x * 256 + y;
  }

  lemma FourLetters(s: State, n0: nat, n1: nat, n2: nat, n3: nat)
    requires s.count == 0 && s.v == 0 && s.status == InProgress && n0 < 64 && n1 < 64 && n2 < 64 && n3 < 64
    ensures Run(s, [Letter(n0), Letter(n1), Letter(n2), Letter(n3)])
         == (s.(out := s.out + Emit(((n0 * 64 + n1) * 64 + n2) * 64 + n3, 3)), true)
  {
    hide Value, Letter, Emit;
    ValueOfLetter(n0);
    ValueOfLetter(n1);
    ValueOfLetter(n2);
    ValueOfLetter(n3);
    var t := [Letter(n0), Letter(n1), Letter(n2), Letter(n3)];
    var s1 := s.(count := 1, v := n0);
    var s2 := s.(count := 2, v := n0 * 64 + n1);
    var s3 := s.(count := 3, v := (n0 * 64 + n1) * 64 + n2);
    var s4 := s.(out := s.out + Emit(((n0 * 64 + n1) * 64 + n2) * 64 + n3, 3));
    assert Push(s, n0) == s1 && Push(s1, n1) == s2 && Push(s2, n2) == s3 && Push(s3, n3) == s4;
    assert t[1..] == [Letter(n1), Letter(n2), Letter(n3)];
    assert t[1..][1..] == [Letter(n2), Letter(n3)];
    assert t[1..][1..][1..] == [Letter(n3)];
    assert t[1..][1..][1..][1..] == [];
    assert Run(s4, []) == (s4, true);
    assert Run(s3, [Letter(n3)]) == (s4, true);
    assert Run(s2, [Letter(n2), Letter(n3)]) == (s4, true);
    assert Run(s1, [Letter(n1), Letter(n2), Letter(n3)]) == (s4, true);
  }

  // ---------------------------------------------------------------- text and padding

  // The letters of an encoding
  function Text(data: Data): Data
  {
    if data == [] then []
    else if |data| < 3 then LastCell(data)[..|data| + 1]
    else Cell(data[0], data[1], data[2]) + Text(data[3..])
  }

  function Pads(n: nat): Data { if n % 3 == 0 then [] else if n % 3 == 1 then [PAD, PAD] else [PAD] }

  lemma {:induction false} EncodeParts(data: Data)
    ensures Encode(data) == Text(data) + Pads(|data|) && Letters(Text(data))
    decreases |data|
  {
    hide Cell, LastCell, Value, Pads;
    PadsAgain(|data|);
    if |data| >= 3 {
      EncodeParts(data[3..]);
      var cell := Cell(data[0], data[1], data[2]);
      CellLetters(data[0], data[1], data[2]);
      assert cell + (Text(data[3..]) + Pads(|data|)) == cell + Text(data[3..]) + Pads(|data|);
    } else if data != [] {
      LastLetters(data);
    }
  }

  lemma PadsAgain(n: nat)
    ensures n >= 3 ==> Pads(n - 3) == Pads(n)
    ensures Pads(0) == []
  {}

  lemma CellLetters(a: Octet, b: Octet, c: Octet)
    ensures Letters(Cell(a, b, c))
  {
    CellDecodes(START, a, b, c);
  }

  lemma LastLetters(s: Data)
    requires |s| == 1 || |s| == 2
    ensures Letters(LastCell(s)[..|s| + 1]) && LastCell(s) == LastCell(s)[..|s| + 1] + Pads(|s|)
  {
    hide Letter, Value;
    ValueOfLetter(s[0] as nat / 4);
    ValueOfLetter(s[0] as nat % 4 * 16);
    if |s| == 2 {
      ValueOfLetter(s[0] as nat % 4 * 16 + s[1] as nat / 16);
      ValueOfLetter(s[1] as nat % 16 * 4);
    }
  }

  // The state when the letters are read and the padding is still to come
  ghost predicate Waiting(s: State, data: Data, before: Data)
  {
    && s.status == InProgress
    && (|data| % 3 == 0 ==> s == State(0, 0, InProgress, before + data))
    && (|data| % 3 == 1 ==> s.count == 2 && s.out + Emit(s.v * 4096, 1) == before + data)
    && (|data| % 3 == 2 ==> s.count == 3 && s.out + Emit(s.v * 64, 2) == before + data)
  }

  lemma {:induction false} RunText(s: State, data: Data)
    requires s.count == 0 && s.v == 0 && s.status == InProgress
    ensures Waiting(Run(s, Text(data)).0, data, s.out)
    decreases |data|
  {
    hide Cell, Emit, LastCell, Run, Waiting;
    if data == [] {
      NoText(s);
    } else if |data| < 3 {
      RunLast(s, data);
    } else {
      var cell := Cell(data[0], data[1], data[2]);
      CellDecodes(s, data[0], data[1], data[2]);
      var t := s.(out := s.out + [data[0], data[1], data[2]]);
      RunLetters(s, cell, Text(data[3..]));
      RunText(t, data[3..]);
      WaitingOn(Run(t, Text(data[3..])).0, data, s.out);
    }
  }

  lemma NoText(s: State)
    requires s.count == 0 && s.v == 0 && s.status == InProgress
    ensures Waiting(Run(s, Text([])).0, [], s.out)
  {
    assert s.out + [] == s.out;
  }

  lemma WaitingOn(s: State, data: Data, before: Data)
    requires |data| >= 3 && Waiting(s, data[3..], before + [data[0], data[1], data[2]])
    ensures Waiting(s, data, before)
  {
    hide Emit;
    assert before + [data[0], data[1], data[2]] + data[3..] == before + data;
    assert |data[3..]| % 3 == |data| % 3;
  }

  lemma TwoLetters(s: State, m: nat, n: nat)
    requires s.count == 0 && s.v == 0 && s.status == InProgress && m < 64 && n < 64
    ensures Run(s, [Letter(m), Letter(n)]) == (s.(count := 2, v := m * 64 + n), true)
  {
    hide Letter, Value;
    ValueOfLetter(m);
    ValueOfLetter(n);
    var t := [Letter(m), Letter(n)];
    assert t[1..] == [Letter(n)] && t[1..][1..] == [];
    var s1, s2 := s.(count := 1, v := m), s.(count := 2, v := m * 64 + n);
    assert Push(s, m) == s1 && Push(s1, n) == s2;
    assert Run(s2, []) == (s2, true);
    assert Run(s1, [Letter(n)]) == (s2, true);
  }

  lemma ThreeLetters(s: State, m: nat, n: nat, o: nat)
    requires s.count == 0 && s.v == 0 && s.status == InProgress && m < 64 && n < 64 && o < 64
    ensures Run(s, [Letter(m), Letter(n), Letter(o)]) == (s.(count := 3, v := (m * 64 + n) * 64 + o), true)
  {
    hide Letter, Value;
    ValueOfLetter(m);
    ValueOfLetter(n);
    ValueOfLetter(o);
    TwoLetters(s, m, n);
    var a := [Letter(m), Letter(n)];
    assert Letters(a) && a + [Letter(o)] == [Letter(m), Letter(n), Letter(o)];
    RunLetters(s, a, [Letter(o)]);
    var s2, s3 := s.(count := 2, v := m * 64 + n), s.(count := 3, v := (m * 64 + n) * 64 + o);
    assert Push(s2, o) == s3 && [Letter(o)][1..] == [];
    assert Run(s3, []) == (s3, true);
  }

  lemma RunLast(s: State, data: Data)
    requires s.count == 0 && s.v == 0 && s.status == InProgress && (|data| == 1 || |data| == 2)
    ensures Waiting(Run(s, Text(data)).0, data, s.out)
  {
    hide Run, Text, Waiting;
    if |data| == 1 {
      RunOne(s, data);
    } else {
      RunTwo(s, data);
    }
  }

  lemma RunOne(s: State, data: Data)
    requires s.count == 0 && s.v == 0 && s.status == InProgress && |data| == 1
    ensures Waiting(Run(s, Text(data)).0, data, s.out)
  {
    hide Run, Emit, Letter, Text;
    var x := data[0] as nat;
    TextOfOne(data);
    TwoLetters(s, x / 4, x % 4 * 16);
    OneSum(x);
    OneByte(x);
    assert [data[0]] == data;
  }

  lemma RunTwo(s: State, data: Data)
    requires s.count == 0 && s.v == 0 && s.status == InProgress && |data| == 2
    ensures Waiting(Run(s, Text(data)).0, data, s.out)
  {
    hide Run, Emit, Letter, Text;
    var x, y := data[0] as nat, data[1] as nat;
    TextOfTwo(data);
    ThreeLetters(s, x / 4, x % 4 * 16 + y / 16, y % 16 * 4);
    TwoSum(x, y);
    TwoBytes(x, y);
    assert [data[0], data[1]] == data;
  }

  lemma OneSum(x: nat)
    ensures (x / 4 * 64 + x % 4 * 16) * 4096 == x * 65536
  {
    assert x / 4 * 4 + x % 4 == x;
  }

  lemma TextOfOne(data: Data)
    requires |data| == 1
    ensures Text(data) == [Letter(data[0] as nat / 4), Letter(data[0] as nat % 4 * 16)]
  {
    hide Letter;
  }

  lemma TextOfTwo(data: Data)
    requires |data| == 2
    ensures Text(data) ==
      [Letter(data[0] as nat / 4), Letter(data[0] as nat % 4 * 16 + data[1] as nat / 16),
        Letter(data[1] as nat % 16 * 4)]
  {
    hide Letter;
  }

  lemma TwoSum(x: nat, y: nat)
    ensures ((x / 4 * 64 + (x % 4 * 16 + y / 16)) * 64 + y % 16 * 4) * 64 == x * 65536 + y * 256
  {
    assert x / 4 * 4 + x % 4 == x && y / 16 * 16 + y % 16 == y;
  }

  lemma OneByte(x: nat)
    requires x < 256
    ensures Emit(x * 65536, 1) == [x as Octet]
  {
    assert x * 65536 / 65536 == x;
  }

  lemma TwoBytes(x: nat, y: nat)
    requires x < 256 && y < 256
    ensures Emit(x * 65536 + y * 256, 2) == [x as Octet, y as Octet]
  {
    var v := x * 65536 + y * 256;
    assert v / 65536 == x && v / 256 == x * 256 + y;
  }

  // ---------------------------------------------------------------- lines

  // A line of text: blanks, a piece of the encoding, blanks.
  datatype Line = Line(lead: Data, chunk: Data, trail: Data)
  {
    predicate Valid() { (forall i | 0 <= i < |lead| :: Blank(lead[i])) && AllLateBlank(trail) }

    function Whole(): Data { lead + (chunk + trail) }
  }

  function Chunks(lines: seq<Line>): Data
  {
    if lines == [] then [] else lines[0].chunk + Chunks(lines[1..])
  }

  // One line after the other, until an error
  function Feed(s: State, lines: seq<Line>): (State, bool)
    decreases |lines|
  {
    if lines == [] then (s, true)
    else
      var r := Decode(s, lines[0].Whole());
      if !r.1 then r else Feed(r.0, lines[1..])
  }

  // Some line ends after so many characters of the encoding, pos > 0.
  predicate CutAt(lines: seq<Line>, pos: nat)
  {
    lines != [] && (|lines[0].chunk| == pos || (|lines[0].chunk| < pos && CutAt(lines[1..], pos - |lines[0].chunk|)))
  }

  lemma {:induction false} SkipLead(lead: Data, rest: Data)
    requires forall i | 0 <= i < |lead| :: Blank(lead[i])
    ensures SkipBlanks(lead + rest) == SkipBlanks(rest)
    decreases |lead|
  {
    if lead == [] {
      assert lead + rest == rest;
    } else {
      assert (lead + rest)[0] == lead[0] && (lead + rest)[1..] == lead[1..] + rest;
      SkipLead(lead[1..], rest);
    }
  }

  // Blanks alone change nothing.
  lemma {:induction false} DecodeBlanks(s: State, trail: Data)
    requires AllLateBlank(trail) && s.status == InProgress
    ensures Run(s, trail) == (s, true) && Run(s, SkipBlanks(trail)) == (s, true)
    decreases |trail|
  {
    if trail != [] && Blank(trail[0]) {
      DecodeBlanks(s, trail[1..]);
    }
  }

  // Letters, blanks around them
  lemma DecodeLetters(s: State, l: Line)
    requires l.Valid() && Letters(l.chunk) && s.status == InProgress
    ensures Decode(s, l.Whole()) == (Run(s, l.chunk).0, true)
    ensures Run(s, l.chunk).0.status == InProgress
  {
    hide Run;
    SkipLead(l.lead, l.chunk + l.trail);
    RunLetters(s, l.chunk, l.trail);
    DecodeBlanks(Run(s, l.chunk).0, l.trail);
    if l.chunk == [] {
      assert l.chunk + l.trail == l.trail;
      RunNothing(s);
    } else {
      LetterIsNotBlank(l.chunk[0]);
      assert SkipBlanks(l.chunk + l.trail) == l.chunk + l.trail;
    }
  }

  lemma RunNothing(s: State)
    ensures Run(s, []) == (s, true)
  {}

  lemma LetterIsNotBlank(c: Octet)
    requires Value(c) != -1 || c == PAD
    ensures !Blank(c)
  {}

  // The padding itself
  lemma RunPads(w: State, pads: Data, trail: Data, data: Data, before: Data)
    requires AllLateBlank(trail) && |data| % 3 != 0 && Waiting(w, data, before)
    requires pads == Pads(|data|) || (|data| % 3 == 1 && pads == [PAD])
    ensures var r := Run(w, pads + trail);
      if pads == Pads(|data|) then r.1 && r.0.status == Done && r.0.out == before + data else !r.1
  {
    hide Emit;
    var rest := pads + trail;
    assert rest[0] == PAD && Value(PAD) == -1 && !LateBlank(PAD);
    if |pads| == 2 {
      assert rest[1] == PAD;
    } else if |data| % 3 == 1 && |rest| > 1 {
      assert rest[1] == trail[0] && LateBlank(trail[0]);
    }
  }

  // Letters and then padding, in full or its first half
  lemma DecodePadded(s: State, l: Line, t: Data, data: Data, before: Data)
    requires l.Valid() && Letters(t) && s.status == InProgress && |data| % 3 != 0
    requires Waiting(Run(s, t).0, data, before)
    requires l.chunk == t + Pads(|data|) || (|data| % 3 == 1 && l.chunk == t + [PAD])
    ensures var r := Decode(s, l.Whole());
      if l.chunk == t + Pads(|data|) then r.1 && r.0.status == Done && r.0.out == before + data
      else !r.1
  {
    hide Run, Waiting, Value, AllLateBlank;
    SkipLead(l.lead, l.chunk + l.trail);
    var pads := l.chunk[|t|..];
    assert l.chunk == t + pads && l.chunk + l.trail == t + (pads + l.trail);
    LetterIsNotBlank(l.chunk[0]);
    assert SkipBlanks(l.chunk + l.trail) == l.chunk + l.trail;
    RunLetters(s, t, pads + l.trail);
    RunPads(Run(s, t).0, pads, l.trail, data, before);
  }

  lemma {:induction false} FeedDone(s: State, lines: seq<Line>)
    requires s.status == Done
    ensures Feed(s, lines) == (s, true)
    decreases |lines|
  {
    if lines != [] { FeedDone(s, lines[1..]); }
  }

  /** Feeding the rest of an encoding: t are letters still to come, then the padding. */
  lemma {:induction false} FeedRest(s: State, t: Data, data: Data, before: Data, lines: seq<Line>)
    requires (forall l | l in lines :: l.Valid()) && Letters(t) && s.status == InProgress
    requires Waiting(Run(s, t).0, data, before)
    requires Chunks(lines) == t + Pads(|data|)
    ensures var r := Feed(s, lines);
      && (r.1 <==> !(|data| % 3 == 1 && CutAt(lines, |t| + 1)))
      && (r.1 ==> r.0.out == before + data || (lines == [] && r.0 == s))
      && (r.1 && |data| % 3 == 0 ==> r.0 == State(0, 0, InProgress, before + data))
      && (r.1 && |data| % 3 != 0 ==> r.0.status == Done && r.0.out == before + data)
    decreases |lines|
  {
    hide Run, Decode, Emit;
    if lines == [] {
      assert t == [];
      RunNothing(s);
    } else {
      var c := lines[0].chunk;
      var all := t + Pads(|data|);
      assert lines[0] in lines;
      assert c == all[..|c|] && Chunks(lines[1..]) == all[|c|..];
      if |c| <= |t| {
        FeedLetters(s, t, data, before, lines);
      } else {
        FeedPads(s, t, data, before, lines);
      }
    }
  }

  lemma FeedLetters(s: State, t: Data, data: Data, before: Data, lines: seq<Line>)
    requires lines != [] && (forall l | l in lines :: l.Valid()) && Letters(t) && s.status == InProgress
    requires Waiting(Run(s, t).0, data, before)
    requires Chunks(lines) == t + Pads(|data|) && |lines[0].chunk| <= |t|
    ensures var r := Feed(s, lines);
      && (r.1 <==> !(|data| % 3 == 1 && CutAt(lines, |t| + 1)))
      && (r.1 ==> r.0.out == before + data || (lines == [] && r.0 == s))
      && (r.1 && |data| % 3 == 0 ==> r.0 == State(0, 0, InProgress, before + data))
      && (r.1 && |data| % 3 != 0 ==> r.0.status == Done && r.0.out == before + data)
    decreases |lines|, 0
  {
    hide Run, Decode, Emit;
    var c := lines[0].chunk;
    var all := t + Pads(|data|);
    assert lines[0] in lines;
    assert Chunks(lines) == c + Chunks(lines[1..]);
    assert c == t[..|c|] by { assert c == all[..|c|]; }
    var u := t[|c|..];
    assert t == c + u && Chunks(lines[1..]) == u + Pads(|data|) by { assert Chunks(lines[1..]) == all[|c|..]; }
    DecodeLetters(s, lines[0]);
    RunLetters(s, c, u);
    FeedRest(Run(s, c).0, u, data, before, lines[1..]);
    assert |u| + 1 == |t| + 1 - |c|;
  }

  lemma FeedPads(s: State, t: Data, data: Data, before: Data, lines: seq<Line>)
    requires lines != [] && (forall l | l in lines :: l.Valid()) && Letters(t) && s.status == InProgress
    requires Waiting(Run(s, t).0, data, before)
    requires Chunks(lines) == t + Pads(|data|) && |lines[0].chunk| > |t|
    ensures var r := Feed(s, lines);
      && (r.1 <==> !(|data| % 3 == 1 && CutAt(lines, |t| + 1)))
      && (r.1 ==> r.0.status == Done && r.0.out == before + data)
    ensures |data| % 3 != 0
  {
    hide Run, Decode, Emit;
    var c := lines[0].chunk;
    var all := t + Pads(|data|);
    assert lines[0] in lines;
    assert Chunks(lines) == c + Chunks(lines[1..]);
    assert c == all[..|c|];
    if |c| == |all| {
      assert c == all;
    } else {
      assert c == t + [PAD];
    }
    DecodePadded(s, lines[0], t, data, before);
    var r := Decode(s, lines[0].Whole());
    if r.1 { FeedDone(r.0, lines[1..]); }
  }

  /** Decoding inverts encoding for every byte string. Fed line by line, with blanks around the
      lines, it does so exactly when no line ends between the two padding characters. */
  lemma DecodeInverts(data: Data, lines: seq<Line>)
    requires (forall l | l in lines :: l.Valid()) && Chunks(lines) == Encode(data)
    ensures var r := Feed(START, lines);
      && (r.1 <==> !(|data| % 3 == 1 && CutAt(lines, |Encode(data)| - 1)))
      && (r.1 ==> r.0.out == data)
      && (r.1 ==> r.0.status == (if |data| % 3 == 0 then InProgress else Done))
  {
    hide Run, Decode, Text;
    EncodeParts(data);
    RunText(START, data);
    FeedRest(START, Text(data), data, [], lines);
    assert [] + data == data;
  }

  /** One byte, its text cut between the two padding characters: refused. */
  lemma CutBetweenPads()
    ensures var lines := [Line([], [65, 65, PAD], []), Line([], [PAD], [])];
      Chunks(lines) == Encode([0]) && !Feed(START, lines).1
  {
    hide Feed;
    var first, second := Line([], [65, 65, PAD], []), Line([], [PAD], []);
    assert [first, second][1..] == [second] && [second][1..] == [];
    assert Chunks([second]) == [PAD] + Chunks([]);
    assert Encode([0]) == [65, 65, PAD, PAD];
    DecodeInverts([0], [first, second]);
  }

  // The whole text at once
  lemma DecodeWhole(data: Data)
    ensures var r := Decode(START, Encode(data)); r.1 && r.0.out == data
  {
    hide Decode, Encode;
    var l := Line([], Encode(data), []);
    assert Chunks([l]) == Encode(data) + Chunks([]);
    assert Encode(data) + [] == Encode(data);
    DecodeInverts(data, [l]);
    assert l.Whole() == Encode(data) by { assert [] + (Encode(data) + []) == Encode(data); }
    var r := Decode(START, Encode(data));
    assert Feed(START, [l]) == r by { assert Feed(r.0, [l][1..]) == (r.0, true); }
  }

  // ---------------------------------------------------------------- the procedure

  class Decoder {
    // ptls_base64_decode_state_t and the buffer
    var nbc: nat
    var nbo: nat
    var v: nat
    var status: Status
    var buf: Data

    function View(): State
      reads this
    {
      State(nbc, v, status, buf)
    }

    // While in progress fewer than four letters are pending, so that v never exceeds 24 bits.
    ghost predicate Valid()
      reads this
    {
      status == InProgress ==>
        && nbo == 3 && nbc <= 3
        && v < (if nbc == 0 then 1 else if nbc == 1 then 64 else if nbc == 2 then 4096 else 262144)
    }

    // ptls_base64_decode_init
    constructor ()
      ensures Valid() && View() == START
    {
      nbc, nbo, v, status, buf := 0, 3, 0, InProgress, [];
    }

    // The three bytes, or as many of them as there are
    method Flush()
      requires nbo <= 3 && v < 0x100_0000
      modifies this`buf
      ensures buf == old(buf) + Emit(v, nbo)
    {
      var decoded := [Low(v / 65536), Low(v / 256), Low(v)];
      buf := buf + decoded[..nbo];
    }

    // A letter of the alphabet
    method Letter64(value: nat)
      requires Valid() && status == InProgress && value < 64
      modifies this
      ensures Valid() && View() == Push(old(View()), value)
    {
      hide Emit;
      nbc := nbc + 1;
      v := v * 64 + value;
      if nbc == 4 {
        Flush();
        v, nbo, nbc := 0, 3, 0;
      }
    }

    // ptls_base64_decode, from a position after the initial blanks
    method Loop(text: Data, start: nat, ghost end: nat) returns (ok: bool)
      requires Valid() && start <= end && Terminated(text, end)
      modifies this
      ensures Valid() && (View(), ok) == Run(old(View()), text[start..end])
    {
      hide Emit, Value, Push;
      var i := start;
      while text[i] != 0 && status == InProgress
        invariant start <= i <= end && Valid()
        invariant Run(old(View()), text[start..end]) == Run(View(), text[i..end])
        decreases end - i
      {
        ghost var left := text[i..end];
        assert left[1..] == text[i + 1..end];
        var c := text[i];
        i := i + 1;
        var vc := Value(c);
        if vc == -1 {
          if nbc == 2 && c == PAD && text[i] == PAD {
            assert left[1] == PAD;
            nbc, nbo, v := 4, 1, v * 4096;
            Flush();
            status := Done;
            return true;
          } else if nbc == 3 && c == PAD {
            nbc, nbo, v := 4, 2, v * 64;
            Flush();
            status := Done;
            return true;
          } else {
            ok := OnlyBlanks(text, i - 1, end);
            if !ok {
              nbo := 0;
              status := Failed;
            }
            return;
          }
        }
        Letter64(vc);
      }
      return true;
    }

    // The text is a string that ends before its first zero byte.
    method DecodeLine(text: Data, ghost end: nat) returns (ok: bool)
      requires Valid() && Terminated(text, end)
      modifies this
      ensures Valid() && (View(), ok) == Decode(old(View()), text[..end])
    {
      hide Run;
      var i := 0;
      assert text[0..end] == text[..end];
      while text[i] != 0 && Blank(text[i])
        invariant 0 <= i <= end
        invariant SkipBlanks(text[..end]) == SkipBlanks(text[i..end])
        decreases end - i
      {
        assert text[i..end][1..] == text[i + 1..end];
        i := i + 1;
      }
      ok := Loop(text, i, end);
    }
  }

  // The first zero byte is at end.
  predicate Terminated(text: Data, end: nat)
  {
    end < |text| && text[end] == 0 && forall i | 0 <= i < end :: text[i] != 0
  }

  // The loop over final blanks
  method OnlyBlanks(text: Data, start: nat, ghost end: nat) returns (ok: bool)
    requires start <= end && Terminated(text, end)
    ensures ok == AllLateBlank(text[start..end])
  {
    var i := start;
    while text[i] != 0
      invariant start <= i <= end && forall j | start <= j < i :: LateBlank(text[j])
      decreases end - i
    {
      if !LateBlank(text[i]) {
        assert text[start..end][i - start] == text[i];
        return false;
      }
      i := i + 1;
    }
    return true;
  }
}
