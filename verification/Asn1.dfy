/** BER validation (lib/asn1.c) and the PKCS#8 decoder on top of it (lib/minicrypto-pem.c). */
module Asn1 {
  import opened Results
  import opened Wire

  const MAX_RECURSION: nat := 32
  const TYPE_LIMIT: nat := 0x7fff_ffff

  datatype Error =
    | MalformedType | MalformedLength | ExcessiveLength | UnexpectedEoc | IncorrectSyntax
    | IndefiniteLength | IncorrectVersion | ElementTooShort

  // ---------------------------------------------------------------- type and length octets

  // Where a long type number ends: seven bits a byte, as long as it stays within the limit.
  function LongTypeEnd(bytes: Data, i: nat, number: nat): (r: Option<nat>)
    requires i <= |bytes|
    ensures r.Some? ==> i < r.value <= |bytes|
    decreases |bytes| - i
  {
    if i == |bytes| || number > TYPE_LIMIT then None
    else if bytes[i] < 128 then Some(i + 1)
    else LongTypeEnd(bytes, i + 1, (number * 128 + bytes[i] as nat % 128) % WORD32)
  }

  function TypeEnd(bytes: Data): (r: Option<nat>)
    requires bytes != []
    ensures r.Some? ==> 1 <= r.value <= |bytes|
  {
    if bytes[0] % 32 == 31 then LongTypeEnd(bytes, 1, 0) else Some(1)
  }

  predicate Structured(bytes: Data)
    requires bytes != []
  {
    bytes[0] / 32 % 2 == 1
  }

  // Length octets at i: where the content starts and, for a definite length, where it ends.
  datatype Length = Length(start: nat, length: nat, indefinite: bool)

  // A big-endian number that keeps its low 32 bits
  function Number32(s: Data): (r: nat)
    ensures r < WORD32
  {
    if s == [] then 0 else (Number32(s[..|s| - 1]) * 256 + s[|s| - 1] as nat) % WORD32
  }

  function LengthAt(bytes: Data, i: nat): (r: Result<Length, Error>)
    requires i <= |bytes|
    ensures r.Ok? ==> i <= r.value.start && r.value.start + r.value.length <= |bytes|
    ensures r.Ok? && r.value.indefinite ==> r.value.length == 0
  {
    if i == |bytes| then Ok(Length(i, 0, false))
    else if bytes[i] < 128 then
      if i + 1 + bytes[i] as nat > |bytes| then Err(ExcessiveLength) else Ok(Length(i + 1, bytes[i] as nat, false))
    else
      var n := bytes[i] as nat - 128;
      if i + 1 + n >= |bytes| then Err(MalformedLength)
      else if n == 0 then Ok(Length(i + 1, 0, true))
      else
        var length := Number32(bytes[i + 1..i + 1 + n]);
        if i + 1 + n + length > |bytes| then Err(ExcessiveLength) else Ok(Length(i + 1 + n, length, false))
  }

  // ptls_asn1_read_type
  method ReadType(bytes: Data, err: Option<Error>) returns (index: nat, structured: bool, error: Option<Error>)
    requires bytes != []
    ensures 1 <= index <= |bytes| && structured == Structured(bytes)
    ensures error.None? <==> err.None? && TypeEnd(bytes).Some?
    ensures TypeEnd(bytes).Some? ==> error == err && index == TypeEnd(bytes).value
  {
    index, structured, error := 1, bytes[0] / 32 % 2 == 1, err;
    if bytes[0] % 32 == 31 {
      var number: nat, found := 0, false;
      while index < |bytes| && number <= TYPE_LIMIT
        invariant 1 <= index <= |bytes| && !found
        invariant LongTypeEnd(bytes, 1, 0) == LongTypeEnd(bytes, index, number)
        decreases |bytes| - index
      {
        var next := bytes[index];
        index := index + 1;
        number := (number * 128 + next as nat % 128) % WORD32;
        if next < 128 {
          found := true;
          break;
        }
      }
      if !found {
        error := Some(MalformedType);
      }
    }
  }

  // ptls_asn1_read_length; an error that was found before is kept, and then no more are looked for.
  method ReadLength(bytes: Data, i: nat, err: Option<Error>)
    returns (index: nat, length: nat, indefinite: bool, last: nat, error: Option<Error>)
    requires i <= |bytes|
    ensures i <= index <= |bytes|
    ensures err.Some? ==> error.Some?
    ensures err.None? ==> (error.None? <==> LengthAt(bytes, i).Ok?)
    ensures error.None? ==> LengthAt(bytes, i) == Ok(Length(index, length, indefinite))
    ensures error.None? ==> last == (if indefinite then |bytes| else index + length) && last <= |bytes|
    ensures last >= index
    ensures i == |bytes| ==> last == |bytes|
  {
    index, length, indefinite, last, error := i, 0, false, |bytes|, err;
    if i == |bytes| {
      return;
    }
    var first := bytes[i] as nat;
    index := i + 1;
    if first >= 128 {
      var n := first - 128;
      if index + n >= |bytes| {
        error := Some(MalformedLength);
      } else {
        var k := 0;
        while k < n && index < |bytes|
          invariant 0 <= k <= n && index == i + 1 + k && length == Number32(bytes[i + 1..index])
        {
          assert bytes[i + 1..index + 1][..k] == bytes[i + 1..index];
          length := (length * 256 + bytes[index] as nat) % WORD32;
          index := index + 1;
          k := k + 1;
        }
        if n == 0 {
          indefinite := true;
        } else {
          last := index + length;
        }
      }
    } else {
      length := first;
      last := index + length;
    }
    if error.None? && last > |bytes| {
      error := Some(ExcessiveLength);
    }
  }

  // ---------------------------------------------------------------- validation

  /** The size of the element that the input starts with, if it is well formed and nested within the
      limit. A type without length octets at the end of the input is an empty element, and an indefinite
      length may end with the input instead of with two zero bytes. */
  function Element(bytes: Data, level: nat): (r: Option<nat>)
    requires bytes != []
    ensures r.Some? ==> level <= MAX_RECURSION && 1 <= r.value <= |bytes|
    decreases Room(level), 1, 0
  {
    if level > MAX_RECURSION || TypeEnd(bytes).None? then None
    else
      var l := LengthAt(bytes, TypeEnd(bytes).value);
      if l.Err? then None
      else
        var last := if l.value.indefinite then |bytes| else l.value.start + l.value.length;
        if Structured(bytes) then Elements(bytes[..last], l.value.start, l.value.indefinite, level) else Some(last)
  }

  // Levels left
  function Room(level: nat): nat { if level > MAX_RECURSION then 0 else MAX_RECURSION + 1 - level }

  // Where the elements from i on end: at the end of the input, or after the end-of-contents bytes.
  function Elements(bytes: Data, i: nat, indefinite: bool, level: nat): (r: Option<nat>)
    requires i <= |bytes| && level <= MAX_RECURSION
    ensures r.Some? ==> i <= r.value <= |bytes|
    decreases Room(level), 0, |bytes| - i
  {
    if i == |bytes| then Some(i)
    else if indefinite && bytes[i] == 0 then
      if i + 2 > |bytes| || bytes[i + 1] != 0 then None else Some(i + 2)
    else
      var n := Element(bytes[i..], level + 1);
      if n.None? then None else Elements(bytes, i + n.value, indefinite, level)
  }

  /** ptls_asn1_validation_recursive terminates within the depth limit, whatever the input, and reads past it
      if and only if it is empty. The index is within the input; there is no error exactly when the input
      starts with an element, and then the index is its size. */
  method Validate(bytes: Data, level: nat, err: Option<Error>) returns (index: nat, error: Option<Error>, past: bool)
    ensures index <= |bytes|
    ensures past <==> bytes == [] && level <= MAX_RECURSION
    ensures !past ==> (error.None? <==> err.None? && bytes != [] && Element(bytes, level).Some?)
    ensures !past && error.None? ==> index == Element(bytes, level).value
    decreases Room(level)
  {
    hide TypeEnd, LengthAt, Structured, Element, Elements;
    if level > MAX_RECURSION {
      if bytes != [] { ElementParts(bytes, level); }
      return 0, Some(IncorrectSyntax), false;
    }
    if bytes == [] {
      return 0, err, true;
    }
    past := false;
    ElementParts(bytes, level);
    var structured;
    index, structured, error := ReadType(bytes, err);
    var length, indefinite, last;
    index, length, indefinite, last, error := ReadLength(bytes, index, error);
    if last <= |bytes| {
      if structured {
        ghost var failed := error.Some?;
        while index < last
          invariant index <= last <= |bytes| && error.Some? == failed
          invariant !failed ==> Element(bytes, level) == Elements(bytes[..last], index, indefinite, level)
          decreases last - index
        {
          ElementsStep(bytes, last, index, indefinite, level);
          if indefinite && bytes[index] == 0 {
            if index + 2 > |bytes| || bytes[index + 1] != 0 {
              error := Some(UnexpectedEoc);
              index := |bytes|;
              break;
            } else {
              index := index + 2;
              break;
            }
          } else {
            var n, inner;
            n, error, inner := Validate(bytes[index..last], level + 1, error);
            index := index + n;
            if error.Some? {
              index := |bytes|;
              break;
            }
          }
        }
        ElementsDone(bytes[..last], indefinite, level);
      } else {
        index := last;
      }
    }
  }

  lemma ElementParts(bytes: Data, level: nat)
    requires bytes != []
    ensures var t := TypeEnd(bytes);
      Element(bytes, level) ==
        if level > MAX_RECURSION || t.None? || LengthAt(bytes, t.value).Err? then None
        else
          var l := LengthAt(bytes, t.value).value;
          var last := if l.indefinite then |bytes| else l.start + l.length;
          if Structured(bytes) then Elements(bytes[..last], l.start, l.indefinite, level) else Some(last)
  {}

  lemma ElementsStep(bytes: Data, last: nat, i: nat, indefinite: bool, level: nat)
    requires i < last <= |bytes| && level <= MAX_RECURSION
    ensures Elements(bytes[..last], i, indefinite, level) ==
      if indefinite && bytes[i] == 0 then
        if i + 2 > last || bytes[i + 1] != 0 then None else Some(i + 2)
      else
        var n := Element(bytes[i..last], level + 1);
        if n.None? then None else Elements(bytes[..last], i + n.value, indefinite, level)
  {
    assert bytes[..last][i..] == bytes[i..last];
  }

  lemma ElementsDone(bytes: Data, indefinite: bool, level: nat)
    requires level <= MAX_RECURSION
    ensures Elements(bytes, |bytes|, indefinite, level) == Some(|bytes|)
  {}

  // ptls_asn1_validation
  method ValidateAll(bytes: Data) returns (error: Option<Error>, past: bool)
    ensures past <==> bytes == []
    ensures !past ==> (error.None? <==> Element(bytes, 0) == Some(|bytes|))
  {
    var decoded;
    decoded, error, past := Validate(bytes, 0, None);
    if error.None? && decoded < |bytes| {
      error := Some(ElementTooShort);
    }
  }

  // ---------------------------------------------------------------- encodings

  // An element as a tree, with the octets of its type and length; an open node has no length and ends with two zeros.
  datatype Tree =
    | Leaf(tag: Data, len: Data, body: Data)
    | Node(tag: Data, len: Data, children: seq<Tree>)
    | Open(tag: Data, children: seq<Tree>)

  function Encode(t: Tree): Data
    decreases t
  {
    match t
    case Leaf(tag, len, body) => tag + (len + body)
    case Node(tag, len, children) => tag + (len + EncodeAll(children))
    case Open(tag, children) => tag + [128] + EncodeAll(children) + [0, 0]
  }

  function EncodeAll(ts: seq<Tree>): Data
    decreases ts
  {
    if ts == [] then [] else Encode(ts[0]) + EncodeAll(ts[1..])
  }

  // Length octets for n bytes: one octet, or a count and a big-endian number, of any width. The long
  // form of zero is left out: it is refused where nothing follows it.
  predicate LengthForm(len: Data, n: nat)
  {
    || (|len| == 1 && n < 128 && len[0] as nat == n)
    || (|len| > 1 && len[0] as nat == 127 + |len| && n > 0 && Number(len[1..]) % WORD32 == n)
  }

  // The digits of a long type number, seven bits each, the last one below 128; number is what came before.
  predicate LongForm(digits: Data, number: nat)
  {
    && digits != [] && number <= 0x7fff_ffff
    && if digits[0] < 128 then |digits| == 1
       else LongForm(digits[1..], (number * 128 + digits[0] as nat - 128) % WORD32)
  }

  // Type octets: bit 6 of the first says whether there is structure, all of the lower five that digits follow.
  predicate TagForm(tag: Data, structured: bool)
  {
    && tag != []
    && (tag[0] as nat / 32 % 2 == 1 <==> structured)
    && if tag[0] as nat % 32 == 31 then LongForm(tag[1..], 0) else |tag| == 1
  }

  predicate Proper(t: Tree)
    decreases t
  {
    match t
    case Leaf(tag, len, body) => TagForm(tag, false) && LengthForm(len, |body|)
    case Node(tag, len, children) => TagForm(tag, true) && LengthForm(len, |EncodeAll(children)|) && AllProper(children)
    case Open(tag, children) => TagForm(tag, true) && AllProper(children) && forall c | c in children :: NotEnd(c)
  }

  // Not taken for the end of its parent
  predicate NotEnd(t: Tree) { t.tag != [] && t.tag[0] != 0 }

  predicate AllProper(ts: seq<Tree>)
    decreases ts
  {
    ts == [] || (Proper(ts[0]) && AllProper(ts[1..]))
  }

  // Levels that a tree takes
  function Depth(t: Tree): (r: nat)
    ensures r > 0
    decreases t
  {
    if t.Leaf? then 1 else 1 + Deepest(t.children)
  }

  function Deepest(ts: seq<Tree>): nat
    decreases ts
  {
    if ts == [] then 0
    else if Depth(ts[0]) > Deepest(ts[1..]) then Depth(ts[0]) else Deepest(ts[1..])
  }

  lemma {:induction false} LongTypeRead(bytes: Data, i: nat, digits: Data, number: nat)
    requires i + |digits| <= |bytes| && bytes[i..i + |digits|] == digits && LongForm(digits, number)
    ensures LongTypeEnd(bytes, i, number) == Some(i + |digits|)
    decreases |digits|
  {
    assert bytes[i] == digits[0];
    if digits[0] >= 128 {
      assert bytes[i + 1..i + |digits|] == digits[1..];
      LongTypeRead(bytes, i + 1, digits[1..], (number * 128 + digits[0] as nat - 128) % WORD32);
    }
  }

  lemma TagRead(tag: Data, rest: Data, structured: bool)
    requires TagForm(tag, structured)
    ensures TypeEnd(tag + rest) == Some(|tag|) && Structured(tag + rest) == structured
  {
    if tag[0] % 32 == 31 {
      assert (tag + rest)[1..|tag|] == tag[1..];
      LongTypeRead(tag + rest, 1, tag[1..], 0);
    }
  }

  lemma {:induction false} Number32Is(s: Data)
    ensures Number32(s) == Number(s) % WORD32
    decreases |s|
  {
    if s != [] {
      Number32Is(s[..|s| - 1]);
      var a, b := Number(s[..|s| - 1]), s[|s| - 1] as nat;
      assert (a % WORD32 * 256 + b) % WORD32 == (a * 256 + b) % WORD32 by {
        var q := a / WORD32;
        assert a * 256 + b == a % WORD32 * 256 + b + q * 256 * WORD32;
        Multiple(a % WORD32 * 256 + b, q * 256);
      }
    }
  }

  lemma Multiple(a: nat, q: nat)
    ensures (a + q * WORD32) % WORD32 == a % WORD32
    decreases q
  {
    if q != 0 {
      Multiple(a, q - 1);
      assert a + q * WORD32 == a + (q - 1) * WORD32 + WORD32;
    }
  }

  lemma LengthRead(bytes: Data, i: nat, len: Data, n: nat)
    requires LengthForm(len, n) && i + |len| + n <= |bytes| && bytes[i..i + |len|] == len
    ensures LengthAt(bytes, i) == Ok(Length(i + |len|, n, false))
  {
    hide Number32, Number;
    assert bytes[i] == len[0];
    if |len| > 1 {
      assert bytes[i + 1..i + |len|] == len[1..];
      Number32Is(len[1..]);
    }
  }

  // The long form of the length zero is read if and only if the input goes on.
  lemma LongZero(tag: Data, len: Data, rest: Data)
    requires |len| > 1 && len[0] as nat == 127 + |len| && Number(len[1..]) % WORD32 == 0
    ensures LengthAt(tag + len + rest, |tag|) ==
      if rest == [] then Err(MalformedLength) else Ok(Length(|tag| + |len|, 0, false))
  {
    hide Number32, Number;
    Number32Is(len[1..]);
    var bytes := tag + len + rest;
    assert bytes[|tag|] == len[0];
    assert bytes[|tag| + 1..|tag| + |len|] == len[1..];
  }

  // A header followed by its content is read back.
  lemma HeaderRead(tag: Data, len: Data, content: Data, rest: Data, structured: bool)
    requires TagForm(tag, structured) && LengthForm(len, |content|)
    ensures var bytes := tag + (len + content) + rest;
      && TypeEnd(bytes) == Some(|tag|) && Structured(bytes) == structured
      && LengthAt(bytes, |tag|) == Ok(Length(|tag| + |len|, |content|, false))
      && bytes[..|tag| + |len| + |content|] == tag + len + content
  {
    hide LengthForm, LengthAt, TypeEnd, Structured;
    var bytes := tag + (len + content) + rest;
    assert bytes == tag + (len + content + rest);
    TagRead(tag, len + content + rest, structured);
    assert bytes[|tag|..|tag| + |len|] == len;
    LengthRead(bytes, |tag|, len, |content|);
  }

  // The same where the length is left open
  lemma OpenHeaderRead(tag: Data, content: Data)
    requires TagForm(tag, true) && content != []
    ensures var bytes := tag + [128] + content;
      && TypeEnd(bytes) == Some(|tag|) && Structured(bytes)
      && LengthAt(bytes, |tag|) == Ok(Length(|tag| + 1, 0, true))
  {
    hide TypeEnd, Structured, TagForm;
    var bytes := tag + [128] + content;
    assert bytes == tag + ([128] + content);
    TagRead(tag, [128] + content, true);
    assert bytes[|tag|] == 128;
  }

  /** Every encoding, of definite length or not, is accepted and consumed exactly, whatever follows it, if and only if
      it is not nested too deep. */
  lemma {:induction false} EncodingAccepted(t: Tree, rest: Data, level: nat)
    requires Proper(t)
    ensures Encode(t) != []
    ensures Element(Encode(t) + rest, level) == if level + Depth(t) <= 33 then Some(|Encode(t)|)
      else None
    decreases t
  {
    hide LengthAt, TypeEnd, Structured, TagForm, LengthForm;
    assert t.tag != [] by { TagIsThere(t.tag, !t.Leaf?); }
    if t.Open? {
      OpenAccepted(t, rest, level);
    } else {
      var content := if t.Leaf? then t.body else EncodeAll(t.children);
      HeaderRead(t.tag, t.len, content, rest, t.Node?);
      if t.Node? && level <= MAX_RECURSION {
        ContentAccepted(t.tag + t.len, t.children, level);
      }
    }
  }

  lemma {:induction false} OpenAccepted(t: Tree, rest: Data, level: nat)
    requires Proper(t) && t.Open?
    ensures Encode(t) != []
    ensures Element(Encode(t) + rest, level) == if level + Depth(t) <= 33 then Some(|Encode(t)|)
      else None
    decreases t, 0
  {
    hide LengthAt, TypeEnd, Structured, TagForm, LengthForm;
    var content := EncodeAll(t.children) + ([0, 0] + rest);
    OpenHeaderRead(t.tag, content);
    var bytes := t.tag + [128] + content;
    assert Encode(t) + rest == bytes && bytes[..|bytes|] == bytes;
    if level <= MAX_RECURSION {
      OpenContentAccepted(t.tag + [128], t.children, rest, level);
    }
  }

  lemma TagIsThere(tag: Data, structured: bool)
    requires TagForm(tag, structured)
    ensures tag != []
  {}

  lemma {:induction false} ContentAccepted(before: Data, ts: seq<Tree>, level: nat)
    requires AllProper(ts) && level <= MAX_RECURSION
    ensures Elements(before + EncodeAll(ts), |before|, false, level)
         == if level + 1 + Deepest(ts) <= 33 then Some(|before| + |EncodeAll(ts)|) else None
    decreases ts
  {
    hide Proper, Element;
    if ts != [] {
      var h, tail := Encode(ts[0]), EncodeAll(ts[1..]);
      var bytes := before + EncodeAll(ts);
      EncodingAccepted(ts[0], tail, level + 1);
      assert bytes[|before|..] == h + tail;
      assert bytes == (before + h) + tail;
      ContentAccepted(before + h, ts[1..], level);
    }
  }

  // Up to the two zeros
  lemma {:induction false} OpenContentAccepted(before: Data, ts: seq<Tree>, rest: Data, level: nat)
    requires AllProper(ts) && (forall t | t in ts :: NotEnd(t)) && level <= MAX_RECURSION
    ensures Elements(before + (EncodeAll(ts) + ([0, 0] + rest)), |before|, true, level)
         == if level + 1 + Deepest(ts) <= 33 then Some(|before| + |EncodeAll(ts)| + 2) else None
    decreases ts
  {
    hide Proper, Element, Elements;
    var bytes := before + (EncodeAll(ts) + ([0, 0] + rest));
    assert bytes[..|bytes|] == bytes && bytes[|before|..|bytes|] == bytes[|before|..];
    ElementsStep(bytes, |bytes|, |before|, true, level);
    if ts == [] {
      assert EncodeAll(ts) + ([0, 0] + rest) == [0, 0] + rest;
      assert bytes[|before|] == 0 && bytes[|before| + 1] == 0;
    } else {
      var h, tail := Encode(ts[0]), EncodeAll(ts[1..]) + ([0, 0] + rest);
      EncodingAccepted(ts[0], tail, level + 1);
      assert ts[0] in ts;
      assert h[0] != 0 by { FirstByte(ts[0]); }
      assert bytes[|before|..] == h + tail && bytes[|before|] == h[0];
      assert bytes == (before + h) + tail;
      OpenContentAccepted(before + h, ts[1..], rest, level);
    }
  }

  lemma FirstByte(t: Tree)
    requires NotEnd(t)
    ensures Encode(t) != [] && Encode(t)[0] == t.tag[0]
  {}

  // ---------------------------------------------------------------- PKCS#8

  // A part of the input
  datatype Range = Range(index: nat, length: nat)
  {
    function End(): nat { index + length }

    function Of(bytes: Data): Data
      requires End() <= |bytes|
    {
      bytes[index..End()]
    }
  }

  // The content of the element at i with that type octet and a definite length, ending by max
  function Content(bytes: Data, max: nat, i: nat, kind: Octet): (r: Option<Range>)
    requires i <= max <= |bytes|
    ensures r.Some? ==> i < r.value.index && r.value.End() <= max
  {
    if i == max || bytes[i] != kind then None
    else
      var l := LengthAt(bytes[..max], i + 1);
      if l.Ok? && !l.value.indefinite then Some(Range(l.value.start, l.value.length)) else None
  }

  // ptls_asn1_get_expected_type_and_length for DER: no indefinite lengths. max bounds the element.
  method Expect(bytes: Data, max: nat, i: nat, kind: Octet)
    returns (index: nat, length: nat, last: nat, error: Option<Error>)
    requires i <= max <= |bytes|
    ensures i <= index <= max
    ensures error.None? <==> Content(bytes, max, i, kind).Some?
    ensures error.None? ==> Content(bytes, max, i, kind) == Some(Range(index, length)) && last == index + length
  {
    index, length, last, error := i, 0, 0, None;
    if i >= max {
      return i, 0, 0, Some(IncorrectSyntax);
    }
    if bytes[i] != kind {
      return i, 0, 0, Some(IncorrectSyntax);
    }
    var indefinite;
    index, length, indefinite, last, error := ReadLength(bytes[..max], i + 1, None);
    if indefinite {
      error := Some(IndefiniteLength);
    }
  }

  // ptls_asn1_pkcs8_private_key_t; no parameters are (0, 0).
  datatype PrivateKey = PrivateKey(algorithm: Range, parameters: Range, key: Range)

  // The ranges follow each other within the input, and the key ends it.
  predicate Ordered(k: PrivateKey, n: nat)
  {
    && 0 < k.algorithm.index
    && (k.parameters == Range(0, 0) || (k.algorithm.End() == k.parameters.index && k.parameters.length > 0))
    && k.algorithm.End() < k.key.index
    && k.parameters.End() < k.key.index
    && k.key.End() == n
  }

  // The object identifier and parameters of the algorithm identifier whose content is outer
  function Algorithm(bytes: Data, outer: Range): (r: Option<(Range, Range)>)
    requires outer.End() <= |bytes|
    ensures r.Some? ==>
      var (oid, parameters) := r.value;
      && outer.index < oid.index
      && (if parameters == Range(0, 0) then oid.End() == outer.End()
          else oid.End() == parameters.index && parameters.length > 0 && parameters.End() == outer.End())
  {
    var oid := Content(bytes, outer.End(), outer.index, 0x06);
    if oid.None? then None
    else if oid.value.End() == outer.End() then Some((oid.value, Range(0, 0)))
    else
      var n := Element(bytes[oid.value.End()..outer.End()], 2);
      if n.None? || oid.value.End() + n.value % WORD32 != outer.End() then None
      else Some((oid.value, Range(oid.value.End(), n.value % WORD32)))
  }

  const VERSION: Data := [2, 1, 0]

  /** What a private key file holds: a sequence of the version, the algorithm identifier and an octet
      string, which fills the input. The ranges are in bounds, in order and disjoint. */
  function KeyIn(bytes: Data): (r: Option<PrivateKey>)
    ensures r.Some? ==> Ordered(r.value, |bytes|)
  {
    var file := Content(bytes, |bytes|, 0, 0x30);
    if file.None? || file.value.End() != |bytes| || !(VERSION <= bytes[file.value.index..]) then None
    else
      var outer := Content(bytes, |bytes|, file.value.index + 3, 0x30);
      if outer.None? then None
      else
        var a := Algorithm(bytes, outer.value);
        if a.None? then None
        else
          var key := Content(bytes, |bytes|, outer.value.End(), 0x04);
          if key.None? || key.value.End() != |bytes| then None else Some(PrivateKey(a.value.0, a.value.1, key.value))
  }

  // The algorithm identifier: an object identifier, then any parameters up to the end of the sequence.
  method DecodeAlgorithm(bytes: Data, i: nat)
    returns (index: nat, algorithm: Range, parameters: Range, error: Option<Error>)
    requires i <= |bytes|
    ensures index <= |bytes|
    ensures var outer := Content(bytes, |bytes|, i, 0x30);
      && (error.None? <==> outer.Some? && Algorithm(bytes, outer.value).Some?)
      && (error.None? ==> index == outer.value.End() && Algorithm(bytes, outer.value) == Some((algorithm, parameters)))
  {
    hide Content, Element;
    algorithm, parameters := Range(0, 0), Range(0, 0);
    var length, last;
    index, length, last, error := Expect(bytes, |bytes|, i, 0x30);
    if error.Some? {
      return;
    }
    var oid, oidLast;
    index, oid, oidLast, error := Expect(bytes, last, index, 0x06);
    if error.Some? {
      return;
    }
    algorithm := Range(index, oid);
    index := index + oid;
    if last > index {
      var n, past;
      n, error, past := Validate(bytes[index..last], 2, None);
      parameters := Range(index, n % WORD32);
      if error.None? {
        index := index + n % WORD32;
      }
    }
    if error.None? && index != last {
      error := Some(ElementTooShort);
    }
  }

  // With a log the key is decoded once more to print it: an element, of which an empty key has not even
  // the type octet.
  predicate Printable(bytes: Data, key: Range)
    requires key.End() <= |bytes|
  {
    key.length > 0 && Element(key.Of(bytes), 1).Some?
  }

  /** ptls_minicrypto_asn1_decode_private_key succeeds exactly on the inputs that hold a key, and with a
      log one that is itself an element; it consumes them whole and returns the ranges of that key. It
      reads past the input exactly if there is a log and the key is empty. */
  method DecodePrivateKey(bytes: Data, logged: bool)
    returns (index: nat, key: PrivateKey, error: Option<Error>, past: bool)
    ensures index <= |bytes|
    ensures past <==> logged && KeyIn(bytes).Some? && KeyIn(bytes).value.key.length == 0
    ensures !past ==> (error.None? <==> KeyIn(bytes).Some? && (logged ==> Printable(bytes, KeyIn(bytes).value.key)))
    ensures error.None? ==> index == |bytes| && key == KeyIn(bytes).value
  {
    hide Content, Algorithm, Element;
    key, past := PrivateKey(Range(0, 0), Range(0, 0), Range(0, 0)), false;
    var length, last;
    index, length, last, error := Expect(bytes, |bytes|, 0, 0x30);
    if error.None? && last != |bytes| {
      error := Some(ExcessiveLength);
    }
    if error.Some? {
      return;
    }
    VersionAt(bytes, index);
    if index + 3 > |bytes| || bytes[index] != 2 || bytes[index + 1] != 1 || bytes[index + 2] != 0 {
      error := Some(IncorrectVersion);
      return;
    }
    index := index + 3;
    var algorithm, parameters;
    index, algorithm, parameters, error := DecodeAlgorithm(bytes, index);
    if error.Some? {
      return;
    }
    var size, end;
    index, size, end, error := Expect(bytes, last, index, 0x04);
    if error.Some? {
      return;
    }
    key := PrivateKey(algorithm, parameters, Range(index, size));
    index := index + size;
    if logged {
      error, past := PrintKey(bytes, key.key);
    }
    if error.None? && index != last {
      error := Some(ElementTooShort);
    }
  }

  // The validation for the log. An empty key has no type octet: the byte after it is read instead.
  method PrintKey(bytes: Data, key: Range) returns (error: Option<Error>, past: bool)
    requires key.End() <= |bytes|
    ensures past <==> key.length == 0 && key.index == |bytes|
    ensures key.length > 0 ==> (error.None? <==> Printable(bytes, key))
  {
    var n;
    n, error, past := Validate(key.Of(bytes), 1, None);
    if past && key.index < |bytes| {
      past := false;
      error := if bytes[key.index] % 32 == 31 then Some(MalformedType) else None;
    }
  }

  lemma VersionAt(bytes: Data, i: nat)
    requires i <= |bytes|
    ensures VERSION <= bytes[i..] <==> i + 3 <= |bytes| && bytes[i] == 2 && bytes[i + 1] == 1 && bytes[i + 2] == 0
  {}

  // A key file, with the octets of each length
  datatype KeyFile = KeyFile(
    len: Data, outerLen: Data, oidLen: Data, oid: Data, parameters: Option<Tree>, keyLen: Data, key: Data)
  {
    function Parameters(): Data { if parameters.Some? then Encode(parameters.value) else [] }

    function Identifier(): Data { [0x06] + oidLen + oid + Parameters() }

    function Outer(): Data { [0x30] + outerLen + Identifier() }

    function Octets(): Data { [0x04] + keyLen + key }

    function Body(): Data { VERSION + Outer() + Octets() }

    function Bytes(): Data { [0x30] + len + Body() }

    predicate Valid()
    {
      && LengthForm(len, |Body()|) && LengthForm(outerLen, |Identifier()|)
      && LengthForm(oidLen, |oid|) && LengthForm(keyLen, |key|)
      && (parameters.Some? ==> Proper(parameters.value) && Depth(parameters.value) < MAX_RECURSION)
    }
  }

  // An element between other bytes is found.
  lemma ContentRead(bytes: Data, max: nat, i: nat, kind: Octet, len: Data, content: Data)
    requires i + 1 + |len| + |content| <= max <= |bytes| && LengthForm(len, |content|)
    requires bytes[i..i + 1 + |len| + |content|] == [kind] + len + content
    ensures Content(bytes, max, i, kind) == Some(Range(i + 1 + |len|, |content|))
    ensures bytes[i + 1 + |len|..i + 1 + |len| + |content|] == content
  {
    hide LengthForm, LengthAt;
    var all := bytes[i..i + 1 + |len| + |content|];
    assert bytes[i] == all[0];
    assert all[1..1 + |len|] == len && all[1 + |len|..] == content;
    Within(bytes, i, all, 1, len);
    Within(bytes, i, all, 1 + |len|, content);
    assert bytes[..max][i + 1..i + 1 + |len|] == bytes[i + 1..i + 1 + |len|];
    LengthRead(bytes[..max], i + 1, len, |content|);
  }

  // Part of a part
  lemma Within(bytes: Data, i: nat, whole: Data, j: nat, part: Data)
    requires i + |whole| <= |bytes| && bytes[i..i + |whole|] == whole
    requires j + |part| <= |whole| && whole[j..j + |part|] == part
    ensures bytes[i + j..i + j + |part|] == part
  {
    forall k | 0 <= k < |part| ensures bytes[i + j..i + j + |part|][k] == part[k] {
      assert part[k] == whole[j..j + |part|][k] == whole[j + k];
      assert whole[j + k] == bytes[i..i + |whole|][j + k];
    }
  }

  lemma LengthFits(len: Data, n: nat)
    requires LengthForm(len, n)
    ensures n < WORD32
  {}

  // The ranges of a key are those of a file's parts.
  predicate Holds(bytes: Data, k: PrivateKey, f: KeyFile)
  {
    && k.algorithm.End() <= |bytes| && k.parameters.End() <= |bytes| && k.key.End() <= |bytes|
    && k.algorithm.Of(bytes) == f.oid
    && k.key.Of(bytes) == f.key
    && k.parameters.Of(bytes) == f.Parameters()
    && (k.parameters == Range(0, 0) <==> f.parameters.None?)
  }

  /** Every key file is decoded to its object identifier, parameters and key. */
  lemma KeyDecoded(f: KeyFile)
    requires f.Valid()
    ensures KeyIn(f.Bytes()).Some? && Holds(f.Bytes(), KeyIn(f.Bytes()).value, f)
  {
    hide LengthForm, TagForm, LongForm, Content, Algorithm, Proper, KeyIn, Depth, Encode, EncodeAll, Element, Elements,
      LengthAt, KeyFile.Bytes, KeyFile.Body, KeyFile.Identifier, KeyFile.Parameters, KeyFile.Valid;
    var file, outer, key := FileContents(f);
    AlgorithmRead(f, f.Bytes(), outer);
    KeyParts(f.Bytes(), file, outer, key);
  }

  /** A file with an empty key: it is decoded without a log, and with one the input does not suffice. */
  lemma EmptyKey()
    ensures var bytes := [0x30, 9, 2, 1, 0, 0x30, 2, 6, 0, 4, 0];
      KeyIn(bytes).Some? && KeyIn(bytes).value.key.length == 0 && KeyIn(bytes).value.key.index == |bytes|
  {
    hide Content, Algorithm, KeyIn;
    var f := KeyFile([9], [2], [0], [], None, [0], []);
    assert f.Identifier() == [6, 0] && f.Outer() == [0x30, 2, 6, 0] && f.Octets() == [4, 0];
    assert f.Bytes() == [0x30, 9, 2, 1, 0, 0x30, 2, 6, 0, 4, 0];
    KeyDecoded(f);
  }

  lemma FileContents(f: KeyFile) returns (file: Range, outer: Range, key: Range)
    requires f.Valid()
    ensures var bytes := f.Bytes();
      && Content(bytes, |bytes|, 0, 0x30) == Some(file) && file.End() == |bytes| && VERSION <= bytes[file.index..]
      && Content(bytes, |bytes|, file.index + 3, 0x30) == Some(outer) && outer.Of(bytes) == f.Identifier()
      && Content(bytes, |bytes|, outer.End(), 0x04) == Some(key) && key.End() == |bytes| && key.Of(bytes) == f.key
  {
    hide LengthForm, Content, Proper, Depth, KeyFile.Bytes, KeyFile.Body, KeyFile.Identifier, KeyFile.Parameters;
    var bytes, size := f.Bytes(), |f.Outer()|;
    var at := 1 + |f.len|;
    FileParts(f);
    ContentRead(bytes, |bytes|, 0, 0x30, f.len, f.Body());
    ContentRead(bytes, |bytes|, at + 3, 0x30, f.outerLen, f.Identifier());
    ContentRead(bytes, |bytes|, at + 3 + size, 0x04, f.keyLen, f.key);
    file, outer := Range(at, |f.Body()|), Range(at + 3 + 1 + |f.outerLen|, |f.Identifier()|);
    key := Range(at + 3 + size + 1 + |f.keyLen|, |f.key|);
  }

  // Where the parts of a file are
  lemma FileParts(f: KeyFile)
    ensures var bytes, outer, key := f.Bytes(), f.Outer(), f.Octets();
      var at := 1 + |f.len|;
      && |bytes| == at + |f.Body()| == at + 3 + |outer| + |key|
      && VERSION <= bytes[at..]
      && bytes[0..|bytes|] == [0x30] + f.len + f.Body()
      && bytes[at + 3..at + 3 + |outer|] == outer
      && bytes[at + 3 + |outer|..at + 3 + |outer| + |key|] == key
  {
    var bytes, body, outer, key := f.Bytes(), f.Body(), f.Outer(), f.Octets();
    var at := 1 + |f.len|;
    assert bytes[at..at + |body|] == body;
    assert body[0..3] == VERSION && body[3..3 + |outer|] == outer && body[3 + |outer|..3 + |outer| + |key|] == key;
    Within(bytes, at, body, 3, outer);
    Within(bytes, at, body, 3 + |outer|, key);
  }

  lemma KeyParts(bytes: Data, file: Range, outer: Range, key: Range)
    requires Content(bytes, |bytes|, 0, 0x30) == Some(file) && file.End() == |bytes| && VERSION <= bytes[file.index..]
    requires Content(bytes, |bytes|, file.index + 3, 0x30) == Some(outer) && Algorithm(bytes, outer).Some?
    requires Content(bytes, |bytes|, outer.End(), 0x04) == Some(key) && key.End() == |bytes|
    ensures KeyIn(bytes) == Some(PrivateKey(Algorithm(bytes, outer).value.0, Algorithm(bytes, outer).value.1, key))
  {
    hide Content, Algorithm;
  }

  lemma AlgorithmRead(f: KeyFile, bytes: Data, outer: Range)
    requires f.Valid() && outer.End() <= |bytes| && outer.length == |f.Identifier()|
      && outer.Of(bytes) == f.Identifier()
    ensures var a := Algorithm(bytes, outer);
      && a.Some?
      && a.value.0.Of(bytes) == f.oid
      && a.value.1.Of(bytes) == f.Parameters()
      && (a.value.1 == Range(0, 0) <==> f.parameters.None?)
  {
    hide LengthForm, Content, Element, Encode, Proper, Depth;
    var identifier, oid, parameters := f.Identifier(), [0x06] + f.oidLen + f.oid, f.Parameters();
    LengthFits(f.outerLen, |identifier|);
    assert identifier[..|oid|] == oid && identifier[|oid|..] == parameters;
    Within(bytes, outer.index, identifier, 0, oid);
    ContentRead(bytes, outer.End(), outer.index, 0x06, f.oidLen, f.oid);
    Within(bytes, outer.index, identifier, |oid|, parameters);
    if f.parameters.Some? {
      EncodingAccepted(f.parameters.value, [], 2);
      assert parameters + [] == parameters;
    }
  }
}
