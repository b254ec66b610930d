/** Cutting the byte stream into records and handshake bytes into messages: the incremental
    parsers of lib/picotls.c do not depend on how their input is segmented. */
module Records {
  import opened Results
  import opened Wire

  const CHANGE_CIPHER_SPEC: Octet := 20
  const ALERT: Octet := 21
  const HANDSHAKE: Octet := 22
  const APPDATA: Octet := 23

  const MAX_ENCRYPTED: nat := MAX_PLAINTEXT + 256

  // ---------------------------------------------------------------- records of a whole stream

  predicate KnownType(t: Octet) { t == CHANGE_CIPHER_SPEC || t == ALERT || t == HANDSHAKE || t == APPDATA }

  function BodyLength(s: Data): nat
    requires |s| >= 5
  {
    Number16(s[3..5])
  }

  // parse_record_header
  predicate HeaderOk(s: Data)
    requires |s| >= 5
  {
    BodyLength(s) <= if s[0] == APPDATA then MAX_ENCRYPTED else MAX_PLAINTEXT
  }

  // What the front of a stream is: a record, the start of one, or no record at all.
  datatype Outcome = Record(bytes: Data) | More | Bad

  function Front(s: Data): (r: Outcome)
    requires s != []
    ensures r.Record? ==> |r.bytes| >= 5 && r.bytes <= s
  {
    if !KnownType(s[0]) then Bad
    else if |s| < 5 then More
    else if !HeaderOk(s) then Bad
    else if |s| < 5 + BodyLength(s) then More
    else Record(s[..5 + BodyLength(s)])
  }

  datatype Stream = Stream(records: seq<Data>, rest: Data, bad: bool)

  // All the records of a stream, and the incomplete tail or an error.
  function Deframe(s: Data): Stream
    decreases |s|
  {
    if s == [] then Stream([], [], false)
    else
      match Front(s)
      case Bad => Stream([], [], true)
      case More => Stream([], s, false)
      case Record(r) =>
        var t := Deframe(s[|r|..]);
        t.(records := [r] + t.records)
  }

  // Records that were cut off before the rest was looked at.
  function After(records: seq<Data>, t: Stream): Stream
  {
    t.(records := records + t.records)
  }

  // More input does not change what the front is, once it is known.
  lemma FrontStable(a: Data, b: Data)
    requires a != []
    ensures Front(a).Bad? ==> Front(a + b).Bad?
    ensures Front(a).Record? ==> Front(a + b) == Front(a)
  {
    hide Number16;
    assert (a + b)[0] == a[0];
    if |a| >= 5 {
      assert (a + b)[3..5] == a[3..5];
      if |a| >= 5 + BodyLength(a) {
        assert (a + b)[..5 + BodyLength(a)] == a[..5 + BodyLength(a)];
      }
    }
  }

  /** Taking records off a prefix and going on with what is left is taking records off the whole. */
  lemma {:induction false} DeframeAppend(a: Data, b: Data)
    ensures Deframe(a + b) ==
      if Deframe(a).bad then Stream(Deframe(a).records, [], true)
      else After(Deframe(a).records, Deframe(Deframe(a).rest + b))
    decreases |a|
  {
    hide Front;
    if a == [] {
      assert a + b == b && [] + b == b;
      assert After([], Deframe(b)) == Deframe(b);
    } else {
      FrontStable(a, b);
      match Front(a)
      case Bad =>
      case More => assert After([], Deframe(a + b)) == Deframe(a + b);
      case Record(r) =>
        FrontPrefix(a);
        assert (a + b)[|r|..] == a[|r|..] + b;
        DeframeAppend(a[|r|..], b);
        var d := Deframe(a[|r|..]);
        var t := Deframe(d.rest + b);
        assert [r] + (d.records + t.records) == [r] + d.records + t.records;
    }
  }

  lemma FrontPrefix(s: Data)
    requires s != []
    ensures Front(s).Record? ==> 5 <= |Front(s).bytes| <= |s|
  {}

  // Type, version, the length of the fragment in two bytes, the fragment
  function Framed(kind: Octet, version: (Octet, Octet), body: Data): Data
  {
    [kind, version.0, version.1] + Be16(|body|) + body
  }

  // The limit on the length of a fragment of this type
  function Limit(kind: Octet): nat { if kind == 23 then 16640 else 16384 }

  ghost predicate IsRecord(r: Data)
  {
    exists kind, version, body ::
      20 <= kind <= 23 && |body| <= Limit(kind) && r == Framed(kind, version, body)
  }

  // Bytes that a record can start with, and not a whole one
  predicate IsPartial(s: Data)
  {
    s != [] ==>
      && 20 <= s[0] <= 23
      && (|s| >= 5 ==> |s| - 5 < Number(s[3..5]) <= Limit(s[0]))
  }

  predicate NoRecord(s: Data)
  {
    && s != []
    && (!(20 <= s[0] <= 23) || (|s| >= 5 && Number(s[3..5]) > Limit(s[0])))
  }

  lemma BodyLengthIs(s: Data)
    requires |s| >= 5
    ensures BodyLength(s) == Number(s[3..5])
  {
    BigEndian(0, s[3..5]);
    assert s[3..5][..2] == s[3..5];
  }

  lemma RecordIsFront(r: Data, rest: Data)
    requires IsRecord(r)
    ensures |r| >= 5 && Front(r + rest) == Record(r)
  {
    hide Number16, Be16;
    var kind, version, body :|
      20 <= kind <= 23 && |body| <= Limit(kind) && r == Framed(kind, version, body);
    var s := r + rest;
    assert s[3..5] == Be16(|body|);
    Number16Of(|body|);
    assert s[..5 + |body|] == r;
  }

  lemma FrontIs(s: Data)
    requires s != []
    ensures Front(s).Record? ==> IsRecord(Front(s).bytes)
    ensures Front(s).More? <==> IsPartial(s)
    ensures Front(s).Bad? <==> NoRecord(s)
  {
    hide Number16, Be16, Number;
    if |s| >= 5 {
      BodyLengthIs(s);
      Be16OfNumber(s[3..5]);
      var n := BodyLength(s);
      if Front(s).Record? {
        var body := s[5..5 + n];
        assert |body| == n && s[..5 + n] == [s[0], s[1], s[2]] + s[3..5] + body;
        assert s[..5 + n] == Framed(s[0], (s[1], s[2]), body);
      }
    }
  }

  /** Whatever records are sent, and however much of one more, exactly they are found. */
  lemma {:induction false} DeframeFinds(rs: seq<Data>, t: Data)
    requires (forall r | r in rs :: IsRecord(r)) && (IsPartial(t) || NoRecord(t))
    ensures Deframe(Concat(rs) + t) == Stream(rs, if IsPartial(t) then t else [], NoRecord(t))
    decreases |rs|
  {
    hide IsRecord, IsPartial, NoRecord, Front;
    if rs == [] {
      assert Concat(rs) + t == t;
      FrontEmpty(t);
      if t != [] {
        FrontIs(t);
      }
    } else {
      var s := Concat(rs) + t;
      var rest := Concat(rs[1..]) + t;
      assert rs[0] in rs && s == rs[0] + rest;
      RecordIsFront(rs[0], rest);
      assert s[|rs[0]|..] == rest;
      DeframeFinds(rs[1..], t);
      assert [rs[0]] + rs[1..] == rs;
    }
  }

  lemma FrontEmpty(t: Data)
    ensures t == [] ==> IsPartial(t) && !NoRecord(t)
    ensures !(IsPartial(t) && NoRecord(t))
  {}

  // The bytes are those of the records and of part of one more, or of none.
  ghost predicate Exact(s: Data, d: Stream)
  {
    && (forall r | r in d.records :: IsRecord(r))
    && var n := |Concat(d.records)|;
       && n <= |s|
       && s[..n] == Concat(d.records)
       && (if d.bad then NoRecord(s[n..]) else IsPartial(d.rest) && s[n..] == d.rest)
  }

  lemma ExactNext(r: Data, t: Data, e: Stream)
    requires IsRecord(r) && Exact(t, e)
    ensures Exact(r + t, After([r], e))
  {
    hide IsRecord, IsPartial, NoRecord;
    var rs := [r] + e.records;
    assert rs[0] == r && rs[1..] == e.records;
    assert Concat(rs) == r + Concat(e.records);
    var n := |Concat(e.records)|;
    assert (r + t)[..|r| + n] == r + t[..n] && (r + t)[|r| + n..] == t[n..];
  }

  /** Nothing else is found. */
  lemma {:induction false} DeframeIsExact(s: Data)
    ensures Exact(s, Deframe(s))
    decreases |s|
  {
    hide IsRecord, IsPartial, NoRecord, Front;
    assert s[..0] == [] && s[0..] == s;
    FrontEmpty(s);
    if s != [] {
      FrontIs(s);
      if Front(s).Record? {
        var r := Front(s).bytes;
        DeframeIsExact(s[|r|..]);
        ExactNext(r, s[|r|..], Deframe(s[|r|..]));
        assert s == r + s[|r|..];
      }
    }
  }

  // ---------------------------------------------------------------- the incremental parser

  datatype Parsed = Complete(bytes: Data) | InProgress | Malformed

  class RecordReader {
    // recvbuf.rec, empty when it is not allocated
    var buf: Data

    ghost predicate Valid()
      reads this
    {
      buf != [] ==> Front(buf).More?
    }

    constructor ()
      ensures Valid() && buf == []
    {
      buf := [];
    }

    // The slow path fills the header byte by byte.
    method FillHeader(src: Data) returns (consumed: nat)
      requires |buf| < 5
      modifies this
      ensures consumed <= |src| && buf == old(buf) + src[..consumed]
      ensures |buf| == 5 || (|buf| < 5 && consumed == |src|)
    {
      consumed := 0;
      while |buf| < 5
        invariant consumed <= |src| && |buf| <= 5
        invariant buf == old(buf) + src[..consumed]
        modifies this
        decreases 5 - |buf|
      {
        if consumed == |src| {
          return;
        }
        assert src[..consumed + 1] == src[..consumed] + [src[consumed]];
        buf := buf + [src[consumed]];
        consumed := consumed + 1;
      }
    }

    // With the header in place, the slow path fills the fragment.
    method FillFragment(src: Data, start: nat) returns (r: Parsed, consumed: nat)
      requires |buf| >= 5 && start <= |src| && KnownType(buf[0])
      requires HeaderOk(buf) ==> |buf| <= 5 + BodyLength(buf)
      modifies this
      ensures start <= consumed <= |src|
      ensures var all := old(buf) + src[start..];
        match Front(all)
        case Record(x) => r == Complete(x) && |x| == |old(buf)| + (consumed - start)
        case More => r == InProgress && consumed == |src| && buf == all
        case Bad => r == Malformed && consumed == |src|
    {
      hide Number16;
      ghost var all := buf + src[start..];
      assert all[3..5] == buf[3..5] && all[0] == buf[0];
      if !HeaderOk(buf) {
        return Malformed, |src|;
      }
      var length := 5 + BodyLength(buf);
      var add := length - |buf|;
      if add > |src| - start {
        add := |src| - start;
      }
      buf := buf + src[start..start + add];
      consumed := start + add;
      assert src[start..][..add] == src[start..start + add];
      assert buf == all[..|buf|];
      r := if |buf| == length then Complete(buf) else InProgress;
    }

    // parse_record: fast path when nothing is buffered, else fill the header, then the fragment.
    method ParseRecord(src: Data) returns (r: Parsed, consumed: nat)
      requires Valid() && src != []
      modifies this
      ensures consumed <= |src|
      ensures match Front(old(buf) + src)
        case Record(x) => r == Complete(x) && |x| == |old(buf)| + consumed
        case More => r == InProgress && consumed == |src| && buf == old(buf) + src
        case Bad => r == Malformed && consumed == |src|
    {
      hide Number16;
      ghost var all := buf + src;
      if buf == [] {
        assert all == src;
        if !KnownType(src[0]) {
          return Malformed, |src|;
        }
        if |src| >= 5 {
          if !HeaderOk(src) {
            return Malformed, |src|;
          }
          if 5 + BodyLength(src) <= |src| {
            return Complete(src[..5 + BodyLength(src)]), 5 + BodyLength(src);
          }
        }
      }
      consumed := 0;
      if |buf| < 5 {
        consumed := FillHeader(src);
        assert buf == all[..|buf|];
        if |buf| < 5 {
          assert src[..consumed] == src;
          return InProgress, consumed;
        }
      }
      assert buf + src[consumed..] == all;
      r, consumed := FillFragment(src, consumed);
    }

    // The loops of ptls_handshake and ptls_receive over one input; each record is disposed of
    // once it is handled.
    method Feed(src: Data) returns (records: seq<Data>, bad: bool)
      requires Valid()
      modifies this
      ensures !bad ==> Valid()
      ensures bad == Deframe(old(buf) + src).bad
      ensures records == Deframe(old(buf) + src).records
      ensures !bad ==> buf == Deframe(old(buf) + src).rest
    {
      hide Front, Deframe;
      records, bad := [], false;
      var i := 0;
      ghost var all := buf + src;
      assert src[0..] == src;
      assert After([], Deframe(all)) == Deframe(all);
      while i != |src|
        invariant i <= |src| && Valid()
        invariant Deframe(all) == After(records, Deframe(buf + src[i..]))
        decreases |src| - i
      {
        ghost var left := buf + src[i..];
        DeframeStep(records, left);
        FrontPrefix(left);
        MoreIsShort(buf, src[i..]);
        var r, n := ParseRecord(src[i..]);
        match r {
          case Malformed =>
            return records, true;
          case InProgress =>
            assert src[i + n..] == [] && buf + src[i + n..] == left;
          case Complete(x) =>
            assert left[|x|..] == src[i + n..];
            buf := [];
            assert [] + src[i + n..] == src[i + n..];
            records := records + [x];
        }
        i := i + n;
      }
      assert src[i..] == [] && buf + [] == buf;
      Unfinished(buf);
      assert records + [] == records;
    }
  }

  lemma DeframeStep(records: seq<Data>, s: Data)
    requires s != []
    ensures match Front(s)
      case Bad => After(records, Deframe(s)) == Stream(records, [], true)
      case More => Deframe(s) == Stream([], s, false)
      case Record(x) => |x| <= |s| && After(records, Deframe(s)) == After(records + [x], Deframe(s[|x|..]))
  {
    hide Front;
    FrontPrefix(s);
    match Front(s)
    case Bad => assert records + [] == records;
    case More =>
    case Record(x) =>
      var t := Deframe(s[|x|..]);
      assert records + ([x] + t.records) == records + [x] + t.records;
  }

  // An incomplete record is shorter than the complete one.
  lemma MoreIsShort(a: Data, b: Data)
    requires a + b != [] && (a != [] ==> Front(a).More?)
    ensures Front(a + b).Record? ==> |Front(a + b).bytes| > |a|
  {
    hide Number16;
    if |a| >= 5 {
      assert (a + b)[3..5] == a[3..5] && (a + b)[0] == a[0];
    }
  }

  lemma Unfinished(s: Data)
    requires s != [] ==> Front(s).More?
    ensures Deframe(s) == Stream([], s, false)
  {}

  // ---------------------------------------------------------------- any segmentation

  /** However the stream is cut into inputs, the records, the error and the tail kept for later are
      those of the whole stream. */
  method FeedAll(reader: RecordReader, chunks: seq<Data>) returns (records: seq<Data>, bad: bool)
    requires reader.Valid() && reader.buf == []
    modifies reader
    ensures records == Deframe(Concat(chunks)).records && bad == Deframe(Concat(chunks)).bad
    ensures !bad ==> reader.Valid() && reader.buf == Deframe(Concat(chunks)).rest
  {
    records, bad := [], false;
    var i := 0;
    assert chunks[..0] == [];
    while i != |chunks|
      invariant i <= |chunks| && reader.Valid()
      invariant Deframe(Concat(chunks[..i])) == Stream(records, reader.buf, false)
    {
      ghost var done := Concat(chunks[..i]);
      ConcatNext(chunks, i);
      DeframeAppend(done, chunks[i]);
      var rs, b := reader.Feed(chunks[i]);
      records := records + rs;
      if b {
        assert chunks == chunks[..i + 1] + chunks[i + 1..];
        ConcatAppend(chunks[..i + 1], chunks[i + 1..]);
        DeframeAppend(Concat(chunks[..i + 1]), Concat(chunks[i + 1..]));
        return records, true;
      }
      i := i + 1;
    }
    assert chunks[..i] == chunks;
  }

  // ---------------------------------------------------------------- handshake messages

  // Length of the message at the front, header included
  function MessageLength(s: Data): (r: nat)
    requires |s| >= 4
    ensures r >= 4
  {
    4 + Number24(s[1..4])
  }

  datatype Split = Split(messages: seq<Data>, rest: Data)

  // All the messages of a handshake byte stream, and the incomplete tail.
  function SplitMessages(s: Data): Split
    decreases |s|
  {
    if |s| < 4 || |s| < MessageLength(s) then Split([], s)
    else
      var n := MessageLength(s);
      var t := SplitMessages(s[n..]);
      t.(messages := [s[..n]] + t.messages)
  }

  function AfterMessages(ms: seq<Data>, t: Split): Split { t.(messages := ms + t.messages) }

  lemma {:induction false} SplitAppend(a: Data, b: Data)
    ensures SplitMessages(a + b) == AfterMessages(SplitMessages(a).messages, SplitMessages(SplitMessages(a).rest + b))
    decreases |a|
  {
    hide Number24;
    if |a| < 4 || |a| < MessageLength(a) {
      assert AfterMessages([], SplitMessages(a + b)) == SplitMessages(a + b);
    } else {
      var n := MessageLength(a);
      assert (a + b)[1..4] == a[1..4];
      assert (a + b)[..n] == a[..n] && (a + b)[n..] == a[n..] + b;
      SplitAppend(a[n..], b);
      var d := SplitMessages(a[n..]);
      var t := SplitMessages(d.rest + b);
      assert [a[..n]] + (d.messages + t.messages) == [a[..n]] + d.messages + t.messages;
    }
  }

  // A type, the length of the body in three bytes, the body
  ghost predicate IsMessage(m: Data)
  {
    exists kind, body :: |body| < 0x100_0000 && m == Message(kind, body)
  }

  ghost predicate Incomplete(t: Data)
  {
    exists kind, body :: |body| < 0x100_0000 && t < Message(kind, body)
  }

  lemma MessageLengthOf(kind: Octet, body: Data, s: Data)
    requires |body| < 0x100_0000 && |s| >= 4 && (s <= Message(kind, body) || Message(kind, body) <= s)
    ensures MessageLength(s) == 4 + |body|
  {
    hide Number24, Be24;
    var m := Message(kind, body);
    assert m[1..4] == Be24(|body|);
    assert s[1..4] == m[1..4];
    Number24Of(|body|);
  }

  lemma MessageIsFront(m: Data, rest: Data)
    requires IsMessage(m)
    ensures |m| >= 4 && MessageLength(m + rest) == |m|
  {
    hide Number24, Be24, MessageLength;
    var kind, body :| |body| < 0x100_0000 && m == Message(kind, body);
    MessageLengthOf(kind, body, m + rest);
  }

  lemma IncompleteIsTail(t: Data)
    requires Incomplete(t)
    ensures SplitMessages(t) == Split([], t)
  {
    hide Number24, Be24, MessageLength;
    var kind, body :| |body| < 0x100_0000 && t < Message(kind, body);
    if |t| >= 4 {
      MessageLengthOf(kind, body, t);
    }
  }

  /** Whatever messages are sent, and however much of one more, exactly they are found. */
  lemma {:induction false} SplitFinds(ms: seq<Data>, t: Data)
    requires (forall m | m in ms :: IsMessage(m)) && Incomplete(t)
    ensures SplitMessages(Concat(ms) + t) == Split(ms, t)
    decreases |ms|
  {
    hide IsMessage, Incomplete, MessageLength;
    if ms == [] {
      assert Concat(ms) + t == t;
      IncompleteIsTail(t);
    } else {
      var s := Concat(ms) + t;
      var rest := Concat(ms[1..]) + t;
      assert ms[0] in ms && s == ms[0] + rest;
      MessageIsFront(ms[0], rest);
      assert s[..|ms[0]|] == ms[0] && s[|ms[0]|..] == rest;
      SplitFinds(ms[1..], t);
      assert [ms[0]] + ms[1..] == ms;
    }
  }

  lemma FrontIsMessage(s: Data)
    requires 4 <= |s| && MessageLength(s) <= |s|
    ensures IsMessage(s[..MessageLength(s)])
  {
    hide Number24, Be24;
    Be24OfNumber(s[1..4]);
    var n := MessageLength(s);
    assert |s[4..n]| == Number24(s[1..4]);
    assert s[..n] == [s[0]] + s[1..4] + s[4..n];
    assert s[..n] == Message(s[0], s[4..n]);
  }

  lemma TailIsIncomplete(s: Data)
    requires |s| < 4 || |s| < MessageLength(s)
    ensures Incomplete(s)
  {
    hide Number24;
    if |s| < 4 {
      var h := s + Zeros(4 - |s|);
      Be24OfNumber(h[1..4]);
      var m := Message(h[0], Zeros(Number24(h[1..4])));
      assert m[..4] == h;
      assert s == m[..|s|];
      if |m| == |s| {
        assert false;
      }
    } else {
      Be24OfNumber(s[1..4]);
      var body := s[4..] + Zeros(MessageLength(s) - |s|);
      assert s == Message(s[0], body)[..|s|];
    }
  }

  // The bytes are those of the messages and of part of one more.
  ghost predicate ExactSplit(s: Data, r: Split)
  {
    s == Concat(r.messages) + r.rest && (forall m | m in r.messages :: IsMessage(m)) && Incomplete(r.rest)
  }

  lemma ExactSplitNext(m: Data, s: Data, r: Split)
    requires IsMessage(m) && ExactSplit(s, r)
    ensures ExactSplit(m + s, AfterMessages([m], r))
  {
    hide IsMessage, Incomplete;
    var ms := [m] + r.messages;
    assert ms[0] == m && ms[1..] == r.messages;
    assert Concat(ms) == m + Concat(r.messages);
    assert m + (Concat(r.messages) + r.rest) == m + Concat(r.messages) + r.rest;
  }

  /** Nothing else is found. */
  lemma {:induction false} SplitIsExact(s: Data)
    ensures ExactSplit(s, SplitMessages(s))
    decreases |s|
  {
    hide MessageLength, ExactSplit;
    if |s| < 4 || |s| < MessageLength(s) {
      TailIsIncomplete(s);
      NoneExact(s);
    } else {
      var n := MessageLength(s);
      FrontIsMessage(s);
      SplitIsExact(s[n..]);
      ExactSplitNext(s[..n], s[n..], SplitMessages(s[n..]));
      assert s == s[..n] + s[n..];
    }
  }

  lemma NoneExact(s: Data)
    requires Incomplete(s)
    ensures ExactSplit(s, Split([], s))
  {
    assert Concat([]) + s == s;
  }

  class MessageReader {
    // recvbuf.mess, empty when it is not allocated
    var buf: Data

    constructor ()
      ensures buf == []
    {
      buf := [];
    }

    // handle_handshake_record, for a callback that accepts every message and without a limit on the
    // buffer; atEnd says of each message whether it ends the record.
    method HandleRecord(fragment: Data) returns (messages: seq<Data>, atEnd: seq<bool>)
      modifies this
      ensures Split(messages, buf) == SplitMessages(old(buf) + fragment)
      ensures |atEnd| == |messages|
      ensures forall i | 0 <= i < |messages| :: atEnd[i] <==> i == |messages| - 1 && buf == []
    {
      hide Number24, MessageLength, SplitMessages;
      var src := buf + fragment;
      var i := 0;
      messages, atEnd := [], [];
      assert src[0..] == src;
      assert AfterMessages([], SplitMessages(src)) == SplitMessages(src);
      while |src| - i >= 4 && |src| - i >= MessageLength(src[i..])
        invariant i <= |src|
        invariant SplitMessages(src) == AfterMessages(messages, SplitMessages(src[i..]))
        invariant |atEnd| == |messages|
        invariant forall j | 0 <= j < |messages| :: atEnd[j] <==> j == |messages| - 1 && i == |src|
        decreases |src| - i
      {
        var n := MessageLength(src[i..]);
        SplitStep(messages, src, i);
        messages := messages + [src[i..i + n]];
        atEnd := atEnd + [i + n == |src|];
        i := i + n;
      }
      buf := src[i..];
      SplitDone(messages, buf);
    }
  }

  lemma SplitStep(ms: seq<Data>, src: Data, i: nat)
    requires i <= |src| && |src| - i >= 4 && |src| - i >= MessageLength(src[i..])
    ensures var n := MessageLength(src[i..]);
      AfterMessages(ms, SplitMessages(src[i..])) == AfterMessages(ms + [src[i..i + n]], SplitMessages(src[i + n..]))
  {
    hide Number24;
    var n := MessageLength(src[i..]);
    var t := SplitMessages(src[i + n..]);
    assert src[i..][n..] == src[i + n..] && src[i..][..n] == src[i..i + n];
    assert ms + ([src[i..i + n]] + t.messages) == ms + [src[i..i + n]] + t.messages;
  }

  lemma SplitDone(ms: seq<Data>, s: Data)
    requires |s| < 4 || |s| < MessageLength(s)
    ensures AfterMessages(ms, SplitMessages(s)) == Split(ms, s)
  {
    assert ms + [] == ms;
  }

  /** However handshake bytes are cut into records, the same messages come out and exactly the
      incomplete tail is kept. */
  method HandleAll(reader: MessageReader, fragments: seq<Data>) returns (messages: seq<Data>)
    requires reader.buf == []
    modifies reader
    ensures Split(messages, reader.buf) == SplitMessages(Concat(fragments))
    ensures Concat(fragments) == Concat(messages) + reader.buf
    ensures (forall m | m in messages :: IsMessage(m)) && Incomplete(reader.buf)
  {
    hide IsMessage, Incomplete;
    messages := [];
    var i := 0;
    assert fragments[..0] == [];
    while i != |fragments|
      invariant i <= |fragments|
      invariant SplitMessages(Concat(fragments[..i])) == Split(messages, reader.buf)
    {
      ConcatNext(fragments, i);
      SplitAppend(Concat(fragments[..i]), fragments[i]);
      var ms, _ := reader.HandleRecord(fragments[i]);
      messages := messages + ms;
      i := i + 1;
    }
    assert fragments[..i] == fragments;
    SplitIsExact(Concat(fragments));
  }
}
