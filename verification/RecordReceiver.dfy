/** The receiving side as the object of lib/picotls.c: ptls_receive takes records one at a time, from
    input in any pieces, and returns whenever application data is there. */
module RecordReceiver {
  import opened Results
  import opened Wire
  import opened Records
  import opened RecordLayer
  import opened RecordObject
  import Runs = RecordRuns

  // The sending side after n requests of the peer for a key update
  function Requested(s: Side, n: nat): Side
  {
    if n == 0 then s else PeerRequest(Requested(s, n - 1))
  }

  lemma {:induction false} RequestedAdds(s: Side, m: nat, n: nat)
    ensures Requested(Requested(s, m), n) == Requested(s, m + n)
    decreases n
  {
    if n != 0 { RequestedAdds(s, m, n - 1); }
  }

  // ---------------------------------------------------------------- where a receiver is in a stream

  // After wire, the receiver is r and holds the start of a record.
  ghost predicate At(a: Aead, r0: Receiver, wire: Data, r: Receiver, held: Data)
  {
    && Receive(a, r0, wire) == Ok(r)
    && !Deframe(wire).bad
    && Deframe(wire).rest == held
  }

  lemma Continues(a: Aead, r0: Receiver, wire: Data, r: Receiver, held: Data, more: Data)
    requires At(a, r0, wire, r, held)
    ensures Receive(a, r0, wire + more) == Receive(a, r, held + more)
    ensures Deframe(wire + more).bad == Deframe(held + more).bad
    ensures Deframe(wire + more).rest == Deframe(held + more).rest
  {
    hide Deframe, ReceiveRecords;
    DeframeAppend(wire, more);
    DeframedSizes(wire);
    DeframedSizes(held + more);
    DeframedSizes(wire + more);
    ReceiveRecordsAppend(a, r0, Deframe(wire).records, Deframe(held + more).records);
  }

  // A record that is not complete yet
  lemma Waits(a: Aead, r0: Receiver, wire: Data, r: Receiver, held: Data, more: Data)
    requires At(a, r0, wire, r, held) && (held + more == [] || Front(held + more).More?)
    ensures At(a, r0, wire + more, r, held + more)
  {
    hide Front;
    Continues(a, r0, wire, r, held, more);
  }

  // A record that is complete now
  lemma Takes(a: Aead, r0: Receiver, wire: Data, r: Receiver, held: Data, more: Data)
    requires At(a, r0, wire, r, held) && held + more != [] && Front(held + more) == Record(held + more)
    ensures |held + more| >= 5
    ensures match ReceiveRecord(a, r, held + more)
      case Ok(v) => At(a, r0, wire + more, v, [])
      case Err(e) => Receive(a, r0, wire + more) == Err(e)
  {
    hide Front, ReceiveRecord, Receive;
    Continues(a, r0, wire, r, held, more);
    OneWhole(a, r, held + more);
  }

  /** A stream that is refused is refused whatever follows. */
  lemma RefusedStays(a: Aead, r: Receiver, x: Data, y: Data)
    requires Receive(a, r, x).Err?
    ensures Receive(a, r, x + y) == Receive(a, r, x)
  {
    hide Deframe, ReceiveRecords;
    DeframeAppend(x, y);
    DeframedSizes(x);
    DeframedSizes(x + y);
    var d := Deframe(x);
    if !d.bad {
      DeframedSizes(d.rest + y);
      ReceiveRecordsAppend(a, r, d.records, Deframe(d.rest + y).records);
    }
  }

  lemma BadRefused(a: Aead, r: Receiver, s: Data)
    requires s != [] && Front(s).Bad?
    ensures Receive(a, r, s) == Err(Error.DecodeError)
  {
    hide Front;
  }

  // What comes before the end of a record is the start of one.
  lemma PartIsMore(s: Data, k: nat)
    requires s != [] && Front(s) == Record(s) && 0 < k < |s|
    ensures Front(s[..k]).More?
  {
    hide Number16;
    if k >= 5 { assert s[..k][3..5] == s[3..5]; }
  }

  lemma MorePart(s: Data, k: nat)
    requires s != [] && Front(s).More? && 0 < k <= |s|
    ensures Front(s[..k]).More?
  {
    hide Number16;
    if k >= 5 { assert s[..k][3..5] == s[3..5]; }
  }

  lemma FrontAlone(s: Data)
    requires s != [] && Front(s).Record?
    ensures Front(s).bytes != [] && Front(Front(s).bytes) == Front(s)
  {
    hide Number16;
    var x := Front(s).bytes;
    assert x[3..5] == s[3..5] && x[..|x|] == x;
  }

  lemma Composes(a: Aead, r0: Receiver, wire: Data, r: Receiver, held: Data, more: Data, v: Receiver, left: Data)
    requires At(a, r0, wire, r, held) && At(a, r, held + more, v, left)
    ensures At(a, r0, wire + more, v, left)
  {
    hide Receive, Deframe;
    Continues(a, r0, wire, r, held, more);
  }

  // Nothing is delivered by this part of a stream.
  ghost predicate Quiet(a: Aead, r: Receiver, s: Data)
  {
    Receive(a, r, s).Ok? && Receive(a, r, s).value.delivered == r.delivered
  }

  // Nothing is delivered by less than n bytes of the input.
  ghost predicate Silent(a: Aead, r: Receiver, held: Data, input: Data, n: nat)
    requires n <= |input|
  {
    forall k | 0 <= k < n :: Quiet(a, r, held + input[..k])
  }

  lemma SilentMore(a: Aead, r: Receiver, held: Data, input: Data, i: nat, n: nat)
    requires i + n <= |input| && Silent(a, r, held, input, i) && Silent(a, r, held + input[..i], input[i..], n)
    ensures Silent(a, r, held, input, i + n)
  {
    hide Quiet;
    forall k | i <= k < i + n ensures Quiet(a, r, held + input[..k]) {
      assert held + input[..i] + input[i..][..k - i] == held + input[..k];
    }
  }

  // Nothing is delivered before the end of a record.
  lemma QuietBefore(a: Aead, r0: Receiver, wire: Data, r: Receiver, held: Data, more: Data, k: nat)
    requires At(a, r0, wire, r, held) && r.delivered == r0.delivered && k < |more|
    requires Front(held + more).More? || Front(held + more) == Record(held + more)
    ensures Quiet(a, r0, wire + more[..k])
  {
    hide Front, Receive, Deframe;
    var part := held + more[..k];
    assert part == (held + more)[..|held| + k];
    if part != [] {
      if Front(held + more).More? { MorePart(held + more, |held| + k); } else { PartIsMore(held + more, |held| + k); }
    }
    Waits(a, r0, wire, r, held, more[..k]);
  }

  // A receiver at the start of a stream, with the start of a record
  lemma Begins(a: Aead, r: Receiver, held: Data, input: Data)
    requires held != [] ==> Front(held).More?
    ensures At(a, r, held, r, held) && Silent(a, r, held, input, 0)
  {
    hide Front;
    Unfinished(held);
  }

  // What one record, or the start of one, does to the receiver; n is how much of the input it takes.
  lemma StepTaken(a: Aead, r0: Receiver, wire: Data, r: Receiver, held: Data, input: Data, n: nat)
    requires At(a, r0, wire, r, held) && input != [] && n <= |input| && (held != [] ==> Front(held).More?)
    requires if Front(held + input).Record? then |Front(held + input).bytes| == |held| + n else n == |input|
    ensures match Front(held + input)
      case Bad => Receive(a, r0, wire + input[..n]) == Err(Error.DecodeError)
      case More => At(a, r0, wire + input[..n], r, held + input)
      case Record(x) =>
        && 0 < n && |x| >= 5
        && match ReceiveRecord(a, r, x)
           case Ok(v) => At(a, r0, wire + input[..n], v, [])
           case Err(e) => Receive(a, r0, wire + input[..n]) == Err(e)
    ensures r.delivered == r0.delivered && !Front(held + input).Bad? ==>
      Silent(a, r0, wire, input, n)
  {
    hide Front, Receive, Deframe, ReceiveRecord, At, Quiet;
    var s, more := held + input, input[..n];
    assert n == |input| ==> more == input;
    match Front(s) {
      case Bad =>
        ContinuesBad(a, r0, wire, r, held, input);
      case More =>
        Waits(a, r0, wire, r, held, input);
      case Record(x) =>
        MoreIsShort(held, input);
        FrontPrefix(s);
        FrontAlone(s);
        assert x == s[..|held| + n] == held + more;
        Takes(a, r0, wire, r, held, more);
    }
    if r.delivered == r0.delivered && !Front(s).Bad? {
      forall k | 0 <= k < n ensures Quiet(a, r0, wire + input[..k]) {
        assert more[..k] == input[..k];
        QuietBefore(a, r0, wire, r, held, more, k);
      }
    }
  }

  lemma ContinuesBad(a: Aead, r0: Receiver, wire: Data, r: Receiver, held: Data, more: Data)
    requires At(a, r0, wire, r, held) && held + more != [] && Front(held + more).Bad?
    ensures Receive(a, r0, wire + more) == Err(Error.DecodeError)
  {
    hide Front, Receive, Deframe, At;
    Continues(a, r0, wire, r, held, more);
    BadRefused(a, r, held + more);
  }

  // ---------------------------------------------------------------- the object

  class Inbound {
    const a: Aead
    const isClient: bool
    const limit: nat
    const saves: Data -> bool
    // The sending side of the same connection
    const out: Outbound
    // recvbuf.rec
    const rec: RecordReader
    // recvbuf.mess, empty when it is not allocated
    var mess: Data
    // traffic_protection.dec
    var dec: Protection
    // How often the peer asked for a key update
    ghost var requests: nat

    ghost function View(delivered: Data): Receiver
      reads this
    {
      Receiver(dec, mess, delivered, requests, isClient, limit, saves)
    }

    constructor (a: Aead, r: Receiver, out: Outbound)
      ensures this.a == a && this.out == out && fresh(rec) && rec.Valid() && rec.buf == []
      ensures View(r.delivered) == r
    {
      this.a, this.out, isClient, limit, saves, mess, dec := a, out, r.isClient, r.limit, r.saves, r.mess, r.dec;
      requests := r.requests;
      rec := new RecordReader();
    }

    twostate predicate Passed()
      reads this, out
    {
      requests >= old(requests) && out.View() == Requested(old(out.View()), requests - old(requests))
    }

    // handle_key_update
    method HandleKeyUpdate(m: Data, ghost delivered: Data) returns (error: Option<Error>)
      requires |m| >= 4 && m[0] == KEY_UPDATE
      modifies this`dec, this`requests, out
      ensures Passed()
      ensures match HandleMessage(a, old(View(delivered)), m)
        case Ok(v) => error.None? && View(delivered) == v
        case Err(e) => error == Some(e)
    {
      if |m| - 4 != 1 || m[4] > 1 {
        return Some(Error.DecodeError);
      }
      dec := Protection(a.next(dec.secret), dec.generation + 1, 0);
      if m[4] != 0 {
        out.OnPeerRequest();
        requests := requests + 1;
        assert Requested(old(out.View()), 1) == PeerRequest(Requested(old(out.View()), 0));
      }
      return None;
    }

    // The message handlers of the two sides after the handshake
    method HandleHandshakeMessage(m: Data, ghost delivered: Data) returns (error: Option<Error>)
      requires |m| >= 4
      modifies this`dec, this`requests, out
      ensures Passed()
      ensures match HandleMessage(a, old(View(delivered)), m)
        case Ok(v) => error.None? && View(delivered) == v
        case Err(e) => error == Some(e)
    {
      if m[0] == KEY_UPDATE {
        error := HandleKeyUpdate(m, delivered);
      } else if isClient && m[0] == NEW_SESSION_TICKET {
        error := if saves(m) then None else Some(TicketRefused);
      } else {
        error := Some(UnexpectedMessage);
      }
    }

    // The loop of handle_handshake_record over the messages that are complete
    method HandleHandshakeMessages(src: Data, ghost delivered: Data) returns (error: Option<Error>, i: nat)
      requires forall m | m in SplitMessages(src).messages :: |m| >= 4
      modifies this`dec, this`requests, out
      ensures Passed() && i <= |src|
      ensures match HandleMessages(a, old(View(delivered)), SplitMessages(src).messages)
        case Ok(v) => error.None? && View(delivered) == v && src[i..] == SplitMessages(src).rest
        case Err(e) => error == Some(e)
    {
      hide HandleMessage, HandleMessages, SplitMessages, MessageLength, PeerRequest;
      i := 0;
      assert src[0..] == src;
      while |src| - i >= 4 && |src| - i >= MessageLength(src[i..])
        invariant i <= |src|
        invariant Passed()
        invariant SplitMessages(src).rest == SplitMessages(src[i..]).rest
        invariant forall m | m in SplitMessages(src[i..]).messages :: |m| >= 4
        invariant HandleMessages(a, View(delivered), SplitMessages(src[i..]).messages)
               == HandleMessages(a, old(View(delivered)), SplitMessages(src).messages)
        decreases |src| - i
      {
        var n := MessageLength(src[i..]);
        SplitFirst(src, i);
        SplitSizes(src[i + n..]);
        HandleFirst(a, View(delivered), src[i..i + n], SplitMessages(src[i + n..]).messages);
        ghost var was := requests;
        error := HandleHandshakeMessage(src[i..i + n], delivered);
        RequestedAdds(old(out.View()), was - old(requests), requests - was);
        if error.Some? {
          return;
        }
        i := i + n;
      }
      SplitNone(src[i..]);
      HandleNone(a, View(delivered));
      error := None;
    }

    // handle_handshake_record
    method HandleHandshakeRecord(kind: Octet, body: Data, ghost delivered: Data) returns (error: Option<Error>)
      modifies this`mess, this`dec, this`requests, out
      ensures Passed()
      ensures match HandleHandshake(a, old(View(delivered)), kind, body)
        case Ok(v) => error.None? && View(delivered) == v
        case Err(e) => error == Some(e)
    {
      hide HandleMessages, SplitMessages, PeerRequest;
      if kind != HANDSHAKE {
        return Some(Error.DecodeError);
      }
      var src := body;
      if mess != [] {
        var over := IsOverflow(|mess| + |body|);
        if over {
          return Some(HandshakeFailure);
        }
        mess := mess + body;
        src := mess;
      }
      assert src == old(mess) + body;
      SplitSizes(src);
      var i;
      error, i := HandleHandshakeMessages(src, delivered);
      if error.Some? {
        mess := [];
        return;
      }
      if i != |src| {
        var over := IsOverflow(|src| - i);
        if over {
          return Some(HandshakeFailure);
        }
        mess := src[i..];
      } else {
        mess := [];
      }
    }

    // The loop that skips the padding
    method SkipPadding(plain: Data) returns (content: Data)
      ensures content == Unpad(plain)
    {
      var length := |plain|;
      assert plain[..length] == plain;
      while length != 0 && plain[length - 1] == 0
        invariant length <= |plain| && Unpad(plain[..length]) == Unpad(plain)
      {
        assert plain[..length][..length - 1] == plain[..length - 1];
        length := length - 1;
      }
      return plain[..length];
    }

    // The first half of handle_input: what the record holds
    method OpenRecord(x: Data) returns (r: Result<(Octet, Data), Error>)
      requires |x| >= 5
      modifies this`dec
      ensures match Open(a, old(dec), x)
        case Ok(c) => r == Ok((c.kind, c.body)) && dec == c.next
        case Err(e) => r == Err(e)
    {
      hide Unpad;
      var kind, fragment := x[0], x[5..];
      if kind == CHANGE_CIPHER_SPEC {
        return Err(UnexpectedMessage);
      }
      if kind != ALERT {
        if kind != APPDATA {
          return Err(HandshakeFailure);
        }
        var plain := a.open(dec.secret, dec.seqno, Header(|fragment|), fragment);
        if plain.None? {
          return Err(BadRecordMac);
        }
        dec := dec.(seqno := dec.seqno + 1);
        fragment := SkipPadding(plain.value);
        if fragment == [] {
          return Err(UnexpectedMessage);
        }
        kind := fragment[|fragment| - 1];
        fragment := fragment[..|fragment| - 1];
      }
      return Ok((kind, fragment));
    }

    // The second half: handshake bytes, application data or an alert
    method HandleContent(kind: Octet, body: Data, decryptbuf: Data) returns (buf: Data, error: Option<Error>)
      modifies this`mess, this`dec, this`requests, out
      ensures Passed() && decryptbuf <= buf && (error.Some? ==> buf == decryptbuf)
      ensures match Handle(a, old(View(decryptbuf)), kind, body)
        case Ok(v) => error.None? && View(buf) == v
        case Err(e) => error == Some(e)
    {
      hide HandleHandshake, PeerRequest;
      buf, error := decryptbuf, None;
      if mess != [] || kind == HANDSHAKE {
        error := HandleHandshakeRecord(kind, body, decryptbuf);
      } else if kind == APPDATA {
        buf := decryptbuf + body;
      } else if kind == ALERT {
        error := Some(if |body| != 2 then Error.DecodeError else PeerAlert(body[1]));
      } else {
        error := Some(UnexpectedMessage);
      }
    }

    // handle_input: at most one record
    method HandleInput(decryptbuf: Data, input: Data) returns (buf: Data, error: Option<Error>, consumed: nat)
      requires rec.Valid() && input != []
      modifies this, rec, out
      ensures Passed() && consumed <= |input|
      ensures decryptbuf <= buf && (error.Some? ==> buf == decryptbuf)
      ensures match Front(old(rec.buf) + input)
        case Bad => error == Some(Error.DecodeError) && consumed == |input|
        case More =>
          error.None? && consumed == |input| && rec.buf == old(rec.buf) + input && View(buf) == old(View(decryptbuf))
        case Record(x) =>
          && |x| == |old(rec.buf)| + consumed
          && match ReceiveRecord(a, old(View(decryptbuf)), x)
             case Ok(v) => error.None? && rec.buf == [] && View(buf) == v
             case Err(e) => error == Some(e)
    {
      hide Front, Open, Handle, PeerRequest;
      buf, error := decryptbuf, None;
      FrontPrefix(rec.buf + input);
      var parsed;
      parsed, consumed := rec.ParseRecord(input);
      match parsed {
        case Malformed =>
          error := Some(Error.DecodeError);
        case InProgress =>
        case Complete(x) =>
          var content := OpenRecord(x);
          if content.Err? {
            error := Some(content.error);
            return;
          }
          buf, error := HandleContent(content.value.0, content.value.1, decryptbuf);
          rec.buf := [];
      }
    }

    /** ptls_receive: it takes records off the input until one of them delivers data, and says how much of
        the input that took. The state is that of the part of the stream it took, and nothing was delivered
        any earlier. */
    method ReceiveInput(decryptbuf: Data, input: Data) returns (buf: Data, error: Option<Error>, consumed: nat)
      requires rec.Valid()
      modifies this, rec, out
      ensures Passed() && consumed <= |input|
      ensures error.None? ==> rec.Valid()
      ensures error.None? ==> At(a, old(View(decryptbuf)), old(rec.buf) + input[..consumed], View(buf), rec.buf)
      ensures error.None? ==> consumed == |input| || (consumed > 0 && |buf| > |decryptbuf|)
      ensures error.Some? ==> Receive(a, old(View(decryptbuf)), old(rec.buf) + input[..consumed]) == Err(error.value)
      ensures error.Some? ==> buf == decryptbuf
      ensures error.None? ==> Silent(a, old(View(decryptbuf)), old(rec.buf), input, consumed)
      ensures decryptbuf <= buf
    {
      hide Front, Receive, ReceiveRecord, PeerRequest, Deframe, At, Silent;
      buf, error, consumed := decryptbuf, None, 0;
      ghost var r0, held := View(decryptbuf), rec.buf;
      assert held + input[..0] == held;
      Begins(a, r0, held, input);
      while error.None? && consumed != |input| && |buf| == |decryptbuf|
        invariant Passed() && consumed <= |input|
        invariant error.None? ==> rec.Valid() && At(a, r0, held + input[..consumed], View(buf), rec.buf)
        invariant error.None? ==> consumed == |input| || |buf| == |decryptbuf| || (consumed > 0 && |buf| > |decryptbuf|)
        invariant error.Some? ==> Receive(a, r0, held + input[..consumed]) == Err(error.value) && buf == decryptbuf
        invariant decryptbuf <= buf
        invariant error.None? ==> Silent(a, r0, held, input, consumed)
        decreases |input| - consumed, error.None?
      {
        ghost var was, side := requests, out.View();
        ghost var wire, r, front := held + input[..consumed], View(buf), rec.buf;
        var rest := input[consumed..];
        var n;
        buf, error, n := HandleInput(buf, rest);
        RequestedAdds(old(out.View()), was - old(requests), requests - was);
        assert wire + rest[..n] == held + input[..consumed + n];
        StepTaken(a, r0, wire, r, front, rest, n);
        if error.None? {
          SilentMore(a, r0, held, input, consumed, n);
        }
        consumed := consumed + n;
      }
    }

    // message_buffer_is_overflow
    method IsOverflow(size: nat) returns (r: bool)
      ensures r == View([]).Overflows(size)
    {
      if limit == 0 {
        return false;
      }
      if size <= limit {
        return false;
      }
      return true;
    }
  }

  lemma SplitFirst(src: Data, i: nat)
    requires i <= |src| && |src| - i >= 4 && |src| - i >= MessageLength(src[i..])
    ensures var n := MessageLength(src[i..]);
      && SplitMessages(src[i..]).rest == SplitMessages(src[i + n..]).rest
      && SplitMessages(src[i..]).messages == [src[i..i + n]] + SplitMessages(src[i + n..]).messages
  {
    hide Number24;
    var n := MessageLength(src[i..]);
    assert src[i..][n..] == src[i + n..] && src[i..][..n] == src[i..i + n];
  }

  lemma SplitNone(s: Data)
    requires |s| < 4 || |s| < MessageLength(s)
    ensures SplitMessages(s) == Split([], s)
  {}

  lemma HandleFirst(a: Aead, r: Receiver, m: Data, ms: seq<Data>)
    requires |m| >= 4 && forall x | x in ms :: |x| >= 4
    ensures HandleMessages(a, r, [m] + ms)
      == (var q := HandleMessage(a, r, m); if q.Err? then q else HandleMessages(a, q.value, ms))
  {
    assert ([m] + ms)[1..] == ms;
  }

  lemma HandleNone(a: Aead, r: Receiver)
    ensures HandleMessages(a, r, []) == Ok(r)
  {}

  // ---------------------------------------------------------------- callers

  // One piece of input: what a call leaves is given to the next.
  method ReceivePiece(conn: Inbound, decryptbuf: Data, piece: Data) returns (buf: Data, error: Option<Error>)
    requires conn.rec.Valid()
    modifies conn, conn.rec, conn.out
    ensures conn.Passed()
    ensures match error
      case None =>
        conn.rec.Valid() && At(conn.a, old(conn.View(decryptbuf)), old(conn.rec.buf) + piece, conn.View(buf),
          conn.rec.buf)
      case Some(e) => Receive(conn.a, old(conn.View(decryptbuf)), old(conn.rec.buf) + piece) == Err(e)
  {
    hide Front, Receive, PeerRequest, Deframe, At, Silent;
    buf, error := decryptbuf, None;
    ghost var r0, held := conn.View(decryptbuf), conn.rec.buf;
    var i := 0;
    assert held + piece[..0] == held;
    Begins(conn.a, r0, held, piece);
    while i != |piece|
      invariant i <= |piece| && error.None? && conn.Passed() && conn.rec.Valid()
      invariant At(conn.a, r0, held + piece[..i], conn.View(buf), conn.rec.buf)
      decreases |piece| - i
    {
      ghost var was := conn.requests;
      ghost var wire, r, front := held + piece[..i], conn.View(buf), conn.rec.buf;
      var n;
      buf, error, n := conn.ReceiveInput(buf, piece[i..]);
      RequestedAdds(old(conn.out.View()), was - old(conn.requests), conn.requests - was);
      ghost var taken := piece[i..][..n];
      assert wire + taken == held + piece[..i + n];
      if error.Some? {
        Continues(conn.a, r0, wire, r, front, taken);
        RefusedStays(conn.a, r0, wire + taken, piece[i + n..]);
        assert wire + taken + piece[i + n..] == held + piece;
        return;
      }
      Composes(conn.a, r0, wire, r, front, taken, conn.View(buf), conn.rec.buf);
      i := i + n;
    }
    assert piece[..i] == piece;
  }

  /** However the stream is cut into inputs, calling ptls_receive until each of them is used up delivers
      what the whole stream holds, ends in the same state, or fails with the same error; every request of
      the peer for a key update reaches the sending side once. */
  method ReceivePieces(conn: Inbound, decryptbuf: Data, pieces: seq<Data>) returns (buf: Data, error: Option<Error>)
    requires conn.rec.Valid() && conn.rec.buf == []
    modifies conn, conn.rec, conn.out
    ensures conn.Passed()
    ensures match Receive(conn.a, old(conn.View(decryptbuf)), Concat(pieces))
      case Ok(v) => error.None? && conn.View(buf) == v && conn.rec.buf == Deframe(Concat(pieces)).rest
      case Err(e) => error == Some(e)
  {
    hide Front, Receive, PeerRequest, Deframe;
    buf, error := decryptbuf, None;
    ghost var r0 := conn.View(decryptbuf);
    var i := 0;
    assert pieces[..0] == [];
    Begins(conn.a, r0, [], []);
    while i != |pieces|
      invariant i <= |pieces| && error.None? && conn.Passed() && conn.rec.Valid()
      invariant At(conn.a, r0, Concat(pieces[..i]), conn.View(buf), conn.rec.buf)
    {
      ghost var was := conn.requests;
      ghost var wire, r, front := Concat(pieces[..i]), conn.View(buf), conn.rec.buf;
      PieceAppended(pieces, i);
      buf, error := ReceivePiece(conn, buf, pieces[i]);
      RequestedAdds(old(conn.out.View()), was - old(conn.requests), conn.requests - was);
      if error.Some? {
        Continues(conn.a, r0, wire, r, front, pieces[i]);
        RefusedStays(conn.a, r0, wire + pieces[i], Concat(pieces[i + 1..]));
        return;
      }
      Composes(conn.a, r0, wire, r, front, pieces[i], conn.View(buf), conn.rec.buf);
      i := i + 1;
    }
    assert pieces[..i] == pieces;
  }

  lemma PieceAppended(pieces: seq<Data>, i: nat)
    requires i < |pieces|
    ensures Concat(pieces[..i + 1]) == Concat(pieces[..i]) + pieces[i]
    ensures Concat(pieces) == Concat(pieces[..i]) + pieces[i] + Concat(pieces[i + 1..])
  {
    assert pieces == pieces[..i + 1] + pieces[i + 1..];
    ConcatNext(pieces, i);
    ConcatAppend(pieces[..i + 1], pieces[i + 1..]);
  }

  /** A run of the sending side, delivered in any pieces. */
  method DeliverRun(conn: Inbound, ops: seq<Runs.Op>, pieces: seq<Data>) returns (buf: Data, error: Option<Error>)
    requires conn.rec.Valid() && conn.rec.buf == [] && conn.mess == []
    requires Concat(pieces) == Runs.Run(conn.a, conn.dec, ops).wire
    modifies conn, conn.rec, conn.out
    ensures conn.a.Correct() && (forall op | op in ops :: !Runs.IsAlert(op)) ==>
      && error.None?
      && buf == Runs.Run(conn.a, old(conn.dec), ops).sent
      && conn.dec == Runs.Current(Runs.Run(conn.a, old(conn.dec), ops))
      && conn.rec.buf == [] && conn.mess == []
  {
    hide Receive, Deframe, Runs.Run, PeerRequest;
    ghost var r0 := conn.View([]);
    if conn.a.Correct() && forall op | op in ops :: !Runs.IsAlert(op) {
      Runs.RunIsDelivered(conn.a, r0, ops);
    }
    buf, error := ReceivePieces(conn, [], pieces);
  }
}
