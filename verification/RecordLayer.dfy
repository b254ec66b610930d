/** Protected records of TLS 1.3: sending in chunks, key updates, handing the outbound state to
    another owner, and a receiver that gets back exactly what was sent. */
module RecordLayer {
  import opened Results
  import opened Wire
  import opened Records

  // The AEAD by traffic secret and sequence number, and the step from one secret to the next.
  datatype Aead = Aead(
    seal: (Data, nat, Data, Data) -> Data,
    open: (Data, nat, Data, Data) -> Option<Data>,
    tag: nat,
    next: Data -> Data)
  {
    ghost predicate Correct()
    {
      && tag <= 255
      && (forall s: Data, n: nat, a: Data, p: Data :: |seal(s, n, a, p)| == |p| + tag)
      && (forall s: Data, n: nat, a: Data, p: Data :: open(s, n, a, seal(s, n, a, p)) == Some(p))
    }
  }

  // One direction's traffic_protection; generation counts the key updates.
  datatype Protection = Protection(secret: Data, generation: nat, seqno: nat)

  // A use of a key: generation and sequence number, the nonce.
  datatype Nonce = Nonce(generation: nat, seqno: nat)

  const LIMIT: nat := 16777216

  // ---------------------------------------------------------------- sealing

  // build_aad; also the five bytes of the record header
  function Header(length: nat): (r: Data)
    ensures |r| == 5
  {
    [APPDATA, 3, 3] + Be16(length)
  }

  // One record: aead_encrypt behind its header
  function SealRecord(a: Aead, p: Protection, kind: Octet, body: Data): Data
  {
    var h := Header(|body| + 1 + a.tag);
    h + a.seal(p.secret, p.seqno, h, body + [kind])
  }

  function Advance(p: Protection): Protection { p.(seqno := p.seqno + 1) }

  datatype Sealed = Sealed(wire: Data, p: Protection, used: seq<Nonce>)

  function Chunk(data: Data): (n: nat)
    ensures data != [] ==> 0 < n <= |data|
    ensures n <= MAX_PLAINTEXT
  {
    if |data| > MAX_PLAINTEXT then MAX_PLAINTEXT else |data|
  }

  // What buffer_push_encrypted_records appends
  function SealAll(a: Aead, p: Protection, kind: Octet, data: Data): Sealed
    decreases |data|
  {
    if data == [] then Sealed([], p, [])
    else
      var n := Chunk(data);
      var r := SealAll(a, Advance(p), kind, data[n..]);
      Sealed(SealRecord(a, p, kind, data[..n]) + r.wire, r.p, [Nonce(p.generation, p.seqno)] + r.used)
  }

  // buffer_push_encrypted_records
  method PushEncryptedRecords(a: Aead, buf: Data, kind: Octet, src: Data, enc: Protection)
    returns (buf': Data, enc': Protection)
    ensures buf' == buf + SealAll(a, enc, kind, src).wire
    ensures enc' == SealAll(a, enc, kind, src).p
  {
    hide SealRecord;
    buf', enc' := buf, enc;
    var i := 0;
    assert src[0..] == src;
    while i != |src|
      invariant i <= |src|
      invariant buf' + SealAll(a, enc', kind, src[i..]).wire == buf + SealAll(a, enc, kind, src).wire
      invariant SealAll(a, enc', kind, src[i..]).p == SealAll(a, enc, kind, src).p
      decreases |src| - i
    {
      var n := |src| - i;
      if n > MAX_PLAINTEXT {
        n := MAX_PLAINTEXT;
      }
      assert Chunk(src[i..]) == n;
      assert src[i..][..n] == src[i..i + n] && src[i..][n..] == src[i + n..];
      ghost var rest := SealAll(a, Advance(enc'), kind, src[i + n..]).wire;
      assert buf' + (SealRecord(a, enc', kind, src[i..i + n]) + rest)
        == buf' + SealRecord(a, enc', kind, src[i..i + n]) + rest;
      buf' := buf' + SealRecord(a, enc', kind, src[i..i + n]);
      enc' := enc'.(seqno := enc'.seqno + 1);
      i := i + n;
    }
    assert buf' + [] == buf';
  }

  // Number of records for so many bytes
  function RecordCount(n: nat): nat { (n + MAX_PLAINTEXT - 1) / MAX_PLAINTEXT }

  lemma {:induction false} SealAllCounts(a: Aead, p: Protection, kind: Octet, data: Data)
    ensures var r := SealAll(a, p, kind, data);
      && r.p == p.(seqno := p.seqno + RecordCount(|data|))
      && |r.used| == RecordCount(|data|)
      && forall i | 0 <= i < |r.used| :: r.used[i] == Nonce(p.generation, p.seqno + i)
    decreases |data|
  {
    hide SealRecord;
    if data != [] {
      var n := Chunk(data);
      SealAllCounts(a, Advance(p), kind, data[n..]);
      assert RecordCount(|data|) == 1 + RecordCount(|data| - n);
    }
  }

  // ---------------------------------------------------------------- key update

  const NEW_SESSION_TICKET: Octet := 4
  const KEY_UPDATE: Octet := 24

  function KeyUpdateMessage(request: bool): Data { [KEY_UPDATE, 0, 0, 1, if request then 1 else 0] }

  function NextKey(a: Aead, p: Protection): Protection
  {
    Protection(a.next(p.secret), p.generation + 1, 0)
  }

  // update_send_key: the message under the old key, then the new key.
  function UpdateSendKey(a: Aead, p: Protection, request: bool): Sealed
  {
    Sealed(SealRecord(a, p, HANDSHAKE, KeyUpdateMessage(request)), NextKey(a, p), [Nonce(p.generation, p.seqno)])
  }

  // ---------------------------------------------------------------- receiving

  datatype Error =
    | DecodeError | UnexpectedMessage | BadRecordMac | HandshakeFailure | PeerAlert(description: Octet)
    | NotAvailable | Library
    | TicketRefused

  // Of a connection after the handshake: what receiving changes, whether it is a client, the limit on the
  // bytes that wait for the rest of a message (zero: none), and how tickets are decoded and saved.
  datatype Receiver = Receiver(
    dec: Protection, mess: Data, delivered: Data, requests: nat,
    isClient: bool, limit: nat, saves: Data -> bool)
  {
    // message_buffer_is_overflow
    predicate Overflows(size: nat) { limit != 0 && size > limit }
  }

  // The record content without its zero padding; the last byte is the type.
  function Unpad(s: Data): (r: Data)
    ensures r <= s
    ensures r != [] ==> r[|r| - 1] != 0
  {
    if s == [] || s[|s| - 1] != 0 then s else Unpad(s[..|s| - 1])
  }

  // handle_key_update, and a session ticket, which leaves the keys alone
  function HandleMessage(a: Aead, r: Receiver, m: Data): Result<Receiver, Error>
    requires |m| >= 4
  {
    if m[0] == KEY_UPDATE then
      if |m| != 5 || m[4] > 1 then Err(DecodeError)
      else Ok(r.(dec := NextKey(a, r.dec), requests := r.requests + m[4] as nat))
    else if m[0] == NEW_SESSION_TICKET && r.isClient then
      if r.saves(m) then Ok(r) else Err(TicketRefused)
    else Err(UnexpectedMessage)
  }

  function HandleMessages(a: Aead, r: Receiver, ms: seq<Data>): Result<Receiver, Error>
    requires forall m | m in ms :: |m| >= 4
    decreases |ms|
  {
    if ms == [] then Ok(r)
    else
      var q := HandleMessage(a, r, ms[0]);
      if q.Err? then q else HandleMessages(a, q.value, ms[1..])
  }

  lemma {:induction false} SplitSizes(s: Data)
    ensures forall m | m in SplitMessages(s).messages :: |m| >= 4
    decreases |s|
  {
    if |s| >= 4 && |s| >= MessageLength(s) { SplitSizes(s[MessageLength(s)..]); }
  }

  // handle_handshake_record
  function HandleHandshake(a: Aead, r: Receiver, kind: Octet, body: Data): Result<Receiver, Error>
  {
    if kind != HANDSHAKE then Err(DecodeError)
    else if r.mess != [] && r.Overflows(|r.mess| + |body|) then Err(HandshakeFailure)
    else
      SplitSizes(r.mess + body);
      var s := SplitMessages(r.mess + body);
      var q := HandleMessages(a, if r.mess == [] then r else r.(mess := r.mess + body), s.messages);
      if q.Err? then q
      else if s.rest != [] && r.Overflows(|s.rest|) then Err(HandshakeFailure)
      else Ok(q.value.(mess := s.rest))
  }

  // What a record holds: its type, its content and the key for the next one. Alerts may come in the clear.
  datatype Content = Content(kind: Octet, body: Data, next: Protection)

  function Open(a: Aead, dec: Protection, rec: Data): Result<Content, Error>
    requires |rec| >= 5
  {
    var fragment := rec[5..];
    if rec[0] == CHANGE_CIPHER_SPEC then Err(UnexpectedMessage)
    else if rec[0] == ALERT then Ok(Content(ALERT, fragment, dec))
    else if rec[0] != APPDATA then Err(HandshakeFailure)
    else
      var o := a.open(dec.secret, dec.seqno, Header(|fragment|), fragment);
      if o.None? then Err(BadRecordMac)
      else
        var content := Unpad(o.value);
        if content == [] then Err(UnexpectedMessage)
        else Ok(Content(content[|content| - 1], content[..|content| - 1], Advance(dec)))
  }

  function Handle(a: Aead, r: Receiver, kind: Octet, body: Data): Result<Receiver, Error>
  {
    if r.mess != [] || kind == HANDSHAKE then HandleHandshake(a, r, kind, body)
    else if kind == APPDATA then Ok(r.(delivered := r.delivered + body))
    else if kind == ALERT then Err(if |body| != 2 then DecodeError else PeerAlert(body[1]))
    else Err(UnexpectedMessage)
  }

  // handle_input after the handshake, on one record
  function ReceiveRecord(a: Aead, r: Receiver, rec: Data): Result<Receiver, Error>
    requires |rec| >= 5
  {
    var o := Open(a, r.dec, rec);
    if o.Err? then Err(o.error) else Handle(a, r.(dec := o.value.next), o.value.kind, o.value.body)
  }

  function ReceiveRecords(a: Aead, r: Receiver, recs: seq<Data>): Result<Receiver, Error>
    requires forall x | x in recs :: |x| >= 5
    decreases |recs|
  {
    if recs == [] then Ok(r)
    else
      var q := ReceiveRecord(a, r, recs[0]);
      if q.Err? then q else ReceiveRecords(a, q.value, recs[1..])
  }

  lemma {:induction false} DeframedSizes(s: Data)
    ensures forall x | x in Deframe(s).records :: |x| >= 5
    decreases |s|
  {
    if s != [] && Front(s).Record? {
      DeframedSizes(s[|Front(s).bytes|..]);
    }
  }

  // A stream received from the start of a record on
  function Receive(a: Aead, r: Receiver, wire: Data): Result<Receiver, Error>
  {
    DeframedSizes(wire);
    var d := Deframe(wire);
    var q := ReceiveRecords(a, r, d.records);
    if q.Ok? && d.bad then Err(DecodeError) else q
  }

  // ---------------------------------------------------------------- one record

  lemma HeaderLength(n: nat, rest: Data)
    requires n < 65536
    ensures var s := Header(n) + rest; |s| >= 5 && BodyLength(s) == n && s[0] == APPDATA
  {
    var s := Header(n) + rest;
    assert s[3..5] == Be16(n);
    Number16Of(n);
  }

  // A sealed record is the front of any stream that starts with it.
  lemma SealedFront(a: Aead, p: Protection, kind: Octet, body: Data, rest: Data)
    requires a.Correct() && |body| <= MAX_PLAINTEXT
    ensures var w := SealRecord(a, p, kind, body);
      w + rest != [] && Front(w + rest) == Record(w) && |w| == |body| + 6 + a.tag
  {
    hide Number16, Be16;
    var w := SealRecord(a, p, kind, body);
    var n := |body| + 1 + a.tag;
    var ct := a.seal(p.secret, p.seqno, Header(n), body + [kind]);
    HeaderLength(n, ct + rest);
    assert w + rest == Header(n) + (ct + rest);
    assert (w + rest)[..5 + n] == w;
  }

  lemma Unpadded(body: Data, kind: Octet)
    requires kind != 0
    ensures Unpad(body + [kind]) == body + [kind]
  {}

  // The receiver that holds the sender's key takes a record of data.
  lemma DataReceived(a: Aead, r: Receiver, p: Protection, body: Data)
    requires a.Correct() && r.dec == p && r.mess == []
    ensures var w := SealRecord(a, p, APPDATA, body);
      |w| >= 5 && ReceiveRecord(a, r, w) == Ok(r.(dec := Advance(p), delivered := r.delivered + body))
  {
    hide Be16, HandleHandshake;
    var w := SealRecord(a, p, APPDATA, body);
    var n := |body| + 1 + a.tag;
    var ct := a.seal(p.secret, p.seqno, Header(n), body + [APPDATA]);
    assert w[5..] == ct;
    Unpadded(body, APPDATA);
    assert (body + [APPDATA])[..|body|] == body;
  }

  // The receiver takes a key update and follows to the next key.
  lemma UpdateReceived(a: Aead, r: Receiver, p: Protection, request: bool)
    requires a.Correct() && r.dec == p && r.mess == []
    ensures var w := UpdateSendKey(a, p, request).wire;
      && |w| >= 5
      && ReceiveRecord(a, r, w) == Ok(r.(dec := NextKey(a, p), requests := r.requests + if request then 1 else 0))
  {
    hide Be16, SplitMessages;
    var m := KeyUpdateMessage(request);
    var w := UpdateSendKey(a, p, request).wire;
    var n := |m| + 1 + a.tag;
    var ct := a.seal(p.secret, p.seqno, Header(n), m + [HANDSHAKE]);
    assert w[5..] == ct;
    Unpadded(m, HANDSHAKE);
    assert (m + [HANDSHAKE])[..|m|] == m;
    assert [] + m == m;
    OneMessage(request);
    assert HandleMessages(a, r.(dec := Advance(p)), [m])
        == Ok(r.(dec := NextKey(a, p), requests := r.requests + if request then 1 else 0));
  }

  lemma OneMessage(request: bool)
    ensures SplitMessages(KeyUpdateMessage(request)) == Split([KeyUpdateMessage(request)], [])
  {
    var m := KeyUpdateMessage(request);
    assert m[1..4] == [0, 0, 1];
    assert MessageLength(m) == 5 && m[..5] == m && m[5..] == [];
  }

  // ---------------------------------------------------------------- streams

  // A stream that is a whole number of records
  ghost predicate Whole(wire: Data) { !Deframe(wire).bad && Deframe(wire).rest == [] }

  lemma {:induction false} ReceiveRecordsAppend(a: Aead, r: Receiver, x: seq<Data>, y: seq<Data>)
    requires (forall i | i in x :: |i| >= 5) && (forall i | i in y :: |i| >= 5)
    ensures forall i | i in x + y :: |i| >= 5
    ensures ReceiveRecords(a, r, x + y)
         == (var q := ReceiveRecords(a, r, x); if q.Err? then q else ReceiveRecords(a, q.value, y))
    decreases |x|
  {
    hide ReceiveRecord;
    if x == [] {
      assert x + y == y;
    } else {
      assert (x + y)[0] == x[0] && (x + y)[1..] == x[1..] + y;
      var q := ReceiveRecord(a, r, x[0]);
      if q.Ok? { ReceiveRecordsAppend(a, q.value, x[1..], y); }
    }
  }

  lemma ReceiveAppend(a: Aead, r: Receiver, x: Data, y: Data)
    requires Whole(x)
    ensures Receive(a, r, x + y) == (var q := Receive(a, r, x); if q.Err? then q else Receive(a, q.value, y))
    ensures Whole(y) ==> Whole(x + y)
  {
    hide Deframe, ReceiveRecords;
    DeframeAppend(x, y);
    assert [] + y == y;
    DeframedSizes(x);
    DeframedSizes(y);
    DeframedSizes(x + y);
    ReceiveRecordsAppend(a, r, Deframe(x).records, Deframe(y).records);
  }

  // Records of data: everything is delivered, and the receiver is where the sender is.
  lemma {:induction false} SealAllReceived(a: Aead, r: Receiver, p: Protection, data: Data)
    requires a.Correct() && r.dec == p && r.mess == []
    ensures var s := SealAll(a, p, APPDATA, data);
      && Whole(s.wire)
      && Receive(a, r, s.wire) == Ok(r.(dec := s.p, delivered := r.delivered + data))
    decreases |data|
  {
    hide SealRecord, ReceiveRecord, Front;
    if data == [] {
      assert r.delivered + [] == r.delivered;
    } else {
      var n := Chunk(data);
      OneRecordReceived(a, r, p, data[..n]);
      var q := r.(dec := Advance(p), delivered := r.delivered + data[..n]);
      SealAllReceived(a, q, Advance(p), data[n..]);
      ReceiveAppend(a, r, SealRecord(a, p, APPDATA, data[..n]), SealAll(a, Advance(p), APPDATA, data[n..]).wire);
      assert r.delivered + data[..n] + data[n..] == r.delivered + data;
    }
  }

  lemma OneWhole(a: Aead, r: Receiver, w: Data)
    requires w != [] && Front(w) == Record(w)
    ensures |w| >= 5 && Whole(w) && Receive(a, r, w) == ReceiveRecord(a, r, w)
  {
    hide ReceiveRecord;
    assert w[|w|..] == [];
    assert Deframe(w) == Stream([w], [], false) by { assert Deframe([]) == Stream([], [], false); }
    var q := ReceiveRecord(a, r, w);
    assert q.Ok? ==> ReceiveRecords(a, q.value, [w][1..]) == q;
  }

  lemma OneRecordReceived(a: Aead, r: Receiver, p: Protection, body: Data)
    requires a.Correct() && r.dec == p && r.mess == [] && |body| <= MAX_PLAINTEXT
    ensures var w := SealRecord(a, p, APPDATA, body);
      Whole(w) && Receive(a, r, w) == Ok(r.(dec := Advance(p), delivered := r.delivered + body))
  {
    hide SealRecord, ReceiveRecord, Front, Receive, Whole;
    var w := SealRecord(a, p, APPDATA, body);
    SealedFront(a, p, APPDATA, body, []);
    assert w + [] == w;
    OneWhole(a, r, w);
    DataReceived(a, r, p, body);
  }

  lemma KeyUpdateReceived(a: Aead, r: Receiver, p: Protection, request: bool)
    requires a.Correct() && r.dec == p && r.mess == []
    ensures var s := UpdateSendKey(a, p, request);
      && Whole(s.wire)
      && Receive(a, r, s.wire) == Ok(r.(dec := s.p, requests := r.requests + if request then 1 else 0))
  {
    hide SealRecord, ReceiveRecord, Front, Receive, Whole;
    var w := UpdateSendKey(a, p, request).wire;
    SealedFront(a, p, HANDSHAKE, KeyUpdateMessage(request), []);
    assert w + [] == w;
    OneWhole(a, r, w);
    UpdateReceived(a, r, p, request);
  }

  // ---------------------------------------------------------------- the sending side

  // The outbound part of a connection object
  datatype Side = Side(enc: Option<Protection>, needsUpdate: bool, sendRequest: bool, detached: bool,
      updateRequests: nat)

  datatype Sent = Sent(side: Side, wire: Data, used: seq<Nonce>)

  // The key update that a send may have to start with.
  function Prelude(a: Aead, s: Side): Sealed
    requires s.enc.Some?
  {
    if s.needsUpdate || s.enc.value.seqno >= LIMIT then UpdateSendKey(a, s.enc.value, s.sendRequest)
    else Sealed([], s.enc.value, [])
  }

  function Settled(s: Side, p: Protection): Side
    requires s.enc.Some?
  {
    if s.needsUpdate || s.enc.value.seqno >= LIMIT
    then s.(enc := Some(p), needsUpdate := false, sendRequest := false)
    else s.(enc := Some(p))
  }

  // ptls_send
  function Send(a: Aead, s: Side, data: Data): Result<Sent, Error>
    requires !s.detached ==> s.enc.Some?
  {
    if s.detached then Err(NotAvailable)
    else
      var u := Prelude(a, s);
      var r := SealAll(a, u.p, APPDATA, data);
      Ok(Sent(Settled(s, r.p), u.wire + r.wire, u.used + r.used))
  }

  // ptls_update_key: takes effect with the next send.
  function UpdateKey(s: Side, request: bool): Result<Side, Error>
  {
    if s.detached then Err(NotAvailable) else Ok(s.(needsUpdate := true, sendRequest := request))
  }

  // ptls_tx_update_key: takes effect at once.
  function UpdateKeyNow(a: Aead, s: Side, request: bool): Result<Sent, Error>
    requires s.enc.Some?
  {
    var u := UpdateSendKey(a, s.enc.value, request);
    Ok(Sent(s.(enc := Some(u.p)), u.wire, u.used))
  }

  // ptls_send_alert after the handshake
  function SendAlert(a: Aead, s: Side, level: Octet, description: Octet): Result<Sent, Error>
    requires !s.detached ==> s.enc.Some?
  {
    if s.detached then Err(NotAvailable)
    else
      var p := s.enc.value;
      Ok(Sent(s.(enc := Some(Advance(p))), SealRecord(a, p, ALERT, [level, description]),
        [Nonce(p.generation, p.seqno)]))
  }

  // A KeyUpdate of the peer that asks for one in return.
  function PeerRequest(s: Side): Side
  {
    if s.detached then s.(updateRequests := s.updateRequests + 1) else s.(needsUpdate := true)
  }

  // ptls_detach_tx: the object left behind, and the new owner of the outbound state.
  function Detach(s: Side): Result<(Side, Side), Error>
  {
    if s.detached || s.enc.None? then Err(NotAvailable)
    else Ok((s.(enc := None, needsUpdate := false, sendRequest := false, detached := true),
             Side(s.enc, s.needsUpdate, s.sendRequest, false, 0)))
  }

  // ---------------------------------------------------------------- ptls_tx_sendv

  function TotalLength(spans: seq<Data>): nat
  {
    if spans == [] then 0 else |spans[0]| + TotalLength(spans[1..])
  }

  lemma {:induction false} ConcatLength(spans: seq<Data>)
    ensures |Concat(spans)| == TotalLength(spans)
    decreases |spans|
  {
    if spans != [] { ConcatLength(spans[1..]); }
  }

  lemma {:induction false} TotalAppend(x: seq<Data>, y: seq<Data>)
    ensures TotalLength(x + y) == TotalLength(x) + TotalLength(y)
    decreases |x|
  {
    if x == [] {
      assert x + y == y;
    } else {
      assert (x + y)[0] == x[0] && (x + y)[1..] == x[1..] + y;
      TotalAppend(x[1..], y);
    }
  }

  // One record for all the spans, refused when they do not fit one.
  function SendV(a: Aead, s: Side, spans: seq<Data>): Result<Sent, Error>
    requires s.enc.Some?
  {
    if TotalLength(spans) > MAX_PLAINTEXT then Err(Library)
    else
      var u := Prelude(a, s);
      if TotalLength(spans) == 0 then Ok(Sent(Settled(s, u.p), u.wire, u.used))
      else
        Ok(Sent(Settled(s, Advance(u.p)), u.wire + SealRecord(a, u.p, APPDATA, Concat(spans)),
                u.used + [Nonce(u.p.generation, u.p.seqno)]))
  }

  /** Sending spans is sending their concatenation: same bytes, same nonces, same state. */
  lemma SendVIsSend(a: Aead, s: Side, spans: seq<Data>)
    requires s.enc.Some? && !s.detached && TotalLength(spans) <= MAX_PLAINTEXT
    ensures SendV(a, s, spans) == Send(a, s, Concat(spans))
  {
    hide SealRecord;
    ConcatLength(spans);
    var data, u := Concat(spans), Prelude(a, s);
    if data == [] {
      assert u.wire + [] == u.wire && u.used + [] == u.used;
    } else {
      assert data[..|data|] == data && data[|data|..] == [];
      var w := SealRecord(a, u.p, APPDATA, data);
      assert SealAll(a, Advance(u.p), APPDATA, []) == Sealed([], Advance(u.p), []);
      assert w + [] == w;
      assert [Nonce(u.p.generation, u.p.seqno)] + [] == [Nonce(u.p.generation, u.p.seqno)];
    }
  }
}
