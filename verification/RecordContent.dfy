/** What a protected record means to its receiver, said of its bytes: content type, padding, messages. */
module RecordContent {
  import opened Results
  import opened Wire
  import opened Records
  import opened RecordLayer

  // ---------------------------------------------------------------- padding

  lemma {:induction false} UnpadZeros(c: Data, n: nat)
    requires c == [] || c[|c| - 1] != 0
    ensures Unpad(c + Zeros(n)) == c
    decreases n
  {
    if n == 0 {
      assert c + Zeros(0) == c;
    } else {
      var s := c + Zeros(n);
      assert s[..|s| - 1] == c + Zeros(n - 1);
      UnpadZeros(c, n - 1);
    }
  }

  // The record that seals a content behind its header
  function Protected(a: Aead, p: Protection, plain: Data): Data
  {
    var h := [23, 3, 3] + Be16(|plain| + a.tag);
    h + a.seal(p.secret, p.seqno, h, plain)
  }

  // Type and body, however many zeros follow
  function Padded(kind: Octet, body: Data, n: nat): Data { body + [kind] + Zeros(n) }

  /** A record of any type, with any amount of padding, is handled by its type and body, and the key counts on. */
  lemma PaddedReceived(a: Aead, r: Receiver, kind: Octet, body: Data, n: nat)
    requires a.Correct() && kind != 0
    ensures var w := Protected(a, r.dec, Padded(kind, body, n));
      && |w| >= 5
      && ReceiveRecord(a, r, w) == Handle(a, r.(dec := r.dec.(seqno := r.dec.seqno + 1)), kind, body)
  {
    hide Be16, Handle;
    var plain := Padded(kind, body, n);
    var w := Protected(a, r.dec, plain);
    var h := [23, 3, 3] + Be16(|plain| + a.tag);
    assert w[5..] == a.seal(r.dec.secret, r.dec.seqno, h, plain);
    assert h == Header(|w[5..]|);
    UnpadZeros(body + [kind], n);
    assert (body + [kind])[..|body|] == body;
  }

  /** The sender's records are those without padding. */
  lemma SealedIsProtected(a: Aead, p: Protection, kind: Octet, body: Data)
    ensures SealRecord(a, p, kind, body) == Protected(a, p, Padded(kind, body, 0))
  {
    assert body + [kind] + Zeros(0) == body + [kind];
  }

  lemma {:induction false} UnpadIs(s: Data)
    ensures s == Unpad(s) + Zeros(|s| - |Unpad(s)|)
    decreases |s|
  {
    if s != [] && s[|s| - 1] == 0 {
      UnpadIs(s[..|s| - 1]);
      assert s == s[..|s| - 1] + [0];
    }
  }

  /** A record that opens is refused for its padding if and only if it is nothing else; otherwise it has exactly
      one type and body. */
  lemma OpenedContent(a: Aead, dec: Protection, rec: Data, plain: Data)
    requires |rec| >= 5 && rec[0] == 23
    requires a.open(dec.secret, dec.seqno, [23, 3, 3] + Be16(|rec| - 5), rec[5..]) == Some(plain)
    ensures Open(a, dec, rec) == Err(UnexpectedMessage) <==> plain == Zeros(|plain|)
    ensures Open(a, dec, rec).Ok? <==> exists kind, body, n :: kind != 0 && plain == Padded(kind, body, n)
    ensures forall kind, body, n | kind != 0 && plain == Padded(kind, body, n) ::
      Open(a, dec, rec) == Ok(Content(kind, body, dec.(seqno := dec.seqno + 1)))
  {
    hide Be16;
    assert Header(|rec| - 5) == [23, 3, 3] + Be16(|rec| - 5);
    var content := Unpad(plain);
    UnpadIs(plain);
    if content != [] {
      var kind, body, n := content[|content| - 1], content[..|content| - 1], |plain| - |content|;
      assert plain == Padded(kind, body, n);
      assert plain[|body|] == kind && Zeros(|plain|)[|body|] == 0;
    }
    forall kind, body, n | kind != 0 && plain == Padded(kind, body, n)
      ensures Open(a, dec, rec) == Ok(Content(kind, body, dec.(seqno := dec.seqno + 1)))
    {
      UnpadZeros(body + [kind], n);
      assert (body + [kind])[..|body|] == body;
    }
  }

  // ---------------------------------------------------------------- handshake messages after the handshake

  predicate Starts(m: Data, kind: Octet) { m != [] && m[0] == kind }

  // The error that a message is refused with: a key update says 0 or 1, and clients take tickets that they can save.
  function Judged(r: Receiver, m: Data): Option<Error>
  {
    if Starts(m, 24) then if m == [24, 0, 0, 1, 0] || m == [24, 0, 0, 1, 1] then None else Some(DecodeError)
    else if Starts(m, 4) && r.isClient then if r.saves(m) then None else Some(TicketRefused)
    else Some(UnexpectedMessage)
  }

  function FirstRefusal(r: Receiver, ms: seq<Data>): Option<Error>
  {
    if ms == [] then None
    else if Judged(r, ms[0]).Some? then Judged(r, ms[0])
    else FirstRefusal(r, ms[1..])
  }

  function Updates(ms: seq<Data>): nat
  {
    if ms == [] then 0 else (if Starts(ms[0], 24) then 1 else 0) + Updates(ms[1..])
  }

  function Requests(ms: seq<Data>): nat
  {
    if ms == [] then 0 else (if ms[0] == [24, 0, 0, 1, 1] then 1 else 0) + Requests(ms[1..])
  }

  // The key after so many updates: the secret moved on, records counted from zero again
  function Updated(a: Aead, p: Protection, n: nat): Protection
    decreases n
  {
    if n == 0 then p else Updated(a, Protection(a.next(p.secret), p.generation + 1, 0), n - 1)
  }

  lemma OneJudged(a: Aead, r: Receiver, m: Data)
    requires IsMessage(m)
    ensures |m| >= 4
    ensures HandleMessage(a, r, m) ==
      if Judged(r, m).Some? then Err(Judged(r, m).value)
      else Ok(r.(
        dec := if Starts(m, 24) then Protection(a.next(r.dec.secret), r.dec.generation + 1, 0) else r.dec,
        requests := r.requests + if m == [24, 0, 0, 1, 1] then 1 else 0))
  {
    var kind, body :| |body| < 0x100_0000 && m == Message(kind, body);
    if kind == 24 && |body| == 1 && body[0] <= 1 {
      assert Be24(1) == [0, 0, 1];
      assert m == [24, 0, 0, 1, body[0]];
    }
  }

  lemma {:induction false} RefusalIsFixed(r: Receiver, q: Receiver, ms: seq<Data>)
    requires r.isClient == q.isClient && r.saves == q.saves
    ensures FirstRefusal(q, ms) == FirstRefusal(r, ms)
    decreases |ms|
  {
    if ms != [] {
      RefusalIsFixed(r, q, ms[1..]);
    }
  }

  /** Messages take effect in order up to the first that is refused. */
  lemma {:induction false} MessagesJudged(a: Aead, r: Receiver, ms: seq<Data>)
    requires forall m | m in ms :: IsMessage(m)
    ensures forall m | m in ms :: |m| >= 4
    ensures HandleMessages(a, r, ms) ==
      if FirstRefusal(r, ms).Some? then Err(FirstRefusal(r, ms).value)
      else Ok(r.(dec := Updated(a, r.dec, Updates(ms)), requests := r.requests + Requests(ms)))
    decreases |ms|
  {
    hide IsMessage, HandleMessage, Judged;
    if ms != [] {
      assert ms[0] in ms;
      OneJudged(a, r, ms[0]);
      assert forall m | m in ms :: m == ms[0] || m in ms[1..];
      if Judged(r, ms[0]).None? {
        var q := HandleMessage(a, r, ms[0]).value;
        MessagesJudged(a, q, ms[1..]);
        RefusalIsFixed(r, q, ms[1..]);
      } else {
        MessagesJudged(a, r, ms[1..]);
      }
    }
  }

  // More than the limit on bytes that wait, when there is one
  predicate TooMuch(r: Receiver, size: nat) { 0 < r.limit < size }

  /** A handshake record together with what waits: the messages that are now complete take effect, the rest waits. */
  lemma HandshakeHandled(a: Aead, r: Receiver, body: Data, ms: seq<Data>, t: Data)
    requires r.mess + body == Concat(ms) + t && (forall m | m in ms :: IsMessage(m)) && Incomplete(t)
    ensures Handle(a, r, 22, body) ==
      if r.mess != [] && TooMuch(r, |r.mess| + |body|) then Err(HandshakeFailure)
      else if FirstRefusal(r, ms).Some? then Err(FirstRefusal(r, ms).value)
      else if t != [] && TooMuch(r, |t|) then Err(HandshakeFailure)
      else Ok(r.(dec := Updated(a, r.dec, Updates(ms)), mess := t, requests := r.requests + Requests(ms)))
  {
    hide IsMessage, Incomplete, SplitMessages, HandleMessages, FirstRefusal, Updates, Requests, Updated;
    SplitFinds(ms, t);
    var q := if r.mess == [] then r else r.(mess := r.mess + body);
    MessagesJudged(a, q, ms);
    RefusalIsFixed(r, q, ms);
  }

  /** A protected record of handshake bytes, with any padding */
  lemma HandshakeReceived(a: Aead, r: Receiver, body: Data, n: nat, ms: seq<Data>, t: Data)
    requires a.Correct()
    requires r.mess + body == Concat(ms) + t && (forall m | m in ms :: IsMessage(m)) && Incomplete(t)
    ensures var w := Protected(a, r.dec, Padded(22, body, n));
      && |w| >= 5
      && ReceiveRecord(a, r, w) ==
        if r.mess != [] && TooMuch(r, |r.mess| + |body|) then Err(HandshakeFailure)
        else if FirstRefusal(r, ms).Some? then Err(FirstRefusal(r, ms).value)
        else if t != [] && TooMuch(r, |t|) then Err(HandshakeFailure)
        else Ok(r.(
          dec := Updated(a, r.dec.(seqno := r.dec.seqno + 1), Updates(ms)),
          mess := t,
          requests := r.requests + Requests(ms)))
  {
    hide IsMessage, Incomplete, Handle, ReceiveRecord, FirstRefusal, Updates, Requests, Updated, Protected, Padded;
    PaddedReceived(a, r, 22, body, n);
    var q := r.(dec := r.dec.(seqno := r.dec.seqno + 1));
    HandshakeHandled(a, q, body, ms, t);
    RefusalIsFixed(r, q, ms);
  }

  // Content that is not a handshake message: none may come between the parts of one.
  function Taken(r: Receiver, kind: Octet, body: Data): Result<Receiver, Error>
  {
    if r.mess != [] then Err(DecodeError)
    else if kind == 23 then Ok(r.(delivered := r.delivered + body))
    else if kind == 21 && |body| == 2 then Err(PeerAlert(body[1]))
    else if kind == 21 then Err(DecodeError)
    else Err(UnexpectedMessage)
  }

  /** A protected record of anything else: data is delivered, an alert ends the connection. */
  lemma ContentReceived(a: Aead, r: Receiver, kind: Octet, body: Data, n: nat)
    requires a.Correct() && kind != 0 && kind != 22
    ensures var w := Protected(a, r.dec, Padded(kind, body, n));
      && |w| >= 5
      && ReceiveRecord(a, r, w) == Taken(r.(dec := r.dec.(seqno := r.dec.seqno + 1)), kind, body)
  {
    hide ReceiveRecord, Protected, Padded;
    PaddedReceived(a, r, kind, body, n);
  }

  /** Records in the clear: an alert is still one, without use of the key; anything else is refused. */
  lemma ClearReceived(a: Aead, r: Receiver, kind: Octet, version: (Octet, Octet), body: Data)
    requires kind != 23
    ensures var w := Framed(kind, version, body);
      && |w| >= 5
      && ReceiveRecord(a, r, w) ==
        if kind == 21 then Taken(r, 21, body)
        else if kind == 20 then Err(UnexpectedMessage)
        else Err(HandshakeFailure)
  {
    var w := Framed(kind, version, body);
    assert w[0] == kind && w[5..] == body;
    hide Framed, Be16;
  }
}
