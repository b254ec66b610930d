/** The bytes that a run of the record layer puts on the wire: record by record, what is sealed, under which secret,
    with which sequence number and header. */
module RecordWire {
  import opened Results
  import opened Wire
  import opened RecordContent
  import R = RecordLayer
  import opened RecordRuns

  function KeyUpdateContent(request: bool): Data { [24, 0, 0, 1, if request then 1 else 0, 22] }

  predicate IsKeyUpdate(plain: Data) { plain == KeyUpdateContent(false) || plain == KeyUpdateContent(true) }

  // The key for the record after this one: a key update moves the secret on, anything else the sequence number.
  function NextProtection(a: R.Aead, p: R.Protection, plain: Data): R.Protection
  {
    if IsKeyUpdate(plain) then R.Protection(a.next(p.secret), p.generation + 1, 0)
    else R.Protection(p.secret, p.generation, p.seqno + 1)
  }

  // Contents sealed one after the other
  function OnTheWire(a: R.Aead, p: R.Protection, plains: seq<Data>): Data
    decreases |plains|
  {
    if plains == [] then [] else Protected(a, p, plains[0]) + OnTheWire(a, NextProtection(a, p, plains[0]), plains[1..])
  }

  function Nonces(a: R.Aead, p: R.Protection, plains: seq<Data>): seq<R.Nonce>
    decreases |plains|
  {
    if plains == [] then []
    else [R.Nonce(p.generation, p.seqno)] + Nonces(a, NextProtection(a, p, plains[0]), plains[1..])
  }

  function KeyAfter(a: R.Aead, p: R.Protection, plains: seq<Data>): R.Protection
    decreases |plains|
  {
    if plains == [] then p else KeyAfter(a, NextProtection(a, p, plains[0]), plains[1..])
  }

  // Application data in at most 2^14 bytes, each piece followed by its type
  function Pieces(data: Data): seq<Data>
    decreases |data|
  {
    if data == [] then []
    else if |data| <= 16384 then [data + [23]]
    else [data[..16384] + [23]] + Pieces(data[16384..])
  }

  // What a sending side does from key p on: bytes and nonces put out, key left.
  ghost predicate Explained(a: R.Aead, p: R.Protection, s: R.Sent, plains: seq<Data>)
  {
    && s.wire == OnTheWire(a, p, plains)
    && s.used == Nonces(a, p, plains)
    && s.side.enc == Some(KeyAfter(a, p, plains))
  }

  lemma {:induction false} ContentsAppend(a: R.Aead, p: R.Protection, x: seq<Data>, y: seq<Data>)
    ensures KeyAfter(a, p, x + y) == KeyAfter(a, KeyAfter(a, p, x), y)
    ensures OnTheWire(a, p, x + y) == OnTheWire(a, p, x) + OnTheWire(a, KeyAfter(a, p, x), y)
    ensures Nonces(a, p, x + y) == Nonces(a, p, x) + Nonces(a, KeyAfter(a, p, x), y)
    decreases |x|
  {
    hide Protected, NextProtection;
    if x == [] {
      assert x + y == y;
    } else {
      assert (x + y)[0] == x[0] && (x + y)[1..] == x[1..] + y;
      ContentsAppend(a, NextProtection(a, p, x[0]), x[1..], y);
    }
  }

  lemma One(a: R.Aead, p: R.Protection, plain: Data)
    ensures OnTheWire(a, p, [plain]) == Protected(a, p, plain)
    ensures Nonces(a, p, [plain]) == [R.Nonce(p.generation, p.seqno)]
    ensures KeyAfter(a, p, [plain]) == NextProtection(a, p, plain)
  {
    assert [plain][1..] == [];
    assert Protected(a, p, plain) + [] == Protected(a, p, plain);
  }

  lemma SealedPlain(a: R.Aead, p: R.Protection, kind: Octet, body: Data)
    ensures R.SealRecord(a, p, kind, body) == Protected(a, p, body + [kind])
  {
    SealedIsProtected(a, p, kind, body);
    assert Padded(kind, body, 0) == body + [kind];
  }

  lemma {:induction false} SealAllExplained(a: R.Aead, p: R.Protection, data: Data)
    ensures var r := R.SealAll(a, p, 23, data);
      && r.wire == OnTheWire(a, p, Pieces(data))
      && r.used == Nonces(a, p, Pieces(data))
      && r.p == KeyAfter(a, p, Pieces(data))
    decreases |data|
  {
    hide R.SealRecord, Protected;
    if data != [] {
      var n := R.Chunk(data);
      var piece := data[..n] + [23];
      SealedPlain(a, p, 23, data[..n]);
      assert !IsKeyUpdate(piece) by { assert piece[|piece| - 1] == 23; }
      SealAllExplained(a, R.Advance(p), data[n..]);
      assert Pieces(data) == [piece] + Pieces(data[n..]) by { assert |data| <= 16384 ==>
        data[..n] == data && data[n..] == []; }
      assert ([piece] + Pieces(data[n..]))[1..] == Pieces(data[n..]);
    }
  }

  // ---------------------------------------------------------------- one call

  // A key update goes first when one is asked for, or after 2^24 records.
  function FirstContents(s: R.Side): seq<Data>
    requires s.enc.Some?
  {
    if s.needsUpdate || s.enc.value.seqno >= 16777216 then [KeyUpdateContent(s.sendRequest)] else []
  }

  lemma PreludeExplained(a: R.Aead, s: R.Side)
    requires s.enc.Some?
    ensures var u, p := R.Prelude(a, s), s.enc.value;
      && u.wire == OnTheWire(a, p, FirstContents(s))
      && u.used == Nonces(a, p, FirstContents(s))
      && u.p == KeyAfter(a, p, FirstContents(s))
  {
    hide R.SealRecord, Protected;
    UpdateExplained(a, s.enc.value, s.sendRequest);
  }

  lemma UpdateExplained(a: R.Aead, p: R.Protection, request: bool)
    ensures var u, x := R.UpdateSendKey(a, p, request), [KeyUpdateContent(request)];
      u.wire == OnTheWire(a, p, x) && u.used == Nonces(a, p, x) && u.p == KeyAfter(a, p, x)
  {
    hide R.SealRecord, Protected;
    SealedPlain(a, p, 22, R.KeyUpdateMessage(request));
    assert R.KeyUpdateMessage(request) + [22] == KeyUpdateContent(request);
    One(a, p, KeyUpdateContent(request));
  }

  lemma SendExplained(a: R.Aead, s: R.Side, data: Data)
    requires s.enc.Some? && !s.detached
    ensures R.Send(a, s, data).Ok?
    ensures Explained(a, s.enc.value, R.Send(a, s, data).value, FirstContents(s) + Pieces(data))
  {
    hide R.SealAll, R.Prelude, Pieces, FirstContents;
    PreludeExplained(a, s);
    SealAllExplained(a, R.Prelude(a, s).p, data);
    ContentsAppend(a, s.enc.value, FirstContents(s), Pieces(data));
  }

  lemma SendVExplained(a: R.Aead, s: R.Side, spans: seq<Data>)
    requires s.enc.Some? && !s.detached
    ensures R.SendV(a, s, spans).Ok? <==> |Concat(spans)| <= 16384
    ensures R.SendV(a, s, spans).Ok? ==>
      Explained(a, s.enc.value, R.SendV(a, s, spans).value, FirstContents(s) + Pieces(Concat(spans)))
  {
    hide Explained, R.Send, FirstContents, Pieces;
    R.ConcatLength(spans);
    if |Concat(spans)| <= 16384 {
      R.SendVIsSend(a, s, spans);
      SendExplained(a, s, Concat(spans));
    }
  }

  lemma AlertExplained(a: R.Aead, s: R.Side, level: Octet, description: Octet)
    requires s.enc.Some? && !s.detached
    ensures Explained(a, s.enc.value, R.SendAlert(a, s, level, description).value, [[level, description, 21]])
  {
    hide R.SealRecord, Protected;
    var plain := [level, description, 21];
    SealedPlain(a, s.enc.value, 21, [level, description]);
    assert [level, description] + [21] == plain;
    assert !IsKeyUpdate(plain) by { assert |plain| == 3; }
    One(a, s.enc.value, plain);
  }

  // ---------------------------------------------------------------- runs

  // The contents that one call seals; a side that does not own the keys sends nothing.
  function Contents(w: World, op: Op): seq<Data>
    requires Owned(w)
  {
    match op
    case Send(data) => if w.tls.detached then [] else FirstContents(w.tls) + Pieces(data)
    case Alert(l, d) => if w.tls.detached then [] else [[l, d, 21]]
    case TxSend(data) => if w.tx.None? then [] else FirstContents(w.tx.value) + Pieces(data)
    case TxSendV(spans) =>
      if w.tx.None? || |Concat(spans)| > 16384 then [] else FirstContents(w.tx.value) + Pieces(Concat(spans))
    case TxUpdateKey(request) => if w.tx.None? then [] else [KeyUpdateContent(request)]
    case TxAlert(l, d) => if w.tx.None? then [] else [[l, d, 21]]
    case UpdateKey(_) => []
    case PeerRequest => []
    case Detach => []
  }

  ghost predicate Adds(a: R.Aead, w: World, v: World, plains: seq<Data>)
    requires Owned(w) && Owned(v)
  {
    var p := Current(w);
    && v.wire == w.wire + OnTheWire(a, p, plains)
    && v.used == w.used + Nonces(a, p, plains)
    && Current(v) == KeyAfter(a, p, plains)
  }

  lemma AddsOut(a: R.Aead, w: World, v: World, s: R.Sent, plains: seq<Data>)
    requires Owned(w) && Owned(v) && Explained(a, Current(w), s, plains)
    requires v.wire == w.wire + s.wire && v.used == w.used + s.used && Some(Current(v)) == s.side.enc
    ensures Adds(a, w, v, plains)
  {}

  lemma AddsNothing(a: R.Aead, w: World, v: World)
    requires Owned(w) && Owned(v) && v.wire == w.wire && v.used == w.used && Current(v) == Current(w)
    ensures Adds(a, w, v, [])
  {
    assert w.wire + [] == w.wire && w.used + [] == w.used;
  }

  lemma StepAdds(a: R.Aead, w: World, op: Op)
    requires Inv(w)
    ensures Owned(Step(a, w, op)) && Adds(a, w, Step(a, w, op), Contents(w, op))
  {
    hide Adds, Explained, R.Send, R.SendV, R.SendAlert, R.UpdateKeyNow, FirstContents, Pieces;
    StepKeeps(a, w, op);
    var v := Step(a, w, op);
    match op
    case Send(data) =>
      if w.tls.detached {
        SendRefused(a, w.tls, data);
        AddsNothing(a, w, v);
      } else {
        SendExplained(a, w.tls, data);
        AddsOut(a, w, v, R.Send(a, w.tls, data).value, Contents(w, op));
      }
    case TxSend(data) =>
      if w.tx.None? {
        AddsNothing(a, w, v);
      } else {
        SendExplained(a, w.tx.value, data);
        AddsOut(a, w, v, R.Send(a, w.tx.value, data).value, Contents(w, op));
      }
    case TxSendV(spans) => TxSendVAdds(a, w, spans);
    case Alert(l, d) => AlertAdds(a, w, l, d);
    case TxAlert(l, d) => TxAlertAdds(a, w, l, d);
    case TxUpdateKey(request) => TxUpdateAdds(a, w, request);
    case UpdateKey(_) => AddsNothing(a, w, v);
    case PeerRequest => AddsNothing(a, w, v);
    case Detach => AddsNothing(a, w, v);
  }

  lemma TxSendVAdds(a: R.Aead, w: World, spans: seq<Data>)
    requires Inv(w)
    ensures var v := Step(a, w, TxSendV(spans)); Owned(v) && Adds(a, w, v, Contents(w, TxSendV(spans)))
  {
    hide Adds, Explained, R.SendV, FirstContents, Pieces;
    var v := Step(a, w, TxSendV(spans));
    StepKeeps(a, w, TxSendV(spans));
    if w.tx.Some? {
      SendVExplained(a, w.tx.value, spans);
    }
    if w.tx.None? || |Concat(spans)| > 16384 {
      AddsNothing(a, w, v);
    } else {
      AddsOut(a, w, v, R.SendV(a, w.tx.value, spans).value, Contents(w, TxSendV(spans)));
    }
  }

  lemma AlertAdds(a: R.Aead, w: World, l: Octet, d: Octet)
    requires Inv(w)
    ensures var v := Step(a, w, Alert(l, d)); Owned(v) && Adds(a, w, v, Contents(w, Alert(l, d)))
  {
    hide Adds, Explained, R.SealRecord;
    var v := Step(a, w, Alert(l, d));
    if w.tls.detached {
      AddsNothing(a, w, v);
    } else {
      AlertExplained(a, w.tls, l, d);
      AddsOut(a, w, v, R.SendAlert(a, w.tls, l, d).value, [[l, d, 21]]);
    }
  }

  lemma TxAlertAdds(a: R.Aead, w: World, l: Octet, d: Octet)
    requires Inv(w)
    ensures var v := Step(a, w, TxAlert(l, d)); Owned(v) && Adds(a, w, v, Contents(w, TxAlert(l, d)))
  {
    hide Adds, Explained, R.SealRecord;
    var v := Step(a, w, TxAlert(l, d));
    if w.tx.None? {
      AddsNothing(a, w, v);
    } else {
      AlertExplained(a, w.tx.value, l, d);
      AddsOut(a, w, v, R.SendAlert(a, w.tx.value, l, d).value, [[l, d, 21]]);
    }
  }

  lemma TxUpdateAdds(a: R.Aead, w: World, request: bool)
    requires Inv(w)
    ensures var v := Step(a, w, TxUpdateKey(request)); Owned(v) && Adds(a, w, v, Contents(w, TxUpdateKey(request)))
  {
    hide Adds, R.UpdateSendKey;
    var v := Step(a, w, TxUpdateKey(request));
    if w.tx.None? {
      AddsNothing(a, w, v);
    } else {
      UpdateExplained(a, w.tx.value.enc.value, request);
      AddsOut(a, w, v, R.UpdateKeyNow(a, w.tx.value, request).value, [KeyUpdateContent(request)]);
    }
  }

  // The contents of a whole run
  function RunContents(a: R.Aead, p: R.Protection, ops: seq<Op>): seq<Data>
    decreases |ops|
  {
    if ops == [] then []
    else RunContents(a, p, ops[..|ops| - 1]) + Contents(Run(a, p, ops[..|ops| - 1]), ops[|ops| - 1])
  }

  /** Over every run, the bytes on the wire are the protected records of the contents in order, sealed with the
      nonces that are accounted for; the key left is the one after them. */
  lemma {:induction false} RunIsOnTheWire(a: R.Aead, p: R.Protection, ops: seq<Op>)
    ensures var w, plains := Run(a, p, ops), RunContents(a, p, ops);
      && w.wire == OnTheWire(a, p, plains)
      && w.used == Nonces(a, p, plains)
      && Current(w) == KeyAfter(a, p, plains)
    decreases |ops|
  {
    hide Step, Contents, OnTheWire, Nonces, KeyAfter;
    if ops == [] {
      NothingSent(a, p);
    } else {
      var n := |ops| - 1;
      var b := Run(a, p, ops[..n]);
      RunIsOnTheWire(a, p, ops[..n]);
      StepAdds(a, b, ops[n]);
      ContentsAppend(a, p, RunContents(a, p, ops[..n]), Contents(b, ops[n]));
    }
  }

  lemma NothingSent(a: R.Aead, p: R.Protection)
    ensures OnTheWire(a, p, []) == [] && Nonces(a, p, []) == [] && KeyAfter(a, p, []) == p
  {}

  /** A key update that was asked for, by the application or by the peer, goes out first with the next
      data, once, also when the keys are handed over in between. */
  lemma UpdateIsSent(a: R.Aead, w: World, request: bool, data: Data, more: Data)
    requires Inv(w) && !w.tls.detached
    ensures var v := Step(a, w, UpdateKey(request));
      Owned(v) && Contents(v, Send(data)) == [KeyUpdateContent(request)] + Pieces(data)
    ensures var v := Step(a, w, PeerRequest);
      Owned(v) && Contents(v, Send(data)) == [KeyUpdateContent(w.tls.sendRequest)] + Pieces(data)
    ensures var v := Step(a, w, Send(data));
      Owned(v) && Contents(v, Send(more))
        == (if Current(v).seqno >= 16777216 then [KeyUpdateContent(v.tls.sendRequest)] else []) + Pieces(more)
    ensures w.tls.needsUpdate ==> !Step(a, w, Send(data)).tls.sendRequest
    ensures var v := Step(a, w, Detach); Owned(v) && Contents(v, TxSend(data)) == Contents(w, Send(data))
  {
    hide Pieces, R.SealRecord, R.SealAll;
    StepKeeps(a, w, Detach);
    StepKeeps(a, w, UpdateKey(request));
    StepKeeps(a, w, PeerRequest);
    StepKeeps(a, w, Send(data));
  }

  // Requests of the peer that came once the keys had been handed over
  function Unanswered(ops: seq<Op>, detached: bool): nat
    decreases |ops|
  {
    if ops == [] then 0
    else
      (if detached && ops[0].PeerRequest? then 1 else 0) + Unanswered(ops[1..], detached || ops[0].Detach?)
  }

  predicate Detaches(ops: seq<Op>) { exists op | op in ops :: op.Detach? }

  lemma {:induction false} UnansweredNext(ops: seq<Op>, op: Op, detached: bool)
    ensures Unanswered(ops + [op], detached)
      == Unanswered(ops, detached) + if (detached || Detaches(ops)) && op.PeerRequest? then 1 else 0
    decreases |ops|
  {
    if ops == [] {
      assert ops + [op] == [op] && [op][1..] == [];
    } else {
      assert (ops + [op])[0] == ops[0] && (ops + [op])[1..] == ops[1..] + [op];
      UnansweredNext(ops[1..], op, detached || ops[0].Detach?);
      assert forall o | o in ops :: o == ops[0] || o in ops[1..];
    }
  }

  /** Whoever holds the keys can tell how many updates the peer asked for: all those since the hand-over. */
  lemma {:induction false} RequestsAreCounted(a: R.Aead, p: R.Protection, ops: seq<Op>)
    ensures var w := Run(a, p, ops);
      w.tls.detached == Detaches(ops) && w.tls.updateRequests == Unanswered(ops, false)
    decreases |ops|
  {
    if ops != [] {
      var n := |ops| - 1;
      RequestsAreCounted(a, p, ops[..n]);
      UnansweredNext(ops[..n], ops[n], false);
      assert ops == ops[..n] + [ops[n]];
      StepFlags(a, Run(a, p, ops[..n]), ops[n]);
      assert Detaches(ops) <==> Detaches(ops[..n]) || ops[n].Detach?;
    }
  }

  lemma StepFlags(a: R.Aead, w: World, op: Op)
    requires Inv(w)
    ensures var v := Step(a, w, op);
      && v.tls.detached == (w.tls.detached || op.Detach?)
      && v.tls.updateRequests == w.tls.updateRequests + if w.tls.detached && op.PeerRequest? then 1 else 0
  {
    hide R.SealRecord, R.SealAll;
  }
}
