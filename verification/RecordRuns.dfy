/** Whole runs of the record layer: a connection, from some point on with its outbound state
    detached, sending, updating keys and alerting in any order. */
module RecordRuns {
  import opened Results
  import opened Wire
  import opened Records
  import R = RecordLayer

  datatype Op =
    | Send(data: Data) | UpdateKey(request: bool) | Alert(level: Octet, description: Octet)
    | PeerRequest | Detach
    | TxSend(data: Data) | TxSendV(spans: seq<Data>) | TxUpdateKey(request: bool) | TxAlert(level: Octet,
      description: Octet)

  // The connection, the detached sender if there is one, and what went out so far: the bytes,
  // the nonces and the application data.
  datatype World = World(tls: R.Side, tx: Option<R.Side>, wire: Data, used: seq<R.Nonce>, sent: Data)

  // Exactly one of the two holds the outbound state.
  ghost predicate Owned(w: World)
  {
    || (w.tls.enc.Some? && !w.tls.detached && w.tx.None?)
    || (w.tls.enc.None? && w.tls.detached && w.tx.Some? && w.tx.value.enc.Some? && !w.tx.value.detached)
  }

  // The owner's protection
  function Current(w: World): R.Protection
    requires Owned(w)
  {
    if w.tls.enc.Some? then w.tls.enc.value else w.tx.value.enc.value
  }

  function Start(p: R.Protection): World
  {
    World(R.Side(Some(p), false, false, false, 0), None, [], [], [])
  }

  // Record what an operation put out.
  function Out(w: World, s: R.Sent, data: Data): World
  {
    w.(wire := w.wire + s.wire, used := w.used + s.used, sent := w.sent + data)
  }

  function OnTls(w: World, r: Result<R.Sent, R.Error>, data: Data): World
  {
    if r.Err? then w else Out(w.(tls := r.value.side), r.value, data)
  }

  function OnTx(w: World, r: Result<R.Sent, R.Error>, data: Data): World
  {
    if r.Err? then w else Out(w.(tx := Some(r.value.side)), r.value, data)
  }

  // One call; calls on a sender that does not exist are not possible and change nothing.
  function Step(a: R.Aead, w: World, op: Op): World
    requires Owned(w)
  {
    match op
    case Send(data) => OnTls(w, R.Send(a, w.tls, data), data)
    case UpdateKey(request) =>
      var r := R.UpdateKey(w.tls, request);
      if r.Err? then w else w.(tls := r.value)
    case Alert(l, d) => OnTls(w, R.SendAlert(a, w.tls, l, d), [])
    case PeerRequest => w.(tls := R.PeerRequest(w.tls))
    case Detach =>
      var r := R.Detach(w.tls);
      if r.Err? then w else w.(tls := r.value.0, tx := Some(r.value.1))
    case TxSend(data) => if w.tx.None? then w else OnTx(w, R.Send(a, w.tx.value, data), data)
    case TxSendV(spans) => if w.tx.None? then w else OnTx(w, R.SendV(a, w.tx.value, spans), Concat(spans))
    case TxUpdateKey(request) => if w.tx.None? then w else OnTx(w, R.UpdateKeyNow(a, w.tx.value, request), [])
    case TxAlert(l, d) => if w.tx.None? then w else OnTx(w, R.SendAlert(a, w.tx.value, l, d), [])
  }

  // What an operation does to the outbound state it works on.
  ghost predicate Emits(a: R.Aead, p: R.Protection, s: R.Sent)
  {
    && s.side.enc.Some? && !s.side.detached
    && var q := s.side.enc.value;
    && Ordered(s.used)
    && (forall i | 0 <= i < |s.used| ::
      !Less(s.used[i], R.Nonce(p.generation, p.seqno)) && Less(s.used[i], R.Nonce(q.generation, q.seqno)))
    && (q == p || Less(R.Nonce(p.generation, p.seqno), R.Nonce(q.generation, q.seqno)))
  }

  predicate Less(m: R.Nonce, n: R.Nonce)
  {
    m.generation < n.generation || (m.generation == n.generation && m.seqno < n.seqno)
  }

  // Strictly increasing
  predicate Ordered(used: seq<R.Nonce>)
  {
    forall i, j | 0 <= i < j < |used| :: Less(used[i], used[j])
  }

  lemma SendEmits(a: R.Aead, s: R.Side, data: Data)
    requires s.enc.Some? && !s.detached
    ensures Emits(a, s.enc.value, R.Send(a, s, data).value)
  {
    hide R.SealRecord, R.SealAll;
    var u := R.Prelude(a, s);
    R.SealAllCounts(a, u.p, APPDATA, data);
  }

  lemma SendVEmits(a: R.Aead, s: R.Side, spans: seq<Data>)
    requires s.enc.Some? && !s.detached && R.SendV(a, s, spans).Ok?
    ensures Emits(a, s.enc.value, R.SendV(a, s, spans).value)
  {
    hide R.Send, Emits;
    R.SendVIsSend(a, s, spans);
    SendEmits(a, s, Concat(spans));
  }

  lemma UpdateEmits(a: R.Aead, s: R.Side, request: bool)
    requires s.enc.Some? && !s.detached
    ensures Emits(a, s.enc.value, R.UpdateKeyNow(a, s, request).value)
  {
    hide R.SealRecord;
  }

  lemma AlertEmits(a: R.Aead, s: R.Side, level: Octet, description: Octet)
    requires s.enc.Some? && !s.detached
    ensures Emits(a, s.enc.value, R.SendAlert(a, s, level, description).value)
  {
    hide R.SealRecord;
  }

  // The nonces used so far are all different and all before the next one.
  ghost predicate Inv(w: World)
  {
    && Owned(w)
    && Ordered(w.used)
    && forall i | 0 <= i < |w.used| :: Less(w.used[i], R.Nonce(Current(w).generation, Current(w).seqno))
  }

  lemma EmitsKeeps(a: R.Aead, w: World, s: R.Sent, v: World)
    requires Inv(w) && Emits(a, Current(w), s)
    requires v.used == w.used + s.used && Owned(v) && s.side.enc == Some(Current(v))
    ensures Inv(v)
  {
  }

  lemma StepKeeps(a: R.Aead, w: World, op: Op)
    requires Inv(w)
    ensures Inv(Step(a, w, op))
  {
    hide R.Send, R.SendV, R.SendAlert, R.UpdateKeyNow, R.Prelude, R.Settled;
    match op
    case Send(data) => SendStep(a, w, data);
    case Alert(l, d) => AlertStep(a, w, l, d);
    case TxSend(data) => TxSendStep(a, w, data);
    case TxSendV(spans) => TxSendVStep(a, w, spans);
    case TxUpdateKey(request) => TxUpdateStep(a, w, request);
    case TxAlert(l, d) => TxAlertStep(a, w, l, d);
    case UpdateKey(_) =>
    case PeerRequest =>
    case Detach =>
  }

  lemma SendStep(a: R.Aead, w: World, data: Data)
    requires Inv(w)
    ensures Inv(Step(a, w, Send(data)))
  {
    hide R.Prelude, R.Settled;
    if w.tls.enc.Some? {
      SendEmits(a, w.tls, data);
      EmitsKeeps(a, w, R.Send(a, w.tls, data).value, Step(a, w, Send(data)));
    }
  }

  lemma AlertStep(a: R.Aead, w: World, l: Octet, d: Octet)
    requires Inv(w)
    ensures Inv(Step(a, w, Alert(l, d)))
  {
    hide R.SealRecord;
    if w.tls.enc.Some? {
      AlertEmits(a, w.tls, l, d);
      EmitsKeeps(a, w, R.SendAlert(a, w.tls, l, d).value, Step(a, w, Alert(l, d)));
    }
  }

  lemma TxSendStep(a: R.Aead, w: World, data: Data)
    requires Inv(w)
    ensures Inv(Step(a, w, TxSend(data)))
  {
    hide R.Prelude, R.Settled;
    if w.tx.Some? {
      SendEmits(a, w.tx.value, data);
      EmitsKeeps(a, w, R.Send(a, w.tx.value, data).value, Step(a, w, TxSend(data)));
    }
  }

  lemma TxSendVStep(a: R.Aead, w: World, spans: seq<Data>)
    requires Inv(w)
    ensures Inv(Step(a, w, TxSendV(spans)))
  {
    hide R.SendV;
    if w.tx.Some? && R.SendV(a, w.tx.value, spans).Ok? {
      SendVEmits(a, w.tx.value, spans);
      EmitsKeeps(a, w, R.SendV(a, w.tx.value, spans).value, Step(a, w, TxSendV(spans)));
    }
  }

  lemma TxUpdateStep(a: R.Aead, w: World, request: bool)
    requires Inv(w)
    ensures Inv(Step(a, w, TxUpdateKey(request)))
  {
    hide R.SealRecord;
    if w.tx.Some? {
      UpdateEmits(a, w.tx.value, request);
      EmitsKeeps(a, w, R.UpdateKeyNow(a, w.tx.value, request).value, Step(a, w, TxUpdateKey(request)));
    }
  }

  lemma TxAlertStep(a: R.Aead, w: World, l: Octet, d: Octet)
    requires Inv(w)
    ensures Inv(Step(a, w, TxAlert(l, d)))
  {
    hide R.SealRecord;
    if w.tx.Some? {
      AlertEmits(a, w.tx.value, l, d);
      EmitsKeeps(a, w, R.SendAlert(a, w.tx.value, l, d).value, Step(a, w, TxAlert(l, d)));
    }
  }

  // ---------------------------------------------------------------- runs

  // The world after all of the calls, starting with key p.
  function Run(a: R.Aead, p: R.Protection, ops: seq<Op>): (w: World)
    ensures Inv(w)
    decreases |ops|
  {
    if ops == [] then Start(p)
    else
      var b := Run(a, p, ops[..|ops| - 1]);
      StepKeeps(a, b, ops[|ops| - 1]);
      Step(a, b, ops[|ops| - 1])
  }

  /** Over every run, no pair of key generation and sequence number is used twice, and exactly one
      object can use the next one. */
  lemma NoncesAreUnique(a: R.Aead, p: R.Protection, ops: seq<Op>)
    ensures var w := Run(a, p, ops);
      && (forall i, j | 0 <= i < j < |w.used| :: w.used[i] != w.used[j])
      && (w.tls.enc.Some? <==> !(w.tx.Some? && w.tx.value.enc.Some?))
      && forall i | 0 <= i < |w.used| :: w.used[i] != R.Nonce(Current(w).generation, Current(w).seqno)
  {
    hide Step;
    var w := Run(a, p, ops);
    assert Inv(w);
    forall i, j | 0 <= i < j < |w.used| ensures w.used[i] != w.used[j] {
      assert Less(w.used[i], w.used[j]);
    }
  }

  // ---------------------------------------------------------------- delivery

  predicate IsAlert(op: Op) { op.Alert? || op.TxAlert? }

  // The receiver has everything that was sent and the sender's key.
  ghost predicate Caught(a: R.Aead, r0: R.Receiver, w: World)
    requires Owned(w)
  {
    && R.Whole(w.wire)
    && var q := R.Receive(a, r0, w.wire);
    && q.Ok?
    && q.value == r0.(dec := Current(w), delivered := r0.delivered + w.sent, requests := q.value.requests)
  }

  // What one send does to a receiver in step with the sender.
  ghost predicate Followed(a: R.Aead, r: R.Receiver, s: R.Sent, data: Data)
  {
    && R.Whole(s.wire)
    && s.side.enc.Some?
    && var q := R.Receive(a, r, s.wire);
    && q.Ok?
    && q.value == r.(dec := s.side.enc.value, delivered := r.delivered + data, requests := q.value.requests)
  }

  lemma NothingReceived(a: R.Aead, r: R.Receiver)
    ensures R.Whole([]) && R.Receive(a, r, []) == Ok(r)
  {}

  lemma SendFollowed(a: R.Aead, r: R.Receiver, s: R.Side, data: Data)
    requires a.Correct() && s.enc == Some(r.dec) && !s.detached && r.mess == []
    ensures Followed(a, r, R.Send(a, s, data).value, data)
  {
    hide R.SealRecord, R.SealAll, R.Receive, R.Whole, R.UpdateSendKey;
    var u := R.Prelude(a, s);
    NothingReceived(a, r);
    R.KeyUpdateReceived(a, r, r.dec, s.sendRequest);
    var q := R.Receive(a, r, u.wire).value;
    R.SealAllReceived(a, q, u.p, data);
    R.ReceiveAppend(a, r, u.wire, R.SealAll(a, u.p, APPDATA, data).wire);
  }

  lemma SendVFollowed(a: R.Aead, r: R.Receiver, s: R.Side, spans: seq<Data>)
    requires a.Correct() && s.enc == Some(r.dec) && !s.detached && r.mess == [] && R.SendV(a, s, spans).Ok?
    ensures Followed(a, r, R.SendV(a, s, spans).value, Concat(spans))
  {
    hide R.Send, Followed;
    R.SendVIsSend(a, s, spans);
    SendFollowed(a, r, s, Concat(spans));
  }

  lemma UpdateFollowed(a: R.Aead, r: R.Receiver, s: R.Side, request: bool)
    requires a.Correct() && s.enc == Some(r.dec) && r.mess == []
    ensures Followed(a, r, R.UpdateKeyNow(a, s, request).value, [])
  {
    hide R.SealRecord, R.Receive, R.Whole;
    R.KeyUpdateReceived(a, r, r.dec, request);
    assert r.delivered + [] == r.delivered;
  }

  lemma FollowedCaught(a: R.Aead, r0: R.Receiver, w: World, s: R.Sent, data: Data, v: World)
    requires Owned(w) && Owned(v) && Caught(a, r0, w)
    requires Followed(a, R.Receive(a, r0, w.wire).value, s, data)
    requires v.wire == w.wire + s.wire && v.sent == w.sent + data && Some(Current(v)) == s.side.enc
    ensures Caught(a, r0, v)
  {
    hide R.Receive, R.Whole;
    R.ReceiveAppend(a, r0, w.wire, s.wire);
    assert r0.delivered + w.sent + data == r0.delivered + (w.sent + data);
  }

  lemma StepCaught(a: R.Aead, r0: R.Receiver, w: World, op: Op)
    requires a.Correct() && Inv(w) && Caught(a, r0, w) && r0.mess == [] && !IsAlert(op)
    ensures Inv(Step(a, w, op)) && Caught(a, r0, Step(a, w, op))
  {
    hide R.Send, R.SendV, R.UpdateKeyNow, R.Receive, R.Whole, Followed;
    StepKeeps(a, w, op);
    var r := R.Receive(a, r0, w.wire).value;
    var v := Step(a, w, op);
    match op
    case Send(data) =>
      if w.tls.enc.Some? {
        SendFollowed(a, r, w.tls, data);
        SendOut(a, w.tls, data);
        FollowedCaught(a, r0, w, R.Send(a, w.tls, data).value, data, v);
      }
      else { SendRefused(a, w.tls, data); }
    case TxSend(data) =>
      if w.tx.Some? {
        SendFollowed(a, r, w.tx.value, data);
        SendOut(a, w.tx.value, data);
        FollowedCaught(a, r0, w, R.Send(a, w.tx.value, data).value, data, v);
      }
    case TxSendV(spans) =>
      if w.tx.Some? && R.SendV(a, w.tx.value, spans).Ok? {
        SendVFollowed(a, r, w.tx.value, spans);
        FollowedCaught(a, r0, w, R.SendV(a, w.tx.value, spans).value, Concat(spans), v);
      }
    case TxUpdateKey(request) =>
      if w.tx.Some? {
        UpdateFollowed(a, r, w.tx.value, request);
        UpdateOut(a, w.tx.value, request);
        FollowedCaught(a, r0, w, R.UpdateKeyNow(a, w.tx.value, request).value, [], v);
      }
    case UpdateKey(_) =>
    case PeerRequest =>
    case Detach =>
    case Alert(_, _) =>
    case TxAlert(_, _) =>
  }

  lemma SendOut(a: R.Aead, s: R.Side, data: Data)
    requires s.enc.Some? && !s.detached
    ensures R.Send(a, s, data).Ok?
  {}

  lemma SendRefused(a: R.Aead, s: R.Side, data: Data)
    requires s.detached
    ensures R.Send(a, s, data) == Err(R.NotAvailable)
  {}

  lemma UpdateOut(a: R.Aead, s: R.Side, request: bool)
    requires s.enc.Some?
    ensures R.UpdateKeyNow(a, s, request).Ok?
  {}

  /** For every sequence of sends and key updates, with the outbound state detached at any point,
      the receiver delivers exactly what was sent and ends with the sender's key and sequence number. */
  lemma {:induction false} RunIsDelivered(a: R.Aead, r0: R.Receiver, ops: seq<Op>)
    requires a.Correct() && r0.mess == [] && forall op | op in ops :: !IsAlert(op)
    ensures Owned(Run(a, r0.dec, ops)) && Caught(a, r0, Run(a, r0.dec, ops))
    decreases |ops|
  {
    hide Step, Caught;
    if ops == [] {
      StartCaught(a, r0);
    } else {
      var n := |ops| - 1;
      RunIsDelivered(a, r0, ops[..n]);
      assert ops[n] in ops;
      StepCaught(a, r0, Run(a, r0.dec, ops[..n]), ops[n]);
    }
  }

  lemma StartCaught(a: R.Aead, r0: R.Receiver)
    ensures Owned(Start(r0.dec)) && Caught(a, r0, Start(r0.dec))
  {
    NothingReceived(a, r0);
    assert r0.delivered + [] == r0.delivered;
  }

  // ---------------------------------------------------------------- sequence numbers

  // One send, from below the limit
  lemma SendBound(a: R.Aead, s: R.Side, data: Data)
    requires s.enc.Some? && !s.detached && s.enc.value.seqno < R.LIMIT
    ensures R.Send(a, s, data).value.side.enc.value.seqno <= R.LIMIT - 1 + R.RecordCount(|data|)
  {
    hide R.SealRecord, R.SealAll;
    R.SealAllCounts(a, R.Prelude(a, s).p, APPDATA, data);
  }

  /** In runs of ptls_tx_sendv alone the sequence number never exceeds 2^24. */
  lemma {:induction false} SendVBound(a: R.Aead, s: R.Side, calls: seq<seq<Data>>)
    requires s.enc.Some? && s.enc.value.seqno <= R.LIMIT
    ensures var t := SendVs(a, s, calls); t.enc.Some? && t.enc.value.seqno <= R.LIMIT
    decreases |calls|
  {
    hide R.SealRecord;
    if calls != [] {
      var r := R.SendV(a, s, calls[0]);
      if r.Ok? { SendVBound(a, r.value.side, calls[1..]); } else { SendVBound(a, s, calls[1..]); }
    }
  }

  function SendVs(a: R.Aead, s: R.Side, calls: seq<seq<Data>>): (t: R.Side)
    requires s.enc.Some?
    ensures t.enc.Some?
    decreases |calls|
  {
    if calls == [] then s
    else
      var r := R.SendV(a, s, calls[0]);
      SendVs(a, if r.Ok? then r.value.side else s, calls[1..])
  }
}
