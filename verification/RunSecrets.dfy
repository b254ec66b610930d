/** Every key of an honest run is the one that RFC 8446 prescribes for the bytes that were exchanged. */
module RunSecrets {
  import opened Results
  import opened Wire
  import opened KeySchedule
  import opened Messages
  import opened Secrets
  import A = Agreement
  import C = TlsClient
  import S = TlsServer

  // The bytes of messages, one after the other
  function BytesOf(ms: seq<Message>): Data
  {
    if ms == [] then [] else Raw(ms[0]) + BytesOf(ms[1..])
  }

  // The messages before the first Finished
  function UpToFinished(ms: seq<Message>): (r: seq<Message>)
    ensures |r| <= |ms| && r == ms[..|r|]
  {
    if ms == [] || ms[0].Finished? then [] else [ms[0]] + UpToFinished(ms[1..])
  }

  // The Diffie-Hellman result, if both ends have sent a share
  function SharedSecret(k: Crypto, client: Option<Share>, server: Option<Share>): Option<Data>
  {
    if client.Some? && server.Some? then Some(k.exchange(server.value.group, client.value.key, server.value.key))
    else None
  }

  // What the secrets of a handshake depend on: hash, PSK, key exchange, and the bytes of the messages up to the last
  // ClientHello, to ServerHello, to the message before the server's Finished, to that, and to the client's Finished
  datatype Story = Story(
    a: nat, psk: Option<Data>, shared: Option<Data>,
    hello: Data, greeted: Data, flight: Data, server: Data, all: Data)
  {
    function Early(k: Crypto): Data { EarlySecret(k, a, psk) }

    function Handshake(k: Crypto): Data { HandshakeSecret(k, a, psk, shared) }

    function Master(k: Crypto): Data { MasterSecret(k, a, psk, shared) }
  }

  // The keys for what the server sends, in the order of their use
  function ServerKeys(k: Crypto, h: Story): seq<Traffic>
  {
    [Traffic(2, SecretOver(k, h.a, h.Handshake(k), "s hs traffic", h.greeted)),
     Traffic(3, SecretOver(k, h.a, h.Master(k), "s ap traffic", h.server))]
  }

  function ClientKeys(k: Crypto, h: Story): seq<Traffic>
  {
    [Traffic(2, SecretOver(k, h.a, h.Handshake(k), "c hs traffic", h.greeted)),
     Traffic(3, SecretOver(k, h.a, h.Master(k), "c ap traffic", h.server))]
  }

  // The key for early data, when it is accepted
  function EarlyKey(k: Crypto, h: Story): Traffic
  {
    Traffic(1, SecretOver(k, h.a, h.Early(k), "c e traffic", h.hello))
  }

  function EarlyKeysIf(k: Crypto, h: Story, accepted: bool): seq<Traffic>
  {
    if accepted then [EarlyKey(k, h)] else []
  }

  // ---------------------------------------------------------------- one step at a time

  // Keys of a server that has hashed the hello and done nothing else
  function Started(k: Crypto, h: Story): Keys
  {
    NO_KEYS.(sched := Single(1, h.Early(k), h.a, h.hello))
  }

  // Keys of a server that has sent ServerHello
  ghost predicate AfterHello(k: Crypto, sc: S.Config, h: Story, y: Keys, accepted: bool)
  {
    && y.enc == ServerKeys(k, h)[0] && y.encLog == [y.enc]
    && A.Eventual(y.decLog, y.pending) == EarlyKeysIf(k, h, accepted) + [ClientKeys(k, h)[0]]
    && A.HandshakeSecret(y.pending, y.dec.secret) == ClientKeys(k, h)[0].secret
    && y.exporter.None?
    && y.earlyExporter == (if accepted && sc.useExporter
                           then Some(SecretOver(k, h.a, h.Early(k), "e exp master", h.hello)) else None)
  }

  lemma GreetSecrets(k: Crypto, sc: S.Config, s: S.Server, ch: ClientHello, share: Option<Share>, f: Option<S.Found>,
      w: S.Reply, h: Story, z: S.Server, sh: Message)
    requires s.suite.Some? && s.keys == Started(k, h)
    requires S.Greet(k, sc, s, ch, share, f, w) == Ok((z, sh)) && sh.ServerHello?
    requires h.shared == SharedSecret(k, share, sh.share) && h.greeted == h.hello + sh.raw
    ensures z.keys.sched == Single(2, h.Handshake(k), h.a, h.greeted)
    ensures AfterHello(k, sc, h, z.keys, S.AcceptsEarly(sc, f))
    ensures z.sealed == s.sealed && z.isPsk == f.Some? && z.suite == s.suite
  {
    hide S.TicketCount;
    UpdateSingle(1, h.Early(k), h.a, h.hello, w.hello);
    var shared := if S.ModeOf(ch, f) != S.Psk then Some(k.exchange(share.value.group, share.value.key, w.key))
      else None;
    assert shared == h.shared;
    assert Extract(k, Single(1, h.Early(k), h.a, h.greeted), shared) == Single(2, h.Handshake(k), h.a, h.greeted);
  }

  lemma {:induction false} UpdateAllBytes(generation: nat, secret: Data, a: nat, bytes: Data, ms: seq<Message>)
    ensures UpdateAll(Single(generation, secret, a, bytes), ms) == Single(generation, secret, a, bytes + BytesOf(ms))
    decreases |ms|
  {
    if ms == [] {
      assert bytes + [] == bytes;
    } else {
      UpdateSingle(generation, secret, a, bytes, Raw(ms[0]));
      UpdateAllBytes(generation, secret, a, bytes + Raw(ms[0]), ms[1..]);
      assert bytes + Raw(ms[0]) + BytesOf(ms[1..]) == bytes + BytesOf(ms);
    }
  }

  lemma FinishedIs(k: Crypto, h: Story, s: Schedule, secret: Data)
    requires s == Single(2, h.Handshake(k), h.a, h.flight)
    ensures FinishedMessage(k, s, secret) == [20, 0, 0, Low(k.size(h.a))] + FinishedOver(k, h.a, secret, h.flight)
  {}

  // The server that has sent its flight
  ghost predicate Greeted(k: Crypto, sc: S.Config, h: Story, s: S.Server, accepted: bool)
  {
    var y := s.keys;
    && A.Awaiting(s)
    && y.sched == Single(3, h.Master(k), h.a, h.server)
    && y.enc == ServerKeys(k, h)[1] && y.encLog == ServerKeys(k, h)
    && A.Eventual(y.decLog, y.pending) == EarlyKeysIf(k, h, accepted) + [ClientKeys(k, h)[0]]
    && A.HandshakeSecret(y.pending, y.dec.secret) == ClientKeys(k, h)[0].secret
    && s.pendingTraffic == ClientKeys(k, h)[1].secret
    && y.exporter == (if sc.useExporter then Some(SecretOver(k, h.a, h.Master(k), "exp master", h.server)) else None)
    && y.earlyExporter == (if accepted && sc.useExporter
                           then Some(SecretOver(k, h.a, h.Early(k), "e exp master", h.hello)) else None)
  }

  lemma FinishSecrets(k: Crypto, sc: S.Config, x: S.Server, h: Story, accepted: bool, s: S.Server, fin: Message)
    requires x.keys.sched == Single(2, h.Handshake(k), h.a, h.flight) && AfterHello(k, sc, h, x.keys, accepted)
    requires S.Finish(k, sc, x) == Ok((s, fin)) && fin.Finished? && h.server == h.flight + fin.raw
    ensures fin.raw == [20, 0, 0, Low(k.size(h.a))] + FinishedOver(k, h.a, ServerKeys(k, h)[0].secret, h.flight)
    ensures Greeted(k, sc, h, s, accepted) && s.isPsk == x.isPsk
  {
    hide S.Finish, FinishedMessage, A.Eventual, A.Awaiting;
    A.ServerFinish(k, sc, x);
    UpdateSingle(2, h.Handshake(k), h.a, h.flight, fin.raw);
    FinishedIs(k, h, x.keys.sched, x.keys.enc.secret);
    assert Extract(k, Single(2, h.Handshake(k), h.a, h.server), None) == Single(3, h.Master(k), h.a, h.server);
  }

  // The transcripts are those of the flight that the server sent.
  ghost predicate Tells(k: Crypto, h: Story, ms: seq<Message>)
  {
    var n := |UpToFinished(ms)|;
    && 0 < n < |ms| && ms[0].ServerHello? && ms[n].Finished?
    && h.greeted == h.hello + ms[0].raw
    && h.flight == h.hello + BytesOf(ms[..n])
    && h.server == h.flight + ms[n].raw
    && ms[n].raw == [20, 0, 0, Low(k.size(h.a))] + FinishedOver(k, h.a, ServerKeys(k, h)[0].secret, h.flight)
  }

  lemma {:induction false} FinishedFound(a: seq<Message>, fin: Message, b: seq<Message>)
    requires (forall m | m in a :: !m.Finished?) && fin.Finished?
    ensures UpToFinished(a + [fin] + b) == a
    decreases |a|
  {
    var ms := a + [fin] + b;
    if a == [] {
      assert ms[0] == fin;
    } else {
      assert ms[0] == a[0] && ms[1..] == a[1..] + [fin] + b;
      FinishedFound(a[1..], fin, b);
    }
  }

  // The story that a server's flight tells
  function StoryOf(k: Crypto, a: nat, psk: Option<Data>, share: Option<Share>, hello: Data, ms: seq<Message>,
      reply: Data): Story
    requires ms != [] && ms[0].ServerHello? && |UpToFinished(ms)| < |ms|
  {
    var n := |UpToFinished(ms)|;
    var flight := hello + BytesOf(ms[..n]);
    var server := flight + Raw(ms[n]);
    Story(a, psk, SharedSecret(k, share, ms[0].share), hello, hello + ms[0].raw, flight, server, server + reply)
  }

  lemma FlightKinds(k: Crypto, cfg: S.Config, s: Schedule, early: bool, mode: S.Mode, w: S.Reply)
    requires s.slots != []
    ensures forall m | m in S.Flight(k, cfg, s, early, mode, w) :: !m.Finished?
  {
    hide UpdateAll, Update, TranscriptHash;
  }

  lemma RespondShape(k: Crypto, sc: S.Config, s: S.Server, ch: ClientHello, share: Option<Share>, f: Option<S.Found>,
      w: S.Reply, s1: S.Server, ms: seq<Message>)
    requires s.keys.sched.slots != [] && s.suite.Some? && s.sealed == []
    requires S.Respond(k, sc, s, ch, share, f, w) == Ok((s1, ms))
    ensures S.Greet(k, sc, s, ch, share, f, w).Ok?
    ensures var g := S.Greet(k, sc, s, ch, share, f, w).value;
      var flight := S.Flight(k, sc, g.0.keys.sched, g.0.keys.pending.Some?, S.ModeOf(ch, f), w);
      var x := g.0.(keys := g.0.keys.(sched := UpdateAll(g.0.keys.sched, flight)));
      && g.1.ServerHello?
      && S.Finish(k, sc, x).Ok? && S.Finish(k, sc, x).value.0 == s1 && S.Finish(k, sc, x).value.1.Finished?
      && UpToFinished(ms) == [g.1] + flight && |ms| > 1 + |flight|
      && ms[0] == g.1 && ms[1 + |flight|] == S.Finish(k, sc, x).value.1
  {
    hide S.Greet, S.Finish, S.Flight, UpdateAll, S.TicketMessages, UpToFinished;
    var g := S.Greet(k, sc, s, ch, share, f, w).value;
    A.GreetSendsHello(k, sc, s, ch, share, f, w);
    var flight := S.Flight(k, sc, g.0.keys.sched, g.0.keys.pending.Some?, S.ModeOf(ch, f), w);
    var x := g.0.(keys := g.0.keys.(sched := UpdateAll(g.0.keys.sched, flight)));
    A.FinishSendsFinished(k, sc, x);
    var fin := S.Finish(k, sc, x).value.1;
    FlightKinds(k, sc, g.0.keys.sched, g.0.keys.pending.Some?, S.ModeOf(ch, f), w);
    FinishedFound([g.1] + flight, fin, S.TicketMessages(sc, s1.sealed, 0));
  }

  /** What a server has derived when it has sent its flight, whatever the client does then */
  lemma RespondSecrets(k: Crypto, sc: S.Config, s: S.Server, ch: ClientHello, share: Option<Share>, f: Option<S.Found>,
      w: S.Reply, a: nat, psk: Option<Data>, hello: Data, reply: Data, s1: S.Server, ms: seq<Message>)
    requires s.suite.Some? && s.keys == NO_KEYS.(sched := Single(1, EarlySecret(k, a, psk), a, hello)) && s.sealed == []
    requires S.Respond(k, sc, s, ch, share, f, w) == Ok((s1, ms))
    ensures ms != [] && ms[0].ServerHello? && |UpToFinished(ms)| < |ms|
    ensures var h := StoryOf(k, a, psk, share, hello, ms, reply);
      Tells(k, h, ms) && Greeted(k, sc, h, s1, S.AcceptsEarly(sc, f)) && s1.isPsk == f.Some? && s1.suite == s.suite
  {
    hide S.Greet, S.Finish, S.Flight, UpdateAll, S.TicketMessages, S.Respond, UpToFinished, SecretOver, FinishedOver,
      HandshakeSecret, MasterSecret, EarlySecret, AfterHello, Greeted, ServerKeys, S.AcceptsEarly, S.ModeOf,
      SharedSecret, BytesOf;
    RespondShape(k, sc, s, ch, share, f, w, s1, ms);
    var g := S.Greet(k, sc, s, ch, share, f, w).value;
    var flight := S.Flight(k, sc, g.0.keys.sched, g.0.keys.pending.Some?, S.ModeOf(ch, f), w);
    var x := g.0.(keys := g.0.keys.(sched := UpdateAll(g.0.keys.sched, flight)));
    var h := StoryOf(k, a, psk, share, hello, ms, reply);
    GreetSecrets(k, sc, s, ch, share, f, w, h, g.0, g.1);
    FlightBytes(hello, g.1, flight, ms);
    FlightSecrets(k, sc, h, S.AcceptsEarly(sc, f), g.0, flight, x, s1, ms[1 + |flight|]);
  }

  lemma FlightSecrets(k: Crypto, sc: S.Config, h: Story, accepted: bool, z: S.Server, flight: seq<Message>, x: S.Server,
      s: S.Server, fin: Message)
    requires z.keys.sched == Single(2, h.Handshake(k), h.a, h.greeted) && AfterHello(k, sc, h, z.keys, accepted)
    requires z.sealed == [] && x == z.(keys := z.keys.(sched := UpdateAll(z.keys.sched, flight)))
    requires x.keys.sched.slots != [] && S.Finish(k, sc, x) == Ok((s, fin)) && fin.Finished?
    requires h.flight == h.greeted + BytesOf(flight) && h.server == h.flight + fin.raw
    ensures fin.raw == [20, 0, 0, Low(k.size(h.a))] + FinishedOver(k, h.a, ServerKeys(k, h)[0].secret, h.flight)
    ensures Greeted(k, sc, h, s, accepted) && s.isPsk == z.isPsk && s.suite == z.suite
  {
    hide S.Finish, UpdateAll, SecretOver, FinishedOver, HandshakeSecret, MasterSecret, EarlySecret, AfterHello, Greeted,
      ServerKeys;
    AfterFlight(k, sc, h, z.keys, flight, accepted);
    FinishSecrets(k, sc, x, h, accepted, s, fin);
    A.FinishSeals(k, sc, x, s, fin);
  }

  lemma FlightBytes(hello: Data, sh: Message, flight: seq<Message>, ms: seq<Message>)
    requires |ms| > 1 + |flight| && UpToFinished(ms) == [sh] + flight && sh.ServerHello?
    ensures hello + BytesOf(ms[..1 + |flight|]) == hello + sh.raw + BytesOf(flight)
  {
    assert ms[..1 + |flight|] == [sh] + flight && ([sh] + flight)[1..] == flight;
  }

  lemma AfterFlight(k: Crypto, sc: S.Config, h: Story, y: Keys, flight: seq<Message>, accepted: bool)
    requires y.sched == Single(2, h.Handshake(k), h.a, h.greeted) && AfterHello(k, sc, h, y, accepted)
    requires h.flight == h.greeted + BytesOf(flight)
    ensures var t := UpdateAll(y.sched, flight);
      t == Single(2, h.Handshake(k), h.a, h.flight) && AfterHello(k, sc, h, y.(sched := t), accepted)
  {
    hide HandshakeSecret, UpdateAll;
    UpdateAllBytes(2, h.Handshake(k), h.a, h.greeted, flight);
  }

  // ---------------------------------------------------------------- the client's answer

  lemma LastKeeps(k: Crypto, cfg: S.Config, s: S.Server, m: Message, w: S.Reply)
    requires cfg.suites != [] && A.Awaiting(s) && S.Step(k, cfg, s, m, true, w).Ok?
    ensures A.LastKind(m) || m.Finished?
    ensures var r := S.Step(k, cfg, s, m, true, w).value.0;
      && r.keys.sched == Update(s.keys.sched, m.raw)
      && (m.Finished? <==> r.state.PostHandshake?)
      && (!m.Finished? ==>
            && A.Awaiting(r)
            && A.HandshakeSecret(r.keys.pending, r.keys.dec.secret)
              == A.HandshakeSecret(s.keys.pending, s.keys.dec.secret))
      && (m.Finished? ==> s.keys.pending.None? && VerifyFinished(k, s.keys.sched, s.keys.dec.secret, m.raw).None?)
  {
    hide TranscriptHash, VerifyFinished, Update;
  }

  lemma NothingAfter(k: Crypto, cfg: S.Config, s: S.Server, ms: seq<Message>, w: S.Reply)
    requires cfg.suites != [] && s.state.PostHandshake? && A.FeedServer(k, cfg, s, ms, w).Ok?
    ensures ms == []
  {}

  // The Finished of the client is the MAC over everything before it.
  ghost predicate Answers(k: Crypto, a: nat, secret: Data, bytes: Data, out: seq<Message>)
  {
    && out != [] && (forall m | m in out[..|out| - 1] :: A.LastKind(m))
    && out[|out| - 1].Finished?
    && var raw := out[|out| - 1].raw;
    && |raw| == 4 + k.size(a)
    && raw[4..] == FinishedOver(k, a, secret, bytes + BytesOf(out[..|out| - 1]))
  }

  lemma {:induction false} AnswerShape(k: Crypto, cfg: S.Config, s: S.Server, out: seq<Message>, w: S.Reply,
      generation: nat, master: Data, a: nat, bytes: Data, t: S.Server)
    requires cfg.suites != [] && A.Awaiting(s) && s.keys.sched == Single(generation, master, a, bytes)
    requires A.FeedServer(k, cfg, s, out, w) == Ok(t) && t.state.PostHandshake?
    ensures Answers(k, a, A.HandshakeSecret(s.keys.pending, s.keys.dec.secret), bytes, out)
    decreases |out|
  {
    hide S.Step, Update, A.Awaiting, FinishedOver;
    AwaitsMore(s);
    FeedNone(k, cfg, s, w);
    var m := out[0];
    LastKeeps(k, cfg, s, m, w);
    var r := S.Step(k, cfg, s, m, true, w).value.0;
    UpdateSingle(generation, master, a, bytes, m.raw);
    if m.Finished? {
      NothingAfter(k, cfg, r, out[1..], w);
      assert out == [m] && out[..0] == [];
      assert bytes + BytesOf([]) == bytes;
      FinishedChecked(k, s.keys.sched, generation, master, a, bytes, s.keys.dec.secret, m.raw);
    } else {
      AnswerShape(k, cfg, r, out[1..], w, generation, master, a, bytes + m.raw, t);
      AnswerNext(k, a, A.HandshakeSecret(s.keys.pending, s.keys.dec.secret), bytes, m, out[1..]);
      assert [m] + out[1..] == out;
    }
  }

  lemma AwaitsMore(s: S.Server)
    requires A.Awaiting(s)
    ensures !s.state.PostHandshake?
  {}

  lemma FeedNone(k: Crypto, cfg: S.Config, s: S.Server, w: S.Reply)
    requires cfg.suites != []
    ensures A.FeedServer(k, cfg, s, [], w) == Ok(s)
  {}

  lemma FinishedChecked(k: Crypto, s: Schedule, generation: nat, master: Data, a: nat, bytes: Data, secret: Data,
      raw: Data)
    requires s == Single(generation, master, a, bytes) && VerifyFinished(k, s, secret, raw).None?
    ensures |raw| == 4 + k.size(a) && raw[4..] == FinishedOver(k, a, secret, bytes)
  {}

  lemma AnswerNext(k: Crypto, a: nat, secret: Data, bytes: Data, m: Message, out: seq<Message>)
    requires A.LastKind(m) && Answers(k, a, secret, bytes + m.raw, out)
    ensures Answers(k, a, secret, bytes, [m] + out)
  {
    hide FinishedOver;
    var all := [m] + out;
    assert all[|all| - 1] == out[|out| - 1];
    var front := all[..|all| - 1];
    assert front[0] == m && front[1..] == out[..|out| - 1];
    assert bytes + BytesOf(front) == bytes + m.raw + BytesOf(out[..|out| - 1]);
  }

  lemma {:induction false} BytesAppend(a: seq<Message>, b: seq<Message>)
    ensures BytesOf(a + b) == BytesOf(a) + BytesOf(b)
    decreases |a|
  {
    if a == [] {
      assert a + b == b;
    } else {
      assert (a + b)[0] == a[0] && (a + b)[1..] == a[1..] + b;
      BytesAppend(a[1..], b);
    }
  }

  // ---------------------------------------------------------------- what the flights consist of

  lemma {:induction false} TranscriptAfter(k: Crypto, generation: nat, secret: Data, a: nat, bytes: Data,
      ms: seq<Message>)
    ensures UpdateAll(Single(generation, secret, a, bytes), ms).slots != []
    ensures TranscriptHash(k, UpdateAll(Single(generation, secret, a, bytes), ms)) == k.hash(a, bytes + BytesOf(ms))
  {
    UpdateAllBytes(generation, secret, a, bytes, ms);
  }

  /** After ServerHello a server sends EncryptedExtensions and, in a full handshake, the request for a certificate, if
      it wants one, its own certificate, and the signature over everything up to that. */
  lemma ServerSends(k: Crypto, sc: S.Config, secret: Data, a: nat, bytes: Data, early: bool, mode: S.Mode, w: S.Reply)
    ensures var ee := EncryptedExtensions(w.extensions, early);
      var unsigned := (if sc.requireClientAuth then [CertificateRequest(w.request)] else [])
        + [Certificate(w.certificate, w.certificateEmpty)];
      S.Flight(k, sc, Single(2, secret, a, bytes), early, mode, w) == [ee] + (
        if mode != S.Full then []
        else unsigned + (if w.sign.None? then []
          else [CertificateVerify(w.sign.value(k.hash(a, bytes + w.extensions + BytesOf(unsigned))))]))
  {
    hide UpdateAll, TranscriptHash;
    UpdateSingle(2, secret, a, bytes, w.extensions);
    var unsigned := (if sc.requireClientAuth then [CertificateRequest(w.request)] else [])
      + [Certificate(w.certificate, w.certificateEmpty)];
    TranscriptAfter(k, 2, secret, a, bytes + w.extensions, unsigned);
  }

  /** The client answers with the end of its early data, if the server took any and waits for it, its credentials, if
      it was asked, with a signature over everything up to them, and its Finished message. */
  lemma ClientSends(k: Crypto, cfg: C.Config, c: C.Client, m: Message, l: C.LastFlight, secret: Data, a: nat,
      bytes: Data)
    requires l.Valid() && m.Finished? && c.keys.sched == Single(2, secret, a, bytes)
    requires C.OnFinished(k, cfg, c, m, l).Ok?
    ensures var early := if c.keys.pending.Some? && c.early && !cfg.omitEndOfEarlyData
          then [EndOfEarlyData([5, 0, 0, 0])] else [];
      var seen := bytes + m.raw + BytesOf(early);
      var credentials := if !c.certRequested then []
        else [l.certificate] + if l.sign.None? then []
          else [CertificateVerify(l.sign.value(k.hash(a, seen + l.certificate.raw)))];
      C.OnFinished(k, cfg, c, m, l).value.1 == early + credentials + [Finished([20, 0, 0, Low(k.size(a))]
        + FinishedOver(k, a, A.HandshakeSecret(c.keys.pending, c.keys.enc.secret), seen + BytesOf(credentials)))]
  {
    hide UpdateAll, VerifyFinished, C.ReadKeys, FinishedOver, BytesOf;
    var early := if c.keys.pending.Some? && c.early && !cfg.omitEndOfEarlyData
      then [EndOfEarlyData([5, 0, 0, 0])] else [];
    var seen := bytes + m.raw + BytesOf(early);
    var master := Extract(k, Single(2, secret, a, bytes + m.raw), None).secret;
    var s := Single(3, master, a, bytes + m.raw);
    UpdateSingle(2, secret, a, bytes, m.raw);
    assert Extract(k, Update(c.keys.sched, m.raw), None) == s;
    UpdateAllBytes(3, master, a, bytes + m.raw, early);
    var credentials := C.Credentials(k, Single(3, master, a, seen), l);
    CredentialsAre(k, master, a, seen, l);
    var sent := early + if c.certRequested then credentials else [];
    UpdateAllBytes(3, master, a, bytes + m.raw, sent);
    BytesAppend(early, if c.certRequested then credentials else []);
    var all := bytes + m.raw + BytesOf(sent);
    assert all == seen + BytesOf(if c.certRequested then credentials else []);
    ConcludedSends(k, cfg, c, s, l, sent, all);
  }

  lemma CredentialsAre(k: Crypto, secret: Data, a: nat, bytes: Data, l: C.LastFlight)
    requires l.Valid()
    ensures C.Credentials(k, Single(3, secret, a, bytes), l) == [l.certificate] + if l.sign.None? then []
      else [CertificateVerify(l.sign.value(k.hash(a, bytes + l.certificate.raw)))]
  {
    UpdateSingle(3, secret, a, bytes, l.certificate.raw);
  }

  lemma ConcludedSends(k: Crypto, cfg: C.Config, c: C.Client, s: Schedule, l: C.LastFlight, sent: seq<Message>,
      all: Data)
    requires s.slots != [] && C.BeforeFinished(k, cfg, c, s, l) == sent
    requires UpdateAll(s, sent) == Single(3, s.secret, Algo(s), all)
    ensures var y := C.ReadKeys(k, cfg, c.keys.(sched := s));
      C.Concluded(k, cfg, c.(keys := y), Derive(k, s, "c ap traffic"), l).1 == sent + [Finished(
        [20, 0, 0, Low(k.size(Algo(s)))]
        + FinishedOver(k, Algo(s), A.HandshakeSecret(c.keys.pending, c.keys.enc.secret), all))]
  {
    hide UpdateAll, Derive;
  }

  // ---------------------------------------------------------------- both ends at the end

  ghost predicate ServerHolds(k: Crypto, sc: S.Config, h: Story, t: S.Server)
  {
    var y := t.keys;
    && y.sched == Single(3, h.Master(k), h.a, h.all)
    && y.encLog == ServerKeys(k, h) && y.enc == ServerKeys(k, h)[1]
    && (y.decLog == ClientKeys(k, h) || y.decLog == [EarlyKey(k, h)] + ClientKeys(k, h))
    && y.dec == ClientKeys(k, h)[1]
    && y.exporter == (if sc.useExporter then Some(SecretOver(k, h.a, h.Master(k), "exp master", h.server)) else None)
    && y.earlyExporter == (if |y.decLog| == 3 && sc.useExporter
                           then Some(SecretOver(k, h.a, h.Early(k), "e exp master", h.hello)) else None)
  }

  ghost predicate ClientHolds(k: Crypto, cc: C.Config, sc: S.Config, h: Story, c: C.Client)
  {
    var y, n := c.keys, |c.keys.encLog|;
    && y.sched == Single(3, h.Master(k), h.a, h.all)
    && y.decLog == ServerKeys(k, h) && y.dec == ServerKeys(k, h)[1]
    && n >= 2 && y.encLog[n - 2..] == ClientKeys(k, h) && y.enc == ClientKeys(k, h)[1]
    && (cc.useExporter && sc.useExporter ==>
          y.exporter == Some(SecretOver(k, h.a, h.Master(k), "exp master", h.server)))
    && forall t | t in c.tickets :: t.secret == TicketSecret(k, h.a, h.Master(k), h.all, [])
  }

  lemma ServerEnds(k: Crypto, sc: S.Config, h: Story, s: S.Server, accepted: bool, out: seq<Message>, w: S.Reply,
      t: S.Server)
    requires sc.suites != [] && Greeted(k, sc, h, s, accepted) && h.all == h.server + BytesOf(out)
    requires A.FeedServer(k, sc, s, out, w) == Ok(t) && t.state.PostHandshake?
    ensures ServerHolds(k, sc, h, t)
    ensures Answers(k, h.a, ClientKeys(k, h)[0].secret, h.server, out)
    ensures t.isPsk == s.isPsk && t.suite == s.suite
  {
    hide A.FeedServer, A.Awaiting, A.Completed, ServerHolds, ServerKeys, ClientKeys, EarlyKeysIf, A.Eventual,
      FinishedOver, HandshakeSecret, MasterSecret, EarlySecret;
    AnswerShape(k, sc, s, out, w, 3, h.Master(k), h.a, h.server, t);
    var n := |out| - 1;
    assert out == out[..n] + [out[n]];
    A.FeedLastFlight(k, sc, s, out[..n], out[n], w);
    Completes(k, sc, h, s, accepted, out[..n], out[n]);
  }

  lemma Completes(k: Crypto, sc: S.Config, h: Story, s: S.Server, accepted: bool, sent: seq<Message>, fin: Message)
    requires Greeted(k, sc, h, s, accepted) && fin.Finished? && h.all == h.server + BytesOf(sent + [fin])
    ensures var t := A.Completed(s, sent, fin.raw);
      ServerHolds(k, sc, h, t) && t.isPsk == s.isPsk && t.suite == s.suite
  {
    hide A.Awaiting, Update, UpdateAll, SecretOver, HandshakeSecret, MasterSecret, EarlySecret;
    CompletedBytes(h.Master(k), h.a, h.server, sent, fin);
    assert EarlyKeysIf(k, h, accepted) + [ClientKeys(k, h)[0]] + [ClientKeys(k, h)[1]]
      == EarlyKeysIf(k, h, accepted) + ClientKeys(k, h);
    assert [] + ClientKeys(k, h) == ClientKeys(k, h);
  }

  lemma BytesOfOne(m: Message)
    ensures BytesOf([m]) == Raw(m)
  {
    assert [m][1..] == [] && Raw(m) + [] == Raw(m);
  }

  lemma CompletedBytes(secret: Data, a: nat, bytes: Data, sent: seq<Message>, fin: Message)
    requires fin.Finished?
    ensures Update(UpdateAll(Single(3, secret, a, bytes), sent), fin.raw)
      == Single(3, secret, a, bytes + BytesOf(sent + [fin]))
  {
    hide Update, UpdateAll, BytesOf;
    UpdateAllBytes(3, secret, a, bytes, sent);
    UpdateSingle(3, secret, a, bytes + BytesOf(sent), fin.raw);
    BytesAppend(sent, [fin]);
    BytesOfOne(fin);
    assert bytes + BytesOf(sent) + fin.raw == bytes + (BytesOf(sent) + fin.raw);
  }

  // ---------------------------------------------------------------- honest runs

  // What the two ends said: the hellos and the retry between them, the flight of the server, that of the client
  datatype Talk = Talk(hellos: seq<Data>, last: ClientHello, answer: seq<Message>, reply: seq<Message>)

  function TalkOf(k: Crypto, cc: C.Config, sc: S.Config, x: A.Choices): (r: Talk)
    requires cc.Valid() && sc.suites != [] && A.HonestRun(k, cc, sc, x).Ok?
    ensures |r.hellos| == 1 || |r.hellos| == 3
  {
    var h := C.SendHello(k, cc, C.NEW_CLIENT, x.first, None).value;
    var a := S.OnHello(k, sc, S.NEW_SERVER, h.1, x.reply).value;
    if |a.1| == 1 && a.1[0].Retry? then
      var r := C.OnRetry(k, cc, h.0, a.1[0], x.second).value;
      var b := S.OnHello(k, sc, a.0, r.1, x.reply).value;
      Talk([h.1.Raw(), a.1[0].raw, r.1.Raw()], r.1, b.1, A.FeedClient(k, cc, r.0, b.1, x.second, x.last).value.1)
    else
      Talk([h.1.Raw()], h.1, a.1, A.FeedClient(k, cc, h.0, a.1, x.second, x.last).value.1)
  }

  lemma EarlyIs(k: Crypto, a: nat, bytes: Data, psk: Option<Data>)
    ensures A.Early(k, a, bytes, psk) == Single(1, EarlySecret(k, a, psk), a, bytes)
  {}

  // The PSK of a run: what the client offered, if the server took it
  function PskOf(cc: C.Config, isPsk: bool): Option<Data>
    requires cc.Valid()
  {
    if isPsk then A.OfferedSecret(cc) else None
  }

  ghost predicate Told(k: Crypto, sc: S.Config, h: Story, hello: Data, last: ClientHello, answer: seq<Message>,
      reply: seq<Message>)
  {
    && h.hello == hello
    && Tells(k, h, answer)
    && h.shared == SharedSecret(k, S.ShareFor(sc, last), answer[0].share)
    && h.all == h.server + BytesOf(reply)
    && Answers(k, h.a, ClientKeys(k, h)[0].secret, h.server, reply)
  }

  lemma NegotiatedSecrets(k: Crypto, cc: C.Config, sc: S.Config, s: S.Server, m: ClientHello, second: bool, w: S.Reply,
      a: nat, psk: Option<Data>, hello: Data, s1: S.Server, ms: seq<Message>, out: seq<Message>, t: S.Server)
    returns (h: Story)
    requires sc.suites != [] && s.suite.Some? && s.keys == NO_KEYS.(sched := s.keys.sched) && s.keys.sched.slots != []
    requires s.sealed == []
    requires var f := S.PskFor(k, sc, s.suite.value, m, second);
      S.HelloHashed(k, sc, s.keys.sched, m, f, second) == Ok(A.Early(k, a, hello, psk))
    requires S.Negotiated(k, sc, s, m, S.ShareFor(sc, m), second, w) == Ok((s1, ms))
    requires A.FeedServer(k, sc, s1, out, w) == Ok(t) && t.state.PostHandshake?
    ensures h.a == a && h.psk == psk && Told(k, sc, h, hello, m, ms, out) && ServerHolds(k, sc, h, t)
    ensures t.isPsk == S.PskFor(k, sc, s.suite.value, m, second).Some? && t.suite == s.suite
  {
    hide S.HelloHashed, S.PskFor, S.Respond, A.FeedServer, A.Early, EarlySecret, S.ShareFor, Greeted, Tells, Answers,
      ServerHolds, S.AcceptsEarly;
    var f := S.PskFor(k, sc, s.suite.value, m, second);
    EarlyIs(k, a, hello, psk);
    var share := S.ShareFor(sc, m);
    var q := s.(keys := s.keys.(sched := A.Early(k, a, hello, psk)), group := if f.Some? then f.value.group else None);
    RespondSecrets(k, sc, q, m, share, f, w, a, psk, hello, BytesOf(out), s1, ms);
    h := StoryOf(k, a, psk, share, hello, ms, BytesOf(out));
    ServerEnds(k, sc, h, s1, S.AcceptsEarly(sc, f), out, w, t);
  }

  lemma FirstRunSecrets(k: Crypto, cc: C.Config, sc: S.Config, d1: C.Draw, c: C.Client, ch: ClientHello, m: ClientHello,
      w: S.Reply, s1: S.Server, ms: seq<Message>, out: seq<Message>, t: S.Server)
    returns (h: Story)
    requires cc.Valid() && sc.suites != [] && A.Compatible(cc, sc)
    requires C.SendHello(k, cc, C.NEW_CLIENT, d1, None) == Ok((c, ch)) && m == S.Masked(sc, ch)
    requires S.SuiteFor(sc, ch.suites).Some?
    requires var n := A.FirstContact(ch, S.SuiteFor(sc, ch.suites).value);
      S.Negotiated(k, sc, n, m, S.ShareFor(sc, m), false, w) == Ok((s1, ms))
    requires A.FeedServer(k, sc, s1, out, w) == Ok(t) && t.state.PostHandshake?
    ensures t.suite.Some? && h.a == t.suite.value.hash && h.psk == PskOf(cc, t.isPsk)
    ensures Told(k, sc, h, HelloBytes(k, h.a, [ch.Raw()]), ch, ms, out) && ServerHolds(k, sc, h, t)
  {
    hide S.Respond, A.FeedServer, C.SendHello, S.HelloHashed, S.PskFor, S.SuiteFor, S.ShareFor, A.HelloOf, A.Compatible,
      A.Early, S.Masked, C.OfferOf, New, ServerHolds, Tells, Answers;
    A.FirstHelloMessage(k, cc, d1);
    A.MaskedHelloOf(cc, sc, c, ch);
    var suite := S.SuiteFor(sc, ch.suites).value;
    var n := A.FirstContact(ch, suite);
    var f := S.PskFor(k, sc, suite, m, false);
    A.ServerFirst(k, sc, suite, m, f);
    if f.Some? {
      A.FoundIsOffered(k, cc, sc, c, m, ch.suites, false);
    }
    MaskedShare(sc, ch);
    h := NegotiatedSecrets(k, cc, sc, n, m, false, w, suite.hash, A.FoundSecret(f), m.Raw(), s1, ms, out, t);
  }

  lemma MaskedShare(sc: S.Config, ch: ClientHello)
    ensures S.ShareFor(sc, S.Masked(sc, ch)) == S.ShareFor(sc, ch) && S.Masked(sc, ch).Raw() == ch.Raw()
  {}

  lemma RetriedSecrets(k: Crypto, cc: C.Config, sc: S.Config, d1: C.Draw, c: C.Client, ch: ClientHello, suite: Suite,
      retry: Message, s: S.Server, d2: C.Draw, c2: C.Client, ch2: ClientHello, w: S.Reply, s1: S.Server,
      ms: seq<Message>, out: seq<Message>, t: S.Server)
    returns (h: Story)
    requires cc.Valid() && sc.suites != [] && A.Compatible(cc, sc)
    requires C.SendHello(k, cc, C.NEW_CLIENT, d1, None) == Ok((c, ch))
    requires S.SuiteFor(sc, ch.suites) == Some(suite)
    requires retry.Retry? && retry.suite == suite.id && s == A.KeptState(k, sc, ch, suite, retry.raw)
    requires C.OnRetry(k, cc, c, retry, d2) == Ok((c2, ch2))
    requires S.OnHello(k, sc, s, ch2, w) == Ok((s1, ms))
    requires A.FeedServer(k, sc, s1, out, w) == Ok(t) && t.state.PostHandshake?
    ensures t.suite.Some? && h.a == t.suite.value.hash && h.psk == PskOf(cc, t.isPsk)
    ensures Told(k, sc, h, HelloBytes(k, h.a, [ch.Raw(), retry.raw, ch2.Raw()]), ch2, ms, out)
    ensures ServerHolds(k, sc, h, t)
  {
    hide S.Respond, A.FeedServer, C.SendHello, S.HelloHashed, S.PskFor, S.SuiteFor, S.ShareFor, A.HelloOf, A.Compatible,
      A.Early, S.Masked, C.OfferOf, New, C.OnRetry, S.Retrying, S.OnHello, S.AfterRetry, ServerHolds, Tells, Answers,
      A.Ready, Derive, S.Negotiated;
    A.FirstHello(k, cc, d1);
    A.FirstEarlyKeys(k, cc, d1);
    A.FirstHelloMessage(k, cc, d1);
    A.MaskedHelloOf(cc, sc, c, ch);
    var m1 := S.Masked(sc, ch);
    A.ServerRetried(k, sc, suite, m1, retry.raw);
    A.ClientRetried(k, cc, c, retry, d2, ch.Raw(), A.OfferedSecret(cc));
    A.OnSecondHello(k, sc, s, ch2, w);
    var m := S.Masked(sc, ch2);
    A.MaskedHelloOf(cc, sc, c2, ch2);
    var f := S.PskFor(k, sc, suite, m, true);
    var bytes := A.RetryTranscript(k, suite.hash, ch.Raw(), retry.raw);
    NegotiatedHashes(k, sc, s, m, S.ShareFor(sc, m), true, w);
    A.ServerSecond(k, sc, s.keys.sched, suite.hash, bytes, m, f);
    if f.Some? {
      A.FoundIsOffered(k, cc, sc, c2, m, ch.suites, true);
      A.ExternalAgrees(k, cc, sc, m, f.value, suite);
    }
    MaskedShare(sc, ch2);
    h := NegotiatedSecrets(k, cc, sc, s, m, true, w, suite.hash, S.ExternalSecret(sc), bytes + m.Raw(), s1, ms, out, t);
  }

  lemma NegotiatedHashes(k: Crypto, sc: S.Config, s: S.Server, m: ClientHello, share: Option<Share>, second: bool,
      w: S.Reply)
    requires s.keys.sched.slots != [] && s.suite.Some? && S.Negotiated(k, sc, s, m, share, second, w).Ok?
    ensures S.HelloHashed(k, sc, s.keys.sched, m, S.PskFor(k, sc, s.suite.value, m, second), second).Ok?
  {
    hide S.HelloHashed, S.Respond, S.PskFor;
  }

  /** In every honest run that completes, the keys of both ends, the exporter secrets, the tickets and the Finished
      messages are those of RFC 8446 for the PSK, the key shares and the bytes that were exchanged. */
  lemma HonestRunSecrets(k: Crypto, cc: C.Config, sc: S.Config, x: A.Choices)
    returns (h: Story)
    requires cc.Valid() && sc.suites != [] && x.last.Valid() && A.Compatible(cc, sc)
    requires A.HonestRun(k, cc, sc, x).Ok?
    ensures var r, talk := A.HonestRun(k, cc, sc, x).value, TalkOf(k, cc, sc, x);
      && r.1.suite.Some? && h.a == r.1.suite.value.hash && h.psk == PskOf(cc, r.1.isPsk)
      && Told(k, sc, h, HelloBytes(k, h.a, talk.hellos), talk.last, talk.answer, talk.reply)
      && ServerHolds(k, sc, h, r.1)
      && ClientHolds(k, cc, sc, h, r.0)
  {
    hide C.SendHello, S.OnHello, C.OnRetry, A.FeedClient, A.FeedServer, A.Agreed, S.Negotiated, S.Retrying, S.SuiteFor,
      S.ShareFor, A.Compatible, S.Masked, A.Redeemable, A.Earned, Told, ServerHolds, ClientHolds, HelloBytes;
    A.HonestRunAgrees(k, cc, sc, x);
    var e := C.SendHello(k, cc, C.NEW_CLIENT, x.first, None).value;
    A.FirstHelloHasNoCookie(k, cc, x.first);
    A.OnFirstHello(k, sc, e.1, x.reply);
    var a := S.OnHello(k, sc, S.NEW_SERVER, e.1, x.reply).value;
    var suite := S.SuiteFor(sc, e.1.suites).value;
    var m := S.Masked(sc, e.1);
    var n := A.FirstContact(e.1, suite);
    var r := A.HonestRun(k, cc, sc, x).value;
    if S.OnHello(k, sc, S.NEW_SERVER, e.1, x.reply) == S.Negotiated(k, sc, n, m, S.ShareFor(sc, m), false, x.reply) {
      A.NegotiatedIsNoRetry(k, sc, n, m, S.ShareFor(sc, m), false, x.reply);
      var b := A.FeedClient(k, cc, e.0, a.1, x.second, x.last).value;
      h := FirstRunSecrets(k, cc, sc, x.first, e.0, e.1, m, x.reply, a.0, a.1, b.1, r.1);
    } else {
      A.RetryingSends(k, sc, n, suite, m, S.ShareFor(sc, m));
      assert a.1 == [a.1[0]];
      var q := C.OnRetry(k, cc, e.0, a.1[0], x.second).value;
      var o := S.OnHello(k, sc, a.0, q.1, x.reply).value;
      var b := A.FeedClient(k, cc, q.0, o.1, x.second, x.last).value;
      h := RetriedSecrets(k, cc, sc, x.first, e.0, e.1, suite, a.1[0], a.0, x.second, q.0, q.1, x.reply, o.0, o.1, b.1,
        r.1);
    }
    BothHold(k, cc, sc, h, r.0, r.1);
  }

  // What agrees with the server's keys
  lemma BothHold(k: Crypto, cc: C.Config, sc: S.Config, h: Story, c: C.Client, t: S.Server)
    requires ServerHolds(k, sc, h, t) && A.Agreed(cc, sc, c.keys, t.keys) && A.Earned(k, c)
    ensures ClientHolds(k, cc, sc, h, c)
  {
    hide HandshakeSecret, MasterSecret, EarlySecret;
    var y := c.keys;
    var n := |y.encLog|;
    assert A.Match(y.encLog, t.keys.decLog);
    assert ClientKeys(k, h) == ([EarlyKey(k, h)] + ClientKeys(k, h))[1..];
  }

  // ---------------------------------------------------------------- forward secrecy

  lemma HelloModes(k: Crypto, cfg: C.Config, c: C.Client, w: C.Draw, retry: Option<Option<Data>>)
    requires cfg.Valid() && C.SendHello(k, cfg, c, w, retry).Ok?
    ensures cfg.requireDhe ==> !C.SendHello(k, cfg, c, w, retry).value.1.modePsk
  {
    hide C.Prepared, C.HelloSent, Update, C.BinderOf, C.ExtensionsSize, C.HelloSize;
  }

  lemma RetryModes(k: Crypto, cfg: C.Config, c: C.Client, m: Message, w: C.Draw)
    requires cfg.Valid() && m.Retry? && C.OnRetry(k, cfg, c, m, w).Ok?
    ensures cfg.requireDhe ==> !C.OnRetry(k, cfg, c, m, w).value.1.modePsk
  {
    hide C.SendHello, Update;
    var found := FindSuite(cfg.suites, m.suite);
    var ikm := if cfg.psk.Some? then Some(cfg.psk.value.secret) else None;
    var s := SelectCipher(k, c.keys.sched, found.value.hash, false, ikm);
    var t := Update(TransformPostCh1(k, s), m.raw);
    var d := c.(suite := found, keys := c.keys.(sched := t), share := None, early := false,
                group := if m.group.Some? then m.group else c.group);
    HelloModes(k, cfg, d, w, Some(m.cookie));
  }

  lemma RespondForward(k: Crypto, sc: S.Config, s: S.Server, ch: ClientHello, share: Option<Share>, f: Option<S.Found>,
      w: S.Reply)
    requires s.keys.sched.slots != [] && s.suite.Some? && S.Respond(k, sc, s, ch, share, f, w).Ok? && !ch.modePsk
    ensures var ms := S.Respond(k, sc, s, ch, share, f, w).value.1;
      ms != [] && ms[0].ServerHello? && ms[0].share.Some? && share.Some?
  {
    hide S.Finish, S.Flight, S.TicketMessages, S.TicketCount, S.HandshakeKeys, S.EarlyKeys, Extract, Update;
  }

  lemma NegotiatedForward(k: Crypto, sc: S.Config, s: S.Server, ch: ClientHello, second: bool, w: S.Reply)
    requires s.keys.sched.slots != [] && s.suite.Some?
    requires S.Negotiated(k, sc, s, ch, S.ShareFor(sc, ch), second, w).Ok? && !ch.modePsk
    ensures var ms := S.Negotiated(k, sc, s, ch, S.ShareFor(sc, ch), second, w).value.1;
      ms != [] && ms[0].ServerHello? && ms[0].share.Some? && S.ShareFor(sc, ch).Some?
  {
    hide S.Respond, S.HelloHashed, S.PskFor, S.ShareFor;
    var f := S.PskFor(k, sc, s.suite.value, ch, second);
    var h := S.HelloHashed(k, sc, s.keys.sched, ch, f, second).value;
    RespondForward(k, sc, s.(keys := s.keys.(sched := h), group := if f.Some? then f.value.group else None), ch,
      S.ShareFor(sc, ch), f, w);
  }

  lemma MaskedModes(sc: S.Config, ch: ClientHello)
    ensures sc.requireDhe || !ch.modePsk ==> !S.Masked(sc, ch).modePsk
  {}

  /** Where either end insists on it, resumed sessions, too, have secrets from a key exchange. */
  lemma HonestRunIsForward(k: Crypto, cc: C.Config, sc: S.Config, x: A.Choices)
    requires cc.Valid() && sc.suites != [] && A.HonestRun(k, cc, sc, x).Ok? && (cc.requireDhe || sc.requireDhe)
    ensures var talk := TalkOf(k, cc, sc, x);
      && talk.answer != [] && talk.answer[0].ServerHello?
      && SharedSecret(k, S.ShareFor(sc, talk.last), talk.answer[0].share).Some?
  {
    hide C.SendHello, S.OnHello, C.OnRetry, A.FeedClient, A.FeedServer, S.Negotiated, S.Retrying, S.SuiteFor,
      S.ShareFor,
      S.Masked, S.AfterRetry;
    var e := C.SendHello(k, cc, C.NEW_CLIENT, x.first, None).value;
    HelloModes(k, cc, C.NEW_CLIENT, x.first, None);
    MaskedModes(sc, e.1);
    MaskedShare(sc, e.1);
    A.FirstHelloHasNoCookie(k, cc, x.first);
    A.OnFirstHello(k, sc, e.1, x.reply);
    var a := S.OnHello(k, sc, S.NEW_SERVER, e.1, x.reply).value;
    var suite := S.SuiteFor(sc, e.1.suites).value;
    var m := S.Masked(sc, e.1);
    var n := A.FirstContact(e.1, suite);
    if S.OnHello(k, sc, S.NEW_SERVER, e.1, x.reply) == S.Negotiated(k, sc, n, m, S.ShareFor(sc, m), false, x.reply) {
      A.NegotiatedIsNoRetry(k, sc, n, m, S.ShareFor(sc, m), false, x.reply);
      NegotiatedForward(k, sc, n, m, false, x.reply);
    } else {
      A.RetryingSends(k, sc, n, suite, m, S.ShareFor(sc, m));
      var q := C.OnRetry(k, cc, e.0, a.1[0], x.second).value;
      RetryModes(k, cc, e.0, a.1[0], x.second);
      MaskedModes(sc, q.1);
      MaskedShare(sc, q.1);
      A.OnSecondHello(k, sc, a.0, q.1, x.reply);
      NegotiatedForward(k, sc, a.0, S.Masked(sc, q.1), true, x.reply);
    }
  }
}
