/** Honest runs do complete: between peers that share a suite and a group and trust each other's
    credentials, no check of either side fails. */
module Completion {
  import opened Results
  import opened Wire
  import opened KeySchedule
  import opened Messages
  import opened Agreement
  import C = TlsClient
  import S = TlsServer
  import CS = ClientSafety
  import SS = ServerSafety

  // ---------------------------------------------------------------- delivery, one message at a time

  lemma FeedCons(k: Crypto, cfg: C.Config, c: C.Client, m: Message, rest: seq<Message>, d: C.Draw, l: C.LastFlight,
      e: C.Client)
    requires cfg.Valid() && C.Step(k, cfg, c, m, true, d, l) == Ok((e, []))
    ensures FeedClient(k, cfg, c, [m] + rest, d, l) == FeedClient(k, cfg, e, rest, d, l)
  {
    hide C.Step;
    assert ([m] + rest)[0] == m && ([m] + rest)[1..] == rest;
    var q := FeedClient(k, cfg, e, rest, d, l);
    assert q.Ok? ==> [] + q.value.1 == q.value.1;
  }

  lemma FeedServerCons(k: Crypto, cfg: S.Config, s: S.Server, m: Message, rest: seq<Message>, w: S.Reply, e: S.Server)
    requires cfg.suites != [] && S.Step(k, cfg, s, m, true, w) == Ok((e, []))
    ensures FeedServer(k, cfg, s, [m] + rest, w) == FeedServer(k, cfg, e, rest, w)
  {
    hide S.Step;
    assert ([m] + rest)[0] == m && ([m] + rest)[1..] == rest;
  }

  /** Each accepts the certificate of the other, and the signatures that belong to it: what is signed for a
      transcript hash verifies for that hash. */
  ghost predicate Trusting(cc: C.Config, sc: S.Config, w: S.Reply, l: C.LastFlight)
  {
    && cc.certificateOk(w.certificate) && !w.certificateEmpty
    && w.sign.Some? && (forall h: Data :: cc.signatureOk(h, w.sign.value(h)))
    && (sc.requireClientAuth ==>
          && sc.certificateOk(Raw(l.certificate))
          && (l.sign.Some? ==> forall h: Data :: sc.signatureOk(h, l.sign.value(h))))
  }

  // ---------------------------------------------------------------- the server's flight at the client

  lemma RequestAccepted(k: Crypto, cfg: C.Config, c: C.Client, raw: Data, d: C.Draw, l: C.LastFlight)
    requires cfg.Valid() && c.state.ExpectCertificateRequestOrCertificate? && !c.isPsk
    ensures C.Step(k, cfg, c, CertificateRequest(raw), true, d, l)
         == Ok((C.Hashed(c.(certRequested := true), raw, C.ExpectCertificate), []))
  {}

  lemma CertificateAccepted(k: Crypto, cfg: C.Config, c: C.Client, raw: Data, d: C.Draw, l: C.LastFlight)
    requires cfg.Valid() && (c.state.ExpectCertificateRequestOrCertificate? || c.state.ExpectCertificate?)
      && cfg.certificateOk(raw)
    ensures C.Step(k, cfg, c, Certificate(raw, false), true, d, l)
      == Ok((C.Hashed(c, raw, C.ExpectCertificateVerify), []))
  {}

  lemma SignatureAccepted(k: Crypto, cfg: C.Config, c: C.Client, raw: Data, d: C.Draw, l: C.LastFlight)
    requires cfg.Valid() && c.state.ExpectCertificateVerify? && c.keys.sched.slots != []
    requires cfg.signatureOk(TranscriptHash(k, c.keys.sched), raw)
    ensures C.Step(k, cfg, c, CertificateVerify(raw), true, d, l) == Ok((C.Hashed(c, raw, C.ExpectFinished), []))
  {
    hide TranscriptHash;
  }

  // The client when Finished arrives is AfterCertificates; nothing before it was refused.
  lemma CertificatesAccepted(k: Crypto, cc: C.Config, sc: S.Config, c: C.Client, mode: S.Mode, w: S.Reply, fin: Message,
      d: C.Draw, l: C.LastFlight)
    requires cc.Valid() && Trusting(cc, sc, w, l) && fin.Finished? && InFlight(c)
    requires mode == S.Full ==> c.state.ExpectCertificateRequestOrCertificate? && !c.isPsk
    requires mode != S.Full ==> c.state.ExpectFinished?
    ensures var certs := S.CertificateMessages(k, sc, c.keys.sched, mode, w);
      && (forall x | x in certs :: CertificateKind(x))
      && Requests(certs) == (mode == S.Full && sc.requireClientAuth)
      && var e := AfterCertificates(c, certs);
      FeedClient(k, cc, c, certs + [fin], d, l) == FeedClient(k, cc, e, [fin], d, l)
  {
    hide FeedClient, Update, C.Step, TranscriptHash;
    var certs := S.CertificateMessages(k, sc, c.keys.sched, mode, w);
    if mode != S.Full {
      assert certs + [fin] == [fin];
      assert AfterCertificates(c, certs) == c;
    } else {
      var cert := Certificate(w.certificate, false);
      if sc.requireClientAuth {
        var request := CertificateRequest(w.request);
        var c1 := C.Hashed(c.(certRequested := true), w.request, C.ExpectCertificate);
        assert [request, cert][1..] == [cert] && [cert][1..] == [];
        assert UpdateAll(c.keys.sched, [request, cert]) == Update(c1.keys.sched, w.certificate) by {
          assert UpdateAll(Update(c1.keys.sched, w.certificate), []) == Update(c1.keys.sched, w.certificate);
          assert UpdateAll(c1.keys.sched, [cert]) == Update(c1.keys.sched, w.certificate);
        }
        assert [request] + [cert] == [request, cert];
        var tail := [cert, CertificateVerify(w.sign.value(TranscriptHash(k, Update(c1.keys.sched, w.certificate))))];
        RequestAccepted(k, cc, c, w.request, d, l);
        assert certs == [request] + tail && certs[0].CertificateRequest?;
        assert certs + [fin] == [request] + (tail + [fin]);
        FeedCons(k, cc, c, request, tail + [fin], d, l, c1);
        TailAccepted(k, cc, c1, w.certificate, tail[1].raw, fin, d, l);
        assert certs[1..] == tail;
      } else {
        assert [cert][1..] == [];
        assert UpdateAll(c.keys.sched, [cert]) == Update(c.keys.sched, w.certificate) by {
          assert UpdateAll(Update(c.keys.sched, w.certificate), []) == Update(c.keys.sched, w.certificate);
        }
        assert [] + [cert] == [cert];
        var tail := [cert, CertificateVerify(w.sign.value(TranscriptHash(k, Update(c.keys.sched, w.certificate))))];
        TailAccepted(k, cc, c, w.certificate, tail[1].raw, fin, d, l);
        assert certs == tail;
      }
    }
  }

  lemma TailAccepted(k: Crypto, cfg: C.Config, c: C.Client, cert: Data, verify: Data, fin: Message, d: C.Draw,
      l: C.LastFlight)
    requires cfg.Valid() && (c.state.ExpectCertificateRequestOrCertificate? || c.state.ExpectCertificate?)
      && c.keys.sched.slots != []
    requires cfg.certificateOk(cert) && cfg.signatureOk(TranscriptHash(k, Update(c.keys.sched, cert)), verify)
    ensures var tail := [Certificate(cert, false), CertificateVerify(verify)];
      FeedClient(k, cfg, c, tail + [fin], d, l) == FeedClient(k, cfg, AfterCertificates(c, tail), [fin], d, l)
  {
    hide FeedClient, C.Step;
    var m1, m2 := Certificate(cert, false), CertificateVerify(verify);
    var tail := [m1, m2];
    var c1 := C.Hashed(c, cert, C.ExpectCertificateVerify);
    var c2 := C.Hashed(c1, verify, C.ExpectFinished);
    CertificateAccepted(k, cfg, c, cert, d, l);
    SignatureAccepted(k, cfg, c1, verify, d, l);
    assert tail + [fin] == [m1] + ([m2] + [fin]);
    FeedCons(k, cfg, c, m1, [m2] + [fin], d, l, c1);
    FeedCons(k, cfg, c1, m2, [fin], d, l, c2);
    assert tail[1..] == [m2] && tail[1..][1..] == [];
    assert !Requests(tail);
    assert UpdateAll(c.keys.sched, tail) == c2.keys.sched by {
      assert UpdateAll(c2.keys.sched, []) == c2.keys.sched;
      assert UpdateAll(c1.keys.sched, [m2]) == c2.keys.sched;
    }
  }

  // The server's Finished verifies for a client with the same schedule and key.
  lemma FinishedVerifies(k: Crypto, s: Schedule, secret: Data)
    requires k.Sized() && s.slots != []
    ensures VerifyFinished(k, s, secret, FinishedMessage(k, s, secret)).None?
  {
    var raw := FinishedMessage(k, s, secret);
    assert raw[4..] == VerifyData(k, s, secret);
  }

  lemma FinishedAccepted(k: Crypto, cfg: C.Config, e: C.Client, fin: Message, d: C.Draw, l: C.LastFlight)
    requires cfg.Valid() && k.Sized() && e.state.ExpectFinished? && e.keys.sched.slots != [] && e.keys.exporter.None?
    requires fin == Finished(FinishedMessage(k, e.keys.sched, e.keys.dec.secret))
    ensures C.OnFinished(k, cfg, e, fin, l).Ok?
    ensures FeedClient(k, cfg, e, [fin], d, l) == C.OnFinished(k, cfg, e, fin, l)
  {
    hide FinishedMessage, VerifyFinished, Derive, Extract, Update, UpdateAll, C.ReadKeys, C.Commissioned,
      C.BeforeFinished;
    FinishedVerifies(k, e.keys.sched, e.keys.dec.secret);
    assert C.OnFinished(k, cfg, e, fin, l).Ok?;
    var r := C.OnFinished(k, cfg, e, fin, l).value;
    FeedFinished(k, cfg, e, fin, d, l, r.0, r.1);
  }

  lemma FeedFinished(k: Crypto, cfg: C.Config, e: C.Client, fin: Message, d: C.Draw, l: C.LastFlight, c: C.Client,
      out: seq<Message>)
    requires cfg.Valid() && e.state.ExpectFinished? && e.keys.sched.slots != [] && fin.Finished?
    requires C.OnFinished(k, cfg, e, fin, l) == Ok((c, out))
    ensures FeedClient(k, cfg, e, [fin], d, l) == Ok((c, out))
  {
    hide C.OnFinished;
    assert C.Step(k, cfg, e, fin, true, d, l) == Ok((c, out));
    assert [fin][1..] == [];
    assert FeedClient(k, cfg, c, [], d, l) == Ok((c, []));
    assert out + [] == out;
  }

  // ---------------------------------------------------------------- the client's answer at the server

  lemma ServerTakesFinished(k: Crypto, cfg: S.Config, s: S.Server, fin: Message, w: S.Reply)
    requires cfg.suites != [] && k.Sized() && s.state.ExpectFinished? && s.keys.sched.slots != []
    requires fin == Finished(FinishedMessage(k, s.keys.sched, s.keys.dec.secret))
    ensures FeedServer(k, cfg, s, [fin], w).Ok?
  {
    hide FinishedMessage, VerifyFinished;
    FinishedVerifies(k, s.keys.sched, s.keys.dec.secret);
    var e := S.OnFinished(k, s, fin).value;
    assert [fin] + [] == [fin];
    FeedServerCons(k, cfg, s, fin, [], w, e);
  }

  // What the client sends is what the server, in the state it reached with its Finished, takes.
  ghost predicate Expected(k: Crypto, cfg: S.Config, s: S.Server, sent: seq<Message>)
    requires s.keys.sched.slots != []
  {
    match s.state
    case ExpectFinished => sent == []
    case ExpectEndOfEarlyData => sent == [EndOfEarlyData(END_OF_EARLY_DATA)] && !cfg.omitEndOfEarlyData
    case ExpectCertificate =>
      && |sent| > 0 && sent[0].Certificate? && cfg.certificateOk(sent[0].raw)
      && |sent| == (if sent[0].empty then 1 else 2)
      && (!sent[0].empty ==>
            && sent[1].CertificateVerify?
            && cfg.signatureOk(TranscriptHash(k, Update(s.keys.sched, sent[0].raw)), sent[1].raw))
    case _ => false
  }

  lemma ServerTakesAll(k: Crypto, sc: S.Config, s: S.Server, sent: seq<Message>, fin: Message, w: S.Reply)
    requires sc.suites != [] && k.Sized() && Awaiting(s) && Expected(k, sc, s, sent)
    requires fin == Finished(FinishedMessage(k, UpdateAll(s.keys.sched, sent),
      HandshakeSecret(s.keys.pending, s.keys.dec.secret)))
    ensures FeedServer(k, sc, s, sent + [fin], w).Ok?
  {
    hide FinishedMessage, FeedServer, Update, S.Step;
    match s.state
    case ExpectFinished =>
      assert sent + [fin] == [fin];
      ServerTakesFinished(k, sc, s, fin, w);
    case ExpectEndOfEarlyData =>
      EndOfEarlyDataTaken(k, sc, s, sent[0], w);
      var e := S.OnEndOfEarlyData(s, sent[0]).value;
      assert sent + [fin] == [sent[0]] + [fin] && sent[1..] == [];
      FeedServerCons(k, sc, s, sent[0], [fin], w, e);
      assert UpdateAll(e.keys.sched, []) == e.keys.sched;
      UpdateNonEmpty(s.keys.sched, sent[0].raw);
      ServerTakesFinished(k, sc, e, fin, w);
    case ExpectCertificate =>
      ServerTakesCertificates(k, sc, s, sent, fin, w);
    case ExpectCertificateVerify =>
    case ExpectClientHello =>
    case ExpectSecondClientHello =>
    case PostHandshake =>
  }

  lemma UpdateNonEmpty(s: Schedule, m: Data)
    requires s.slots != []
    ensures Update(s, m).slots != []
  {}

  lemma EndOfEarlyDataTaken(k: Crypto, cfg: S.Config, s: S.Server, m: Message, w: S.Reply)
    requires cfg.suites != [] && s.state.ExpectEndOfEarlyData? && !cfg.omitEndOfEarlyData && m.EndOfEarlyData?
      && s.keys.pending.Some?
    ensures S.OnEndOfEarlyData(s, m).Ok? && S.Step(k, cfg, s, m, true, w) == Ok((S.OnEndOfEarlyData(s, m).value, []))
  {}

  lemma CertificateTaken(k: Crypto, cfg: S.Config, s: S.Server, m: Message, w: S.Reply)
    requires cfg.suites != [] && s.state.ExpectCertificate? && m.Certificate? && cfg.certificateOk(m.raw)
    ensures S.Step(k, cfg, s, m, true, w)
         == Ok((S.Hashed(s, m.raw, if m.empty then S.ExpectFinished else S.ExpectCertificateVerify), []))
  {}

  lemma SignatureTaken(k: Crypto, cfg: S.Config, s: S.Server, m: Message, w: S.Reply)
    requires cfg.suites != [] && s.state.ExpectCertificateVerify? && m.CertificateVerify? && s.keys.sched.slots != []
    requires cfg.signatureOk(TranscriptHash(k, s.keys.sched), m.raw)
    ensures S.Step(k, cfg, s, m, true, w) == Ok((S.Hashed(s, m.raw, S.ExpectFinished), []))
  {
    hide TranscriptHash;
  }

  lemma ServerTakesCertificates(k: Crypto, sc: S.Config, s: S.Server, sent: seq<Message>, fin: Message, w: S.Reply)
    requires sc.suites != [] && k.Sized() && Awaiting(s) && s.state.ExpectCertificate? && Expected(k, sc, s, sent)
    requires fin == Finished(FinishedMessage(k, UpdateAll(s.keys.sched, sent),
      HandshakeSecret(s.keys.pending, s.keys.dec.secret)))
    ensures FeedServer(k, sc, s, sent + [fin], w).Ok?
  {
    hide FinishedMessage, FeedServer, S.Step;
    CertificateTaken(k, sc, s, sent[0], w);
    var e := S.Hashed(s, sent[0].raw, if sent[0].empty then S.ExpectFinished else S.ExpectCertificateVerify);
    if |sent| == 1 {
      assert sent + [fin] == [sent[0]] + [fin] && sent[1..] == [];
      FeedServerCons(k, sc, s, sent[0], [fin], w, e);
      assert UpdateAll(e.keys.sched, []) == e.keys.sched;
      ServerTakesFinished(k, sc, e, fin, w);
    } else {
      var f := S.Hashed(e, sent[1].raw, S.ExpectFinished);
      SignatureTaken(k, sc, e, sent[1], w);
      assert sent + [fin] == [sent[0]] + ([sent[1]] + [fin]);
      assert sent[1..] == [sent[1]] && sent[1..][1..] == [];
      FeedServerCons(k, sc, s, sent[0], [sent[1]] + [fin], w, e);
      FeedServerCons(k, sc, e, sent[1], [fin], w, f);
      assert UpdateAll(f.keys.sched, []) == f.keys.sched;
      assert UpdateAll(e.keys.sched, [sent[1]]) == f.keys.sched;
      ServerTakesFinished(k, sc, f, fin, w);
    }
  }

  // ---------------------------------------------------------------- from the hashed ClientHello on

  // Credentials that are there, and agreement on EndOfEarlyData
  ghost predicate Willing(cc: C.Config, sc: S.Config, w: S.Reply, l: C.LastFlight)
  {
    && l.Valid() && (l.certificate.empty <==> l.sign.None?)
    && Trusting(cc, sc, w, l)
    && cc.omitEndOfEarlyData == sc.omitEndOfEarlyData
    && |w.hello| <= MAX_PLAINTEXT && (sc.ticketLifetime != 0 ==> sc.encryptsTickets)
  }

  lemma GreetOk(k: Crypto, sc: S.Config, s: S.Server, ch: ClientHello, share: Option<Share>, f: Option<S.Found>,
      w: S.Reply)
    requires SS.Fresh(s.keys, 1) && s.suite.Some? && (share.Some? || S.ModeOf(ch, f) == S.Psk)
    requires |w.hello| <= MAX_PLAINTEXT && (sc.ticketLifetime != 0 ==> sc.encryptsTickets)
    ensures var g := S.Greet(k, sc, s, ch, share, f, w);
      && g.Ok?
      && g.value.1 == ServerHello(w.hello, ch.sessionId, s.suite.value.id,
                                  if S.ModeOf(ch, f) != S.Psk then Some(Share(share.value.group, w.key)) else None,
                                  if f.Some? then Some(f.value.index) else None)
      && SS.Greeted(g.value.0.keys) && g.value.0.suite == s.suite && (g.value.0.keys.pending.Some? ==> f.Some?)
      && (g.value.0.tickets != 0 ==> sc.encryptsTickets)
  {
    hide Extract, Derive, S.TicketCount, S.EarlyKeys, S.HandshakeKeys, SS.Greeted;
    SS.GreetKeeps(k, sc, s, ch, share, f, w);
    CanTicket(sc, ch, f.Some?);
  }

  lemma FinishOk(k: Crypto, sc: S.Config, z: S.Server)
    requires SS.Greeted(z.keys) && (z.tickets != 0 ==> sc.encryptsTickets)
    ensures S.Finish(k, sc, z).Ok?
  {
    hide Derive, FinishedMessage, S.SendTickets, S.ApplicationKeys;
  }

  // The state in which the server waits for the client's last flight
  lemma FinishState(k: Crypto, sc: S.Config, z: S.Server)
    requires z.keys.sched.slots != [] && S.Finish(k, sc, z).Ok?
    ensures S.Finish(k, sc, z).value.0.state ==
      if z.keys.pending.Some? then (if sc.omitEndOfEarlyData then S.ExpectFinished else S.ExpectEndOfEarlyData)
      else if sc.requireClientAuth then S.ExpectCertificate
      else S.ExpectFinished
  {
    hide Derive, FinishedMessage, S.SendTickets, S.ApplicationKeys, Update, Extract;
  }

  lemma ServerHelloOk(k: Crypto, cc: C.Config, c: C.Client, m: Message)
    requires m.ServerHello? && FindSuite(cc.suites, m.suite).Some? && c.keys.sched.generation == 1
    requires Tracks(c.keys.sched.slots, FindSuite(cc.suites, m.suite).value.hash)
    requires m.share.Some? ==> cc.groups != [] && c.group == Some(m.share.value.group) && c.share.Some?
    requires m.identity.Some? ==> c.offeredPsk && m.identity.value == 0
    requires m.share.None? ==> m.identity.Some?
    requires cc.psk.Some? ==> m.identity.Some?
    requires m.sessionId == cc.sessionId
    ensures C.OnServerHello(k, cc, c, m).Ok?
    ensures C.OnServerHello(k, cc, c, m).value.keys.pending.Some? ==> c.early || c.keys.pending.Some?
    ensures C.OnServerHello(k, cc, c, m).value.keys.pending.None? ==> !c.early
  {
    hide SelectCipher, Extract, Update, Derive;
  }

  lemma ExtensionsAccepted(k: Crypto, cc: C.Config, d: C.Client, ee: Message, rest: seq<Message>, dr: C.Draw,
      l: C.LastFlight)
    requires cc.Valid() && ee.EncryptedExtensions? && d.state.ExpectEncryptedExtensions? && d.keys.sched.slots != []
    requires ee.early ==> d.early
    ensures var e := C.Hashed(d.(early := d.early && ee.early), ee.raw,
                              if d.isPsk then C.ExpectFinished else C.ExpectCertificateRequestOrCertificate);
      InFlight(e) && FeedClient(k, cc, d, [ee] + rest, dr, l) == FeedClient(k, cc, e, rest, dr, l)
  {
    hide Update, FeedClient;
    var e := C.Hashed(d.(early := d.early && ee.early), ee.raw,
                      if d.isPsk then C.ExpectFinished else C.ExpectCertificateRequestOrCertificate);
    assert C.Step(k, cc, d, ee, true, dr, l) == Ok((e, []));
    FeedCons(k, cc, d, ee, rest, dr, l, e);
  }

  /** The client d and the server z stand after ServerHello with linked keys: the client takes the whole
      flight, and the server takes the answer. */
  lemma RestCompletes(k: Crypto, cc: C.Config, sc: S.Config, d: C.Client, z: S.Server, x: S.Server, mode: S.Mode,
      ee: Message, certs: seq<Message>, s: S.Server, fin: Message, w: S.Reply, dr: C.Draw, l: C.LastFlight)
    requires cc.Valid() && sc.suites != [] && k.Sized() && Willing(cc, sc, w, l)
    requires Linked(d.keys, z.keys) && |z.keys.sched.slots| == 1 && d.state.ExpectEncryptedExtensions?
    requires ee == EncryptedExtensions(w.extensions, z.keys.pending.Some?)
    requires certs == S.CertificateMessages(k, sc, Update(z.keys.sched, w.extensions), mode, w)
    requires x == z.(keys := z.keys.(sched := UpdateAll(z.keys.sched, [ee] + certs)))
    requires S.Finish(k, sc, x) == Ok((s, fin)) && fin.Finished?
    requires d.isPsk == (mode != S.Full) && (sc.requireClientAuth ==> mode == S.Full && z.keys.pending.None?)
    requires z.keys.pending.Some? ==> d.early
    requires !d.certRequested
    ensures var q := FeedClient(k, cc, d, [ee] + (certs + [fin]), dr, l);
      q.Ok? && FeedServer(k, sc, s, q.value.1, w).Ok?
    ensures forall m | m in certs :: CertificateKind(m)
  {
    hide Update, UpdateAll, S.Finish, C.OnFinished, FeedClient, FeedServer, FinishedMessage, Derive, Awaiting, Extract,
      Match, Trusting, C.BeforeFinished, Expected, S.CertificateMessages;
    ExtensionsAccepted(k, cc, d, ee, certs + [fin], dr, l);
    var e := C.Hashed(d.(early := d.early && ee.early), ee.raw,
                      if d.isPsk then C.ExpectFinished else C.ExpectCertificateRequestOrCertificate);
    CertificatesAccepted(k, cc, sc, e, mode, w, fin, dr, l);
    var y := AfterCertificates(e, certs);
    FlightSchedule(d.keys.sched, ee, certs);
    assert y.keys == d.keys.(sched := UpdateAll(d.keys.sched, [ee] + certs));
    ServerFinish(k, sc, x);
    FinishState(k, sc, x);
    FinishedAccepted(k, cc, y, fin, dr, l);
    ClientFinish(k, cc, y, fin, l);
    var sent := C.BeforeFinished(k, cc, y, s.keys.sched, l);
    AnswerExpected(k, cc, sc, y, s, w, l);
    var last := C.OnFinished(k, cc, y, fin, l).value.1;
    ServerTakesAll(k, sc, s, sent, last[|last| - 1], w);
  }

  lemma CanTicket(sc: S.Config, ch: ClientHello, isPsk: bool)
    requires sc.ticketLifetime != 0 ==> sc.encryptsTickets
    ensures S.TicketCount(sc, ch, isPsk) != 0 ==> sc.encryptsTickets
  {}

  lemma FlightSchedule(s: Schedule, ee: Message, certs: seq<Message>)
    requires !ee.Hello?
    ensures UpdateAll(s, [ee] + certs) == UpdateAll(Update(s, ee.raw), certs)
  {
    assert ([ee] + certs)[0] == ee && ([ee] + certs)[1..] == certs;
  }

  lemma AnswerExpected(k: Crypto, cc: C.Config, sc: S.Config, y: C.Client, s: S.Server, w: S.Reply, l: C.LastFlight)
    requires s.keys.sched.slots != [] && l.Valid() && (l.certificate.empty <==> l.sign.None?)
    requires cc.omitEndOfEarlyData == sc.omitEndOfEarlyData && Trusting(cc, sc, w, l)
    requires y.certRequested == s.state.ExpectCertificate?
    requires s.state.ExpectCertificate? ==> !y.early && sc.requireClientAuth
    requires s.state.ExpectEndOfEarlyData? ==> y.early && y.keys.pending.Some? && !sc.omitEndOfEarlyData
    requires s.state.ExpectFinished? ==> !y.early || sc.omitEndOfEarlyData
    requires s.state.ExpectFinished? || s.state.ExpectEndOfEarlyData? || s.state.ExpectCertificate?
    ensures Expected(k, sc, s, C.BeforeFinished(k, cc, y, s.keys.sched, l))
  {
    hide TranscriptHash, Update;
    if s.state.ExpectCertificate? {
      var none: seq<Message> := [];
      assert UpdateAll(s.keys.sched, none) == s.keys.sched;
      assert none + C.Credentials(k, s.keys.sched, l) == C.Credentials(k, s.keys.sched, l);
    }
  }

  lemma RespondCompletes(k: Crypto, cc: C.Config, sc: S.Config, c: C.Client, s: S.Server, ch: ClientHello,
      share: Option<Share>, f: Option<S.Found>, w: S.Reply, ctx: Data, ikm: Option<Data>, dr: C.Draw,
      l: C.LastFlight)
    requires cc.Valid() && sc.suites != [] && s.suite.Some? && s.keys.sched.slots != [] && AwaitsHello(c)
    requires Ready(k, c.keys.sched, ctx, ikm)
    requires FindSuite(cc.suites, s.suite.value.id).Some?
      && FindSuite(cc.suites, s.suite.value.id).value.hash == s.suite.value.hash
    requires f.Some? ==>
      f.value.index == 0 && s.keys.sched == Early(k, s.suite.value.hash, ctx, ikm)
        && Algo(c.keys.sched) == s.suite.value.hash
    requires f.None? ==>
      s.keys.sched == Early(k, s.suite.value.hash, ctx, None) && (c.offeredPsk || ikm.None?)
    requires !c.isPsk && !c.certRequested && s.sealed == [] && (cc.savesTickets ==> c.group.Some?)
    requires share.Some? ==> c.group == Some(share.value.group) && c.share == Some(share.value.key) && cc.groups != []
    requires EarlyLinked(k, cc, sc, c, s.keys, S.AcceptsEarly(sc, f))
    requires k.Sized() && Willing(cc, sc, w, l) && SS.Fresh(s.keys, 1)
    requires share.Some? || S.ModeOf(ch, f) == S.Psk
    requires Tracks(c.keys.sched.slots, s.suite.value.hash) && ch.sessionId == cc.sessionId
    requires (f.Some? ==> c.offeredPsk) && (cc.psk.Some? ==> f.Some?) && (sc.requireClientAuth ==> f.None?)
    ensures var r := S.Respond(k, sc, s, ch, share, f, w);
      && r.Ok?
      && var q := FeedClient(k, cc, c, r.value.1, dr, l);
      && q.Ok? && FeedServer(k, sc, r.value.0, q.value.1, w).Ok?
  {
    hide Update, UpdateAll, S.Finish, FeedClient, FeedServer, Derive, Extract, Early, C.OnServerHello, S.Greet, Ready,
      Willing, Linked, EarlyLinked, S.TicketMessages, S.CertificateMessages, S.TicketCount, SS.CanGreet;
    WillingParts(cc, sc, w, l);
    GreetOk(k, sc, s, ch, share, f, w);
    var g := S.Greet(k, sc, s, ch, share, f, w).value;
    ReadyGeneration(k, c.keys.sched, ctx, ikm);
    ServerHelloOk(k, cc, c, g.1);
    var d := C.OnServerHello(k, cc, c, g.1).value;
    HelloAgrees(k, cc, sc, c, s, ch, share, f, w, ctx, ikm, g.0, g.1, d);
    var mode := S.ModeOf(ch, f);
    var ee := EncryptedExtensions(w.extensions, g.0.keys.pending.Some?);
    var certs := S.CertificateMessages(k, sc, Update(g.0.keys.sched, w.extensions), mode, w);
    var x := g.0.(keys := g.0.keys.(sched := UpdateAll(g.0.keys.sched, [ee] + certs)));
    SS.UpdateAllKeeps(g.0.keys.sched, [ee] + certs);
    FinishOk(k, sc, x);
    FinishSendsFinished(k, sc, x);
    var r := S.Finish(k, sc, x).value;
    EarlyLinkedParts(k, cc, sc, c, s.keys, S.AcceptsEarly(sc, f));
    RestCompletes(k, cc, sc, d, g.0, x, mode, ee, certs, r.0, r.1, w, dr, l);
    FlightDelivered(k, cc, sc, c, g.1, d, ee, certs, r.1, r.0.sealed, dr, l);
  }

  // ServerHello, the flight and the tickets arrive one after the other.
  lemma FlightDelivered(k: Crypto, cc: C.Config, sc: S.Config, c: C.Client, m: Message, d: C.Client, ee: Message,
      certs: seq<Message>, fin: Message, sealed: seq<Option<S.Session>>, dr: C.Draw, l: C.LastFlight)
    requires cc.Valid() && AwaitsHello(c) && m.ServerHello? && C.OnServerHello(k, cc, c, m) == Ok(d)
    requires l.Valid() && fin.Finished? && ee.EncryptedExtensions? && forall x | x in certs :: CertificateKind(x)
    requires |d.keys.sched.slots| == 1 && d.state.ExpectEncryptedExtensions? && (cc.savesTickets ==> d.group.Some?)
    requires d.suite.Some? && FeedClient(k, cc, d, [ee] + (certs + [fin]), dr, l).Ok?
    ensures var q := FeedClient(k, cc, d, [ee] + (certs + [fin]), dr, l).value;
      var r := FeedClient(k, cc, c, [m] + ([ee] + certs) + [fin] + S.TicketMessages(sc, sealed, 0), dr, l);
      r.Ok? && r.value.1 == q.1
  {
    hide FeedClient, C.OnServerHello, S.TicketMessages, CertificateKind;
    var rest, tickets := [ee] + (certs + [fin]), S.TicketMessages(sc, sealed, 0);
    HelloDelivered(k, cc, c, m, rest, dr, l, d);
    var q := FeedClient(k, cc, d, rest, dr, l).value;
    ClientDone(k, cc, d, ee, certs, fin, q.0, q.1, dr, l);
    FeedAppend(k, cc, c, [m] + rest, tickets, dr, l);
    TicketsAccepted(k, cc, sc, q.0, sealed, dr, l);
    assert [m] + ([ee] + certs) + [fin] + tickets == ([m] + rest) + tickets;
    assert q.1 + [] == q.1;
  }

  lemma TicketsAccepted(k: Crypto, cc: C.Config, sc: S.Config, c: C.Client, sealed: seq<Option<S.Session>>, d: C.Draw,
      l: C.LastFlight)
    requires cc.Valid() && c.state == C.PostHandshake && c.keys.sched.slots != [] && CanSave(cc, c)
    ensures var r := FeedClient(k, cc, c, S.TicketMessages(sc, sealed, 0), d, l); r.Ok? && r.value.1 == []
  {
    hide FeedClient;
    var ms := S.TicketMessages(sc, sealed, 0);
    if sealed == [] {
      assert ms == [];
      FeedNothing(k, cc, c, d, l);
    } else {
      FeedTickets(k, cc, c, ms, d, l);
    }
  }

  lemma ReadyGeneration(k: Crypto, s: Schedule, ctx: Data, ikm: Option<Data>)
    requires Ready(k, s, ctx, ikm)
    ensures s.generation == 1 && s.slots != []
  {}

  lemma WillingParts(cc: C.Config, sc: S.Config, w: S.Reply, l: C.LastFlight)
    requires Willing(cc, sc, w, l)
    ensures l.Valid() && |w.hello| <= MAX_PLAINTEXT && (sc.ticketLifetime != 0 ==> sc.encryptsTickets)
  {}

  lemma EarlyLinkedParts(k: Crypto, cc: C.Config, sc: S.Config, c: C.Client, s: Keys, accepted: bool)
    requires s.sched.slots != [] && EarlyLinked(k, cc, sc, c, s, accepted)
    ensures accepted ==> c.early
  {}

  lemma HelloDelivered(k: Crypto, cc: C.Config, c: C.Client, m: Message, rest: seq<Message>, dr: C.Draw,
      l: C.LastFlight, d: C.Client)
    requires cc.Valid() && AwaitsHello(c) && m.ServerHello? && C.OnServerHello(k, cc, c, m) == Ok(d)
    ensures FeedClient(k, cc, c, [m] + rest, dr, l) == FeedClient(k, cc, d, rest, dr, l)
  {
    hide C.OnServerHello, FeedClient;
    assert C.Step(k, cc, c, m, true, dr, l) == Ok((d, []));
    FeedCons(k, cc, c, m, rest, dr, l, d);
  }

  // ---------------------------------------------------------------- binders

  // The binder depends on the hash, the early secret and the transcript alone.
  lemma BinderDepends(k: Crypto, s: Schedule, t: Schedule, name: string, head: Data)
    requires s.slots != [] && t.slots != [] && Algo(s) == Algo(t) && s.secret == t.secret
      && Transcript(s) == Transcript(t)
    ensures C.BinderOf(k, s, name, head) == C.BinderOf(k, t, name, head)
  {
    assert Transcript(Update(s, head)) == Transcript(s) + head && Transcript(Update(t, head)) == Transcript(t) + head;
    assert Algo(Update(s, head)) == Algo(s) && Algo(Update(t, head)) == Algo(t);
  }

  // The server computes the binder that the client computed from an equal schedule.
  lemma BinderAccepted(k: Crypto, cc: C.Config, sc: S.Config, s: Schedule, e: Schedule, ch: ClientHello, f: S.Found,
      second: bool, p: Schedule)
    requires k.Sized() && cc.Valid() && C.OfferOf(cc).Some? && cc.psk.Some? == sc.psk.Some?
    requires s.slots != [] && e == (if second then s else Extract(k, s, Some(f.secret)))
    requires ch.identities.Some? && f.index < |ch.identities.value|
    requires p.slots != [] && Algo(p) == Algo(s) && p.secret == e.secret && Transcript(p) == Transcript(s)
    requires ch.identities.value[f.index].binder == C.BinderOf(k, p, C.OfferOf(cc).value.binderLabel, ch.head)
    ensures S.CheckBinder(k, sc, s, ch, f, second).Ok?
    ensures |ch.identities.value[f.index].binder| <= MAX_DIGEST
  {
    hide VerifyData, DeriveEmpty, FirstWithHash, FindSuite;
    BinderDepends(k, p, e, C.OfferOf(cc).value.binderLabel, ch.head);
    var binder := ch.identities.value[f.index].binder;
    BinderSize(k, e, C.OfferOf(cc).value.binderLabel, ch.head);
    assert binder[..k.size(Algo(s))] == binder;
  }

  lemma BinderSize(k: Crypto, s: Schedule, name: string, head: Data)
    requires k.Sized() && s.slots != []
    ensures |C.BinderOf(k, s, name, head)| == k.size(Algo(s))
  {
    assert Algo(Update(s, head)) == Algo(s);
  }

  lemma FirstBinder(k: Crypto, cc: C.Config, w: C.Draw)
    requires cc.Valid() && C.SendHello(k, cc, C.NEW_CLIENT, w, None).Ok? && C.OfferOf(cc).Some?
    ensures var ch := C.SendHello(k, cc, C.NEW_CLIENT, w, None).value.1;
      var p := Extract(k, New(Some(C.OfferOf(cc).value.suite), cc.suites), Some(C.OfferOf(cc).value.secret));
      && New(Some(C.OfferOf(cc).value.suite), cc.suites).slots != []
      && ch.identities.Some? && |ch.identities.value| == 1
      && ch.identities.value[0].binder == C.BinderOf(k, p, C.OfferOf(cc).value.binderLabel, ch.head)
  {
    hide C.BinderOf, Extract, Update, Derive;
    FirstSlotsShape(Some(C.OfferOf(cc).value.suite), cc.suites, |cc.suites|);
  }

  lemma RetriedBinder(k: Crypto, cc: C.Config, c: C.Client, m: Message, w: C.Draw)
    requires cc.Valid() && m.Retry? && C.OfferOf(cc).Some? && C.OnRetry(k, cc, c, m, w).Ok?
    ensures var ch := C.OnRetry(k, cc, c, m, w).value.1;
      var found := FindSuite(cc.suites, m.suite).value;
      var s := SelectCipher(k, c.keys.sched, found.hash, false, ExternalOf(cc));
      && |s.slots| == 1
      && ch.identities.Some? && |ch.identities.value| == 1
      && ch.identities.value[0].binder
           == C.BinderOf(k, Update(TransformPostCh1(k, s), m.raw), C.OfferOf(cc).value.binderLabel, ch.head)
  {
    hide C.BinderOf, Update, Derive, C.OfferOf;
  }

  // ---------------------------------------------------------------- the first flight

  function Ids(cc: C.Config): seq<nat> { seq(|cc.suites|, i requires 0 <= i < |cc.suites| => cc.suites[i].id) }

  /** What the two sides need: a common suite and group, the same external PSK if any, and credentials
      that the other accepts. */
  ghost predicate Peers(k: Crypto, cc: C.Config, sc: S.Config, x: Choices)
  {
    && k.Sized() && cc.Valid() && sc.suites != []
    && Compatible(cc, sc) && cc.psk == sc.psk && (sc.psk.Some? ==> !sc.requireClientAuth)
    && S.SuiteFor(sc, Ids(cc)).Some?
    && S.SelectGroup(sc.groups, cc.groups).Some?
    && Willing(cc, sc, x.reply, x.last)
    && Compact(x.first) && Compact(x.second)
  }

  // A hello that leaves room in its record for binders and a cookie of the server
  const COOKIE_SIZE: nat := 7 + 2 * MAX_DIGEST

  predicate Compact(w: C.Draw) { |w.start| + |w.before| + |w.after| + 512 <= MAX_PLAINTEXT }

  // Such peers, and any retry keeps its state
  ghost predicate Cooperative(k: Crypto, cc: C.Config, sc: S.Config, x: Choices)
  {
    Peers(k, cc, sc, x) && !sc.retryUsesCookie
  }

  lemma SuiteKnown(cc: C.Config, sc: S.Config)
    requires S.SuiteFor(sc, Ids(cc)).Some? && Compatible(cc, sc)
    ensures var suite := S.SuiteFor(sc, Ids(cc)).value;
      FindSuite(cc.suites, suite.id).Some? && FindSuite(cc.suites, suite.id).value.hash == suite.hash
  {
    hide S.SelectSuite;
    var suite := S.SuiteFor(sc, Ids(cc)).value;
    assert suite.id in Ids(cc);
    var i :| 0 <= i < |cc.suites| && Ids(cc)[i] == suite.id;
    assert cc.suites[i] in cc.suites;
    RegistryAgrees(cc, sc, suite);
  }

  // An external PSK that both have is found.
  lemma ExternalFound(k: Crypto, cc: C.Config, sc: S.Config, c: C.Client, ch: ClientHello, suite: Suite, second: bool)
    requires cc.Valid() && HelloOf(cc, c, ch) && cc.psk == sc.psk && cc.psk.Some? && !sc.requireClientAuth && ch.modeDhe
    ensures S.PskFor(k, sc, suite, ch, second).Some?
  {
    hide FirstWithHash;
  }

  lemma CompactFits(k: Crypto, w: C.Draw, cookie: Option<Data>, offer: Option<C.Offer>, algo: nat)
    requires k.Sized() && Compact(w) && (cookie.Some? ==> |cookie.value| <= COOKIE_SIZE)
    ensures C.ExtensionsSize(k, w, cookie, offer, algo) <= C.MAX_BLOCK
    ensures C.HelloSize(k, w, cookie, offer, algo) <= MAX_PLAINTEXT
  {}

  lemma FirstHelloOk(k: Crypto, cc: C.Config, w: C.Draw)
    requires cc.Valid() && k.Sized() && Compact(w)
    ensures C.SendHello(k, cc, C.NEW_CLIENT, w, None).Ok?
    ensures var r := C.SendHello(k, cc, C.NEW_CLIENT, w, None).value;
      && (C.OfferOf(cc).Some? ==> r.1.modeDhe)
      && r.1.groups == (if cc.groups != [] then Some(cc.groups) else None)
      && r.1.cookie.None?
      && (r.1.early ==> r.1.identities.Some?)
      && (r.0.share.Some? <==> r.0.group.Some?)
  {
    hide C.BinderOf, Extract, Update, Derive, C.OfferOf, New, C.ExtensionsSize, C.HelloSize;
    CompactFits(k, w, None, C.OfferOf(cc), Algo(C.Prepared(k, cc, C.NEW_CLIENT, w).keys.sched));
  }

  lemma FirstHashedOk(k: Crypto, cc: C.Config, sc: S.Config, w: C.Draw, m: ClientHello, suite: Suite,
      f: Option<S.Found>)
    requires k.Sized() && cc.Valid() && cc.psk == sc.psk && C.SendHello(k, cc, C.NEW_CLIENT, w, None).Ok?
    requires var ch := C.SendHello(k, cc, C.NEW_CLIENT, w, None).value.1;
      m.identities == ch.identities && m.head == ch.head
    requires f.Some? ==>
      C.OfferOf(cc).Some? && f.value.index == 0 && f.value.secret == C.OfferOf(cc).value.secret
        && C.OfferOf(cc).value.suite.hash == suite.hash
    requires f.None? ==> sc.psk.None?
    requires f.Some? ==> m.identities.Some? && f.value.index < |m.identities.value|
    ensures S.HelloHashed(k, sc, New(Some(suite), []), m, f, false).Ok?
  {
    hide C.SendHello, S.CheckBinder, C.OfferOf;
    NewSingle(suite);
    if f.Some? {
      FirstBinder(k, cc, w);
      var o := C.OfferOf(cc).value;
      var s := New(Some(suite), []);
      var e := Extract(k, s, Some(f.value.secret));
      var p := Extract(k, New(Some(o.suite), cc.suites), Some(o.secret));
      FirstSlotsShape(Some(o.suite), cc.suites, |cc.suites|);
      BinderAccepted(k, cc, sc, s, e, m, f.value, false, p);
    }
  }

  // Both have the group, so that in the first flight there is a usable share or a retry.
  lemma FirstNegotiationCompletes(k: Crypto, cc: C.Config, sc: S.Config, x: Choices, c: C.Client, ch: ClientHello,
      m: ClientHello, suite: Suite)
    requires Peers(k, cc, sc, x) && C.SendHello(k, cc, C.NEW_CLIENT, x.first, None) == Ok((c, ch))
      && m == S.Masked(sc, ch)
    requires S.SuiteFor(sc, ch.suites) == Some(suite) && S.ShareFor(sc, m).Some?
    ensures var a := S.Negotiated(k, sc, FirstContact(ch, suite), m, S.ShareFor(sc, m), false, x.reply);
      && a.Ok?
      && var b := FeedClient(k, cc, c, a.value.1, x.second, x.last);
      && b.Ok? && FeedServer(k, sc, a.value.0, b.value.1, x.reply).Ok?
  {
    hide S.Respond, FeedClient, FeedServer, C.SendHello, S.HelloHashed, S.PskFor, S.SuiteFor, S.ShareFor, Derive, Ready,
      HelloOf, Compatible, Early, C.OfferOf, New, Willing, FindSuite, S.SelectGroup;
    FirstHello(k, cc, x.first);
    FirstEarlyKeys(k, cc, x.first);
    FirstHelloMessage(k, cc, x.first);
    FirstHelloOk(k, cc, x.first);
    MaskedHelloOf(cc, sc, c, ch);
    HelloSuites(cc, c, ch);
    SuiteKnown(cc, sc);
    var n := FirstContact(ch, suite);
    var f := S.PskFor(k, sc, suite, m, false);
    if f.Some? {
      FoundIsOffered(k, cc, sc, c, m, ch.suites, false);
      PskNeedsNoAuth(k, sc, suite, m, false);
    } else if sc.psk.Some? {
      OfferedExternal(cc);
      ExternalFound(k, cc, sc, c, m, suite, false);
    }
    FirstHashedOk(k, cc, sc, x.first, m, suite, f);
    var h := S.HelloHashed(k, sc, n.keys.sched, m, f, false);
    ServerFirst(k, sc, suite, m, f);
    ShareIsOffered(cc, sc, c, m);
    GroupsKnown(cc, sc);
    ReadyDerives(k, c.keys.sched, m.Raw(), OfferedSecret(cc), "c e traffic");
    ReadyDerives(k, c.keys.sched, m.Raw(), OfferedSecret(cc), "e exp master");
    EarlyShape(k, suite.hash, m.Raw(), FoundSecret(f));
    var s := n.(keys := n.keys.(sched := h.value), group := if f.Some? then f.value.group else None);
    TracksKnown(cc, suite, c.keys.sched.slots);
    RespondCompletes(k, cc, sc, c, s, m, S.ShareFor(sc, m), f, x.reply, m.Raw(), OfferedSecret(cc), x.second, x.last);
  }

  lemma TracksKnown(cc: C.Config, suite: Suite, slots: seq<Slot>)
    requires FindSuite(cc.suites, suite.id).Some? && FindSuite(cc.suites, suite.id).value.hash == suite.hash
    requires forall s | s in cc.suites :: Tracks(slots, s.hash)
    ensures Tracks(slots, suite.hash)
  {
    assert FindSuite(cc.suites, suite.id).value in cc.suites;
  }

  lemma HelloSuites(cc: C.Config, c: C.Client, ch: ClientHello)
    requires cc.Valid() && HelloOf(cc, c, ch)
    ensures ch.suites == Ids(cc) && ch.sessionId == cc.sessionId && ch.random == cc.random
      && (c.offeredPsk == C.OfferOf(cc).Some?)
  {}

  lemma GroupsKnown(cc: C.Config, sc: S.Config)
    requires S.SelectGroup(sc.groups, cc.groups).Some?
    ensures cc.groups != [] && sc.groups != [] && S.SelectGroup(sc.groups, cc.groups).value in sc.groups
         && S.SelectGroup(sc.groups, cc.groups).value in cc.groups
  {}

  lemma OfferedExternal(cc: C.Config)
    requires cc.Valid() && cc.psk.Some?
    ensures C.OfferOf(cc).Some?
  {}

  lemma PskNeedsNoAuth(k: Crypto, sc: S.Config, suite: Suite, ch: ClientHello, second: bool)
    requires S.PskFor(k, sc, suite, ch, second).Some?
    ensures !sc.requireClientAuth
  {
    hide S.FindPsk;
  }

  // ---------------------------------------------------------------- the second flight

  lemma RetryOk(k: Crypto, cc: C.Config, c: C.Client, m: Message, w: C.Draw)
    requires cc.Valid() && m.Retry? && FindSuite(cc.suites, m.suite).Some? && c.keys.sched.generation == 1
    requires Tracks(c.keys.sched.slots, FindSuite(cc.suites, m.suite).value.hash)
    requires cc.psk.Some? ==> FindSuite(cc.suites, m.suite).value.hash == cc.psk.value.hash
    requires cc.groups != [] && m.sessionId == cc.sessionId
    requires (m.group.Some? ==> m.group.value in cc.groups) && (m.group.None? ==> c.group.Some?)
    requires k.Sized() && Compact(w) && (m.cookie.Some? ==> |m.cookie.value| <= COOKIE_SIZE)
    ensures C.OnRetry(k, cc, c, m, w).Ok?
    ensures var r := C.OnRetry(k, cc, c, m, w).value;
      && r.0.group == (if m.group.Some? then m.group else c.group) && r.0.share == Some(w.key)
      && (C.OfferOf(cc).Some? ==> r.1.modeDhe)
      && r.1.cookie == (if m.cookie.Some? then Some(Block2(m.cookie.value)) else None)
  {
    hide C.BinderOf, Update, Derive, C.OfferOf, C.ExtensionsSize, C.HelloSize, SelectCipher;
    var found := FindSuite(cc.suites, m.suite).value;
    CompactFits(k, w, m.cookie, C.OfferOf(cc), found.hash);
    CS.SelectShape(k, c.keys.sched, found.hash, false, if cc.psk.Some? then Some(cc.psk.value.secret) else None);
  }

  // What a stateful retry asks for
  lemma RetryingOk(k: Crypto, cc: C.Config, sc: S.Config, n: S.Server, suite: Suite, m: ClientHello,
      share: Option<Share>)
    requires sc.suites != [] && m.groups == Some(cc.groups) && S.SelectGroup(sc.groups, cc.groups).Some?
    requires !sc.retryUsesCookie
    ensures var r := S.Retrying(k, sc, n, suite, m, share);
      && r.Ok? && |r.value.1| == 1 && r.value.1[0].Retry?
      && var q := r.value.1[0];
      && q.suite == suite.id && q.sessionId == m.sessionId && q.cookie.None?
      && q.group == (if share.Some? then None else S.SelectGroup(sc.groups, cc.groups))
      && r.value.0 == n.(keys := n.keys.(sched := S.AfterRetry(k, sc, suite, m, q.raw)),
        state := S.ExpectSecondClientHello)
  {
    hide EncodeRetry, S.AfterRetry;
  }

  lemma SecondHashedOk(k: Crypto, cc: C.Config, sc: S.Config, s: Schedule, m: ClientHello, f: Option<S.Found>,
      p: Schedule)
    requires k.Sized() && cc.Valid() && cc.psk == sc.psk && s.slots != [] && (f.None? ==> sc.psk.None?)
    requires f.Some? ==>
      && C.OfferOf(cc).Some? && m.identities.Some? && f.value.index < |m.identities.value|
      && p.slots != [] && Algo(p) == Algo(s) && p.secret == s.secret && Transcript(p) == Transcript(s)
      && m.identities.value[f.value.index].binder == C.BinderOf(k, p, C.OfferOf(cc).value.binderLabel, m.head)
    ensures S.HelloHashed(k, sc, s, m, f, true).Ok?
  {
    hide C.OfferOf, S.CheckBinder, C.BinderOf;
    if f.Some? {
      BinderAccepted(k, cc, sc, s, s, m, f.value, true, p);
    }
  }

  lemma SecondNegotiationCompletes(k: Crypto, cc: C.Config, sc: S.Config, x: Choices, c: C.Client, ch: ClientHello,
      suite: Suite, retry: Message, s: S.Server, c2: C.Client, ch2: ClientHello)
    requires Peers(k, cc, sc, x) && C.SendHello(k, cc, C.NEW_CLIENT, x.first, None) == Ok((c, ch))
    requires S.SuiteFor(sc, ch.suites) == Some(suite)
    requires retry.Retry? && retry.suite == suite.id && s == KeptState(k, sc, ch, suite, retry.raw)
    requires C.OnRetry(k, cc, c, retry, x.second) == Ok((c2, ch2)) && (C.OfferOf(cc).Some? ==> ch2.modeDhe)
    requires CookieTaken(sc, ch2)
    requires S.ShareFor(sc, S.Masked(sc, ch2)).Some?
    ensures Conclude(k, cc, sc, c2, ch2, s, x).Ok?
  {
    hide S.Respond, FeedClient, FeedServer, C.SendHello, S.HelloHashed, S.PskFor, S.SuiteFor, S.ShareFor, Derive, Ready,
      HelloOf, Compatible,
         Early, C.OfferOf, New, Willing, FindSuite, S.SelectGroup, C.OnRetry, S.AfterRetry, RetryTranscript, S.OnHello,
           C.BinderOf, SelectCipher, Update, TransformPostCh1;
    FirstHello(k, cc, x.first);
    FirstEarlyKeys(k, cc, x.first);
    FirstHelloMessage(k, cc, x.first);
    HelloSuites(cc, c, ch);
    SuiteKnown(cc, sc);
    var m1 := S.Masked(sc, ch);
    MaskedHelloOf(cc, sc, c, ch);
    ServerRetried(k, sc, suite, m1, retry.raw);
    ClientRetried(k, cc, c, retry, x.second, ch.Raw(), OfferedSecret(cc));
    var m := S.Masked(sc, ch2);
    MaskedHelloOf(cc, sc, c2, ch2);
    HelloSuites(cc, c2, ch2);
    SecondHelloTaken(k, sc, s, ch2, x.reply, suite);
    var f := S.PskFor(k, sc, suite, m, true);
    var ctx := RetryTranscript(k, suite.hash, ch.Raw(), retry.raw);
    var ikm := if Algo(c.keys.sched) != suite.hash then ExternalOf(cc) else OfferedSecret(cc);
    EarlyReady(k, suite.hash, ctx + m.Raw(), ikm);
    EarlyShape(k, suite.hash, ctx + m.Raw(), ikm);
    EarlyAlgo(k, suite.hash, ctx + m.Raw(), ikm);
    if f.Some? {
      FoundIsOffered(k, cc, sc, c2, m, ch.suites, true);
      PskNeedsNoAuth(k, sc, suite, m, true);
      ExternalAgrees(k, cc, sc, m, f.value, suite);
      SecondBinder(k, cc, sc, c, retry, x.second, ch.Raw(), suite, s.keys.sched);
      SecondHashedOk(k, cc, sc, s.keys.sched, m, f, s.keys.sched);
    } else {
      NoExternalOffer(cc);
      if sc.psk.Some? {
        OfferedExternal(cc);
        ExternalFound(k, cc, sc, c2, m, suite, true);
      }
      SecondHashedOk(k, cc, sc, s.keys.sched, m, f, s.keys.sched);
    }
    ServerSecond(k, sc, s.keys.sched, suite.hash, ctx, m, f);
    var h := S.HelloHashed(k, sc, s.keys.sched, m, f, true);
    EarlyShape(k, suite.hash, ctx + m.Raw(), S.ExternalSecret(sc));
    ShareIsOffered(cc, sc, c2, m);
    GroupsKnown(cc, sc);
    var q := s.(keys := s.keys.(sched := h.value), group := if f.Some? then f.value.group else None);
    OneTracks(c2.keys.sched, suite.hash);
    RespondCompletes(k, cc, sc, c2, q, m, S.ShareFor(sc, m), f, x.reply, ctx + m.Raw(), ikm, x.second, x.last);
  }

  lemma OneTracks(s: Schedule, algo: nat)
    requires s.slots != [] && Algo(s) == algo
    ensures Tracks(s.slots, algo)
  {}

  // The binder of the second hello, over the schedule that the server kept.
  lemma SecondBinder(k: Crypto, cc: C.Config, sc: S.Config, c: C.Client, m: Message, w: C.Draw, ch1: Data, suite: Suite,
      kept: Schedule)
    requires cc.Valid() && m.Retry? && C.OfferOf(cc).Some? && C.OnRetry(k, cc, c, m, w).Ok?
    requires Ready(k, c.keys.sched, ch1, OfferedSecret(cc))
    requires FindSuite(cc.suites, m.suite).Some? && FindSuite(cc.suites, m.suite).value.hash == suite.hash
    requires OfferedSecret(cc) == ExternalOf(cc) == S.ExternalSecret(sc)
    requires kept == Early(k, suite.hash, RetryTranscript(k, suite.hash, ch1, m.raw), S.ExternalSecret(sc))
    ensures var ch := C.OnRetry(k, cc, c, m, w).value.1;
      && kept.slots != []
      && ch.identities.Some? && |ch.identities.value| == 1
      && ch.identities.value[0].binder == C.BinderOf(k, kept, C.OfferOf(cc).value.binderLabel, ch.head)
  {
    hide C.OnRetry, C.OfferOf, Update, C.BinderOf, SelectCipher, TransformPostCh1, Extract;
    RetriedBinder(k, cc, c, m, w);
    ReadyTracked(k, cc, c, m, w);
    ReadySelect(k, c.keys.sched, ch1, OfferedSecret(cc), suite.hash, false, ExternalOf(cc));
    TransformEarly(k, suite.hash, ch1, ExternalOf(cc));
    EarlyUpdate(k, suite.hash, HashMessage(k, suite.hash, k.hash(suite.hash, ch1)), ExternalOf(cc), m.raw);
    EarlyShape(k, suite.hash, RetryTranscript(k, suite.hash, ch1, m.raw), S.ExternalSecret(sc));
  }

  lemma ReadyTracked(k: Crypto, cc: C.Config, c: C.Client, m: Message, w: C.Draw)
    requires cc.Valid() && m.Retry? && C.OnRetry(k, cc, c, m, w).Ok?
    ensures FindSuite(cc.suites, m.suite).Some? && Tracks(c.keys.sched.slots, FindSuite(cc.suites, m.suite).value.hash)
  {
    hide C.SendHello, SelectCipher, Update;
  }

  // A cookie, if there is one, is expected and well formed.
  predicate CookieTaken(sc: S.Config, ch: ClientHello)
  {
    ch.cookie.Some? ==> sc.cookieKey.Some? && ParseCookie(ch.cookie.value).Some?
  }

  // A second hello passes the checks before negotiation.
  lemma SecondHelloTaken(k: Crypto, sc: S.Config, s: S.Server, ch: ClientHello, w: S.Reply, suite: Suite)
    requires sc.suites != [] && s.state.ExpectSecondClientHello? && CookieTaken(sc, ch) && ch.random == s.random
      && !ch.early
    requires S.SuiteFor(sc, ch.suites) == Some(suite) && s.suite == Some(suite) && s.keys.sched.slots != []
    ensures var m := S.Masked(sc, ch);
      S.OnHello(k, sc, s, ch, w) == S.Negotiated(k, sc, s, m, S.ShareFor(sc, m), true, w)
  {
    hide S.Negotiated, S.SuiteFor, S.ShareFor, ParseCookie;
  }

  // And a first one, which is answered or retried.
  lemma FirstHelloTaken(k: Crypto, sc: S.Config, ch: ClientHello, w: S.Reply, suite: Suite)
    requires sc.suites != [] && sc.groups != [] && ch.cookie.None? && ch.shares.Some?
      && (ch.early ==> ch.identities.Some?)
    requires S.SuiteFor(sc, ch.suites) == Some(suite)
    ensures var m := S.Masked(sc, ch);
      var share := S.ShareFor(sc, m);
      S.OnHello(k, sc, S.NEW_SERVER, ch, w) ==
        if share.None? || sc.enforceRetry then S.Retrying(k, sc, FirstContact(ch, suite), suite, m, share)
        else S.Negotiated(k, sc, FirstContact(ch, suite), m, share, false, w)
  {
    hide S.Negotiated, S.Retrying, S.SuiteFor, S.ShareFor, New;
  }

  // A share of a configured group is usable.
  lemma ShareUsable(cc: C.Config, sc: S.Config, c: C.Client, ch: ClientHello)
    requires cc.Valid() && HelloOf(cc, c, ch) && c.group.Some? && c.share.Some? && c.group.value in sc.groups
    ensures S.ShareFor(sc, S.Masked(sc, ch)).Some?
  {}

  lemma UsableGroup(cc: C.Config, sc: S.Config, c: C.Client, ch: ClientHello)
    requires cc.Valid() && HelloOf(cc, c, ch) && S.ShareFor(sc, S.Masked(sc, ch)).Some?
    ensures c.group.Some? && c.group.value in sc.groups
  {}

  /** Between cooperative peers every honest run completes, with or without a retry, so that the secrets
      of HonestRunAgrees are in fact installed. */
  lemma HonestRunCompletes(k: Crypto, cc: C.Config, sc: S.Config, x: Choices)
    requires Cooperative(k, cc, sc, x)
    ensures HonestRun(k, cc, sc, x).Ok?
  {
    hide C.SendHello, S.OnHello, C.OnRetry, FeedClient, FeedServer, S.Negotiated, S.Retrying, S.SuiteFor, S.ShareFor,
      Compatible, S.Masked, HelloOf, Ready, S.SelectGroup, FindSuite, Willing, C.OfferOf, KeptState, New;
    FirstHelloOk(k, cc, x.first);
    var h := C.SendHello(k, cc, C.NEW_CLIENT, x.first, None).value;
    FirstHello(k, cc, x.first);
    FirstEarlyKeys(k, cc, x.first);
    FirstHelloMessage(k, cc, x.first);
    HelloSuites(cc, h.0, h.1);
    SuiteKnown(cc, sc);
    GroupsKnown(cc, sc);
    var suite := S.SuiteFor(sc, h.1.suites).value;
    var m := S.Masked(sc, h.1);
    MaskedFields(sc, h.1);
    HelloHasShares(cc, h.0, h.1);
    FirstHelloTaken(k, sc, h.1, x.reply, suite);
    var share := S.ShareFor(sc, m);
    if share.None? || sc.enforceRetry {
      RetryingOk(k, cc, sc, FirstContact(h.1, suite), suite, m, share);
      var a := S.Retrying(k, sc, FirstContact(h.1, suite), suite, m, share).value;
      var q := a.1[0];
      TracksKnown(cc, suite, h.0.keys.sched.slots);
      ReadyGeneration(k, h.0.keys.sched, h.1.Raw(), OfferedSecret(cc));
      ExternalHash(cc, sc, suite, h.1.suites);
      if share.Some? { UsableGroup(cc, sc, h.0, h.1); }
      RetryOk(k, cc, h.0, q, x.second);
      var r := C.OnRetry(k, cc, h.0, q, x.second).value;
      ClientRetried(k, cc, h.0, q, x.second, h.1.Raw(), OfferedSecret(cc));
      ShareUsable(cc, sc, r.0, r.1);
      IsKeptState(k, sc, h.1, suite, q.raw, a.0);
      SecondNegotiationCompletes(k, cc, sc, x, h.0, h.1, suite, q, a.0, r.0, r.1);
    } else {
      FirstNegotiationCompletes(k, cc, sc, x, h.0, h.1, m, suite);
      NegotiatedIsNoRetry(k, sc, FirstContact(h.1, suite), m, share, false, x.reply);
    }
  }

  lemma MaskedFields(sc: S.Config, ch: ClientHello)
    ensures var m := S.Masked(sc, ch); m.groups == ch.groups && m.sessionId == ch.sessionId && m.suites == ch.suites
  {}

  lemma HelloHasShares(cc: C.Config, c: C.Client, ch: ClientHello)
    requires cc.Valid() && HelloOf(cc, c, ch)
    ensures ch.shares.Some?
  {}

  lemma ExternalHash(cc: C.Config, sc: S.Config, suite: Suite, ids: seq<nat>)
    requires cc.psk == sc.psk && S.SuiteFor(sc, ids) == Some(suite)
    ensures cc.psk.Some? ==> suite.hash == cc.psk.value.hash
  {
    hide S.SelectSuite;
  }

  lemma IsKeptState(k: Crypto, sc: S.Config, ch: ClientHello, suite: Suite, raw: Data, s: S.Server)
    requires var n := FirstContact(ch, suite);
      s == n.(keys := n.keys.(sched := S.AfterRetry(k, sc, suite, S.Masked(sc, ch), raw)),
        state := S.ExpectSecondClientHello)
    ensures s == KeptState(k, sc, ch, suite, raw)
  {
    hide S.AfterRetry, New;
  }
}
