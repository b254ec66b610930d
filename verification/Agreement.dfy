/** Honest runs of the handshake: both ends install the same secrets. */
module Agreement {
  import opened Results
  import opened Wire
  import opened KeySchedule
  import opened Messages
  import C = TlsClient
  import S = TlsServer

  // ---------------------------------------------------------------- the early secret

  /** The client before it sees the ServerHello: whatever hashes it tracks, each was fed ctx,
      and the early secret was extracted from ikm with the first of them. */
  ghost predicate Ready(k: Crypto, s: Schedule, ctx: Data, ikm: Option<Data>)
  {
    && s.slots != []
    && s.generation == 1
    && Distinct(s.slots)
    && Fed(s, ctx)
    && s.secret == Extract(k, Schedule(0, [], s.slots), ikm).secret
  }

  // The schedule of a peer that knew the hash from the start.
  function Early(k: Crypto, algo: nat, ctx: Data, ikm: Option<Data>): Schedule
  {
    Extract(k, Single(0, [], algo, ctx), ikm)
  }

  lemma EarlyUpdate(k: Crypto, algo: nat, ctx: Data, ikm: Option<Data>, m: Data)
    ensures Update(Early(k, algo, ctx, ikm), m) == Early(k, algo, ctx + m, ikm)
  {
    var e := Early(k, algo, ctx, ikm);
    assert Update(e, m).slots == [Slot(algo, ctx + m)];
  }

  lemma EarlyTwice(k: Crypto, algo: nat, ctx: Data, ikm: Option<Data>, a: Data, b: Data)
    ensures Update(Update(Early(k, algo, ctx, ikm), a), b) == Early(k, algo, ctx + (a + b), ikm)
  {
    UpdateTwice(Early(k, algo, ctx, ikm), a, b);
    EarlyUpdate(k, algo, ctx, ikm, a + b);
  }

  lemma EarlyReady(k: Crypto, algo: nat, ctx: Data, ikm: Option<Data>)
    ensures Ready(k, Early(k, algo, ctx, ikm), ctx, ikm)
  {}

  lemma ReadyUpdate(k: Crypto, s: Schedule, ctx: Data, ikm: Option<Data>, m: Data)
    requires Ready(k, s, ctx, ikm)
    ensures Ready(k, Update(s, m), ctx + m, ikm)
  {}

  lemma ReadySelect(k: Crypto, s: Schedule, ctx: Data, ikm: Option<Data>, algo: nat, reset: bool, other: Option<Data>)
    requires Ready(k, s, ctx, ikm) && Tracks(s.slots, algo)
    ensures SelectCipher(k, s, algo, reset, other)
         == Early(k, algo, ctx, if reset || Algo(s) != algo then other else ikm)
  {
    SelectedSchedule(k, s, algo, reset, other, ctx, ikm);
  }

  // ---------------------------------------------------------------- first hello

  function OfferedSecret(cfg: C.Config): Option<Data>
    requires cfg.Valid()
  {
    var o := C.OfferOf(cfg);
    if o.Some? then Some(o.value.secret) else None
  }

  // After send_client_hello in the first flight.
  lemma FirstHello(k: Crypto, cfg: C.Config, w: C.Draw)
    requires cfg.Valid() && C.SendHello(k, cfg, C.NEW_CLIENT, w, None).Ok?
    ensures var r := C.SendHello(k, cfg, C.NEW_CLIENT, w, None).value;
      && Ready(k, r.0.keys.sched, r.1.Raw(), OfferedSecret(cfg))
      && (forall s | s in cfg.suites :: Tracks(r.0.keys.sched.slots, s.hash))
      && (C.OfferOf(cfg).Some? ==> Algo(r.0.keys.sched) == C.OfferOf(cfg).value.suite.hash)
  {
    var p := C.Prepared(k, cfg, C.NEW_CLIENT, w);
    var ch := C.SendHello(k, cfg, C.NEW_CLIENT, w, None).value.1;
    var suite := p.suite;
    FirstSlotsShape(suite, cfg.suites, |cfg.suites|);
    assert Ready(k, p.keys.sched, [], OfferedSecret(cfg));
    UpdateTwice(p.keys.sched, ch.head, ch.tail);
    ReadyUpdate(k, p.keys.sched, [], OfferedSecret(cfg), ch.Raw());
    assert [] + ch.Raw() == ch.Raw();
    forall s | s in cfg.suites ensures Tracks(Update(p.keys.sched, ch.Raw()).slots, s.hash) {
      var j :| 0 <= j < |cfg.suites| && cfg.suites[j] == s;
      FirstSlotsTrack(suite, cfg.suites, |cfg.suites|, j);
      UpdateTracks(p.keys.sched, ch.Raw(), s.hash);
    }
  }

  lemma UpdateTracks(s: Schedule, m: Data, algo: nat)
    requires Tracks(s.slots, algo)
    ensures Tracks(Update(s, m).slots, algo)
  {
    var i :| 0 <= i < |s.slots| && s.slots[i].algo == algo;
    assert Update(s, m).slots[i].algo == algo;
  }

  // What the first hello leaves behind for 0-RTT.
  lemma FirstEarlyKeys(k: Crypto, cfg: C.Config, w: C.Draw)
    requires cfg.Valid() && C.SendHello(k, cfg, C.NEW_CLIENT, w, None).Ok?
    ensures var c := C.SendHello(k, cfg, C.NEW_CLIENT, w, None).value.0;
      && c.keys.encLog == (if c.early then [Traffic(1, Derive(k, c.keys.sched, "c e traffic"))] else [])
      && c.keys.earlyExporter ==
           (if C.OfferOf(cfg).Some? && cfg.useExporter then Some(Derive(k, c.keys.sched, "e exp master")) else None)
      && c.keys.decLog == [] && c.keys.pending.None? && c.keys.exporter.None?
      && !c.isPsk && !c.certRequested
      && c.state == C.ExpectServerHello
      && c.offeredPsk == C.OfferOf(cfg).Some?
      && c.tickets == []
  {
    hide Extract, Update, Derive, VerifyData, DeriveEmpty, New;
  }

  // The hello as the server sees it.
  lemma FirstHelloMessage(k: Crypto, cfg: C.Config, w: C.Draw)
    requires cfg.Valid() && C.SendHello(k, cfg, C.NEW_CLIENT, w, None).Ok?
    ensures var r := C.SendHello(k, cfg, C.NEW_CLIENT, w, None).value;
      && HelloOf(cfg, r.0, r.1)
      && r.1.early == (C.OfferOf(cfg).Some? && r.0.early)
      && (C.OfferOf(cfg).Some? && C.OfferOf(cfg).value.group.Some? ==> r.0.group == C.OfferOf(cfg).value.group)
  {
    hide Extract, Update, Derive, VerifyData, DeriveEmpty, New;
  }

  // The fields of a hello that the client in state c has sent.
  ghost predicate HelloOf(cfg: C.Config, c: C.Client, ch: ClientHello)
    requires cfg.Valid()
  {
    && ch.suites == seq(|cfg.suites|, i requires 0 <= i < |cfg.suites| => cfg.suites[i].id)
    && ch.shares == Some(if c.group.Some? && c.share.Some? then [Share(c.group.value, c.share.value)] else [])
    && (C.OfferOf(cfg).None? ==> ch.identities.None?)
    && (C.OfferOf(cfg).Some? ==>
          ch.identities.Some? && |ch.identities.value| == 1
            && ch.identities.value[0].name == C.OfferOf(cfg).value.identity)
    && ch.sessionId == cfg.sessionId
    && ch.random == cfg.random
    && (c.offeredPsk == C.OfferOf(cfg).Some?)
  }

  // ---------------------------------------------------------------- retry

  // The transcript up to and including a HelloRetryRequest.
  function RetryTranscript(k: Crypto, algo: nat, ch1: Data, retry: Data): Data
  {
    HashMessage(k, algo, k.hash(algo, ch1)) + retry
  }

  function ExternalOf(cfg: C.Config): Option<Data>
  {
    if cfg.psk.Some? then Some(cfg.psk.value.secret) else None
  }

  // The client after a HelloRetryRequest, up to its second hello.
  lemma ClientRetried(k: Crypto, cfg: C.Config, c: C.Client, m: Message, w: C.Draw, ch1: Data, ikm: Option<Data>)
    requires cfg.Valid() && m.Retry? && C.OnRetry(k, cfg, c, m, w).Ok?
    requires Ready(k, c.keys.sched, ch1, ikm)
    requires C.OfferOf(cfg).Some? == c.offeredPsk
    ensures var r := C.OnRetry(k, cfg, c, m, w).value;
      var algo := FindSuite(cfg.suites, m.suite).value.hash;
      && FindSuite(cfg.suites, m.suite).Some?
      && r.0.keys.sched == Early(k, algo, RetryTranscript(k, algo, ch1, m.raw) + r.1.Raw(),
                                 if Algo(c.keys.sched) != algo then ExternalOf(cfg) else ikm)
      && HelloOf(cfg, r.0, r.1)
      && r.0.keys == c.keys.(sched := r.0.keys.sched)
      && !r.0.early && !r.1.early && r.0.isPsk == c.isPsk && r.0.certRequested == c.certRequested
      && r.0.state == C.ExpectSecondServerHello && r.0.tickets == c.tickets
  {
    hide Extract, Update, Derive, VerifyData, DeriveEmpty, New;
    var found := FindSuite(cfg.suites, m.suite).value;
    var s := SelectCipher(k, c.keys.sched, found.hash, false, ExternalOf(cfg));
    ReadySelect(k, c.keys.sched, ch1, ikm, found.hash, false, ExternalOf(cfg));
    var e := if Algo(c.keys.sched) != found.hash then ExternalOf(cfg) else ikm;
    TransformEarly(k, found.hash, ch1, e);
    EarlyUpdate(k, found.hash, HashMessage(k, found.hash, k.hash(found.hash, ch1)), e, m.raw);
    var t := Update(TransformPostCh1(k, s), m.raw);
    var ch := C.OnRetry(k, cfg, c, m, w).value.1;
    EarlyTwice(k, found.hash, RetryTranscript(k, found.hash, ch1, m.raw), e, ch.head, ch.tail);
  }

  lemma TransformEarly(k: Crypto, algo: nat, ctx: Data, ikm: Option<Data>)
    ensures var s := Early(k, algo, ctx, ikm);
      |s.slots| == 1 && TransformPostCh1(k, s) == Early(k, algo, HashMessage(k, algo, k.hash(algo, ctx)), ikm)
  {}

  // ---------------------------------------------------------------- the server's early secret

  lemma NewSingle(suite: Suite)
    ensures New(Some(suite), []) == Single(0, [], suite.hash, [])
  {}

  lemma NewUpdate(suite: Suite, m: Data)
    ensures Update(New(Some(suite), []), m) == Single(0, [], suite.hash, m)
  {
    NewSingle(suite);
    UpdateSingle(0, [], suite.hash, [], m);
    assert [] + m == m;
  }

  function FoundSecret(f: Option<S.Found>): Option<Data>
  {
    if f.Some? then Some(f.value.secret) else None
  }

  // The server in the first flight: hashing the whole hello or, around the binder, its two parts.
  lemma ServerFirst(k: Crypto, cfg: S.Config, suite: Suite, ch: ClientHello, f: Option<S.Found>)
    requires f.Some? ==> ch.identities.Some? && f.value.index < |ch.identities.value|
    requires S.HelloHashed(k, cfg, New(Some(suite), []), ch, f, false).Ok?
    ensures S.HelloHashed(k, cfg, New(Some(suite), []), ch, f, false).value
         == Early(k, suite.hash, ch.Raw(), FoundSecret(f))
  {
    hide Update;
    NewUpdate(suite, ch.Raw());
    NewSingle(suite);
    EarlyTwice(k, suite.hash, [], FoundSecret(f), ch.head, ch.tail);
    assert [] + (ch.head + ch.tail) == ch.Raw();
  }

  // The server in the second flight, from the transcript it kept or rebuilt.
  lemma ServerSecond(k: Crypto, cfg: S.Config, s: Schedule, algo: nat, ctx: Data, ch: ClientHello, f: Option<S.Found>)
    requires f.Some? ==> ch.identities.Some? && f.value.index < |ch.identities.value|
    requires s == Early(k, algo, ctx, S.ExternalSecret(cfg))
    requires S.HelloHashed(k, cfg, s, ch, f, true).Ok?
    ensures S.HelloHashed(k, cfg, s, ch, f, true).value == Early(k, algo, ctx + ch.Raw(), S.ExternalSecret(cfg))
    ensures f.None? ==> S.ExternalSecret(cfg) == None
  {
    hide Update;
    EarlyTwice(k, algo, ctx, S.ExternalSecret(cfg), ch.head, ch.tail);
    EarlyUpdate(k, algo, ctx, S.ExternalSecret(cfg), ch.Raw());
  }

  lemma ServerRetried(k: Crypto, cfg: S.Config, suite: Suite, ch: ClientHello, raw: Data)
    ensures S.AfterRetry(k, cfg, suite, ch, raw)
         == Early(k, suite.hash, RetryTranscript(k, suite.hash, ch.Raw(), raw), S.ExternalSecret(cfg))
  {
    hide Update;
    NewUpdate(suite, ch.Raw());
    var h := HashMessage(k, suite.hash, k.hash(suite.hash, ch.Raw()));
    EarlyUpdate(k, suite.hash, h, S.ExternalSecret(cfg), raw);
  }

  // ---------------------------------------------------------------- PSKs

  /** Client and server mean the same by what they share: suite numbers name the same hash,
      and a PSK identity that both know stands for the same secret. */
  ghost predicate Compatible(c: C.Config, s: S.Config)
  {
    && (forall x, y | x in c.suites && y in s.suites && x.id == y.id :: x.hash == y.hash)
    && (c.psk.Some? && s.psk.Some? && c.psk.value.identity == s.psk.value.identity ==> c.psk == s.psk)
    && (c.psk.Some? && s.psk.None? ==> s.open(c.psk.value.identity).None?)
    && (c.psk.None? && c.ticket.Some? && s.psk.Some? ==> c.ticket.value.identity != s.psk.value.identity)
    && (c.psk.None? && c.ticket.Some? && s.open(c.ticket.value.identity).Some? ==>
          var o := s.open(c.ticket.value.identity).value;
          o.secret == c.ticket.value.secret && o.suite == c.ticket.value.suite && o.group == c.ticket.value.group)
  }

  // The PSK the server picks is the one that the client offered, under the same hash.
  lemma FoundIsOffered(k: Crypto, cc: C.Config, sc: S.Config, c: C.Client, ch: ClientHello, ids: seq<nat>, second: bool)
    requires cc.Valid() && Compatible(cc, sc) && HelloOf(cc, c, ch)
    requires S.SuiteFor(sc, ids).Some?
    requires S.PskFor(k, sc, S.SuiteFor(sc, ids).value, ch, second).Some?
    ensures var f := S.PskFor(k, sc, S.SuiteFor(sc, ids).value, ch, second).value;
      && C.OfferOf(cc).Some?
      && f.index == 0
      && f.secret == C.OfferOf(cc).value.secret && f.group == C.OfferOf(cc).value.group
      && C.OfferOf(cc).value.suite.hash == S.SuiteFor(sc, ids).value.hash
      && (f.early ==> ch.early)
      && (second ==> sc.psk.Some? && cc.psk.Some?)
      && (sc.psk.Some? <==> cc.psk.Some?)
  {
    hide S.SelectSuite, FindSuite, FirstWithHash;
    var suite := S.SuiteFor(sc, ids).value;
    var f := S.PskFor(k, sc, suite, ch, second);
    assert f == S.FindPsk(k, sc, suite, ch.identities.value, ch.early, 0);
    assert S.FindPsk(k, sc, suite, ch.identities.value, ch.early, 1).None?;
  }

  // The key share the server picks is the one the client holds the private key of.
  lemma ShareIsOffered(cc: C.Config, sc: S.Config, c: C.Client, ch: ClientHello)
    requires cc.Valid() && HelloOf(cc, c, ch) && S.ShareFor(sc, ch).Some?
    ensures var share := S.ShareFor(sc, ch).value;
      c.group == Some(share.group) && c.share == Some(share.key)
  {}

  // ---------------------------------------------------------------- after ServerHello

  // The keys installed or about to be installed, in order.
  function Eventual(log: seq<Traffic>, pending: Option<Data>): seq<Traffic>
  {
    if pending.Some? then log + [Traffic(2, pending.value)] else log
  }

  // The same keys, except that the writer may have installed a 0-RTT key that was not accepted.
  ghost predicate Match(writer: seq<Traffic>, reader: seq<Traffic>)
  {
    || writer == reader
    || (writer != [] && writer[0].epoch == 1 && writer[1..] == reader)
  }

  lemma MatchAppend(writer: seq<Traffic>, reader: seq<Traffic>, t: Traffic)
    requires Match(writer, reader)
    ensures Match(writer + [t], reader + [t])
  {
    if writer != reader {
      assert (writer + [t])[1..] == writer[1..] + [t];
    }
  }

  // The handshake secret of the client's direction
  function HandshakeSecret(pending: Option<Data>, current: Data): Data
  {
    if pending.Some? then pending.value else current
  }

  ghost predicate Linked(c: Keys, s: Keys)
  {
    && c.sched == s.sched
    && c.dec == s.enc
    && c.decLog == s.encLog
    && Match(Eventual(c.encLog, c.pending), Eventual(s.decLog, s.pending))
    && HandshakeSecret(c.pending, c.enc.secret) == HandshakeSecret(s.pending, s.dec.secret)
    && (s.pending.Some? ==> c.pending.Some?)
    && c.exporter.None? && s.exporter.None?
  }

  // Server keys before ServerHello, against the client's: what 0-RTT may have installed.
  ghost predicate EarlyLinked(k: Crypto, cc: C.Config, sc: S.Config, c: C.Client, s: Keys, accepted: bool)
    requires s.sched.slots != []
  {
    && s.encLog == [] && s.decLog == [] && s.pending.None? && s.earlyExporter.None? && s.exporter.None?
    && c.keys.decLog == [] && c.keys.pending.None? && c.keys.exporter.None?
    && |c.keys.encLog| <= 1 && (c.keys.encLog != [] ==> c.keys.encLog[0].epoch == 1)
    && (accepted ==>
          && c.early
          && c.keys.encLog == [Traffic(1, Derive(k, s.sched, "c e traffic"))]
          && (cc.useExporter ==> c.keys.earlyExporter == Some(Derive(k, s.sched, "e exp master"))))
  }

  // Both hold the same early exporter secret, if the server holds one.
  ghost predicate ExporterLinked(cc: C.Config, c: Keys, s: Keys)
  {
    cc.useExporter && s.earlyExporter.Some? ==> c.earlyExporter == s.earlyExporter
  }

  // Both sides of a ServerHello: s and c before it, z and d after it.
  lemma HelloAgrees(k: Crypto, cc: C.Config, sc: S.Config, c: C.Client, s: S.Server, ch: ClientHello,
      share: Option<Share>, f: Option<S.Found>, w: S.Reply, ctx: Data, ikm: Option<Data>,
      z: S.Server, m: Message, d: C.Client)
    requires cc.Valid() && s.suite.Some? && s.keys.sched.slots != []
    requires Ready(k, c.keys.sched, ctx, ikm)
    requires FindSuite(cc.suites, s.suite.value.id).Some? ==>
      FindSuite(cc.suites, s.suite.value.id).value.hash == s.suite.value.hash
    requires f.Some? ==>
      f.value.index == 0 && s.keys.sched == Early(k, s.suite.value.hash, ctx, ikm)
        && Algo(c.keys.sched) == s.suite.value.hash
    requires f.None? ==>
      s.keys.sched == Early(k, s.suite.value.hash, ctx, None) && (c.offeredPsk || ikm.None?)
    requires !c.isPsk
    requires share.Some? ==> c.group == Some(share.value.group) && c.share == Some(share.value.key)
    requires EarlyLinked(k, cc, sc, c, s.keys, S.AcceptsEarly(sc, f))
    requires S.Greet(k, sc, s, ch, share, f, w) == Ok((z, m)) && m.ServerHello?
    requires C.OnServerHello(k, cc, c, m) == Ok(d)
    ensures Linked(d.keys, z.keys)
    ensures ExporterLinked(cc, d.keys, z.keys)
    ensures |z.keys.sched.slots| == 1 && z.keys.sched.generation == 2 && d.keys.sched == z.keys.sched
    ensures d.isPsk == f.Some? && d.early == c.early && d.state == C.ExpectEncryptedExtensions
    ensures d.certRequested == c.certRequested
    ensures z.keys.pending.Some? == S.AcceptsEarly(sc, f)
    ensures |Eventual(z.keys.decLog, z.keys.pending)| == if S.AcceptsEarly(sc, f) then 2 else 1
    ensures z.suite == s.suite && SameSuite(d, z) && d.tickets == c.tickets && d.group == c.group
  {
    hide Extract, Update, Derive, S.TicketCount, SelectCipher, C.HandshakeKeys, S.HandshakeKeys, S.EarlyKeys, Linked,
      ExporterLinked, EarlyLinked;
    var algo := s.suite.value.hash;
    var reset := c.offeredPsk && f.None?;
    ReadySelect(k, c.keys.sched, ctx, ikm, algo, reset, None);
    assert SelectCipher(k, c.keys.sched, algo, reset, None) == s.keys.sched;
    EarlyShape(k, algo, ctx, ikm);
    EarlyShape(k, algo, ctx, None);
    ExtractShape(k, s.keys.sched, w.hello);
    var secret := if m.share.Some? then Some(k.exchange(m.share.value.group, c.share.value, m.share.value.key))
      else None;
    HandshakeKeysLink(k, cc, sc, c, s.keys, S.AcceptsEarly(sc, f), Extract(k, Update(s.keys.sched, w.hello), secret));
  }

  predicate SameSuite(c: C.Client, s: S.Server)
  {
    c.suite.Some? && s.suite.Some? && c.suite.value.id == s.suite.value.id
  }

  // Handshake keys taken from the same schedule are linked, whatever 0-RTT had installed.
  lemma HandshakeKeysLink(k: Crypto, cc: C.Config, sc: S.Config, c: C.Client, s: Keys, accepted: bool, t: Schedule)
    requires s.sched.slots != [] && t.slots != []
    requires EarlyLinked(k, cc, sc, c, s, accepted)
    ensures var d := C.HandshakeKeys(k, c.keys.(sched := t), c.early);
      var e := if accepted then S.EarlyKeys(k, sc, s) else s;
      var z := S.HandshakeKeys(k, e.(sched := t), accepted);
      && Linked(d, z) && ExporterLinked(cc, d, z) && d.sched == t && z.sched == t && z.pending.Some? == accepted
      && |Eventual(z.decLog, z.pending)| == if accepted then 2 else 1
  {
    hide Derive;
  }

  lemma EarlyShape(k: Crypto, algo: nat, ctx: Data, ikm: Option<Data>)
    ensures |Early(k, algo, ctx, ikm).slots| == 1 && Early(k, algo, ctx, ikm).generation == 1
  {}

  lemma ExtractShape(k: Crypto, s: Schedule, m: Data)
    requires |s.slots| == 1 && s.generation == 1
    ensures forall ikm :: var t := Extract(k, Update(s, m), ikm); |t.slots| == 1 && t.generation == 2
  {}

  // ---------------------------------------------------------------- delivering messages

  // Deliver messages to the client one after the other; collect what it sends.
  function FeedClient(k: Crypto, cfg: C.Config, c: C.Client, ms: seq<Message>, d: C.Draw, l: C.LastFlight)
    : Result<(C.Client, seq<Message>), Error>
    requires cfg.Valid()
    decreases |ms|
  {
    if ms == [] then Ok((c, []))
    else
      var r := C.Step(k, cfg, c, ms[0], true, d, l);
      if r.Err? then Err(r.error)
      else
        var q := FeedClient(k, cfg, r.value.0, ms[1..], d, l);
        if q.Err? then q else Ok((q.value.0, r.value.1 + q.value.1))
  }

  // The same for the server, which sends nothing after its flight.
  function FeedServer(k: Crypto, cfg: S.Config, s: S.Server, ms: seq<Message>, w: S.Reply): Result<S.Server, Error>
    requires cfg.suites != []
    decreases |ms|
  {
    if ms == [] then Ok(s)
    else
      var r := S.Step(k, cfg, s, ms[0], true, w);
      if r.Err? then Err(r.error) else FeedServer(k, cfg, r.value.0, ms[1..], w)
  }

  predicate CertificateKind(m: Message)
  {
    m.CertificateRequest? || m.Certificate? || m.CertificateVerify?
  }

  predicate Requests(ms: seq<Message>) { exists m | m in ms :: m.CertificateRequest? }

  predicate InFlight(c: C.Client)
  {
    && c.keys.sched.slots != []
    && (c.state.ExpectCertificateRequestOrCertificate? || c.state.ExpectCertificate? || c.state.ExpectCertificateVerify?
      || c.state.ExpectFinished?)
  }

  // A certificate message only extends the transcript.
  lemma OneCertificate(k: Crypto, cfg: C.Config, c: C.Client, m: Message, d: C.Draw, l: C.LastFlight)
    requires cfg.Valid() && CertificateKind(m) && InFlight(c) && C.Step(k, cfg, c, m, true, d, l).Ok?
    ensures var r := C.Step(k, cfg, c, m, true, d, l).value;
      && r.1 == []
      && InFlight(r.0)
      && r.0 == c.(keys := c.keys.(sched := Update(c.keys.sched, m.raw)), state := r.0.state,
                   certRequested := c.certRequested || m.CertificateRequest?)
  {
    hide TranscriptHash;
  }

  // The client when the server's Finished arrives.
  function AfterCertificates(c: C.Client, ms: seq<Message>): (e: C.Client)
    ensures |e.keys.sched.slots| == |c.keys.sched.slots|
  {
    c.(keys := c.keys.(sched := UpdateAll(c.keys.sched, ms)), state := C.ExpectFinished,
       certRequested := c.certRequested || Requests(ms))
  }

  lemma FeedCertificates(k: Crypto, cfg: C.Config, c: C.Client, ms: seq<Message>, m: Message, d: C.Draw,
      l: C.LastFlight)
    requires cfg.Valid() && (forall x | x in ms :: CertificateKind(x))
    requires m.Finished? && InFlight(c)
    requires FeedClient(k, cfg, c, ms + [m], d, l).Ok?
    ensures FeedClient(k, cfg, c, ms + [m], d, l) == C.OnFinished(k, cfg, AfterCertificates(c, ms), m, l)
    decreases |ms|
  {
    hide Update, C.OnFinished, InFlight;
    if ms == [] {
      FeedLast(k, cfg, c, m, d, l);
      assert ms + [m] == [m];
    } else {
      FeedOne(k, cfg, c, ms, m, d, l);
      var r := C.Step(k, cfg, c, ms[0], true, d, l).value.0;
      FeedCertificates(k, cfg, r, ms[1..], m, d, l);
      RequestsCons(ms);
      assert UpdateAll(c.keys.sched, ms) == UpdateAll(Update(c.keys.sched, Raw(ms[0])), ms[1..]);
      assert AfterCertificates(r, ms[1..]) == AfterCertificates(c, ms);
    }
  }

  lemma RequestsCons(ms: seq<Message>)
    requires ms != []
    ensures Requests(ms) == (ms[0].CertificateRequest? || Requests(ms[1..]))
  {
    if ms[0].CertificateRequest? { assert ms[0] in ms; }
    assert forall m | m in ms :: m == ms[0] || m in ms[1..];
  }

  lemma FeedLast(k: Crypto, cfg: C.Config, c: C.Client, m: Message, d: C.Draw, l: C.LastFlight)
    requires cfg.Valid() && m.Finished? && InFlight(c) && FeedClient(k, cfg, c, [m], d, l).Ok?
    ensures FeedClient(k, cfg, c, [m], d, l) == C.OnFinished(k, cfg, AfterCertificates(c, []), m, l)
  {
    hide C.OnFinished;
    var r := C.Step(k, cfg, c, m, true, d, l);
    assert FeedClient(k, cfg, r.value.0, [], d, l) == Ok((r.value.0, []));
    assert r.value.1 + [] == r.value.1;
    assert [m][1..] == [];
    assert AfterCertificates(c, []) == c;
  }

  lemma FeedOne(k: Crypto, cfg: C.Config, c: C.Client, ms: seq<Message>, m: Message, d: C.Draw, l: C.LastFlight)
    requires cfg.Valid() && ms != [] && CertificateKind(ms[0]) && InFlight(c)
    requires FeedClient(k, cfg, c, ms + [m], d, l).Ok?
    ensures C.Step(k, cfg, c, ms[0], true, d, l).Ok?
    ensures var r := C.Step(k, cfg, c, ms[0], true, d, l).value.0;
      && InFlight(r)
      && r == c.(keys := c.keys.(sched := Update(c.keys.sched, ms[0].raw)), state := r.state,
                 certRequested := c.certRequested || ms[0].CertificateRequest?)
      && FeedClient(k, cfg, c, ms + [m], d, l) == FeedClient(k, cfg, r, ms[1..] + [m], d, l)
  {
    hide C.Step, Update, InFlight;
    assert (ms + [m])[0] == ms[0] && (ms + [m])[1..] == ms[1..] + [m];
    OneCertificate(k, cfg, c, ms[0], d, l);
    var q := FeedClient(k, cfg, C.Step(k, cfg, c, ms[0], true, d, l).value.0, ms[1..] + [m], d, l);
    assert [] + q.value.1 == q.value.1;
  }

  // ---------------------------------------------------------------- the client's last flight at the server

  predicate LastKind(m: Message)
  {
    m.EndOfEarlyData? || m.Certificate? || m.CertificateVerify?
  }

  predicate Awaiting(s: S.Server)
  {
    && s.keys.sched.slots != []
    && (s.state.ExpectCertificate? || s.state.ExpectCertificateVerify? || s.state.ExpectEndOfEarlyData?
      || s.state.ExpectFinished?)
    && (s.keys.pending.Some? <==> s.state.ExpectEndOfEarlyData?)
  }

  // The server once the client's Finished is accepted.
  function Completed(s: S.Server, ms: seq<Message>, fin: Data): S.Server
  {
    s.(state := S.PostHandshake,
       pendingTraffic := [],
       keys := s.keys.(
         sched := Update(UpdateAll(s.keys.sched, ms), fin),
         dec := Traffic(3, s.pendingTraffic),
         decLog := Eventual(s.keys.decLog, s.keys.pending) + [Traffic(3, s.pendingTraffic)],
         pending := None))
  }

  lemma OneLast(k: Crypto, cfg: S.Config, s: S.Server, m: Message, w: S.Reply)
    requires cfg.suites != [] && LastKind(m) && Awaiting(s) && S.Step(k, cfg, s, m, true, w).Ok?
    ensures var r := S.Step(k, cfg, s, m, true, w).value.0;
      && Awaiting(r)
      && Eventual(r.keys.decLog, r.keys.pending) == Eventual(s.keys.decLog, s.keys.pending)
      && r == s.(keys := s.keys.(sched := Update(s.keys.sched, m.raw), dec := r.keys.dec, decLog := r.keys.decLog,
        pending := r.keys.pending),
                 state := r.state)
  {
    hide TranscriptHash;
  }

  lemma FeedLastFlight(k: Crypto, cfg: S.Config, s: S.Server, ms: seq<Message>, m: Message, w: S.Reply)
    requires cfg.suites != [] && (forall x | x in ms :: LastKind(x)) && m.Finished? && Awaiting(s)
    requires FeedServer(k, cfg, s, ms + [m], w).Ok?
    ensures FeedServer(k, cfg, s, ms + [m], w).value == Completed(s, ms, m.raw)
    decreases |ms|
  {
    hide Update, Awaiting;
    if ms == [] {
      assert ms + [m] == [m];
      FeedServerFinished(k, cfg, s, m, w);
    } else {
      assert (ms + [m])[0] == ms[0] && (ms + [m])[1..] == ms[1..] + [m];
      OneLast(k, cfg, s, ms[0], w);
      var r := S.Step(k, cfg, s, ms[0], true, w).value.0;
      FeedLastFlight(k, cfg, r, ms[1..], m, w);
    }
  }

  lemma FeedServerFinished(k: Crypto, cfg: S.Config, s: S.Server, m: Message, w: S.Reply)
    requires cfg.suites != [] && m.Finished? && Awaiting(s) && FeedServer(k, cfg, s, [m], w).Ok?
    ensures FeedServer(k, cfg, s, [m], w).value == Completed(s, [], m.raw)
  {
    hide VerifyFinished, Update;
    var r := S.Step(k, cfg, s, m, true, w).value.0;
    assert [m][1..] == [];
    assert FeedServer(k, cfg, r, [], w) == Ok(r);
  }

  // ---------------------------------------------------------------- from ServerHello to the end

  // The server right after its own Finished.
  ghost predicate Finishing(s: S.Server, z: S.Server)
  {
    && Awaiting(s)
    && Eventual(s.keys.decLog, s.keys.pending) == Eventual(z.keys.decLog, z.keys.pending)
    && HandshakeSecret(s.keys.pending, s.keys.dec.secret) == HandshakeSecret(z.keys.pending, z.keys.dec.secret)
  }

  // What is still expected of a client that need not authenticate.
  predicate WithoutClientAuth(cfg: S.Config, s: S.Server)
  {
    s.state.ExpectFinished? || (s.state.ExpectEndOfEarlyData? && !cfg.omitEndOfEarlyData)
  }

  function Head(ms: seq<Message>, last: Message): Message { if ms == [] then last else ms[0] }

  /** The schedule that send_session_ticket predicts is the one both ends have at the end, since
      all the server still takes is EndOfEarlyData, if it waits for it, and Finished. */
  lemma PredictionHolds(k: Crypto, cfg: S.Config, s: S.Server, sent: seq<Message>, fin: Message, w: S.Reply)
    requires cfg.suites != [] && Awaiting(s) && WithoutClientAuth(cfg, s) && fin.Finished?
    requires forall m | m in sent :: LastKind(m) && (m.EndOfEarlyData? ==> m.raw == END_OF_EARLY_DATA)
    requires FeedServer(k, cfg, s, sent + [fin], w).Ok?
    requires fin.raw == FinishedMessage(k, UpdateAll(s.keys.sched, sent),
      HandshakeSecret(s.keys.pending, s.keys.dec.secret))
    ensures S.PredictedSchedule(k, cfg, s.keys) == Update(UpdateAll(s.keys.sched, sent), fin.raw)
  {
    hide Update, FinishedMessage;
    var all := sent + [fin];
    if s.state.ExpectFinished? {
      assert all[0] == Head(sent, fin);
      assert sent == [];
    } else {
      assert all[0] == Head(sent, fin);
      assert all[0] == sent[0];
      OneLast(k, cfg, s, sent[0], w);
      var r := S.Step(k, cfg, s, sent[0], true, w).value.0;
      var rest := all[1..];
      assert rest[0] == Head(sent[1..], fin);
      assert sent == [sent[0]];
      assert UpdateAll(s.keys.sched, sent) == UpdateAll(Update(s.keys.sched, END_OF_EARLY_DATA), []);
    }
  }

  lemma ServerFinish(k: Crypto, cfg: S.Config, z: S.Server)
    requires |z.keys.sched.slots| == 1 && S.Finish(k, cfg, z).Ok?
    ensures var r := S.Finish(k, cfg, z).value;
      var u := Update(z.keys.sched, r.1.raw);
      && r.1 == Finished(FinishedMessage(k, z.keys.sched, z.keys.enc.secret))
      && Finishing(r.0, z)
      && r.0.keys.sched == Extract(k, u, None)
      && r.0.keys.enc == Traffic(3, Derive(k, Extract(k, u, None), "s ap traffic"))
      && r.0.keys.encLog == z.keys.encLog + [r.0.keys.enc]
      && r.0.pendingTraffic == Derive(k, Extract(k, u, None), "c ap traffic")
      && r.0.keys.exporter == (if cfg.useExporter then Some(Derive(k, Extract(k, u, None), "exp master"))
        else z.keys.exporter)
      && r.0.keys.earlyExporter == z.keys.earlyExporter
      && (!cfg.requireClientAuth ==> WithoutClientAuth(cfg, r.0)) && r.0.keys.sched.slots != []
      && r.0.isPsk == z.isPsk
  {
    hide Derive, Update, FinishedMessage, S.SendTicket;
  }

  lemma ClientFinish(k: Crypto, cfg: C.Config, c: C.Client, m: Message, l: C.LastFlight)
    requires m.Finished? && |c.keys.sched.slots| == 1 && C.OnFinished(k, cfg, c, m, l).Ok?
    ensures var r := C.OnFinished(k, cfg, c, m, l).value;
      var s := Extract(k, Update(c.keys.sched, m.raw), None);
      var sent := C.BeforeFinished(k, cfg, c, s, l);
      var fin := FinishedMessage(k, UpdateAll(s, sent), HandshakeSecret(c.keys.pending, c.keys.enc.secret));
      && r.1 == sent + [Finished(fin)]
      && r.0.state == C.PostHandshake
      && r.0.keys.sched == Update(UpdateAll(s, sent), fin)
      && r.0.keys.dec == Traffic(3, Derive(k, s, "s ap traffic"))
      && r.0.keys.decLog == c.keys.decLog + [r.0.keys.dec]
      && r.0.keys.enc == Traffic(3, Derive(k, s, "c ap traffic"))
      && r.0.keys.encLog == Eventual(c.keys.encLog, c.keys.pending) + [r.0.keys.enc]
      && r.0.keys.exporter == (if cfg.useExporter then Some(Derive(k, s, "exp master")) else c.keys.exporter)
      && r.0.keys.earlyExporter == c.keys.earlyExporter
      && r.0.isPsk == c.isPsk && r.0.suite == c.suite && r.0.tickets == c.tickets && r.0.group == c.group
  {
    hide Derive, Update, FinishedMessage, VerifyFinished, UpdateAll;
  }

  lemma BeforeFinishedKinds(k: Crypto, cfg: C.Config, c: C.Client, s: Schedule, l: C.LastFlight)
    requires l.Valid() && s.slots != []
    ensures forall m | m in C.BeforeFinished(k, cfg, c, s, l) ::
      LastKind(m) && (m.EndOfEarlyData? ==> m.raw == END_OF_EARLY_DATA)
  {
    hide TranscriptHash, Update;
  }

  /** Same transcript and schedule, same current keys in both directions, the same keys installed
      on the way (a rejected 0-RTT key aside), same exporter secrets. */
  ghost predicate Agreed(cc: C.Config, sc: S.Config, c: Keys, s: Keys)
  {
    && c.sched == s.sched
    && c.enc == s.dec
    && c.dec == s.enc
    && c.decLog == s.encLog
    && Match(c.encLog, s.decLog)
    && (cc.useExporter && sc.useExporter ==> c.exporter == s.exporter && c.exporter.Some?)
    && ExporterLinked(cc, c, s)
  }

  lemma FeedExtensions(k: Crypto, cfg: C.Config, c: C.Client, m: Message, ms: seq<Message>, d: C.Draw, l: C.LastFlight)
    requires cfg.Valid() && m.EncryptedExtensions? && c.state.ExpectEncryptedExtensions?
    requires c.keys.sched.slots != []
    requires FeedClient(k, cfg, c, [m] + ms, d, l).Ok?
    ensures var e := C.Hashed(c.(early := c.early && m.early), m.raw,
                              if c.isPsk then C.ExpectFinished else C.ExpectCertificateRequestOrCertificate);
      InFlight(e) && FeedClient(k, cfg, c, [m] + ms, d, l) == FeedClient(k, cfg, e, ms, d, l)
  {
    hide Update;
    assert ([m] + ms)[0] == m && ([m] + ms)[1..] == ms;
    var r := C.Step(k, cfg, c, m, true, d, l).value;
    var q := FeedClient(k, cfg, r.0, ms, d, l);
    assert q.Ok? ==> [] + q.value.1 == q.value.1;
  }

  // What the two sides have after the server's Finished and the client's answer.
  lemma ClientAnswers(k: Crypto, cc: C.Config, d: C.Client, ee: Message, certs: seq<Message>, fin: Message, dr: C.Draw,
      l: C.LastFlight)
    requires cc.Valid() && l.Valid() && fin.Finished? && ee.EncryptedExtensions?
    requires forall x | x in certs :: CertificateKind(x)
    requires |d.keys.sched.slots| == 1 && d.state.ExpectEncryptedExtensions?
    requires FeedClient(k, cc, d, [ee] + (certs + [fin]), dr, l).Ok?
    ensures var r := FeedClient(k, cc, d, [ee] + (certs + [fin]), dr, l).value;
      exists e: C.Client ::
        && |e.keys.sched.slots| == 1
        && e.keys == d.keys.(sched := UpdateAll(d.keys.sched, [ee] + certs))
        && e.isPsk == d.isPsk && e.suite == d.suite && e.tickets == d.tickets && e.group == d.group
        && e.early == (d.early && ee.early)
        && e.certRequested == (d.certRequested || Requests(certs))
        && C.OnFinished(k, cc, e, fin, l) == Ok(r)
  {
    hide Update, C.OnFinished, FeedClient;
    FeedExtensions(k, cc, d, ee, certs + [fin], dr, l);
    var e := C.Hashed(d.(early := d.early && ee.early), ee.raw,
                      if d.isPsk then C.ExpectFinished else C.ExpectCertificateRequestOrCertificate);
    FeedCertificates(k, cc, e, certs, fin, dr, l);
    assert ([ee] + certs)[0] == ee && ([ee] + certs)[1..] == certs;
    var x := AfterCertificates(e, certs);
    assert x.keys == d.keys.(sched := UpdateAll(d.keys.sched, [ee] + certs));
  }

  // The client once it has sent its Finished
  lemma ClientDone(k: Crypto, cc: C.Config, d: C.Client, ee: Message, certs: seq<Message>, fin: Message,
      c: C.Client, out: seq<Message>, dr: C.Draw, l: C.LastFlight)
    requires cc.Valid() && l.Valid() && fin.Finished? && ee.EncryptedExtensions?
    requires forall x | x in certs :: CertificateKind(x)
    requires |d.keys.sched.slots| == 1 && d.state.ExpectEncryptedExtensions?
    requires FeedClient(k, cc, d, [ee] + (certs + [fin]), dr, l) == Ok((c, out))
    ensures c.state == C.PostHandshake && c.keys.sched.slots != []
    ensures c.suite == d.suite && c.tickets == d.tickets && c.isPsk == d.isPsk && c.group == d.group
  {
    hide Update, UpdateAll, C.OnFinished, FeedClient, FinishedMessage, Derive;
    ClientAnswers(k, cc, d, ee, certs, fin, dr, l);
    var e: C.Client :|
      && |e.keys.sched.slots| == 1 && e.isPsk == d.isPsk && e.suite == d.suite && e.tickets == d.tickets
        && e.group == d.group
      && C.OnFinished(k, cc, e, fin, l) == Ok((c, out));
    ClientFinish(k, cc, e, fin, l);
  }

  /** z and d stand after ServerHello, x after its flight is sent, s after its Finished, c after the
      client's answer, t after the server took that answer. */
  lemma RestAgrees(k: Crypto, cc: C.Config, sc: S.Config, d: C.Client, z: S.Server, x: S.Server, certs: seq<Message>,
      ee: Message, s: S.Server, fin: Message, c: C.Client, out: seq<Message>, t: S.Server, w: S.Reply, dr: C.Draw,
      l: C.LastFlight)
    requires cc.Valid() && sc.suites != [] && l.Valid() && ee.EncryptedExtensions? && fin.Finished?
    requires forall x | x in certs :: CertificateKind(x)
    requires Linked(d.keys, z.keys) && ExporterLinked(cc, d.keys, z.keys) && |z.keys.sched.slots| == 1
    requires d.state.ExpectEncryptedExtensions?
    requires x == z.(keys := z.keys.(sched := UpdateAll(z.keys.sched, [ee] + certs)))
    requires S.Finish(k, sc, x) == Ok((s, fin))
    requires FeedClient(k, cc, d, [ee] + (certs + [fin]), dr, l) == Ok((c, out))
    requires FeedServer(k, sc, s, out, w) == Ok(t)
    ensures Agreed(cc, sc, c.keys, t.keys)
    ensures c.state == C.PostHandshake && t.state == S.PostHandshake
    ensures c.isPsk == d.isPsk && |t.keys.decLog| == |Eventual(z.keys.decLog, z.keys.pending)| + 1
    ensures t.sealed == s.sealed && t.suite == s.suite && t.isPsk == z.isPsk && c.keys.sched.slots != []
      && (!sc.requireClientAuth ==> S.PredictedSchedule(k, sc, s.keys) == c.keys.sched)
  {
    hide Update, UpdateAll, S.Finish, C.OnFinished, FeedClient, FeedServer, FinishedMessage, Derive, Awaiting, Extract,
      Match, C.BeforeFinished;
    ServerFinish(k, sc, x);
    ClientAnswers(k, cc, d, ee, certs, fin, dr, l);
    var e: C.Client :|
      && |e.keys.sched.slots| == 1
      && e.keys == d.keys.(sched := UpdateAll(d.keys.sched, [ee] + certs))
      && e.isPsk == d.isPsk
      && C.OnFinished(k, cc, e, fin, l) == Ok((c, out));
    ClientFinish(k, cc, e, fin, l);
    var sent := C.BeforeFinished(k, cc, e, s.keys.sched, l);
    BeforeFinishedKinds(k, cc, e, s.keys.sched, l);
    var last := out[|out| - 1];
    assert out == sent + [last];
    FeedLastFlight(k, sc, s, sent, last, w);
    MatchAppend(Eventual(e.keys.encLog, e.keys.pending), Eventual(s.keys.decLog, s.keys.pending), c.keys.enc);
    if !sc.requireClientAuth {
      PredictionHolds(k, sc, s, sent, last, w);
    }
  }

  /** The client has saved every ticket that the server sent, if it saves any: with the bytes that seal
      the session, for the same suite and, without client authentication, with the same secret. */
  ghost predicate Redeemable(cc: C.Config, sc: S.Config, c: C.Client, s: S.Server)
  {
    && SameSuite(c, s)
    && |c.tickets| == (if cc.savesTickets then |s.sealed| else 0)
    && forall i | 0 <= i < |c.tickets| :: Redeems(sc, c.tickets[i], i, s.sealed[i])
  }

  ghost predicate Redeems(sc: S.Config, t: C.StoredTicket, i: nat, session: Option<S.Session>)
  {
    && t.identity == sc.seal(i, session)
    && t.allowsEarly == (sc.maxEarly != 0)
    && (session.Some? ==>
          && t.suite == session.value.suite && t.group == session.value.group
          && (!sc.requireClientAuth ==> t.secret == session.value.secret))
  }

  // Every saved ticket has the resumption secret of the whole handshake.
  ghost predicate Earned(k: Crypto, c: C.Client)
  {
    c.keys.sched.slots != [] && forall t | t in c.tickets :: t.secret == Resumption(k, c.keys.sched, [])
  }

  lemma {:induction false} TicketsSeal(k: Crypto, cfg: S.Config, s: S.Server, n: nat)
    requires s.keys.sched.slots != []
    ensures var r := S.SendTickets(k, cfg, s, n);
      && |r.sealed| == |s.sealed| + n
      && (forall i | 0 <= i < |r.sealed| ::
        r.sealed[i] == if i < |s.sealed| then s.sealed[i] else S.SessionOf(k, cfg, s))
  {
    hide S.PredictedSchedule, Resumption;
    if n != 0 {
      TicketsSeal(k, cfg, s, n - 1);
    }
  }

  lemma FinishSeals(k: Crypto, cfg: S.Config, z: S.Server, s: S.Server, fin: Message)
    requires z.keys.sched.slots != [] && z.sealed == [] && S.Finish(k, cfg, z) == Ok((s, fin))
    ensures s.keys.sched.slots != []
    ensures |s.sealed| == z.tickets && s.suite == z.suite && s.group == z.group
    ensures forall i | 0 <= i < |s.sealed| :: s.sealed[i] == S.SessionOf(k, cfg, s)
  {
    hide S.PredictedSchedule, Resumption, Derive, Update, FinishedMessage, S.SendTickets, S.ApplicationKeys;
    var t := Extract(k, Update(z.keys.sched, fin.raw), None);
    ApplicationKeepsSchedule(k, cfg, z.keys.(sched := t));
    forall x: S.Server, n: nat | x.keys.sched.slots != []
      ensures var r := S.SendTickets(k, cfg, x, n);
        && |r.sealed| == |x.sealed| + n
        && (forall i | 0 <= i < |r.sealed| ::
          r.sealed[i] == if i < |x.sealed| then x.sealed[i] else S.SessionOf(k, cfg, x))
    {
      TicketsSeal(k, cfg, x, n);
    }
  }

  lemma ApplicationKeepsSchedule(k: Crypto, cfg: S.Config, y: Keys)
    requires y.sched.slots != []
    ensures S.ApplicationKeys(k, cfg, y).sched == y.sched
  {}

  predicate AwaitsHello(c: C.Client) { c.state.ExpectServerHello? || c.state.ExpectSecondServerHello? }

  lemma FeedHello(k: Crypto, cfg: C.Config, c: C.Client, m: Message, ms: seq<Message>, d: C.Draw, l: C.LastFlight)
    requires cfg.Valid() && m.ServerHello? && AwaitsHello(c)
    requires FeedClient(k, cfg, c, [m] + ms, d, l).Ok?
    ensures C.OnServerHello(k, cfg, c, m).Ok?
    ensures FeedClient(k, cfg, c, [m] + ms, d, l) == FeedClient(k, cfg, C.OnServerHello(k, cfg, c, m).value, ms, d, l)
  {
    hide C.OnServerHello;
    assert ([m] + ms)[0] == m && ([m] + ms)[1..] == ms;
    var r := C.Step(k, cfg, c, m, true, d, l).value;
    var q := FeedClient(k, cfg, r.0, ms, d, l);
    assert q.Ok? ==> [] + q.value.1 == q.value.1;
  }

  // ---------------------------------------------------------------- tickets at the client

  lemma {:induction false} FeedAppend(k: Crypto, cfg: C.Config, c: C.Client, a: seq<Message>, b: seq<Message>,
      d: C.Draw, l: C.LastFlight)
    requires cfg.Valid()
    ensures var p := FeedClient(k, cfg, c, a, d, l);
      FeedClient(k, cfg, c, a + b, d, l) ==
        if p.Err? then p
        else
          var q := FeedClient(k, cfg, p.value.0, b, d, l);
          if q.Err? then q else Ok((q.value.0, p.value.1 + q.value.1))
    decreases |a|
  {
    hide C.Step;
    if a == [] {
      assert a + b == b;
      var q := FeedClient(k, cfg, c, b, d, l);
      assert q.Ok? ==> [] + q.value.1 == q.value.1;
    } else {
      assert (a + b)[0] == a[0] && (a + b)[1..] == a[1..] + b;
      var r := C.Step(k, cfg, c, a[0], true, d, l);
      if r.Ok? {
        FeedAppend(k, cfg, r.value.0, a[1..], b, d, l);
        var p := FeedClient(k, cfg, r.value.0, a[1..], d, l);
        if p.Ok? {
          var q := FeedClient(k, cfg, p.value.0, b, d, l);
          assert q.Ok? ==> r.value.1 + (p.value.1 + q.value.1) == r.value.1 + p.value.1 + q.value.1;
        }
      }
    }
  }

  // A client that has what it needs to save tickets
  predicate CanSave(cfg: C.Config, c: C.Client)
  {
    cfg.savesTickets ==> c.group.Some? && c.suite.Some?
  }

  function Saved(k: Crypto, cfg: C.Config, c: C.Client, ms: seq<Message>): seq<C.StoredTicket>
    requires CanSave(cfg, c) && c.keys.sched.slots != [] && forall m | m in ms :: m.NewSessionTicket?
  {
    if cfg.savesTickets then seq(|ms|, i requires 0 <= i < |ms| => C.Stored(k, c, ms[i])) else []
  }

  /** Tickets are saved in the order in which they arrive, and change nothing else; they are refused if and
      only if they are to be saved and there is no key share. */
  lemma {:induction false} FeedTickets(k: Crypto, cfg: C.Config, c: C.Client, ms: seq<Message>, d: C.Draw,
      l: C.LastFlight)
    requires cfg.Valid() && c.state == C.PostHandshake && c.keys.sched.slots != []
    requires ms != [] && forall m | m in ms :: m.NewSessionTicket?
    ensures FeedClient(k, cfg, c, ms, d, l) ==
      if CanSave(cfg, c) then Ok((c.(tickets := c.tickets + Saved(k, cfg, c, ms)), [])) else Err(NoKeyShare)
    decreases |ms|
  {
    hide C.Step, C.Stored, FeedClient, Saved;
    assert ms[0] in ms;
    TicketStep(k, cfg, c, ms[0], d, l);
    FeedFirst(k, cfg, c, ms, d, l);
    if CanSave(cfg, c) {
      var one: seq<C.StoredTicket> := if cfg.savesTickets then [C.Stored(k, c, ms[0])] else [];
      var e := c.(tickets := c.tickets + one);
      SavedFirst(k, cfg, c, ms);
      var rest := Saved(k, cfg, e, ms[1..]);
      assert e.tickets + rest == c.tickets + (one + rest);
      if |ms| == 1 {
        assert ms[1..] == [];
        FeedNothing(k, cfg, e, d, l);
        SavedNone(k, cfg, e);
        assert e.tickets + [] == e.tickets;
      } else {
        FeedTickets(k, cfg, e, ms[1..], d, l);
      }
    }
  }

  lemma SavedNone(k: Crypto, cfg: C.Config, c: C.Client)
    requires CanSave(cfg, c) && c.keys.sched.slots != []
    ensures Saved(k, cfg, c, []) == []
  {}

  lemma SavedFirst(k: Crypto, cfg: C.Config, c: C.Client, ms: seq<Message>)
    requires CanSave(cfg, c) && c.keys.sched.slots != [] && ms != [] && forall m | m in ms :: m.NewSessionTicket?
    ensures ms[0] in ms
    ensures var one: seq<C.StoredTicket> := if cfg.savesTickets then [C.Stored(k, c, ms[0])] else [];
      Saved(k, cfg, c, ms) == one + Saved(k, cfg, c.(tickets := c.tickets + one), ms[1..])
  {
    hide C.Stored;
    var one: seq<C.StoredTicket> := if cfg.savesTickets then [C.Stored(k, c, ms[0])] else [];
    StoredSame(k, c, one, cfg);
  }

  lemma FeedFirst(k: Crypto, cfg: C.Config, c: C.Client, ms: seq<Message>, d: C.Draw, l: C.LastFlight)
    requires cfg.Valid() && ms != []
    ensures var r := C.Step(k, cfg, c, ms[0], true, d, l);
      && (r.Err? ==> FeedClient(k, cfg, c, ms, d, l) == Err(r.error))
      && (r.Ok? && r.value.1 == [] ==> FeedClient(k, cfg, c, ms, d, l) == FeedClient(k, cfg, r.value.0, ms[1..], d, l))
  {
    hide C.Step;
    var r := C.Step(k, cfg, c, ms[0], true, d, l);
    if r.Ok? {
      var q := FeedClient(k, cfg, r.value.0, ms[1..], d, l);
      assert q.Ok? ==> [] + q.value.1 == q.value.1;
    }
  }

  lemma TicketStep(k: Crypto, cfg: C.Config, c: C.Client, m: Message, d: C.Draw, l: C.LastFlight)
    requires cfg.Valid() && c.state == C.PostHandshake && c.keys.sched.slots != [] && m.NewSessionTicket?
    ensures C.Step(k, cfg, c, m, true, d, l) ==
      if !CanSave(cfg, c) then Err(NoKeyShare)
      else Ok((c.(tickets := c.tickets + if cfg.savesTickets then [C.Stored(k, c, m)] else []), []))
  {
    hide C.Stored;
    assert c.tickets + [] == c.tickets;
  }

  // What is stored does not depend on the tickets before.
  lemma StoredSame(k: Crypto, c: C.Client, more: seq<C.StoredTicket>, cfg: C.Config)
    requires CanSave(cfg, c) && c.keys.sched.slots != []
    ensures cfg.savesTickets ==> forall m: Message | m.NewSessionTicket? ::
      C.Stored(k, c.(tickets := c.tickets + more), m) == C.Stored(k, c, m)
  {}

  // The client after a flight that ends with the tickets of the server
  lemma TicketsTaken(k: Crypto, cc: C.Config, sc: S.Config, c: C.Client, sealed: seq<Option<S.Session>>, d: C.Draw,
      l: C.LastFlight, e: C.Client, out: seq<Message>)
    requires cc.Valid() && c.state == C.PostHandshake && c.keys.sched.slots != [] && c.tickets == []
    requires FeedClient(k, cc, c, S.TicketMessages(sc, sealed, 0), d, l) == Ok((e, out))
    ensures out == [] && e == c.(tickets := e.tickets)
    ensures |e.tickets| == if cc.savesTickets then |sealed| else 0
    ensures forall i | 0 <= i < |e.tickets| ::
      var t := e.tickets[i];
      && t.identity == sc.seal(i, sealed[i])
      && t.allowsEarly == (sc.maxEarly != 0)
      && t.secret == Resumption(k, c.keys.sched, [])
      && c.suite.Some? && t.suite == c.suite.value.id && c.group == Some(t.group)
  {
    hide Resumption, FeedClient;
    var ms := S.TicketMessages(sc, sealed, 0);
    if sealed == [] {
      assert ms == [];
      FeedNothing(k, cc, c, d, l);
    } else {
      FeedTickets(k, cc, c, ms, d, l);
    }
  }

  lemma FeedNothing(k: Crypto, cfg: C.Config, c: C.Client, d: C.Draw, l: C.LastFlight)
    requires cfg.Valid()
    ensures FeedClient(k, cfg, c, [], d, l) == Ok((c, []))
  {}

  // The part of a run from the hashed ClientHello on.
  lemma RespondAgrees(k: Crypto, cc: C.Config, sc: S.Config, c: C.Client, s: S.Server, ch: ClientHello,
      share: Option<Share>, f: Option<S.Found>, w: S.Reply, ctx: Data, ikm: Option<Data>,
      s1: S.Server, ms: seq<Message>, c1: C.Client, out: seq<Message>, t: S.Server, dr: C.Draw,
      l: C.LastFlight)
    requires cc.Valid() && sc.suites != [] && l.Valid() && s.suite.Some? && s.keys.sched.slots != [] && AwaitsHello(c)
    requires Ready(k, c.keys.sched, ctx, ikm)
    requires FindSuite(cc.suites, s.suite.value.id).Some? ==>
      FindSuite(cc.suites, s.suite.value.id).value.hash == s.suite.value.hash
    requires f.Some? ==>
      f.value.index == 0 && s.keys.sched == Early(k, s.suite.value.hash, ctx, ikm)
        && Algo(c.keys.sched) == s.suite.value.hash
    requires f.None? ==>
      s.keys.sched == Early(k, s.suite.value.hash, ctx, None) && (c.offeredPsk || ikm.None?)
    requires !c.isPsk && c.tickets == [] && s.sealed == [] && (s.group.Some? ==> c.group == s.group)
    requires share.Some? ==> c.group == Some(share.value.group) && c.share == Some(share.value.key)
    requires EarlyLinked(k, cc, sc, c, s.keys, S.AcceptsEarly(sc, f))
    requires S.Respond(k, sc, s, ch, share, f, w) == Ok((s1, ms))
    requires FeedClient(k, cc, c, ms, dr, l) == Ok((c1, out))
    requires FeedServer(k, sc, s1, out, w) == Ok(t)
    ensures Agreed(cc, sc, c1.keys, t.keys)
    ensures c1.state == C.PostHandshake && t.state == S.PostHandshake
    ensures c1.isPsk == f.Some? && |t.keys.decLog| == if S.AcceptsEarly(sc, f) then 3 else 2
    ensures Earned(k, c1) && t.isPsk == f.Some?
    ensures Redeemable(cc, sc, c1, t) && t.suite == s.suite && Issued(k, sc, ch, c1, t, GroupOf(ch, share, f, s.group))
  {
    hide Update, UpdateAll, S.Finish, FeedClient, FeedServer, Derive, Extract, Early, C.OnServerHello, S.Greet, Ready,
         S.TicketMessages, Redeemable, Agreed, Issued, S.TicketCount, GroupOf, Linked, ExporterLinked, EarlyLinked,
           Eventual;
    var g := S.Greet(k, sc, s, ch, share, f, w).value;
    GreetSendsHello(k, sc, s, ch, share, f, w);
    var ee := EncryptedExtensions(w.extensions, g.0.keys.pending.Some?);
    var certs := S.CertificateMessages(k, sc, Update(g.0.keys.sched, w.extensions), S.ModeOf(ch, f), w);
    var x := g.0.(keys := g.0.keys.(sched := UpdateAll(g.0.keys.sched, [ee] + certs)));
    var fin := S.Finish(k, sc, x).value.1;
    var rest := [ee] + (certs + [fin]) + S.TicketMessages(sc, s1.sealed, 0);
    assert ms == [g.1] + rest;
    FeedHello(k, cc, c, g.1, rest, dr, l);
    var d := C.OnServerHello(k, cc, c, g.1).value;
    HelloAgrees(k, cc, sc, c, s, ch, share, f, w, ctx, ikm, g.0, g.1, d);
    FinishSendsFinished(k, sc, x);
    GroupFits(ch, share, f, s.group, c.group);
    FlightAgrees(k, cc, sc, d, g.0, x, certs, ee, s1, fin, c1, out, t, ch, w, dr, l);
  }

  /** The same from ServerHello on, with the tickets that follow the Finished of the server. */
  lemma FlightAgrees(k: Crypto, cc: C.Config, sc: S.Config, d: C.Client, z: S.Server, x: S.Server, certs: seq<Message>,
      ee: Message, s: S.Server, fin: Message, c: C.Client, out: seq<Message>, t: S.Server, ch: ClientHello,
      w: S.Reply,
      dr: C.Draw, l: C.LastFlight)
    requires cc.Valid() && sc.suites != [] && l.Valid() && ee.EncryptedExtensions? && fin.Finished?
    requires forall x | x in certs :: CertificateKind(x)
    requires Linked(d.keys, z.keys) && ExporterLinked(cc, d.keys, z.keys) && |z.keys.sched.slots| == 1
    requires d.keys.sched == z.keys.sched && d.state.ExpectEncryptedExtensions?
    requires x == z.(keys := z.keys.(sched := UpdateAll(z.keys.sched, [ee] + certs)))
    requires S.Finish(k, sc, x) == Ok((s, fin))
    requires FeedClient(k, cc, d, [ee] + (certs + [fin]) + S.TicketMessages(sc, s.sealed, 0), dr, l) == Ok((c, out))
    requires FeedServer(k, sc, s, out, w) == Ok(t)
    requires SameSuite(d, z) && d.tickets == [] && z.sealed == [] && (z.group.Some? ==> d.group == z.group)
    requires z.tickets == S.TicketCount(sc, ch, d.isPsk)
    ensures Agreed(cc, sc, c.keys, t.keys)
    ensures c.state == C.PostHandshake && t.state == S.PostHandshake
    ensures c.isPsk == d.isPsk && |t.keys.decLog| == |Eventual(z.keys.decLog, z.keys.pending)| + 1
    ensures Earned(k, c) && t.isPsk == z.isPsk
    ensures Redeemable(cc, sc, c, t) && t.suite == z.suite && Issued(k, sc, ch, c, t, z.group)
  {
    hide Update, UpdateAll, S.Finish, FeedClient, FeedServer, S.TicketMessages, Redeemable, Agreed, S.PredictedSchedule,
      Resumption, S.SessionOf, Issued, S.TicketCount, Linked, ExporterLinked, Eventual;
    var flight, tickets := [ee] + (certs + [fin]), S.TicketMessages(sc, s.sealed, 0);
    FeedAppend(k, cc, d, flight, tickets, dr, l);
    var e := FeedClient(k, cc, d, flight, dr, l).value;
    ClientDone(k, cc, d, ee, certs, fin, e.0, e.1, dr, l);
    TicketsTaken(k, cc, sc, e.0, s.sealed, dr, l, c, FeedClient(k, cc, e.0, tickets, dr, l).value.1);
    assert e.1 + [] == e.1;
    RestAgrees(k, cc, sc, d, z, x, certs, ee, s, fin, e.0, e.1, t, w, dr, l);
    FinishSeals(k, sc, x, s, fin);
    SealedRedeems(k, cc, sc, e.0, c, s, t);
    SealedIssued(k, sc, ch, e.0, c, s, t);
  }

  // The group that a ticket is for
  function GroupOf(ch: ClientHello, share: Option<Share>, f: Option<S.Found>, group: Option<nat>): Option<nat>
  {
    if S.ModeOf(ch, f) != S.Psk && share.Some? then Some(share.value.group) else group
  }

  lemma GroupFits(ch: ClientHello, share: Option<Share>, f: Option<S.Found>, group: Option<nat>, own: Option<nat>)
    requires (share.Some? ==> own == Some(share.value.group)) && (group.Some? ==> own == group)
    ensures GroupOf(ch, share, f, group).Some? ==> own == GroupOf(ch, share, f, group)
  {}

  /** As many tickets as negotiated were sent; without client authentication each seals the resumption secret
      of the final schedule, with suite and group. */
  ghost predicate Issued(k: Crypto, sc: S.Config, ch: ClientHello, c: C.Client, s: S.Server, group: Option<nat>)
  {
    && |s.sealed| == S.TicketCount(sc, ch, c.isPsk)
    && c.keys.sched.slots != [] && s.suite.Some?
    && (!sc.requireClientAuth ==>
          forall i | 0 <= i < |s.sealed| ::
            s.sealed[i] ==
              if group.None? then None
              else Some(S.Session(Resumption(k, c.keys.sched, []), s.suite.value.id, group.value)))
  }

  lemma SealedIssued(k: Crypto, sc: S.Config, ch: ClientHello, e: C.Client, c: C.Client, s: S.Server, t: S.Server)
    requires s.suite.Some? && e.keys.sched.slots != [] && s.keys.sched.slots != []
    requires |s.sealed| == S.TicketCount(sc, ch, c.isPsk)
    requires forall i | 0 <= i < |s.sealed| :: s.sealed[i] == S.SessionOf(k, sc, s)
    requires t.sealed == s.sealed && t.suite == s.suite && c == e.(tickets := c.tickets)
    requires !sc.requireClientAuth ==> S.PredictedSchedule(k, sc, s.keys) == e.keys.sched
    ensures Issued(k, sc, ch, c, t, s.group)
  {
    hide S.PredictedSchedule, Resumption, S.TicketCount;
  }

  lemma SealedRedeems(k: Crypto, cc: C.Config, sc: S.Config, e: C.Client, c: C.Client, s: S.Server, t: S.Server)
    requires SameSuite(e, s) && (s.group.Some? ==> e.group == s.group) && e.keys.sched.slots != []
      && s.keys.sched.slots != []
    requires forall i | 0 <= i < |s.sealed| :: s.sealed[i] == S.SessionOf(k, sc, s)
    requires t.sealed == s.sealed && t.suite == s.suite
    requires !sc.requireClientAuth ==> S.PredictedSchedule(k, sc, s.keys) == e.keys.sched
    requires c == e.(tickets := c.tickets)
    requires |c.tickets| == if cc.savesTickets then |s.sealed| else 0
    requires forall i | 0 <= i < |c.tickets| ::
      var t := c.tickets[i];
      && t.identity == sc.seal(i, s.sealed[i])
      && t.allowsEarly == (sc.maxEarly != 0)
      && t.secret == Resumption(k, e.keys.sched, [])
      && e.suite.Some? && t.suite == e.suite.value.id && e.group == Some(t.group)
    ensures Redeemable(cc, sc, c, t)
  {
    hide S.PredictedSchedule, Resumption;
  }

  lemma GreetSendsHello(k: Crypto, cfg: S.Config, s: S.Server, ch: ClientHello, share: Option<Share>,
      f: Option<S.Found>, w: S.Reply)
    requires s.suite.Some? && s.keys.sched.slots != [] && S.Greet(k, cfg, s, ch, share, f, w).Ok?
    ensures S.Greet(k, cfg, s, ch, share, f, w).value.1.ServerHello?
    ensures var z := S.Greet(k, cfg, s, ch, share, f, w).value.0;
      && z.sealed == s.sealed && z.isPsk == f.Some?
      && z.tickets == S.TicketCount(cfg, ch, f.Some?) && z.group == GroupOf(ch, share, f, s.group)
  {
    hide S.TicketCount;
  }

  lemma FinishSendsFinished(k: Crypto, cfg: S.Config, s: S.Server)
    requires s.keys.sched.slots != [] && S.Finish(k, cfg, s).Ok?
    ensures S.Finish(k, cfg, s).value.1.Finished?
  {}

  // ---------------------------------------------------------------- runs without a retry

  lemma ReadyDerives(k: Crypto, s: Schedule, ctx: Data, ikm: Option<Data>, name: string)
    requires Ready(k, s, ctx, ikm)
    ensures Derive(k, s, name) == Derive(k, Early(k, Algo(s), ctx, ikm), name)
  {}

  // The server state from which a hello of the first flight is answered.
  function FirstContact(ch: ClientHello, suite: Suite): (r: S.Server)
    ensures |r.keys.sched.slots| == 1 && r.suite == Some(suite)
  {
    S.NEW_SERVER.(random := ch.random, suite := Some(suite), keys := NO_KEYS.(sched := New(Some(suite), [])))
  }

  // A hello without a cookie is answered or retried.
  lemma OnFirstHello(k: Crypto, sc: S.Config, ch: ClientHello, w: S.Reply)
    requires sc.suites != [] && ch.cookie.None? && S.OnHello(k, sc, S.NEW_SERVER, ch, w).Ok?
    ensures S.SuiteFor(sc, ch.suites).Some?
    ensures var suite := S.SuiteFor(sc, ch.suites).value;
      var n := FirstContact(ch, suite);
      var m := S.Masked(sc, ch);
      || S.OnHello(k, sc, S.NEW_SERVER, ch, w) == S.Negotiated(k, sc, n, m, S.ShareFor(sc, m), false, w)
      || S.OnHello(k, sc, S.NEW_SERVER, ch, w) == S.Retrying(k, sc, n, suite, m, S.ShareFor(sc, m))
  {
    hide S.Negotiated, S.Retrying, S.SuiteFor, S.ShareFor, New;
  }

  lemma MaskedHelloOf(cc: C.Config, sc: S.Config, c: C.Client, ch: ClientHello)
    requires cc.Valid() && HelloOf(cc, c, ch)
    ensures HelloOf(cc, c, S.Masked(sc, ch)) && S.Masked(sc, ch).Raw() == ch.Raw() && S.Masked(sc, ch).early == ch.early
  {}

  lemma NegotiatedAgrees(k: Crypto, cc: C.Config, sc: S.Config, d1: C.Draw, c: C.Client, ch: ClientHello,
      m: ClientHello, w: S.Reply, s1: S.Server, ms: seq<Message>, c1: C.Client, out: seq<Message>, t: S.Server,
      dr: C.Draw, l: C.LastFlight)
    requires cc.Valid() && sc.suites != [] && l.Valid() && Compatible(cc, sc)
    requires C.SendHello(k, cc, C.NEW_CLIENT, d1, None) == Ok((c, ch)) && m == S.Masked(sc, ch)
    requires S.SuiteFor(sc, ch.suites).Some?
    requires S.Negotiated(k, sc, FirstContact(ch, S.SuiteFor(sc, ch.suites).value), m, S.ShareFor(sc, m), false, w)
      == Ok((s1, ms))
    requires FeedClient(k, cc, c, ms, dr, l) == Ok((c1, out))
    requires FeedServer(k, sc, s1, out, w) == Ok(t)
    ensures Agreed(cc, sc, c1.keys, t.keys)
    ensures c1.state == C.PostHandshake && t.state == S.PostHandshake
    ensures Redeemable(cc, sc, c1, t) && Earned(k, c1)
    ensures var f := S.PskFor(k, sc, S.SuiteFor(sc, ch.suites).value, m, false);
      && c1.isPsk == f.Some? && |t.keys.decLog| == (if S.AcceptsEarly(sc, f) then 3 else 2)
      && t.suite == S.SuiteFor(sc, ch.suites)
        && Issued(k, sc, m, c1, t, GroupOf(m, S.ShareFor(sc, m), f, if f.Some? then f.value.group else None))
  {
    hide S.Respond, FeedClient, FeedServer, C.SendHello, S.HelloHashed, S.PskFor, S.SuiteFor, S.ShareFor, Derive, Ready,
      Agreed, Redeemable, HelloOf, Compatible, Early, S.Masked, C.OfferOf, New, Issued, GroupOf;
    FirstHello(k, cc, d1);
    FirstEarlyKeys(k, cc, d1);
    FirstHelloMessage(k, cc, d1);
    MaskedHelloOf(cc, sc, c, ch);
    var suite := S.SuiteFor(sc, ch.suites).value;
    var n := FirstContact(ch, suite);
    var f := S.PskFor(k, sc, suite, m, false);
    var h := S.HelloHashed(k, sc, n.keys.sched, m, f, false);
    ServerFirst(k, sc, suite, m, f);
    if f.Some? {
      FoundIsOffered(k, cc, sc, c, m, ch.suites, false);
    }
    if S.ShareFor(sc, m).Some? {
      ShareIsOffered(cc, sc, c, m);
    }
    ReadyDerives(k, c.keys.sched, m.Raw(), OfferedSecret(cc), "c e traffic");
    ReadyDerives(k, c.keys.sched, m.Raw(), OfferedSecret(cc), "e exp master");
    RegistryAgrees(cc, sc, suite);
    var s := n.(keys := n.keys.(sched := h.value), group := if f.Some? then f.value.group else None);
    RespondAgrees(k, cc, sc, c, s, m, S.ShareFor(sc, m), f, w, m.Raw(), OfferedSecret(cc), s1, ms, c1, out, t, dr, l);
  }

  lemma RegistryAgrees(cc: C.Config, sc: S.Config, suite: Suite)
    requires Compatible(cc, sc) && suite in sc.suites
    ensures FindSuite(cc.suites, suite.id).Some? ==> FindSuite(cc.suites, suite.id).value.hash == suite.hash
  {}

  // ---------------------------------------------------------------- runs with a retry

  lemma RetryingSends(k: Crypto, sc: S.Config, n: S.Server, suite: Suite, ch: ClientHello, share: Option<Share>)
    requires sc.suites != [] && S.Retrying(k, sc, n, suite, ch, share).Ok?
    ensures var r := S.Retrying(k, sc, n, suite, ch, share).value;
      && |r.1| == 1 && r.1[0].Retry?
      && r.1[0].suite == suite.id && r.1[0].cookie.None?
      && r.0 == n.(keys := n.keys.(sched := S.AfterRetry(k, sc, suite, ch, r.1[0].raw)),
        state := S.ExpectSecondClientHello)
  {
    hide EncodeRetry, S.AfterRetry;
  }

  // The server that sent a retry and kept its state.
  function KeptState(k: Crypto, sc: S.Config, ch: ClientHello, suite: Suite, retry: Data): S.Server
  {
    FirstContact(ch, suite).(
      keys := NO_KEYS.(sched := S.AfterRetry(k, sc, suite, S.Masked(sc, ch), retry)),
      state := S.ExpectSecondClientHello)
  }

  // A hello in the second flight is answered.
  lemma OnSecondHello(k: Crypto, sc: S.Config, s: S.Server, ch: ClientHello, w: S.Reply)
    requires sc.suites != [] && s.state.ExpectSecondClientHello? && S.OnHello(k, sc, s, ch, w).Ok?
    ensures s.suite.Some? && s.keys.sched.slots != []
    ensures var m := S.Masked(sc, ch);
      && S.SuiteFor(sc, ch.suites) == s.suite
      && S.OnHello(k, sc, s, ch, w) == S.Negotiated(k, sc, s, m, S.ShareFor(sc, m), true, w)
  {
    hide S.Negotiated, S.Retrying, S.SuiteFor, S.ShareFor, New;
  }

  lemma RetriedAgrees(k: Crypto, cc: C.Config, sc: S.Config, d1: C.Draw, c: C.Client, ch: ClientHello,
      suite: Suite, retry: Message, s: S.Server, d2: C.Draw, c2: C.Client, ch2: ClientHello,
      w: S.Reply, s1: S.Server, ms: seq<Message>, c1: C.Client, out: seq<Message>, t: S.Server,
      l: C.LastFlight)
    requires cc.Valid() && sc.suites != [] && l.Valid() && Compatible(cc, sc)
    requires C.SendHello(k, cc, C.NEW_CLIENT, d1, None) == Ok((c, ch))
    requires S.SuiteFor(sc, ch.suites) == Some(suite)
    requires retry.Retry? && retry.suite == suite.id && s == KeptState(k, sc, ch, suite, retry.raw)
    requires C.OnRetry(k, cc, c, retry, d2) == Ok((c2, ch2))
    requires S.OnHello(k, sc, s, ch2, w) == Ok((s1, ms))
    requires FeedClient(k, cc, c2, ms, d2, l) == Ok((c1, out))
    requires FeedServer(k, sc, s1, out, w) == Ok(t)
    ensures Agreed(cc, sc, c1.keys, t.keys)
    ensures c1.state == C.PostHandshake && t.state == S.PostHandshake
    ensures Redeemable(cc, sc, c1, t) && Earned(k, c1)
  {
    hide S.Respond, FeedClient, FeedServer, C.SendHello, S.HelloHashed, S.PskFor, S.SuiteFor, S.ShareFor, Derive, Ready,
      Agreed, Redeemable, HelloOf, Compatible, Early, S.Masked, C.OfferOf, New, C.OnRetry, S.Retrying, S.OnHello,
      S.AfterRetry, RetryTranscript;
    FirstHello(k, cc, d1);
    FirstEarlyKeys(k, cc, d1);
    FirstHelloMessage(k, cc, d1);
    MaskedHelloOf(cc, sc, c, ch);
    var m1 := S.Masked(sc, ch);
    ServerRetried(k, sc, suite, m1, retry.raw);
    ClientRetried(k, cc, c, retry, d2, ch.Raw(), OfferedSecret(cc));
    RegistryAgrees(cc, sc, suite);
    OnSecondHello(k, sc, s, ch2, w);
    var m := S.Masked(sc, ch2);
    MaskedHelloOf(cc, sc, c2, ch2);
    var f := S.PskFor(k, sc, suite, m, true);
    var ctx := RetryTranscript(k, suite.hash, ch.Raw(), retry.raw);
    ServerSecond(k, sc, s.keys.sched, suite.hash, ctx, m, f);
    var ikm := if Algo(c.keys.sched) != suite.hash then ExternalOf(cc) else OfferedSecret(cc);
    EarlyReady(k, suite.hash, ctx + m.Raw(), ikm);
    EarlyShape(k, suite.hash, ctx + m.Raw(), ikm);
    EarlyAlgo(k, suite.hash, ctx + m.Raw(), ikm);
    if S.ShareFor(sc, m).Some? {
      ShareIsOffered(cc, sc, c2, m);
    }
    var h := S.HelloHashed(k, sc, s.keys.sched, m, f, true);
    if f.Some? {
      FoundIsOffered(k, cc, sc, c2, m, ch.suites, true);
      ExternalAgrees(k, cc, sc, m, f.value, suite);
    } else {
      NoExternalOffer(cc);
    }
    var q := s.(keys := s.keys.(sched := h.value), group := if f.Some? then f.value.group else None);
    RespondAgrees(k, cc, sc, c2, q, m, S.ShareFor(sc, m), f, w, ctx + m.Raw(), ikm, s1, ms, c1, out, t, d2, l);
  }

  lemma EarlyAlgo(k: Crypto, algo: nat, ctx: Data, ikm: Option<Data>)
    ensures Algo(Early(k, algo, ctx, ikm)) == algo
  {}

  // In the second flight a PSK can only be the external one.
  lemma ExternalAgrees(k: Crypto, cc: C.Config, sc: S.Config, ch: ClientHello, f: S.Found, suite: Suite)
    requires cc.Valid() && sc.psk.Some? && cc.psk.Some? && S.PskFor(k, sc, suite, ch, true) == Some(f)
    requires C.OfferOf(cc).Some? && C.OfferOf(cc).value.secret == f.secret && f.index == 0
    ensures OfferedSecret(cc) == ExternalOf(cc) == S.ExternalSecret(sc)
    ensures ch.early == false ==> !f.early
    ensures f.group.None?
  {
    hide FirstWithHash;
  }

  lemma NoExternalOffer(cc: C.Config)
    requires cc.Valid()
    ensures C.OfferOf(cc).None? ==> OfferedSecret(cc).None? && ExternalOf(cc).None?
  {}

  // ---------------------------------------------------------------- the theorem

  // Everything drawn, encoded or signed in a run.
  datatype Choices = Choices(first: C.Draw, second: C.Draw, reply: S.Reply, last: C.LastFlight)

  // From a hello of the client in state c, delivered to a server in state s, to the end.
  function Conclude(k: Crypto, cc: C.Config, sc: S.Config, c: C.Client, ch: ClientHello, s: S.Server, x: Choices)
    : Result<(C.Client, S.Server), Error>
    requires cc.Valid() && sc.suites != []
  {
    var a := S.OnHello(k, sc, s, ch, x.reply);
    if a.Err? then Err(a.error)
    else
      var b := FeedClient(k, cc, c, a.value.1, x.second, x.last);
      if b.Err? then Err(b.error)
      else
        var t := FeedServer(k, sc, a.value.0, b.value.1, x.reply);
        if t.Err? then Err(t.error) else Ok((b.value.0, t.value))
  }

  /** A run over a network that delivers every message: ClientHello, at most one stateful
      HelloRetryRequest with the second ClientHello, the server's flight, the client's. */
  function HonestRun(k: Crypto, cc: C.Config, sc: S.Config, x: Choices): Result<(C.Client, S.Server), Error>
    requires cc.Valid() && sc.suites != []
  {
    var h := C.SendHello(k, cc, C.NEW_CLIENT, x.first, None);
    if h.Err? then Err(h.error)
    else
      var a := S.OnHello(k, sc, S.NEW_SERVER, h.value.1, x.reply);
      if a.Err? then Err(a.error)
      else if |a.value.1| == 1 && a.value.1[0].Retry? then
        var r := C.OnRetry(k, cc, h.value.0, a.value.1[0], x.second);
        if r.Err? then Err(r.error) else Conclude(k, cc, sc, r.value.0, r.value.1, a.value.0, x)
      else Conclude(k, cc, sc, h.value.0, h.value.1, S.NEW_SERVER, x)
  }

  lemma FirstHelloHasNoCookie(k: Crypto, cfg: C.Config, w: C.Draw)
    requires cfg.Valid() && C.SendHello(k, cfg, C.NEW_CLIENT, w, None).Ok?
    ensures C.SendHello(k, cfg, C.NEW_CLIENT, w, None).value.1.cookie.None?
  {}

  lemma NegotiatedIsNoRetry(k: Crypto, sc: S.Config, s: S.Server, ch: ClientHello, share: Option<Share>, second: bool,
      w: S.Reply)
    requires s.keys.sched.slots != [] && s.suite.Some? && S.Negotiated(k, sc, s, ch, share, second, w).Ok?
    ensures |S.Negotiated(k, sc, s, ch, share, second, w).value.1| > 1
  {
    hide S.Greet, S.Finish, S.HelloHashed, S.PskFor;
  }

  /** In every honest run that completes, full or resumed or with an external PSK, with or without
      0-RTT, retry and client authentication, both ends agree. */
  lemma HonestRunAgrees(k: Crypto, cc: C.Config, sc: S.Config, x: Choices)
    requires cc.Valid() && sc.suites != [] && x.last.Valid() && Compatible(cc, sc)
    requires HonestRun(k, cc, sc, x).Ok?
    ensures var r := HonestRun(k, cc, sc, x).value;
      && Agreed(cc, sc, r.0.keys, r.1.keys)
      && r.0.state == C.PostHandshake && r.1.state == S.PostHandshake
      && Redeemable(cc, sc, r.0, r.1) && Earned(k, r.0)
  {
    hide C.SendHello, S.OnHello, C.OnRetry, FeedClient, FeedServer, Agreed, Redeemable, Earned, S.Negotiated,
      S.Retrying,
      S.SuiteFor, S.ShareFor, Compatible, S.Masked;
    var h := C.SendHello(k, cc, C.NEW_CLIENT, x.first, None).value;
    FirstHelloHasNoCookie(k, cc, x.first);
    OnFirstHello(k, sc, h.1, x.reply);
    var a := S.OnHello(k, sc, S.NEW_SERVER, h.1, x.reply).value;
    var suite := S.SuiteFor(sc, h.1.suites).value;
    var m := S.Masked(sc, h.1);
    var n := FirstContact(h.1, suite);
    var r := HonestRun(k, cc, sc, x).value;
    if S.OnHello(k, sc, S.NEW_SERVER, h.1, x.reply) == S.Negotiated(k, sc, n, m, S.ShareFor(sc, m), false, x.reply) {
      NegotiatedIsNoRetry(k, sc, n, m, S.ShareFor(sc, m), false, x.reply);
      var b := FeedClient(k, cc, h.0, a.1, x.second, x.last).value;
      NegotiatedAgrees(k, cc, sc, x.first, h.0, h.1, m, x.reply, a.0, a.1, b.0, b.1, r.1, x.second, x.last);
    } else {
      RetryingSends(k, sc, n, suite, m, S.ShareFor(sc, m));
      assert a.1 == [a.1[0]];
      var q := C.OnRetry(k, cc, h.0, a.1[0], x.second).value;
      var o := S.OnHello(k, sc, a.0, q.1, x.reply).value;
      var b := FeedClient(k, cc, q.0, o.1, x.second, x.last).value;
      RetriedAgrees(k, cc, sc, x.first, h.0, h.1, suite, a.1[0], a.0, x.second, q.0, q.1, x.reply, o.0, o.1, b.0, b.1,
        r.1, x.last);
    }
  }

  /** Without a retry, the PSK that the server finds decides whether the run resumes, and whether the 0-RTT key
      of the client is one of the read keys of the server. */
  lemma HonestRunModes(k: Crypto, cc: C.Config, sc: S.Config, x: Choices, c: C.Client, ch: ClientHello, suite: Suite)
    requires cc.Valid() && sc.suites != [] && x.last.Valid() && Compatible(cc, sc)
    requires C.SendHello(k, cc, C.NEW_CLIENT, x.first, None) == Ok((c, ch)) && S.SuiteFor(sc, ch.suites) == Some(suite)
    requires S.ShareFor(sc, S.Masked(sc, ch)).Some? && !sc.enforceRetry && HonestRun(k, cc, sc, x).Ok?
    ensures var r := HonestRun(k, cc, sc, x).value;
      var f := S.PskFor(k, sc, suite, S.Masked(sc, ch), false);
      && r.0.isPsk == f.Some? && |r.1.keys.decLog| == (if S.AcceptsEarly(sc, f) then 3 else 2)
      && r.1.suite == Some(suite)
      && var m := S.Masked(sc, ch);
      Issued(k, sc, m, r.0, r.1, GroupOf(m, S.ShareFor(sc, m), f, if f.Some? then f.value.group else None))
  {
    hide C.SendHello, S.OnHello, C.OnRetry, FeedClient, FeedServer, Agreed, Redeemable, S.Negotiated, S.Retrying,
      S.SuiteFor, S.ShareFor, Compatible, S.Masked, S.PskFor, S.AcceptsEarly, Issued, GroupOf;
    FirstHelloHasNoCookie(k, cc, x.first);
    var a := S.OnHello(k, sc, S.NEW_SERVER, ch, x.reply).value;
    var m := S.Masked(sc, ch);
    NegotiatesAtOnce(k, sc, ch, x.reply, suite);
    NegotiatedIsNoRetry(k, sc, FirstContact(ch, suite), m, S.ShareFor(sc, m), false, x.reply);
    var b := FeedClient(k, cc, c, a.1, x.second, x.last).value;
    var r := HonestRun(k, cc, sc, x).value;
    NegotiatedAgrees(k, cc, sc, x.first, c, ch, m, x.reply, a.0, a.1, b.0, b.1, r.1, x.second, x.last);
  }

  lemma NegotiatesAtOnce(k: Crypto, sc: S.Config, ch: ClientHello, w: S.Reply, suite: Suite)
    requires sc.suites != [] && ch.cookie.None? && S.SuiteFor(sc, ch.suites) == Some(suite) && !sc.enforceRetry
    requires S.ShareFor(sc, S.Masked(sc, ch)).Some? && S.OnHello(k, sc, S.NEW_SERVER, ch, w).Ok?
    ensures var m := S.Masked(sc, ch);
      S.OnHello(k, sc, S.NEW_SERVER, ch, w)
        == S.Negotiated(k, sc, FirstContact(ch, suite), m, S.ShareFor(sc, m), false, w)
  {
    hide S.Negotiated, S.Retrying, S.SuiteFor, S.ShareFor, New;
  }
}
