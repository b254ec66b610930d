/** What every run of the client keeps, whatever the peer sends. */
module ClientSafety {
  import opened Results
  import opened Wire
  import opened KeySchedule
  import opened Messages
  import opened TlsClient
  import opened Secrets

  // ptls_get_read_epoch
  function ReadEpoch(s: State): nat
  {
    match s
    case HandshakeStart | ExpectServerHello | ExpectSecondServerHello => 0
    case ExpectEncryptedExtensions | ExpectCertificateRequestOrCertificate | ExpectCertificate
       | ExpectCertificateVerify | ExpectFinished => 2
    case PostHandshake => 3
  }

  // How often key_schedule_extract was called.
  function Generation(s: State): nat
  {
    match s
    case HandshakeStart => 0
    case ExpectServerHello | ExpectSecondServerHello => 1
    case ExpectEncryptedExtensions | ExpectCertificateRequestOrCertificate | ExpectCertificate
       | ExpectCertificateVerify | ExpectFinished => 2
    case PostHandshake => 3
  }

  predicate AwaitsHello(s: State) { s.ExpectServerHello? || s.ExpectSecondServerHello? }

  predicate AwaitsCertificate(s: State)
  {
    s.ExpectCertificateRequestOrCertificate? || s.ExpectCertificate? || s.ExpectCertificateVerify?
  }

  ghost predicate Inv(c: Client)
  {
    && c.state != HandshakeStart
    && c.keys.sched.slots != []
    && Distinct(c.keys.sched.slots)
    && c.keys.sched.generation == Generation(c.state)
    && c.keys.dec.epoch == ReadEpoch(c.state)
    && (c.state != PostHandshake ==> c.keys.exporter.None?)
    && (AwaitsHello(c.state) ==>
          && (c.share.Some? <==> c.group.Some?)
          && !c.isPsk && c.keys.pending.None? && !c.certRequested
          && c.keys.enc.epoch <= 1 && (c.early ==> c.keys.enc.epoch == 1))
    && (ReadEpoch(c.state) == 2 ==> c.keys.enc.epoch == if c.keys.pending.Some? then 1 else 2)
    && (AwaitsCertificate(c.state) ==> !c.isPsk)
    && (c.state == PostHandshake ==> c.keys.enc.epoch == 3 && c.keys.pending.None?)
    && (Generation(c.state) >= 2 ==> c.suite.Some?)
  }

  lemma InvHasSchedule(c: Client)
    requires Inv(c)
    ensures c.keys.sched.slots != [] && Distinct(c.keys.sched.slots) && c.state != HandshakeStart
  {}

  lemma SelectShape(k: Crypto, s: Schedule, algo: nat, reset: bool, ikm: Option<Data>)
    requires s.generation == 1 && Tracks(s.slots, algo)
    ensures var r := SelectCipher(k, s, algo, reset, ikm); r.generation == 1 && |r.slots| == 1 && Algo(r) == algo
  {}

  lemma HelloEstablishes(k: Crypto, cfg: Config, w: Draw)
    requires cfg.Valid() && SendHello(k, cfg, NEW_CLIENT, w, None).Ok?
    ensures Inv(SendHello(k, cfg, NEW_CLIENT, w, None).value.0)
  {
    hide VerifyData, Derive, DeriveEmpty, OfferOf, HelloMessage;
    var p := Prepared(k, cfg, NEW_CLIENT, w);
    FirstSlotsShape(p.suite, cfg.suites, |cfg.suites|);
  }

  lemma RetryKeeps(k: Crypto, cfg: Config, c: Client, m: Message, w: Draw)
    requires cfg.Valid() && Inv(c) && AwaitsHello(c.state) && m.Retry? && OnRetry(k, cfg, c, m, w).Ok?
    ensures Inv(OnRetry(k, cfg, c, m, w).value.0)
  {
    hide VerifyData, Derive, DeriveEmpty, OfferOf, HelloMessage, SelectCipher;
    var found := FindSuite(cfg.suites, m.suite).value;
    SelectShape(k, c.keys.sched, found.hash, false, if cfg.psk.Some? then Some(cfg.psk.value.secret) else None);
  }

  lemma ServerHelloKeeps(k: Crypto, cfg: Config, c: Client, m: Message)
    requires Inv(c) && AwaitsHello(c.state) && m.ServerHello? && OnServerHello(k, cfg, c, m).Ok?
    ensures Inv(OnServerHello(k, cfg, c, m).value)
  {
    hide VerifyData, Derive, DeriveEmpty, SelectCipher;
    var found := FindSuite(cfg.suites, m.suite).value;
    forall reset, ikm ensures var r := SelectCipher(k, c.keys.sched, found.hash, reset, ikm);
      r.generation == 1 && |r.slots| == 1 {
      SelectShape(k, c.keys.sched, found.hash, reset, ikm);
    }
  }

  lemma FinishedKeeps(k: Crypto, cfg: Config, c: Client, m: Message, l: LastFlight)
    requires Inv(c) && c.state.ExpectFinished? && m.Finished? && OnFinished(k, cfg, c, m, l).Ok?
    ensures Inv(OnFinished(k, cfg, c, m, l).value.0)
  {
    hide VerifyData, Derive, DeriveEmpty, VerifyFinished, FinishedMessage, BeforeFinished, UpdateAll;
    forall s, ms ensures var r := UpdateAll(s, ms); SameSlots(r, s) {
      UpdateAllSlots(s, ms);
    }
  }

  predicate SameSlots(r: Schedule, s: Schedule)
  {
    r.generation == s.generation && |r.slots| == |s.slots|
      && forall i | 0 <= i < |s.slots| :: r.slots[i].algo == s.slots[i].algo
  }

  lemma {:induction false} UpdateAllSlots(s: Schedule, ms: seq<Message>)
    ensures SameSlots(UpdateAll(s, ms), s)
    decreases |ms|
  {
    if ms != [] {
      UpdateAllSlots(Update(s, Raw(ms[0])), ms[1..]);
    }
  }

  lemma HashedKeeps(c: Client, m: Data, next: State)
    requires Inv(c) && Generation(c.state) == 2 == Generation(next)
    requires AwaitsCertificate(next) ==> !c.isPsk
    ensures Inv(Hashed(c, m, next))
  {}

  lemma MiddleKeeps(k: Crypto, cfg: Config, c: Client, m: Message, end: bool, w: Draw, l: LastFlight)
    requires cfg.Valid() && Inv(c) && Generation(c.state) == 2 && !m.Finished? && Step(k, cfg, c, m, end, w, l).Ok?
    ensures Inv(Step(k, cfg, c, m, end, w, l).value.0)
  {
    hide Hashed, Inv;
    forall d: Client, x: Data, next | Inv(d) && Generation(d.state) == 2 == Generation(next)
        && (AwaitsCertificate(next) ==> !d.isPsk)
      ensures Inv(Hashed(d, x, next))
    {
      HashedKeeps(d, x, next);
    }
    InvFields(c);
  }

  // Fields that the invariant leaves free in the encrypted flight.
  lemma InvFields(c: Client)
    requires Inv(c) && Generation(c.state) == 2
    ensures forall b: bool :: Inv(c.(early := b)) && Inv(c.(certRequested := b))
    ensures AwaitsCertificate(c.state) ==> !c.isPsk
    ensures c.keys.sched.slots != []
  {}

  // Every message that is accepted keeps epochs and generations in step with the state.
  lemma StepKeeps(k: Crypto, cfg: Config, c: Client, m: Message, end: bool, w: Draw, l: LastFlight)
    requires cfg.Valid() && Inv(c) && Step(k, cfg, c, m, end, w, l).Ok?
    ensures Inv(Step(k, cfg, c, m, end, w, l).value.0)
  {
    hide OnRetry, OnServerHello, OnFinished;
    if AwaitsHello(c.state) && m.Retry? {
      RetryKeeps(k, cfg, c, m, w);
    } else if AwaitsHello(c.state) {
      ServerHelloKeeps(k, cfg, c, m);
    } else if c.state.ExpectFinished? {
      FinishedKeeps(k, cfg, c, m, l);
    } else if c.state != PostHandshake {
      MiddleKeeps(k, cfg, c, m, end, w, l);
    }
  }

  // ---------------------------------------------------------------- assertions

  // A retry that passes every check of the handler.
  predicate AcceptableRetry(cfg: Config, c: Client, m: Message)
    requires m.Retry?
  {
    var found := FindSuite(cfg.suites, m.suite);
    && found.Some?
    && (m.group.Some? ==> m.group.value in cfg.groups)
    && (m.group.Some? || c.group.Some?)
    && m.sessionId == cfg.sessionId
    && Tracks(c.keys.sched.slots, found.value.hash)
  }

  // The second hello is written, and does not fit one record: its cookie is that of the retry.
  predicate Oversized(k: Crypto, cfg: Config, m: Message, w: Draw)
    requires cfg.Valid() && m.Retry? && FindSuite(cfg.suites, m.suite).Some?
  {
    var algo := FindSuite(cfg.suites, m.suite).value.hash;
    && ExtensionsSize(k, w, m.cookie, OfferOf(cfg), algo) <= MAX_BLOCK
    && HelloSize(k, w, m.cookie, OfferOf(cfg), algo) > MAX_PLAINTEXT
  }

  /** The assertions of the source hold at every step but for two, both in answer to a HelloRetryRequest: it
      names a suite whose hash is not that of the external PSK, or its cookie makes the second hello larger
      than a record. */
  lemma StepAsserts(k: Crypto, cfg: Config, c: Client, m: Message, end: bool, w: Draw, l: LastFlight)
    requires cfg.Valid() && Inv(c)
    ensures Step(k, cfg, c, m, end, w, l) == Err(Assertion) <==>
      && AwaitsHello(c.state) && end && m.Retry?
      && AcceptableRetry(cfg, c, m)
      && ((cfg.psk.Some? && FindSuite(cfg.suites, m.suite).value.hash != cfg.psk.value.hash)
          || Oversized(k, cfg, m, w))
  {
    hide OnRetry, OnServerHello, OnFinished, Oversized;
    if AwaitsHello(c.state) && m.Retry? {
      RetryAsserts(k, cfg, c, m, w);
    } else if AwaitsHello(c.state) && m.ServerHello? {
      ServerHelloAsserts(k, cfg, c, m);
    } else if c.state.ExpectFinished? && m.Finished? {
      FinishedAsserts(k, cfg, c, m, l);
    }
  }

  /** The size that is asserted is that of the hello. */
  lemma HelloHasSize(k: Crypto, cfg: Config, c: Client, w: Draw, retry: Option<Option<Data>>)
    requires k.Sized() && cfg.Valid() && SendHello(k, cfg, c, w, retry).Ok?
    ensures var cookie := if retry.Some? then retry.value else None;
      |SendHello(k, cfg, c, w, retry).value.1.Raw()|
        == HelloSize(k, w, cookie, OfferOf(cfg), Algo(Prepared(k, cfg, c, w).keys.sched)) <= MAX_PLAINTEXT
  {
    hide Prepared, Update, DeriveEmpty, OfferOf, EarlyKeys;
    var p, cookie := Prepared(k, cfg, c, w), if retry.Some? then retry.value else None;
    var head := HeadOf(w, cookie);
    UpdateAlgo(p.keys.sched, head);
  }

  lemma UpdateAlgo(s: Schedule, m: Data)
    requires s.slots != []
    ensures Update(s, m).slots != [] && Algo(Update(s, m)) == Algo(s)
  {}

  lemma RetryAsserts(k: Crypto, cfg: Config, c: Client, m: Message, w: Draw)
    requires cfg.Valid() && Inv(c) && AwaitsHello(c.state) && m.Retry?
    ensures OnRetry(k, cfg, c, m, w) == Err(Assertion) <==>
      && AcceptableRetry(cfg, c, m)
      && ((cfg.psk.Some? && FindSuite(cfg.suites, m.suite).value.hash != cfg.psk.value.hash)
          || Oversized(k, cfg, m, w))
  {
    hide VerifyData, Derive, DeriveEmpty, OfferOf, HelloMessage, SelectCipher, EarlyKeys, ExtensionsSize, HelloSize;
    var found := FindSuite(cfg.suites, m.suite);
    if found.Some? && Tracks(c.keys.sched.slots, found.value.hash) {
      SelectShape(k, c.keys.sched, found.value.hash, false, if cfg.psk.Some? then Some(cfg.psk.value.secret) else None);
    }
  }

  lemma ServerHelloAsserts(k: Crypto, cfg: Config, c: Client, m: Message)
    requires Inv(c) && AwaitsHello(c.state) && m.ServerHello?
    ensures OnServerHello(k, cfg, c, m) != Err(Assertion)
  {}

  lemma FinishedAsserts(k: Crypto, cfg: Config, c: Client, m: Message, l: LastFlight)
    requires Inv(c) && c.state.ExpectFinished? && m.Finished?
    ensures OnFinished(k, cfg, c, m, l) != Err(Assertion)
  {
    hide VerifyData;
  }

  // ---------------------------------------------------------------- what is accepted

  predicate AcceptableCertificate(cfg: Config, m: Message)
  {
    m.Certificate? && !m.empty && cfg.certificateOk(m.raw)
  }

  // A ServerHello for what was offered; an external PSK has to be used.
  predicate AcceptableHello(cfg: Config, c: Client, m: Message)
    requires m.ServerHello?
  {
    && HelloChecked(cfg, c, m)
    && Tracks(c.keys.sched.slots, FindSuite(cfg.suites, m.suite).value.hash)
    && (cfg.psk.Some? ==> c.isPsk || m.identity.Some?)
  }

  // A retry after which a second hello can be sent
  predicate Answerable(k: Crypto, cfg: Config, c: Client, m: Message, w: Draw)
    requires cfg.Valid() && m.Retry?
  {
    && AcceptableRetry(cfg, c, m)
    && var algo := FindSuite(cfg.suites, m.suite).value.hash;
    && (cfg.psk.Some? ==> algo == cfg.psk.value.hash)
    && ExtensionsSize(k, w, m.cookie, OfferOf(cfg), algo) <= 65535
    && HelloSize(k, w, m.cookie, OfferOf(cfg), algo) <= 16384
  }

  predicate Acceptable(k: Crypto, cfg: Config, c: Client, m: Message, end: bool, w: Draw)
    requires cfg.Valid() && c.keys.sched.slots != []
  {
    var a, bytes := Algo(c.keys.sched), Transcript(c.keys.sched);
    match c.state
    case HandshakeStart => false
    case ExpectServerHello | ExpectSecondServerHello =>
      end && ((m.Retry? && Answerable(k, cfg, c, m, w)) || (m.ServerHello? && AcceptableHello(cfg, c, m)))
    case ExpectEncryptedExtensions => m.EncryptedExtensions? && (m.early ==> c.early)
    case ExpectCertificateRequestOrCertificate => m.CertificateRequest? || AcceptableCertificate(cfg, m)
    case ExpectCertificate => AcceptableCertificate(cfg, m)
    case ExpectCertificateVerify => m.CertificateVerify? && cfg.signatureOk(k.hash(a, bytes), m.raw)
    case ExpectFinished =>
      && end && m.Finished? && |m.raw| == 4 + k.size(a)
      && m.raw[4..] == FinishedOver(k, a, c.keys.dec.secret, bytes)
    case PostHandshake => m.NewSessionTicket? && (cfg.savesTickets ==> c.group.Some?)
  }

  /** A message is accepted if and only if the state expects it and it passes these checks. */
  lemma StepAccepts(k: Crypto, cfg: Config, c: Client, m: Message, end: bool, w: Draw, l: LastFlight)
    requires cfg.Valid() && Inv(c)
    ensures Step(k, cfg, c, m, end, w, l).Ok? <==> Acceptable(k, cfg, c, m, end, w)
  {
    hide OnRetry, OnServerHello, Answerable, AcceptableHello, Extract, Update, UpdateAll, Derive, FinishedMessage,
      BeforeFinished, ReadKeys, Commissioned;
    if AwaitsHello(c.state) && m.Retry? {
      RetryAccepts(k, cfg, c, m, w);
    } else if AwaitsHello(c.state) && m.ServerHello? {
      ServerHelloAccepts(k, cfg, c, m);
    }
  }

  lemma RetryAccepts(k: Crypto, cfg: Config, c: Client, m: Message, w: Draw)
    requires cfg.Valid() && Inv(c) && AwaitsHello(c.state) && m.Retry?
    ensures OnRetry(k, cfg, c, m, w).Ok? <==> Answerable(k, cfg, c, m, w)
  {
    hide VerifyData, Derive, DeriveEmpty, OfferOf, HelloMessage, SelectCipher, EarlyKeys, ExtensionsSize, HelloSize;
    var found := FindSuite(cfg.suites, m.suite);
    if found.Some? && Tracks(c.keys.sched.slots, found.value.hash) {
      SelectShape(k, c.keys.sched, found.value.hash, false, if cfg.psk.Some? then Some(cfg.psk.value.secret) else None);
    }
  }

  lemma ServerHelloAccepts(k: Crypto, cfg: Config, c: Client, m: Message)
    requires Inv(c) && AwaitsHello(c.state) && m.ServerHello?
    ensures OnServerHello(k, cfg, c, m).Ok? <==> AcceptableHello(cfg, c, m)
  {
    hide SelectCipher, Extract, Update, HandshakeKeys, Tracks;
  }

  // ---------------------------------------------------------------- slots

  // The checks of client_handle_hello before the cipher is selected
  predicate RetryChecked(cfg: Config, m: Message)
    requires m.Retry?
  {
    FindSuite(cfg.suites, m.suite).Some? && (m.group.Some? ==> cfg.groups != []) && m.sessionId == cfg.sessionId
  }

  predicate HelloChecked(cfg: Config, c: Client, m: Message)
    requires m.ServerHello?
  {
    && FindSuite(cfg.suites, m.suite).Some?
    && (m.share.Some? ==> cfg.groups != [] && c.group == Some(m.share.value.group))
    && (m.identity.Some? ==> c.offeredPsk && m.identity.value == 0)
    && (m.share.Some? || c.isPsk || m.identity.Some?)
    && m.sessionId == cfg.sessionId
  }

  // A hello for which key_schedule_select_cipher is called, with that hash
  predicate Selects(cfg: Config, c: Client, m: Message, end: bool, hash: nat)
  {
    && AwaitsHello(c.state) && end
    && ((m.Retry? && RetryChecked(cfg, m)) || (m.ServerHello? && HelloChecked(cfg, c, m)))
    && FindSuite(cfg.suites, m.suite).value.hash == hash
  }

  /** key_schedule_select_cipher reads past the slots if and only if a hello that passes the checks before
      it names a suite whose hash is not tracked. */
  lemma StepUntracked(k: Crypto, cfg: Config, c: Client, m: Message, end: bool, w: Draw, l: LastFlight)
    requires cfg.Valid() && Inv(c)
    ensures Step(k, cfg, c, m, end, w, l) == Err(Untracked) <==>
      exists hash :: Selects(cfg, c, m, end, hash) && !Tracks(c.keys.sched.slots, hash)
  {
    hide OnRetry, OnServerHello, OnFinished, Inv, Tracks;
    InvSlots(c);
    if AwaitsHello(c.state) && m.Retry? {
      RetryUntracked(k, cfg, c, m, w);
      if RetryChecked(cfg, m) { assert end ==> Selects(cfg, c, m, end, FindSuite(cfg.suites, m.suite).value.hash); }
    } else if AwaitsHello(c.state) && m.ServerHello? {
      HelloUntracked(k, cfg, c, m);
      if HelloChecked(cfg, c, m) { assert end ==> Selects(cfg, c, m, end, FindSuite(cfg.suites, m.suite).value.hash); }
    } else if c.state.ExpectFinished? && m.Finished? {
      FinishedTracked(k, cfg, c, m, l);
    }
  }

  lemma InvSlots(c: Client)
    requires Inv(c)
    ensures c.keys.sched.slots != [] && (AwaitsHello(c.state) ==> c.keys.sched.generation == 1)
  {}

  lemma RetryUntracked(k: Crypto, cfg: Config, c: Client, m: Message, w: Draw)
    requires cfg.Valid() && c.keys.sched.generation == 1 && m.Retry?
    ensures OnRetry(k, cfg, c, m, w) == Err(Untracked) <==>
      RetryChecked(cfg, m) && !Tracks(c.keys.sched.slots, FindSuite(cfg.suites, m.suite).value.hash)
  {
    hide VerifyData, Derive, DeriveEmpty, OfferOf, HelloMessage, SelectCipher, EarlyKeys, Tracks;
    var found := FindSuite(cfg.suites, m.suite);
    if found.Some? && Tracks(c.keys.sched.slots, found.value.hash) {
      SelectShape(k, c.keys.sched, found.value.hash, false, if cfg.psk.Some? then Some(cfg.psk.value.secret) else None);
    }
  }

  lemma HelloUntracked(k: Crypto, cfg: Config, c: Client, m: Message)
    requires c.keys.sched.generation == 1 && m.ServerHello?
    ensures OnServerHello(k, cfg, c, m) == Err(Untracked) <==>
      HelloChecked(cfg, c, m) && !Tracks(c.keys.sched.slots, FindSuite(cfg.suites, m.suite).value.hash)
  {
    hide Tracks, SelectCipher, HandshakeKeys, Extract, Update;
  }

  lemma FinishedTracked(k: Crypto, cfg: Config, c: Client, m: Message, l: LastFlight)
    requires c.keys.sched.slots != [] && m.Finished?
    ensures OnFinished(k, cfg, c, m, l) != Err(Untracked)
  {
    hide VerifyData;
  }

  // Every hash is tracked up to the answer of the server; after a retry there is one slot.
  ghost predicate Tracking(cfg: Config, c: Client)
  {
    && (c.state.ExpectServerHello? ==> forall s | s in cfg.suites :: Tracks(c.keys.sched.slots, s.hash))
    && (c.state.ExpectSecondServerHello? ==> |c.keys.sched.slots| == 1)
  }

  lemma HelloTracks(k: Crypto, cfg: Config, w: Draw)
    requires cfg.Valid() && SendHello(k, cfg, NEW_CLIENT, w, None).Ok?
    ensures Tracking(cfg, SendHello(k, cfg, NEW_CLIENT, w, None).value.0)
  {
    hide VerifyData, Derive, DeriveEmpty, OfferOf, HelloMessage, Extract;
    var p := Prepared(k, cfg, NEW_CLIENT, w);
    var ch := SendHello(k, cfg, NEW_CLIENT, w, None).value.1;
    forall s | s in cfg.suites ensures Tracks(Update(Update(p.keys.sched, ch.head), ch.tail).slots, s.hash) {
      var j :| 0 <= j < |cfg.suites| && cfg.suites[j] == s;
      PreparedTracks(k, cfg, w, j);
      SameTracks(p.keys.sched, ch.head, s.hash);
      SameTracks(Update(p.keys.sched, ch.head), ch.tail, s.hash);
    }
  }

  lemma PreparedTracks(k: Crypto, cfg: Config, w: Draw, j: nat)
    requires cfg.Valid() && j < |cfg.suites|
    ensures Tracks(Prepared(k, cfg, NEW_CLIENT, w).keys.sched.slots, cfg.suites[j].hash)
  {
    hide OfferOf;
    FirstSlotsTrack(Prepared(k, cfg, NEW_CLIENT, w).suite, cfg.suites, |cfg.suites|, j);
  }

  lemma SameTracks(s: Schedule, m: Data, algo: nat)
    ensures Tracks(Update(s, m).slots, algo) == Tracks(s.slots, algo)
  {
    forall i | 0 <= i < |s.slots| ensures Update(s, m).slots[i].algo == s.slots[i].algo {}
    if Tracks(s.slots, algo) {
      var i :| 0 <= i < |s.slots| && s.slots[i].algo == algo;
      assert Update(s, m).slots[i].algo == algo;
    }
  }

  // After an accepted retry, the one slot is that of the suite it names.
  lemma RetrySlot(k: Crypto, cfg: Config, c: Client, m: Message, w: Draw)
    requires cfg.Valid() && m.Retry? && OnRetry(k, cfg, c, m, w).Ok?
    ensures FindSuite(cfg.suites, m.suite).Some?
    ensures var d := OnRetry(k, cfg, c, m, w).value.0;
      && d.state == ExpectSecondServerHello && |d.keys.sched.slots| == 1
      && Algo(d.keys.sched) == FindSuite(cfg.suites, m.suite).value.hash
  {
    hide VerifyData, Derive, DeriveEmpty, OfferOf, HelloMessage, SelectCipher;
    var found := FindSuite(cfg.suites, m.suite).value;
    SelectShape(k, c.keys.sched, found.hash, false, if cfg.psk.Some? then Some(cfg.psk.value.secret) else None);
  }

  lemma StepTracks(k: Crypto, cfg: Config, c: Client, m: Message, end: bool, w: Draw, l: LastFlight)
    requires cfg.Valid() && Inv(c) && Step(k, cfg, c, m, end, w, l).Ok?
    ensures Tracking(cfg, Step(k, cfg, c, m, end, w, l).value.0)
  {
    hide OnRetry, OnServerHello, OnFinished, Tracks, Inv;
    if AwaitsHello(c.state) && m.Retry? {
      RetrySlot(k, cfg, c, m, w);
    } else if AwaitsHello(c.state) {
      ServerHelloState(k, cfg, c, m);
    } else if c.state.ExpectFinished? {
      FinishedState(k, cfg, c, m, l);
    }
  }

  lemma FinishedState(k: Crypto, cfg: Config, c: Client, m: Message, l: LastFlight)
    requires c.keys.sched.slots != [] && m.Finished? && OnFinished(k, cfg, c, m, l).Ok?
    ensures OnFinished(k, cfg, c, m, l).value.0.state == PostHandshake
  {
    hide VerifyData, Derive, VerifyFinished, FinishedMessage, BeforeFinished, UpdateAll, ReadKeys, Commissioned;
  }

  /** It never happens in answer to the first hello; in answer to the second it happens if and only if the
      hello names a suite whose hash is not that of the suite that the retry named. */
  lemma UntrackedWhen(k: Crypto, cfg: Config, c: Client, m: Message, end: bool, w: Draw, l: LastFlight)
    requires cfg.Valid() && Inv(c) && Tracking(cfg, c)
    ensures Step(k, cfg, c, m, end, w, l) == Err(Untracked) <==>
      c.state.ExpectSecondServerHello? && exists hash :: Selects(cfg, c, m, end, hash) && hash != Algo(c.keys.sched)
  {
    hide Step, Inv;
    StepUntracked(k, cfg, c, m, end, w, l);
    InvSlots(c);
    if c.state.ExpectSecondServerHello? {
      forall hash ensures Tracks(c.keys.sched.slots, hash) <==> hash == Algo(c.keys.sched) {
        if hash == Algo(c.keys.sched) { assert c.keys.sched.slots[0].algo == hash; }
      }
    }
  }

  lemma SecondUntracked(k: Crypto, cfg: Config, c: Client, retry: Message, w: Draw, d: Client, ch: ClientHello,
      m: Message, end: bool, w2: Draw, l: LastFlight)
    requires cfg.Valid() && Inv(c) && AwaitsHello(c.state) && retry.Retry?
      && OnRetry(k, cfg, c, retry, w) == Ok((d, ch))
    ensures Step(k, cfg, d, m, end, w2, l) == Err(Untracked) <==>
      exists hash :: Selects(cfg, d, m, end, hash) && hash != FindSuite(cfg.suites, retry.suite).value.hash
  {
    hide Step, OnRetry, Inv;
    RetryKeeps(k, cfg, c, retry, w);
    RetrySlot(k, cfg, c, retry, w);
    UntrackedWhen(k, cfg, d, m, end, w2, l);
  }

  // ---------------------------------------------------------------- tickets

  /** A ticket makes the client read a missing key share if and only if it saves tickets and came without
      a key share. */
  lemma StepNoKeyShare(k: Crypto, cfg: Config, c: Client, m: Message, end: bool, w: Draw, l: LastFlight)
    requires cfg.Valid() && Inv(c)
    ensures Step(k, cfg, c, m, end, w, l) == Err(NoKeyShare) <==>
      c.state == PostHandshake && m.NewSessionTicket? && cfg.savesTickets && c.group.None?
  {
    hide OnRetry, OnServerHello, OnFinished;
    if AwaitsHello(c.state) && m.Retry? {
      RetryShares(k, cfg, c, m, w);
    } else if AwaitsHello(c.state) && m.ServerHello? {
      HelloShares(k, cfg, c, m);
    } else if c.state.ExpectFinished? && m.Finished? {
      FinishedShares(k, cfg, c, m, l);
    }
  }

  lemma RetryShares(k: Crypto, cfg: Config, c: Client, m: Message, w: Draw)
    requires cfg.Valid() && m.Retry?
    ensures OnRetry(k, cfg, c, m, w) != Err(NoKeyShare)
  {
    hide Prepared, HelloMessage, SelectCipher, EarlyKeys, TransformPostCh1, Update;
  }

  lemma HelloShares(k: Crypto, cfg: Config, c: Client, m: Message)
    requires m.ServerHello?
    ensures OnServerHello(k, cfg, c, m) != Err(NoKeyShare)
  {
    hide SelectCipher, HandshakeKeys, Extract, Update;
  }

  lemma FinishedShares(k: Crypto, cfg: Config, c: Client, m: Message, l: LastFlight)
    requires c.keys.sched.slots != [] && m.Finished?
    ensures OnFinished(k, cfg, c, m, l) != Err(NoKeyShare)
  {
    hide VerifyData;
  }

  // ---------------------------------------------------------------- whole runs

  // One delivery: the message, whether it ends its record, and what is drawn to answer it.
  datatype Input = Input(m: Message, end: bool, w: Draw, l: LastFlight)

  // The client after all of the inputs, or the first error.
  function Run(k: Crypto, cfg: Config, c: Client, ins: seq<Input>): Result<Client, Error>
    requires cfg.Valid()
    decreases |ins|
  {
    if ins == [] then Ok(c)
    else
      var n := |ins| - 1;
      var b := Run(k, cfg, c, ins[..n]);
      if b.Err? then b
      else
        var r := Step(k, cfg, b.value, ins[n].m, ins[n].end, ins[n].w, ins[n].l);
        if r.Err? then Err(r.error) else Ok(r.value.0)
  }

  // The state in which the i-th input was taken.
  function At(k: Crypto, cfg: Config, c: Client, ins: seq<Input>, i: nat): Result<Client, Error>
    requires cfg.Valid() && i < |ins|
  {
    Run(k, cfg, c, ins[..i])
  }

  // The i-th input is a certificate chain that the verifier took.
  ghost predicate TookCertificate(k: Crypto, cfg: Config, c: Client, ins: seq<Input>, i: nat)
    requires cfg.Valid()
  {
    i < |ins| && At(k, cfg, c, ins, i).Ok? && ins[i].m.Certificate? && !ins[i].m.empty
      && cfg.certificateOk(ins[i].m.raw)
  }

  // The j-th input is a signature over the transcript up to there.
  ghost predicate TookSignature(k: Crypto, cfg: Config, c: Client, ins: seq<Input>, j: nat)
    requires cfg.Valid()
  {
    && j < |ins| && ins[j].m.CertificateVerify?
    && var b := At(k, cfg, c, ins, j);
    && b.Ok? && b.value.keys.sched.slots != []
    && var a, bytes := Algo(b.value.keys.sched), Transcript(b.value.keys.sched);
    && cfg.signatureOk(k.hash(a, bytes), ins[j].m.raw)
  }

  // The n-th input is the Finished message of the server's handshake key over the transcript up to there.
  ghost predicate TookFinished(k: Crypto, cfg: Config, c: Client, ins: seq<Input>, n: nat)
    requires cfg.Valid()
  {
    && n < |ins| && ins[n].m.Finished?
    && var b := At(k, cfg, c, ins, n);
    && b.Ok? && b.value.keys.sched.slots != [] && b.value.keys.dec.epoch == 2
    && var a, bytes := Algo(b.value.keys.sched), Transcript(b.value.keys.sched);
    && |ins[n].m.raw| == 4 + k.size(a) && ins[n].m.raw[4..] == FinishedOver(k, a, b.value.keys.dec.secret, bytes)
  }

  // The i-th input is a ServerHello that takes up the PSK that was offered.
  ghost predicate TookPsk(k: Crypto, cfg: Config, c: Client, ins: seq<Input>, i: nat)
    requires cfg.Valid()
  {
    && i < |ins| && ins[i].m.ServerHello? && ins[i].m.identity == Some(0)
    && At(k, cfg, c, ins, i).Ok? && At(k, cfg, c, ins, i).value.offeredPsk
  }

  ghost predicate Authenticated(k: Crypto, cfg: Config, c: Client, ins: seq<Input>, n: nat)
    requires cfg.Valid()
  {
    exists i: nat, j: nat :: i < j < n && TookCertificate(k, cfg, c, ins, i) && TookSignature(k, cfg, c, ins, j)
  }

  // What the state says about the past.
  ghost predicate History(k: Crypto, cfg: Config, c: Client, ins: seq<Input>, d: Client)
    requires cfg.Valid()
  {
    && (d.state.ExpectCertificateVerify? ==> exists i: nat :: i < |ins| && TookCertificate(k, cfg, c, ins, i))
    && (d.state.ExpectFinished? && !d.isPsk ==> Authenticated(k, cfg, c, ins, |ins|))
    && (d.state.PostHandshake? ==>
          exists n: nat :: TookFinished(k, cfg, c, ins, n) && (d.isPsk || Authenticated(k, cfg, c, ins, n)))
    && (d.isPsk ==> exists i: nat :: TookPsk(k, cfg, c, ins, i))
    && (Generation(d.state) >= 2 && cfg.psk.Some? ==> d.isPsk)
  }

  lemma PrefixAt(k: Crypto, cfg: Config, c: Client, ins: seq<Input>, n: nat, i: nat)
    requires cfg.Valid() && i < n <= |ins|
    ensures At(k, cfg, c, ins[..n], i) == At(k, cfg, c, ins, i) && ins[..n][i] == ins[i]
  {
    assert ins[..n][..i] == ins[..i];
  }

  // Facts about a prefix are facts about the run.
  lemma PrefixFacts(k: Crypto, cfg: Config, c: Client, ins: seq<Input>, n: nat)
    requires cfg.Valid() && n <= |ins|
    ensures forall i: nat | TookCertificate(k, cfg, c, ins[..n], i) :: i < n && TookCertificate(k, cfg, c, ins, i)
    ensures forall i: nat | TookSignature(k, cfg, c, ins[..n], i) :: i < n && TookSignature(k, cfg, c, ins, i)
    ensures forall i: nat | TookFinished(k, cfg, c, ins[..n], i) :: i < n && TookFinished(k, cfg, c, ins, i)
    ensures forall i: nat | TookPsk(k, cfg, c, ins[..n], i) :: i < n && TookPsk(k, cfg, c, ins, i)
  {
    hide Run;
    forall i: nat | i < n ensures At(k, cfg, c, ins[..n], i) == At(k, cfg, c, ins, i) && ins[..n][i] == ins[i] {
      PrefixAt(k, cfg, c, ins, n, i);
    }
  }

  lemma PrefixAuthenticated(k: Crypto, cfg: Config, c: Client, ins: seq<Input>, n: nat, e: nat)
    requires cfg.Valid() && n <= |ins| && Authenticated(k, cfg, c, ins[..n], e)
    ensures Authenticated(k, cfg, c, ins, e)
  {
    hide TookCertificate, TookSignature, TookFinished;
    PrefixFacts(k, cfg, c, ins, n);
    var i: nat, j: nat :| i < j < e && TookCertificate(k, cfg, c, ins[..n], i) && TookSignature(k, cfg, c, ins[..n], j);
    assert TookCertificate(k, cfg, c, ins, i) && TookSignature(k, cfg, c, ins, j);
  }

  // Which message leads where.
  lemma StepHistory(k: Crypto, cfg: Config, c: Client, m: Message, end: bool, w: Draw, l: LastFlight)
    requires cfg.Valid() && Inv(c) && Step(k, cfg, c, m, end, w, l).Ok?
    ensures var d := Step(k, cfg, c, m, end, w, l).value.0;
      && (d.state.ExpectCertificateVerify? ==> m.Certificate? && !m.empty && cfg.certificateOk(m.raw))
      && (d.state.ExpectFinished? && !d.isPsk ==>
            && c.state.ExpectCertificateVerify? && m.CertificateVerify? && c.keys.sched.slots != []
            && cfg.signatureOk(TranscriptHash(k, c.keys.sched), m.raw))
      && (d.state.PostHandshake? ==>
            || (c.state.PostHandshake? && d.isPsk == c.isPsk)
            || (&& c.state.ExpectFinished? && d.isPsk == c.isPsk && m.Finished? && c.keys.sched.slots != []
                && VerifyFinished(k, c.keys.sched, c.keys.dec.secret, m.raw).None?))
      && (d.isPsk ==> c.isPsk || (m.ServerHello? && m.identity == Some(0) && c.offeredPsk))
      && (Generation(d.state) >= 2 ==> (Generation(c.state) >= 2 && d.isPsk == c.isPsk) || (cfg.psk.Some? ==> d.isPsk))
  {
    hide OnServerHello, OnRetry, TranscriptHash, VerifyFinished, Extract, Update, UpdateAll, Derive, FinishedMessage,
      BeforeFinished, ReadKeys, Commissioned;
    if AwaitsHello(c.state) && m.Retry? {
      RetryState(k, cfg, c, m, w);
    } else if AwaitsHello(c.state) && m.ServerHello? {
      ServerHelloState(k, cfg, c, m);
    }
  }

  lemma RetryState(k: Crypto, cfg: Config, c: Client, m: Message, w: Draw)
    requires cfg.Valid() && m.Retry? && OnRetry(k, cfg, c, m, w).Ok?
    ensures var d := OnRetry(k, cfg, c, m, w).value.0; d.state == ExpectSecondServerHello && d.isPsk == c.isPsk
  {
    hide SelectCipher, Extract, Update, HelloMessage, EarlyKeys, TransformPostCh1, OfferOf;
  }

  lemma ServerHelloState(k: Crypto, cfg: Config, c: Client, m: Message)
    requires m.ServerHello? && OnServerHello(k, cfg, c, m).Ok?
    ensures var d := OnServerHello(k, cfg, c, m).value;
      && d.state == ExpectEncryptedExtensions
      && (d.isPsk ==> c.isPsk || (m.identity == Some(0) && c.offeredPsk))
      && (cfg.psk.Some? ==> d.isPsk)
  {
    hide SelectCipher, Extract, Update, HandshakeKeys;
  }

  /** Every run from a sent ClientHello keeps the invariant, and a client that completed has
      verified the server's Finished after a PSK was agreed or after a certificate chain was
      accepted and then a signature over the transcript; a client with an external PSK has used it. */
  lemma {:induction false} RunIsSafe(k: Crypto, cfg: Config, c: Client, ins: seq<Input>)
    requires cfg.Valid() && Inv(c) && AwaitsHello(c.state) && Run(k, cfg, c, ins).Ok?
    ensures Inv(Run(k, cfg, c, ins).value)
    ensures History(k, cfg, c, ins, Run(k, cfg, c, ins).value)
    decreases |ins|
  {
    if ins != [] {
      var n := |ins| - 1;
      var b := Run(k, cfg, c, ins[..n]).value;
      RunIsSafe(k, cfg, c, ins[..n]);
      StepKeeps(k, cfg, b, ins[n].m, ins[n].end, ins[n].w, ins[n].l);
      HistoryGrows(k, cfg, c, ins, b);
    }
  }

  /** In every run from the first hello, the slots are those that UntrackedWhen speaks of. */
  lemma {:induction false} RunTracks(k: Crypto, cfg: Config, c: Client, ins: seq<Input>)
    requires cfg.Valid() && Inv(c) && AwaitsHello(c.state) && Tracking(cfg, c) && Run(k, cfg, c, ins).Ok?
    ensures Inv(Run(k, cfg, c, ins).value) && Tracking(cfg, Run(k, cfg, c, ins).value)
    decreases |ins|
  {
    hide Step, Inv, Tracking;
    if ins != [] {
      var n := |ins| - 1;
      RunTracks(k, cfg, c, ins[..n]);
      var b := Run(k, cfg, c, ins[..n]).value;
      StepKeeps(k, cfg, b, ins[n].m, ins[n].end, ins[n].w, ins[n].l);
      StepTracks(k, cfg, b, ins[n].m, ins[n].end, ins[n].w, ins[n].l);
    }
  }

  lemma HistoryGrows(k: Crypto, cfg: Config, c: Client, ins: seq<Input>, b: Client)
    requires cfg.Valid() && ins != [] && Inv(b)
    requires var n := |ins| - 1; Run(k, cfg, c, ins[..n]) == Ok(b) && History(k, cfg, c, ins[..n], b)
    requires Run(k, cfg, c, ins).Ok?
    ensures History(k, cfg, c, ins, Run(k, cfg, c, ins).value)
  {
    hide Step, Inv, TookFinished, TookCertificate, TookSignature, TookPsk, TranscriptHash, VerifyData;
    var n := |ins| - 1;
    var d := Run(k, cfg, c, ins).value;
    var x := ins[n];
    if d.isPsk {
      PskGrows(k, cfg, c, ins, b);
    }
    StepHistory(k, cfg, b, x.m, x.end, x.w, x.l);
    PrefixFacts(k, cfg, c, ins, n);
    assert At(k, cfg, c, ins, n) == Ok(b);
    LastFacts(k, cfg, c, ins, b);
    if d.state.ExpectCertificateVerify? {
      assert TookCertificate(k, cfg, c, ins, n);
    } else if d.state.ExpectFinished? && !d.isPsk {
      var i: nat :| i < n && TookCertificate(k, cfg, c, ins[..n], i);
      assert TookCertificate(k, cfg, c, ins, i) && TookSignature(k, cfg, c, ins, n);
    } else if d.state.PostHandshake? && b.state.PostHandshake? {
      var e: nat :| TookFinished(k, cfg, c, ins[..n], e) && (b.isPsk || Authenticated(k, cfg, c, ins[..n], e));
      if !b.isPsk { PrefixAuthenticated(k, cfg, c, ins, n, e); }
      assert TookFinished(k, cfg, c, ins, e);
    } else if d.state.PostHandshake? {
      if !b.isPsk { PrefixAuthenticated(k, cfg, c, ins, n, n); }
      assert TookFinished(k, cfg, c, ins, n);
    }
  }

  lemma PskGrows(k: Crypto, cfg: Config, c: Client, ins: seq<Input>, b: Client)
    requires cfg.Valid() && ins != [] && Inv(b)
    requires var n := |ins| - 1; Run(k, cfg, c, ins[..n]) == Ok(b) && History(k, cfg, c, ins[..n], b)
    requires Run(k, cfg, c, ins).Ok? && Run(k, cfg, c, ins).value.isPsk
    ensures exists i: nat :: TookPsk(k, cfg, c, ins, i)
  {
    hide Step, Inv, TookFinished, TookCertificate, TookSignature, Authenticated;
    var n := |ins| - 1;
    StepHistory(k, cfg, b, ins[n].m, ins[n].end, ins[n].w, ins[n].l);
    PrefixFacts(k, cfg, c, ins, n);
    if b.isPsk {
      var i: nat :| TookPsk(k, cfg, c, ins[..n], i);
      assert TookPsk(k, cfg, c, ins, i);
    } else {
      assert TookPsk(k, cfg, c, ins, n);
    }
  }

  lemma LastFacts(k: Crypto, cfg: Config, c: Client, ins: seq<Input>, b: Client)
    requires cfg.Valid() && ins != [] && Inv(b) && At(k, cfg, c, ins, |ins| - 1) == Ok(b)
    ensures var m := ins[|ins| - 1].m;
      && (m.Certificate? && !m.empty && cfg.certificateOk(m.raw) ==> TookCertificate(k, cfg, c, ins, |ins| - 1))
      && ((m.CertificateVerify? && b.keys.sched.slots != [] && cfg.signatureOk(TranscriptHash(k, b.keys.sched), m.raw))
          ==> TookSignature(k, cfg, c, ins, |ins| - 1))
      && ((m.Finished? && b.state.ExpectFinished? && b.keys.sched.slots != []
           && VerifyFinished(k, b.keys.sched, b.keys.dec.secret, m.raw).None?)
          ==> TookFinished(k, cfg, c, ins, |ins| - 1))
  {
    hide Run;
  }
}
