/** The client side of the handshake of lib/picotls.c: one function per handler, from the
    state before to the state after and the messages sent. */
module TlsClient {
  import opened Results
  import opened Wire
  import opened KeySchedule
  import opened Messages

  datatype State =
    | HandshakeStart | ExpectServerHello | ExpectSecondServerHello | ExpectEncryptedExtensions
    | ExpectCertificateRequestOrCertificate | ExpectCertificate | ExpectCertificateVerify
    | ExpectFinished | PostHandshake

  datatype StoredTicket = StoredTicket(identity: Data, secret: Data, suite: nat, group: nat, allowsEarly: bool)

  datatype Config = Config(
    suites: seq<Suite>,
    groups: seq<nat>,
    psk: Option<ExternalPsk>,
    ticket: Option<StoredTicket>,
    wantsEarly: bool,
    negotiateFirst: bool,
    requireDhe: bool,
    savesTickets: bool,
    newSessions: nat,
    resumptions: nat,
    useExporter: bool,
    omitEndOfEarlyData: bool,
    random: Data,
    sessionId: Data,
    certificateOk: Data -> bool,
    signatureOk: (Data, Data) -> bool)
  {
    // A suite is configured, and one for the hash of the external PSK.
    predicate Valid()
    {
      && suites != []
      && (psk.Some? ==> FirstWithHash(suites, psk.value.hash).Some?)
    }
  }

  datatype Client = Client(
    state: State,
    suite: Option<Suite>,
    offeredPsk: bool,
    isPsk: bool,
    early: bool,
    group: Option<nat>,
    share: Option<Data>,
    certRequested: bool,
    tickets: seq<StoredTicket>,
    keys: Keys)

  const NEW_CLIENT := Client(HandshakeStart, None, false, false, false, None, None, false, [], NO_KEYS)

  // ---------------------------------------------------------------- ClientHello

  // The PSK to offer: the external one, else the stored ticket when it can be used.
  datatype Offer = Offer(secret: Data, identity: Data, binderLabel: string, suite: Suite, group: Option<nat>,
      early: bool)

  function OfferOf(cfg: Config): Option<Offer>
    requires cfg.Valid()
  {
    if cfg.psk.Some? then
      var psk := cfg.psk.value;
      Some(Offer(psk.secret, psk.identity, "ext binder", FirstWithHash(cfg.suites, psk.hash).value, None,
        cfg.wantsEarly))
    else if cfg.ticket.Some? && cfg.ticket.value.group in cfg.groups
      && FindSuite(cfg.suites, cfg.ticket.value.suite).Some? then
      var t := cfg.ticket.value;
      Some(Offer(t.secret, t.identity, "res binder", FindSuite(cfg.suites, t.suite).value, Some(t.group),
                 t.allowsEarly && cfg.wantsEarly))
    else None
  }

  // What is drawn or encoded when a hello is sent: the bytes up to the extensions, the extensions before the
  // cookie and those after it up to the binders, the key share.
  datatype Draw = Draw(start: Data, before: Data, after: Data, key: Data)

  function CookieExtension(cookie: Option<Data>): Data
  {
    if cookie.Some? then Extension(COOKIE, Block2(cookie.value)) else []
  }

  // The hello up to the binders
  function HeadOf(w: Draw, cookie: Option<Data>): Data
  {
    w.start + w.before + CookieExtension(cookie) + w.after
  }

  // The binder list: both length prefixes and a digest
  function TailSize(k: Crypto, offer: Option<Offer>, algo: nat): nat
  {
    if offer.Some? then 3 + k.size(algo) else 0
  }

  // The size of all extensions, and of the whole hello
  function ExtensionsSize(k: Crypto, w: Draw, cookie: Option<Data>, offer: Option<Offer>, algo: nat): nat
  {
    |w.before| + |CookieExtension(cookie)| + |w.after| + TailSize(k, offer, algo)
  }

  function HelloSize(k: Crypto, w: Draw, cookie: Option<Data>, offer: Option<Offer>, algo: nat): nat
  {
    |w.start| + ExtensionsSize(k, w, cookie, offer, algo)
  }

  const MAX_BLOCK: nat := 65535

  // The suite, the group of the key share and the use of early data, given what is offered
  function OfferedSuite(cfg: Config, suite: Option<Suite>, offer: Option<Offer>, second: bool): Option<Suite>
  {
    if offer.Some? && !(second && cfg.psk.Some?) then Some(offer.value.suite) else suite
  }

  function OfferedGroup(cfg: Config, group: Option<nat>, offer: Option<Offer>): Option<nat>
  {
    if group.Some? then group
    else if offer.Some? && offer.value.group.Some? then offer.value.group
    else if cfg.groups != [] && !cfg.negotiateFirst then Some(cfg.groups[0])
    else None
  }

  predicate OffersEarly(early: bool, offer: Option<Offer>, second: bool)
  {
    early || (!second && offer.Some? && offer.value.early)
  }

  function FirstSchedule(k: Crypto, cfg: Config, suite: Option<Suite>, offer: Option<Offer>): (r: Schedule)
    requires cfg.Valid()
    ensures r.slots != []
  {
    FirstSlotsShape(suite, cfg.suites, |cfg.suites|);
    Extract(k, New(suite, cfg.suites), if offer.Some? then Some(offer.value.secret) else None)
  }

  // Offer and key share
  function Offered(cfg: Config, c: Client, offer: Option<Offer>, second: bool, w: Draw): Client
  {
    var group := OfferedGroup(cfg, c.group, offer);
    c.(offeredPsk := c.offeredPsk || offer.Some?,
       suite := OfferedSuite(cfg, c.suite, offer, second),
       early := OffersEarly(c.early, offer, second),
       group := group,
       share := if group.Some? then Some(w.key) else None)
  }

  // Offer, key share and (in the first flight) key schedule.
  function Prepared(k: Crypto, cfg: Config, c: Client, w: Draw): (r: Client)
    requires cfg.Valid()
    ensures r.keys.sched.slots != []
  {
    var second := c.keys.sched.slots != [];
    var offer := OfferOf(cfg);
    var d := Offered(cfg, c, offer, second, w);
    if second then d else d.(keys := d.keys.(sched := FirstSchedule(k, cfg, d.suite, offer)))
  }

  // The binder list: 16-bit length, 8-bit length, binder.
  function BinderList(binder: Data): Data { Block2(Block1(binder)) }

  // The binder over the transcript that ends with head.
  function BinderOf(k: Crypto, s: Schedule, name: string, head: Data): Data
    requires s.slots != []
  {
    VerifyData(k, Update(s, head), DeriveEmpty(k, s, name))
  }

  function HelloMessage(k: Crypto, cfg: Config, c: Client, w: Draw, second: bool, cookie: Option<Data>): ClientHello
    requires cfg.Valid() && c.keys.sched.slots != []
  {
    var offer := OfferOf(cfg);
    var head := HeadOf(w, cookie);
    var binder := if offer.Some? then BinderOf(k, c.keys.sched, offer.value.binderLabel, head) else [];
    EncodeHello(cfg, head, c.group, c.share, offer, binder, c.early && !second, cookie)
  }

  // encode_client_hello
  function EncodeHello(cfg: Config, head: Data, group: Option<nat>, share: Option<Data>, offer: Option<Offer>,
      binder: Data, early: bool, cookie: Option<Data>)
    : ClientHello
  {
    ClientHello(
      head,
      if offer.Some? then BinderList(binder) else [],
      cfg.random,
      cfg.sessionId,
      seq(|cfg.suites|, i requires 0 <= i < |cfg.suites| => cfg.suites[i].id),
      Some(if group.Some? && share.Some? then [Share(group.value, share.value)] else []),
      if cfg.groups != [] then Some(cfg.groups) else None,
      if cookie.Some? then Some(Block2(cookie.value)) else None,
      if offer.Some? then Some([Identity(offer.value.identity, binder)]) else None,
      (cfg.savesTickets || offer.Some?) && !cfg.requireDhe,
      cfg.savesTickets || offer.Some?,
      offer.Some? && early,
      if cfg.savesTickets then cfg.newSessions else 0,
      if cfg.savesTickets then cfg.resumptions else 0)
  }

  // The keys once the hello is hashed: early traffic key and early exporter secret.
  function EarlyKeys(k: Crypto, cfg: Config, y: Keys, early: bool, offered: bool): Keys
    requires y.sched.slots != []
  {
    var e := if early then InstallEnc(y, 1, Derive(k, y.sched, "c e traffic")) else y;
    if offered && cfg.useExporter then e.(earlyExporter := Some(Derive(k, e.sched, "e exp master"))) else e
  }

  // send_client_hello; retry is the HelloRetryRequest's optional cookie.
  function SendHello(k: Crypto, cfg: Config, c: Client, w: Draw, retry: Option<Option<Data>>)
    : Result<(Client, ClientHello), Error>
    requires cfg.Valid()
  {
    var second := c.keys.sched.slots != [];
    if second && cfg.psk.Some? && (c.suite.None? || c.suite.value.hash != cfg.psk.value.hash) then Err(Assertion)
    else if c.share.Some? then Err(Assertion)
    else
      var p := Prepared(k, cfg, c, w);
      var cookie := if retry.Some? then retry.value else None;
      if ExtensionsSize(k, w, cookie, OfferOf(cfg), Algo(p.keys.sched)) > MAX_BLOCK then Err(BlockOverflow)
      else
        var ch := HelloMessage(k, cfg, p, w, second, cookie);
        var h := p.(keys := p.keys.(sched := Update(Update(p.keys.sched, ch.head), ch.tail)));
        var size := HelloSize(k, w, cookie, OfferOf(cfg), Algo(p.keys.sched));
        var r := HelloSent(k, cfg, h, size, second, OfferOf(cfg).Some? && !second, retry.Some?);
        if r.Err? then Err(r.error) else Ok((r.value, ch))
  }

  // The hello is hashed and sent, in the clear, where it has to fit one record; offered is whether a PSK is
  // offered for the first time.
  function HelloSent(k: Crypto, cfg: Config, c: Client, size: nat, second: bool, offered: bool, retried: bool)
    : Result<Client, Error>
    requires c.keys.sched.slots != []
  {
    if size > MAX_PLAINTEXT then Err(Assertion)
    else if c.early && second then Err(Assertion)
    else if offered && cfg.useExporter && c.keys.earlyExporter.Some? then Err(Assertion)
    else
      Ok(c.(keys := EarlyKeys(k, cfg, c.keys, c.early, offered),
            state := if retried then ExpectSecondServerHello else ExpectServerHello))
  }

  // ---------------------------------------------------------------- server hellos

  // Why a HelloRetryRequest is refused
  function RetryError(cfg: Config, c: Client, m: Message): Option<Error>
    requires m.Retry?
  {
    var found := FindSuite(cfg.suites, m.suite);
    if found.None? then Some(IllegalParameter)
    else if m.group.Some? && cfg.groups == [] then Some(HandshakeFailure)
    else if m.sessionId != cfg.sessionId then Some(IllegalParameter)
    else if c.keys.sched.generation != 1 then Some(Assertion)
    else if !Tracks(c.keys.sched.slots, found.value.hash) then Some(Untracked)
    else if m.group.Some? && m.group.value !in cfg.groups then Some(IllegalParameter)
    else if m.group.None? && c.group.None? then Some(IllegalParameter)
    else None
  }

  // client_handle_hello and handle_hello_retry_request for a HelloRetryRequest
  function OnRetry(k: Crypto, cfg: Config, c: Client, m: Message, w: Draw): Result<(Client, ClientHello), Error>
    requires cfg.Valid() && m.Retry?
  {
    var e := RetryError(cfg, c, m);
    if e.Some? then Err(e.value)
    else
      var found := FindSuite(cfg.suites, m.suite);
      var ikm := if cfg.psk.Some? then Some(cfg.psk.value.secret) else None;
      var s := SelectCipher(k, c.keys.sched, found.value.hash, false, ikm);
      var t := Update(TransformPostCh1(k, s), m.raw);
      var d := c.(suite := found, keys := c.keys.(sched := t), share := None, early := false,
                  group := if m.group.Some? then m.group else c.group);
      SendHello(k, cfg, d, w, Some(m.cookie))
  }

  // The keys after ServerHello, from the schedule that holds the shared secret.
  function HandshakeKeys(k: Crypto, y: Keys, early: bool): Keys
    requires y.sched.slots != []
  {
    var r := InstallDec(y, 2, Derive(k, y.sched, "s hs traffic"));
    var hs := Derive(k, y.sched, "c hs traffic");
    if early then r.(pending := Some(hs)) else InstallEnc(r, 2, hs)
  }

  // Why decode_server_hello refuses a ServerHello, or the session id
  function DecodingError(cfg: Config, c: Client, m: Message): (r: Option<Error>)
    requires m.ServerHello?
    ensures r.None? ==> FindSuite(cfg.suites, m.suite).Some?
  {
    if FindSuite(cfg.suites, m.suite).None? then Some(IllegalParameter)
    else if m.share.Some? && cfg.groups == [] then Some(HandshakeFailure)
    else if m.share.Some? && c.group != Some(m.share.value.group) then Some(IllegalParameter)
    else if m.identity.Some? && (!c.offeredPsk || m.identity.value != 0) then Some(IllegalParameter)
    else if m.share.None? && !(c.isPsk || m.identity.Some?) then Some(IllegalParameter)
    else if m.sessionId != cfg.sessionId then Some(IllegalParameter)
    else None
  }

  // Why a ServerHello is refused
  function ServerHelloError(cfg: Config, c: Client, m: Message): Option<Error>
    requires m.ServerHello?
  {
    var e := DecodingError(cfg, c, m);
    if e.Some? then e
    else if c.keys.sched.generation != 1 then Some(Assertion)
    else if !Tracks(c.keys.sched.slots, FindSuite(cfg.suites, m.suite).value.hash) then Some(Untracked)
    else if cfg.psk.Some? && !(c.isPsk || m.identity.Some?) then Some(HandshakeFailure)
    else if m.share.Some? && c.share.None? then Some(Assertion)
    else None
  }

  // client_handle_hello for a ServerHello
  function OnServerHello(k: Crypto, cfg: Config, c: Client, m: Message): Result<Client, Error>
    requires m.ServerHello?
  {
    var e := ServerHelloError(cfg, c, m);
    if e.Some? then Err(e.value)
    else
      var found := FindSuite(cfg.suites, m.suite);
      var isPsk := c.isPsk || m.identity.Some?;
      var s := Update(SelectCipher(k, c.keys.sched, found.value.hash, c.offeredPsk && !isPsk, None), m.raw);
      var secret :=
        if m.share.Some? then Some(k.exchange(m.share.value.group, c.share.value, m.share.value.key)) else None;
      Ok(c.(suite := found, isPsk := isPsk, state := ExpectEncryptedExtensions,
            keys := HandshakeKeys(k, c.keys.(sched := Extract(k, s, secret)), c.early)))
  }

  // ---------------------------------------------------------------- the encrypted flight

  function Hashed(c: Client, m: Data, next: State): Client
  {
    c.(keys := c.keys.(sched := Update(c.keys.sched, m)), state := next)
  }

  // client_handle_encrypted_extensions
  function OnEncryptedExtensions(c: Client, m: Message): Result<Client, Error>
    requires m.EncryptedExtensions?
  {
    if m.early && !c.early then Err(IllegalParameter)
    else
      Ok(Hashed(c.(early := c.early && m.early), m.raw,
                if c.isPsk then ExpectFinished else ExpectCertificateRequestOrCertificate))
  }

  // client_handle_certificate_request
  function OnCertificateRequest(c: Client, m: Message): Result<Client, Error>
    requires m.CertificateRequest?
  {
    if c.isPsk then Err(Assertion)
    else Ok(Hashed(c.(certRequested := true), m.raw, ExpectCertificate))
  }

  // client_handle_certificate (and, the bytes aside, its compressed form)
  function OnCertificate(cfg: Config, c: Client, m: Message): Result<Client, Error>
    requires m.Certificate?
  {
    if !cfg.certificateOk(m.raw) then Err(BadCertificate)
    else if m.empty then Err(IllegalParameter)
    else Ok(Hashed(c, m.raw, ExpectCertificateVerify))
  }

  // client_handle_certificate_verify; the signature covers the transcript hash.
  function OnCertificateVerify(k: Crypto, cfg: Config, c: Client, m: Message): Result<Client, Error>
    requires m.CertificateVerify? && c.keys.sched.slots != []
  {
    if !cfg.signatureOk(TranscriptHash(k, c.keys.sched), m.raw) then Err(DecryptError)
    else Ok(Hashed(c, m.raw, ExpectFinished))
  }

  // The client's credentials: its Certificate message, and what signs a transcript hash, if anything does.
  datatype LastFlight = LastFlight(certificate: Message, sign: Option<Data -> Data>)
  {
    predicate Valid() { certificate.Certificate? }
  }

  function EarlyEnd(cfg: Config, pending: bool, early: bool): seq<Message>
  {
    if pending && early && !cfg.omitEndOfEarlyData then [EndOfEarlyData(END_OF_EARLY_DATA)] else []
  }

  // What client_handle_finished sends before its own Finished; s is the schedule by then.
  function BeforeFinished(k: Crypto, cfg: Config, c: Client, s: Schedule, w: LastFlight): seq<Message>
    requires s.slots != []
  {
    var early := EarlyEnd(cfg, c.keys.pending.Some?, c.early);
    early + if c.certRequested then Credentials(k, UpdateAll(s, early), w) else []
  }

  // Certificate, and CertificateVerify over the transcript up to it
  function Credentials(k: Crypto, s: Schedule, w: LastFlight): seq<Message>
    requires s.slots != []
  {
    [w.certificate] +
    if w.sign.Some? then [CertificateVerify(w.sign.value(TranscriptHash(k, Update(s, Raw(w.certificate)))))] else []
  }

  // The keys once the server's Finished is verified and hashed: read key and exporter secret
  function ReadKeys(k: Crypto, cfg: Config, y: Keys): Keys
    requires y.sched.slots != []
  {
    var d := InstallDec(y, 3, Derive(k, y.sched, "s ap traffic"));
    if cfg.useExporter then d.(exporter := Some(Derive(k, y.sched, "exp master"))) else d
  }

  // commission_handshake_secret: the pending handshake key is put to use.
  function Commissioned(y: Keys): Keys
  {
    if y.pending.Some? then InstallEnc(y.(pending := None), 2, y.pending.value) else y
  }

  // client_handle_finished
  function OnFinished(k: Crypto, cfg: Config, c: Client, m: Message, w: LastFlight)
    : Result<(Client, seq<Message>), Error>
    requires m.Finished? && c.keys.sched.slots != []
  {
    var bad := VerifyFinished(k, c.keys.sched, c.keys.dec.secret, m.raw);
    if bad.Some? then Err(bad.value)
    else if cfg.useExporter && c.keys.exporter.Some? then Err(Assertion)
    else
      var s := Extract(k, Update(c.keys.sched, m.raw), None);
      var d := c.(keys := ReadKeys(k, cfg, c.keys.(sched := s)));
      Ok(Concluded(k, cfg, d, Derive(k, s, "c ap traffic"), w))
  }

  // The last steps of client_handle_finished: leave early data, credentials, Finished, the new write key.
  function Concluded(k: Crypto, cfg: Config, c: Client, secret: Data, w: LastFlight): (Client, seq<Message>)
    requires c.keys.sched.slots != []
  {
    var y := Commissioned(c.keys);
    var sent := BeforeFinished(k, cfg, c, c.keys.sched, w);
    var t := UpdateAll(c.keys.sched, sent);
    var fin := FinishedMessage(k, t, y.enc.secret);
    (c.(keys := InstallEnc(y.(sched := Update(t, fin)), 3, secret), early := c.early && c.keys.pending.None?,
        certRequested := false, state := PostHandshake),
     sent + [Finished(fin)])
  }

  // client_handle_new_session_ticket: the ticket is saved with what is needed to redeem it.
  function OnTicket(k: Crypto, cfg: Config, c: Client, m: Message): Result<Client, Error>
    requires m.NewSessionTicket? && c.keys.sched.slots != []
  {
    if !cfg.savesTickets then Ok(c)
    else if c.group.None? || c.suite.None? then Err(NoKeyShare)
    else Ok(c.(tickets := c.tickets + [Stored(k, c, m)]))
  }

  function Stored(k: Crypto, c: Client, m: Message): StoredTicket
    requires m.NewSessionTicket? && c.keys.sched.slots != [] && c.group.Some? && c.suite.Some?
  {
    StoredTicket(m.ticket, Resumption(k, c.keys.sched, m.nonce), c.suite.value.id, c.group.value, m.early)
  }

  // ---------------------------------------------------------------- dispatch

  // handle_client_handshake_message, for the messages of the handshake proper.
  function Step(k: Crypto, cfg: Config, c: Client, m: Message, endOfRecord: bool, w: Draw, l: LastFlight)
    : Result<(Client, seq<Message>), Error>
    requires cfg.Valid()
  {
    match c.state
    case ExpectServerHello | ExpectSecondServerHello =>
      if m.Retry? && endOfRecord then
        var r := OnRetry(k, cfg, c, m, w);
        if r.Ok? then Ok((r.value.0, [Hello(r.value.1)])) else Err(r.error)
      else if m.ServerHello? && endOfRecord then Plain(OnServerHello(k, cfg, c, m))
      else Err(UnexpectedMessage)
    case ExpectEncryptedExtensions =>
      if m.EncryptedExtensions? then Plain(OnEncryptedExtensions(c, m)) else Err(UnexpectedMessage)
    case ExpectCertificateRequestOrCertificate =>
      if m.CertificateRequest? then Plain(OnCertificateRequest(c, m))
      else if m.Certificate? then Plain(OnCertificate(cfg, c, m))
      else Err(UnexpectedMessage)
    case ExpectCertificate =>
      if m.Certificate? then Plain(OnCertificate(cfg, c, m)) else Err(UnexpectedMessage)
    case ExpectCertificateVerify =>
      if m.CertificateVerify? && c.keys.sched.slots != [] then Plain(OnCertificateVerify(k, cfg, c, m))
      else Err(UnexpectedMessage)
    case ExpectFinished =>
      if m.Finished? && endOfRecord && c.keys.sched.slots != [] then OnFinished(k, cfg, c, m, l)
      else Err(UnexpectedMessage)
    case PostHandshake =>
      if m.NewSessionTicket? && c.keys.sched.slots != [] then Plain(OnTicket(k, cfg, c, m)) else Err(UnexpectedMessage)
    case HandshakeStart => Err(Assertion)
  }

  function Plain(r: Result<Client, Error>): Result<(Client, seq<Message>), Error>
  {
    if r.Ok? then Ok((r.value, [])) else Err(r.error)
  }
}
