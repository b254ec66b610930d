/** The server side of the handshake of lib/picotls.c: one function per handler, from the
    state before to the state after and the messages sent. */
module TlsServer {
  import opened Results
  import opened Wire
  import opened KeySchedule
  import opened Messages

  datatype State =
    | ExpectClientHello | ExpectSecondClientHello | ExpectCertificate | ExpectCertificateVerify
    | ExpectEndOfEarlyData | ExpectFinished | PostHandshake

  // What a ticket seals, besides its date, context and protocol
  datatype Session = Session(secret: Data, suite: nat, group: nat)

  // A ticket that decrypts, whose age, context and protocol fit.
  datatype Opened = Opened(secret: Data, suite: nat, group: nat, earlyOk: bool)

  datatype Config = Config(
    suites: seq<Suite>,
    serverPreference: bool,
    chachaPriority: bool,
    groups: seq<nat>,
    psk: Option<ExternalPsk>,
    // ticket_lifetime, and whether encrypt_ticket is set
    ticketLifetime: nat,
    encryptsTickets: bool,
    maxTickets: nat,
    // encrypt_ticket for the i-th ticket of a connection; no session when there is no key share
    seal: (nat, Option<Session>) -> Data,
    open: Data -> Option<Opened>,
    // lifetime and age_add of the i-th ticket
    stamp: nat -> Data,
    maxEarly: nat,
    requireClientAuth: bool,
    requireDhe: bool,
    omitEndOfEarlyData: bool,
    useExporter: bool,
    // whether handshake properties are given, which the binder is reported in
    properties: bool,
    enforceRetry: bool,
    retryUsesCookie: bool,
    cookieKey: Option<Data>,
    cookieExtra: Data,
    serverName: Data,
    certificateOk: Data -> bool,
    signatureOk: (Data, Data) -> bool)

  datatype Server = Server(
    state: State,
    random: Data,
    suite: Option<Suite>,
    isPsk: bool,
    group: Option<nat>,
    pendingTraffic: Data,
    tickets: nat,
    sealed: seq<Option<Session>>,
    keys: Keys)

  const NEW_SERVER := Server(ExpectClientHello, [], None, false, None, [], 0, [], NO_KEYS)

  // ---------------------------------------------------------------- negotiation

  const CHACHA20_POLY1305_SHA256: nat := 0x1303

  // Index of the first candidate with this id (and hash, when restricted), |candidates| if none.
  function Match(candidates: seq<Suite>, id: nat, hash: Option<nat>): (r: nat)
    ensures r <= |candidates|
    ensures r < |candidates| ==> candidates[r].id == id && (hash.Some? ==> candidates[r].hash == hash.value)
  {
    if candidates == [] then 0
    else if candidates[0].id == id && (hash.None? || candidates[0].hash == hash.value) then 0
    else 1 + Match(candidates[1..], id, hash)
  }

  // select_cipher; best is the smallest index found so far, |candidates| if none.
  function SelectSuite(candidates: seq<Suite>, ids: seq<nat>, preference: bool, chacha: bool, hash: Option<nat>,
      best: nat)
    : (r: Option<Suite>)
    requires best <= |candidates|
    requires best < |candidates| && hash.Some? ==> candidates[best].hash == hash.value
    ensures r.Some? && hash.Some? ==> r.value.hash == hash.value
    ensures r.Some? ==> (r.value.id in ids || (best < |candidates| && r.value == candidates[best]))
    ensures r.Some? ==> r.value in candidates
    decreases ids
  {
    if ids == [] || best == 0 < |candidates| then
      if best < |candidates| then Some(candidates[best]) else None
    else
      var i := Match(candidates, ids[0], hash);
      if i < |candidates| && !(preference && !(chacha && ids[0] == CHACHA20_POLY1305_SHA256)) then Some(candidates[i])
      else
        var b := if i < best then i else best;
        SelectSuite(candidates, ids[1..], preference, false, hash, b)
  }

  function SuiteFor(cfg: Config, ids: seq<nat>): (r: Option<Suite>)
    ensures r.Some? && cfg.psk.Some? ==> r.value.hash == cfg.psk.value.hash
    ensures r.Some? ==> r.value.id in ids && r.value in cfg.suites
  {
    SelectSuite(cfg.suites, ids, cfg.serverPreference, cfg.chachaPriority,
                if cfg.psk.Some? then Some(cfg.psk.value.hash) else None, |cfg.suites|)
  }

  // select_key_share: the first share of a configured group
  function SelectShare(groups: seq<nat>, shares: seq<Share>): (r: Option<Share>)
    ensures r.Some? ==> r.value in shares && r.value.group in groups
  {
    if shares == [] then None
    else if shares[0].group in groups then Some(shares[0])
    else SelectShare(groups, shares[1..])
  }

  // select_negotiated_group
  function SelectGroup(groups: seq<nat>, offered: seq<nat>): (r: Option<nat>)
    ensures r.Some? ==> r.value in groups && r.value in offered
  {
    if offered == [] then None
    else if offered[0] in groups then Some(offered[0])
    else SelectGroup(groups, offered[1..])
  }

  // ---------------------------------------------------------------- PSK

  datatype Found = Found(index: nat, secret: Data, group: Option<nat>, early: bool)

  // The first usable identity from position i on, as try_psk_handshake looks for it.
  function FindPsk(k: Crypto, cfg: Config, suite: Suite, ids: seq<Identity>, early: bool, i: nat): (r: Option<Found>)
    requires i <= |ids|
    ensures r.Some? ==> i <= r.value.index < |ids|
    decreases |ids| - i
  {
    if i == |ids| then None
    else
      var rest := FindPsk(k, cfg, suite, ids, early, i + 1);
      if cfg.psk.Some? then
        if ids[i].name == cfg.psk.value.identity then Some(Found(i, cfg.psk.value.secret, None, early && i == 0))
          else rest
      else if !cfg.encryptsTickets || cfg.groups == [] then rest
      else
        var o := cfg.open(ids[i].name);
        if o.None? || o.value.group !in cfg.groups || o.value.suite != suite.id then rest
        else if |o.value.secret| != k.size(suite.hash) || |ids[i].binder| != k.size(suite.hash) then rest
        else Some(Found(i, o.value.secret, Some(o.value.group), early && i == 0 && o.value.earlyOk
          && cfg.maxEarly != 0))
  }

  function ExternalSecret(cfg: Config): Option<Data>
  {
    if cfg.psk.Some? then Some(cfg.psk.value.secret) else None
  }

  // The found part of try_psk_handshake: extract, check the binder over the truncated hello.
  function CheckBinder(k: Crypto, cfg: Config, s: Schedule, ch: ClientHello, f: Found, second: bool)
    : (r: Result<Schedule, Error>)
    requires s.slots != [] && ch.identities.Some? && f.index < |ch.identities.value|
    ensures r.Ok? ==> |r.value.slots| == |s.slots|
  {
    var e := if second then s else Extract(k, s, Some(f.secret));
    var key := DeriveEmpty(k, e, if cfg.psk.Some? then "ext binder" else "res binder");
    var u := Update(e, ch.head);
    var size := k.size(Algo(s));
    var binder := ch.identities.value[f.index].binder;
    if |binder| < size then Err(ShortBinder)
    else if binder[..size] != VerifyData(k, u, key) then Err(DecryptError)
    else Ok(u)
  }

  // ---------------------------------------------------------------- cookies

  function CookieSignature(k: Crypto, cfg: Config, random: Data, suite: nat, group: nat, tbs: Data): Data
    requires cfg.suites != [] && cfg.cookieKey.Some?
  {
    k.hmac(cfg.suites[0].hash, cfg.cookieKey.value,
           SignedBytes(CookieContext(random, cfg.serverName, suite, group, cfg.cookieExtra), tbs))
  }

  // calc_cookie_signature writes the length of each block in one byte and asserts that it is below 255.
  predicate Signable(cfg: Config, random: Data, tbs: Data)
  {
    |random| < 255 && |cfg.serverName| < 255 && |cfg.cookieExtra| < 255 && |tbs| < 255
  }

  // The schedule of a server that accepts a cookie: message_hash, early secret, rebuilt retry.
  function FromCookie(k: Crypto, cfg: Config, suite: Suite, sessionId: Data, cookie: Cookie, group: nat): (r: Schedule)
    ensures |r.slots| == 1
  {
    var e := Extract(k, Update(New(Some(suite), []), HashMessage(k, suite.hash, cookie.ch1Hash)), ExternalSecret(cfg));
    Update(e, EncodeRetry(sessionId, suite.id, if cookie.sentKeyShare then Some(group) else None, Some(cookie.all)))
  }

  // ---------------------------------------------------------------- HelloRetryRequest

  // The cookie of a stateless retry; group is the group negotiated from supported_groups.
  function CookieFor(k: Crypto, cfg: Config, suite: Suite, ch: ClientHello, group: nat, sentKeyShare: bool): Data
    requires cfg.suites != [] && cfg.cookieKey.Some?
  {
    var tbs := ToBeSigned(k.hash(suite.hash, ch.Raw()), sentKeyShare);
    EncodeCookie(tbs, CookieSignature(k, cfg, ch.random, suite.id, group, tbs))
  }

  // The schedule of a server that keeps state, after it sent the retry.
  function AfterRetry(k: Crypto, cfg: Config, suite: Suite, ch: ClientHello, raw: Data): (r: Schedule)
    ensures |r.slots| == 1
  {
    Update(Extract(k, TransformPostCh1(k, Update(New(Some(suite), []), ch.Raw())), ExternalSecret(cfg)), raw)
  }

  // Send a HelloRetryRequest, with a cookie or keeping state. share is the usable key share, if any.
  function Retrying(k: Crypto, cfg: Config, s: Server, suite: Suite, ch: ClientHello, share: Option<Share>)
    : Result<(Server, seq<Message>), Error>
    requires cfg.suites != []
  {
    if ch.groups.None? then Err(MissingExtension)
    else
      var g := SelectGroup(cfg.groups, ch.groups.value);
      if g.None? then Err(HandshakeFailure)
      else
        var group := if share.Some? then None else g;
        if cfg.retryUsesCookie then
          if cfg.cookieKey.None? then Err(NoCookieKey)
          else if !Signable(cfg, ch.random, ToBeSigned(k.hash(suite.hash, ch.Raw()), share.None?)) then Err(Assertion)
          else Err(StatelessRetry(EncodeRetry(ch.sessionId, suite.id, group,
            Some(CookieFor(k, cfg, suite, ch, g.value, share.None?)))))
        else
          var raw := EncodeRetry(ch.sessionId, suite.id, group, None);
          Ok((s.(keys := s.keys.(sched := AfterRetry(k, cfg, suite, ch, raw)), state := ExpectSecondClientHello),
              [Retry(raw, ch.sessionId, suite.id, group, None)]))
  }

  // ---------------------------------------------------------------- ServerHello to Finished

  // What the server draws, signs or encodes for its flight.
  datatype Reply = Reply(
    hello: Data, key: Data, extensions: Data, request: Data, certificate: Data, certificateEmpty: bool,
      sign: Option<Data -> Data>)

  datatype Mode = Full | Psk | PskDhe

  // How many tickets to send.
  function TicketCount(cfg: Config, ch: ClientHello, isPsk: bool): nat
  {
    if (ch.modePsk || ch.modeDhe) && cfg.ticketLifetime != 0 then
      var wanted := if ch.newSessions != 0 then (if isPsk then ch.resumptions else ch.newSessions) else 1;
      var limit := if cfg.maxTickets == 0 then 4 else cfg.maxTickets;
      if wanted > limit then limit else wanted
    else 0
  }

  // Certificate messages of a full handshake; s is the schedule before them.
  function CertificateMessages(k: Crypto, cfg: Config, s: Schedule, mode: Mode, w: Reply): seq<Message>
    requires s.slots != []
  {
    if mode != Full then []
    else
      var unsigned :=
        (if cfg.requireClientAuth then [CertificateRequest(w.request)]
          else []) + [Certificate(w.certificate, w.certificateEmpty)];
      unsigned + if w.sign.Some? then [CertificateVerify(w.sign.value(TranscriptHash(k, UpdateAll(s, unsigned))))]
        else []
  }

  // The schedule the client will have, if nothing but its Finished is still to come.
  function PredictedSchedule(k: Crypto, cfg: Config, y: Keys): (r: Schedule)
    requires y.sched.slots != []
    ensures |r.slots| == |y.sched.slots|
  {
    var e := if y.pending.Some? && !cfg.omitEndOfEarlyData then Update(y.sched, END_OF_EARLY_DATA) else y.sched;
    Update(e, FinishedMessage(k, e, if y.pending.Some? then y.pending.value else y.dec.secret))
  }

  // The session that send_session_ticket seals, with the predicted resumption secret
  function SessionOf(k: Crypto, cfg: Config, s: Server): Option<Session>
    requires s.keys.sched.slots != []
  {
    if s.group.Some? && s.suite.Some? then
      Some(Session(Resumption(k, PredictedSchedule(k, cfg, s.keys), []), s.suite.value.id, s.group.value))
    else None
  }

  const NEW_SESSION_TICKET: Octet := 4
  const EARLY_DATA: nat := 42

  // The NewSessionTicket message around the i-th ticket; its nonce is empty.
  function TicketMessage(cfg: Config, i: nat, session: Option<Session>): Message
  {
    var ticket := cfg.seal(i, session);
    var limit := Be16(cfg.maxEarly / 65536) + Be16(cfg.maxEarly);
    var extensions := if cfg.maxEarly != 0 then Extension(EARLY_DATA, limit) else [];
    NewSessionTicket(Wire.Message(NEW_SESSION_TICKET, cfg.stamp(i) + Block1([]) + Block2(ticket) + Block2(extensions)),
                     [], ticket, cfg.maxEarly != 0)
  }

  // The messages of the tickets from number from on
  function TicketMessages(cfg: Config, sealed: seq<Option<Session>>, from: nat): seq<Message>
    requires from <= |sealed|
  {
    seq(|sealed| - from, i requires 0 <= i < |sealed| - from => TicketMessage(cfg, from + i, sealed[from + i]))
  }

  // send_session_ticket; the transcript is restored.
  function SendTicket(k: Crypto, cfg: Config, s: Server): Server
    requires s.keys.sched.slots != []
  {
    s.(sealed := s.sealed + [SessionOf(k, cfg, s)])
  }

  function SendTickets(k: Crypto, cfg: Config, s: Server, n: nat): (r: Server)
    requires s.keys.sched.slots != []
    ensures r == s.(sealed := r.sealed) && |r.sealed| == |s.sealed| + n
  {
    if n == 0 then s else SendTicket(k, cfg, SendTickets(k, cfg, s, n - 1))
  }

  // The keys once the server's Finished is hashed: write key and exporter secret.
  function ApplicationKeys(k: Crypto, cfg: Config, y: Keys): Keys
    requires y.sched.slots != []
  {
    var a := InstallEnc(y, 3, Derive(k, y.sched, "s ap traffic"));
    var x := if cfg.useExporter then a.(exporter := Some(Derive(k, y.sched, "exp master"))) else a;
    if x.pending.Some? && cfg.omitEndOfEarlyData then InstallDec(x.(pending := None), 2, x.pending.value) else x
  }

  // server_finish_handshake, from the point where the certificate messages have been sent.
  function Finish(k: Crypto, cfg: Config, s: Server): (r: Result<(Server, Message), Error>)
    requires s.keys.sched.slots != []
    ensures r.Ok? ==> |r.value.0.sealed| == |s.sealed| + s.tickets
  {
    var fin := FinishedMessage(k, s.keys.sched, s.keys.enc.secret);
    var u := Update(s.keys.sched, fin);
    if u.generation != 2 then Err(Assertion)
    else if cfg.useExporter && s.keys.exporter.Some? then Err(Assertion)
    else if s.tickets != 0 && !cfg.encryptsTickets then Err(Assertion)
    else
      var t := Extract(k, u, None);
      var x := s.(
        keys := ApplicationKeys(k, cfg, s.keys.(sched := t)),
        pendingTraffic := Derive(k, t, "c ap traffic"),
        state :=
          if s.keys.pending.Some? then (if cfg.omitEndOfEarlyData then ExpectFinished else ExpectEndOfEarlyData)
          else if cfg.requireClientAuth then ExpectCertificate
          else ExpectFinished);
      Ok((SendTickets(k, cfg, x, x.tickets), Finished(fin)))
  }

  // psk_index == 0, and the configuration and try_psk_handshake accept early data.
  predicate AcceptsEarly(cfg: Config, f: Option<Found>)
  {
    f.Some? && f.value.early && cfg.maxEarly != 0 && f.value.index == 0
  }

  function ModeOf(ch: ClientHello, f: Option<Found>): Mode
  {
    if f.None? then Full else if ch.modePsk then Psk else PskDhe
  }

  // The keys once the ClientHello is hashed, when early data is accepted.
  function EarlyKeys(k: Crypto, cfg: Config, y: Keys): Keys
    requires y.sched.slots != []
  {
    var e := if cfg.useExporter then y.(earlyExporter := Some(Derive(k, y.sched, "e exp master"))) else y;
    InstallDec(e, 1, Derive(k, y.sched, "c e traffic"))
  }

  // The keys after ServerHello, from the schedule that holds the shared secret.
  function HandshakeKeys(k: Crypto, y: Keys, early: bool): Keys
    requires y.sched.slots != []
  {
    var r := InstallEnc(y, 2, Derive(k, y.sched, "s hs traffic"));
    var hs := Derive(k, y.sched, "c hs traffic");
    if early then r.(pending := Some(hs)) else InstallDec(r, 2, hs)
  }

  // From the hashed ClientHello to ServerHello: early keys, key exchange, handshake keys.
  function Greet(k: Crypto, cfg: Config, s: Server, ch: ClientHello, share: Option<Share>, f: Option<Found>, w: Reply)
    : (r: Result<(Server, Message), Error>)
    requires s.keys.sched.slots != [] && s.suite.Some?
    ensures r.Ok? ==> |r.value.0.keys.sched.slots| == |s.keys.sched.slots| && r.value.0.sealed == s.sealed
  {
    var mode := ModeOf(ch, f);
    var early := AcceptsEarly(cfg, f);
    var u := Update(s.keys.sched, w.hello);
    if early && cfg.useExporter && s.keys.earlyExporter.Some? then Err(Assertion)
    else if mode != Psk && share.None? then Err(if ch.shares.Some? then HandshakeFailure else MissingExtension)
    else if |w.hello| > MAX_PLAINTEXT then Err(Assertion)
    else if u.generation != 1 then Err(Assertion)
    else
      var e := if early then EarlyKeys(k, cfg, s.keys) else s.keys;
      var secret := if mode != Psk then Some(k.exchange(share.value.group, share.value.key, w.key)) else None;
      var y := HandshakeKeys(k, e.(sched := Extract(k, u, secret)), early);
      Ok((s.(isPsk := f.Some?, tickets := TicketCount(cfg, ch, f.Some?), keys := y,
             group := if mode != Psk then Some(share.value.group) else s.group),
          ServerHello(w.hello, ch.sessionId, s.suite.value.id,
                      if mode != Psk then Some(Share(share.value.group, w.key)) else None,
                      if mode != Full then Some(f.value.index) else None)))
  }

  // EncryptedExtensions and the certificate messages
  function Flight(k: Crypto, cfg: Config, s: Schedule, early: bool, mode: Mode, w: Reply): seq<Message>
    requires s.slots != []
  {
    [EncryptedExtensions(w.extensions, early)] + CertificateMessages(k, cfg, Update(s, w.extensions), mode, w)
  }

  function Respond(k: Crypto, cfg: Config, s: Server, ch: ClientHello, share: Option<Share>, f: Option<Found>, w: Reply)
    : Result<(Server, seq<Message>), Error>
    requires s.keys.sched.slots != [] && s.suite.Some?
  {
    var g := Greet(k, cfg, s, ch, share, f, w);
    if g.Err? then Err(g.error)
    else
      var z := g.value.0;
      var flight := Flight(k, cfg, z.keys.sched, z.keys.pending.Some?, ModeOf(ch, f), w);
      var r := Finish(k, cfg, z.(keys := z.keys.(sched := UpdateAll(z.keys.sched, flight))));
      if r.Err? then Err(r.error)
      else Ok((r.value.0, [g.value.1] + flight + [r.value.1] + TicketMessages(cfg, r.value.0.sealed, |s.sealed|)))
  }

  // ---------------------------------------------------------------- server_handle_hello

  // The PSK to use, if any; second also when a cookie was accepted.
  function PskFor(k: Crypto, cfg: Config, suite: Suite, ch: ClientHello, second: bool): (r: Option<Found>)
    ensures r.Some? ==> ch.identities.Some? && r.value.index < |ch.identities.value|
  {
    if && ch.identities.Some? && (ch.modePsk || ch.modeDhe) && !cfg.requireClientAuth
       && ((!second && cfg.encryptsTickets) || cfg.psk.Some?)
    then FindPsk(k, cfg, suite, ch.identities.value, ch.early, 0) else None
  }

  // The schedule once the ClientHello is hashed and the early secret is known.
  function HelloHashed(k: Crypto, cfg: Config, s: Schedule, ch: ClientHello, f: Option<Found>, second: bool)
    : (r: Result<Schedule, Error>)
    requires s.slots != []
    requires f.Some? ==> ch.identities.Some? && f.value.index < |ch.identities.value|
    ensures r.Ok? ==> |r.value.slots| == |s.slots|
  {
    if f.Some? then
      var b := CheckBinder(k, cfg, s, ch, f.value, second);
      if b.Err? then b
      else if cfg.properties && |ch.identities.value[f.value.index].binder| > MAX_DIGEST then Err(BinderOverflow)
      else Ok(Update(b.value, ch.tail))
    else if cfg.psk.Some? then Err(UnknownPskIdentity)
    else
      var u := Update(s, ch.Raw());
      if second then Ok(u)
      else if u.generation != 0 then Err(Assertion)
      else Ok(Extract(k, u, None))
  }

  function Negotiated(k: Crypto, cfg: Config, s: Server, ch: ClientHello, share: Option<Share>, second: bool, w: Reply)
    : Result<(Server, seq<Message>), Error>
    requires s.keys.sched.slots != [] && s.suite.Some?
  {
    var f := PskFor(k, cfg, s.suite.value, ch, second);
    var h := HelloHashed(k, cfg, s.keys.sched, ch, f, second);
    if h.Err? then Err(h.error)
    else Respond(k, cfg, s.(keys := s.keys.(sched := h.value), group := if f.Some? then f.value.group else None), ch,
      share, f, w)
  }

  // What the configuration leaves of the hello, and the key share it can use.
  function Masked(cfg: Config, ch: ClientHello): ClientHello
  {
    if cfg.requireDhe then ch.(modePsk := false) else ch
  }

  function ShareFor(cfg: Config, ch: ClientHello): Option<Share>
  {
    if ch.shares.Some? && cfg.groups != [] then SelectShare(cfg.groups, ch.shares.value) else None
  }

  // A first hello, or one with a cookie, once the suite is chosen
  function OnFirstHello(k: Crypto, cfg: Config, s: Server, ch: ClientHello, parsed: Option<Cookie>, cs: Suite, w: Reply)
    : Result<(Server, seq<Message>), Error>
    requires cfg.suites != [] && (parsed.Some? ==> cfg.cookieKey.Some?)
  {
    var share := ShareFor(cfg, ch);
    var n := s.(random := ch.random, suite := Some(cs), keys := s.keys.(sched := New(Some(cs), [])));
    if parsed.Some? && share.Some? then
      var c, g := parsed.value, share.value.group;
      if !Signable(cfg, ch.random, c.tbs) then Err(Assertion)
      else if c.signature != CookieSignature(k, cfg, ch.random, cs.id, g, c.tbs) then Err(HandshakeFailure)
      else
        var r := n.(keys := n.keys.(sched := FromCookie(k, cfg, cs, ch.sessionId, c, g)));
        Negotiated(k, cfg, r, ch, share, true, w)
    else if ch.shares.Some? && cfg.groups != [] && (share.None? || cfg.enforceRetry) then
      Retrying(k, cfg, n, cs, ch, share)
    else Negotiated(k, cfg, n, ch, share, false, w)
  }

  // Why a ClientHello is refused before anything is changed; random is that of the first one.
  function HelloError(cfg: Config, random: Data, ch: ClientHello, second: bool, parsed: Option<Cookie>): Option<Error>
  {
    if ch.cookie.Some? && cfg.cookieKey.None? then Some(IllegalParameter)
    else if ch.cookie.Some? && parsed.None? then Some(DecodeError)
    else if second && ch.random != random then Some(HandshakeFailure)
    else if ch.identities.None? && ch.early then Some(IllegalParameter)
    else if second && ch.early then Some(DecodeError)
    else None
  }

  function OnHello(k: Crypto, cfg: Config, s: Server, received: ClientHello, w: Reply)
    : Result<(Server, seq<Message>), Error>
    requires cfg.suites != []
  {
    var ch := Masked(cfg, received);
    var second := s.state == ExpectSecondClientHello;
    var parsed := if ch.cookie.Some? then ParseCookie(ch.cookie.value) else None;
    var e := HelloError(cfg, s.random, ch, second, parsed);
    if e.Some? then Err(e.value)
    else
      var cs := SuiteFor(cfg, ch.suites);
      if cs.None? then Err(HandshakeFailure)
      else if second then
        if s.suite != cs || s.keys.sched.slots == [] then Err(HandshakeFailure)
        else Negotiated(k, cfg, s, ch, ShareFor(cfg, ch), true, w)
      else OnFirstHello(k, cfg, s, ch, parsed, cs.value, w)
  }

  // ---------------------------------------------------------------- the client's last flight

  function Hashed(s: Server, m: Data, next: State): Server
  {
    s.(keys := s.keys.(sched := Update(s.keys.sched, m)), state := next)
  }

  // server_handle_certificate
  function OnCertificate(cfg: Config, s: Server, m: Message): Result<Server, Error>
    requires m.Certificate?
  {
    if !cfg.certificateOk(m.raw) then Err(BadCertificate)
    else Ok(Hashed(s, m.raw, if m.empty then ExpectFinished else ExpectCertificateVerify))
  }

  // server_handle_certificate_verify
  function OnCertificateVerify(k: Crypto, cfg: Config, s: Server, m: Message): Result<Server, Error>
    requires m.CertificateVerify? && s.keys.sched.slots != []
  {
    if !cfg.signatureOk(TranscriptHash(k, s.keys.sched), m.raw) then Err(DecryptError)
    else Ok(Hashed(s, m.raw, ExpectFinished))
  }

  // server_handle_end_of_early_data
  function OnEndOfEarlyData(s: Server, m: Message): Result<Server, Error>
    requires m.EndOfEarlyData?
  {
    if s.keys.pending.None? then Err(Assertion)
    else
      var y := InstallDec(s.keys.(pending := None), 2, s.keys.pending.value);
      Ok(Hashed(s.(keys := y), m.raw, ExpectFinished))
  }

  // server_handle_finished
  function OnFinished(k: Crypto, s: Server, m: Message): Result<Server, Error>
    requires m.Finished? && s.keys.sched.slots != []
  {
    var bad := VerifyFinished(k, s.keys.sched, s.keys.dec.secret, m.raw);
    if bad.Some? then Err(bad.value)
    else Ok(Hashed(s.(keys := InstallDec(s.keys, 3, s.pendingTraffic), pendingTraffic := []), m.raw, PostHandshake))
  }

  // handle_server_handshake_message, for the messages of the handshake proper.
  function Step(k: Crypto, cfg: Config, s: Server, m: Message, endOfRecord: bool, w: Reply)
    : Result<(Server, seq<Message>), Error>
    requires cfg.suites != []
  {
    match s.state
    case ExpectClientHello | ExpectSecondClientHello =>
      if m.Hello? && endOfRecord then OnHello(k, cfg, s, m.ch, w) else Err(HandshakeFailure)
    case ExpectCertificate =>
      if m.Certificate? then Plain(OnCertificate(cfg, s, m)) else Err(UnexpectedMessage)
    case ExpectCertificateVerify =>
      if m.CertificateVerify? && s.keys.sched.slots != [] then Plain(OnCertificateVerify(k, cfg, s, m))
      else Err(UnexpectedMessage)
    case ExpectEndOfEarlyData =>
      if cfg.omitEndOfEarlyData then Err(Assertion)
      else if m.EndOfEarlyData? then Plain(OnEndOfEarlyData(s, m))
      else Err(UnexpectedMessage)
    case ExpectFinished =>
      if m.Finished? && endOfRecord && s.keys.sched.slots != [] then Plain(OnFinished(k, s, m))
      else Err(HandshakeFailure)
    case PostHandshake => Err(UnexpectedMessage)
  }

  function Plain(r: Result<Server, Error>): Result<(Server, seq<Message>), Error>
  {
    if r.Ok? then Ok((r.value, [])) else Err(r.error)
  }
}
