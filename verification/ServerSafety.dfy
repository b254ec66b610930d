/** What every run of the server keeps, whatever the peer sends. */
module ServerSafety {
  import opened Results
  import opened Wire
  import opened KeySchedule
  import opened Messages
  import opened TlsServer
  import opened Secrets

  // ptls_get_read_epoch
  function ReadEpoch(s: State): nat
  {
    match s
    case ExpectClientHello | ExpectSecondClientHello => 0
    case ExpectEndOfEarlyData => 1
    case ExpectCertificate | ExpectCertificateVerify | ExpectFinished => 2
    case PostHandshake => 3
  }

  // How often key_schedule_extract was called.
  function Generation(s: State): nat
  {
    match s
    case ExpectClientHello => 0
    case ExpectSecondClientHello => 1
    case _ => 3
  }

  // The keys when a ClientHello is about to be answered.
  predicate Fresh(y: Keys, generation: nat)
  {
    && |y.sched.slots| == 1 && y.sched.generation == generation
    && y.enc == PLAINTEXT && y.dec == PLAINTEXT
    && y.pending.None? && y.exporter.None? && y.earlyExporter.None?
  }

  ghost predicate Inv(cfg: Config, s: Server)
  {
    && (s.state.ExpectClientHello? ==> s == NEW_SERVER)
    && (!s.state.ExpectClientHello? ==> |s.keys.sched.slots| == 1 && s.suite.Some?)
    && s.keys.sched.generation == Generation(s.state)
    && s.keys.dec.epoch == ReadEpoch(s.state)
    && s.keys.enc.epoch == (if Generation(s.state) == 3 then 3 else 0)
    && (s.keys.pending.Some? <==> s.state.ExpectEndOfEarlyData?)
    && (s.state.ExpectEndOfEarlyData? ==> !cfg.omitEndOfEarlyData && !cfg.requireClientAuth)
    && (s.state.ExpectSecondClientHello? ==> Fresh(s.keys, 1))
    && (s.state.ExpectCertificate? || s.state.ExpectCertificateVerify? ==> cfg.requireClientAuth)
  }

  // A server that waits for the second hello has extracted the early secret of the external PSK, or of none.
  ghost predicate Seeded(k: Crypto, cfg: Config, s: Server)
  {
    s.state.ExpectSecondClientHello? ==> Seed(k, cfg, s.keys.sched, true)
  }

  lemma InvHasSchedule(cfg: Config, s: Server)
    requires Inv(cfg, s)
    ensures !s.state.ExpectClientHello? ==> s.keys.sched.slots != []
    ensures s.state.ExpectEndOfEarlyData? ==> !cfg.omitEndOfEarlyData
  {}

  // ---------------------------------------------------------------- answering a ClientHello

  // After ServerHello and the encrypted flight up to Finished.
  predicate Greeted(y: Keys)
  {
    && |y.sched.slots| == 1 && y.sched.generation == 2
    && y.enc.epoch == 2
    && y.dec.epoch == (if y.pending.Some? then 1 else 2)
    && y.exporter.None?
  }

  // A ServerHello is sent: without a key exchange or with a key share for it.
  predicate CanGreet(ch: ClientHello, share: Option<Share>, f: Option<Found>) { ModeOf(ch, f) == Psk || share.Some? }

  lemma GreetKeeps(k: Crypto, cfg: Config, s: Server, ch: ClientHello, share: Option<Share>, f: Option<Found>, w: Reply)
    requires Fresh(s.keys, 1) && s.suite.Some?
    ensures var g := Greet(k, cfg, s, ch, share, f, w);
      && (g == Err(Assertion) <==> CanGreet(ch, share, f) && |w.hello| > MAX_PLAINTEXT)
      && (g.Ok? ==> CanGreet(ch, share, f) && |w.hello| <= MAX_PLAINTEXT)
      && (g.Ok? ==> Greeted(g.value.0.keys) && g.value.0.suite == s.suite && (g.value.0.keys.pending.Some? ==> f.Some?))
      && (g.Ok? ==> g.value.0.tickets == TicketCount(cfg, ch, f.Some?) && g.value.0.isPsk == f.Some?)
      && (g.Err? ==> g.error == Assertion || g.error == HandshakeFailure || g.error == MissingExtension)
      && (CanGreet(ch, share, f) && |w.hello| <= MAX_PLAINTEXT ==> g.Ok?)
  {
    hide Derive, TicketCount;
  }

  lemma FinishKeeps(k: Crypto, cfg: Config, s: Server)
    requires Greeted(s.keys) && s.suite.Some? && (s.keys.pending.Some? ==> !cfg.requireClientAuth)
    ensures var r := Finish(k, cfg, s);
      && (r.Err? <==> s.tickets != 0 && !cfg.encryptsTickets)
      && (r.Err? ==> r.error == Assertion)
      && (r.Ok? ==> Inv(cfg, r.value.0) && (r.value.0.state.ExpectCertificate? || !cfg.requireClientAuth))
      && (r.Ok? ==> !r.value.0.state.ExpectCertificateVerify? && !r.value.0.state.PostHandshake?)
      && (r.Ok? ==> r.value.0.isPsk == s.isPsk && !r.value.0.state.ExpectSecondClientHello?)
  {
    hide Derive, FinishedMessage, SendTicket;
  }

  lemma {:induction false} UpdateAllKeeps(s: Schedule, ms: seq<Message>)
    ensures var r := UpdateAll(s, ms); r.generation == s.generation && |r.slots| == |s.slots|
    decreases |ms|
  {
    if ms != [] {
      UpdateAllKeeps(Update(s, Raw(ms[0])), ms[1..]);
    }
  }

  // The state after a hello that was answered
  ghost predicate Answered(cfg: Config, r: Result<(Server, seq<Message>), Error>)
  {
    r.Ok? ==>
      && Inv(cfg, r.value.0)
      && (r.value.0.state.ExpectSecondClientHello? || r.value.0.state.ExpectCertificate? || !cfg.requireClientAuth)
      && !r.value.0.state.ExpectCertificateVerify? && !r.value.0.state.PostHandshake?
  }

  // What goes wrong in answering, given the PSK: a ServerHello above the size of a record, or tickets to be
  // sent by a server that cannot encrypt them
  predicate Unsendable(cfg: Config, ch: ClientHello, share: Option<Share>, f: Option<Found>, w: Reply)
  {
    && CanGreet(ch, share, f)
    && (|w.hello| > MAX_PLAINTEXT || (TicketCount(cfg, ch, f.Some?) != 0 && !cfg.encryptsTickets))
  }

  lemma RespondKeeps(k: Crypto, cfg: Config, s: Server, ch: ClientHello, share: Option<Share>, f: Option<Found>,
      w: Reply)
    requires Fresh(s.keys, 1) && s.suite.Some? && (f.Some? ==> !cfg.requireClientAuth)
    ensures var r := Respond(k, cfg, s, ch, share, f, w);
      && Answered(cfg, r)
      && (r == Err(Assertion) <==> Unsendable(cfg, ch, share, f, w))
      && (r.Err? ==> r.error == Assertion || r.error == HandshakeFailure || r.error == MissingExtension)
      && (r.Ok? <==> CanGreet(ch, share, f) && !Unsendable(cfg, ch, share, f, w))
      && (r.Ok? ==> r.value.0.isPsk == f.Some? && !r.value.0.state.ExpectSecondClientHello?)
  {
    hide Greet, Finish, Inv, Flight, UpdateAll, TicketCount, CanGreet;
    GreetKeeps(k, cfg, s, ch, share, f, w);
    var g := Greet(k, cfg, s, ch, share, f, w);
    if g.Ok? {
      var z := g.value.0;
      var flight := Flight(k, cfg, z.keys.sched, z.keys.pending.Some?, ModeOf(ch, f), w);
      UpdateAllKeeps(z.keys.sched, flight);
      FinishKeeps(k, cfg, z.(keys := z.keys.(sched := UpdateAll(z.keys.sched, flight))));
    }
  }

  // The binder that belongs to the PSK
  function BinderAt(ch: ClientHello, f: Found): Data
    requires ch.identities.Some? && f.index < |ch.identities.value|
  {
    ch.identities.value[f.index].binder
  }

  // The binder has at least the size of a digest.
  predicate Covers(k: Crypto, s: Schedule, ch: ClientHello, f: Found)
    requires s.slots != [] && ch.identities.Some? && f.index < |ch.identities.value|
  {
    |BinderAt(ch, f)| >= k.size(Algo(s))
  }

  // It starts with the one of the PSK over the transcript and the hello up to the binders.
  predicate Verifies(k: Crypto, cfg: Config, s: Schedule, ch: ClientHello, f: Found)
    requires s.slots != [] && ch.identities.Some? && f.index < |ch.identities.value|
  {
    && Covers(k, s, ch, f)
    && BinderAt(ch, f)[..k.size(Algo(s))]
      == BinderOver(k, Algo(s), f.secret, cfg.psk.Some?, Transcript(s) + ch.head)
  }

  // The binder does not fit the buffer it is reported in.
  predicate Overflows(cfg: Config, ch: ClientHello, f: Found)
    requires ch.identities.Some? && f.index < |ch.identities.value|
  {
    cfg.properties && |BinderAt(ch, f)| > 64
  }

  // The hello is accepted: its binder verifies, or no PSK is asked for.
  predicate Accepted(k: Crypto, cfg: Config, s: Schedule, ch: ClientHello, f: Option<Found>)
    requires s.slots != [] && (f.Some? ==> ch.identities.Some? && f.value.index < |ch.identities.value|)
  {
    if f.Some? then Verifies(k, cfg, s, ch, f.value) && !Overflows(cfg, ch, f.value) else cfg.psk.None?
  }

  // Before the hello nothing is extracted or, if it is not the first one, the early secret of the external PSK.
  ghost predicate Seed(k: Crypto, cfg: Config, s: Schedule, second: bool)
  {
    && |s.slots| == 1
    && s.generation == (if second then 1 else 0)
    && (second ==> s.secret == EarlySecret(k, Algo(s), ExternalSecret(cfg)))
  }

  lemma BinderChecked(k: Crypto, cfg: Config, s: Schedule, ch: ClientHello, f: Found, second: bool)
    requires Seed(k, cfg, s, second) && ch.identities.Some? && f.index < |ch.identities.value|
    requires second ==> ExternalSecret(cfg) == Some(f.secret)
    ensures var r := CheckBinder(k, cfg, s, ch, f, second);
      && (r.Ok? <==> Verifies(k, cfg, s, ch, f))
      && (r == Err(ShortBinder) <==> !Covers(k, s, ch, f))
      && (r == Err(DecryptError) <==> Covers(k, s, ch, f) && !Verifies(k, cfg, s, ch, f))
      && (r.Ok? ==> |r.value.slots| == 1 && r.value.generation == 1)
  {
    var e := if second then s else Extract(k, s, Some(f.secret));
    assert e == Single(1, EarlySecret(k, Algo(s), Some(f.secret)), Algo(s), Transcript(s));
    UpdateSingle(1, e.secret, Algo(s), Transcript(s), ch.head);
  }

  lemma HelloHashedKeeps(k: Crypto, cfg: Config, s: Schedule, ch: ClientHello, f: Option<Found>, second: bool)
    requires Seed(k, cfg, s, second)
    requires f.Some? ==> ch.identities.Some? && f.value.index < |ch.identities.value|
    requires f.Some? && second ==> ExternalSecret(cfg) == Some(f.value.secret)
    ensures var r := HelloHashed(k, cfg, s, ch, f, second);
      && (r.Ok? <==> Accepted(k, cfg, s, ch, f))
      && (r.Ok? ==> |r.value.slots| == 1 && r.value.generation == 1)
      && (r == Err(ShortBinder) <==> f.Some? && !Covers(k, s, ch, f.value))
      && (r == Err(DecryptError) <==> f.Some? && Covers(k, s, ch, f.value) && !Verifies(k, cfg, s, ch, f.value))
      && (r == Err(BinderOverflow) <==> f.Some? && Verifies(k, cfg, s, ch, f.value) && Overflows(cfg, ch, f.value))
      && (r == Err(UnknownPskIdentity) <==> f.None? && cfg.psk.Some?)
      && (r.Err? ==> r.error in {ShortBinder, DecryptError, BinderOverflow, UnknownPskIdentity})
  {
    hide CheckBinder, Verifies, Covers;
    if f.Some? {
      BinderChecked(k, cfg, s, ch, f.value, second);
    }
  }

  // With a second hello only an external PSK is looked for.
  lemma {:induction false} ExternalIsFound(k: Crypto, cfg: Config, suite: Suite, ids: seq<Identity>, early: bool,
      i: nat)
    requires i <= |ids| && cfg.psk.Some?
    ensures var r := FindPsk(k, cfg, suite, ids, early, i); r.Some? ==> ExternalSecret(cfg) == Some(r.value.secret)
    decreases |ids| - i
  {
    if i < |ids| {
      ExternalIsFound(k, cfg, suite, ids, early, i + 1);
    }
  }

  // What becomes of a hello that is negotiated: none of these errors, or exactly the one that is said
  datatype Outcome = Outcome(
    answered: bool, bound: bool,
    asserts: bool, short: bool, forged: bool, overflows: bool, unknown: bool, keyless: bool)

  const REFUSED := Outcome(false, false, false, false, false, false, false, false)

  ghost predicate Ends(cfg: Config, r: Result<(Server, seq<Message>), Error>, o: Outcome)
  {
    && Answered(cfg, r)
    && (r == Err(Assertion) <==> o.asserts)
    && (r == Err(ShortBinder) <==> o.short)
    && (r == Err(DecryptError) <==> o.forged)
    && (r == Err(BinderOverflow) <==> o.overflows)
    && (r == Err(UnknownPskIdentity) <==> o.unknown)
    && (r == Err(NoCookieKey) <==> o.keyless)
    && (r.Ok? <==> o.answered)
    && (r.Ok? ==> (r.value.0.isPsk <==> o.bound))
  }

  function NegotiatedOutcome(k: Crypto, cfg: Config, s: Schedule, suite: Suite, ch: ClientHello, share: Option<Share>,
      second: bool, w: Reply)
    : Outcome
    requires s.slots != []
  {
    var f := PskFor(k, cfg, suite, ch, second);
    Outcome(
      Accepted(k, cfg, s, ch, f) && CanGreet(ch, share, f) && !Unsendable(cfg, ch, share, f, w),
      f.Some? && Verifies(k, cfg, s, ch, f.value),
      Accepted(k, cfg, s, ch, f) && Unsendable(cfg, ch, share, f, w),
      f.Some? && !Covers(k, s, ch, f.value),
      f.Some? && Covers(k, s, ch, f.value) && !Verifies(k, cfg, s, ch, f.value),
      f.Some? && Verifies(k, cfg, s, ch, f.value) && Overflows(cfg, ch, f.value),
      f.None? && cfg.psk.Some?,
      false)
  }

  lemma NegotiatedKeeps(k: Crypto, cfg: Config, s: Server, ch: ClientHello, share: Option<Share>, second: bool,
      w: Reply)
    requires Fresh(s.keys, if second then 1 else 0) && s.suite.Some? && Seed(k, cfg, s.keys.sched, second)
    ensures Ends(cfg, Negotiated(k, cfg, s, ch, share, second, w),
      NegotiatedOutcome(k, cfg, s.keys.sched, s.suite.value, ch, share, second, w))
    ensures var r := Negotiated(k, cfg, s, ch, share, second, w); r.Ok? ==> !r.value.0.state.ExpectSecondClientHello?
  {
    hide Respond, HelloHashed, Inv, FindPsk, Unsendable, Verifies, Covers;
    var f := PskFor(k, cfg, s.suite.value, ch, second);
    if f.Some? && cfg.psk.Some? {
      ExternalIsFound(k, cfg, s.suite.value, ch.identities.value, ch.early, 0);
    }
    HelloHashedKeeps(k, cfg, s.keys.sched, ch, f, second);
    var h := HelloHashed(k, cfg, s.keys.sched, ch, f, second);
    if h.Ok? {
      RespondKeeps(k, cfg, s.(keys := s.keys.(sched := h.value), group := if f.Some? then f.value.group else None), ch,
        share, f, w);
    }
  }

  // ---------------------------------------------------------------- hellos

  predicate HelloExpected(s: Server) { s.state.ExpectClientHello? || s.state.ExpectSecondClientHello? }

  // A hello that is not refused at once, and a suite for it: a cookie that can be read, early data only with a PSK and
  // not in a second hello, which repeats the random of the first
  predicate Passes(cfg: Config, s: Server, ch: ClientHello)
  {
    && (ch.cookie.Some? ==> cfg.cookieKey.Some? && ParsedOf(ch).Some?)
    && (ch.early ==> ch.identities.Some?)
    && (s.state == ExpectSecondClientHello ==> ch.random == s.random && !ch.early)
    && SuiteFor(cfg, ch.suites).Some?
  }

  function ParsedOf(ch: ClientHello): Option<Cookie> { if ch.cookie.Some? then ParseCookie(ch.cookie.value) else None }

  // The cookie of a first hello is looked at.
  predicate BringsCookie(cfg: Config, s: Server, ch: ClientHello)
  {
    s.state != ExpectSecondClientHello && ParsedOf(ch).Some? && ShareFor(cfg, ch).Some?
  }

  // It is answered with a HelloRetryRequest, or the refusal of one.
  predicate AsksForRetry(cfg: Config, s: Server, ch: ClientHello)
  {
    && s.state != ExpectSecondClientHello && !BringsCookie(cfg, s, ch)
    && ch.shares.Some? && cfg.groups != [] && (ShareFor(cfg, ch).None? || cfg.enforceRetry)
  }

  predicate GetsRetry(cfg: Config, s: Server, ch: ClientHello)
  {
    AsksForRetry(cfg, s, ch) && ch.groups.Some? && SelectGroup(cfg.groups, ch.groups.value).Some?
  }

  // What calc_cookie_signature is called for: the cookie that a hello brings, or the one it is to get
  function Signed(k: Crypto, cfg: Config, s: Server, ch: ClientHello): Option<Data>
    requires Passes(cfg, s, ch)
  {
    if BringsCookie(cfg, s, ch) then Some(ParsedOf(ch).value.tbs)
    else if GetsRetry(cfg, s, ch) && cfg.retryUsesCookie then
      Some(ToBeSigned(k.hash(SuiteFor(cfg, ch.suites).value.hash, ch.Raw()), ShareFor(cfg, ch).None?))
    else None
  }

  // The schedule with which a hello is negotiated, if it is, and whether it counts as a second one
  function Reached(k: Crypto, cfg: Config, s: Server, ch: ClientHello): (r: Option<(Schedule, bool)>)
    requires cfg.suites != [] && Passes(cfg, s, ch)
    ensures r.Some? ==> r.value.0.slots != []
  {
    var suite := SuiteFor(cfg, ch.suites).value;
    if s.state == ExpectSecondClientHello then
      if s.suite == Some(suite) && s.keys.sched.slots != [] then Some((s.keys.sched, true)) else None
    else if BringsCookie(cfg, s, ch) then
      var c, g := ParsedOf(ch).value, ShareFor(cfg, ch).value.group;
      if Signable(cfg, ch.random, c.tbs) && c.signature == CookieSignature(k, cfg, ch.random, suite.id, g, c.tbs)
      then Some((FromCookie(k, cfg, suite, ch.sessionId, c, g), true)) else None
    else if AsksForRetry(cfg, s, ch) then None
    else Some((New(Some(suite), []), false))
  }

  function HelloOutcome(k: Crypto, cfg: Config, s: Server, ch: ClientHello, w: Reply): Outcome
    requires cfg.suites != [] && Passes(cfg, s, ch)
  {
    var suite, share, r, tbs := SuiteFor(cfg, ch.suites).value, ShareFor(cfg, ch), Reached(k, cfg, s, ch),
      Signed(k, cfg, s, ch);
    if r.Some? then NegotiatedOutcome(k, cfg, r.value.0, suite, ch, share, r.value.1, w)
    else
      var keyless := GetsRetry(cfg, s, ch) && cfg.retryUsesCookie && cfg.cookieKey.None?;
      REFUSED.(answered := GetsRetry(cfg, s, ch) && !cfg.retryUsesCookie,
        asserts := tbs.Some? && !keyless && !Signable(cfg, ch.random, tbs.value), keyless := keyless)
  }

  lemma RetryingKeeps(k: Crypto, cfg: Config, s: Server, suite: Suite, ch: ClientHello, share: Option<Share>)
    requires cfg.suites != [] && Fresh(s.keys, 0) && s.suite.Some? && !s.isPsk
    ensures var r := Retrying(k, cfg, s, suite, ch, share);
      var retries := ch.groups.Some? && SelectGroup(cfg.groups, ch.groups.value).Some?;
      var sends := retries && cfg.retryUsesCookie;
      var tbs := ToBeSigned(k.hash(suite.hash, ch.Raw()), share.None?);
      Ends(cfg, r, REFUSED.(
        answered := retries && !cfg.retryUsesCookie,
        asserts := sends && cfg.cookieKey.Some? && !Signable(cfg, ch.random, tbs),
        keyless := sends && cfg.cookieKey.None?))
  {
    hide EncodeRetry, CookieFor, Signable, ToBeSigned;
  }

  lemma FirstHelloKeeps(k: Crypto, cfg: Config, s: Server, ch: ClientHello, w: Reply)
    requires cfg.suites != [] && Inv(cfg, s) && s.state.ExpectClientHello? && Passes(cfg, s, ch)
    ensures Ends(cfg, OnFirstHello(k, cfg, s, ch, ParsedOf(ch), SuiteFor(cfg, ch.suites).value, w),
      HelloOutcome(k, cfg, s, ch, w))
  {
    hide Negotiated, NegotiatedOutcome, Retrying, SuiteFor, ShareFor, FromCookie, CookieSignature, ParseCookie, Ends,
      Signable,
      ToBeSigned, SelectGroup;
    var cs, share := SuiteFor(cfg, ch.suites).value, ShareFor(cfg, ch);
    var n := s.(random := ch.random, suite := Some(cs), keys := s.keys.(sched := New(Some(cs), [])));
    if BringsCookie(cfg, s, ch) {
      var c, g := ParsedOf(ch).value, share.value.group;
      CookieGeneration(k, cfg, cs, ch.sessionId, c, g);
      NegotiatedKeeps(k, cfg, n.(keys := n.keys.(sched := FromCookie(k, cfg, cs, ch.sessionId, c, g))), ch, share, true,
        w);
      Refused(cfg, Assertion);
      Refused(cfg, HandshakeFailure);
    } else if AsksForRetry(cfg, s, ch) {
      RetryingKeeps(k, cfg, n, cs, ch, share);
    } else {
      NegotiatedKeeps(k, cfg, n, ch, share, false, w);
    }
  }

  // An error is the outcome it stands for.
  lemma Refused(cfg: Config, e: Error)
    ensures Ends(cfg, Err(e), Outcome(false, false, e == Assertion, e == ShortBinder, e == DecryptError,
      e == BinderOverflow, e == UnknownPskIdentity, e == NoCookieKey))
  {}

  lemma OnHelloKeeps(k: Crypto, cfg: Config, s: Server, received: ClientHello, w: Reply)
    requires cfg.suites != [] && Inv(cfg, s) && Seeded(k, cfg, s) && HelloExpected(s)
    ensures var ch := Masked(cfg, received);
      Ends(cfg, OnHello(k, cfg, s, received, w),
        if Passes(cfg, s, ch) then HelloOutcome(k, cfg, s, ch, w) else REFUSED)
  {
    hide Negotiated, NegotiatedOutcome, OnFirstHello, SuiteFor, ShareFor, ParseCookie, Ends, Signable, ToBeSigned,
      SelectGroup;
    var ch := Masked(cfg, received);
    Refused(cfg, HandshakeFailure);
    Refused(cfg, IllegalParameter);
    Refused(cfg, DecodeError);
    if Passes(cfg, s, ch) {
      if s.state.ExpectClientHello? {
        FirstHelloKeeps(k, cfg, s, ch, w);
      } else if Reached(k, cfg, s, ch).Some? {
        NegotiatedKeeps(k, cfg, s, ch, ShareFor(cfg, ch), true, w);
      }
    }
  }

  lemma CookieGeneration(k: Crypto, cfg: Config, suite: Suite, sessionId: Data, c: Cookie, g: nat)
    ensures var s := FromCookie(k, cfg, suite, sessionId, c, g); s.generation == 1 && Seed(k, cfg, s, true)
  {
    hide EncodeRetry;
  }

  lemma RetrySeeds(k: Crypto, cfg: Config, s: Server, suite: Suite, ch: ClientHello, share: Option<Share>)
    requires cfg.suites != []
    ensures var r := Retrying(k, cfg, s, suite, ch, share); r.Ok? ==> Seed(k, cfg, r.value.0.keys.sched, true)
  {
    hide EncodeRetry, CookieFor, Signable, ToBeSigned, HashMessage;
  }

  lemma OnHelloSeeds(k: Crypto, cfg: Config, s: Server, received: ClientHello, w: Reply)
    requires cfg.suites != [] && Inv(cfg, s) && Seeded(k, cfg, s)
    requires HelloExpected(s)
    ensures var r := OnHello(k, cfg, s, received, w); r.Ok? ==> Seeded(k, cfg, r.value.0)
  {
    hide Negotiated, Retrying, SuiteFor, ShareFor, ParseCookie, HelloError, FromCookie, CookieSignature, Signable, Seed;
    var ch := Masked(cfg, received);
    var cs := SuiteFor(cfg, ch.suites);
    if OnHello(k, cfg, s, received, w).Ok? {
      var share := ShareFor(cfg, ch);
      if s.state.ExpectSecondClientHello? {
        NegotiatedKeeps(k, cfg, s, ch, share, true, w);
      } else {
        var n := s.(random := ch.random, suite := cs, keys := s.keys.(sched := New(cs, [])));
        NewSeed(k, cfg, cs.value);
        var parsed := ParsedOf(ch);
        if parsed.Some? && share.Some? {
          var c, g := parsed.value, share.value.group;
          CookieGeneration(k, cfg, cs.value, ch.sessionId, c, g);
          NegotiatedKeeps(k, cfg, n.(keys := n.keys.(sched := FromCookie(k, cfg, cs.value, ch.sessionId, c, g))), ch,
            share, true,
            w);
        } else {
          RetrySeeds(k, cfg, n, cs.value, ch, share);
          NegotiatedKeeps(k, cfg, n, ch, share, false, w);
        }
      }
    }
  }

  lemma NewSeed(k: Crypto, cfg: Config, suite: Suite)
    ensures Seed(k, cfg, New(Some(suite), []), false)
  {}

  // ---------------------------------------------------------------- every step

  // The message is a ClientHello that is looked at, and not refused at once.
  predicate Hellos(cfg: Config, s: Server, m: Message, end: bool)
  {
    && HelloExpected(s) && m.Hello? && end
    && Passes(cfg, s, Masked(cfg, m.ch))
  }

  /** A cookie is signed or checked with a block of 255 bytes or more, or a ServerHello is to be sent that is
      larger than a record, or tickets that cannot be encrypted. */
  predicate Asserts(k: Crypto, cfg: Config, s: Server, m: Message, end: bool, w: Reply)
    requires cfg.suites != []
  {
    && Hellos(cfg, s, m, end)
    && var ch := Masked(cfg, m.ch);
    && var tbs, reached := Signed(k, cfg, s, ch), Reached(k, cfg, s, ch);
    || (tbs.Some? && cfg.cookieKey.Some? && !Signable(cfg, ch.random, tbs.value))
    || (&& reached.Some?
        && var f := PskFor(k, cfg, SuiteFor(cfg, ch.suites).value, ch, reached.value.1);
        && Accepted(k, cfg, reached.value.0, ch, f)
        && Unsendable(cfg, ch, ShareFor(cfg, ch), f, w))
  }

  /** Every accepted message keeps epochs and generations in step with the state, and an assertion of the
      source fails if and only if that condition holds. */
  lemma StepKeeps(k: Crypto, cfg: Config, s: Server, m: Message, end: bool, w: Reply)
    requires cfg.suites != [] && Inv(cfg, s) && Seeded(k, cfg, s)
    ensures var r := Step(k, cfg, s, m, end, w); r.Ok? ==> Inv(cfg, r.value.0) && Seeded(k, cfg, r.value.0)
    ensures Step(k, cfg, s, m, end, w) == Err(Assertion) <==> Asserts(k, cfg, s, m, end, w)
  {
    hide Step, Inv, SuiteFor, ShareFor, Accepted, Unsendable, Verifies, Answered, PskFor, ParseCookie, FromCookie,
      CookieSignature, Signable;
    StepEnds(k, cfg, s, m, end, w);
    StepSeeds(k, cfg, s, m, end, w);
  }

  // The hello is answered: with a ServerHello and what follows, or with a retry that keeps state.
  predicate Answerable(k: Crypto, cfg: Config, s: Server, ch: ClientHello, w: Reply)
    requires cfg.suites != [] && Passes(cfg, s, ch)
  {
    var reached := Reached(k, cfg, s, ch);
    if reached.Some? then
      var f, share := PskFor(k, cfg, SuiteFor(cfg, ch.suites).value, ch, reached.value.1), ShareFor(cfg, ch);
      Accepted(k, cfg, reached.value.0, ch, f) && CanGreet(ch, share, f) && !Unsendable(cfg, ch, share, f, w)
    else GetsRetry(cfg, s, ch) && !cfg.retryUsesCookie
  }

  predicate Acceptable(k: Crypto, cfg: Config, s: Server, m: Message, end: bool, w: Reply)
    requires cfg.suites != []
  {
    match s.state
    case ExpectClientHello | ExpectSecondClientHello =>
      Hellos(cfg, s, m, end) && Answerable(k, cfg, s, Masked(cfg, m.ch), w)
    case ExpectCertificate => m.Certificate? && cfg.certificateOk(m.raw)
    case ExpectCertificateVerify =>
      && m.CertificateVerify? && s.keys.sched.slots != []
      && cfg.signatureOk(k.hash(Algo(s.keys.sched), Transcript(s.keys.sched)), m.raw)
    case ExpectEndOfEarlyData => m.EndOfEarlyData?
    case ExpectFinished =>
      && end && m.Finished? && s.keys.sched.slots != []
      && var a, bytes := Algo(s.keys.sched), Transcript(s.keys.sched);
      && |m.raw| == 4 + k.size(a)
      && m.raw[4..] == FinishedOver(k, a, s.keys.dec.secret, bytes)
    case PostHandshake => false
  }

  /** A message is accepted if and only if the state expects it and it passes these checks. */
  lemma StepAccepts(k: Crypto, cfg: Config, s: Server, m: Message, end: bool, w: Reply)
    requires cfg.suites != [] && Inv(cfg, s) && Seeded(k, cfg, s)
    ensures Step(k, cfg, s, m, end, w).Ok? <==> Acceptable(k, cfg, s, m, end, w)
  {
    hide OnHello, Passes, Accepted, CanGreet, Unsendable, Reached, PskFor, SuiteFor, ShareFor, GetsRetry, Signed,
      Answered, Verifies, Covers;
    StepEnds(k, cfg, s, m, end, w);
    if HelloExpected(s) && m.Hello? {
      OnHelloKeeps(k, cfg, s, m.ch, w);
    }
  }

  lemma StepSeeds(k: Crypto, cfg: Config, s: Server, m: Message, end: bool, w: Reply)
    requires cfg.suites != [] && Inv(cfg, s) && Seeded(k, cfg, s)
    ensures var r := Step(k, cfg, s, m, end, w); r.Ok? ==> Seeded(k, cfg, r.value.0)
  {
    hide OnHello, VerifyFinished, TranscriptHash, Seed;
    if m.Hello? && HelloExpected(s) {
      OnHelloSeeds(k, cfg, s, m.ch, w);
    }
  }

  lemma StepEnds(k: Crypto, cfg: Config, s: Server, m: Message, end: bool, w: Reply)
    requires cfg.suites != [] && Inv(cfg, s) && Seeded(k, cfg, s)
    ensures var r := Step(k, cfg, s, m, end, w); r.Ok? ==> Inv(cfg, r.value.0)
    ensures Hellos(cfg, s, m, end) ==>
      Ends(cfg, Step(k, cfg, s, m, end, w), HelloOutcome(k, cfg, s, Masked(cfg, m.ch), w))
    ensures !Hellos(cfg, s, m, end) ==>
      var r := Step(k, cfg, s, m, end, w);
      r.Err? ==> r.error !in {Assertion, ShortBinder, BinderOverflow, UnknownPskIdentity, NoCookieKey}
  {
    hide OnHello, VerifyData, TranscriptHash, HelloOutcome, Passes;
    if m.Hello? && HelloExpected(s) {
      OnHelloKeeps(k, cfg, s, m.ch, w);
    }
  }

  // ---------------------------------------------------------------- binders and cookie keys

  // The binder of the PSK that is found for a hello, with the schedule it is checked against
  datatype Bound = Bound(s: Schedule, f: Found, second: bool)

  function BoundBy(k: Crypto, cfg: Config, s: Server, m: Message, end: bool): (r: Option<Bound>)
    requires cfg.suites != []
    ensures r.Some? ==>
      && Hellos(cfg, s, m, end) && r.value.s.slots != []
      && m.ch.identities.Some? && r.value.f.index < |m.ch.identities.value|
  {
    if !Hellos(cfg, s, m, end) then None
    else
      var ch := Masked(cfg, m.ch);
      var reached := Reached(k, cfg, s, ch);
      if reached.None? then None
      else
        var f := PskFor(k, cfg, SuiteFor(cfg, ch.suites).value, ch, reached.value.1);
        if f.None? then None else Some(Bound(reached.value.0, f.value, reached.value.1))
  }

  // Of a ticket, the binder has the size of the digest.
  lemma {:induction false} TicketBinder(k: Crypto, cfg: Config, suite: Suite, ids: seq<Identity>, early: bool, i: nat)
    requires i <= |ids| && cfg.psk.None?
    ensures var r := FindPsk(k, cfg, suite, ids, early, i); r.Some? ==>
      |ids[r.value.index].binder| == k.size(suite.hash)
    decreases |ids| - i
  {
    if i < |ids| { TicketBinder(k, cfg, suite, ids, early, i + 1); }
  }

  lemma BoundTicket(k: Crypto, cfg: Config, s: Server, m: Message, end: bool)
    requires cfg.suites != [] && cfg.psk.None?
    ensures var b := BoundBy(k, cfg, s, m, end); b.Some? ==> |BinderAt(m.ch, b.value.f)| == k.size(Algo(b.value.s))
  {
    hide FindPsk, SuiteFor, ShareFor, ParseCookie, FromCookie, CookieSignature, Signable, HelloError;
    var b := BoundBy(k, cfg, s, m, end);
    if b.Some? {
      var ch := Masked(cfg, m.ch);
      TicketBinder(k, cfg, SuiteFor(cfg, ch.suites).value, ch.identities.value, ch.early, 0);
    }
  }

  /** The comparison of a binder reads past it if and only if an external PSK is found and its binder is
      shorter than a digest. */
  lemma StepShortBinder(k: Crypto, cfg: Config, s: Server, m: Message, end: bool, w: Reply)
    requires cfg.suites != [] && Inv(cfg, s) && Seeded(k, cfg, s)
    ensures Step(k, cfg, s, m, end, w) == Err(ShortBinder) <==>
      && var b := BoundBy(k, cfg, s, m, end);
      cfg.psk.Some? && b.Some? && !Covers(k, b.value.s, m.ch, b.value.f)
  {
    hide Step, Inv, Passes, Reached, Signed, PskFor, SuiteFor, ShareFor, Accepted, Unsendable, Verifies, Answered;
    StepEnds(k, cfg, s, m, end, w);
    if cfg.psk.None? { BoundTicket(k, cfg, s, m, end); }
  }

  lemma MaskedBinder(k: Crypto, cfg: Config, s: Schedule, ch: ClientHello, f: Found)
    requires s.slots != [] && ch.identities.Some? && f.index < |ch.identities.value|
    ensures Covers(k, s, Masked(cfg, ch), f) == Covers(k, s, ch, f)
    ensures Verifies(k, cfg, s, Masked(cfg, ch), f) == Verifies(k, cfg, s, ch, f)
    ensures Overflows(cfg, Masked(cfg, ch), f) == Overflows(cfg, ch, f)
  {}

  /** A hello is refused with decrypt_error if and only if a PSK is found for it and its binder, of the size of a digest
      or more, does not start with that of the PSK over the truncated hello. */
  lemma StepForgedBinder(k: Crypto, cfg: Config, s: Server, m: Message, end: bool, w: Reply)
    requires cfg.suites != [] && Inv(cfg, s) && Seeded(k, cfg, s)
    requires HelloExpected(s)
    ensures Step(k, cfg, s, m, end, w) == Err(DecryptError) <==>
      && var b := BoundBy(k, cfg, s, m, end);
      b.Some? && Covers(k, b.value.s, m.ch, b.value.f) && !Verifies(k, cfg, b.value.s, m.ch, b.value.f)
  {
    hide Inv, Passes, Reached, Signed, PskFor, SuiteFor, ShareFor, Accepted, Unsendable, Verifies, Covers, Answered,
      OnHello;
    var b := BoundBy(k, cfg, s, m, end);
    if b.Some? {
      MaskedBinder(k, cfg, b.value.s, m.ch, b.value.f);
    }
    StepEnds(k, cfg, s, m, end, w);
    if m.Hello? {
      OnHelloKeeps(k, cfg, s, m.ch, w);
    }
  }

  /** A server with an external PSK answers no hello that does not name it. */
  lemma StepUnknownIdentity(k: Crypto, cfg: Config, s: Server, m: Message, end: bool, w: Reply)
    requires cfg.suites != [] && Inv(cfg, s) && Seeded(k, cfg, s)
    ensures Step(k, cfg, s, m, end, w) == Err(UnknownPskIdentity) <==>
      && cfg.psk.Some? && Hellos(cfg, s, m, end) && Reached(k, cfg, s, Masked(cfg, m.ch)).Some?
      && BoundBy(k, cfg, s, m, end).None?
  {
    hide Step, Inv, Passes, Reached, Signed, PskFor, SuiteFor, ShareFor, Accepted, Unsendable, Verifies, Covers,
      Answered;
    StepEnds(k, cfg, s, m, end, w);
  }

  /** A server resumes after a hello exactly when the binder of the PSK that it found verifies. */
  lemma StepBinds(k: Crypto, cfg: Config, s: Server, m: Message, end: bool, w: Reply)
    requires cfg.suites != [] && Inv(cfg, s) && Seeded(k, cfg, s)
    requires HelloExpected(s)
    requires Step(k, cfg, s, m, end, w).Ok?
    ensures Step(k, cfg, s, m, end, w).value.0.isPsk <==>
      && var b := BoundBy(k, cfg, s, m, end);
      b.Some? && Verifies(k, cfg, b.value.s, m.ch, b.value.f)
  {
    hide Inv, Passes, Reached, Signed, PskFor, SuiteFor, ShareFor, Accepted, Unsendable, Verifies, Covers, Answered,
      OnHello;
    var b := BoundBy(k, cfg, s, m, end);
    if b.Some? {
      MaskedBinder(k, cfg, b.value.s, m.ch, b.value.f);
    }
    StepEnds(k, cfg, s, m, end, w);
    if m.Hello? {
      OnHelloKeeps(k, cfg, s, m.ch, w);
    }
  }

  /** A binder is copied past the end of the buffer in the handshake properties if and only if it verifies,
      has more than 64 bytes, and properties are given; with digests of at most that size this takes an
      external PSK. */
  lemma StepBinderOverflow(k: Crypto, cfg: Config, s: Server, m: Message, end: bool, w: Reply)
    requires cfg.suites != [] && Inv(cfg, s) && Seeded(k, cfg, s)
    ensures Step(k, cfg, s, m, end, w) == Err(BinderOverflow) <==>
      && var b := BoundBy(k, cfg, s, m, end);
      b.Some? && Verifies(k, cfg, b.value.s, m.ch, b.value.f) && Overflows(cfg, m.ch, b.value.f)
    ensures k.Sized() && Step(k, cfg, s, m, end, w) == Err(BinderOverflow) ==> cfg.psk.Some?
  {
    hide Step, Inv, Passes, Reached, Signed, PskFor, SuiteFor, ShareFor, Accepted, Unsendable, Answered;
    StepEnds(k, cfg, s, m, end, w);
    if cfg.psk.None? { BoundTicket(k, cfg, s, m, end); }
  }

  /** A cookie is signed with a key that is not there if and only if a stateless retry is sent without one. */
  lemma StepNoCookieKey(k: Crypto, cfg: Config, s: Server, m: Message, end: bool, w: Reply)
    requires cfg.suites != [] && Inv(cfg, s) && Seeded(k, cfg, s)
    ensures Step(k, cfg, s, m, end, w) == Err(NoCookieKey) <==>
      Hellos(cfg, s, m, end) && GetsRetry(cfg, s, Masked(cfg, m.ch)) && cfg.retryUsesCookie && cfg.cookieKey.None?
  {
    hide Step, Inv, SuiteFor, ShareFor, Accepted, Unsendable, Verifies, Answered, PskFor, ParseCookie, FromCookie,
      CookieSignature, Signable;
    StepEnds(k, cfg, s, m, end, w);
  }

  // ---------------------------------------------------------------- whole runs

  datatype Input = Input(m: Message, end: bool, w: Reply)

  // The server after all of the inputs, or the first error.
  function Run(k: Crypto, cfg: Config, ins: seq<Input>): Result<Server, Error>
    requires cfg.suites != []
    decreases |ins|
  {
    if ins == [] then Ok(NEW_SERVER)
    else
      var n := |ins| - 1;
      var b := Run(k, cfg, ins[..n]);
      if b.Err? then b
      else
        var r := Step(k, cfg, b.value, ins[n].m, ins[n].end, ins[n].w);
        if r.Err? then Err(r.error) else Ok(r.value.0)
  }

  // The i-th input is a Certificate that the verifier took, empty or not.
  ghost predicate TookCertificate(k: Crypto, cfg: Config, ins: seq<Input>, i: nat)
    requires cfg.suites != []
  {
    i < |ins| && Run(k, cfg, ins[..i]).Ok? && ins[i].m.Certificate? && cfg.certificateOk(ins[i].m.raw)
  }

  // The j-th input is a signature over the transcript up to there.
  ghost predicate TookSignature(k: Crypto, cfg: Config, ins: seq<Input>, j: nat)
    requires cfg.suites != []
  {
    && j < |ins| && ins[j].m.CertificateVerify?
    && var b := Run(k, cfg, ins[..j]);
    && b.Ok? && b.value.keys.sched.slots != []
    && var a, bytes := Algo(b.value.keys.sched), Transcript(b.value.keys.sched);
    && cfg.signatureOk(k.hash(a, bytes), ins[j].m.raw)
  }

  // The i-th input is a hello whose binder is that of the PSK that was found, over the transcript up to it.
  ghost predicate TookBinder(k: Crypto, cfg: Config, ins: seq<Input>, i: nat)
    requires cfg.suites != []
  {
    && i < |ins|
    && var b := Run(k, cfg, ins[..i]);
    && b.Ok?
    && var bound := BoundBy(k, cfg, b.value, ins[i].m, ins[i].end);
    && bound.Some? && Verifies(k, cfg, bound.value.s, ins[i].m.ch, bound.value.f)
  }

  // The n-th input is the Finished message of the client's handshake key over the transcript up to there.
  ghost predicate TookFinished(k: Crypto, cfg: Config, ins: seq<Input>, n: nat)
    requires cfg.suites != []
  {
    && n < |ins| && ins[n].m.Finished?
    && var b := Run(k, cfg, ins[..n]);
    && b.Ok? && b.value.keys.sched.slots != [] && b.value.keys.dec.epoch == 2
    && var a, bytes := Algo(b.value.keys.sched), Transcript(b.value.keys.sched);
    && |ins[n].m.raw| == 4 + k.size(a) && ins[n].m.raw[4..] == FinishedOver(k, a, b.value.keys.dec.secret, bytes)
  }

  // A Certificate was taken and, unless it was empty, a signature after it.
  ghost predicate Authenticated(k: Crypto, cfg: Config, ins: seq<Input>, n: nat)
    requires cfg.suites != []
  {
    exists i: nat ::
      i < n && TookCertificate(k, cfg, ins, i)
        && (ins[i].m.empty || exists j: nat :: i < j < n && TookSignature(k, cfg, ins, j))
  }

  ghost predicate History(k: Crypto, cfg: Config, ins: seq<Input>, s: Server)
    requires cfg.suites != []
  {
    && (s.state.ExpectCertificateVerify? ==> exists i: nat :: i < |ins| && TookCertificate(k, cfg, ins, i))
    && (s.state.ExpectFinished? && cfg.requireClientAuth ==> Authenticated(k, cfg, ins, |ins|))
    && (s.state.PostHandshake? ==>
          exists n: nat :: TookFinished(k, cfg, ins, n) && (cfg.requireClientAuth ==> Authenticated(k, cfg, ins, n)))
    && (s.isPsk ==> exists i: nat :: TookBinder(k, cfg, ins, i))
  }

  lemma PrefixFacts(k: Crypto, cfg: Config, ins: seq<Input>, n: nat)
    requires cfg.suites != [] && n <= |ins|
    ensures forall i: nat | TookCertificate(k, cfg, ins[..n], i) ::
      i < n && TookCertificate(k, cfg, ins, i) && ins[..n][i] == ins[i]
    ensures forall i: nat | TookSignature(k, cfg, ins[..n], i) :: i < n && TookSignature(k, cfg, ins, i)
    ensures forall i: nat | TookFinished(k, cfg, ins[..n], i) :: i < n && TookFinished(k, cfg, ins, i)
    ensures forall i: nat | TookBinder(k, cfg, ins[..n], i) :: i < n && TookBinder(k, cfg, ins, i)
  {
    hide Run, BoundBy, Verifies;
    forall i: nat | i < n ensures ins[..n][..i] == ins[..i] && ins[..n][i] == ins[i] {}
  }

  lemma PrefixAuthenticated(k: Crypto, cfg: Config, ins: seq<Input>, n: nat, e: nat)
    requires cfg.suites != [] && n <= |ins| && Authenticated(k, cfg, ins[..n], e)
    ensures Authenticated(k, cfg, ins, e)
  {
    hide TookSignature, TookFinished, Run;
    PrefixFacts(k, cfg, ins, n);
    var i: nat :| i < e && TookCertificate(k, cfg, ins[..n], i)
      && (ins[..n][i].m.empty || exists j: nat :: i < j < e && TookSignature(k, cfg, ins[..n], j));
    assert TookCertificate(k, cfg, ins, i);
    if !ins[i].m.empty {
      var j: nat :| i < j < e && TookSignature(k, cfg, ins[..n], j);
      assert TookSignature(k, cfg, ins, j);
    }
  }

  // Which message leads where.
  lemma StepHistory(k: Crypto, cfg: Config, s: Server, m: Message, end: bool, w: Reply)
    requires cfg.suites != [] && Inv(cfg, s) && Seeded(k, cfg, s) && Step(k, cfg, s, m, end, w).Ok?
    ensures var d := Step(k, cfg, s, m, end, w).value.0;
      && (d.state.ExpectCertificateVerify? ==> m.Certificate? && !m.empty && cfg.certificateOk(m.raw))
      && (d.state.ExpectFinished? && cfg.requireClientAuth ==>
            || (m.Certificate? && m.empty && cfg.certificateOk(m.raw))
            || (&& s.state.ExpectCertificateVerify? && m.CertificateVerify? && s.keys.sched.slots != []
                && cfg.signatureOk(TranscriptHash(k, s.keys.sched), m.raw)))
      && (d.state.PostHandshake? ==>
            && s.state.ExpectFinished? && m.Finished? && s.keys.sched.slots != []
            && VerifyFinished(k, s.keys.sched, s.keys.dec.secret, m.raw).None?)
      && (!HelloExpected(s) ==> d.isPsk == s.isPsk)
  {
    hide OnHello, VerifyFinished, TranscriptHash, Seed, HelloOutcome;
    if m.Hello? && HelloExpected(s) {
      OnHelloKeeps(k, cfg, s, m.ch, w);
    }
  }

  /** Every run of a new server keeps the invariant, and a server that completed has verified the
      client's Finished, after a Certificate (and a signature over the transcript, unless it was
      empty) where client authentication is required; one that resumes has verified a binder. */
  lemma {:induction false} RunIsSafe(k: Crypto, cfg: Config, ins: seq<Input>)
    requires cfg.suites != [] && Run(k, cfg, ins).Ok?
    ensures Inv(cfg, Run(k, cfg, ins).value) && Seeded(k, cfg, Run(k, cfg, ins).value)
    ensures History(k, cfg, ins, Run(k, cfg, ins).value)
    decreases |ins|
  {
    hide Step, Inv, Asserts, Seeded, History;
    if ins == [] {
      StartIsSafe(k, cfg);
    } else {
      var n := |ins| - 1;
      var b := Run(k, cfg, ins[..n]).value;
      RunIsSafe(k, cfg, ins[..n]);
      StepKeeps(k, cfg, b, ins[n].m, ins[n].end, ins[n].w);
      HistoryGrows(k, cfg, ins, b);
    }
  }

  lemma StartIsSafe(k: Crypto, cfg: Config)
    requires cfg.suites != []
    ensures Inv(cfg, NEW_SERVER) && Seeded(k, cfg, NEW_SERVER) && History(k, cfg, [], NEW_SERVER)
  {}

  lemma HistoryGrows(k: Crypto, cfg: Config, ins: seq<Input>, b: Server)
    requires cfg.suites != [] && ins != [] && Inv(cfg, b) && Seeded(k, cfg, b)
    requires var n := |ins| - 1; Run(k, cfg, ins[..n]) == Ok(b) && History(k, cfg, ins[..n], b)
    requires Run(k, cfg, ins).Ok?
    ensures History(k, cfg, ins, Run(k, cfg, ins).value)
  {
    hide Step, Inv, Seeded, TookFinished, TookCertificate, TookSignature, TookBinder, BoundBy, Verifies, TranscriptHash,
      VerifyData;
    var n := |ins| - 1;
    var d := Run(k, cfg, ins).value;
    var x := ins[n];
    if d.isPsk {
      LastBinder(k, cfg, ins, b);
    }
    StepHistory(k, cfg, b, x.m, x.end, x.w);
    PrefixFacts(k, cfg, ins, n);
    LastFacts(k, cfg, ins, b);
    if d.state.ExpectCertificateVerify? {
      assert TookCertificate(k, cfg, ins, n);
    } else if d.state.ExpectFinished? && cfg.requireClientAuth {
      if x.m.Certificate? {
        assert TookCertificate(k, cfg, ins, n);
      } else {
        var i: nat :| i < n && TookCertificate(k, cfg, ins[..n], i);
        assert TookCertificate(k, cfg, ins, i) && TookSignature(k, cfg, ins, n);
      }
    } else if d.state.PostHandshake? {
      if cfg.requireClientAuth { PrefixAuthenticated(k, cfg, ins, n, n); }
      assert TookFinished(k, cfg, ins, n);
    }
  }

  lemma LastBinder(k: Crypto, cfg: Config, ins: seq<Input>, b: Server)
    requires cfg.suites != [] && ins != [] && Inv(cfg, b) && Seeded(k, cfg, b)
    requires var n := |ins| - 1; Run(k, cfg, ins[..n]) == Ok(b) && History(k, cfg, ins[..n], b)
    requires Run(k, cfg, ins).Ok? && Run(k, cfg, ins).value.isPsk
    ensures exists i: nat :: TookBinder(k, cfg, ins, i)
  {
    hide Step, Inv, Seeded, TookFinished, TookCertificate, TookSignature, BoundBy, Verifies, Authenticated;
    var n := |ins| - 1;
    var x := ins[n];
    if HelloExpected(b) {
      StepBinds(k, cfg, b, x.m, x.end, x.w);
      assert TookBinder(k, cfg, ins, n);
    } else {
      StepHistory(k, cfg, b, x.m, x.end, x.w);
      PrefixFacts(k, cfg, ins, n);
      var i: nat :| TookBinder(k, cfg, ins[..n], i);
      assert TookBinder(k, cfg, ins, i);
    }
  }

  lemma LastFacts(k: Crypto, cfg: Config, ins: seq<Input>, b: Server)
    requires cfg.suites != [] && ins != [] && Inv(cfg, b) && Run(k, cfg, ins[..|ins| - 1]) == Ok(b)
    ensures var m := ins[|ins| - 1].m;
      && (m.Certificate? && cfg.certificateOk(m.raw) ==> TookCertificate(k, cfg, ins, |ins| - 1))
      && ((m.CertificateVerify? && b.keys.sched.slots != [] && cfg.signatureOk(TranscriptHash(k, b.keys.sched), m.raw))
          ==> TookSignature(k, cfg, ins, |ins| - 1))
      && ((m.Finished? && b.state.ExpectFinished? && b.keys.sched.slots != []
           && VerifyFinished(k, b.keys.sched, b.keys.dec.secret, m.raw).None?)
          ==> TookFinished(k, cfg, ins, |ins| - 1))
  {
    hide Run;
  }
}
