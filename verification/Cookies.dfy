/** Stateless HelloRetryRequest: a server that knows only its key and the cookie continues
    as the server that sent the retry would have. */
module Cookies {
  import opened Results
  import opened Wire
  import opened KeySchedule
  import opened Messages
  import C = TlsClient
  import S = TlsServer
  import A = Agreement

  // ---------------------------------------------------------------- the encoding

  lemma CookieRoundTrip(ch1Hash: Data, sentKeyShare: bool, signature: Data)
    requires |ch1Hash| <= 255 && |signature| <= 255
    ensures var tbs := ToBeSigned(ch1Hash, sentKeyShare);
      var all := EncodeCookie(tbs, signature);
      ParseCookie(all) == Some(Cookie(all, tbs, ch1Hash, sentKeyShare, signature))
  {
    var flag: Data := [if sentKeyShare then 1 else 0];
    var inner := Block1(ch1Hash) + flag;
    var tbs := ToBeSigned(ch1Hash, sentKeyShare);
    var body := tbs + Block1(signature);
    var all := EncodeCookie(tbs, signature);
    Open2Of(body, []);
    assert Block2(body) + [] == all;
    Open2Of(inner, Block1(signature));
    Open1Of(ch1Hash, flag);
    Open1Of(signature, []);
    assert Block1(signature) + [] == Block1(signature);
    assert body[..|body| - |Block1(signature)|] == tbs;
  }

  // A block followed by anything determines the block and what follows.
  lemma Block1Injective(a: Data, x: Data, b: Data, y: Data)
    requires |a| < 256 && |b| < 256 && Block1(a) + x == Block1(b) + y
    ensures a == b && x == y
  {
    Open1Of(a, x);
    Open1Of(b, y);
  }

  lemma Be16Injective(a: nat, x: Data, b: nat, y: Data)
    requires a < 65536 && b < 65536 && Be16(a) + x == Be16(b) + y
    ensures a == b && x == y
  {
    var l, r := Be16(a) + x, Be16(b) + y;
    assert l[0] == Be16(a)[0] && l[1] == Be16(a)[1] && r[0] == Be16(b)[0] && r[1] == Be16(b)[1];
    Number16Of(a);
    Number16Of(b);
    assert l[2..] == x && r[2..] == y;
  }

  predicate Encodable(c: CookieContext, tbs: Data)
  {
    && |c.random| < 255 && |c.serverName| < 255 && |c.extra| < 255 && |tbs| < 255
    && c.suite < 65536 && c.group < 65536
  }

  // The bytes that are signed determine everything that is signed.
  lemma SignedBytesInjective(c: CookieContext, t: Data, d: CookieContext, u: Data)
    requires Encodable(c, t) && Encodable(d, u) && SignedBytes(c, t) == SignedBytes(d, u)
    ensures c == d && t == u
  {
    hide Block1, Be16;
    var c5, d5 := Block1(t), Block1(u);
    var c4, d4 := Block1(c.extra) + c5, Block1(d.extra) + d5;
    var c3, d3 := Be16(c.group) + c4, Be16(d.group) + d4;
    var c2, d2 := Be16(c.suite) + c3, Be16(d.suite) + d3;
    var c1, d1 := Block1(c.serverName) + c2, Block1(d.serverName) + d2;
    assert SignedBytes(c, t) == Block1(c.random) + c1;
    assert SignedBytes(d, u) == Block1(d.random) + d1;
    Block1Injective(c.random, c1, d.random, d1);
    Block1Injective(c.serverName, c2, d.serverName, d2);
    Be16Injective(c.suite, c3, d.suite, d3);
    Be16Injective(c.group, c4, d.group, d4);
    Block1Injective(c.extra, c5, d.extra, d5);
    assert c5 + [] == c5 && d5 + [] == d5;
    Block1Injective(t, [], u, []);
  }

  // ---------------------------------------------------------------- soundness

  // The two messages have different MACs, unless they are the same.
  ghost predicate NoCollision(k: Crypto, cfg: S.Config, m: Data, n: Data)
    requires cfg.suites != [] && cfg.cookieKey.Some?
  {
    k.hmac(cfg.suites[0].hash, cfg.cookieKey.value, m) == k.hmac(cfg.suites[0].hash, cfg.cookieKey.value, n) ==> m == n
  }

  function ContextOf(cfg: S.Config, ch: ClientHello, suite: nat, group: nat): CookieContext
  {
    CookieContext(ch.random, cfg.serverName, suite, group, cfg.cookieExtra)
  }

  /** A cookie whose signature the server once issued, and that the server accepts, is the
      cookie it issued: for the same client random, suite, group and ClientHello hash. */
  lemma AcceptedCookieWasIssued(k: Crypto, cfg: S.Config, issued: CookieContext, tbs: Data, ch: ClientHello,
      cookie: Cookie, suite: nat, group: nat)
    requires cfg.suites != [] && cfg.cookieKey.Some?
    requires Encodable(issued, tbs) && Encodable(ContextOf(cfg, ch, suite, group), cookie.tbs)
    requires cookie.signature == k.hmac(cfg.suites[0].hash, cfg.cookieKey.value, SignedBytes(issued, tbs))
    requires cookie.signature == S.CookieSignature(k, cfg, ch.random, suite, group, cookie.tbs)
    requires NoCollision(k, cfg, SignedBytes(issued, tbs), SignedBytes(ContextOf(cfg, ch, suite, group), cookie.tbs))
    ensures issued == ContextOf(cfg, ch, suite, group) && tbs == cookie.tbs
  {
    SignedBytesInjective(issued, tbs, ContextOf(cfg, ch, suite, group), cookie.tbs);
  }

  // The signed part determines the ClientHello hash and the key_share flag.
  lemma ToBeSignedInjective(h: Data, f: bool, g: Data, e: bool)
    requires |h| < 255 && |g| < 255 && ToBeSigned(h, f) == ToBeSigned(g, e)
    ensures h == g && f == e
  {
    var x, y: Data := [if f then 1 else 0], [if e then 1 else 0];
    Open2Of(Block1(h) + x, []);
    Open2Of(Block1(g) + y, []);
    assert ToBeSigned(h, f) + [] == ToBeSigned(h, f) && ToBeSigned(g, e) + [] == ToBeSigned(g, e);
    Block1Injective(h, x, g, y);
    assert x[0] == y[0];
  }

  // ---------------------------------------------------------------- equivalence with kept state

  // The fields of the two hellos of a client that follows a retry for suite and group.
  ghost predicate Retries(cfg: S.Config, ch1: ClientHello, ch2: ClientHello, suite: Suite)
  {
    && ch2.random == ch1.random
    && ch2.sessionId == ch1.sessionId
    && S.SuiteFor(cfg, ch2.suites) == Some(suite)
    && S.ShareFor(cfg, ch2).Some?
  }

  /** The cookie is accepted exactly for the group that was signed; the retry rebuilt from it is
      then byte for byte the one that was sent, and the schedule is that of a server that kept
      its state. */
  lemma CookieEquivalent(k: Crypto, cfg: S.Config, suite: Suite, ch1: ClientHello, ch2: ClientHello, group: nat,
      share: Option<Share>)
    requires k.Sized() && cfg.suites != [] && cfg.cookieKey.Some?
    requires Retries(cfg, ch1, ch2, suite)
    requires suite.id < 65536 && group < 65536 && S.ShareFor(cfg, ch2).value.group < 65536
    requires S.Signable(cfg, ch1.random, ToBeSigned(k.hash(suite.hash, ch1.Raw()), share.None?))
    requires var all := S.CookieFor(k, cfg, suite, ch1, group, share.None?);
      var tbs := ToBeSigned(k.hash(suite.hash, ch1.Raw()), share.None?);
      && ch2.cookie == Some(all)
      && NoCollision(k, cfg, SignedBytes(ContextOf(cfg, ch1, suite.id, group), tbs),
                     SignedBytes(ContextOf(cfg, ch2, suite.id, S.ShareFor(cfg, ch2).value.group), tbs))
    ensures var all := S.CookieFor(k, cfg, suite, ch1, group, share.None?);
      var retry := EncodeRetry(ch1.sessionId, suite.id, if share.Some? then None else Some(group), Some(all));
      var g := S.ShareFor(cfg, ch2).value.group;
      && ParseCookie(all).Some?
      && var c := ParseCookie(all).value;
      && c.tbs == ToBeSigned(k.hash(suite.hash, ch1.Raw()), share.None?)
      && (c.signature == S.CookieSignature(k, cfg, ch2.random, suite.id, g, c.tbs) <==> g == group)
      && (g == group ==>
            && EncodeRetry(ch2.sessionId, suite.id, if c.sentKeyShare then Some(g) else None, Some(c.all)) == retry
            && S.FromCookie(k, cfg, suite, ch2.sessionId, c, g) == S.AfterRetry(k, cfg, suite, ch1, retry))
  {
    hide EncodeRetry, SignedBytes, S.SuiteFor, S.ShareFor, ParseCookie, Update, New;
    var h := k.hash(suite.hash, ch1.Raw());
    var tbs := ToBeSigned(h, share.None?);
    var sig := S.CookieSignature(k, cfg, ch1.random, suite.id, group, tbs);
    CookieRoundTrip(h, share.None?, sig);
    var all := S.CookieFor(k, cfg, suite, ch1, group, share.None?);
    assert all == EncodeCookie(tbs, sig);
    var c := ParseCookie(all).value;
    var g := S.ShareFor(cfg, ch2).value.group;
    assert |tbs| < 255;
    if c.signature == S.CookieSignature(k, cfg, ch2.random, suite.id, g, c.tbs) {
      SignedBytesInjective(ContextOf(cfg, ch1, suite.id, group), tbs, ContextOf(cfg, ch2, suite.id, g), tbs);
    }
    if g == group {
      var retry := EncodeRetry(ch1.sessionId, suite.id, if share.Some? then None else Some(group), Some(all));
      FromCookieIsEarly(k, cfg, suite, ch1, ch2, c, g, retry);
    }
  }

  lemma FromCookieIsEarly(k: Crypto, cfg: S.Config, suite: Suite, ch1: ClientHello, ch2: ClientHello, c: Cookie, g: nat,
      retry: Data)
    requires c.ch1Hash == k.hash(suite.hash, ch1.Raw())
    requires EncodeRetry(ch2.sessionId, suite.id, if c.sentKeyShare then Some(g) else None, Some(c.all)) == retry
    ensures S.FromCookie(k, cfg, suite, ch2.sessionId, c, g) == S.AfterRetry(k, cfg, suite, ch1, retry)
  {
    hide EncodeRetry, Update, New;
    var m := HashMessage(k, suite.hash, c.ch1Hash);
    A.NewUpdate(suite, m);
    A.EarlyUpdate(k, suite.hash, m, S.ExternalSecret(cfg), retry);
    A.ServerRetried(k, cfg, suite, ch1, retry);
  }

  // ---------------------------------------------------------------- whole runs

  // Numbers and strings that fit the fields they are written to.
  ghost predicate Fits(k: Crypto, cfg: S.Config)
  {
    && k.Sized()
    && cfg.suites != [] && cfg.cookieKey.Some?
    && (forall s | s in cfg.suites :: s.id < 65536)
    && (forall g | g in cfg.groups :: g < 65536)
  }

  // What the server signs of a hello fits; so it depends on the random and the configuration.
  lemma SmallToBeSigned(k: Crypto, cfg: S.Config, algo: nat, bytes: Data, flag: bool, random: Data)
    requires k.Sized()
    ensures |ToBeSigned(k.hash(algo, bytes), flag)| < 255
    ensures S.Signable(cfg, random, ToBeSigned(k.hash(algo, bytes), flag)) <==> S.Signable(cfg, random, [])
  {}

  /** A HelloRetryRequest is never larger than a record, with the session id that a hello can have. */
  lemma RetryFitsRecord(k: Crypto, cfg: S.Config, suite: Suite, ch: ClientHello, group: nat, named: Option<nat>,
      flag: bool)
    requires k.Sized() && cfg.suites != [] && cfg.cookieKey.Some? && |ch.sessionId| <= 32
    ensures |EncodeRetry(ch.sessionId, suite.id, named, None)| <= MAX_PLAINTEXT
    ensures |EncodeRetry(ch.sessionId, suite.id, named, Some(S.CookieFor(k, cfg, suite, ch, group, flag)))|
      <= MAX_PLAINTEXT
  {
    hide SignedBytes;
    CookieSize(k, cfg, suite, ch, group, flag);
  }

  lemma CookieSize(k: Crypto, cfg: S.Config, suite: Suite, ch: ClientHello, group: nat, flag: bool)
    requires k.Sized() && cfg.suites != [] && cfg.cookieKey.Some?
    ensures 2 <= |S.CookieFor(k, cfg, suite, ch, group, flag)| <= 7 + 2 * MAX_DIGEST
  {
    hide SignedBytes;
  }

  /** A fresh server given the second hello with a cookie does what the server would do that kept
      its state, and answers alike. */
  lemma FreshServerEquivalent(k: Crypto, cfg: S.Config, suite: Suite, ch1: ClientHello, ch2: ClientHello, c: Cookie,
      retry: Data, w: S.Reply)
    requires cfg.suites != [] && cfg.cookieKey.Some?
    requires !ch2.early && ch2.random == ch1.random && ch2.cookie.Some? && ParseCookie(ch2.cookie.value) == Some(c)
    requires S.SuiteFor(cfg, ch2.suites) == Some(suite) && S.ShareFor(cfg, S.Masked(cfg, ch2)).Some?
    requires var g := S.ShareFor(cfg, S.Masked(cfg, ch2)).value.group;
      && S.Signable(cfg, ch2.random, c.tbs)
      && c.signature == S.CookieSignature(k, cfg, ch2.random, suite.id, g, c.tbs)
      && S.FromCookie(k, cfg, suite, ch2.sessionId, c, g) == S.AfterRetry(k, cfg, suite, S.Masked(cfg, ch1), retry)
    ensures S.OnHello(k, cfg, S.NEW_SERVER, ch2, w) == S.OnHello(k, cfg, A.KeptState(k, cfg, ch1, suite, retry), ch2, w)
  {
    hide S.Negotiated, S.SuiteFor, S.ShareFor, S.FromCookie, S.AfterRetry, S.CookieSignature, ParseCookie, S.Retrying,
      New;
    var s := A.KeptState(k, cfg, ch1, suite, retry);
    var m := S.Masked(cfg, ch2);
    var share := S.ShareFor(cfg, m);
    NegotiatedIgnoresState(k, cfg, s, S.ExpectClientHello, m, share, w);
  }

  // The state is replaced when the handshake is answered.
  lemma NegotiatedIgnoresState(k: Crypto, cfg: S.Config, s: S.Server, state: S.State, ch: ClientHello,
      share: Option<Share>, w: S.Reply)
    requires s.keys.sched.slots != [] && s.suite.Some?
    ensures S.Negotiated(k, cfg, s, ch, share, true, w) == S.Negotiated(k, cfg, s.(state := state), ch, share, true, w)
  {
    hide S.PskFor, S.HelloHashed, S.Respond;
    var f := S.PskFor(k, cfg, s.suite.value, ch, true);
    var h := S.HelloHashed(k, cfg, s.keys.sched, ch, f, true);
    if h.Ok? {
      var x := s.(keys := s.keys.(sched := h.value), group := if f.Some? then f.value.group else None);
      RespondIgnoresState(k, cfg, x, state, ch, share, f, w);
    }
  }

  lemma RespondIgnoresState(k: Crypto, cfg: S.Config, s: S.Server, state: S.State, ch: ClientHello,
      share: Option<Share>, f: Option<S.Found>, w: S.Reply)
    requires s.keys.sched.slots != [] && s.suite.Some?
    ensures S.Respond(k, cfg, s, ch, share, f, w) == S.Respond(k, cfg, s.(state := state), ch, share, f, w)
  {
    hide S.Greet, S.Finish, UpdateAll, S.Flight;
    GreetKeepsState(k, cfg, s, state, ch, share, f, w);
    var g := S.Greet(k, cfg, s, ch, share, f, w);
    if g.Ok? {
      var z := g.value.0;
      var flight := S.Flight(k, cfg, z.keys.sched, z.keys.pending.Some?, S.ModeOf(ch, f), w);
      FinishIgnoresState(k, cfg, z.(keys := z.keys.(sched := UpdateAll(z.keys.sched, flight))), state);
    }
  }

  lemma GreetKeepsState(k: Crypto, cfg: S.Config, s: S.Server, state: S.State, ch: ClientHello, share: Option<Share>,
      f: Option<S.Found>, w: S.Reply)
    requires s.keys.sched.slots != [] && s.suite.Some?
    ensures var g := S.Greet(k, cfg, s, ch, share, f, w);
      S.Greet(k, cfg, s.(state := state), ch, share, f, w)
        == (if g.Ok? then Ok((g.value.0.(state := state), g.value.1)) else g)
  {
    hide S.EarlyKeys, S.HandshakeKeys, Extract, Update, S.TicketCount, S.AcceptsEarly;
  }

  lemma FinishIgnoresState(k: Crypto, cfg: S.Config, s: S.Server, state: S.State)
    requires s.keys.sched.slots != []
    ensures S.Finish(k, cfg, s) == S.Finish(k, cfg, s.(state := state))
  {
    hide S.ApplicationKeys, Extract, Update, Derive, S.SendTickets, FinishedMessage;
  }

  // The HelloRetryRequest with a cookie, as the client decodes it.
  function RetryWithCookie(k: Crypto, cfg: S.Config, suite: Suite, ch: ClientHello, group: nat): Message
    requires cfg.suites != [] && cfg.cookieKey.Some?
  {
    var share := S.ShareFor(cfg, ch);
    var all := S.CookieFor(k, cfg, suite, ch, group, share.None?);
    var g := if share.Some? then None else Some(group);
    Retry(EncodeRetry(ch.sessionId, suite.id, g, Some(all)), ch.sessionId, suite.id, g, Some(all[2..]))
  }

  /** What a server that keeps no state sends instead of answering is that message, for a group of
      its own that the client supports, and for the cipher suite it would select again. */
  lemma StatelessRetrySent(k: Crypto, cfg: S.Config, ch: ClientHello, w: S.Reply, raw: Data) returns (suite: Suite,
      group: nat)
    requires cfg.suites != [] && S.OnHello(k, cfg, S.NEW_SERVER, ch, w) == Err(StatelessRetry(raw))
    ensures cfg.cookieKey.Some? && cfg.retryUsesCookie && S.SuiteFor(cfg, ch.suites) == Some(suite)
    ensures ch.groups.Some? && group in cfg.groups && group in ch.groups.value
    ensures raw == RetryWithCookie(k, cfg, suite, S.Masked(cfg, ch), group).raw
  {
    hide S.SuiteFor, S.ShareFor, S.CookieSignature, S.FromCookie, S.CookieFor, S.AfterRetry, ParseCookie, EncodeRetry,
      S.SelectGroup, S.Negotiated;
    var m := S.Masked(cfg, ch);
    var cs, share := S.SuiteFor(cfg, ch.suites), S.ShareFor(cfg, m);
    if cs.Some? {
      var n := S.NEW_SERVER.(random := m.random, suite := cs, keys := NO_KEYS.(sched := New(cs, [])));
      NegotiatedAnswers(k, cfg, n, m, share, false, w);
      var c := if m.cookie.Some? then ParseCookie(m.cookie.value) else None;
      if c.Some? && share.Some? {
        var r := n.(keys := n.keys.(sched := S.FromCookie(k, cfg, cs.value, m.sessionId, c.value, share.value.group)));
        NegotiatedAnswers(k, cfg, r, m, share, true, w);
      }
      suite := cs.value;
      group := S.SelectGroup(cfg.groups, ch.groups.value).value;
    }
  }

  // Negotiation never ends in a stateless retry.
  lemma NegotiatedAnswers(k: Crypto, cfg: S.Config, s: S.Server, ch: ClientHello, share: Option<Share>, second: bool,
      w: S.Reply)
    requires s.suite.Some? && s.keys.sched.slots != []
    ensures var r := S.Negotiated(k, cfg, s, ch, share, second, w); r.Err? ==> !r.error.StatelessRetry?
  {
    hide S.PskFor, S.EarlyKeys, S.HandshakeKeys, S.TicketCount, S.SendTickets, S.ApplicationKeys, Extract, Update,
      UpdateAll, FinishedMessage, S.Flight;
  }

  lemma EchoedCookie(k: Crypto, cfg: S.Config, suite: Suite, ch: ClientHello, group: nat, sent: bool)
    requires cfg.suites != [] && cfg.cookieKey.Some?
    ensures var all := S.CookieFor(k, cfg, suite, ch, group, sent); Block2(all[2..]) == all
  {
    hide S.CookieSignature, ToBeSigned;
    var all := S.CookieFor(k, cfg, suite, ch, group, sent);
    var tbs := ToBeSigned(k.hash(suite.hash, ch.Raw()), sent);
    var body := tbs + Block1(S.CookieSignature(k, cfg, ch.random, suite.id, group, tbs));
    assert all == Be16(|body|) + body;
    assert all[2..] == body;
  }

  lemma RetriedHelloEchoes(k: Crypto, cfg: C.Config, c: C.Client, m: Message, w: C.Draw)
    requires cfg.Valid() && m.Retry? && C.OnRetry(k, cfg, c, m, w).Ok?
    ensures C.OnRetry(k, cfg, c, m, w).value.1.cookie == (if m.cookie.Some? then Some(Block2(m.cookie.value)) else None)
  {
    hide SelectCipher, Extract, Update, C.Prepared, C.BinderOf, C.OfferOf;
  }

  // A cookie that is accepted comes with a usable share and a matching signature.
  lemma AcceptedHello(k: Crypto, cfg: S.Config, ch: ClientHello, w: S.Reply)
    requires cfg.suites != [] && cfg.retryUsesCookie && cfg.cookieKey.Some? && cfg.groups != []
    requires ch.cookie.Some? && ch.shares.Some? && S.OnHello(k, cfg, S.NEW_SERVER, ch, w).Ok?
    ensures ParseCookie(ch.cookie.value).Some?
    ensures S.SuiteFor(cfg, ch.suites).Some? && S.ShareFor(cfg, S.Masked(cfg, ch)).Some?
    ensures S.Signable(cfg, ch.random, ParseCookie(ch.cookie.value).value.tbs)
    ensures var c := ParseCookie(ch.cookie.value).value;
      c.signature == S.CookieSignature(k, cfg, ch.random, S.SuiteFor(cfg, ch.suites).value.id,
                                       S.ShareFor(cfg, S.Masked(cfg, ch)).value.group, c.tbs)
  {
    hide S.Negotiated, S.SuiteFor, S.ShareFor, S.FromCookie, S.CookieSignature, ParseCookie, New, EncodeRetry,
      S.CookieFor;
  }

  /** Honest runs with a stateless retry: the server that answers the second hello is not the one
      that sent the retry, and still both ends agree. */
  lemma {:induction false} CookieRunAgrees(k: Crypto, cc: C.Config, sc: S.Config, x: A.Choices, c: C.Client,
      ch: ClientHello, suite: Suite, group: nat, c2: C.Client, ch2: ClientHello, s1: S.Server, ms: seq<Message>,
      c1: C.Client, out: seq<Message>,
      t: S.Server)
    requires cc.Valid() && x.last.Valid() && A.Compatible(cc, sc) && Fits(k, sc)
    requires sc.retryUsesCookie && group in sc.groups
    requires C.SendHello(k, cc, C.NEW_CLIENT, x.first, None) == Ok((c, ch)) && S.SuiteFor(sc, ch.suites) == Some(suite)
    requires C.OnRetry(k, cc, c, RetryWithCookie(k, sc, suite, S.Masked(sc, ch), group), x.second) == Ok((c2, ch2))
    requires S.OnHello(k, sc, S.NEW_SERVER, ch2, x.reply) == Ok((s1, ms))
    requires A.FeedClient(k, cc, c2, ms, x.second, x.last) == Ok((c1, out))
    requires A.FeedServer(k, sc, s1, out, x.reply) == Ok(t)
    requires var tbs := ToBeSigned(k.hash(suite.hash, ch.Raw()), S.ShareFor(sc, S.Masked(sc, ch)).None?);
      S.ShareFor(sc, S.Masked(sc, ch2)).Some? ==>
        NoCollision(k, sc, SignedBytes(ContextOf(sc, ch, suite.id, group), tbs),
                    SignedBytes(ContextOf(sc, ch2, suite.id, S.ShareFor(sc, S.Masked(sc, ch2)).value.group), tbs))
    ensures A.Agreed(cc, sc, c1.keys, t.keys)
    ensures c1.state == C.PostHandshake && t.state == S.PostHandshake
    ensures A.Redeemable(cc, sc, c1, t)
  {
    hide C.SendHello, C.OnRetry, S.OnHello, A.FeedClient, A.FeedServer, A.Agreed, A.Redeemable, A.Compatible,
      S.SuiteFor, S.ShareFor;
    hide A.KeptState, S.CookieFor, ToBeSigned, SignedBytes, EncodeRetry, A.Ready, ParseCookie, S.CookieSignature,
      S.FromCookie, S.AfterRetry;
    var m1 := S.Masked(sc, ch);
    var retry := RetryWithCookie(k, sc, suite, m1, group);
    A.FirstHello(k, cc, x.first);
    A.FirstEarlyKeys(k, cc, x.first);
    A.FirstHelloMessage(k, cc, x.first);
    A.ClientRetried(k, cc, c, retry, x.second, ch.Raw(), A.OfferedSecret(cc));
    RetriedHelloEchoes(k, cc, c, retry, x.second);
    EchoedCookie(k, sc, suite, m1, group, S.ShareFor(sc, m1).None?);
    AcceptedHello(k, sc, ch2, x.reply);
    var m2 := S.Masked(sc, ch2);
    var g := S.ShareFor(sc, m2).value.group;
    ShareFits(sc, m2);
    SmallToBeSigned(k, sc, suite.hash, m1.Raw(), S.ShareFor(sc, m1).None?, m1.random);
    SignableParts(sc, ch2.random, ParseCookie(ch2.cookie.value).value.tbs);
    CookieEquivalent(k, sc, suite, m1, m2, group, S.ShareFor(sc, m1));
    var all := S.CookieFor(k, sc, suite, m1, group, S.ShareFor(sc, m1).None?);
    FreshServerEquivalent(k, sc, suite, ch, ch2, ParseCookie(all).value, retry.raw, x.reply);
    var s := A.KeptState(k, sc, ch, suite, retry.raw);
    A.RetriedAgrees(k, cc, sc, x.first, c, ch, suite, retry, s, x.second, c2, ch2, x.reply, s1, ms, c1, out, t, x.last);
  }

  lemma SignableParts(cfg: S.Config, random: Data, tbs: Data)
    requires S.Signable(cfg, random, tbs)
    ensures S.Signable(cfg, random, [])
  {}

  lemma ShareFits(cfg: S.Config, ch: ClientHello)
    requires S.ShareFor(cfg, ch).Some?
    ensures S.ShareFor(cfg, ch).value.group in cfg.groups
  {}
}
