/** Whole runs over a stateless retry: when they complete, and that they agree. */
module CookieRuns {
  import opened Results
  import opened Wire
  import opened KeySchedule
  import opened Messages
  import opened Agreement
  import opened Completion
  import opened Cookies
  import C = TlsClient
  import S = TlsServer

  /** A run in which one server sends a retry with a cookie and keeps nothing, and another server answers
      the second hello. */
  function CookieRun(k: Crypto, cc: C.Config, sc: S.Config, x: Choices): Result<(C.Client, S.Server), Error>
    requires cc.Valid() && sc.suites != [] && sc.cookieKey.Some?
  {
    var h := C.SendHello(k, cc, C.NEW_CLIENT, x.first, None);
    if h.Err? then Err(h.error)
    else
      var ch := h.value.1;
      var cs := S.SuiteFor(sc, ch.suites);
      var g := if ch.groups.Some? then S.SelectGroup(sc.groups, ch.groups.value) else None;
      if cs.None? || g.None? then Err(HandshakeFailure)
      else
        var retry := RetryWithCookie(k, sc, cs.value, S.Masked(sc, ch), g.value);
        var o := S.OnHello(k, sc, S.NEW_SERVER, ch, x.reply);
        if o != Err(StatelessRetry(retry.raw)) then Err(if o.Err? then o.error else UnexpectedMessage)
        else
          var r := C.OnRetry(k, cc, h.value.0, retry, x.second);
          if r.Err? then Err(r.error) else Conclude(k, cc, sc, r.value.0, r.value.1, S.NEW_SERVER, x)
  }

  // The key share of the first hello that the server can use
  function FirstShare(k: Crypto, cc: C.Config, sc: S.Config, x: Choices): Option<Share>
    requires cc.Valid()
  {
    var h := C.SendHello(k, cc, C.NEW_CLIENT, x.first, None);
    if h.Err? then None else S.ShareFor(sc, S.Masked(sc, h.value.1))
  }

  // A server that answers the first hello with a cookie
  ghost predicate RetriesStateless(k: Crypto, cc: C.Config, sc: S.Config, x: Choices)
    requires cc.Valid()
  {
    sc.retryUsesCookie && sc.cookieKey.Some? && (FirstShare(k, cc, sc, x).None? || sc.enforceRetry)
  }

  /** The HMAC tells the group that is signed from the group of the key share of the first hello. */
  ghost predicate TellsGroups(k: Crypto, cc: C.Config, sc: S.Config, x: Choices)
    requires cc.Valid() && sc.suites != [] && sc.cookieKey.Some?
  {
    var h := C.SendHello(k, cc, C.NEW_CLIENT, x.first, None);
    var share := FirstShare(k, cc, sc, x);
    h.Ok? && S.SuiteFor(sc, h.value.1.suites).Some? && S.SelectGroup(sc.groups, cc.groups).Some? && share.Some? ==>
      var ch, suite := h.value.1, S.SuiteFor(sc, h.value.1.suites).value;
      var tbs := ToBeSigned(k.hash(suite.hash, ch.Raw()), false);
      NoCollision(k, sc, SignedBytes(ContextOf(sc, ch, suite.id, S.SelectGroup(sc.groups, cc.groups).value), tbs),
                  SignedBytes(ContextOf(sc, ch, suite.id, share.value.group), tbs))
  }

  // What is known before the second hello
  ghost predicate Begun(k: Crypto, cc: C.Config, sc: S.Config, x: Choices, c: C.Client, ch: ClientHello, suite: Suite,
      group: nat, retry: Message)
    requires cc.Valid() && sc.suites != [] && sc.cookieKey.Some?
  {
    && C.SendHello(k, cc, C.NEW_CLIENT, x.first, None) == Ok((c, ch))
    && HelloOf(cc, c, ch) && ch.groups == Some(cc.groups)
    && S.SuiteFor(sc, ch.suites) == Some(suite) && S.SelectGroup(sc.groups, cc.groups) == Some(group)
    && retry == RetryWithCookie(k, sc, suite, S.Masked(sc, ch), group)
  }

  lemma Begins(k: Crypto, cc: C.Config, sc: S.Config, x: Choices)
    returns (c: C.Client, ch: ClientHello, suite: Suite, group: nat, retry: Message)
    requires Peers(k, cc, sc, x) && sc.cookieKey.Some?
    ensures Begun(k, cc, sc, x, c, ch, suite, group, retry)
  {
    hide C.SendHello, S.SuiteFor, S.ShareFor, HelloOf, S.SelectGroup, RetryWithCookie, Compatible, Willing;
    FirstHelloOk(k, cc, x.first);
    var h := C.SendHello(k, cc, C.NEW_CLIENT, x.first, None).value;
    c, ch := h.0, h.1;
    FirstHelloMessage(k, cc, x.first);
    HelloSuites(cc, c, ch);
    GroupsKnown(cc, sc);
    suite, group := S.SuiteFor(sc, ch.suites).value, S.SelectGroup(sc.groups, cc.groups).value;
    retry := RetryWithCookie(k, sc, suite, S.Masked(sc, ch), group);
  }

  // The first server sends exactly that message, if what it has to sign fits.
  lemma RetryIsSent(k: Crypto, cc: C.Config, sc: S.Config, x: Choices, c: C.Client, ch: ClientHello, suite: Suite,
      group: nat, retry: Message)
    requires Peers(k, cc, sc, x) && RetriesStateless(k, cc, sc, x) && Begun(k, cc, sc, x, c, ch, suite, group, retry)
    ensures S.OnHello(k, sc, S.NEW_SERVER, ch, x.reply)
      == Err(if S.Signable(sc, cc.random, []) then StatelessRetry(retry.raw) else Assertion)
  {
    hide C.SendHello, S.SuiteFor, S.ShareFor, HelloOf, S.SelectGroup, Compatible, Willing, S.OnHello, S.CookieFor,
      EncodeRetry, S.Negotiated, S.Signable, ToBeSigned;
    HelloRandom(cc, c, ch);
    SmallToBeSigned(k, sc, suite.hash, S.Masked(sc, ch).Raw(), S.ShareFor(sc, S.Masked(sc, ch)).None?, cc.random);
    FirstHelloOk(k, cc, x.first);
    HelloHasShares(cc, c, ch);
    GroupsKnown(cc, sc);
    FirstHelloTaken(k, sc, ch, x.reply, suite);
    MaskedFields(sc, ch);
  }

  // The client takes the message and repeats its hello with the cookie.
  lemma RetryIsTaken(k: Crypto, cc: C.Config, sc: S.Config, x: Choices, c: C.Client, ch: ClientHello, suite: Suite,
      group: nat, retry: Message)
    returns (c2: C.Client, ch2: ClientHello)
    requires Peers(k, cc, sc, x) && RetriesStateless(k, cc, sc, x) && Begun(k, cc, sc, x, c, ch, suite, group, retry)
    ensures C.OnRetry(k, cc, c, retry, x.second) == Ok((c2, ch2))
    ensures HelloOf(cc, c2, ch2) && !ch2.early && (C.OfferOf(cc).Some? ==> ch2.modeDhe)
    ensures var share := S.ShareFor(sc, S.Masked(sc, ch));
      && ch2.cookie == Some(S.CookieFor(k, sc, suite, S.Masked(sc, ch), group, share.None?))
      && S.ShareFor(sc, S.Masked(sc, ch2)).Some?
      && S.ShareFor(sc, S.Masked(sc, ch2)).value.group == if share.None? then group else share.value.group
  {
    hide C.SendHello, S.SuiteFor, S.ShareFor, HelloOf, S.SelectGroup, Compatible, Willing, S.CookieFor, EncodeRetry,
      C.OnRetry, Ready, FindSuite, C.OfferOf;
    FirstHello(k, cc, x.first);
    FirstEarlyKeys(k, cc, x.first);
    HelloSuites(cc, c, ch);
    SuiteKnown(cc, sc);
    GroupsKnown(cc, sc);
    TracksKnown(cc, suite, c.keys.sched.slots);
    ReadyGeneration(k, c.keys.sched, ch.Raw(), OfferedSecret(cc));
    ExternalHash(cc, sc, suite, ch.suites);
    MaskedFields(sc, ch);
    MaskedHelloOf(cc, sc, c, ch);
    var share := S.ShareFor(sc, S.Masked(sc, ch));
    if share.Some? {
      UsableGroup(cc, sc, c, ch);
      ShareIsOffered(cc, sc, c, S.Masked(sc, ch));
    }
    CookieSize(k, sc, suite, S.Masked(sc, ch), group, share.None?);
    assert retry.cookie.value == S.CookieFor(k, sc, suite, S.Masked(sc, ch), group, share.None?)[2..];
    RetryOk(k, cc, c, retry, x.second);
    var r := C.OnRetry(k, cc, c, retry, x.second).value;
    c2, ch2 := r.0, r.1;
    ClientRetried(k, cc, c, retry, x.second, ch.Raw(), OfferedSecret(cc));
    EchoedCookie(k, sc, suite, S.Masked(sc, ch), group, share.None?);
    ShareUsable(cc, sc, c2, ch2);
    MaskedHelloOf(cc, sc, c2, ch2);
    ShareIsOffered(cc, sc, c2, S.Masked(sc, ch2));
  }

  // The other server: it takes the cookie if and only if the share is of the signed group, and then it does
  // what a server that kept its state would do.
  lemma CookieDecides(k: Crypto, cc: C.Config, sc: S.Config, x: Choices, c: C.Client, ch: ClientHello, suite: Suite,
      group: nat, retry: Message, c2: C.Client, ch2: ClientHello, g: nat)
    requires Peers(k, cc, sc, x) && Fits(k, sc) && S.Signable(sc, cc.random, []) && sc.retryUsesCookie
    requires Begun(k, cc, sc, x, c, ch, suite, group, retry) && TellsGroups(k, cc, sc, x)
    requires HelloOf(cc, c2, ch2) && !ch2.early
    requires var share := S.ShareFor(sc, S.Masked(sc, ch));
      && ch2.cookie == Some(S.CookieFor(k, sc, suite, S.Masked(sc, ch), group, share.None?))
      && S.ShareFor(sc, S.Masked(sc, ch2)).Some? && S.ShareFor(sc, S.Masked(sc, ch2)).value.group == g
      && g == if share.None? then group else share.value.group
    ensures g != group ==> S.OnHello(k, sc, S.NEW_SERVER, ch2, x.reply).Err?
    ensures g == group ==>
      S.OnHello(k, sc, S.NEW_SERVER, ch2, x.reply)
        == S.OnHello(k, sc, KeptState(k, sc, ch, suite, retry.raw), ch2, x.reply)
    ensures CookieTaken(sc, ch2)
  {
    hide C.SendHello, S.SuiteFor, S.ShareFor, S.SelectGroup, Compatible, Willing, S.CookieFor, EncodeRetry, ToBeSigned,
      SignedBytes, ParseCookie, S.CookieSignature, S.FromCookie, S.AfterRetry, S.OnHello;
    HelloSuites(cc, c, ch);
    HelloSuites(cc, c2, ch2);
    var m1, m2 := S.Masked(sc, ch), S.Masked(sc, ch2);
    MaskedFields(sc, ch);
    MaskedFields(sc, ch2);
    GroupsKnown(cc, sc);
    ShareFits(sc, m2);
    SmallToBeSigned(k, sc, suite.hash, m1.Raw(), S.ShareFor(sc, m1).None?, cc.random);
    CookieEquivalent(k, sc, suite, m1, m2, group, S.ShareFor(sc, m1));
    var all := S.CookieFor(k, sc, suite, m1, group, S.ShareFor(sc, m1).None?);
    if g == group {
      FreshServerEquivalent(k, sc, suite, ch, ch2, ParseCookie(all).value, retry.raw, x.reply);
    } else if S.OnHello(k, sc, S.NEW_SERVER, ch2, x.reply).Ok? {
      AcceptedHello(k, sc, ch2, x.reply);
    }
  }

  /** Between cooperative peers a run over a stateless retry completes if and only if what the server signs
      fits, and the first hello has no usable key share or one of the group that is signed; and then both ends
      agree. */
  lemma CookieRunCompletes(k: Crypto, cc: C.Config, sc: S.Config, x: Choices)
    requires Peers(k, cc, sc, x) && Fits(k, sc)
    requires RetriesStateless(k, cc, sc, x) && TellsGroups(k, cc, sc, x)
    ensures var share := FirstShare(k, cc, sc, x);
      CookieRun(k, cc, sc, x).Ok? <==>
        && S.Signable(sc, cc.random, [])
        && (share.None? || S.SelectGroup(sc.groups, cc.groups) == Some(share.value.group))
    ensures CookieRun(k, cc, sc, x).Ok? ==>
      var r := CookieRun(k, cc, sc, x).value;
      Agreed(cc, sc, r.0.keys, r.1.keys) && Redeemable(cc, sc, r.0, r.1)
  {
    hide C.SendHello, S.SuiteFor, S.ShareFor, S.SelectGroup, Compatible, Willing, S.CookieFor, EncodeRetry, ToBeSigned,
      SignedBytes, HelloOf,
         ParseCookie, C.OnRetry, S.OnHello, Agreed, Redeemable, FeedClient, FeedServer, KeptState, RetryWithCookie,
           TellsGroups, C.OfferOf, S.Signable;
    var c, ch, suite, group, retry := Begins(k, cc, sc, x);
    RetryIsSent(k, cc, sc, x, c, ch, suite, group, retry);
    if !S.Signable(sc, cc.random, []) {
      return;
    }
    var c2, ch2 := RetryIsTaken(k, cc, sc, x, c, ch, suite, group, retry);
    var g := S.ShareFor(sc, S.Masked(sc, ch2)).value.group;
    CookieDecides(k, cc, sc, x, c, ch, suite, group, retry, c2, ch2, g);
    if g == group {
      RetryNames(k, sc, suite, S.Masked(sc, ch), group);
      var s := KeptState(k, sc, ch, suite, retry.raw);
      SecondNegotiationCompletes(k, cc, sc, x, c, ch, suite, retry, s, c2, ch2);
      var o := S.OnHello(k, sc, s, ch2, x.reply).value;
      var b := FeedClient(k, cc, c2, o.1, x.second, x.last).value;
      var t := FeedServer(k, sc, o.0, b.1, x.reply).value;
      WillingParts(cc, sc, x.reply, x.last);
      RetriedAgrees(k, cc, sc, x.first, c, ch, suite, retry, s, x.second, c2, ch2, x.reply, o.0, o.1, b.0, b.1, t,
        x.last);
    }
  }

  lemma HelloRandom(cc: C.Config, c: C.Client, ch: ClientHello)
    requires cc.Valid() && HelloOf(cc, c, ch)
    ensures ch.random == cc.random
  {}

  lemma RetryNames(k: Crypto, sc: S.Config, suite: Suite, ch: ClientHello, group: nat)
    requires sc.suites != [] && sc.cookieKey.Some?
    ensures var m := RetryWithCookie(k, sc, suite, ch, group); m.Retry? && m.suite == suite.id
  {
    hide EncodeRetry, S.CookieFor;
  }
}
