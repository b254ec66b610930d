/** Hellos at which a server fails: assertions, binders and cookies. */
module ServerWitnesses {
  import opened Results
  import opened Wire
  import opened KeySchedule
  import opened Messages
  import opened Toys
  import opened Cookies
  import S = TlsServer
  import Safety = ServerSafety

  const REPLY := S.Reply([7], [8], [9], [10], [11], false, Some(_ => [12]))

  // A hello that the server can use, with that cookie and those identities
  function Offering(cookie: Option<Data>, identities: Option<seq<Identity>>): ClientHello
  {
    ClientHello([1], [], [1], [2], [0x1301], Some([Share(29, [4])]), Some([29]), cookie, identities, false, true, false,
                0, 0)
  }

  // A server that retries or not, with a cookie or not
  function Asked(psk: Option<ExternalPsk>, retry: bool, cookies: bool): S.Config
  {
    Server([29], psk, retry, cookies, false)
  }

  lemma Selected(psk: Option<ExternalPsk>, retry: bool, cookies: bool, ch: ClientHello)
    requires psk.Some? ==> psk == Some(PSK)
    requires ch.suites == [0x1301] && ch.shares == Some([Share(29, [4])])
    ensures var cfg := Asked(psk, retry, cookies);
      S.SuiteFor(cfg, ch.suites) == Some(SUITE_4) && S.ShareFor(cfg, ch) == Some(Share(29, [4]))
  {
    assert S.Match([SUITE_4], 0x1301, if psk.Some? then Some(4) else None) == 0;
  }

  // The server's configuration apart, what is selected does not change.
  lemma SameSelection(cfg: S.Config, other: S.Config, ch: ClientHello)
    requires other == cfg.(serverName := other.serverName, cookieKey := other.cookieKey,
      encryptsTickets := other.encryptsTickets)
    ensures S.SuiteFor(other, ch.suites) == S.SuiteFor(cfg, ch.suites) && S.ShareFor(other, ch) == S.ShareFor(cfg, ch)
  {}

  // A cookie with the longest hash that can be parsed
  function LongCookie(): Data { EncodeCookie(ToBeSigned(Zeros(255), false), [0]) }

  /** A first hello whose cookie carries a hash of 255 bytes: the signature over it is computed before the two
      are compared, and its block is too long. */
  lemma CookieBlockTooLong()
    ensures S.Step(TOY, Asked(None, false, true), S.NEW_SERVER, Hello(Offering(Some(LongCookie()), None)), true, REPLY)
      == Err(Assertion)
  {
    hide S.Step, S.SuiteFor, S.ShareFor, ParseCookie, EncodeCookie, ToBeSigned, S.FromCookie, S.CookieSignature;
    var cfg, ch := Asked(None, false, true), Offering(Some(LongCookie()), None);
    Selected(None, false, true, ch);
    CookieRoundTrip(Zeros(255), false, [0]);
    LongBlock();
    Safety.StepKeeps(TOY, cfg, S.NEW_SERVER, Hello(ch), true, REPLY);
  }

  lemma LongBlock()
    ensures |ToBeSigned(Zeros(255), false)| == 259
  {}

  /** A stateless retry of a server with a name of 255 bytes */
  lemma NameTooLong()
    ensures var cfg := Asked(None, true, true).(serverName := Zeros(255));
      S.Step(TOY, cfg, S.NEW_SERVER, Hello(Offering(None, None)), true, REPLY) == Err(Assertion)
  {
    hide S.Step, S.SuiteFor, S.ShareFor, ParseCookie, S.FromCookie, S.CookieSignature;
    var cfg, ch := Asked(None, true, true).(serverName := Zeros(255)), Offering(None, None);
    Selected(None, true, true, ch);
    SameSelection(Asked(None, true, true), cfg, ch);
    Safety.StepKeeps(TOY, cfg, S.NEW_SERVER, Hello(ch), true, REPLY);
  }

  /** A stateless retry without a key to sign the cookie with */
  lemma CookieWithoutKey()
    ensures var cfg := Asked(None, true, true).(cookieKey := None);
      S.Step(TOY, cfg, S.NEW_SERVER, Hello(Offering(None, None)), true, REPLY) == Err(NoCookieKey)
  {
    hide S.Step, S.SuiteFor, S.ShareFor, ParseCookie, S.FromCookie, S.CookieSignature;
    var cfg, ch := Asked(None, true, true).(cookieKey := None), Offering(None, None);
    Selected(None, true, true, ch);
    SameSelection(Asked(None, true, true), cfg, ch);
    Safety.StepNoCookieKey(TOY, cfg, S.NEW_SERVER, Hello(ch), true, REPLY);
  }

  /** Tickets are to be sent, as the lifetime says, and there is nothing to encrypt them with. */
  lemma TicketsWithoutEncryption()
    ensures var cfg := Asked(None, false, false).(encryptsTickets := false);
      S.Step(TOY, cfg, S.NEW_SERVER, Hello(Offering(None, None)), true, REPLY) == Err(Assertion)
  {
    hide S.Step, S.SuiteFor, S.ShareFor, ParseCookie, S.FromCookie, S.CookieSignature, Extract, Update;
    var cfg, ch := Asked(None, false, false).(encryptsTickets := false), Offering(None, None);
    Selected(None, false, false, ch);
    SameSelection(Asked(None, false, false), cfg, ch);
    Fresh();
    Safety.StepKeeps(TOY, cfg, S.NEW_SERVER, Hello(ch), true, REPLY);
  }

  lemma Fresh()
    ensures var s := New(Some(SUITE_4), []); s == Single(0, [], 4, []) && forall m: Data :: Update(s, m).generation == 0
  {}

  /** A ServerHello that is larger than a record */
  lemma ServerHelloTooLong()
    ensures var w := REPLY.(hello := Zeros(16385));
      S.Step(TOY, Asked(None, false, false), S.NEW_SERVER, Hello(Offering(None, None)), true, w) == Err(Assertion)
  {
    hide S.Step, S.SuiteFor, S.ShareFor, ParseCookie, S.FromCookie, S.CookieSignature, Extract, Update;
    var cfg, ch := Asked(None, false, false), Offering(None, None);
    Selected(None, false, false, ch);
    Fresh();
    Safety.StepKeeps(TOY, cfg, S.NEW_SERVER, Hello(ch), true, REPLY.(hello := Zeros(16385)));
  }

  function Binding(binder: Data): ClientHello { Offering(None, Some([Identity([1], binder)])) }

  // The external PSK is found, and the binder is the one of the hello.
  lemma Bound(binder: Data)
    ensures var b := Safety.BoundBy(TOY, Asked(Some(PSK), false, false), S.NEW_SERVER, Hello(Binding(binder)), true);
      && b == Some(Safety.Bound(New(Some(SUITE_4), []), S.Found(0, [0], None, false), false))
      && Safety.BinderAt(Binding(binder), b.value.f) == binder
  {
    hide S.SuiteFor, S.ShareFor, ParseCookie, S.FromCookie, S.CookieSignature;
    Selected(Some(PSK), false, false, Binding(binder));
  }

  /** An external PSK with an empty binder */
  lemma BinderTooShort()
    ensures S.Step(TOY, Asked(Some(PSK), false, false), S.NEW_SERVER, Hello(Binding([])), true, REPLY)
      == Err(ShortBinder)
  {
    hide S.Step, Safety.BoundBy, Safety.BinderAt;
    Bound([]);
    Fresh();
    Safety.StepShortBinder(TOY, Asked(Some(PSK), false, false), S.NEW_SERVER, Hello(Binding([])), true, REPLY);
  }

  /** An external PSK with a binder that goes on after the digest, to 65 bytes */
  lemma BinderTooLong()
    ensures S.Step(TOY, Asked(Some(PSK), false, false), S.NEW_SERVER, Hello(Binding(Zeros(65))), true, REPLY)
      == Err(BinderOverflow)
  {
    hide S.Step, Safety.BoundBy, Safety.BinderAt, Safety.Verifies;
    Bound(Zeros(65));
    Fresh();
    ZeroBinder();
    Safety.StepBinderOverflow(TOY, Asked(Some(PSK), false, false), S.NEW_SERVER, Hello(Binding(Zeros(65))), true,
      REPLY);
  }

  lemma ZeroBinder()
    ensures New(Some(SUITE_4), []).slots != []
    ensures Safety.Verifies(TOY, Asked(Some(PSK), false, false), New(Some(SUITE_4), []), Binding(Zeros(65)),
      S.Found(0, [0], None, false))
  {
    assert Zeros(65)[..1] == [0];
  }

  /** An external PSK with a binder of the right size that is not the one over the hello */
  lemma BinderForged()
    ensures S.Step(TOY, Asked(Some(PSK), false, false), S.NEW_SERVER, Hello(Binding([1])), true, REPLY)
      == Err(DecryptError)
  {
    hide S.Step, Safety.BoundBy, S.SuiteFor, S.ShareFor;
    Bound([1]);
    Fresh();
    var f := S.Found(0, [0], None, false);
    assert Safety.BinderAt(Binding([1]), f)[..1] == [1];
    assert !Safety.Verifies(TOY, Asked(Some(PSK), false, false), New(Some(SUITE_4), []), Binding([1]), f);
    Safety.StepForgedBinder(TOY, Asked(Some(PSK), false, false), S.NEW_SERVER, Hello(Binding([1])), true, REPLY);
  }
}
