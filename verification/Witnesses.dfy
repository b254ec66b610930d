/** Inputs at which the conditions of conditional properties fail. */
module Witnesses {
  import opened Results
  import opened Wire
  import opened KeySchedule
  import opened Messages
  import opened Toys
  import opened Agreement
  import C = TlsClient
  import Safety = ClientSafety

  // ---------------------------------------------------------------- the client

  const SH_RETRY := Retry([9], [2], 0x1301, None, None)

  // What the client of these lemmas has sent, and its state
  lemma FirstFlight(psk: Option<ExternalPsk>) returns (c: C.Client, ch: ClientHello)
    requires psk.Some? ==> psk.value.hash == 4
    ensures var cfg := Client(psk, None, false);
      && cfg.Valid() && C.SendHello(TOY, cfg, C.NEW_CLIENT, DRAW, None) == Ok((c, ch))
      && Safety.Inv(c) && Safety.Tracking(cfg, c) && c.state == C.ExpectServerHello
      && c.group == Some(29) && c.share == Some([4]) && c.offeredPsk == psk.Some?
  {
    hide Extract, Update, Derive, VerifyData, DeriveEmpty, New, Safety.Inv, Safety.Tracking;
    var cfg := Client(psk, None, false);
    var r := C.SendHello(TOY, cfg, C.NEW_CLIENT, DRAW, None);
    assert r.Ok?;
    c, ch := r.value.0, r.value.1;
    Safety.HelloEstablishes(TOY, cfg, DRAW);
    Safety.HelloTracks(TOY, cfg, DRAW);
  }

  /** A retry for one suite and then a ServerHello for a suite with another hash: the slot of that hash
      has been freed. */
  lemma UntrackedSlot()
    ensures var cfg := Client(None, None, false);
      && cfg.Valid() && C.SendHello(TOY, cfg, C.NEW_CLIENT, DRAW, None).Ok?
      && var c := C.SendHello(TOY, cfg, C.NEW_CLIENT, DRAW, None).value.0;
      && C.OnRetry(TOY, cfg, c, SH_RETRY, DRAW).Ok?
      && var d := C.OnRetry(TOY, cfg, c, SH_RETRY, DRAW).value.0;
      C.Step(TOY, cfg, d, ServerHello([8], [2], 0x1302, Some(Share(29, [7])), None), true, DRAW, LAST) == Err(Untracked)
  {
    hide Extract, Update, Derive, VerifyData, DeriveEmpty, New, Safety.Inv, Safety.Tracking, C.Step, C.SendHello,
      SelectCipher;
    var cfg := Client(None, None, false);
    var c, ch := FirstFlight(None);
    RetryTaken(c);
    var d := C.OnRetry(TOY, cfg, c, SH_RETRY, DRAW).value;
    var m := ServerHello([8], [2], 0x1302, Some(Share(29, [7])), None);
    Safety.SecondUntracked(TOY, cfg, c, SH_RETRY, DRAW, d.0, d.1, m, true, DRAW, LAST);
    BothSuites();
    assert Safety.Selects(cfg, d.0, m, true, 5);
  }

  lemma BothSuites()
    ensures FindSuite([SUITE_4, SUITE_5], 0x1301) == Some(SUITE_4)
      && FindSuite([SUITE_4, SUITE_5], 0x1302) == Some(SUITE_5)
  {
    assert [SUITE_4, SUITE_5][1..] == [SUITE_5];
  }

  lemma RetryTaken(c: C.Client)
    requires Safety.Inv(c) && Safety.Tracking(Client(None, None, false), c) && c.state == C.ExpectServerHello
      && c.group == Some(29)
    ensures var cfg := Client(None, None, false);
      && C.OnRetry(TOY, cfg, c, SH_RETRY, DRAW).Ok?
      && C.OnRetry(TOY, cfg, c, SH_RETRY, DRAW).value.0.group == Some(29)
      && C.OnRetry(TOY, cfg, c, SH_RETRY, DRAW).value.0.state == C.ExpectSecondServerHello
  {
    hide Extract, Update, Derive, VerifyData, DeriveEmpty, New, SelectCipher;
    BothSuites();
    assert SUITE_4 in Client(None, None, false).suites;
    Safety.SelectShape(TOY, c.keys.sched, 4, false, None);
  }

  /** A retry for a suite whose hash is not that of the external PSK */
  lemma AssertionFails()
    ensures var cfg := Client(Some(ExternalPsk([1], [2], 4)), None, false);
      && cfg.Valid() && C.SendHello(TOY, cfg, C.NEW_CLIENT, DRAW, None).Ok?
      && var c := C.SendHello(TOY, cfg, C.NEW_CLIENT, DRAW, None).value.0;
      C.Step(TOY, cfg, c, Retry([9], [2], 0x1302, None, None), true, DRAW, LAST) == Err(Assertion)
  {
    hide Extract, Update, Derive, VerifyData, DeriveEmpty, New, C.Step, C.SendHello;
    var psk := Some(ExternalPsk([1], [2], 4));
    var cfg := Client(psk, None, false);
    var c, ch := FirstFlight(psk);
    var m := Retry([9], [2], 0x1302, None, None);
    BothSuites();
    assert SUITE_5 in cfg.suites;
    Safety.StepAsserts(TOY, cfg, c, m, true, DRAW, LAST);
  }

  // A hundred bytes of hello before the extensions
  function Long(): C.Draw { C.Draw(Zeros(100), [], [], [4]) }

  /** A retry with a long cookie, which the second hello repeats */
  lemma CookieTooLong()
    ensures var cfg := Client(None, None, false);
      && cfg.Valid() && C.SendHello(TOY, cfg, C.NEW_CLIENT, DRAW, None).Ok?
      && var c := C.SendHello(TOY, cfg, C.NEW_CLIENT, DRAW, None).value.0;
      C.Step(TOY, cfg, c, Retry([9], [2], 0x1301, None, Some(Zeros(16300))), true, Long(), LAST) == Err(Assertion)
  {
    hide Extract, Update, Derive, VerifyData, DeriveEmpty, New, C.Step, C.SendHello;
    var cfg := Client(None, None, false);
    var c, ch := FirstFlight(None);
    var m := Retry([9], [2], 0x1301, None, Some(Zeros(16300)));
    BothSuites();
    assert SUITE_4 in cfg.suites;
    Safety.StepAsserts(TOY, cfg, c, m, true, Long(), LAST);
  }

  // A client without groups that resumes nothing: an external PSK alone
  function Pure(): C.Config { Client(Some(ExternalPsk([1], [2], 4)), None, false).(groups := []) }

  /** A handshake with a PSK alone leaves no key share; the ticket that follows is saved all the same. */
  lemma TicketWithoutKeyShare()
    ensures Pure().Valid() && C.SendHello(TOY, Pure(), C.NEW_CLIENT, DRAW, None).Ok?
    ensures var c := C.SendHello(TOY, Pure(), C.NEW_CLIENT, DRAW, None).value.0;
      FeedClient(TOY, Pure(), c,
        [ServerHello([8], [2], 0x1301, None, Some(0)), EncryptedExtensions([7], false), Finished([20, 0, 0, 1, 0]),
         NewSessionTicket([6], [], [5], false)], DRAW, LAST) == Err(NoKeyShare)
  {
    hide Extract, Update, Derive, DeriveEmpty, C.Step, C.SendHello, FeedClient;
    var c0 := PureHello();
    var c1 := PureServerHello(c0);
    var c2 := PureExtensions(c1);
    var c3 := PureFinished(c2);
    var m0, m1 := ServerHello([8], [2], 0x1301, None, Some(0)), EncryptedExtensions([7], false);
    var m2, m3 := Finished([20, 0, 0, 1, 0]), NewSessionTicket([6], [], [5], false);
    FeedFirst(TOY, Pure(), c0, [m0, m1, m2, m3], DRAW, LAST);
    assert [m0, m1, m2, m3][1..] == [m1, m2, m3];
    FeedFirst(TOY, Pure(), c1, [m1, m2, m3], DRAW, LAST);
    assert [m1, m2, m3][1..] == [m2, m3];
    FeedTickets(TOY, Pure(), c3, [m3], DRAW, LAST);
    FeedAppend(TOY, Pure(), c2, [m2], [m3], DRAW, LAST);
    assert [m2] + [m3] == [m2, m3];
    FeedOnly(TOY, Pure(), c2, m2, DRAW, LAST);
  }

  lemma FeedOnly(k: Crypto, cfg: C.Config, c: C.Client, m: Message, d: C.Draw, l: C.LastFlight)
    requires cfg.Valid()
    ensures FeedClient(k, cfg, c, [m], d, l) == C.Step(k, cfg, c, m, true, d, l)
  {
    hide C.Step;
    var r := C.Step(k, cfg, c, m, true, d, l);
    if r.Ok? {
      FeedNothing(k, cfg, r.value.0, d, l);
      assert [m][1..] == [];
      assert r.value.1 + [] == r.value.1;
    }
  }

  // The client on its way
  predicate OnWay(c: C.Client) { c.keys.sched.slots != [] && c.keys.exporter.None? && c.group.None? }

  lemma PureHello() returns (c: C.Client)
    ensures Pure().Valid() && C.SendHello(TOY, Pure(), C.NEW_CLIENT, DRAW, None).Ok?
    ensures C.SendHello(TOY, Pure(), C.NEW_CLIENT, DRAW, None).value.0 == c
    ensures OnWay(c) && c.state == C.ExpectServerHello && c.offeredPsk && c.keys.sched.generation == 1
    ensures Tracks(c.keys.sched.slots, 4)
  {
    hide Update, Derive, VerifyData, DeriveEmpty, Safety.Inv;
    var r := C.SendHello(TOY, Pure(), C.NEW_CLIENT, DRAW, None);
    c := r.value.0;
    Safety.HelloEstablishes(TOY, Pure(), DRAW);
    Safety.HelloTracks(TOY, Pure(), DRAW);
    Safety.InvSlots(c);
    assert SUITE_4 in Pure().suites;
  }

  lemma PureServerHello(c: C.Client) returns (d: C.Client)
    requires OnWay(c) && c.state == C.ExpectServerHello && c.offeredPsk && c.keys.sched.generation == 1
    requires Tracks(c.keys.sched.slots, 4)
    ensures Pure().Valid()
    ensures C.Step(TOY, Pure(), c, ServerHello([8], [2], 0x1301, None, Some(0)), true, DRAW, LAST) == Ok((d, []))
    ensures OnWay(d) && d.state == C.ExpectEncryptedExtensions && d.isPsk
  {
    hide Derive, SelectCipher;
    BothSuites();
    Safety.SelectShape(TOY, c.keys.sched, 4, false, None);
    d := C.Step(TOY, Pure(), c, ServerHello([8], [2], 0x1301, None, Some(0)), true, DRAW, LAST).value.0;
  }

  lemma PureExtensions(c: C.Client) returns (d: C.Client)
    requires OnWay(c) && c.state == C.ExpectEncryptedExtensions && c.isPsk
    ensures Pure().Valid()
    ensures C.Step(TOY, Pure(), c, EncryptedExtensions([7], false), true, DRAW, LAST) == Ok((d, []))
    ensures OnWay(d) && d.state == C.ExpectFinished
  {
    d := C.Step(TOY, Pure(), c, EncryptedExtensions([7], false), true, DRAW, LAST).value.0;
  }

  lemma PureFinished(c: C.Client) returns (d: C.Client)
    requires OnWay(c) && c.state == C.ExpectFinished
    ensures Pure().Valid()
    ensures C.Step(TOY, Pure(), c, Finished([20, 0, 0, 1, 0]), true, DRAW, LAST).Ok?
    ensures C.Step(TOY, Pure(), c, Finished([20, 0, 0, 1, 0]), true, DRAW, LAST).value.0 == d
    ensures d.keys.sched.slots != [] && d.state == C.PostHandshake && d.group.None?
  {
    hide Derive, UpdateAll, C.BeforeFinished;
    var raw: Data := [20, 0, 0, 1, 0];
    assert raw[4..] == [0];
    d := C.Step(TOY, Pure(), c, Finished(raw), true, DRAW, LAST).value.0;
  }
}
