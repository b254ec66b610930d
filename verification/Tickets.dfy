/** A ticket saved in one run is good for the next. */
module Tickets {
  import opened Results
  import opened KeySchedule
  import opened Messages
  import opened Agreement
  import C = TlsClient
  import S = TlsServer

  /** encrypt_ticket undoes itself: a ticket opens, if its date, context and protocol are still accepted, to
      the session that it seals; one that seals no session does not open; and none looks like the external
      PSK identity. */
  ghost predicate SealsTickets(sc: S.Config)
  {
    && (forall i: nat, s: S.Session ::
          var o := sc.open(sc.seal(i, Some(s)));
          o.Some? ==> o.value.secret == s.secret && o.value.suite == s.suite && o.value.group == s.group)
    && (forall i: nat :: sc.open(sc.seal(i, None)).None?)
    && (sc.psk.Some? ==> forall i: nat, s: Option<S.Session> :: sc.seal(i, s) != sc.psk.value.identity)
  }

  // The client that uses a ticket for its next connection
  function Resuming(cc: C.Config, t: C.StoredTicket): C.Config
  {
    cc.(psk := None, ticket := Some(t))
  }

  /** Every ticket that a client saved stands for the same secret and suite at the server. */
  lemma SavedTicketIsCompatible(cc: C.Config, sc: S.Config, c: C.Client, s: S.Server, i: nat)
    requires Compatible(cc, sc) && SealsTickets(sc) && !sc.requireClientAuth
    requires Redeemable(cc, sc, c, s) && i < |c.tickets|
    ensures Compatible(Resuming(cc, c.tickets[i]), sc)
  {
    assert Redeems(sc, c.tickets[i], i, s.sealed[i]);
    match s.sealed[i] {
      case None => assert sc.open(sc.seal(i, None)).None?;
      case Some(v) =>
        var o := sc.open(sc.seal(i, Some(v)));
        assert o.Some? ==> o.value.secret == v.secret && o.value.suite == v.suite;
    }
  }

  /** Two runs: the tickets of the first are saved with the secrets that the server sealed in them, and a
      second run that offers any of them agrees as well. */
  lemma ResumedRunAgrees(k: Crypto, cc: C.Config, sc: S.Config, x: Choices, i: nat, y: Choices)
    requires cc.Valid() && sc.suites != [] && x.last.Valid() && y.last.Valid() && Compatible(cc, sc)
    requires SealsTickets(sc) && !sc.requireClientAuth
    requires HonestRun(k, cc, sc, x).Ok? && i < |HonestRun(k, cc, sc, x).value.0.tickets|
    requires HonestRun(k, Resuming(cc, HonestRun(k, cc, sc, x).value.0.tickets[i]), sc, y).Ok?
    ensures var (c, s) := HonestRun(k, cc, sc, x).value;
      var next := Resuming(cc, c.tickets[i]);
      var (d, t) := HonestRun(k, next, sc, y).value;
      && i < |s.sealed| && Redeems(sc, c.tickets[i], i, s.sealed[i])
      && Agreed(next, sc, d.keys, t.keys) && Redeemable(next, sc, d, t)
  {
    hide HonestRun, Agreed, Compatible, SealsTickets;
    HonestRunAgrees(k, cc, sc, x);
    var (c, s) := HonestRun(k, cc, sc, x).value;
    SavedTicketIsCompatible(cc, sc, c, s, i);
    HonestRunAgrees(k, Resuming(cc, c.tickets[i]), sc, y);
  }

  /** A server that can open the ticket that a hello offers, for the suite it selects, resumes. */
  lemma TicketIsFound(k: Crypto, cc: C.Config, sc: S.Config, c: C.Client, ch: ClientHello, suite: Suite, o: S.Opened)
    requires cc.Valid() && cc.psk.None? && cc.ticket.Some? && sc.psk.None?
    requires C.OfferOf(cc).Some? && HelloOf(cc, c, ch) && (ch.modePsk || ch.modeDhe)
    requires |ch.identities.value[0].binder| == k.size(suite.hash)
    requires sc.encryptsTickets && !sc.requireClientAuth && sc.open(cc.ticket.value.identity) == Some(o)
    requires o.group in sc.groups && o.suite == suite.id && |o.secret| == k.size(suite.hash)
    ensures S.PskFor(k, sc, suite, ch, false) ==
      Some(S.Found(0, o.secret, Some(o.group), ch.early && o.earlyOk && sc.maxEarly != 0))
  {
  }
}
