/** Concrete peers that meet the hypotheses of the theorems about runs. */
module Instances {
  import opened Results
  import opened Wire
  import opened KeySchedule
  import opened Messages
  import opened Agreement
  import opened Completion
  import opened Toys
  import C = TlsClient
  import S = TlsServer
  import Cookies
  import CookieRuns
  import Tickets

  predicate KnownGroups(groups: seq<nat>) { groups == [29] || groups == [23] || groups == [29, 23] }

  // A ticket of the server, with its secret
  predicate Genuine(t: C.StoredTicket)
  {
    |t.identity| == 3 && t.identity[0] == 9 && t.secret == [t.identity[1]] && t.suite == 0x1301
      && t.group == t.identity[2] as nat
  }

  lemma TheSuite(retry: bool, cookies: bool, auth: bool, groups: seq<nat>, psk: Option<ExternalPsk>)
    requires psk.None? || psk == Some(PSK)
    ensures S.SuiteFor(Server(groups, psk, retry, cookies, auth), [0x1301, 0x1302]) == Some(SUITE_4)
  {
    assert [0x1301, 0x1302][0] == 0x1301;
  }

  lemma PeersMeet(psk: Option<ExternalPsk>, ticket: Option<C.StoredTicket>, early: bool, groups: seq<nat>, retry: bool,
      cookies: bool, auth: bool)
    requires KnownGroups(groups) && (psk.None? || (psk == Some(PSK) && !auth))
    requires ticket.Some? ==> psk.None? && Genuine(ticket.value)
    ensures Peers(TOY, Client(psk, ticket, early), Server(groups, psk, retry, cookies, auth), CHOICES)
  {
    var cc, sc := Client(psk, ticket, early), Server(groups, psk, retry, cookies, auth);
    assert Ids(cc) == [0x1301, 0x1302];
    TheSuite(retry, cookies, auth, groups, psk);
    assert S.SelectGroup(groups, [29, 23]).Some? by {
      assert [29, 23][1..] == [23];
    }
  }

  /** Full handshakes and handshakes with an external PSK, with early data offered or not, with a retry for the
      group or because the server insists or without, with client authentication or without: all of them
      complete and agree. */
  lemma RunAgrees(psk: Option<ExternalPsk>, early: bool, groups: seq<nat>, retry: bool, auth: bool)
    requires KnownGroups(groups) && (psk.None? || (psk == Some(PSK) && !auth))
    ensures var cc, sc := Client(psk, None, early), Server(groups, psk, retry, false, auth);
      && cc.Valid() && sc.suites != []
      && HonestRun(TOY, cc, sc, CHOICES).Ok?
      && var r := HonestRun(TOY, cc, sc, CHOICES).value;
      Agreed(cc, sc, r.0.keys, r.1.keys) && Redeemable(cc, sc, r.0, r.1)
  {
    hide HonestRun, Agreed, Redeemable;
    PeersMeet(psk, None, early, groups, retry, false, auth);
    var cc, sc := Client(psk, None, early), Server(groups, psk, retry, false, auth);
    HonestRunCompletes(TOY, cc, sc, CHOICES);
    HonestRunAgrees(TOY, cc, sc, CHOICES);
  }

  // The first hello of such a client
  lemma Hello(psk: Option<ExternalPsk>, ticket: Option<C.StoredTicket>, early: bool) returns (c: C.Client,
      ch: ClientHello)
    requires psk.None? || psk == Some(PSK)
    requires ticket.Some? ==> psk.None? && Genuine(ticket.value) && ticket.value.group in [29, 23]
    ensures var cc := Client(psk, ticket, early);
      && cc.Valid() && C.SendHello(TOY, cc, C.NEW_CLIENT, DRAW, None) == Ok((c, ch))
      && ch.suites == [0x1301, 0x1302] && ch.groups == Some([29, 23]) && ch.random == [1] && ch.modePsk && ch.modeDhe
        && ch.newSessions == 0
      && ch.shares == Some([Share(if ticket.Some? then ticket.value.group else 29, [4])])
      && ch.early == (early && (psk.Some? || (ticket.Some? && ticket.value.allowsEarly)))
      && (psk.None? && ticket.None? ==> ch.identities.None?)
      && (psk.Some? ==>
            ch.identities.Some? && |ch.identities.value| == 1 && ch.identities.value[0].name == PSK.identity)
      && (ticket.Some? ==>
            && ch.identities.Some? && |ch.identities.value| == 1
            && ch.identities.value[0].name == ticket.value.identity && |ch.identities.value[0].binder| == 1)
  {
    hide Extract, Update, Derive, DeriveEmpty, New;
    var cc := Client(psk, ticket, early);
    assert FindSuite(cc.suites, 0x1301) == Some(SUITE_4);
    assert FirstWithHash(cc.suites, 4) == Some(SUITE_4);
    var r := C.SendHello(TOY, cc, C.NEW_CLIENT, DRAW, None);
    c, ch := r.value.0, r.value.1;
    assert seq(2, i requires 0 <= i < 2 => cc.suites[i].id) == [0x1301, 0x1302];
  }

  lemma Usable(groups: seq<nat>, group: nat)
    requires group in groups
    ensures S.SelectShare(groups, [Share(group, [4])]) == Some(Share(group, [4]))
  {
    assert [Share(group, [4])][0].group in groups;
  }

  /** The external PSK is used, and 0-RTT data is accepted when it is offered. */
  lemma EarlyDataAccepted(early: bool)
    ensures var cc, sc := Client(Some(PSK), None, early), Server([29], Some(PSK), false, false, false);
      && cc.Valid() && sc.suites != []
      && HonestRun(TOY, cc, sc, CHOICES).Ok?
      && var r := HonestRun(TOY, cc, sc, CHOICES).value;
      r.0.isPsk && |r.1.keys.decLog| == if early then 3 else 2
  {
    hide HonestRun, Agreed, Redeemable, C.SendHello, Compatible, Issued;
    var cc, sc := Client(Some(PSK), None, early), Server([29], Some(PSK), false, false, false);
    RunAgrees(Some(PSK), early, [29], false, false);
    PeersMeet(Some(PSK), None, early, [29], false, false, false);
    var c, ch := Hello(Some(PSK), None, early);
    TheSuite(false, false, false, [29], Some(PSK));
    Usable([29], 29);
    HonestRunModes(TOY, cc, sc, CHOICES, c, ch, SUITE_4);
  }

  /** Two runs: the ticket saved in the first is redeemed in the second, with 0-RTT. */
  lemma TicketRedeemed()
    ensures var cc, sc := Client(None, None, true), Server([29], None, false, false, false);
      && cc.Valid() && sc.suites != [] && HonestRun(TOY, cc, sc, CHOICES).Ok?
      && var r := HonestRun(TOY, cc, sc, CHOICES).value.0;
      && !r.isPsk && |r.tickets| == 1
      && var next := Tickets.Resuming(cc, r.tickets[0]);
      && next.Valid() && HonestRun(TOY, next, sc, CHOICES).Ok?
      && var q := HonestRun(TOY, next, sc, CHOICES).value;
      q.0.isPsk && |q.1.keys.decLog| == 3 && Agreed(next, sc, q.0.keys, q.1.keys)
  {
    hide HonestRun, Agreed, Redeemable, Compatible, Issued, GroupOf;
    var cc, sc := Client(None, None, true), Server([29], None, false, false, false);
    var t := TicketSaved();
    assert Tickets.Resuming(cc, t) == Client(None, Some(t), true);
    TicketUsed(t);
  }

  lemma TicketSaved() returns (t: C.StoredTicket)
    ensures var cc, sc := Client(None, None, true), Server([29], None, false, false, false);
      && cc.Valid() && sc.suites != [] && HonestRun(TOY, cc, sc, CHOICES).Ok?
      && var r := HonestRun(TOY, cc, sc, CHOICES).value.0;
      && !r.isPsk && |r.tickets| == 1 && r.tickets[0] == t
    ensures Genuine(t) && t.group == 29 && t.allowsEarly
  {
    hide HonestRun, Agreed, C.SendHello, Compatible;
    var cc, sc := Client(None, None, true), Server([29], None, false, false, false);
    RunAgrees(None, true, [29], false, false);
    PeersMeet(None, None, true, [29], false, false, false);
    var c, ch := Hello(None, None, true);
    TheSuite(false, false, false, [29], None);
    Usable([29], 29);
    HonestRunModes(TOY, cc, sc, CHOICES, c, ch, SUITE_4);
    var r := HonestRun(TOY, cc, sc, CHOICES).value;
    t := r.0.tickets[0];
    assert Redeems(sc, t, 0, r.1.sealed[0]);
  }

  lemma TicketUsed(t: C.StoredTicket)
    requires Genuine(t) && t.group == 29 && t.allowsEarly
    ensures var next, sc := Client(None, Some(t), true), Server([29], None, false, false, false);
      && next.Valid() && sc.suites != [] && HonestRun(TOY, next, sc, CHOICES).Ok?
      && var q := HonestRun(TOY, next, sc, CHOICES).value;
      q.0.isPsk && |q.1.keys.decLog| == 3 && Agreed(next, sc, q.0.keys, q.1.keys)
  {
    hide HonestRun, Agreed, Redeemable, C.SendHello, Compatible, Issued, GroupOf;
    var next, sc := Client(None, Some(t), true), Server([29], None, false, false, false);
    PeersMeet(None, Some(t), true, [29], false, false, false);
    HonestRunCompletes(TOY, next, sc, CHOICES);
    HonestRunAgrees(TOY, next, sc, CHOICES);
    var c, ch := Hello(None, Some(t), true);
    TheSuite(false, false, false, [29], None);
    Usable([29], 29);
    HonestRunModes(TOY, next, sc, CHOICES, c, ch, SUITE_4);
  }

  // ---------------------------------------------------------------- stateless retries

  lemma ServerFits(groups: seq<nat>)
    requires KnownGroups(groups)
    ensures Cookies.Fits(TOY, Server(groups, None, true, true, false))
  {}

  /** A stateless retry for the group, and one that the server insists on although it could use the key share */
  lemma CookieRunDone(groups: seq<nat>)
    requires KnownGroups(groups)
    ensures var cc, sc := Client(None, None, false), Server(groups, None, true, true, false);
      && cc.Valid() && sc.suites != [] && sc.cookieKey.Some?
      && CookieRuns.CookieRun(TOY, cc, sc, CHOICES).Ok?
      && var r := CookieRuns.CookieRun(TOY, cc, sc, CHOICES).value;
      Agreed(cc, sc, r.0.keys, r.1.keys)
  {
    hide CookieRuns.CookieRun, Agreed, Redeemable, C.SendHello, Compatible, Peers, SignedBytes;
    var cc, sc := Client(None, None, false), Server(groups, None, true, true, false);
    PeersMeet(None, None, false, groups, true, true, false);
    ServerFits(groups);
    var c, ch := Hello(None, None, false);
    GroupsSelected(groups);
    ShareFound(groups, 29);
    CookieRuns.CookieRunCompletes(TOY, cc, sc, CHOICES);
  }

  lemma GroupsSelected(groups: seq<nat>)
    requires KnownGroups(groups)
    ensures S.SelectGroup(groups, [29, 23]) == Some(if 29 in groups then 29 else 23)
  {
    assert [29, 23][1..] == [23];
  }

  lemma ShareFound(groups: seq<nat>, group: nat)
    requires KnownGroups(groups)
    ensures S.SelectShare(groups, [Share(group, [4])]) == if group in groups then Some(Share(group, [4])) else None
  {
    assert [Share(group, [4])][1..] == [];
  }

  const OTHER_GROUP := C.StoredTicket([9, 0, 23], [0], 0x1301, 23, true)

  /** A ticket for the second group makes the client send a key share of that group; the server signs the first
      group, asks for no other key share, and then refuses the cookie. */
  lemma CookieRunRefused()
    ensures var cc, sc := Client(None, Some(OTHER_GROUP), false), Server([29, 23], None, true, true, false);
      && cc.Valid() && sc.suites != [] && sc.cookieKey.Some?
      && CookieRuns.CookieRun(TOY, cc, sc, CHOICES).Err?
  {
    hide CookieRuns.CookieRun, Agreed, Redeemable, C.SendHello, Compatible, Peers, SignedBytes;
    var cc, sc := Client(None, Some(OTHER_GROUP), false), Server([29, 23], None, true, true, false);
    PeersMeet(None, Some(OTHER_GROUP), false, [29, 23], true, true, false);
    ServerFits([29, 23]);
    var c, ch := Hello(None, Some(OTHER_GROUP), false);
    GroupsSelected([29, 23]);
    ShareFound([29, 23], 23);
    TheSuite(true, true, false, [29, 23], None);
    TwoGroups(ToBeSigned(TOY.hash(4, ch.Raw()), false));
    CookieRuns.CookieRunCompletes(TOY, cc, sc, CHOICES);
  }

  lemma TwoGroups(tbs: Data)
    ensures Seventh(SignedBytes(CookieContext([1], [], 0x1301, 29, []), tbs)) != Seventh(SignedBytes(CookieContext([1],
    [], 0x1301, 23, []), tbs))
  {
    forall g: nat | g < 256 ensures Seventh(SignedBytes(CookieContext([1], [], 0x1301, g, []), tbs)) as nat == g {
      var m := SignedBytes(CookieContext([1], [], 0x1301, g, []), tbs);
      assert m[6] == Be16(g)[1];
    }
  }
}
