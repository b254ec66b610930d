/** What the server selects: cipher suite, key share and group (lib/picotls.c). */
module Negotiation {
  import opened Results
  import opened KeySchedule
  import opened Messages
  import opened TlsServer

  predicate Fits(s: Suite, id: nat, hash: Option<nat>) { s.id == id && (hash.None? || s.hash == hash.value) }

  // A candidate that the client offers
  predicate Usable(candidates: seq<Suite>, ids: seq<nat>, hash: Option<nat>, i: nat)
  {
    i < |candidates| && exists j | 0 <= j < |ids| :: Fits(candidates[i], ids[j], hash)
  }

  // The place of the first of these candidates, |candidates| if there is none
  predicate FirstUsable(candidates: seq<Suite>, ids: seq<nat>, hash: Option<nat>, best: nat)
  {
    && best <= |candidates|
    && (best < |candidates| ==> Usable(candidates, ids, hash, best))
    && forall i: nat | i < best :: !Usable(candidates, ids, hash, i)
  }

  lemma {:induction false} MatchIsFirst(candidates: seq<Suite>, id: nat, hash: Option<nat>)
    ensures var m := Match(candidates, id, hash);
      && (m < |candidates| ==> Fits(candidates[m], id, hash))
      && forall i | 0 <= i < m :: !Fits(candidates[i], id, hash)
    decreases |candidates|
  {
    if candidates != [] {
      MatchIsFirst(candidates[1..], id, hash);
      var m := Match(candidates, id, hash);
      forall i | 0 <= i < m ensures !Fits(candidates[i], id, hash) {
        assert i > 0 ==> candidates[i] == candidates[1..][i - 1];
      }
    }
  }

  // One more identifier on the client's list
  lemma FirstUsableMore(candidates: seq<Suite>, ids: seq<nat>, n: nat, hash: Option<nat>, best: nat)
    requires n < |ids| && FirstUsable(candidates, ids[..n], hash, best)
    ensures var m := Match(candidates, ids[n], hash);
      FirstUsable(candidates, ids[..n + 1], hash, if m < best then m else best)
  {
    MatchIsFirst(candidates, ids[n], hash);
    var m := Match(candidates, ids[n], hash);
    var b := if m < best then m else best;
    var before, all := ids[..n], ids[..n + 1];
    if m < best && m < |candidates| {
      assert Fits(candidates[m], all[n], hash);
    } else if best < |candidates| {
      var j :| 0 <= j < n && Fits(candidates[best], before[j], hash);
      assert Fits(candidates[best], all[j], hash);
    }
    forall i: nat | i < b && Usable(candidates, all, hash, i) ensures false {
      var j :| 0 <= j < n + 1 && Fits(candidates[i], all[j], hash);
      if j < n {
        assert Fits(candidates[i], before[j], hash);
        assert Usable(candidates, before, hash, i);
      }
    }
  }

  lemma MoreUsable(candidates: seq<Suite>, ids: seq<nat>, n: nat, hash: Option<nat>)
    requires n <= |ids| && FirstUsable(candidates, ids[..n], hash, 0) && candidates != []
    ensures FirstUsable(candidates, ids, hash, 0)
  {
    var j :| 0 <= j < n && Fits(candidates[0], ids[..n][j], hash);
    assert Fits(candidates[0], ids[j], hash);
  }

  lemma {:induction false} PreferenceSelects(candidates: seq<Suite>, ids: seq<nat>, n: nat, hash: Option<nat>,
      best: nat)
    requires n <= |ids| && FirstUsable(candidates, ids[..n], hash, best)
    requires best < |candidates| && hash.Some? ==> candidates[best].hash == hash.value
    ensures var r := SelectSuite(candidates, ids[n..], true, false, hash, best);
      exists i | 0 <= i <= |candidates| ::
        FirstUsable(candidates, ids, hash, i) && r == (if i < |candidates| then Some(candidates[i]) else None)
    decreases |ids| - n
  {
    hide FirstUsable, Match;
    if n == |ids| {
      assert ids[..n] == ids;
      assert best <= |candidates| by { Bounded(candidates, ids, hash, best); }
    } else if best == 0 < |candidates| {
      MoreUsable(candidates, ids, n, hash);
    } else {
      FirstUsableMore(candidates, ids, n, hash, best);
      assert ids[n..][1..] == ids[n + 1..];
      var m := Match(candidates, ids[n], hash);
      PreferenceSelects(candidates, ids, n + 1, hash, if m < best then m else best);
    }
  }

  lemma Bounded(candidates: seq<Suite>, ids: seq<nat>, hash: Option<nat>, best: nat)
    requires FirstUsable(candidates, ids, hash, best)
    ensures best <= |candidates|
  {}

  /** With the server's preference, the first of its suites that the client offers is selected, whatever
      the client's order. */
  lemma ServerPreference(candidates: seq<Suite>, ids: seq<nat>, hash: Option<nat>)
    ensures var r := SelectSuite(candidates, ids, true, false, hash, |candidates|);
      exists i | 0 <= i <= |candidates| ::
        FirstUsable(candidates, ids, hash, i) && r == (if i < |candidates| then Some(candidates[i]) else None)
  {
    assert ids[..0] == [] && ids[0..] == ids;
    PreferenceSelects(candidates, ids, 0, hash, |candidates|);
  }

  // Some candidate is ChaCha20-Poly1305, and the client wants it most.
  predicate ChachaFirst(candidates: seq<Suite>, ids: seq<nat>, hash: Option<nat>)
  {
    && ids != [] && ids[0] == 0x1303
    && exists i | 0 <= i < |candidates| :: Fits(candidates[i], 0x1303, hash)
  }

  /** With priority for ChaCha20-Poly1305 the preference is the same, except that a client that wants it most
      is served as if it had offered nothing else. */
  lemma ChachaPriority(candidates: seq<Suite>, ids: seq<nat>, hash: Option<nat>)
    ensures var r := SelectSuite(candidates, ids, true, true, hash, |candidates|);
      var list := if ChachaFirst(candidates, ids, hash) then [0x1303] else ids;
      exists i | 0 <= i <= |candidates| ::
        FirstUsable(candidates, list, hash, i) && r == (if i < |candidates| then Some(candidates[i]) else None)
  {
    MatchIsFirst(candidates, 0x1303, hash);
    var m := Match(candidates, 0x1303, hash);
    if ChachaFirst(candidates, ids, hash) {
      ChachaAlone(candidates, hash, m);
    } else {
      assert m < |candidates| ==> Fits(candidates[m], 0x1303, hash);
      assert SelectSuite(candidates, ids, true, true, hash, |candidates|)
        == SelectSuite(candidates, ids, true, false, hash, |candidates|);
      ServerPreference(candidates, ids, hash);
    }
  }

  lemma ChachaAlone(candidates: seq<Suite>, hash: Option<nat>, m: nat)
    requires m < |candidates| && Fits(candidates[m], 0x1303, hash)
    requires forall i | 0 <= i < m :: !Fits(candidates[i], 0x1303, hash)
    ensures FirstUsable(candidates, [0x1303], hash, m)
  {
    var list: seq<nat> := [0x1303];
    assert Fits(candidates[m], list[0], hash);
  }

  /** Otherwise the client's order decides: the first of its suites that the server has. */
  lemma {:induction false} ClientOrder(candidates: seq<Suite>, ids: seq<nat>, chacha: bool, hash: Option<nat>)
    ensures var r := SelectSuite(candidates, ids, false, chacha, hash, |candidates|);
      && (r.None? <==> forall j | 0 <= j < |ids| :: Match(candidates, ids[j], hash) == |candidates|)
      && (r.Some? ==> exists j | 0 <= j < |ids| ::
            && Match(candidates, ids[j], hash) < |candidates|
            && r.value == candidates[Match(candidates, ids[j], hash)]
            && forall i | 0 <= i < j :: Match(candidates, ids[i], hash) == |candidates|)
    decreases |ids|
  {
    hide Match;
    if ids != [] && candidates != [] {
      var m := Match(candidates, ids[0], hash);
      if m < |candidates| {
        assert candidates[m] == candidates[Match(candidates, ids[0], hash)];
      } else {
        var r := SelectSuite(candidates, ids, false, chacha, hash, |candidates|);
        ClientOrder(candidates, ids[1..], false, hash);
        if r.Some? {
          var k :| 0 <= k < |ids[1..]|
            && Match(candidates, ids[1..][k], hash) < |candidates|
            && r.value == candidates[Match(candidates, ids[1..][k], hash)]
            && forall i | 0 <= i < k :: Match(candidates, ids[1..][i], hash) == |candidates|;
          assert ids[1..][k] == ids[k + 1];
          forall i | 0 <= i < k + 1 ensures Match(candidates, ids[i], hash) == |candidates| {
            assert i > 0 ==> ids[i] == ids[1..][i - 1];
          }
        } else {
          forall i | 0 <= i < |ids| ensures Match(candidates, ids[i], hash) == |candidates| {
            assert i > 0 ==> ids[i] == ids[1..][i - 1];
          }
        }
      }
    }
  }

  /** The key share and the group are the first on the client's lists that the server supports. */
  lemma {:induction false} FirstShare(groups: seq<nat>, shares: seq<Share>)
    ensures var r := SelectShare(groups, shares);
      && (r.None? <==> forall i | 0 <= i < |shares| :: shares[i].group !in groups)
      && (r.Some? ==> exists i | 0 <= i < |shares| ::
            r.value == shares[i] && shares[i].group in groups && forall j | 0 <= j < i :: shares[j].group !in groups)
    decreases |shares|
  {
    if shares != [] && shares[0].group !in groups {
      FirstShare(groups, shares[1..]);
      var r := SelectShare(groups, shares);
      if r.Some? {
        var i :| 0 <= i < |shares[1..]| && r.value == shares[1..][i] && shares[1..][i].group in groups
          && forall j | 0 <= j < i :: shares[1..][j].group !in groups;
        assert shares[1..][i] == shares[i + 1];
        forall j | 0 <= j < i + 1 ensures shares[j].group !in groups {
          assert j > 0 ==> shares[j] == shares[1..][j - 1];
        }
      } else {
        forall j | 0 <= j < |shares| ensures shares[j].group !in groups {
          assert j > 0 ==> shares[j] == shares[1..][j - 1];
        }
      }
    }
  }

  lemma {:induction false} FirstGroup(groups: seq<nat>, offered: seq<nat>)
    ensures var r := SelectGroup(groups, offered);
      && (r.None? <==> forall i | 0 <= i < |offered| :: offered[i] !in groups)
      && (r.Some? ==> exists i | 0 <= i < |offered| ::
            r.value == offered[i] && offered[i] in groups && forall j | 0 <= j < i :: offered[j] !in groups)
    decreases |offered|
  {
    if offered != [] && offered[0] !in groups {
      FirstGroup(groups, offered[1..]);
      var r := SelectGroup(groups, offered);
      if r.Some? {
        var i :| 0 <= i < |offered[1..]| && r.value == offered[1..][i] && offered[1..][i] in groups
          && forall j | 0 <= j < i :: offered[1..][j] !in groups;
        assert offered[1..][i] == offered[i + 1];
        forall j | 0 <= j < i + 1 ensures offered[j] !in groups {
          assert j > 0 ==> offered[j] == offered[1..][j - 1];
        }
      } else {
        forall j | 0 <= j < |offered| ensures offered[j] !in groups {
          assert j > 0 ==> offered[j] == offered[1..][j - 1];
        }
      }
    }
  }

  // ---------------------------------------------------------------- PSKs, early data and tickets

  // The identity is the external one, or a ticket for this suite and a configured group, with a whole binder.
  predicate Redeemable(k: Crypto, cfg: Config, suite: Suite, id: Identity)
  {
    if cfg.psk.Some? then id.name == cfg.psk.value.identity
    else
      && cfg.encryptsTickets
      && var o := cfg.open(id.name);
      && o.Some? && o.value.group in cfg.groups && o.value.suite == suite.id
      && |o.value.secret| == k.size(suite.hash) == |id.binder|
  }

  // What it stands for
  function Redeemed(cfg: Config, ids: seq<Identity>, i: nat, early: bool): Found
    requires i < |ids| && (cfg.psk.None? ==> cfg.open(ids[i].name).Some?)
  {
    if cfg.psk.Some? then Found(i, cfg.psk.value.secret, None, early && i == 0)
    else
      var o := cfg.open(ids[i].name).value;
      Found(i, o.secret, Some(o.group), early && i == 0 && o.earlyOk && cfg.maxEarly != 0)
  }

  lemma {:induction false} FirstPsk(k: Crypto, cfg: Config, suite: Suite, ids: seq<Identity>, early: bool, n: nat)
    requires n <= |ids|
    ensures var r := FindPsk(k, cfg, suite, ids, early, n);
      && (r.None? <==> forall i | n <= i < |ids| :: !Redeemable(k, cfg, suite, ids[i]))
      && (r.Some? ==>
            && var i := r.value.index;
            && n <= i && Redeemable(k, cfg, suite, ids[i]) && r.value == Redeemed(cfg, ids, i, early)
            && forall j | n <= j < i :: !Redeemable(k, cfg, suite, ids[j]))
    decreases |ids| - n
  {
    if n < |ids| {
      FirstPsk(k, cfg, suite, ids, early, n + 1);
    }
  }

  // The hello lets a PSK be used, and the server may: not with client authentication, a ticket only in a first hello.
  predicate PskAllowed(cfg: Config, ch: ClientHello, second: bool)
  {
    ch.identities.Some? && (ch.modePsk || ch.modeDhe) && !cfg.requireClientAuth && (cfg.psk.Some? || !second)
  }

  /** The PSK of a hello is the first identity on its list that can be redeemed, if PSKs are allowed. */
  lemma PskIsFirst(k: Crypto, cfg: Config, suite: Suite, ch: ClientHello, second: bool)
    ensures var r := PskFor(k, cfg, suite, ch, second);
      && (r.Some? <==>
            PskAllowed(cfg, ch, second)
            && exists i | 0 <= i < |ch.identities.value| :: Redeemable(k, cfg, suite, ch.identities.value[i]))
      && (r.Some? ==>
            && var ids, i := ch.identities.value, r.value.index;
            && Redeemable(k, cfg, suite, ids[i]) && r.value == Redeemed(cfg, ids, i, ch.early)
            && forall j | 0 <= j < i :: !Redeemable(k, cfg, suite, ids[j]))
  {
    hide FindPsk;
    if ch.identities.Some? {
      FirstPsk(k, cfg, suite, ch.identities.value, ch.early, 0);
    }
  }

  /** Early data is accepted if and only if the hello announces it, the server allows it, and the first identity is
      the PSK, which, being a ticket, is for this server now. */
  lemma EarlyDataWhen(k: Crypto, cfg: Config, suite: Suite, ch: ClientHello, second: bool)
    ensures AcceptsEarly(cfg, PskFor(k, cfg, suite, ch, second)) <==>
      && PskAllowed(cfg, ch, second) && ch.early && cfg.maxEarly != 0
      && ch.identities.value != [] && Redeemable(k, cfg, suite, ch.identities.value[0])
      && (cfg.psk.None? ==> cfg.open(ch.identities.value[0].name).value.earlyOk)
  {
    hide PskFor;
    PskIsFirst(k, cfg, suite, ch, second);
  }

  /** Tickets are sent to clients that can resume: as many as they ask for, or one, up to the limit of the server, which
      is four unless it says otherwise. */
  lemma TicketsGranted(cfg: Config, ch: ClientHello, isPsk: bool)
    ensures var n := TicketCount(cfg, ch, isPsk);
      && (cfg.ticketLifetime == 0 || (!ch.modePsk && !ch.modeDhe) ==> n == 0)
      && (cfg.ticketLifetime != 0 && (ch.modePsk || ch.modeDhe) ==>
            && var wanted := if ch.newSessions == 0 then 1 else if isPsk then ch.resumptions else ch.newSessions;
            && var limit := if cfg.maxTickets == 0 then 4 else cfg.maxTickets;
            && n <= wanted && n <= limit && (n == wanted || n == limit))
  {}

  /** A ServerHello has a key share, the one that was drawn, unless a PSK is used with a client that can do without; it
      names the place of the PSK. */
  lemma KeyExchangeWhen(k: Crypto, cfg: Config, s: Server, ch: ClientHello, share: Option<Share>, f: Option<Found>,
      w: Reply)
    requires s.keys.sched.slots != [] && s.suite.Some? && Greet(k, cfg, s, ch, share, f, w).Ok?
    ensures var r := Greet(k, cfg, s, ch, share, f, w).value;
      && r.1.ServerHello? && r.1.raw == w.hello && r.1.sessionId == ch.sessionId && r.1.suite == s.suite.value.id
      && (r.1.share.None? <==> f.Some? && ch.modePsk)
      && (r.1.share.Some? ==>
            && share.Some? && r.1.share.value == Share(share.value.group, w.key)
            && r.0.group == Some(share.value.group))
      && (r.1.share.None? ==> r.0.group == s.group)
      && r.1.identity == (if f.Some? then Some(f.value.index) else None)
      && r.0.isPsk == f.Some?
  {
    hide TicketCount, Derive, Extract, Update;
  }
}
