/** The server as the connection object whose fields the handlers of lib/picotls.c update; each
    handler is proved against its function in module TlsServer. */
module ServerObject {
  import opened Results
  import opened Wire
  import opened KeySchedule
  import opened Messages
  import opened Schedules
  import opened TlsServer
  import Safety = ServerSafety

  // select_cipher: the loop over the client's list
  method ChooseSuite(candidates: seq<Suite>, ids: seq<nat>, preference: bool, chachaPriority: bool, hash: Option<nat>)
    returns (r: Option<Suite>)
    ensures r == SelectSuite(candidates, ids, preference, chachaPriority, hash, |candidates|)
  {
    hide Match;
    var found: nat, i: nat, chacha := |candidates|, 0, chachaPriority;
    assert ids[0..] == ids;
    while i < |ids|
      invariant 0 <= i <= |ids| && found <= |candidates|
      invariant found < |candidates| && hash.Some? ==> candidates[found].hash == hash.value
      invariant SelectSuite(candidates, ids, preference, chachaPriority, hash, |candidates|)
             == SelectSuite(candidates, ids[i..], preference, chacha, hash, found)
      decreases |ids| - i
    {
      if found == 0 && 0 < |candidates| {
        break;
      }
      var id := ids[i];
      assert ids[i..][1..] == ids[i + 1..];
      var at := Match(candidates, id, hash);
      if at < |candidates| && !(preference && !(chacha && id == CHACHA20_POLY1305_SHA256)) {
        return Some(candidates[at]);
      }
      if at < found {
        found := at;
      }
      chacha := false;
      i := i + 1;
    }
    r := if found < |candidates| then Some(candidates[found]) else None;
  }

  // The loop of try_psk_handshake over the offered identities
  method ChoosePsk(k: Crypto, cfg: Config, suite: Suite, ids: seq<Identity>, early: bool) returns (r: Option<Found>)
    ensures r == FindPsk(k, cfg, suite, ids, early, 0)
  {
    var i := 0;
    while i < |ids|
      invariant 0 <= i <= |ids|
      invariant FindPsk(k, cfg, suite, ids, early, 0) == FindPsk(k, cfg, suite, ids, early, i)
    {
      if cfg.psk.Some? {
        if ids[i].name == cfg.psk.value.identity {
          return Some(Found(i, cfg.psk.value.secret, None, early && i == 0));
        }
      } else if cfg.encryptsTickets && cfg.groups != [] {
        var o := cfg.open(ids[i].name);
        if o.Some? && o.value.group in cfg.groups && o.value.suite == suite.id
           && |o.value.secret| == k.size(suite.hash) && |ids[i].binder| == k.size(suite.hash) {
          return Some(Found(i, o.value.secret, Some(o.value.group), early && i == 0 && o.value.earlyOk
            && cfg.maxEarly != 0));
        }
      }
      i := i + 1;
    }
    return None;
  }

  // select_key_share
  method ChooseShare(groups: seq<nat>, shares: seq<Share>) returns (r: Option<Share>)
    ensures r == SelectShare(groups, shares)
  {
    var i := 0;
    assert shares[0..] == shares;
    while i < |shares|
      invariant 0 <= i <= |shares| && SelectShare(groups, shares) == SelectShare(groups, shares[i..])
    {
      if shares[i].group in groups {
        return Some(shares[i]);
      }
      assert shares[i..][1..] == shares[i + 1..];
      i := i + 1;
    }
    return None;
  }

  // select_negotiated_group
  method ChooseGroup(groups: seq<nat>, offered: seq<nat>) returns (r: Option<nat>)
    ensures r == SelectGroup(groups, offered)
  {
    var i := 0;
    assert offered[0..] == offered;
    while i < |offered|
      invariant 0 <= i <= |offered| && SelectGroup(groups, offered) == SelectGroup(groups, offered[i..])
    {
      if offered[i] in groups {
        return Some(offered[i]);
      }
      assert offered[i..][1..] == offered[i + 1..];
      i := i + 1;
    }
    return None;
  }

  class Connection {
    const k: Crypto
    const cfg: Config
    const keys: KeysObject
    var state: State
    var random: Data
    var suite: Option<Suite>
    var isPsk: bool
    var keyShare: Option<nat>
    var pendingTraffic: Data
    var ticketsToSend: nat
    // What the tickets sent so far hold
    var sealed: seq<Option<Session>>

    function View(): Server
      reads this, keys, keys.sched
    {
      Server(state, random, suite, isPsk, keyShare, pendingTraffic, ticketsToSend, sealed, keys.View())
    }

    // ptls_server_new
    constructor (k: Crypto, cfg: Config)
      ensures this.k == k && this.cfg == cfg && View() == NEW_SERVER && fresh(keys) && fresh(keys.sched)
    {
      this.k, this.cfg := k, cfg;
      keys := new KeysObject();
      state, random, suite, isPsk, keyShare := ExpectClientHello, [], None, false, None;
      pendingTraffic, ticketsToSend, sealed := [], 0, [];
    }

    // ------------------------------------------------------------ server_finish_handshake

    // The transcript as it will be when the client has answered
    method PredictTranscript()
      requires keys.sched.slots != []
      modifies keys.sched
      ensures keys.sched.View() == PredictedSchedule(k, cfg, old(keys.View()))
    {
      hide FinishedMessage, Update;
      if keys.pending.Some? && !cfg.omitEndOfEarlyData {
        keys.sched.UpdateHash(END_OF_EARLY_DATA);
      }
      var fin := FinishedMessage(k, keys.sched.View(), if keys.pending.Some? then keys.pending.value
        else keys.dec.secret);
      keys.sched.UpdateHash(fin);
    }

    /** send_session_ticket: the transcript is extended with what the client is going to send and with the
        ticket message itself, the resumption secret is taken in between, and the saved hash context is
        put back. */
    method SendSessionTicket() returns (m: Message)
      requires keys.sched.slots != [] && cfg.encryptsTickets
      requires keys.pending.Some? && !cfg.omitEndOfEarlyData ==> state == ExpectEndOfEarlyData
      modifies this`sealed, keys.sched
      ensures View() == SendTicket(k, cfg, old(View()))
      ensures m == TicketMessage(cfg, |old(sealed)|, SessionOf(k, cfg, old(View())))
    {
      hide PredictedSchedule, Resumption, Update, TicketMessage;
      var backup := keys.sched.slots;
      ghost var before := keys.sched.View();
      PredictTranscript();
      PredictedKeepsSecrets(k, cfg, old(keys.View()));
      var session: Option<Session> := None;
      if keyShare.Some? && suite.Some? {
        session := Some(Session(Resumption(k, keys.sched.View(), []), suite.value.id, keyShare.value));
      }
      m := TicketMessage(cfg, |sealed|, session);
      sealed := sealed + [session];
      UpdateKeepsSecrets(keys.sched.View(), Raw(m));
      keys.Emit([m]);
      keys.sched.slots := backup;
    }

    // The loop of server_finish_handshake over the tickets; however many are sent, the transcript and the
    // keys are as before.
    method SendSessionTickets() returns (ms: seq<Message>)
      requires keys.sched.slots != [] && (ticketsToSend != 0 ==> cfg.encryptsTickets)
      requires keys.pending.Some? && !cfg.omitEndOfEarlyData ==> state == ExpectEndOfEarlyData
      modifies this`sealed, keys.sched
      ensures View() == SendTickets(k, cfg, old(View()), ticketsToSend)
      ensures |sealed| >= |old(sealed)| && ms == TicketMessages(cfg, sealed, |old(sealed)|)
    {
      hide SendTicket, TicketMessage;
      ms := [];
      var i := 0;
      ghost var n := |sealed|;
      while i < ticketsToSend
        invariant 0 <= i <= ticketsToSend && |sealed| == n + i
        invariant View() == SendTickets(k, cfg, old(View()), i)
        invariant ms == TicketMessages(cfg, sealed, n)
      {
        ghost var before := View();
        TicketAdds(k, cfg, before);
        var m := SendSessionTicket();
        assert ms + [m] == TicketMessages(cfg, sealed, n);
        ms := ms + [m];
        i := i + 1;
      }
    }

    // The write key for application data, the exporter secret, and commission_handshake_secret when the
    // end of early data is not announced
    method InstallApplicationKeys() returns (r: bool)
      requires keys.sched.slots != []
      modifies keys
      ensures r <==> !(cfg.useExporter && old(keys.exporter).Some?)
      ensures r ==> keys.View() == ApplicationKeys(k, cfg, old(keys.View()))
      ensures keys.pending.Some? ==> old(keys.pending).Some?
    {
      hide Derive;
      keys.SetupEnc(3, Derive(k, keys.sched.View(), "s ap traffic"));
      if cfg.useExporter {
        if keys.exporter.Some? {
          return false;
        }
        keys.exporter := Some(Derive(k, keys.sched.View(), "exp master"));
      }
      if keys.pending.Some? && cfg.omitEndOfEarlyData {
        var secret := keys.pending.value;
        keys.pending := None;
        keys.SetupDec(2, secret);
      }
      return true;
    }

    // server_finish_handshake, once the certificate messages are sent
    method FinishHandshake() returns (r: Result<(Message, seq<Message>), Error>)
      requires keys.sched.slots != []
      modifies this, keys, keys.sched
      ensures Finish(k, cfg, old(View())) == if r.Ok? then Ok((View(), r.value.0)) else Err(r.error)
      ensures r.Ok? ==> |sealed| >= |old(sealed)| && r.value.1 == TicketMessages(cfg, sealed, |old(sealed)|)
    {
      hide FinishedMessage, Derive, SendTickets, Extract, Update, ApplicationKeys, TicketMessages;
      var fin := FinishedMessage(k, keys.sched.View(), keys.enc.secret);
      keys.sched.UpdateHash(fin);
      if keys.sched.generation != 2 {
        return Err(Assertion);
      }
      ExtractKeepsSlots(k, keys.sched.View(), None);
      keys.sched.ExtractSecret(k, None);
      pendingTraffic := Derive(k, keys.sched.View(), "c ap traffic");
      var early := keys.pending.Some?;
      var installed := InstallApplicationKeys();
      if !installed {
        return Err(Assertion);
      }
      if early {
        state := if cfg.omitEndOfEarlyData then ExpectFinished else ExpectEndOfEarlyData;
      } else if cfg.requireClientAuth {
        state := ExpectCertificate;
      } else {
        state := ExpectFinished;
      }
      if ticketsToSend != 0 && !cfg.encryptsTickets {
        return Err(Assertion);
      }
      var tickets := SendSessionTickets();
      return Ok((Finished(fin), tickets));
    }

    // ------------------------------------------------------------ ServerHello to CertificateVerify

    // The number of tickets to send
    method CountTickets(ch: ClientHello, psk: bool) returns (n: nat)
      ensures n == TicketCount(cfg, ch, psk)
    {
      if !((ch.modePsk || ch.modeDhe) && cfg.ticketLifetime != 0) {
        return 0;
      }
      n := 1;
      if ch.newSessions != 0 {
        n := if psk then ch.resumptions else ch.newSessions;
      }
      var max := cfg.maxTickets;
      if max == 0 {
        max := 4;
      }
      if n > max {
        n := max;
      }
    }

    // Accepting early data
    method InstallEarlyKeys() returns (r: bool)
      requires keys.sched.slots != []
      modifies keys
      ensures r <==> !(cfg.useExporter && old(keys.earlyExporter).Some?)
      ensures r ==> keys.View() == EarlyKeys(k, cfg, old(keys.View()))
    {
      hide Derive;
      if cfg.useExporter {
        if keys.earlyExporter.Some? {
          return false;
        }
        keys.earlyExporter := Some(Derive(k, keys.sched.View(), "e exp master"));
      }
      keys.SetupDec(1, Derive(k, keys.sched.View(), "c e traffic"));
      return true;
    }

    method InstallHandshakeKeys(secret: Option<Data>, early: bool)
      requires keys.sched.slots != []
      modifies keys, keys.sched
      ensures Extract(k, old(keys.sched.View()), secret).slots != []
      ensures keys.View() ==
        HandshakeKeys(k, old(keys.View()).(sched := Extract(k, old(keys.sched.View()), secret)), early)
    {
      hide Derive, Extract;
      ExtractKeepsSlots(k, keys.sched.View(), secret);
      keys.sched.ExtractSecret(k, secret);
      keys.SetupEnc(2, Derive(k, keys.sched.View(), "s hs traffic"));
      if early {
        keys.pending := Some(Derive(k, keys.sched.View(), "c hs traffic"));
      } else {
        keys.SetupDec(2, Derive(k, keys.sched.View(), "c hs traffic"));
      }
    }

    // Key exchange and ServerHello
    method SendServerHello(ch: ClientHello, share: Option<Share>, f: Option<Found>, w: Reply)
      returns (r: Result<Message, Error>)
      requires keys.sched.slots != [] && suite.Some?
      modifies this, keys, keys.sched
      ensures Greet(k, cfg, old(View()), ch, share, f, w) == if r.Ok? then Ok((View(), r.value)) else Err(r.error)
    {
      hide Extract, EarlyKeys, HandshakeKeys, TicketCount, Update;
      var mode, early := ModeOf(ch, f), AcceptsEarly(cfg, f);
      isPsk := f.Some?;
      ticketsToSend := CountTickets(ch, isPsk);
      if early {
        EarlyKeepsSchedule(k, cfg, keys.View());
        var installed := InstallEarlyKeys();
        if !installed {
          return Err(Assertion);
        }
      }
      var secret: Option<Data> := None;
      if mode != Psk {
        if share.None? {
          return Err(if ch.shares.Some? then HandshakeFailure else MissingExtension);
        }
        secret := Some(k.exchange(share.value.group, share.value.key, w.key));
        keyShare := Some(share.value.group);
      }
      if |w.hello| > MAX_PLAINTEXT {
        return Err(Assertion);
      }
      keys.sched.UpdateHash(w.hello);
      if keys.sched.generation != 1 {
        return Err(Assertion);
      }
      InstallHandshakeKeys(secret, early);
      return Ok(ServerHello(w.hello, ch.sessionId, suite.value.id,
                            if mode != Psk then Some(Share(share.value.group, w.key)) else None,
                            if mode != Full then Some(f.value.index) else None));
    }

    // CertificateRequest, Certificate and CertificateVerify of a full handshake
    method SendCertificates(mode: Mode, w: Reply) returns (sent: seq<Message>)
      requires keys.sched.slots != []
      modifies keys.sched
      ensures sent == CertificateMessages(k, cfg, old(keys.sched.View()), mode, w)
      ensures keys.sched.View() == UpdateAll(old(keys.sched.View()), sent)
    {
      hide UpdateAll, Update;
      ghost var s := keys.sched.View();
      sent := [];
      UpdateNothing(s);
      if mode != Full {
        return;
      }
      if cfg.requireClientAuth {
        sent := [CertificateRequest(w.request)];
        keys.Emit(sent);
      }
      var certificate := Certificate(w.certificate, w.certificateEmpty);
      UpdateAllAppend(s, sent, [certificate]);
      keys.Emit([certificate]);
      sent := sent + [certificate];
      if w.sign.Some? {
        var verify := CertificateVerify(w.sign.value(TranscriptHash(k, keys.sched.View())));
        UpdateAllAppend(s, sent, [verify]);
        keys.Emit([verify]);
        sent := sent + [verify];
      }
    }

    // EncryptedExtensions and the certificate messages
    method SendFlight(mode: Mode, w: Reply) returns (sent: seq<Message>)
      requires keys.sched.slots != []
      modifies keys.sched
      ensures sent == Flight(k, cfg, old(keys.sched.View()), keys.pending.Some?, mode, w)
      ensures keys.sched.View() == UpdateAll(old(keys.sched.View()), sent)
    {
      hide UpdateAll, Update, CertificateMessages;
      ghost var s := keys.sched.View();
      var extensions := EncryptedExtensions(w.extensions, keys.pending.Some?);
      UpdateOne(s, extensions);
      keys.Emit([extensions]);
      var more := SendCertificates(mode, w);
      UpdateAllAppend(s, [extensions], more);
      sent := [extensions] + more;
    }

    // From the hashed ClientHello to the end of the flight
    method Answer(ch: ClientHello, share: Option<Share>, f: Option<Found>, w: Reply)
      returns (r: Result<seq<Message>, Error>)
      requires keys.sched.slots != [] && suite.Some?
      modifies this, keys, keys.sched
      ensures Respond(k, cfg, old(View()), ch, share, f, w) == if r.Ok? then Ok((View(), r.value)) else Err(r.error)
    {
      hide Greet, Finish, UpdateAll, Flight, TicketMessages;
      var hello := SendServerHello(ch, share, f, w);
      if hello.Err? {
        return Err(hello.error);
      }
      var flight := SendFlight(ModeOf(ch, f), w);
      var fin := FinishHandshake();
      if fin.Err? {
        return Err(fin.error);
      }
      return Ok([hello.value] + flight + [fin.value.0] + fin.value.1);
    }

    // ------------------------------------------------------------ server_handle_hello

    // The end of try_psk_handshake: the binder over the truncated hello
    method VerifyBinder(ch: ClientHello, f: Found, second: bool) returns (error: Option<Error>)
      requires keys.sched.slots != [] && ch.identities.Some? && f.index < |ch.identities.value|
      modifies keys.sched
      ensures CheckBinder(k, cfg, old(keys.sched.View()), ch, f, second)
           == if error.None? then Ok(keys.sched.View()) else Err(error.value)
    {
      hide Extract, VerifyData, DeriveEmpty, Update;
      if !second {
        ExtractKeepsSlots(k, keys.sched.View(), Some(f.secret));
        keys.sched.ExtractSecret(k, Some(f.secret));
      }
      var key := DeriveEmpty(k, keys.sched.View(), if cfg.psk.Some? then "ext binder" else "res binder");
      var size := k.size(keys.sched.slots[0].algo);
      keys.sched.UpdateHash(ch.head);
      var binder := ch.identities.value[f.index].binder;
      if |binder| < size {
        return Some(ShortBinder);
      }
      error := if binder[..size] == VerifyData(k, keys.sched.View(), key) then None else Some(DecryptError);
    }

    // The hello enters the transcript and the early secret is extracted, for the PSK or for none.
    method HashHello(ch: ClientHello, f: Option<Found>, second: bool) returns (error: Option<Error>)
      requires keys.sched.slots != []
      requires f.Some? ==> ch.identities.Some? && f.value.index < |ch.identities.value|
      modifies keys.sched
      ensures HelloHashed(k, cfg, old(keys.sched.View()), ch, f, second)
           == if error.None? then Ok(keys.sched.View()) else Err(error.value)
    {
      hide Extract, CheckBinder, Update;
      if f.Some? {
        error := VerifyBinder(ch, f.value, second);
        if error.Some? {
          return;
        }
      }
      if cfg.psk.Some? && f.None? {
        return Some(UnknownPskIdentity);
      }
      if f.None? {
        keys.sched.UpdateHash(ch.Raw());
        if !second {
          if keys.sched.generation != 0 {
            return Some(Assertion);
          }
          keys.sched.ExtractSecret(k, None);
        }
      } else {
        keys.sched.UpdateHash(ch.tail);
        if cfg.properties && |ch.identities.value[f.value.index].binder| > MAX_DIGEST {
          return Some(BinderOverflow);
        }
      }
      return None;
    }

    // The PSK is chosen and its binder checked, or the hello is hashed for a full handshake.
    method Negotiate(ch: ClientHello, share: Option<Share>, second: bool, w: Reply)
      returns (r: Result<seq<Message>, Error>)
      requires keys.sched.slots != [] && suite.Some?
      modifies this, keys, keys.sched
      ensures Negotiated(k, cfg, old(View()), ch, share, second, w) == if r.Ok? then Ok((View(), r.value))
        else Err(r.error)
    {
      hide HelloHashed, Respond, FindPsk;
      var f: Option<Found> := None;
      if ch.identities.Some? && (ch.modePsk || ch.modeDhe) && !cfg.requireClientAuth
         && ((!second && cfg.encryptsTickets) || cfg.psk.Some?) {
        f := ChoosePsk(k, cfg, suite.value, ch.identities.value, ch.early);
      }
      assert f == PskFor(k, cfg, suite.value, ch, second);
      var error := HashHello(ch, f, second);
      if error.Some? {
        return Err(error.value);
      }
      keyShare := if f.Some? then f.value.group else None;
      r := Answer(ch, share, f, w);
    }

    // The transcript of a server that keeps state goes on with the hash of the first hello.
    method StartOver(ch: ClientHello, raw: Data)
      requires suite.Some? && keys.sched.View() == Update(New(suite, []), ch.Raw())
      modifies keys.sched
      ensures keys.sched.View() == AfterRetry(k, cfg, suite.value, ch, raw)
    {
      hide Extract, Update, TransformPostCh1;
      OneSlot(suite.value, ch.Raw());
      keys.sched.TransformCh1(k);
      TransformedSlots(k, Update(New(suite, []), ch.Raw()));
      keys.sched.ExtractSecret(k, ExternalSecret(cfg));
      keys.sched.UpdateHash(raw);
    }

    // calc_cookie_signature: each block is hashed behind its length, which has to be below 255.
    method SignCookie(random: Data, group: nat, tbs: Data) returns (r: Option<Data>)
      requires cfg.suites != [] && cfg.cookieKey.Some? && suite.Some?
      ensures r == if Signable(cfg, random, tbs) then Some(CookieSignature(k, cfg, random, suite.value.id, group, tbs))
        else None
    {
      var bytes: Data := [];
      if |random| >= 255 {
        return None;
      }
      bytes := bytes + Block1(random);
      if |cfg.serverName| >= 255 {
        return None;
      }
      bytes := bytes + Block1(cfg.serverName);
      bytes := bytes + Be16(suite.value.id);
      bytes := bytes + Be16(group);
      if |cfg.cookieExtra| >= 255 {
        return None;
      }
      bytes := bytes + Block1(cfg.cookieExtra);
      if |tbs| >= 255 {
        return None;
      }
      bytes := bytes + Block1(tbs);
      assert bytes == SignedBytes(CookieContext(random, cfg.serverName, suite.value.id, group, cfg.cookieExtra), tbs);
      return Some(k.hmac(cfg.suites[0].hash, cfg.cookieKey.value, bytes));
    }

    // Sending a HelloRetryRequest
    method SendRetry(ch: ClientHello, share: Option<Share>) returns (r: Result<seq<Message>, Error>)
      requires cfg.suites != [] && suite.Some? && keys.sched.View() == New(suite, [])
      modifies this, keys.sched
      ensures Retrying(k, cfg, old(View()), old(suite).value, ch, share) == if r.Ok? then Ok((View(), r.value))
        else Err(r.error)
    {
      hide EncodeRetry, CookieSignature, AfterRetry, Update, SelectGroup, ToBeSigned, EncodeCookie, Signable;
      if ch.groups.None? {
        return Err(MissingExtension);
      }
      var g := ChooseGroup(cfg.groups, ch.groups.value);
      if g.None? {
        return Err(HandshakeFailure);
      }
      OneSlot(suite.value, ch.Raw());
      keys.sched.UpdateHash(ch.Raw());
      assert keys.sched.generation == 0;
      var group := if share.Some? then None else g;
      if cfg.retryUsesCookie {
        var tbs := ToBeSigned(TranscriptHash(k, keys.sched.View()), share.None?);
        if cfg.cookieKey.None? {
          return Err(NoCookieKey);
        }
        var signature := SignCookie(ch.random, g.value, tbs);
        if signature.None? {
          return Err(Assertion);
        }
        var cookie := EncodeCookie(tbs, signature.value);
        return Err(StatelessRetry(EncodeRetry(ch.sessionId, suite.value.id, group, Some(cookie))));
      }
      var raw := EncodeRetry(ch.sessionId, suite.value.id, group, None);
      StartOver(ch, raw);
      state := ExpectSecondClientHello;
      return Ok([Retry(raw, ch.sessionId, suite.value.id, group, None)]);
    }

    // A cookie that is signed by this server puts it where it was after its retry.
    method AcceptCookie(ch: ClientHello, c: Cookie, group: nat) returns (error: Option<Error>)
      requires cfg.suites != [] && cfg.cookieKey.Some? && suite.Some? && keys.sched.View() == New(suite, [])
      modifies keys.sched
      ensures error ==
        if !Signable(cfg, ch.random, c.tbs) then Some(Assertion)
        else if c.signature != CookieSignature(k, cfg, ch.random, suite.value.id, group, c.tbs)
          then Some(HandshakeFailure)
        else None
      ensures error.None? ==> keys.sched.View() == FromCookie(k, cfg, suite.value, ch.sessionId, c, group)
    {
      hide CookieSignature, Extract, Update, EncodeRetry, HashMessage, Signable;
      var signature := SignCookie(ch.random, group, c.tbs);
      if signature.None? {
        return Some(Assertion);
      }
      if c.signature != signature.value {
        return Some(HandshakeFailure);
      }
      FreshSlot(suite.value);
      keys.sched.AdoptCh1(k, c.ch1Hash);
      UpdatedSlots(New(suite, []), HashMessage(k, suite.value.hash, c.ch1Hash));
      keys.sched.ExtractSecret(k, ExternalSecret(cfg));
      keys.sched.UpdateHash(EncodeRetry(ch.sessionId, suite.value.id, if c.sentKeyShare then Some(group) else None,
        Some(c.all)));
      return None;
    }

    method PickSuite(ids: seq<nat>) returns (r: Option<Suite>)
      ensures r == SuiteFor(cfg, ids)
    {
      r := ChooseSuite(cfg.suites, ids, cfg.serverPreference, cfg.chachaPriority,
                       if cfg.psk.Some? then Some(cfg.psk.value.hash) else None);
    }

    method PickShare(ch: ClientHello) returns (r: Option<Share>)
      ensures r == ShareFor(cfg, ch)
    {
      r := None;
      if ch.shares.Some? && cfg.groups != [] {
        r := ChooseShare(cfg.groups, ch.shares.value);
      }
    }

    // The first ClientHello, or the one with a cookie
    method HandleFirstHello(ch: ClientHello, parsed: Option<Cookie>, cs: Suite, w: Reply)
      returns (r: Result<seq<Message>, Error>)
      requires cfg.suites != [] && (parsed.Some? ==> cfg.cookieKey.Some?)
      modifies this, keys, keys.sched
      ensures OnFirstHello(k, cfg, old(View()), ch, parsed, cs, w) == if r.Ok? then Ok((View(), r.value))
        else Err(r.error)
    {
      hide Negotiated, Retrying, ShareFor, FromCookie, CookieSignature, New, Signable;
      random, suite := ch.random, Some(cs);
      keys.sched.Setup(suite, []);
      FreshSlot(cs);
      var share := PickShare(ch);
      if parsed.Some? && share.Some? {
        var error := AcceptCookie(ch, parsed.value, share.value.group);
        if error.Some? {
          return Err(error.value);
        }
        r := Negotiate(ch, share, true, w);
      } else if ch.shares.Some? && cfg.groups != [] && (share.None? || cfg.enforceRetry) {
        r := SendRetry(ch, share);
      } else {
        r := Negotiate(ch, share, false, w);
      }
    }

    // decode_client_hello and the checks before anything is changed
    method CheckHello(ch: ClientHello, second: bool) returns (error: Option<Error>, parsed: Option<Cookie>)
      ensures error == HelloError(cfg, random, ch, second, if ch.cookie.Some? then ParseCookie(ch.cookie.value)
        else None)
      ensures error.None? ==> parsed == if ch.cookie.Some? then ParseCookie(ch.cookie.value) else None
    {
      hide ParseCookie;
      parsed := None;
      if ch.cookie.Some? {
        if cfg.cookieKey.None? {
          return Some(IllegalParameter), None;
        }
        parsed := ParseCookie(ch.cookie.value);
        if parsed.None? {
          return Some(DecodeError), None;
        }
      }
      if second && ch.random != random {
        return Some(HandshakeFailure), None;
      }
      if ch.identities.None? && ch.early {
        return Some(IllegalParameter), None;
      }
      if second && ch.early {
        return Some(DecodeError), None;
      }
      error := None;
    }

    // server_handle_hello
    method HandleHello(received: ClientHello, w: Reply) returns (r: Result<seq<Message>, Error>)
      requires cfg.suites != []
      modifies this, keys, keys.sched
      ensures OnHello(k, cfg, old(View()), received, w) == if r.Ok? then Ok((View(), r.value)) else Err(r.error)
    {
      hide Negotiated, OnFirstHello, SuiteFor, ShareFor, ParseCookie;
      var ch := received;
      if cfg.requireDhe {
        ch := ch.(modePsk := false);
      }
      var second := state == ExpectSecondClientHello;
      var error, parsed := CheckHello(ch, second);
      if error.Some? {
        return Err(error.value);
      }
      var cs := PickSuite(ch.suites);
      if cs.None? {
        return Err(HandshakeFailure);
      }
      if second {
        if suite != cs || keys.sched.slots == [] {
          return Err(HandshakeFailure);
        }
        var share := PickShare(ch);
        r := Negotiate(ch, share, true, w);
      } else {
        r := HandleFirstHello(ch, parsed, cs.value, w);
      }
    }

    // ------------------------------------------------------------ the client's last flight

    // server_handle_certificate
    method HandleCertificate(m: Message) returns (error: Option<Error>)
      requires m.Certificate?
      modifies this, keys.sched
      ensures OnCertificate(cfg, old(View()), m) == if error.None? then Ok(View()) else Err(error.value)
    {
      hide Update;
      if !cfg.certificateOk(m.raw) {
        return Some(BadCertificate);
      }
      keys.sched.UpdateHash(m.raw);
      state := if m.empty then ExpectFinished else ExpectCertificateVerify;
      return None;
    }

    // server_handle_certificate_verify
    method HandleCertificateVerify(m: Message) returns (error: Option<Error>)
      requires m.CertificateVerify? && keys.sched.slots != []
      modifies this, keys.sched
      ensures OnCertificateVerify(k, cfg, old(View()), m) == if error.None? then Ok(View()) else Err(error.value)
    {
      hide Update;
      if !cfg.signatureOk(TranscriptHash(k, keys.sched.View()), m.raw) {
        return Some(DecryptError);
      }
      keys.sched.UpdateHash(m.raw);
      state := ExpectFinished;
      return None;
    }

    // server_handle_end_of_early_data
    method HandleEndOfEarlyData(m: Message) returns (error: Option<Error>)
      requires m.EndOfEarlyData?
      modifies this, keys, keys.sched
      ensures OnEndOfEarlyData(old(View()), m) == if error.None? then Ok(View()) else Err(error.value)
    {
      hide Update;
      if keys.pending.None? {
        return Some(Assertion);
      }
      var secret := keys.pending.value;
      keys.pending := None;
      keys.SetupDec(2, secret);
      keys.sched.UpdateHash(m.raw);
      state := ExpectFinished;
      return None;
    }

    // server_handle_finished
    method HandleFinished(m: Message) returns (error: Option<Error>)
      requires m.Finished? && keys.sched.slots != []
      modifies this, keys, keys.sched
      ensures OnFinished(k, old(View()), m) == if error.None? then Ok(View()) else Err(error.value)
    {
      hide VerifyFinished, Update;
      error := keys.VerifyPeer(k, m.raw);
      if error.Some? {
        return;
      }
      keys.SetupDec(3, pendingTraffic);
      pendingTraffic := [];
      keys.sched.UpdateHash(m.raw);
      state := PostHandshake;
    }

    /** handle_server_handshake_message: a message that is accepted takes the connection to the state that the
        function of TlsServer gives, so that everything proved about runs of that function holds of this
        object; an assertion fails exactly when ServerSafety says so. */
    method Handle(m: Message, endOfRecord: bool, w: Reply) returns (r: Result<seq<Message>, Error>)
      requires cfg.suites != [] && Safety.Inv(cfg, View()) && Safety.Seeded(k, cfg, View())
      modifies this, keys, keys.sched
      ensures Step(k, cfg, old(View()), m, endOfRecord, w) == if r.Ok? then Ok((View(), r.value)) else Err(r.error)
      ensures r.Ok? ==> Safety.Inv(cfg, View()) && Safety.Seeded(k, cfg, View())
      ensures r == Err(Assertion) <==> Safety.Asserts(k, cfg, old(View()), m, endOfRecord, w)
    {
      hide OnHello, OnCertificate, OnCertificateVerify, OnEndOfEarlyData, OnFinished, Safety.Inv, Safety.Seeded,
        Safety.Asserts;
      ghost var before := View();
      Safety.InvHasSchedule(cfg, before);
      Safety.StepKeeps(k, cfg, before, m, endOfRecord, w);
      var error: Option<Error> := Some(UnexpectedMessage);
      r := Ok([]);
      match state {
        case ExpectClientHello | ExpectSecondClientHello =>
          error := Some(HandshakeFailure);
          if m.Hello? && endOfRecord {
            r := HandleHello(m.ch, w);
            error := if r.Err? then Some(r.error) else None;
          }
        case ExpectCertificate =>
          if m.Certificate? { error := HandleCertificate(m); }
        case ExpectCertificateVerify =>
          if m.CertificateVerify? { error := HandleCertificateVerify(m); }
        case ExpectEndOfEarlyData =>
          if m.EndOfEarlyData? { error := HandleEndOfEarlyData(m); }
        case ExpectFinished =>
          error := Some(HandshakeFailure);
          if m.Finished? && endOfRecord { error := HandleFinished(m); }
        case PostHandshake =>
      }
      if error.Some? {
        r := Err(error.value);
      }
    }
  }

  lemma PredictedKeepsSecrets(k: Crypto, cfg: Config, y: Keys)
    requires y.sched.slots != []
    ensures var r := PredictedSchedule(k, cfg, y); r.generation == y.sched.generation && r.secret == y.sched.secret
  {}

  lemma UpdateKeepsSecrets(s: Schedule, m: Data)
    ensures Update(s, m).generation == s.generation && Update(s, m).secret == s.secret
  {}

  lemma TicketAdds(k: Crypto, cfg: Config, s: Server)
    requires s.keys.sched.slots != []
    ensures SendTicket(k, cfg, s) == s.(sealed := s.sealed + [SessionOf(k, cfg, s)])
  {}

  lemma EarlyKeepsSchedule(k: Crypto, cfg: Config, y: Keys)
    requires y.sched.slots != []
    ensures EarlyKeys(k, cfg, y).sched == y.sched
  {}

  lemma UpdateNothing(s: Schedule)
    ensures UpdateAll(s, []) == s
  {}

  lemma FreshSlot(suite: Suite)
    ensures New(Some(suite), []) == Single(0, [], suite.hash, [])
  {}

  lemma OneSlot(suite: Suite, m: Data)
    ensures var s := Update(New(Some(suite), []), m);
      |s.slots| == 1 && s.generation == 0 && Algo(s) == suite.hash && Transcript(s) == m
  {
    UpdateSingle(0, [], suite.hash, [], m);
    assert [] + m == m;
  }

  lemma TransformedSlots(k: Crypto, s: Schedule)
    requires |s.slots| == 1
    ensures |TransformPostCh1(k, s).slots| == 1
  {}

  lemma UpdatedSlots(s: Schedule, m: Data)
    ensures |Update(s, m).slots| == |s.slots|
  {}
}
