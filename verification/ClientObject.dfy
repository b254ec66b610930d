/** The client as the connection object whose fields the handlers of lib/picotls.c update; each
    handler is proved against its function in module TlsClient. */
module ClientObject {
  import opened Results
  import opened Wire
  import opened KeySchedule
  import opened Messages
  import opened Schedules
  import opened TlsClient
  import Safety = ClientSafety

  // The loop over the configured suites for one with the hash of the external PSK
  method SuiteWithHash(suites: seq<Suite>, hash: nat) returns (r: Option<Suite>)
    ensures r == FirstWithHash(suites, hash)
  {
    var i := 0;
    assert suites[0..] == suites;
    while i < |suites|
      invariant 0 <= i <= |suites| && FirstWithHash(suites, hash) == FirstWithHash(suites[i..], hash)
    {
      if suites[i].hash == hash {
        return Some(suites[i]);
      }
      assert suites[i..][1..] == suites[i + 1..];
      i := i + 1;
    }
    return None;
  }

  // ptls_find_cipher_suite
  method SuiteWithId(suites: seq<Suite>, id: nat) returns (r: Option<Suite>)
    ensures r == FindSuite(suites, id)
  {
    var i := 0;
    assert suites[0..] == suites;
    while i < |suites| && suites[i].id != id
      invariant 0 <= i <= |suites| && FindSuite(suites, id) == FindSuite(suites[i..], id)
    {
      assert suites[i..][1..] == suites[i + 1..];
      i := i + 1;
    }
    r := if i < |suites| then Some(suites[i]) else None;
  }

  // The loops over the configured groups
  method HasGroup(groups: seq<nat>, id: nat) returns (r: bool)
    ensures r <==> id in groups
  {
    var i := 0;
    while i < |groups| && groups[i] != id
      invariant 0 <= i <= |groups| && id !in groups[..i]
    {
      i := i + 1;
    }
    return i < |groups|;
  }

  class Connection {
    const k: Crypto
    const cfg: Config
    const keys: KeysObject
    var state: State
    var suite: Option<Suite>
    var offeredPsk: bool
    var isPsk: bool
    var usingEarly: bool
    var keyShare: Option<nat>
    var keyShareContext: Option<Data>
    var certRequested: bool
    // What the save_ticket callback was given
    var tickets: seq<StoredTicket>

    function View(): Client
      reads this, keys, keys.sched
    {
      Client(state, suite, offeredPsk, isPsk, usingEarly, keyShare, keyShareContext, certRequested, tickets,
        keys.View())
    }

    // ptls_client_new
    constructor (k: Crypto, cfg: Config)
      ensures this.k == k && this.cfg == cfg && View() == NEW_CLIENT && fresh(keys) && fresh(keys.sched)
    {
      this.k, this.cfg := k, cfg;
      keys := new KeysObject();
      state, suite, offeredPsk, isPsk, usingEarly := HandshakeStart, None, false, false, false;
      keyShare, keyShareContext, certRequested, tickets := None, None, false, [];
    }

    // The external PSK, or else the stored ticket if its group and suite are configured
    method FindOffer() returns (offer: Option<Offer>)
      requires cfg.Valid()
      ensures offer == OfferOf(cfg)
    {
      hide FirstWithHash, FindSuite;
      if cfg.psk.Some? {
        var psk := cfg.psk.value;
        var cs := SuiteWithHash(cfg.suites, psk.hash);
        return Some(Offer(psk.secret, psk.identity, "ext binder", cs.value, None, cfg.wantsEarly));
      }
      if cfg.ticket.Some? {
        var t := cfg.ticket.value;
        var known := HasGroup(cfg.groups, t.group);
        var cs := SuiteWithId(cfg.suites, t.suite);
        if known && cs.Some? {
          return Some(Offer(t.secret, t.identity, "res binder", cs.value, Some(t.group), t.allowsEarly
            && cfg.wantsEarly));
        }
      }
      return None;
    }

    // What is offered, and the key share
    method MakeOffer(offer: Option<Offer>, second: bool, w: Draw)
      modifies this`suite, this`offeredPsk, this`usingEarly, this`keyShare, this`keyShareContext
      ensures View() == Offered(cfg, old(View()), offer, second, w)
    {
      if offer.Some? {
        offeredPsk := true;
        if !(second && cfg.psk.Some?) {
          suite := Some(offer.value.suite);
        }
        if keyShare.None? {
          keyShare := offer.value.group;
        }
        if !second && offer.value.early {
          usingEarly := true;
        }
      }
      if keyShare.None? && cfg.groups != [] && !cfg.negotiateFirst {
        keyShare := Some(cfg.groups[0]);
      }
      keyShareContext := if keyShare.Some? then Some(w.key) else None;
    }

    method StartSchedule(offer: Option<Offer>)
      requires cfg.Valid()
      modifies keys.sched
      ensures keys.sched.View() == FirstSchedule(k, cfg, suite, offer)
    {
      hide Extract, New;
      NewSlots(suite, cfg.suites);
      keys.sched.Setup(suite, cfg.suites);
      keys.sched.ExtractSecret(k, if offer.Some? then Some(offer.value.secret) else None);
    }

    // send_client_hello up to the message: what to offer, key share, key schedule
    method Prepare(offer: Option<Offer>, second: bool, w: Draw)
      requires cfg.Valid() && offer == OfferOf(cfg) && second == (keys.sched.slots != [])
      modifies this`suite, this`offeredPsk, this`usingEarly, this`keyShare, this`keyShareContext, keys.sched
      ensures View() == Prepared(k, cfg, old(View()), w)
    {
      hide OfferOf, Offered, FirstSchedule;
      OfferedKeeps(cfg, View(), offer, second, w);
      MakeOffer(offer, second, w);
      if !second {
        StartSchedule(offer);
      }
    }

    // Early traffic key and early exporter secret, which is derived but once
    method InstallEarlyKeys(offered: bool) returns (r: bool)
      requires keys.sched.slots != []
      modifies keys
      ensures r <==> !(offered && cfg.useExporter && old(keys.earlyExporter).Some?)
      ensures r ==> keys.View() == EarlyKeys(k, cfg, old(keys.View()), usingEarly, offered)
    {
      hide Derive;
      if usingEarly {
        keys.SetupEnc(1, Derive(k, keys.sched.View(), "c e traffic"));
      }
      if offered && cfg.useExporter {
        if keys.earlyExporter.Some? {
          return false;
        }
        keys.earlyExporter := Some(Derive(k, keys.sched.View(), "e exp master"));
      }
      return true;
    }

    // update_ch_hash_and_binder: the binder is computed over the hello up to it, and then hashed as well.
    method HashHello(head: Data, offer: Option<Offer>) returns (binder: Data)
      requires keys.sched.slots != []
      modifies keys.sched
      ensures var s := old(keys.sched.View());
        && binder == (if offer.Some? then BinderOf(k, s, offer.value.binderLabel, head) else [])
        && keys.sched.View() == Update(Update(s, head), if offer.Some? then BinderList(binder) else [])
    {
      hide Update, VerifyData, DeriveEmpty, BinderList;
      binder := [];
      if offer.Some? {
        var key := DeriveEmpty(k, keys.sched.View(), offer.value.binderLabel);
        keys.sched.UpdateHash(head);
        binder := VerifyData(k, keys.sched.View(), key);
        keys.sched.UpdateHash(BinderList(binder));
      } else {
        keys.sched.UpdateHash(head);
        keys.sched.UpdateHash([]);
      }
    }

    // The message, hashed
    method WriteHello(w: Draw, offer: Option<Offer>, second: bool, cookie: Option<Data>) returns (ch: ClientHello)
      requires cfg.Valid() && offer == OfferOf(cfg) && keys.sched.slots != []
      modifies keys.sched
      ensures ch == HelloMessage(k, cfg, old(View()), w, second, cookie)
      ensures keys.sched.View() == Update(Update(old(keys.sched.View()), ch.head), ch.tail)
    {
      hide EncodeHello, OfferOf, Update, BinderOf, BinderList;
      var head := HeadOf(w, cookie);
      var binder := HashHello(head, offer);
      ch := EncodeHello(cfg, head, keyShare, keyShareContext, offer, binder, usingEarly && !second, cookie);
      EncodedParts(cfg, head, keyShare, keyShareContext, offer, binder, usingEarly && !second, cookie);
    }

    // The sizes of the hello while it is being encoded: of its extensions and of all of it
    method MeasureHello(w: Draw, offer: Option<Offer>, cookie: Option<Data>) returns (extensions: nat, size: nat)
      requires keys.sched.slots != []
      ensures extensions == ExtensionsSize(k, w, cookie, offer, Algo(keys.sched.View()))
      ensures size == HelloSize(k, w, cookie, offer, Algo(keys.sched.View()))
    {
      extensions := |w.before|;
      if cookie.Some? {
        extensions := extensions + 6 + |cookie.value|;
      }
      extensions := extensions + |w.after|;
      if offer.Some? {
        extensions := extensions + 2 + 1 + k.size(keys.sched.slots[0].algo);
      }
      size := |w.start| + extensions;
    }

    // send_client_hello once the message is hashed: commit_record_message, then the early keys
    method CommitHello(size: nat, second: bool, offered: bool, retried: bool) returns (error: Option<Error>)
      requires keys.sched.slots != []
      modifies this`state, keys
      ensures HelloSent(k, cfg, old(View()), size, second, offered, retried)
           == if error.None? then Ok(View()) else Err(error.value)
    {
      hide EarlyKeys;
      if size > MAX_PLAINTEXT {
        return Some(Assertion);
      }
      if usingEarly && second {
        return Some(Assertion);
      }
      var installed := InstallEarlyKeys(offered);
      if !installed {
        return Some(Assertion);
      }
      state := if retried then ExpectSecondServerHello else ExpectServerHello;
      return None;
    }

    // send_client_hello
    method SendClientHello(w: Draw, retry: Option<Option<Data>>) returns (r: Result<ClientHello, Error>)
      requires cfg.Valid()
      modifies this, keys, keys.sched
      ensures SendHello(k, cfg, old(View()), w, retry) == if r.Ok? then Ok((View(), r.value)) else Err(r.error)
    {
      hide Prepared, HelloMessage, OfferOf, HelloSent, Update, ExtensionsSize, HelloSize;
      var second := keys.sched.slots != [];
      if second && cfg.psk.Some? && (suite.None? || suite.value.hash != cfg.psk.value.hash) {
        return Err(Assertion);
      }
      if keyShareContext.Some? {
        return Err(Assertion);
      }
      var offer := FindOffer();
      Prepare(offer, second, w);
      var cookie := if retry.Some? then retry.value else None;
      var extensions, size := MeasureHello(w, offer, cookie);
      if extensions > MAX_BLOCK {
        return Err(BlockOverflow);
      }
      var ch := WriteHello(w, offer, second, cookie);
      var error := CommitHello(size, second, offer.Some? && !second, retry.Some?);
      r := if error.None? then Ok(ch) else Err(error.value);
    }

    // The checks that decode_server_hello and client_handle_hello make on both kinds of ServerHello, and the
    // suite, which is kept at once
    method DecodeHello(id: nat, share: bool, sessionId: Data) returns (error: Option<Error>)
      modifies this`suite
      ensures suite == FindSuite(cfg.suites, id)
      ensures error ==
        if suite.None? then Some(IllegalParameter)
        else if share && cfg.groups == [] then Some(HandshakeFailure)
        else if sessionId != cfg.sessionId then Some(IllegalParameter)
        else None
    {
      suite := SuiteWithId(cfg.suites, id);
      if suite.None? {
        return Some(IllegalParameter);
      }
      if share && cfg.groups == [] {
        return Some(HandshakeFailure);
      }
      if sessionId != cfg.sessionId {
        return Some(IllegalParameter);
      }
      return None;
    }

    // client_handle_hello and handle_hello_retry_request
    method HandleRetry(m: Message, w: Draw) returns (r: Result<ClientHello, Error>)
      requires cfg.Valid() && m.Retry? && Distinct(keys.sched.slots)
      modifies this, keys, keys.sched
      ensures OnRetry(k, cfg, old(View()), m, w) == if r.Ok? then Ok((View(), r.value)) else Err(r.error)
    {
      hide SendHello, SelectCipher, TransformPostCh1, Update, FindSuite;
      var error := DecodeHello(m.suite, m.group.Some?, m.sessionId);
      if error.Some? {
        return Err(error.value);
      }
      if keys.sched.generation != 1 {
        return Err(Assertion);
      }
      var ikm := if cfg.psk.Some? then Some(cfg.psk.value.secret) else None;
      ghost var before := keys.sched.View();
      var tracked := keys.sched.Select(k, suite.value.hash, false, ikm);
      if !tracked {
        return Err(Untracked);
      }
      Safety.SelectShape(k, before, suite.value.hash, false, ikm);
      keys.sched.TransformCh1(k);
      keys.sched.UpdateHash(m.raw);
      keyShareContext := None;
      usingEarly := false;
      if m.group.Some? {
        var known := HasGroup(cfg.groups, m.group.value);
        if !known {
          return Err(IllegalParameter);
        }
        keyShare := m.group;
      } else if keyShare.None? {
        return Err(IllegalParameter);
      }
      r := SendClientHello(w, Some(m.cookie));
    }

    // client_handle_hello
    method HandleServerHello(m: Message) returns (error: Option<Error>)
      requires m.ServerHello? && Distinct(keys.sched.slots)
      modifies this, keys, keys.sched
      ensures OnServerHello(k, cfg, old(View()), m) == if error.None? then Ok(View()) else Err(error.value)
    {
      hide SelectCipher, HandshakeKeys, Extract, FindSuite, Update, DecodingError;
      error := DecodeServerHello(m);
      if error.Some? {
        return;
      }
      if keys.sched.generation != 1 {
        return Some(Assertion);
      }
      ghost var before := keys.sched.View();
      var reset := offeredPsk && !isPsk;
      var tracked := keys.sched.Select(k, suite.value.hash, reset, None);
      if !tracked {
        return Some(Untracked);
      }
      Safety.SelectShape(k, before, suite.value.hash, reset, None);
      if cfg.psk.Some? && !isPsk {
        return Some(HandshakeFailure);
      }
      keys.sched.UpdateHash(m.raw);
      if m.share.Some? && keyShareContext.None? {
        return Some(Assertion);
      }
      var secret: Option<Data> := None;
      if m.share.Some? {
        secret := Some(k.exchange(m.share.value.group, keyShareContext.value, m.share.value.key));
      }
      InstallHandshakeKeys(secret);
      state := ExpectEncryptedExtensions;
    }

    // decode_server_hello, and the session id; the suite, and that a PSK is used, are kept at once.
    method DecodeServerHello(m: Message) returns (error: Option<Error>)
      requires m.ServerHello?
      modifies this`suite, this`isPsk
      ensures error == DecodingError(cfg, old(View()), m)
      ensures error.None? ==> suite == FindSuite(cfg.suites, m.suite) && isPsk == (old(isPsk) || m.identity.Some?)
    {
      hide FindSuite;
      suite := SuiteWithId(cfg.suites, m.suite);
      if suite.None? {
        return Some(IllegalParameter);
      }
      if m.share.Some? {
        if cfg.groups == [] {
          return Some(HandshakeFailure);
        }
        if keyShare.None? || keyShare.value != m.share.value.group {
          return Some(IllegalParameter);
        }
      }
      if m.identity.Some? {
        if !offeredPsk {
          return Some(IllegalParameter);
        }
        if m.identity.value != 0 {
          return Some(IllegalParameter);
        }
        isPsk := true;
      }
      if m.share.None? && !isPsk {
        return Some(IllegalParameter);
      }
      if m.sessionId != cfg.sessionId {
        return Some(IllegalParameter);
      }
      return None;
    }

    method InstallHandshakeKeys(secret: Option<Data>)
      requires keys.sched.slots != []
      modifies keys, keys.sched
      ensures Extract(k, old(keys.sched.View()), secret).slots != []
      ensures keys.View() ==
        HandshakeKeys(k, old(keys.View()).(sched := Extract(k, old(keys.sched.View()), secret)), usingEarly)
    {
      hide Derive, Extract;
      ExtractKeepsSlots(k, keys.sched.View(), secret);
      keys.sched.ExtractSecret(k, secret);
      keys.SetupDec(2, Derive(k, keys.sched.View(), "s hs traffic"));
      if usingEarly {
        keys.pending := Some(Derive(k, keys.sched.View(), "c hs traffic"));
      } else {
        keys.SetupEnc(2, Derive(k, keys.sched.View(), "c hs traffic"));
      }
    }

    // client_handle_encrypted_extensions
    method HandleEncryptedExtensions(m: Message) returns (error: Option<Error>)
      requires m.EncryptedExtensions?
      modifies this, keys.sched
      ensures OnEncryptedExtensions(old(View()), m) == if error.None? then Ok(View()) else Err(error.value)
    {
      hide Update;
      if m.early && !usingEarly {
        return Some(IllegalParameter);
      }
      if usingEarly && !m.early {
        usingEarly := false;
      }
      keys.sched.UpdateHash(m.raw);
      state := if isPsk then ExpectFinished else ExpectCertificateRequestOrCertificate;
      return None;
    }

    // client_handle_certificate_request
    method HandleCertificateRequest(m: Message) returns (error: Option<Error>)
      requires m.CertificateRequest?
      modifies this, keys.sched
      ensures OnCertificateRequest(old(View()), m) == if error.None? then Ok(View()) else Err(error.value)
    {
      hide Update;
      if isPsk {
        return Some(Assertion);
      }
      certRequested := true;
      state := ExpectCertificate;
      keys.sched.UpdateHash(m.raw);
      return None;
    }

    // client_handle_certificate
    method HandleCertificate(m: Message) returns (error: Option<Error>)
      requires m.Certificate?
      modifies this, keys.sched
      ensures OnCertificate(cfg, old(View()), m) == if error.None? then Ok(View()) else Err(error.value)
    {
      hide Update;
      if !cfg.certificateOk(m.raw) {
        return Some(BadCertificate);
      }
      if m.empty {
        return Some(IllegalParameter);
      }
      keys.sched.UpdateHash(m.raw);
      state := ExpectCertificateVerify;
      return None;
    }

    // client_handle_certificate_verify
    method HandleCertificateVerify(m: Message) returns (error: Option<Error>)
      requires m.CertificateVerify? && keys.sched.slots != []
      modifies this, keys.sched
      ensures OnCertificateVerify(k, cfg, old(View()), m) == if error.None? then Ok(View()) else Err(error.value)
    {
      hide Update;
      if !cfg.signatureOk(TranscriptHash(k, keys.sched.View()), m.raw) {
        return Some(DecryptError);
      }
      keys.sched.UpdateHash(m.raw);
      state := ExpectFinished;
      return None;
    }

    // The read key for application data and the exporter secret
    method InstallReadKey() returns (r: bool)
      requires keys.sched.slots != []
      modifies keys
      ensures r <==> !(cfg.useExporter && old(keys.exporter).Some?)
      ensures r ==> keys.View() == ReadKeys(k, cfg, old(keys.View()))
    {
      hide Derive;
      keys.SetupDec(3, Derive(k, keys.sched.View(), "s ap traffic"));
      if cfg.useExporter {
        if keys.exporter.Some? {
          return false;
        }
        keys.exporter := Some(Derive(k, keys.sched.View(), "exp master"));
      }
      return true;
    }

    // The end of early data, and commission_handshake_secret
    method LeaveEarly() returns (sent: seq<Message>)
      modifies this`usingEarly, keys, keys.sched
      ensures sent == EarlyEnd(cfg, old(keys.pending).Some?, old(usingEarly))
      ensures usingEarly == (old(usingEarly) && old(keys.pending).None?)
      ensures keys.View() == Commissioned(old(keys.View())).(sched := UpdateAll(old(keys.sched.View()), sent))
    {
      sent := [];
      if keys.pending.Some? {
        if usingEarly && !cfg.omitEndOfEarlyData {
          sent := [EndOfEarlyData(END_OF_EARLY_DATA)];
          keys.Emit(sent);
        }
        usingEarly := false;
        var secret := keys.pending.value;
        keys.pending := None;
        keys.SetupEnc(2, secret);
      }
    }

    // send_certificate and send_certificate_verify
    method SendCredentials(w: LastFlight) returns (sent: seq<Message>)
      requires keys.sched.slots != []
      modifies keys.sched
      ensures sent == Credentials(k, old(keys.sched.View()), w)
      ensures keys.sched.View() == UpdateAll(old(keys.sched.View()), sent)
    {
      hide UpdateAll, Update;
      ghost var s := keys.sched.View();
      sent := [w.certificate];
      UpdateOne(s, w.certificate);
      keys.Emit(sent);
      if w.sign.Some? {
        var verify := CertificateVerify(w.sign.value(TranscriptHash(k, keys.sched.View())));
        UpdateAllAppend(s, sent, [verify]);
        keys.Emit([verify]);
        sent := sent + [verify];
      }
    }

    // client_handle_finished once the keys for reading are there
    method SendLastFlight(sendSecret: Data, w: LastFlight) returns (sent: seq<Message>)
      requires keys.sched.slots != []
      modifies this, keys, keys.sched
      ensures (View(), sent) == Concluded(k, cfg, old(View()), sendSecret, w)
    {
      hide UpdateAll, Update, FinishedMessage, Commissioned, EarlyEnd, Credentials;
      ghost var s, y := keys.sched.View(), keys.View();
      sent := LeaveEarly();
      if certRequested {
        var credentials := SendCredentials(w);
        UpdateAllAppend(s, sent, credentials);
        sent := sent + credentials;
        certRequested := false;
      }
      assert sent == BeforeFinished(k, cfg, old(View()), s, w);
      var fin := FinishedMessage(k, keys.sched.View(), keys.enc.secret);
      keys.sched.UpdateHash(fin);
      keys.SetupEnc(3, sendSecret);
      state := PostHandshake;
      sent := sent + [Finished(fin)];
    }

    // client_handle_finished
    method HandleFinished(m: Message, w: LastFlight) returns (r: Result<seq<Message>, Error>)
      requires m.Finished? && keys.sched.slots != []
      modifies this, keys, keys.sched
      ensures OnFinished(k, cfg, old(View()), m, w) == if r.Ok? then Ok((View(), r.value)) else Err(r.error)
    {
      hide Extract, Derive, Update, VerifyFinished, ReadKeys, Concluded;
      var error := keys.VerifyPeer(k, m.raw);
      if error.Some? {
        return Err(error.value);
      }
      keys.sched.UpdateHash(m.raw);
      ExtractKeepsSlots(k, keys.sched.View(), None);
      keys.sched.ExtractSecret(k, None);
      var sendSecret := Derive(k, keys.sched.View(), "c ap traffic");
      var installed := InstallReadKey();
      if !installed {
        return Err(Assertion);
      }
      var sent := SendLastFlight(sendSecret, w);
      return Ok(sent);
    }

    // client_handle_new_session_ticket
    method HandleTicket(m: Message) returns (error: Option<Error>)
      requires m.NewSessionTicket? && keys.sched.slots != []
      modifies this`tickets
      ensures OnTicket(k, cfg, old(View()), m) == if error.None? then Ok(View()) else Err(error.value)
    {
      hide Resumption;
      if !cfg.savesTickets {
        return None;
      }
      if keyShare.None? || suite.None? {
        return Some(NoKeyShare);
      }
      var secret := Resumption(k, keys.sched.View(), m.nonce);
      tickets := tickets + [StoredTicket(m.ticket, secret, suite.value.id, keyShare.value, m.early)];
      return None;
    }

    /** handle_client_handshake_message: whatever arrives, a message that is accepted takes the connection
        to the state that the function of TlsClient gives, so that everything proved about runs of that
        function holds of this object; in particular the invariant of ClientSafety is kept. */
    method Handle(m: Message, endOfRecord: bool, w: Draw, l: LastFlight) returns (r: Result<seq<Message>, Error>)
      requires cfg.Valid() && Safety.Inv(View())
      modifies this, keys, keys.sched
      ensures Step(k, cfg, old(View()), m, endOfRecord, w, l) == if r.Ok? then Ok((View(), r.value)) else Err(r.error)
      ensures r.Ok? ==> Safety.Inv(View())
    {
      hide OnRetry, OnServerHello, OnEncryptedExtensions, OnCertificateRequest, OnCertificate, OnCertificateVerify,
        OnFinished, OnTicket, Safety.Inv;
      ghost var before := View();
      Safety.InvHasSchedule(before);
      var error: Option<Error> := Some(UnexpectedMessage);
      r := Ok([]);
      match state {
        case ExpectServerHello | ExpectSecondServerHello =>
          if m.Retry? && endOfRecord {
            var ch := HandleRetry(m, w);
            error := if ch.Ok? then None else Some(ch.error);
            r := if ch.Ok? then Ok([Hello(ch.value)]) else r;
          } else if m.ServerHello? && endOfRecord {
            error := HandleServerHello(m);
          }
        case ExpectEncryptedExtensions =>
          if m.EncryptedExtensions? { error := HandleEncryptedExtensions(m); }
        case ExpectCertificateRequestOrCertificate =>
          if m.CertificateRequest? { error := HandleCertificateRequest(m); }
          else if m.Certificate? { error := HandleCertificate(m); }
        case ExpectCertificate =>
          if m.Certificate? { error := HandleCertificate(m); }
        case ExpectCertificateVerify =>
          if m.CertificateVerify? { error := HandleCertificateVerify(m); }
        case ExpectFinished =>
          if m.Finished? && endOfRecord {
            var sent := HandleFinished(m, l);
            error := if sent.Ok? then None else Some(sent.error);
            r := if sent.Ok? then sent else r;
          }
        case PostHandshake =>
          if m.NewSessionTicket? { error := HandleTicket(m); }
        case HandshakeStart =>
      }
      if error.Some? {
        r := Err(error.value);
      } else {
        Safety.StepKeeps(k, cfg, before, m, endOfRecord, w, l);
      }
    }
  }

  lemma EncodedParts(cfg: Config, head: Data, group: Option<nat>, share: Option<Data>, offer: Option<Offer>,
      binder: Data, early: bool, cookie: Option<Data>)
    ensures var ch := EncodeHello(cfg, head, group, share, offer, binder, early, cookie);
      ch.head == head && ch.tail == if offer.Some? then BinderList(binder) else []
  {}

  lemma OfferedKeeps(cfg: Config, c: Client, offer: Option<Offer>, second: bool, w: Draw)
    ensures Offered(cfg, c, offer, second, w).keys == c.keys
  {}

  lemma NewSlots(preferred: Option<Suite>, offered: seq<Suite>)
    requires offered != []
    ensures New(preferred, offered).slots != []
  {
    FirstSlotsShape(preferred, offered, |offered|);
  }
}
