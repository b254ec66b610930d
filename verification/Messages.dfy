/** Handshake messages: the bytes that enter the transcript together with the decoded
    fields that the handlers of lib/picotls.c act on. */
module Messages {
  import opened Results
  import opened Wire
  import opened KeySchedule

  datatype Error =
    | UnexpectedMessage | HandshakeFailure | IllegalParameter | DecodeError | DecryptError
    | MissingExtension | UnknownPskIdentity | BadCertificate
    | StatelessRetry(retry: Data)
    // An assertion of the source fails.
    | Assertion
    // The selected hash is not tracked: key_schedule_select_cipher reads past the slots.
    | Untracked
    // A ticket arrives that is to be saved, and there is no key share: its id is read all the same.
    | NoKeyShare
    // A binder is shorter than the digest it is compared with: the comparison reads past it.
    | ShortBinder
    // A binder is longer than the buffer it is reported in: the copy writes past that.
    | BinderOverflow
    // A cookie is to be signed, and there is no key: it is read all the same.
    | NoCookieKey
    // A block does not fit its length prefix.
    | BlockOverflow

  datatype Share = Share(group: nat, key: Data)

  datatype Identity = Identity(name: Data, binder: Data)

  // The cookie extension as decode_client_hello takes it apart.
  datatype Cookie = Cookie(all: Data, tbs: Data, ch1Hash: Data, sentKeyShare: bool, signature: Data)

  // The message is head + tail, where tail is the list of binders when there is one.
  datatype ClientHello = ClientHello(
    head: Data,
    tail: Data,
    random: Data,
    sessionId: Data,
    suites: seq<nat>,
    shares: Option<seq<Share>>,
    groups: Option<seq<nat>>,
    cookie: Option<Data>,
    identities: Option<seq<Identity>>,
    modePsk: bool,
    modeDhe: bool,
    early: bool,
    newSessions: nat,
    resumptions: nat)
  {
    function Raw(): Data { head + tail }
  }

  datatype Message =
    | Hello(ch: ClientHello)
    | Retry(raw: Data, sessionId: Data, suite: nat, group: Option<nat>, cookie: Option<Data>)
    | ServerHello(raw: Data, sessionId: Data, suite: nat, share: Option<Share>, identity: Option<nat>)
    | EncryptedExtensions(raw: Data, early: bool)
    | CertificateRequest(raw: Data)
    | Certificate(raw: Data, empty: bool)
    | CertificateVerify(raw: Data)
    | Finished(raw: Data)
    | EndOfEarlyData(raw: Data)
    | NewSessionTicket(raw: Data, nonce: Data, ticket: Data, early: bool)

  const END_OF_EARLY_DATA: Data := [5, 0, 0, 0]

  // ---------------------------------------------------------------- suites

  function FirstWithHash(suites: seq<Suite>, hash: nat): (r: Option<Suite>)
    ensures r.Some? ==> r.value in suites && r.value.hash == hash
  {
    if suites == [] then None
    else if suites[0].hash == hash then Some(suites[0])
    else FirstWithHash(suites[1..], hash)
  }

  // ptls_find_cipher_suite
  function FindSuite(suites: seq<Suite>, id: nat): (r: Option<Suite>)
    ensures r.Some? ==> r.value in suites && r.value.id == id
    ensures r.None? ==> forall s | s in suites :: s.id != id
  {
    if suites == [] then None
    else if suites[0].id == id then Some(suites[0])
    else FindSuite(suites[1..], id)
  }

  // ---------------------------------------------------------------- transcripts

  function Raw(m: Message): Data { if m.Hello? then m.ch.Raw() else m.raw }

  // Emitting messages with ptls_push_message feeds them to the transcript in order.
  function UpdateAll(s: Schedule, ms: seq<Message>): (r: Schedule)
    ensures |r.slots| == |s.slots|
    decreases |ms|
  {
    if ms == [] then s else UpdateAll(Update(s, Raw(ms[0])), ms[1..])
  }

  // verify_finished
  function VerifyFinished(k: Crypto, s: Schedule, secret: Data, raw: Data): Option<Error>
    requires s.slots != []
  {
    if |raw| != 4 + k.size(Algo(s)) then Some(DecodeError)
    else if raw[4..] != VerifyData(k, s, secret) then Some(HandshakeFailure)
    else None
  }

  // ---------------------------------------------------------------- traffic keys

  datatype Traffic = Traffic(epoch: nat, secret: Data)

  const PLAINTEXT := Traffic(0, [])

  // key_schedule, traffic_protection, the secrets kept for later, and all the keys that
  // setup_traffic_protection installed and logged so far, by direction.
  datatype Keys = Keys(
    sched: Schedule,
    enc: Traffic,
    dec: Traffic,
    pending: Option<Data>,
    earlyExporter: Option<Data>,
    exporter: Option<Data>,
    encLog: seq<Traffic>,
    decLog: seq<Traffic>)

  const NO_KEYS := Keys(NO_SCHEDULE, PLAINTEXT, PLAINTEXT, None, None, None, [], [])

  // setup_traffic_protection for either direction, given the secret
  function InstallEnc(y: Keys, epoch: nat, secret: Data): Keys
  {
    y.(enc := Traffic(epoch, secret), encLog := y.encLog + [Traffic(epoch, secret)])
  }

  function InstallDec(y: Keys, epoch: nat, secret: Data): Keys
  {
    y.(dec := Traffic(epoch, secret), decLog := y.decLog + [Traffic(epoch, secret)])
  }

  datatype ExternalPsk = ExternalPsk(identity: Data, secret: Data, hash: nat)

  // ---------------------------------------------------------------- HelloRetryRequest

  const SUPPORTED_VERSIONS: nat := 43
  const COOKIE: nat := 44
  const KEY_SHARE: nat := 51

  // PTLS_PROTOCOL_VERSION_TLS13, the one supported version
  const TLS13: nat := 0x0304

  // hello_retry_random
  const RETRY_RANDOM: Data := [
    0xCF, 0x21, 0xAD, 0x74, 0xE5, 0x9A, 0x61, 0x11, 0xBE, 0x1D, 0x8C, 0x02, 0x1E, 0x65, 0xB8, 0x91,
    0xC2, 0xA2, 0x11, 0x16, 0x7A, 0xBB, 0x8C, 0x5E, 0x07, 0x9E, 0x09, 0xE2, 0xC8, 0xA8, 0x33, 0x9C]

  // EMIT_HELLO_RETRY_REQUEST; cookie is the content of the cookie extension.
  function EncodeRetry(sessionId: Data, suite: nat, group: Option<nat>, cookie: Option<Data>): Data
  {
    Wire.Message(2,
      [3, 3] + RETRY_RANDOM + Block1(sessionId) + Be16(suite) + [0] +
      Block2(
        Extension(SUPPORTED_VERSIONS, Be16(TLS13)) +
        (if group.Some? then Extension(KEY_SHARE, Be16(group.value)) else []) +
        (if cookie.Some? then Extension(COOKIE, cookie.value) else [])))
  }

  // ---------------------------------------------------------------- cookies

  // What the server signs besides the to-be-signed part of the cookie.
  datatype CookieContext = CookieContext(random: Data, serverName: Data, suite: nat, group: nat, extra: Data)

  // The input of the HMAC in calc_cookie_signature
  function SignedBytes(c: CookieContext, tbs: Data): Data
  {
    Block1(c.random) + Block1(c.serverName) + Be16(c.suite) + Be16(c.group) + Block1(c.extra) + Block1(tbs)
  }

  // The to-be-signed part: the hash of the first ClientHello and the key_share flag.
  function ToBeSigned(ch1Hash: Data, sentKeyShare: bool): Data
  {
    Block2(Block1(ch1Hash) + [if sentKeyShare then 1 else 0])
  }

  // The content of the cookie extension
  function EncodeCookie(tbs: Data, signature: Data): Data
  {
    Block2(tbs + Block1(signature))
  }

  // The cookie case of decode_client_hello; all is the content of the extension.
  function ParseCookie(all: Data): Option<Cookie>
  {
    var o := Open2(all);
    if o.None? || o.value.1 != [] then None
    else
      var body := o.value.0;
      var t := Open2(body);
      if t.None? then None
      else
        var h := Open1(t.value.0);
        var g := Open1(t.value.1);
        if h.None? || |h.value.1| != 1 || h.value.1[0] > 1 then None
        else if g.None? || g.value.1 != [] then None
        else Some(Cookie(all, body[..|body| - |t.value.1|], h.value.0, h.value.1[0] == 1, g.value.0))
  }
}
