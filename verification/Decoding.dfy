/** The decoders of lib/picotls.c for the messages whose bytes the server writes itself: what it puts into a
    HelloRetryRequest and a NewSessionTicket is what a client reads. */
module Decoding {
  import opened Results
  import opened Wire
  import opened KeySchedule
  import opened Messages
  import S = TlsServer

  // ---------------------------------------------------------------- extensions

  datatype Place = InRetry | InTicket

  // The extensions that extension_bitmap_testandset knows: server_name, status_request, supported_groups,
  // signature_algorithms, ALPN, server_certificate_type, compress_certificate, pre_shared_key, early_data,
  // supported_versions, cookie, psk_key_exchange_modes, key_share, ECH and its outer extensions
  const KNOWN: set<nat> := {0, 5, 10, 13, 16, 20, 27, 41, 42, 43, 44, 45, 51, 0xfe0d, 0xfd00}

  function Allowed(place: Place): set<nat>
  {
    match place
    case InRetry => {43, 44, 51, 0xfe0d}
    case InTicket => {42}
  }

  datatype Ext = Ext(id: nat, body: Data)

  // decode_extensions; seen are those that came before.
  function ParseExtensions(place: Place, s: Data, seen: set<nat>): Option<seq<Ext>>
    decreases |s|
  {
    if s == [] then Some([])
    else if |s| < 2 then None
    else
      var id, o := Number16(s), Open2(s[2..]);
      if (id in KNOWN && (id !in Allowed(place) || id in seen)) || o.None? then None
      else
        var rest := ParseExtensions(place, o.value.1, seen + {id});
        if rest.None? then None else Some([Ext(id, o.value.0)] + rest.value)
  }

  function Find(exts: seq<Ext>, id: nat): Option<Data>
  {
    if exts == [] then None else if exts[0].id == id then Some(exts[0].body) else Find(exts[1..], id)
  }

  // The block of extensions that ends a message
  function ExtensionsAt(place: Place, s: Data): Option<seq<Ext>>
  {
    var o := Open2(s);
    if o.None? || o.value.1 != [] then None else ParseExtensions(place, o.value.0, {})
  }

  lemma ExtensionParsed(place: Place, id: nat, body: Data, rest: Data, seen: set<nat>)
    requires id < 0x1_0000 && |body| < 0x1_0000 && (id in KNOWN ==> id in Allowed(place) && id !in seen)
    ensures ParseExtensions(place, Extension(id, body) + rest, seen) ==
      var more := ParseExtensions(place, rest, seen + {id});
      if more.None? then None else Some([Ext(id, body)] + more.value)
  {
    hide Be16, Number16, Open2;
    var s := Extension(id, body) + rest;
    assert s == Be16(id) + (Block2(body) + rest);
    Number16Prefix(id, Block2(body) + rest);
    Open2Of(body, rest);
  }

  // ---------------------------------------------------------------- HelloRetryRequest

  // What a retry asks for
  datatype Request = Request(sessionId: Data, suite: nat, group: Option<nat>, cookie: Option<Data>)

  // The extensions of a retry: the version, at most a group and a cookie
  function RequestIn(sessionId: Data, suite: nat, exts: seq<Ext>): Option<Request>
  {
    var version, group, cookie := Find(exts, 43), Find(exts, 51), Find(exts, 44);
    var c := if cookie.Some? then Open2(cookie.value) else None;
    if version != Some([3, 4]) then None
    else if group.Some? && |group.value| != 2 then None
    else if cookie.Some? && (c.None? || c.value.1 != [] || c.value.0 == []) then None
    else
      Some(Request(sessionId, suite, if group.Some? then Some(Number16(group.value)) else None,
        if c.Some? then Some(c.value.0) else None))
  }

  // decode_server_hello on a message that is a HelloRetryRequest
  function DecodeRetry(raw: Data): Option<Request>
  {
    if |raw| < 38 || raw[0] != 2 || raw[1..4] != Be24(|raw| - 4) || raw[6..38] != RETRY_RANDOM then None
    else
      var id := Open1(raw[38..]);
      if id.None? || |id.value.0| > 32 || |id.value.1| < 3 || id.value.1[2] != 0 then None
      else
        var exts := ExtensionsAt(InRetry, id.value.1[3..]);
        if exts.None? then None else RequestIn(id.value.0, Number16(id.value.1), exts.value)
  }

  function Versions(): Data { Extension(43, [3, 4]) }

  function Groups(group: Option<nat>): Data { if group.Some? then Extension(51, Be16(group.value)) else [] }

  function Cookies(cookie: Option<Data>): Data { if cookie.Some? then Extension(44, Block2(cookie.value)) else [] }

  function GroupExt(group: Option<nat>): seq<Ext>
  {
    if group.Some? then [Ext(51, Be16(group.value))] else []
  }

  function CookieExt(cookie: Option<Data>): seq<Ext>
  {
    if cookie.Some? then [Ext(44, Block2(cookie.value))] else []
  }

  function ExtsOf(group: Option<nat>, cookie: Option<Data>): seq<Ext>
  {
    [Ext(43, [3, 4])] + (GroupExt(group) + CookieExt(cookie))
  }

  // Sizes that the length prefixes can hold
  predicate RetryFits(sessionId: Data, suite: nat, group: Option<nat>, cookie: Option<Data>)
  {
    && |sessionId| <= 32 && suite < 0x1_0000 && (group.Some? ==> group.value < 0x1_0000)
    && (cookie.Some? ==> 0 < |cookie.value| < 65518)
  }

  lemma RetryExtensionsParsed(group: Option<nat>, cookie: Option<Data>)
    requires RetryFits([], 0, group, cookie)
    ensures ParseExtensions(InRetry, Versions() + Groups(group) + Cookies(cookie), {}) == Some(ExtsOf(group, cookie))
  {
    hide Be16, Extension, ParseExtensions;
    var g, c := Groups(group), Cookies(cookie);
    assert ParseExtensions(InRetry, [], {43, 51, 44}) == Some([]) && ParseExtensions(InRetry, [], {43, 51}) == Some([])
      && ParseExtensions(InRetry, [], {43, 44}) == Some([]) && ParseExtensions(InRetry, [], {43}) == Some([]) by {
      NoExtensions({43, 51, 44});
      NoExtensions({43, 51});
      NoExtensions({43, 44});
      NoExtensions({43});
    }
    assert {} + {43} == {43} && {43} + {51} == {43, 51};
    assert {43, 51} + {44} == {43, 51, 44} && {43} + {44} == {43, 44};
    if cookie.Some? {
      assert c + [] == c;
      ExtensionParsed(InRetry, 44, Block2(cookie.value), [], {43, 51});
      ExtensionParsed(InRetry, 44, Block2(cookie.value), [], {43});
    }
    var more := CookieExt(cookie);
    assert more + [] == more;
    assert ParseExtensions(InRetry, c, {43, 51}) == Some(more) && ParseExtensions(InRetry, c, {43}) == Some(more);
    if group.Some? {
      ExtensionParsed(InRetry, 51, Be16(group.value), c, {43});
    } else {
      assert g + c == c && GroupExt(group) + more == more;
    }
    assert ParseExtensions(InRetry, g + c, {43}) == Some(GroupExt(group) + more);
    ExtensionParsed(InRetry, 43, [3, 4], g + c, {});
    assert Versions() + g + c == Versions() + (g + c);
  }

  lemma NoExtensions(seen: set<nat>)
    ensures ParseExtensions(InRetry, [], seen) == Some([]) && ParseExtensions(InTicket, [], seen) == Some([])
  {}

  lemma RequestRead(sessionId: Data, suite: nat, group: Option<nat>, cookie: Option<Data>)
    requires RetryFits(sessionId, suite, group, cookie)
    ensures RequestIn(sessionId, suite, ExtsOf(group, cookie)) == Some(Request(sessionId, suite, group, cookie))
  {
    hide Be16, Number16, Open2, Find, ExtsOf;
    FindIn(group, cookie, 43);
    FindIn(group, cookie, 51);
    FindIn(group, cookie, 44);
    if group.Some? {
      Number16Of(group.value);
    }
    if cookie.Some? {
      Open2Of(cookie.value, []);
      assert Block2(cookie.value) + [] == Block2(cookie.value);
    }
  }

  lemma FindFirst(e: Ext, rest: seq<Ext>, id: nat)
    ensures Find([e] + rest, id) == if e.id == id then Some(e.body) else Find(rest, id)
  {
    assert ([e] + rest)[1..] == rest;
  }

  lemma FindIn(group: Option<nat>, cookie: Option<Data>, id: nat)
    ensures Find(ExtsOf(group, cookie), id) ==
      if id == 43 then Some([3, 4])
      else if id == 51 && group.Some? then Some(Be16(group.value))
      else if id == 44 && cookie.Some? then Some(Block2(cookie.value))
      else None
  {
    hide Be16;
    var c := CookieExt(cookie);
    FindFirst(Ext(43, [3, 4]), GroupExt(group) + c, id);
    if cookie.Some? {
      FindFirst(c[0], [], id);
      assert c == [c[0]] + [];
    }
    if group.Some? {
      FindFirst(GroupExt(group)[0], c, id);
    } else {
      assert GroupExt(group) + c == c;
    }
  }

  /** What a HelloRetryRequest is made of is what a client takes from it. */
  lemma RetryRoundTrip(sessionId: Data, suite: nat, group: Option<nat>, cookie: Option<Data>)
    requires RetryFits(sessionId, suite, group, cookie)
    ensures var content := if cookie.Some? then Some(Block2(cookie.value)) else None;
      DecodeRetry(EncodeRetry(sessionId, suite, group, content)) == Some(Request(sessionId, suite, group, cookie))
  {
    hide Be16, Number16, Be24, Open1, ExtensionsAt, ExtsOf, RequestIn, EncodeRetry, Block1, Block2;
    var content := if cookie.Some? then Some(Block2(cookie.value)) else None;
    var raw := EncodeRetry(sessionId, suite, group, content);
    var exts := Versions() + Groups(group) + Cookies(cookie);
    RetryLayout(sessionId, suite, group, cookie, exts, raw);
    var rest := Be16(suite) + [0] + Block2(exts);
    Open1Of(sessionId, rest);
    AfterSessionId(suite, group, cookie, exts, rest);
    RequestRead(sessionId, suite, group, cookie);
  }

  lemma AfterSessionId(suite: nat, group: Option<nat>, cookie: Option<Data>, exts: Data, rest: Data)
    requires RetryFits([], suite, group, cookie) && exts == Versions() + Groups(group) + Cookies(cookie)
    requires |exts| < 0x1_0000 && rest == Be16(suite) + [0] + Block2(exts)
    ensures |rest| >= 3 && rest[2] == 0 && Number16(rest) == suite
    ensures ExtensionsAt(InRetry, rest[3..]) == Some(ExtsOf(group, cookie))
  {
    hide Be16, Number16, Open2, ParseExtensions, ExtsOf, Versions, Groups, Cookies, Block2;
    Number16Prefix(suite, [0] + Block2(exts));
    assert rest == Be16(suite) + ([0] + Block2(exts)) && rest[2] == 0 && rest[3..] == Block2(exts);
    Open2Of(exts, []);
    assert Block2(exts) + [] == Block2(exts);
    RetryExtensionsParsed(group, cookie);
  }

  lemma RetryLayout(sessionId: Data, suite: nat, group: Option<nat>, cookie: Option<Data>, exts: Data, raw: Data)
    requires RetryFits(sessionId, suite, group, cookie) && exts == Versions() + Groups(group) + Cookies(cookie)
    requires raw == EncodeRetry(sessionId, suite, group, if cookie.Some? then Some(Block2(cookie.value)) else None)
    ensures |exts| < 0x1_0000 && |raw| >= 38
    ensures raw[0] == 2 && raw[1..4] == Be24(|raw| - 4) && raw[6..38] == RETRY_RANDOM
    ensures raw[38..] == Block1(sessionId) + (Be16(suite) + [0] + Block2(exts))
  {
    ExtensionSizes(group, cookie);
    EncodedIs(sessionId, suite, group, cookie);
    hide *;
    MessageLayout(sessionId, Be16(suite) + [0] + Block2(exts), raw);
  }

  lemma EncodedIs(sessionId: Data, suite: nat, group: Option<nat>, cookie: Option<Data>)
    ensures var exts := Versions() + Groups(group) + Cookies(cookie);
      EncodeRetry(sessionId, suite, group, if cookie.Some? then Some(Block2(cookie.value)) else None)
        == Wire.Message(2, [3, 3] + RETRY_RANDOM + Block1(sessionId) + (Be16(suite) + [0] + Block2(exts)))
  {
    var exts := Versions() + Groups(group) + Cookies(cookie);
    assert Be16(TLS13) == [3, 4];
    hide Be16, Extension, Block2, Block1, Wire.Message;
    var start := [3, 3] + RETRY_RANDOM + Block1(sessionId);
    assert start + Be16(suite) + [0] + Block2(exts) == start + (Be16(suite) + [0] + Block2(exts));
  }

  lemma ExtensionSizes(group: Option<nat>, cookie: Option<Data>)
    requires RetryFits([], 0, group, cookie)
    ensures |Versions() + Groups(group) + Cookies(cookie)| < 0x1_0000
  {
    hide Be16;
  }

  // A ServerHello or HelloRetryRequest up to the session id
  lemma MessageLayout(sessionId: Data, rest: Data, raw: Data)
    requires raw == Wire.Message(2, [3, 3] + RETRY_RANDOM + Block1(sessionId) + rest)
    ensures |raw| >= 38 && raw[0] == 2 && raw[1..4] == Be24(|raw| - 4) && raw[6..38] == RETRY_RANDOM
    ensures raw[38..] == Block1(sessionId) + rest
  {
    hide Be24, Block1;
    var tail := Block1(sessionId) + rest;
    var body := [3, 3] + RETRY_RANDOM + Block1(sessionId) + rest;
    assert body == [3, 3] + RETRY_RANDOM + tail;
    assert raw == [2] + Be24(|body|) + body;
    assert raw[4..] == body && |raw| == 4 + |body|;
    assert body[2..34] == RETRY_RANDOM && body[34..] == tail;
    assert raw[6..38] == body[2..34] && raw[38..] == body[34..];
  }

  /** The retry that a server sends asks for the suite it selected and, without a usable key share, for the first group
      of the client that it has; a stateless one carries the signed cookie. */
  lemma RetrySent(k: Crypto, cfg: S.Config, s: S.Server, suite: Suite, ch: ClientHello, share: Option<Share>)
    requires cfg.suites != [] && ch.groups.Some? && S.SelectGroup(cfg.groups, ch.groups.value).Some?
    requires cfg.cookieKey.Some? && S.Signable(cfg, ch.random, ToBeSigned(k.hash(suite.hash, ch.Raw()), share.None?))
    requires var g := S.SelectGroup(cfg.groups, ch.groups.value).value;
      var tbs := ToBeSigned(k.hash(suite.hash, ch.Raw()), share.None?);
      RetryFits(ch.sessionId, suite.id, Some(g),
        Some(tbs + Block1(S.CookieSignature(k, cfg, ch.random, suite.id, g, tbs))))
    ensures var r := S.Retrying(k, cfg, s, suite, ch, share);
      var g := S.SelectGroup(cfg.groups, ch.groups.value);
      var group := if share.Some? then None else g;
      var tbs := ToBeSigned(k.hash(suite.hash, ch.Raw()), share.None?);
      if cfg.retryUsesCookie then
        && r.Err? && r.error.StatelessRetry?
        && DecodeRetry(r.error.retry) == Some(Request(ch.sessionId, suite.id, group,
          Some(tbs + Block1(S.CookieSignature(k, cfg, ch.random, suite.id, g.value, tbs)))))
      else
        && r.Ok? && |r.value.1| == 1 && r.value.1[0].Retry?
        && var m := r.value.1[0];
        && m == Retry(m.raw, ch.sessionId, suite.id, group, None)
        && DecodeRetry(m.raw) == Some(Request(m.sessionId, m.suite, m.group, m.cookie))
  {
    hide DecodeRetry, EncodeRetry, S.CookieSignature, ToBeSigned, S.SelectGroup, S.AfterRetry, S.Signable, Block2;
    var g := S.SelectGroup(cfg.groups, ch.groups.value);
    var group := if share.Some? then None else g;
    var tbs := ToBeSigned(k.hash(suite.hash, ch.Raw()), share.None?);
    RetryRoundTrip(ch.sessionId, suite.id, group, None);
    RetryRoundTrip(ch.sessionId, suite.id, group,
      Some(tbs + Block1(S.CookieSignature(k, cfg, ch.random, suite.id, g.value, tbs))));
  }

  // ---------------------------------------------------------------- NewSessionTicket

  datatype Grant = Grant(lifetime: nat, ageAdd: nat, nonce: Data, ticket: Data, maxEarly: nat)

  // decode_new_session_ticket
  function DecodeTicket(raw: Data): Option<Grant>
  {
    if |raw| < 12 || raw[0] != 4 || raw[1..4] != Be24(|raw| - 4) then None
    else
      var nonce := Open1(raw[12..]);
      if nonce.None? then None
      else
        var ticket := Open2(nonce.value.1);
        if ticket.None? || ticket.value.0 == [] then None
        else
          var exts := ExtensionsAt(InTicket, ticket.value.1);
          var early := if exts.Some? then Find(exts.value, 42) else None;
          if exts.None? || (early.Some? && |early.value| != 4) then None
          else
            Some(Grant(Number(raw[4..8]), Number(raw[8..12]), nonce.value.0, ticket.value.0,
              if early.Some? then Number(early.value) else 0))
  }

  lemma {:induction false} NumberAppend(a: Data, b: Data)
    requires |b| == 2
    ensures Number(a + b) == Number(a) * 65536 + Number(b)
  {
    var s := a + b;
    assert s[..|s| - 1] == a + [b[0]] && (a + [b[0]])[..|a|] == a;
    NumberTwo(b);
  }

  lemma Number32(n: nat)
    requires n < WORD32
    ensures Number(Be16(n / 65536) + Be16(n)) == n
  {
    hide Number;
    NumberAppend(Be16(n / 65536), Be16(n));
    BigEndian(n / 65536, []);
    BigEndian(n % 65536, []);
    assert Be16(n) == Be16(n % 65536) by { LowAgain(n); }
  }

  lemma LowAgain(n: nat)
    ensures Low(n) == Low(n % 65536) && Low(n / 256) == Low(n % 65536 / 256)
  {
    var q, r := n / 65536, n % 65536;
    assert n == 256 * (256 * q) + r;
    assert n / 256 == 256 * q + r / 256;
  }

  lemma TicketLayout(stamp: Data, nonce: Data, rest: Data, raw: Data)
    requires |stamp| == 8 && raw == Wire.Message(4, stamp + nonce + rest)
    ensures |raw| >= 12 && raw[0] == 4 && raw[1..4] == Be24(|raw| - 4)
    ensures raw[4..8] == stamp[..4] && raw[8..12] == stamp[4..] && raw[12..] == nonce + rest
  {
    hide Be24;
    var body := stamp + nonce + rest;
    assert body == stamp + (nonce + rest);
    assert raw == [4] + Be24(|body|) + body;
    assert raw[4..] == body && |raw| == 4 + |body|;
    assert body[..8] == stamp && body[8..] == nonce + rest;
    assert raw[4..12] == stamp && raw[12..] == body[8..];
  }

  /** What a NewSessionTicket is made of is what a client takes from it: the ticket, its lifetime and age, an empty
      nonce and the limit on early data. */
  lemma TicketRoundTrip(cfg: S.Config, i: nat, session: Option<S.Session>)
    requires |cfg.stamp(i)| == 8 && 0 < |cfg.seal(i, session)| < 0x1_0000 && cfg.maxEarly < WORD32
    ensures var m, stamp := S.TicketMessage(cfg, i, session), cfg.stamp(i);
      DecodeTicket(m.raw) == Some(Grant(Number(stamp[..4]), Number(stamp[4..]), [], cfg.seal(i, session), cfg.maxEarly))
    ensures var m := S.TicketMessage(cfg, i, session);
      m.nonce == [] && m.ticket == cfg.seal(i, session) && (m.early <==> cfg.maxEarly != 0)
  {
    hide Be16, Number16, Be24, Open1, Open2, ParseExtensions, Number;
    var ticket, stamp := cfg.seal(i, session), cfg.stamp(i);
    var limit := Be16(cfg.maxEarly / 65536) + Be16(cfg.maxEarly);
    var exts := if cfg.maxEarly != 0 then Extension(42, limit) else [];
    var rest := Block2(ticket) + Block2(exts);
    var raw := S.TicketMessage(cfg, i, session).raw;
    assert stamp + Block1([]) + Block2(ticket) + Block2(exts) == stamp + Block1([]) + rest;
    TicketLayout(stamp, Block1([]), rest, raw);
    Open1Of([], rest);
    Open2Of(ticket, Block2(exts));
    Open2Of(exts, []);
    assert Block2(exts) + [] == Block2(exts);
    NoExtensions({});
    NoExtensions({42});
    if cfg.maxEarly != 0 {
      assert exts + [] == exts && {} + {42} == {42};
      ExtensionParsed(InTicket, 42, limit, [], {});
      Number32(cfg.maxEarly);
    }
  }
}
