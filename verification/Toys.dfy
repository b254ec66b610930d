/** Simple primitives and small configurations, for the lemmas that show an input. */
module Toys {
  import opened Results
  import opened Wire
  import opened KeySchedule
  import opened Messages
  import A = Agreement
  import C = TlsClient
  import S = TlsServer

  // All digests have one byte. The MAC tells the messages apart whose seventh byte differs.
  const TOY := Crypto(_ => 1, (_, _) => [0], (_, _, _) => [0], (_, _, _, _) => [0], (_, _, m) => [Seventh(m)],
    (_, _, _) => [0])

  function Seventh(m: Data): Octet { if |m| > 6 then m[6] else 0 }

  const SUITE_4 := Suite(0x1301, 4)
  const SUITE_5 := Suite(0x1302, 5)

  const PSK := ExternalPsk([1], [0], 4)

  // A client that offers both suites and two groups
  function Client(psk: Option<ExternalPsk>, ticket: Option<C.StoredTicket>, early: bool): C.Config
  {
    C.Config([SUITE_4, SUITE_5], [29, 23], psk, ticket, early, false, false, true, 0, 0, true, false, [1], [2],
             _ => true, (_, _) => true)
  }

  // A server that retries or not, with a cookie or not; its tickets hold their sessions in the clear.
  function Server(groups: seq<nat>, psk: Option<ExternalPsk>, retry: bool, cookies: bool, auth: bool): S.Config
  {
    S.Config([SUITE_4], false, false, groups, psk, 1, true, 0, (_, s) => Sealed(s), d => Unsealed(d),
             _ => [0, 0, 0, 0, 0, 0, 0, 0],
             1, auth, false, false, true, true, retry, cookies, if cookies then Some([7]) else None, [], [],
             _ => true, (_, _) => true)
  }

  // A ticket for one byte of secret and a group below 256
  function Sealed(s: Option<S.Session>): Data
  {
    if s.Some? && |s.value.secret| == 1 && s.value.suite == 0x1301 && s.value.group < 256
    then [9, s.value.secret[0], s.value.group as Octet] else [8]
  }

  function Unsealed(d: Data): Option<S.Opened>
  {
    if |d| == 3 && d[0] == 9 then Some(S.Opened([d[1]], 0x1301, d[2] as nat, true)) else None
  }

  const DRAW := C.Draw([3], [], [], [4])

  const LAST := C.LastFlight(Certificate([13], true), None)

  const CHOICES :=
    A.Choices(DRAW, C.Draw([5], [], [], [6]), S.Reply([7], [8], [9], [10], [11], false, Some(_ => [12])), LAST)
}
