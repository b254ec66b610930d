# Verified model of a TLS 1.3 stack

This project models the hard core of a TLS 1.3 implementation in C and proves properties of it in Dafny:

- the handshake of both ends, with key schedule and transcript, PSK, 0-RTT, HelloRetryRequest (stateful and
  with a cookie), client authentication, tickets and resumption, and the compressed inner hello of Encrypted
  ClientHello;
- the record layer, with key update and the outbound state that can be detached;
- the fused AES-GCM engine, which runs six AES lanes beside a lagging GHASH;
- two Feistel ciphers, a streaming ChaCha20-Poly1305, and the codecs: nested length blocks, base64, BER.

Cryptographic primitives are parameters: a block function, a hash, HMAC and HKDF, a key exchange, an AEAD with
the law that opening undoes sealing. A hash context is the byte sequence fed to it. Everything else is concrete,
down to constants, limits, index arithmetic and the places where memory is written.

`dafny verify dfyconfig.toml` checks the whole project.

## Main results

- **Agreement.** In every honest run that completes, both ends hold the same transcript, schedule, traffic keys
  for every epoch and exporter secrets (`Agreement.HonestRunAgrees`). Between cooperative peers the run does
  complete (`Completion.HonestRunCompletes`). With a cookie, the server that answers the second hello need not be
  the one that asked for it (`Cookies.CookieRunAgrees`), and when such a run completes is known exactly
  (`CookieRuns.CookieRunCompletes`).
- **Secrets.** Every key, exporter secret, ticket secret and Finished message of such a run is the one that section 7.1
  of RFC 8446 gives for the PSK, the key shares and the bytes that were exchanged (`RunSecrets.HonestRunSecrets`).
- **Tickets.** Every ticket that the server sends reaches the client with the secret that is sealed in it, and a
  second run that offers it agrees again (`Tickets.ResumedRunAgrees`).
- **Safety.** Whatever messages arrive, in whatever order, epochs and generations follow the state and completion
  implies authentication, resumption a verified binder (`ClientSafety.RunIsSafe`, `ServerSafety.RunIsSafe`). Which
  messages are accepted is known exactly (`ClientSafety.StepAccepts`, `ServerSafety.StepAccepts`), and so is when an
  assertion of either end fails and when memory is read or written that is not there; the list is below.
- **Encrypted ClientHello.** What the server rebuilds is, byte for byte, what the client hashed (`Ech.EchRoundTrip`).
- **Record layer.** For every run of sends and updates and every segmentation of the bytes, a receiver that takes
  one record at a time delivers exactly what was sent (`RecordReceiver.DeliverRun`). What goes over the wire is known
  record by record (`RecordWire.RunIsOnTheWire`), no nonce is used twice (`RecordRuns.NoncesAreUnique`), and a record of
  any type with any padding has the effect that its bytes say (`RecordContent.ContentReceived`,
  `RecordContent.HandshakeReceived`).
- **AES-GCM.** The pipelined encryptor and decryptor and the simple loop all compute GCM as the standard defines
  it, in place or not (`FusionEncrypt.Encrypt`, `FusionDecrypt.Decrypt`, `FusionIter.EncryptIter`). The field
  laws are proved from the bit level, associativity included (`Ghash.GfMulAssoc`, `Ghash.GfMulIsProduct`).
- **Ciphers and codecs.** Inverses and round trips for every input of QUIC-LB, FFX, ChaCha20-Poly1305, nested
  blocks, base64 and BER, each method proved against the function that the law is about. The two
  Feistel ciphers are those of their definitions, pass by pass (`QuicLbHalves.EncryptIsDraft`,
  `FfxFeistel.EncryptIsFeistel`).

Some properties hold only under a condition. Each has the condition and an input that fails without it:

- An assertion of the client fails if and only if a HelloRetryRequest names a cipher suite whose hash is not that of
  the external PSK (`lib/picotls.c:2477`), or carries a cookie with which the second hello exceeds 16384 bytes
  (`lib/picotls.c:930`): `ClientSafety.StepAsserts`, `Witnesses.AssertionFails`, `Witnesses.CookieTooLong`.
- An assertion of the server fails if and only if a cookie is signed or checked with a block of 255 bytes or more, which
  a first hello can bring about before its cookie is authenticated (`lib/picotls.c:4356`), or the ServerHello exceeds
  16384 bytes, or tickets are due and cannot be encrypted (`lib/picotls.c:1937`): `ServerSafety.StepKeeps`,
  `ServerWitnesses.CookieBlockTooLong`, `ServerWitnesses.NameTooLong`, `ServerWitnesses.ServerHelloTooLong`,
  `ServerWitnesses.TicketsWithoutEncryption`.
- The server reads past a binder (`lib/picotls.c:4331`) if and only if an external PSK is found and its binder is shorter
  than a digest; it writes past the 64 bytes in the handshake properties (`lib/picotls.c:4790`) if and only if the binder
  verifies and is longer: `ServerSafety.StepShortBinder`, `ServerSafety.StepBinderOverflow`,
  `ServerWitnesses.BinderTooShort`, `ServerWitnesses.BinderTooLong`.
- The server signs with a cookie key that is not there if and only if it is to send a stateless retry without one:
  `ServerSafety.StepNoCookieKey`, `ServerWitnesses.CookieWithoutKey`.
- The client reads past the slots of its key schedule (`lib/picotls.c:1417`) if and only if, after a retry, the second
  ServerHello names a suite with another hash than the retry did: `ClientSafety.UntrackedWhen`,
  `ClientSafety.SecondUntracked`, `Witnesses.UntrackedSlot`.
- The client reads a key share that does not exist (`lib/picotls.c:3626`) if and only if it saves tickets and one comes
  after a handshake for which no group was chosen, which takes a PSK: `ClientSafety.StepNoKeyShare`,
  `Witnesses.TicketWithoutKeyShare`.
- A cookie is accepted if and only if the second hello has a key share of the group that was signed, and a run over a
  stateless retry completes if and only if what is signed fits and the first hello has no usable key share or one of
  that group:
  `Cookies.CookieEquivalent`, `CookieRuns.CookieRunCompletes`, `Instances.CookieRunRefused`.
- Base64 text fed line by line is decoded if and only if no line ends between two padding characters:
  `Base64.DecodeInverts`, `Base64.CutBetweenPads`.
- The 32-bit arithmetic on lengths gives the length block of GCM if and only if both lengths are below 2^29 bytes:
  `FusionContext.LengthBlockExact`, `FusionContext.LengthBlockWraps`.
- FFX decryption inverts encryption, for every cipher, if and only if the number of rounds is even: `Ffx.InvertsIfEven`,
  `Ffx.OddRoundsFail`.
- Decoding a private key reads past the input if and only if there is a log and the key is empty:
  `Asn1.DecodePrivateKey`, `Asn1.EmptyKey`. Validation alone does so if and only if the input is empty:
  `Asn1.Validate`.

## Layout

| files | component |
|---|---|
| Results, Wire | options, results and concatenation; big-endian numbers and length blocks |
| KeySchedule, Messages, TlsClient, TlsServer, Negotiation | the handshake as step functions |
| Decoding | what a client reads from the messages that the server encodes |
| Secrets | the secrets of RFC 8446, from the primitives and the bytes of the messages |
| Agreement, RunSecrets, Completion, Cookies, CookieRuns, Tickets, ClientSafety, ServerSafety | theorems about runs |
| Toys, Instances, Witnesses, ServerWitnesses | concrete peers: runs that complete, and inputs that fail |
| Schedules, ClientObject, ServerObject | the objects that the handlers update in place, proved against the step functions |
| Ech | compressing and rebuilding the inner hello |
| Records, RecordLayer, RecordContent, RecordRuns, RecordWire, RecordObject, RecordReceiver | deframing, protection, the meaning of a record, runs, their bytes, the sending and the receiving objects |
| Gf2, Ghash, Bytes, Gcm | polynomials over GF(2), GHASH on registers, the GCM standard |
| FusionContext, FusionEncrypt, FusionIter, FusionDecrypt, FusionAead | the AES-GCM engine |
| QuicLb, QuicLbHalves, Ffx, FfxFeistel, ChaCha | the other ciphers |
| Codec, Buffers, Base64, Asn1 | codecs |

Every handler exists twice. The step functions in TlsClient and TlsServer say what a message does to the
connection as a value; theorems are about them. The classes in ClientObject and ServerObject hold the connection
in fields, and the key schedule and traffic keys in objects of their own, which methods update in the order of the
source; each method's contract says that old and new values are related by the step function.

## Model

| member | source | states |
|---|---|---|
| `KeySchedule.FirstSlotsShape` | lib/picotls.c:1322-1375 | no hash is tracked twice, the preferred one (or else the first offered) is first, and only offered hashes are tracked |
| `KeySchedule.FirstSlotsTrack` | lib/picotls.c:1322-1375 | every offered hash is tracked |
| `KeySchedule.FindSlot` | lib/picotls.c:1406-1419 | the first slot of an algorithm, the number of slots exactly when none tracks it |
| `KeySchedule.UpdateTwice` | lib/picotls.c:1448-1464 | feeding a hello in two pieces, around its binder, is feeding it whole |
| `KeySchedule.SelectedSchedule` | lib/picotls.c:1398-1433 | selecting a cipher after the early secret was extracted gives the schedule that had tracked that hash alone from the start, extracted again when reset or when the hash changes |
| `Schedules.ScheduleObject.Setup` | lib/picotls.c:1322-1375 | the loop over offered suites fills the slots of a new schedule |
| `Schedules.ScheduleObject.ExtractSecret` | lib/picotls.c:1377-1396 | one generation on, the secret extracted as RunSecrets.HonestRunSecrets says |
| `Schedules.ScheduleObject.Select` | lib/picotls.c:1398-1433 | all but one slot freed, the generation rewound when reset or when the hash changes, in place; it says whether the hash was tracked at all |
| `Schedules.ScheduleObject.UpdateHash` | lib/picotls.c:1448-1464 | every tracked hash is fed the message, and nothing else changes |
| `Schedules.ScheduleObject.TransformCh1` | lib/picotls.c:1478-1492 | the transcript becomes the message_hash of the first hello |
| `Schedules.ScheduleObject.AdoptCh1` | lib/picotls.c:1466-1476 | the same from a digest, as a cookie carries it |
| `Schedules.KeysObject.SetupEnc` | lib/picotls.c:1696-1738 | the write key and its epoch are replaced, and logged |
| `Schedules.KeysObject.Emit` | include/zpicotls.h:1349-1368 | messages that are sent one after the other enter the transcript in that order |
| `Schedules.UpdateAllAppend` | lib/picotls.c:1448-1464 | sending messages in two portions is sending them all |
| `Messages.FindSuite` | lib/picotls.c:2666-2674 | the suite with that identifier, none exactly when no configured suite has it |
| `Negotiation.ServerPreference` | lib/picotls.c:2075-2115 | with the server preference, the first of its suites that the client offers is selected, whatever the order of the client |
| `Negotiation.ChachaPriority` | lib/picotls.c:2075-2115 | with its priority, a client whose list is headed by ChaCha20-Poly1305 is served as if it had offered nothing else, if the server has it; otherwise the preference is unchanged |
| `Negotiation.ClientOrder` | lib/picotls.c:2075-2115 | without the preference, the first suite of the client that the server has; none exactly when there is no common one |
| `Negotiation.FirstShare` | lib/picotls.c:2143-2178 | the first key share of a configured group, none exactly when there is no such share |
| `Negotiation.FirstGroup` | lib/picotls.c:3680-3704 | the first supported group of the client that is configured, none exactly when there is no such group |
| `Negotiation.PskIsFirst` | lib/picotls.c:4210-4345 | the PSK is the first identity that can be redeemed, being the external one or a ticket for the suite and a configured group with a binder of the size of a digest; none exactly when there is no such identity or PSKs are not allowed |
| `Negotiation.EarlyDataWhen` | lib/picotls.c:4210-4345 | early data is accepted if and only if it is announced and allowed and the first identity is the PSK, which as a ticket permits it |
| `Negotiation.TicketsGranted` | lib/picotls.c:4794-4810 | as many tickets as the client asks for, or one, at most four or what is configured; none without a mode for PSKs or a lifetime |
| `Negotiation.KeyExchangeWhen` | lib/picotls.c:4776-4840 | a ServerHello has the key share that was drawn unless a PSK is used with a client that can do without, and names the place of the PSK |
| `Decoding.RetryRoundTrip` | lib/picotls.c:2676-2825 | what a HelloRetryRequest is made of is what the decoder of the client takes from it |
| `Decoding.RetrySent` | lib/picotls.c:4651-4740 | the retry asks for the selected suite and, without a usable key share, for the first common group; a stateless one carries the signed cookie |
| `Decoding.TicketRoundTrip` | lib/picotls.c:1566-1608 | lifetime, age, empty nonce, ticket and limit on early data are read back from a NewSessionTicket |
| `Agreement.HonestRunAgrees` | lib/picotls.c:4395-5089 | in every completed honest run (full, PSK or PSK-DHE; 0-RTT accepted or rejected; with or without one stateful HelloRetryRequest; client authentication or not; EndOfEarlyData omitted or not) both ends have equal schedules, equal keys in each direction now and at every epoch on the way (a rejected 0-RTT key aside) and equal exporter secrets; the client has saved every ticket of the server, for the same suite and group and, without client authentication, with the secret that is sealed in it |
| `RunSecrets.HonestRunSecrets` | lib/picotls.c:1377-1396 | in every completed honest run the traffic keys of epochs 1 to 3, exporter and ticket secrets and both Finished messages are those of section 7.1 of RFC 8446 for the PSK, the key shares and the bytes of the messages, written with the primitives and the labels alone |
| `RunSecrets.RespondSecrets` | lib/picotls.c:4795-4996 | the same of a server that has sent its flight, whatever the client does then |
| `RunSecrets.HonestRunIsForward` | lib/picotls.c:4776-4825 | where either end insists on it, a resumed session, too, has secrets from a key exchange |
| `RunSecrets.AnswerShape` | lib/picotls.c:5817-5886 | what a server takes after its flight ends with the Finished message over everything before it |
| `RunSecrets.ServerSends` | lib/picotls.c:4900-4996 | after ServerHello: EncryptedExtensions and, in a full handshake, the request for a certificate where it is wanted, the certificate, and the signature over everything up to that |
| `RunSecrets.ClientSends` | lib/picotls.c:3544-3602 | the end of early data where it was accepted and is awaited, the credentials where they were asked for with a signature over everything up to them, and Finished |
| `Agreement.HonestRunModes` | lib/picotls.c:4742-4830 | without a retry, the PSK that the server finds decides whether the run resumes, whether the 0-RTT key is among its read keys, and which session its tickets seal |
| `Agreement.FeedTickets` | lib/picotls.c:3604-3644 | tickets are saved in the order in which they arrive and change nothing else; they are refused if and only if they are to be saved and there is no key share |
| `Tickets.SavedTicketIsCompatible` | lib/picotls.c:3604-3644 | a saved ticket stands for the same secret, suite and group at the server, so that the next run meets the conditions of agreement |
| `Tickets.ResumedRunAgrees` | lib/picotls.c:4210-4342 | two runs: the tickets of the first hold what the server sealed, and a second run that offers any of them agrees as well |
| `Tickets.TicketIsFound` | lib/picotls.c:4236-4319 | a server that can open the offered ticket, for the suite it selects, resumes |
| `Agreement.FirstHello` | lib/picotls.c:2404-2664 | after its first hello the client has the early schedule of that hello, for every hash it offers |
| `Agreement.FirstEarlyKeys` | lib/picotls.c:2646-2656 | what 0-RTT installs then: the early traffic key and exporter derived from that schedule |
| `Agreement.ClientRetried` | lib/picotls.c:2826-2868 | after a HelloRetryRequest the client has the early schedule over message_hash, the retry and its second hello, under the suite of the retry |
| `Agreement.ServerFirst` | lib/picotls.c:4747-4793 | the server has the early schedule over the whole first hello, though it hashes the part before the binder, checks the binder and then hashes the rest |
| `Agreement.ServerSecond` | lib/picotls.c:4770-4780 | the same for the second hello, from the transcript it kept or rebuilt |
| `Agreement.FoundIsOffered` | lib/picotls.c:4210-4342 | the PSK that the server picks is the one the client offered, for the same hash |
| `Agreement.HelloAgrees` | lib/picotls.c:2907-3004 | across ServerHello: equal schedules and linked handshake keys, whatever 0-RTT had installed |
| `Agreement.RespondAgrees` | lib/picotls.c:4812-5056 | from the hashed hello to the end of the run both ends agree |
| `Agreement.NegotiatedAgrees` | lib/picotls.c:4395-4996 | runs without a retry agree |
| `Agreement.RetriedAgrees` | lib/picotls.c:4651-4740 | runs with a retry agree, for any server whose state is the one that a retry leaves behind |
| `Agreement.RestAgrees` | lib/picotls.c:3544-3602 | from ServerHello on: certificates, both Finished messages, EndOfEarlyData and the last flight keep the transcripts equal at each derivation |
| `Agreement.PredictionHolds` | lib/picotls.c:1928-1993 | the schedule that the server predicts for a ticket before the Finished of the client arrives is the schedule at the end |
| `Agreement.TicketsSeal` | lib/picotls.c:5040-5046 | however many tickets are sent, each seals the session with the secret of that prediction, or no session without a key share |
| `Agreement.FinishSeals` | lib/picotls.c:4998-5056 | finishing seals exactly the negotiated number of tickets |
| `Completion.HonestRunCompletes` | lib/picotls.c:4395-5089 | with a common suite and group, matching PSKs and signatures that verify over the transcript hashes at which they are made, the run completes, with or without a retry |
| `Instances.PeersMeet` | lib/picotls.c:4395-5089 | the hypotheses can be met: concrete peers with or without external PSK, stored ticket, early data, retry, cookies and client authentication are cooperative |
| `Instances.RunAgrees` | lib/picotls.c:4395-5089 | such peers complete and agree, with an external PSK or without, with a retry for the group or by configuration or with none |
| `Instances.EarlyDataAccepted` | lib/picotls.c:4812-4821 | with the external PSK the run resumes, and the 0-RTT key is installed when early data is offered |
| `Instances.TicketRedeemed` | lib/picotls.c:4210-4342 | two concrete runs: the ticket that the first leaves is redeemed in the second, with 0-RTT |
| `Completion.FirstNegotiationCompletes` | lib/picotls.c:4395-4996 | so does a run without a retry |
| `Completion.SecondNegotiationCompletes` | lib/picotls.c:4651-4740 | and the part of a run after a retry |
| `Completion.BinderAccepted` | lib/picotls.c:4321-4335 | the binder that the client computes over its truncated hello is the one the server expects |
| `Completion.FinishedVerifies` | lib/picotls.c:1865-1926 | the Finished message of one end verifies at the other when schedule and secret are equal |
| `Cookies.CookieRoundTrip` | lib/picotls.c:3858-3892 | a cookie is parsed back into transcript hash, key-share flag and signature |
| `Cookies.SignedBytesInjective` | lib/picotls.c:4344-4381 | the bytes under the signature determine client random, server name, suite, group, extra data and content |
| `Cookies.ToBeSignedInjective` | lib/picotls.c:4689-4716 | the content of a cookie determines the hash and the flag |
| `Cookies.AcceptedCookieWasIssued` | lib/picotls.c:4620-4640 | a cookie that carries an issued signature and is accepted was issued for the same random, suite, group and hash, unless HMAC collides |
| `Cookies.CookieEquivalent` | lib/picotls.c:4620-4650 | a returned cookie is accepted if and only if the key share is of the signed group; then the rebuilt HelloRetryRequest is byte-identical to the one sent, and transcript and early secret are those of a server that kept its state |
| `Cookies.FreshServerEquivalent` | lib/picotls.c:4620-4740 | given an accepted cookie, a fresh server answers the second hello as the server that kept its state would |
| `Cookies.StatelessRetrySent` | lib/picotls.c:4651-4733 | whenever a server retries without keeping state, the bytes are the HelloRetryRequest with a cookie for the suite and a group that both support |
| `Cookies.CookieRunAgrees` | lib/picotls.c:4620-4740 | runs over a stateless retry agree on everything, though different servers answer the two hellos |
| `CookieRuns.RetryIsSent` | lib/picotls.c:4651-4733 | between cooperative peers the first server sends the HelloRetryRequest with its cookie, if what it signs fits, and fails its assertion if not |
| `CookieRuns.CookieRunCompletes` | lib/picotls.c:4620-4740 | between cooperative peers a run over a stateless retry completes, and agrees, if and only if what is signed fits and the first hello has no usable key share or one of the group that the server signs |
| `Instances.CookieRunDone` | lib/picotls.c:4620-4740 | concrete peers for which it completes, with a retry for the group or by configuration |
| `Instances.CookieRunRefused` | lib/picotls.c:4620-4740 | concrete peers for which it does not: a ticket for another group than the one the server signs |
| `ClientSafety.HelloEstablishes` | lib/picotls.c:2422-2664 | the invariant holds once the first hello is sent: state, read and write epoch, generation, tracked hashes |
| `ClientSafety.StepKeeps` | lib/picotls.c:5732-5815 | every accepted message keeps it; in particular the epoch of the installed read key is the one that ptls_get_read_epoch derives from the state |
| `ClientSafety.StepAsserts` | lib/picotls.c:2462-2482 | an assertion fails if and only if an otherwise acceptable HelloRetryRequest names a suite whose hash is not that of the external PSK, or the second hello, which repeats its cookie, is encoded and exceeds one record |
| `ClientSafety.StepAccepts` | lib/picotls.c:5732-5815 | a message is accepted if and only if the state expects it and it passes the checks listed: for hellos what was offered, for certificates the verifier, for signatures and Finished the transcript |
| `ClientSafety.HelloHasSize` | lib/picotls.c:919-937 | the size that is asserted is that of the hello that is sent |
| `Witnesses.CookieTooLong` | lib/picotls.c:2328-2333 | a retry with a cookie of 16300 bytes, for a client with a hello of 100 bytes and no PSK |
| `Witnesses.AssertionFails` | lib/picotls.c:2462-2482 | such a client and such a HelloRetryRequest |
| `ClientSafety.StepUntracked` | lib/picotls.c:1398-1433 | the slot of a hash that is not tracked is read if and only if a hello that passes all checks before names a suite with such a hash |
| `ClientSafety.UntrackedWhen` | lib/picotls.c:2907-2960 | never in answer to the first hello; in answer to the second if and only if the hash is not the one that is left |
| `ClientSafety.SecondUntracked` | lib/picotls.c:2907-2960 | which is the hash of the suite that the retry named |
| `ClientSafety.RunTracks` | lib/picotls.c:5732-5815 | over every run the tracked hashes are the offered ones before a retry or ServerHello, and one of them after it |
| `Witnesses.UntrackedSlot` | lib/picotls.c:1406-1419 | a client, a retry and a ServerHello for which the slot is not there |
| `ClientSafety.StepNoKeyShare` | lib/picotls.c:3604-3644 | a ticket makes the client read a missing key share if and only if it saves tickets and the handshake had none |
| `Witnesses.TicketWithoutKeyShare` | lib/picotls.c:3622-3627 | a client and a flight of a server for which that happens |
| `ClientSafety.RunIsSafe` | lib/picotls.c:5732-5815 | over every run of accepted messages the invariant holds, and completion implies a verified Finished and, without PSK, an accepted Certificate and after it a CertificateVerify that verifies over the transcript; a PSK was offered and taken up, and an external one was used |
| `ServerSafety.StepKeeps` | lib/picotls.c:5817-5886 | every accepted message keeps epochs and generations in step with the state; an assertion fails if and only if a block of 255 bytes or more is signed for a cookie that a first hello brings or is to get, or a hello is answered with a ServerHello above 16384 bytes or with tickets that cannot be encrypted |
| `ServerWitnesses.CookieBlockTooLong` | lib/picotls.c:4344-4381 | a first hello with a cookie whose hash has 255 bytes |
| `ServerWitnesses.NameTooLong` | lib/picotls.c:4344-4381 | a stateless retry of a server with a name of 255 bytes |
| `ServerWitnesses.TicketsWithoutEncryption` | lib/picotls.c:1936-1937 | a server with a ticket lifetime and without encrypt_ticket |
| `ServerWitnesses.ServerHelloTooLong` | lib/picotls.c:919-937 | a ServerHello of 16385 bytes |
| `Cookies.RetryFitsRecord` | lib/picotls.c:919-937 | a HelloRetryRequest, with a cookie or without, never exceeds a record |
| `ServerSafety.StepShortBinder` | lib/picotls.c:4321-4335 | the comparison of a binder reads past it if and only if an external PSK is found and its binder is shorter than a digest |
| `ServerWitnesses.BinderTooShort` | lib/picotls.c:4321-4335 | an external PSK with an empty binder |
| `ServerSafety.StepBinderOverflow` | lib/picotls.c:4787-4792 | a binder is copied past the 64 bytes of the properties if and only if it starts with the expected HMAC, is longer, and properties are given; this takes an external PSK |
| `ServerSafety.StepForgedBinder` | lib/picotls.c:4321-4338 | a hello is refused with decrypt_error if and only if a PSK is found and its binder, not shorter than a digest, does not start with the HMAC of RFC 8446 over the transcript and the truncated hello, under the early secret of the PSK |
| `ServerSafety.StepBinds` | lib/picotls.c:4747-4793 | a server resumes after a hello exactly when that binder verifies |
| `ServerSafety.StepUnknownIdentity` | lib/picotls.c:4757-4762 | with an external PSK, a hello that does not name it is refused, and no other is for that reason |
| `ServerSafety.BinderChecked` | lib/picotls.c:4321-4338 | the check computes that HMAC, for first and second hellos |
| `ServerSafety.StepAccepts` | lib/picotls.c:5817-5886 | a message is accepted if and only if the state expects it and it passes the checks listed |
| `ServerWitnesses.BinderTooLong` | lib/picotls.c:4787-4792 | an external PSK with a binder that goes on to 65 bytes |
| `ServerWitnesses.BinderForged` | lib/picotls.c:4331-4335 | a binder of the right size that is not the one over the hello |
| `ServerSafety.StepNoCookieKey` | lib/picotls.c:4667-4716 | a missing cookie key is used if and only if a stateless retry is to be sent without one |
| `ServerWitnesses.CookieWithoutKey` | lib/picotls.c:4667-4716 | a server and a hello for which that happens |
| `ServerSafety.RunIsSafe` | lib/picotls.c:5817-5886 | completion implies a verified Finished, preceded, when client authentication is required, by a Certificate, and by a CertificateVerify when that is not empty; a server that resumes took a hello with the binder of the PSK over the transcript |
| `ClientObject.Connection.SendClientHello` | lib/picotls.c:2422-2664 | offer, key share, schedule, binder over the truncated hello, transcript and early keys, in the order of the source, with its assertions and sizes: fields change as the step function says |
| `ClientObject.Connection.HandleRetry` | lib/picotls.c:2826-2868 | decoding, selection of the hash, message_hash, the group of the second hello, each refusal where the source makes it |
| `ClientObject.Connection.HandleServerHello` | lib/picotls.c:2907-3004 | decoding, selection, key exchange and handshake keys, each refusal where the source makes it |
| `ClientObject.Connection.HandleFinished` | lib/picotls.c:3544-3602 | verification, keys for reading, end of early data, credentials, Finished and the new write key |
| `ClientObject.Connection.FindOffer` | lib/picotls.c:2460-2516 | the loops over suites and groups find the external PSK or else the stored ticket that can be offered |
| `ClientObject.Connection.HashHello` | lib/picotls.c:2404-2420 | the binder is the one over the transcript up to it, and is hashed after it |
| `ClientObject.Connection.HandleTicket` | lib/picotls.c:3604-3644 | the ticket is saved with suite, group and resumption secret |
| `ClientObject.Connection.Handle` | lib/picotls.c:5732-5815 | every message: the object goes where the step function goes, with the same messages or error, and the invariant of ClientSafety is kept |
| `ServerObject.ChooseSuite` | lib/picotls.c:2075-2115 | the nested loops with the smallest index so far compute the selection |
| `ServerObject.ChoosePsk` | lib/picotls.c:4210-4319 | the loop over identities finds the first usable one |
| `ServerObject.Connection.SendSessionTicket` | lib/picotls.c:1928-1993 | hashing EndOfEarlyData and the predicted Finished, deriving, sending and putting the hash context back leaves all but the list of sealed sessions unchanged |
| `ServerObject.Connection.SendSessionTickets` | lib/picotls.c:5040-5046 | any number of tickets leaves keys and transcript unchanged, and the messages carry the sessions in order |
| `ServerObject.Connection.SendServerHello` | lib/picotls.c:4812-4894 | early keys, key exchange, ServerHello and handshake keys, in that order |
| `ServerObject.Connection.FinishHandshake` | lib/picotls.c:4998-5056 | Finished, application keys, exporter, the next state and the tickets |
| `ServerObject.Connection.SendCertificates` | lib/picotls.c:4934-4980 | each signature is over the transcript up to it |
| `ServerObject.Connection.HashHello` | lib/picotls.c:4747-4793 | binder check, early secret and transcript for a PSK, a full handshake or a second hello, with every error, short and long binders among them |
| `ServerObject.Connection.SendRetry` | lib/picotls.c:4651-4740 | a stateless retry with its cookie, or the failure to sign one, or a stateful one that goes on from message_hash |
| `ServerObject.Connection.SignCookie` | lib/picotls.c:4344-4381 | the blocks behind their lengths are what is signed, and the assertion on each length fails exactly when one is 255 bytes or more |
| `ServerObject.Connection.AcceptCookie` | lib/picotls.c:4620-4650 | the signature is computed, with its assertion, and then compared; a signed cookie rebuilds the transcript and the early secret |
| `ServerObject.Connection.HandleHello` | lib/picotls.c:4395-4996 | server_handle_hello with its checks, retries and errors |
| `ServerObject.Connection.Handle` | lib/picotls.c:5817-5886 | every message, as for the client; an assertion fails exactly when ServerSafety.StepKeeps says so |
| `Ech.EchRoundTrip` | lib/picotls.c:2547-2609 | for every parameter set, what the server rebuilds from the padded payload and the outer hello is what the client hashed as its inner hello, PSK binder included |
| `Ech.HelloBytes` | lib/picotls.c:2208-2345 | the bytes of both forms of the inner hello: its mark, the key share or the reference to that of the outer hello, the other extensions, the PSK |
| `Ech.RebuildInverts` | lib/picotls.c:4063-4122 | the same for any binder and any amount of padding |
| `Ech.RebuildRefines` | lib/picotls.c:4007-4061 | rebuilding on bytes is resolving references on lists of extensions, with illegal_parameter exactly when a reference cannot be resolved in order |
| `Ech.ScanFinds` | lib/picotls.c:4031-4041 | the scan finds the next extension of that type after the current place, or fails when there is none |
| `Ech.CopyRefsResolves` | lib/picotls.c:4020-4047 | a list of references gives the extensions in the order of the outer hello |
| `Ech.InnerBinder` | lib/picotls.c:2404-2420 | filling in the binder over its placeholder gives the encoding with the binder |
| `Ech.EncodedBinder` | lib/picotls.c:2565-2575 | the binder is the last thing of the encoded inner hello too |
| `Ech.PaddingLength` | lib/picotls.c:2576-2594 | padding hides the length of the name up to the maximum and rounds up to 32 bytes |
| `Ech.ScanOuter` | lib/picotls.c:4031-4041 | the loop that moves through the outer extensions only forward |
| `Ech.CopyReferences` | lib/picotls.c:4020-4047 | the loop over references |
| `Ech.RebuildList` | lib/picotls.c:4007-4061 | the loop over the extensions of the inner hello |
| `Ech.RebuildInner` | lib/picotls.c:4063-4122 | rebuild_ch_inner as a procedure, with every error |
| `Records.DeframeAppend` | lib/picotls.c:5150-5225 | taking records off a prefix and going on with the rest is taking them off the whole |
| `Wire.BigEndian` | lib/picotls.c:535-548 | both widths of integers are big-endian, in both directions |
| `Records.DeframeFinds` | lib/picotls.c:5150-5225 | whatever records are sent, with any part of one more or bytes that start none, exactly they are found |
| `Records.DeframeIsExact` | lib/picotls.c:5150-5225 | nothing else is found: the bytes are those of well-formed records within the limits and of part of one more, or of none |
| `Records.RecordReader.ParseRecord` | lib/picotls.c:5150-5225 | a call returns the next record of buffered and new bytes, asks for more or fails, and consumes each byte once |
| `Records.RecordReader.Feed` | lib/picotls.c:6200-6241 | one input: the records, the error and the tail that is kept |
| `Records.FeedAll` | lib/picotls.c:5150-5225 | however the stream is cut, records, error and tail are those of the whole stream |
| `Records.SplitAppend` | lib/picotls.c:5908-5975 | messages of a prefix, then of its tail and what follows, are the messages of the whole |
| `Records.SplitFinds` | lib/picotls.c:5908-5975 | whatever messages of type, 24-bit length and body are sent, with any part of one more, exactly they are found |
| `Records.SplitIsExact` | lib/picotls.c:5908-5975 | nothing else is found |
| `Records.MessageReader.HandleRecord` | lib/picotls.c:5908-5975 | one record: complete messages are delivered, exactly the incomplete tail is kept, and the end of the record is flagged for the last message only |
| `Records.HandleAll` | lib/picotls.c:5908-5975 | however handshake bytes are cut into records, the messages delivered are whole, of type, 24-bit length and body, the tail is part of one, and together they are the bytes |
| `RecordLayer.PushEncryptedRecords` | lib/picotls.c:818-865 | the chunking loop produces the sealed records of the data, and the sequence number after them |
| `RecordLayer.SealAllCounts` | lib/picotls.c:818-865 | one sequence number for each started 16384 bytes, consecutive, under the current generation |
| `RecordLayer.SealAllReceived` | lib/picotls.c:5977-6062 | data sealed is data delivered, and the receiver ends where the sender is |
| `RecordLayer.KeyUpdateReceived` | lib/picotls.c:5091-5135 | a key update moves the receiver to the next generation with sequence number zero and passes the request on |
| `RecordLayer.ReceiveAppend` | lib/picotls.c:6200-6241 | receiving whole records and then more is receiving everything |
| `RecordLayer.SendVIsSend` | lib/picotls.c:6347-6424 | sending spans is sending their concatenation: same bytes, nonces and state |
| `RecordRuns.StepKeeps` | lib/picotls.c:6277-6494 | every operation keeps the invariant that one object owns the outbound state and all used nonces are behind it |
| `RecordRuns.NoncesAreUnique` | lib/picotls.c:5091-5107 | over every run of send, sendv, alert, key update and detach no pair of key generation and nonce is used twice, and exactly one object can use the next |
| `RecordRuns.RunIsDelivered` | lib/picotls.c:6243-6494 | over every run without alerts, detached at any point, the receiver delivers exactly what was sent and has the key generation and sequence number of the sender |
| `RecordContent.PaddedReceived` | lib/picotls.c:5997-6020 | a protected record of any type, with any number of zeros after it, is handled by its type and body, and the sequence number counts on |
| `RecordContent.OpenedContent` | lib/picotls.c:5997-6020 | a record that opens is refused for its padding if and only if it is nothing else; otherwise it has exactly one type and body |
| `RecordContent.MessagesJudged` | lib/picotls.c:5109-5135 | key updates that say 0 or 1 and tickets that can be saved take effect in order, up to the first message that is refused |
| `RecordContent.HandshakeReceived` | lib/picotls.c:5908-5975 | a record of handshake bytes together with what waits: the messages now complete take effect, the rest waits, the limits hold |
| `RecordContent.ContentReceived` | lib/picotls.c:6022-6050 | data is delivered, an alert ends the connection, and neither may come between the parts of a message |
| `RecordContent.ClearReceived` | lib/picotls.c:5988-6003 | in the clear an alert is still one, without use of the key; anything else is refused |
| `RecordWire.RunIsOnTheWire` | lib/picotls.c:5091-5148 | over every run the bytes are the records of the contents in order, each sealed under its secret with its sequence number and its header as additional data; the nonces are those accounted for |
| `RecordWire.UpdateIsSent` | lib/picotls.c:6243-6260 | a key update asked for by the application or the peer goes out first with the next data, once, also across a hand-over |
| `RecordWire.RequestsAreCounted` | lib/picotls.c:5109-5135 | a connection without its keys counts the updates that the peer asks for |
| `RecordReceiver.RefusedStays` | lib/picotls.c:6200-6241 | a stream that is refused is refused whatever follows |
| `RecordReceiver.Inbound.HandleKeyUpdate` | lib/picotls.c:5109-5135 | the next key for reading, and the request passed on to the sending side once |
| `RecordReceiver.Inbound.HandleHandshakeRecord` | lib/picotls.c:5908-5975 | one record of handshake bytes: complete messages are handled until one is refused, the tail is kept, both limits on buffered bytes hold |
| `RecordReceiver.Inbound.HandleInput` | lib/picotls.c:5977-6062 | one record at most is parsed, decrypted and handled, and the bytes it took are reported |
| `RecordReceiver.Inbound.ReceiveInput` | lib/picotls.c:6200-6241 | one call takes records until data is delivered: the state is that of the part of the stream it took, and nothing was delivered by less of it; or it fails as that part does |
| `RecordReceiver.ReceivePieces` | lib/picotls.c:6200-6241 | calling it until each piece is used up gives what the whole stream holds, the same state, the same tail or the same error, however the stream is cut |
| `RecordReceiver.DeliverRun` | lib/picotls.c:6200-6241 | any run of the sending side and any segmentation: exactly what was sent is delivered, and the key is that of the sender |
| `RecordRuns.SendBound` | lib/picotls.c:6467-6494 | from below 2^24, one send leaves the sequence number at most 2^24 - 1 plus the number of records |
| `RecordRuns.SendVBound` | lib/picotls.c:6347-6424 | in runs of ptls_tx_sendv alone it never exceeds 2^24 |
| `RecordObject.EncryptRecord` | lib/picotls.c:867-906 | the record at the end of the buffer is replaced by its protected form: in place when it fits one record, through a copy when not |
| `RecordObject.InPlaceIsPush` | lib/picotls.c:867-906 | both ways agree on a non-empty body that fits one record |
| `RecordObject.Outbound.SendKeyUpdate` | lib/picotls.c:6243-6261 | a KeyUpdate message under the old key, then the next key with sequence number zero |
| `RecordObject.Outbound.UpdateIfDue` | lib/picotls.c:6477-6491 | the update that is pending or due at 2^24 records is sent first |
| `RecordObject.Outbound.SendData` | lib/picotls.c:6467-6494 | ptls_send on the object: buffer and state as in Send, unchanged on error |
| `RecordObject.Outbound.SendSpans` | lib/picotls.c:6347-6424 | ptls_tx_sendv on the object |
| `RecordObject.Outbound.RequestUpdate` | lib/picotls.c:6496-6504 | ptls_update_key: recorded for the next send, with the request flag of the latest call; refused once detached |
| `RecordObject.Outbound.DetachTx` | lib/picotls.c:6277-6333 | the new object takes over keys, sequence number and pending update, and the old one can no longer send |
| `Gf2.MulAssoc` | lib/fusion.c:159-188 | the carry-less product is associative |
| `Gf2.CongUnique` | lib/fusion.c:190-207 | below the degree of the modulus, congruence after any shift is equality |
| `Ghash.TransformHDoubles` | lib/fusion.c:129-157 | transformH multiplies by t in the field |
| `Ghash.ReduceDivides` | lib/fusion.c:190-207 | the two-step reduction divides by t^128 in the field |
| `Ghash.Karatsuba` | lib/fusion.c:159-188 | the three half products give the product |
| `Ghash.GfMulDivides` | lib/fusion.c:159-188 | gfmul divides the product by t^128 |
| `Ghash.GfMulComm` | lib/fusion.c:159-188 | gfmul is commutative |
| `Ghash.GfMulAssoc` | lib/fusion.c:159-188 | gfmul is associative |
| `Ghash.GfMulDist` | lib/fusion.c:159-188 | gfmul distributes over xor |
| `Ghash.GfMulIsProduct` | lib/fusion.c:129-188 | gfmul with a transformed key is the multiplication of NIST SP 800-38D, section 6.3 |
| `Ghash.StepAddsProduct` | lib/fusion.c:224-267 | accumulating a product with a precomputed entry and reducing later equals reducing at once |
| `Gcm.FeedBlock` | lib/fusion.c:250-255 | feeding block k with the power that the table holds for it keeps the weighted sum |
| `Gcm.FedAll` | lib/fusion.c:257-267 | one reduction of the accumulated state is GHASH by the rule of Horner |
| `Gcm.GctrInvolution` | lib/fusion.c:509-767 | counter mode undoes itself |
| `FusionContext.CapacityCoversSplit` | lib/fusion.c:1042-1046 | the table for a total length is long enough for every split into additional data and text |
| `FusionContext.AesGcmContext.Grow` | lib/fusion.c:1048-1075 | each new entry is the next power of the hash key, and old entries stay |
| `FusionContext.AesGcmContext.SetCapacity` | lib/fusion.c:1126-1149 | the table reaches the requested length |
| `FusionContext.AesGcmContext.EnsureCapacity` | lib/fusion.c:1240-1250 | the table is long enough for this call |
| `FusionContext.Add64IsInc` | lib/fusion.c:513-538 | adding to the low 64 bits is the inc32 of the standard until the count is used up |
| `FusionContext.LengthBlockExact` | lib/fusion.c:577-577 | the length block computed with 32-bit lengths is the one of the standard if and only if both lengths are below 2^29 |
| `FusionContext.LengthBlockWraps` | lib/fusion.c:577-577 | 2^29 bytes are taken for none |
| `FusionEncrypt.NextCounters` | lib/fusion.c:513-524 | while there is text, the lanes take consecutive counters of the standard |
| `FusionEncrypt.GatherBuffer` | lib/fusion.c:690-727 | the GHASH side reads its next blocks, only from bytes already written |
| `FusionEncrypt.MainLoop` | lib/fusion.c:621-728 | when AES is through, all text is written, EK0 is ready, and all but fewer than six blocks went into GHASH, each with its own power |
| `FusionEncrypt.TextRanOut` | lib/fusion.c:730-737 | GHASH reaches the end of the text only after a batch with a lane to spare for EK0 |
| `FusionEncrypt.Encrypt` | lib/fusion.c:509-767 | for all lengths within capacity, in place or apart, the output is the ciphertext and tag of GCM-AE (section 7.1 of NIST SP 800-38D), nothing else is written, and the supplementary output is AES of the final sample bytes |
| `FusionIter.Read` | lib/fusion.c:426-440 | reads across vectors as if they were one |
| `FusionIter.HashAad` | lib/fusion.c:466-472 | GHASH of the padded additional data |
| `FusionIter.EncryptText` | lib/fusion.c:477-501 | the loop encrypts block by block and hashes what it wrote |
| `FusionIter.EncryptIter` | lib/fusion.c:455-507 | the simple loop computes the same GCM-AE |
| `FusionDecrypt.MainLoop` | lib/fusion.c:796-944 | when AES is through, at most the length block is left for GHASH |
| `FusionDecrypt.Decrypt` | lib/fusion.c:769-953 | writes ciphertext xor keystream and returns true exactly when the tag is that of GCM (section 7.2 of NIST SP 800-38D) |
| `FusionAead.CounterLowBits` | lib/fusion.c:1269-1276 | the low 32 bits of a nonce register are clear, as the decryptor needs |
| `FusionAead.NonceInjective` | lib/fusion.c:1269-1276 | distinct sequence numbers give distinct nonces |
| `FusionAead.NeedsScratch` | lib/fusion.c:1300-1310 | without scratch, no vector is overwritten before it is read |
| `FusionAead.Stage` | lib/fusion.c:1312-1320 | the staged buffer holds the concatenation of the vectors as they were on entry |
| `FusionAead.DoEncrypt` | lib/fusion.c:1278-1285 | seals in place or apart, growing the table as needed |
| `FusionAead.DoEncryptV` | lib/fusion.c:1287-1326 | for every placement of two or more vectors relative to the output, the result seals the concatenation of the original inputs |
| `FusionAead.DoDecrypt` | lib/fusion.c:1341-1355 | opens: length and plaintext exactly when the input was sealed, failure otherwise |
| `FusionAead.OpenInvertsSeal` | lib/fusion.c:1341-1355 | opening undoes sealing |
| `FusionAead.OpenOnlySealed` | lib/fusion.c:1341-1355 | an input opens to p if and only if it is the seal of p |
| `QuicLb.SplitMerged` | lib/quiclb-impl.h:71-101 | halves that respect the nibble masks are split again after merging |
| `QuicLb.MergeSplit` | lib/quiclb-impl.h:71-101 | merging undoes splitting, the shared middle byte at odd lengths included |
| `QuicLb.DecryptInverts` | lib/quiclb-impl.h:108-162 | for every length from 7 to 19 and any block function, decryption inverts encryption |
| `QuicLb.EncryptInverts` | lib/quiclb-impl.h:108-162 | and encryption inverts decryption |
| `QuicLbHalves.EncryptIsDraft` | lib/quiclb-impl.h:108-162 | the rounds on masked blocks are the cipher of the draft on halves: AES is given the half, zeros, the length and the number of the round |
| `QuicLbHalves.DecryptIsDraft` | lib/quiclb-impl.h:108-162 | and so for decryption |
| `QuicLbHalves.RoundsByNumber` | lib/quiclb-impl.h:139-153 | were AES to look at length and round alone, rounds 2 and 4 would change the left half, 1 and 3 the right one |
| `QuicLb.OneRound` | lib/quiclb-impl.h:49-69 | a round on arrays |
| `QuicLb.Split` | lib/quiclb-impl.h:71-83 | the halves with the middle byte masked, in arrays |
| `QuicLb.MergeOutput` | lib/quiclb-impl.h:85-101 | the merged output, in an array |
| `QuicLb.Transform` | lib/quiclb-impl.h:108-162 | the procedure on arrays computes these functions, also when the output is the input |
| `Ffx.PassTwice` | lib/ffx.c:119-136 | a pass undoes itself |
| `Ffx.DownUndoes` | lib/ffx.c:138-200 | the rounds backwards undo the rounds forwards |
| `Ffx.DecryptInverts` | lib/ffx.c:138-200 | for every length, tweak, mask and even round count, and any cipher, decryption inverts encryption |
| `Ffx.EncryptInverts` | lib/ffx.c:138-200 | and encryption inverts decryption |
| `FfxFeistel.EncryptIsFeistel` | lib/ffx.c:138-200 | encryption is the passes in order, each adding the cipher under tweak, marker and the other half |
| `FfxFeistel.DecryptIsFeistel` | lib/ffx.c:138-200 | decryption is as many passes with numbers going down |
| `Ffx.OutsideKept` | lib/ffx.c:138-200 | whatever the round count, the bits outside the mask are left alone |
| `Ffx.OddRoundsFail` | lib/ffx.c:161-186 | for every odd round count that an int can count to, a cipher and an input that decryption does not give back |
| `Ffx.InvertsIfEven` | lib/ffx.c:138-200 | decryption inverts encryption for all ciphers, tweaks, lengths and masks if and only if the round count is even |
| `Ffx.OnePass` | lib/ffx.c:119-136 | a pass on arrays changes the target only |
| `Ffx.Rounds` | lib/ffx.c:161-171 | the loop over rounds |
| `Ffx.RoundsBack` | lib/ffx.c:172-186 | the loop backwards |
| `Ffx.Transform` | lib/ffx.c:138-200 | the procedure on arrays computes these functions, also when the output is the input |
| `ChaCha.CryptSplit` | lib/openssl.c:1373-1408 | encrypting in two pieces at consecutive positions is encrypting the whole |
| `ChaCha.BulkIsCrypt` | lib/openssl.c:1390-1399 | at a block boundary the bulk function, called with the wrapped counter, is the keystream |
| `ChaCha.ChaCha20.TransformBuffered` | lib/openssl.c:1361-1371 | the cache gives the next bytes of the ideal keystream |
| `ChaCha.ChaCha20.Refill` | lib/openssl.c:1401-1404 | the cache is filled with the next block |
| `ChaCha.ChaCha20.Transform` | lib/openssl.c:1373-1408 | any call continues the keystream at the current position, and the cache still agrees with it |
| `ChaCha.ChaCha20Poly1305.Init` | lib/chacha20poly1305.h:77-102 | the MAC key comes from block zero, data starts at block counter one |
| `ChaCha.ChaCha20Poly1305.Update` | lib/chacha20poly1305.h:104-113 | an update continues ciphertext and MAC |
| `ChaCha.ChaCha20Poly1305.Finalize` | lib/chacha20poly1305.h:58-69 | the tag over padded additional data, padded ciphertext and both lengths |
| `ChaCha.ChaCha20Poly1305.EncryptV` | include/zpicotls.h:2323-2332 | over any split into vectors, the one-shot ciphertext and tag (section 2.8 of RFC 8439) |
| `ChaCha.ChaCha20Poly1305.Decrypt` | lib/chacha20poly1305.h:124-150 | opens, or fails on short input and wrong tags |
| `ChaCha.OpenInvertsSeal` | lib/chacha20poly1305.h:124-150 | opening undoes sealing |
| `ChaCha.OpenOnlySealed` | lib/chacha20poly1305.h:124-150 | what opens was sealed |
| `ChaCha.SealedBytes` | lib/chacha20poly1305.h:77-113 | byte by byte, the text is added to the key stream from block 1 on and the tag is keyed with the first half of block 0 (section 2.8 of RFC 8439) |
| `ChaCha.Le64IsLittleEndian` | lib/chacha20poly1305.h:58-69 | the lengths that are authenticated are little-endian numbers of 64 bits |
| `Codec.QuicRoundTrip` | include/zpicotls.h:2204-2226 | a variable-length integer below 2^62 is decoded to itself, leaving what follows (section 16 of RFC 9000) |
| `Codec.QuicLayout` | include/zpicotls.h:2204-2226 | big-endian, of the least of the sizes 1, 2, 4 and 8 that holds the number, with the size in the two upper bits (section 16 of RFC 9000) |
| `Codec.ReadQuic` | lib/picotls.c:1011-1029 | the decoding loop, with its failure on short input |
| `Codec.PrefixRoundTrip` | include/zpicotls.h:1377-1415 | a prefix of fixed width or a variable-length integer is read back |
| `Codec.RoundTrip` | include/zpicotls.h:1305-1325 | reading what was pushed gives back the tree of nested blocks and consumes exactly its bytes |
| `Buffers.Buffer.Reserve` | lib/picotls.c:641-677 | growing keeps the contents and gives the requested room; it fails exactly when the size overflows |
| `Buffers.Buffer.Push` | lib/picotls.c:679-690 | appends, or leaves the contents alone |
| `Buffers.Buffer.Shift` | lib/picotls.c:692-710 | moving the body keeps its bytes |
| `Buffers.Buffer.EndFixed` | include/zpicotls.h:1305-1325 | the prefix of a block is filled in exactly when the body fits it |
| `Buffers.Buffer.EndQuic` | lib/picotls.c:692-710 | a longer prefix is put before the body, moved intact |
| `Buffers.PushNode` | include/zpicotls.h:1305-1325 | pushing nested blocks appends their encoding; it fails only when a block overflows or the address space is exhausted |
| `Base64.EncodeText` | lib/pembase64.c:55-106 | the encoding and its terminator; its length is howlong plus one |
| `Base64.CellIsNumber` | lib/pembase64.c:55-106 | three bytes and their four letters are the same number; fewer bytes are filled up with zeros, and what comes of the filling alone is padding |
| `Base64.Alphabet` | lib/pembase64.c:31-53 | capitals, small letters, digits, plus and slash have the values 0 to 63, and nothing else has one |
| `Base64.EncodeLength` | lib/pembase64.c:69-72 | four characters for every three bytes begun |
| `Base64.DecodeInverts` | lib/pembase64.c:115-215 | fed line by line, with blanks around lines, decoding inverts encoding if and only if no line ends between two padding characters |
| `Base64.CutBetweenPads` | lib/pembase64.c:115-215 | one byte, cut between its two padding characters, is refused |
| `Base64.DecodeWhole` | lib/pembase64.c:115-215 | fed whole, it always does |
| `Base64.Decoder.DecodeLine` | lib/pembase64.c:115-215 | the loop over characters, with nbc, nbo, v and status as fields |
| `Asn1.ReadType` | lib/asn1.c:83-119 | the type octets end where the grammar says; an error exactly when they do not end |
| `Asn1.ReadLength` | lib/asn1.c:134-180 | the length octets as read modulo 2^32, with bounds |
| `Asn1.Validate` | lib/asn1.c:214-294 | terminates within the depth limit on every input, reads past it if and only if it is empty, and accepts exactly the inputs that start with an element, whose size it returns |
| `Asn1.ValidateAll` | lib/asn1.c:296-309 | accepts exactly the inputs that are one element, and reads past an empty one |
| `Asn1.EncodingAccepted` | lib/asn1.c:214-294 | every encoding, of definite length or not, with any type and length octets, is accepted and consumed exactly, whatever follows, if and only if it is not nested too deep |
| `Asn1.LongZero` | lib/asn1.c:145-152 | the long form of a zero length is read if and only if the input goes on after it |
| `Asn1.Expect` | lib/asn1.c:182-212 | an element of the expected type with a definite length, or an error |
| `Asn1.KeyIn` | lib/minicrypto-pem.c:40-166 | the ranges of algorithm, parameters and key in a key file are in bounds, in order and disjoint, and the key ends the input |
| `Asn1.DecodeAlgorithm` | lib/minicrypto-pem.c:82-137 | the algorithm identifier and its optional parameters fill their sequence |
| `Asn1.DecodePrivateKey` | lib/minicrypto-pem.c:40-166 | succeeds exactly on key files, and with a log on those whose key is an element itself; consumes them whole and returns those ranges; reads past the input if and only if there is a log and the key is empty |
| `Asn1.KeyDecoded` | lib/minicrypto-pem.c:40-166 | every key file is decoded to its object identifier, parameters and key |
| `Asn1.EmptyKey` | lib/minicrypto-pem.c:140-157 | a key file with an empty key |

## Left out

- Parsing of ClientHello and ServerHello extensions other than cookies and Encrypted ClientHello: messages carry their
  bytes and the decoded fields, and honest messages have fields that match. HelloRetryRequest and NewSessionTicket, which
  the server encodes here byte by byte, are decoded in Decoding.
- Encrypted ClientHello inside the handshake: choosing between the inner and the outer transcript, GREASE and the
  acceptance signal. HPKE is taken to give the server the payload that the client sealed.
- Asynchronous signing and its state of the server; certificate compression, X.509 and the signature callbacks, which
  are predicates on bytes here.
- The emitter of raw messages for QUIC with its epoch offsets; TLS 1.2 records; export and import of connections.
- Skipping of rejected early data; ptls_receive while early data still arrives.
- Allocation failure, memory clearing, logging, probes, CPU detection.
- AES rounds and key expansion, loads across page boundaries, the non-temporal paths and the 256-bit path of
  `lib/fusion.c`: registers hold 128 bits and AES is a parameter with one round function.
- Ticket age, server name and ALPN checks on a resumed session: they are part of the function that opens a ticket.
- Agreement.HonestRunAgrees: at most one HelloRetryRequest, since the client takes a second one in the same way
  (`lib/picotls.c:5739-5746`); the secrets of tickets are claimed without client authentication only, since the
  prediction omits the certificates of the client.
- RunSecrets.HonestRunSecrets: the exporter secret of the client is claimed when both ends derive one.
- Decoding.RetryRoundTrip: for what the length prefixes can hold; without the extension for Encrypted ClientHello.
- Decoding.RetrySent: the same, and what is signed fits.
- Completion.HonestRunCompletes: no external PSK together with required client authentication, which the server
  refuses; stateless retries are in CookieRuns.CookieRunCompletes; hellos leave 512 bytes of their record for the binder and the cookie of the server.
- CookieRuns.CookieRunCompletes: no HMAC collision between the texts signed for two groups, and suites and groups below
  2^16.
- Cookies.CookieEquivalent: what is signed fits, else the assertion of ServerSafety.StepKeeps fails, and no HMAC
  collision between the two signed texts.
- ServerObject.Connection.HandleHello: without Encrypted ClientHello, the callback on the hello, server name, ALPN and
  certificate types, which select no key and change no transcript here.
- ServerObject.Connection.Handle: the same holds of the server as a whole.
- Records.MessageReader.HandleRecord: the callback accepts every message and there is no limit on the buffer; with
  both, it is RecordReceiver.Inbound.HandleHandshakeRecord.
- RecordReceiver.Inbound.HandleKeyUpdate: without the callback that replaces the traffic keys, and without the limit
  of 2^32 - 1 on requests while the sending side is detached.
- RecordReceiver.Inbound.HandleInput: after the handshake, so that no early data is skipped and a ChangeCipherSpec is
  always refused; decryptbuf is a value, so that decrypting into it over the input is not modelled.
- RecordObject.EncryptRecord: the buffer is a value, so that encrypting over the plaintext is not modelled.
- FusionEncrypt.Encrypt: lengths below 2^28 bytes, where the signed 32-bit arithmetic of the source is defined.
- FusionIter.EncryptIter: lengths below 2^28 bytes, for the same reason; the input vectors are values, so that they
  cannot overlap the output.
- FusionAead.DoEncryptV: one vector must lie at the output or apart from it, as the source demands.
- ChaCha.ChaCha20.Transform: input and output are values, so writing in place is not modelled.
- ServerSafety.StepKeeps: the messages go out in records, and the assertions are those of what is modelled, not those
  about Encrypted ClientHello, asynchronous signing, the results of callbacks or the direction of buffers.
- ClientSafety.StepAsserts: the same.
- Buffers.Buffer.Reserve: allocation succeeds; alignment, and the direction for which a buffer was initialized, are not
  modelled.
