/** The secrets of TLS 1.3 as section 7.1 of RFC 8446 computes them, from the primitives, the labels and the bytes of
    the messages. */
module Secrets {
  import opened Results
  import opened Wire
  import opened KeySchedule

  // Nothing to mix in stands for as many zeros as a digest has bytes.
  function OrZeros(k: Crypto, a: nat, ikm: Option<Data>): Data
  {
    if ikm.Some? then ikm.value else Zeros(k.size(a))
  }

  function EarlySecret(k: Crypto, a: nat, psk: Option<Data>): Data
  {
    k.extract(a, Zeros(k.size(a)), OrZeros(k, a, psk))
  }

  function HandshakeSecret(k: Crypto, a: nat, psk: Option<Data>, shared: Option<Data>): Data
  {
    k.extract(a, k.expand(a, EarlySecret(k, a, psk), "derived", k.hash(a, [])), OrZeros(k, a, shared))
  }

  function MasterSecret(k: Crypto, a: nat, psk: Option<Data>, shared: Option<Data>): Data
  {
    k.extract(a, k.expand(a, HandshakeSecret(k, a, psk, shared), "derived", k.hash(a, [])), Zeros(k.size(a)))
  }

  // Derive-Secret over the bytes of the messages so far
  function SecretOver(k: Crypto, a: nat, secret: Data, name: string, bytes: Data): Data
  {
    k.expand(a, secret, name, k.hash(a, bytes))
  }

  // The MAC of a Finished message, section 4.4.4
  function FinishedOver(k: Crypto, a: nat, secret: Data, bytes: Data): Data
  {
    k.hmac(a, k.expand(a, secret, "finished", []), k.hash(a, bytes))
  }

  // A PSK binder, section 4.2.11.2
  function BinderOver(k: Crypto, a: nat, psk: Data, external: bool, bytes: Data): Data
  {
    var name := if external then "ext binder" else "res binder";
    FinishedOver(k, a, SecretOver(k, a, EarlySecret(k, a, Some(psk)), name, []), bytes)
  }

  // The PSK of a ticket, section 4.6.1
  function TicketSecret(k: Crypto, a: nat, master: Data, bytes: Data, nonce: Data): Data
  {
    k.expand(a, SecretOver(k, a, master, "res master", bytes), "resumption", nonce)
  }

  // What the transcript starts with: a hello or, after a retry, the hash of the first one, the retry and the second.
  function HelloBytes(k: Crypto, a: nat, hellos: seq<Data>): Data
    requires |hellos| == 1 || |hellos| == 3
  {
    if |hellos| == 1 then hellos[0]
    else [254, 0, 0, Low(k.size(a))] + k.hash(a, hellos[0]) + hellos[1] + hellos[2]
  }
}
