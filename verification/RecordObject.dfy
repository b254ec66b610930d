/** The sending side as the objects of lib/picotls.c: a connection, and the object that
    ptls_detach_tx moves its outbound state to. */
module RecordObject {
  import opened Results
  import opened Wire
  import opened Records
  import opened RecordLayer

  /** buffer_encrypt_record: the record that starts at start, a five-byte header and a body in the clear,
      is replaced by its protected form, in place when it fits one record. */
  method EncryptRecord(a: Aead, buf: Data, start: nat, enc: Protection) returns (buf': Data, enc': Protection)
    requires start + 5 <= |buf|
    ensures var kind, body := buf[start], buf[start + 5..];
      if |body| <= MAX_PLAINTEXT
      then buf' == buf[..start] + SealRecord(a, enc, kind, body) && enc' == Advance(enc)
      else buf' == buf[..start] + SealAll(a, enc, kind, body).wire && enc' == SealAll(a, enc, kind, body).p
  {
    hide SealAll;
    var kind, body := buf[start], buf[start + 5..];
    if |body| <= MAX_PLAINTEXT {
      var length := |body| + 1 + a.tag;
      var sealed := a.seal(enc.secret, enc.seqno, Header(length), body + [kind]);
      buf' := buf[..start + 5] + sealed;
      buf' := buf'[start := APPDATA];
      buf' := buf'[start + 1 := 3][start + 2 := 3];
      buf' := buf'[start + 3 := Low(length / 256)];
      buf' := buf'[start + 4 := Low(length)];
      enc' := enc.(seqno := enc.seqno + 1);
      assert buf'[start..start + 5] == Header(length);
      assert buf' == buf[..start] + (Header(length) + sealed);
    } else {
      buf', enc' := PushEncryptedRecords(a, buf[..start], kind, body, enc);
    }
  }

  // The two ways agree on a body that is not empty and fits one record.
  lemma InPlaceIsPush(a: Aead, p: Protection, kind: Octet, body: Data)
    requires 0 < |body| <= MAX_PLAINTEXT
    ensures SealAll(a, p, kind, body)
      == Sealed(SealRecord(a, p, kind, body), Advance(p), [Nonce(p.generation, p.seqno)])
  {
    hide SealRecord;
    assert body[..|body|] == body && body[|body|..] == [];
    var w := SealRecord(a, p, kind, body);
    assert SealAll(a, Advance(p), kind, []) == Sealed([], Advance(p), []);
    assert w + [] == w;
  }

  // The loop of ptls_tx_sendv over the lengths, which stops before a record would overflow.
  method AddLengths(spans: seq<Data>) returns (r: Option<nat>)
    ensures r == if TotalLength(spans) <= MAX_PLAINTEXT then Some(TotalLength(spans)) else None
  {
    var length, i := 0, 0;
    assert spans[..0] == [];
    while i < |spans|
      invariant 0 <= i <= |spans| && length == TotalLength(spans[..i]) <= MAX_PLAINTEXT
    {
      assert spans[..i + 1] == spans[..i] + [spans[i]] && spans == spans[..i + 1] + spans[i + 1..];
      TotalAppend(spans[..i], [spans[i]]);
      TotalAppend(spans[..i + 1], spans[i + 1..]);
      assert TotalLength([spans[i]]) == |spans[i]| by { assert [spans[i]][1..] == []; }
      if |spans[i]| > MAX_PLAINTEXT - length {
        return None;
      }
      length := length + |spans[i]|;
      i := i + 1;
    }
    assert spans[..i] == spans;
    return Some(length);
  }

  class Outbound {
    const a: Aead
    // traffic_protection.enc, missing once it is detached
    var enc: Option<Protection>
    var needsUpdate: bool
    var sendRequest: bool
    var detached: bool
    var updateRequests: nat

    function View(): Side
      reads this
    {
      Side(enc, needsUpdate, sendRequest, detached, updateRequests)
    }

    // Only what has been detached lacks its keys.
    ghost predicate Valid()
      reads this
    {
      detached <==> enc.None?
    }

    constructor (a: Aead, s: Side)
      requires s.detached <==> s.enc.None?
      ensures Valid() && this.a == a && View() == s
    {
      this.a := a;
      enc, needsUpdate, sendRequest, detached, updateRequests := s.enc, s.needsUpdate, s.sendRequest, s.detached,
        s.updateRequests;
    }

    // update_send_key
    method SendKeyUpdate(sendbuf: Data, request: bool) returns (out: Data)
      requires enc.Some?
      modifies this`enc
      ensures out == sendbuf + UpdateSendKey(a, old(enc).value, request).wire
      ensures enc == Some(UpdateSendKey(a, old(enc).value, request).p)
    {
      var plain: Data := [HANDSHAKE, 3, 3, 0, 0] + KeyUpdateMessage(request);
      var start := |sendbuf|;
      var buf := sendbuf + plain;
      assert buf[start] == HANDSHAKE && buf[start + 5..] == KeyUpdateMessage(request) && buf[..start] == sendbuf;
      var used;
      out, used := EncryptRecord(a, buf, start, enc.value);
      enc := Some(Protection(a.next(used.secret), used.generation + 1, 0));
    }

    // The key update that ptls_send and ptls_tx_sendv start with when one is due
    method UpdateIfDue(sendbuf: Data) returns (out: Data)
      requires enc.Some?
      modifies this
      ensures out == sendbuf + Prelude(a, old(View())).wire
      ensures View() == Settled(old(View()), Prelude(a, old(View())).p)
    {
      hide UpdateSendKey;
      if enc.value.seqno >= LIMIT {
        needsUpdate := true;
      }
      out := sendbuf;
      if needsUpdate {
        out := SendKeyUpdate(sendbuf, sendRequest);
        needsUpdate, sendRequest := false, false;
      }
    }

    // ptls_send
    method SendData(sendbuf: Data, input: Data) returns (r: Result<Data, Error>)
      requires Valid()
      modifies this
      ensures Valid()
      ensures match Send(a, old(View()), input)
        case Ok(s) => r == Ok(sendbuf + s.wire) && View() == s.side
        case Err(e) => r == Err(e) && View() == old(View())
    {
      hide SealAll, Prelude;
      if detached {
        return Err(NotAvailable);
      }
      var out := UpdateIfDue(sendbuf);
      var u := enc.value;
      var buf, p := PushEncryptedRecords(a, out, APPDATA, input, u);
      enc := Some(p);
      assert sendbuf + Prelude(a, old(View())).wire + SealAll(a, u, APPDATA, input).wire
          == sendbuf + (Prelude(a, old(View())).wire + SealAll(a, u, APPDATA, input).wire);
      return Ok(buf);
    }

    // ptls_tx_sendv: the lengths are added up first, without overflowing a record.
    method SendSpans(sendbuf: Data, spans: seq<Data>) returns (r: Result<Data, Error>)
      requires Valid() && enc.Some?
      modifies this
      ensures Valid()
      ensures match SendV(a, old(View()), spans)
        case Ok(s) => r == Ok(sendbuf + s.wire) && View() == s.side
        case Err(e) => r == Err(e) && View() == old(View())
    {
      hide SealRecord, Prelude;
      var total := AddLengths(spans);
      if total.None? {
        return Err(Library);
      }
      var length := total.value;
      var out := UpdateIfDue(sendbuf);
      if length == 0 {
        return Ok(out);
      }
      var p := enc.value;
      var w := SealRecord(a, p, APPDATA, Concat(spans));
      enc := Some(Advance(p));
      assert out + w == sendbuf + (Prelude(a, old(View())).wire + w);
      return Ok(out + w);
    }

    // ptls_update_key
    method RequestUpdate(request: bool) returns (error: Option<Error>)
      modifies this
      ensures match UpdateKey(old(View()), request)
        case Ok(s) => error.None? && View() == s
        case Err(e) => error == Some(e) && View() == old(View())
    {
      if detached {
        return Some(NotAvailable);
      }
      needsUpdate, sendRequest := true, request;
      return None;
    }

    // The part of handle_key_update that concerns the sending side
    method OnPeerRequest()
      modifies this
      ensures View() == PeerRequest(old(View()))
    {
      if detached {
        updateRequests := updateRequests + 1;
      } else {
        needsUpdate := true;
      }
    }

    /** ptls_detach_tx: the new object takes over keys, sequence number and pending update; this one can no
        longer send. */
    method DetachTx() returns (r: Result<Outbound, Error>)
      requires Valid()
      modifies this
      ensures Valid()
      ensures match Detach(old(View()))
        case Ok(p) => r.Ok? && fresh(r.value) && r.value.Valid() && r.value.a == a && View() == p.0
          && r.value.View() == p.1
        case Err(e) => r == Err(e) && View() == old(View())
    {
      if detached || enc.None? {
        return Err(NotAvailable);
      }
      var tx := new Outbound(a, Side(enc, needsUpdate, sendRequest, false, 0));
      enc, needsUpdate, sendRequest, detached := None, false, false, true;
      return Ok(tx);
    }
  }
}
