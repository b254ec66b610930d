/** The key schedule and the traffic keys as the objects that lib/picotls.c updates in place; each
    operation is proved against the function of modules KeySchedule and Messages. */
module Schedules {
  import opened Results
  import opened Wire
  import opened KeySchedule
  import opened Messages

  class ScheduleObject {
    var generation: nat
    var secret: Data
    var slots: seq<Slot>

    function View(): Schedule
      reads this
    {
      Schedule(generation, secret, slots)
    }

    // No schedule yet
    constructor ()
      ensures View() == NO_SCHEDULE
    {
      generation, secret, slots := 0, [], [];
    }

    // key_schedule_new: the preferred hash, then every hash not seen before.
    method Setup(preferred: Option<Suite>, offered: seq<Suite>)
      modifies this
      ensures View() == New(preferred, offered)
    {
      generation, secret := 0, [];
      slots := if preferred.Some? then [Slot(preferred.value.hash, [])] else [];
      var i := 0;
      while i < |offered|
        invariant 0 <= i <= |offered| && generation == 0 && secret == []
        invariant slots == FirstSlots(preferred, offered, i)
      {
        if preferred.None? || offered[i].hash != preferred.value.hash {
          var j := 0;
          while j != i && offered[j].hash != offered[i].hash
            invariant 0 <= j <= i && forall h | 0 <= h < j :: offered[h].hash != offered[i].hash
          {
            j := j + 1;
          }
          if j == i {
            slots := slots + [Slot(offered[i].hash, [])];
          }
        }
        i := i + 1;
      }
    }

    // key_schedule_extract
    method ExtractSecret(k: Crypto, ikm: Option<Data>)
      requires slots != []
      modifies this
      ensures View() == Extract(k, old(View()), ikm)
    {
      var algo := slots[0].algo;
      var key := if ikm.Some? then ikm.value else Zeros(k.size(algo));
      var salt := Zeros(k.size(algo));
      if generation != 0 {
        salt := k.expand(algo, secret, "derived", k.hash(algo, []));
      }
      generation := generation + 1;
      secret := k.extract(algo, salt, key);
    }

    /** key_schedule_select_cipher: its assertions hold, and the hash is looked for in all of the slots; when
        it is not there, the code reads past them. */
    method Select(k: Crypto, algo: nat, reset: bool, ikm: Option<Data>) returns (tracked: bool)
      requires generation == 1 && Distinct(slots)
      modifies this
      ensures tracked <==> Tracks(old(slots), algo)
      ensures tracked ==> View() == SelectCipher(k, old(View()), algo, reset, ikm)
    {
      var found, i := |slots|, 0;
      ghost var target := FindSlot(slots, algo);
      while i != |slots|
        invariant 0 <= i <= |slots|
        invariant found == if target < i then target else |slots|
      {
        if slots[i].algo == algo {
          assert found == |slots|;
          found := i;
        }
        i := i + 1;
      }
      if found == |slots| {
        return false;
      }
      var again := reset;
      if found != 0 {
        slots := slots[0 := slots[found]];
        again := true;
      }
      slots := slots[..1];
      if again {
        generation := generation - 1;
        secret := [];
        ExtractSecret(k, ikm);
      }
      return true;
    }

    // ptls__key_schedule_update_hash
    method UpdateHash(m: Data)
      modifies this
      ensures View() == Update(old(View()), m)
    {
      var i := 0;
      while i != |slots|
        invariant 0 <= i <= |slots| == |old(slots)| && generation == old(generation) && secret == old(secret)
        invariant forall j | 0 <= j < |slots| ::
          slots[j] == if j < i then Slot(old(slots[j]).algo, old(slots[j]).ctx + m) else old(slots[j])
      {
        slots := slots[i := Slot(slots[i].algo, slots[i].ctx + m)];
        i := i + 1;
      }
      assert slots == Update(old(View()), m).slots;
    }

    // key_schedule_transform_post_ch1hash
    method TransformCh1(k: Crypto)
      requires |slots| == 1
      modifies this
      ensures View() == TransformPostCh1(k, old(View()))
    {
      var algo := slots[0].algo;
      var digest := k.hash(algo, slots[0].ctx);
      slots := [Slot(algo, [])];
      slots := [Slot(algo, slots[0].ctx + [MESSAGE_HASH, 0, 0, Low(k.size(algo))])];
      slots := [Slot(algo, slots[0].ctx + digest)];
      assert slots[0].ctx == HashMessage(k, algo, digest);
    }

    // key_schedule_update_ch1hash_prefix and the hash kept in a cookie
    method AdoptCh1(k: Crypto, digest: Data)
      requires |slots| == 1 && slots[0].ctx == []
      modifies this
      ensures View() == Update(old(View()), HashMessage(k, Algo(old(View())), digest))
    {
      var prefix: Data := [MESSAGE_HASH, 0, 0, Low(k.size(slots[0].algo))];
      UpdateTwice(View(), prefix, digest);
      UpdateHash(prefix);
      UpdateHash(digest);
    }
  }

  // key_schedule, traffic_protection and the secrets kept for later
  class KeysObject {
    const sched: ScheduleObject
    var enc: Traffic
    var dec: Traffic
    var pending: Option<Data>
    var earlyExporter: Option<Data>
    var exporter: Option<Data>
    // The log of secrets
    var encLog: seq<Traffic>
    var decLog: seq<Traffic>

    function View(): Keys
      reads this, sched
    {
      Keys(sched.View(), enc, dec, pending, earlyExporter, exporter, encLog, decLog)
    }

    constructor ()
      ensures View() == NO_KEYS && fresh(sched)
    {
      sched := new ScheduleObject();
      enc, dec, pending, earlyExporter, exporter := PLAINTEXT, PLAINTEXT, None, None, None;
      encLog, decLog := [], [];
    }

    // setup_traffic_protection for writing, with a secret derived or given
    method SetupEnc(epoch: nat, secret: Data)
      modifies this
      ensures View() == InstallEnc(old(View()), epoch, secret)
    {
      enc := Traffic(epoch, secret);
      encLog := encLog + [enc];
    }

    // setup_traffic_protection for reading
    method SetupDec(epoch: nat, secret: Data)
      modifies this
      ensures View() == InstallDec(old(View()), epoch, secret)
    {
      dec := Traffic(epoch, secret);
      decLog := decLog + [dec];
    }

    // ptls_push_message: what is sent is hashed.
    method Emit(ms: seq<Message>)
      modifies sched
      ensures View() == old(View()).(sched := UpdateAll(old(View()).sched, ms))
    {
      hide Update;
      var i := 0;
      assert ms[0..] == ms;
      while i < |ms|
        invariant 0 <= i <= |ms|
        invariant UpdateAll(sched.View(), ms[i..]) == UpdateAll(old(sched.View()), ms)
      {
        assert ms[i..][1..] == ms[i + 1..];
        sched.UpdateHash(Raw(ms[i]));
        i := i + 1;
      }
    }

    // verify_finished
    method VerifyPeer(k: Crypto, raw: Data) returns (error: Option<Error>)
      requires sched.slots != []
      ensures error == VerifyFinished(k, sched.View(), dec.secret, raw)
    {
      if |raw| - 4 != k.size(sched.slots[0].algo) {
        return Some(DecodeError);
      }
      if VerifyData(k, sched.View(), dec.secret) != raw[4..] {
        return Some(HandshakeFailure);
      }
      return None;
    }
  }

  lemma {:induction false} UpdateAllAppend(s: Schedule, a: seq<Message>, b: seq<Message>)
    ensures UpdateAll(s, a + b) == UpdateAll(UpdateAll(s, a), b)
    decreases |a|
  {
    hide Update;
    if a == [] {
      assert a + b == b;
    } else {
      assert (a + b)[0] == a[0] && (a + b)[1..] == a[1..] + b;
      UpdateAllAppend(Update(s, Raw(a[0])), a[1..], b);
    }
  }

  lemma UpdateOne(s: Schedule, m: Message)
    ensures UpdateAll(s, [m]) == Update(s, Raw(m))
  {
    assert [m][1..] == [];
  }

  lemma ExtractKeepsSlots(k: Crypto, s: Schedule, ikm: Option<Data>)
    requires s.slots != []
    ensures Extract(k, s, ikm).slots == s.slots
  {}
}
