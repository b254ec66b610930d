/** The key schedule and transcript of lib/picotls.c: hash contexts are the bytes fed to
    them, and the hash, HKDF, HMAC and key exchange functions are arbitrary. */
module KeySchedule {
  import opened Results
  import opened Wire

  // The primitives, indexed by the number of the hash algorithm (or of the group).
  datatype Crypto = Crypto(
    size: nat -> nat,
    hash: (nat, Data) -> Data,
    extract: (nat, Data, Data) -> Data,
    expand: (nat, Data, string, Data) -> Data,
    hmac: (nat, Data, Data) -> Data,
    exchange: (nat, Data, Data) -> Data)
  {
    // Digests have the size of their algorithm, at most PTLS_MAX_DIGEST_SIZE.
    ghost predicate Sized()
    {
      && (forall a: nat :: size(a) <= MAX_DIGEST)
      && (forall a: nat, x: Data :: |hash(a, x)| == size(a))
      && (forall a: nat, x: Data, y: Data :: |hmac(a, x, y)| == size(a))
    }
  }

  datatype Suite = Suite(id: nat, hash: nat)

  datatype Slot = Slot(algo: nat, ctx: Data)

  // A schedule without slots stands for the missing one.
  datatype Schedule = Schedule(generation: nat, secret: Data, slots: seq<Slot>)

  const NO_SCHEDULE := Schedule(0, [], [])

  const MAX_DIGEST: nat := 64

  const MESSAGE_HASH: Octet := 254
  const FINISHED: Octet := 20

  // ---------------------------------------------------------------- key_schedule_new

  // The hash of offered[n] occurs neither in preferred nor earlier in offered.
  predicate NewHash(preferred: Option<Suite>, offered: seq<Suite>, n: nat)
    requires n < |offered|
  {
    && (preferred.Some? ==> offered[n].hash != preferred.value.hash)
    && (forall j | 0 <= j < n :: offered[j].hash != offered[n].hash)
  }

  function FirstSlots(preferred: Option<Suite>, offered: seq<Suite>, n: nat): seq<Slot>
    requires n <= |offered|
  {
    if n == 0 then
      if preferred.Some? then [Slot(preferred.value.hash, [])] else []
    else if NewHash(preferred, offered, n - 1) then
      FirstSlots(preferred, offered, n - 1) + [Slot(offered[n - 1].hash, [])]
    else
      FirstSlots(preferred, offered, n - 1)
  }

  function New(preferred: Option<Suite>, offered: seq<Suite>): Schedule
  {
    Schedule(0, [], FirstSlots(preferred, offered, |offered|))
  }

  predicate Distinct(slots: seq<Slot>)
  {
    forall i, j | 0 <= i < j < |slots| :: slots[i].algo != slots[j].algo
  }

  predicate Tracks(slots: seq<Slot>, algo: nat)
  {
    exists i | 0 <= i < |slots| :: slots[i].algo == algo
  }

  // No hash is tracked twice and the preferred one, or else the first offered one, comes first.
  lemma {:induction false} FirstSlotsShape(preferred: Option<Suite>, offered: seq<Suite>, n: nat)
    requires n <= |offered|
    ensures var r := FirstSlots(preferred, offered, n);
      && Distinct(r)
      && (forall i | 0 <= i < |r| :: r[i].ctx == [])
      && (preferred.Some? ==> r != [] && r[0].algo == preferred.value.hash)
      && (preferred.None? && n > 0 ==> r != [] && r[0].algo == offered[0].hash)
      && (forall i | 0 <= i < |r| ::
            || (preferred.Some? && r[i].algo == preferred.value.hash)
            || exists j | 0 <= j < n :: offered[j].hash == r[i].algo)
  {
    if n != 0 {
      FirstSlotsShape(preferred, offered, n - 1);
    }
  }

  lemma TracksMore(slots: seq<Slot>, more: seq<Slot>, algo: nat)
    requires Tracks(slots, algo)
    ensures Tracks(slots + more, algo)
  {
    var i :| 0 <= i < |slots| && slots[i].algo == algo;
    assert (slots + more)[i].algo == algo;
  }

  // Every offered hash is tracked.
  lemma {:induction false} FirstSlotsTrack(preferred: Option<Suite>, offered: seq<Suite>, n: nat, j: nat)
    requires j < n <= |offered|
    ensures Tracks(FirstSlots(preferred, offered, n), offered[j].hash)
    decreases n
  {
    var p := FirstSlots(preferred, offered, n - 1);
    if j < n - 1 {
      FirstSlotsTrack(preferred, offered, n - 1, j);
      TracksMore(p, [Slot(offered[n - 1].hash, [])], offered[j].hash);
    } else if NewHash(preferred, offered, j) {
      assert FirstSlots(preferred, offered, n)[|p|].algo == offered[j].hash;
    } else if preferred.Some? && offered[j].hash == preferred.value.hash {
      FirstSlotsShape(preferred, offered, n);
    } else {
      var i :| 0 <= i < j && offered[i].hash == offered[j].hash;
      FirstSlotsTrack(preferred, offered, n - 1, i);
    }
  }

  // ---------------------------------------------------------------- operations

  function Algo(s: Schedule): nat
    requires s.slots != []
  {
    s.slots[0].algo
  }

  function Transcript(s: Schedule): Data
    requires s.slots != []
  {
    s.slots[0].ctx
  }

  // key_schedule_extract
  function Extract(k: Crypto, s: Schedule, ikm: Option<Data>): Schedule
    requires s.slots != []
  {
    var a := Algo(s);
    var key := if ikm.Some? then ikm.value else Zeros(k.size(a));
    var salt := if s.generation == 0 then Zeros(k.size(a)) else k.expand(a, s.secret, "derived", k.hash(a, []));
    Schedule(s.generation + 1, k.extract(a, salt, key), s.slots)
  }

  // Index of the slot of an algorithm, |slots| when there is none.
  function FindSlot(slots: seq<Slot>, algo: nat): (r: nat)
    ensures r <= |slots|
    ensures r < |slots| ==> slots[r].algo == algo
    ensures r == |slots| <==> !Tracks(slots, algo)
    ensures forall i | 0 <= i < r :: slots[i].algo != algo
  {
    if slots == [] then 0
    else if slots[0].algo == algo then 0
    else
      var r := 1 + FindSlot(slots[1..], algo);
      assert forall i | 0 < i < |slots| :: slots[i] == slots[1..][i - 1];
      assert r == |slots| ==> !Tracks(slots, algo);
      r
  }

  // key_schedule_select_cipher
  function SelectCipher(k: Crypto, s: Schedule, algo: nat, reset: bool, ikm: Option<Data>): Schedule
    requires s.generation == 1 && Tracks(s.slots, algo)
  {
    var found := FindSlot(s.slots, algo);
    var kept := [s.slots[found]];
    if found != 0 || reset then Extract(k, Schedule(0, [], kept), ikm)
    else Schedule(s.generation, s.secret, kept)
  }

  // ptls__key_schedule_update_hash
  function Update(s: Schedule, m: Data): (r: Schedule)
    ensures |r.slots| == |s.slots|
    ensures r.generation == s.generation && r.secret == s.secret
    ensures forall i | 0 <= i < |s.slots| :: r.slots[i] == Slot(s.slots[i].algo, s.slots[i].ctx + m)
  {
    s.(slots := seq(|s.slots|, i requires 0 <= i < |s.slots| => Slot(s.slots[i].algo, s.slots[i].ctx + m)))
  }

  // The synthetic message_hash message that replaces the first ClientHello.
  function HashMessage(k: Crypto, algo: nat, digest: Data): Data
  {
    [MESSAGE_HASH, 0, 0, Low(k.size(algo))] + digest
  }

  // key_schedule_transform_post_ch1hash, called when one slot is left.
  function TransformPostCh1(k: Crypto, s: Schedule): Schedule
    requires |s.slots| == 1
  {
    s.(slots := [Slot(Algo(s), HashMessage(k, Algo(s), k.hash(Algo(s), Transcript(s))))])
  }

  function TranscriptHash(k: Crypto, s: Schedule): Data
    requires s.slots != []
  {
    k.hash(Algo(s), Transcript(s))
  }

  // derive_secret
  function Derive(k: Crypto, s: Schedule, name: string): Data
    requires s.slots != []
  {
    k.expand(Algo(s), s.secret, name, TranscriptHash(k, s))
  }

  // derive_secret_with_empty_digest
  function DeriveEmpty(k: Crypto, s: Schedule, name: string): Data
    requires s.slots != []
  {
    k.expand(Algo(s), s.secret, name, k.hash(Algo(s), []))
  }

  // calc_verify_data
  function VerifyData(k: Crypto, s: Schedule, secret: Data): Data
    requires s.slots != []
  {
    k.hmac(Algo(s), k.expand(Algo(s), secret, "finished", []), TranscriptHash(k, s))
  }

  // The Finished message that send_finished emits.
  function FinishedMessage(k: Crypto, s: Schedule, secret: Data): Data
    requires s.slots != []
  {
    [FINISHED, 0, 0, Low(k.size(Algo(s)))] + VerifyData(k, s, secret)
  }

  // derive_resumption_secret
  function Resumption(k: Crypto, s: Schedule, nonce: Data): Data
    requires s.slots != []
  {
    k.expand(Algo(s), Derive(k, s, "res master"), "resumption", nonce)
  }

  // ---------------------------------------------------------------- laws

  // Feeding a message in two pieces is feeding it whole.
  lemma UpdateTwice(s: Schedule, a: Data, b: Data)
    ensures Update(Update(s, a), b) == Update(s, a + b)
  {
    var l, r := Update(Update(s, a), b), Update(s, a + b);
    forall i | 0 <= i < |s.slots| ensures l.slots[i] == r.slots[i] {
      assert s.slots[i].ctx + a + b == s.slots[i].ctx + (a + b);
    }
    assert l.slots == r.slots;
  }

  // A single slot: the schedule is its generation, secret, algorithm and transcript.
  function Single(generation: nat, secret: Data, algo: nat, ctx: Data): Schedule
  {
    Schedule(generation, secret, [Slot(algo, ctx)])
  }

  lemma UpdateSingle(generation: nat, secret: Data, algo: nat, ctx: Data, m: Data)
    ensures Update(Single(generation, secret, algo, ctx), m) == Single(generation, secret, algo, ctx + m)
  {
    var r := Update(Single(generation, secret, algo, ctx), m);
    assert r.slots == [Slot(algo, ctx + m)];
  }

  // Every slot has been fed the same bytes.
  predicate Fed(s: Schedule, ctx: Data)
  {
    forall i | 0 <= i < |s.slots| :: s.slots[i].ctx == ctx
  }

  /** Whatever hashes were tracked, selecting one leaves the schedule that a peer reaches
      that knew the hash from the start: the transcript fed so far, and the early secret
      extracted from the same input keying material under the selected hash. */
  lemma SelectedSchedule(k: Crypto, s: Schedule, algo: nat, reset: bool, ikm: Option<Data>, ctx: Data,
      first: Option<Data>)
    requires s.generation == 1 && Tracks(s.slots, algo) && Distinct(s.slots) && Fed(s, ctx)
    requires s.secret == Extract(k, Schedule(0, [], s.slots), first).secret
    ensures SelectCipher(k, s, algo, reset, ikm)
         == Extract(k, Single(0, [], algo, ctx), if reset || Algo(s) != algo then ikm else first)
  {
  }
}
