/** Encrypted ClientHello: the three encodings of a ClientHello and the server's rebuilding of
    the inner one from the compressed inner and the outer hello (draft-ietf-tls-esni-15). */
module Ech {
  import opened Results
  import opened Wire

  const CLIENT_HELLO: Octet := 1
  const OUTER_EXTENSIONS: nat := 0xfd00
  const ENCRYPTED_CLIENT_HELLO: nat := 0xfe0d
  const KEY_SHARE: nat := 51

  datatype Error = DecodeError | IllegalParameter | BlockOverflow | Assertion

  // ---------------------------------------------------------------- extension lists

  datatype Ext = Ext(kind: nat, body: Data)

  predicate Fits(e: Ext) { e.kind < 65536 && |e.body| < 65536 }

  function EncodeExts(es: seq<Ext>): Data
  {
    if es == [] then [] else Extension(es[0].kind, es[0].body) + EncodeExts(es[1..])
  }

  lemma {:induction false} EncodeAppend(a: seq<Ext>, b: seq<Ext>)
    ensures EncodeExts(a + b) == EncodeExts(a) + EncodeExts(b)
    decreases |a|
  {
    if a == [] {
      assert a + b == b;
    } else {
      assert (a + b)[0] == a[0] && (a + b)[1..] == a[1..] + b;
      EncodeAppend(a[1..], b);
    }
  }

  // ---------------------------------------------------------------- rebuilding, on bytes

  datatype Scanned = Scanned(body: Data, rest: Data)

  // Look for an extension in what is left of the outer hello; the scan only moves forward.
  function Scan(kind: nat, outer: Data): (r: Result<Scanned, Error>)
    ensures r.Ok? ==> |r.value.body| + |r.value.rest| + 4 <= |outer|
    decreases |outer|
  {
    if |outer| < 4 then Err(IllegalParameter)
    else
      var size := Number16(outer[2..]);
      if |outer| - 4 < size then Err(Assertion)
      else if Number16(outer) == kind then Ok(Scanned(outer[4..4 + size], outer[4 + size..]))
      else Scan(kind, outer[4 + size..])
  }

  datatype Copied = Copied(bytes: Data, rest: Data)

  // The extensions that a list of references stands for.
  function CopyRefs(refs: Data, outer: Data): (r: Result<Copied, Error>)
    ensures r.Ok? ==> |r.value.rest| <= |outer|
    decreases |refs|
  {
    if |refs| < 2 then Err(DecodeError)
    else
      var kind := Number16(refs);
      if kind == ENCRYPTED_CLIENT_HELLO then Err(IllegalParameter)
      else
        var s := Scan(kind, outer);
        if s.Err? then Err(s.error)
        else
          var here := Extension(kind, s.value.body);
          if |refs| == 2 then Ok(Copied(here, s.value.rest))
          else
            var more := CopyRefs(refs[2..], s.value.rest);
            if more.Err? then more else Ok(Copied(here + more.value.bytes, more.value.rest))
  }

  // One extension of the encoded inner hello: what it stands for, and what is left of both inputs.
  datatype Taken = Taken(bytes: Data, rest: Data, outer: Data)

  function TakeOne(src: Data, outer: Data): (r: Result<Taken, Error>)
    ensures r.Ok? ==> |r.value.rest| < |src|
  {
    if |src| < 2 then Err(DecodeError)
    else
      var kind := Number16(src);
      var o := Open2(src[2..]);
      if o.None? then Err(DecodeError)
      else
        var body, rest := o.value.0, o.value.1;
        if kind == OUTER_EXTENSIONS then
          var q := Open1(body);
          if q.None? then Err(DecodeError)
          else
            var c := CopyRefs(q.value.0, outer);
            if c.Err? then Err(c.error)
            else if q.value.1 != [] then Err(DecodeError)
            else Ok(Taken(c.value.bytes, rest, c.value.rest))
        else Ok(Taken(Extension(kind, body), rest, outer))
  }

  function RebuildExtensions(src: Data, outer: Data): Result<Data, Error>
    decreases |src|
  {
    if src == [] then Ok([])
    else
      var t := TakeOne(src, outer);
      if t.Err? then Err(t.error)
      else
        var r := RebuildExtensions(t.value.rest, t.value.outer);
        if r.Err? then r else Ok(t.value.bytes + r.value)
  }

  // Everything before the extensions: version, random, session id of the outer hello, suites, compression.
  datatype Fields = Fields(bytes: Data, rest: Data)

  function RebuildFields(src: Data, sessionId: Data): Result<Fields, Error>
  {
    if |src| < 34 then Err(DecodeError)
    else
      var s := Open1(src[34..]);
      if s.None? then Err(DecodeError)
      else if s.value.0 != [] then Err(IllegalParameter)
      else
        var suites := Open2(s.value.1);
        if suites.None? then Err(DecodeError)
        else
          var methods := Open1(suites.value.1);
          if methods.None? then Err(DecodeError)
          else Ok(Fields(src[..34] + Block1(sessionId) + Block2(suites.value.0) + Block1(methods.value.0),
            methods.value.1))
  }

  predicate AllZero(s: Data) { forall i | 0 <= i < |s| :: s[i] == 0 }

  // rebuild_ch_inner
  function Rebuild(src: Data, sessionId: Data, outer: Data): Result<Data, Error>
  {
    var f := RebuildFields(src, sessionId);
    if f.Err? then Err(f.error)
    else
      var o := Open2(f.value.rest);
      if o.None? then Err(DecodeError)
      else
        var e := RebuildExtensions(o.value.0, outer);
        if e.Err? then Err(e.error)
        else if |e.value| >= 65536 then Err(BlockOverflow)
        else if !AllZero(o.value.1) then Err(IllegalParameter)
        else Ok(Message(CLIENT_HELLO, f.value.bytes + Block2(e.value)))
  }

  // ---------------------------------------------------------------- rebuilding, on lists

  // An extension of the encoded inner hello: given in full, or as references to the outer hello.
  datatype Item = Full(ext: Ext) | References(kinds: seq<nat>)

  predicate ItemFits(i: Item)
  {
    match i
    case Full(e) => Fits(e) && e.kind != OUTER_EXTENSIONS
    case References(ks) => 0 < |ks| < 128 && KindsFit(ks)
  }

  function EncodeKinds(ks: seq<nat>): (r: Data)
    ensures |r| == 2 * |ks|
  {
    if ks == [] then [] else Be16(ks[0]) + EncodeKinds(ks[1..])
  }

  function EncodeItem(i: Item): Data
  {
    match i
    case Full(e) => Extension(e.kind, e.body)
    case References(ks) => Extension(OUTER_EXTENSIONS, Block1(EncodeKinds(ks)))
  }

  function EncodeItems(items: seq<Item>): Data
  {
    if items == [] then [] else EncodeItem(items[0]) + EncodeItems(items[1..])
  }

  // Position after the first extension of this kind at or after from, 0 when there is none.
  function Find(kind: nat, outer: seq<Ext>, from: nat): (r: nat)
    requires from <= |outer|
    ensures r == 0 || from < r <= |outer|
    ensures r != 0 ==> outer[r - 1].kind == kind && forall i | from <= i < r - 1 :: outer[i].kind != kind
    ensures r == 0 ==> forall i | from <= i < |outer| :: outer[i].kind != kind
    decreases |outer| - from
  {
    if from == |outer| then 0 else if outer[from].kind == kind then from + 1 else Find(kind, outer, from + 1)
  }

  // References resolved one after the other, each after the one before.
  function Resolve(ks: seq<nat>, outer: seq<Ext>, from: nat): (r: Option<(seq<Ext>, nat)>)
    requires from <= |outer|
    ensures r.Some? ==> from <= r.value.1 <= |outer|
    ensures r.Some? ==>
      |r.value.0| == |ks| && forall i | 0 <= i < |ks| :: r.value.0[i].kind == ks[i] && r.value.0[i] in outer
    decreases |ks|
  {
    if ks == [] then Some(([], from))
    else
      var p := Find(ks[0], outer, from);
      if p == 0 then None
      else
        var more := Resolve(ks[1..], outer, p);
        if more.None? then None else Some(([outer[p - 1]] + more.value.0, more.value.1))
  }

  function Expand(items: seq<Item>, outer: seq<Ext>, from: nat): Option<seq<Ext>>
    requires from <= |outer|
  {
    if items == [] then Some([])
    else
      match items[0]
      case Full(e) =>
        var more := Expand(items[1..], outer, from);
        if more.None? then None else Some([e] + more.value)
      case References(ks) =>
        var r := Resolve(ks, outer, from);
        if r.None? then None
        else
          var more := Expand(items[1..], outer, r.value.1);
          if more.None? then None else Some(r.value.0 + more.value)
  }

  // ---------------------------------------------------------------- bytes refine lists

  lemma ExtensionParts(e: Ext, rest: Data)
    requires Fits(e)
    ensures var s := Extension(e.kind, e.body) + rest;
      && |s| == 4 + |e.body| + |rest|
      && Number16(s) == e.kind
      && Number16(s[2..]) == |e.body|
      && s[4..4 + |e.body|] == e.body
      && s[4 + |e.body|..] == rest
      && Open2(s[2..]) == Some((e.body, rest))
  {
    var s := Extension(e.kind, e.body) + rest;
    Number16Of(e.kind);
    Number16Of(|e.body|);
    assert s[0] == Be16(e.kind)[0] && s[1] == Be16(e.kind)[1];
    assert s[2] == Be16(|e.body|)[0] && s[3] == Be16(|e.body|)[1];
    assert s[2..] == Block2(e.body) + rest;
    Open2Of(e.body, rest);
  }

  lemma ScanStep(kind: nat, e: Ext, rest: Data)
    requires Fits(e)
    ensures Scan(kind, Extension(e.kind, e.body) + rest)
         == if e.kind == kind then Ok(Scanned(e.body, rest)) else Scan(kind, rest)
  {
    ExtensionParts(e, rest);
  }

  lemma ScanNothing(kind: nat)
    ensures Scan(kind, EncodeExts([])) == Err(IllegalParameter)
  {}

  lemma ExtsParts(es: seq<Ext>, from: nat)
    requires from < |es|
    ensures EncodeExts(es[from..]) == Extension(es[from].kind, es[from].body) + EncodeExts(es[from + 1..])
  {
    hide Extension;
    assert es[from..][1..] == es[from + 1..];
  }

  lemma {:induction false} ScanFinds(kind: nat, outer: seq<Ext>, from: nat)
    requires from <= |outer| && forall e | e in outer :: Fits(e)
    ensures var p := Find(kind, outer, from);
      Scan(kind, EncodeExts(outer[from..]))
        == if p == 0 then Err(IllegalParameter) else Ok(Scanned(outer[p - 1].body, EncodeExts(outer[p..])))
    decreases |outer| - from
  {
    hide Extension, Scan, EncodeExts, Fits;
    if from == |outer| {
      assert outer[from..] == [];
      ScanNothing(kind);
    } else {
      assert outer[from] in outer;
      ExtsParts(outer, from);
      ScanStep(kind, outer[from], EncodeExts(outer[from + 1..]));
      ScanFinds(kind, outer, from + 1);
    }
  }

  // The first reference of a list, and the others.
  lemma RefParts(ks: seq<nat>)
    requires ks != [] && ks[0] < 65536
    ensures var refs := EncodeKinds(ks);
      |refs| == 2 * |ks| && Number16(refs) == ks[0] && refs[2..] == EncodeKinds(ks[1..])
  {
    hide Number16, Be16;
    Number16Prefix(ks[0], EncodeKinds(ks[1..]));
  }

  predicate KindsFit(ks: seq<nat>) { forall i | 0 <= i < |ks| :: ks[i] < 65536 && ks[i] != ENCRYPTED_CLIENT_HELLO }

  lemma {:induction false} CopyRefsResolves(ks: seq<nat>, outer: seq<Ext>, from: nat)
    requires from <= |outer| && forall e | e in outer :: Fits(e)
    requires ks != [] && KindsFit(ks)
    ensures var r := Resolve(ks, outer, from);
      CopyRefs(EncodeKinds(ks), EncodeExts(outer[from..]))
        == if r.None? then Err(IllegalParameter) else Ok(Copied(EncodeExts(r.value.0), EncodeExts(outer[r.value.1..])))
    decreases |ks|
  {
    hide Scan, EncodeKinds, Extension, Number16;
    RefParts(ks);
    ScanFinds(ks[0], outer, from);
    var p := Find(ks[0], outer, from);
    if p != 0 {
      var e := outer[p - 1];
      SingleExt(e);
      if |ks| == 1 {
        assert Resolve(ks[1..], outer, p) == Some(([], p));
        assert [e] + [] == [e];
      } else {
        CopyRefsResolves(ks[1..], outer, p);
        var more := Resolve(ks[1..], outer, p);
        if more.Some? {
          EncodeAppend([e], more.value.0);
        }
      }
    }
  }

  lemma TakeFull(e: Ext, rest: Data, outer: Data)
    requires Fits(e) && e.kind != OUTER_EXTENSIONS
    ensures TakeOne(Extension(e.kind, e.body) + rest, outer) == Ok(Taken(Extension(e.kind, e.body), rest, outer))
  {
    hide CopyRefs;
    ExtensionParts(e, rest);
  }

  lemma TakeReferences(ks: seq<nat>, rest: Data, outer: seq<Ext>, from: nat)
    requires from <= |outer| && (forall e | e in outer :: Fits(e)) && ItemFits(References(ks))
    ensures var r := Resolve(ks, outer, from);
      TakeOne(EncodeItem(References(ks)) + rest, EncodeExts(outer[from..]))
        == if r.None? then Err(IllegalParameter)
          else Ok(Taken(EncodeExts(r.value.0), rest, EncodeExts(outer[r.value.1..])))
  {
    hide CopyRefs, Resolve;
    var body := Block1(EncodeKinds(ks));
    ExtensionParts(Ext(OUTER_EXTENSIONS, body), rest);
    Open1Of(EncodeKinds(ks), []);
    assert body + [] == body;
    CopyRefsResolves(ks, outer, from);
  }

  /** Rebuilding on bytes is resolving the references on lists: same extensions in the same order,
      and an illegal_parameter alert exactly when a reference cannot be resolved. */
  lemma {:induction false} RebuildRefines(items: seq<Item>, outer: seq<Ext>, from: nat)
    requires from <= |outer| && (forall e | e in outer :: Fits(e)) && (forall i | i in items :: ItemFits(i))
    ensures var r := Expand(items, outer, from);
      RebuildExtensions(EncodeItems(items), EncodeExts(outer[from..]))
        == if r.None? then Err(IllegalParameter) else Ok(EncodeExts(r.value))
    decreases |items|
  {
    hide TakeOne, Resolve;
    if items != [] {
      assert items[0] in items && EncodeItem(items[0]) != [];
      match items[0]
      case Full(e) =>
        TakeFull(e, EncodeItems(items[1..]), EncodeExts(outer[from..]));
        RebuildRefines(items[1..], outer, from);
        var more := Expand(items[1..], outer, from);
        if more.Some? { EncodeAppend([e], more.value); SingleExt(e); }
      case References(ks) =>
        TakeReferences(ks, EncodeItems(items[1..]), outer, from);
        var r := Resolve(ks, outer, from);
        if r.Some? {
          RebuildRefines(items[1..], outer, r.value.1);
          var more := Expand(items[1..], outer, r.value.1);
          if more.Some? { EncodeAppend(r.value.0, more.value); }
        }
    }
  }

  lemma SingleExt(e: Ext)
    ensures EncodeExts([e]) == Extension(e.kind, e.body)
  {
    assert EncodeExts([e]) == Extension(e.kind, e.body) + EncodeExts([e][1..]);
    assert [e][1..] == [];
    assert Extension(e.kind, e.body) + [] == Extension(e.kind, e.body);
  }

  // ---------------------------------------------------------------- the client's three encodings

  const PRE_SHARED_KEY: nat := 41
  const INNER: Octet := 1

  datatype Psk = Psk(identity: Data, age: Data)

  // What a hello is made of: the extensions between key_share and pre_shared_key are listed as such.
  datatype Params = Params(
    random: Data, sessionId: Data, suites: Data, keyShare: Data, extensions: seq<Ext>, psk: Option<Psk>)

  function PskBody(p: Psk, binder: Data): Data
  {
    Block2(Block2(p.identity) + p.age) + Block2(Block1(binder))
  }

  function PskExts(p: Params, binder: Data): seq<Ext>
  {
    if p.psk.Some? then [Ext(PRE_SHARED_KEY, PskBody(p.psk.value, binder))] else []
  }

  const INNER_MARK := Ext(ENCRYPTED_CLIENT_HELLO, [INNER])

  function InnerExts(p: Params, binder: Data): seq<Ext>
  {
    [INNER_MARK, Ext(KEY_SHARE, p.keyShare)] + (p.extensions + PskExts(p, binder))
  }

  function Body(random: Data, sessionId: Data, suites: Data, extensions: Data): Data
  {
    [3, 3] + random + Block1(sessionId) + Block2(suites) + Block1([0]) + Block2(extensions)
  }

  // encode_client_hello in mode INNER
  function InnerHello(p: Params, binder: Data): Data
  {
    Message(CLIENT_HELLO, Body(p.random, p.sessionId, p.suites, EncodeExts(InnerExts(p, binder))))
  }

  function EncodedItems(p: Params, binder: Data): seq<Item>
  {
    [Full(INNER_MARK), References([KEY_SHARE])] + Fulls(p.extensions + PskExts(p, binder))
  }

  function Fulls(es: seq<Ext>): (r: seq<Item>)
    ensures |r| == |es| && forall i | 0 <= i < |es| :: r[i] == Full(es[i])
  {
    seq(|es|, i requires 0 <= i < |es| => Full(es[i]))
  }

  // encode_client_hello in mode ENCODED_INNER: no session id, key_share by reference.
  function EncodedInner(p: Params, binder: Data): (r: Data)
    ensures |r| >= 4
  {
    Message(CLIENT_HELLO, Body(p.random, [], p.suites, EncodeItems(EncodedItems(p, binder))))
  }

  // The outer hello has its own random, names and PSK, and the same key_share.
  function OuterExts(p: Params, ech: Data, others: seq<Ext>): seq<Ext>
  {
    [Ext(ENCRYPTED_CLIENT_HELLO, ech), Ext(KEY_SHARE, p.keyShare)] + others
  }

  // pre_shared_key, the last extension
  function PskBytes(p: Params, binder: Data): Data
  {
    if p.psk.None? then []
    else [0, 41] + Block2(Block2(Block2(p.psk.value.identity) + p.psk.value.age) + Block2(Block1(binder)))
  }

  lemma Numbers()
    ensures Be16(0xfe0d) == [0xfe, 0x0d] && Be16(0xfd00) == [0xfd, 0] && Be16(51) == [0, 51] && Be16(41) == [0, 41]
    ensures Be16(1) == [0, 1] && Be16(3) == [0, 3]
  {}

  lemma PskEncoded(p: Params, binder: Data)
    ensures EncodeExts(PskExts(p, binder)) == PskBytes(p, binder)
  {
    if p.psk.Some? {
      Numbers();
      var e := Ext(PRE_SHARED_KEY, PskBody(p.psk.value, binder));
      assert [e][1..] == [];
      assert Extension(e.kind, e.body) + [] == Extension(e.kind, e.body);
    }
  }

  /** The bytes of both forms of the inner hello: the mark of the inner hello first, then the key share, or the
      reference to that of the outer hello, what else there is, and the PSK. */
  lemma HelloBytes(p: Params, binder: Data)
    ensures InnerHello(p, binder) == Message(1, Body(p.random, p.sessionId, p.suites,
      [0xfe, 0x0d, 0, 1, 1] + ([0, 51] + Block2(p.keyShare)) + (EncodeExts(p.extensions) + PskBytes(p, binder))))
    ensures EncodedInner(p, binder) == Message(1, Body(p.random, [], p.suites,
      [0xfe, 0x0d, 0, 1, 1] + [0xfd, 0, 0, 3, 2, 0, 51] + (EncodeExts(p.extensions) + PskBytes(p, binder))))
  {
    Numbers();
    EncodeAppend(p.extensions, PskExts(p, binder));
    PskEncoded(p, binder);
    EncodeFulls(p.extensions + PskExts(p, binder));
    var more := p.extensions + PskExts(p, binder);
    var share := Ext(KEY_SHARE, p.keyShare);
    assert Extension(ENCRYPTED_CLIENT_HELLO, [INNER]) == [0xfe, 0x0d, 0, 1, 1];
    assert Extension(KEY_SHARE, p.keyShare) == [0, 51] + Block2(p.keyShare);
    assert EncodeKinds([KEY_SHARE]) == [0, 51] by { assert [KEY_SHARE][1..] == [] && [0, 51] + [] == [0, 51]; }
    assert Extension(OUTER_EXTENSIONS, Block1([0, 51])) == [0xfd, 0, 0, 3, 2, 0, 51];
    hide Extension, Be16, Body, Message, Block2;
    FirstTwo(share, more);
    FirstItems(more);
  }

  lemma FirstTwo(share: Ext, more: seq<Ext>)
    ensures EncodeExts([INNER_MARK, share] + more)
      == Extension(ENCRYPTED_CLIENT_HELLO, [INNER]) + Extension(share.kind, share.body) + EncodeExts(more)
  {
    hide Extension;
    var es := [INNER_MARK, share] + more;
    assert es[1..] == [share] + more && es[1..][1..] == more;
  }

  lemma FirstItems(more: seq<Ext>)
    ensures EncodeItems([Full(INNER_MARK), References([KEY_SHARE])] + Fulls(more))
      == Extension(ENCRYPTED_CLIENT_HELLO, [INNER]) + Extension(OUTER_EXTENSIONS, Block1(EncodeKinds([KEY_SHARE])))
        + EncodeItems(Fulls(more))
  {
    hide Extension, EncodeKinds;
    var items := [Full(INNER_MARK), References([KEY_SHARE])] + Fulls(more);
    assert items[1..] == [References([KEY_SHARE])] + Fulls(more) && items[1..][1..] == Fulls(more);
  }

  // Overwriting the end of a message with the binder
  function FillBinder(m: Data, binder: Data): Data
    requires |binder| <= |m|
  {
    m[..|m| - |binder|] + binder
  }

  predicate Sized(p: Params, binder: Data)
  {
    && |p.random| == 32
    && |p.sessionId| < 256 && |p.suites| < 65536
    && (forall e | e in InnerExts(p, binder) :: Fits(e))
    && (forall e | e in p.extensions :: e.kind != OUTER_EXTENSIONS)
    && |EncodeExts(InnerExts(p, binder))| < 65536
    && |EncodeItems(EncodedItems(p, binder))| < 65536
  }

  // ---------------------------------------------------------------- the theorem

  lemma {:induction false} ExpandFulls(es: seq<Ext>, outer: seq<Ext>, from: nat)
    requires from <= |outer|
    ensures Expand(Fulls(es), outer, from) == Some(es)
    decreases |es|
  {
    if es != [] {
      assert Fulls(es)[1..] == Fulls(es[1..]);
      ExpandFulls(es[1..], outer, from);
      assert [es[0]] + es[1..] == es;
    }
  }

  // The references of the client resolve to its own key_share.
  lemma ExpandEncoded(p: Params, binder: Data, ech: Data, others: seq<Ext>)
    ensures Expand(EncodedItems(p, binder), OuterExts(p, ech, others), 0) == Some(InnerExts(p, binder))
  {
    var es := p.extensions + PskExts(p, binder);
    var outer := OuterExts(p, ech, others);
    var items := EncodedItems(p, binder);
    assert items[1..][1..] == Fulls(es);
    ExpandFulls(es, outer, 2);
    assert Find(KEY_SHARE, outer, 0) == 2;
    assert Resolve([KEY_SHARE][1..], outer, 2) == Some(([], 2));
    assert Resolve([KEY_SHARE], outer, 0) == Some(([outer[1]], 2)) by {
      assert [outer[1]] + [] == [outer[1]];
    }
    assert [INNER_MARK] + ([outer[1]] + es) == InnerExts(p, binder);
  }

  lemma ItemsFit(p: Params, binder: Data)
    requires Sized(p, binder)
    ensures forall i | i in EncodedItems(p, binder) :: ItemFits(i)
  {
    hide EncodeExts, EncodeItems;
    var es := p.extensions + PskExts(p, binder);
    var all := InnerExts(p, binder);
    forall i | i in EncodedItems(p, binder) ensures ItemFits(i) {
      var n :| 0 <= n < |EncodedItems(p, binder)| && EncodedItems(p, binder)[n] == i;
      if n >= 2 {
        assert i == Full(es[n - 2]) && es[n - 2] == all[n] && all[n] in all;
        assert es[n - 2] in p.extensions || es[n - 2].kind == PRE_SHARED_KEY;
      }
    }
  }

  lemma FieldsOf(p: Params, extensions: Data, padding: Data)
    requires |p.random| == 32 && |p.suites| < 65536
    ensures RebuildFields(Body(p.random, [], p.suites, extensions) + padding, p.sessionId)
         == Ok(Fields([3, 3] + p.random + Block1(p.sessionId) + Block2(p.suites) + Block1([0]),
           Block2(extensions) + padding))
  {
    hide Be16, Open1, Open2;
    var src := Body(p.random, [], p.suites, extensions) + padding;
    var last := Block2(extensions) + padding;
    var compression := Block1([0]) + last;
    var suites := Block2(p.suites) + compression;
    assert src[..34] == [3, 3] + p.random;
    assert src[34..] == Block1([]) + suites;
    Open1Of([], suites);
    Open2Of(p.suites, compression);
    Open1Of([0], last);
  }

  /** From the padded EncodedClientHelloInner and the outer hello the server gets back, byte for
      byte, the inner hello that the client hashed, binder included. */
  lemma RebuildInverts(p: Params, binder: Data, ech: Data, others: seq<Ext>, padding: nat)
    requires Sized(p, binder) && |ech| < 65536 && forall e | e in others :: Fits(e)
    ensures Rebuild(EncodedInner(p, binder)[4..] + Zeros(padding), p.sessionId, EncodeExts(OuterExts(p, ech, others)))
         == Ok(InnerHello(p, binder))
  {
    hide EncodeExts, EncodeItems, RebuildExtensions, RebuildFields, Open2, Be24, Expand;
    var items := EncodeItems(EncodedItems(p, binder));
    var outer := OuterExts(p, ech, others);
    var src := EncodedInner(p, binder)[4..] + Zeros(padding);
    assert EncodedInner(p, binder)[4..] == Body(p.random, [], p.suites, items);
    FieldsOf(p, items, Zeros(padding));
    Open2Of(items, Zeros(padding));
    ItemsFit(p, binder);
    OutersFit(p, binder, ech, others);
    RebuildRefines(EncodedItems(p, binder), outer, 0);
    assert outer[0..] == outer;
    ExpandEncoded(p, binder, ech, others);
  }

  lemma OutersFit(p: Params, binder: Data, ech: Data, others: seq<Ext>)
    requires Sized(p, binder) && |ech| < 65536 && forall e | e in others :: Fits(e)
    ensures forall e | e in OuterExts(p, ech, others) :: Fits(e)
  {
    hide EncodeExts, EncodeItems;
    assert InnerExts(p, binder)[1] in InnerExts(p, binder);
  }

  // ---------------------------------------------------------------- the binder

  // Everything but the binder, in front of it.
  function InnerHead(p: Params, size: nat): Data
    requires p.psk.Some?
  {
    var k := p.psk.value;
    EncodeExts([INNER_MARK, Ext(KEY_SHARE, p.keyShare)] + p.extensions) + PskHead(k, size)
  }

  function PskHead(k: Psk, size: nat): Data
  {
    var b := Block2(Block2(k.identity) + k.age) + (Be16(1 + size) + [Low(size)]);
    Be16(PRE_SHARED_KEY) + Be16(|b| + size) + b
  }

  lemma PskExtension(k: Psk, binder: Data)
    ensures Extension(PRE_SHARED_KEY, PskBody(k, binder)) == PskHead(k, |binder|) + binder
  {
    hide Be16;
    var b := Block2(Block2(k.identity) + k.age) + (Be16(1 + |binder|) + [Low(|binder|)]);
    assert PskBody(k, binder) == b + binder;
  }

  lemma InnerSplits(p: Params, binder: Data)
    requires p.psk.Some?
    ensures EncodeExts(InnerExts(p, binder)) == InnerHead(p, |binder|) + binder
  {
    var front := [INNER_MARK, Ext(KEY_SHARE, p.keyShare)] + p.extensions;
    var last := PskExts(p, binder);
    assert InnerExts(p, binder) == front + last;
    EncodeAppend(front, last);
    SingleExt(last[0]);
    PskExtension(p.psk.value, binder);
  }

  lemma BodyEnds(kind: Octet, random: Data, sessionId: Data, suites: Data, head: Data, r: Data, b: Data)
    requires |r| == |b|
    ensures |b| + 3 <= |Message(kind, Body(random, sessionId, suites, head + r))|
    ensures FillBinder(Message(kind, Body(random, sessionId, suites, head + r)), b)
         == Message(kind, Body(random, sessionId, suites, head + b))
  {
    hide Be16, Be24;
    var front := [3, 3] + random + Block1(sessionId) + Block2(suites) + Block1([0]) + Be16(|head| + |r|) + head;
    assert Body(random, sessionId, suites, head + r) == front + r;
    assert Body(random, sessionId, suites, head + b) == front + b;
    var whole := [kind] + Be24(|front| + |r|) + front;
    assert Message(kind, front + r) == whole + r;
    assert Message(kind, front + b) == whole + b;
  }

  /** The client encodes the inner hello with random bytes for the binder, computes the binder over
      what is before it, and fills it in: that gives the encoding with the binder. */
  lemma InnerBinder(p: Params, random: Data, binder: Data)
    requires p.psk.Some? && |random| == |binder|
    ensures |binder| + 3 <= |InnerHello(p, random)|
    ensures FillBinder(InnerHello(p, random), binder) == InnerHello(p, binder)
  {
    hide EncodeExts;
    InnerSplits(p, random);
    InnerSplits(p, binder);
    BodyEnds(CLIENT_HELLO, p.random, p.sessionId, p.suites, InnerHead(p, |binder|), random, binder);
  }

  lemma {:induction false} EncodeFulls(es: seq<Ext>)
    ensures EncodeItems(Fulls(es)) == EncodeExts(es)
    decreases |es|
  {
    if es != [] {
      assert Fulls(es)[1..] == Fulls(es[1..]);
      EncodeFulls(es[1..]);
    }
  }

  // The encoded list is two items followed by the extensions in full.
  lemma EncodedList(p: Params, binder: Data)
    ensures EncodeItems(EncodedItems(p, binder))
         == EncodeItem(Full(INNER_MARK)) + (EncodeItem(References([KEY_SHARE])) + EncodeExts(p.extensions + PskExts(p,
           binder)))
  {
    hide EncodeItem;
    var items := EncodedItems(p, binder);
    var es := p.extensions + PskExts(p, binder);
    assert items[1..][1..] == Fulls(es);
    assert items[0] == Full(INNER_MARK) && items[1..][0] == References([KEY_SHARE]);
    EncodeFulls(es);
  }

  lemma EncodedSplits(p: Params, binder: Data)
    requires p.psk.Some?
    ensures EncodeItems(EncodedItems(p, binder))
         == EncodeItem(Full(INNER_MARK))
            + (EncodeItem(References([KEY_SHARE])) + (EncodeExts(p.extensions) + PskHead(p.psk.value, |binder|)))
            + binder
  {
    hide EncodeItem, EncodeItems;
    EncodedList(p, binder);
    EncodeAppend(p.extensions, PskExts(p, binder));
    SingleExt(PskExts(p, binder)[0]);
    PskExtension(p.psk.value, binder);
  }

  lemma EncodedBinder(p: Params, random: Data, binder: Data)
    requires p.psk.Some? && |random| == |binder|
    ensures |binder| + 3 <= |EncodedInner(p, random)|
    ensures FillBinder(EncodedInner(p, random), binder) == EncodedInner(p, binder)
  {
    hide EncodeExts, EncodeItems, EncodeItem;
    EncodedSplits(p, random);
    EncodedSplits(p, binder);
    var head := EncodeItem(Full(INNER_MARK))
      + (EncodeItem(References([KEY_SHARE])) + (EncodeExts(p.extensions) + PskHead(p.psk.value, |binder|)));
    BodyEnds(CLIENT_HELLO, p.random, [], p.suites, head, random, binder);
  }

  // ---------------------------------------------------------------- the client's procedure

  // Length of the padding: the name is hidden up to the maximum, then rounded up to 32 bytes.
  function PaddingLength(encoded: nat, name: Option<nat>, maxName: nat): (r: nat)
    ensures (encoded + r) % 32 == 0
    ensures r >= (if name.Some? then (if name.value < maxName then maxName else name.value) else maxName + 9)
  {
    var hidden := if name.Some? then (if name.value < maxName then maxName else name.value) else maxName + 9;
    var total := (encoded + hidden + 31) / 32 * 32;
    total - encoded
  }

  // What send_client_hello leaves in the buffers: the hashed inner hello, the padded encoding.
  datatype Sent = Sent(inner: Data, padded: Data)

  // mac computes the binder from the bytes before it; r1 and r2 are the random placeholders.
  function SendInner(p: Params, mac: Data -> Data, size: nat, r1: Data, r2: Data, name: Option<nat>, maxName: nat): Sent
    requires |r1| == size && |r2| == size && forall m :: |mac(m)| == size
  {
    var plain := InnerHello(p, r1);
    assert p.psk.Some? ==> size + 3 <= |plain| by { if p.psk.Some? { InnerBinder(p, r1, r1); } }
    var inner := if p.psk.Some? then FillBinder(plain, mac(plain[..|plain| - (3 + size)])) else plain;
    var draft := EncodedInner(p, r2);
    assert p.psk.Some? ==> size <= |draft| by { if p.psk.Some? { EncodedBinder(p, r2, r2); } }
    var encoded := if p.psk.Some? then FillBinder(draft, inner[|inner| - size..]) else draft;
    Sent(inner, encoded + Zeros(PaddingLength(|encoded| - 4, name, maxName)))
  }

  /** The whole trip: what the client hashed as its inner hello is what the server rebuilds from the
      decrypted payload and the outer hello. */
  lemma EchRoundTrip(p: Params, mac: Data -> Data, size: nat, r1: Data, r2: Data, name: Option<nat>, maxName: nat,
      ech: Data, others: seq<Ext>)
    requires |r1| == size && |r2| == size && forall m :: |mac(m)| == size
    requires forall b: Data | |b| == size :: Sized(p, b)
    requires |ech| < 65536 && forall e | e in others :: Fits(e)
    ensures var s := SendInner(p, mac, size, r1, r2, name, maxName);
      Rebuild(s.padded[4..], p.sessionId, EncodeExts(OuterExts(p, ech, others))) == Ok(s.inner)
  {
    hide EncodeExts, EncodeItems, Rebuild, InnerHello, EncodedInner, Sized, SendInner, Zeros;
    var s := SendInner(p, mac, size, r1, r2, name, maxName);
    var b, pad := SentIs(p, mac, size, r1, r2, name, maxName);
    RebuildInverts(p, b, ech, others, pad);
    assert s.padded[4..] == EncodedInner(p, b)[4..] + Zeros(pad);
  }

  // Both encodings carry the same binder.
  lemma SentIs(p: Params, mac: Data -> Data, size: nat, r1: Data, r2: Data, name: Option<nat>, maxName: nat)
    returns (b: Data, pad: nat)
    requires |r1| == size && |r2| == size && forall m :: |mac(m)| == size
    ensures |b| == size && |EncodedInner(p, b)| >= 4
    ensures SendInner(p, mac, size, r1, r2, name, maxName) == Sent(InnerHello(p, b), EncodedInner(p, b) + Zeros(pad))
  {
    hide EncodeExts, EncodeItems, InnerHello, EncodedInner, PaddingLength;
    var plain := InnerHello(p, r1);
    if p.psk.Some? {
      InnerBinder(p, r1, r1);
      b := mac(plain[..|plain| - (3 + size)]);
      InnerBinder(p, r1, b);
      EncodedBinder(p, r2, b);
      assert InnerHello(p, b)[|InnerHello(p, b)| - size..] == b;
    } else {
      b := r1;
      NoBinder(p, r1, r2);
    }
    EncodedHeader(p, b);
    pad := PaddingLength(|EncodedInner(p, b)| - 4, name, maxName);
  }

  lemma EncodedHeader(p: Params, b: Data)
    ensures |EncodedInner(p, b)| >= 4
  {}

  lemma NoBinder(p: Params, a: Data, b: Data)
    requires p.psk.None?
    ensures InnerHello(p, a) == InnerHello(p, b) && EncodedInner(p, a) == EncodedInner(p, b)
  {}

  // ---------------------------------------------------------------- the server's procedure

  lemma ScanAt(kind: nat, outer: Data, at: nat)
    requires at <= |outer|
    ensures Scan(kind, outer[at..]) ==
      if |outer| - at < 4 then Err(IllegalParameter)
      else
        var size := Number16(outer[at + 2..]);
        if |outer| - at - 4 < size then Err(Assertion)
        else if Number16(outer[at..]) == kind then
          Ok(Scanned(outer[at + 4..at + 4 + size], outer[at + 4 + size..]))
        else Scan(kind, outer[at + 4 + size..])
  {
    hide Number16;
    var left := outer[at..];
    if |left| >= 4 {
      assert left[2..] == outer[at + 2..];
      var size := Number16(left[2..]);
      if |left| - 4 >= size {
        assert left[4..4 + size] == outer[at + 4..at + 4 + size];
        assert left[4 + size..] == outer[at + 4 + size..];
      }
    }
  }

  // The loop of rebuild_ch_inner_extensions that advances outer_ext to the extension referred to.
  method ScanOuter(kind: nat, outer: Data, start: nat) returns (r: Result<nat, Error>, size: nat)
    requires start <= |outer|
    ensures r.Ok? ==> r.value + size <= |outer|
    ensures Scan(kind, outer[start..])
         == if r.Ok? then Ok(Scanned(outer[r.value..r.value + size], outer[r.value + size..])) else Err(r.error)
  {
    hide Scan, Number16;
    var at := start;
    size := 0;
    while true
      invariant start <= at <= |outer|
      invariant Scan(kind, outer[start..]) == Scan(kind, outer[at..])
      decreases |outer| - at
    {
      ScanAt(kind, outer, at);
      if |outer| - at < 4 {
        return Err(IllegalParameter), 0;
      }
      var found := Number16(outer[at..]);
      size := Number16(outer[at + 2..]);
      at := at + 4;
      if |outer| - at < size {
        return Err(Assertion), 0;
      }
      if found == kind {
        return Ok(at), size;
      }
      at := at + size;
    }
  }

  function Then(bytes: Data, r: Result<Copied, Error>): Result<Copied, Error>
  {
    if r.Ok? then Ok(Copied(bytes + r.value.bytes, r.value.rest)) else r
  }

  lemma ThenNothing(r: Result<Copied, Error>)
    ensures Then([], r) == r
  {
    if r.Ok? { assert [] + r.value.bytes == r.value.bytes; }
  }

  lemma ThenTwice(a: Data, b: Data, r: Result<Copied, Error>)
    ensures Then(a, Then(b, r)) == Then(a + b, r)
  {
    if r.Ok? { assert a + (b + r.value.bytes) == a + b + r.value.bytes; }
  }

  // One round of the loop over references.
  lemma CopyAt(refs: Data, i: nat, rest: Data)
    requires i <= |refs|
    ensures CopyRefs(refs[i..], rest) ==
      if |refs| - i < 2 then Err(DecodeError)
      else
        var kind := Number16(refs[i..]);
        if kind == ENCRYPTED_CLIENT_HELLO then Err(IllegalParameter)
        else
          var s := Scan(kind, rest);
          if s.Err? then Err(s.error)
          else if |refs| == i + 2 then Ok(Copied(Extension(kind, s.value.body), s.value.rest))
          else Then(Extension(kind, s.value.body), CopyRefs(refs[i + 2..], s.value.rest))
  {
    hide Number16, Scan, Extension;
    if |refs| - i >= 2 {
      assert refs[i..][2..] == refs[i + 2..];
    }
  }

  // The do-while loop over the references of one ech_outer_extensions extension.
  method CopyReferences(refs: Data, outer: Data, start: nat) returns (r: Result<nat, Error>, bytes: Data)
    requires start <= |outer|
    ensures r.Ok? ==> r.value <= |outer|
    ensures CopyRefs(refs, outer[start..]) == if r.Ok? then Ok(Copied(bytes, outer[r.value..])) else Err(r.error)
  {
    hide CopyRefs, Scan, Number16, Extension;
    var at, i := start, 0;
    bytes := [];
    assert refs[0..] == refs;
    ThenNothing(CopyRefs(refs, outer[start..]));
    while true
      invariant start <= at <= |outer| && i <= |refs|
      invariant CopyRefs(refs, outer[start..]) == Then(bytes, CopyRefs(refs[i..], outer[at..]))
      decreases |refs| - i
    {
      CopyAt(refs, i, outer[at..]);
      if |refs| - i < 2 {
        return Err(DecodeError), [];
      }
      var kind := Number16(refs[i..]);
      i := i + 2;
      if kind == ENCRYPTED_CLIENT_HELLO {
        return Err(IllegalParameter), [];
      }
      var body, size := ScanOuter(kind, outer, at);
      if body.Err? {
        return Err(body.error), [];
      }
      var here := Extension(kind, outer[body.value..body.value + size]);
      at := body.value + size;
      ThenTwice(bytes, here, CopyRefs(refs[i..], outer[at..]));
      bytes := bytes + here;
      if i == |refs| {
        return Ok(at), bytes;
      }
    }
  }

  function ThenBytes(bytes: Data, r: Result<Data, Error>): Result<Data, Error>
  {
    if r.Ok? then Ok(bytes + r.value) else r
  }

  lemma ThenBytesTwice(a: Data, b: Data, r: Result<Data, Error>)
    ensures ThenBytes(a, ThenBytes(b, r)) == ThenBytes(a + b, r)
  {
    if r.Ok? { assert a + (b + r.value) == a + b + r.value; }
  }

  // One round of the loop over extensions, as a method: decode, copy or resolve.
  method TakeNext(src: Data, i: nat, outer: Data, at: nat) returns (r: Result<nat, Error>, bytes: Data, next: nat)
    requires i < |src| && at <= |outer|
    ensures r.Ok? ==> i < r.value <= |src| && next <= |outer|
    ensures TakeOne(src[i..], outer[at..]) == if r.Ok? then Ok(Taken(bytes, src[r.value..], outer[next..]))
      else Err(r.error)
  {
    hide CopyRefs, Number16, Extension, Open1, Open2;
    if |src| - i < 2 {
      return Err(DecodeError), [], 0;
    }
    var kind := Number16(src[i..]);
    assert src[i..][2..] == src[i + 2..];
    var open := Open2(src[i + 2..]);
    if open.None? {
      return Err(DecodeError), [], 0;
    }
    var body := open.value.0;
    var end := |src| - |open.value.1|;
    assert src[i + 2..] == Block2(body) + open.value.1;
    assert src[end..] == open.value.1;
    if kind == OUTER_EXTENSIONS {
      var refs := Open1(body);
      if refs.None? {
        return Err(DecodeError), [], 0;
      }
      var after, copied := CopyReferences(refs.value.0, outer, at);
      if after.Err? {
        return Err(after.error), [], 0;
      }
      if refs.value.1 != [] {
        return Err(DecodeError), [], 0;
      }
      return Ok(end), copied, after.value;
    }
    return Ok(end), Extension(kind, body), at;
  }

  // rebuild_ch_inner_extensions, on the content of the extension block.
  method RebuildList(src: Data, outer: Data) returns (r: Result<Data, Error>)
    ensures r == RebuildExtensions(src, outer)
  {
    hide TakeOne;
    var i: nat, at: nat := 0, 0;
    var bytes: Data := [];
    assert src[0..] == src && outer[0..] == outer;
    ThenBytesTwice([], [], RebuildExtensions(src, outer));
    assert RebuildExtensions(src, outer).Ok? ==>
      [] + RebuildExtensions(src, outer).value == RebuildExtensions(src, outer).value;
    while i != |src|
      invariant i <= |src| && at <= |outer|
      invariant RebuildExtensions(src, outer) == ThenBytes(bytes, RebuildExtensions(src[i..], outer[at..]))
      decreases |src| - i
    {
      var n, piece, next := TakeNext(src, i, outer, at);
      if n.Err? {
        return Err(n.error);
      }
      ThenBytesTwice(bytes, piece, RebuildExtensions(src[n.value..], outer[next..]));
      i, at, bytes := n.value, next, bytes + piece;
    }
    assert bytes + [] == bytes;
    return Ok(bytes);
  }

  // The loop over the padding
  method CheckPadding(padding: Data) returns (ok: bool)
    ensures ok == AllZero(padding)
  {
    var i := 0;
    while i != |padding|
      invariant i <= |padding| && forall j | 0 <= j < i :: padding[j] == 0
    {
      if padding[i] != 0 {
        return false;
      }
      i := i + 1;
    }
    return true;
  }

  // rebuild_ch_inner
  method RebuildInner(src: Data, sessionId: Data, outer: Data) returns (r: Result<Data, Error>)
    ensures r == Rebuild(src, sessionId, outer)
  {
    hide RebuildFields, RebuildExtensions, AllZero, Open2, Message, Block2;
    var f := RebuildFields(src, sessionId);
    if f.Err? {
      return Err(f.error);
    }
    var open := Open2(f.value.rest);
    if open.None? {
      return Err(DecodeError);
    }
    var e := RebuildList(open.value.0, outer);
    if e.Err? {
      return Err(e.error);
    }
    if |e.value| >= 65536 {
      return Err(BlockOverflow);
    }
    var zero := CheckPadding(open.value.1);
    if !zero {
      return Err(IllegalParameter);
    }
    return Ok(Message(CLIENT_HELLO, f.value.bytes + Block2(e.value)));
  }
}
