/** Payload codecs: chains, their flattening, and zlib. */
module Codecs {
  import opened Basics

  type Bytes = seq<int>

  datatype Payload = Payload(encoding: string, data: Bytes)

  type Payloads = seq<Payload>

  /** A codec; `None` is an error. */
  datatype Codec = Codec(encode: Payloads -> Option<Payloads>, decode: Payloads -> Option<Payloads>) {
    ghost predicate Invertible() {
      forall ps | encode(ps).Some? :: decode(encode(ps).value) == Some(ps)
    }
  }

  // ---------------------------------------------------------------- chains

  /** The earlier codecs wrap the later ones. */
  function EncodeAll(codecs: seq<Codec>, ps: Payloads): Option<Payloads> {
    if codecs == [] then Some(ps)
    else match EncodeAll(codecs[1..], ps)
         case Some(q) => codecs[0].encode(q)
         case None => None
  }

  function DecodeAll(codecs: seq<Codec>, ps: Payloads): Option<Payloads>
    decreases |codecs|
  {
    if codecs == [] then Some(ps)
    else match codecs[0].decode(ps)
         case Some(q) => DecodeAll(codecs[1..], q)
         case None => None
  }

  /** `encodePayloads`. */
  method EncodePayloads(payloads: Payloads, codecs: seq<Codec>) returns (r: Option<Payloads>)
    ensures r == EncodeAll(codecs, payloads)
  {
    var current := payloads;
    var i := |codecs|;
    while i > 0
      invariant 0 <= i <= |codecs| && EncodeAll(codecs[i..], payloads) == Some(current)
    {
      i := i - 1;
      var next := codecs[i].encode(current);
      assert codecs[i..][1..] == codecs[i + 1..];
      if next.None? {
        FailureStays(codecs, i, payloads);
        return None;
      }
      current := next.value;
    }
    assert codecs[0..] == codecs;
    return Some(current);
  }

  lemma {:induction false} FailureStays(codecs: seq<Codec>, i: nat, ps: Payloads)
    requires i <= |codecs| && EncodeAll(codecs[i..], ps).None?
    ensures EncodeAll(codecs, ps).None?
  {
    if i == 0 {
      assert codecs[0..] == codecs;
    } else {
      assert codecs[1..][i - 1..] == codecs[i..];
      FailureStays(codecs[1..], i - 1, ps);
    }
  }

  /** `decodePayloads`. */
  method DecodePayloads(payloads: Payloads, codecs: seq<Codec>) returns (r: Option<Payloads>)
    ensures r == DecodeAll(codecs, payloads)
  {
    var current := payloads;
    for i := 0 to |codecs|
      invariant DecodeAll(codecs[i..], current) == DecodeAll(codecs, payloads)
    {
      assert codecs[i..][1..] == codecs[i + 1..];
      var next := codecs[i].decode(current);
      if next.None? {
        return None;
      }
      current := next.value;
    }
    return Some(current);
  }

  lemma {:induction false} EncodeConcat(a: seq<Codec>, b: seq<Codec>, ps: Payloads)
    ensures EncodeAll(a + b, ps)
         == match EncodeAll(b, ps) case Some(q) => EncodeAll(a, q) case None => None
  {
    if a == [] {
      assert a + b == b;
    } else {
      assert (a + b)[1..] == a[1..] + b;
      EncodeConcat(a[1..], b, ps);
    }
  }

  lemma {:induction false} DecodeConcat(a: seq<Codec>, b: seq<Codec>, ps: Payloads)
    ensures DecodeAll(a + b, ps)
         == match DecodeAll(a, ps) case Some(q) => DecodeAll(b, q) case None => None
    decreases |a|
  {
    if a == [] {
      assert a + b == b;
    } else {
      assert (a + b)[1..] == a[1..] + b;
      var q := a[0].decode(ps);
      if q.Some? {
        DecodeConcat(a[1..], b, q.value);
      }
    }
  }

  /** Decoding a chain of invertible codecs undoes encoding. */
  lemma {:induction false} ChainInverts(codecs: seq<Codec>, ps: Payloads)
    requires forall i | 0 <= i < |codecs| :: codecs[i].Invertible()
    requires EncodeAll(codecs, ps).Some?
    ensures DecodeAll(codecs, EncodeAll(codecs, ps).value) == Some(ps)
  {
    if codecs != [] {
      assert codecs[0].Invertible();
      ChainInverts(codecs[1..], ps);
    }
  }

  // ---------------------------------------------------------------- nested converters

  /** A data converter: wrapping another with codecs, another one that exposes a codec, or plain. */
  datatype Converter =
    | CodecConverter(codecs: seq<Codec>, parent: Converter)
    | Provider(codec: Option<Codec>)
    | PlainConverter

  /** The codec stage as the converters apply it, each on the result of its parent. */
  function NestedEncode(c: Converter, ps: Payloads): Option<Payloads> {
    match c
    case CodecConverter(codecs, parent) =>
      (match NestedEncode(parent, ps) case Some(q) => EncodeAll(codecs, q) case None => None)
    case Provider(Some(codec)) => codec.encode(ps)
    case _ => Some(ps)
  }

  function NestedDecode(c: Converter, ps: Payloads): Option<Payloads> {
    match c
    case CodecConverter(codecs, parent) =>
      (match DecodeAll(codecs, ps) case Some(q) => NestedDecode(parent, q) case None => None)
    case Provider(Some(codec)) => codec.decode(ps)
    case _ => Some(ps)
  }

  function Flatten(c: Converter): seq<Codec> {
    match c
    case CodecConverter(codecs, parent) => codecs + Flatten(parent)
    case Provider(Some(codec)) => [codec]
    case _ => []
  }

  /** `CodecDataConverter.Codec`: one chain for all stages, or nothing. */
  method FlatCodec(c: Converter) returns (chain: Option<seq<Codec>>)
    requires c.CodecConverter?
    ensures chain == if Flatten(c) == [] then None else Some(Flatten(c))
  {
    var codecs := [];
    var e := c;
    while e.CodecConverter?
      invariant codecs + Flatten(e) == Flatten(c)
      decreases e
    {
      codecs := codecs + e.codecs;
      e := e.parent;
    }
    if e.Provider? && e.codec.Some? {
      codecs := codecs + [e.codec.value];
    }
    assert codecs == Flatten(c);
    if |codecs| == 0 {
      return None;
    }
    return Some(codecs);
  }

  /** At any nesting depth the flattened chain encodes and decodes as the nested converters do. */
  lemma {:induction false} FlatteningAgrees(c: Converter, ps: Payloads)
    ensures EncodeAll(Flatten(c), ps) == NestedEncode(c, ps)
    ensures DecodeAll(Flatten(c), ps) == NestedDecode(c, ps)
    decreases c
  {
    match c {
      case CodecConverter(codecs, parent) =>
        EncodeConcat(codecs, Flatten(parent), ps);
        DecodeConcat(codecs, Flatten(parent), ps);
        FlatteningAgrees(parent, ps);
        if DecodeAll(codecs, ps).Some? {
          FlatteningAgrees(parent, DecodeAll(codecs, ps).value);
        }
      case Provider(Some(codec)) =>
        assert [codec][1..] == [];
      case _ =>
    }
  }

  // ---------------------------------------------------------------- payload by payload

  /** Applies `f` at every position; one error fails the whole list. */
  function MapEach(f: Payload -> Option<Payload>, ps: Payloads): Option<Payloads>
    decreases |ps|
  {
    if ps == [] then Some([])
    else
      match f(ps[0])
      case None => None
      case Some(p) =>
        match MapEach(f, ps[1..])
        case None => None
        case Some(rest) => Some([p] + rest)
  }

  lemma {:induction false} MapEachAt(f: Payload -> Option<Payload>, ps: Payloads)
    ensures MapEach(f, ps).Some? <==> forall i | 0 <= i < |ps| :: f(ps[i]).Some?
    ensures MapEach(f, ps).Some? ==>
              |MapEach(f, ps).value| == |ps| && forall i | 0 <= i < |ps| :: f(ps[i]) == Some(MapEach(f, ps).value[i])
    decreases |ps|
  {
    if ps != [] {
      MapEachAt(f, ps[1..]);
      assert forall i | 0 < i < |ps| :: ps[i] == ps[1..][i - 1];
      assert forall i | 0 <= i < |ps| - 1 :: ps[1..][i] == ps[i + 1];
    }
  }

  // ---------------------------------------------------------------- zlib

  const ZLIB := "binary/zlib"

  /** Marshalling plus compression, its inverse, and the marshalled size. */
  datatype Compression = Compression(pack: Payload -> Bytes, unpack: Bytes -> Option<Payload>, size: Payload -> nat) {
    ghost predicate Lawful() {
      forall p :: unpack(pack(p)) == Some(p)
    }

    predicate Compresses(always: bool, p: Payload) {
      |pack(p)| < size(p) || always
    }

    function Squeeze(always: bool, p: Payload): Payload {
      if Compresses(always, p) then Payload(ZLIB, pack(p)) else p
    }

    function Expand(p: Payload): Option<Payload> {
      if p.encoding != ZLIB then Some(p) else unpack(p.data)
    }

    /** `zlibCodec` with its option. */
    function ZlibCodec(always: bool): Codec {
      Codec(ps => Some(seq(|ps|, i requires 0 <= i < |ps| => Squeeze(always, ps[i]))), ps => MapEach(Expand, ps))
    }
  }

  /** `zlibCodec.Encode`, payload by payload: a payload stays as it is exactly when packing it does not make
      it smaller and the option does not ask for it. */
  method ZlibEncode(z: Compression, always: bool, payloads: Payloads) returns (r: Payloads)
    ensures z.ZlibCodec(always).encode(payloads) == Some(r) && |r| == |payloads|
    ensures forall i | 0 <= i < |payloads| ::
              r[i] == if !always && |z.pack(payloads[i])| >= z.size(payloads[i]) then payloads[i]
                      else Payload("binary/zlib", z.pack(payloads[i]))
  {
    r := [];
    for i := 0 to |payloads|
      invariant |r| == i && forall k | 0 <= k < i :: r[k] == z.Squeeze(always, payloads[k])
    {
      var p := payloads[i];
      var packed := z.pack(p);
      if |packed| < z.size(p) || always {
        r := r + [Payload(ZLIB, packed)];
      } else {
        r := r + [p];
      }
    }
    assert z.ZlibCodec(always).encode(payloads).value == r;
  }

  /** `zlibCodec.Decode`, payload by payload. */
  method ZlibDecode(z: Compression, payloads: Payloads) returns (r: Option<Payloads>)
    ensures r == MapEach(z.Expand, payloads)
  {
    var result := [];
    MapEachAt(z.Expand, payloads);
    for i := 0 to |payloads|
      invariant |result| == i && forall k | 0 <= k < i :: z.Expand(payloads[k]) == Some(result[k])
    {
      var p := z.Expand(payloads[i]);
      if p.None? {
        return None;
      }
      result := result + [p.value];
    }
    assert result == MapEach(z.Expand, payloads).value;
    return Some(result);
  }

  /** Several zlib codecs in a chain, each with its own option. */
  function Stack(z: Compression, options: seq<bool>): seq<Codec> {
    if options == [] then [] else [z.ZlibCodec(options[0])] + Stack(z, options[1..])
  }

  /** How many of the layers compress the payload; the last layer goes first. */
  function Layers(z: Compression, options: seq<bool>, p: Payload): nat {
    if options == [] then 0
    else
      var inner := Layers(z, options[1..], p);
      if z.Compresses(options[0], Packed(z, inner, p)) then inner + 1 else inner
  }

  function Packed(z: Compression, n: nat, p: Payload): Payload {
    if n == 0 then p else Payload(ZLIB, z.pack(Packed(z, n - 1, p)))
  }

  function PackedEach(z: Compression, options: seq<bool>, ps: Payloads): Payloads {
    seq(|ps|, i requires 0 <= i < |ps| => Packed(z, Layers(z, options, ps[i]), ps[i]))
  }

  function ExpandTimes(z: Compression, n: nat, p: Payload): Option<Payload> {
    if n == 0 then Some(p)
    else match z.Expand(p)
         case Some(q) => ExpandTimes(z, n - 1, q)
         case None => None
  }

  lemma {:induction false} LayersBound(z: Compression, options: seq<bool>, p: Payload)
    ensures Layers(z, options, p) <= |options|
  {
    if options != [] {
      LayersBound(z, options[1..], p);
    }
  }

  lemma {:induction false} EncodeStack(z: Compression, options: seq<bool>, ps: Payloads)
    ensures EncodeAll(Stack(z, options), ps) == Some(PackedEach(z, options, ps))
  {
    if options == [] {
      assert PackedEach(z, options, ps) == ps;
    } else {
      assert Stack(z, options)[1..] == Stack(z, options[1..]);
      EncodeStack(z, options[1..], ps);
      var inner := PackedEach(z, options[1..], ps);
      assert EncodeAll(Stack(z, options), ps) == z.ZlibCodec(options[0]).encode(inner);
      assert z.ZlibCodec(options[0]).encode(inner).value == PackedEach(z, options, ps);
    }
  }

  /** Decoding a stack expands each payload once per layer. */
  lemma {:induction false} DecodeStack(z: Compression, options: seq<bool>, ps: Payloads, qs: Payloads)
    ensures DecodeAll(Stack(z, options), ps) == Some(qs) <==>
              |qs| == |ps| && forall i | 0 <= i < |ps| :: ExpandTimes(z, |options|, ps[i]) == Some(qs[i])
    decreases |options|
  {
    if options == [] {
      assert DecodeAll(Stack(z, options), ps) == Some(ps);
      assert (|qs| == |ps| && forall i | 0 <= i < |ps| :: ps[i] == qs[i]) <==> ps == qs;
    } else {
      assert Stack(z, options)[1..] == Stack(z, options[1..]);
      MapEachAt(z.Expand, ps);
      var inner := MapEach(z.Expand, ps);
      assert DecodeAll(Stack(z, options), ps)
          == match inner case Some(q) => DecodeAll(Stack(z, options[1..]), q) case None => None;
      if inner.Some? {
        DecodeStack(z, options[1..], inner.value, qs);
        assert forall i | 0 <= i < |ps| ::
            ExpandTimes(z, |options|, ps[i]) == ExpandTimes(z, |options| - 1, inner.value[i]);
      } else {
        var i :| 0 <= i < |ps| && z.Expand(ps[i]).None?;
        assert ExpandTimes(z, |options|, ps[i]).None?;
      }
    }
  }

  lemma {:induction false} ExpandUndoesPack(z: Compression, n: nat, m: nat, p: Payload)
    requires z.Lawful() && m <= n
    ensures ExpandTimes(z, n, Packed(z, m, p)) == ExpandTimes(z, n - m, p)
    decreases m
  {
    if m != 0 {
      assert z.Expand(Packed(z, m, p)) == Some(Packed(z, m - 1, p));
      ExpandUndoesPack(z, n - 1, m - 1, p);
    }
  }

  lemma {:induction false} UntaggedStays(z: Compression, n: nat, p: Payload)
    requires p.encoding != ZLIB
    ensures ExpandTimes(z, n, p) == Some(p)
  {
    if n != 0 {
      UntaggedStays(z, n - 1, p);
    }
  }

  /** Expanding the payload once for every layer that skips it leaves it as it is. */
  predicate ComesBack(z: Compression, options: seq<bool>, p: Payload) {
    Layers(z, options, p) <= |options| && ExpandTimes(z, |options| - Layers(z, options, p), p) == Some(p)
  }

  lemma ComesBackIff(z: Compression, options: seq<bool>, p: Payload)
    requires z.Lawful()
    ensures ComesBack(z, options, p)
       <==> ExpandTimes(z, |options|, Packed(z, Layers(z, options, p), p)) == Some(p)
    ensures p.encoding != ZLIB ==> ComesBack(z, options, p)
  {
    LayersBound(z, options, p);
    ExpandUndoesPack(z, |options|, Layers(z, options, p), p);
    if p.encoding != ZLIB {
      UntaggedStays(z, |options| - Layers(z, options, p), p);
    }
  }

  ghost predicate AllComeBack(z: Compression, options: seq<bool>, ps: Payloads) {
    forall i | 0 <= i < |ps| :: ComesBack(z, options, ps[i])
  }

  /** Stacked zlib codecs give a list of payloads back exactly when expanding each payload once for
      every layer that skipped it leaves it as it is. */
  lemma StackRoundTripIff(z: Compression, options: seq<bool>, ps: Payloads)
    requires z.Lawful()
    ensures EncodeAll(Stack(z, options), ps).Some?
    ensures DecodeAll(Stack(z, options), EncodeAll(Stack(z, options), ps).value) == Some(ps)
       <==> AllComeBack(z, options, ps)
  {
    EncodeStack(z, options, ps);
    var qs := PackedEach(z, options, ps);
    DecodeStack(z, options, qs, ps);
    forall i | 0 <= i < |ps|
      ensures ComesBack(z, options, ps[i]) <==> ExpandTimes(z, |options|, qs[i]) == Some(ps[i])
    {
      ComesBackIff(z, options, ps[i]);
    }
  }

  /** Payloads that are not tagged as zlib come back through any stack, whichever layers skip them. */
  lemma UntaggedRoundTrip(z: Compression, options: seq<bool>, ps: Payloads)
    requires z.Lawful() && forall i | 0 <= i < |ps| :: ps[i].encoding != ZLIB
    ensures EncodeAll(Stack(z, options), ps).Some?
    ensures DecodeAll(Stack(z, options), EncodeAll(Stack(z, options), ps).value) == Some(ps)
  {
    StackRoundTripIff(z, options, ps);
    forall i | 0 <= i < |ps| ensures ComesBack(z, options, ps[i]) {
      ComesBackIff(z, options, ps[i]);
    }
  }

  lemma {:induction false} AllLayers(z: Compression, options: seq<bool>, p: Payload)
    requires forall i | 0 <= i < |options| :: options[i]
    ensures Layers(z, options, p) == |options|
  {
    if options != [] {
      AllLayers(z, options[1..], p);
    }
  }

  /** With AlwaysEncode in every layer any payload comes back, tagged or not. */
  lemma AlwaysEncodeRoundTrip(z: Compression, options: seq<bool>, ps: Payloads)
    requires z.Lawful() && forall i | 0 <= i < |options| :: options[i]
    ensures EncodeAll(Stack(z, options), ps).Some?
    ensures DecodeAll(Stack(z, options), EncodeAll(Stack(z, options), ps).value) == Some(ps)
  {
    StackRoundTripIff(z, options, ps);
    forall i | 0 <= i < |ps| ensures ComesBack(z, options, ps[i]) {
      AllLayers(z, options, ps[i]);
    }
  }

  /** No tagged payload turns up again among its own expansions. */
  ghost predicate NeverCircular(z: Compression) {
    forall n: nat, p: Payload | n > 0 && p.encoding == ZLIB :: ExpandTimes(z, n, p) != Some(p)
  }

  /** Then a payload comes back exactly when it is untagged or every layer compresses it. */
  lemma ComesBackExactly(z: Compression, options: seq<bool>, p: Payload)
    requires z.Lawful() && NeverCircular(z)
    ensures ComesBack(z, options, p) <==> p.encoding != ZLIB || Layers(z, options, p) == |options|
  {
    LayersBound(z, options, p);
    ComesBackIff(z, options, p);
    if p.encoding == ZLIB && Layers(z, options, p) < |options| {
      assert ExpandTimes(z, |options| - Layers(z, options, p), p) != Some(p);
    }
  }

  /** Stacked zlib codecs give a list back exactly when every payload is untagged or compressed by every
      layer. */
  lemma StackRoundTripExactly(z: Compression, options: seq<bool>, ps: Payloads)
    requires z.Lawful() && NeverCircular(z)
    ensures EncodeAll(Stack(z, options), ps).Some?
    ensures DecodeAll(Stack(z, options), EncodeAll(Stack(z, options), ps).value) == Some(ps)
       <==> forall i | 0 <= i < |ps| :: ps[i].encoding != ZLIB || Layers(z, options, ps[i]) == |options|
  {
    StackRoundTripIff(z, options, ps);
    forall i | 0 <= i < |ps|
      ensures ComesBack(z, options, ps[i]) <==> ps[i].encoding != ZLIB || Layers(z, options, ps[i]) == |options|
    {
      ComesBackExactly(z, options, ps[i]);
    }
  }

  /** A payload already tagged as zlib that a layer skips comes back expanded. */
  lemma TaggedIsExpanded(z: Compression, q: Payload)
    requires z.Lawful() && q.encoding != ZLIB && !z.Compresses(false, Payload(ZLIB, z.pack(q)))
    ensures var codecs := Stack(z, [false]);
            EncodeAll(codecs, [Payload(ZLIB, z.pack(q))]) == Some([Payload(ZLIB, z.pack(q))])
            && DecodeAll(codecs, [Payload(ZLIB, z.pack(q))]) == Some([q])
  {
    var p := Payload(ZLIB, z.pack(q));
    EncodeStack(z, [false], [p]);
    assert [false][1..] == [] && Layers(z, [false], p) == 0;
    assert PackedEach(z, [false], [p]) == [p];
    DecodeStack(z, [false], [p], [q]);
    assert ExpandTimes(z, 1, p) == ExpandTimes(z, 0, q);
  }
}
