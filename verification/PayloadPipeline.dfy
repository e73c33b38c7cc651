/** The remote codec handler: pre-storage codecs, external storage, post-storage codecs. */
module PayloadPipeline {
  import opened Basics
  import opened Codecs

  /** `Crashed` is an index out of range, when a codec returns too few payloads. */
  datatype Outcome = Done(payloads: Payloads) | Failed | Crashed

  type IsRef = Payload -> bool

  function NonRefs(isRef: IsRef, ps: Payloads): Payloads
    decreases |ps|
  {
    if ps == [] then []
    else if isRef(ps[0]) then NonRefs(isRef, ps[1..])
    else [ps[0]] + NonRefs(isRef, ps[1..])
  }

  /** Puts decoded payloads back where the payloads that are not references were. */
  function Scatter(isRef: IsRef, ps: Payloads, decoded: Payloads): Option<Payloads>
    decreases |ps|
  {
    if ps == [] then Some([])
    else if !isRef(ps[0]) && decoded == [] then None
    else
      var rest := if isRef(ps[0]) then decoded else decoded[1..];
      match Scatter(isRef, ps[1..], rest)
      case None => None
      case Some(r) => Some([if isRef(ps[0]) then ps[0] else decoded[0]] + r)
  }

  /** What `decodeNonReferences` does for any codecs. */
  function DecodeAround(isRef: IsRef, ps: Payloads, codecs: seq<Codec>): Outcome {
    match DecodeAll(codecs, NonRefs(isRef, ps))
    case None => Failed
    case Some(decoded) =>
      match Scatter(isRef, ps, decoded)
      case None => Crashed
      case Some(r) => Done(r)
  }

  /** The number of payloads before position `i` that are not references. */
  function Rank(isRef: IsRef, ps: Payloads, i: nat): nat
    requires i <= |ps|
  {
    |NonRefs(isRef, ps[..i])|
  }

  lemma {:induction false} NonRefsSnoc(isRef: IsRef, ps: Payloads, p: Payload)
    ensures NonRefs(isRef, ps + [p]) == NonRefs(isRef, ps) + if isRef(p) then [] else [p]
    decreases |ps|
  {
    if ps == [] {
      assert [p][1..] == [];
    } else {
      assert (ps + [p])[1..] == ps[1..] + [p];
      NonRefsSnoc(isRef, ps[1..], p);
    }
  }

  lemma {:induction false} ScatterAt(isRef: IsRef, ps: Payloads, decoded: Payloads)
    ensures Scatter(isRef, ps, decoded).Some? <==> |NonRefs(isRef, ps)| <= |decoded|
    ensures Scatter(isRef, ps, decoded).Some? ==>
              && |Scatter(isRef, ps, decoded).value| == |ps|
              && forall i | 0 <= i < |ps| ::
                   if isRef(ps[i]) then Scatter(isRef, ps, decoded).value[i] == ps[i]
                   else
                     && Rank(isRef, ps, i) < |decoded|
                     && Scatter(isRef, ps, decoded).value[i] == decoded[Rank(isRef, ps, i)]
    decreases |ps|
  {
    if ps != [] && (isRef(ps[0]) || decoded != []) {
      var rest := if isRef(ps[0]) then decoded else decoded[1..];
      ScatterAt(isRef, ps[1..], rest);
      forall i | 0 < i < |ps|
        ensures ps[i] == ps[1..][i - 1]
        ensures Rank(isRef, ps, i) == Rank(isRef, ps[1..], i - 1) + if isRef(ps[0]) then 0 else 1
      {
        assert ps[..i][1..] == ps[1..][..i - 1];
      }
    }
  }

  /** `indexes` lists the positions before `n` that hold no reference, in order. */
  ghost predicate Positions(isRef: IsRef, ps: Payloads, n: nat, indexes: seq<nat>)
    requires n <= |ps|
  {
    && (forall j | 0 <= j < |indexes| ::
          indexes[j] < n && !isRef(ps[indexes[j]]) && Rank(isRef, ps, indexes[j]) == j)
    && (forall k | 0 <= k < n && !isRef(ps[k]) ::
          Rank(isRef, ps, k) < |indexes| && indexes[Rank(isRef, ps, k)] == k)
  }

  /** The first loop: references go to the result, the others and their positions are collected. */
  method Separate(isRef: IsRef, payloads: Payloads, result: array<Payload>)
    returns (indexes: seq<nat>, others: Payloads)
    requires result.Length == |payloads|
    modifies result
    ensures others == NonRefs(isRef, payloads) && |indexes| == |others|
    ensures Positions(isRef, payloads, |payloads|, indexes)
    ensures forall k | 0 <= k < |payloads| && isRef(payloads[k]) :: result[k] == payloads[k]
  {
    indexes, others := [], [];
    for i := 0 to |payloads|
      invariant others == NonRefs(isRef, payloads[..i]) && |indexes| == |others|
      invariant Positions(isRef, payloads, i, indexes)
      invariant forall k | 0 <= k < i && isRef(payloads[k]) :: result[k] == payloads[k]
    {
      assert payloads[..i + 1] == payloads[..i] + [payloads[i]];
      NonRefsSnoc(isRef, payloads[..i], payloads[i]);
      if isRef(payloads[i]) {
        result[i] := payloads[i];
      } else {
        indexes := indexes + [i];
        others := others + [payloads[i]];
      }
    }
    assert payloads[..|payloads|] == payloads;
  }

  /** `decodeNonReferences`: collects the other payloads and their positions, decodes them together
      and writes the results back. */
  method DecodeNonReferences(isRef: IsRef, payloads: Payloads, codecs: seq<Codec>) returns (r: Outcome)
    ensures r == DecodeAround(isRef, payloads, codecs)
  {
    var result := new Payload[|payloads|](_ => Payload("", []));
    var indexes, others := Separate(isRef, payloads, result);
    var decoded := DecodePayloads(others, codecs);
    if decoded.None? {
      return Failed;
    }
    ScatterAt(isRef, payloads, decoded.value);
    for j := 0 to |indexes|
      invariant j <= |decoded.value|
      invariant forall k | 0 <= k < |payloads| && isRef(payloads[k]) :: result[k] == payloads[k]
      invariant forall m | 0 <= m < j :: result[indexes[m]] == decoded.value[m]
    {
      if j == |decoded.value| {
        return Crashed;
      }
      result[indexes[j]] := decoded.value[j];
    }
    assert result[..] == Scatter(isRef, payloads, decoded.value).value;
    return Done(result[..]);
  }

  // ---------------------------------------------------------------- refinement

  /** The chain decodes position by position. */
  ghost predicate Elementwise(codecs: seq<Codec>, f: Payload -> Option<Payload>) {
    forall ps :: DecodeAll(codecs, ps) == MapEach(f, ps)
  }

  function KeepRefs(isRef: IsRef, f: Payload -> Option<Payload>): Payload -> Option<Payload> {
    p => if isRef(p) then Some(p) else f(p)
  }

  lemma {:induction false} ScatterMap(isRef: IsRef, f: Payload -> Option<Payload>, ps: Payloads)
    ensures match MapEach(f, NonRefs(isRef, ps))
            case None => MapEach(KeepRefs(isRef, f), ps).None?
            case Some(decoded) =>
              Scatter(isRef, ps, decoded).Some? && Scatter(isRef, ps, decoded) == MapEach(KeepRefs(isRef, f), ps)
    decreases |ps|
  {
    if ps != [] {
      ScatterMap(isRef, f, ps[1..]);
      if !isRef(ps[0]) {
        assert NonRefs(isRef, ps)[1..] == NonRefs(isRef, ps[1..]);
      } else {
        assert NonRefs(isRef, ps) == NonRefs(isRef, ps[1..]);
      }
    }
  }

  /** For codecs that work position by position, so does the whole: references stay in place, every
      other position holds its own decoding, and nothing crashes. */
  lemma DecodesInPlace(isRef: IsRef, ps: Payloads, codecs: seq<Codec>, f: Payload -> Option<Payload>)
    requires Elementwise(codecs, f)
    ensures DecodeAround(isRef, ps, codecs)
         == match MapEach(KeepRefs(isRef, f), ps) case Some(r) => Done(r) case None => Failed
  {
    ScatterMap(isRef, f, ps);
  }

  // ---------------------------------------------------------------- the pipeline

  datatype Handler = Handler(
    pre: seq<Codec>, post: seq<Codec>,
    isRef: IsRef, store: Payload -> Option<Payload>, retrieve: Payload -> Option<Payload>)
  {
    /** Storing keeps a payload or replaces it by a reference to it, also when it is itself a reference. */
    ghost predicate LawfulStorage() {
      forall p | store(p).Some? ::
        store(p).value == p || (isRef(store(p).value) && retrieve(store(p).value) == Some(p))
    }

    function Fetch(p: Payload): Option<Payload> {
      if isRef(p) then retrieve(p) else Some(p)
    }

    function Encode(ps: Payloads): Option<Payloads> {
      match EncodeAll(pre, ps)
      case None => None
      case Some(q) =>
        match MapEach(store, q)
        case None => None
        case Some(stored) => EncodeAll(post, stored)
    }

    function Decode(ps: Payloads, preserveRefs: bool): Outcome {
      match DecodeAll(post, ps)
      case None => Failed
      case Some(stored) =>
        if preserveRefs then DecodeAround(isRef, stored, pre)
        else
          match MapEach(Fetch, stored)
          case None => Failed
          case Some(q) => DecodeAround(isRef, q, pre)
    }
  }

  ghost predicate AllInvertible(codecs: seq<Codec>) {
    forall i | 0 <= i < |codecs| :: codecs[i].Invertible()
  }

  ghost predicate NoRefs(isRef: IsRef, ps: Payloads) {
    forall i | 0 <= i < |ps| :: !isRef(ps[i])
  }

  /** Without references everything is decoded together, and results beyond the number of inputs are
      dropped. */
  lemma {:induction false} WithoutRefs(isRef: IsRef, ps: Payloads, decoded: Payloads)
    requires NoRefs(isRef, ps)
    ensures NonRefs(isRef, ps) == ps
    ensures Scatter(isRef, ps, decoded) == if |ps| <= |decoded| then Some(decoded[..|ps|]) else None
    decreases |ps|
  {
    if ps != [] && decoded != [] {
      WithoutRefs(isRef, ps[1..], decoded[1..]);
      if |ps| <= |decoded| {
        assert decoded[..|ps|] == [decoded[0]] + decoded[1..][..|ps| - 1];
      }
    } else if ps != [] {
      WithoutRefs(isRef, ps[1..], []);
    }
  }

  lemma FetchStored(h: Handler, q: Payloads, stored: Payloads)
    requires h.LawfulStorage() && NoRefs(h.isRef, q) && MapEach(h.store, q) == Some(stored)
    ensures MapEach(h.Fetch, stored) == Some(q)
  {
    MapEachAt(h.store, q);
    MapEachAt(h.Fetch, stored);
    assert MapEach(h.Fetch, stored).value == q;
  }

  /** For invertible codecs and storage and inputs whose pre-encoding makes no reference, decoding undoes
      encoding exactly when the pre-encoding keeps the number of payloads: with fewer the result is cut
      short, and with more the handler crashes. */
  lemma PipelineRoundTripIff(h: Handler, ps: Payloads)
    requires AllInvertible(h.pre) && AllInvertible(h.post) && h.LawfulStorage()
    requires h.Encode(ps).Some? && NoRefs(h.isRef, EncodeAll(h.pre, ps).value)
    ensures var q := EncodeAll(h.pre, ps).value;
            && h.Decode(h.Encode(ps).value, false) == (if |q| <= |ps| then Done(ps[..|q|]) else Crashed)
            && (h.Decode(h.Encode(ps).value, false) == Done(ps) <==> |q| == |ps|)
  {
    var q := EncodeAll(h.pre, ps).value;
    var stored := MapEach(h.store, q).value;
    ChainInverts(h.post, stored);
    FetchStored(h, q, stored);
    ChainInverts(h.pre, ps);
    WithoutRefs(h.isRef, q, ps);
    assert |q| == |ps| ==> ps[..|q|] == ps;
  }

  /** What a position comes back to: a reference that storage kept is followed, one that it stored once more
      comes back as it is, and everything that is not a reference then is decoded. */
  predicate ComesBack(h: Handler, f: Payload -> Option<Payload>, q: Payload, p: Payload) {
    !h.isRef(q)
    || (if h.store(q) != Some(q) then q == p
        else h.retrieve(q).Some? && KeepRefs(h.isRef, f)(h.retrieve(q).value) == Some(p))
  }

  lemma FetchedAt(h: Handler, f: Payload -> Option<Payload>, q: Payload, p: Payload)
    requires h.LawfulStorage() && h.store(q).Some? && f(q) == Some(p)
    ensures ComesBack(h, f, q, p) <==>
              h.Fetch(h.store(q).value).Some? && KeepRefs(h.isRef, f)(h.Fetch(h.store(q).value).value) == Some(p)
  {}

  /** Any payloads, references among them, through pre-codecs that work position by position: decoding
      undoes encoding exactly when every reference of the pre-encoding comes back. */
  lemma PipelineWithRefsIff(h: Handler, ps: Payloads, f: Payload -> Option<Payload>)
    requires AllInvertible(h.pre) && AllInvertible(h.post) && h.LawfulStorage() && Elementwise(h.pre, f)
    requires h.Encode(ps).Some?
    ensures var q := EncodeAll(h.pre, ps).value;
            && |q| == |ps|
            && (h.Decode(h.Encode(ps).value, false) == Done(ps)
                <==> forall i | 0 <= i < |ps| :: ComesBack(h, f, q[i], ps[i]))
  {
    var q := EncodeAll(h.pre, ps).value;
    var stored := MapEach(h.store, q).value;
    var g := KeepRefs(h.isRef, f);
    ChainInverts(h.post, stored);
    ChainInverts(h.pre, ps);
    MapEachAt(h.store, q);
    MapEachAt(f, q);
    MapEachAt(h.Fetch, stored);
    forall i | 0 <= i < |ps|
      ensures ComesBack(h, f, q[i], ps[i]) <==>
                h.Fetch(stored[i]).Some? && g(h.Fetch(stored[i]).value) == Some(ps[i])
    {
      assert h.store(q[i]) == Some(stored[i]) && f(q[i]) == Some(ps[i]);
      FetchedAt(h, f, q[i], ps[i]);
    }
    if MapEach(h.Fetch, stored).Some? {
      var fetched := MapEach(h.Fetch, stored).value;
      DecodesInPlace(h.isRef, fetched, h.pre, f);
      MapEachAt(g, fetched);
    }
  }

  /** With references preserved, what is a reference after storing stays one and everything else comes
      back. */
  lemma PreservedRefs(h: Handler, ps: Payloads, f: Payload -> Option<Payload>)
    requires AllInvertible(h.pre) && AllInvertible(h.post) && h.LawfulStorage() && Elementwise(h.pre, f)
    requires h.Encode(ps).Some?
    ensures var stored := MapEach(h.store, EncodeAll(h.pre, ps).value).value;
            var r := h.Decode(h.Encode(ps).value, true);
            && r.Done? && |r.payloads| == |stored| == |ps|
            && forall i | 0 <= i < |ps| :: r.payloads[i] == if h.isRef(stored[i]) then stored[i] else ps[i]
  {
    var q := EncodeAll(h.pre, ps).value;
    var stored := MapEach(h.store, q).value;
    ChainInverts(h.post, stored);
    ChainInverts(h.pre, ps);
    DecodesInPlace(h.isRef, stored, h.pre, f);
    MapEachAt(h.store, q);
    MapEachAt(f, q);
    var g := KeepRefs(h.isRef, f);
    MapEachAt(g, stored);
    forall i | 0 <= i < |ps| ensures g(stored[i]) == Some(if h.isRef(stored[i]) then stored[i] else ps[i]) {
      assert h.store(q[i]) == Some(stored[i]) && f(q[i]) == Some(ps[i]);
    }
  }
}
