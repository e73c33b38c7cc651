/** Header propagation: which payloads leave encoded by the codec. */
module Headers {
  import opened Basics

  /** A payload object: its identity and its contents. */
  datatype Instance = Instance(id: int, content: int)

  type Wire = map<string, Instance>

  /** The marks of `EncodeHeader` and the ownership table; `None` marks a missing payload. */
  type Marks = map<string, Option<Instance>>

  /** One direction of a codec; `None` is an error. */
  type Coder = seq<Instance> -> Option<seq<Instance>>

  // ---------------------------------------------------------------- writes

  /** One `Set` call, and whether its producer opted in to the codec. */
  datatype Write = Write(key: string, value: Instance, encode: bool)

  function Applied(fields: Wire, ws: seq<Write>): Wire
    decreases |ws|
  {
    if ws == [] then fields else Applied(fields[ws[0].key := ws[0].value], ws[1..])
  }

  function Owned(marks: Marks, ws: seq<Write>): Marks
    decreases |ws|
  {
    if ws == [] then marks
    else
      var w := ws[0];
      Owned(if w.encode then marks[w.key := Some(w.value)] else marks - {w.key}, ws[1..])
  }

  function LastWrite(ws: seq<Write>, key: string): Option<Write>
    decreases |ws|
  {
    if ws == [] then None
    else match LastWrite(ws[1..], key)
         case Some(w) => Some(w)
         case None => if ws[0].key == key then Some(ws[0]) else None
  }

  lemma {:induction false} AppliedAt(fields: Wire, ws: seq<Write>, key: string)
    ensures match LastWrite(ws, key)
            case Some(w) => key in Applied(fields, ws) && Applied(fields, ws)[key] == w.value
            case None => (key in Applied(fields, ws) <==> key in fields)
                         && (key in fields ==> Applied(fields, ws)[key] == fields[key])
    decreases |ws|
  {
    if ws != [] {
      AppliedAt(fields[ws[0].key := ws[0].value], ws[1..], key);
    }
  }

  lemma {:induction false} OwnedAt(marks: Marks, ws: seq<Write>, key: string)
    ensures match LastWrite(ws, key)
            case Some(w) =>
              (key in Owned(marks, ws) <==> w.encode) && (w.encode ==> Owned(marks, ws)[key] == Some(w.value))
            case None => (key in Owned(marks, ws) <==> key in marks)
                         && (key in marks ==> Owned(marks, ws)[key] == marks[key])
    decreases |ws|
  {
    if ws != [] {
      var w := ws[0];
      OwnedAt(if w.encode then marks[w.key := Some(w.value)] else marks - {w.key}, ws[1..], key);
    }
  }

  lemma {:induction false} AppliedConcat(fields: Wire, a: seq<Write>, b: seq<Write>)
    ensures Applied(fields, a + b) == Applied(Applied(fields, a), b)
    decreases |a|
  {
    if a == [] {
      assert a + b == b;
    } else {
      assert (a + b)[1..] == a[1..] + b;
      AppliedConcat(fields[a[0].key := a[0].value], a[1..], b);
    }
  }

  lemma {:induction false} OwnedConcat(marks: Marks, a: seq<Write>, b: seq<Write>)
    ensures Owned(marks, a + b) == Owned(Owned(marks, a), b)
    decreases |a|
  {
    if a == [] {
      assert a + b == b;
    } else {
      assert (a + b)[1..] == a[1..] + b;
      var w := a[0];
      OwnedConcat(if w.encode then marks[w.key := Some(w.value)] else marks - {w.key}, a[1..], b);
    }
  }

  // ---------------------------------------------------------------- what leaves

  /** The payload a key ends up with, before encoding. */
  function Final(fields: Wire, ws: seq<Write>, key: string): Option<Instance> {
    match LastWrite(ws, key)
    case Some(w) => Some(w.value)
    case None => if key in fields then Some(fields[key]) else None
  }

  /** The final payload of the key belongs to an opted-in producer: the last writer opted in, or
      nobody wrote it and the very payload in the context was marked. */
  predicate OptedIn(fields: Wire, marks: Marks, ws: seq<Write>, key: string) {
    match LastWrite(ws, key)
    case Some(w) => w.encode
    case None => key in marks && key in fields && marks[key] == Some(fields[key])
  }

  /** One payload through the codec; anything but one payload is an error. */
  function Code(coder: Coder, p: Instance): Option<Instance> {
    match coder([p])
    case Some(r) => if |r| == 1 then Some(r[0]) else None
    case None => None
  }

  function CodeOpt(coder: Option<Coder>, p: Instance): Option<Instance> {
    match coder case Some(c) => Code(c, p) case None => Some(p)
  }

  /** `selected`: the owned payloads that are still in place. */
  function Selected(fields: Wire, owned: Marks): Wire {
    map key | key in owned && key in fields && owned[key] == Some(fields[key]) :: fields[key]
  }

  /** After all writes, exactly the opted-in keys are selected, with their final payload. */
  lemma SelectedIffOptedIn(fields: Wire, marks: Marks, ws: seq<Write>, key: string)
    ensures var s := Selected(Applied(fields, ws), Owned(marks, ws));
            && (key in s <==> OptedIn(fields, marks, ws, key))
            && (key in s ==> Some(s[key]) == Final(fields, ws, key))
  {
    AppliedAt(fields, ws, key);
    OwnedAt(marks, ws, key);
  }

  // ---------------------------------------------------------------- the program

  /** A header map that several contexts and headers may share. */
  class Fields {
    var m: Wire

    constructor (m: Wire)
      ensures this.m == m
    {
      this.m := m;
    }
  }

  class HeaderWriter {
    const header: Fields?
    var codecValues: Option<Marks>
    var encode: bool

    constructor (header: Fields?, codecValues: Option<Marks>)
      ensures this.header == header && this.codecValues == codecValues
    {
      this.header := header;
      this.codecValues := codecValues;
      encode := false;
    }

    method Set(key: string, value: Instance)
      modifies this`codecValues, if header == null then {} else {header}
      ensures header != null ==> header.m == Applied(old(header.m), [Write(key, value, encode)])
      ensures codecValues == if header == null || old(codecValues).None? then old(codecValues)
                             else Some(Owned(old(codecValues).value, [Write(key, value, encode)]))
    {
      if header == null {
        return;
      }
      header.m := header.m[key := value];
      assert [Write(key, value, encode)][1..] == [];
      if codecValues.Some? {
        var owned := codecValues.value - {key};
        if encode {
          owned := owned[key := Some(value)];
        }
        assert encode ==> owned == codecValues.value[key := Some(value)];
        codecValues := Some(owned);
      }
    }
  }

  /** What a propagator injects, and whether it then fails. */
  datatype Propagator = Propagator(enabled: bool, sets: seq<(string, Instance)>, fails: bool) {
    function Writes(): seq<Write> {
      seq(|sets|, i requires 0 <= i < |sets| => Write(sets[i].0, sets[i].1, enabled))
    }
  }

  function AllWrites(ps: seq<Propagator>): seq<Write> {
    if ps == [] then [] else AllWrites(ps[..|ps| - 1]) + ps[|ps| - 1].Writes()
  }

  predicate Copies(marks: Marks, ps: seq<Propagator>) {
    marks != map[] || exists i | 0 <= i < |ps| :: ps[i].enabled
  }

  /** Runs the injection of one propagator. */
  method Inject(p: Propagator, writer: HeaderWriter)
    requires writer.header != null && writer.codecValues.Some? && writer.encode == p.enabled
    modifies writer`codecValues, writer.header
    ensures writer.header.m == Applied(old(writer.header.m), p.Writes())
    ensures writer.codecValues == Some(Owned(old(writer.codecValues.value), p.Writes()))
  {
    for i := 0 to |p.sets|
      invariant writer.codecValues.Some?
      invariant writer.header.m == Applied(old(writer.header.m), p.Writes()[..i])
      invariant writer.codecValues == Some(Owned(old(writer.codecValues.value), p.Writes()[..i]))
    {
      var w := Write(p.sets[i].0, p.sets[i].1, p.enabled);
      assert p.Writes()[..i + 1] == p.Writes()[..i] + [w];
      AppliedConcat(old(writer.header.m), p.Writes()[..i], [w]);
      OwnedConcat(old(writer.codecValues.value), p.Writes()[..i], [w]);
      writer.Set(p.sets[i].0, p.sets[i].1);
    }
    assert p.Writes()[..|p.sets|] == p.Writes();
  }

  /** The encoding of a map, when every payload encodes. */
  ghost predicate CodedAs(fields: Wire, coder: Option<Coder>, r: Wire) {
    r.Keys == fields.Keys && forall key | key in fields :: CodeOpt(coder, fields[key]) == Some(r[key])
  }

  /** `codecHeader`: the payloads one by one. */
  method CodecHeader(fields: Wire, coder: Option<Coder>) returns (r: Option<Wire>)
    ensures match r
            case Some(m) => CodedAs(fields, coder, m)
            case None => exists key | key in fields :: CodeOpt(coder, fields[key]).None?
  {
    if coder.None? {
      return Some(fields);
    }
    var result, todo := fields, fields.Keys;
    while todo != {}
      invariant todo <= fields.Keys && result.Keys == fields.Keys
      invariant forall key | key in todo :: result[key] == fields[key]
      invariant forall key | key in fields.Keys - todo :: CodeOpt(coder, fields[key]) == Some(result[key])
      decreases |todo|
    {
      ghost var any := AnyElement(todo);
      var key: string :| key in todo;
      todo := todo - {key};
      var coded := coder.value([result[key]]);
      if coded.None? || |coded.value| != 1 {
        assert CodeOpt(coder, fields[key]).None?;
        return None;
      }
      result := result[key := coded.value[0]];
    }
    return Some(result);
  }

  /** What leaves: a key is there when anyone set it; it is encoded, once, exactly when its final
      payload belongs to an opted-in producer, and is the payload last written otherwise. */
  ghost predicate Leaves(fields: Wire, marks: Marks, ws: seq<Write>, coder: Option<Coder>, r: Wire) {
    && (forall key :: key in r <==> Final(fields, ws, key).Some?)
    && (forall key | key in r ::
          var p := Final(fields, ws, key).value;
          if OptedIn(fields, marks, ws, key) then CodeOpt(coder, p) == Some(r[key]) else r[key] == p)
  }

  /** The codec rejects the final payload of an opted-in key. */
  ghost predicate Rejected(fields: Wire, marks: Marks, ws: seq<Write>, coder: Option<Coder>) {
    exists key | OptedIn(fields, marks, ws, key) :: CodeOpt(coder, Final(fields, ws, key).value).None?
  }

  lemma EncodedLeaves(fields: Wire, marks: Marks, ws: seq<Write>, coder: Option<Coder>, encoded: Wire)
    requires CodedAs(Selected(Applied(fields, ws), Owned(marks, ws)), coder, encoded)
    ensures Leaves(fields, marks, ws, coder, Applied(fields, ws) + encoded)
  {
    var r := Applied(fields, ws) + encoded;
    forall key
      ensures key in r <==> Final(fields, ws, key).Some?
      ensures key in r ==>
                var p := Final(fields, ws, key).value;
                if OptedIn(fields, marks, ws, key) then CodeOpt(coder, p) == Some(r[key]) else r[key] == p
    {
      SelectedIffOptedIn(fields, marks, ws, key);
      AppliedAt(fields, ws, key);
    }
  }

  lemma {:induction false} LastWriteListed(ws: seq<Write>, key: string)
    requires LastWrite(ws, key).Some?
    ensures LastWrite(ws, key).value in ws
    decreases |ws|
  {
    if LastWrite(ws[1..], key).Some? {
      LastWriteListed(ws[1..], key);
    }
  }

  lemma {:induction false} OptInNeedsProducer(ps: seq<Propagator>, w: Write)
    requires w in AllWrites(ps) && w.encode
    ensures exists i | 0 <= i < |ps| :: ps[i].enabled
    decreases |ps|
  {
    var last := ps[|ps| - 1];
    if w !in last.Writes() {
      OptInNeedsProducer(ps[..|ps| - 1], w);
    }
  }

  /** Without marks and opted-in propagators nothing is selected. */
  lemma NothingSelected(fields: Wire, ps: seq<Propagator>)
    requires !Copies(map[], ps)
    ensures Selected(Applied(fields, AllWrites(ps)), Owned(map[], AllWrites(ps))) == map[]
  {
    var ws := AllWrites(ps);
    var s := Selected(Applied(fields, ws), Owned(map[], ws));
    forall key ensures key !in s {
      SelectedIffOptedIn(fields, map[], ws, key);
      if LastWrite(ws, key).Some? && LastWrite(ws, key).value.encode {
        LastWriteListed(ws, key);
        OptInNeedsProducer(ps, LastWrite(ws, key).value);
      }
    }
  }

  lemma WritesNext(fields: Wire, marks: Marks, ps: seq<Propagator>, i: nat)
    requires i < |ps|
    ensures Applied(fields, AllWrites(ps[..i + 1])) == Applied(Applied(fields, AllWrites(ps[..i])), ps[i].Writes())
    ensures Owned(marks, AllWrites(ps[..i + 1])) == Owned(Owned(marks, AllWrites(ps[..i])), ps[i].Writes())
  {
    assert ps[..i + 1][..i] == ps[..i];
    AppliedConcat(fields, AllWrites(ps[..i]), ps[i].Writes());
    OwnedConcat(marks, AllWrites(ps[..i]), ps[i].Writes());
  }

  /** All injections in order; stops at the first that fails. */
  method InjectAll(propagators: seq<Propagator>, writer: HeaderWriter) returns (ok: bool)
    requires writer.header != null && writer.codecValues.Some?
    modifies writer, writer.header
    ensures writer.codecValues.Some? && (ok <==> forall i | 0 <= i < |propagators| :: !propagators[i].fails)
    ensures ok ==> writer.header.m == Applied(old(writer.header.m), AllWrites(propagators))
    ensures ok ==> writer.codecValues.value == Owned(old(writer.codecValues.value), AllWrites(propagators))
  {
    ghost var fields, marks := writer.header.m, writer.codecValues.value;
    for i := 0 to |propagators|
      invariant writer.codecValues.Some? && forall k | 0 <= k < i :: !propagators[k].fails
      invariant writer.header.m == Applied(fields, AllWrites(propagators[..i]))
      invariant writer.codecValues.value == Owned(marks, AllWrites(propagators[..i]))
    {
      writer.encode := propagators[i].enabled;
      Inject(propagators[i], writer);
      WritesNext(fields, marks, propagators, i);
      if propagators[i].fails {
        return false;
      }
    }
    assert propagators[..|propagators|] == propagators;
    return true;
  }

  method CopyNeeded(marks: Marks, propagators: seq<Propagator>) returns (copyHeaders: bool)
    ensures copyHeaders <==> Copies(marks, propagators)
  {
    copyHeaders := marks != map[];
    for i := 0 to |propagators|
      invariant copyHeaders <==> marks != map[] || exists k | 0 <= k < i :: propagators[k].enabled
    {
      copyHeaders := copyHeaders || propagators[i].enabled;
    }
  }

  /** `propagatedHeaders`; null is an error.  The context's own map is written only when nothing at
      all is to be encoded, and never with an encoded payload. */
  method PropagatedHeaders(ctx: Fields?, marks: Marks, propagators: seq<Propagator>, coder: Option<Coder>)
    returns (header: Fields?)
    modifies ctx
    ensures header == null <==>
              ctx == null || (exists i | 0 <= i < |propagators| :: propagators[i].fails)
              || Rejected(old(ctx.m), marks, AllWrites(propagators), coder)
    ensures header != null ==> Leaves(old(ctx.m), marks, AllWrites(propagators), coder, header.m)
    ensures ctx != null && Copies(marks, propagators) ==> ctx.m == old(ctx.m) && header != ctx
    ensures header != null && !Copies(marks, propagators) ==>
              header == ctx && ctx.m == Applied(old(ctx.m), AllWrites(propagators))
  {
    if ctx == null {
      return null;
    }
    header := ctx;
    var copyHeaders := CopyNeeded(marks, propagators);
    if copyHeaders {
      header := new Fields(ctx.m);
    }
    var writer := new HeaderWriter(header, Some(marks));
    var ok := InjectAll(propagators, writer);
    if !ok {
      return null;
    }
    ghost var ws := AllWrites(propagators);
    var selected := Selected(header.m, writer.codecValues.value);
    var encoded := CodecHeader(selected, coder);
    if encoded.None? {
      ghost var key :| key in selected && CodeOpt(coder, selected[key]).None?;
      SelectedIffOptedIn(old(ctx.m), marks, ws, key);
      return null;
    }
    EncodedLeaves(old(ctx.m), marks, ws, coder, encoded.value);
    if !Copies(marks, propagators) {
      NothingSelected(old(ctx.m), propagators);
      assert encoded.value == map[];
    }
    header.m := header.m + encoded.value;
  }

  /** Propagating again from the context a first propagation left behind sends the same header. */
  lemma PropagationRepeats(fields: Wire, marks: Marks, ps: seq<Propagator>, coder: Option<Coder>, r: Wire, again: Wire)
    requires var after := if Copies(marks, ps) then fields else Applied(fields, AllWrites(ps));
             Leaves(fields, marks, AllWrites(ps), coder, r) && Leaves(after, marks, AllWrites(ps), coder, again)
    ensures again == r
  {
    var ws := AllWrites(ps);
    var after := if Copies(marks, ps) then fields else Applied(fields, ws);
    forall key
      ensures Final(after, ws, key) == Final(fields, ws, key)
      ensures OptedIn(after, marks, ws, key) == OptedIn(fields, marks, ws, key)
    {
      AppliedAt(fields, ws, key);
    }
    assert forall key | key in r :: again[key] == r[key];
  }

  /** Decoding an encoded header gives it back when the codec is invertible. */
  lemma CodecHeaderInverts(fields: Wire, encode: Coder, decode: Coder, encoded: Wire, decoded: Wire)
    requires forall p: Instance, q: Instance | encode([p]) == Some([q]) :: decode([q]) == Some([p])
    requires CodedAs(fields, Some(encode), encoded) && CodedAs(encoded, Some(decode), decoded)
    ensures decoded == fields
  {
    forall key | key in fields ensures decoded[key] == fields[key] {
      assert encode([fields[key]]).value == [encoded[key]];
    }
  }
}
