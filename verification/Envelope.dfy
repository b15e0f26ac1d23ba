/** Envelopes: size caps, the signed byte sequence, and signatures that make it tamper-evident. */
module Envelope {
  import opened Base
  import opened Unicode
  import opened Decimal
  import opened JsonText
  import opened JsonString
  import opened Canonical
  import opened JsonGrammar
  import opened JsonReader

  datatype Party = Party(person: string, device: string, agent: string)

  datatype Part = Part(kind: string, text: string)

  /** `parts` is None for a nil slice, which marshals as null, and Some([]) for an empty one. */
  datatype Message = Message(role: string, parts: Option<seq<Part>>) {
    function Parts(): seq<Part> { if parts.Some? then parts.value else [] }
  }

  /**
   An ideal signature: the 64 octets some key produced for some bytes, or any other octets.
   Ed25519 itself is not part of this model.
   */
  datatype Signature = Sealed(key: nat, text: seq<Byte>) | Octets(b: seq<Byte>) {
    function Length(): nat { if Sealed? then 64 else |b| }
  }

  const UNSIGNED := Octets([])

  /** `sentAt` is the RFC 3339 text time.Time marshals as; `state` is only what the sender asserts. */
  datatype Envelope = Envelope(
    v: int, id: string, thread: string, from: Party, to: string, state: string,
    sentAt: string, aiGenerated: bool, body: Message, sig: Signature)

  const VERSION := 1
  const MAX_BODY_BYTES := 32 * 1024
  const MAX_WIRE_BYTES := 64 * 1024
  const MAX_PARTS := 16

  // ----------------------------------------------------- signed bytes

  function IntNumber(v: int): Double {
    Normalise(v < 0, DigitsOf(if v < 0 then -v else v), 0)
  }

  function PartyJson(p: Party): Json {
    Obj(map["person" := Str(p.person), "device" := Str(p.device), "agent" := Str(p.agent)])
  }

  function PartJson(p: Part): Json { Obj(map["type" := Str(p.kind), "text" := Str(p.text)]) }

  function MessageJson(m: Message): Json {
    Obj(map["role" := Str(m.role),
            "parts" := match m.parts
                       case None => Null
                       case Some(ps) => Arr(seq(|ps|, i requires 0 <= i < |ps| => PartJson(ps[i])))])
  }

  /** The fields' tags, in their order. */
  const NAMES := ["v", "id", "thread", "from", "to", "state", "sent_at", "ai_generated", "body"]

  /** What the fields stand for, the version standing for `v`. */
  function FieldValues(e: Envelope, v: Json): (vs: seq<Json>)
    ensures |vs| == 9
  {
    [v, Str(e.id), Str(e.thread), PartyJson(e.from)] +
    [Str(e.to), Str(e.state), Str(e.sentAt), Bool(e.aiGenerated), MessageJson(e.body)]
  }

  function MapOf(names: seq<string>, vs: seq<Json>, acc: map<string, Json>): map<string, Json>
    requires |names| == |vs|
  {
    if names == [] then acc else MapOf(names[1..], vs[1..], acc[names[0] := vs[0]])
  }

  /** The value of an envelope whose signature has been cleared. */
  function UnsignedJson(e: Envelope): Json { WithVersion(e, Num(IntNumber(e.v))) }

  function WithVersion(e: Envelope, v: Json): Json { Obj(MapOf(NAMES, FieldValues(e, v), map[])) }

  ghost function SignedBytes(e: Envelope): seq<Byte> { Print(UnsignedJson(e)) }

  // ------------------------------------------------ what json.Marshal writes

  function MarshalText(s: string): Syntax { Text(Spelled(s, Marshalled)) }

  function MarshalInt(v: int): Syntax {
    Number(Numeral(v < 0, DigitsOf(if v < 0 then -v else v), [], None), false, false)
  }

  function Field(name: string, s: Syntax): Member { Member([], Spelled(name, Marshalled), [], Element([], s, [])) }

  function MarshalParty(p: Party): Syntax {
    Object([], [Field("person", MarshalText(p.person))] + ([Field("device", MarshalText(p.device))] +
               ([Field("agent", MarshalText(p.agent))] + [])))
  }

  function MarshalPart(p: Part): Syntax {
    Object([], [Field("type", MarshalText(p.kind))] + ([Field("text", MarshalText(p.text))] + []))
  }

  function MarshalParts(ps: seq<Part>): seq<Element> {
    if ps == [] then [] else [Element([], MarshalPart(ps[0]), [])] + MarshalParts(ps[1..])
  }

  function MarshalMessage(m: Message): Syntax {
    Object([], [Field("role", MarshalText(m.role))] +
               ([Field("parts", if m.parts.None? then Literal(Null) else List([], MarshalParts(m.parts.value)))] + []))
  }

  /** A spelling of v. */
  ghost predicate Means(s: Syntax, v: Json) { Valid(s) && Value(s) == v }

  lemma MarshalTextMeans(s: string)
    ensures Means(MarshalText(s), Str(s))
  {
    MarshalledSpells();
    SpelledIsValid(s, Marshalled);
  }

  lemma MarshalIntMeans(v: int)
    ensures Means(MarshalInt(v), Num(IntNumber(v)))
  {
    var ds := DigitsOf(if v < 0 then -v else v);
    assert ds + [] == ds;
    DigitsLead(if v < 0 then -v else v);
  }

  lemma DigitsLead(n: nat)
    ensures |DigitsOf(n)| > 1 ==> DigitsOf(n)[0] != 0
  {
  }

  /** The members so far, collected, and the rest still to collect. */
  ghost predicate Collects(ms: seq<Member>, acc: map<string, Json>, m: map<string, Json>) {
    ValidMembers(ms) && Collected(ms, acc) == m
  }

  lemma NoFields(acc: map<string, Json>)
    ensures Collects([], acc, acc)
  {
  }

  lemma FieldCollects(name: string, s: Syntax, v: Json, ms: seq<Member>, acc: map<string, Json>, m: map<string, Json>)
    requires Means(s, v) && Collects(ms, acc[name := v], m)
    ensures Collects([Field(name, s)] + ms, acc, m)
  {
    MarshalTextMeans(name);
    var all := [Field(name, s)] + ms;
    assert all[0] == Field(name, s) && all[1..] == ms;
    assert ValidElement(all[0].element) && MemberValue(all[0]) == ValueOf(all[0].element) == v;
  }

  lemma ObjectMeans(ms: seq<Member>, m: map<string, Json>)
    requires Collects(ms, map[], m)
    ensures Means(Object([], ms), Obj(m))
  {
  }

  lemma TwoFields(a: string, s: Syntax, v: Json, b: string, t: Syntax, w: Json)
    requires Means(s, v) && Means(t, w)
    ensures Means(Object([], [Field(a, s)] + ([Field(b, t)] + [])), Obj(map[][a := v][b := w]))
  {
    NoFields(map[][a := v][b := w]);
    FieldCollects(b, t, w, [], map[][a := v], map[][a := v][b := w]);
    FieldCollects(a, s, v, [Field(b, t)] + [], map[], map[][a := v][b := w]);
    ObjectMeans([Field(a, s)] + ([Field(b, t)] + []), map[][a := v][b := w]);
  }

  lemma ThreeFields(a: string, s: Syntax, v: Json, b: string, t: Syntax, w: Json, c: string, u: Syntax, x: Json)
    requires Means(s, v) && Means(t, w) && Means(u, x)
    ensures Means(Object([], [Field(a, s)] + ([Field(b, t)] + ([Field(c, u)] + []))),
                  Obj(map[][a := v][b := w][c := x]))
  {
    var m := map[][a := v][b := w][c := x];
    NoFields(m);
    FieldCollects(c, u, x, [], map[][a := v][b := w], m);
    FieldCollects(b, t, w, [Field(c, u)] + [], map[][a := v], m);
    FieldCollects(a, s, v, [Field(b, t)] + ([Field(c, u)] + []), map[], m);
    ObjectMeans([Field(a, s)] + ([Field(b, t)] + ([Field(c, u)] + [])), m);
  }

  lemma MarshalPartyMeans(p: Party)
    ensures Means(MarshalParty(p), PartyJson(p))
  {
    MarshalTextMeans(p.person);
    MarshalTextMeans(p.device);
    MarshalTextMeans(p.agent);
    ThreeFields("person", MarshalText(p.person), Str(p.person), "device", MarshalText(p.device), Str(p.device),
                "agent", MarshalText(p.agent), Str(p.agent));
    assert PartyJson(p).members == map[]["person" := Str(p.person)]["device" := Str(p.device)]["agent" := Str(p.agent)];
  }

  lemma MarshalPartMeans(p: Part)
    ensures Means(MarshalPart(p), PartJson(p))
  {
    MarshalTextMeans(p.kind);
    MarshalTextMeans(p.text);
    TwoFields("type", MarshalText(p.kind), Str(p.kind), "text", MarshalText(p.text), Str(p.text));
    assert PartJson(p).members == map[]["type" := Str(p.kind)]["text" := Str(p.text)];
  }

  lemma {:induction false} MarshalPartsMean(ps: seq<Part>)
    ensures ValidItems(MarshalParts(ps)) && |MarshalParts(ps)| == |ps|
    ensures Values(MarshalParts(ps)) == seq(|ps|, i requires 0 <= i < |ps| => PartJson(ps[i]))
    decreases |ps|
  {
    if ps == [] {
    } else {
      MarshalPartMeans(ps[0]);
      MarshalPartsMean(ps[1..]);
      var es := MarshalParts(ps);
      assert es[1..] == MarshalParts(ps[1..]);
      assert ValidElement(es[0]) && ValueOf(es[0]) == PartJson(ps[0]);
    }
  }

  lemma MarshalMessageMeans(m: Message)
    ensures Means(MarshalMessage(m), MessageJson(m))
  {
    var parts := if m.parts.None? then Literal(Null) else List([], MarshalParts(m.parts.value));
    var v := MessageJson(m).members["parts"];
    if m.parts.Some? {
      MarshalPartsMean(m.parts.value);
    }
    assert Means(parts, v);
    MarshalTextMeans(m.role);
    TwoFields("role", MarshalText(m.role), Str(m.role), "parts", parts, v);
    assert MessageJson(m).members == map[]["role" := Str(m.role)]["parts" := v];
  }

  function MembersOf(names: seq<string>, ss: seq<Syntax>): seq<Member>
    requires |names| == |ss|
  {
    if names == [] then [] else [Field(names[0], ss[0])] + MembersOf(names[1..], ss[1..])
  }

  lemma {:induction false} FieldsCollect(names: seq<string>, ss: seq<Syntax>, vs: seq<Json>, acc: map<string, Json>)
    requires |names| == |ss| && AllMean(ss, vs)
    ensures Collects(MembersOf(names, ss), acc, MapOf(names, vs, acc))
    decreases |names|
  {
    if names == [] {
      NoFields(acc);
    } else {
      FieldsCollect(names[1..], ss[1..], vs[1..], acc[names[0] := vs[0]]);
      FieldCollects(names[0], ss[0], vs[0], MembersOf(names[1..], ss[1..]), acc, MapOf(names, vs, acc));
    }
  }

  /** The fields as written. */
  function FieldTexts(e: Envelope): (ss: seq<Syntax>)
    ensures |ss| == 9
  {
    [MarshalInt(e.v), MarshalText(e.id), MarshalText(e.thread), MarshalParty(e.from)] +
    [MarshalText(e.to), MarshalText(e.state), MarshalText(e.sentAt), Literal(Bool(e.aiGenerated)),
     MarshalMessage(e.body)]
  }

  ghost predicate AllMean(ss: seq<Syntax>, vs: seq<Json>) {
    |ss| == |vs| && forall i :: 0 <= i < |ss| ==> Means(ss[i], vs[i])
  }

  lemma FourMean(s0: Syntax, v0: Json, s1: Syntax, v1: Json, s2: Syntax, v2: Json, s3: Syntax, v3: Json)
    requires Means(s0, v0) && Means(s1, v1) && Means(s2, v2) && Means(s3, v3)
    ensures AllMean([s0, s1, s2, s3], [v0, v1, v2, v3])
  {
  }

  lemma FiveMean(s0: Syntax, v0: Json, s1: Syntax, v1: Json, s2: Syntax, v2: Json, s3: Syntax, v3: Json,
                 s4: Syntax, v4: Json)
    requires Means(s0, v0) && Means(s1, v1) && Means(s2, v2) && Means(s3, v3) && Means(s4, v4)
    ensures AllMean([s0, s1, s2, s3, s4], [v0, v1, v2, v3, v4])
  {
  }

  lemma BothMean(ss: seq<Syntax>, vs: seq<Json>, ts: seq<Syntax>, ws: seq<Json>)
    requires AllMean(ss, vs) && AllMean(ts, ws)
    ensures AllMean(ss + ts, vs + ws)
  {
  }

  lemma FirstFieldsMean(e: Envelope)
    ensures AllMean([MarshalInt(e.v), MarshalText(e.id), MarshalText(e.thread), MarshalParty(e.from)],
                    [Num(IntNumber(e.v)), Str(e.id), Str(e.thread), PartyJson(e.from)])
  {
    MarshalIntMeans(e.v);
    MarshalTextMeans(e.id);
    MarshalTextMeans(e.thread);
    MarshalPartyMeans(e.from);
    FourMean(MarshalInt(e.v), Num(IntNumber(e.v)), MarshalText(e.id), Str(e.id),
             MarshalText(e.thread), Str(e.thread), MarshalParty(e.from), PartyJson(e.from));
  }

  lemma LastFieldsMean(e: Envelope)
    ensures AllMean([MarshalText(e.to), MarshalText(e.state), MarshalText(e.sentAt), Literal(Bool(e.aiGenerated)),
                     MarshalMessage(e.body)],
                    [Str(e.to), Str(e.state), Str(e.sentAt), Bool(e.aiGenerated), MessageJson(e.body)])
  {
    MarshalTextMeans(e.to);
    MarshalTextMeans(e.state);
    MarshalTextMeans(e.sentAt);
    MarshalMessageMeans(e.body);
    FiveMean(MarshalText(e.to), Str(e.to), MarshalText(e.state), Str(e.state), MarshalText(e.sentAt), Str(e.sentAt),
             Literal(Bool(e.aiGenerated)), Bool(e.aiGenerated), MarshalMessage(e.body), MessageJson(e.body));
  }

  /** Where names are met once, each keeps its own value. */
  lemma {:induction false} MapOfNames(names: seq<string>, vs: seq<Json>, acc: map<string, Json>)
    requires |names| == |vs| && forall i, j :: 0 <= i < j < |names| ==> names[i] != names[j]
    ensures forall i :: 0 <= i < |names| ==>
              names[i] in MapOf(names, vs, acc) && MapOf(names, vs, acc)[names[i]] == vs[i]
    ensures forall k :: k in MapOf(names, vs, acc) <==> k in acc || k in names
    ensures forall k :: k in acc && k !in names ==> MapOf(names, vs, acc)[k] == acc[k]
    decreases |names|
  {
    if names == [] {
    } else {
      MapOfNames(names[1..], vs[1..], acc[names[0] := vs[0]]);
      assert names == [names[0]] + names[1..];
      assert forall i :: 0 < i < |names| ==> names[1..][i - 1] == names[i] && vs[1..][i - 1] == vs[i];
    }
  }

  lemma NamesDistinct(i: nat, j: nat)
    requires i < j < 9
    ensures NAMES[i] != NAMES[j]
  {
    assert |NAMES[0]| == 1 && |NAMES[1]| == 2 && |NAMES[2]| == 6 && |NAMES[3]| == 4 && |NAMES[4]| == 2;
    assert |NAMES[5]| == 5 && |NAMES[6]| == 7 && |NAMES[7]| == 12 && |NAMES[8]| == 4;
    assert NAMES[1][0] == 'i' && NAMES[4][0] == 't' && NAMES[3][0] == 'f' && NAMES[8][0] == 'b';
  }

  /** An object with the nine names has exactly those, each with its own value. */
  lemma NamesMap(vs: seq<Json>)
    requires |vs| == 9
    ensures |NAMES| == 9
    ensures var m := MapOf(NAMES, vs, map[]);
            && (forall i :: 0 <= i < 9 ==> NAMES[i] in m && m[NAMES[i]] == vs[i])
            && (forall k :: k in m <==> k in NAMES)
  {
    forall i, j | 0 <= i < j < 9 ensures NAMES[i] != NAMES[j] {
      NamesDistinct(i, j);
    }
    MapOfNames(NAMES, vs, map[]);
  }

  /** An envelope whose signature has been cleared, as json.Marshal writes it. */
  function Marshal(e: Envelope): Syntax { Object([], MembersOf(NAMES, FieldTexts(e))) }

  /** The marshalled text is that of the value the envelope stands for. */
  lemma MarshalMeans(e: Envelope)
    ensures Means(Marshal(e), UnsignedJson(e))
  {
    var ss, vs := FieldTexts(e), FieldValues(e, Num(IntNumber(e.v)));
    FirstFieldsMean(e);
    LastFieldsMean(e);
    BothMean([MarshalInt(e.v), MarshalText(e.id), MarshalText(e.thread), MarshalParty(e.from)],
             [Num(IntNumber(e.v)), Str(e.id), Str(e.thread), PartyJson(e.from)],
             [MarshalText(e.to), MarshalText(e.state), MarshalText(e.sentAt), Literal(Bool(e.aiGenerated)),
              MarshalMessage(e.body)],
             [Str(e.to), Str(e.state), Str(e.sentAt), Bool(e.aiGenerated), MessageJson(e.body)]);
    FieldsCollect(NAMES, ss, vs, map[]);
    ObjectMeans(MembersOf(NAMES, ss), MapOf(NAMES, vs, map[]));
  }

  // ------------------------------------------------------------- decoding

  /** Decode, the signature aside: each field by its name, a missing or null one as its zero value. */
  function TextAt(v: Json, name: string): Option<string>
    requires v.Obj?
  {
    if name !in v.members || v.members[name].Null? then Some("")
    else if v.members[name].Str? then Some(v.members[name].s)
    else None
  }

  function BoolAt(v: Json, name: string): Option<bool>
    requires v.Obj?
  {
    if name !in v.members || v.members[name].Null? then Some(false)
    else if v.members[name].Bool? then Some(v.members[name].b)
    else None
  }

  /** A whole number. */
  ghost function IntAt(v: Json, name: string): Option<int>
    requires v.Obj?
  {
    if name !in v.members || v.members[name].Null? then Some(0)
    else if v.members[name].Num? then
      var x := Denotes(v.members[name].n);
      if x.Floor as real == x then Some(x.Floor) else None
    else None
  }

  function PartyAt(v: Json, name: string): Option<Party>
    requires v.Obj?
  {
    if name !in v.members || v.members[name].Null? then Some(Party("", "", ""))
    else if !v.members[name].Obj? then None
    else
      var p := v.members[name];
      var person, device, agent := TextAt(p, "person"), TextAt(p, "device"), TextAt(p, "agent");
      if person.None? || device.None? || agent.None? then None else Some(Party(person.value, device.value, agent.value))
  }

  function DecodePart(v: Json): Option<Part> {
    if v.Null? then Some(Part("", ""))
    else if !v.Obj? then None
    else
      var kind, text := TextAt(v, "type"), TextAt(v, "text");
      if kind.None? || text.None? then None else Some(Part(kind.value, text.value))
  }

  function DecodeParts(vs: seq<Json>): Option<seq<Part>> {
    if vs == [] then Some([])
    else
      var first, more := DecodePart(vs[0]), DecodeParts(vs[1..]);
      if first.None? || more.None? then None else Some([first.value] + more.value)
  }

  function MessageAt(v: Json, name: string): Option<Message>
    requires v.Obj?
  {
    if name !in v.members || v.members[name].Null? then Some(Message("", None))
    else if !v.members[name].Obj? then None
    else
      var b := v.members[name];
      var role := TextAt(b, "role");
      if role.None? then None
      else if "parts" !in b.members || b.members["parts"].Null? then Some(Message(role.value, None))
      else if !b.members["parts"].Arr? then None
      else
        var parts := DecodeParts(b.members["parts"].items);
        if parts.None? then None else Some(Message(role.value, parts))
  }

  /** Every field but the version and the signature. */
  function OtherFields(v: Json): Option<Envelope> {
    if !v.Obj? then None
    else
      var id, thread, from, to := TextAt(v, "id"), TextAt(v, "thread"), PartyAt(v, "from"), TextAt(v, "to");
      var state, sentAt := TextAt(v, "state"), TextAt(v, "sent_at");
      var ai, body := BoolAt(v, "ai_generated"), MessageAt(v, "body");
      if id.None? || thread.None? || from.None? || to.None? || state.None? || sentAt.None? || ai.None?
         || body.None? then
        None
      else
        Some(Envelope(VERSION, id.value, thread.value, from.value, to.value, state.value, sentAt.value, ai.value,
                      body.value, UNSIGNED))
  }

  datatype Decoding = Decoded(e: Envelope) | Malformed | BadVersion

  ghost function Decode(data: seq<Byte>): Decoding {
    match ReadDocument(data)
    case None => Malformed
    case Some(v) =>
      if OtherFields(v).None? || IntAt(v, "v").None? then Malformed
      else if IntAt(v, "v").value != VERSION then BadVersion
      else Decoded(OtherFields(v).value)
  }

  lemma DecodesParty(p: Party)
    ensures var v := PartyJson(p);
            && TextAt(v, "person") == Some(p.person) && TextAt(v, "device") == Some(p.device)
            && TextAt(v, "agent") == Some(p.agent)
  {
  }

  lemma {:induction false} DecodesParts(ps: seq<Part>)
    ensures DecodeParts(seq(|ps|, i requires 0 <= i < |ps| => PartJson(ps[i]))) == Some(ps)
    decreases |ps|
  {
    var vs := seq(|ps|, i requires 0 <= i < |ps| => PartJson(ps[i]));
    if ps == [] {
    } else {
      DecodesParts(ps[1..]);
      assert vs[1..] == seq(|ps| - 1, i requires 0 <= i < |ps| - 1 => PartJson(ps[1..][i]));
      assert DecodePart(vs[0]) == Some(ps[0]);
      assert ps == [ps[0]] + ps[1..];
    }
  }

  lemma DecodesMessage(v: Json, m: Message)
    requires v.Obj? && "body" in v.members && v.members["body"] == MessageJson(m)
    ensures MessageAt(v, "body") == Some(m)
  {
    if m.parts.Some? {
      DecodesParts(m.parts.value);
    }
  }

  /** The members written, looked up by name. */
  lemma FieldsByName(e: Envelope, x: Json)
    ensures var m := WithVersion(e, x).members;
            && "v" in m && m["v"] == x
            && "id" in m && m["id"] == Str(e.id) && "thread" in m && m["thread"] == Str(e.thread)
            && "from" in m && m["from"] == PartyJson(e.from) && "to" in m && m["to"] == Str(e.to)
            && "state" in m && m["state"] == Str(e.state) && "sent_at" in m && m["sent_at"] == Str(e.sentAt)
            && "ai_generated" in m && m["ai_generated"] == Bool(e.aiGenerated)
            && "body" in m && m["body"] == MessageJson(e.body)
  {
    var vs := FieldValues(e, x);
    NamesMap(vs);
    assert NAMES[0] == "v" && NAMES[1] == "id" && NAMES[2] == "thread" && NAMES[3] == "from" && NAMES[4] == "to";
    assert NAMES[5] == "state" && NAMES[6] == "sent_at" && NAMES[7] == "ai_generated" && NAMES[8] == "body";
  }

  lemma DecodesFields(e: Envelope, x: Json)
    ensures OtherFields(WithVersion(e, x)) == Some(e.(v := VERSION, sig := UNSIGNED))
  {
    FieldsByName(e, x);
    DecodesParty(e.from);
    DecodesMessage(WithVersion(e, x), e.body);
  }

  lemma DecodesVersion(e: Envelope)
    ensures IntAt(UnsignedJson(e), "v") == Some(e.v)
  {
    IntNumberDenotes(e.v);
    FieldsByName(e, Num(IntNumber(e.v)));
  }

  lemma DecodesText(e: Envelope, data: seq<Byte>)
    requires ReadDocument(data) == Some(UnsignedJson(e))
    ensures Decode(data) == if e.v == VERSION then Decoded(e.(sig := UNSIGNED)) else BadVersion
  {
    DecodesFields(e, Num(IntNumber(e.v)));
    DecodesVersion(e);
  }

  /**
   What is signed is the envelope itself: decoding the signed bytes, or the marshalled ones, gives it back but for the
   signature.
   */
  lemma SignedBytesDecode(e: Envelope)
    ensures Decode(SignedBytes(e)) == if e.v == VERSION then Decoded(e.(sig := UNSIGNED)) else BadVersion
    ensures Decode(Written(Marshal(e))) == Decode(SignedBytes(e))
  {
    ReadDocumentOfPrint(UnsignedJson(e));
    DecodesText(e, SignedBytes(e));
    MarshalMeans(e);
    ReadAnySpelling(Element([], Marshal(e), []));
    Bare(Written(Marshal(e)));
    DecodesText(e, Written(Marshal(e)));
  }

  /** And the object signed has exactly its nine names. */
  lemma SignedBytesNames(e: Envelope)
    ensures ReadDocument(SignedBytes(e)).Some? && ReadDocument(SignedBytes(e)).value.Obj?
    ensures forall k :: k in ReadDocument(SignedBytes(e)).value.members <==> k in NAMES
  {
    ReadDocumentOfPrint(UnsignedJson(e));
    NamesMap(FieldValues(e, Num(IntNumber(e.v))));
  }

  /** The number of a version denotes that version. */
  lemma IntNumberDenotes(v: int)
    ensures Denotes(IntNumber(v)) == v as real
  {
    var n: int := if v < 0 then -v else v;
    NormaliseDenotes(v < 0, DigitsOf(n), 0);
    TimesOne(n);
  }

  lemma TimesOne(n: nat)
    ensures Times(n, Pow10(0)) == n as real
  {
  }

  lemma IntNumberInjective(v: int, w: int)
    requires IntNumber(v) == IntNumber(w)
    ensures v == w
  {
    IntNumberDenotes(v);
    IntNumberDenotes(w);
  }

  /** The marshalled value keeps every field but the signature, nil and empty parts apart. */
  lemma UnsignedJsonInjective(e: Envelope, f: Envelope)
    requires UnsignedJson(e) == UnsignedJson(f)
    ensures e.(sig := UNSIGNED) == f.(sig := UNSIGNED)
  {
    OtherFieldsInjective(e, f, Num(IntNumber(e.v)), Num(IntNumber(f.v)));
    FieldsByName(e, Num(IntNumber(e.v)));
    FieldsByName(f, Num(IntNumber(f.v)));
    IntNumberInjective(e.v, f.v);
  }

  /** The members other than the version keep every field but the version and the signature. */
  lemma OtherFieldsInjective(e: Envelope, f: Envelope, x: Json, y: Json)
    requires WithVersion(e, x) == WithVersion(f, y)
    ensures e.(v := VERSION, sig := UNSIGNED) == f.(v := VERSION, sig := UNSIGNED)
  {
    DecodesFields(e, x);
    DecodesFields(f, y);
  }

  /** The signed bytes identify the envelope they were made from. */
  lemma SignedBytesInjective(e: Envelope, f: Envelope)
    ensures SignedBytes(e) == SignedBytes(f) <==> e.(sig := UNSIGNED) == f.(sig := UNSIGNED)
  {
    PrintInjective(UnsignedJson(e), UnsignedJson(f));
    if SignedBytes(e) == SignedBytes(f) {
      UnsignedJsonInjective(e, f);
    }
    if e.(sig := UNSIGNED) == f.(sig := UNSIGNED) {
      assert UnsignedJson(e) == UnsignedJson(e.(sig := UNSIGNED));
      assert UnsignedJson(f) == UnsignedJson(f.(sig := UNSIGNED));
    }
  }

  // ----------------------------------------- versions that are not exact doubles

  predicate NumberFree(v: Json)
    decreases v
  {
    match v
    case Num(_) => false
    case Arr(items) => forall i | 0 <= i < |items| :: NumberFree(items[i])
    case Obj(m) => forall k | k in m :: NumberFree(m[k])
    case _ => true
  }

  lemma {:induction false} RoundedNumberFree(v: Json, round: Rounding)
    requires NumberFree(v)
    ensures Rounded(v, round) == Some(v)
    decreases v
  {
    match v {
      case Arr(items) =>
        forall i | 0 <= i < |items| ensures Rounded(items[i], round) == Some(items[i]) {
          RoundedNumberFree(items[i], round);
        }
        assert Rounded(v, round).value.items == items;
      case Obj(m) =>
        forall k | k in m ensures Rounded(m[k], round) == Some(m[k]) {
          RoundedNumberFree(m[k], round);
        }
        assert Rounded(v, round).value.members == m;
      case _ =>
    }
  }

  /** An object all of whose members but one hold no number changes only there. */
  lemma RoundedMembers(m: map<string, Json>, key: string, d: Double, round: Rounding)
    requires key in m && Rounded(m[key], round) == Some(Num(d))
    requires forall k :: k in m && k != key ==> NumberFree(m[k])
    ensures Rounded(Obj(m), round) == Some(Obj(m[key := Num(d)]))
  {
    forall k | k in m ensures Rounded(m[k], round).Some? && Rounded(m[k], round).value == m[key := Num(d)][k] {
      if k != key {
        RoundedNumberFree(m[k], round);
      }
    }
    assert Rounded(Obj(m), round).value.members == m[key := Num(d)];
  }

  lemma BodyNumberFree(m: Message)
    ensures NumberFree(MessageJson(m))
  {
    if m.parts.Some? {
      var ps := m.parts.value;
      forall i | 0 <= i < |ps| ensures NumberFree(PartJson(ps[i])) {
      }
      assert NumberFree(MessageJson(m).members["parts"]);
    }
  }

  lemma OthersNumberFree(e: Envelope, x: Json, k: string)
    requires k in WithVersion(e, x).members && k != "v"
    ensures NumberFree(WithVersion(e, x).members[k])
  {
    var vs := FieldValues(e, x);
    NamesMap(vs);
    BodyNumberFree(e.body);
    var i :| 0 <= i < 9 && NAMES[i] == k;
    assert NAMES[0] == "v" && NumberFree(PartyJson(e.from));
    assert i != 0 ==> NumberFree(vs[i]);
  }

  lemma {:induction false} PutBefore(names: seq<string>, vs: seq<Json>, acc: map<string, Json>, k: string, v: Json)
    requires |names| == |vs| && k !in names
    ensures MapOf(names, vs, acc)[k := v] == MapOf(names, vs, acc[k := v])
    decreases |names|
  {
    if names == [] {
    } else {
      PutBefore(names[1..], vs[1..], acc[names[0] := vs[0]], k, v);
      assert acc[names[0] := vs[0]][k := v] == acc[k := v][names[0] := vs[0]];
    }
  }

  lemma PutFirst(vs: seq<Json>, y: Json)
    requires |vs| == 9
    ensures |NAMES| == 9 && MapOf(NAMES, vs, map[])["v" := y] == MapOf(NAMES, [y] + vs[1..], map[])
  {
    forall i | 0 < i < 9 ensures NAMES[i] != "v" {
      NamesDistinct(0, i);
    }
    assert NAMES[0] == "v";
    PutBefore(NAMES[1..], vs[1..], map[]["v" := vs[0]], "v", y);
    assert map[]["v" := vs[0]]["v" := y] == map[]["v" := y];
    assert ([y] + vs[1..])[1..] == vs[1..];
  }

  lemma PutVersion(e: Envelope, x: Json, y: Json)
    ensures WithVersion(e, x).members["v" := y] == WithVersion(e, y).members
  {
    PutFirst(FieldValues(e, x), y);
    assert [y] + FieldValues(e, x)[1..] == FieldValues(e, y);
  }

  /** Reading the numbers of a marshalled envelope as doubles can change its version, and nothing else. */
  lemma RoundedEnvelope(e: Envelope, d: Double, round: Rounding)
    requires round(IntNumber(e.v)) == Some(d)
    ensures Rounded(UnsignedJson(e), round) == Some(WithVersion(e, Num(d)))
  {
    var x := Num(IntNumber(e.v));
    var m := WithVersion(e, x).members;
    forall k | k in m && k != "v" ensures NumberFree(m[k]) {
      OthersNumberFree(e, x, k);
    }
    FieldsByName(e, x);
    RoundedMembers(m, "v", d, round);
    PutVersion(e, x, Num(d));
  }

  /** The canonical bytes when numbers go through doubles, as Canonical has them go; None where one is out of range. */
  ghost function BytesThrough(e: Envelope, round: Rounding): Option<seq<Byte>> {
    match Rounded(UnsignedJson(e), round)
    case None => None
    case Some(v) => Some(Print(v))
  }

  /**
   Through doubles the bytes of two envelopes are the same exactly when all other fields agree and the two versions are
   the same double: beyond 2^53 different versions can share their bytes, and no other field can.
   */
  lemma BytesThroughDoubles(e: Envelope, f: Envelope, round: Rounding)
    requires round(IntNumber(e.v)).Some? && round(IntNumber(f.v)).Some?
    ensures BytesThrough(e, round).Some? && BytesThrough(f, round).Some?
    ensures BytesThrough(e, round) == BytesThrough(f, round) <==>
            && e.(v := VERSION, sig := UNSIGNED) == f.(v := VERSION, sig := UNSIGNED)
            && round(IntNumber(e.v)) == round(IntNumber(f.v))
  {
    var c, d := round(IntNumber(e.v)).value, round(IntNumber(f.v)).value;
    RoundedEnvelope(e, c, round);
    RoundedEnvelope(f, d, round);
    PrintInjective(WithVersion(e, Num(c)), WithVersion(f, Num(d)));
    SameVersioned(e, f, Num(c), Num(d));
  }

  lemma SameVersioned(e: Envelope, f: Envelope, x: Json, y: Json)
    ensures WithVersion(e, x) == WithVersion(f, y) <==>
            x == y && e.(v := VERSION, sig := UNSIGNED) == f.(v := VERSION, sig := UNSIGNED)
  {
    if WithVersion(e, x) == WithVersion(f, y) {
      FieldsByName(e, x);
      FieldsByName(f, y);
      OtherFieldsInjective(e, f, x, y);
    }
    if x == y && e.(v := VERSION, sig := UNSIGNED) == f.(v := VERSION, sig := UNSIGNED) {
      SameFields(e, f, x);
    }
  }

  /** The text of a version is no part of the value. */
  lemma SameFields(e: Envelope, f: Envelope, x: Json)
    requires e.(v := VERSION, sig := UNSIGNED) == f.(v := VERSION, sig := UNSIGNED)
    ensures WithVersion(e, x) == WithVersion(f, x)
  {
    assert FieldValues(e, x) == FieldValues(f, x);
  }

  // ------------------------------------------------------------- caps

  datatype Error = ErrBadVersion | ErrTooManyParts | ErrTooLarge | ErrBadSignature | ErrKeyLength

  datatype Checked = Canon(bytes: seq<Byte>) | Refused(error: Error)

  function TextBytes(ps: seq<Part>): nat {
    if ps == [] then 0 else TextBytes(ps[..|ps| - 1]) + |Utf8(ps[|ps| - 1].text)|
  }

  /** The verdict of check: version, then part count, then body text, then whole wire. */
  ghost function Verdict(e: Envelope): Checked {
    if e.v != VERSION then Refused(ErrBadVersion)
    else if |e.body.Parts()| > MAX_PARTS then Refused(ErrTooManyParts)
    else if TextBytes(e.body.Parts()) > MAX_BODY_BYTES then Refused(ErrTooLarge)
    else if |SignedBytes(e)| > MAX_WIRE_BYTES then Refused(ErrTooLarge)
    else Canon(SignedBytes(e))
  }

  /** Version 1; at most 16 parts, 32 KiB of body text and 64 KiB on the wire. */
  ghost predicate WithinCaps(e: Envelope) {
    && e.v == 1
    && |e.body.Parts()| <= 16
    && TextBytes(e.body.Parts()) <= 32768
    && |SignedBytes(e)| <= 65536
  }

  /** Which cap is reported when several are broken. */
  lemma CapsInOrder(e: Envelope)
    ensures Verdict(e) == Canon(SignedBytes(e)) <==> WithinCaps(e)
    ensures Verdict(e) == Refused(ErrBadVersion) <==> e.v != 1
    ensures Verdict(e) == Refused(ErrTooManyParts) <==> e.v == 1 && |e.body.Parts()| > 16
    ensures Verdict(e) == Refused(ErrTooLarge) <==>
            && e.v == 1 && |e.body.Parts()| <= 16
            && (TextBytes(e.body.Parts()) > 32768 || |SignedBytes(e)| > 65536)
  {
  }

  /** Every part's text counts, and nothing else: the bytes of its UTF-8 form. */
  lemma {:induction false} TextBytesAdds(ps: seq<Part>, qs: seq<Part>)
    ensures TextBytes(ps + qs) == TextBytes(ps) + TextBytes(qs)
    ensures forall p: Part :: TextBytes([p]) == |Utf8(p.text)|
    decreases |qs|
  {
    assert forall p: Part :: [p][..0] == [];
    if qs == [] {
      assert ps + qs == ps;
    } else {
      TextBytesAdds(ps, qs[..|qs| - 1]);
      assert (ps + qs)[..|ps + qs| - 1] == ps + qs[..|qs| - 1];
    }
  }

  method BodySize(m: Message) returns (n: nat)
    ensures n == TextBytes(m.Parts())
  {
    var ps := m.Parts();
    n := 0;
    for i := 0 to |ps|
      invariant n == TextBytes(ps[..i])
    {
      assert ps[..i + 1][..i] == ps[..i];
      n := n + |Utf8(ps[i].text)|;
    }
    assert ps[..|ps|] == ps;
  }

  const EXACT: Rounding := n => Some(n)

  lemma {:induction false} RoundedExact(v: Json)
    ensures Rounded(v, EXACT) == Some(v)
    decreases v
  {
    match v {
      case Arr(items) =>
        forall i | 0 <= i < |items| ensures Rounded(items[i], EXACT) == Some(items[i]) {
          RoundedExact(items[i]);
        }
        assert Rounded(v, EXACT).value.items == items;
      case Obj(m) =>
        forall k | k in m ensures Rounded(m[k], EXACT) == Some(m[k]) {
          RoundedExact(m[k]);
        }
        assert Rounded(v, EXACT).value.members == m;
      case _ =>
    }
  }

  /** Canonical: clears the signature, marshals what is left and canonicalises that. */
  method CanonicalForm(e: Envelope) returns (out: seq<Byte>)
    ensures out == SignedBytes(e)
  {
    var raw := Written(Marshal(e));
    MarshalMeans(e);
    CanonicalTextOfSpelling(Marshal(e), EXACT);
    RoundedExact(UnsignedJson(e));
    var canon := Jcs(raw, EXACT);
    out := canon.value;
  }

  method Check(e: Envelope) returns (r: Checked)
    ensures r == Verdict(e)
  {
    if e.v != VERSION {
      return Refused(ErrBadVersion);
    }
    if |e.body.Parts()| > MAX_PARTS {
      return Refused(ErrTooManyParts);
    }
    var n := BodySize(e.body);
    if n > MAX_BODY_BYTES {
      return Refused(ErrTooLarge);
    }
    var canon := CanonicalForm(e);
    if |canon| > MAX_WIRE_BYTES {
      return Refused(ErrTooLarge);
    }
    return Canon(canon);
  }

  // ------------------------------------------------- signing, ideally

  datatype PrivateKey = PrivateKey(id: nat, length: nat) {
    function Public(): PublicKey { PublicKey(id, 32) }
  }

  datatype PublicKey = PublicKey(id: nat, length: nat)

  predicate SignatureHolds(pub: PublicKey, text: seq<Byte>, sig: Signature) {
    sig == Sealed(pub.id, text)
  }

  /** An envelope as Sign's caller holds it. */
  class Outgoing {
    var value: Envelope

    constructor (e: Envelope)
      ensures value == e
    {
      value := e;
    }

    /** Writes a signature over the canonical form, or leaves the envelope as it was. */
    method Sign(priv: PrivateKey) returns (r: Option<Error>)
      modifies this
      ensures r ==
              if priv.length != 64 then Some(ErrKeyLength)
              else if Verdict(old(value)).Refused? then Some(Verdict(old(value)).error) else None
      ensures value == if r.None? then SignedWith(old(value), priv) else old(value)
    {
      if priv.length != 64 {
        return Some(ErrKeyLength);
      }
      var canon := Check(value);
      if canon.Refused? {
        return Some(canon.error);
      }
      value := value.(sig := Sealed(priv.id, canon.bytes));
      return None;
    }
  }

  ghost function SignedWith(e: Envelope, priv: PrivateKey): Envelope {
    e.(sig := Sealed(priv.id, SignedBytes(e)))
  }

  ghost function VerifyVerdict(e: Envelope, pub: PublicKey): Option<Error> {
    match Verdict(e)
    case Refused(err) => Some(err)
    case Canon(canon) =>
      if pub.length == 32 && e.sig.Length() == 64 && SignatureHolds(pub, canon, e.sig) then None
      else Some(ErrBadSignature)
  }

  method Verify(e: Envelope, pub: PublicKey) returns (r: Option<Error>)
    ensures r == VerifyVerdict(e, pub)
  {
    var canon := Check(e);
    if canon.Refused? {
      return Some(canon.error);
    }
    if pub.length != 32 || e.sig.Length() != 64 {
      return Some(ErrBadSignature);
    }
    if !SignatureHolds(pub, canon.bytes, e.sig) {
      return Some(ErrBadSignature);
    }
    return None;
  }

  /**
   Tamper evidence: an envelope carrying a signature Sign made passes Verify with the matching key
   exactly when it equals the signed envelope in every field but the signature.
   */
  lemma TamperEvident(e: Envelope, priv: PrivateKey, f: Envelope)
    requires WithinCaps(e) && f.sig == SignedWith(e, priv).sig
    ensures VerifyVerdict(f, priv.Public()) == None <==> f.(sig := UNSIGNED) == e.(sig := UNSIGNED)
  {
    SignedBytesInjective(e, f);
  }

  /** Only a signature made over these very bytes with the matching private key is accepted. */
  lemma AcceptedOnlyIfSigned(f: Envelope, pub: PublicKey)
    requires VerifyVerdict(f, pub) == None
    ensures f == SignedWith(f, PrivateKey(pub.id, 64)) && WithinCaps(f)
  {
  }

  /** Everything Sign signs meets the caps, and Verify accepts it. */
  lemma SignedThenAccepted(e: Envelope, priv: PrivateKey)
    ensures Verdict(e).Canon? <==> WithinCaps(e)
    ensures WithinCaps(e) ==> VerifyVerdict(SignedWith(e, priv), priv.Public()) == None
    ensures WithinCaps(e) <==> WithinCaps(SignedWith(e, priv))
  {
    SignedBytesInjective(e, SignedWith(e, priv));
  }
}
