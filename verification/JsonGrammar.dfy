/**
 The JSON grammar (RFC 8259) as written text: every way to spell a value, and the value it spells.  Nothing here reads.
 */
module JsonGrammar {
  import opened Base
  import opened Decimal
  import opened JsonText
  import opened Canonical

  // --------------------------------------------------------------- values

  predicate IsSpace(b: Byte) { b == 0x20 || b == 0x09 || b == 0x0A || b == 0x0D }

  predicate Spaces(b: seq<Byte>) { forall i :: 0 <= i < |b| ==> IsSpace(b[i]) }

  /** A value as written.  An exponent may have a capital E, and a positive one may do without its sign. */
  datatype Syntax =
    | Literal(v: Json)
    | Text(pieces: seq<Piece>)
    | Number(u: Numeral, capital: bool, plus: bool)
    | List(gap: seq<Byte>, items: seq<Element>)
    | Object(gap: seq<Byte>, members: seq<Member>)

  /** A value and the space around it. */
  datatype Element = Element(before: seq<Byte>, value: Syntax, after: seq<Byte>)

  datatype Member = Member(before: seq<Byte>, name: seq<Piece>, colon: seq<Byte>, element: Element)

  predicate Valid(s: Syntax)
    decreases s
  {
    match s
    case Literal(v) => v.Null? || v.Bool?
    case Text(ps) => ValidText(ps)
    case Number(u, _, _) => u.Grammatical()
    case List(gap, items) => Spaces(gap) && (items != [] ==> gap == []) && ValidItems(items)
    case Object(gap, members) => Spaces(gap) && (members != [] ==> gap == []) && ValidMembers(members)
  }

  predicate ValidElement(e: Element)
    decreases e
  {
    Spaces(e.before) && Valid(e.value) && Spaces(e.after)
  }

  predicate ValidItems(items: seq<Element>)
    decreases items
  {
    items == [] || (ValidElement(items[0]) && ValidItems(items[1..]))
  }

  predicate ValidMember(m: Member)
    decreases m
  {
    Spaces(m.before) && ValidText(m.name) && Spaces(m.colon) && ValidElement(m.element)
  }

  predicate ValidMembers(members: seq<Member>)
    decreases members
  {
    members == [] || (ValidMember(members[0]) && ValidMembers(members[1..]))
  }

  // ------------------------------------------------------ the text written

  function Written(s: Syntax): seq<Byte>
    decreases s
  {
    match s
    case Literal(v) => if v == Bool(true) then TRUE else if v == Bool(false) then FALSE else NULL
    case Text(ps) => Quoted(ps)
    case Number(u, capital, plus) => WrittenNumber(u, capital, plus)
    case List(gap, items) => [LBRACKET] + (gap + (WrittenItems(items) + [RBRACKET]))
    case Object(gap, members) => [LBRACE] + (gap + (WrittenMembers(members) + [RBRACE]))
  }

  function WrittenElement(e: Element): seq<Byte>
    decreases e
  {
    e.before + (Written(e.value) + e.after)
  }

  function WrittenItems(items: seq<Element>): seq<Byte>
    decreases items
  {
    if items == [] then []
    else WrittenElement(items[0]) + if |items| == 1 then [] else [COMMA] + WrittenItems(items[1..])
  }

  function WrittenName(m: Member): seq<Byte> {
    m.before + (Quoted(m.name) + (m.colon + [COLON]))
  }

  function WrittenMember(m: Member): seq<Byte>
    decreases m
  {
    WrittenName(m) + WrittenElement(m.element)
  }

  function WrittenMembers(members: seq<Member>): seq<Byte>
    decreases members
  {
    if members == [] then []
    else WrittenMember(members[0]) + if |members| == 1 then [] else [COMMA] + WrittenMembers(members[1..])
  }

  // ---------------------------------------------------- the value it spells

  function Value(s: Syntax): Json
    decreases s
  {
    match s
    case Literal(v) => v
    case Text(ps) => Str(StringOf(ps))
    case Number(u, _, _) => Num(u.Value())
    case List(_, items) => Arr(Values(items))
    case Object(_, members) => Obj(Collected(members, map[]))
  }

  function ValueOf(e: Element): Json
    decreases e
  {
    Value(e.value)
  }

  function Values(items: seq<Element>): seq<Json>
    decreases items
  {
    if items == [] then [] else [ValueOf(items[0])] + Values(items[1..])
  }

  function MemberValue(m: Member): Json
    decreases m
  {
    ValueOf(m.element)
  }

  /** The members in order, a repeated name keeping its last value. */
  function Collected(members: seq<Member>, acc: map<string, Json>): map<string, Json>
    decreases members
  {
    if members == [] then acc
    else Collected(members[1..], acc[StringOf(members[0].name) := MemberValue(members[0])])
  }
}
