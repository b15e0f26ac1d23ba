/** A reader for JSON documents, and what it proves about the canonical form. */
module JsonReader {
  import opened Base
  import opened Decimal
  import opened JsonText
  import opened JsonString
  import opened Canonical
  import opened JsonGrammar

  function SkipSpace(b: seq<Byte>): (r: seq<Byte>)
    ensures |r| <= |b|
  {
    if b != [] && IsSpace(b[0]) then SkipSpace(b[1..]) else b
  }

  // ---------------------------------------------------------- the grammar

  function ReadValue(b: seq<Byte>): (p: Parsed<Json>)
    ensures p.Ok? ==> |p.rest| < |b|
    decreases |b|, 1
  {
    var t := SkipSpace(b);
    if t == [] then Fail
    else if t[0] == QUOTE then
      match ReadStringBody(t[1..])
      case Fail => Fail
      case Ok(s, rest) => Ok(Str(s), rest)
    else if t[0] == LBRACKET then ReadArray(t[1..])
    else if t[0] == LBRACE then ReadObject(t[1..])
    else if t[0] == 110 then ReadWord(t, NULL, Null)
    else if t[0] == 116 then ReadWord(t, TRUE, Bool(true))
    else if t[0] == 102 then ReadWord(t, FALSE, Bool(false))
    else ReadNumber(t)
  }

  function ReadWord(b: seq<Byte>, word: seq<Byte>, v: Json): (p: Parsed<Json>)
    requires word != []
    ensures p.Ok? ==> |p.rest| < |b|
  {
    if word <= b then Ok(v, b[|word|..]) else Fail
  }

  function ReadNumber(b: seq<Byte>): (p: Parsed<Json>)
    ensures p.Ok? ==> |p.rest| < |b|
  {
    match ReadNumeral(b)
    case Fail => Fail
    case Ok(u, rest) => Ok(Num(u.Value()), rest)
  }

  function ReadArray(b: seq<Byte>): (p: Parsed<Json>)
    ensures p.Ok? ==> |p.rest| < |b|
    decreases |b|, 3
  {
    var t := SkipSpace(b);
    if t != [] && t[0] == RBRACKET then Ok(Arr([]), t[1..])
    else
      match ReadItems(t)
      case Fail => Fail
      case Ok(items, rest) => Ok(Arr(items), rest)
  }

  function ReadItems(b: seq<Byte>): (p: Parsed<seq<Json>>)
    ensures p.Ok? ==> |p.rest| < |b|
    decreases |b|, 2
  {
    match ReadValue(b)
    case Fail => Fail
    case Ok(v, r) =>
      var t := SkipSpace(r);
      if t == [] then Fail
      else if t[0] == RBRACKET then Ok([v], t[1..])
      else if t[0] == COMMA then
        match ReadItems(t[1..])
        case Fail => Fail
        case Ok(vs, rest) => Ok([v] + vs, rest)
      else Fail
  }

  function ReadObject(b: seq<Byte>): (p: Parsed<Json>)
    ensures p.Ok? ==> |p.rest| < |b|
    decreases |b|, 3
  {
    var t := SkipSpace(b);
    if t != [] && t[0] == RBRACE then Ok(Obj(map[]), t[1..])
    else
      match ReadMembers(t, map[])
      case Fail => Fail
      case Ok(m, rest) => Ok(Obj(m), rest)
  }

  /** A repeated member name keeps its last value. */
  function ReadMembers(b: seq<Byte>, acc: map<string, Json>): (p: Parsed<map<string, Json>>)
    ensures p.Ok? ==> |p.rest| < |b|
    decreases |b|, 2
  {
    match ReadName(b)
    case Fail => Fail
    case Ok(k, r1) =>
      match ReadValue(r1)
      case Fail => Fail
      case Ok(v, r2) =>
        var t := SkipSpace(r2);
        if t == [] then Fail
        else if t[0] == RBRACE then Ok(acc[k := v], t[1..])
        else if t[0] == COMMA then ReadMembers(t[1..], acc[k := v])
        else Fail
  }

  /** A member name and its colon. */
  function ReadName(b: seq<Byte>): (p: Parsed<string>)
    ensures p.Ok? ==> |p.rest| < |b|
  {
    var t := SkipSpace(b);
    if t == [] || t[0] != QUOTE then Fail
    else
      match ReadStringBody(t[1..])
      case Fail => Fail
      case Ok(k, r) =>
        var c := SkipSpace(r);
        if c == [] || c[0] != COLON then Fail else Ok(k, c[1..])
  }

  /** One document and nothing but space after it. */
  function ReadDocument(data: seq<Byte>): Option<Json> {
    match ReadValue(data)
    case Fail => None
    case Ok(v, rest) => if SkipSpace(rest) == [] then Some(v) else None
  }

  // ------------------------------------------------ every spelling is read

  lemma {:induction false} SkipSpaces(ws: seq<Byte>, b: seq<Byte>)
    requires Spaces(ws) && (b == [] || !IsSpace(b[0]))
    ensures SkipSpace(ws + b) == b && SkipSpace(b) == b
    decreases |ws|
  {
    if ws == [] {
      assert ws + b == b;
    } else {
      assert (ws + b)[1..] == ws[1..] + b;
      SkipSpaces(ws[1..], b);
    }
  }

  lemma {:induction false} SkipTwice(b: seq<Byte>)
    ensures SkipSpace(SkipSpace(b)) == SkipSpace(b)
    decreases |b|
  {
    if b != [] && IsSpace(b[0]) {
      SkipTwice(b[1..]);
    }
  }

  /** No value starts with space, a closing bracket or a comma. */
  lemma WrittenHead(s: Syntax)
    requires Valid(s)
    ensures Written(s) != [] && !IsSpace(Written(s)[0])
    ensures Written(s)[0] != RBRACKET && Written(s)[0] != RBRACE
  {
    if s.Number? {
      NumberHead(s.u, s.capital, s.plus);
    }
  }

  lemma NumberHead(u: Numeral, capital: bool, plus: bool)
    requires u.Grammatical()
    ensures var b := WrittenNumber(u, capital, plus); b != [] && (IsDigit(b[0]) || b[0] == MINUS)
  {
    assert Ascii(u.whole)[0] == AsciiDigit(u.whole[0]);
  }

  /** A value written, with space before it and anything that ends it after, reads as the value it spells. */
  ghost predicate Reads(s: Syntax, before: seq<Byte>, rest: seq<Byte>) {
    ReadValue(before + (Written(s) + rest)) == Ok(Value(s), rest)
  }

  lemma ReadsAfterSpace(s: Syntax, before: seq<Byte>, rest: seq<Byte>)
    requires Valid(s) && Spaces(before) && ReadValue(Written(s) + rest) == Ok(Value(s), rest)
    ensures Reads(s, before, rest)
  {
    WrittenHead(s);
    SkipSpaces(before, Written(s) + rest);
  }

  lemma {:induction false} ReadWritten(s: Syntax, before: seq<Byte>, rest: seq<Byte>)
    requires Valid(s) && Spaces(before) && EndsNumeral(rest)
    ensures Reads(s, before, rest)
    decreases s
  {
    match s {
      case Literal(_) => ReadWrittenWord(s, rest);
      case Text(ps) => ReadWrittenText(ps, rest);
      case Number(u, capital, plus) => ReadWrittenNumber(u, capital, plus, rest);
      case List(gap, items) =>
        if items == [] {
        } else {
          ReadWrittenItems(items, rest);
        }
        ReadWrittenList(gap, items, rest);
      case Object(gap, members) =>
        if members == [] {
        } else {
          ReadWrittenMembers(members, map[], rest);
        }
        ReadWrittenObject(gap, members, rest);
    }
    ReadsAfterSpace(s, before, rest);
  }

  lemma ReadWrittenWord(s: Syntax, rest: seq<Byte>)
    requires Valid(s) && s.Literal?
    ensures ReadValue(Written(s) + rest) == Ok(Value(s), rest)
  {
    var word := Written(s);
    ReadWordOf(word, s.v, rest);
    assert (word + rest)[0] == word[0];
  }

  lemma ReadWordOf(word: seq<Byte>, v: Json, rest: seq<Byte>)
    requires word != []
    ensures ReadWord(word + rest, word, v) == Ok(v, rest)
  {
    assert (word + rest)[..|word|] == word && (word + rest)[|word|..] == rest;
  }

  lemma ReadWrittenText(ps: seq<Piece>, rest: seq<Byte>)
    requires ValidText(ps)
    ensures ReadValue(Quoted(ps) + rest) == Ok(Str(StringOf(ps)), rest)
  {
    var b := Quoted(ps) + rest;
    ReadText(ps, rest);
    Unquote(TextOf(ps), rest);
  }

  lemma ReadWrittenNumber(u: Numeral, capital: bool, plus: bool, rest: seq<Byte>)
    requires u.Grammatical() && EndsNumeral(rest)
    ensures ReadValue(WrittenNumber(u, capital, plus) + rest) == Ok(Num(u.Value()), rest)
  {
    NumberHead(u, capital, plus);
    ReadNumeralOfWritten(u, capital, plus, rest);
    ReadValueIsNumber(WrittenNumber(u, capital, plus) + rest);
  }

  lemma ReadValueIsNumber(b: seq<Byte>)
    requires b != [] && (IsDigit(b[0]) || b[0] == MINUS)
    ensures ReadValue(b) == ReadNumber(b)
  {
    var t := SkipSpace(b);
    assert t == b;
    assert t[0] != QUOTE && t[0] != LBRACKET && t[0] != LBRACE;
    assert t[0] != 110 && t[0] != 116 && t[0] != 102;
  }

  // Arrays.

  lemma ReadWrittenList(gap: seq<Byte>, items: seq<Element>, rest: seq<Byte>)
    requires Valid(List(gap, items))
    requires items != [] ==> ReadItems(WrittenItems(items) + ([RBRACKET] + rest)) == Ok(Values(items), rest)
    ensures ReadValue(Written(List(gap, items)) + rest) == Ok(Value(List(gap, items)), rest)
  {
    var inner := gap + (WrittenItems(items) + ([RBRACKET] + rest));
    Bracketed(LBRACKET, gap, WrittenItems(items), RBRACKET, rest);
    OpensList(Written(List(gap, items)) + rest);
    if items == [] {
      assert WrittenItems(items) + ([RBRACKET] + rest) == [RBRACKET] + rest;
      SkipSpaces(gap, [RBRACKET] + rest);
    } else {
      assert inner == WrittenItems(items) + ([RBRACKET] + rest);
      ItemsHead(items, [RBRACKET] + rest);
      ReadItemsSkips(inner);
    }
  }

  lemma OpensList(b: seq<Byte>)
    requires b != [] && b[0] == LBRACKET
    ensures ReadValue(b) == ReadArray(b[1..])
  {
    assert SkipSpace(b) == b;
  }

  lemma OpensObject(b: seq<Byte>)
    requires b != [] && b[0] == LBRACE
    ensures ReadValue(b) == ReadObject(b[1..])
  {
    assert SkipSpace(b) == b;
  }

  lemma Bracketed(open: Byte, gap: seq<Byte>, body: seq<Byte>, close: Byte, rest: seq<Byte>)
    ensures var b := [open] + (gap + (body + [close])) + rest;
            b[0] == open && b[1..] == gap + (body + ([close] + rest))
  {
    Assoc(gap, body + [close], rest);
    Assoc(body, [close], rest);
    assert [open] + (gap + (body + [close])) + rest == [open] + (gap + (body + [close]) + rest);
  }

  /** After leading space, an array's items do not start with its closing bracket. */
  lemma ItemsHead(items: seq<Element>, tail: seq<Byte>)
    requires items != [] && ValidItems(items)
    ensures var t := SkipSpace(WrittenItems(items) + tail); t != [] && t[0] != RBRACKET
  {
    var e := items[0];
    var more := if |items| == 1 then [] else [COMMA] + WrittenItems(items[1..]);
    ElementText(e, more, tail);
    WrittenHead(e.value);
    SkipSpaces(e.before, Written(e.value) + (e.after + (more + tail)));
  }

  lemma ElementText(e: Element, more: seq<Byte>, tail: seq<Byte>)
    ensures WrittenElement(e) + more + tail == e.before + (Written(e.value) + (e.after + (more + tail)))
  {
    Assoc(e.before + (Written(e.value) + e.after), more, tail);
    Assoc(e.before, Written(e.value) + e.after, more + tail);
    Assoc(Written(e.value), e.after, more + tail);
  }

  lemma ReadItemsSkips(b: seq<Byte>)
    ensures ReadItems(SkipSpace(b)) == ReadItems(b)
  {
    ReadValueSkips(b);
  }

  lemma ReadValueSkips(b: seq<Byte>)
    ensures ReadValue(SkipSpace(b)) == ReadValue(b)
  {
    SkipTwice(b);
  }

  /** Space and the end of an element end a number before it. */
  lemma EndsAfterSpace(ws: seq<Byte>, tail: seq<Byte>)
    requires Spaces(ws) && tail != [] && (tail[0] == COMMA || tail[0] == RBRACKET || tail[0] == RBRACE)
    ensures EndsNumeral(ws + tail) && SkipSpace(ws + tail) == tail
  {
    SkipSpaces(ws, tail);
  }

  /** What is left after one element: its closing bracket, or a comma and the others. */
  lemma Tail(more: seq<Byte>, close: Byte, rest: seq<Byte>)
    ensures var tail := more + ([close] + rest);
            && tail != []
            && (more == [] ==> tail[0] == close && tail[1..] == rest)
            && (more != [] ==> tail[0] == more[0] && tail[1..] == more[1..] + ([close] + rest))
  {
  }

  lemma ReadItemsStep(b: seq<Byte>, x: Json, after: seq<Byte>, tail: seq<Byte>)
    requires ReadValue(b) == Ok(x, after) && SkipSpace(after) == tail
    requires tail != [] && (tail[0] == RBRACKET || tail[0] == COMMA)
    ensures tail[0] == RBRACKET ==> ReadItems(b) == Ok([x], tail[1..])
    ensures tail[0] == COMMA && ReadItems(tail[1..]).Ok? ==>
              ReadItems(b) == Ok([x] + ReadItems(tail[1..]).value, ReadItems(tail[1..]).rest)
  {
  }

  lemma {:induction false} ReadWrittenItems(items: seq<Element>, rest: seq<Byte>)
    requires items != [] && ValidItems(items)
    ensures ReadItems(WrittenItems(items) + ([RBRACKET] + rest)) == Ok(Values(items), rest)
    decreases items
  {
    var e := items[0];
    var more := if |items| == 1 then [] else [COMMA] + WrittenItems(items[1..]);
    var tail := more + ([RBRACKET] + rest);
    Tail(more, RBRACKET, rest);
    ElementText(e, more, [RBRACKET] + rest);
    EndsAfterSpace(e.after, tail);
    ReadWrittenElement(e, tail);
    ReadItemsStep(WrittenItems(items) + ([RBRACKET] + rest), ValueOf(e), e.after + tail, tail);
    if |items| == 1 {
      assert items[1..] == [];
      assert Values(items) == [ValueOf(e)];
    } else {
      assert more[1..] == WrittenItems(items[1..]);
      ReadWrittenItems(items[1..], rest);
    }
  }

  lemma {:induction false} ReadWrittenElement(e: Element, tail: seq<Byte>)
    requires ValidElement(e) && EndsNumeral(e.after + tail)
    ensures ReadValue(e.before + (Written(e.value) + (e.after + tail))) == Ok(ValueOf(e), e.after + tail)
    decreases e
  {
    ReadWritten(e.value, e.before, e.after + tail);
  }

  // Objects.

  lemma ReadWrittenObject(gap: seq<Byte>, members: seq<Member>, rest: seq<Byte>)
    requires Valid(Object(gap, members))
    requires members != [] ==>
               ReadMembers(WrittenMembers(members) + ([RBRACE] + rest), map[]) == Ok(Collected(members, map[]), rest)
    ensures ReadValue(Written(Object(gap, members)) + rest) == Ok(Value(Object(gap, members)), rest)
  {
    var inner := gap + (WrittenMembers(members) + ([RBRACE] + rest));
    Bracketed(LBRACE, gap, WrittenMembers(members), RBRACE, rest);
    OpensObject(Written(Object(gap, members)) + rest);
    if members == [] {
      assert WrittenMembers(members) + ([RBRACE] + rest) == [RBRACE] + rest;
      SkipSpaces(gap, [RBRACE] + rest);
    } else {
      assert inner == WrittenMembers(members) + ([RBRACE] + rest);
      MembersHead(members, [RBRACE] + rest);
      ReadMembersSkips(inner);
    }
  }

  lemma MemberText(m: Member, more: seq<Byte>, tail: seq<Byte>)
    ensures WrittenMember(m) + more + tail ==
            m.before + ([QUOTE] + (TextOf(m.name) + [QUOTE] +
               (m.colon + ([COLON] + (WrittenElement(m.element) + more + tail)))))
  {
    var e := WrittenElement(m.element);
    Assoc(WrittenName(m) + e, more, tail);
    Assoc(WrittenName(m), e, more + tail);
    Assoc(e, more, tail);
    Assoc(m.before, Quoted(m.name) + (m.colon + [COLON]), e + (more + tail));
    Assoc(Quoted(m.name), m.colon + [COLON], e + (more + tail));
    Assoc(m.colon, [COLON], e + (more + tail));
    Assoc([QUOTE], TextOf(m.name) + [QUOTE], m.colon + ([COLON] + (e + (more + tail))));
    Assoc([QUOTE], TextOf(m.name), [QUOTE]);
  }

  lemma MembersHead(members: seq<Member>, tail: seq<Byte>)
    requires members != [] && ValidMembers(members)
    ensures var t := SkipSpace(WrittenMembers(members) + tail); t != [] && t[0] == QUOTE
  {
    var m := members[0];
    var more := if |members| == 1 then [] else [COMMA] + WrittenMembers(members[1..]);
    MemberText(m, more, tail);
    SkipSpaces(m.before, [QUOTE] + (TextOf(m.name) + [QUOTE] +
                                    (m.colon + ([COLON] + (WrittenElement(m.element) + more + tail)))));
  }

  lemma ReadMembersSkips(b: seq<Byte>)
    ensures forall acc :: ReadMembers(SkipSpace(b), acc) == ReadMembers(b, acc)
  {
    SkipTwice(b);
  }

  lemma ReadWrittenName(m: Member, text: seq<Byte>)
    requires ValidMember(m)
    ensures ReadName(m.before + ([QUOTE] + (TextOf(m.name) + [QUOTE] + (m.colon + ([COLON] + text))))) ==
            Ok(StringOf(m.name), text)
  {
    var after := m.colon + ([COLON] + text);
    var t := [QUOTE] + (TextOf(m.name) + [QUOTE] + after);
    SkipSpaces(m.before, t);
    assert t[1..] == TextOf(m.name) + [QUOTE] + after;
    ReadText(m.name, after);
    SkipSpaces(m.colon, [COLON] + text);
  }

  lemma ReadMembersStep(b: seq<Byte>, acc: map<string, Json>, k: string, text: seq<Byte>, x: Json,
                        after: seq<Byte>, tail: seq<Byte>)
    requires ReadName(b) == Ok(k, text) && ReadValue(text) == Ok(x, after) && SkipSpace(after) == tail
    requires tail != [] && (tail[0] == RBRACE || tail[0] == COMMA)
    ensures ReadMembers(b, acc) ==
            if tail[0] == RBRACE then Ok(acc[k := x], tail[1..]) else ReadMembers(tail[1..], acc[k := x])
  {
  }

  lemma {:induction false} ReadWrittenMembers(members: seq<Member>, acc: map<string, Json>, rest: seq<Byte>)
    requires members != [] && ValidMembers(members)
    ensures ReadMembers(WrittenMembers(members) + ([RBRACE] + rest), acc) == Ok(Collected(members, acc), rest)
    decreases members
  {
    var m := members[0];
    var more := if |members| == 1 then [] else [COMMA] + WrittenMembers(members[1..]);
    var tail, text := more + ([RBRACE] + rest), WrittenElement(m.element) + more + ([RBRACE] + rest);
    Tail(more, RBRACE, rest);
    MemberText(m, more, [RBRACE] + rest);
    ReadWrittenName(m, text);
    ElementText(m.element, more, [RBRACE] + rest);
    assert ValidMember(m) && ValidElement(m.element);
    EndsAfterSpace(m.element.after, tail);
    ReadWrittenMember(m, tail);
    ReadMembersStep(WrittenMembers(members) + ([RBRACE] + rest), acc, StringOf(m.name), text, MemberValue(m),
                    m.element.after + tail, tail);
    if |members| == 1 {
      assert members[1..] == [];
    } else {
      assert more[1..] == WrittenMembers(members[1..]);
      ReadWrittenMembers(members[1..], acc[StringOf(m.name) := MemberValue(m)], rest);
    }
  }

  lemma {:induction false} ReadWrittenMember(m: Member, tail: seq<Byte>)
    requires ValidMember(m) && EndsNumeral(m.element.after + tail)
    ensures ReadValue(m.element.before + (Written(m.element.value) + (m.element.after + tail))) ==
            Ok(MemberValue(m), m.element.after + tail)
    decreases m
  {
    ReadWrittenElement(m.element, tail);
  }

  // ------------------------------------------------- and nothing else is

  lemma {:induction false} SkipSplit(b: seq<Byte>) returns (ws: seq<Byte>)
    ensures Spaces(ws) && b == ws + SkipSpace(b)
    ensures SkipSpace(b) == [] || !IsSpace(SkipSpace(b)[0])
    decreases |b|
  {
    if b == [] || !IsSpace(b[0]) {
      ws := [];
    } else {
      var more := SkipSplit(b[1..]);
      ws := [b[0]] + more;
      assert b == [b[0]] + b[1..];
    }
  }

  /** `s` is a spelling of `v` that, with `rest` after it, is the text `b`. */
  ghost predicate Spelling(s: Syntax, v: Json, b: seq<Byte>, rest: seq<Byte>) {
    Valid(s) && Value(s) == v && b == Written(s) + rest
  }

  lemma {:induction false} OnlyWritten(b: seq<Byte>) returns (ws: seq<Byte>, s: Syntax)
    requires ReadValue(b).Ok?
    ensures Spaces(ws) && b == ws + SkipSpace(b) && Spelling(s, ReadValue(b).value, SkipSpace(b), ReadValue(b).rest)
    decreases |b|, 1
  {
    ws := SkipSplit(b);
    var t := SkipSpace(b);
    if t[0] == LBRACKET {
      s := OnlyList(t[1..]);
      OpenText(t, LBRACKET);
    } else if t[0] == LBRACE {
      s := OnlyObject(t[1..]);
      OpenText(t, LBRACE);
    } else {
      SkipTwice(b);
      s := OnlyScalar(t);
    }
  }

  lemma OnlyScalar(t: seq<Byte>) returns (s: Syntax)
    requires ReadValue(t).Ok? && SkipSpace(t) == t && t[0] != LBRACKET && t[0] != LBRACE
    ensures Spelling(s, ReadValue(t).value, t, ReadValue(t).rest)
  {
    if t[0] == QUOTE {
      var ps := OnlyText(t[1..]);
      s := Text(ps);
      OpenText(t, QUOTE);
      QuotedText(ps, ReadValue(t).rest);
    } else if t[0] == 110 || t[0] == 116 || t[0] == 102 {
      s := Literal(ReadValue(t).value);
      OnlyWord(t);
    } else {
      var capital, plus := OnlyNumeral(t);
      s := Number(ReadNumeral(t).value, capital, plus);
    }
  }

  lemma QuotedText(ps: seq<Piece>, rest: seq<Byte>)
    ensures Quoted(ps) + rest == [QUOTE] + (TextOf(ps) + [QUOTE] + rest)
  {
  }

  lemma OnlyWord(t: seq<Byte>)
    requires t != [] && (t[0] == 110 || t[0] == 116 || t[0] == 102) && ReadValue(t).Ok? && SkipSpace(t) == t
    ensures Spelling(Literal(ReadValue(t).value), ReadValue(t).value, t, ReadValue(t).rest)
  {
    var word := if t[0] == 110 then NULL else if t[0] == 116 then TRUE else FALSE;
    assert t == word + t[|word|..];
  }

  lemma {:induction false} OnlyList(b: seq<Byte>) returns (s: Syntax)
    requires ReadArray(b).Ok?
    ensures Spelling(s, ReadArray(b).value, [LBRACKET] + b, ReadArray(b).rest)
    decreases |b|, 4
  {
    var t := SkipSpace(b);
    if t != [] && t[0] == RBRACKET {
      var ws := SkipSplit(b);
      s := List(ws, []);
      EmptyList(ws, b, t);
    } else {
      ReadItemsSkips(b);
      var items := OnlyItems(b);
      s := List([], items);
      FullList(items, ReadItems(b).value, b, ReadItems(b).rest);
    }
  }

  lemma EmptyList(ws: seq<Byte>, b: seq<Byte>, t: seq<Byte>)
    requires Spaces(ws) && b == ws + t && t != [] && t[0] == RBRACKET
    ensures Spelling(List(ws, []), Arr([]), [LBRACKET] + b, t[1..])
  {
    assert t == [RBRACKET] + t[1..];
    Bracketed(LBRACKET, ws, [], RBRACKET, t[1..]);
    OpenText(Written(List(ws, [])) + t[1..], LBRACKET);
    assert [] + ([RBRACKET] + t[1..]) == [RBRACKET] + t[1..];
  }

  lemma FullList(items: seq<Element>, vs: seq<Json>, b: seq<Byte>, rest: seq<Byte>)
    requires ItemsSpelling(items, vs, b, rest)
    ensures Spelling(List([], items), Arr(vs), [LBRACKET] + b, rest)
  {
    Bracketed(LBRACKET, [], WrittenItems(items), RBRACKET, rest);
    OpenText(Written(List([], items)) + rest, LBRACKET);
    assert [] + b == b;
  }

  lemma OpenText(b: seq<Byte>, open: Byte)
    requires b != [] && b[0] == open
    ensures b == [open] + b[1..]
  {
  }

  /** The elements of a list, up to its closing bracket. */
  ghost predicate ItemsSpelling(items: seq<Element>, vs: seq<Json>, b: seq<Byte>, rest: seq<Byte>) {
    items != [] && ValidItems(items) && Values(items) == vs && b == WrittenItems(items) + ([RBRACKET] + rest)
  }

  lemma {:induction false} OnlyItems(b: seq<Byte>) returns (items: seq<Element>)
    requires ReadItems(b).Ok?
    ensures ItemsSpelling(items, ReadItems(b).value, b, ReadItems(b).rest)
    decreases |b|, 3
  {
    var e, t := OnlyElement(b);
    if t[0] == RBRACKET {
      items := [e];
      LastItem(e, b, t);
    } else {
      var more := OnlyItems(t[1..]);
      items := [e] + more;
      MoreItems(e, more, ReadItems(t[1..]).value, b, t, ReadItems(b).rest);
    }
  }

  /** An element and what comes after it. */
  lemma {:induction false} OnlyElement(b: seq<Byte>) returns (e: Element, t: seq<Byte>)
    requires ReadValue(b).Ok? && SkipSpace(ReadValue(b).rest) != []
    ensures ValidElement(e) && ValueOf(e) == ReadValue(b).value
    ensures t == SkipSpace(ReadValue(b).rest) && b == WrittenElement(e) + t && |t| < |b|
    decreases |b|, 2
  {
    var before, s := OnlyWritten(b);
    var after := SkipSplit(ReadValue(b).rest);
    t := SkipSpace(ReadValue(b).rest);
    e := Element(before, s, after);
    Assoc(before, Written(s) + after, t);
    Assoc(Written(s), after, t);
  }

  lemma LastItem(e: Element, b: seq<Byte>, t: seq<Byte>)
    requires ValidElement(e) && b == WrittenElement(e) + t && t != [] && t[0] == RBRACKET
    ensures ItemsSpelling([e], [ValueOf(e)], b, t[1..])
  {
    assert t == [RBRACKET] + t[1..];
    assert WrittenItems([e]) == WrittenElement(e) + [] == WrittenElement(e);
    assert [e][1..] == [];
  }

  lemma MoreItems(e: Element, more: seq<Element>, vs: seq<Json>, b: seq<Byte>, t: seq<Byte>, rest: seq<Byte>)
    requires ValidElement(e) && b == WrittenElement(e) + t && t != [] && t[0] == COMMA
    requires ItemsSpelling(more, vs, t[1..], rest)
    ensures ItemsSpelling([e] + more, [ValueOf(e)] + vs, b, rest)
  {
    var items := [e] + more;
    assert items[1..] == more && items[0] == e;
    assert t == [COMMA] + (WrittenItems(more) + ([RBRACKET] + rest));
    Assoc([COMMA], WrittenItems(more), [RBRACKET] + rest);
    Assoc(WrittenElement(e), [COMMA] + WrittenItems(more), [RBRACKET] + rest);
  }

  lemma {:induction false} OnlyObject(b: seq<Byte>) returns (s: Syntax)
    requires ReadObject(b).Ok?
    ensures Spelling(s, ReadObject(b).value, [LBRACE] + b, ReadObject(b).rest)
    decreases |b|, 4
  {
    var t := SkipSpace(b);
    if t != [] && t[0] == RBRACE {
      var ws := SkipSplit(b);
      s := Object(ws, []);
      EmptyObject(ws, b, t);
    } else {
      ReadMembersSkips(b);
      var members := OnlyMembers(b, map[]);
      s := Object([], members);
      FullObject(members, ReadMembers(b, map[]).value, b, ReadMembers(b, map[]).rest);
    }
  }

  lemma EmptyObject(ws: seq<Byte>, b: seq<Byte>, t: seq<Byte>)
    requires Spaces(ws) && b == ws + t && t != [] && t[0] == RBRACE
    ensures Spelling(Object(ws, []), Obj(map[]), [LBRACE] + b, t[1..])
  {
    assert t == [RBRACE] + t[1..];
    Bracketed(LBRACE, ws, [], RBRACE, t[1..]);
    OpenText(Written(Object(ws, [])) + t[1..], LBRACE);
    assert [] + ([RBRACE] + t[1..]) == [RBRACE] + t[1..];
  }

  lemma FullObject(members: seq<Member>, m: map<string, Json>, b: seq<Byte>, rest: seq<Byte>)
    requires MembersSpelling(members, map[], m, b, rest)
    ensures Spelling(Object([], members), Obj(m), [LBRACE] + b, rest)
  {
    Bracketed(LBRACE, [], WrittenMembers(members), RBRACE, rest);
    OpenText(Written(Object([], members)) + rest, LBRACE);
    assert [] + b == b;
  }

  ghost predicate MembersSpelling(ms: seq<Member>, acc: map<string, Json>, m: map<string, Json>,
                                  b: seq<Byte>, rest: seq<Byte>)
  {
    ms != [] && ValidMembers(ms) && Collected(ms, acc) == m && b == WrittenMembers(ms) + ([RBRACE] + rest)
  }

  lemma OnlyName(b: seq<Byte>) returns (before: seq<Byte>, ps: seq<Piece>, colon: seq<Byte>)
    requires ReadName(b).Ok?
    ensures Spaces(before) && ValidText(ps) && Spaces(colon) && StringOf(ps) == ReadName(b).value
    ensures b == before + ([QUOTE] + (TextOf(ps) + [QUOTE] + (colon + ([COLON] + ReadName(b).rest))))
  {
    before := SkipSplit(b);
    var t := SkipSpace(b);
    ps := OnlyText(t[1..]);
    var r := ReadStringBody(t[1..]).rest;
    colon := SkipSplit(r);
    OpenText(t, QUOTE);
    OpenText(SkipSpace(r), COLON);
  }

  lemma {:induction false} OnlyMembers(b: seq<Byte>, acc: map<string, Json>) returns (ms: seq<Member>)
    requires ReadMembers(b, acc).Ok?
    ensures MembersSpelling(ms, acc, ReadMembers(b, acc).value, b, ReadMembers(b, acc).rest)
    decreases |b|, 3
  {
    var before, ps, colon := OnlyName(b);
    var e, t := OnlyElement(ReadName(b).rest);
    var m := Member(before, ps, colon, e);
    OneMember(m, b, ReadName(b).rest, t);
    var next := acc[StringOf(ps) := ValueOf(e)];
    if t[0] == RBRACE {
      ms := [m];
      LastMember(m, acc, b, t);
    } else {
      var more := OnlyMembers(t[1..], next);
      ms := [m] + more;
      MoreMembers(m, more, acc, ReadMembers(b, acc).value, b, t, ReadMembers(b, acc).rest);
    }
  }

  lemma OneMember(m: Member, b: seq<Byte>, text: seq<Byte>, t: seq<Byte>)
    requires b == m.before + ([QUOTE] + (TextOf(m.name) + [QUOTE] + (m.colon + ([COLON] + text))))
    requires text == WrittenElement(m.element) + t
    ensures b == WrittenMember(m) + t
  {
    MemberText(m, [], t);
    assert WrittenElement(m.element) + [] + t == text;
    assert WrittenMember(m) + [] + t == WrittenMember(m) + t;
  }

  lemma LastMember(m: Member, acc: map<string, Json>, b: seq<Byte>, t: seq<Byte>)
    requires ValidMember(m) && b == WrittenMember(m) + t && t != [] && t[0] == RBRACE
    ensures MembersSpelling([m], acc, acc[StringOf(m.name) := MemberValue(m)], b, t[1..])
  {
    assert t == [RBRACE] + t[1..];
    assert WrittenMembers([m]) == WrittenMember(m) + [] == WrittenMember(m);
    assert [m][1..] == [];
  }

  lemma MoreMembers(m: Member, more: seq<Member>, acc: map<string, Json>, all: map<string, Json>,
                    b: seq<Byte>, t: seq<Byte>, rest: seq<Byte>)
    requires ValidMember(m) && b == WrittenMember(m) + t && t != [] && t[0] == COMMA
    requires MembersSpelling(more, acc[StringOf(m.name) := MemberValue(m)], all, t[1..], rest)
    ensures MembersSpelling([m] + more, acc, all, b, rest)
  {
    var ms := [m] + more;
    assert ms[1..] == more && ms[0] == m;
    assert t == [COMMA] + (WrittenMembers(more) + ([RBRACE] + rest));
    Assoc([COMMA], WrittenMembers(more), [RBRACE] + rest);
    Assoc(WrittenMember(m), [COMMA] + WrittenMembers(more), [RBRACE] + rest);
  }

  // --------------------------------------------------------- documents

  /** A document in any spelling is read as the value it spells. */
  lemma ReadAnySpelling(e: Element)
    requires ValidElement(e)
    ensures ReadDocument(WrittenElement(e)) == Some(ValueOf(e))
  {
    SkipSpaces(e.after, []);
    assert e.after + [] == e.after;
    assert EndsNumeral(e.after);
    ReadWritten(e.value, e.before, e.after);
  }

  /** The reader takes exactly the JSON texts, each as the value it spells. */
  lemma ReadsExactly(data: seq<Byte>, v: Json)
    ensures ReadDocument(data) == Some(v) <==>
            exists e: Element :: ValidElement(e) && WrittenElement(e) == data && ValueOf(e) == v
  {
    if ReadDocument(data) == Some(v) {
      var before, s := OnlyWritten(data);
      var after := SkipSplit(ReadValue(data).rest);
      assert after + [] == after;
      assert WrittenElement(Element(before, s, after)) == data;
      assert ValueOf(Element(before, s, after)) == v;
    }
    if e: Element :| ValidElement(e) && WrittenElement(e) == data && ValueOf(e) == v {
      ReadAnySpelling(e);
    }
  }

  // ------------------------------------------ canonical text is a spelling

  /** The spelling of v that the canonical text is. */
  ghost function Canon(v: Json): Syntax
    decreases v
  {
    match v
    case Str(s) => Text(Spelled(s, Chosen))
    case Num(n) => Number(Layout(n), false, true)
    case Arr(items) => List([], CanonItems(v, items))
    case Obj(m) => Object([], CanonMembers(v, SortedNames(m.Keys)))
    case _ => Literal(v)
  }

  ghost function CanonItems(v: Json, items: seq<Json>): seq<Element>
    requires v.Arr? && forall i :: 0 <= i < |items| ==> items[i] in v.items
    decreases v, |items|
  {
    if items == [] then [] else [Element([], Canon(items[0]), [])] + CanonItems(v, items[1..])
  }

  ghost function CanonMember(k: string, s: Syntax): Member {
    Member([], Spelled(k, Chosen), [], Element([], s, []))
  }

  ghost function CanonMembers(v: Json, ks: seq<string>): seq<Member>
    requires v.Obj? && forall k :: k in ks ==> k in v.members
    decreases v, |ks|
  {
    if ks == [] then [] else [CanonMember(ks[0], Canon(v.members[ks[0]]))] + CanonMembers(v, ks[1..])
  }

  ghost predicate IsCanon(v: Json, s: Syntax) {
    Valid(s) && Written(s) == Print(v) && Value(s) == v
  }

  lemma QuotedChosen(s: string)
    ensures ValidText(Spelled(s, Chosen)) && StringOf(Spelled(s, Chosen)) == s
    ensures Quoted(Spelled(s, Chosen)) == PrintString(s)
  {
    ChosenSpells();
    SpelledIsValid(s, Chosen);
    EscapeIsText(s);
  }

  lemma {:induction false} CanonIs(v: Json)
    ensures IsCanon(v, Canon(v))
    decreases v
  {
    match v {
      case Str(s) => QuotedChosen(s);
      case Num(n) =>
        FormatIsSpelledLayout(n);
        SpellIsWritten(Layout(n));
        LayoutValue(n);
      case Arr(items) =>
        CanonItemsAre(v, items);
        CanonList(v, CanonItems(v, items));
      case Obj(m) =>
        var ks := SortedNames(m.Keys);
        NamesOf(m, ks);
        CanonMembersAre(v, ks, map[]);
        CanonObject(v, CanonMembers(v, ks));
      case _ =>
    }
  }

  lemma CanonList(v: Json, es: seq<Element>)
    requires v.Arr? && ValidItems(es) && WrittenItems(es) == PrintItems(v, v.items) && Values(es) == v.items
    ensures IsCanon(v, List([], es))
  {
    Enclosed(LBRACKET, PrintItems(v, v.items), RBRACKET);
  }

  lemma CanonObject(v: Json, ms: seq<Member>)
    requires v.Obj? && ValidMembers(ms) && Collected(ms, map[]) == v.members
    requires WrittenMembers(ms) == PrintMembers(v, SortedNames(v.members.Keys))
    ensures IsCanon(v, Object([], ms))
  {
    Enclosed(LBRACE, WrittenMembers(ms), RBRACE);
  }

  lemma Enclosed(l: Byte, body: seq<Byte>, r: Byte)
    ensures [l] + ([] + (body + [r])) == [l] + body + [r]
  {
    Assoc([l], body, [r]);
    assert [] + (body + [r]) == body + [r];
  }

  lemma Bare(text: seq<Byte>)
    ensures [] + (text + []) == text
  {
  }

  lemma {:induction false} CanonItemsAre(v: Json, items: seq<Json>)
    requires v.Arr? && forall i :: 0 <= i < |items| ==> items[i] in v.items
    ensures var es := CanonItems(v, items);
            |es| == |items| && ValidItems(es) && WrittenItems(es) == PrintItems(v, items) && Values(es) == items
    decreases v, |items|
  {
    if items == [] {
    } else {
      var es := CanonItems(v, items);
      CanonIs(items[0]);
      CanonItemsAre(v, items[1..]);
      assert es[1..] == CanonItems(v, items[1..]);
      Bare(Print(items[0]));
      assert WrittenElement(es[0]) == Print(items[0]) && ValueOf(es[0]) == items[0];
      assert items == [items[0]] + items[1..];
    }
  }

  lemma CanonMemberIs(k: string, v: Json, s: Syntax)
    requires IsCanon(v, s)
    ensures var m := CanonMember(k, s);
            && ValidMember(m) && MemberValue(m) == v && StringOf(m.name) == k
            && WrittenMember(m) == PrintString(k) + [COLON] + Print(v)
  {
    QuotedChosen(k);
    Bare(Print(v));
    var m := CanonMember(k, s);
    assert WrittenElement(m.element) == Print(v) && ValueOf(m.element) == v;
    assert WrittenName(m) == PrintString(k) + [COLON];
  }

  function Picked(m: map<string, Json>, ks: seq<string>): map<string, Json>
    requires forall k :: k in ks ==> k in m
  {
    map k | k in ks :: m[k]
  }

  lemma {:induction false} CanonMembersAre(v: Json, ks: seq<string>, acc: map<string, Json>)
    requires v.Obj? && forall k :: k in ks ==> k in v.members
    ensures var ms := CanonMembers(v, ks);
            && |ms| == |ks| && ValidMembers(ms) && WrittenMembers(ms) == PrintMembers(v, ks)
            && Collected(ms, acc) == acc + Picked(v.members, ks)
    decreases v, |ks|
  {
    var ms := CanonMembers(v, ks);
    if ks == [] {
      assert acc + Picked(v.members, ks) == acc;
    } else {
      var k, x := ks[0], v.members[ks[0]];
      CanonIs(x);
      CanonMemberIs(k, x, Canon(x));
      CanonMembersAre(v, ks[1..], acc[k := x]);
      assert ms[1..] == CanonMembers(v, ks[1..]);
      PickedStep(v.members, ks, acc);
    }
  }

  lemma PickedStep(m: map<string, Json>, ks: seq<string>, acc: map<string, Json>)
    requires ks != [] && forall k :: k in ks ==> k in m
    ensures acc[ks[0] := m[ks[0]]] + Picked(m, ks[1..]) == acc + Picked(m, ks)
  {
    assert ks == [ks[0]] + ks[1..];
  }

  lemma NamesOf(m: map<string, Json>, ks: seq<string>)
    requires SetOf(ks) == m.Keys
    ensures forall k :: k in ks <==> k in m
    ensures map[] + Picked(m, ks) == m
  {
    assert forall k :: k in ks <==> k in SetOf(ks);
  }

  /** Reading undoes printing, for every value and at any depth. */
  lemma ReadPrint(v: Json, rest: seq<Byte>)
    requires EndsNumeral(rest)
    ensures ReadValue(Print(v) + rest) == Ok(v, rest)
  {
    CanonIs(v);
    ReadWritten(Canon(v), [], rest);
    assert [] + (Print(v) + rest) == Print(v) + rest;
  }

  lemma ReadDocumentOfPrint(v: Json)
    ensures ReadDocument(Print(v)) == Some(v)
  {
    ReadPrint(v, []);
    assert Print(v) + [] == Print(v);
  }

  /** Canonical text is unambiguous: equal bytes exactly for equal values. */
  lemma PrintInjective(v: Json, w: Json)
    ensures Print(v) == Print(w) <==> v == w
  {
    ReadDocumentOfPrint(v);
    ReadDocumentOfPrint(w);
  }

  // ------------------------------------------------------------------ jcs

  /** The canonical form of a document; None for the errors jcs returns. */
  ghost function CanonicalText(data: seq<Byte>, round: Rounding): Option<seq<Byte>> {
    match ReadDocument(data)
    case None => None
    case Some(v) =>
      match Rounded(v, round)
      case None => None
      case Some(w) => Some(Print(w))
  }

  method Jcs(data: seq<Byte>, round: Rounding) returns (r: Option<seq<Byte>>)
    ensures r == CanonicalText(data, round)
  {
    var v := ReadDocument(data);
    if v.None? {
      return None;
    }
    var out, ok := AppendCanonical([], v.value, round);
    if !ok {
      return None;
    }
    assert [] + Print(Rounded(v.value, round).value) == Print(Rounded(v.value, round).value);
    return Some(out);
  }

  /** Whatever its spelling, a text has the canonical form of the value it spells. */
  lemma CanonicalTextOfSpelling(s: Syntax, round: Rounding)
    requires Valid(s)
    ensures CanonicalText(Written(s), round) ==
            if Rounded(Value(s), round).None? then None else Some(Print(Rounded(Value(s), round).value))
  {
    ReadAnySpelling(Element([], s, []));
    Bare(Written(s));
  }

  /** The shortest digits of a double parse to that double again. */
  ghost predicate ShortestRoundTrips(round: Rounding) {
    forall n: Double :: round(n).Some? ==> round(round(n).value) == round(n)
  }

  lemma {:induction false} RoundedStable(v: Json, round: Rounding)
    requires ShortestRoundTrips(round) && Rounded(v, round).Some?
    ensures Rounded(Rounded(v, round).value, round) == Rounded(v, round)
    decreases v
  {
    var w := Rounded(v, round).value;
    match v {
      case Arr(items) =>
        forall i | 0 <= i < |items| ensures Rounded(w.items[i], round) == Some(w.items[i]) {
          RoundedStable(items[i], round);
        }
        assert Rounded(w, round).value.items == w.items;
      case Obj(m) =>
        forall k | k in m ensures Rounded(w.members[k], round) == Some(w.members[k]) {
          RoundedStable(m[k], round);
        }
        assert Rounded(w, round).value.members == w.members;
      case _ =>
    }
  }

  /** Canonicalising canonical text changes nothing. */
  lemma CanonicalTextStable(data: seq<Byte>, round: Rounding)
    requires ShortestRoundTrips(round) && CanonicalText(data, round).Some?
    ensures CanonicalText(CanonicalText(data, round).value, round) == CanonicalText(data, round)
  {
    var v := ReadDocument(data).value;
    RoundedStable(v, round);
    ReadDocumentOfPrint(Rounded(v, round).value);
  }

  /** Two documents share a canonical form exactly when they hold the same value, number by double. */
  lemma SameCanonicalText(a: seq<Byte>, b: seq<Byte>, round: Rounding)
    requires CanonicalText(a, round).Some? && CanonicalText(b, round).Some?
    ensures CanonicalText(a, round) == CanonicalText(b, round) <==>
            Rounded(ReadDocument(a).value, round) == Rounded(ReadDocument(b).value, round)
  {
    PrintInjective(Rounded(ReadDocument(a).value, round).value, Rounded(ReadDocument(b).value, round).value);
  }
}
