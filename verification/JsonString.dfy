/** JSON strings: the escapes of section 3.2.2.2 of RFC 8785, and a reader for every JSON string. */
module JsonString {
  import opened Base
  import opened Unicode
  import opened JsonText

  /** hexdigits[n] */
  function HexDigit(n: int): Byte
    requires 0 <= n < 16
  {
    if n < 10 then 48 + n else 87 + n
  }

  /** The octets written for one character: a short escape, \u00XX for other controls, else UTF-8. */
  function EscapeRune(c: char): (b: seq<Byte>)
    ensures b != [] && b[0] != QUOTE
  {
    var r := c as int;
    if r == 0x22 then [BACKSLASH, 0x22]
    else if r == 0x5C then [BACKSLASH, 0x5C]
    else if r == 0x08 then [BACKSLASH, 0x62]
    else if r == 0x0C then [BACKSLASH, 0x66]
    else if r == 0x0A then [BACKSLASH, 0x6E]
    else if r == 0x0D then [BACKSLASH, 0x72]
    else if r == 0x09 then [BACKSLASH, 0x74]
    else if r < 0x20 then [BACKSLASH, 0x75, 0x30, 0x30, HexDigit(r / 16), HexDigit(r % 16)]
    else Utf8Rune(c)
  }

  function Escape(s: string): seq<Byte> {
    if s == "" then [] else EscapeRune(s[0]) + Escape(s[1..])
  }

  function PrintString(s: string): seq<Byte> { [QUOTE] + Escape(s) + [QUOTE] }

  /** appendString: the loop over runes appends the printed form. */
  method AppendString(dst: seq<Byte>, s: string) returns (out: seq<Byte>)
    ensures out == dst + PrintString(s)
  {
    out := dst + [QUOTE];
    assert s[0..] == s;
    for i := 0 to |s|
      invariant out + Escape(s[i..]) == dst + [QUOTE] + Escape(s)
    {
      assert s[i..][0] == s[i] && s[i..][1..] == s[i + 1..];
      assert out + EscapeRune(s[i]) + Escape(s[i + 1..]) == out + Escape(s[i..]);
      out := out + EscapeRune(s[i]);
    }
    assert s[|s|..] == "" && out + [] == out;
    out := out + [QUOTE];
  }

  // ------------------------------------------------------------- reading

  function HexValue(b: Byte): (v: Option<int>)
    ensures v.Some? ==> 0 <= v.value < 16
  {
    var n: int := b;
    if 48 <= n <= 57 then Some(n - 48)
    else if 97 <= n <= 102 then Some(n - 87)
    else if 65 <= n <= 70 then Some(n - 55)
    else None
  }

  /** Four hexadecimal digits: one UTF-16 code unit. */
  function ReadUnit(b: seq<Byte>): (p: Parsed<int>)
    ensures p.Ok? ==> 0 <= p.value < 0x10000 && |p.rest| == |b| - 4
  {
    if |b| < 4 then Fail
    else
      var h3, h2, h1, h0 := HexValue(b[0]), HexValue(b[1]), HexValue(b[2]), HexValue(b[3]);
      if h3.None? || h2.None? || h1.None? || h0.None? then Fail
      else Ok(0x1000 * h3.value + 0x100 * h2.value + 0x10 * h1.value + h0.value, b[4..])
  }

  /** After `\u`: a unit, a surrogate pair, or U+FFFD for a surrogate on its own. */
  function ReadUnicodeEscape(b: seq<Byte>): (p: Parsed<char>)
    ensures p.Ok? ==> |p.rest| < |b|
  {
    var hi := ReadUnit(b);
    if hi.Fail? then Fail
    else if IsScalar(hi.value) then Ok(hi.value as char, hi.rest)
    else if hi.value < 0xDC00 && |hi.rest| >= 2 && hi.rest[0] == BACKSLASH && hi.rest[1] == 0x75 then
      var lo := ReadUnit(hi.rest[2..]);
      if lo.Fail? then Fail
      else if 0xDC00 <= lo.value < 0xE000 then
        Ok((0x10000 + (hi.value - 0xD800) * 0x400 + (lo.value - 0xDC00)) as char, lo.rest)
      else Ok(REPLACEMENT, hi.rest)
    else Ok(REPLACEMENT, hi.rest)
  }

  function ShortEscape(b: Byte): Option<char> {
    if b == 0x22 then Some('\"')
    else if b == 0x5C then Some('\\')
    else if b == 0x2F then Some('/')
    else if b == 0x62 then Some(0x08 as char)
    else if b == 0x66 then Some(0x0C as char)
    else if b == 0x6E then Some('\n')
    else if b == 0x72 then Some('\r')
    else if b == 0x74 then Some('\t')
    else None
  }

  /** One character of a string body. */
  function ReadChar(b: seq<Byte>): (p: Parsed<char>)
    ensures p.Ok? ==> |p.rest| < |b|
  {
    if b == [] || b[0] < 0x20 then Fail
    else if b[0] != BACKSLASH then ReadRune(b)
    else if |b| < 2 then Fail
    else if b[1] == 0x75 then ReadUnicodeEscape(b[2..])
    else
      match ShortEscape(b[1])
      case Some(c) => Ok(c, b[2..])
      case None => Fail
  }

  /** The rest of a string whose opening quote has been read. */
  function ReadStringBody(b: seq<Byte>): (p: Parsed<string>)
    ensures p.Ok? ==> |p.rest| < |b|
    decreases |b|
  {
    if b == [] then Fail
    else if b[0] == QUOTE then Ok("", b[1..])
    else
      match ReadChar(b)
      case Fail => Fail
      case Ok(c, b1) =>
        match ReadStringBody(b1)
        case Fail => Fail
        case Ok(s, rest) => Ok([c] + s, rest)
  }

  // ------------------------------------------------ every spelling is read

  lemma NibbleIsHex(b: Byte, n: int)
    ensures NibbleFor(b, n) <==> HexValue(b) == Some(n)
  {
  }

  lemma SplitHex(h3: int, h2: int, h1: int, h0: int)
    requires 0 <= h3 < 16 && 0 <= h2 < 16 && 0 <= h1 < 16 && 0 <= h0 < 16
    ensures var n := 0x1000 * h3 + 0x100 * h2 + 0x10 * h1 + h0;
            n / 0x1000 == h3 && n / 0x100 % 0x10 == h2 && n / 0x10 % 0x10 == h1 && n % 0x10 == h0
  {
    var n := 0x1000 * h3 + 0x100 * h2 + 0x10 * h1 + h0;
    LastHex(0x100 * h3 + 0x10 * h2 + h1, h0);
    LastHex(0x10 * h3 + h2, h1);
    LastHex(h3, h2);
    assert n / 0x100 == n / 0x10 / 0x10 && n / 0x1000 == n / 0x100 / 0x10;
  }

  lemma LastHex(q: int, l: int)
    requires 0 <= l < 16
    ensures (0x10 * q + l) / 0x10 == q && (0x10 * q + l) % 0x10 == l
  {
  }

  lemma JoinHex(n: int)
    requires 0 <= n < 0x10000
    ensures n == 0x1000 * (n / 0x1000) + 0x100 * (n / 0x100 % 0x10) + 0x10 * (n / 0x10 % 0x10) + n % 0x10
  {
    assert n / 0x100 == n / 0x10 / 0x10 && n / 0x1000 == n / 0x100 / 0x10;
  }

  /** Four digits are read as the number they are for, and only as that. */
  lemma ReadUnitOfHex(hex: seq<Byte>, n: int, rest: seq<Byte>)
    requires |hex| == 4
    ensures HexFor(hex, n) <==> ReadUnit(hex + rest) == Ok(n, rest)
  {
    var b := hex + rest;
    assert b[4..] == rest && b[0] == hex[0] && b[1] == hex[1] && b[2] == hex[2] && b[3] == hex[3];
    if HexFor(hex, n) {
      JoinHex(n);
      NibbleIsHex(hex[0], n / 0x1000);
      NibbleIsHex(hex[1], n / 0x100 % 0x10);
      NibbleIsHex(hex[2], n / 0x10 % 0x10);
      NibbleIsHex(hex[3], n % 0x10);
    }
    if ReadUnit(b) == Ok(n, rest) {
      var h3, h2, h1, h0 := HexValue(b[0]), HexValue(b[1]), HexValue(b[2]), HexValue(b[3]);
      SplitHex(h3.value, h2.value, h1.value, h0.value);
    }
  }

  lemma ShortIsShort(letter: Byte, c: char)
    ensures ShortFor(letter, c) <==> ShortEscape(letter) == Some(c)
  {
  }

  /** What comes next is no low surrogate's escape, so that a high one before it stays alone. */
  predicate NoLowNext(b: seq<Byte>) {
    |b| >= 2 && b[0] == BACKSLASH && b[1] == LOWER_U ==>
      ReadUnit(b[2..]).Ok? && !(0xDC00 <= ReadUnit(b[2..]).value < 0xE000)
  }

  lemma ReadEscapeOfUnit(hex: seq<Byte>, n: int, rest: seq<Byte>)
    requires HexFor(hex, n)
    requires 0xD800 <= n < 0xDC00 ==> NoLowNext(rest)
    ensures ReadUnicodeEscape(hex + rest) == Ok(if IsScalar(n) then n as char else REPLACEMENT, rest)
  {
    ReadUnitOfHex(hex, n, rest);
  }

  lemma PairUnits(c: char)
    requires c as int >= 0x10000
    ensures var u := Units(c);
            && 0xD800 <= u[0] < 0xDC00 && 0xDC00 <= u[1] < 0xE000
            && 0x10000 + (u[0] - 0xD800) * 0x400 + (u[1] - 0xDC00) == c as int
  {
  }

  lemma ReadEscapeOfPair(hi: seq<Byte>, lo: seq<Byte>, c: char, rest: seq<Byte>)
    requires c as int >= 0x10000 && HexFor(hi, Units(c)[0]) && HexFor(lo, Units(c)[1])
    ensures ReadUnicodeEscape(hi + ([BACKSLASH, LOWER_U] + (lo + rest))) == Ok(c, rest)
  {
    var tail := [BACKSLASH, LOWER_U] + (lo + rest);
    PairUnits(c);
    ReadUnitOfHex(hi, Units(c)[0], tail);
    assert tail[2..] == lo + rest;
    ReadUnitOfHex(lo, Units(c)[1], rest);
  }

  lemma EscapeText(hex: seq<Byte>, rest: seq<Byte>)
    ensures var b := [BACKSLASH, LOWER_U] + hex + rest;
            |b| >= 2 && b[0] == BACKSLASH && b[1] == LOWER_U && b[2..] == hex + rest
  {
  }

  lemma ReadCharOfPair(hi: seq<Byte>, lo: seq<Byte>, c: char, rest: seq<Byte>)
    requires Pair(hi, lo, c).Valid()
    ensures ReadChar(Pair(hi, lo, c).Text() + rest) == Ok(c, rest)
  {
    var tail := [BACKSLASH, LOWER_U] + (lo + rest);
    assert Pair(hi, lo, c).Text() + rest == [BACKSLASH, LOWER_U] + hi + tail;
    EscapeText(hi, tail);
    ReadEscapeOfPair(hi, lo, c, rest);
  }

  /** Every spelling of a character is read as that character. */
  lemma ReadCharOfPiece(p: Piece, rest: seq<Byte>)
    requires p.Valid() && (p.Lone? && p.unit < 0xDC00 ==> NoLowNext(rest))
    ensures ReadChar(p.Text() + rest) == Ok(p.Char(), rest)
  {
    match p {
      case Plain(c) =>
        ReadRuneOfUtf8(c, rest);
      case Short(letter, c) =>
        ShortIsShort(letter, c);
        assert (p.Text() + rest)[2..] == rest;
      case Unit(hex, c) =>
        EscapeText(hex, rest);
        ReadEscapeOfUnit(hex, c as int, rest);
      case Lone(hex, n) =>
        EscapeText(hex, rest);
        ReadEscapeOfUnit(hex, n, rest);
      case Pair(hi, lo, c) => ReadCharOfPair(hi, lo, c, rest);
    }
  }

  lemma NoLowUnit(hex: seq<Byte>, n: int, tail: seq<Byte>)
    requires 0 <= n < 0x10000 && HexFor(hex, n) && !(0xDC00 <= n < 0xE000)
    ensures NoLowNext([BACKSLASH, LOWER_U] + hex + tail)
  {
    EscapeText(hex, tail);
    ReadUnitOfHex(hex, n, tail);
  }

  lemma NoLowPair(hi: seq<Byte>, lo: seq<Byte>, c: char, tail: seq<Byte>)
    requires Pair(hi, lo, c).Valid()
    ensures NoLowNext(Pair(hi, lo, c).Text() + tail)
  {
    var more := [BACKSLASH, LOWER_U] + lo + tail;
    assert Pair(hi, lo, c).Text() + tail == [BACKSLASH, LOWER_U] + hi + more;
    PairUnits(c);
    NoLowUnit(hi, Units(c)[0], more);
  }

  lemma NoLowPiece(p: Piece, tail: seq<Byte>)
    requires p.Valid() && !StartsLow([p])
    ensures NoLowNext(p.Text() + tail)
  {
    match p {
      case Plain(_) =>
      case Short(_, _) =>
      case Unit(hex, c) => NoLowUnit(hex, c as int, tail);
      case Lone(hex, n) => NoLowUnit(hex, n, tail);
      case Pair(hi, lo, c) => NoLowPair(hi, lo, c, tail);
    }
  }

  /** Where no low surrogate starts, none is read. */
  lemma NoLowStarts(ps: seq<Piece>, rest: seq<Byte>)
    requires ValidText(ps) && !StartsLow(ps)
    ensures NoLowNext(TextOf(ps) + [QUOTE] + rest)
  {
    var b := TextOf(ps) + [QUOTE] + rest;
    if ps == [] {
      assert b == [QUOTE] + rest;
    } else {
      var tail := TextOf(ps[1..]) + [QUOTE] + rest;
      assert b == ps[0].Text() + tail;
      NoLowPiece(ps[0], tail);
    }
  }

  lemma PieceHead(p: Piece)
    requires p.Valid()
    ensures p.Text() != [] && p.Text()[0] != QUOTE
  {
  }

  /** Every spelling of a string is read as that string. */
  lemma {:induction false} ReadText(ps: seq<Piece>, rest: seq<Byte>)
    requires ValidText(ps)
    ensures ReadStringBody(TextOf(ps) + [QUOTE] + rest) == Ok(StringOf(ps), rest)
    decreases |ps|
  {
    var b := TextOf(ps) + [QUOTE] + rest;
    if ps == [] {
      assert b == [QUOTE] + rest;
    } else {
      var tail := TextOf(ps[1..]) + [QUOTE] + rest;
      assert b == ps[0].Text() + tail;
      if ps[0].Lone? && ps[0].unit < 0xDC00 {
        NoLowStarts(ps[1..], rest);
      }
      PieceHead(ps[0]);
      ReadCharOfPiece(ps[0], tail);
      ReadText(ps[1..], rest);
    }
  }

  // ------------------------------------------------- and nothing else is

  /** A character read was spelled so. */
  lemma OnlyPiece(b: seq<Byte>) returns (p: Piece)
    requires ReadChar(b).Ok? && b[0] != QUOTE
    ensures p.Valid() && b == p.Text() + ReadChar(b).rest && p.Char() == ReadChar(b).value
    ensures p.Lone? && p.unit < 0xDC00 ==> NoLowNext(ReadChar(b).rest)
  {
    var c, rest := ReadChar(b).value, ReadChar(b).rest;
    if b[0] != BACKSLASH {
      p := Plain(c);
      ReadRuneOnlyUtf8(b);
      assert b[0] == Utf8Rune(c)[0];
    } else if b[1] != LOWER_U {
      p := Short(b[1], c);
      ShortIsShort(b[1], c);
      assert b == [b[0], b[1]] + b[2..];
    } else {
      p := OnlyEscape(b);
    }
  }

  lemma OnlyEscape(b: seq<Byte>) returns (p: Piece)
    requires |b| >= 2 && b[0] == BACKSLASH && b[1] == LOWER_U && ReadUnicodeEscape(b[2..]).Ok?
    ensures p.Valid() && b == p.Text() + ReadUnicodeEscape(b[2..]).rest && p.Char() == ReadUnicodeEscape(b[2..]).value
    ensures p.Lone? && p.unit < 0xDC00 ==> NoLowNext(ReadUnicodeEscape(b[2..]).rest)
  {
    var c := ReadUnicodeEscape(b[2..]).value;
    var hex, r1 := b[2..6], b[6..];
    var n := ReadUnit(b[2..]).value;
    HexSplit(b, hex, r1);
    ReadUnitOfHex(hex, n, r1);
    if IsScalar(n) {
      p := Unit(hex, c);
    } else if n < 0xDC00 && |r1| >= 2 && r1[0] == BACKSLASH && r1[1] == LOWER_U
           && 0xDC00 <= ReadUnit(r1[2..]).value < 0xE000 {
      var lo, rest := r1[2..6], r1[6..];
      HexSplit(r1, lo, rest);
      ReadUnitOfHex(lo, ReadUnit(r1[2..]).value, rest);
      p := Pair(hex, lo, c);
      UnitsOfPair(n, ReadUnit(r1[2..]).value, c);
      assert b == [BACKSLASH, LOWER_U] + hex + ([BACKSLASH, LOWER_U] + lo + rest);
      Assoc([BACKSLASH, LOWER_U] + hex, [BACKSLASH, LOWER_U] + lo, rest);
    } else {
      p := Lone(hex, n);
    }
  }

  lemma HexSplit(b: seq<Byte>, hex: seq<Byte>, rest: seq<Byte>)
    requires |b| >= 6 && b[0] == BACKSLASH && b[1] == LOWER_U && hex == b[2..6] && rest == b[6..]
    ensures b[2..] == hex + rest && b == [BACKSLASH, LOWER_U] + hex + rest
  {
  }

  lemma UnitsOfPair(hi: int, lo: int, c: char)
    requires 0xD800 <= hi < 0xDC00 && 0xDC00 <= lo < 0xE000
    requires c as int == 0x10000 + (hi - 0xD800) * 0x400 + (lo - 0xDC00)
    ensures Units(c) == [hi, lo]
  {
  }

  lemma LowIsNext(ps: seq<Piece>, rest: seq<Byte>)
    requires ValidText(ps) && StartsLow(ps)
    ensures !NoLowNext(TextOf(ps) + [QUOTE] + rest)
  {
    var tail := TextOf(ps[1..]) + [QUOTE] + rest;
    assert TextOf(ps) + [QUOTE] + rest == [BACKSLASH, LOWER_U] + ps[0].hex + tail;
    EscapeText(ps[0].hex, tail);
    ReadUnitOfHex(ps[0].hex, ps[0].unit, tail);
  }

  /** A string read was spelled so: the reader takes exactly the spellings of strings. */
  lemma {:induction false} OnlyText(b: seq<Byte>) returns (ps: seq<Piece>)
    requires ReadStringBody(b).Ok?
    ensures ValidText(ps) && b == TextOf(ps) + [QUOTE] + ReadStringBody(b).rest
    ensures StringOf(ps) == ReadStringBody(b).value
    decreases |b|
  {
    if b[0] == QUOTE {
      ps := [];
      assert b == [QUOTE] + b[1..];
    } else {
      var b1, rest := ReadChar(b).rest, ReadStringBody(b).rest;
      var p := OnlyPiece(b);
      var more := OnlyText(b1);
      ps := [p] + more;
      assert ps[1..] == more;
      if p.Lone? && p.unit < 0xDC00 && StartsLow(more) {
        LowIsNext(more, rest);
        assert false;
      }
      assert p.Text() + (TextOf(more) + [QUOTE] + rest) == TextOf(ps) + [QUOTE] + rest;
    }
  }

  // -------------------------------------------- the printer's own spelling

  /** The spelling appendString chooses. */
  function Chosen(c: char): Piece {
    var r := c as int;
    if r == 0x22 then Short(0x22, c)
    else if r == 0x5C then Short(0x5C, c)
    else if r == 0x08 then Short(0x62, c)
    else if r == 0x0C then Short(0x66, c)
    else if r == 0x0A then Short(0x6E, c)
    else if r == 0x0D then Short(0x72, c)
    else if r == 0x09 then Short(0x74, c)
    else if r < 0x20 then Unit([0x30, 0x30, HexDigit(r / 16), HexDigit(r % 16)], c)
    else Plain(c)
  }

  function Spelled(s: string, choose: char -> Piece): seq<Piece> {
    if s == "" then [] else [choose(s[0])] + Spelled(s[1..], choose)
  }

  /** A choice of spellings that are right. */
  ghost predicate Spells(choose: char -> Piece) {
    forall c: char :: choose(c).Valid() && !choose(c).Lone? && choose(c).Char() == c
  }

  lemma {:induction false} SpelledIsValid(s: string, choose: char -> Piece)
    requires Spells(choose)
    ensures ValidText(Spelled(s, choose)) && StringOf(Spelled(s, choose)) == s
  {
    if s == "" {
    } else {
      SpelledIsValid(s[1..], choose);
      assert Spelled(s, choose)[1..] == Spelled(s[1..], choose);
      assert s == [s[0]] + s[1..];
    }
  }

  lemma ChosenSpells()
    ensures Spells(Chosen)
  {
  }

  lemma ChosenIsEscape(c: char)
    ensures Chosen(c).Text() == EscapeRune(c)
  {
  }

  lemma {:induction false} EscapeIsText(s: string)
    ensures TextOf(Spelled(s, Chosen)) == Escape(s)
  {
    if s == "" {
    } else {
      EscapeIsText(s[1..]);
      ChosenIsEscape(s[0]);
      assert Spelled(s, Chosen)[1..] == Spelled(s[1..], Chosen);
    }
  }

  // --------------------------------------------- the marshaller's spelling

  function Hex(n: int): (hex: seq<Byte>)
    requires 0 <= n < 0x10000
  {
    [HexDigit(n / 0x1000), HexDigit(n / 0x100 % 0x10), HexDigit(n / 0x10 % 0x10), HexDigit(n % 0x10)]
  }

  /** The spelling encoding/json chooses: it also escapes <, >, &, U+2028 and U+2029. */
  function Marshalled(c: char): Piece {
    var r := c as int;
    if r == 0x3C || r == 0x3E || r == 0x26 || r == 0x2028 || r == 0x2029 then Unit(Hex(r), c) else Chosen(c)
  }

  lemma MarshalledSpells()
    ensures Spells(Marshalled)
  {
    ChosenSpells();
  }

  /** Reading undoes printing: a string has its own text. */
  lemma ReadPrintString(s: string, rest: seq<Byte>)
    ensures PrintString(s)[0] == QUOTE
    ensures ReadStringBody((PrintString(s) + rest)[1..]) == Ok(s, rest)
  {
    ChosenSpells();
    SpelledIsValid(s, Chosen);
    EscapeIsText(s);
    ReadText(Spelled(s, Chosen), rest);
    Unquote(Escape(s), rest);
  }

  lemma Unquote(body: seq<Byte>, rest: seq<Byte>)
    ensures ([QUOTE] + body + [QUOTE] + rest)[1..] == body + [QUOTE] + rest
  {
  }

  /**
   Which form each character takes: an escape exactly for controls, quote and backslash; the short one
   where there is one, otherwise \u00 and two lower-case digits; literal UTF-8 for everything else.
   */
  lemma EscapeRuneShape(c: char)
    ensures EscapeRune(c)[0] == BACKSLASH <==> c as int < 0x20 || c == '\"' || c == '\\'
    ensures EscapeRune(c)[0] != BACKSLASH ==> EscapeRune(c) == Utf8Rune(c)
    ensures EscapeRune(c)[0] == BACKSLASH ==>
              if |EscapeRune(c)| == 2 then ShortEscape(EscapeRune(c)[1]) == Some(c)
              else
                && |EscapeRune(c)| == 6
                && (forall b: Byte :: ShortEscape(b) != Some(c))
                && (forall i :: 2 <= i < 6 ==> !(65 <= EscapeRune(c)[i] <= 70))
  {
  }
}
