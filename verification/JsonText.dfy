/** How the grammar of JSON (RFC 8259, section 7) spells strings, and the string each spelling stands for. */
module JsonText {
  import opened Base
  import opened Unicode

  const QUOTE: Byte := 0x22
  const BACKSLASH: Byte := 0x5C
  const LOWER_U: Byte := 0x75
  const REPLACEMENT := 0xFFFD as char

  // -------------------------------------------------------------- strings

  /**
   One character of a string, as spelled: itself in UTF-8, a short escape, a \u escape, or two for a surrogate pair.
   A surrogate on its own spells no character; the decoder takes it for U+FFFD.
   */
  datatype Piece =
    | Plain(c: char)
    | Short(letter: Byte, c: char)
    | Unit(hex: seq<Byte>, c: char)
    | Pair(hi: seq<Byte>, lo: seq<Byte>, c: char)
    | Lone(hex: seq<Byte>, unit: int)
  {
    function Text(): seq<Byte> {
      match this
      case Plain(c) => Utf8Rune(c)
      case Short(letter, _) => [BACKSLASH, letter]
      case Unit(hex, _) => [BACKSLASH, LOWER_U] + hex
      case Pair(hi, lo, _) => [BACKSLASH, LOWER_U] + hi + ([BACKSLASH, LOWER_U] + lo)
      case Lone(hex, _) => [BACKSLASH, LOWER_U] + hex
    }

    function Char(): char { if Lone? then REPLACEMENT else c }

    predicate Valid() {
      match this
      case Plain(c) => c as int >= 0x20 && c != '\"' && c != '\\'
      case Short(letter, c) => ShortFor(letter, c)
      case Unit(hex, c) => HexFor(hex, c as int)
      case Pair(hi, lo, c) => c as int >= 0x10000 && HexFor(hi, Units(c)[0]) && HexFor(lo, Units(c)[1])
      case Lone(hex, unit) => HexFor(hex, unit) && 0xD800 <= unit < 0xE000
    }
  }

  predicate ShortFor(letter: Byte, c: char) {
    || (letter == 0x22 && c == '\"') || (letter == 0x5C && c == '\\') || (letter == 0x2F && c == '/')
    || (letter == 0x62 && c as int == 8) || (letter == 0x66 && c as int == 12) || (letter == 0x6E && c == '\n')
    || (letter == 0x72 && c == '\r') || (letter == 0x74 && c == '\t')
  }

  /** The hexadecimal digit of n, in either case. */
  predicate NibbleFor(b: Byte, n: int) {
    || (0 <= n < 10 && b == 0x30 + n)
    || (10 <= n < 16 && (b == 0x41 + (n - 10) || b == 0x61 + (n - 10)))
  }

  /** Four digits for n, most significant first. */
  predicate HexFor(hex: seq<Byte>, n: int) {
    && |hex| == 4 && 0 <= n < 0x10000
    && NibbleFor(hex[0], n / 0x1000) && NibbleFor(hex[1], n / 0x100 % 0x10)
    && NibbleFor(hex[2], n / 0x10 % 0x10) && NibbleFor(hex[3], n % 0x10)
  }

  /** An escaped low surrogate, which would pair with a high one before it. */
  predicate StartsLow(ps: seq<Piece>) {
    ps != [] && ps[0].Lone? && ps[0].unit >= 0xDC00
  }

  /** Pieces that stand for themselves: a high surrogate counts as lone only if no low one follows. */
  predicate ValidText(ps: seq<Piece>) {
    ps == [] || (ps[0].Valid() && (ps[0].Lone? && ps[0].unit < 0xDC00 ==> !StartsLow(ps[1..])) && ValidText(ps[1..]))
  }

  function TextOf(ps: seq<Piece>): seq<Byte> {
    if ps == [] then [] else ps[0].Text() + TextOf(ps[1..])
  }

  function StringOf(ps: seq<Piece>): string {
    if ps == [] then "" else [ps[0].Char()] + StringOf(ps[1..])
  }

  function Quoted(ps: seq<Piece>): seq<Byte> { [QUOTE] + TextOf(ps) + [QUOTE] }
}
