/** UTF-8 (RFC 3629) and UTF-16 forms of Unicode text.  A `char` is a Unicode scalar value. */
module Unicode {
  import opened Base

  // ---------------------------------------------------------------- UTF-8

  /** The octets utf8.AppendRune appends for one scalar value. */
  function Utf8Rune(c: char): (b: seq<Byte>)
    ensures 1 <= |b| <= 4
    ensures c as int >= 0x80 ==> forall i :: 0 <= i < |b| ==> b[i] >= 0x80
  {
    var r := c as int;
    if r < 0x80 then [r]
    else if r < 0x800 then [0xC0 + r / 0x40, 0x80 + r % 0x40]
    else if r < 0x10000 then [0xE0 + r / 0x1000, 0x80 + r / 0x40 % 0x40, 0x80 + r % 0x40]
    else [0xF0 + r / 0x40000, 0x80 + r / 0x1000 % 0x40, 0x80 + r / 0x40 % 0x40, 0x80 + r % 0x40]
  }

  predicate IsContinuation(b: Byte) { 0x80 <= b < 0xC0 }

  /** The six payload bits of a continuation octet. */
  function Tail(b: Byte): int { b - 0x80 }

  predicate IsScalar(r: int) { 0 <= r < 0xD800 || 0xE000 <= r < 0x110000 }

  /** Strict UTF-8 decoding of one scalar value: overlong forms and surrogates are refused. */
  function ReadRune(b: seq<Byte>): (p: Parsed<char>)
    ensures p.Ok? ==> |p.rest| < |b|
  {
    if b == [] then Fail
    else if b[0] < 0x80 then Ok(b[0] as char, b[1..])
    else if 0xC0 <= b[0] < 0xE0 && |b| >= 2 && IsContinuation(b[1]) then
      var r := (Tail(b[0]) - 0x40) * 0x40 + Tail(b[1]);
      if r < 0x80 then Fail else Ok(r as char, b[2..])
    else if 0xE0 <= b[0] < 0xF0 && |b| >= 3 && IsContinuation(b[1]) && IsContinuation(b[2]) then
      var r := (Tail(b[0]) - 0x60) * 0x1000 + Tail(b[1]) * 0x40 + Tail(b[2]);
      if r < 0x800 || !IsScalar(r) then Fail else Ok(r as char, b[3..])
    else if 0xF0 <= b[0] < 0xF8 && |b| >= 4 && IsContinuation(b[1]) && IsContinuation(b[2]) && IsContinuation(b[3]) then
      var r := (Tail(b[0]) - 0x70) * 0x40000 + Tail(b[1]) * 0x1000 + Tail(b[2]) * 0x40 + Tail(b[3]);
      if r < 0x10000 || !IsScalar(r) then Fail else Ok(r as char, b[4..])
    else Fail
  }

  /** Decoding undoes encoding, whatever follows. */
  lemma ReadRuneOfUtf8(c: char, rest: seq<Byte>)
    ensures ReadRune(Utf8Rune(c) + rest) == Ok(c, rest)
  {
    var e := Utf8Rune(c);
    assert (e + rest)[|e|..] == rest;
    var r := c as int;
    assert r / 0x1000 == r / 0x40 / 0x40 && r / 0x40000 == r / 0x40 / 0x40 / 0x40;
  }

  /** And only the encoding of a scalar value decodes to it: a scalar has one UTF-8 spelling. */
  lemma ReadRuneOnlyUtf8(b: seq<Byte>)
    requires ReadRune(b).Ok?
    ensures b == Utf8Rune(ReadRune(b).value) + ReadRune(b).rest
  {
    var n := |b| - |ReadRune(b).rest|;
    assert b == b[..n] + b[n..];
    if n == 2 {
      SplitSextet(Tail(b[0]) - 0x40, Tail(b[1]));
    } else if n == 3 {
      ReadThree(b);
    } else if n == 4 {
      ReadFour(b);
    }
  }

  lemma ReadThree(b: seq<Byte>)
    requires ReadRune(b).Ok? && |b| - |ReadRune(b).rest| == 3
    ensures Utf8Rune(ReadRune(b).value) == b[..3]
  {
    SplitTwo(Tail(b[0]) - 0x60, Tail(b[1]), Tail(b[2]));
  }

  lemma ReadFour(b: seq<Byte>)
    requires ReadRune(b).Ok? && |b| - |ReadRune(b).rest| == 4
    ensures Utf8Rune(ReadRune(b).value) == b[..4]
  {
    SplitThree(Tail(b[0]) - 0x70, Tail(b[1]), Tail(b[2]), Tail(b[3]));
  }

  lemma SplitThree(h: int, m: int, k: int, l: int)
    requires 0 <= m < 0x40 && 0 <= k < 0x40 && 0 <= l < 0x40
    ensures var r := h * 0x40000 + m * 0x1000 + k * 0x40 + l;
            r / 0x40000 == h && r / 0x1000 % 0x40 == m && r / 0x40 % 0x40 == k && r % 0x40 == l
  {
    SplitTwo(h * 0x40 + m, k, l);
    SplitSextet(h, m);
    var r := h * 0x40000 + m * 0x1000 + k * 0x40 + l;
    assert r / 0x40000 == r / 0x1000 / 0x40;
  }

  lemma SplitTwo(h: int, m: int, l: int)
    requires 0 <= m < 0x40 && 0 <= l < 0x40
    ensures var r := h * 0x1000 + m * 0x40 + l; r / 0x1000 == h && r / 0x40 % 0x40 == m && r % 0x40 == l
  {
    var r := h * 0x1000 + m * 0x40 + l;
    SplitSextet(h * 0x40 + m, l);
    SplitSextet(h, m);
    assert r / 0x1000 == r / 0x40 / 0x40;
  }

  lemma SplitSextet(h: int, l: int)
    requires 0 <= l < 0x40
    ensures var r := h * 0x40 + l; r / 0x40 == h && r % 0x40 == l
  {
  }

  function Utf8(s: string): seq<Byte> {
    if s == "" then [] else Utf8Rune(s[0]) + Utf8(s[1..])
  }

  // --------------------------------------------------------------- UTF-16

  /** The code units of one scalar value: itself, or a surrogate pair. */
  function Units(c: char): (u: seq<int>)
    ensures 1 <= |u| <= 2
  {
    var r := c as int;
    if r < 0x10000 then [r]
    else [0xD800 + (r - 0x10000) / 0x400, 0xDC00 + (r - 0x10000) % 0x400]
  }

  function Utf16(s: string): seq<int> {
    if s == "" then [] else Units(s[0]) + Utf16(s[1..])
  }

  /** Three-way lexicographic comparison: -1, 0 or 1. */
  function Compare(u: seq<int>, v: seq<int>): (r: int)
    ensures r == -1 || r == 0 || r == 1
  {
    if u == [] && v == [] then 0
    else if u == [] then -1
    else if v == [] then 1
    else if u[0] < v[0] then -1
    else if u[0] > v[0] then 1
    else Compare(u[1..], v[1..])
  }

  lemma {:induction false} CompareEqual(u: seq<int>, v: seq<int>)
    ensures Compare(u, v) == 0 <==> u == v
  {
    if u == [] || v == [] || u[0] != v[0] {
    } else {
      CompareEqual(u[1..], v[1..]);
      assert u == [u[0]] + u[1..] && v == [v[0]] + v[1..];
    }
  }

  lemma {:induction false} CompareFlip(u: seq<int>, v: seq<int>)
    ensures Compare(v, u) == -Compare(u, v)
  {
    if u == [] || v == [] || u[0] != v[0] {
    } else {
      CompareFlip(u[1..], v[1..]);
    }
  }

  lemma {:induction false} CompareTransitive(u: seq<int>, v: seq<int>, w: seq<int>)
    requires Compare(u, v) < 0 && Compare(v, w) < 0
    ensures Compare(u, w) < 0
  {
    if u == [] || v == [] || w == [] || u[0] != v[0] || v[0] != w[0] {
    } else {
      CompareTransitive(u[1..], v[1..], w[1..]);
    }
  }

  lemma {:induction false} CompareSkip(p: seq<int>, u: seq<int>, v: seq<int>)
    ensures Compare(p + u, p + v) == Compare(u, v)
  {
    if p == [] {
      assert p + u == u && p + v == v;
    } else {
      assert (p + u)[1..] == p[1..] + u && (p + v)[1..] == p[1..] + v;
      CompareSkip(p[1..], u, v);
    }
  }

  // ------------------------------------ the member order of RFC 8785, section 3.2.3

  /** The order on member names: by UTF-16 code unit, shorter first on a tie. */
  function CompareNames(a: string, b: string): int {
    Compare(Utf16(a), Utf16(b))
  }

  predicate NameLess(a: string, b: string) { CompareNames(a, b) < 0 }

  /** Where a scalar value stands in UTF-16 order: supplementary characters come below U+E000. */
  function Rank(c: char): int {
    if 0xE000 <= c as int < 0x10000 then c as int + 0x110000 else c as int
  }

  function Ranks(s: string): (r: seq<int>)
    ensures |r| == |s|
  {
    seq(|s|, i requires 0 <= i < |s| => Rank(s[i]))
  }

  function Points(s: string): (r: seq<int>)
    ensures |r| == |s|
  {
    seq(|s|, i requires 0 <= i < |s| => s[i] as int)
  }

  lemma UnitsOrder(x: char, y: char, u: seq<int>, v: seq<int>)
    requires x != y
    ensures Compare(Units(x) + u, Units(y) + v) == if Rank(x) < Rank(y) then -1 else 1
  {
    var a, b := Units(x) + u, Units(y) + v;
    if a[0] == b[0] {
      assert |Units(x)| == 2 && |Units(y)| == 2;
      assert a[1] != b[1];
      assert a[1..][0] == a[1] && b[1..][0] == b[1];
    }
  }

  /** Comparing code units is comparing scalars by rank. */
  lemma {:induction false} CompareByRank(a: string, b: string)
    ensures CompareNames(a, b) == Compare(Ranks(a), Ranks(b))
  {
    if a == "" || b == "" {
    } else {
      assert Ranks(a)[1..] == Ranks(a[1..]) && Ranks(b)[1..] == Ranks(b[1..]);
      if a[0] == b[0] {
        CompareSkip(Units(a[0]), Utf16(a[1..]), Utf16(b[1..]));
        CompareByRank(a[1..], b[1..]);
      } else {
        UnitsOrder(a[0], b[0], Utf16(a[1..]), Utf16(b[1..]));
      }
    }
  }

  /** A strict total order on valid Unicode text: zero exactly on equality. */
  lemma NamesEqual(a: string, b: string)
    ensures CompareNames(a, b) == 0 <==> a == b
  {
    CompareByRank(a, b);
    CompareEqual(Ranks(a), Ranks(b));
    if Ranks(a) == Ranks(b) {
      forall i | 0 <= i < |a| ensures a[i] == b[i] {
        assert Ranks(a)[i] == Ranks(b)[i];
      }
    }
  }

  lemma NamesTotal(a: string, b: string)
    ensures a == b || NameLess(a, b) || NameLess(b, a)
    ensures !(NameLess(a, b) && NameLess(b, a))
    ensures !NameLess(a, a)
  {
    NamesEqual(a, b);
    NamesEqual(a, a);
    CompareFlip(Utf16(a), Utf16(b));
  }

  lemma NamesTransitive(a: string, b: string, c: string)
    requires NameLess(a, b) && NameLess(b, c)
    ensures NameLess(a, c)
  {
    CompareTransitive(Utf16(a), Utf16(b), Utf16(c));
  }

  /** One supplementary character against one in U+E000..U+FFFF. */
  predicate Straddles(x: char, y: char) {
    (x as int >= 0x10000 && 0xE000 <= y as int < 0x10000) ||
    (y as int >= 0x10000 && 0xE000 <= x as int < 0x10000)
  }

  lemma {:induction false} CompareAtFirstDifference(u: seq<int>, v: seq<int>, i: nat)
    requires i < |u| && i < |v| && u[..i] == v[..i] && u[i] != v[i]
    ensures Compare(u, v) == if u[i] < v[i] then -1 else 1
  {
    assert u == u[..i] + u[i..] && v == u[..i] + v[i..];
    CompareSkip(u[..i], u[i..], v[i..]);
  }

  /** UTF-16 order reverses code-point order exactly when the first differing pair straddles. */
  lemma OrdersDisagreeExactly(a: string, b: string, i: nat)
    requires i < |a| && i < |b| && a[..i] == b[..i] && a[i] != b[i]
    ensures CompareNames(a, b) ==
            if Straddles(a[i], b[i]) then -Compare(Points(a), Points(b)) else Compare(Points(a), Points(b))
    ensures CompareNames(a, b) != Compare(Points(a), Points(b)) <==> Straddles(a[i], b[i])
  {
    forall j | 0 <= j < i ensures a[j] == b[j] {
      assert a[..i][j] == b[..i][j];
    }
    assert Ranks(a)[..i] == Ranks(b)[..i] && Points(a)[..i] == Points(b)[..i];
    CompareByRank(a, b);
    CompareAtFirstDifference(Ranks(a), Ranks(b), i);
    CompareAtFirstDifference(Points(a), Points(b), i);
  }

  /** With no differing pair the shorter text comes first in both orders. */
  lemma OrdersAgreeOnPrefix(a: string, b: string)
    requires a < b
    ensures CompareNames(a, b) == -1 && Compare(Points(a), Points(b)) == -1
  {
    CompareByRank(a, b);
    assert Ranks(b) == Ranks(a) + Ranks(b)[|a|..] && Points(b) == Points(a) + Points(b)[|a|..];
    assert Ranks(a) == Ranks(a) + [] && Points(a) == Points(a) + [];
    CompareSkip(Ranks(a), [], Ranks(b)[|a|..]);
    CompareSkip(Points(a), [], Points(b)[|a|..]);
  }

  /** compareUTF16: the loop over code units computes the member order. */
  method CompareUTF16(a: string, b: string) returns (r: int)
    ensures r == CompareNames(a, b)
  {
    var ua, ub := Utf16(a), Utf16(b);
    var n := if |ua| < |ub| then |ua| else |ub|;
    for i := 0 to n
      invariant ua[..i] == ub[..i]
    {
      if ua[i] != ub[i] {
        CompareAtFirstDifference(ua, ub, i);
        if ua[i] < ub[i] {
          return -1;
        }
        return 1;
      }
    }
    CompareSkip(ua[..n], ua[n..], ub[n..]);
    assert ua == ua[..n] + ua[n..] && ub == ua[..n] + ub[n..];
    if |ua| < |ub| {
      return -1;
    } else if |ua| > |ub| {
      return 1;
    } else {
      return 0;
    }
  }
}
