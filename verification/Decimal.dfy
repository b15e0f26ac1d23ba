/**
 Finite decimal numbers and their ECMAScript layout (section 3.2.2.3 of RFC 8785).
 A double is represented by its shortest significant digits and the position of its decimal point;
 finding those digits (strconv) is not part of this model.
 */
module Decimal {
  import opened Base

  type Digit = x: int | 0 <= x < 10

  /** Zero, or 0.d1d2...dk x 10^point. */
  datatype Number = Zero | Dec(neg: bool, digits: seq<Digit>, point: int) {
    predicate Normal() {
      Dec? ==> |digits| > 0 && digits[0] != 0 && digits[|digits| - 1] != 0
    }
  }

  type Double = n: Number | n.Normal() witness Zero

  // --------------------------------------------------------- digit strings

  function NatOf(ds: seq<Digit>): nat {
    if ds == [] then 0 else 10 * NatOf(ds[..|ds| - 1]) + ds[|ds| - 1]
  }

  /** strconv.Itoa on a natural number. */
  function DigitsOf(n: nat): (ds: seq<Digit>)
    ensures |ds| >= 1
    ensures n != 0 ==> ds[0] != 0
    ensures NatOf(ds) == n
  {
    if n < 10 then [n] else DigitsOf(n / 10) + [n % 10]
  }

  function Zeros(k: nat): seq<Digit> { seq(k, _ => 0) }

  lemma {:induction false} NatOfZerosBefore(k: nat, ds: seq<Digit>)
    ensures NatOf(Zeros(k) + ds) == NatOf(ds)
    decreases k + |ds|
  {
    var all := Zeros(k) + ds;
    if ds != [] {
      assert all[..|all| - 1] == Zeros(k) + ds[..|ds| - 1];
      NatOfZerosBefore(k, ds[..|ds| - 1]);
    } else if k > 0 {
      assert all[..|all| - 1] == Zeros(k - 1) + ds;
      NatOfZerosBefore(k - 1, ds);
    }
  }

  lemma DivMod10(n: nat, d: Digit)
    ensures (10 * n + d) / 10 == n && (10 * n + d) % 10 == d
  {
  }

  lemma {:induction false} NatOfPositive(ds: seq<Digit>)
    requires ds != [] && ds[0] != 0
    ensures NatOf(ds) > 0
    decreases |ds|
  {
    if |ds| == 1 {
    } else {
      NatOfPositive(ds[..|ds| - 1]);
    }
  }

  /** One more digit on what Itoa prints. */
  lemma DigitsOfStep(n: nat, front: seq<Digit>, d: Digit)
    requires n > 0 && DigitsOf(n) == front
    ensures DigitsOf(10 * n + d) == front + [d]
  {
    DivMod10(n, d);
  }

  /** A digit string without a leading zero is the one Itoa prints for its value. */
  lemma {:induction false} DigitsOfNatOf(ds: seq<Digit>)
    requires |ds| >= 1 && (|ds| > 1 ==> ds[0] != 0)
    ensures DigitsOf(NatOf(ds)) == ds
    decreases |ds|
  {
    var front, d := ds[..|ds| - 1], ds[|ds| - 1];
    assert ds == front + [d];
    if front == [] {
      assert NatOf(ds) == d;
    } else {
      DigitsOfNatOf(front);
      NatOfPositive(front);
      DigitsOfStep(NatOf(front), front, d);
    }
  }

  // ------------------------------------------------------- exact denotation

  function Pow10(e: int): real
    decreases if e < 0 then -e else e
  {
    if e == 0 then 1.0 else if e > 0 then 10.0 * Pow10(e - 1) else Pow10(e + 1) / 10.0
  }

  lemma Pow10Step(e: int)
    ensures Pow10(e + 1) == 10.0 * Pow10(e)
  {
  }

  function Times(n: nat, p: real): real { n as real * p }

  function Signed(neg: bool, x: real): real { if neg then -x else x }

  /** The number a digit string denotes when its last digit counts 10^scale. */
  function Scaled(neg: bool, ds: seq<Digit>, scale: int): real {
    Signed(neg, Times(NatOf(ds), Pow10(scale)))
  }

  function Denotes(n: Number): real {
    match n
    case Zero => 0.0
    case Dec(neg, ds, point) => Scaled(neg, ds, point - |ds|)
  }

  /** The normal form of digits x 10^scale: no zero at either end. */
  function Normalise(neg: bool, ds: seq<Digit>, scale: int): Double
    decreases |ds|
  {
    if ds == [] then Zero
    else if ds[0] == 0 then Normalise(neg, ds[1..], scale)
    else if ds[|ds| - 1] == 0 then Normalise(neg, ds[..|ds| - 1], scale + 1)
    else Dec(neg, ds, scale + |ds|)
  }

  lemma {:induction false} NormaliseDenotes(neg: bool, ds: seq<Digit>, scale: int)
    ensures Denotes(Normalise(neg, ds, scale)) == Scaled(neg, ds, scale)
    decreases |ds|
  {
    if ds == [] {
      assert Times(0, Pow10(scale)) == 0.0;
    } else if ds[0] == 0 {
      assert Zeros(1) + ds[1..] == ds;
      NatOfZerosBefore(1, ds[1..]);
      NormaliseDenotes(neg, ds[1..], scale);
      assert NatOf(ds) == NatOf(ds[1..]);
    } else if ds[|ds| - 1] == 0 {
      NormaliseDenotes(neg, ds[..|ds| - 1], scale + 1);
      ScaledDropZero(neg, ds, scale);
    } else {
      var point := scale + |ds|;
      assert Normalise(neg, ds, scale) == Dec(neg, ds, point);
      assert point - |ds| == scale;
    }
  }

  lemma ScaledDropZero(neg: bool, ds: seq<Digit>, scale: int)
    requires ds != [] && ds[|ds| - 1] == 0
    ensures Scaled(neg, ds[..|ds| - 1], scale + 1) == Scaled(neg, ds, scale)
  {
    var n := NatOf(ds[..|ds| - 1]);
    assert NatOf(ds) == 10 * n;
    Pow10Step(scale);
    MoveTen(n, Pow10(scale));
  }

  lemma MoveTen(n: nat, p: real)
    ensures Times(10 * n, p) == Times(n, 10.0 * p)
  {
    assert (10 * n) as real == n as real * 10.0;
  }

  lemma {:induction false} NormaliseLeading(neg: bool, k: nat, ds: seq<Digit>, scale: int)
    ensures Normalise(neg, Zeros(k) + ds, scale) == Normalise(neg, ds, scale)
  {
    if k == 0 {
      assert Zeros(0) + ds == ds;
    } else {
      assert (Zeros(k) + ds)[1..] == Zeros(k - 1) + ds;
      NormaliseLeading(neg, k - 1, ds, scale);
    }
  }

  lemma {:induction false} NormaliseTrailing(neg: bool, ds: seq<Digit>, k: nat, scale: int)
    requires ds != [] && ds[0] != 0
    ensures Normalise(neg, ds + Zeros(k), scale) == Normalise(neg, ds, scale + k)
  {
    if k == 0 {
      assert ds + Zeros(0) == ds;
    } else {
      var all := ds + Zeros(k);
      assert all[..|all| - 1] == ds + Zeros(k - 1);
      NormaliseTrailing(neg, ds, k - 1, scale + 1);
    }
  }

  // ------------------------------------------- numerals of the JSON grammar

  datatype Exponent = Exponent(neg: bool, digits: seq<Digit>) {
    function Value(): int {
      var n: int := NatOf(digits);
      if neg then -n else n
    }
  }

  /** The parts of `-? int frac? exp?`; a fraction or exponent that is present has digits. */
  datatype Numeral = Numeral(neg: bool, whole: seq<Digit>, frac: seq<Digit>, exp: Option<Exponent>) {
    predicate Grammatical() {
      |whole| > 0 && (|whole| > 1 ==> whole[0] != 0) && (exp.Some? ==> |exp.value.digits| > 0)
    }

    function Scale(): int {
      (match exp
       case None => 0
       case Some(e) => e.Value()) - |frac|
    }

    /** The number the numeral denotes, in normal form. */
    function Value(): Double { Normalise(neg, whole + frac, Scale()) }

    /** The number the numeral denotes, straight from its digits. */
    function Denotation(): real { Scaled(neg, whole + frac, Scale()) }
  }

  lemma ValueDenotes(u: Numeral)
    ensures Denotes(u.Value()) == u.Denotation()
  {
    NormaliseDenotes(u.neg, u.whole + u.frac, u.Scale());
  }

  const MINUS: Byte := 45
  const PLUS: Byte := 43
  const DOT: Byte := 46
  const LOWER_E: Byte := 101
  const UPPER_E: Byte := 69

  function AsciiDigit(d: Digit): Byte {
    var n: int := d;
    48 + n
  }

  function Ascii(ds: seq<Digit>): (b: seq<Byte>)
    ensures |b| == |ds|
  {
    seq(|ds|, i requires 0 <= i < |ds| => AsciiDigit(ds[i]))
  }

  /** The spelling with a lower-case `e` and an explicit exponent sign. */
  function Spell(u: Numeral): seq<Byte> {
    (if u.neg then [MINUS] else []) + SpellWhole(u)
  }

  function SpellWhole(u: Numeral): seq<Byte> { Ascii(u.whole) + SpellFrac(u) + SpellExp(u) }

  function SpellFrac(u: Numeral): seq<Byte> {
    if u.frac == [] then [] else [DOT] + Ascii(u.frac)
  }

  function SpellExp(u: Numeral): seq<Byte> {
    match u.exp
    case None => []
    case Some(e) => [LOWER_E] + [if e.neg then MINUS else PLUS] + Ascii(e.digits)
  }

  /** Any spelling of an exponent: a capital E, and a positive sign left out, are allowed. */
  function WrittenExp(x: Exponent, capital: bool, plus: bool): seq<Byte> {
    [if capital then UPPER_E else LOWER_E] + (if x.neg then [MINUS] else if plus then [PLUS] else []) + Ascii(x.digits)
  }

  function WrittenTail(x: Option<Exponent>, capital: bool, plus: bool): seq<Byte> {
    if x.None? then [] else WrittenExp(x.value, capital, plus)
  }

  /** Any spelling of a number in the JSON grammar. */
  function WrittenNumber(u: Numeral, capital: bool, plus: bool): seq<Byte> {
    (if u.neg then [MINUS] else []) + (Ascii(u.whole) + (SpellFrac(u) + WrittenTail(u.exp, capital, plus)))
  }

  // ------------------------------------------------------ formatFloatES

  /** The text formatFloatES lays out: fixed for a point in (-6, 21], exponential otherwise. */
  function FormatFloatES(x: Double): seq<Byte> {
    match x
    case Zero => [48]
    case Dec(neg, ds, n) => if neg then [MINUS] + FormatDigits(ds, n) else FormatDigits(ds, n)
  }

  function FormatDigits(ds: seq<Digit>, n: int): seq<Byte>
    requires |ds| > 0
  {
    var k := |ds|;
    if 1 <= n <= 21 then
      if k <= n then Ascii(ds) + Ascii(Zeros(n - k))
      else Ascii(ds[..n]) + [DOT] + Ascii(ds[n..])
    else if -6 < n <= 0 then
      [48, DOT] + Ascii(Zeros(-n)) + Ascii(ds)
    else
      var m := if k > 1 then Ascii(ds[..1]) + [DOT] + Ascii(ds[1..]) else Ascii(ds);
      var e := n - 1;
      if e < 0 then m + [LOWER_E] + [MINUS] + Ascii(DigitsOf(-e))
      else m + [LOWER_E] + [PLUS] + Ascii(DigitsOf(e))
  }

  /** The same text as the parts of a numeral. */
  function Layout(x: Double): (u: Numeral)
    ensures u.Grammatical()
  {
    match x
    case Zero => Numeral(false, [0], [], None)
    case Dec(neg, ds, n) =>
      if 1 <= n <= 21 then
        if |ds| <= n then Numeral(neg, ds + Zeros(n - |ds|), [], None)
        else Numeral(neg, ds[..n], ds[n..], None)
      else if -6 < n <= 0 then Numeral(neg, [0], Zeros(-n) + ds, None)
      else Numeral(neg, ds[..1], ds[1..],
                   Some(ExponentOf(n - 1)))
  }

  function ExponentOf(e: int): (x: Exponent)
    ensures |x.digits| > 0 && x.Value() == e
  {
    if e < 0 then Exponent(true, DigitsOf(-e)) else Exponent(false, DigitsOf(e))
  }

  /** An exponent without superfluous zero or sign is the one printed for its value. */
  lemma ExponentUnique(x: Exponent)
    requires |x.digits| > 0 && (|x.digits| > 1 ==> x.digits[0] != 0)
    requires x.neg ==> NatOf(x.digits) != 0
    ensures x == ExponentOf(x.Value())
  {
    DigitsOfNatOf(x.digits);
  }

  lemma AsciiConcat(a: seq<Digit>, b: seq<Digit>)
    ensures Ascii(a + b) == Ascii(a) + Ascii(b)
  {
  }

  lemma FormatIsSpelledLayout(x: Double)
    ensures FormatFloatES(x) == Spell(Layout(x))
  {
    assert Ascii([0]) == [48];
    if x.Dec? {
      FormatDigitsIsSpelled(x);
    }
  }

  lemma FormatDigitsIsSpelled(x: Double)
    requires x.Dec?
    ensures FormatDigits(x.digits, x.point) == SpellWhole(Layout(x))
  {
    if 1 <= x.point <= 21 {
      if |x.digits| <= x.point {
        FormatInteger(x);
      } else {
        FormatPoint(x);
      }
    } else if -6 < x.point <= 0 {
      FormatBelowOne(x);
    } else {
      FormatExponential(x);
    }
  }

  lemma FormatPoint(x: Double)
    requires x.Dec? && 1 <= x.point <= 21 && x.point < |x.digits|
    ensures FormatDigits(x.digits, x.point) == SpellWhole(Layout(x))
  {
    var u := Layout(x);
    assert u.whole == x.digits[..x.point] && u.frac == x.digits[x.point..];
    assert SpellFrac(u) == [DOT] + Ascii(u.frac) && SpellExp(u) == [];
    Regroup(Ascii(u.whole), [DOT], Ascii(u.frac), []);
  }

  lemma FormatBelowOne(x: Double)
    requires x.Dec? && -6 < x.point <= 0
    ensures FormatDigits(x.digits, x.point) == SpellWhole(Layout(x))
  {
    var u, z := Layout(x), Zeros(-x.point);
    AsciiConcat(z, x.digits);
    assert Ascii([0]) == [48] && [48] + [DOT] == [48, DOT];
    assert SpellFrac(u) == [DOT] + Ascii(u.frac) && SpellExp(u) == [];
    Regroup([48], [DOT], Ascii(z), Ascii(x.digits));
  }

  lemma FormatInteger(x: Double)
    requires x.Dec? && 1 <= x.point <= 21 && |x.digits| <= x.point
    ensures FormatDigits(x.digits, x.point) == SpellWhole(Layout(x))
  {
    var u, k := Layout(x), x.point - |x.digits|;
    AsciiConcat(x.digits, Zeros(k));
    assert SpellFrac(u) == [] && SpellExp(u) == [];
    assert Ascii(u.whole) + [] + [] == Ascii(u.whole);
  }

  lemma FormatExponential(x: Double)
    requires x.Dec? && !(-6 < x.point <= 21)
    ensures FormatDigits(x.digits, x.point) == SpellWhole(Layout(x))
  {
    var ds, u, e := x.digits, Layout(x), Layout(x).exp.value;
    var m := Ascii(ds[..1]) + SpellFrac(u);
    if |ds| == 1 {
      assert ds[..1] == ds && m == Ascii(ds);
    } else {
      assert m == Ascii(ds[..1]) + [DOT] + Ascii(ds[1..]);
    }
    var sign := [if e.neg then MINUS else PLUS];
    assert FormatDigits(ds, x.point) == m + [LOWER_E] + sign + Ascii(e.digits);
    Regroup(m, [LOWER_E], sign, Ascii(e.digits));
  }

  lemma Regroup(a: seq<Byte>, b: seq<Byte>, c: seq<Byte>, d: seq<Byte>)
    ensures a + b + c + d == a + (b + c + d) == a + b + (c + d) == a + (b + (c + d))
    ensures a + (b + c) + [] == a + b + c
  {
  }

  /** The laid-out text denotes exactly the number it was made from: reading it back is the identity. */
  lemma LayoutValue(x: Double)
    ensures Layout(x).Value() == x
  {
    if x.Zero? {
      LoneZero(Layout(x));
    } else if 1 <= x.point <= 21 && |x.digits| <= x.point {
      LayoutValueInteger(x);
    } else if -6 < x.point <= 0 {
      LayoutValueBelowOne(x);
    } else {
      LayoutValueDirect(x);
    }
  }

  lemma LayoutValueInteger(x: Double)
    requires x.Dec? && 1 <= x.point <= 21 && |x.digits| <= x.point
    ensures Layout(x).Value() == x
  {
    var u, k := Layout(x), x.point - |x.digits|;
    assert u.whole + u.frac == x.digits + Zeros(k);
    NormaliseTrailing(x.neg, x.digits, k, 0);
  }

  lemma LayoutValueBelowOne(x: Double)
    requires x.Dec? && -6 < x.point <= 0
    ensures Layout(x).Value() == x
  {
    var u := Layout(x);
    assert u.whole + u.frac == Zeros(1 - x.point) + x.digits;
    NormaliseLeading(x.neg, 1 - x.point, x.digits, u.Scale());
  }

  lemma LayoutValueDirect(x: Double)
    requires x.Dec? && !(-6 < x.point <= 0) && !(1 <= x.point <= 21 && |x.digits| <= x.point)
    ensures Layout(x).Value() == x
  {
    var u := Layout(x);
    assert u.whole + u.frac == x.digits;
    assert u.Scale() == x.point - |x.digits|;
  }

  lemma LoneZero(u: Numeral)
    requires u.whole == [0] && u.frac == []
    ensures u.Value() == Zero
  {
    NormaliseLeading(u.neg, 1, [], u.Scale());
    assert Zeros(1) + [] == u.whole + u.frac;
  }

  /** Section 3.2.2.3: the printed text denotes exactly digits x 10^(n-k). */
  lemma LayoutDenotes(x: Double)
    ensures Layout(x).Denotation() == Denotes(x)
  {
    LayoutValue(x);
    ValueDenotes(Layout(x));
  }

  // ----------------------------------- what an ECMAScript number looks like

  /**
   The shape ECMAScript gives a number whose decimal point stands at `point`: no superfluous zero or
   sign, an exponent exactly outside (-6, 21], one nonzero digit before the point when there is one.
   */
  ghost predicate EcmaShape(u: Numeral, point: int) {
    && u.Grammatical()
    && (u.frac != [] ==> u.frac[|u.frac| - 1] != 0)
    && (u.exp.None? <==> -6 < point <= 21)
    && (u.exp.Some? ==>
          && |u.whole| == 1 && u.whole[0] != 0
          && (|u.exp.value.digits| > 1 ==> u.exp.value.digits[0] != 0)
          && (u.exp.value.neg ==> NatOf(u.exp.value.digits) != 0))
  }

  lemma LayoutHasEcmaShape(x: Double)
    requires x.Dec?
    ensures EcmaShape(Layout(x), x.point)
  {
    var u := Layout(x);
    if 1 <= x.point <= 21 && |x.digits| <= x.point {
    } else if -6 < x.point <= 0 {
      assert u.frac[|u.frac| - 1] == x.digits[|x.digits| - 1];
    } else if !(1 <= x.point <= 21) {
      assert u.exp.value.Value() == x.point - 1;
    }
  }

  lemma {:induction false} LeadingRun(ds: seq<Digit>) returns (j: nat)
    requires ds != [] && ds[|ds| - 1] != 0
    ensures j < |ds| && ds == Zeros(j) + ds[j..] && ds[j] != 0
  {
    if ds[0] != 0 {
      j := 0;
    } else {
      j := LeadingRun(ds[1..]);
      assert ds == [0] + ds[1..];
      j := j + 1;
    }
  }

  lemma {:induction false} TrailingRun(ds: seq<Digit>) returns (j: nat)
    requires ds != [] && ds[0] != 0
    ensures j < |ds| && ds == ds[..|ds| - j] + Zeros(j) && ds[|ds| - j - 1] != 0
  {
    if ds[|ds| - 1] != 0 {
      j := 0;
    } else {
      var front := ds[..|ds| - 1];
      j := TrailingRun(front);
      assert ds == front + [0];
      assert front[..|front| - j] == ds[..|ds| - j - 1];
      j := j + 1;
    }
  }

  /** The layout is the only text of that shape which denotes the number. */
  lemma LayoutUnique(x: Double, u: Numeral)
    requires x.Dec?
    ensures u == Layout(x) <==> EcmaShape(u, x.point) && u.Value() == x
  {
    LayoutHasEcmaShape(x);
    LayoutValue(x);
    if EcmaShape(u, x.point) && u.Value() == x {
      if u.exp.Some? {
        UniqueExponential(x, u);
      } else if u.frac != [] {
        UniqueFraction(x, u);
      } else {
        UniqueInteger(x, u);
      }
    }
  }

  lemma UniqueExponential(x: Double, u: Numeral)
    requires x.Dec? && EcmaShape(u, x.point) && u.Value() == x && u.exp.Some?
    ensures u == Layout(x)
  {
    var e := u.exp.value;
    assert x.digits == u.whole + u.frac;
    assert x.point == e.Value() + 1;
    ExponentUnique(e);
  }

  lemma UniqueFraction(x: Double, u: Numeral)
    requires x.Dec? && EcmaShape(u, x.point) && u.Value() == x && u.exp.None? && u.frac != []
    ensures u == Layout(x)
  {
    var ds := u.whole + u.frac;
    if u.whole[0] != 0 {
      assert x.digits == ds && x.point == |u.whole|;
    } else {
      UniqueBelowOne(x, u);
    }
  }

  lemma UniqueBelowOne(x: Double, u: Numeral)
    requires x.Dec? && EcmaShape(u, x.point) && u.Value() == x && u.exp.None? && u.frac != [] && u.whole[0] == 0
    ensures u == Layout(x)
  {
    var j := LeadingRun(u.frac);
    var core := u.frac[j..];
    ZerosPrefix(u.whole, u.frac, j);
    NormaliseLeading(u.neg, j + 1, core, u.Scale());
    NormaliseNormal(u.neg, core, u.Scale());
    assert x.digits == core && x.point + j == 0;
  }

  lemma ZerosPrefix(whole: seq<Digit>, frac: seq<Digit>, j: nat)
    requires whole == [0] && j <= |frac| && frac == Zeros(j) + frac[j..]
    ensures whole + frac == Zeros(j + 1) + frac[j..]
  {
    assert Zeros(j + 1) == [0] + Zeros(j);
  }

  lemma NormaliseNormal(neg: bool, ds: seq<Digit>, scale: int)
    requires ds != [] && ds[0] != 0 && ds[|ds| - 1] != 0
    ensures Normalise(neg, ds, scale) == Dec(neg, ds, scale + |ds|)
  {
  }

  lemma UniqueInteger(x: Double, u: Numeral)
    requires x.Dec? && EcmaShape(u, x.point) && u.Value() == x && u.exp.None? && u.frac == []
    ensures u == Layout(x)
  {
    assert u.whole + u.frac == u.whole;
    if u.whole[0] != 0 {
      var j := TrailingRun(u.whole);
      var core := u.whole[..|u.whole| - j];
      NormaliseTrailing(u.neg, core, j, 0);
      assert Normalise(u.neg, core, j) == Dec(u.neg, core, |u.whole|);
    } else {
      LoneZero(u);
      assert false;
    }
  }

  // ------------------------------------------------- reading a number

  predicate IsDigit(b: Byte) { 48 <= b <= 57 }

  /** The longest run of ASCII digits at the front. */
  function ReadDigits(b: seq<Byte>): (r: (seq<Digit>, seq<Byte>))
    ensures b == Ascii(r.0) + r.1
    ensures r.1 == [] || !IsDigit(r.1[0])
  {
    if b == [] || !IsDigit(b[0]) then ([], b)
    else
      var (ds, rest) := ReadDigits(b[1..]);
      var d: Digit := DigitOf(b[0]);
      assert Ascii([d] + ds) == [b[0]] + Ascii(ds);
      ([d] + ds, rest)
  }

  function DigitOf(b: Byte): Digit
    requires IsDigit(b)
  {
    var n: int := b;
    n - 48
  }

  lemma {:induction false} ReadDigitsOfAscii(ds: seq<Digit>, rest: seq<Byte>)
    requires rest == [] || !IsDigit(rest[0])
    ensures ReadDigits(Ascii(ds) + rest) == (ds, rest)
  {
    if ds == [] {
      assert Ascii(ds) + rest == rest;
    } else {
      var b := Ascii(ds) + rest;
      assert b[0] == AsciiDigit(ds[0]);
      assert b[1..] == Ascii(ds[1..]) + rest;
      ReadDigitsOfAscii(ds[1..], rest);
      assert DigitOf(b[0]) == ds[0];
      assert ds == [ds[0]] + ds[1..];
    }
  }

  /** `-? int frac? exp?`, as long as it goes. */
  function ReadNumeral(b: seq<Byte>): (p: Parsed<Numeral>)
    ensures p.Ok? ==> p.value.Grammatical() && |p.rest| < |b|
  {
    if b != [] && b[0] == MINUS then ReadUnsigned(true, b[1..]) else ReadUnsigned(false, b)
  }

  function ReadUnsigned(neg: bool, b: seq<Byte>): (p: Parsed<Numeral>)
    ensures p.Ok? ==> p.value.Grammatical() && |p.rest| < |b|
  {
    var (whole, b1) := ReadDigits(b);
    if whole == [] || (|whole| > 1 && whole[0] == 0) then Fail
    else
      var frac := ReadFrac(b1);
      if frac.Fail? then Fail
      else
        var exp := ReadExp(frac.rest);
        if exp.Fail? then Fail else Ok(Numeral(neg, whole, frac.value, exp.value), exp.rest)
  }

  function ReadFrac(b: seq<Byte>): (p: Parsed<seq<Digit>>)
    ensures p.Ok? ==> |p.rest| <= |b|
  {
    if b == [] || b[0] != DOT then Ok([], b)
    else
      var (ds, rest) := ReadDigits(b[1..]);
      if ds == [] then Fail else Ok(ds, rest)
  }

  function ReadExp(b: seq<Byte>): (p: Parsed<Option<Exponent>>)
    ensures p.Ok? ==> |p.rest| <= |b| && (p.value.Some? ==> |p.value.value.digits| > 0)
  {
    if b == [] || (b[0] != LOWER_E && b[0] != UPPER_E) then Ok(None, b)
    else
      var signed := |b| > 1 && (b[1] == MINUS || b[1] == PLUS);
      var (ds, rest) := ReadDigits(if signed then b[2..] else b[1..]);
      if ds == [] then Fail else Ok(Some(Exponent(signed && b[1] == MINUS, ds)), rest)
  }

  /** What may follow a number without becoming part of it. */
  predicate EndsNumeral(rest: seq<Byte>) {
    rest == [] || (!IsDigit(rest[0]) && rest[0] != DOT && rest[0] != LOWER_E && rest[0] != UPPER_E)
  }

  lemma ExpText(e: Byte, sign: seq<Byte>, ds: seq<Digit>, rest: seq<Byte>)
    requires |sign| <= 1 && ds != []
    ensures var b := [e] + sign + Ascii(ds) + rest;
            && |b| > 1 && b[0] == e && b[1 + |sign|..] == Ascii(ds) + rest
            && b[1] == if sign == [] then AsciiDigit(ds[0]) else sign[0]
  {
    var b := [e] + sign + Ascii(ds) + rest;
    assert b == ([e] + sign) + (Ascii(ds) + rest);
  }

  lemma ReadExpOfWritten(x: Option<Exponent>, capital: bool, plus: bool, rest: seq<Byte>)
    requires EndsNumeral(rest) && (x.Some? ==> |x.value.digits| > 0)
    ensures ReadExp(WrittenTail(x, capital, plus) + rest) == Ok(x, rest)
  {
    if x.Some? {
      ReadExpOfSome(x.value, capital, plus, rest);
    } else {
      assert WrittenTail(x, capital, plus) + rest == rest;
    }
  }

  lemma ReadExpSigned(e: Byte, sign: seq<Byte>, ds: seq<Digit>, rest: seq<Byte>)
    requires (e == UPPER_E || e == LOWER_E) && (sign == [] || sign == [MINUS] || sign == [PLUS])
    requires EndsNumeral(rest) && ds != []
    ensures ReadExp([e] + sign + Ascii(ds) + rest) == Ok(Some(Exponent(sign == [MINUS], ds)), rest)
  {
    ExpText(e, sign, ds, rest);
    ReadDigitsOfAscii(ds, rest);
  }

  lemma ReadExpOfSome(x: Exponent, capital: bool, plus: bool, rest: seq<Byte>)
    requires EndsNumeral(rest) && |x.digits| > 0
    ensures ReadExp(WrittenExp(x, capital, plus) + rest) == Ok(Some(x), rest)
  {
    var e, sign := if capital then UPPER_E else LOWER_E, if x.neg then [MINUS] else if plus then [PLUS] else [];
    assert WrittenExp(x, capital, plus) == [e] + sign + Ascii(x.digits);
    ReadExpSigned(e, sign, x.digits, rest);
  }

  lemma ReadFracOfSpell(u: Numeral, tail: seq<Byte>)
    requires tail == [] || (!IsDigit(tail[0]) && tail[0] != DOT)
    ensures ReadFrac(SpellFrac(u) + tail) == Ok(u.frac, tail)
  {
    if u.frac == [] {
      assert SpellFrac(u) + tail == tail;
    } else {
      assert (SpellFrac(u) + tail)[1..] == Ascii(u.frac) + tail;
      ReadDigitsOfAscii(u.frac, tail);
    }
  }

  lemma ReadUnsignedOfWritten(u: Numeral, capital: bool, plus: bool, rest: seq<Byte>)
    requires u.Grammatical() && EndsNumeral(rest)
    ensures ReadUnsigned(u.neg, Ascii(u.whole) + (SpellFrac(u) + (WrittenTail(u.exp, capital, plus) + rest)))
            == Ok(u, rest)
  {
    var tail := WrittenTail(u.exp, capital, plus) + rest;
    ReadExpOfWritten(u.exp, capital, plus, rest);
    ReadFracOfSpell(u, tail);
    var afterWhole := SpellFrac(u) + tail;
    assert afterWhole == [] || !IsDigit(afterWhole[0]);
    ReadDigitsOfAscii(u.whole, afterWhole);
  }

  /** Every spelling of a numeral is read as that numeral. */
  lemma ReadNumeralOfWritten(u: Numeral, capital: bool, plus: bool, rest: seq<Byte>)
    requires u.Grammatical() && EndsNumeral(rest)
    ensures ReadNumeral(WrittenNumber(u, capital, plus) + rest) == Ok(u, rest)
  {
    var w, f, x := Ascii(u.whole), SpellFrac(u), WrittenTail(u.exp, capital, plus);
    var unsigned := w + (f + (x + rest));
    ReadUnsignedOfWritten(u, capital, plus, rest);
    Regrouped(if u.neg then [MINUS] else [], w, f, x, rest);
    SignText(u.neg, unsigned);
    assert unsigned[0] == AsciiDigit(u.whole[0]);
  }

  lemma Regrouped(sign: seq<Byte>, w: seq<Byte>, f: seq<Byte>, x: seq<Byte>, rest: seq<Byte>)
    ensures sign + (w + (f + x)) + rest == sign + (w + (f + (x + rest)))
  {
    Assoc(sign, w + (f + x), rest);
    Assoc(w, f + x, rest);
    Assoc(f, x, rest);
  }

  lemma SignText(neg: bool, unsigned: seq<Byte>)
    requires unsigned != []
    ensures var b := (if neg then [MINUS] else []) + unsigned;
            if neg then b[0] == MINUS && b[1..] == unsigned else b == unsigned
  {
  }

  lemma ExpGrouped(e: seq<Byte>, sign: seq<Byte>, ds: seq<Byte>, rest: seq<Byte>, b: seq<Byte>)
    requires |e| <= |b| && b[..|e|] == e && b[|e|..] == sign + (ds + rest)
    ensures b == e + sign + ds + rest
  {
    assert b == e + b[|e|..];
    assert e + (sign + (ds + rest)) == e + sign + ds + rest;
  }

  lemma OnlyExp(b: seq<Byte>) returns (capital: bool, plus: bool)
    requires ReadExp(b).Ok?
    ensures b == WrittenTail(ReadExp(b).value, capital, plus) + ReadExp(b).rest
  {
    capital := b != [] && b[0] == UPPER_E;
    plus := |b| > 1 && b[1] == PLUS;
    if ReadExp(b).value.Some? {
      var sign := if |b| > 1 && (b[1] == MINUS || b[1] == PLUS) then [b[1]] else [];
      assert b[1..] == sign + b[1 + |sign|..];
      ExpGrouped([b[0]], sign, Ascii(ReadExp(b).value.value.digits), ReadExp(b).rest, b);
    }
  }

  lemma OnlyFrac(b: seq<Byte>)
    requires ReadFrac(b).Ok?
    ensures b == (if ReadFrac(b).value == [] then [] else [DOT] + Ascii(ReadFrac(b).value)) + ReadFrac(b).rest
  {
    if b != [] && b[0] == DOT {
      assert b == [DOT] + b[1..];
    }
  }

  lemma OnlyUnsigned(neg: bool, b: seq<Byte>) returns (capital: bool, plus: bool)
    requires ReadUnsigned(neg, b).Ok?
    ensures var u := ReadUnsigned(neg, b).value;
            u.neg == neg &&
            b == Ascii(u.whole) + (SpellFrac(u) + (WrittenTail(u.exp, capital, plus) + ReadUnsigned(neg, b).rest))
  {
    var (_, b1) := ReadDigits(b);
    OnlyFrac(b1);
    capital, plus := OnlyExp(ReadFrac(b1).rest);
  }

  /** And a numeral read was spelled so: the reader takes exactly the spellings of numbers. */
  lemma OnlyNumeral(b: seq<Byte>) returns (capital: bool, plus: bool)
    requires ReadNumeral(b).Ok?
    ensures b == WrittenNumber(ReadNumeral(b).value, capital, plus) + ReadNumeral(b).rest
  {
    var u, rest := ReadNumeral(b).value, ReadNumeral(b).rest;
    var sign := if b[0] == MINUS then [MINUS] else [];
    assert b == sign + b[|sign|..];
    capital, plus := OnlyUnsigned(b[0] == MINUS, b[|sign|..]);
    Regrouped(sign, Ascii(u.whole), SpellFrac(u), WrittenTail(u.exp, capital, plus), rest);
  }

  /** The spelling formatFloatES uses. */
  lemma SpellIsWritten(u: Numeral)
    ensures Spell(u) == WrittenNumber(u, false, true)
  {
    var w, f, x := Ascii(u.whole), SpellFrac(u), SpellExp(u);
    assert x == WrittenTail(u.exp, false, true);
    assert w + f + x == w + (f + x);
  }

  lemma ExponentAtThresholds()
    ensures FormatDigits([1], 22) == [49, 101, 43, 50, 49]
    ensures FormatDigits([1], -6) == [49, 101, 45, 55]
  {
    assert DigitsOf(21) == [2, 1] && DigitsOf(7) == [7];
  }

  lemma WrittenOutAtThresholds()
    ensures FormatDigits([1], 21) == [49] + Ascii(Zeros(20))
    ensures FormatDigits([1], -5) == [48, 46, 48, 48, 48, 48, 48, 49]
  {
    assert Zeros(5) == [0, 0, 0, 0, 0];
    assert Ascii([1]) == [49];
  }

  /** At the thresholds: 1e20 and 1e-6 are written out, 1e21 and 1e-7 with an exponent. */
  lemma LayoutAtThresholds()
    ensures FormatFloatES(Dec(false, [1], 21)) == [49] + Ascii(Zeros(20))
    ensures FormatFloatES(Dec(false, [1], 22)) == [49, 101, 43, 50, 49]
    ensures FormatFloatES(Dec(false, [1], -5)) == [48, 46, 48, 48, 48, 48, 48, 49]
    ensures FormatFloatES(Dec(false, [1], -6)) == [49, 101, 45, 55]
    ensures FormatFloatES(Dec(true, [1, 2, 5], 1)) == [45, 49, 46, 50, 53]
  {
    ExponentAtThresholds();
    WrittenOutAtThresholds();
  }

  /** Reading a printed number recovers its digits and exponent, so no two numbers share a text. */
  lemma ReadFormat(x: Double, rest: seq<Byte>)
    requires EndsNumeral(rest)
    ensures ReadNumeral(FormatFloatES(x) + rest) == Ok(Layout(x), rest)
    ensures Layout(x).Value() == x
  {
    FormatIsSpelledLayout(x);
    SpellIsWritten(Layout(x));
    ReadNumeralOfWritten(Layout(x), false, true, rest);
    LayoutValue(x);
  }

  lemma FormatInjective(x: Double, y: Double)
    requires FormatFloatES(x) == FormatFloatES(y)
    ensures x == y
  {
    ReadFormat(x, []);
    ReadFormat(y, []);
  }
}
