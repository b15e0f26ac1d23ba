/** The RFC 8785 canonical form of a JSON value. */
module Canonical {
  import opened Base
  import opened Unicode
  import opened Decimal
  import opened JsonString

  /** A decoded JSON document.  Numbers stand for IEEE doubles. */
  datatype Json =
    | Null
    | Bool(b: bool)
    | Str(s: string)
    | Num(n: Double)
    | Arr(items: seq<Json>)
    | Obj(members: map<string, Json>)

  // ------------------------------------------------------ member order

  predicate Sorted(ks: seq<string>) {
    forall i, j :: 0 <= i < j < |ks| ==> NameLess(ks[i], ks[j])
  }

  function SetOf(ks: seq<string>): set<string> { set k | k in ks }

  lemma {:induction false} LeastName(s: set<string>) returns (m: string)
    requires s != {}
    ensures m in s && forall k :: k in s && k != m ==> NameLess(m, k)
  {
    m :| m in s;
    if s == {m} {
    } else {
      var rest := s - {m};
      var r := LeastName(rest);
      NamesTotal(m, r);
      if NameLess(m, r) {
        forall k | k in rest && k != r ensures NameLess(m, k) {
          NamesTransitive(m, r, k);
        }
      } else {
        m := r;
      }
    }
  }

  /** The least of some names. */
  ghost function LeastOf(s: set<string>): (m: string)
    requires s != {}
    ensures m in s
    ensures forall k :: k in s && k != m ==> NameLess(m, k)
  {
    assert exists m :: m in s && forall k :: k in s && k != m ==> NameLess(m, k) by {
      var m := LeastName(s);
    }
    var m :| m in s && forall k :: k in s && k != m ==> NameLess(m, k);
    m
  }

  /** The names of a set in member order. */
  ghost function SortedNames(s: set<string>): (ks: seq<string>)
    ensures SetOf(ks) == s
  {
    if s == {} then []
    else
      var rest := SortedNames(s - {LeastOf(s)});
      SetOfCons(LeastOf(s), rest);
      [LeastOf(s)] + rest
  }

  lemma SetOfCons(m: string, rest: seq<string>)
    ensures SetOf([m] + rest) == {m} + SetOf(rest)
  {
  }

  lemma {:induction false} SortedNamesSorted(s: set<string>)
    ensures Sorted(SortedNames(s))
  {
    if s == {} {
    } else {
      var m := LeastOf(s);
      SortedNamesSorted(s - {m});
      SortedCons(m, SortedNames(s - {m}));
    }
  }

  lemma SortedCons(m: string, rest: seq<string>)
    requires Sorted(rest) && forall k :: k in SetOf(rest) ==> NameLess(m, k)
    ensures Sorted([m] + rest)
  {
    assert forall k :: k in rest ==> k in SetOf(rest);
  }

  lemma {:induction false} SortedNamesCount(s: set<string>)
    ensures |SortedNames(s)| == |s|
  {
    if s == {} {
    } else {
      SortedNamesCount(s - {LeastOf(s)});
    }
  }

  /** A set of names has one ordering. */
  lemma {:induction false} SortedUnique(a: seq<string>, b: seq<string>)
    requires Sorted(a) && Sorted(b) && SetOf(a) == SetOf(b)
    ensures a == b
  {
    NoNames(a);
    NoNames(b);
    if a == [] {
    } else {
      assert a[0] in SetOf(b);
      assert b[0] in SetOf(a);
      FirstIsLeast(a, b[0]);
      FirstIsLeast(b, a[0]);
      NamesTotal(a[0], b[0]);
      SetOfTail(a);
      SetOfTail(b);
      SortedUnique(a[1..], b[1..]);
      assert a == [a[0]] + a[1..] && b == [b[0]] + b[1..];
    }
  }

  lemma NoNames(a: seq<string>)
    ensures SetOf(a) == {} <==> a == []
  {
    if a != [] {
      assert a[0] in SetOf(a);
    }
  }

  lemma FirstIsLeast(a: seq<string>, k: string)
    requires Sorted(a) && k in a
    ensures k == a[0] || NameLess(a[0], k)
  {
  }

  lemma SetOfTail(a: seq<string>)
    requires Sorted(a) && a != []
    ensures Sorted(a[1..]) && SetOf(a[1..]) == SetOf(a) - {a[0]}
  {
    NamesTotal(a[0], a[0]);
    assert a == [a[0]] + a[1..];
  }

  // ----------------------------------------------------- canonical text

  const NULL: seq<Byte> := [110, 117, 108, 108]
  const TRUE: seq<Byte> := [116, 114, 117, 101]
  const FALSE: seq<Byte> := [102, 97, 108, 115, 101]
  const COMMA: Byte := 0x2C
  const COLON: Byte := 0x3A
  const LBRACKET: Byte := 0x5B
  const RBRACKET: Byte := 0x5D
  const LBRACE: Byte := 0x7B
  const RBRACE: Byte := 0x7D

  ghost function Print(v: Json): seq<Byte>
    decreases v
  {
    match v
    case Null => NULL
    case Bool(b) => if b then TRUE else FALSE
    case Str(s) => PrintString(s)
    case Num(n) => FormatFloatES(n)
    case Arr(items) => [LBRACKET] + PrintItems(v, items) + [RBRACKET]
    case Obj(m) => [LBRACE] + PrintMembers(v, SortedNames(m.Keys)) + [RBRACE]
  }

  ghost function PrintItems(v: Json, items: seq<Json>): seq<Byte>
    requires v.Arr? && forall i :: 0 <= i < |items| ==> items[i] in v.items
    decreases v, |items|
  {
    if items == [] then []
    else Print(items[0]) + (if |items| == 1 then [] else [COMMA] + PrintItems(v, items[1..]))
  }

  ghost function PrintMembers(v: Json, ks: seq<string>): seq<Byte>
    requires v.Obj? && forall k :: k in ks ==> k in v.members
    decreases v, |ks|
  {
    if ks == [] then []
    else
      PrintString(ks[0]) + [COLON] + Print(v.members[ks[0]]) +
      (if |ks| == 1 then [] else [COMMA] + PrintMembers(v, ks[1..]))
  }

  // ------------------------------------------------ numbers as doubles

  /**
   strconv.ParseFloat followed by the shortest digits of the double it returns; None is its error on
   a number out of range.  Kept a parameter: floating-point conversion is not part of this model.
   */
  type Rounding = Double -> Option<Double>

  /** The value with every number read as a double; None when some number has no double. */
  function Rounded(v: Json, round: Rounding): Option<Json>
    decreases v
  {
    match v
    case Num(n) =>
      (match round(n)
       case None => None
       case Some(d) => Some(Num(d)))
    case Arr(items) =>
      if forall i | 0 <= i < |items| :: Rounded(items[i], round).Some? then
        Some(Arr(seq(|items|, i requires 0 <= i < |items| => Rounded(items[i], round).value)))
      else None
    case Obj(m) =>
      if forall k | k in m :: Rounded(m[k], round).Some? then
        Some(Obj(map k | k in m :: Rounded(m[k], round).value))
      else None
    case _ => Some(v)
  }

  // ------------------------------------------------------------- methods

  predicate Distinct(ks: seq<string>) {
    forall i, j :: 0 <= i < j < |ks| ==> ks[i] != ks[j]
  }

  lemma SwapKeeps(ks: seq<string>, i: nat, j: nat)
    requires i < |ks| && j < |ks| && Distinct(ks)
    ensures Distinct(ks[i := ks[j]][j := ks[i]]) && SetOf(ks[i := ks[j]][j := ks[i]]) == SetOf(ks)
  {
    var t := ks[i := ks[j]][j := ks[i]];
    forall k | k in ks ensures k in t {
      var x :| 0 <= x < |ks| && ks[x] == k;
      assert t[if x == i then j else if x == j then i else x] == k;
    }
  }

  method FindLeast(a: array<string>, i: nat) returns (m: nat)
    requires i < a.Length && Distinct(a[..])
    ensures i <= m < a.Length
    ensures forall q :: i <= q < a.Length && q != m ==> NameLess(a[m], a[q])
  {
    m := i;
    for j := i + 1 to a.Length
      invariant i <= m < j
      invariant forall q :: i <= q < j && q != m ==> NameLess(a[m], a[q])
    {
      var c := CompareUTF16(a[j], a[m]);
      NamesTotal(a[j], a[m]);
      assert a[..][j] != a[..][m];
      if c < 0 {
        forall q | i <= q < j && q != m ensures NameLess(a[j], a[q]) {
          NamesTransitive(a[j], a[m], a[q]);
        }
        m := j;
      }
    }
  }

  /** slices.SortFunc(keys, compareUTF16) on the distinct keys of a map: the ordering of their set. */
  method SortNames(a: array<string>)
    requires Distinct(a[..])
    modifies a
    ensures a[..] == SortedNames(old(SetOf(a[..])))
  {
    var n := a.Length;
    for i := 0 to n
      invariant Distinct(a[..]) && SetOf(a[..]) == old(SetOf(a[..]))
      invariant Sorted(a[..i])
      invariant forall p, q :: 0 <= p < i <= q < n ==> NameLess(a[p], a[q])
    {
      var m := FindLeast(a, i);
      ghost var was := a[..];
      SwapKeeps(was, i, m);
      a[i], a[m] := a[m], a[i];
      assert a[..] == was[i := was[m]][m := was[i]];
      assert a[..i] == was[..i];
    }
    assert a[..n] == a[..];
    SortedNamesSorted(old(SetOf(a[..])));
    SortedUnique(a[..], SortedNames(old(SetOf(a[..]))));
  }

  /** The keys of a map, in whatever order the iteration yields them. */
  method CollectKeys(m: map<string, Json>) returns (keys: array<string>)
    ensures fresh(keys) && Distinct(keys[..]) && SetOf(keys[..]) == m.Keys
  {
    var ks: seq<string>, left := [], m.Keys;
    while left != {}
      invariant Distinct(ks) && SetOf(ks) == m.Keys - left && left <= m.Keys
      decreases left
    {
      var k :| k in left;
      assert k !in SetOf(ks);
      assert SetOf(ks + [k]) == SetOf(ks) + {k};
      ks := ks + [k];
      left := left - {k};
    }
    keys := new string[|ks|](i requires 0 <= i < |ks| => ks[i]);
    assert keys[..] == ks;
  }

  function Separator(i: nat, n: nat): seq<Byte> { if 0 < i < n then [COMMA] else [] }

  lemma ItemsStep(out: seq<Byte>, w: Json, i: nat)
    requires w.Arr? && i < |w.items|
    ensures out + Separator(i, |w.items|) + PrintItems(w, w.items[i..]) ==
            out + Separator(i, |w.items|) + Print(w.items[i]) +
            Separator(i + 1, |w.items|) + PrintItems(w, w.items[i + 1..])
  {
    assert w.items[i..][1..] == w.items[i + 1..];
    var a, b, rest := out + Separator(i, |w.items|), Print(w.items[i]), PrintItems(w, w.items[i + 1..]);
    if i + 1 == |w.items| {
      Flatten(a, [], b, [], []);
    } else {
      Flatten(a, [], b, [COMMA], rest);
    }
  }

  lemma MembersStep(out: seq<Byte>, w: Json, ks: seq<string>, i: nat)
    requires w.Obj? && (forall k :: k in ks ==> k in w.members) && i < |ks|
    ensures out + Separator(i, |ks|) + PrintMembers(w, ks[i..]) ==
            out + Separator(i, |ks|) + PrintString(ks[i]) + [COLON] + Print(w.members[ks[i]]) +
            Separator(i + 1, |ks|) + PrintMembers(w, ks[i + 1..])
  {
    assert ks[i..][1..] == ks[i + 1..];
    var a, k, b := out + Separator(i, |ks|), PrintString(ks[i]), Print(w.members[ks[i]]);
    var rest := PrintMembers(w, ks[i + 1..]);
    if i + 1 == |ks| {
      Flatten(a, k, b, [], []);
    } else {
      Flatten(a, k, b, [COMMA], rest);
    }
  }

  lemma Flatten(a: seq<Byte>, k: seq<Byte>, b: seq<Byte>, sep: seq<Byte>, rest: seq<Byte>)
    ensures a + (k + [COLON] + b + (sep + rest)) == a + k + [COLON] + b + sep + rest
    ensures a + (b + (sep + rest)) == a + b + sep + rest
  {
    assert k + [COLON] + b + (sep + rest) == k + ([COLON] + (b + (sep + rest)));
    assert a + k + [COLON] + b + sep + rest == a + (k + ([COLON] + (b + (sep + rest))));
  }

  /** appendCanonical: appends the canonical form of the rounded value, or fails with its numbers. */
  method AppendCanonical(dst: seq<Byte>, v: Json, round: Rounding) returns (out: seq<Byte>, ok: bool)
    ensures ok <==> Rounded(v, round).Some?
    ensures ok ==> out == dst + Print(Rounded(v, round).value)
    decreases v
  {
    match v {
      case Null => out, ok := dst + NULL, true;
      case Bool(b) => out, ok := dst + (if b then TRUE else FALSE), true;
      case Str(s) =>
        out := AppendString(dst, s);
        ok := true;
      case Num(n) =>
        var d := round(n);
        if d.None? {
          return dst, false;
        }
        out, ok := dst + FormatFloatES(d.value), true;
      case Arr(items) =>
        out, ok := AppendItems(dst + [LBRACKET], v, round);
        if ok {
          var w := Rounded(v, round).value;
          Enclose(dst, LBRACKET, PrintItems(w, w.items), RBRACKET);
        }
        out := out + [RBRACKET];
      case Obj(m) => out, ok := AppendObject(dst, v, round);
    }
  }

  lemma Enclose(dst: seq<Byte>, l: Byte, t: seq<Byte>, r: Byte)
    ensures dst + [l] + t + [r] == dst + ([l] + t + [r])
  {
  }

  method AppendObject(dst: seq<Byte>, v: Json, round: Rounding) returns (out: seq<Byte>, ok: bool)
    requires v.Obj?
    ensures ok <==> Rounded(v, round).Some?
    ensures ok ==> out == dst + Print(Rounded(v, round).value)
    decreases v, 1
  {
    var keys := CollectKeys(v.members);
    SortNames(keys);
    var ks := keys[..];
    out, ok := AppendMembers(dst + [LBRACE], v, ks, round);
    if ok {
      var w := Rounded(v, round).value;
      assert w.members.Keys == v.members.Keys;
      Enclose(dst, LBRACE, PrintMembers(w, ks), RBRACE);
    }
    out := out + [RBRACE];
  }

  method AppendItems(dst: seq<Byte>, v: Json, round: Rounding) returns (out: seq<Byte>, ok: bool)
    requires v.Arr?
    ensures ok <==> Rounded(v, round).Some?
    ensures ok ==> var w := Rounded(v, round).value; out == dst + PrintItems(w, w.items)
    decreases v, 0
  {
    var n := |v.items|;
    ghost var w := Rounded(v, round);
    ghost var goal := if w.Some? then dst + PrintItems(w.value, w.value.items) else [];
    assert w.Some? ==> w.value.items[0..] == w.value.items && dst + [] == dst;
    out := dst;
    for i := 0 to n
      invariant forall j :: 0 <= j < i ==> Rounded(v.items[j], round).Some?
      invariant w.Some? ==> out + Separator(i, n) + PrintItems(w.value, w.value.items[i..]) == goal
    {
      if w.Some? {
        ItemsStep(out, w.value, i);
      }
      assert out + Separator(i, n) == if i > 0 then out + [COMMA] else out;
      if i > 0 {
        out := out + [COMMA];
      }
      out, ok := AppendCanonical(out, v.items[i], round);
      if !ok {
        return;
      }
    }
    assert w.value.items[n..] == [] && out + [] + [] == out;
    ok := true;
  }

  method AppendMembers(dst: seq<Byte>, v: Json, ks: seq<string>, round: Rounding)
    returns (out: seq<Byte>, ok: bool)
    requires v.Obj? && SetOf(ks) == v.members.Keys
    ensures forall k :: k in ks ==> k in v.members
    ensures ok <==> Rounded(v, round).Some?
    ensures ok ==> out == dst + PrintMembers(Rounded(v, round).value, ks)
    decreases v, 0
  {
    var m, n := v.members, |ks|;
    assert forall k :: k in ks <==> k in SetOf(ks);
    ghost var w := Rounded(v, round);
    ghost var goal := if w.Some? then dst + PrintMembers(w.value, ks) else [];
    assert ks[0..] == ks && dst + [] == dst;
    out := dst;
    for i := 0 to n
      invariant forall j :: 0 <= j < i ==> Rounded(m[ks[j]], round).Some?
      invariant w.Some? ==> out + Separator(i, n) + PrintMembers(w.value, ks[i..]) == goal
    {
      if w.Some? {
        MembersStep(out, w.value, ks, i);
      }
      assert out + Separator(i, n) == if i > 0 then out + [COMMA] else out;
      if i > 0 {
        out := out + [COMMA];
      }
      out := AppendString(out, ks[i]);
      out := out + [COLON];
      out, ok := AppendCanonical(out, m[ks[i]], round);
      if !ok {
        return;
      }
    }
    forall k | k in m ensures Rounded(m[k], round).Some? {
      assert k in ks;
    }
    assert ks[n..] == [] && out + [] + [] == out;
    ok := true;
  }
}
