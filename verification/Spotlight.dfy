/** The code fence around an inbound message (section 4.5 of CommonMark). */
module Spotlight {

  predicate IsRun(s: string, from: nat, k: nat) {
    from + k <= |s| && forall j :: from <= j < from + k ==> s[j] == '`'
  }

  /** Some k backticks stand next to each other in s. */
  ghost predicate HasRun(s: string, k: nat) {
    exists i :: IsRun(s, i, k)
  }

  function Ticks(k: nat): (t: string)
    ensures |t| == k
  {
    seq(k, _ => '`')
  }

  function Fenced(s: string, k: nat): string { Ticks(k) + "\n" + s + "\n" + Ticks(k) }

  /** fence: the shortest fence of at least three backticks that no run in s reaches. */
  method Fence(s: string) returns (out: string, ghost k: nat)
    ensures k >= 3 && out == Fenced(s, k)
    ensures !HasRun(s, k)
    ensures k > 3 ==> HasRun(s, k - 1)
  {
    var longest, run := 0, 0;
    assert IsRun(s, 0, 0);
    for i := 0 to |s|
      invariant run <= longest && run <= i
      invariant IsRun(s, i - run, run) && (run < i ==> s[i - run - 1] != '`')
      invariant HasRun(s, longest)
      invariant forall a: nat, k: nat :: IsRun(s, a, k) && a + k <= i ==> k <= longest
    {
      if s[i] == '`' {
        run := run + 1;
        assert IsRun(s, i + 1 - run, run);
        forall a: nat, k: nat | IsRun(s, a, k) && a + k <= i + 1
          ensures k <= (if run > longest then run else longest)
        {
          if k > run && a + k == i + 1 {
            assert false;
          }
        }
        if run > longest {
          longest := run;
        }
      } else {
        forall a: nat, k: nat | IsRun(s, a, k) && a + k <= i + 1 ensures k <= longest {
          assert k > 0 ==> a + k <= i;
        }
        run := 0;
      }
    }
    var width := if longest + 1 < 3 then 3 else longest + 1;
    out, k := Ticks(width) + "\n" + s + "\n" + Ticks(width), width;
  }

  // ------------------------------------------------------------ lines

  predicate IsEol(c: char) { c == '\n' || c == '\r' }

  /** The lines of a text. */
  function Lines(t: string): (ls: seq<string>)
    ensures |ls| >= 1
  {
    if t == "" then [""]
    else if IsEol(t[0]) then [""] + Lines(t[1..])
    else
      var rest := Lines(t[1..]);
      [[t[0]] + rest[0]] + rest[1..]
  }

  /** A line that could close (or reopen) a fence of k backticks: indented by at most three spaces. */
  ghost predicate IsFenceLine(line: string, k: nat) {
    exists i :: 0 <= i <= 3 && IsRun(line, i, k) && forall j :: 0 <= j < i ==> line[j] == ' '
  }

  lemma {:induction false} LinesJoin(a: string, b: string)
    ensures Lines(a + "\n" + b) == Lines(a) + Lines(b)
  {
    var t := a + "\n" + b;
    if a == "" {
      assert t[1..] == b;
    } else {
      assert t[1..] == a[1..] + "\n" + b;
      LinesJoin(a[1..], b);
    }
  }

  lemma {:induction false} OneLine(t: string)
    requires forall i :: 0 <= i < |t| ==> !IsEol(t[i])
    ensures Lines(t) == [t]
  {
    if t == "" {
    } else {
      OneLine(t[1..]);
      assert [t[0]] + t[1..] == t;
    }
  }

  /** A run inside a line is a run of the whole text, and the first line is where the text starts. */
  lemma {:induction false} LineRuns(t: string, n: nat, k: nat)
    requires n < |Lines(t)|
    ensures HasRun(Lines(t)[n], k) ==> HasRun(t, k)
    ensures Lines(t)[0] <= t
  {
    if t == "" {
    } else {
      var rest := Lines(t[1..]);
      var m := if IsEol(t[0]) && n > 0 then n - 1 else n;
      LineRuns(t[1..], if m < |rest| then m else 0, k);
      if HasRun(Lines(t)[n], k) {
        if n == 0 {
          var i: nat :| IsRun(Lines(t)[n], i, k);
          assert forall j :: i <= j < i + k ==> t[j] == Lines(t)[0][j];
          assert IsRun(t, i, k);
        } else {
          assert Lines(t)[n] == rest[m];
          var i: nat :| IsRun(t[1..], i, k);
          assert forall j :: i + 1 <= j < i + 1 + k ==> t[j] == t[1..][j - 1];
          assert IsRun(t, i + 1, k);
        }
      }
    }
  }

  /** Exactly the first and the last line of the fenced text can act as lines of its fence. */
  lemma OnlyOuterLinesFence(s: string, k: nat)
    requires !HasRun(s, k)
    ensures Lines(Fenced(s, k)) == [Ticks(k)] + Lines(s) + [Ticks(k)]
    ensures IsFenceLine(Ticks(k), k)
    ensures forall n :: 0 <= n < |Lines(s)| ==> !IsFenceLine(Lines(s)[n], k)
  {
    LinesJoin(Ticks(k) + "\n" + s, Ticks(k));
    LinesJoin(Ticks(k), s);
    OneLine(Ticks(k));
    assert IsRun(Ticks(k), 0, k);
    forall n | 0 <= n < |Lines(s)| ensures !IsFenceLine(Lines(s)[n], k) {
      LineRuns(s, n, k);
    }
  }
}
