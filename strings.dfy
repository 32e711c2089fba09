/**
  The few Python string operations the core relies on, stated over `seq<char>`:
  `needle in hay`, `s.split(sep)`, `s.strip()`, `s.split('#')[0]`, `s.lower()`
  and `int(s)`.
 */
module Strings {
  import opened Wrappers

  /** Python's `needle in hay` for two strings: a contiguous occurrence. */
  predicate Contains(hay: string, needle: string)
    decreases |hay|
  {
    needle <= hay || (|hay| > 0 && Contains(hay[1..], needle))
  }

  lemma {:induction false} ContainsAt(hay: string, needle: string, i: nat)
    requires i + |needle| <= |hay| && hay[i..i + |needle|] == needle
    ensures Contains(hay, needle)
    decreases i
  {
    if i > 0 {
      assert hay[1..][i - 1..i - 1 + |needle|] == needle;
      ContainsAt(hay[1..], needle, i - 1);
    }
  }

  /** Python's `s.split(sep)[0]`: everything before the first `sep`, or all of `s`. */
  function Before(s: string, sep: char): (r: string)
    ensures r <= s
    ensures sep !in r
    ensures |r| < |s| ==> s[|r|] == sep
  {
    if s == [] || s[0] == sep then [] else [s[0]] + Before(s[1..], sep)
  }

  /** `parts` glued back together with `sep` between neighbours (Python's `sep.join`). */
  function Join(parts: seq<string>, sep: char): string
    requires |parts| >= 1
  {
    if |parts| == 1 then parts[0] else parts[0] + [sep] + Join(parts[1..], sep)
  }

  /** Python's `s.split(sep)` for a one-character separator; always at least one part. */
  function Split(s: string, sep: char): (parts: seq<string>)
    ensures |parts| >= 1
    ensures forall i :: 0 <= i < |parts| ==> sep !in parts[i]
    ensures Join(parts, sep) == s
  {
    if s == [] then [[]]
    else
      var rest := Split(s[1..], sep);
      if s[0] == sep then [[]] + rest
      else
        assert |rest| > 1 ==> Join(rest, sep) == rest[0] + [sep] + Join(rest[1..], sep);
        [[s[0]] + rest[0]] + rest[1..]
  }

  /** Splitting a join of separator-free parts gives the parts back. */
  lemma {:induction false} SplitJoin(parts: seq<string>, sep: char)
    requires |parts| >= 1
    requires forall i :: 0 <= i < |parts| ==> sep !in parts[i]
    ensures Split(Join(parts, sep), sep) == parts
    decreases |parts|, |parts[0]|
  {
    var p := parts[0];
    if p == [] {
      if |parts| > 1 {
        SplitJoin(parts[1..], sep);
        assert Join(parts, sep) == [sep] + Join(parts[1..], sep);
        assert Join(parts, sep)[1..] == Join(parts[1..], sep);
      }
    } else {
      var shorter := [p[1..]] + parts[1..];
      assert forall i :: 0 <= i < |shorter| ==> sep !in shorter[i] by {
        forall i | 0 <= i < |shorter| ensures sep !in shorter[i] {
          if i == 0 {
            assert forall c :: c in p[1..] ==> c in p;
          } else {
            assert shorter[i] == parts[i];
          }
        }
      }
      SplitJoin(shorter, sep);
      JoinCons(parts, sep);
      var j := Join(parts, sep);
      assert j[1..] == Join(shorter, sep);
      assert j[0] == p[0] && p[0] != sep;
      assert Split(j, sep) == [[p[0]] + shorter[0]] + shorter[1..];
      assert [p[0]] + p[1..] == p;
      assert [p] + parts[1..] == parts;
    }
  }

  /** Joining parts whose first part is non-empty starts with that part's first character. */
  lemma JoinCons(parts: seq<string>, sep: char)
    requires |parts| >= 1 && |parts[0]| > 0
    ensures Join(parts, sep) == [parts[0][0]] + Join([parts[0][1..]] + parts[1..], sep)
  {
    var p := parts[0];
    var shorter := [p[1..]] + parts[1..];
    assert p == [p[0]] + p[1..];
    if |parts| > 1 {
      assert shorter[1..] == parts[1..];
    }
  }

  /** Python's `str.isspace()` for one character. */
  predicate IsSpace(c: char)
  {
    || c == ' ' || '\t' <= c <= '\r' || '\U{1c}' <= c <= '\U{1f}'
    || c == '\U{85}' || c == '\U{a0}' || c == '\U{1680}' || '\U{2000}' <= c <= '\U{200a}'
    || c == '\U{2028}' || c == '\U{2029}' || c == '\U{202f}' || c == '\U{205f}' || c == '\U{3000}'
  }

  /**
    The white space `int()` skips around a number: CPython maps every other
    `str.isspace()` character to a blank first, then skips only the ASCII
    white space, so the separators U+001C..U+001F are not skipped.
   */
  predicate IsIntSpace(c: char)
  {
    IsSpace(c) && !('\U{1c}' <= c <= '\U{1f}')
  }

  /** The end of the run of characters in `sp` that starts at index `k`. */
  function RunFrom(s: string, k: nat, sp: char -> bool): (n: nat)
    requires k <= |s|
    ensures k <= n <= |s|
    ensures forall i :: k <= i < n ==> sp(s[i])
    ensures n < |s| ==> !sp(s[n])
    decreases |s| - k
  {
    if k < |s| && sp(s[k]) then RunFrom(s, k + 1, sp) else k
  }

  /** The start of the run of characters in `sp` that ends just before index `k`. */
  function RunBefore(s: string, k: nat, sp: char -> bool): (n: nat)
    requires k <= |s|
    ensures n <= k
    ensures forall i :: n <= i < k ==> sp(s[i])
    ensures n > 0 ==> !sp(s[n - 1])
    decreases k
  {
    if k > 0 && sp(s[k - 1]) then RunBefore(s, k - 1, sp) else k
  }

  /**
    The slice of `s` left between its leading and its trailing characters in
    `sp`, which neither starts nor ends with one of them.
   */
  function TrimBy(s: string, sp: char -> bool): (r: string)
    ensures r == [] || (!sp(r[0]) && !sp(r[|r| - 1]))
  {
    var a := RunFrom(s, 0, sp);
    if a == |s| then []
    else
      s[a..RunBefore(s, |s|, sp)]
  }

  /** Python's `s.strip()`: white space removed on both sides. */
  function Strip(s: string): (r: string)
    ensures r == [] || (!IsSpace(r[0]) && !IsSpace(r[|r| - 1]))
  {
    TrimBy(s, IsSpace)
  }

  /** What trimming removes is in `sp`, on either side of the slice it keeps. */
  lemma TrimSlice(s: string, sp: char -> bool)
    ensures var r := TrimBy(s, sp); var a := RunFrom(s, 0, sp);
            a + |r| <= |s| && r == s[a..a + |r|] &&
            (forall i :: 0 <= i < a ==> sp(s[i])) &&
            (forall i :: a + |r| <= i < |s| ==> sp(s[i]))
  {
  }

  /** A string that starts and ends outside `sp` is its own trim. */
  lemma TrimStripped(s: string, sp: char -> bool)
    requires s == [] || (!sp(s[0]) && !sp(s[|s| - 1]))
    ensures TrimBy(s, sp) == s
  {
    if s != [] {
      assert RunFrom(s, 0, sp) == 0;
      assert RunBefore(s, |s|, sp) == |s|;
      assert s[0..|s|] == s;
    }
  }

  /** `strip()` only removes characters. */
  lemma StripWithin(s: string)
    ensures forall c :: c in Strip(s) ==> c in s
  {
    var r := Strip(s);
    var a := RunFrom(s, 0, IsSpace);
    TrimSlice(s, IsSpace);
    forall c | c in r ensures c in s {
      var j :| 0 <= j < |r| && r[j] == c;
      assert s[a..a + |r|][j] == s[a + j];
    }
  }

  /** Python's `s.lower()` restricted to the ASCII letters. */
  function LowerAscii(s: string): (r: string)
    ensures |r| == |s|
    ensures forall i :: 0 <= i < |s| ==> r[i] == (if 'A' <= s[i] <= 'Z' then (s[i] as int + 32) as char else s[i])
  {
    if s == [] then [] else
      [if 'A' <= s[0] <= 'Z' then (s[0] as int + 32) as char else s[0]] + LowerAscii(s[1..])
  }

  predicate IsDigit(c: char) { '0' <= c <= '9' }

  function Digit(c: char): (v: nat)
    requires IsDigit(c)
    ensures v <= 9
  {
    c as int - '0' as int
  }

  function Pow10(n: nat): (p: nat)
    ensures p >= 1
  {
    if n == 0 then 1 else 10 * Pow10(n - 1)
  }

  lemma {:induction false} Pow10Mono(a: nat, b: nat)
    requires a <= b
    ensures Pow10(a) <= Pow10(b)
    decreases b
  {
    if a < b {
      Pow10Mono(a, b - 1);
    }
  }

  /** Position `j` of a numeral holds a digit, or an underscore followed by a digit. */
  predicate DigitOrJoin(s: string, j: nat)
    requires j < |s|
  {
    IsDigit(s[j]) || (s[j] == '_' && j + 1 < |s| && IsDigit(s[j + 1]))
  }

  /** The digits of a Python integer literal: a digit first, each underscore between two digits. */
  predicate Numeral(s: string)
  {
    |s| > 0 && IsDigit(s[0]) && forall j :: 0 < j < |s| ==> DigitOrJoin(s, j)
  }

  /**
    The scan of a numeral from position `i` on, `acc` being the value of the
    digits before `i`; `None` at the first character that breaks the rule.
   */
  function DigitsFrom(s: string, i: nat, acc: nat): Option<nat>
    requires i <= |s|
    decreases |s| - i
  {
    if i == |s| then Some(acc)
    else if IsDigit(s[i]) then DigitsFrom(s, i + 1, 10 * acc + Digit(s[i]))
    else if DigitOrJoin(s, i) then DigitsFrom(s, i + 1, acc)
    else None
  }

  function ReadNumeral(s: string): Option<nat>
  {
    if s != [] && IsDigit(s[0]) then DigitsFrom(s, 1, Digit(s[0])) else None
  }

  /** The scan succeeds exactly on the rest of a numeral, and then has at most `|s|` digits. */
  lemma {:induction false} DigitsFromSpec(s: string, i: nat, acc: nat)
    requires i <= |s|
    ensures DigitsFrom(s, i, acc).Some? <==> forall j :: i <= j < |s| ==> DigitOrJoin(s, j)
    ensures DigitsFrom(s, i, acc).Some? && acc < Pow10(i) ==> DigitsFrom(s, i, acc).value < Pow10(|s|)
    decreases |s| - i
  {
    if i < |s| {
      var next := if IsDigit(s[i]) then 10 * acc + Digit(s[i]) else acc;
      DigitsFromSpec(s, i + 1, next);
      assert acc < Pow10(i) ==> next < Pow10(i + 1);
    }
  }

  /** Reading a numeral succeeds exactly on a numeral, with at most `|s|` digits. */
  lemma NumeralSpec(s: string)
    ensures ReadNumeral(s).Some? <==> Numeral(s)
    ensures ReadNumeral(s).Some? ==> ReadNumeral(s).value < Pow10(|s|)
  {
    if s != [] && IsDigit(s[0]) {
      DigitsFromSpec(s, 1, Digit(s[0]));
    }
  }

  /**
    Python's `int(s)` in base 10: the white space of `IsIntSpace` on either
    side is ignored, then an optional sign and a numeral; `None` where Python
    raises ValueError.
   */
  function ParseInt(s: string): Option<int>
    decreases |s|
  {
    if s != [] && IsIntSpace(s[0]) then ParseInt(s[1..])
    else if s != [] && IsIntSpace(s[|s| - 1]) then ParseInt(s[..|s| - 1])
    else ParseSigned(s)
  }

  /** An optional sign and a numeral, with nothing around them. */
  function ParseSigned(t: string): Option<int>
  {
    if t != [] && (t[0] == '+' || t[0] == '-') then
      match ReadNumeral(t[1..])
      case Some(v) => Some(if t[0] == '-' then -(v as int) else v)
      case None => None
    else ReadNumeral(t)
  }

  /** Dropping the first character shifts a run that starts after it. */
  lemma {:induction false} RunFromTail(s: string, k: nat, sp: char -> bool)
    requires 1 <= k <= |s|
    ensures RunFrom(s, k, sp) == 1 + RunFrom(s[1..], k - 1, sp)
    decreases |s| - k
  {
    if k < |s| {
      assert s[1..][k - 1] == s[k];
      if sp(s[k]) {
        RunFromTail(s, k + 1, sp);
      }
    }
  }

  /** Dropping the first character shifts a run that ends after it. */
  lemma {:induction false} RunBeforeTail(s: string, k: nat, sp: char -> bool)
    requires 1 <= k <= |s|
    ensures RunBefore(s, k, sp) ==
            if RunBefore(s[1..], k - 1, sp) == 0 && sp(s[0]) then 0 else 1 + RunBefore(s[1..], k - 1, sp)
    decreases k
  {
    if k > 1 {
      assert s[1..][k - 2] == s[k - 1];
      if sp(s[k - 1]) {
        RunBeforeTail(s, k - 1, sp);
      }
    }
  }

  /** Dropping the last character leaves a run that starts before it. */
  lemma {:induction false} RunFromFront(s: string, k: nat, sp: char -> bool)
    requires k < |s|
    ensures RunFrom(s, k, sp) ==
            if RunFrom(s[..|s| - 1], k, sp) == |s| - 1 && sp(s[|s| - 1]) then |s| else RunFrom(s[..|s| - 1], k, sp)
    decreases |s| - k
  {
    if k < |s| - 1 {
      assert s[..|s| - 1][k] == s[k];
      if sp(s[k]) {
        RunFromFront(s, k + 1, sp);
      }
    }
  }

  /** Dropping the last character leaves a run that ends before it. */
  lemma {:induction false} RunBeforeFront(s: string, k: nat, sp: char -> bool)
    requires k < |s|
    ensures RunBefore(s, k, sp) == RunBefore(s[..|s| - 1], k, sp)
    decreases k
  {
    if k > 0 {
      assert s[..|s| - 1][k - 1] == s[k - 1];
      if sp(s[k - 1]) {
        RunBeforeFront(s, k - 1, sp);
      }
    }
  }

  /** Unless a string lies wholly in `sp`, its leading run ends before its trailing run starts. */
  lemma RunsOrdered(u: string, sp: char -> bool)
    requires RunFrom(u, 0, sp) < |u|
    ensures RunFrom(u, 0, sp) < RunBefore(u, |u|, sp)
  {
    assert !sp(u[RunFrom(u, 0, sp)]);
  }

  /** A leading character in `sp` is among those trimming removes. */
  lemma TrimSkipsFirst(s: string, sp: char -> bool)
    requires s != [] && sp(s[0])
    ensures TrimBy(s, sp) == TrimBy(s[1..], sp)
  {
    RunFromTail(s, 1, sp);
    if RunFrom(s[1..], 0, sp) < |s| - 1 {
      TrimKeepsAfterFirst(s, sp);
    }
  }

  /** `TrimSkipsFirst` where something is left after the run. */
  lemma TrimKeepsAfterFirst(s: string, sp: char -> bool)
    requires s != [] && sp(s[0]) && RunFrom(s[1..], 0, sp) < |s| - 1
    ensures TrimBy(s, sp) == TrimBy(s[1..], sp)
  {
    var u := s[1..];
    RunFromTail(s, 1, sp);
    RunBeforeTail(s, |s|, sp);
    RunsOrdered(u, sp);
    var a := RunFrom(u, 0, sp);
    var b := RunBefore(u, |u|, sp);
    TrimAt(s, a + 1, b + 1, sp);
    TrimAt(u, a, b, sp);
    SliceTail(s, a + 1, b + 1);
  }

  /** The slice trimming keeps, given where the two runs stop. */
  lemma TrimAt(s: string, a: nat, b: nat, sp: char -> bool)
    requires RunFrom(s, 0, sp) == a < |s| && RunBefore(s, |s|, sp) == b
    ensures a < b && TrimBy(s, sp) == s[a..b]
  {
    RunsOrdered(s, sp);
  }

  /** A slice of the tail of a string. */
  lemma SliceTail(s: string, a: nat, b: nat)
    requires 1 <= a <= b <= |s|
    ensures s[a..b] == s[1..][a - 1..b - 1]
  {
    var u := s[1..];
    forall i | 0 <= i < b - a ensures s[a..b][i] == u[a - 1..b - 1][i] {
      assert u[a - 1 + i] == s[a + i];
    }
  }

  /** A trailing character in `sp` is among those trimming removes. */
  lemma TrimSkipsLast(s: string, sp: char -> bool)
    requires s != [] && sp(s[|s| - 1])
    ensures TrimBy(s, sp) == TrimBy(s[..|s| - 1], sp)
  {
    var u := s[..|s| - 1];
    RunBeforeFront(s, |s| - 1, sp);
    if |u| > 0 {
      RunFromFront(s, 0, sp);
      var a := RunFrom(u, 0, sp);
      if a < |u| {
        var b := RunBefore(u, |u|, sp);
        assert s[a..b] == u[a..b];
      }
    }
  }

  /** `int(s)` reads the text left once the white space it skips is trimmed: an optional sign and a numeral. */
  lemma {:induction false} ParseIntStrip(s: string)
    ensures ParseInt(s) == ParseSigned(TrimBy(s, IsIntSpace))
    decreases |s|
  {
    if s != [] && IsIntSpace(s[0]) {
      ParseIntStrip(s[1..]);
      TrimSkipsFirst(s, IsIntSpace);
    } else if s != [] && IsIntSpace(s[|s| - 1]) {
      ParseIntStrip(s[..|s| - 1]);
      TrimSkipsLast(s, IsIntSpace);
    } else {
      TrimStripped(s, IsIntSpace);
    }
  }

  /** `int(s)` succeeds exactly when the trimmed text is a numeral, possibly after a sign. */
  lemma ParseIntAccepts(s: string)
    ensures var t := TrimBy(s, IsIntSpace);
            ParseInt(s).Some? <==>
              (Numeral(t) || (t != [] && (t[0] == '+' || t[0] == '-') && Numeral(t[1..])))
  {
    ParseIntStrip(s);
    var t := TrimBy(s, IsIntSpace);
    if t != [] {
      NumeralSpec(t);
      NumeralSpec(t[1..]);
    }
  }

  /** `int()` skips ASCII and other Unicode white space, but refuses the separators U+001C..U+001F. */
  lemma ParseIntSeparators()
    ensures ParseInt(" 7\n") == Some(7) && ParseInt("\U{a0}7") == Some(7)
    ensures forall c :: '\U{1c}' <= c <= '\U{1f}' ==> ParseInt([c, '7']) == None && ParseInt(['7', c]) == None
  {
    assert " 7\n"[1..][..1] == "7";
    assert "\U{a0}7"[1..] == "7";
    forall c | '\U{1c}' <= c <= '\U{1f}' ensures ParseInt([c, '7']) == None && ParseInt(['7', c]) == None {
      assert [c, '7'][1..] == "7";
    }
  }

  /** The magnitude of `int(s)` is bounded by the characters of `s` left for digits. */
  lemma ParseIntBound(s: string)
    requires ParseInt(s).Some?
    ensures |s| > 0 && -(Pow10(|s| - 1) as int) < ParseInt(s).value < Pow10(|s|)
  {
    ParseIntStrip(s);
    var t := TrimBy(s, IsIntSpace);
    var n := |s| - 1;
    Pow10Mono(n, |s|);
    if t[0] == '+' || t[0] == '-' {
      NumeralBelow(t[1..], n);
    } else {
      NumeralBelow(t, |s|);
    }
  }

  lemma NumeralBelow(t: string, n: nat)
    requires ReadNumeral(t).Some? && |t| <= n
    ensures ReadNumeral(t).value < Pow10(n)
  {
    NumeralSpec(t);
    Pow10Mono(|t|, n);
  }

  /** Four ASCII digits are read as the number they spell. */
  lemma ParseIntDigits(s: string)
    requires |s| == 4 && IsDigit(s[0]) && IsDigit(s[1]) && IsDigit(s[2]) && IsDigit(s[3])
    ensures ParseInt(s) == Some(1000 * Digit(s[0]) + 100 * Digit(s[1]) + 10 * Digit(s[2]) + Digit(s[3]))
  {
    ParseIntStrip(s);
    TrimStripped(s, IsIntSpace);
    var d0 := Digit(s[0]);
    assert DigitsFrom(s, 1, d0) == DigitsFrom(s, 2, 10 * d0 + Digit(s[1]));
    assert DigitsFrom(s, 2, 10 * d0 + Digit(s[1])) == DigitsFrom(s, 3, 100 * d0 + 10 * Digit(s[1]) + Digit(s[2]));
    assert DigitsFrom(s, 3, 100 * d0 + 10 * Digit(s[1]) + Digit(s[2])) ==
           DigitsFrom(s, 4, 1000 * d0 + 100 * Digit(s[1]) + 10 * Digit(s[2]) + Digit(s[3]));
  }
}
