/**
 * String building blocks used by the formatted output of the application:
 * decimal rendering of integers (Python's `str(int)` / f-string `{v}`),
 * joining with a separator, splitting on new lines, and newline-terminated
 * concatenation.
 */
module Text {

  predicate IsDigit(c: char) {
    '0' as int <= c as int <= '9' as int
  }

  function DigitChar(d: nat): (c: char)
    requires d < 10
    ensures IsDigit(c) && c as int - '0' as int == d
  {
    ('0' as int + d) as char
  }

  /** Decimal rendering of a natural number, most significant digit first. */
  function NatToString(n: nat): (r: string)
    ensures 1 <= |r|
    ensures forall i :: 0 <= i < |r| ==> IsDigit(r[i])
    ensures r[0] == '0' ==> n == 0 && r == "0"
    decreases n
  {
    if n < 10 then [DigitChar(n)] else NatToString(n / 10) + [DigitChar(n % 10)]
  }

  /** The value of a string of decimal digits. */
  function DigitsValue(s: string): nat
    requires forall i :: 0 <= i < |s| ==> IsDigit(s[i])
  {
    if s == [] then 0
    else
      var last := s[|s| - 1];
      assert IsDigit(last);
      DigitsValue(s[..|s| - 1]) * 10 + (last as int - '0' as int)
  }

  /** Reading back the rendering of `n` gives `n`. */
  lemma {:induction false} NatToStringRoundTrip(n: nat)
    ensures DigitsValue(NatToString(n)) == n
    decreases n
  {
    var r := NatToString(n);
    if n >= 10 {
      NatToStringRoundTrip(n / 10);
      assert r[..|r| - 1] == NatToString(n / 10);
    }
  }

  /** Decimal rendering of an integer, with a leading '-' when negative. */
  function IntToString(v: int): (r: string)
    ensures v >= 0 ==> r == NatToString(v)
    ensures v < 0 ==> r == "-" + NatToString(-v)
    ensures '\n' !in r
  {
    if v < 0 then "-" + NatToString(-v) else NatToString(v)
  }

  /** `sep.join(xs)`: the elements of `xs` with `sep` between neighbours and nowhere else. */
  function Join(xs: seq<string>, sep: string): string
  {
    if |xs| == 0 then ""
    else if |xs| == 1 then xs[0]
    else xs[0] + sep + Join(xs[1..], sep)
  }

  /** Joining a non-empty list ends with its last element: no trailing separator. */
  lemma {:induction false} JoinEndsWithLast(xs: seq<string>, sep: string)
    requires |xs| >= 1
    ensures var j := Join(xs, sep);
            |xs[|xs| - 1]| <= |j| && j[|j| - |xs[|xs| - 1]|..] == xs[|xs| - 1]
  {
    if |xs| > 1 {
      JoinEndsWithLast(xs[1..], sep);
      var last := xs[|xs| - 1];
      var rest := Join(xs[1..], sep);
      var j := Join(xs, sep);
      assert j == (xs[0] + sep) + rest;
      assert j[|j| - |last|..] == rest[|rest| - |last|..];
    }
  }

  /** Appending one element to a non-empty list adds one separator and that element. */
  lemma {:induction false} JoinSnoc(xs: seq<string>, x: string, sep: string)
    requires |xs| >= 1
    ensures Join(xs + [x], sep) == Join(xs, sep) + sep + x
  {
    if |xs| == 1 {
      assert (xs + [x])[1..] == [x];
    } else {
      assert (xs + [x])[1..] == xs[1..] + [x];
      JoinSnoc(xs[1..], x, sep);
    }
  }

  /** Index of the first new-line character of `s`. */
  function FirstNewline(s: string): (k: nat)
    requires '\n' in s
    ensures k < |s| && s[k] == '\n'
    ensures forall i :: 0 <= i < k ==> s[i] != '\n'
  {
    if s[0] == '\n' then 0 else 1 + FirstNewline(s[1..])
  }

  /** `s.split("\n")`: the maximal new-line-free pieces of `s`. */
  function Split(s: string): (r: seq<string>)
    ensures |r| >= 1
    ensures forall i :: 0 <= i < |r| ==> '\n' !in r[i]
    decreases |s|
  {
    if '\n' !in s then [s]
    else
      var k := FirstNewline(s);
      [s[..k]] + Split(s[k + 1..])
  }

  /** Splitting after a new-line-free prefix and a new line peels that prefix off. */
  lemma SplitCons(a: string, b: string)
    requires '\n' !in a
    ensures Split(a + "\n" + b) == [a] + Split(b)
  {
    var s := a + "\n" + b;
    assert s[|a|] == '\n';
    var k := FirstNewline(s);
    assert forall i :: 0 <= i < |a| ==> s[i] == a[i];
    assert k == |a|;
    assert s[..k] == a;
    assert s[k + 1..] == b;
  }

  /** Splitting a "\n"-join of new-line-free lines gives the lines back. */
  lemma {:induction false} SplitJoin(xs: seq<string>)
    requires |xs| >= 1
    requires forall i :: 0 <= i < |xs| ==> '\n' !in xs[i]
    ensures Split(Join(xs, "\n")) == xs
  {
    if |xs| == 1 {
      assert Join(xs, "\n") == xs[0];
    } else {
      SplitJoin(xs[1..]);
      SplitCons(xs[0], Join(xs[1..], "\n"));
      assert [xs[0]] + xs[1..] == xs;
    }
  }

  /** Every line followed by a new line: `"".join(x + "\n" for x in xs)`. */
  function Terminated(xs: seq<string>): string
  {
    if xs == [] then "" else xs[0] + "\n" + Terminated(xs[1..])
  }

  lemma {:induction false} TerminatedAppend(xs: seq<string>, ys: seq<string>)
    ensures Terminated(xs + ys) == Terminated(xs) + Terminated(ys)
  {
    if xs != [] {
      TerminatedAppend(xs[1..], ys);
      assert (xs + ys)[1..] == xs[1..] + ys;
    } else {
      assert xs + ys == ys;
    }
  }

  /** Terminating every line is joining with an empty last line. */
  lemma {:induction false} TerminatedIsJoin(xs: seq<string>)
    ensures Terminated(xs) == Join(xs + [""], "\n")
  {
    if xs != [] {
      TerminatedIsJoin(xs[1..]);
      assert (xs + [""])[1..] == xs[1..] + [""];
    }
  }

  /** No line contains a new line. */
  predicate SingleLines(xs: seq<string>) {
    forall i :: 0 <= i < |xs| ==> '\n' !in xs[i]
  }

  lemma SingleLinesAppend(xs: seq<string>, ys: seq<string>)
    requires SingleLines(xs) && SingleLines(ys)
    ensures SingleLines(xs + ys)
  {
    forall i | 0 <= i < |xs + ys| ensures '\n' !in (xs + ys)[i] {
      if i >= |xs| {
        assert (xs + ys)[i] == ys[i - |xs|];
      }
    }
  }

  /** Splitting newline-terminated lines gives the lines and one empty tail. */
  lemma SplitTerminated(xs: seq<string>)
    requires SingleLines(xs)
    ensures Split(Terminated(xs)) == xs + [""]
  {
    TerminatedIsJoin(xs);
    SplitJoin(xs + [""]);
  }
}
