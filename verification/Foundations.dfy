/** Small stock types shared by the whole project. */
module Foundations {

  datatype Option<+T> = None | Some(value: T)
}

/** The few string operations the program relies on. */
module Text {

  /** White space as Go's strings.TrimSpace sees it. */
  predicate IsSpace(c: char) {
    c in "\t\n\U{000B}\U{000C}\r \U{0085}\U{00A0}\U{1680}\U{2028}\U{2029}\U{202F}\U{205F}\U{3000}"
    || '\U{2000}' <= c <= '\U{200A}'
  }

  predicate IsBlank(s: string) {
    forall i :: 0 <= i < |s| ==> IsSpace(s[i])
  }

  predicate IsDigit(c: char) {
    '0' <= c <= '9'
  }

  function Digit(n: nat): char
    requires n < 10
  {
    ('0' as int + n) as char
  }

  predicate AllDigits(s: string) {
    forall i :: 0 <= i < |s| ==> IsDigit(s[i])
  }

  /** The decimal digits of a number, most significant first. */
  function Digits(n: nat): (s: string)
    ensures s != "" && AllDigits(s)
  {
    var last := [Digit(n % 10)];
    if n < 10 then last else Digits(n / 10) + last
  }

  function DigitValue(c: char): nat
    requires IsDigit(c)
  {
    c as int - '0' as int
  }

  /** The number that digits stand for. */
  function Value(s: string): nat
    requires AllDigits(s)
  {
    if s == "" then 0 else 10 * Value(s[..|s| - 1]) + DigitValue(s[|s| - 1])
  }

  lemma ValueAppend(s: string, c: char)
    requires AllDigits(s) && IsDigit(c)
    ensures AllDigits(s + [c]) && Value(s + [c]) == 10 * Value(s) + DigitValue(c)
  {
    assert (s + [c])[..|s|] == s;
  }

  lemma {:induction false} ValueOfDigits(n: nat)
    ensures Value(Digits(n)) == n
  {
    var last := Digit(n % 10);
    if n < 10 {
      ValueAppend("", last);
      assert "" + [last] == [last];
    } else {
      ValueOfDigits(n / 10);
      ValueAppend(Digits(n / 10), last);
      assert Digits(n) == Digits(n / 10) + [last];
    }
  }

  /** A text that ends in a separator and the digits of a number can be taken apart in one way only. */
  lemma SeparatedDigits(a: string, m: nat, b: string, n: nat, separator: string)
    requires separator != "" && !IsDigit(separator[|separator| - 1])
    requires a + separator + Digits(m) == b + separator + Digits(n)
    ensures a == b && m == n
  {
    var s, t := a + separator + Digits(m), b + separator + Digits(n);
    if |Digits(m)| < |Digits(n)| {
      NotADigitAt(a + separator, Digits(m), b + separator, Digits(n));
    } else if |Digits(n)| < |Digits(m)| {
      NotADigitAt(b + separator, Digits(n), a + separator, Digits(m));
    }
    assert s[|s| - |Digits(m)|..] == Digits(m) && t[|t| - |Digits(n)|..] == Digits(n);
    assert s[..|a|] == a && t[..|b|] == b;
    ValueOfDigits(m);
    ValueOfDigits(n);
  }

  lemma NotADigitAt(front: string, short: string, otherFront: string, long: string)
    requires front != "" && |short| < |long| && AllDigits(long) && front + short == otherFront + long
    ensures IsDigit(front[|front| - 1])
  {
    var k := |front| - 1;
    assert (front + short)[k] == front[k] && (otherFront + long)[k] == long[k - |otherFront|];
  }
}

/** Finite sums over a column of a table, and how one row change moves them. */
module Sums {

  function Sum(s: seq<int>): int {
    if s == [] then 0 else Sum(s[..|s| - 1]) + s[|s| - 1]
  }

  lemma SumAppend(s: seq<int>, x: int)
    ensures Sum(s + [x]) == Sum(s) + x
  {
    assert (s + [x])[..|s|] == s;
  }

  lemma {:induction false} SumConcat(s: seq<int>, t: seq<int>)
    ensures Sum(s + t) == Sum(s) + Sum(t)
  {
    if t == [] {
      assert s + t == s;
    } else {
      var front := t[..|t| - 1];
      SumConcat(s, front);
      assert s + t == (s + front) + [t[|t| - 1]];
      SumAppend(s + front, t[|t| - 1]);
    }
  }

  lemma {:induction false} SumUpdate(s: seq<int>, i: nat, x: int)
    requires i < |s|
    ensures Sum(s[i := x]) == Sum(s) - s[i] + x
  {
    var n := |s| - 1;
    if i == n {
      assert s[i := x][..n] == s[..n];
    } else {
      SumUpdate(s[..n], i, x);
      assert s[i := x][..n] == s[..n][i := x];
    }
  }

  lemma {:induction false} SumZero(s: seq<int>)
    requires forall i :: 0 <= i < |s| ==> s[i] == 0
    ensures Sum(s) == 0
  {
    if s != [] {
      SumZero(s[..|s| - 1]);
    }
  }

  lemma {:induction false} SumNonNegative(s: seq<int>)
    requires forall i :: 0 <= i < |s| ==> s[i] >= 0
    ensures Sum(s) >= 0
  {
    if s != [] {
      SumNonNegative(s[..|s| - 1]);
    }
  }

  /** With no negative row, every row is at most the total. */
  lemma SumBoundsRow(s: seq<int>, i: nat)
    requires i < |s|
    requires forall j :: 0 <= j < |s| ==> s[j] >= 0
    ensures s[i] <= Sum(s)
  {
    SumUpdate(s, i, 0);
    SumNonNegative(s[i := 0]);
  }

  lemma SumZeroIff(s: seq<int>)
    requires forall i :: 0 <= i < |s| ==> s[i] >= 0
    ensures Sum(s) == 0 <==> forall i :: 0 <= i < |s| ==> s[i] == 0
  {
    if forall i :: 0 <= i < |s| ==> s[i] == 0 {
      SumZero(s);
    } else {
      var i :| 0 <= i < |s| && s[i] != 0;
      SumBoundsRow(s, i);
    }
  }

  /** Columns that add up row by row add up in total. */
  lemma {:induction false} SumAddsRows(s: seq<int>, t: seq<int>, u: seq<int>)
    requires |s| == |t| == |u|
    requires forall i :: 0 <= i < |s| ==> u[i] == s[i] + t[i]
    ensures Sum(u) == Sum(s) + Sum(t)
  {
    if s != [] {
      var n := |s| - 1;
      SumAddsRows(s[..n], t[..n], u[..n]);
    }
  }
}
