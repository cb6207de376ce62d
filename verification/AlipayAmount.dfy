/** Amounts of money as the payment provider writes them. */
module AlipayAmount {
  import opened Arithmetic
  import opened Foundations
  import opened Text

  function TwoDigits(n: nat): string
    requires n < 100
  {
    [Digit(n / 10), Digit(n % 10)]
  }

  function FormatAlipayAmount(cents: int): string {
    (if cents < 0 then "-" else "") + Digits(Abs(cents) / 100) + "." + TwoDigits(Abs(cents) % 100)
  }

  // ----- Reading a decimal number -----

  function TrimLeft(s: string): string {
    if s != "" && IsSpace(s[0]) then TrimLeft(s[1..]) else s
  }

  function TrimRight(s: string): string {
    if s != "" && IsSpace(s[|s| - 1]) then TrimRight(s[..|s| - 1]) else s
  }

  function PowerOfTen(n: nat): int
    ensures PowerOfTen(n) > 0
  {
    if n == 0 then 1 else 10 * PowerOfTen(n - 1)
  }

  /** The exact value `mantissa / 10^scale`. */
  datatype Decimal = Decimal(mantissa: int, scale: nat)

  /** The first place of the decimal point, or the length. */
  function PointAt(s: string): (i: nat)
    ensures i <= |s|
    ensures i < |s| ==> s[i] == '.'
    ensures forall j :: 0 <= j < i ==> s[j] != '.'
  {
    if s == "" || s[0] == '.' then 0 else 1 + PointAt(s[1..])
  }

  function ParseUnsigned(s: string): Option<Decimal> {
    var point := PointAt(s);
    var whole, fraction := s[..point], if point < |s| then s[point + 1..] else "";
    if whole + fraction != "" && AllDigits(whole + fraction)
    then Some(Decimal(Value(whole + fraction), |fraction|))
    else None
  }

  function ParseDecimal(s: string): Option<Decimal> {
    if s == "" then None
    else if s[0] == '+' then ParseUnsigned(s[1..])
    else if s[0] == '-' then
      match ParseUnsigned(s[1..])
      case None => None
      case Some(d) => Some(Decimal(-d.mantissa, d.scale))
    else ParseUnsigned(s)
  }

  /** `p / m` rounded to the nearest integer, halves away from zero. */
  function RoundAway(p: int, m: int): int
    requires m > 0
  {
    if p >= 0 then Nearest(p, m) else -Nearest(-p, m)
  }

  function ParseAlipayAmountCents(value: string): Option<int> {
    match ParseDecimal(TrimRight(TrimLeft(value)))
    case None => None
    case Some(d) => Some(RoundAway(d.mantissa * 100, PowerOfTen(d.scale)))
  }

  // ----- Round trip -----

  lemma ValueOfCents(n: nat)
    ensures var s := Digits(n / 100) + TwoDigits(n % 100); AllDigits(s) && Value(s) == n
  {
    var whole, tens, ones := Digits(n / 100), Digit(n % 100 / 10), Digit(n % 100 % 10);
    ValueOfDigits(n / 100);
    ValueAppend(whole, tens);
    ValueAppend(whole + [tens], ones);
    assert whole + TwoDigits(n % 100) == whole + [tens] + [ones];
  }

  lemma {:induction false} PointOfUnsigned(whole: string, fraction: string)
    requires AllDigits(whole)
    ensures PointAt(whole + "." + fraction) == |whole|
  {
    var s := whole + "." + fraction;
    if whole == "" {
      assert s[0] == '.';
    } else {
      PointOfUnsigned(whole[1..], fraction);
      assert s[0] == whole[0] && IsDigit(whole[0]);
      assert s[1..] == whole[1..] + "." + fraction;
    }
  }

  lemma {:induction false} NoPoint(whole: string)
    requires AllDigits(whole)
    ensures PointAt(whole) == |whole|
  {
    if whole != "" {
      NoPoint(whole[1..]);
    }
  }

  /** A decimal number as it is written. */
  datatype Numeral = Numeral(sign: string, whole: string, point: string, fraction: string)

  /** An optional sign, digits, an optional point, digits behind it, and a digit somewhere. */
  predicate IsNumeral(n: Numeral) {
    && n.sign in {"", "+", "-"} && n.point in {"", "."} && (n.point == "" ==> n.fraction == "")
    && AllDigits(n.whole) && AllDigits(n.fraction) && n.whole + n.fraction != ""
  }

  function Unsigned(n: Numeral): string {
    n.whole + n.point + n.fraction
  }

  function Written(n: Numeral): string {
    n.sign + Unsigned(n)
  }

  function Meaning(n: Numeral): Decimal
    requires IsNumeral(n)
  {
    var digits: int := Value(n.whole + n.fraction);
    Decimal(if n.sign == "-" then -digits else digits, |n.fraction|)
  }

  lemma ParseOfUnsigned(n: Numeral)
    requires IsNumeral(n)
    ensures ParseUnsigned(Unsigned(n)) == Some(Decimal(Value(n.whole + n.fraction), |n.fraction|))
  {
    var s := Unsigned(n);
    if n.point == "" {
      assert s == n.whole && n.whole + n.fraction == n.whole;
      NoPoint(n.whole);
      assert s[..|n.whole|] == n.whole;
    } else {
      PointOfUnsigned(n.whole, n.fraction);
      assert s[..|n.whole|] == n.whole && s[|n.whole| + 1..] == n.fraction;
    }
  }

  lemma SignIsRead(sign: string, s: string, d: Decimal)
    requires sign in {"", "+", "-"} && s != "" && (IsDigit(s[0]) || s[0] == '.')
    requires ParseUnsigned(s) == Some(d)
    ensures ParseDecimal(sign + s) == Some(if sign == "-" then Decimal(-d.mantissa, d.scale) else d)
  {
    if sign == "" {
      assert sign + s == s;
    } else {
      assert (sign + s)[1..] == s;
    }
  }

  lemma StartsWithoutSign(n: Numeral)
    requires IsNumeral(n)
    ensures var s := Unsigned(n); s != "" && (IsDigit(s[0]) || s[0] == '.')
  {
    assert Unsigned(n)[0] == if n.whole != "" then n.whole[0] else '.';
  }

  /** Every such number is read as what it says. */
  lemma ParseOfNumeral(n: Numeral)
    requires IsNumeral(n)
    ensures ParseDecimal(Written(n)) == Some(Meaning(n))
  {
    ParseOfUnsigned(n);
    StartsWithoutSign(n);
    SignIsRead(n.sign, Unsigned(n), Decimal(Value(n.whole + n.fraction), |n.fraction|));
  }

  lemma DigitsOfBoth(a: string, b: string)
    ensures AllDigits(a + b) <==> AllDigits(a) && AllDigits(b)
  {
    if AllDigits(a + b) {
      assert forall i :: 0 <= i < |a| ==> a[i] == (a + b)[i];
      assert forall i :: 0 <= i < |b| ==> b[i] == (a + b)[|a| + i];
    }
  }

  lemma UnsignedIsNumeral(s: string, sign: string) returns (n: Numeral)
    requires ParseUnsigned(s).Some? && sign in {"", "+", "-"}
    ensures IsNumeral(n) && n.sign == sign && Unsigned(n) == s
  {
    var k := PointAt(s);
    if k < |s| {
      n := Numeral(sign, s[..k], ".", s[k + 1..]);
    } else {
      n := Numeral(sign, s, "", "");
    }
    assert Unsigned(n) == s;
    DigitsOfBoth(n.whole, n.fraction);
  }

  lemma SplitSign(s: string) returns (sign: string, rest: string)
    requires ParseDecimal(s).Some?
    ensures sign in {"", "+", "-"} && s == sign + rest && ParseUnsigned(rest).Some?
  {
    if s[0] == '+' {
      sign, rest := "+", s[1..];
    } else if s[0] == '-' {
      sign, rest := "-", s[1..];
    } else {
      sign, rest := "", s;
    }
  }

  /** And nothing else is read. */
  lemma ReadIsNumeral(s: string) returns (n: Numeral)
    requires ParseDecimal(s).Some?
    ensures IsNumeral(n) && s == Written(n)
  {
    var sign, rest := SplitSign(s);
    n := UnsignedIsNumeral(rest, sign);
  }

  /** So the texts that are read are exactly those numbers. */
  lemma ReadsExactlyNumerals(s: string)
    ensures ParseDecimal(s).Some? <==> exists n :: IsNumeral(n) && s == Written(n)
  {
    if ParseDecimal(s).Some? {
      var n := ReadIsNumeral(s);
    }
    forall n | IsNumeral(n) && s == Written(n) ensures ParseDecimal(s).Some? {
      ParseOfNumeral(n);
    }
  }

  /** What is printed: a minus sign for a negative amount, the whole part without leading zeros, a point, two digits. */
  lemma PrintsNumeral(cents: int) returns (n: Numeral)
    ensures IsNumeral(n) && FormatAlipayAmount(cents) == Written(n)
    ensures n.sign == (if cents < 0 then "-" else "") && n.point == "." && |n.fraction| == 2
    ensures n.whole != "" && (n.whole[0] == '0' ==> n.whole == "0")
    ensures Meaning(n) == Decimal(cents, 2)
  {
    var a := Abs(cents);
    n := Numeral(if cents < 0 then "-" else "", Digits(a / 100), ".", TwoDigits(a % 100));
    NoLeadingZero(a / 100);
    ValueOfCents(a);
    assert n.sign + n.whole + n.point + n.fraction == n.sign + (n.whole + n.point + n.fraction);
  }

  lemma {:induction false} NoLeadingZero(n: nat)
    ensures Digits(n)[0] == '0' ==> Digits(n) == "0"
  {
    if n >= 10 {
      NoLeadingZero(n / 10);
      ValueOfDigits(n / 10);
      assert Value("0") == 10 * Value("") + DigitValue('0');
    }
  }

  lemma {:induction false} TrimLeftRemoves(before: string, s: string)
    requires IsBlank(before) && s != "" && !IsSpace(s[0])
    ensures TrimLeft(before + s) == s
  {
    if before == "" {
      assert before + s == s;
    } else {
      assert before + s == [before[0]] + (before[1..] + s);
      assert IsSpace((before + s)[0]);
      TrimLeftRemoves(before[1..], s);
    }
  }

  lemma {:induction false} TrimRightRemoves(s: string, after: string)
    requires IsBlank(after) && s != "" && !IsSpace(s[|s| - 1])
    ensures TrimRight(s + after) == s
  {
    if after == "" {
      assert s + after == s;
    } else {
      var front, last := after[..|after| - 1], after[|after| - 1];
      assert s + after == (s + front) + [last];
      assert IsSpace(last);
      TrimRightRemoves(s, front);
    }
  }

  lemma RoundAwayOfWhole(cents: int)
    ensures RoundAway(cents * 100, PowerOfTen(2)) == cents
  {
    assert PowerOfTen(2) == 10 * PowerOfTen(1) && PowerOfTen(1) == 10 * PowerOfTen(0);
    NearestOfMultiple(Abs(cents), 100);
  }

  predicate IsNumeralChar(c: char) {
    IsDigit(c) || c == '+' || c == '-' || c == '.'
  }

  lemma NotSpace(c: char)
    requires IsNumeralChar(c)
    ensures !IsSpace(c)
  {
  }

  lemma NumeralChars(n: Numeral, i: nat)
    requires IsNumeral(n) && i < |Written(n)|
    ensures IsNumeralChar(Written(n)[i])
  {
    var c := Written(n)[i];
    assert c in n.sign || c in n.whole || c in n.point || c in n.fraction;
  }

  lemma NumeralHasNoSpaces(n: Numeral)
    requires IsNumeral(n)
    ensures var s := Written(n); s != "" && !IsSpace(s[0]) && !IsSpace(s[|s| - 1])
  {
    var s := Written(n);
    NumeralChars(n, 0);
    NumeralChars(n, |s| - 1);
    NotSpace(s[0]);
    NotSpace(s[|s| - 1]);
  }

  lemma TrimmedToNumeral(before: string, n: Numeral, after: string)
    requires IsBlank(before) && IsBlank(after) && IsNumeral(n)
    ensures TrimRight(TrimLeft(before + Written(n) + after)) == Written(n)
  {
    var s := Written(n);
    NumeralHasNoSpaces(n);
    assert before + s + after == before + (s + after);
    TrimLeftRemoves(before, s + after);
    TrimRightRemoves(s, after);
  }

  /** What is printed is read back as the same number of cents, negative or not, with any white space around it. */
  lemma AmountRoundTrip(cents: int, before: string, after: string)
    requires IsBlank(before) && IsBlank(after)
    ensures ParseAlipayAmountCents(before + FormatAlipayAmount(cents) + after) == Some(cents)
  {
    var n := PrintsNumeral(cents);
    TrimmedToNumeral(before, n, after);
    ParseOfNumeral(n);
    RoundAwayOfWhole(cents);
  }

  lemma NegativeProduct(n: int, m: int)
    ensures (-n) * m == -(n * m)
  {
  }

  lemma RoundAwayIsNearest(p: int, m: int)
    requires m > 0
    ensures -m <= 2 * (RoundAway(p, m) * m - p) <= m
    ensures p >= 0 ==> -m < 2 * (RoundAway(p, m) * m - p)
    ensures p < 0 ==> 2 * (RoundAway(p, m) * m - p) < m
  {
    if p >= 0 {
      NearestIff(p, m, Nearest(p, m));
    } else {
      NearestIff(-p, m, Nearest(-p, m));
      NegativeProduct(Nearest(-p, m), m);
    }
  }

  /**
   Whatever decimal number is read, with any white space around it, the result is the nearest number of
   cents, halves away from zero.
   */
  lemma ReadsNearestCents(before: string, n: Numeral, after: string)
    requires IsBlank(before) && IsBlank(after) && IsNumeral(n)
    ensures var cents, exact, unit :=
              ParseAlipayAmountCents(before + Written(n) + after), 100 * Meaning(n).mantissa, PowerOfTen(|n.fraction|);
            && cents.Some?
            && -unit <= 2 * (cents.value * unit - exact) <= unit
            && (exact >= 0 ==> -unit < 2 * (cents.value * unit - exact))
            && (exact < 0 ==> 2 * (cents.value * unit - exact) < unit)
  {
    TrimmedToNumeral(before, n, after);
    ParseOfNumeral(n);
    RoundAwayIsNearest(Meaning(n).mantissa * 100, PowerOfTen(|n.fraction|));
  }

  // ----- The same with the machine's floating point numbers -----

  /** Half a unit in the last place of a number with 53 significant bits. */
  const UNIT: real := 1.0 / 9007199254740992.0

  /** `x` is what one rounded operation may make of the exact value `y`. */
  predicate RoundedTo(x: real, y: real) {
    if y >= 0.0 then y - y * UNIT <= x <= y + y * UNIT else y + y * UNIT <= x <= y - y * UNIT
  }

  function RoundReal(x: real): int {
    if x >= 0.0 then (x + 0.5).Floor else -(-x + 0.5).Floor
  }

  /**
   Reading rounds the number once and the multiplication by 100 rounds it again. Below 2^51 cents
   the two errors together stay below half a cent, so the cents that were printed still come back.
   */
  lemma FloatingRoundTrip(cents: int, amount: real, scaled: real)
    requires Abs(cents) < 2251799813685248
    requires RoundedTo(amount, cents as real / 100.0) && RoundedTo(scaled, amount * 100.0)
    ensures RoundReal(scaled) == cents
  {
    var exact := cents as real;
    assert exact / 100.0 * 100.0 == exact;
    if cents >= 0 {
      FloatingError(exact, amount * 100.0, scaled);
    } else {
      FloatingError(-exact, -(amount * 100.0), -scaled);
    }
  }

  lemma FloatingError(exact: real, once: real, twice: real)
    requires 0.0 <= exact <= 2251799813685247.0
    requires exact - exact * UNIT <= once <= exact + exact * UNIT
    requires once - once * UNIT <= twice <= once + once * UNIT
    ensures 0.0 <= twice && exact - 0.5 < twice < exact + 0.5
  {
  }
}
