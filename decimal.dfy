/** The two printf conversions the report line uses: `%lu` (an unsigned value in
    decimal, no leading zeros) and `%02lu` (the same, padded on the left with
    zeros to at least two characters). Their partner is a decimal parser, the
    way a reader of the report line turns the text back into numbers. */
module Decimal {

  predicate IsDigit(c: char) {
    '0' <= c <= '9'
  }

  predicate AllDigits(s: string) {
    forall i :: 0 <= i < |s| ==> IsDigit(s[i])
  }

  /** The shortest decimal spelling of a number: "0" is the only one that
      starts with '0'. */
  predicate Canonical(s: string) {
    AllDigits(s) && |s| > 0 && (s[0] == '0' ==> |s| == 1)
  }

  function DigitChar(d: nat): (c: char)
    requires d < 10
    ensures IsDigit(c)
  {
    ('0' as int + d) as char
  }

  function DigitValue(c: char): (d: nat)
    requires IsDigit(c)
    ensures d < 10
    ensures DigitChar(d) == c
  {
    c as int - '0' as int
  }

  /** `%lu`. */
  function FormatLu(n: nat): (s: string)
    ensures Canonical(s)
  {
    if n < 10 then [DigitChar(n)] else FormatLu(n / 10) + [DigitChar(n % 10)]
  }

  /** `%02lu`: zeros on the left up to a field width of two. */
  function Format02Lu(n: nat): (s: string)
    ensures AllDigits(s)
  {
    var digits := FormatLu(n);
    if |digits| < 2 then "0" + digits else digits
  }

  /** The value of a string of decimal digits (the empty string reads as 0). */
  function ParseDecimal(s: string): nat
    requires AllDigits(s)
  {
    if s == [] then 0 else ParseDecimal(s[..|s| - 1]) * 10 + DigitValue(s[|s| - 1])
  }

  /** Reading back what `%lu` printed gives the number printed. */
  lemma {:induction false} ParseFormatLu(n: nat)
    ensures ParseDecimal(FormatLu(n)) == n
  {
    if n >= 10 {
      var s := FormatLu(n);
      assert s[..|s| - 1] == FormatLu(n / 10);
      ParseFormatLu(n / 10);
    }
  }

  lemma {:induction false} CanonicalAtLeastTen(s: string)
    requires Canonical(s) && |s| >= 2
    ensures ParseDecimal(s) >= 10
  {
    var init := s[..|s| - 1];
    if |s| > 2 {
      CanonicalAtLeastTen(init);
    } else {
      assert init == [s[0]];
      assert ParseDecimal(init) == DigitValue(s[0]) >= 1;
    }
  }

  /** Conversely, every canonical decimal string is what `%lu` prints for its
      value: `%lu` and the parser are inverse bijections. */
  lemma {:induction false} FormatParseDecimal(s: string)
    requires Canonical(s)
    ensures FormatLu(ParseDecimal(s)) == s
  {
    var n := ParseDecimal(s);
    if |s| == 1 {
      assert s == [s[0]];
      assert [] == s[..0];
    } else {
      var init := s[..|s| - 1];
      CanonicalAtLeastTen(s);
      assert n / 10 == ParseDecimal(init) && n % 10 == DigitValue(s[|s| - 1]);
      FormatParseDecimal(init);
    }
  }

  /** `%lu` prints a value below 10 as one digit and one below 100 as at most
      two digits. */
  lemma FormatLuWidth(n: nat)
    ensures n < 10 <==> |FormatLu(n)| == 1
    ensures n < 100 ==> |FormatLu(n)| <= 2
  {
  }

  /** Two digits read as tens and units. */
  lemma ParseTwoDigits(tens: nat, units: nat)
    requires tens < 10 && units < 10
    ensures ParseDecimal([DigitChar(tens), DigitChar(units)]) == tens * 10 + units
  {
    var s := [DigitChar(tens), DigitChar(units)];
    assert s[..1] == [DigitChar(tens)] && s[..1][..0] == [];
    assert DigitValue(DigitChar(tens)) == tens && DigitValue(DigitChar(units)) == units;
    assert ParseDecimal(s[..1]) == tens;
  }

  /** A value below 100 is printed by `%02lu` as exactly its tens digit
      followed by its units digit, and reads back as itself. */
  lemma Format02LuOfCentis(n: nat)
    requires n < 100
    ensures Format02Lu(n) == [DigitChar(n / 10), DigitChar(n % 10)]
    ensures |Format02Lu(n)| == 2 && ParseDecimal(Format02Lu(n)) == n
  {
    if n < 10 {
      assert FormatLu(n) == [DigitChar(n)];
      assert n / 10 == 0 && n % 10 == n;
      assert "0" == [DigitChar(0)];
    } else {
      assert FormatLu(n / 10) == [DigitChar(n / 10)];
    }
    ParseTwoDigits(n / 10, n % 10);
  }

  /** Splits off the longest prefix of decimal digits, the way a reader of a
      `%lu` field stops at the first non-digit. */
  function SpanDigits(s: string): (r: (string, string))
    ensures AllDigits(r.0) && r.0 + r.1 == s
    ensures r.1 == [] || !IsDigit(r.1[0])
  {
    if s != [] && IsDigit(s[0]) then
      var tail := SpanDigits(s[1..]);
      assert [s[0]] + (tail.0 + tail.1) == s;
      ([s[0]] + tail.0, tail.1)
    else
      ([], s)
  }

  /** A digit string followed by a non-digit is split exactly at its end. */
  lemma {:induction false} SpanDigitsOf(digits: string, rest: string)
    requires AllDigits(digits)
    requires rest == [] || !IsDigit(rest[0])
    ensures SpanDigits(digits + rest) == (digits, rest)
  {
    if digits != [] {
      assert (digits + rest)[0] == digits[0];
      assert (digits + rest)[1..] == digits[1..] + rest;
      SpanDigitsOf(digits[1..], rest);
      assert [digits[0]] + digits[1..] == digits;
    } else {
      assert digits + rest == rest;
    }
  }
}
