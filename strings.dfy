/**
 * ASCII character classes, upper-casing and decimal integers: the parts of
 * char.IsLetter, char.IsWhiteSpace, string.ToUpper, int.ToString and int.Parse
 * that the spreadsheet core relies on.
 */
module Strings {
  import opened Wrappers

  predicate IsLetter(ch: char) {
    ('A' <= ch <= 'Z') || ('a' <= ch <= 'z')
  }

  predicate IsUpperLetter(ch: char) {
    'A' <= ch <= 'Z'
  }

  predicate IsDigit(ch: char) {
    '0' <= ch <= '9'
  }

  /** Space, tab, line feed, vertical tab, form feed, carriage return. */
  predicate IsWhiteSpace(ch: char) {
    ch == ' ' || ('\t' <= ch <= '\r')
  }

  predicate IsLowerLetter(ch: char) {
    'a' <= ch <= 'z'
  }

  function UpperChar(ch: char): (r: char)
    ensures !IsLowerLetter(r)
    ensures !IsLowerLetter(ch) ==> r == ch
    ensures IsLetter(r) <==> IsLetter(ch)
    ensures IsDigit(r) <==> IsDigit(ch)
    ensures IsWhiteSpace(r) <==> IsWhiteSpace(ch)
  {
    if IsLowerLetter(ch) then (ch as int - 32) as char else ch
  }

  /** A string with no lower-case letter. */
  predicate IsUpperText(s: string) {
    forall i :: 0 <= i < |s| ==> !IsLowerLetter(s[i])
  }

  /** string.ToUpper, character by character. */
  function Upper(s: string): (r: string)
    ensures |r| == |s|
    ensures forall i :: 0 <= i < |s| ==> r[i] == UpperChar(s[i])
    ensures IsUpperText(r)
    ensures IsUpperText(s) ==> r == s
  {
    seq(|s|, i requires 0 <= i < |s| => UpperChar(s[i]))
  }

  predicate AllDigits(s: string) {
    forall i :: 0 <= i < |s| ==> IsDigit(s[i])
  }

  function DigitChar(d: int): (r: char)
    requires 0 <= d < 10
    ensures IsDigit(r) && r as int - '0' as int == d
  {
    ('0' as int + d) as char
  }

  /** The decimal digits of a natural number, most significant first. */
  function Digits(n: nat): (r: string)
    ensures |r| > 0 && AllDigits(r)
  {
    if n < 10 then [DigitChar(n)] else Digits(n / 10) + [DigitChar(n % 10)]
  }

  /** int.ToString with the invariant minus sign. */
  function DecimalString(n: int): (r: string)
    ensures |r| > 0
    ensures n >= 0 <==> AllDigits(r)
    ensures n >= 0 ==> IsDigit(r[0])
  {
    if n < 0 then
      var r := "-" + Digits(-n);
      assert !IsDigit(r[0]);
      r
    else Digits(n)
  }

  /** The value of a run of decimal digits, read left to right. */
  function DigitsValue(s: string): (v: nat)
    requires AllDigits(s)
  {
    if s == [] then 0 else DigitsValue(s[..|s| - 1]) * 10 + (s[|s| - 1] as int - '0' as int)
  }

  /** int.Parse: an optional sign followed by one or more decimal digits; anything else fails. */
  function ParseInt(s: string): (r: Option<int>)
    ensures r.Some? <==>
      |s| > 0 && (IsDigit(s[0]) || (|s| > 1 && (s[0] == '+' || s[0] == '-'))) &&
      forall i :: 0 < i < |s| ==> IsDigit(s[i])
    ensures AllDigits(s) && |s| > 0 ==> r == Some(DigitsValue(s))
  {
    if |s| > 0 && AllDigits(s) then Some(DigitsValue(s))
    else if |s| > 1 && (s[0] == '-' || s[0] == '+') && AllDigits(s[1..]) then
      Some(if s[0] == '-' then -(DigitsValue(s[1..]) as int) else DigitsValue(s[1..]))
    else None
  }

  lemma {:induction false} DigitsRoundTrip(n: nat)
    ensures DigitsValue(Digits(n)) == n
  {
    if n >= 10 {
      DigitsRoundTrip(n / 10);
      var s := Digits(n);
      assert s[..|s| - 1] == Digits(n / 10);
    }
  }

  /** int.Parse reads back what int.ToString writes. */
  lemma DecimalRoundTrip(n: int)
    ensures ParseInt(DecimalString(n)) == Some(n)
  {
    if n < 0 {
      DigitsRoundTrip(-n);
      assert DecimalString(n)[1..] == Digits(-n);
    } else {
      DigitsRoundTrip(n);
    }
  }
}
