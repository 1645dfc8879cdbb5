// Decimal text of integers: what Python's `int` accepts on stripped text,
// and the text `str` and f-strings write for an integer.

module Decimal {
  import opened Base

  predicate IsDigit(c: char) {
    '0' <= c <= '9'
  }

  /** The digits Python's `int` accepts: digits, with single underscores between them. */
  predicate IsDecimalLiteral(s: string) {
    && |s| > 0 && IsDigit(s[0]) && IsDigit(s[|s| - 1])
    && (forall i | 0 <= i < |s| :: IsDigit(s[i]) || s[i] == '_')
    && (forall i | 0 <= i < |s| - 1 :: !(s[i] == '_' && s[i + 1] == '_'))
  }

  /** The value of a decimal literal, underscores skipped. */
  function DigitsValue(s: string): nat {
    if |s| == 0 then 0
    else if !IsDigit(s[|s| - 1]) then DigitsValue(s[..|s| - 1])
    else 10 * DigitsValue(s[..|s| - 1]) + (s[|s| - 1] as int - '0' as int)
  }

  /** The integer an optional sign and a decimal literal stand for, however long the literal. */
  function IntLiteralValue(s: string): Option<int> {
    if |s| > 0 && (s[0] == '+' || s[0] == '-') then
      if IsDecimalLiteral(s[1..]) then
        var v: int := DigitsValue(s[1..]);
        Some(if s[0] == '-' then -v else v)
      else None
    else if IsDecimalLiteral(s) then Some(DigitsValue(s))
    else None
  }

  /**
   * CPython's limit on conversions between `int` and decimal text
   * (`sys.int_info.default_max_str_digits`): longer text raises `ValueError`.
   */
  const MAX_STR_DIGITS: nat := 4300

  /** The number of decimal digits in a text; signs and underscores do not count. */
  function DigitCount(s: string): nat {
    if |s| == 0 then 0 else (if IsDigit(s[0]) then 1 else 0) + DigitCount(s[1..])
  }

  /**
   * `int(s)` on stripped text: an optional sign and a decimal literal of at
   * most 4300 digits; anything else raises, which is `None` here.
   */
  function ParseInt(s: string): (r: Option<int>)
    ensures DigitCount(s) > MAX_STR_DIGITS ==> r.None?
    ensures DigitCount(s) <= MAX_STR_DIGITS ==> r == IntLiteralValue(s)
  {
    if DigitCount(s) > MAX_STR_DIGITS then None else IntLiteralValue(s)
  }

  /** A text made of digits only has one digit per character. */
  lemma {:induction false} DigitCountAllDigits(s: string)
    requires forall i | 0 <= i < |s| :: IsDigit(s[i])
    ensures DigitCount(s) == |s|
  {
    if |s| > 0 {
      assert forall i | 0 <= i < |s[1..]| :: s[1..][i] == s[i + 1];
      DigitCountAllDigits(s[1..]);
    }
  }

  /** A digit string is a valid literal, and `int` accepts it exactly when it has at most 4300 digits. */
  lemma {:induction false} DigitStringLimit(s: string)
    requires |s| > 0 && forall i | 0 <= i < |s| :: IsDigit(s[i])
    ensures IntLiteralValue(s) == Some(DigitsValue(s))
    ensures ParseInt(s).Some? <==> |s| <= MAX_STR_DIGITS
  {
    DigitCountAllDigits(s);
  }

  function DigitChar(d: nat): (c: char)
    requires d < 10
    ensures IsDigit(c) && c as int - '0' as int == d
  {
    ('0' as int + d) as char
  }

  /** The decimal text of a natural number. */
  function NatToString(n: nat): string {
    if n < 10 then [DigitChar(n)] else NatToString(n / 10) + [DigitChar(n % 10)]
  }

  /** The decimal text of an integer, with a minus sign when negative. */
  function IntToString(n: int): string {
    if n < 0 then "-" + NatToString(-n) else NatToString(n)
  }

  lemma {:induction false} NatToStringDigits(n: nat)
    ensures |NatToString(n)| > 0
    ensures forall i | 0 <= i < |NatToString(n)| :: IsDigit(NatToString(n)[i])
    ensures DigitsValue(NatToString(n)) == n
  {
    if n >= 10 {
      NatToStringDigits(n / 10);
      var s := NatToString(n);
      assert s[..|s| - 1] == NatToString(n / 10);
    }
  }

  /** The text `str(n)` writes for an integer of at most 4300 digits, which `int` also accepts. */
  predicate WithinDigitLimit(n: int) {
    |NatToString(if n < 0 then -n else n)| <= MAX_STR_DIGITS
  }

  /** The decimal text of an integer stands for that integer, however long it is. */
  lemma {:induction false} IntLiteralOfString(n: int)
    ensures IntLiteralValue(IntToString(n)) == Some(n)
  {
    NatToStringDigits(if n < 0 then -n else n);
    if n < 0 {
      assert IntToString(n)[1..] == NatToString(-n);
    }
  }

  /** Parsing the decimal text of an integer within the digit limit gives the integer back. */
  lemma {:induction false} ParseIntToString(n: int)
    requires WithinDigitLimit(n)
    ensures ParseInt(IntToString(n)) == Some(n)
  {
    var m := if n < 0 then -n else n;
    NatToStringDigits(m);
    DigitCountAllDigits(NatToString(m));
    IntLiteralOfString(n);
    if n < 0 {
      assert IntToString(n)[1..] == NatToString(m);
    }
  }
}
