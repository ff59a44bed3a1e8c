/**
 * Decimal integers as text: Python's `str(n)` for an `int` and the
 * conversion `int(s)` used when a configuration value is read.
 */
module Decimal {
  import opened Wrappers
  import opened Strings

  predicate IsDigit(c: char) {
    '0' <= c <= '9'
  }

  predicate AllDigits(s: string) {
    forall k :: 0 <= k < |s| ==> IsDigit(s[k])
  }

  function DigitChar(d: nat): (c: char)
    requires d < 10
    ensures IsDigit(c)
  {
    ('0' as int + d) as char
  }

  function DigitValue(c: char): (d: nat)
    requires IsDigit(c)
    ensures d < 10
  {
    c as int - '0' as int
  }

  /** The value of a string of decimal digits. */
  function DigitsValue(s: string): nat
    requires AllDigits(s)
  {
    if s == [] then 0 else 10 * DigitsValue(s[..|s| - 1]) + DigitValue(s[|s| - 1])
  }

  /** `str(n)` for a non-negative integer: its shortest decimal spelling. */
  function ToDecimal(n: nat): (s: string)
    ensures |s| >= 1 && AllDigits(s)
    ensures s[0] == '0' ==> n == 0
  {
    if n < 10 then [DigitChar(n)] else ToDecimal(n / 10) + [DigitChar(n % 10)]
  }

  /** `str(i)` for any integer. */
  function IntToString(i: int): (s: string)
  {
    if i < 0 then "-" + ToDecimal(-i) else ToDecimal(i)
  }

  /** Reading the spelling back gives the number. */
  lemma {:induction false} ToDecimalValue(n: nat)
    ensures DigitsValue(ToDecimal(n)) == n
    decreases n
  {
    if n >= 10 {
      ToDecimalValue(n / 10);
      var s := ToDecimal(n);
      assert s[..|s| - 1] == ToDecimal(n / 10);
    }
  }

  /**
   * The digits-and-underscores body that `int()` accepts: a non-empty run
   * of digits in which single underscores may separate two digits.
   */
  predicate IsDigitGroups(s: string) {
    && s != []
    && (forall k :: 0 <= k < |s| ==> IsDigit(s[k]) || s[k] == '_')
    && IsDigit(s[0]) && IsDigit(s[|s| - 1])
    && (forall k :: 0 <= k < |s| - 1 ==> !(s[k] == '_' && s[k + 1] == '_'))
  }

  function RemoveUnderscores(s: string): (r: string)
    requires forall k :: 0 <= k < |s| ==> IsDigit(s[k]) || s[k] == '_'
    ensures AllDigits(r)
    ensures AllDigits(s) ==> r == s
  {
    if s == [] then ""
    else if s[0] == '_' then RemoveUnderscores(s[1..])
    else [s[0]] + RemoveUnderscores(s[1..])
  }

  /**
   * Python's `int(s)` on a string: surrounding whitespace is ignored, one
   * optional sign, then digit groups. Anything else raises `ValueError`,
   * modelled as `None`.
   */
  function ParseInt(s: string): (r: Option<int>)
  {
    ParseSigned(Strip(s))
  }

  /** `int(t)` once the surrounding whitespace is gone. */
  function ParseSigned(t: string): (r: Option<int>)
  {
    var negative := t != [] && t[0] == '-';
    var body := if t != [] && (t[0] == '-' || t[0] == '+') then t[1..] else t;
    if IsDigitGroups(body) then
      var n: int := DigitsValue(RemoveUnderscores(body));
      Some(if negative then -n else n)
    else
      None
  }

  /** `int(str(i)) == i`. */
  lemma ParseIntToString(i: int)
    ensures ParseInt(IntToString(i)) == Some(i)
  {
    if i < 0 {
      ParseNegativeToString(i, IntToString(i));
    } else {
      ParseNaturalToString(i, IntToString(i));
    }
  }

  lemma ParseNegativeToString(i: int, s: string)
    requires i < 0 && s == IntToString(i)
    ensures ParseInt(s) == Some(i)
  {
    var n: nat := -i;
    ParseMinusDecimal(n, s);
  }

  lemma ParseMinusDecimal(n: nat, s: string)
    requires s == "-" + ToDecimal(n)
    ensures ParseInt(s) == Some(-(n as int))
  {
    assert s[0] == '-' && s[1..] == ToDecimal(n) && s[|s| - 1] == ToDecimal(n)[|ToDecimal(n)| - 1];
    StripsToItself(s);
    ParseSignedMinus(n, s);
  }

  lemma ParseSignedMinus(n: nat, s: string)
    requires |s| >= 2 && s[0] == '-' && s[1..] == ToDecimal(n)
    ensures ParseSigned(s) == Some(-(n as int))
  {
    DecimalIsGroups(n);
  }

  lemma ParseSignedDecimal(n: nat)
    ensures ParseSigned(ToDecimal(n)) == Some(n)
  {
    DecimalIsGroups(n);
    assert IsDigit(ToDecimal(n)[0]);
  }

  /** The spelling of a natural number is one digit group denoting it. */
  lemma DecimalIsGroups(n: nat)
    ensures IsDigitGroups(ToDecimal(n)) && DigitsValue(RemoveUnderscores(ToDecimal(n))) == n
  {
    ToDecimalValue(n);
    DigitsAreGroups(ToDecimal(n));
  }

  lemma ParseNaturalToString(i: int, s: string)
    requires i >= 0 && s == IntToString(i)
    ensures ParseInt(s) == Some(i)
  {
    StripsToItself(s);
    ParseSignedDecimal(i);
  }

  lemma StripsToItself(s: string)
    requires |s| >= 1 && (s[0] == '-' || IsDigit(s[0])) && IsDigit(s[|s| - 1])
    ensures Strip(s) == s
  {
    assert !IsSpace(s[0]) && !IsSpace(s[|s| - 1]);
    StripIdem(s);
  }

  lemma DigitsAreGroups(d: string)
    requires d != [] && AllDigits(d)
    ensures IsDigitGroups(d) && RemoveUnderscores(d) == d
  {
  }
}
