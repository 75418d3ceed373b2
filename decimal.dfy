/** Decimal rendering of natural numbers, as Python's f-string `{n}` produces
    for the non-negative integers that appear in the screener's score labels,
    together with the parser that inverts it. */
module Decimal {

  predicate IsDigit(c: char) {
    '0' <= c <= '9'
  }

  predicate IsDigits(s: string) {
    forall i :: 0 <= i < |s| ==> IsDigit(s[i])
  }

  function DigitChar(d: nat): (c: char)
    requires d < 10
    ensures IsDigit(c)
  {
    ('0' as int + d) as char
  }

  function DigitValue(c: char): (d: nat)
    requires IsDigit(c)
    ensures d < 10
  {
    (c as int - '0' as int) as nat
  }

  lemma DigitValueOfDigitChar(d: nat)
    requires d < 10
    ensures DigitValue(DigitChar(d)) == d
  {
  }

  /** The shortest decimal numeral of `n`: no leading zero except for `n == 0`. */
  function DecimalString(n: nat): (s: string)
    ensures |s| >= 1 && IsDigits(s)
    ensures s[0] == '0' ==> n == 0
    decreases n
  {
    if n < 10 then [DigitChar(n)] else DecimalString(n / 10) + [DigitChar(n % 10)]
  }

  /** The value of a string of decimal digits, most significant digit first. */
  function ParseDecimal(s: string): (n: nat)
    requires IsDigits(s)
    ensures |s| == 0 ==> n == 0
    decreases |s|
  {
    if |s| == 0 then 0 else 10 * ParseDecimal(s[..|s| - 1]) + DigitValue(s[|s| - 1])
  }

  lemma {:induction false} ParseDecimalString(n: nat)
    ensures ParseDecimal(DecimalString(n)) == n
    decreases n
  {
    var s := DecimalString(n);
    if n < 10 {
      DigitValueOfDigitChar(n);
      assert s[..0] == [];
    } else {
      ParseDecimalString(n / 10);
      DigitValueOfDigitChar(n % 10);
      assert s[..|s| - 1] == DecimalString(n / 10);
    }
  }

  lemma DecimalStringInjective(a: nat, b: nat)
    ensures DecimalString(a) == DecimalString(b) ==> a == b
  {
    ParseDecimalString(a);
    ParseDecimalString(b);
  }

  /** In a digit run followed by text that does not start with a digit, the
      first non-digit sits right after the run. */
  lemma DigitRunEnd(p: string, s: string)
    requires IsDigits(p)
    requires |s| > 0 && !IsDigit(s[0])
    ensures IsDigits((p + s)[..|p|]) && !IsDigit((p + s)[|p|])
  {
    assert (p + s)[..|p|] == p;
  }

  /** Two digit runs followed by text that does not start with a digit can
      only be split at the same place. */
  lemma DigitRunSplit(p: string, s: string, q: string, t: string)
    requires IsDigits(p) && IsDigits(q)
    requires |s| > 0 && !IsDigit(s[0])
    requires |t| > 0 && !IsDigit(t[0])
    requires p + s == q + t
    ensures p == q && s == t
  {
    var u := p + s;
    DigitRunEnd(p, s);
    DigitRunEnd(q, t);
    assert |p| == |q|;
    assert p == u[..|p|];
    assert q == u[..|q|];
    assert s == u[|p|..];
    assert t == u[|q|..];
  }
}
