/** Decimal text of integers, as a stream prints them. */
module Decimals {

  function Digit(d: nat): char
    requires d < 10
  {
    '0' + d as char
  }

  function Decimal(n: nat): string {
    if n < 10 then [Digit(n)] else Decimal(n / 10) + [Digit(n % 10)]
  }

  function SignedDecimal(n: int): string {
    if n < 0 then "-" + Decimal(-n) else Decimal(n)
  }

  predicate IsDigit(c: char) {
    '0' <= c <= '9'
  }

  function DigitValue(c: char): nat
    requires IsDigit(c)
  {
    c as nat - '0' as nat
  }

  /** The number a text of digits stands for. */
  function NumberOf(s: string): nat
    requires forall i :: 0 <= i < |s| ==> IsDigit(s[i])
  {
    if s == [] then 0 else 10 * NumberOf(s[..|s| - 1]) + DigitValue(s[|s| - 1])
  }

  /** `s` is digits without a superfluous zero in front, and stands for `n`. */
  predicate IsDecimalOf(s: string, n: nat) {
    && |s| > 0 && (forall i :: 0 <= i < |s| ==> IsDigit(s[i]))
    && (|s| > 1 ==> s[0] != '0')
    && NumberOf(s) == n
  }

  lemma {:induction false} DecimalHasValue(n: nat)
    ensures IsDecimalOf(Decimal(n), n)
    ensures n > 0 ==> Decimal(n)[0] != '0'
  {
    var s := Decimal(n);
    if n < 10 {
      assert s[..|s| - 1] == [];
    } else {
      DecimalHasValue(n / 10);
      assert s[..|s| - 1] == Decimal(n / 10);
    }
  }

  lemma {:induction false} LeadingDigitCounts(s: string)
    requires |s| > 0 && s[0] != '0' && forall i :: 0 <= i < |s| ==> IsDigit(s[i])
    ensures NumberOf(s) > 0
  {
    if |s| > 1 {
      LeadingDigitCounts(s[..|s| - 1]);
    }
  }

  /** A number has exactly one such text. */
  lemma {:induction false} DecimalIsUnique(s: string, n: nat)
    requires IsDecimalOf(s, n)
    ensures s == Decimal(n)
  {
    var k := |s| - 1;
    assert s == s[..k] + [s[k]];
    if k > 0 {
      LeadingDigitCounts(s[..k]);
      DecimalIsUnique(s[..k], NumberOf(s[..k]));
    } else {
      assert s[..k] == [];
    }
  }

  lemma DecimalIsInjective(m: nat, n: nat)
    requires Decimal(m) == Decimal(n)
    ensures m == n
  {
    DecimalHasValue(m);
    DecimalHasValue(n);
  }

  /** A minus sign and the digits of a number above zero, or digits alone. */
  lemma SignedDecimalHasValue(n: int)
    ensures var s := SignedDecimal(n);
            if n < 0 then |s| > 1 && s[0] == '-' && IsDecimalOf(s[1..], -n) else IsDecimalOf(s, n)
  {
    DecimalHasValue(if n < 0 then -n else n);
    assert n < 0 ==> SignedDecimal(n)[1..] == Decimal(-n);
  }

  lemma SignedDecimalIsInjective(m: int, n: int)
    requires SignedDecimal(m) == SignedDecimal(n)
    ensures m == n
  {
    SignedDecimalHasValue(m);
    SignedDecimalHasValue(n);
    assert m < 0 <==> SignedDecimal(m)[0] == '-';
    assert n < 0 <==> SignedDecimal(n)[0] == '-';
  }
}
