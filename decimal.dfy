/** Decimal rendering of naturals, as Python's `str(n)` / `f"{n}"`, and its inverse. */
module Decimal {
  import opened Text

  predicate AllDigits(s: string)
  {
    forall i :: 0 <= i < |s| ==> IsDigit(s[i])
  }

  function DigitChar(d: nat): (c: char)
    requires d < 10
    ensures IsDigit(c)
  {
    (d + '0' as int) as char
  }

  function DigitValue(c: char): (d: nat)
    requires IsDigit(c)
    ensures d < 10
  {
    c as int - '0' as int
  }

  /** `str(n)`: no leading zeros, at least one digit. */
  function ToDecimal(n: nat): (s: string)
    ensures 1 <= |s| && AllDigits(s)
    ensures s[0] == '0' ==> n == 0 && s == "0"
    decreases n
  {
    if n < 10 then [DigitChar(n)] else ToDecimal(n / 10) + [DigitChar(n % 10)]
  }

  /** `int(s)` for a non-empty run of ASCII digits (leading zeros allowed). */
  function ParseDecimal(s: string): nat
    requires AllDigits(s)
  {
    if s == [] then 0 else 10 * ParseDecimal(s[..|s| - 1]) + DigitValue(s[|s| - 1])
  }

  /** Rendering a natural and reading it back gives the same natural. */
  lemma {:induction false} ParseToDecimal(n: nat)
    ensures ParseDecimal(ToDecimal(n)) == n
    decreases n
  {
    if n >= 10 {
      ParseToDecimal(n / 10);
      var s := ToDecimal(n);
      assert s[..|s| - 1] == ToDecimal(n / 10);
    }
  }

  /** `f"{n:02}"` for n < 100: exactly two digits, zero-padded. */
  function TwoDigits(n: nat): (s: string)
    requires n < 100
    ensures |s| == 2 && AllDigits(s)
  {
    if n < 10 then "0" + ToDecimal(n)
    else assert |ToDecimal(n / 10)| == 1; ToDecimal(n)
  }

  lemma ParseTwoDigits(n: nat)
    requires n < 100
    ensures ParseDecimal(TwoDigits(n)) == n
  {
    ParseToDecimal(n);
    var s := TwoDigits(n);
    if n < 10 {
      assert s[..1] == "0";
    } else {
      assert ToDecimal(n) == ToDecimal(n / 10) + [DigitChar(n % 10)];
      assert |ToDecimal(n / 10)| == 1;
    }
  }
}
