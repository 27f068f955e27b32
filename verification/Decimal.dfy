/** Decimal notation: what `std::to_string` and `sprintf("%d")` write for a natural number and
    what the digit loops of the parser and of `atoi` read back. */
module Decimal {
  import opened CharClasses

  function DigitValue(c: char): (d: nat)
    requires IsDigit(c)
    ensures d < 10
  {
    c as int - '0' as int
  }

  function DigitChar(d: nat): (c: char)
    requires d < 10
    ensures IsDigit(c) && DigitValue(c) == d
  {
    ('0' as int + d) as char
  }

  /** The number a digit string denotes; the empty string denotes 0. */
  function Value(s: string): nat
    requires All(IsDigit, s)
  {
    if s == "" then 0 else Value(s[..|s| - 1]) * 10 + DigitValue(s[|s| - 1])
  }

  function Digits(n: nat): string {
    if n < 10 then [DigitChar(n)] else Digits(n / 10) + [DigitChar(n % 10)]
  }

  lemma {:induction false} ValueOfDigits(n: nat)
    ensures IsNumeral(Digits(n)) && Value(Digits(n)) == n && (n > 0 ==> Digits(n)[0] != '0')
  {
    if n < 10 {
      assert Digits(n)[..0] == "";
    } else {
      ValueOfDigits(n / 10);
      assert Digits(n)[..|Digits(n)| - 1] == Digits(n / 10);
    }
  }

  lemma ValueSnoc(s: string, c: char)
    requires All(IsDigit, s) && IsDigit(c)
    ensures All(IsDigit, s + [c]) && Value(s + [c]) == Value(s) * 10 + DigitValue(c)
  {
  }

  /** A numeral never denotes less than one of its prefixes. */
  lemma {:induction false} ValueGrows(s: string, x: string)
    requires All(IsDigit, s) && All(IsDigit, x)
    ensures All(IsDigit, s + x) && Value(s) <= Value(s + x)
    decreases |x|
  {
    hide Value;
    if x == "" {
      assert s + x == s;
    } else {
      var y := x[..|x| - 1];
      ValueGrows(s, y);
      ValueSnoc(s + y, x[|x| - 1]);
      assert s + y + [x[|x| - 1]] == s + x;
    }
  }

  function Pow10(k: nat): nat {
    if k == 0 then 1 else 10 * Pow10(k - 1)
  }

  /** How large a numeral is by its length. */
  lemma {:induction false} ValueBounds(s: string)
    requires All(IsDigit, s)
    ensures Value(s) < Pow10(|s|)
    ensures s != "" && s[0] != '0' ==> Pow10(|s| - 1) <= Value(s)
    decreases |s|
  {
    if s != "" {
      ValueBounds(s[..|s| - 1]);
    }
  }
}
