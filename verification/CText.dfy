/** C strings and `atoi`, in the C locale. */
module CText {
  import opened CharClasses
  import opened Decimal

  predicate IsSpace(c: char) {
    c == ' ' || 9 <= c as int <= 13
  }

  /** What is left of a string that is passed on as a C string: the characters before the first NUL. */
  function CString(s: string): (r: string)
    ensures r <= s && '\0' !in r
    ensures r == s <==> '\0' !in s
  {
    if s == "" || s[0] == '\0' then "" else [s[0]] + CString(s[1..])
  }

  function SkipSpaces(s: string): string {
    if s != "" && IsSpace(s[0]) then SkipSpaces(s[1..]) else s
  }

  function LeadingDigits(s: string): (d: string)
    ensures All(IsDigit, d)
  {
    if s != "" && IsDigit(s[0]) then [s[0]] + LeadingDigits(s[1..]) else ""
  }

  /** Blanks, a sign, and digits as far as they go; without digits it is 0. */
  function Atoi(s: string): int {
    var t := SkipSpaces(s);
    if t != "" && t[0] == '-' then 0 - Value(LeadingDigits(t[1..]))
    else if t != "" && t[0] == '+' then Value(LeadingDigits(t[1..]))
    else Value(LeadingDigits(t))
  }

  function Spaces(n: nat): (s: string)
    ensures |s| == n
  {
    if n == 0 then "" else " " + Spaces(n - 1)
  }

  /** What `sprintf("%4d", n)` writes. */
  function Field(n: nat): string {
    var d := Digits(n);
    if |d| < 4 then Spaces(4 - |d|) + d else d
  }

  lemma {:induction false} DigitsAreShort(n: nat, k: nat, power: nat)
    requires k > 0 && n < power && power == Pow10(k)
    ensures |Digits(n)| <= k
    decreases k
  {
    if n >= 10 && k > 1 {
      DigitsAreShort(n / 10, k - 1, Pow10(k - 1));
    }
  }

  lemma {:induction false} SkipAllSpaces(n: nat, s: string)
    requires s != "" && !IsSpace(s[0])
    ensures SkipSpaces(Spaces(n) + s) == s
    decreases n
  {
    if n == 0 {
      assert "" + s == s;
    } else {
      SkipAllSpaces(n - 1, s);
      assert (Spaces(n) + s)[1..] == Spaces(n - 1) + s;
    }
  }

  lemma {:induction false} AllLeadingDigits(s: string)
    requires All(IsDigit, s)
    ensures LeadingDigits(s) == s
    decreases |s|
  {
    if s != "" {
      AllLeadingDigits(s[1..]);
      assert [s[0]] + s[1..] == s;
    }
  }

  /** A number of up to four digits fills the field, and `atoi` reads it back. */
  lemma FieldReadsBack(n: nat)
    requires n <= 9999
    ensures |Field(n)| == 4 && CString(Field(n)) == Field(n) && Atoi(Field(n)) == n
  {
    var d, f := Digits(n), Field(n);
    ValueOfDigits(n);
    DigitsAreShort(n, 4, Pow10(4));
    assert IsDigit(d[0]);
    SkipAllSpaces(4 - |d|, d);
    assert f == Spaces(4 - |d|) + d;
    AllLeadingDigits(d);
    FieldHasNoNul(4 - |d|, d);
  }

  lemma {:induction false} FieldHasNoNul(n: nat, d: string)
    requires All(IsDigit, d)
    ensures '\0' !in Spaces(n) + d
    decreases n
  {
    if n == 0 {
      forall c | c in d ensures c != '\0' {
        var i :| 0 <= i < |d| && d[i] == c;
        assert IsDigit(d[i]);
      }
    } else {
      FieldHasNoNul(n - 1, d);
    }
  }

  // ---- by character

  /** The blanks of the C locale. */
  lemma SpacesByCharacter(c: char)
    ensures IsSpace(c) <==> c in " \t\n\U{b}\U{c}\r"
  {
  }

  lemma {:induction false} LeadingDigitsOf(d: string, tail: string)
    requires All(IsDigit, d) && (tail == "" || !IsDigit(tail[0]))
    ensures LeadingDigits(d + tail) == d
    decreases |d|
  {
    if d == "" {
      assert d + tail == tail;
    } else {
      LeadingDigitsOf(d[1..], tail);
      assert (d + tail)[1..] == d[1..] + tail && [d[0]] + d[1..] == d;
    }
  }

  /** What `atoi` reads: blanks, a sign, digits, and then anything. */
  lemma AtoiReads(n: nat, sign: string, d: string, tail: string)
    requires sign in {"", "+", "-"} && IsNumeral(d) && (tail == "" || !IsDigit(tail[0]))
    ensures Atoi(Spaces(n) + (sign + (d + tail))) == if sign == "-" then 0 - Value(d) else Value(d)
  {
    var t := sign + (d + tail);
    assert IsDigit(d[0]);
    SkipAllSpaces(n, t);
    LeadingDigitsOf(d, tail);
    assert sign != "" ==> t[1..] == d + tail;
    assert sign == "" ==> t == d + tail;
  }

  /** A field is the number behind blanks. */
  lemma FieldIsRightAligned(n: nat)
    requires n <= 9999
    ensures |Digits(n)| <= 4 && Field(n) == Spaces(4 - |Digits(n)|) + Digits(n)
    ensures Field(7) == "   7" && Field(512) == " 512"
  {
    DigitsAreShort(n, 4, Pow10(4));
    assert Digits(7) == "7" && Digits(512) == "512";
    assert Spaces(3) == "   " && Spaces(1) == " ";
  }
}
