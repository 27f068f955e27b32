/** URL decoding, and the percent-encodings (section 2.1 of RFC 3986) it inverts. */
module UrlDecoding {
  import opened Basics
  import opened CText

  predicate IsHex(c: char) {
    '0' <= c <= '9' || 'a' <= c <= 'f' || 'A' <= c <= 'F'
  }

  function HexDigit(c: char): (d: int)
    requires IsHex(c)
    ensures 0 <= d < 16
  {
    if '0' <= c <= '9' then c as int - '0' as int
    else if 'a' <= c <= 'f' then c as int - 'a' as int + 10
    else c as int - 'A' as int + 10
  }

  /** What `istringstream(pair) >> hex >> value` extracts in the C locale: blanks are skipped, a
      sign is taken, digits are read as far as they go, and "0x" alone is no number. */
  function ReadHex(a: char, b: char): Option<int> {
    if IsSpace(a) || a == '+' || a == '-' then
      if !IsHex(b) then None
      else Some(if a == '-' then -HexDigit(b) else HexDigit(b))
    else if !IsHex(a) || (a == '0' && (b == 'x' || b == 'X')) then None
    else Some(if IsHex(b) then 16 * HexDigit(a) + HexDigit(b) else HexDigit(a))
  }

  /** The conversion of an `int` to `char`. */
  function ToChar(v: int): char {
    (v % 256) as char
  }

  function After(out: string, r: Option<string>): Option<string> {
    match r
    case Some(x) => Some(out + x)
    case None => None
  }

  function Decode(s: string): Option<string> {
    if s == "" then Some("")
    else if s[0] != '%' then After([if s[0] == '+' then ' ' else s[0]], Decode(s[1..]))
    else if |s| < 3 then None
    else match ReadHex(s[1], s[2])
      case None => None
      case Some(v) => After([ToChar(v)], Decode(s[3..]))
  }

  lemma AfterAfter(a: string, b: string, r: Option<string>)
    ensures After(a, After(b, r)) == After(a + b, r)
  {
    match r {
      case Some(x) => assert a + (b + x) == a + b + x;
      case None =>
    }
  }

  lemma AfterNothing(r: Option<string>)
    ensures After("", r) == r
  {
    match r {
      case Some(x) => assert "" + x == x;
      case None =>
    }
  }

  /** Bytes that are neither '%' nor '+' are taken as they are. */
  lemma {:induction false} DecodePlain(a: string, s: string)
    requires '%' !in a && '+' !in a
    ensures Decode(a + s) == After(a, Decode(s))
    decreases |a|
  {
    if a == "" {
      assert a + s == s;
      AfterNothing(Decode(s));
    } else {
      DecodePlain(a[1..], s);
      assert (a + s)[1..] == a[1..] + s && [a[0]] + a[1..] == a;
      AfterAfter([a[0]], a[1..], Decode(s));
    }
  }

  method UrlDecode(s: string) returns (ok: bool, out: string)
    ensures Decode(s) == if ok then Some(out) else None
  {
    out := "";
    var i := 0;
    AfterNothing(Decode(s));
    assert s[0..] == s;
    while i < |s|
      invariant 0 <= i <= |s|
      invariant Decode(s) == After(out, Decode(s[i..]))
    {
      ghost var rest, before := s[i..], out;
      if s[i] == '%' {
        if i + 3 <= |s| {
          assert rest[0] == s[i] && rest[1] == s[i + 1] && rest[2] == s[i + 2] && rest[3..] == s[i + 3..];
          match ReadHex(s[i + 1], s[i + 2]) {
            case Some(value) =>
              out := out + [ToChar(value)];
              i := i + 2;
              AfterAfter(before, [ToChar(value)], Decode(rest[3..]));
            case None =>
              return false, out;
          }
        } else {
          return false, out;
        }
      } else if s[i] == '+' {
        out := out + " ";
        AfterAfter(before, " ", Decode(rest[1..]));
      } else {
        out := out + [s[i]];
        AfterAfter(before, [rest[0]], Decode(rest[1..]));
      }
      i := i + 1;
    }
    assert s[i..] == "" && out + "" == out;
    return true, out;
  }

  /** One encoded byte. */
  datatype Piece = Plain(c: char) | Plus | Escape(hi: char, lo: char)

  predicate PieceWf(p: Piece) {
    match p
    case Plain(c) => c != '%' && c != '+'
    case Plus => true
    case Escape(a, b) => ReadHex(a, b).Some?
  }

  predicate PiecesWf(ps: seq<Piece>) {
    forall k :: 0 <= k < |ps| ==> PieceWf(ps[k])
  }

  function PrintPiece(p: Piece): string {
    match p
    case Plain(c) => [c]
    case Plus => "+"
    case Escape(a, b) => ['%', a, b]
  }

  function PieceMeaning(p: Piece): char
    requires PieceWf(p)
  {
    match p
    case Plain(c) => c
    case Plus => ' '
    case Escape(a, b) => ToChar(ReadHex(a, b).value)
  }

  function Encoded(ps: seq<Piece>): string {
    if ps == [] then "" else PrintPiece(ps[0]) + Encoded(ps[1..])
  }

  function Plaintext(ps: seq<Piece>): string
    requires PiecesWf(ps)
  {
    if ps == [] then "" else [PieceMeaning(ps[0])] + Plaintext(ps[1..])
  }

  function Escapes(ps: seq<Piece>): nat {
    if ps == [] then 0 else (if ps[0].Escape? then 1 else 0) + Escapes(ps[1..])
  }

  /** Decoding inverts every encoding, whichever bytes it escapes. */
  lemma {:induction false} DecodeInverts(ps: seq<Piece>)
    requires PiecesWf(ps)
    ensures Decode(Encoded(ps)) == Some(Plaintext(ps))
    decreases |ps|
  {
    if ps != [] {
      var p, s := ps[0], Encoded(ps);
      assert PieceWf(p);
      DecodeInverts(ps[1..]);
      match p {
        case Plain(c) => assert s[1..] == Encoded(ps[1..]);
        case Plus => assert s[1..] == Encoded(ps[1..]);
        case Escape(a, b) => assert s[0] == '%' && s[1] == a && s[2] == b && s[3..] == Encoded(ps[1..]);
      }
    }
  }

  /** Success means that the input is such an encoding, in one way only; its length follows. */
  lemma {:induction false} DecodedIsEncoding(s: string) returns (ps: seq<Piece>)
    requires Decode(s).Some?
    ensures PiecesWf(ps) && Encoded(ps) == s && Plaintext(ps) == Decode(s).value
    ensures |s| == |Decode(s).value| + 2 * Escapes(ps)
    decreases |s|
  {
    if s == "" {
      ps := [];
    } else {
      var p := if s[0] == '+' then Plus else if s[0] == '%' then Escape(s[1], s[2]) else Plain(s[0]);
      var rest := s[|PrintPiece(p)|..];
      var qs := DecodedIsEncoding(rest);
      ps := [p] + qs;
      assert ps[1..] == qs && s == PrintPiece(p) + rest;
    }
  }

  lemma OnlyNothingIsEmpty(ps: seq<Piece>)
    ensures ps == [] <==> Encoded(ps) == ""
  {
  }

  lemma {:induction false} EncodingIsUnique(ps: seq<Piece>, qs: seq<Piece>)
    requires PiecesWf(ps) && PiecesWf(qs) && Encoded(ps) == Encoded(qs)
    ensures ps == qs
    decreases |ps|
  {
    OnlyNothingIsEmpty(ps);
    OnlyNothingIsEmpty(qs);
    if ps != [] {
      var s := Encoded(ps);
      assert PieceWf(ps[0]) && PieceWf(qs[0]);
      assert s[0] == PrintPiece(ps[0])[0] == PrintPiece(qs[0])[0];
      if ps[0].Escape? {
        assert s[1] == PrintPiece(ps[0])[1] == PrintPiece(qs[0])[1];
        assert s[2] == PrintPiece(ps[0])[2] == PrintPiece(qs[0])[2];
      }
      assert ps[0] == qs[0];
      assert Encoded(ps[1..]) == s[|PrintPiece(ps[0])|..] == Encoded(qs[1..]);
      EncodingIsUnique(ps[1..], qs[1..]);
      assert ps == [ps[0]] + ps[1..] && qs == [qs[0]] + qs[1..];
    }
  }

  const SMALL_DIGITS := "0123456789abcdef"
  const CAPITAL_DIGITS := "0123456789ABCDEF"

  /** A hexadecimal digit in either case. */
  function HexChar(d: nat, small: bool): char
    requires d < 16
  {
    if small then SMALL_DIGITS[d] else CAPITAL_DIGITS[d]
  }

  /** What the digits mean, and that there are no others. */
  lemma HexDigits(d: nat, c: char)
    requires d < 16
    ensures IsHex(SMALL_DIGITS[d]) && HexDigit(SMALL_DIGITS[d]) == d
    ensures IsHex(CAPITAL_DIGITS[d]) && HexDigit(CAPITAL_DIGITS[d]) == d
    ensures IsHex(c) <==> c in SMALL_DIGITS || c in CAPITAL_DIGITS
  {
    if IsHex(c) {
      var k := HexDigit(c);
      assert SMALL_DIGITS[k] == c || CAPITAL_DIGITS[k] == c;
    }
  }

  function EscapeOf(c: char, smallHigh: bool, smallLow: bool): Piece
    requires c as int < 256
  {
    Escape(HexChar(c as int / 16, smallHigh), HexChar(c as int % 16, smallLow))
  }

  lemma HexCharIs(d: nat, small: bool)
    requires d < 16
    ensures IsHex(HexChar(d, small)) && HexDigit(HexChar(d, small)) == d
  {
    HexDigits(d, ' ');
    hide IsHex, HexDigit;
  }

  lemma HexPair(high: nat, low: nat, smallHigh: bool, smallLow: bool)
    requires high < 16 && low < 16
    ensures ReadHex(HexChar(high, smallHigh), HexChar(low, smallLow)) == Some(16 * high + low)
  {
    HexCharIs(high, smallHigh);
    HexCharIs(low, smallLow);
    hide HexChar, HexDigit;
  }

  lemma SplitByte(c: char)
    requires c as int < 256
    ensures 16 * (c as int / 16) + c as int % 16 == c as int && ToChar(c as int) == c
  {
  }

  /** The two digits of a byte, in any case, are an escape of it. */
  lemma EscapeOfByte(c: char, smallHigh: bool, smallLow: bool)
    requires c as int < 256
    ensures var p := EscapeOf(c, smallHigh, smallLow); PieceWf(p) && PieceMeaning(p) == c
  {
    hide ReadHex, HexChar, ToChar;
    SplitByte(c);
    HexPair(c as int / 16, c as int % 16, smallHigh, smallLow);
  }

  /** So every byte string has an encoding, for any choice of the bytes to leave as they are, of the
      spaces to write as '+', and of the digits to write with small letters. */
  lemma EveryStringHasEncodings(s: string, plain: set<nat>, plus: set<nat>, smallHigh: set<nat>, smallLow: set<nat>)
    returns (ps: seq<Piece>)
    requires forall k :: 0 <= k < |s| ==> s[k] as int < 256
    requires forall k | k in plain && k < |s| :: s[k] != '%' && s[k] != '+'
    requires plain !! plus && forall k | k in plus && k < |s| :: s[k] == ' '
    ensures |ps| == |s| && PiecesWf(ps)
    ensures forall k :: 0 <= k < |s| ==>
      ps[k] == if k in plain then Plain(s[k]) else if k in plus then Plus
               else EscapeOf(s[k], k in smallHigh, k in smallLow)
    ensures Decode(Encoded(ps)) == Some(s)
  {
    ps := seq(|s|, k requires 0 <= k < |s| =>
      if k in plain then Plain(s[k])
      else if k in plus then Plus
      else EscapeOf(s[k], k in smallHigh, k in smallLow));
    forall k | 0 <= k < |s| ensures PieceWf(ps[k]) && PieceMeaning(ps[k]) == s[k] {
      EscapeOfByte(s[k], k in smallHigh, k in smallLow);
    }
    DecodeInverts(ps);
    PlaintextIs(ps, s);
  }

  /** Pairs that are not two digits: a blank or sign before one digit, one digit before anything
      else, and what is no number. */
  lemma OddPairs()
    ensures ReadHex(' ', '5') == ReadHex('\t', '5') == ReadHex('+', '5') == Some(5)
    ensures ReadHex('-', 'b') == Some(-11) && ToChar(-11) as int == 245
    ensures ReadHex('4', 'g') == ReadHex('4', ' ') == ReadHex('4', '-') == Some(4)
    ensures ReadHex('0', 'x') == ReadHex('0', 'X') == ReadHex('x', '1') == ReadHex('g', '0') == None
    ensures ReadHex(' ', ' ') == ReadHex('-', '-') == ReadHex('+', 'x') == None
  {
  }

  /** And an escape that is cut short, or the percent sign alone. */
  lemma ShortEscapes(s: string)
    requires |s| < 3 && s != "" && s[0] == '%'
    ensures Decode(s) == None
  {
  }

  lemma {:induction false} PlaintextIs(ps: seq<Piece>, s: string)
    requires |ps| == |s| && PiecesWf(ps)
    requires forall k :: 0 <= k < |s| ==> PieceMeaning(ps[k]) == s[k]
    ensures Plaintext(ps) == s
    decreases |ps|
  {
    if ps != [] {
      assert s == [s[0]] + s[1..];
      PlaintextIs(ps[1..], s[1..]);
    }
  }
}
