/** The four character classes of the request parser (CHAR, CTL, tspecials and DIGIT of
    section 2.2 of RFC 1945).  A byte is a `char`; bytes from 128 on are neither CHAR nor CTL. */
module CharClasses {

  predicate IsChar(c: char) {
    c as int <= 127
  }

  predicate IsCtl(c: char) {
    c as int <= 31 || c as int == 127
  }

  predicate IsTspecial(c: char) {
    || c == '(' || c == ')' || c == '<' || c == '>' || c == '@'
    || c == ',' || c == ';' || c == ':' || c == '\\' || c == '\"'
    || c == '/' || c == '[' || c == ']' || c == '?' || c == '='
    || c == '{' || c == '}' || c == ' ' || c == '\t'
  }

  predicate IsDigit(c: char) {
    '0' <= c <= '9'
  }

  predicate IsTokenChar(c: char) {
    IsChar(c) && !IsCtl(c) && !IsTspecial(c)
  }

  /** What a folded line may start with. */
  predicate IsBlank(c: char) {
    c == ' ' || c == '\t'
  }

  predicate IsUriChar(c: char) {
    c != ' ' && !IsCtl(c)
  }

  predicate IsTextChar(c: char) {
    !IsCtl(c)
  }

  predicate All(p: char -> bool, s: string) {
    forall i :: 0 <= i < |s| ==> p(s[i])
  }

  predicate IsToken(s: string) {
    s != "" && All(IsTokenChar, s)
  }

  predicate IsUri(s: string) {
    All(IsUriChar, s)
  }

  predicate IsText(s: string) {
    All(IsTextChar, s)
  }

  predicate IsBlanks(s: string) {
    s != "" && All(IsBlank, s)
  }

  predicate IsNumeral(s: string) {
    s != "" && All(IsDigit, s)
  }

  // ---- the classes by character

  /** DIGIT, the separators and the controls. */
  lemma ClassesByCharacter(c: char)
    ensures IsDigit(c) <==> c in "0123456789"
    ensures IsTspecial(c) <==> c in "()<>@,;:\\\"/[]?={} \t"
    ensures IsCtl(c) <==> c < ' ' || c == '\U{7f}'
    ensures IsChar(c) <==> c < '\U{80}'
    ensures IsBlank(c) <==> c in " \t"
  {
    DigitsByCharacter(c);
    TspecialsByCharacter(c);
    BlanksByCharacter(c);
  }

  lemma DigitsByCharacter(c: char)
    ensures IsDigit(c) <==> c in "0123456789"
  {
    if IsDigit(c) {
      assert "0123456789"[c as int - 48] == c;
    }
  }

  lemma TspecialsByCharacter(c: char)
    ensures IsTspecial(c) <==> c in "()<>@,;:\\\"/[]?={} \t"
  {
  }

  lemma BlanksByCharacter(c: char)
    ensures IsBlank(c) <==> c in " \t"
  {
  }

  predicate IsLetter(c: char) {
    'a' <= c <= 'z' || 'A' <= c <= 'Z'
  }

  /** What a method or header name is made of. */
  lemma TokenCharacters(c: char)
    ensures IsTokenChar(c) <==> IsLetter(c) || c in "0123456789" || c in "!#$%&'*+-.^_`|~"
  {
    DigitsByCharacter(c);
  }
}
