/** The language of requests: syntax trees, their printing and their meaning.  It is the full
    request of section 5 of RFC 1945 with the parser's own differences: the URI may be empty,
    exactly one space follows the colon, and the text of a folded line joins the value without
    the blanks that introduce it. */
module RequestGrammar {
  import opened CharClasses
  import opened Decimal

  datatype Header = Header(name: string, value: string)

  datatype RequestValue = RequestValue(
    verb: string, uri: string, major: int, minor: int, headers: seq<Header>)

  datatype Fold = Fold(blanks: string, text: string)

  datatype Line = Line(name: string, value: string, folds: seq<Fold>)

  datatype Tree = Tree(verb: string, uri: string, major: string, minor: string, lines: seq<Line>)

  const CRLF := "\r\n"

  predicate FoldWf(f: Fold) {
    && IsBlanks(f.blanks)
    && IsText(f.text)
    && (f.text != "" ==> f.text[0] != ' ')
  }

  predicate LineWf(l: Line) {
    && IsToken(l.name)
    && IsText(l.value)
    && forall k :: 0 <= k < |l.folds| ==> FoldWf(l.folds[k])
  }

  predicate LinesWf(ls: seq<Line>) {
    forall k :: 0 <= k < |ls| ==> LineWf(ls[k])
  }

  predicate TreeWf(t: Tree) {
    IsToken(t.verb) && IsUri(t.uri) && IsNumeral(t.major) && IsNumeral(t.minor) && LinesWf(t.lines)
  }

  function PrintFolds(fs: seq<Fold>): string {
    if fs == [] then ""
    else var f := fs[|fs| - 1]; PrintFolds(fs[..|fs| - 1]) + CRLF + f.blanks + f.text
  }

  /** A header line up to its closing CRLF. */
  function PrintBody(l: Line): string {
    l.name + ": " + l.value + PrintFolds(l.folds)
  }

  function PrintLines(ls: seq<Line>): string {
    if ls == [] then "" else PrintLines(ls[..|ls| - 1]) + PrintBody(ls[|ls| - 1]) + CRLF
  }

  function PrintRequestLine(t: Tree): string {
    t.verb + " " + t.uri + " HTTP/" + t.major + "." + t.minor + CRLF
  }

  function Print(t: Tree): string {
    PrintRequestLine(t) + PrintLines(t.lines) + CRLF
  }

  function FoldTexts(fs: seq<Fold>): string {
    if fs == [] then "" else FoldTexts(fs[..|fs| - 1]) + fs[|fs| - 1].text
  }

  function HeaderOf(l: Line): Header {
    Header(l.name, l.value + FoldTexts(l.folds))
  }

  function HeadersOf(ls: seq<Line>): seq<Header> {
    seq(|ls|, i requires 0 <= i < |ls| => HeaderOf(ls[i]))
  }

  function Meaning(t: Tree): RequestValue
    requires TreeWf(t)
  {
    RequestValue(t.verb, t.uri, Value(t.major), Value(t.minor), HeadersOf(t.lines))
  }

  /** The accepted language. */
  ghost predicate Accepted(s: string) {
    exists t :: TreeWf(t) && Print(t) == s
  }

  /** A string that some continuation completes to an accepted one. */
  ghost predicate Viable(s: string) {
    exists x :: Accepted(s + x)
  }
}
