/** Drafts of syntax trees.  A draft follows the parser's control byte by byte; it prints as
    exactly the bytes read so far. */
module ParseTrees {
  import opened Basics
  import opened CharClasses
  import opened RequestGrammar
  import opened RequestMachine

  /** `tree` holds the request line and the header lines that no fold can reach any more;
      `line` is the latest header line and `fold` the fold of it being read. */
  datatype Draft = Draft(tree: Tree, line: Option<Line>, fold: Option<Fold>)

  const SEED := Draft(Tree("", "", "", "", []), None, None)

  predicate InRequestLine(s: State) {
    !InHeader(s) && s !in {LineStart, Newline3}
  }

  /** How far the request line is filled in, and that what is there is well formed. */
  predicate PartialRequestLine(s: State, t: Tree) {
    && t.lines == []
    && (if s == MethodStart then t.verb == "" else IsToken(t.verb))
    && (if s in {MethodStart, Method} then t.uri == "" else IsUri(t.uri))
    && (if VersionSet(s) && s != MajorStart then IsNumeral(t.major) else t.major == "")
    && (if s in {Minor, Newline1} then IsNumeral(t.minor) else t.minor == "")
  }

  predicate PartialHeaders(s: State, line: Option<Line>, fold: Option<Fold>) {
    && (line.Some? ==> LineWf(line.value))
    && (fold.Some? ==> FoldWf(fold.value))
    && (s in {LineStart, Newline3} ==> fold.None?)
    && (InHeader(s) ==> line.Some?)
    && (s in {HeaderName, SpaceBeforeValue} ==> line.value.value == "" && line.value.folds == [] && fold.None?)
    && (s == HeaderLws ==> fold.Some? && fold.value.text == "")
    && (s == HeaderValue ==> if fold.Some? then fold.value.text != "" else line.value.folds == [])
  }

  predicate Partial(s: State, d: Draft) {
    if InRequestLine(s) then PartialRequestLine(s, d.tree) && d.line.None? && d.fold.None?
    else
      && TreeWf(d.tree)
      && PartialHeaders(s, d.line, d.fold)
      && (d.line.None? ==> d.tree.lines == [])
  }

  /** The tree once the line being read is complete. */
  function Close(d: Draft): Tree {
    if d.line.None? then d.tree else d.tree.(lines := d.tree.lines + [d.line.value])
  }

  function PrintedRequestLine(s: State, t: Tree): string {
    match s
    case MethodStart => ""
    case Method => t.verb
    case Uri => t.verb + " " + t.uri
    case VersionH => t.verb + " " + t.uri + " "
    case VersionT1 => t.verb + " " + t.uri + " H"
    case VersionT2 => t.verb + " " + t.uri + " HT"
    case VersionP => t.verb + " " + t.uri + " HTT"
    case VersionSlash => t.verb + " " + t.uri + " HTTP"
    case MajorStart => t.verb + " " + t.uri + " HTTP/"
    case Major => t.verb + " " + t.uri + " HTTP/" + t.major
    case MinorStart => t.verb + " " + t.uri + " HTTP/" + t.major + "."
    case Minor => t.verb + " " + t.uri + " HTTP/" + t.major + "." + t.minor
    case Newline1 => t.verb + " " + t.uri + " HTTP/" + t.major + "." + t.minor + "\r"
    case _ => t.verb + " " + t.uri + " HTTP/" + t.major + "." + t.minor + CRLF
  }

  function PrintedFold(fold: Option<Fold>): string {
    match fold
    case None => ""
    case Some(f) => CRLF + f.blanks + f.text
  }

  function PrintedLine(s: State, line: Option<Line>, fold: Option<Fold>): string {
    match line
    case None => if s == Newline3 then "\r" else ""
    case Some(l) =>
      match s
      case LineStart => PrintBody(l) + CRLF
      case Newline3 => PrintBody(l) + CRLF + "\r"
      case HeaderName => l.name
      case SpaceBeforeValue => l.name + ":"
      case Newline2 => PrintBody(l) + PrintedFold(fold) + "\r"
      case _ => PrintBody(l) + PrintedFold(fold)
  }

  /** The bytes a draft accounts for. */
  function Printed(s: State, d: Draft): string {
    if InRequestLine(s) then PrintedRequestLine(s, d.tree)
    else PrintRequestLine(d.tree) + PrintLines(d.tree.lines) + PrintedLine(s, d.line, d.fold)
  }

  /** What a byte that does not end the parse adds to the request line. */
  function GrowRequestLine(s: State, t: Tree, c: char): Tree {
    match s
    case MethodStart => t.(verb := t.verb + [c])
    case Method => if c == ' ' then t else t.(verb := t.verb + [c])
    case Uri => if c == ' ' then t else t.(uri := t.uri + [c])
    case MajorStart => t.(major := t.major + [c])
    case Major => if c == '.' then t else t.(major := t.major + [c])
    case MinorStart => t.(minor := t.minor + [c])
    case Minor => if c == '\r' then t else t.(minor := t.minor + [c])
    case _ => t
  }

  function GrowFold(f: Fold, c: char): Fold {
    if f.text == "" && IsBlank(c) then f.(blanks := f.blanks + [c]) else f.(text := f.text + [c])
  }

  /** What a byte inside a header line adds to it. */
  function GrowLine(s: State, line: Line, fold: Option<Fold>, c: char): (Line, Option<Fold>) {
    if s == HeaderName then
      (if c == ':' then line else line.(name := line.name + [c]), fold)
    else if s == Newline2 then
      (if fold.None? then line else line.(folds := line.folds + [fold.value]), None)
    else if s == SpaceBeforeValue || c == '\r' then
      (line, fold)
    else if fold.None? then
      (line.(value := line.value + [c]), None)
    else
      (line, Some(GrowFold(fold.value, c)))
  }

  function Grow(s: State, d: Draft, c: char): Draft {
    if InRequestLine(s) then
      d.(tree := GrowRequestLine(s, d.tree, c))
    else if s == LineStart then
      if c == '\r' then d
      else if d.line.Some? && IsBlank(c) then d.(fold := Some(Fold([c], "")))
      else Draft(Close(d), Some(Line([c], "", [])), None)
    else if d.line.None? then d
    else var (l, f) := GrowLine(s, d.line.value, d.fold, c); Draft(d.tree, Some(l), f)
  }

  lemma GrowRequestLineKeeps(s: State, t: Tree, c: char)
    requires InRequestLine(s) && PartialRequestLine(s, t) && Next(s, false, c).Go?
    ensures var to := Next(s, false, c).next; var u := GrowRequestLine(s, t, c);
      && u.lines == []
      && if to == LineStart then TreeWf(u) else InRequestLine(to) && PartialRequestLine(to, u)
  {
    hide IsTokenChar, IsCtl, IsDigit, All;
    AllGrow(IsTokenChar, t.verb, c);
    AllGrow(IsUriChar, t.uri, c);
    AllGrow(IsDigit, t.major, c);
    AllGrow(IsDigit, t.minor, c);
  }

  lemma AllGrow(p: char -> bool, s: string, c: char)
    ensures All(p, "") && (All(p, s) && p(c) ==> All(p, s + [c]))
  {
  }

  lemma GrowRequestLinePrints(s: State, t: Tree, c: char)
    requires InRequestLine(s) && PartialRequestLine(s, t) && Next(s, false, c).Go?
    ensures
      PrintedRequestLine(Next(s, false, c).next, GrowRequestLine(s, t, c)) == PrintedRequestLine(s, t) + [c]
  {
    hide IsToken, IsUri, IsNumeral, IsTokenChar, IsCtl, IsDigit;
    var target := t.verb + " " + t.uri;
    match s {
      case Uri => Assoc(t.verb + " ", t.uri, [c]);
      case VersionH => assert " " + [c] == " H"; Assoc(target, " ", [c]);
      case VersionT1 => assert " H" + [c] == " HT"; Assoc(target, " H", [c]);
      case VersionT2 => assert " HT" + [c] == " HTT"; Assoc(target, " HT", [c]);
      case VersionP => assert " HTT" + [c] == " HTTP"; Assoc(target, " HTT", [c]);
      case VersionSlash => assert " HTTP" + [c] == " HTTP/"; Assoc(target, " HTTP", [c]);
      case MajorStart => assert t.major + [c] == [c];
      case Major => Assoc(target + " HTTP/", t.major, [c]);
      case MinorStart => assert t.minor + [c] == [c];
      case Minor => Assoc(target + " HTTP/" + t.major + ".", t.minor, [c]);
      case Newline1 =>
        assert "\r" + [c] == CRLF;
        Assoc(target + " HTTP/" + t.major + "." + t.minor, "\r", [c]);
      case _ =>
    }
  }

  lemma GrowLineKeeps(s: State, line: Line, fold: Option<Fold>, c: char)
    requires InHeader(s) && PartialHeaders(s, Some(line), fold) && Next(s, true, c).Go?
    ensures var to := Next(s, true, c).next;
      var (l, f) := GrowLine(s, line, fold, c);
      !InRequestLine(to) && PartialHeaders(to, Some(l), f)
  {
  }

  lemma PrintBodySnoc(l: Line, f: Fold)
    ensures PrintBody(l.(folds := l.folds + [f])) == PrintBody(l) + PrintedFold(Some(f))
  {
  }

  lemma GrowFoldPrints(f: Fold, c: char)
    ensures PrintedFold(Some(GrowFold(f, c))) == PrintedFold(Some(f)) + [c]
  {
  }

  lemma SpaceBeforePrints(line: Line, c: char)
    requires c == ' ' && line.value == "" && line.folds == []
    ensures PrintBody(line) + PrintedFold(None) == line.name + ":" + [c]
  {
  }

  lemma Newline2Prints(line: Line, fold: Option<Fold>, c: char)
    requires c == '\n'
    ensures var (l, f) := GrowLine(Newline2, line, fold, c);
      PrintBody(l) + CRLF == PrintBody(line) + PrintedFold(fold) + "\r" + [c]
  {
    hide PrintBody;
    assert CRLF == "\r" + [c];
    if fold.Some? {
      PrintBodySnoc(line, fold.value);
    }
  }

  lemma ValuePrints(line: Line, fold: Option<Fold>, c: char)
    requires c != '\r' && (fold.None? ==> line.folds == [])
    ensures var (l, f) := GrowLine(HeaderValue, line, fold, c);
      PrintBody(l) + PrintedFold(f) == PrintBody(line) + PrintedFold(fold) + [c]
  {
    if fold.None? {
      assert PrintBody(line) == line.name + ": " + line.value;
    } else {
      hide PrintBody, PrintedFold;
      GrowFoldPrints(fold.value, c);
      Assoc(PrintBody(line), PrintedFold(fold), [c]);
    }
  }

  lemma GrowLinePrints(s: State, line: Line, fold: Option<Fold>, c: char)
    requires InHeader(s) && PartialHeaders(s, Some(line), fold) && Next(s, true, c).Go?
    ensures var to := Next(s, true, c).next;
      var (l, f) := GrowLine(s, line, fold, c);
      PrintedLine(to, Some(l), f) == PrintedLine(s, Some(line), fold) + [c]
  {
    hide LineWf, FoldWf, IsTokenChar, IsCtl, GrowFold, PrintedFold;
    var body := PrintBody(line) + PrintedFold(fold);
    match s {
      case SpaceBeforeValue => SpaceBeforePrints(line, c);
      case Newline2 => Newline2Prints(line, fold, c);
      case HeaderLws => if c != '\r' { GrowFoldPrints(fold.value, c); Assoc(PrintBody(line), PrintedFold(fold), [c]); }
      case HeaderValue => if c != '\r' { ValuePrints(line, fold, c); }
      case HeaderName =>
    }
  }

  lemma GrowKeepsLineStart(d: Draft, c: char)
    requires Partial(LineStart, d) && Next(LineStart, d.line.Some?, c).Go?
    ensures var to := Next(LineStart, d.line.Some?, c).next; var u := Grow(LineStart, d, c);
      Partial(to, u) && Printed(to, u) == Printed(LineStart, d) + [c]
  {
    hide PrintLines, PrintFolds, IsTokenChar;
    var u := Grow(LineStart, d, c);
    var base := PrintRequestLine(d.tree) + PrintLines(d.tree.lines);
    if c == '\r' {
      Assoc(base, PrintedLine(LineStart, d.line, None), [c]);
    } else if d.line.Some? && IsBlank(c) {
      var l := d.line.value;
      Assoc(base, PrintBody(l) + CRLF, [c]);
      assert PrintBody(l) + PrintedFold(u.fold) == PrintBody(l) + CRLF + [c];
    } else {
      CloseKeeps(d);
      assert LineWf(Line([c], "", []));
    }
  }

  lemma CloseKeeps(d: Draft)
    requires Partial(LineStart, d)
    ensures TreeWf(Close(d))
    ensures PrintRequestLine(Close(d)) == PrintRequestLine(d.tree)
    ensures PrintRequestLine(Close(d)) + PrintLines(Close(d).lines) == Printed(LineStart, d)
  {
  }

  lemma GrowKeeps(s: State, d: Draft, c: char)
    requires Partial(s, d) && Next(s, d.line.Some?, c).Go?
    ensures var to := Next(s, d.line.Some?, c).next; var u := Grow(s, d, c);
      Partial(to, u) && Printed(to, u) == Printed(s, d) + [c]
  {
    hide Next, PartialRequestLine, PartialHeaders, PrintedLine, PrintLines, GrowLine, PrintedRequestLine;
    if s == LineStart {
      GrowKeepsLineStart(d, c);
    } else if InHeader(s) {
      LineIsOpen(s, d);
      GrowLineKeeps(s, d.line.value, d.fold, c);
      GrowLinePrints(s, d.line.value, d.fold, c);
      Assoc(PrintRequestLine(d.tree) + PrintLines(d.tree.lines), PrintedLine(s, d.line, d.fold), [c]);
    } else if s != Newline3 {
      GrowRequestLineKeeps(s, d.tree, c);
      GrowRequestLinePrints(s, d.tree, c);
      RequestLineEnds(GrowRequestLine(s, d.tree, c));
    } else {
      Newline3Stays(d.line.Some?, c);
    }
  }

  lemma Newline3Stays(hasHeaders: bool, c: char)
    ensures !Next(Newline3, hasHeaders, c).Go?
  {
  }

  lemma LineIsOpen(s: State, d: Draft)
    requires Partial(s, d) && InHeader(s)
    ensures d.line.Some?
  {
  }

  lemma RequestLineEnds(t: Tree)
    requires t.lines == []
    ensures PrintedRequestLine(LineStart, t)
      == PrintRequestLine(t) + PrintLines([]) + PrintedLine(LineStart, None, None)
    ensures PartialHeaders(LineStart, None, None)
  {
  }
}
