/** Whole runs over drafts: sound for the grammar, and matched step for step by the parser. */
module TreeRuns {
  import opened Basics
  import opened CharClasses
  import opened Decimal
  import opened RequestGrammar
  import opened RequestMachine
  import opened ParseTrees

  datatype Built = Done(tree: Tree, rest: string) | Dead(rest: string) | More(state: State, draft: Draft)

  function Build(s: State, d: Draft, x: string): Built
    decreases |x|
  {
    if x == "" then More(s, d)
    else match Next(s, d.line.Some?, x[0])
      case Go(to) => Build(to, Grow(s, d, x[0]), x[1..])
      case Accept => Done(Close(d), x[1..])
      case Reject => Dead(x[1..])
  }

  lemma {:induction false} BuildAppend(s: State, d: Draft, x: string, y: string)
    ensures Build(s, d, x + y) == match Build(s, d, x)
      case More(s', d') => Build(s', d', y)
      case Done(t, rest) => Done(t, rest + y)
      case Dead(rest) => Dead(rest + y)
    decreases |x|
  {
    hide Next, Grow;
    if x == "" {
      assert x + y == y;
    } else {
      assert (x + y)[1..] == x[1..] + y;
      var m := Next(s, d.line.Some?, x[0]);
      if m.Go? {
        BuildAppend(m.next, Grow(s, d, x[0]), x[1..], y);
      }
    }
  }

  lemma OnlyNewline3Accepts(s: State, hasHeaders: bool, c: char)
    requires Next(s, hasHeaders, c) == Accept
    ensures s == Newline3 && c == '\n'
  {
  }

  lemma AcceptPrints(s: State, d: Draft, c: char)
    requires Partial(s, d) && Next(s, d.line.Some?, c) == Accept
    ensures TreeWf(Close(d)) && Print(Close(d)) == Printed(s, d) + [c]
  {
    OnlyNewline3Accepts(s, d.line.Some?, c);
    CloseKeeps(d);
    hide Next, TreeWf, LineWf, PrintLines, PrintRequestLine, PrintBody;
    var base, line := PrintRequestLine(d.tree) + PrintLines(d.tree.lines), PrintedLine(LineStart, d.line, None);
    assert PrintedLine(Newline3, d.line, None) == line + "\r";
    Assoc(base, line, "\r");
    Assoc(base + line, "\r", [c]);
    assert "\r" + [c] == CRLF;
  }

  /** What `Build` returns accounts for every byte it was given. */
  lemma {:induction false} BuildSound(s: State, d: Draft, x: string)
    requires Partial(s, d)
    ensures match Build(s, d, x)
      case More(s', d') => Partial(s', d') && Printed(s', d') == Printed(s, d) + x
      case Done(t, rest) => TreeWf(t) && Print(t) + rest == Printed(s, d) + x
      case Dead(rest) => true
    decreases |x|
  {
    hide Next, Grow, Partial, Printed, TreeWf, Print, Close;
    if x == "" {
      assert Printed(s, d) + x == Printed(s, d);
    } else {
      var m := Next(s, d.line.Some?, x[0]);
      assert [x[0]] + x[1..] == x;
      Assoc(Printed(s, d), [x[0]], x[1..]);
      if m.Go? {
        GrowKeeps(s, d, x[0]);
        BuildSound(m.next, Grow(s, d, x[0]), x[1..]);
      } else if m.Accept? {
        AcceptPrints(s, d, x[0]);
      }
    }
  }

  function PendingHeader(l: Line, fold: Option<Fold>): Header {
    Header(l.name, l.value + FoldTexts(l.folds) + if fold.Some? then fold.value.text else "")
  }

  /** The request says what the draft says. */
  predicate Represents(s: State, d: Draft, r: RequestValue) {
    && r.verb == d.tree.verb
    && r.uri == d.tree.uri
    && (VersionSet(s) ==>
        && All(IsDigit, d.tree.major) && r.major == Value(d.tree.major)
        && All(IsDigit, d.tree.minor) && r.minor == Value(d.tree.minor))
    && r.headers == HeadersOf(d.tree.lines) + Pending(d)
  }

  function Pending(d: Draft): seq<Header> {
    if d.line.None? then [] else [PendingHeader(d.line.value, d.fold)]
  }

  lemma HeadersOfSnoc(ls: seq<Line>, l: Line)
    ensures HeadersOf(ls + [l]) == HeadersOf(ls) + [HeaderOf(l)]
  {
  }

  lemma FoldTextsSnoc(fs: seq<Fold>, f: Fold)
    ensures FoldTexts(fs + [f]) == FoldTexts(fs) + f.text
  {
  }

  lemma HeadersAreLines(s: State, d: Draft, r: RequestValue)
    requires Partial(s, d) && Represents(s, d, r)
    ensures (r.headers != []) <==> d.line.Some?
    ensures Safe(Config(s, r))
  {
  }

  lemma ActOnRequestLine(s: State, d: Draft, r: RequestValue, c: char)
    requires Partial(s, d) && Represents(s, d, r) && InRequestLine(s) && Next(s, false, c).Go?
    ensures Safe(Config(s, r)) && Represents(Next(s, false, c).next, Grow(s, d, c), Act(Config(s, r), c))
  {
    hide IsTokenChar, IsCtl, IsTspecial, Value;
    assert r.headers == [];
    var t := d.tree;
    match s {
      case VersionSlash => ValueOfEmpty();
      case MajorStart => assert IsDigit(c); ValueSnoc(t.major, c);
      case Major => if c != '.' { assert IsDigit(c); ValueSnoc(t.major, c); }
      case MinorStart => assert IsDigit(c); ValueSnoc(t.minor, c);
      case Minor => if c != '\r' { assert IsDigit(c); ValueSnoc(t.minor, c); }
      case _ =>
    }
  }

  lemma ValueOfEmpty()
    ensures All(IsDigit, "") && Value("") == 0
  {
  }

  lemma ActOnLineStart(d: Draft, r: RequestValue, c: char)
    requires Partial(LineStart, d) && Represents(LineStart, d, r) && Next(LineStart, d.line.Some?, c).Go?
    ensures Safe(Config(LineStart, r))
    ensures Represents(Next(LineStart, d.line.Some?, c).next, Grow(LineStart, d, c), Act(Config(LineStart, r), c))
  {
    HeadersAreLines(LineStart, d, r);
    hide IsTokenChar, IsCtl, IsTspecial, Value, HeadersOf;
    if d.line.Some? {
      HeadersOfSnoc(d.tree.lines, d.line.value);
      assert PendingHeader(d.line.value, None) == HeaderOf(d.line.value);
      assert PendingHeader(d.line.value, Some(Fold([c], ""))) == HeaderOf(d.line.value);
    }
    assert PendingHeader(Line([c], "", []), None) == Header([c], "");
  }

  /** What a byte inside a header line does to the latest header. */
  function ActHeader(s: State, h: Header, c: char): Header {
    if s == HeaderName && c != ':' then Header(h.name + [c], h.value)
    else if s == HeaderValue && c != '\r' then Header(h.name, h.value + [c])
    else if s == HeaderLws && c != '\r' && !IsBlank(c) then Header(h.name, h.value + [c])
    else h
  }

  lemma ActIsActHeader(c: Config, x: char)
    requires Safe(c) && InHeader(c.state)
    ensures
      var hs := c.request.headers;
      Act(c, x) == c.request.(headers := hs[|hs| - 1 := ActHeader(c.state, hs[|hs| - 1], x)])
  {
  }

  lemma PendingGrows(s: State, line: Line, fold: Option<Fold>, c: char)
    requires InHeader(s) && PartialHeaders(s, Some(line), fold) && Next(s, true, c).Go?
    ensures var (l, f) := GrowLine(s, line, fold, c);
      PendingHeader(l, f) == ActHeader(s, PendingHeader(line, fold), c)
  {
    hide IsTokenChar, IsCtl, LineWf, FoldWf, FoldTexts;
    match s {
      case HeaderName =>
      case SpaceBeforeValue =>
      case HeaderLws =>
      case HeaderValue =>
        if c != '\r' {
          FoldTextsOfNone();
          Assoc(line.value + FoldTexts(line.folds), if fold.Some? then fold.value.text else "", [c]);
        }
      case Newline2 =>
        if fold.Some? {
          FoldTextsSnoc(line.folds, fold.value);
          Assoc(line.value, FoldTexts(line.folds), fold.value.text);
        }
    }
  }

  lemma FoldTextsOfNone()
    ensures FoldTexts([]) == ""
  {
  }

  lemma HeadersStayVersioned(s: State, c: char)
    requires InHeader(s) && Next(s, true, c).Go?
    ensures VersionSet(s) && VersionSet(Next(s, true, c).next)
  {
  }

  lemma UpdateLast(hs: seq<Header>, h: Header, h': Header)
    ensures (hs + [h])[|hs| := h'] == hs + [h']
  {
  }

  lemma ActOnLine(s: State, d: Draft, r: RequestValue, c: char)
    requires Partial(s, d) && Represents(s, d, r) && InHeader(s) && Next(s, true, c).Go?
    ensures Safe(Config(s, r)) && Represents(Next(s, true, c).next, Grow(s, d, c), Act(Config(s, r), c))
  {
    HeadersAreLines(s, d, r);
    LineIsOpen(s, d);
    PendingGrows(s, d.line.value, d.fold, c);
    ActIsActHeader(Config(s, r), c);
    HeadersStayVersioned(s, c);
    hide Next, Value, HeadersOf, TreeWf, PartialHeaders, GrowLine, PendingHeader, Act, ActHeader, All, VersionSet, Safe;
    var h := PendingHeader(d.line.value, d.fold);
    UpdateLast(HeadersOf(d.tree.lines), h, ActHeader(s, h, c));
  }

  /** The parser's request keeps saying what the draft says. */
  lemma ActRepresents(s: State, d: Draft, r: RequestValue, c: char)
    requires Partial(s, d) && Represents(s, d, r) && Next(s, d.line.Some?, c).Go?
    ensures Safe(Config(s, r))
    ensures Represents(Next(s, d.line.Some?, c).next, Grow(s, d, c), Act(Config(s, r), c))
  {
    hide Next, Partial, PartialHeaders, Represents, Grow, Act, Safe;
    if s == LineStart {
      ActOnLineStart(d, r, c);
    } else if InHeader(s) {
      LineIsOpen(s, d);
      ActOnLine(s, d, r, c);
    } else if s == Newline3 {
      Newline3Stays(d.line.Some?, c);
    } else {
      NoLineYet(s, d);
      ActOnRequestLine(s, d, r, c);
    }
  }

  lemma NoLineYet(s: State, d: Draft)
    requires Partial(s, d) && InRequestLine(s)
    ensures d.line.None?
  {
  }

  lemma AcceptRepresents(s: State, d: Draft, r: RequestValue, c: char)
    requires Partial(s, d) && Represents(s, d, r) && Next(s, d.line.Some?, c) == Accept
    ensures TreeWf(Close(d)) && r == Meaning(Close(d))
  {
    OnlyNewline3Accepts(s, d.line.Some?, c);
    AcceptPrints(s, d, c);
    hide Next, Value, Printed, Print, HeadersOf;
    if d.line.Some? {
      HeadersOfSnoc(d.tree.lines, d.line.value);
      assert PendingHeader(d.line.value, None) == HeaderOf(d.line.value);
    }
  }

  /** The parser does what `Build` does and ends with the request that says it. */
  lemma {:induction false} RunFollowsBuild(s: State, d: Draft, r: RequestValue, x: string)
    requires Partial(s, d) && Represents(s, d, r)
    ensures Safe(Config(s, r))
    ensures var o := Run(Config(s, r), x);
      match Build(s, d, x)
      case More(s', d') =>
        o.verdict == Indeterminate && o.rest == "" && o.config.state == s' && Represents(s', d', o.config.request)
      case Done(t, rest) => o.verdict == Good && o.rest == rest && TreeWf(t) && o.config.request == Meaning(t)
      case Dead(rest) => o.verdict == Bad && o.rest == rest
    decreases |x|
  {
    HeadersAreLines(s, d, r);
    hide Next, Act, Grow, Partial, Represents, Safe, Meaning, Close, TreeWf, Run;
    if x == "" {
      RunEmpty(Config(s, r));
    } else {
      RunMoves(Config(s, r), x);
      var m := Next(s, d.line.Some?, x[0]);
      if m.Go? {
        GrowKeeps(s, d, x[0]);
        ActRepresents(s, d, r, x[0]);
        RunFollowsBuild(m.next, Grow(s, d, x[0]), Act(Config(s, r), x[0]), x[1..]);
      } else if m.Accept? {
        AcceptRepresents(s, d, r, x[0]);
      }
    }
  }
}
