/** Every printed tree is read back as itself. */
module TreeCompleteness {
  import opened Basics
  import opened CharClasses
  import opened RequestGrammar
  import opened RequestMachine
  import opened ParseTrees
  import opened TreeRuns

  lemma BuildThen(s: State, d: Draft, x: string, y: string)
    requires Build(s, d, x).More?
    ensures var m := Build(s, d, x); Build(s, d, x + y) == Build(m.state, m.draft, y)
  {
    BuildAppend(s, d, x, y);
  }

  lemma BuildOne(s: State, d: Draft, c: char)
    requires Next(s, d.line.Some?, c).Go?
    ensures Build(s, d, [c]) == More(Next(s, d.line.Some?, c).next, Grow(s, d, c))
  {
  }

  /** The bytes a state keeps for itself. */
  predicate Stays(s: State, c: char) {
    Next(s, true, c) == Go(s) && Next(s, false, c) == Go(s)
  }

  predicate AllStay(s: State, x: string) {
    forall i :: 0 <= i < |x| ==> Stays(s, x[i])
  }

  predicate Writes(s: State, d: Draft) {
    || s in {Method, Uri, Major, Minor}
    || (s == HeaderName && d.line.Some?)
    || (s == HeaderLws && d.line.Some? && d.fold.Some? && d.fold.value.text == "")
    || (s == HeaderValue && d.line.Some? && (d.fold.Some? ==> d.fold.value.text != ""))
  }

  function Push(s: State, d: Draft, x: string): Draft
    requires Writes(s, d)
  {
    var t := d.tree;
    match s
    case Method => d.(tree := t.(verb := t.verb + x))
    case Uri => d.(tree := t.(uri := t.uri + x))
    case Major => d.(tree := t.(major := t.major + x))
    case Minor => d.(tree := t.(minor := t.minor + x))
    case HeaderName => d.(line := Some(d.line.value.(name := d.line.value.name + x)))
    case HeaderLws => d.(fold := Some(d.fold.value.(blanks := d.fold.value.blanks + x)))
    case HeaderValue =>
      if d.fold.None? then d.(line := Some(d.line.value.(value := d.line.value.value + x)))
      else d.(fold := Some(d.fold.value.(text := d.fold.value.text + x)))
    case _ => d
  }

  lemma GrowIsPush(s: State, d: Draft, c: char)
    requires Writes(s, d) && Stays(s, c)
    ensures Grow(s, d, c) == Push(s, d, [c])
    ensures Writes(s, Push(s, d, [c]))
  {
  }

  lemma PushPush(s: State, d: Draft, x: string, y: string)
    requires Writes(s, d)
    ensures Writes(s, Push(s, d, x)) && Push(s, Push(s, d, x), y) == Push(s, d, x + y)
  {
    match s {
      case Method => Assoc(d.tree.verb, x, y);
      case Uri => Assoc(d.tree.uri, x, y);
      case Major => Assoc(d.tree.major, x, y);
      case Minor => Assoc(d.tree.minor, x, y);
      case HeaderName => Assoc(d.line.value.name, x, y);
      case HeaderLws => Assoc(d.fold.value.blanks, x, y);
      case HeaderValue =>
        if d.fold.None? { Assoc(d.line.value.value, x, y); } else { Assoc(d.fold.value.text, x, y); }
    }
  }

  lemma PushNothing(s: State, d: Draft)
    requires Writes(s, d)
    ensures Push(s, d, "") == d
  {
    assert forall x: string {:trigger x + ""} :: x + "" == x;
  }

  lemma {:induction false} FeedLoop(s: State, d: Draft, x: string)
    requires Writes(s, d) && AllStay(s, x)
    ensures Build(s, d, x) == More(s, Push(s, d, x))
    decreases |x|
  {
    hide Next, Grow, Writes, Push;
    if x == "" {
      PushNothing(s, d);
    } else {
      var c, y := x[0], x[1..];
      assert x == [c] + y && Stays(s, c);
      GrowIsPush(s, d, c);
      FeedLoop(s, Push(s, d, [c]), y);
      PushPush(s, d, [c], y);
    }
  }

  predicate Feeds(s: State, d: Draft, x: string, s': State, d': Draft) {
    Build(s, d, x) == More(s', d')
  }

  lemma ThenMore(s: State, d: Draft, x: string, m: State, e: Draft, y: string, s': State, d': Draft)
    requires Feeds(s, d, x, m, e) && Feeds(m, e, y, s', d')
    ensures Feeds(s, d, x + y, s', d')
  {
    BuildThen(s, d, x, y);
  }

  lemma ThenOne(s: State, d: Draft, x: string, m: State, e: Draft, c: char)
    requires Feeds(s, d, x, m, e) && Next(m, e.line.Some?, c).Go?
    ensures Feeds(s, d, x + [c], Next(m, e.line.Some?, c).next, Grow(m, e, c))
  {
    hide Next, Grow;
    BuildOne(m, e, c);
    BuildThen(s, d, x, [c]);
  }

  lemma ThenLoop(s: State, d: Draft, x: string, m: State, e: Draft, y: string)
    requires Feeds(s, d, x, m, e) && Writes(m, e) && AllStay(m, y)
    ensures Feeds(s, d, x + y, m, Push(m, e, y))
  {
    hide Writes, AllStay, Push;
    FeedLoop(m, e, y);
    BuildThen(s, d, x, y);
  }

  /** A field whose first byte enters the state that keeps the rest. */
  lemma ThenField(s: State, d: Draft, x: string, m: State, e: Draft, y: string, to: State)
    requires Feeds(s, d, x, m, e) && y != "" && Next(m, e.line.Some?, y[0]) == Go(to)
    requires Writes(to, Grow(m, e, y[0])) && AllStay(to, y[1..])
    ensures Feeds(s, d, x + y, to, Push(to, Grow(m, e, y[0]), y[1..]))
  {
    hide Next, Grow, Writes, AllStay, Push;
    ThenOne(s, d, x, m, e, y[0]);
    ThenLoop(s, d, x + [y[0]], to, Grow(m, e, y[0]), y[1..]);
    assert [y[0]] + y[1..] == y;
    Assoc(x, [y[0]], y[1..]);
  }

  lemma TokensStay(x: string)
    requires All(IsTokenChar, x)
    ensures AllStay(Method, x) && AllStay(HeaderName, x)
  {
  }

  lemma FieldsStay(uri: string, text: string, digits: string, blanks: string)
    requires IsUri(uri) && IsText(text) && All(IsDigit, digits) && All(IsBlank, blanks)
    ensures AllStay(Uri, uri) && AllStay(HeaderValue, text) && AllStay(HeaderLws, blanks)
    ensures AllStay(Major, digits) && AllStay(Minor, digits)
  {
    forall i | 0 <= i < |uri| ensures Stays(Uri, uri[i]) { assert IsUriChar(uri[i]); }
    forall i | 0 <= i < |text| ensures Stays(HeaderValue, text[i]) { assert IsTextChar(text[i]); }
    forall i | 0 <= i < |digits| ensures Stays(Major, digits[i]) && Stays(Minor, digits[i]) {
      assert IsDigit(digits[i]);
    }
    forall i | 0 <= i < |blanks| ensures Stays(HeaderLws, blanks[i]) { assert IsBlank(blanks[i]); }
  }

  lemma AllTail(p: char -> bool, x: string)
    requires All(p, x) && x != ""
    ensures p(x[0]) && All(p, x[1..])
  {
  }

  function Lineless(verb: string, uri: string, major: string, minor: string): Draft {
    Draft(Tree(verb, uri, major, minor, []), None, None)
  }

  lemma FeedTarget(verb: string, uri: string)
    requires IsToken(verb) && IsUri(uri)
    ensures Feeds(MethodStart, SEED, verb + " " + uri, Uri, Lineless(verb, uri, "", ""))
  {
    AllTail(IsTokenChar, verb);
    TokensStay(verb[1..]);
    FieldsStay(uri, "", "", "");
    hide AllStay, IsTokenChar, IsToken;
    assert "" + verb == verb && [verb[0]] + verb[1..] == verb && "" + uri == uri && "" + [verb[0]] == [verb[0]];
    ThenField(MethodStart, SEED, "", MethodStart, SEED, verb, Method);
    ThenOne(MethodStart, SEED, verb, Method, Lineless(verb, "", "", ""), ' ');
    ThenLoop(MethodStart, SEED, verb + " ", Uri, Lineless(verb, "", "", ""), uri);
  }

  lemma FeedProtocol(d: Draft)
    requires d.line.None?
    ensures Feeds(Uri, d, " HTTP/", MajorStart, d)
  {
    hide Feeds, Next, Grow;
    FeedsNothing(d);
    ProtocolMoves(d);
    assert "" + [' '] == " " && " " + ['H'] == " H" && " H" + ['T'] == " HT" && " HT" + ['T'] == " HTT";
    assert " HTT" + ['P'] == " HTTP" && " HTTP" + ['/'] == " HTTP/";
    ThenOne(Uri, d, "", Uri, d, ' ');
    ThenOne(Uri, d, " ", VersionH, d, 'H');
    ThenOne(Uri, d, " H", VersionT1, d, 'T');
    ThenOne(Uri, d, " HT", VersionT2, d, 'T');
    ThenOne(Uri, d, " HTT", VersionP, d, 'P');
    ThenOne(Uri, d, " HTTP", VersionSlash, d, '/');
  }

  lemma FeedsNothing(d: Draft)
    ensures Feeds(Uri, d, "", Uri, d)
  {
  }

  lemma ProtocolMoves(d: Draft)
    requires d.line.None?
    ensures Next(Uri, false, ' ') == Go(VersionH) && Grow(Uri, d, ' ') == d
    ensures Next(VersionH, false, 'H') == Go(VersionT1) && Grow(VersionH, d, 'H') == d
    ensures Next(VersionT1, false, 'T') == Go(VersionT2) && Grow(VersionT1, d, 'T') == d
    ensures Next(VersionT2, false, 'T') == Go(VersionP) && Grow(VersionT2, d, 'T') == d
    ensures Next(VersionP, false, 'P') == Go(VersionSlash) && Grow(VersionP, d, 'P') == d
    ensures Next(VersionSlash, false, '/') == Go(MajorStart) && Grow(VersionSlash, d, '/') == d
  {
  }

  lemma FeedMajor(verb: string, uri: string, major: string, x: string)
    requires IsNumeral(major) && Feeds(MethodStart, SEED, x, MajorStart, Lineless(verb, uri, "", ""))
    ensures Feeds(MethodStart, SEED, x + major, Major, Lineless(verb, uri, major, ""))
    ensures Feeds(MethodStart, SEED, x + major + ".", MinorStart, Lineless(verb, uri, major, ""))
  {
    AllTail(IsDigit, major);
    FieldsStay("", "", major[1..], "");
    hide AllStay, IsDigit, IsNumeral, Feeds;
    assert "" + [major[0]] == [major[0]] && [major[0]] + major[1..] == major;
    ThenField(MethodStart, SEED, x, MajorStart, Lineless(verb, uri, "", ""), major, Major);
    ThenOne(MethodStart, SEED, x + major, Major, Lineless(verb, uri, major, ""), '.');
  }

  lemma FeedMinor(verb: string, uri: string, major: string, minor: string, x: string)
    requires IsNumeral(minor) && Feeds(MethodStart, SEED, x, MinorStart, Lineless(verb, uri, major, ""))
    ensures Feeds(MethodStart, SEED, x + minor, Minor, Lineless(verb, uri, major, minor))
    ensures Feeds(MethodStart, SEED, x + minor + CRLF, LineStart, Lineless(verb, uri, major, minor))
  {
    AllTail(IsDigit, minor);
    FieldsStay("", "", minor[1..], "");
    hide AllStay, IsDigit, IsNumeral, Feeds;
    assert "" + [minor[0]] == [minor[0]] && [minor[0]] + minor[1..] == minor;
    ThenField(MethodStart, SEED, x, MinorStart, Lineless(verb, uri, major, ""), minor, Minor);
    ThenCrlf(MethodStart, SEED, x + minor, Minor, Lineless(verb, uri, major, minor), Newline1);
  }

  /** The two bytes that end a line. */
  lemma ThenCrlf(s: State, d: Draft, x: string, m: State, e: Draft, m': State)
    requires Feeds(s, d, x, m, e) && m' in {Newline1, Newline2}
    requires Next(m, e.line.Some?, '\r') == Go(m') && Grow(m, e, '\r') == e
    ensures Feeds(s, d, x + CRLF, LineStart, Grow(m', e, '\n'))
  {
    hide Feeds, Grow;
    ThenOne(s, d, x, m, e, '\r');
    ThenOne(s, d, x + "\r", m', e, '\n');
    assert x + "\r" + "\n" == x + CRLF;
  }

  lemma FeedRequestLine(t: Tree)
    requires TreeWf(t)
    ensures Feeds(MethodStart, SEED, PrintRequestLine(t), LineStart, Lineless(t.verb, t.uri, t.major, t.minor))
  {
    hide Feeds, LinesWf, IsNumeral, IsUri, IsToken;
    var d := Lineless(t.verb, t.uri, "", "");
    FeedTarget(t.verb, t.uri);
    FeedProtocol(d);
    ThenMore(MethodStart, SEED, t.verb + " " + t.uri, Uri, d, " HTTP/", MajorStart, d);
    var x := t.verb + " " + t.uri + " HTTP/";
    FeedMajor(t.verb, t.uri, t.major, x);
    FeedMinor(t.verb, t.uri, t.major, t.minor, x + t.major + ".");
  }

  function Lined(t: Tree, line: Line, fold: Option<Fold>): Draft {
    Draft(t, Some(line), fold)
  }

  lemma FoldOpens(t: Tree, l: Line, b: char)
    requires IsBlank(b)
    ensures Next(LineStart, true, b) == Go(HeaderLws)
    ensures Grow(LineStart, Lined(t, l, None), b) == Lined(t, l, Some(Fold([b], "")))
  {
  }

  lemma TextOpens(t: Tree, l: Line, blanks: string, c: char)
    requires IsTextChar(c) && c != ' '
    ensures Next(HeaderLws, true, c) == Go(HeaderValue)
    ensures Grow(HeaderLws, Lined(t, l, Some(Fold(blanks, ""))), c) == Lined(t, l, Some(Fold(blanks, [c])))
  {
    assert "" + [c] == [c];
  }

  /** A fold read behind a complete line joins that line. */
  lemma FeedFold(s: State, d: Draft, x: string, t: Tree, l: Line, f: Fold)
    requires FoldWf(f) && Feeds(s, d, x, LineStart, Lined(t, l, None))
    ensures Feeds(s, d, x + f.blanks + f.text + CRLF, LineStart, Lined(t, l.(folds := l.folds + [f]), None))
  {
    var b, y := f.blanks, x + f.blanks;
    AllTail(IsBlank, b);
    FieldsStay("", "", "", b[1..]);
    FoldOpens(t, l, b[0]);
    assert [b[0]] + b[1..] == b;
    var e := Lined(t, l, Some(Fold(b, "")));
    hide AllStay, Feeds;
    ThenField(s, d, x, LineStart, Lined(t, l, None), b, HeaderLws);
    if f.text == "" {
      assert y + f.text == y;
      ThenCrlf(s, d, y, HeaderLws, e, Newline2);
    } else {
      FeedFoldText(s, d, y, t, l, f);
    }
  }

  lemma FeedFoldText(s: State, d: Draft, x: string, t: Tree, l: Line, f: Fold)
    requires FoldWf(f) && f.text != "" && Feeds(s, d, x, HeaderLws, Lined(t, l, Some(Fold(f.blanks, ""))))
    ensures Feeds(s, d, x + f.text + CRLF, LineStart, Lined(t, l.(folds := l.folds + [f]), None))
  {
    var v := f.text;
    AllTail(IsTextChar, v);
    FieldsStay("", v[1..], "", "");
    TextOpens(t, l, f.blanks, v[0]);
    assert [v[0]] + v[1..] == v;
    hide AllStay, Feeds;
    ThenField(s, d, x, HeaderLws, Lined(t, l, Some(Fold(f.blanks, ""))), v, HeaderValue);
    ThenCrlf(s, d, x + v, HeaderValue, Lined(t, l, Some(f)), Newline2);
  }

  lemma {:induction false} FeedFolds(s: State, d: Draft, x: string, t: Tree, l: Line, fs: seq<Fold>)
    requires l.folds == [] && forall k :: 0 <= k < |fs| ==> FoldWf(fs[k])
    requires Feeds(s, d, x, HeaderValue, Lined(t, l, None))
    ensures Feeds(s, d, x + PrintFolds(fs) + CRLF, LineStart, Lined(t, l.(folds := fs), None))
    decreases |fs|
  {
    hide Feeds, FoldWf;
    if fs == [] {
      assert x + PrintFolds(fs) == x;
      ThenCrlf(s, d, x, HeaderValue, Lined(t, l, None), Newline2);
    } else {
      var fs', f := fs[..|fs| - 1], fs[|fs| - 1];
      FeedFolds(s, d, x, t, l, fs');
      FeedFold(s, d, x + PrintFolds(fs') + CRLF, t, l.(folds := fs'), f);
      assert fs' + [f] == fs;
      assert x + PrintFolds(fs') + CRLF + f.blanks + f.text == x + PrintFolds(fs);
    }
  }

  lemma FeedName(s: State, d: Draft, x: string, e: Draft, n: string)
    requires IsToken(n) && e.fold.None? && Feeds(s, d, x, LineStart, e)
    ensures Feeds(s, d, x + n + ": ", HeaderValue, Lined(Close(e), Line(n, "", []), None))
  {
    var l := Lined(Close(e), Line(n, "", []), None);
    AllTail(IsTokenChar, n);
    TokensStay(n[1..]);
    NameOpens(e, n[0]);
    assert [n[0]] + n[1..] == n;
    hide AllStay, Feeds, IsTokenChar, IsToken;
    ThenField(s, d, x, LineStart, e, n, HeaderName);
    ThenOne(s, d, x + n, HeaderName, l, ':');
    ThenOne(s, d, x + n + ":", SpaceBeforeValue, l, ' ');
    assert x + n + ":" + " " == x + n + ": ";
  }

  lemma FeedLine(s: State, d: Draft, x: string, e: Draft, l: Line)
    requires LineWf(l) && e.fold.None? && Feeds(s, d, x, LineStart, e)
    ensures Feeds(s, d, x + PrintBody(l) + CRLF, LineStart, Lined(Close(e), l, None))
  {
    var t, n := Close(e), l.name;
    var y := x + n + ": ";
    FieldsStay("", l.value, "", "");
    FeedName(s, d, x, e, n);
    PrintBodyAfter(x, l);
    hide AllStay, Feeds, FoldWf, IsToken, IsText, PrintFolds, PrintBody, Close;
    assert "" + l.value == l.value;
    ThenLoop(s, d, y, HeaderValue, Lined(t, Line(n, "", []), None), l.value);
    FeedFolds(s, d, y + l.value, t, Line(n, l.value, []), l.folds);
  }

  lemma PrintBodyAfter(x: string, l: Line)
    ensures x + l.name + ": " + l.value + PrintFolds(l.folds) == x + PrintBody(l)
  {
  }

  lemma NameOpens(e: Draft, c: char)
    requires IsTokenChar(c) && e.fold.None?
    ensures Next(LineStart, e.line.Some?, c) == Go(HeaderName)
    ensures Grow(LineStart, e, c) == Lined(Close(e), Line([c], "", []), None)
  {
  }

  /** The draft that has read the request line of t and these lines. */
  function After(t: Tree, ls: seq<Line>): Draft {
    if ls == [] then Lineless(t.verb, t.uri, t.major, t.minor)
    else Lined(t.(lines := ls[..|ls| - 1]), ls[|ls| - 1], None)
  }

  lemma CloseAfter(t: Tree, ls: seq<Line>)
    ensures Close(After(t, ls)) == t.(lines := ls)
  {
  }

  lemma {:induction false} FeedLines(t: Tree, ls: seq<Line>)
    requires TreeWf(t) && LinesWf(ls)
    ensures Feeds(MethodStart, SEED, PrintRequestLine(t) + PrintLines(ls), LineStart, After(t, ls))
    decreases |ls|
  {
    hide Feeds, LineWf, PrintRequestLine, PrintBody, IsToken, IsUri, IsNumeral;
    var x := PrintRequestLine(t);
    if ls == [] {
      FeedRequestLine(t);
      assert x + PrintLines(ls) == x;
    } else {
      var ls', l := ls[..|ls| - 1], ls[|ls| - 1];
      FeedLines(t, ls');
      CloseAfter(t, ls');
      FeedLine(MethodStart, SEED, x + PrintLines(ls'), After(t, ls'), l);
      assert x + PrintLines(ls') + PrintBody(l) + CRLF == x + PrintLines(ls);
    }
  }

  lemma EndOfHeaders(e: Draft, rest: string)
    requires e.fold.None?
    ensures Build(LineStart, e, CRLF + rest) == Done(Close(e), rest)
  {
  }

  /** Completeness: the printing of a tree is read back as that tree, whatever follows it. */
  lemma BuildComplete(t: Tree, rest: string)
    requires TreeWf(t)
    ensures Build(MethodStart, SEED, Print(t) + rest) == Done(t, rest)
  {
    var x, e := PrintRequestLine(t) + PrintLines(t.lines), After(t, t.lines);
    FeedLines(t, t.lines);
    CloseAfter(t, t.lines);
    EndOfHeaders(e, rest);
    Assoc(x, CRLF, rest);
    hide PrintRequestLine, PrintLines, TreeWf, Build, Close, Next, Grow;
    BuildThen(MethodStart, SEED, x, CRLF + rest);
  }
}
