/** Where a request ends: at the first empty line, and every CR and LF in it is half of a CRLF. */
module LineDiscipline {
  import opened RequestMachine
  import opened ParseTrees
  import opened TreeRuns
  import opened ParserTheorems

  predicate BlankLineAt(p: string, i: nat) {
    i + 4 <= |p| && p[i] == '\r' && p[i + 1] == '\n' && p[i + 2] == '\r' && p[i + 3] == '\n'
  }

  /** Every LF follows a CR, and every CR but a last one is followed by LF. */
  predicate Paired(p: string) {
    && (forall i :: 0 <= i < |p| && p[i] == '\n' ==> i > 0 && p[i - 1] == '\r')
    && (forall i :: 0 <= i < |p| - 1 && p[i] == '\r' ==> p[i + 1] == '\n')
  }

  ghost predicate NoBlankLine(p: string) {
    forall i: nat :: !BlankLineAt(p, i)
  }

  predicate EndsIn(p: string, k: nat, c: char) {
    k < |p| && p[|p| - 1 - k] == c
  }

  /** The state tells how the bytes read so far end. */
  ghost predicate Disciplined(s: State, p: string) {
    && Paired(p)
    && NoBlankLine(p)
    && (s in {Newline1, Newline2, Newline3} <==> EndsIn(p, 0, '\r'))
    && (s == LineStart <==> EndsIn(p, 0, '\n'))
    && (s == Newline3 <==> EndsIn(p, 0, '\r') && EndsIn(p, 1, '\n'))
  }

  lemma NextKeepsEnds(s: State, hasHeaders: bool, c: char)
    requires Next(s, hasHeaders, c) != Reject
    ensures c == '\n' <==> s in {Newline1, Newline2, Newline3}
    ensures Next(s, hasHeaders, c) == Accept <==> s == Newline3
    ensures s != Newline3 ==> (var to := Next(s, hasHeaders, c).next;
      && (to in {Newline1, Newline2, Newline3} <==> c == '\r')
      && (to == LineStart <==> c == '\n')
      && (to == Newline3 <==> c == '\r' && s == LineStart))
  {
  }

  lemma PairedSnoc(p: string, c: char)
    requires Paired(p) && (c == '\n' <==> EndsIn(p, 0, '\r'))
    ensures Paired(p + [c])
  {
  }

  lemma NoBlankLineSnoc(p: string, c: char)
    requires NoBlankLine(p)
    requires c == '\n' ==> !(EndsIn(p, 0, '\r') && EndsIn(p, 1, '\n'))
    ensures NoBlankLine(p + [c])
  {
    forall i: nat ensures !BlankLineAt(p + [c], i) {
      assert !BlankLineAt(p, i);
    }
  }

  lemma NextKeepsDiscipline(s: State, hasHeaders: bool, c: char, p: string)
    requires Disciplined(s, p) && Next(s, hasHeaders, c).Go?
    ensures Disciplined(Next(s, hasHeaders, c).next, p + [c])
  {
    NextKeepsEnds(s, hasHeaders, c);
    hide Next, Paired, NoBlankLine;
    PairedSnoc(p, c);
    NoBlankLineSnoc(p, c);
  }

  /** The first n bytes are a request's worth of paired line ends, and the first empty line of
      b is the one they end in. */
  ghost predicate EndsAtFirstBlankLine(b: string, n: nat) {
    && 4 <= n <= |b|
    && Paired(b[..n])
    && BlankLineAt(b, n - 4)
    && forall i: nat :: i < n - 4 ==> !BlankLineAt(b, i)
  }

  lemma AcceptEnds(p: string, rest: string)
    requires Disciplined(Newline3, p)
    ensures EndsAtFirstBlankLine(p + "\n" + rest, |p| + 1)
  {
    var b := p + "\n" + rest;
    assert b[..|p| + 1] == p + "\n";
    PairedSnoc(p, '\n');
    assert p[|p| - 2] == '\n' && p[|p| - 1] == '\r' && p[|p| - 3] == '\r';
    forall i: nat | i < |p| - 3 ensures !BlankLineAt(b, i) {
      assert !BlankLineAt(p, i);
    }
  }

  lemma {:induction false} BuildIsDisciplined(s: State, d: Draft, p: string, x: string)
    requires Disciplined(s, p)
    ensures match Build(s, d, x)
      case Done(t, rest) => |rest| <= |x| && EndsAtFirstBlankLine(p + x, |p + x| - |rest|)
      case Dead(rest) => true
      case More(s', d') => Disciplined(s', p + x)
    decreases |x|
  {
    hide Next, Grow, Disciplined, EndsAtFirstBlankLine;
    if x == "" {
      assert p + x == p;
    } else {
      var m := Next(s, d.line.Some?, x[0]);
      assert p + [x[0]] + x[1..] == p + x;
      if m.Go? {
        NextKeepsDiscipline(s, d.line.Some?, x[0], p);
        BuildIsDisciplined(m.next, Grow(s, d, x[0]), p + [x[0]], x[1..]);
      } else if m.Accept? {
        OnlyNewline3Accepts(s, d.line.Some?, x[0]);
        AcceptEnds(p, x[1..]);
      }
    }
  }

  /** A good parse consumes up to and including the first empty line, wherever that is. */
  lemma FirstTerminator(c: Config, b: string)
    requires Fresh(c) && Safe(c) && Run(c, b).verdict == Good
    ensures |Run(c, b).rest| <= |b| && EndsAtFirstBlankLine(b, |b| - |Run(c, b).rest|)
  {
    hide EndsAtFirstBlankLine, Run, Build, Safe, Fresh, Printed, Partial;
    FreshRun(c, b);
    EmptyIsDisciplined();
    BuildIsDisciplined(MethodStart, SEED, "", b);
    assert "" + b == b;
  }

  lemma EmptyIsDisciplined()
    ensures Disciplined(MethodStart, "")
  {
  }
}
