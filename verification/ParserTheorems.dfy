/** What the parser promises, in terms of the grammar alone. */
module ParserTheorems {
  import opened RequestGrammar
  import opened RequestMachine
  import opened ParseTrees
  import opened TreeRuns
  import opened TreeCompleteness

  /** From a fresh start the parser is `Build` from the seed. */
  lemma FreshRun(c: Config, b: string)
    requires Fresh(c)
    ensures Safe(c)
    ensures var o := Run(c, b);
      match Build(MethodStart, SEED, b)
      case More(s, d) => o.verdict == Indeterminate && o.rest == "" && Partial(s, d) && Printed(s, d) == b
      case Done(t, rest) =>
        o.verdict == Good && o.rest == rest && TreeWf(t) && o.config.request == Meaning(t) && Print(t) + rest == b
      case Dead(rest) => o.verdict == Bad && o.rest == rest
  {
    SeedIsPartial(c);
    hide Next, Partial, Represents, Printed, Print, TreeWf, Meaning, Fresh, Safe;
    BuildSound(MethodStart, SEED, b);
    RunFollowsBuild(MethodStart, SEED, c.request, b);
    assert "" + b == b;
  }

  lemma SeedIsPartial(c: Config)
    requires Fresh(c)
    ensures Partial(MethodStart, SEED) && Printed(MethodStart, SEED) == ""
    ensures Represents(MethodStart, SEED, c.request) && c.state == MethodStart
  {
  }

  /** A string on which the grammar is not yet decided. */
  ghost predicate Extensible(s: string) {
    exists x :: x != "" && Accepted(s + x)
  }

  /** The tree of an accepted string is unique, and no accepted string continues another. */
  lemma Unambiguous(t: Tree, rest: string, t': Tree, rest': string)
    requires TreeWf(t) && TreeWf(t') && Print(t) + rest == Print(t') + rest'
    ensures t == t' && rest == rest'
  {
    hide Print, TreeWf, Build;
    BuildComplete(t, rest);
    BuildComplete(t', rest');
  }

  /** Exact acceptance: the request that comes out is the meaning of the tree that was printed. */
  lemma AcceptsPrinting(c: Config, t: Tree, rest: string)
    requires Fresh(c) && TreeWf(t)
    ensures Safe(c)
    ensures var o := Run(c, Print(t) + rest);
      o.verdict == Good && o.rest == rest && o.config.request == Meaning(t)
  {
    hide Print, TreeWf, Build, Meaning, Run, Safe;
    FreshRun(c, Print(t) + rest);
    BuildComplete(t, rest);
  }

  lemma GoodIsPrinting(c: Config, b: string) returns (t: Tree)
    requires Fresh(c) && Safe(c) && Run(c, b).verdict == Good
    ensures TreeWf(t) && Print(t) + Run(c, b).rest == b && Run(c, b).config.request == Meaning(t)
  {
    hide Print, TreeWf, Meaning, Run, Safe;
    FreshRun(c, b);
    t := Build(MethodStart, SEED, b).tree;
  }

  /** A byte that leads from a state towards acceptance, and how far away that is. */
  function Key(s: State): char {
    match s
    case MethodStart => 'G' case Method => ' ' case Uri => ' '
    case VersionH => 'H' case VersionT1 => 'T' case VersionT2 => 'T' case VersionP => 'P' case VersionSlash => '/'
    case MajorStart => '1' case Major => '.' case MinorStart => '0' case Minor => '\r'
    case Newline1 => '\n' case LineStart => '\r' case HeaderLws => '\r' case HeaderName => ':'
    case SpaceBeforeValue => ' ' case HeaderValue => '\r' case Newline2 => '\n' case Newline3 => '\n'
  }

  function Distance(s: State): nat {
    match s
    case MethodStart => 14 case Method => 13 case Uri => 12
    case VersionH => 11 case VersionT1 => 10 case VersionT2 => 9 case VersionP => 8 case VersionSlash => 7
    case MajorStart => 6 case Major => 5 case MinorStart => 4 case Minor => 3
    case Newline1 => 2 case LineStart => 1 case HeaderLws => 3 case HeaderName => 5
    case SpaceBeforeValue => 4 case HeaderValue => 3 case Newline2 => 2 case Newline3 => 0
  }

  lemma KeyLeads(s: State, hasHeaders: bool)
    ensures var m := Next(s, hasHeaders, Key(s));
      if s == Newline3 then m == Accept else m.Go? && Distance(m.next) < Distance(s)
  {
  }

  /** No state is a trap: from each there is a way to a complete request. */
  lemma {:induction false} Completion(s: State, d: Draft) returns (y: string)
    ensures y != "" && Build(s, d, y).Done? && Build(s, d, y).rest == ""
    decreases Distance(s)
  {
    KeyLeads(s, d.line.Some?);
    var k := Key(s);
    if s == Newline3 {
      y := [k];
    } else {
      hide Grow, Next, Key, Distance;
      var z := Completion(Next(s, d.line.Some?, k).next, Grow(s, d, k));
      y := [k] + z;
      assert y[1..] == z;
    }
  }

  lemma AcceptedIsDone(b: string, x: string)
    requires Accepted(b + x)
    ensures var t := Build(MethodStart, SEED, b + x); t.Done? && t.rest == ""
  {
    var t :| TreeWf(t) && Print(t) == b + x;
    hide Print, TreeWf, Build;
    BuildComplete(t, "");
    assert Print(t) + "" == b + x;
  }

  lemma IndeterminateIsExtensible(c: Config, b: string)
    requires Fresh(c) && Safe(c)
    ensures Run(c, b).verdict == Indeterminate <==> Extensible(b)
  {
    hide Print, TreeWf, Run, Fresh, Safe, Printed, Partial;
    FreshRun(c, b);
    var m := Build(MethodStart, SEED, b);
    if m.More? {
      var y := Completion(m.state, m.draft);
      BuildThen(MethodStart, SEED, b, y);
      FreshRun(c, b + y);
      var t := Build(MethodStart, SEED, b + y).tree;
      assert Print(t) + "" == Print(t);
    } else {
      forall x | x != "" && Accepted(b + x) ensures false {
        AcceptedIsDone(b, x);
        BuildAppend(MethodStart, SEED, b, x);
      }
    }
  }

  /** Where the verdict falls is decided by the grammar. */
  lemma GoodIsAccepted(c: Config, b: string, n: nat)
    requires Fresh(c) && Safe(c) && n <= |b|
    ensures (Run(c, b).verdict == Good && Run(c, b).rest == b[n..]) <==> Accepted(b[..n])
  {
    hide Print, TreeWf, Run, Fresh, Safe, Build, Meaning;
    assert b[..n] + b[n..] == b;
    if Run(c, b).verdict == Good && Run(c, b).rest == b[n..] {
      var t := GoodIsPrinting(c, b);
      assert Print(t) == (Print(t) + b[n..])[..|Print(t)|];
      assert |Print(t)| == n;
    }
    if Accepted(b[..n]) {
      var t :| TreeWf(t) && Print(t) == b[..n];
      AcceptsPrinting(c, t, b[n..]);
    }
  }

  lemma {:induction false} DeadAt(s: State, d: Draft, b: string) returns (n: nat)
    requires Build(s, d, b).Dead?
    ensures 1 <= n <= |b| && Build(s, d, b) == Dead(b[n..])
    ensures Build(s, d, b[..n - 1]).More? && Build(s, d, b[..n]) == Dead("")
    decreases |b|
  {
    hide Next, Grow;
    var m := Next(s, d.line.Some?, b[0]);
    if m.Go? {
      var k := DeadAt(m.next, Grow(s, d, b[0]), b[1..]);
      n := k + 1;
      assert b[..n][1..] == b[1..][..k] && b[..n - 1][1..] == b[1..][..k - 1];
    } else {
      n := 1;
      assert b[..1][1..] == "";
    }
  }

  lemma DeadIsNotViable(b: string)
    requires Build(MethodStart, SEED, b).Dead?
    ensures !Viable(b)
  {
    hide Accepted, Build;
    forall x | Accepted(b + x) ensures false {
      AcceptedIsDone(b, x);
      BuildAppend(MethodStart, SEED, b, x);
    }
  }

  lemma ExtensibleIsViable(b: string)
    requires Extensible(b) || Accepted(b)
    ensures Viable(b)
  {
    hide Accepted;
    assert b + "" == b;
  }

  /** The correct-prefix property: bad falls on the first byte no accepted string can have there. */
  lemma BadIsDead(c: Config, b: string, n: nat)
    requires Fresh(c) && Safe(c) && n <= |b|
    ensures (Run(c, b).verdict == Bad && Run(c, b).rest == b[n..])
      <==> n >= 1 && Extensible(b[..n - 1]) && !Viable(b[..n])
  {
    hide Accepted, Extensible, Viable, Run, Fresh, Safe, Build, Printed, Partial, Print, TreeWf, Meaning;
    FreshRun(c, b);
    if Run(c, b).verdict == Bad && Run(c, b).rest == b[n..] {
      var k := DeadAt(MethodStart, SEED, b);
      assert |b[k..]| == |b[n..]|;
      FreshRun(c, b[..n - 1]);
      IndeterminateIsExtensible(c, b[..n - 1]);
      DeadIsNotViable(b[..n]);
    }
    if n >= 1 && Extensible(b[..n - 1]) && !Viable(b[..n]) {
      ExtensionDies(c, b, n);
    }
  }

  lemma ExtensionDies(c: Config, b: string, n: nat)
    requires Fresh(c) && Safe(c) && 1 <= n <= |b|
    requires Extensible(b[..n - 1]) && !Viable(b[..n])
    ensures Run(c, b).verdict == Bad && Run(c, b).rest == b[n..]
  {
    hide Accepted, Extensible, Viable, Run, Fresh, Safe, Printed, Partial, Print, TreeWf, Meaning, Next, Grow;
    var p, x := b[..n - 1], b[..n];
    IndeterminateIsExtensible(c, p);
    FreshRun(c, p);
    var m := Build(MethodStart, SEED, p);
    assert p + [b[n - 1]] == x && x + b[n..] == b;
    BuildThen(MethodStart, SEED, p, [b[n - 1]]);
    FreshRun(c, x);
    if Build(MethodStart, SEED, x).More? {
      IndeterminateIsExtensible(c, x);
      ExtensibleIsViable(x);
    } else if Build(MethodStart, SEED, x).Done? {
      assert x[..|x|] == x && x[|x|..] == "";
      GoodIsAccepted(c, x, |x|);
      ExtensibleIsViable(x);
    }
    assert Build(MethodStart, SEED, x) == Dead("");
    BuildAppend(MethodStart, SEED, x, b[n..]);
    assert "" + b[n..] == b[n..];
    FreshRun(c, b);
  }

  lemma BadIsNotViable(c: Config, b: string)
    requires Fresh(c) && Safe(c) && Run(c, b).verdict == Bad
    ensures !Viable(b)
  {
    hide Run, Build, Viable, Printed, Partial, Print, TreeWf, Meaning;
    FreshRun(c, b);
    DeadIsNotViable(b);
  }
}
