/** How large version numbers may get: which bytes overflow the 32-bit `int` of the parser. */
module VersionNumbers {
  import opened Basics
  import opened CharClasses
  import opened Decimal
  import opened RequestGrammar
  import opened RequestMachine
  import opened ParseTrees
  import opened TreeRuns
  import opened TreeCompleteness
  import opened ParserTheorems

  const INT_MAX := 0x7fff_ffff

  /** The largest number the `int` arithmetic of one byte computes on the way. */
  predicate StepFits(c: Config, x: char) {
    && (c.state in {MajorStart, Major} && IsDigit(x) ==> c.request.major * 10 + x as int <= INT_MAX)
    && (c.state in {MinorStart, Minor} && IsDigit(x) ==> c.request.minor * 10 + x as int <= INT_MAX)
  }

  /** No byte of the run overflows a 32-bit `int`. */
  predicate RunFits(c: Config, s: string)
    requires Safe(c)
    decreases |s|
  {
    s == "" ||
    (StepFits(c, s[0]) &&
      (StepIsSafe(c, s[0]); var (v, c') := Step(c, s[0]); v != Indeterminate || RunFits(c', s[1..])))
  }

  /** The code adds the character of a digit before it subtracts that of '0'. */
  predicate Fits(digits: string) {
    All(IsDigit, digits) && Value(digits) + '0' as int <= INT_MAX
  }

  /** The largest version number that fits is 48 below the largest 32-bit integer. */
  lemma LargestVersion(digits: string)
    requires IsNumeral(digits)
    ensures Fits(digits) <==> Value(digits) <= 2147483647 - 48
  {
  }

  // ---- the input read so far ends in a version number

  ghost predicate EndsInMajor(p: string, digits: string) {
    IsNumeral(digits) && exists verb, uri :: IsToken(verb) && IsUri(uri) && p == verb + " " + uri + " HTTP/" + digits
  }

  ghost predicate EndsInMinor(p: string, digits: string) {
    && IsNumeral(digits)
    && exists verb, uri, major :: IsToken(verb) && IsUri(uri) && IsNumeral(major)
         && p == verb + " " + uri + " HTTP/" + major + "." + digits
  }

  ghost predicate EndsInVersion(p: string, digits: string) {
    EndsInMajor(p, digits) || EndsInMinor(p, digits)
  }

  /** The version number the parser is in the middle of. */
  function NumeralRead(b: Built): Option<string> {
    match b
    case More(s, d) => if s == Major then Some(d.tree.major) else if s == Minor then Some(d.tree.minor) else None
    case _ => None
  }

  function VersionRead(p: string): Option<string> {
    NumeralRead(Build(MethodStart, SEED, p))
  }

  lemma FeedsProtocol(verb: string, uri: string)
    requires IsToken(verb) && IsUri(uri)
    ensures Feeds(MethodStart, SEED, verb + " " + uri + " HTTP/", MajorStart, Lineless(verb, uri, "", ""))
  {
    var d := Lineless(verb, uri, "", "");
    FeedTarget(verb, uri);
    FeedProtocol(d);
    hide Feeds, IsToken, IsUri;
    ThenMore(MethodStart, SEED, verb + " " + uri, Uri, d, " HTTP/", MajorStart, d);
  }

  lemma MajorIsRead(p: string, digits: string)
    requires EndsInMajor(p, digits)
    ensures VersionRead(p) == Some(digits)
  {
    var verb, uri :| IsToken(verb) && IsUri(uri) && p == verb + " " + uri + " HTTP/" + digits;
    hide IsToken, IsUri, IsNumeral, Build;
    FeedsProtocol(verb, uri);
    FeedMajor(verb, uri, digits, verb + " " + uri + " HTTP/");
  }

  lemma MinorIsRead(p: string, digits: string)
    requires EndsInMinor(p, digits)
    ensures VersionRead(p) == Some(digits)
  {
    var verb, uri, major :| IsToken(verb) && IsUri(uri) && IsNumeral(major)
      && p == verb + " " + uri + " HTTP/" + major + "." + digits;
    hide IsToken, IsUri, IsNumeral, Build;
    var x := verb + " " + uri + " HTTP/";
    FeedsProtocol(verb, uri);
    FeedMajor(verb, uri, major, x);
    FeedMinor(verb, uri, major, digits, x + major + ".");
  }

  /** The parser is in the middle of a version number exactly when the input says so. */
  lemma VersionReadIs(p: string, digits: string)
    ensures EndsInVersion(p, digits) <==> VersionRead(p) == Some(digits)
  {
    hide Build, IsToken, IsUri, IsNumeral;
    if EndsInMajor(p, digits) {
      MajorIsRead(p, digits);
    } else if EndsInMinor(p, digits) {
      MinorIsRead(p, digits);
    } else if VersionRead(p) == Some(digits) {
      var m := Build(MethodStart, SEED, p);
      SeedIsPartial(Config(MethodStart, RequestValue("", "", 0, 0, [])));
      BuildSound(MethodStart, SEED, p);
      assert "" + p == p;
      VersionIsPrinted(m.state, m.draft, digits);
    }
  }

  lemma VersionIsPrinted(s: State, d: Draft, digits: string)
    requires Partial(s, d) && NumeralRead(More(s, d)) == Some(digits)
    ensures EndsInVersion(Printed(s, d), digits)
  {
    var t := d.tree;
    assert IsToken(t.verb) && IsUri(t.uri) && IsNumeral(t.major);
  }

  // ---- one byte and all bytes

  predicate NumeralFits(b: Built) {
    NumeralRead(b).Some? ==> Fits(NumeralRead(b).value)
  }

  predicate DigitsFit(p: string) {
    NumeralFits(Build(MethodStart, SEED, p))
  }

  lemma StepFitsIs(s: State, d: Draft, r: RequestValue, c: char)
    requires Partial(s, d) && Represents(s, d, r)
    ensures StepFits(Config(s, r), c) <==> NumeralFits(Build(s, d, [c]))
  {
    var m := Next(s, d.line.Some?, c);
    hide PartialHeaders, TreeWf, HeadersOf, Value, IsTokenChar, GrowLine, Close, Build;
    if m.Go? {
      BuildOne(s, d, c);
      if s in {MajorStart, Major} && IsDigit(c) {
        ValueSnoc(d.tree.major, c);
      } else if s in {MinorStart, Minor} && IsDigit(c) {
        ValueSnoc(d.tree.minor, c);
      }
    } else {
      NoMore(s, d, [c]);
    }
  }

  lemma NoMore(s: State, d: Draft, x: string)
    requires x != "" && !Next(s, d.line.Some?, x[0]).Go?
    ensures NumeralRead(Build(s, d, x)) == None
  {
  }

  lemma RunFitsHead(c: Config, s: string)
    requires Safe(c) && s != ""
    ensures Safe(Step(c, s[0]).1)
    ensures var (v, c') := Step(c, s[0]);
      RunFits(c, s) <==> StepFits(c, s[0]) && (v != Indeterminate || RunFits(c', s[1..]))
  {
  }

  predicate PrefixesFit(p: string, x: string)
    decreases |x|
  {
    x == "" || (DigitsFit(p + [x[0]]) && PrefixesFit(p + [x[0]], x[1..]))
  }

  /** Once the parser has decided no version number is being read. */
  lemma {:induction false} DecidedFits(p: string, x: string)
    requires !Build(MethodStart, SEED, p).More?
    ensures PrefixesFit(p, x)
    decreases |x|
  {
    hide Build;
    if x != "" {
      BuildAppend(MethodStart, SEED, p, [x[0]]);
      DecidedFits(p + [x[0]], x[1..]);
    }
  }

  lemma BuildDecides(s: State, d: Draft, c: char)
    requires !Next(s, d.line.Some?, c).Go?
    ensures !Build(s, d, [c]).More?
  {
  }

  lemma {:induction false} RunFitsIs(s: State, d: Draft, r: RequestValue, p: string, x: string)
    requires Build(MethodStart, SEED, p) == More(s, d) && Partial(s, d) && Represents(s, d, r)
    ensures Safe(Config(s, r))
    ensures RunFits(Config(s, r), x) <==> PrefixesFit(p, x)
    decreases |x|
  {
    HeadersAreLines(s, d, r);
    hide Next, Act, Grow, Partial, Represents, Safe, RunFits, StepFits, NumeralFits, Build;
    if x == "" {
      NothingOverflows(Config(s, r));
    } else {
      var m, c := Next(s, d.line.Some?, x[0]), x[0];
      RunFitsHead(Config(s, r), x);
      StepFitsIs(s, d, r, c);
      BuildThen(MethodStart, SEED, p, [c]);
      if m.Go? {
        GrowKeeps(s, d, c);
        ActRepresents(s, d, r, c);
        BuildOne(s, d, c);
        RunFitsIs(m.next, Grow(s, d, c), Act(Config(s, r), c), p + [c], x[1..]);
      } else {
        BuildDecides(s, d, c);
        DecidedFits(p + [c], x[1..]);
      }
    }
  }

  lemma NothingOverflows(c: Config)
    requires Safe(c)
    ensures RunFits(c, "")
  {
  }

  lemma {:induction false} PrefixesFitAt(p: string, x: string, k: nat)
    requires PrefixesFit(p, x) && 0 < k <= |x|
    ensures DigitsFit(p + x[..k])
    decreases |x|
  {
    hide DigitsFit;
    assert x[..k] == [x[0]] + x[1..][..k - 1];
    Assoc(p, [x[0]], x[1..][..k - 1]);
    if k > 1 {
      PrefixesFitAt(p + [x[0]], x[1..], k - 1);
    } else {
      assert x[1..][..0] == "" && p + [x[0]] + "" == p + [x[0]];
    }
  }

  lemma {:induction false} UnfitPrefix(p: string, x: string) returns (k: nat)
    requires !PrefixesFit(p, x)
    ensures 0 < k <= |x| && !DigitsFit(p + x[..k])
    decreases |x|
  {
    hide DigitsFit;
    if DigitsFit(p + [x[0]]) {
      var j := UnfitPrefix(p + [x[0]], x[1..]);
      k := j + 1;
      assert x[..k] == [x[0]] + x[1..][..j];
      Assoc(p, [x[0]], x[1..][..j]);
    } else {
      k := 1;
      assert x[..1] == [x[0]];
    }
  }

  /** Whatever the input, accepted or not: no `int` overflows exactly when every version number
      that a prefix ends in is at most the maximum less 48, the code of '0'. */
  lemma VersionsFit(c: Config, b: string)
    requires Fresh(c)
    ensures Safe(c)
    ensures RunFits(c, b) <==> forall n: nat, digits :: n <= |b| && EndsInVersion(b[..n], digits) ==> Fits(digits)
  {
    SeedIsPartial(c);
    hide Partial, Represents, Safe, RunFits, EndsInVersion, Fits, PrefixesFit, Build, NumeralRead;
    assert Build(MethodStart, SEED, "") == More(MethodStart, SEED) && VersionRead("") == None by { NothingBuilt(); }
    RunFitsIs(MethodStart, SEED, c.request, "", b);
    if PrefixesFit("", b) {
      forall n: nat, digits | n <= |b| && EndsInVersion(b[..n], digits) ensures Fits(digits) {
        VersionReadIs(b[..n], digits);
        assert "" + b[..n] == b[..n] && b[..0] == "";
        if n > 0 { PrefixesFitAt("", b, n); }
      }
    } else {
      var k := UnfitPrefix("", b);
      assert "" + b[..k] == b[..k];
      VersionReadIs(b[..k], VersionRead(b[..k]).value);
    }
  }

  lemma NothingBuilt()
    ensures Build(MethodStart, SEED, "") == More(MethodStart, SEED) && VersionRead("") == None
  {
  }

  // ---- accepted requests

  predicate TreeFits(t: Tree) {
    Fits(t.major) && Fits(t.minor)
  }

  lemma GrowExtendsNumerals(s: State, d: Draft, c: char)
    ensures d.tree.major <= Grow(s, d, c).tree.major && d.tree.minor <= Grow(s, d, c).tree.minor
  {
  }

  lemma {:induction false} BuildExtendsNumerals(s: State, d: Draft, x: string)
    requires Build(s, d, x).Done?
    ensures var t := Build(s, d, x).tree; d.tree.major <= t.major && d.tree.minor <= t.minor
    decreases |x|
  {
    hide Next, Grow;
    var m := Next(s, d.line.Some?, x[0]);
    if m.Go? {
      GrowExtendsNumerals(s, d, x[0]);
      BuildExtendsNumerals(m.next, Grow(s, d, x[0]), x[1..]);
    }
  }

  lemma PrefixFits(a: string, b: string)
    requires a <= b && Fits(b)
    ensures Fits(a)
  {
    assert b == a + b[|a|..];
    ValueGrows(a, b[|a|..]);
  }

  /** For an accepted request only its two version numbers matter. */
  lemma RequestFits(c: Config, t: Tree, rest: string)
    requires Fresh(c) && TreeWf(t)
    ensures Safe(c)
    ensures RunFits(c, Print(t) + rest) <==> TreeFits(t)
  {
    var b := Print(t) + rest;
    VersionsFit(c, b);
    hide RunFits, Fits, EndsInVersion, Safe, Print, TreeWf;
    if TreeFits(t) {
      forall n: nat, digits | n <= |b| && EndsInVersion(b[..n], digits) ensures Fits(digits) {
        AcceptedNumeral(t, rest, n, digits);
      }
    } else {
      TreeNumerals(t, rest);
    }
  }

  lemma AcceptedNumeral(t: Tree, rest: string, n: nat, digits: string)
    requires TreeWf(t) && TreeFits(t)
    requires n <= |Print(t) + rest| && EndsInVersion((Print(t) + rest)[..n], digits)
    ensures Fits(digits)
  {
    var b := Print(t) + rest;
    hide TreeWf, Print, Fits, Build, EndsInVersion;
    BuildComplete(t, rest);
    VersionReadIs(b[..n], digits);
    var m := Build(MethodStart, SEED, b[..n]);
    assert b[..n] + b[n..] == b;
    BuildThen(MethodStart, SEED, b[..n], b[n..]);
    BuildExtendsNumerals(m.state, m.draft, b[n..]);
    PrefixFits(digits, if m.state == Major then t.major else t.minor);
  }

  lemma TreeNumerals(t: Tree, rest: string)
    requires TreeWf(t)
    ensures var b := Print(t) + rest;
      && (exists n: nat :: n <= |b| && EndsInVersion(b[..n], t.major))
      && (exists n: nat :: n <= |b| && EndsInVersion(b[..n], t.minor))
  {
    var b := Print(t) + rest;
    var x := t.verb + " " + t.uri + " HTTP/" + t.major;
    var y := x + "." + t.minor;
    hide PrintLines, IsToken, IsUri, IsNumeral, LinesWf;
    var z := CRLF + PrintLines(t.lines) + CRLF + rest;
    assert b == y + z;
    assert b[..|y|] == y && b[..|x|] == x;
    assert EndsInMajor(x, t.major) && EndsInMinor(y, t.minor);
  }

  lemma PowerOfNine()
    ensures Pow10(9) == 1_000_000_000 && Pow10(10) == 10_000_000_000
  {
  }

  lemma {:induction false} PowerGrows(j: nat, k: nat)
    requires j <= k
    ensures Pow10(j) <= Pow10(k)
    decreases k
  {
    if j < k {
      PowerGrows(j, k - 1);
    }
  }

  /** Nine digits never overflow, and eleven always do if the first is not a zero. */
  lemma LengthDecides(digits: string)
    requires IsNumeral(digits)
    ensures |digits| <= 9 ==> Fits(digits)
    ensures |digits| >= 11 && digits[0] != '0' ==> !Fits(digits)
  {
    ValueBounds(digits);
    PowerOfNine();
    hide Value, Pow10;
    if |digits| <= 9 {
      PowerGrows(|digits|, 9);
    } else {
      PowerGrows(10, if |digits| > 10 then |digits| - 1 else 10);
    }
  }

  lemma JunkIsBad(c: Config, p: string, digits: string, x: char)
    requires Fresh(c) && EndsInMajor(p, digits) && !IsDigit(x) && x != '.' && x != '\r'
    ensures Safe(c) && Run(c, p + [x]).verdict == Bad
  {
    MajorIsRead(p, digits);
    hide EndsInMajor, Run, Fresh, Safe, Grow, Build, Print, Meaning, Printed, Next;
    var m := Build(MethodStart, SEED, p);
    FreshRun(c, p + [x]);
    BuildThen(MethodStart, SEED, p, [x]);
    MajorRejects(m.state, m.draft, x);
  }

  lemma MajorRejects(s: State, d: Draft, x: char)
    requires s in {Major, Minor} && !IsDigit(x) && x != '.' && x != '\r'
    ensures Build(s, d, [x]) == Dead("")
  {
  }

  /** A concrete input that overflows, although it is not even the beginning of a request. */
  lemma OverlongVersion(c: Config)
    requires Fresh(c)
    ensures Safe(c)
    ensures var b := "G  HTTP/99999999999x"; !RunFits(c, b) && Run(c, b).verdict == Bad
  {
    var digits, p, b := "99999999999", "G  HTTP/99999999999", "G  HTTP/99999999999x";
    LengthDecides(digits);
    assert IsToken("G") && IsUri("") && p == "G" + " " + "" + " HTTP/" + digits;
    assert EndsInMajor(p, digits);
    hide EndsInMajor, Fits, RunFits, Run, Fresh, Safe, IsToken, IsNumeral;
    assert p + ['x'] == b && b[..|p|] == p;
    JunkIsBad(c, p, digits, 'x');
    VersionsFit(c, b);
    assert EndsInVersion(b[..|p|], digits);
  }
}
