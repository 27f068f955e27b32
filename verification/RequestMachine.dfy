/** The parser as a pure machine: `Next` is its control automaton over the twenty states,
    `Act` what a byte does to the request, `Run` the loop over a stretch of bytes. */
module RequestMachine {
  import opened CharClasses
  import opened RequestGrammar

  datatype State =
    | MethodStart | Method | Uri
    | VersionH | VersionT1 | VersionT2 | VersionP | VersionSlash
    | MajorStart | Major | MinorStart | Minor
    | Newline1 | LineStart | HeaderLws | HeaderName | SpaceBeforeValue | HeaderValue
    | Newline2 | Newline3

  datatype Verdict = Good | Bad | Indeterminate

  datatype Move = Go(next: State) | Accept | Reject

  datatype Config = Config(state: State, request: RequestValue)

  datatype Outcome = Outcome(verdict: Verdict, rest: string, config: Config)

  function GoIf(b: bool, s: State): Move {
    if b then Go(s) else Reject
  }

  function Next(s: State, hasHeaders: bool, c: char): Move {
    match s
    case MethodStart => GoIf(IsTokenChar(c), Method)
    case Method => if c == ' ' then Go(Uri) else GoIf(IsTokenChar(c), Method)
    case Uri => if c == ' ' then Go(VersionH) else GoIf(!IsCtl(c), Uri)
    case VersionH => GoIf(c == 'H', VersionT1)
    case VersionT1 => GoIf(c == 'T', VersionT2)
    case VersionT2 => GoIf(c == 'T', VersionP)
    case VersionP => GoIf(c == 'P', VersionSlash)
    case VersionSlash => GoIf(c == '/', MajorStart)
    case MajorStart => GoIf(IsDigit(c), Major)
    case Major => if c == '.' then Go(MinorStart) else GoIf(IsDigit(c), Major)
    case MinorStart => GoIf(IsDigit(c), Minor)
    case Minor => if c == '\r' then Go(Newline1) else GoIf(IsDigit(c), Minor)
    case Newline1 => GoIf(c == '\n', LineStart)
    case LineStart =>
      if c == '\r' then Go(Newline3)
      else if hasHeaders && IsBlank(c) then Go(HeaderLws)
      else GoIf(IsTokenChar(c), HeaderName)
    case HeaderLws =>
      if c == '\r' then Go(Newline2)
      else if IsBlank(c) then Go(HeaderLws)
      else GoIf(!IsCtl(c), HeaderValue)
    case HeaderName => if c == ':' then Go(SpaceBeforeValue) else GoIf(IsTokenChar(c), HeaderName)
    case SpaceBeforeValue => GoIf(c == ' ', HeaderValue)
    case HeaderValue => if c == '\r' then Go(Newline2) else GoIf(!IsCtl(c), HeaderValue)
    case Newline2 => GoIf(c == '\n', LineStart)
    case Newline3 => if c == '\n' then Accept else Reject
  }

  /** The states in which the code calls `headers.back()`, or from which it comes to do so
      before another header is pushed. */
  predicate InHeader(s: State) {
    s in {HeaderLws, HeaderName, SpaceBeforeValue, HeaderValue, Newline2}
  }

  predicate VersionSet(s: State) {
    s !in {MethodStart, Method, Uri, VersionH, VersionT1, VersionT2, VersionP, VersionSlash}
  }

  /** What `headers.back()` relies on. */
  predicate Safe(c: Config) {
    var hs := c.request.headers;
    && (InHeader(c.state) ==> hs != [])
    && (hs != [] ==> hs[|hs| - 1].name != "")
  }

  function NumeralStep(n: int, c: char): int {
    n * 10 + c as int - '0' as int
  }

  function PushName(r: RequestValue, c: char): RequestValue
    requires r.headers != []
  {
    var h := r.headers[|r.headers| - 1];
    r.(headers := r.headers[|r.headers| - 1 := Header(h.name + [c], h.value)])
  }

  function PushValue(r: RequestValue, c: char): RequestValue
    requires r.headers != []
  {
    var h := r.headers[|r.headers| - 1];
    r.(headers := r.headers[|r.headers| - 1 := Header(h.name, h.value + [c])])
  }

  /** What a byte that does not end the parse does to the request. */
  function Act(c: Config, x: char): RequestValue
    requires Safe(c)
  {
    var r := c.request;
    match c.state
    case MethodStart => r.(verb := r.verb + [x])
    case Method => if x == ' ' then r else r.(verb := r.verb + [x])
    case Uri => if x == ' ' then r else r.(uri := r.uri + [x])
    case VersionSlash => r.(major := 0, minor := 0)
    case MajorStart => r.(major := NumeralStep(r.major, x))
    case Major => if x == '.' then r else r.(major := NumeralStep(r.major, x))
    case MinorStart => r.(minor := NumeralStep(r.minor, x))
    case Minor => if x == '\r' then r else r.(minor := NumeralStep(r.minor, x))
    case LineStart =>
      if x == '\r' || (r.headers != [] && IsBlank(x)) then r
      else r.(headers := r.headers + [Header([x], "")])
    case HeaderLws => if x == '\r' || IsBlank(x) then r else PushValue(r, x)
    case HeaderName => if x == ':' then r else PushName(r, x)
    case HeaderValue => if x == '\r' then r else PushValue(r, x)
    case _ => r
  }

  function Step(c: Config, x: char): (Verdict, Config)
    requires Safe(c)
  {
    match Next(c.state, c.request.headers != [], x)
    case Go(s) => (Indeterminate, Config(s, Act(c, x)))
    case Accept => (Good, c)
    case Reject => (Bad, c)
  }

  lemma StepIsSafe(c: Config, x: char)
    requires Safe(c)
    ensures Safe(Step(c, x).1)
  {
  }

  function Run(c: Config, s: string): (o: Outcome)
    requires Safe(c)
    ensures Safe(o.config)
    decreases |s|
  {
    if s == "" then Outcome(Indeterminate, "", c)
    else
      var (v, c') := Step(c, s[0]);
      StepIsSafe(c, s[0]);
      if v != Indeterminate then Outcome(v, s[1..], c') else Run(c', s[1..])
  }

  lemma RunEmpty(c: Config)
    requires Safe(c)
    ensures Run(c, "") == Outcome(Indeterminate, "", c)
  {
  }

  lemma RunHead(c: Config, s: string)
    requires Safe(c) && s != ""
    ensures Safe(Step(c, s[0]).1)
    ensures
      var (v, c') := Step(c, s[0]);
      Run(c, s) == if v == Indeterminate then Run(c', s[1..]) else Outcome(v, s[1..], c')
  {
  }

  /** The first byte's move decides how the run goes on. */
  lemma RunMoves(c: Config, s: string)
    requires Safe(c) && s != ""
    ensures match Next(c.state, c.request.headers != [], s[0])
      case Go(t) => Safe(Config(t, Act(c, s[0]))) && Run(c, s) == Run(Config(t, Act(c, s[0])), s[1..])
      case Accept => Run(c, s) == Outcome(Good, s[1..], c)
      case Reject => Run(c, s) == Outcome(Bad, s[1..], c)
  {
    RunHead(c, s);
    hide Next, Act, Safe, Run;
  }

  /** A request that has just been constructed: its version fields hold whatever they held. */
  predicate Blank(r: RequestValue) {
    r.verb == "" && r.uri == "" && r.headers == []
  }

  predicate Fresh(c: Config) {
    c.state == MethodStart && Blank(c.request)
  }
}
