/** The server as an event system.  Handlers run one at a time; each pending operation completes
    once.  An operation is remembered with whether its socket was open when it began: one begun on
    a closed socket fails with an error other than "aborted", and "aborted" is only reported after
    the socket of a begun operation was closed; a success that is already queued may still be
    delivered after that. */
module HttpProtocol {
  import opened Basics
  import opened RequestGrammar
  import opened RequestMachine
  import opened Segmentation
  import opened Replies
  import opened RequestHandling
  import opened ParserTheorems

  datatype Kind = Reading | Writing

  datatype Op = Op(kind: Kind, startedOpen: bool)

  /** A connection; the last two lines are its history: the request object as it was constructed, the
      bytes read, the files there were when the handler ran, how often the handler ran and a reply
      write was begun, and the bytes given to those writes. */
  datatype Conn = Conn(
    open: bool, member: bool, pending: seq<Op>, parse: Config, reply: ReplyValue,
    born: RequestValue, received: string, files: map<string, string>, handled: nat, writes: nat,
    output: string)

  datatype World = World(
    docRoot: string, acceptorOpen: bool, accepts: nat, awaitingSignal: bool, conns: seq<Conn>)

  datatype Event =
    | AcceptOk(request: RequestValue, reply: ReplyValue)
    | AcceptFailed
    | ReadOk(id: nat, data: string, files: map<string, string>)
    | ReadFailed(id: nat, startedOpen: bool, aborted: bool)
    | WriteOk(id: nat)
    | WriteFailed(id: nat, startedOpen: bool, aborted: bool)
    | Signalled

  const BUFFER_SIZE := 8192

  predicate BlankReply(r: ReplyValue) {
    r.headers == [] && r.content == ""
  }

  function Begin(c: Conn, kind: Kind): Conn {
    c.(pending := c.pending + [Op(kind, c.open)])
  }

  function Without(ops: seq<Op>, op: Op): seq<Op> {
    if ops == [] then [] else if ops[0] == op then ops[1..] else [ops[0]] + Without(ops[1..], op)
  }

  function Completed(c: Conn, op: Op): Conn {
    c.(pending := Without(c.pending, op))
  }

  function Closed(c: Conn): Conn {
    c.(open := false, member := false)
  }

  /** A connection that has taken over an open socket and was put into the set. */
  function Constructed(request: RequestValue, reply: ReplyValue): Conn {
    Conn(true, true, [], Config(MethodStart, request), reply, request, "", map[], 0, 0, "")
  }

  function Started(request: RequestValue, reply: ReplyValue): Conn {
    Begin(Constructed(request, reply), Reading)
  }

  function BeginReply(c: Conn): Conn {
    Begin(c.(writes := c.writes + 1, output := c.output + Serialize(c.reply)), Writing)
  }

  /** What follows a verdict: handle the request and write, refuse and write, or read on. */
  function Decided(docRoot: string, c: Conn, verdict: Verdict, files: map<string, string>): Conn {
    match verdict
    case Good =>
      var reply := Handle(docRoot, files, c.parse.request.uri, c.reply);
      BeginReply(c.(reply := reply, files := files, handled := c.handled + 1))
    case Bad => BeginReply(c.(reply := Stock(BadRequest)))
    case Indeterminate => Begin(c, Reading)
  }

  /** The handler of a successful read. */
  function AfterRead(docRoot: string, c: Conn, data: string, files: map<string, string>): Conn
    requires Safe(c.parse)
  {
    var o := Run(c.parse, data);
    Decided(docRoot, c.(parse := o.config, received := c.received + data), o.verdict, files)
  }

  /** The handler of a failed operation, and of a completed write. */
  function AfterEnd(c: Conn, aborted: bool): Conn {
    if aborted then c else Closed(c)
  }

  function StopIfMember(c: Conn): Conn {
    if c.member then Closed(c) else c
  }

  function StopAll(cs: seq<Conn>): seq<Conn> {
    seq(|cs|, i requires 0 <= i < |cs| => StopIfMember(cs[i]))
  }

  predicate MaySucceed(c: Conn, kind: Kind) {
    Op(kind, true) in c.pending
  }

  predicate MayFail(c: Conn, op: Op, aborted: bool) {
    op in c.pending && (aborted ==> op.startedOpen && !c.open)
  }

  /** e is a completion that an operation pending on c may have. */
  predicate HasPending(c: Conn, e: Event) {
    match e
    case ReadOk(_, data, _) => MaySucceed(c, Reading) && |data| <= BUFFER_SIZE
    case ReadFailed(_, startedOpen, aborted) => MayFail(c, Op(Reading, startedOpen), aborted)
    case WriteOk(_) => MaySucceed(c, Writing)
    case WriteFailed(_, startedOpen, aborted) => MayFail(c, Op(Writing, startedOpen), aborted)
    case _ => false
  }

  predicate Enabled(w: World, e: Event) {
    match e
    case AcceptOk(request, reply) => w.accepts > 0 && Blank(request) && BlankReply(reply)
    case AcceptFailed => w.accepts > 0
    case Signalled => w.awaitingSignal
    case _ => e.id < |w.conns| && HasPending(w.conns[e.id], e)
  }

  predicate AllSafe(w: World) {
    forall i :: 0 <= i < |w.conns| ==> Safe(w.conns[i].parse)
  }

  /** What an event does to the connection it belongs to. */
  function ConnStep(docRoot: string, c: Conn, e: Event): Conn
    requires Safe(c.parse)
  {
    match e
    case ReadOk(_, data, files) => AfterRead(docRoot, Completed(c, Op(Reading, true)), data, files)
    case ReadFailed(_, startedOpen, aborted) => AfterEnd(Completed(c, Op(Reading, startedOpen)), aborted)
    case WriteOk(_) => AfterEnd(Completed(c, Op(Writing, true)), false)
    case WriteFailed(_, startedOpen, aborted) => AfterEnd(Completed(c, Op(Writing, startedOpen)), aborted)
    case _ => c
  }

  function Step(w: World, e: Event): World
    requires Enabled(w, e) && AllSafe(w)
  {
    match e
    case AcceptOk(request, reply) =>
      if w.acceptorOpen then w.(conns := w.conns + [Started(request, reply)]) else w.(accepts := w.accepts - 1)
    case AcceptFailed => if w.acceptorOpen then w else w.(accepts := w.accepts - 1)
    case Signalled => w.(acceptorOpen := false, awaitingSignal := false, conns := StopAll(w.conns))
    case _ => w.(conns := w.conns[e.id := ConnStep(w.docRoot, w.conns[e.id], e)])
  }

  // ---- the invariant

  function Birth(c: Conn): Config {
    Config(MethodStart, c.born)
  }

  /** The life of one connection: a member exactly while its socket is open, with exactly one
      operation pending as long as it is a member and never more; it reads until the bytes decide,
      and then writes once. */
  predicate LifeOk(c: Conn) {
    && (c.open <==> c.member)
    && |c.pending| <= 1
    && (c.member ==> |c.pending| == 1 && c.pending[0].startedOpen)
    && c.handled <= c.writes <= 1
    && (c.pending != [] ==> (c.pending[0].kind == Writing <==> c.writes == 1))
  }

  /** The reply to a request, whatever the status of the reply object was. */
  function Answer(docRoot: string, files: map<string, string>, uri: string): ReplyValue {
    Handle(docRoot, files, uri, ReplyValue(Ok, [], ""))
  }

  lemma AnswerIgnoresStatus(docRoot: string, files: map<string, string>, uri: string, r: ReplyValue)
    requires BlankReply(r)
    ensures Handle(docRoot, files, uri, r) == Answer(docRoot, files, uri)
  {
  }

  /** What it has parsed and what it answers. */
  predicate AnswerOk(docRoot: string, c: Conn) {
    && Blank(c.born)
    && Safe(c.parse)
    && c.output == (if c.writes == 0 then "" else Serialize(c.reply))
    && var o := Run(Birth(c), c.received);
       && c.parse == o.config
       && match o.verdict
          case Indeterminate => c.handled == 0 && c.writes == 0 && BlankReply(c.reply)
          case Good =>
            c.handled == 1 && c.writes == 1 && c.reply == Answer(docRoot, c.files, o.config.request.uri)
          case Bad => c.handled == 0 && c.writes == 1 && c.reply == Stock(BadRequest)
  }

  predicate ConnOk(docRoot: string, c: Conn) {
    LifeOk(c) && AnswerOk(docRoot, c)
  }

  predicate ConnsOk(w: World) {
    forall i :: 0 <= i < |w.conns| ==> ConnOk(w.docRoot, w.conns[i])
  }

  predicate NoMembers(w: World) {
    forall i :: 0 <= i < |w.conns| ==> !w.conns[i].member
  }

  predicate WorldOk(w: World) {
    && ConnsOk(w)
    && (w.acceptorOpen <==> w.awaitingSignal)
    && w.accepts <= 1
    && (w.acceptorOpen ==> w.accepts == 1)
    && (!w.awaitingSignal ==> NoMembers(w))
  }

  lemma WorldIsSafe(w: World)
    requires ConnsOk(w) || WorldOk(w)
    ensures AllSafe(w)
  {
  }

  lemma StartedIsOk(docRoot: string, request: RequestValue, reply: ReplyValue)
    requires Blank(request) && BlankReply(reply)
    ensures ConnOk(docRoot, Started(request, reply))
  {
  }

  lemma CompletedHasNone(c: Conn, op: Op)
    requires LifeOk(c) && op in c.pending
    ensures c.pending == [op] && Completed(c, op).pending == []
  {
  }

  lemma ReadKeepsAnswer(docRoot: string, c: Conn, data: string, files: map<string, string>)
    requires AnswerOk(docRoot, c) && c.writes == 0
    ensures AnswerOk(docRoot, AfterRead(docRoot, c, data, files))
  {
    hide Run, Handle, Stock, Serialize;
    RunAppend(Birth(c), c.received, data);
    AnswerIgnoresStatus(docRoot, files, Run(c.parse, data).config.request.uri, c.reply);
    assert Birth(AfterRead(docRoot, c, data, files)) == Birth(c);
  }

  lemma ConnStepKeepsOk(docRoot: string, c: Conn, e: Event)
    requires ConnOk(docRoot, c)
    requires HasPending(c, e)
    ensures ConnOk(docRoot, ConnStep(docRoot, c, e))
    ensures !c.member ==> !ConnStep(docRoot, c, e).member
  {
    hide Run, Handle, Stock, Safe;
    match e {
      case ReadOk(_, data, files) =>
        CompletedHasNone(c, Op(Reading, true));
        ReadKeepsAnswer(docRoot, Completed(c, Op(Reading, true)), data, files);
      case ReadFailed(_, s, _) => CompletedHasNone(c, Op(Reading, s));
      case WriteOk(_) => CompletedHasNone(c, Op(Writing, true));
      case WriteFailed(_, s, _) => CompletedHasNone(c, Op(Writing, s));
    }
  }

  lemma StopAllKeepsOk(w: World)
    requires ConnsOk(w)
    ensures ConnsOk(w.(conns := StopAll(w.conns)))
  {
    hide ConnOk, StopIfMember;
    forall i | 0 <= i < |w.conns| ensures ConnOk(w.docRoot, StopIfMember(w.conns[i])) {
      StopKeepsOk(w.docRoot, w.conns[i]);
    }
  }

  lemma OneKeepsOk(w: World, i: nat, c: Conn)
    requires ConnsOk(w) && ConnOk(w.docRoot, c)
    ensures ConnsOk(w.(conns := w.conns + [c]))
    ensures i < |w.conns| ==> ConnsOk(w.(conns := w.conns[i := c]))
  {
    hide ConnOk;
  }

  lemma StepKeepsConns(w: World, e: Event)
    requires ConnsOk(w) && Enabled(w, e)
    ensures AllSafe(w) && ConnsOk(Step(w, e))
  {
    WorldIsSafe(w);
    hide ConnStep, Started, ConnOk, ConnsOk, StopAll, HasPending, AllSafe;
    match e {
      case AcceptOk(request, reply) =>
        StartedIsOk(w.docRoot, request, reply);
        OneKeepsOk(w, 0, Started(request, reply));
      case AcceptFailed =>
      case Signalled => StopAllKeepsOk(w);
      case _ =>
        WorldHas(w, e.id);
        ConnStepKeepsOk(w.docRoot, w.conns[e.id], e);
        OneKeepsOk(w, e.id, ConnStep(w.docRoot, w.conns[e.id], e));
    }
    SameConns(w);
  }

  lemma SameConns(w: World)
    requires ConnsOk(w)
    ensures forall v: World :: v.docRoot == w.docRoot && v.conns == w.conns ==> ConnsOk(v)
  {
  }

  /** Every event keeps the invariant. */
  lemma StepKeepsOk(w: World, e: Event)
    requires WorldOk(w) && Enabled(w, e)
    ensures AllSafe(w) && WorldOk(Step(w, e))
  {
    StepKeepsConns(w, e);
    hide ConnStep, Started, AnswerOk, LifeOk, MaySucceed, MayFail, Safe, ConnsOk;
    if !e.AcceptOk? && !e.AcceptFailed? && !e.Signalled? {
      assert ConnOk(w.docRoot, w.conns[e.id]) by { WorldHas(w, e.id); }
      ConnStepKeepsOk(w.docRoot, w.conns[e.id], e);
    }
  }

  lemma WorldHas(w: World, i: nat)
    requires ConnsOk(w) && i < |w.conns|
    ensures ConnOk(w.docRoot, w.conns[i])
  {
  }

  lemma StopKeepsOk(docRoot: string, c: Conn)
    requires ConnOk(docRoot, c)
    ensures ConnOk(docRoot, StopIfMember(c))
  {
  }

  // ---- runs

  /** The world the constructor leaves behind. */
  predicate Initial(w: World) {
    w.acceptorOpen && w.accepts == 1 && w.awaitingSignal && w.conns == []
  }

  predicate IsRun(w: World, es: seq<Event>)
    decreases |es|
  {
    AllSafe(w) && (es == [] || (Enabled(w, es[0]) && IsRun(Step(w, es[0]), es[1..])))
  }

  function Final(w: World, es: seq<Event>): World
    requires IsRun(w, es)
    decreases |es|
  {
    if es == [] then w else Final(Step(w, es[0]), es[1..])
  }

  lemma {:induction false} RunKeepsOk(w: World, es: seq<Event>)
    requires WorldOk(w) && IsRun(w, es)
    ensures WorldOk(Final(w, es))
    decreases |es|
  {
    hide WorldOk, Step, Enabled;
    if es != [] {
      StepKeepsOk(w, es[0]);
      RunKeepsOk(Step(w, es[0]), es[1..]);
    }
  }

  /** No handler ever finds a parser or request it cannot use: whatever is enabled after a run
      extends it. */
  lemma {:induction false} RunExtends(w: World, es: seq<Event>, e: Event)
    requires WorldOk(w) && IsRun(w, es) && Enabled(Final(w, es), e)
    ensures AllSafe(Final(w, es)) && IsRun(w, es + [e]) && Final(w, es + [e]) == Step(Final(w, es), e)
    decreases |es|
  {
    WorldIsSafe(w);
    hide WorldOk, Step, Enabled, AllSafe;
    if es == [] {
      StepKeepsOk(w, e);
      WorldIsSafe(Step(w, e));
      assert ([] + [e])[1..] == [];
    } else {
      StepKeepsOk(w, es[0]);
      RunExtends(Step(w, es[0]), es[1..], e);
      assert (es + [e])[1..] == es[1..] + [e];
    }
  }

  lemma InitialIsOk(w: World)
    requires Initial(w)
    ensures WorldOk(w)
  {
  }

  /** In every reachable state, for every connection: it is in the set of live connections exactly
      while its socket is open, it then has exactly one pending operation, and never two; the
      handler ran at most once and at most one reply write was begun. */
  lemma ConnectionLife(w: World, es: seq<Event>, i: nat)
    requires Initial(w) && IsRun(w, es) && i < |Final(w, es).conns|
    ensures LifeOk(Final(w, es).conns[i])
  {
    InitialIsOk(w);
    RunKeepsOk(w, es);
    hide IsRun, AnswerOk;
    WorldHas(Final(w, es), i);
  }

  ghost predicate StartsWithRequest(b: string) {
    exists t, rest :: TreeWf(t) && Print(t) + rest == b
  }

  /** In every reachable state a connection's answer is decided by the bytes it has received, however
      they were cut into reads: none while they can still become a request, the handler's
      reply to the one request they start with, or the reply to a bad request.  A client reads that
      reply back from the bytes written. */
  lemma ConnectionAnswers(w: World, es: seq<Event>, i: nat)
    requires Initial(w) && IsRun(w, es) && i < |Final(w, es).conns|
    ensures var c := Final(w, es).conns[i];
      && (c.writes == 0 <==> Extensible(c.received)) && (c.writes == 0 ==> c.output == "")
      && (c.handled == 1 <==> StartsWithRequest(c.received))
      && (c.writes == 1 ==> ReadReply(c.output) == Some(c.reply))
      && (forall t, rest :: TreeWf(t) && Print(t) + rest == c.received ==>
           c.handled == 1 && c.writes == 1 && c.reply == Answer(w.docRoot, c.files, t.uri))
      && (c.writes == 1 && c.handled == 0 ==> c.reply == Stock(BadRequest) && !Viable(c.received))
  {
    InitialIsOk(w);
    RunKeepsOk(w, es);
    RunKeepsRoot(w, es);
    var v := Final(w, es);
    hide IsRun, Final, LifeOk;
    WorldHas(v, i);
    AnswerMeans(w.docRoot, v.conns[i]);
  }

  lemma {:induction false} RunKeepsRoot(w: World, es: seq<Event>)
    requires IsRun(w, es)
    ensures Final(w, es).docRoot == w.docRoot
    decreases |es|
  {
    if es != [] {
      RunKeepsRoot(Step(w, es[0]), es[1..]);
    }
  }

  lemma AnswerMeans(docRoot: string, c: Conn)
    requires AnswerOk(docRoot, c)
    ensures c.writes == 0 <==> Extensible(c.received)
    ensures c.writes == 0 ==> c.output == ""
    ensures c.handled == 1 <==> StartsWithRequest(c.received)
    ensures c.writes == 1 ==> ReadReply(c.output) == Some(c.reply)
    ensures forall t, rest :: TreeWf(t) && Print(t) + rest == c.received ==>
      c.handled == 1 && c.writes == 1 && c.reply == Answer(docRoot, c.files, t.uri)
    ensures c.writes == 1 && c.handled == 0 ==> c.reply == Stock(BadRequest) && !Viable(c.received)
  {
    var b := Birth(c);
    hide Run, Handle, Stock, TreeWf, Print, Serialize, ReadReply, Extensible, Viable;
    IndeterminateIsExtensible(b, c.received);
    var o := Run(b, c.received);
    if o.verdict == Bad {
      StockIsReadable(BadRequest);
      BadIsNotViable(b, c.received);
    } else if o.verdict == Good {
      HandledIsReadable(docRoot, c.files, o.config.request.uri, ReplyValue(Ok, [], ""));
      var t := GoodIsPrinting(b, c.received);
      assert StartsWithRequest(c.received);
    }
    forall t, rest | TreeWf(t) && Print(t) + rest == c.received
      ensures c.handled == 1 && c.writes == 1 && c.reply == Answer(docRoot, c.files, t.uri)
    {
      AcceptsPrinting(b, t, rest);
    }
  }

  // ---- a request is answered

  /** A read that completes the request of a tree hands it to the handler and writes the answer. */
  lemma ReadAnswers(docRoot: string, c: Conn, t: Tree, rest: string, files: map<string, string>)
    requires TreeWf(t) && Fresh(c.parse) && BlankReply(c.reply) && c.open && c.output == ""
    requires c.pending == [Op(Reading, true)]
    ensures Safe(c.parse)
    ensures var d := ConnStep(docRoot, c, ReadOk(0, Print(t) + rest, files));
      && d.open && d.pending == [Op(Writing, true)]
      && d.output == Serialize(Answer(docRoot, files, t.uri)) && d.handled == c.handled + 1
  {
    AcceptsPrinting(c.parse, t, rest);
    AnswerIgnoresStatus(docRoot, files, t.uri, c.reply);
    hide TreeWf, Print, Run, Handle, Serialize, Safe, Fresh;
    assert "" + Serialize(Answer(docRoot, files, t.uri)) == Serialize(Answer(docRoot, files, t.uri));
  }

  lemma WriteEnds(docRoot: string, c: Conn)
    requires Safe(c.parse) && c.pending == [Op(Writing, true)]
    ensures var d := ConnStep(docRoot, c, WriteOk(0));
      !d.open && !d.member && d.pending == [] && d.output == c.output && d.handled == c.handled
  {
  }

  /** A read returns at most one buffer. */
  lemma ReadsFillTheBuffer(c: Conn, data: string, files: map<string, string>)
    requires Op(Reading, true) in c.pending
    ensures HasPending(c, ReadOk(0, data, files)) <==> |data| <= 8192
  {
  }

  lemma FirstAccept(w: World, request: RequestValue, reply: ReplyValue)
    requires Initial(w) && Blank(request) && BlankReply(reply)
    ensures AllSafe(w) && Enabled(w, AcceptOk(request, reply))
    ensures Step(w, AcceptOk(request, reply)) == w.(conns := [Started(request, reply)])
  {
    hide Started;
    assert [] + [Started(request, reply)] == [Started(request, reply)];
  }

  lemma OnlyConnection(w: World, c: Conn, e: Event)
    requires w.conns == [c] && Safe(c.parse) && HasPending(c, e) && e.id == 0
    ensures AllSafe(w) && Enabled(w, e) && Step(w, e) == w.(conns := [ConnStep(w.docRoot, c, e)])
  {
    hide MaySucceed, MayFail, ConnStep, Safe;
  }

  lemma ReadKeepsSafe(docRoot: string, c: Conn, e: Event)
    requires Safe(c.parse)
    ensures Safe(ConnStep(docRoot, c, e).parse)
  {
    hide Safe, Handle, Stock, Serialize;
  }

  /** The second and third step, once the connection is there. */
  lemma ConnectionAnswersRequest(w: World, c: Conn, t: Tree, rest: string, files: map<string, string>)
    returns (d: Conn)
    requires TreeWf(t) && Fresh(c.parse) && BlankReply(c.reply) && c.open && c.output == "" && c.handled == 0
    requires c.pending == [Op(Reading, true)] && |Print(t) + rest| <= BUFFER_SIZE
    ensures var v, e, v' := w.(conns := [c]), ReadOk(0, Print(t) + rest, files), w.(conns := [d]);
      && AllSafe(v) && Enabled(v, e) && Step(v, e) == v' && AllSafe(v') && Enabled(v', WriteOk(0))
      && var u := Step(v', WriteOk(0));
      && AllSafe(u) && u == w.(conns := u.conns) && |u.conns| == 1
      && u.conns[0].output == Serialize(Answer(w.docRoot, files, t.uri)) && u.conns[0].handled == 1
      && !u.conns[0].open && !u.conns[0].member && u.conns[0].pending == []
  {
    var e := ReadOk(0, Print(t) + rest, files);
    hide TreeWf, Print, Run, Serialize, Answer, Handle, Safe, Fresh, BlankReply;
    ReadAnswers(w.docRoot, c, t, rest, files);
    d := ConnStep(w.docRoot, c, e);
    ReadKeepsSafe(w.docRoot, c, e);
    WriteEnds(w.docRoot, d);
    ReadKeepsSafe(w.docRoot, d, WriteOk(0));
    hide ConnStep;
    OnlyConnection(w.(conns := [c]), c, e);
    OnlyConnection(w.(conns := [d]), d, WriteOk(0));
    hide Step, Enabled, HasPending;
  }

  lemma ThreeSteps(w: World, e1: Event, w1: World, e2: Event, w2: World, e3: Event, w3: World)
    requires AllSafe(w) && Enabled(w, e1) && Step(w, e1) == w1
    requires AllSafe(w1) && Enabled(w1, e2) && Step(w1, e2) == w2
    requires AllSafe(w2) && Enabled(w2, e3) && Step(w2, e3) == w3 && AllSafe(w3)
    ensures IsRun(w, [e1, e2, e3]) && Final(w, [e1, e2, e3]) == w3
  {
    hide AllSafe, Enabled, Step;
    var es := [e1, e2, e3];
    assert es[1..] == [e2, e3] && [e2, e3][1..] == [e3] && [e3][1..] == [];
    assert IsRun(w3, []) && Final(w3, []) == w3;
    assert IsRun(w2, [e3]) && Final(w2, [e3]) == w3;
    assert IsRun(w1, [e2, e3]) && Final(w1, [e2, e3]) == w3;
  }

  /** From the start: a connection is accepted, its request read and answered, and the connection
      closed, with the next accept pending. */
  lemma RequestIsAnswered(
    w: World, request: RequestValue, reply: ReplyValue, t: Tree, rest: string, files: map<string, string>)
    requires Initial(w) && Blank(request) && BlankReply(reply) && TreeWf(t) && |Print(t) + rest| <= BUFFER_SIZE
    ensures var es := [AcceptOk(request, reply), ReadOk(0, Print(t) + rest, files), WriteOk(0)];
      && IsRun(w, es)
      && var d := Final(w, es);
      && d.acceptorOpen && d.accepts == 1 && |d.conns| == 1
      && d.conns[0].output == Serialize(Answer(w.docRoot, files, t.uri)) && d.conns[0].handled == 1
      && !d.conns[0].open && !d.conns[0].member && d.conns[0].pending == []
  {
    var e1, e2, e3 := AcceptOk(request, reply), ReadOk(0, Print(t) + rest, files), WriteOk(0);
    var c := Started(request, reply);
    var d := ConnectionAnswersRequest(w, c, t, rest, files);
    FirstAccept(w, request, reply);
    InitialIsOk(w);
    hide TreeWf, Print, Serialize, WorldOk, AllSafe, IsRun, Final, Answer, Step, Enabled, Started, BlankReply, Blank;
    ThreeSteps(w, e1, w.(conns := [c]), e2, w.(conns := [d]), e3, Step(w.(conns := [d]), e3));
  }

  // ---- what the events cover

  /** Every pending operation may fail; one begun on an open socket may succeed, with any bytes, and
      be aborted once the socket is closed. */
  lemma EveryOutcomeMayHappen(w: World, i: nat, op: Op, data: string, files: map<string, string>)
    requires i < |w.conns| && op in w.conns[i].pending && |data| <= 8192
    ensures op.kind == Reading ==> Enabled(w, ReadFailed(i, op.startedOpen, false))
    ensures op.kind == Writing ==> Enabled(w, WriteFailed(i, op.startedOpen, false))
    ensures op == Op(Reading, true) ==> Enabled(w, ReadOk(i, data, files))
    ensures op == Op(Writing, true) ==> Enabled(w, WriteOk(i))
    ensures op == Op(Reading, true) && !w.conns[i].open ==> Enabled(w, ReadFailed(i, true, true))
    ensures op == Op(Writing, true) && !w.conns[i].open ==> Enabled(w, WriteFailed(i, true, true))
  {
  }

  /** So may an accept, whether the acceptor is still open or not, and the signal while awaited. */
  lemma AcceptsMayEnd(w: World, request: RequestValue, reply: ReplyValue)
    requires Blank(request) && BlankReply(reply)
    ensures w.accepts > 0 ==> Enabled(w, AcceptOk(request, reply)) && Enabled(w, AcceptFailed)
    ensures w.awaitingSignal ==> Enabled(w, Signalled)
  {
  }

  // ---- shutdown

  lemma {:induction false} StopIsFinal(w: World, es: seq<Event>)
    requires IsRun(w, es) && !w.awaitingSignal
    ensures !Final(w, es).awaitingSignal
    decreases |es|
  {
    if es != [] {
      StopIsFinal(Step(w, es[0]), es[1..]);
    }
  }

  /** Once the stop handler has run the set of live connections is empty and stays empty, with every
      socket closed, whatever queued completions are still delivered. */
  lemma ShutdownIsSafe(w: World, before: seq<Event>, es: seq<Event>)
    requires Initial(w) && IsRun(w, before) && !Final(w, before).awaitingSignal && IsRun(Final(w, before), es)
    ensures var v := Final(Final(w, before), es);
      !v.acceptorOpen && forall i :: 0 <= i < |v.conns| ==> !v.conns[i].member && !v.conns[i].open
  {
    InitialIsOk(w);
    RunKeepsOk(w, before);
    var m := Final(w, before);
    RunKeepsOk(m, es);
    StopIsFinal(m, es);
    var v := Final(m, es);
    hide Final, IsRun, AnswerOk;
    forall i | 0 <= i < |v.conns| ensures !v.conns[i].member && !v.conns[i].open {
      WorldHas(v, i);
    }
  }

  function OpsWeight(ops: seq<Op>): nat {
    if ops == [] then 0 else (if ops[0].startedOpen then 2 else 1) + OpsWeight(ops[1..])
  }

  function Total(cs: seq<Conn>): nat {
    if cs == [] then 0 else OpsWeight(cs[0].pending) + Total(cs[1..])
  }

  /** What is still to come: 2 for an operation begun on an open socket, 1 for one begun on a
      closed socket, 1 for an accept. */
  function Measure(w: World): nat {
    w.accepts + Total(w.conns)
  }

  lemma {:induction false} TotalUpdate(cs: seq<Conn>, i: nat, c: Conn)
    requires i < |cs|
    ensures Total(cs[i := c]) == Total(cs) - OpsWeight(cs[i].pending) + OpsWeight(c.pending)
    decreases i
  {
    if i == 0 {
      assert cs[i := c][1..] == cs[1..];
    } else {
      TotalUpdate(cs[1..], i - 1, c);
      assert cs[i := c][1..] == cs[1..][i - 1 := c];
    }
  }

  lemma ConnStepDrains(docRoot: string, c: Conn, e: Event)
    requires ConnOk(docRoot, c) && !c.member
    requires HasPending(c, e)
    ensures OpsWeight(ConnStep(docRoot, c, e).pending) < OpsWeight(c.pending)
  {
    hide AnswerOk, Run, Handle, Stock;
    match e {
      case ReadOk(_, data, files) => CompletedHasNone(c, Op(Reading, true));
      case ReadFailed(_, s, _) => CompletedHasNone(c, Op(Reading, s));
      case WriteOk(_) => CompletedHasNone(c, Op(Writing, true));
      case WriteFailed(_, s, _) => CompletedHasNone(c, Op(Writing, s));
    }
  }

  lemma StepDrains(w: World, e: Event)
    requires WorldOk(w) && !w.awaitingSignal && Enabled(w, e)
    ensures AllSafe(w) && Measure(Step(w, e)) < Measure(w)
  {
    WorldIsSafe(w);
    hide ConnStep, AnswerOk, LifeOk, MaySucceed, MayFail, Safe, ConnsOk, Total, OpsWeight;
    if !e.AcceptOk? && !e.AcceptFailed? {
      assert ConnOk(w.docRoot, w.conns[e.id]) by { WorldHas(w, e.id); }
      ConnStepDrains(w.docRoot, w.conns[e.id], e);
      TotalUpdate(w.conns, e.id, ConnStep(w.docRoot, w.conns[e.id], e));
    }
  }

  /** After the stop the event loop runs out of work: no run is longer than the measure. */
  lemma {:induction false} ShutdownDrains(w: World, es: seq<Event>)
    requires WorldOk(w) && !w.awaitingSignal && IsRun(w, es)
    ensures |es| + Measure(Final(w, es)) <= Measure(w)
    decreases |es|
  {
    hide WorldOk, Enabled, Measure, Step;
    if es != [] {
      StepKeepsOk(w, es[0]);
      StepDrains(w, es[0]);
      StopStays(w, es[0]);
      ShutdownDrains(Step(w, es[0]), es[1..]);
    }
  }

  lemma StopStays(w: World, e: Event)
    requires !w.awaitingSignal && AllSafe(w) && Enabled(w, e)
    ensures !Step(w, e).awaitingSignal
  {
  }

  /** And it ends only when nothing is pending: as long as the measure is positive some pending
      operation can complete. */
  lemma DrainedIffNothingPending(w: World)
    requires WorldOk(w) && !w.awaitingSignal
    ensures Measure(w) == 0 <==> forall e :: !Enabled(w, e)
  {
    if w.accepts > 0 {
      assert Enabled(w, AcceptFailed);
    } else if Total(w.conns) > 0 {
      var i := SomePending(w.conns);
      var op := w.conns[i].pending[0];
      assert op in w.conns[i].pending;
      var wasOpen := op.startedOpen;
      assert Enabled(w, if op.kind == Reading then ReadFailed(i, wasOpen, false) else WriteFailed(i, wasOpen, false));
    } else {
      forall e ensures !Enabled(w, e) {
        if Enabled(w, e) {
          StepDrains(w, e);
        }
      }
    }
  }

  lemma {:induction false} SomePending(cs: seq<Conn>) returns (i: nat)
    requires Total(cs) > 0
    ensures i < |cs| && cs[i].pending != []
    decreases |cs|
  {
    if cs[0].pending != [] {
      i := 0;
    } else {
      var k := SomePending(cs[1..]);
      i := k + 1;
    }
  }
}
