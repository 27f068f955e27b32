/** The chat client as an event system: one connect, a write pump that closes the socket when its
    queue runs empty, and a reader of frames.  Completion handlers run one at a time, each pending
    operation completing once; an operation begun on a closed socket fails.  A write begun before the
    connect has completed may do either; once the connect has failed on an open socket no write
    succeeds. */
module ClientProtocol {
  import opened Basics
  import opened ChatMessages
  import opened CText

  /** A pending read or write, and whether the socket was open when it began. */
  datatype Reading = NotReading | Header(begunOpen: bool) | Body(begunOpen: bool)
  datatype Outgoing = Outgoing(msg: Message, begunOpen: bool)

  /** The last two lines are history: whether the connect failed on an open socket, the messages
      accepted and those whose writes completed, the bytes received, the bodies shown, and the length
      announced by a header whose body read has not succeeded. */
  datatype Client = Client(
    connecting: bool, socketOpen: bool, socketClosed: bool,
    queue: seq<Message>, inFlight: seq<Outgoing>, reading: Reading, readMsg: Message,
    refused: bool, accepted: seq<Message>, sent: seq<Message>,
    received: string, shown: seq<string>, awaited: Option<nat>)

  /** `Posted` and `CloseRequested` are the handlers that `write` and `close` post.  A read that
      fails may have received some bytes. */
  datatype Event =
    | Connected(ok: bool)
    | Posted(msg: Message)
    | CloseRequested
    | HeaderRead(bytes: string, ok: bool)
    | BodyRead(bytes: string, ok: bool)
    | WriteDone(ok: bool)

  predicate ReadMayEnd(c: Client, want: nat, bytes: string, ok: bool)
    requires !c.reading.NotReading?
  {
    if ok then |bytes| == want && c.reading.begunOpen
    else bytes == "" || (|bytes| < want && c.reading.begunOpen)
  }

  predicate Enabled(c: Client, e: Event) {
    match e
    case Connected(_) => c.connecting
    case Posted(msg) => MessageOk(msg)
    case CloseRequested => true
    case HeaderRead(bytes, ok) => c.reading.Header? && ReadMayEnd(c, HEADER_LENGTH, bytes, ok)
    case BodyRead(bytes, ok) => c.reading.Body? && ReadMayEnd(c, c.readMsg.bodyLength, bytes, ok)
    case WriteDone(ok) => c.inFlight != [] && (ok ==> c.inFlight[0].begunOpen && !c.refused)
  }

  /** What the handlers rely on: a front to pop, a buffer that holds the body. */
  predicate Safe(c: Client) {
    (c.inFlight != [] ==> c.queue != []) && MessageOk(c.readMsg)
  }

  function BeginWrite(c: Client): Client
    requires c.queue != []
  {
    c.(inFlight := c.inFlight + [Outgoing(c.queue[0], c.socketOpen)])
  }

  function Post(c: Client, m: Message): Client {
    var pushed := c.(queue := c.queue + [m], accepted := c.accepted + [m]);
    if c.queue == [] then BeginWrite(pushed) else pushed
  }

  function Close(c: Client): Client {
    c.(socketOpen := false, socketClosed := true)
  }

  function BeginHeader(c: Client): Client {
    c.(reading := Header(c.socketOpen))
  }

  function Receive(c: Client, at: nat, bytes: string): Client
    requires at + |bytes| <= |c.readMsg.data|
  {
    c.(reading := NotReading, readMsg := Filled(c.readMsg, at, bytes), received := c.received + bytes)
  }

  /** The header is decoded whether or not the read succeeded; only its outcome depends on that. */
  function OnHeader(c: Client, bytes: string, ok: bool): Client
    requires MessageOk(c.readMsg) && |bytes| <= HEADER_LENGTH
  {
    var r := Receive(c, 0, bytes);
    var d := r.(readMsg := HeaderDecoded(r.readMsg));
    if ok && DecodeLength(r.readMsg.data[..HEADER_LENGTH]).Some? then
      d.(reading := Body(d.socketOpen), awaited := Some(d.readMsg.bodyLength))
    else Close(d)
  }

  function OnBody(c: Client, bytes: string, ok: bool): Client
    requires MessageOk(c.readMsg) && |bytes| <= c.readMsg.bodyLength
  {
    var r := Receive(c, HEADER_LENGTH, bytes);
    if ok then BeginHeader(r.(shown := r.shown + [ChatMessages.Body(r.readMsg)], awaited := None)) else Close(r)
  }

  /** A failed write leaves its message at the front and begins no other. */
  function OnWrite(c: Client, ok: bool): Client
    requires c.inFlight != [] && c.queue != []
  {
    var done := c.(inFlight := c.inFlight[1..]);
    if !ok then done
    else
      var popped := done.(queue := c.queue[1..], sent := c.sent + [c.inFlight[0].msg]);
      if popped.queue != [] then BeginWrite(popped) else Close(popped)
  }

  function Step(c: Client, e: Event): Client
    requires Safe(c) && Enabled(c, e)
  {
    match e
    case Connected(ok) =>
      var d := c.(connecting := false, refused := !ok && c.socketOpen);
      if ok then BeginHeader(d) else d
    case Posted(msg) => Post(c, msg)
    case CloseRequested => c.(socketOpen := false)
    case HeaderRead(bytes, ok) => OnHeader(c, bytes, ok)
    case BodyRead(bytes, ok) => OnBody(c, bytes, ok)
    case WriteDone(ok) => OnWrite(c, ok)
  }

  function Initial(readMsg: Message): Client {
    Client(true, true, false, [], [], NotReading, readMsg, false, [], [], "", [], None)
  }

  // ---- the invariant

  /** At most one outstanding write, of the unchanged front of the queue; what was sent and what is
      queued are what was accepted, in order, even after errors; an emptied queue has closed the
      socket. */
  predicate PumpOk(c: Client) {
    && |c.inFlight| <= 1
    && (c.inFlight != [] ==> c.queue != [] && c.inFlight[0].msg == c.queue[0])
    && (c.inFlight != [] && !c.inFlight[0].begunOpen ==> !c.socketOpen)
    && c.sent + c.queue == c.accepted
    && (c.sent != [] && c.queue == [] ==> !c.socketOpen)
    && (c.socketClosed ==> !c.socketOpen)
    && (c.refused ==> !c.connecting)
  }

  /** What was shown is what the received bytes decode to; of an announced body of length 0, which
      they already decode to, the read has not succeeded. */
  predicate Shown(c: Client) {
    ReadFrames(c.received, CLIENT_EXTRA).bodies == if c.awaited == Some(0) then c.shown + [""] else c.shown
  }

  predicate ReaderOk(c: Client) {
    && MessageOk(c.readMsg)
    && (c.connecting ==> c.reading.NotReading? && c.received == "" && c.shown == [] && c.awaited == None)
    && match c.reading {
         case NotReading => Shown(c)
         case Header(_) => c.awaited == None && AtHeader(c.received, c.shown, CLIENT_EXTRA)
         case Body(_) =>
           && c.awaited == Some(c.readMsg.bodyLength)
           && AtBody(c.received, c.shown, c.readMsg.bodyLength, CLIENT_EXTRA)
       }
  }

  predicate ClientOk(c: Client) {
    PumpOk(c) && ReaderOk(c)
  }

  lemma WriteKeepsPump(c: Client, ok: bool)
    requires PumpOk(c) && c.inFlight != []
    ensures PumpOk(OnWrite(c, ok))
  {
  }

  lemma PostKeepsPump(c: Client, m: Message)
    requires PumpOk(c)
    ensures PumpOk(Post(c, m))
  {
    assert c.sent + (c.queue + [m]) == c.sent + c.queue + [m];
  }

  /** The handlers of the reads leave the pump alone and may close the socket. */
  lemma ReadsKeepPump(c: Client, bytes: string, ok: bool)
    requires PumpOk(c) && MessageOk(c.readMsg)
    ensures |bytes| <= HEADER_LENGTH ==> PumpOk(OnHeader(c, bytes, ok))
    ensures |bytes| <= c.readMsg.bodyLength ==> PumpOk(OnBody(c, bytes, ok))
  {
    hide DecodeLength, HeaderDecoded, Filled, ChatMessages.Body;
  }

  lemma StepKeepsPump(c: Client, e: Event)
    requires PumpOk(c) && Safe(c) && Enabled(c, e)
    ensures PumpOk(Step(c, e))
  {
    hide OnWrite, OnHeader, OnBody, Post, MessageOk;
    match e {
      case WriteDone(ok) => WriteKeepsPump(c, ok);
      case Posted(msg) => PostKeepsPump(c, msg);
      case HeaderRead(bytes, ok) => ReadsKeepPump(c, bytes, ok);
      case BodyRead(bytes, ok) => ReadsKeepPump(c, bytes, ok);
      case _ =>
    }
  }

  lemma HeaderKeepsReader(c: Client, bytes: string, ok: bool)
    requires ReaderOk(c) && c.reading.Header? && ReadMayEnd(c, HEADER_LENGTH, bytes, ok)
    ensures ReaderOk(OnHeader(c, bytes, ok))
  {
    hide DecodeLength, ReadFrames, AtHeader, AtBody;
    var d := OnHeader(c, bytes, ok);
    HeaderDecodedIsOk(Filled(c.readMsg, 0, bytes));
    if |bytes| == HEADER_LENGTH {
      assert Filled(c.readMsg, 0, bytes).data[..HEADER_LENGTH] == bytes;
    }
    if d.reading.Body? {
      HeaderArrives(c.received, c.shown, bytes, d.readMsg.bodyLength, CLIENT_EXTRA);
    } else {
      HeaderFails(c.received, c.shown, bytes, CLIENT_EXTRA);
    }
  }

  lemma BodyKeepsReader(c: Client, bytes: string, ok: bool)
    requires ReaderOk(c) && c.reading.Body? && ReadMayEnd(c, c.readMsg.bodyLength, bytes, ok)
    ensures ReaderOk(OnBody(c, bytes, ok))
  {
    hide DecodeLength, ReadFrames, AtHeader, AtBody;
    var k := c.readMsg.bodyLength;
    if ok {
      BodyArrives(c.received, c.shown, k, bytes, CLIENT_EXTRA);
      assert bytes[..k] == bytes == ChatMessages.Body(Filled(c.readMsg, HEADER_LENGTH, bytes));
    } else {
      BodyFails(c.received, c.shown, k, bytes, CLIENT_EXTRA);
    }
  }

  lemma StepKeepsReader(c: Client, e: Event)
    requires ReaderOk(c) && Safe(c) && Enabled(c, e)
    ensures ReaderOk(Step(c, e))
  {
    hide DecodeLength, ReadFrames, ReadMayEnd, OnHeader, OnBody, AtBody;
    AtStart(CLIENT_EXTRA);
    match e {
      case HeaderRead(bytes, ok) => HeaderKeepsReader(c, bytes, ok);
      case BodyRead(bytes, ok) => BodyKeepsReader(c, bytes, ok);
      case _ =>
    }
  }

  lemma OkIsSafe(c: Client)
    requires ClientOk(c)
    ensures Safe(c)
  {
  }

  lemma StepKeepsOk(c: Client, e: Event)
    requires ClientOk(c) && Enabled(c, e)
    ensures Safe(c) && ClientOk(Step(c, e))
  {
    hide PumpOk, ReaderOk, Enabled, Safe, Step;
    OkIsSafe(c);
    StepKeepsPump(c, e);
    StepKeepsReader(c, e);
  }

  // ---- runs

  predicate IsRun(c: Client, es: seq<Event>)
    decreases |es|
  {
    Safe(c) && (es == [] || (Enabled(c, es[0]) && IsRun(Step(c, es[0]), es[1..])))
  }

  function Final(c: Client, es: seq<Event>): Client
    requires IsRun(c, es)
    decreases |es|
  {
    if es == [] then c else Final(Step(c, es[0]), es[1..])
  }

  lemma RunCons(c: Client, e: Event, es: seq<Event>)
    requires Safe(c) && Enabled(c, e) && IsRun(Step(c, e), es)
    ensures IsRun(c, [e] + es) && Final(c, [e] + es) == Final(Step(c, e), es)
  {
  }

  lemma RunNothing(c: Client)
    requires Safe(c)
    ensures IsRun(c, []) && Final(c, []) == c
  {
  }

  lemma {:induction false} RunKeepsOk(c: Client, es: seq<Event>)
    requires ClientOk(c) && IsRun(c, es)
    ensures ClientOk(Final(c, es))
    decreases |es|
  {
    hide ClientOk, Step, Enabled, Safe;
    if es != [] {
      StepKeepsOk(c, es[0]);
      RunKeepsOk(Step(c, es[0]), es[1..]);
    }
  }

  /** No handler ever finds an empty queue to pop or a body longer than the buffer: whatever is
      enabled after a run extends it. */
  lemma {:induction false} RunExtends(c: Client, es: seq<Event>, e: Event)
    requires ClientOk(c) && IsRun(c, es) && Enabled(Final(c, es), e)
    ensures Safe(Final(c, es)) && IsRun(c, es + [e]) && Final(c, es + [e]) == Step(Final(c, es), e)
    decreases |es|
  {
    OkIsSafe(c);
    hide ClientOk, Step, Enabled, Safe;
    if es == [] {
      StepKeepsOk(c, e);
      OkIsSafe(Step(c, e));
      assert ([] + [e])[1..] == [];
    } else {
      StepKeepsOk(c, es[0]);
      RunExtends(Step(c, es[0]), es[1..], e);
      assert (es + [e])[1..] == es[1..] + [e];
    }
  }

  lemma InitialIsOk(readMsg: Message)
    requires MessageOk(readMsg)
    ensures ClientOk(Initial(readMsg))
  {
  }

  /** In every reachable state the write pump is in order and nothing accepted is lost, doubled or
      reordered, whatever failed on the way. */
  lemma SentThenQueued(readMsg: Message, es: seq<Event>)
    requires MessageOk(readMsg) && IsRun(Initial(readMsg), es)
    ensures PumpOk(Final(Initial(readMsg), es))
  {
    InitialIsOk(readMsg);
    RunKeepsOk(Initial(readMsg), es);
  }

  /** In every reachable state: what the bytes received so far decode to is what was shown, and one
      empty body more exactly if a header has announced an empty body whose read has not succeeded. */
  lemma ShownIsDecoded(readMsg: Message, es: seq<Event>)
    requires MessageOk(readMsg) && IsRun(Initial(readMsg), es)
    ensures var c := Final(Initial(readMsg), es);
      var bodies := ReadFrames(c.received, CLIENT_EXTRA).bodies;
      && (bodies == c.shown + [""] <==> c.awaited == Some(0))
      && (bodies == c.shown <==> c.awaited != Some(0))
      && (c.reading.Body? ==> c.awaited == Some(c.readMsg.bodyLength)) && (c.reading.Header? ==> c.awaited == None)
  {
    InitialIsOk(readMsg);
    RunKeepsOk(Initial(readMsg), es);
    hide IsRun, Final, Initial;
    ReaderShows(Final(Initial(readMsg), es));
  }

  lemma ReaderShows(c: Client)
    requires ReaderOk(c)
    ensures Shown(c)
  {
    hide DecodeLength, ReadFrames, AtBody;
    if c.reading.Body? {
      BodyFails(c.received, c.shown, c.readMsg.bodyLength, "", CLIENT_EXTRA);
      assert c.received + "" == c.received;
    }
  }

  /** A concrete run at whose end an empty body has arrived and is not shown. */
  lemma EmptyBodyIsNotShown(readMsg: Message)
    requires MessageOk(readMsg)
    ensures var run := [Connected(true), HeaderRead(Field(0), true), BodyRead("", false)];
      && IsRun(Initial(readMsg), run)
      && var c := Final(Initial(readMsg), run);
      c.shown == [] && ReadFrames(c.received, CLIENT_EXTRA).bodies == [""]
  {
    var c, e1, e2, e3 := Initial(readMsg), Connected(true), HeaderRead(Field(0), true), BodyRead("", false);
    InitialIsOk(readMsg);
    EmptyBody(c);
    hide Step, Enabled, Safe, ClientOk, Shown, IsRun, Final, MessageOk, Field;
    RunNothing(c);
    RunExtends(c, [], e1);
    RunExtends(c, [e1], e2);
    RunExtends(c, [e1, e2], e3);
    assert [] + [e1] == [e1] && [e1] + [e2] == [e1, e2] && [e1, e2] + [e3] == [e1, e2, e3];
    ShownIsDecoded(readMsg, [e1, e2, e3]);
  }

  lemma EmptyHeader(c: Client)
    requires Safe(c) && c.reading == Header(true)
    ensures Enabled(c, HeaderRead(Field(0), true))
    ensures var d := Step(c, HeaderRead(Field(0), true));
      && Safe(d) && d.reading.Body? && d.readMsg.bodyLength == 0
      && d.awaited == Some(0) && d.shown == c.shown
  {
    hide DecodeLength, Field, OnBody, OnWrite, Post;
    DecodeEncodes(0);
    assert Filled(c.readMsg, 0, Field(0)).data[..HEADER_LENGTH] == Field(0);
  }

  lemma EmptyBody(c: Client)
    requires ClientOk(c) && c.connecting && c.socketOpen
    ensures Safe(c) && Enabled(c, Connected(true))
    ensures var c1 := Step(c, Connected(true));
      && Safe(c1) && Enabled(c1, HeaderRead(Field(0), true))
      && var c2 := Step(c1, HeaderRead(Field(0), true));
      && Safe(c2) && Enabled(c2, BodyRead("", false))
      && var c3 := Step(c2, BodyRead("", false));
      c3.shown == [] && c3.awaited == Some(0)
  {
    OkIsSafe(c);
    hide DecodeLength, Field, PumpOk, OnHeader;
    EmptyHeader(Step(c, Connected(true)));
  }

  /** While the bytes that have arrived are the beginning of the frames of ms, the client has shown
      the beginning of their bodies; at the end of the frames, with the next header awaited, all of
      them. */
  lemma ShowsWhatWasSent(c: Client, ms: seq<Message>, rest: string)
    requires ClientOk(c) && AllDecodable(ms) && c.received + rest == Frames(ms)
    ensures c.shown <= Bodies(ms)
    ensures rest == "" && c.reading.Header? ==> c.shown == Bodies(ms)
  {
    hide ReadFrames, Frames, Bodies, PumpOk;
    ReaderShows(c);
    ReadingGrows(c.received, rest, CLIENT_EXTRA);
    ClientReadsExactly(ms);
    if rest == "" {
      assert c.received + rest == c.received;
    }
  }

  // ---- what the events cover

  /** Every pending operation may fail, and one begun on an open socket may succeed, with any bytes;
      posting and closing are always possible. */
  lemma EveryOutcomeMayHappen(c: Client, bytes: string, m: Message)
    requires MessageOk(m)
    ensures Enabled(c, Posted(m)) && Enabled(c, CloseRequested)
    ensures c.connecting ==> Enabled(c, Connected(true)) && Enabled(c, Connected(false))
    ensures c.reading.Header? ==> Enabled(c, HeaderRead("", false))
    ensures c.reading.Body? ==> Enabled(c, BodyRead("", false))
    ensures c.reading == Header(true) && |bytes| == 4 ==> Enabled(c, HeaderRead(bytes, true))
    ensures c.reading == Body(true) && |bytes| == c.readMsg.bodyLength ==> Enabled(c, BodyRead(bytes, true))
    ensures c.inFlight != [] ==> Enabled(c, WriteDone(false))
    ensures c.inFlight != [] && c.inFlight[0].begunOpen && !c.refused ==> Enabled(c, WriteDone(true))
  {
  }

  // ---- the reader goes on, or closes

  /** The completions of the reads of these frames. */
  function Arrivals(ms: seq<Message>): seq<Event>
    requires AllDecodable(ms)
  {
    if ms == [] then []
    else
      [HeaderRead(ms[0].data[..HEADER_LENGTH], true)] + ([BodyRead(ChatMessages.Body(ms[0]), true)] + Arrivals(ms[1..]))
  }

  lemma HeaderOfMessage(c: Client, m: Message)
    requires ClientOk(c) && c.socketOpen && c.reading == Header(true) && Decodable(m)
    ensures var e := HeaderRead(m.data[..HEADER_LENGTH], true);
      && Safe(c) && Enabled(c, e)
      && var d := Step(c, e);
      && ClientOk(d) && Safe(d) && d.socketOpen && d.reading == Body(true)
      && d.readMsg.bodyLength == m.bodyLength && d.shown == c.shown
  {
    OkIsSafe(c);
    var bytes := m.data[..HEADER_LENGTH];
    assert Filled(c.readMsg, 0, bytes).data[..HEADER_LENGTH] == bytes;
    StepKeepsOk(c, HeaderRead(bytes, true));
    OkIsSafe(Step(c, HeaderRead(bytes, true)));
    hide ClientOk, DecodeLength;
  }

  lemma BodyOfMessage(c: Client, m: Message)
    requires ClientOk(c) && c.socketOpen && c.reading == Body(true)
    requires Decodable(m) && c.readMsg.bodyLength == m.bodyLength
    ensures var e := BodyRead(ChatMessages.Body(m), true);
      && Safe(c) && Enabled(c, e)
      && var d := Step(c, e);
      && ClientOk(d) && Safe(d) && d.socketOpen && d.reading == Header(true)
      && d.shown == c.shown + [ChatMessages.Body(m)]
  {
    OkIsSafe(c);
    var bytes := ChatMessages.Body(m);
    assert ChatMessages.Body(Filled(c.readMsg, HEADER_LENGTH, bytes)) == bytes;
    StepKeepsOk(c, BodyRead(bytes, true));
    OkIsSafe(Step(c, BodyRead(bytes, true)));
    hide ClientOk, DecodeLength;
  }

  lemma {:induction false} ReadsOn(c: Client, ms: seq<Message>)
    requires ClientOk(c) && Safe(c) && c.socketOpen && c.reading == Header(true) && AllDecodable(ms)
    ensures IsRun(c, Arrivals(ms))
    ensures var d := Final(c, Arrivals(ms));
      d.shown == c.shown + Bodies(ms) && d.reading == Header(true) && d.socketOpen
    decreases |ms|
  {
    hide ClientOk, Safe, Enabled, Step, IsRun, Final, ChatMessages.Body, DecodeLength;
    if ms == [] {
      RunNothing(c);
      assert c.shown + Bodies(ms) == c.shown;
    } else {
      var m := ms[0];
      var e1, e2 := HeaderRead(m.data[..HEADER_LENGTH], true), BodyRead(ChatMessages.Body(m), true);
      HeaderOfMessage(c, m);
      var c1 := Step(c, e1);
      BodyOfMessage(c1, m);
      var c2 := Step(c1, e2);
      ReadsOn(c2, ms[1..]);
      RunCons(c1, e2, Arrivals(ms[1..]));
      RunCons(c, e1, [e2] + Arrivals(ms[1..]));
      assert Bodies(ms) == [ChatMessages.Body(m)] + Bodies(ms[1..]);
      assert c.shown + [ChatMessages.Body(m)] + Bodies(ms[1..]) == c.shown + Bodies(ms);
    }
  }

  /** Whatever frames arrive after the connect, the client reads and shows them one after the other,
      and awaits the next. */
  lemma EveryFrameIsShown(readMsg: Message, ms: seq<Message>)
    requires MessageOk(readMsg) && AllDecodable(ms)
    ensures var c, es := Initial(readMsg), [Connected(true)] + Arrivals(ms);
      && IsRun(c, es) && Final(c, es).shown == Bodies(ms) && Final(c, es).reading == Header(true)
  {
    var c, e := Initial(readMsg), Connected(true);
    InitialIsOk(readMsg);
    OkIsSafe(c);
    StepKeepsOk(c, e);
    OkIsSafe(Step(c, e));
    assert Step(c, e).shown == [] && Step(c, e).reading == Header(true) && Step(c, e).socketOpen;
    hide ClientOk, Safe, Enabled, Step, IsRun, Final;
    ReadsOn(Step(c, e), ms);
    RunCons(c, e, Arrivals(ms));
    assert [] + Bodies(ms) == Bodies(ms);
  }

  /** A read that fails, or a header that is refused, closes the socket, tells the input loop, and is
      the last; a successful one does none of this. */
  lemma FailedReadCloses(c: Client, e: Event)
    requires Safe(c) && Enabled(c, e) && (e.HeaderRead? || e.BodyRead?)
    ensures var d, failed := Step(c, e), !e.ok || (e.HeaderRead? && DecodeLength(e.bytes).None?);
      if failed then d.reading == NotReading && !d.socketOpen && d.socketClosed
      else d.reading != NotReading && d.socketOpen == c.socketOpen && d.socketClosed == c.socketClosed
  {
    hide DecodeLength;
    if e.HeaderRead? && e.ok {
      assert Filled(c.readMsg, 0, e.bytes).data[..HEADER_LENGTH] == e.bytes;
    }
  }

  /** Closing on request leaves the flag of the input loop as it was, and all else. */
  lemma RequestOnlyCloses(c: Client)
    requires Safe(c)
    ensures var d := Step(c, CloseRequested); !d.socketOpen && d.(socketOpen := c.socketOpen) == c
  {
  }

  /** A connect that fails starts nothing and closes nothing. */
  lemma FailedConnectStartsNothing(c: Client)
    requires Safe(c) && c.connecting
    ensures var d := Step(c, Connected(false));
      !d.connecting && d.(connecting := c.connecting, refused := c.refused) == c
  {
  }

  // ---- what is never sent

  /** Nothing can be sent any more: the connect failed, or the queue is not empty but its write
      failed, or the socket is closed and no write begun before that is outstanding. */
  predicate Mute(c: Client) {
    || c.refused
    || (if c.inFlight == [] then c.queue != [] || !c.socketOpen else !c.inFlight[0].begunOpen)
  }

  lemma StepKeepsMute(c: Client, e: Event)
    requires PumpOk(c) && Safe(c) && Enabled(c, e) && Mute(c)
    ensures Mute(Step(c, e)) && Step(c, e).sent == c.sent
  {
    hide MessageOk, DecodeLength, HeaderDecoded, Filled, ChatMessages.Body;
  }

  lemma {:induction false} MuteForever(c: Client, es: seq<Event>)
    requires ClientOk(c) && IsRun(c, es) && Mute(c)
    ensures Final(c, es).sent == c.sent
    decreases |es|
  {
    hide PumpOk, ReaderOk, Mute, Step, Enabled, Safe;
    if es != [] {
      StepKeepsMute(c, es[0]);
      StepKeepsOk(c, es[0]);
      MuteForever(Step(c, es[0]), es[1..]);
    }
  }

  predicate MaySend(c: Client, es: seq<Event>) {
    IsRun(c, es) && |Final(c, es).sent| > |c.sent|
  }

  /** A write that completes sends the front of the queue and begins the next, or closes. */
  lemma WriteSendsFront(c: Client)
    requires ClientOk(c) && c.inFlight != [] && c.inFlight[0].begunOpen && !c.refused
    ensures Safe(c) && Enabled(c, WriteDone(true))
    ensures var d := Step(c, WriteDone(true));
      && Safe(d) && ClientOk(d)
      && d.sent == c.sent + [c.queue[0]] && d.queue == c.queue[1..]
      && (if d.queue == [] then !d.socketOpen && d.socketClosed && d.inFlight == []
          else d.socketOpen == c.socketOpen && d.inFlight != [] && !d.refused)
  {
    OkIsSafe(c);
    StepKeepsOk(c, WriteDone(true));
    OkIsSafe(Step(c, WriteDone(true)));
    hide ReaderOk, ReadFrames, DecodeLength, MessageOk, Safe;
  }

  lemma PostBeginsWrite(c: Client, m: Message)
    requires ClientOk(c) && MessageOk(m) && c.inFlight == [] && !Mute(c)
    ensures Safe(c) && Enabled(c, Posted(m))
    ensures var d := Step(c, Posted(m));
      ClientOk(d) && d.sent == c.sent && d.inFlight != [] && d.inFlight[0].begunOpen && !d.refused
  {
  }

  lemma OpenWrites(c: Client)
    requires ClientOk(c) && c.socketOpen && c.inFlight != []
    ensures c.inFlight[0].begunOpen
  {
  }

  /** A client that is not mute can send something: what it is sending, or else the next message. */
  lemma NotMuteMaySend(c: Client, m: Message)
    requires ClientOk(c) && MessageOk(m) && !Mute(c)
    ensures MaySend(c, if c.inFlight == [] then [Posted(m), WriteDone(true)] else [WriteDone(true)])
  {
    var e := WriteDone(true);
    hide IsRun, Final;
    if c.inFlight == [] {
      PostBeginsWrite(c, m);
      hide ClientOk, Step, Safe, Mute, Enabled;
      var d := Step(c, Posted(m));
      WriteSendsFront(d);
      RunNothing(Step(d, e));
      RunCons(d, e, []);
      assert [e] + [] == [e] && [Posted(m)] + [e] == [Posted(m), e];
      RunCons(c, Posted(m), [e]);
    } else {
      hide ClientOk, Step, Safe, Enabled;
      WriteSendsFront(c);
      RunNothing(Step(c, e));
      RunCons(c, e, []);
      assert [e] + [] == [e];
    }
  }

  /** Exactly when nothing more is sent, whatever happens. */
  lemma MuteExactly(c: Client)
    requires ClientOk(c)
    ensures Mute(c) <==> forall es :: !MaySend(c, es)
  {
    hide ClientOk, Mute, MessageOk, IsRun, Final;
    if Mute(c) {
      forall es ensures !MaySend(c, es) {
        if IsRun(c, es) {
          MuteForever(c, es);
        }
      }
    } else {
      assert MessageOk(c.readMsg) by { OkIsSafe(c); }
      NotMuteMaySend(c, c.readMsg);
    }
  }

  /** The client sends one burst: once its queue has run empty nothing accepted later is sent. */
  lemma OneBurst(c: Client, es: seq<Event>)
    requires ClientOk(c) && IsRun(c, es) && c.sent != [] && c.queue == []
    ensures Final(c, es).sent == c.accepted
  {
    assert Mute(c) && c.sent + [] == c.sent;
    MuteForever(c, es);
  }

  /** A failed write changes nothing but that it is no longer outstanding: neither the queue, nor
      the socket, nor the reader. */
  lemma FailedWriteOnlyEnds(c: Client)
    requires Safe(c) && Enabled(c, WriteDone(false))
    ensures var d := Step(c, WriteDone(false)); d.inFlight == c.inFlight[1..] && d.(inFlight := c.inFlight) == c
  {
  }

  /** After a failed write nothing is ever sent again. */
  lemma FailureIsFinal(c: Client, es: seq<Event>)
    requires ClientOk(c) && Enabled(c, WriteDone(false)) && Safe(c) && IsRun(Step(c, WriteDone(false)), es)
    ensures Final(Step(c, WriteDone(false)), es).sent == c.sent
  {
    StepKeepsOk(c, WriteDone(false));
    MuteForever(Step(c, WriteDone(false)), es);
  }

  /** A client whose connect failed never sends anything. */
  lemma RefusedIsFinal(readMsg: Message, es: seq<Event>)
    requires MessageOk(readMsg) && IsRun(Initial(readMsg), [Connected(false)] + es)
    ensures Final(Initial(readMsg), [Connected(false)] + es).sent == []
  {
    var c, e := Initial(readMsg), Connected(false);
    InitialIsOk(readMsg);
    StepKeepsOk(c, e);
    assert ([e] + es)[0] == e && ([e] + es)[1..] == es;
    MuteForever(Step(c, e), es);
  }

  /** The handlers of one message that is posted, sent and followed by another. */
  lemma TwoMessages(c: Client, m: Message, m': Message)
    requires ClientOk(c) && c.connecting && c.socketOpen && !c.refused
    requires c.queue == [] && c.inFlight == [] && c.sent == []
    requires MessageOk(m) && MessageOk(m')
    ensures Safe(c) && Enabled(c, Connected(true))
    ensures var c1 := Step(c, Connected(true));
      && Safe(c1) && Enabled(c1, Posted(m))
      && var c2 := Step(c1, Posted(m));
      && Safe(c2) && Enabled(c2, WriteDone(true))
      && var c3 := Step(c2, WriteDone(true));
      && Safe(c3) && Enabled(c3, Posted(m'))
      && var c4 := Step(c3, Posted(m'));
      c4.accepted == c.accepted + [m, m'] && c4.sent == [m] && Mute(c4)
  {
  }

  /** One burst, on a concrete run: what is posted after the first message was sent is accepted and
      never sent, although nothing failed. */
  lemma SecondMessageIsNeverSent(readMsg: Message, m: Message, m': Message, es: seq<Event>)
    requires MessageOk(readMsg) && MessageOk(m) && MessageOk(m')
    ensures var c, run := Initial(readMsg), [Connected(true), Posted(m), WriteDone(true), Posted(m')];
      && IsRun(c, run) && Final(c, run).accepted == [m, m']
      && (IsRun(Final(c, run), es) ==> Final(Final(c, run), es).sent == [m])
  {
    var c, e1, e2, e3, e4 := Initial(readMsg), Connected(true), Posted(m), WriteDone(true), Posted(m');
    InitialIsOk(readMsg);
    TwoMessages(c, m, m');
    hide Step, Enabled, Safe, ClientOk, Mute, IsRun, Final, MessageOk;
    RunNothing(c);
    RunExtends(c, [], e1);
    RunExtends(c, [e1], e2);
    RunExtends(c, [e1, e2], e3);
    RunExtends(c, [e1, e2, e3], e4);
    assert [] + [e1] == [e1] && [e1] + [e2] == [e1, e2] && [e1, e2] + [e3] == [e1, e2, e3];
    var run := [e1, e2, e3] + [e4];
    assert run == [e1, e2, e3, e4];
    RunKeepsOk(c, run);
    if IsRun(Final(c, run), es) {
      MuteForever(Final(c, run), es);
    }
  }

  function Writes(n: nat): seq<Event> {
    if n == 0 then [] else [WriteDone(true)] + Writes(n - 1)
  }

  lemma TakeFront(sent: seq<Message>, queue: seq<Message>, k: nat)
    requires 1 <= k <= |queue|
    ensures queue[1..][k - 1..] == queue[k..] && sent + [queue[0]] + queue[1..][..k - 1] == sent + queue[..k]
  {
  }

  /** With nothing new and no error, a client on an open socket has sent its whole queue after as
      many completions as there are messages in it, and closes the socket then and not before. */
  lemma {:induction false} QueueDrains(c: Client, k: nat)
    requires ClientOk(c) && c.socketOpen && !c.refused && c.inFlight != [] && 0 < k <= |c.queue|
    ensures IsRun(c, Writes(k))
    ensures var d, drained := Final(c, Writes(k)), k == |c.queue|;
      && d.queue == c.queue[k..] && d.sent == c.sent + c.queue[..k]
      && d.socketOpen == !drained && (drained ==> d.socketClosed && d.inFlight == [])
    decreases k
  {
    var e := WriteDone(true);
    OpenWrites(c);
    hide ClientOk, Safe, Enabled, Step, IsRun, Final;
    WriteSendsFront(c);
    var d := Step(c, e);
    if k > 1 {
      QueueDrains(d, k - 1);
      RunCons(c, e, Writes(k - 1));
      TakeFront(c.sent, c.queue, k);
    } else {
      RunNothing(d);
      RunCons(c, e, []);
      assert Writes(1) == [e] + [] && c.queue[..1] == [c.queue[0]];
    }
  }
}
