/** The chat room as an event system: joins with replay, broadcasts, and one write pump per
    session.  Completion handlers run one at a time, each pending operation completing once. */
module ChatProtocol {
  import opened ChatMessages

  datatype Reading = Header | Body | Ended

  /** A session.  `inFlight` holds the messages of its outstanding writes; the last two lines are its
      history: the messages whose writes completed, how long the room's log was when it joined and
      when it left, the bytes it received and the bodies it delivered. */
  datatype Session = Session(
    inRoom: bool, queue: seq<Message>, inFlight: seq<Message>, reading: Reading, readMsg: Message,
    sent: seq<Message>, joinedAt: nat, leftAt: nat,
    received: string, delivered: seq<string>)

  /** The room, the accepts that are pending, and the log of every message ever delivered, with the
      session that delivered it. */
  datatype Room = Room(
    recent: seq<Message>, sessions: seq<Session>, accepts: nat, log: seq<Message>, authors: seq<nat>)

  /** A newcomer's read buffer holds whatever was there.  A read that fails may have received some
      bytes. */
  datatype Event =
    | Joined(buffer: Message)
    | AcceptFailed
    | HeaderRead(id: nat, bytes: string, ok: bool)
    | BodyRead(id: nat, bytes: string)
    | BodyFailed(id: nat, bytes: string)
    | WriteOk(id: nat)
    | WriteFailed(id: nat)

  const MAX_RECENT := 100

  function BeginWrite(s: Session): Session
    requires s.queue != []
  {
    s.(inFlight := s.inFlight + [s.queue[0]])
  }

  function DeliverTo(s: Session, m: Message): Session {
    var pushed := s.(queue := s.queue + [m]);
    if s.queue == [] then BeginWrite(pushed) else pushed
  }

  function DeliverAll(s: Session, ms: seq<Message>): Session
    decreases |ms|
  {
    if ms == [] then s else DeliverAll(DeliverTo(s, ms[0]), ms[1..])
  }

  function Trim(recent: seq<Message>): seq<Message> {
    if |recent| > MAX_RECENT then Trim(recent[1..]) else recent
  }

  function Constructed(buffer: Message, now: nat): Session {
    Session(false, [], [], Ended, buffer, [], now, now, "", [])
  }

  function Newcomer(r: Room, buffer: Message): Session {
    DeliverAll(Constructed(buffer, |r.log|).(inRoom := true, reading := Header), r.recent)
  }

  function IfInRoom(s: Session, m: Message): Session {
    if s.inRoom then DeliverTo(s, m) else s
  }

  function Broadcast(ss: seq<Session>, m: Message): seq<Session> {
    seq(|ss|, i requires 0 <= i < |ss| => IfInRoom(ss[i], m))
  }

  function Deliver(r: Room, m: Message): Room {
    r.(recent := Trim(r.recent + [m]), sessions := Broadcast(r.sessions, m), log := r.log + [m])
  }

  function Leave(s: Session, now: nat): Session {
    if s.inRoom then s.(inRoom := false, leftAt := now) else s
  }

  /** A completed write: its message is popped and the next one begun. */
  function WriteDone(s: Session): Session
    requires s.inFlight != [] && s.queue != []
  {
    var t := s.(sent := s.sent + [s.inFlight[0]], inFlight := s.inFlight[1..], queue := s.queue[1..]);
    if t.queue != [] then BeginWrite(t) else t
  }

  function Receive(s: Session, at: nat, bytes: string): Session
    requires at + |bytes| <= |s.readMsg.data|
  {
    s.(readMsg := Filled(s.readMsg, at, bytes), received := s.received + bytes)
  }

  function OnHeader(s: Session, now: nat, bytes: string, ok: bool): Session
    requires MessageOk(s.readMsg) && |bytes| <= HEADER_LENGTH
  {
    var d := Receive(s, 0, bytes);
    if !ok then Leave(d.(reading := Ended), now)
    else
      var e := d.(readMsg := HeaderDecoded(d.readMsg));
      if DecodeLength(d.readMsg.data[..HEADER_LENGTH]).Some? then e.(reading := Body)
      else Leave(e.(reading := Ended), now)
  }

  /** The body read asks for as many bytes as the whole message has, header included. */
  function BodyWanted(s: Session): nat {
    s.readMsg.bodyLength + SERVER_EXTRA
  }

  /** Bytes of a body read stay inside the buffer. */
  predicate Inside(s: Session, bytes: string) {
    HEADER_LENGTH + |bytes| <= |s.readMsg.data|
  }

  /** The body has been received; the message in the buffer is then delivered and the next header
      read, which touch different fields. */
  function OnBody(s: Session, bytes: string): Session
    requires MessageOk(s.readMsg) && Inside(s, bytes)
  {
    var d := Receive(s, HEADER_LENGTH, bytes);
    d.(delivered := d.delivered + [ChatMessages.Body(d.readMsg)], reading := Header)
  }

  /** What an event that delivers nothing does to the session it belongs to. */
  function SessionStep(s: Session, now: nat, e: Event): Session
    requires MessageOk(s.readMsg) && !e.BodyRead?
    requires e.HeaderRead? ==> |e.bytes| <= HEADER_LENGTH
    requires e.BodyFailed? ==> Inside(s, e.bytes)
    requires e.WriteOk? ==> s.inFlight != [] && s.queue != []
    requires e.WriteFailed? ==> s.inFlight != []
  {
    match e
    case HeaderRead(_, bytes, ok) => OnHeader(s, now, bytes, ok)
    case BodyFailed(_, bytes) => Leave(Receive(s, HEADER_LENGTH, bytes).(reading := Ended), now)
    case WriteOk(_) => WriteDone(s)
    case WriteFailed(_) => Leave(s.(inFlight := s.inFlight[1..]), now)
    case _ => s
  }

  /** A body read that would leave the buffer has no defined outcome and is no event. */
  predicate MayHappen(s: Session, e: Event) {
    match e
    case HeaderRead(_, bytes, ok) =>
      s.reading == Header && if ok then |bytes| == HEADER_LENGTH else |bytes| < HEADER_LENGTH
    case BodyRead(_, bytes) => s.reading == Body && |bytes| == BodyWanted(s) && Inside(s, bytes)
    case BodyFailed(_, bytes) => s.reading == Body && |bytes| < BodyWanted(s) && Inside(s, bytes)
    case WriteOk(_) => s.inFlight != []
    case WriteFailed(_) => s.inFlight != []
    case _ => false
  }

  predicate Enabled(r: Room, e: Event) {
    match e
    case Joined(buffer) => r.accepts > 0 && MessageOk(buffer)
    case AcceptFailed => r.accepts > 0
    case _ => e.id < |r.sessions| && MayHappen(r.sessions[e.id], e)
  }

  /** What the handlers rely on: a front to pop, and a buffer of the right size. */
  predicate SessionSafe(s: Session) {
    (s.inFlight != [] ==> s.queue != []) && MessageOk(s.readMsg)
  }

  predicate Safe(r: Room) {
    forall i :: 0 <= i < |r.sessions| ==> SessionSafe(r.sessions[i])
  }

  /** A completed body read fills the buffer and delivers the message in it to everyone. */
  function ReadAndDeliver(r: Room, id: nat, bytes: string): Room
    requires id < |r.sessions| && MessageOk(r.sessions[id].readMsg) && Inside(r.sessions[id], bytes)
  {
    var s := OnBody(r.sessions[id], bytes);
    Deliver(r.(sessions := r.sessions[id := s], authors := r.authors + [id]), s.readMsg)
  }

  /** The handler of an accept begins the next one, whether it succeeded or not. */
  function Rearmed(r: Room): Room
    requires r.accepts > 0
  {
    var completed := r.(accepts := r.accepts - 1);
    completed.(accepts := completed.accepts + 1)
  }

  function Step(r: Room, e: Event): Room
    requires Enabled(r, e) && Safe(r)
  {
    match e
    case Joined(buffer) => Rearmed(r.(sessions := r.sessions + [Newcomer(r, buffer)]))
    case AcceptFailed => Rearmed(r)
    case BodyRead(id, bytes) =>
      assert SessionSafe(r.sessions[id]);
      ReadAndDeliver(r, id, bytes)
    case _ =>
      assert SessionSafe(r.sessions[e.id]);
      r.(sessions := r.sessions[e.id := SessionStep(r.sessions[e.id], |r.log|, e)])
  }

  // ---- the invariant

  /** Where the replay of a session that joined at n begins. */
  function Start(n: nat): nat {
    if n <= MAX_RECENT then 0 else n - MAX_RECENT
  }

  function End(r: Room, s: Session): nat {
    if s.inRoom then |r.log| else s.leftAt
  }

  /** The write pump: at most one outstanding write, of the unchanged front of the queue; a session
      in the room with something to send is sending. */
  predicate PumpOk(s: Session) {
    && |s.inFlight| <= 1
    && (s.inFlight != [] ==> s.queue != [] && s.inFlight[0] == s.queue[0])
    && (s.inRoom && s.queue != [] ==> s.inFlight != [])
  }

  /** What was sent and what is queued are together one stretch of the log: no gap, no duplicate,
      no reordering. */
  predicate StreamOk(r: Room, s: Session) {
    && s.joinedAt <= End(r, s) <= |r.log|
    && s.sent + s.queue == r.log[Start(s.joinedAt)..End(r, s)]
  }

  /** The bodies delivered are what the bytes received decode to, with four bytes after each body;
      while a body is awaited the buffer holds the header that was received. */
  predicate ReaderOk(s: Session) {
    && MessageOk(s.readMsg)
    && match s.reading {
         case Header => AtHeader(s.received, s.delivered, SERVER_EXTRA)
         case Body =>
           && Decodable(s.readMsg) && AtBody(s.received, s.delivered, s.readMsg.bodyLength, SERVER_EXTRA)
           && s.readMsg.data[..HEADER_LENGTH] == s.received[|s.received| - HEADER_LENGTH..]
         case Ended => ReadFrames(s.received, SERVER_EXTRA).bodies == s.delivered
       }
  }

  predicate SessionOk(r: Room, s: Session) {
    PumpOk(s) && StreamOk(r, s) && ReaderOk(s)
  }

  predicate RoomOk(r: Room) {
    && r.recent == r.log[Start(|r.log|)..]
    && (forall i :: 0 <= i < |r.sessions| ==> SessionOk(r, r.sessions[i]))
    && AllDecodable(r.log)
    && r.accepts == 1
  }

  lemma OkIsSafe(r: Room)
    requires RoomOk(r)
    ensures Safe(r)
  {
  }

  lemma DeliverKeepsPump(s: Session, m: Message)
    requires PumpOk(s) && s.inRoom
    ensures PumpOk(DeliverTo(s, m))
    ensures DeliverTo(s, m) == s.(queue := s.queue + [m], inFlight := DeliverTo(s, m).inFlight)
  {
  }

  lemma {:induction false} DeliverAllKeepsPump(s: Session, ms: seq<Message>)
    requires PumpOk(s) && s.inRoom
    ensures PumpOk(DeliverAll(s, ms))
    ensures DeliverAll(s, ms) == s.(queue := s.queue + ms, inFlight := DeliverAll(s, ms).inFlight)
    decreases |ms|
  {
    hide PumpOk, DeliverTo;
    if ms == [] {
      assert s.queue + ms == s.queue;
    } else {
      DeliverKeepsPump(s, ms[0]);
      DeliverAllKeepsPump(DeliverTo(s, ms[0]), ms[1..]);
      assert s.queue + [ms[0]] + ms[1..] == s.queue + ms;
    }
  }

  lemma TrimKeepsWindow(log: seq<Message>, m: Message)
    ensures Trim(log[Start(|log|)..] + [m]) == (log + [m])[Start(|log| + 1)..]
  {
  }

  lemma NewcomerIsOk(r: Room, buffer: Message)
    requires RoomOk(r) && MessageOk(buffer)
    ensures SessionOk(r, Newcomer(r, buffer)) && Newcomer(r, buffer).sent == []
  {
    var s := Constructed(buffer, |r.log|).(inRoom := true, reading := Header);
    AtStart(SERVER_EXTRA);
    hide AtHeader, AllDecodable, MessageOk, DeliverAll;
    DeliverAllKeepsPump(s, r.recent);
    assert [] + r.recent == r.recent && r.log[Start(|r.log|)..] == r.log[Start(|r.log|)..|r.log|];
  }

  lemma BroadcastKeepsStream(r: Room, s: Session, m: Message)
    requires SessionOk(r, s)
    ensures SessionOk(Deliver(r, m), IfInRoom(s, m))
  {
    var log, start := r.log + [m], Start(s.joinedAt);
    hide Trim, Broadcast, PumpOk, Decodable, ReadFrames, AtHeader, AtBody;
    if s.inRoom {
      DeliverKeepsPump(s, m);
      assert log[start..|log|] == r.log[start..|r.log|] + [m];
      assert s.sent + (s.queue + [m]) == s.sent + s.queue + [m];
    } else {
      assert log[start..s.leftAt] == r.log[start..s.leftAt];
    }
  }

  lemma DeliverKeepsOk(r: Room, m: Message)
    requires RoomOk(r) && Decodable(m)
    ensures RoomOk(Deliver(r, m))
  {
    hide SessionOk, IfInRoom, Decodable;
    TrimKeepsWindow(r.log, m);
    forall i | 0 <= i < |r.sessions| ensures SessionOk(Deliver(r, m), Deliver(r, m).sessions[i]) {
      BroadcastKeepsStream(r, r.sessions[i], m);
    }
  }

  lemma WriteKeepsOk(r: Room, s: Session, ok: bool)
    requires SessionOk(r, s) && s.inFlight != []
    ensures s.queue != []
    ensures SessionOk(r, if ok then WriteDone(s) else Leave(s.(inFlight := s.inFlight[1..]), |r.log|))
  {
  }

  lemma LeaveKeepsOk(r: Room, s: Session)
    requires SessionOk(r, s)
    ensures SessionOk(r, Leave(s, |r.log|))
  {
  }

  /** What the reader does leaves pump and stream as they were. */
  lemma ReaderOnly(r: Room, s: Session, t: Session)
    requires SessionOk(r, s) && ReaderOk(t)
    requires t == s.(readMsg := t.readMsg, reading := t.reading, received := t.received, delivered := t.delivered)
    ensures SessionOk(r, t)
  {
    hide ReaderOk;
  }

  lemma GoodHeaderKeepsReader(s: Session, bytes: string)
    requires ReaderOk(s) && s.reading == Header && |bytes| == HEADER_LENGTH && DecodeLength(bytes).Some?
    ensures var m := HeaderDecoded(Filled(s.readMsg, 0, bytes));
      ReaderOk(s.(readMsg := m, received := s.received + bytes, reading := Body))
  {
    var m := Filled(s.readMsg, 0, bytes);
    FilledIsOk(s.readMsg, 0, bytes);
    assert m.data[..HEADER_LENGTH] == bytes;
    hide ReadFrames, AtHeader, AtBody, DecodeLength, Filled, HeaderDecoded, MessageOk, Decodable;
    HeaderDecodedIsOk(m);
    assert (s.received + bytes)[|s.received|..] == bytes;
    HeaderArrives(s.received, s.delivered, bytes, DecodeLength(bytes).value, SERVER_EXTRA);
  }

  lemma HeaderKeepsOk(r: Room, s: Session, bytes: string, ok: bool)
    requires SessionOk(r, s) && MayHappen(s, HeaderRead(0, bytes, ok))
    ensures SessionOk(r, OnHeader(s, |r.log|, bytes, ok))
  {
    var m := Filled(s.readMsg, 0, bytes);
    FilledIsOk(s.readMsg, 0, bytes);
    HeaderDecodedIsOk(m);
    assert ok ==> m.data[..HEADER_LENGTH] == bytes;
    hide StreamOk, PumpOk, ReadFrames, AtHeader, AtBody, DecodeLength, Filled, HeaderDecoded;
    var t := s.(readMsg := if ok then HeaderDecoded(m) else m, received := s.received + bytes, reading := Ended);
    if ok && DecodeLength(bytes).Some? {
      GoodHeaderKeepsReader(s, bytes);
      ReaderOnly(r, s, t.(reading := Body));
    } else {
      HeaderFails(s.received, s.delivered, bytes, SERVER_EXTRA);
      ReaderOnly(r, s, t);
      LeaveKeepsOk(r, t);
    }
  }

  lemma BodyKeepsReader(s: Session, bytes: string)
    requires ReaderOk(s) && MayHappen(s, BodyRead(0, bytes))
    ensures ReaderOk(OnBody(s, bytes)) && Decodable(OnBody(s, bytes).readMsg)
  {
    hide DecodeLength, ReadFrames, AtHeader, AtBody, Filled, Decodable, ChatMessages.Body;
    FilledBody(s.readMsg, bytes);
    BodyArrives(s.received, s.delivered, s.readMsg.bodyLength, bytes, SERVER_EXTRA);
  }

  lemma BodyFailureKeepsOk(r: Room, s: Session, bytes: string)
    requires SessionOk(r, s) && MayHappen(s, BodyFailed(0, bytes))
    ensures SessionOk(r, Leave(Receive(s, HEADER_LENGTH, bytes).(reading := Ended), |r.log|))
  {
    var t := Receive(s, HEADER_LENGTH, bytes).(reading := Ended);
    FilledIsOk(s.readMsg, HEADER_LENGTH, bytes);
    hide StreamOk, PumpOk, ReadFrames, AtHeader, AtBody, Decodable, Filled;
    BodyFails(s.received, s.delivered, s.readMsg.bodyLength, bytes, SERVER_EXTRA);
    ReaderOnly(r, s, t);
    LeaveKeepsOk(r, t);
  }

  lemma SessionStepKeepsOk(r: Room, s: Session, e: Event)
    requires SessionOk(r, s) && MayHappen(s, e) && !e.BodyRead?
    ensures e.WriteOk? ==> s.queue != []
    ensures SessionOk(r, SessionStep(s, |r.log|, e))
  {
    assert MessageOk(s.readMsg);
    hide SessionOk, OnHeader, Leave, WriteDone, Filled, Decodable;
    match e {
      case HeaderRead(_, bytes, ok) => HeaderKeepsOk(r, s, bytes, ok);
      case BodyFailed(_, bytes) => BodyFailureKeepsOk(r, s, bytes);
      case WriteOk(_) => WriteKeepsOk(r, s, true);
      case WriteFailed(_) => WriteKeepsOk(r, s, false);
    }
  }

  lemma SessionAt(r: Room, i: nat)
    requires RoomOk(r) && i < |r.sessions|
    ensures SessionOk(r, r.sessions[i])
  {
  }

  lemma OneSession(r: Room, i: nat, s: Session)
    requires RoomOk(r) && SessionOk(r, s)
    ensures RoomOk(r.(sessions := r.sessions + [s]))
    ensures i < |r.sessions| ==> RoomOk(r.(sessions := r.sessions[i := s]))
  {
    hide SessionOk;
    SessionsOnly(r, r.sessions + [s]);
    if i < |r.sessions| {
      SessionsOnly(r, r.sessions[i := s]);
    }
  }

  lemma StepKeepsOk(r: Room, e: Event)
    requires RoomOk(r) && Enabled(r, e)
    ensures Safe(r) && RoomOk(Step(r, e))
  {
    OkIsSafe(r);
    hide RoomOk, SessionOk, MayHappen, SessionStep, Newcomer, Safe, SessionSafe, ReadAndDeliver;
    match e {
      case Joined(buffer) =>
        NewcomerIsOk(r, buffer);
        OneSession(r, 0, Newcomer(r, buffer));
      case AcceptFailed =>
      case BodyRead(id, bytes) => BodyReadKeepsOk(r, id, bytes);
      case _ =>
        SessionAt(r, e.id);
        SessionStepKeepsOk(r, r.sessions[e.id], e);
        OneSession(r, e.id, SessionStep(r.sessions[e.id], |r.log|, e));
    }
  }

  lemma SessionsOnly(r: Room, ss: seq<Session>)
    requires RoomOk(r)
    requires forall i :: 0 <= i < |ss| ==> SessionOk(r, ss[i])
    ensures RoomOk(r.(sessions := ss))
  {
  }

  lemma BodyReadKeepsOk(r: Room, id: nat, bytes: string)
    requires RoomOk(r) && id < |r.sessions| && MayHappen(r.sessions[id], BodyRead(id, bytes))
    ensures SessionSafe(r.sessions[id]) && RoomOk(ReadAndDeliver(r, id, bytes))
  {
    OkIsSafe(r);
    var s := r.sessions[id];
    assert SessionOk(r, s);
    var t := OnBody(s, bytes);
    BodyKeepsReader(s, bytes);
    ReaderOnly(r, s, t);
    hide SessionOk, Filled, Decodable, Deliver;
    SessionsOnly(r, r.sessions[id := t]);
    DeliverKeepsOk(r.(sessions := r.sessions[id := t]), t.readMsg);
  }

  // ---- runs

  const EMPTY := Room([], [], 1, [], [])

  predicate IsRun(r: Room, es: seq<Event>)
    decreases |es|
  {
    Safe(r) && (es == [] || (Enabled(r, es[0]) && IsRun(Step(r, es[0]), es[1..])))
  }

  function Final(r: Room, es: seq<Event>): Room
    requires IsRun(r, es)
    decreases |es|
  {
    if es == [] then r else Final(Step(r, es[0]), es[1..])
  }

  lemma {:induction false} RunKeepsOk(r: Room, es: seq<Event>)
    requires RoomOk(r) && IsRun(r, es)
    ensures RoomOk(Final(r, es))
    decreases |es|
  {
    hide RoomOk, Step, Enabled, Safe;
    if es != [] {
      StepKeepsOk(r, es[0]);
      RunKeepsOk(Step(r, es[0]), es[1..]);
    }
  }

  /** No handler ever finds an empty queue to pop: whatever is enabled after a run extends it. */
  lemma {:induction false} RunExtends(r: Room, es: seq<Event>, e: Event)
    requires RoomOk(r) && IsRun(r, es) && Enabled(Final(r, es), e)
    ensures Safe(Final(r, es)) && IsRun(r, es + [e]) && Final(r, es + [e]) == Step(Final(r, es), e)
    decreases |es|
  {
    OkIsSafe(r);
    hide RoomOk, Step, Enabled, Safe;
    if es == [] {
      StepKeepsOk(r, e);
      OkIsSafe(Step(r, e));
      assert ([] + [e])[1..] == [];
    } else {
      StepKeepsOk(r, es[0]);
      RunExtends(Step(r, es[0]), es[1..], e);
      assert (es + [e])[1..] == es[1..] + [e];
    }
  }

  /** Exact delivery, in every reachable state: the write pump of each session is in order; what it
      has sent followed by what it has queued is the log from 100 messages before it joined up to
      now, or up to when it left; and the room remembers exactly the last 100 messages. */
  lemma DeliveryIsExact(es: seq<Event>, i: nat)
    requires IsRun(EMPTY, es) && i < |Final(EMPTY, es).sessions|
    ensures var r := Final(EMPTY, es);
      && PumpOk(r.sessions[i]) && StreamOk(r, r.sessions[i]) && r.recent == r.log[Start(|r.log|)..]
      && Start(r.sessions[i].joinedAt) == (if r.sessions[i].joinedAt <= 100 then 0 else r.sessions[i].joinedAt - 100)
      && |r.recent| == if |r.log| <= 100 then |r.log| else 100
  {
    RunKeepsOk(EMPTY, es);
    hide IsRun, Final;
    assert SessionOk(Final(EMPTY, es), Final(EMPTY, es).sessions[i]);
  }

  /** Of two sessions in the room, the later one's stream is the end of the earlier one's. */
  lemma ParticipantsAgree(r: Room, i: nat, j: nat)
    requires RoomOk(r) && i < |r.sessions| && j < |r.sessions|
    requires r.sessions[i].inRoom && r.sessions[j].inRoom && r.sessions[i].joinedAt <= r.sessions[j].joinedAt
    ensures var a, b := r.sessions[i].sent + r.sessions[i].queue, r.sessions[j].sent + r.sessions[j].queue;
      |b| <= |a| && a[|a| - |b|..] == b
  {
  }

  /** The trim loop drops at most one message a delivery. */
  lemma TrimDropsOne(recent: seq<Message>, m: Message)
    requires |recent| <= 100
    ensures Trim(recent + [m]) == if |recent| == 100 then (recent + [m])[1..] else recent + [m]
  {
  }

  /** A client that reads the bytes of the completed writes gets the bodies of that stretch of the log. */
  lemma ClientSeesLog(es: seq<Event>, i: nat)
    requires IsRun(EMPTY, es) && i < |Final(EMPTY, es).sessions|
    ensures var r := Final(EMPTY, es);
      var s := r.sessions[i];
      var start := Start(s.joinedAt);
      && start + |s.sent| <= |r.log| && s.sent == r.log[start..start + |s.sent|]
      && AllDecodable(s.sent)
      && ReadFrames(Frames(s.sent), CLIENT_EXTRA) == Progress(Bodies(s.sent), AwaitHeader, "")
  {
    RunKeepsOk(EMPTY, es);
    hide IsRun, Final;
    SentIsReadable(Final(EMPTY, es), Final(EMPTY, es).sessions[i]);
  }

  lemma SentIsSlice(r: Room, s: Session)
    requires StreamOk(r, s)
    ensures var start := Start(s.joinedAt);
      start + |s.sent| <= |r.log| && s.sent == r.log[start..start + |s.sent|]
  {
    assert s.sent == (s.sent + s.queue)[..|s.sent|];
  }

  lemma SliceIsDecodable(log: seq<Message>, from: nat, to: nat)
    requires AllDecodable(log) && from <= to <= |log|
    ensures AllDecodable(log[from..to])
  {
    hide Decodable;
    forall k | 0 <= k < to - from ensures Decodable(log[from..to][k]) {
      assert log[from..to][k] == log[from + k];
    }
  }

  lemma SentIsReadable(r: Room, s: Session)
    requires RoomOk(r) && s in r.sessions
    ensures var start := Start(s.joinedAt);
      && start + |s.sent| <= |r.log| && s.sent == r.log[start..start + |s.sent|]
      && AllDecodable(s.sent)
      && ReadFrames(Frames(s.sent), CLIENT_EXTRA) == Progress(Bodies(s.sent), AwaitHeader, "")
  {
    assert SessionOk(r, s);
    hide PumpOk, ReaderOk, StreamOk, AllDecodable, Frames, ReadFrames, Bodies;
    SentIsSlice(r, s);
    SliceIsDecodable(r.log, Start(s.joinedAt), Start(s.joinedAt) + |s.sent|);
    ClientReadsExactly(s.sent);
  }
}
