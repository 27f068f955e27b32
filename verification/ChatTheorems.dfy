/** What the room and its sessions do over whole runs: who is in the room, who said what, how a
    session reads, and when it sends. */
module ChatTheorems {
  import opened CText
  import opened ChatMessages
  import opened ChatProtocol

  // ---- what the events cover

  /** Every pending operation may succeed, with any bytes, and may fail. */
  lemma EveryOutcomeMayHappen(r: Room, i: nat, header: string, part: string, buffer: Message)
    requires RoomOk(r) && i < |r.sessions| && |header| == 4 && |part| < 4 && MessageOk(buffer)
    ensures Enabled(r, Joined(buffer)) && Enabled(r, AcceptFailed)
    ensures r.sessions[i].reading == Header ==>
      Enabled(r, HeaderRead(i, header, true)) && Enabled(r, HeaderRead(i, part, false))
    ensures r.sessions[i].reading == Body ==> Enabled(r, BodyFailed(i, part))
    ensures r.sessions[i].inFlight != [] ==> Enabled(r, WriteOk(i)) && Enabled(r, WriteFailed(i))
  {
    SessionAt(r, i);
    hide AtHeader, AtBody, ReadFrames, DecodeLength;
  }

  // ---- who is in the room

  /** The failures that make a session leave: of a read, or a refused header, or of a write. */
  predicate IsFailureOf(e: Event, i: nat) {
    match e
    case HeaderRead(id, bytes, ok) => id == i && (!ok || DecodeLength(bytes).None?)
    case BodyFailed(id, _) => id == i
    case WriteFailed(id) => id == i
    case _ => false
  }

  /** A session is in the room from its join on until its own first failure. */
  lemma LeavesOnFailure(r: Room, e: Event, i: nat)
    requires Safe(r) && Enabled(r, e) && i < |r.sessions|
    ensures i < |Step(r, e).sessions|
    ensures Step(r, e).sessions[i].inRoom <==> r.sessions[i].inRoom && !IsFailureOf(e, i)
  {
    hide DecodeLength;
    SafeAt(r, i);
    if e.HeaderRead? && e.id == i && e.ok {
      assert Filled(r.sessions[i].readMsg, 0, e.bytes).data[..HEADER_LENGTH] == e.bytes;
    }
  }

  predicate EndedHaveLeft(r: Room) {
    forall i :: 0 <= i < |r.sessions| ==> HasLeftIfEnded(r.sessions[i])
  }

  predicate HasLeftIfEnded(s: Session) {
    s.reading == Ended ==> !s.inRoom
  }

  lemma SessionKeepsEnded(s: Session, now: nat, e: Event)
    requires HasLeftIfEnded(s) && SessionSafe(s) && MayHappen(s, e)
    ensures if e.BodyRead? then HasLeftIfEnded(OnBody(s, e.bytes)) else HasLeftIfEnded(SessionStep(s, now, e))
  {
    hide DecodeLength, Filled, HeaderDecoded, ChatMessages.Body;
  }

  lemma BroadcastKeepsEnded(s: Session, m: Message)
    requires HasLeftIfEnded(s)
    ensures HasLeftIfEnded(IfInRoom(s, m))
  {
  }

  lemma StepKeepsEnded(r: Room, e: Event)
    requires RoomOk(r) && EndedHaveLeft(r) && Enabled(r, e)
    ensures Safe(r) && EndedHaveLeft(Step(r, e))
  {
    OkIsSafe(r);
    var d := Step(r, e);
    if e.Joined? {
      NewcomerAwaitsHeader(r, e.buffer);
    } else if !e.AcceptFailed? {
      SafeAt(r, e.id);
      SessionKeepsEnded(r.sessions[e.id], |r.log|, e);
    }
    hide RoomOk, Safe, SessionStep, OnBody, IfInRoom, HasLeftIfEnded, SessionSafe, MayHappen, Newcomer, Trim;
    forall i | 0 <= i < |d.sessions| ensures HasLeftIfEnded(d.sessions[i]) {
      if e.Joined? {
        assert i < |r.sessions| ==> d.sessions[..|r.sessions|][i] == d.sessions[i];
      } else if e.BodyRead? {
        var t := OnBody(r.sessions[e.id], e.bytes);
        BroadcastKeepsEnded(if i == e.id then t else r.sessions[i], t.readMsg);
      }
    }
  }

  lemma {:induction false} RunKeepsEnded(r: Room, es: seq<Event>)
    requires RoomOk(r) && EndedHaveLeft(r) && IsRun(r, es)
    ensures EndedHaveLeft(Final(r, es))
    decreases |es|
  {
    hide RoomOk, EndedHaveLeft, Step, Enabled, Safe;
    if es != [] {
      StepKeepsEnded(r, es[0]);
      StepKeepsOk(r, es[0]);
      RunKeepsEnded(Step(r, es[0]), es[1..]);
    }
  }

  /** In every reachable state a session in the room has a read outstanding. */
  lemma ParticipantsRead(es: seq<Event>, i: nat)
    requires IsRun(EMPTY, es) && i < |Final(EMPTY, es).sessions|
    ensures var s := Final(EMPTY, es).sessions[i]; s.inRoom ==> s.reading != Ended
  {
    RunKeepsEnded(EMPTY, es);
  }

  // ---- who said what

  lemma BodyIsWhatWasRead(s: Session, bytes: string)
    requires ReaderOk(s) && MayHappen(s, BodyRead(0, bytes))
    ensures |s.received| >= HEADER_LENGTH
    ensures var m := OnBody(s, bytes).readMsg;
      && Decodable(m)
      && m.data[..HEADER_LENGTH] == s.received[|s.received| - HEADER_LENGTH..]
      && m.data[HEADER_LENGTH..HEADER_LENGTH + |bytes|] == bytes
      && m.bodyLength + HEADER_LENGTH == |bytes| && ChatMessages.Body(m) == bytes[..m.bodyLength]
      && OnBody(s, bytes).delivered == s.delivered + [ChatMessages.Body(m)]
  {
    hide AtHeader, ReadFrames, DecodeLength, Decodable, Filled, ChatMessages.Body;
    FilledBody(s.readMsg, bytes);
  }

  /** A completed body read adds to the log the message that was read: the received header, the
      bytes of the read behind it, and the body that they make. */
  lemma MessageIsWhatWasRead(r: Room, id: nat, bytes: string)
    requires RoomOk(r) && Enabled(r, BodyRead(id, bytes))
    ensures Safe(r)
    ensures var s, d := r.sessions[id], Step(r, BodyRead(id, bytes));
      && |d.log| == |r.log| + 1 && d.log[..|r.log|] == r.log && |d.sessions| == |r.sessions|
      && |s.received| >= HEADER_LENGTH
      && var m := d.log[|r.log|];
      && Decodable(m)
      && m.data[..HEADER_LENGTH] == s.received[|s.received| - HEADER_LENGTH..]
      && m.data[HEADER_LENGTH..HEADER_LENGTH + |bytes|] == bytes
      && m.bodyLength + HEADER_LENGTH == |bytes| && ChatMessages.Body(m) == bytes[..m.bodyLength]
      && d.sessions[id].delivered == s.delivered + [ChatMessages.Body(m)]
      && d.authors == r.authors + [id]
  {
    OkIsSafe(r);
    SafeAt(r, id);
    SessionAt(r, id);
    BodyIsWhatWasRead(r.sessions[id], bytes);
    hide RoomOk, Safe, SessionOk, Decodable, Filled, ChatMessages.Body, Trim;
  }

  /** The bodies of what one session delivered. */
  function By(log: seq<Message>, authors: seq<nat>, i: nat): seq<string>
    requires |authors| == |log| && AllDecodable(log)
  {
    if log == [] then []
    else
      var k := |log| - 1;
      By(log[..k], authors[..k], i) + if authors[k] == i then [ChatMessages.Body(log[k])] else []
  }

  /** The log is an interleaving of what the sessions delivered, and of nothing else. */
  predicate AuthorsOk(r: Room)
    requires AllDecodable(r.log)
  {
    && |r.authors| == |r.log|
    && (forall k :: 0 <= k < |r.log| ==> r.authors[k] < |r.sessions|)
    && (forall i :: 0 <= i < |r.sessions| ==> r.sessions[i].delivered == By(r.log, r.authors, i))
  }

  lemma BySnoc(log: seq<Message>, authors: seq<nat>, m: Message, id: nat, i: nat)
    requires |authors| == |log| && AllDecodable(log) && Decodable(m)
    ensures AllDecodable(log + [m])
    ensures By(log + [m], authors + [id], i) == By(log, authors, i) + if id == i then [ChatMessages.Body(m)] else []
  {
    hide Decodable, ChatMessages.Body;
    assert (log + [m])[..|log|] == log && (authors + [id])[..|log|] == authors;
  }

  lemma {:induction false} NobodysBodies(log: seq<Message>, authors: seq<nat>, i: nat)
    requires |authors| == |log| && AllDecodable(log) && forall k :: 0 <= k < |log| ==> authors[k] < i
    ensures By(log, authors, i) == []
    decreases |log|
  {
    hide Decodable;
    if log != [] {
      NobodysBodies(log[..|log| - 1], authors[..|log| - 1], i);
    }
  }

  lemma OthersDeliverNothing(r: Room, e: Event, i: nat)
    requires Safe(r) && Enabled(r, e) && i < |r.sessions| && !(e.BodyRead? && e.id == i)
    ensures i < |Step(r, e).sessions| && Step(r, e).sessions[i].delivered == r.sessions[i].delivered
  {
    hide DecodeLength;
  }

  lemma LogStays(r: Room, e: Event)
    requires Safe(r) && Enabled(r, e) && !e.BodyRead?
    ensures var d := Step(r, e);
      && d.log == r.log && d.authors == r.authors && |r.sessions| <= |d.sessions| <= |r.sessions| + 1
      && (|d.sessions| > |r.sessions| ==> d.sessions[|r.sessions|].delivered == [])
  {
    hide DecodeLength;
    if e.Joined? {
      DeliverAllKeepsPump(Constructed(e.buffer, |r.log|).(inRoom := true, reading := Header), r.recent);
    }
  }

  lemma StepKeepsAuthors(r: Room, e: Event)
    requires RoomOk(r) && AuthorsOk(r) && Enabled(r, e)
    ensures Safe(r) && RoomOk(Step(r, e)) && AuthorsOk(Step(r, e))
  {
    StepKeepsOk(r, e);
    var d, n := Step(r, e), |r.log|;
    assert AllDecodable(d.log);
    if e.BodyRead? {
      MessageIsWhatWasRead(r, e.id, e.bytes);
      assert d.log == r.log + [d.log[n]];
    } else {
      LogStays(r, e);
    }
    hide RoomOk, Step, Enabled, Safe, Decodable, AllDecodable, By, ChatMessages.Body;
    forall i | 0 <= i < |d.sessions| ensures d.sessions[i].delivered == By(d.log, d.authors, i) {
      if i == |r.sessions| {
        NobodysBodies(r.log, r.authors, i);
      } else {
        if e.BodyRead? {
          BySnoc(r.log, r.authors, d.log[n], e.id, i);
        }
        if !(e.BodyRead? && e.id == i) {
          OthersDeliverNothing(r, e, i);
        }
      }
    }
  }

  lemma {:induction false} RunKeepsAuthors(r: Room, es: seq<Event>)
    requires RoomOk(r) && AuthorsOk(r) && IsRun(r, es)
    ensures RoomOk(Final(r, es)) && AuthorsOk(Final(r, es))
    decreases |es|
  {
    hide AuthorsOk, Step, Enabled, Safe;
    if es != [] {
      StepKeepsAuthors(r, es[0]);
      RunKeepsAuthors(Step(r, es[0]), es[1..]);
    }
  }

  /** In every reachable state the log is an interleaving of what the sessions have delivered: every
      entry has one author, and the bodies of one author's entries are, in order, what that session
      has delivered. */
  lemma LogInterleavesDeliveries(es: seq<Event>)
    requires IsRun(EMPTY, es)
    ensures var r := Final(EMPTY, es);
      && AllDecodable(r.log) && |r.authors| == |r.log|
      && (forall k :: 0 <= k < |r.log| ==> r.authors[k] < |r.sessions|)
      && (forall i :: 0 <= i < |r.sessions| ==> By(r.log, r.authors, i) == r.sessions[i].delivered)
  {
    RunKeepsAuthors(EMPTY, es);
    hide Final, IsRun;
  }

  // ---- the first events of a session

  lemma RunNothing(r: Room)
    requires Safe(r)
    ensures IsRun(r, []) && Final(r, []) == r
  {
  }

  lemma NewcomerAwaitsHeader(r: Room, buffer: Message)
    requires RoomOk(r) && MessageOk(buffer)
    ensures var e := Joined(buffer);
      && Safe(r) && Enabled(r, e)
      && var d := Step(r, e);
      && d.sessions[..|r.sessions|] == r.sessions && |d.sessions| == |r.sessions| + 1
      && var s := d.sessions[|r.sessions|];
      s.inRoom && s.reading == Header && s.sent == [] && s.queue == r.recent
  {
    OkIsSafe(r);
    NewcomerIsOk(r, buffer);
    var s := Constructed(buffer, |r.log|).(inRoom := true, reading := Header);
    DeliverAllKeepsPump(s, r.recent);
    assert [] + r.recent == r.recent;
    hide RoomOk, Safe, DeliverAll;
  }

  lemma SafeAt(r: Room, j: nat)
    requires Safe(r) && j < |r.sessions|
    ensures SessionSafe(r.sessions[j]) && MessageOk(r.sessions[j].readMsg)
  {
  }

  lemma LengthIsAwaited(s: Session, now: nat, n: nat)
    requires MessageOk(s.readMsg) && n <= MAX_BODY_LENGTH
    ensures |Field(n)| == HEADER_LENGTH
    ensures var d := OnHeader(s, now, Field(n), true); d.reading == Body && d.readMsg.bodyLength == n
  {
    hide DecodeLength, Field, Leave;
    DecodeEncodes(n);
    assert Filled(s.readMsg, 0, Field(n)).data[..HEADER_LENGTH] == Field(n);
  }

  lemma LengthArrives(r: Room, j: nat, n: nat)
    requires RoomOk(r) && j < |r.sessions| && r.sessions[j].reading == Header && n <= MAX_BODY_LENGTH
    ensures var e := HeaderRead(j, Field(n), true);
      && Safe(r) && Enabled(r, e)
      && var d := Step(r, e);
      && d.sessions == r.sessions[j := d.sessions[j]]
      && d.sessions[j].reading == Body && d.sessions[j].readMsg.bodyLength == n
  {
    OkIsSafe(r);
    SafeAt(r, j);
    LengthIsAwaited(r.sessions[j], |r.log|, n);
    hide RoomOk, Safe, Field, OnHeader;
  }

  // ---- a session reads on

  /** A header and the bytes of the body read that it asks for. */
  datatype Arrival = Arrival(header: string, read: string)

  predicate ArrivalOk(a: Arrival) {
    && |a.header| == HEADER_LENGTH && DecodeLength(a.header).Some?
    && |a.read| == DecodeLength(a.header).value + SERVER_EXTRA
    && HEADER_LENGTH + |a.read| <= HEADER_LENGTH + MAX_BODY_LENGTH
  }

  function ArrivedBody(a: Arrival): string
    requires ArrivalOk(a)
  {
    a.read[..DecodeLength(a.header).value]
  }

  predicate ArrivalsOk(xs: seq<Arrival>) {
    forall k :: 0 <= k < |xs| ==> ArrivalOk(xs[k])
  }

  function ArrivedBodies(xs: seq<Arrival>): seq<string>
    requires ArrivalsOk(xs)
  {
    seq(|xs|, k requires 0 <= k < |xs| => ArrivedBody(xs[k]))
  }

  function Arrivals(j: nat, xs: seq<Arrival>): seq<Event> {
    if xs == [] then [] else [HeaderRead(j, xs[0].header, true)] + ([BodyRead(j, xs[0].read)] + Arrivals(j, xs[1..]))
  }

  lemma HeaderArrivesAt(r: Room, j: nat, a: Arrival)
    requires RoomOk(r) && j < |r.sessions| && r.sessions[j].reading == Header && ArrivalOk(a)
    ensures var e := HeaderRead(j, a.header, true);
      && Safe(r) && Enabled(r, e)
      && var d := Step(r, e);
      && RoomOk(d) && |d.sessions| == |r.sessions| && d.log == r.log
      && d.sessions[j].delivered == r.sessions[j].delivered
      && d.sessions[j].reading == Body && d.sessions[j].readMsg.bodyLength == DecodeLength(a.header).value
  {
    StepKeepsOk(r, HeaderRead(j, a.header, true));
    SafeAt(r, j);
    assert Filled(r.sessions[j].readMsg, 0, a.header).data[..HEADER_LENGTH] == a.header;
    hide RoomOk, Safe, DecodeLength;
  }

  lemma BodyArrivesAt(r: Room, j: nat, a: Arrival)
    requires RoomOk(r) && j < |r.sessions| && r.sessions[j].reading == Body && ArrivalOk(a)
    requires r.sessions[j].readMsg.bodyLength == DecodeLength(a.header).value
    ensures var e := BodyRead(j, a.read);
      && Safe(r) && Enabled(r, e)
      && var d := Step(r, e);
      && RoomOk(d) && |d.sessions| == |r.sessions| && |d.log| == |r.log| + 1 && d.sessions[j].reading == Header
      && d.sessions[j].delivered == r.sessions[j].delivered + [ArrivedBody(a)]
  {
    OkIsSafe(r);
    SafeAt(r, j);
    hide RoomOk, Safe, DecodeLength, Filled, Trim, DeliverTo, ChatMessages.Body, Decodable, MessageOk, SessionSafe;
    MessageIsWhatWasRead(r, j, a.read);
    StepKeepsOk(r, BodyRead(j, a.read));
  }

  lemma ArrivedFront(before: seq<string>, xs: seq<Arrival>)
    requires xs != [] && ArrivalsOk(xs)
    ensures before + [ArrivedBody(xs[0])] + ArrivedBodies(xs[1..]) == before + ArrivedBodies(xs)
  {
    hide ArrivalOk, ArrivedBody;
    assert ArrivedBodies(xs) == [ArrivedBody(xs[0])] + ArrivedBodies(xs[1..]);
  }

  /** The state after the two completions. */
  ghost predicate ArrivedIn(r: Room, j: nat, a: Arrival, d: Room)
    requires j < |r.sessions| && ArrivalOk(a)
  {
    && RoomOk(d) && |d.sessions| == |r.sessions| && |d.log| == |r.log| + 1 && d.sessions[j].reading == Header
    && d.sessions[j].delivered == r.sessions[j].delivered + [ArrivedBody(a)]
  }

  lemma ArrivesAt(r: Room, j: nat, a: Arrival)
    requires RoomOk(r) && j < |r.sessions| && r.sessions[j].reading == Header && ArrivalOk(a)
    ensures var e1, e2 := HeaderRead(j, a.header, true), BodyRead(j, a.read);
      && Safe(r) && Enabled(r, e1) && Safe(Step(r, e1)) && Enabled(Step(r, e1), e2)
      && ArrivedIn(r, j, a, Step(Step(r, e1), e2))
  {
    hide RoomOk, Safe, Enabled, Step, ArrivalOk, ArrivedBody;
    HeaderArrivesAt(r, j, a);
    BodyArrivesAt(Step(r, HeaderRead(j, a.header, true)), j, a);
  }

  /** Whatever headers and bodies arrive at a session that awaits a header, it delivers them one
      after the other and awaits the next. */
  lemma {:induction false} SessionReadsOn(r: Room, j: nat, xs: seq<Arrival>)
    requires RoomOk(r) && j < |r.sessions| && r.sessions[j].reading == Header && ArrivalsOk(xs)
    ensures IsRun(r, Arrivals(j, xs))
    ensures var d := Final(r, Arrivals(j, xs));
      && |d.sessions| == |r.sessions| && |d.log| == |r.log| + |xs| && d.sessions[j].reading == Header
      && d.sessions[j].delivered == r.sessions[j].delivered + ArrivedBodies(xs)
    decreases |xs|
  {
    hide RoomOk, Safe, Enabled, Step, IsRun, Final, ArrivalOk, ArrivedBody, ArrivedBodies;
    if xs == [] {
      OkIsSafe(r);
      RunNothing(r);
      NothingArrived(r.sessions[j].delivered);
    } else {
      var a := xs[0];
      var e1, e2, es := HeaderRead(j, a.header, true), BodyRead(j, a.read), Arrivals(j, xs[1..]);
      ArrivesAt(r, j, a);
      var d := Step(Step(r, e1), e2);
      SessionReadsOn(d, j, xs[1..]);
      RunCons(Step(r, e1), e2, es);
      RunCons(r, e1, [e2] + es);
      ArrivedFront(r.sessions[j].delivered, xs);
    }
  }

  lemma NothingArrived(before: seq<string>)
    ensures before + ArrivedBodies([]) == before
  {
  }

  // ---- the four bytes too many

  lemma DeliveredIsDecoded(s: Session)
    requires ReaderOk(s)
    ensures ReadFrames(s.received, SERVER_EXTRA).bodies == s.delivered
  {
    hide DecodeLength, ReadFrames, AtBody, Decodable;
    if s.reading == Body {
      BodyFails(s.received, s.delivered, s.readMsg.bodyLength, "", SERVER_EXTRA);
      assert s.received + "" == s.received;
    }
  }

  /** In every reachable state the bodies a session has delivered to the room are what the bytes it
      has received decode to if every body has four bytes more than it says.  A sender of frames is
      therefore understood only as long as it has sent nothing. */
  lemma SessionDelivers(es: seq<Event>, i: nat)
    requires IsRun(EMPTY, es) && i < |Final(EMPTY, es).sessions|
    ensures var s := Final(EMPTY, es).sessions[i];
      && ReadFrames(s.received, SERVER_EXTRA).bodies == s.delivered
      && forall ms :: AllDecodable(ms) && Frames(ms) == s.received ==> (s.delivered == Bodies(ms) <==> ms == [])
  {
    RunKeepsOk(EMPTY, es);
    hide IsRun, Final;
    var s := Final(EMPTY, es).sessions[i];
    assert SessionOk(Final(EMPTY, es), s);
    hide SessionOk, AllDecodable, Frames, ReadFrames, Bodies;
    DeliveredIsDecoded(s);
    forall ms | AllDecodable(ms) && Frames(ms) == s.received ensures s.delivered == Bodies(ms) <==> ms == [] {
      ServerReadsOnlyNothing(ms);
    }
  }

  /** Waiting for a body, a session can complete that read inside its buffer exactly if the length
      is at most 508: four less than the header check admits. */
  lemma BodyFitsUpTo508(r: Room, id: nat)
    requires RoomOk(r) && id < |r.sessions| && r.sessions[id].reading == Body
    ensures (exists bytes :: Enabled(r, BodyRead(id, bytes))) <==> r.sessions[id].readMsg.bodyLength <= 508
  {
    var s := r.sessions[id];
    assert SessionOk(r, s);
    hide SessionOk, Decodable;
    if s.readMsg.bodyLength <= 508 {
      var bytes := seq(BodyWanted(s), _ => ' ');
      assert Enabled(r, BodyRead(id, bytes));
    }
  }

  /** A session that got the header of a longer body, which the check admits. */
  lemma LongerBodiesAreAwaited(buffer: Message, n: nat)
    requires MessageOk(buffer) && 508 < n <= MAX_BODY_LENGTH
    ensures var es := [Joined(buffer), HeaderRead(0, Field(n), true)];
      && IsRun(EMPTY, es)
      && var s := Final(EMPTY, es).sessions;
      |s| == 1 && s[0].reading == Body && s[0].readMsg.bodyLength == n
  {
    var e1, e2 := Joined(buffer), HeaderRead(0, Field(n), true);
    assert RoomOk(EMPTY);
    hide RoomOk, Step, Enabled, Safe, IsRun, Final, Field;
    NewcomerAwaitsHeader(EMPTY, buffer);
    RunNothing(EMPTY);
    RunExtends(EMPTY, [], e1);
    RunKeepsOk(EMPTY, [] + [e1]);
    LengthArrives(Step(EMPTY, e1), 0, n);
    RunExtends(EMPTY, [e1], e2);
    assert [] + [e1] == [e1] && [e1] + [e2] == [e1, e2];
  }

  // ---- draining

  function Writes(i: nat, n: nat): seq<Event> {
    if n == 0 then [] else [WriteOk(i)] + Writes(i, n - 1)
  }

  lemma RunCons(r: Room, e: Event, es: seq<Event>)
    requires Safe(r) && Enabled(r, e) && IsRun(Step(r, e), es)
    ensures IsRun(r, [e] + es) && Final(r, [e] + es) == Final(Step(r, e), es)
  {
    hide Safe, Enabled, Step;
    assert ([e] + es)[1..] == es;
  }

  /** A write that completes sends the front of the queue and begins the next. */
  lemma WriteSendsFront(r: Room, i: nat)
    requires RoomOk(r) && i < |r.sessions| && r.sessions[i].inFlight != []
    ensures var s, e := r.sessions[i], WriteOk(i);
      && s.queue != [] && Safe(r) && Enabled(r, e)
      && Step(r, e) == r.(sessions := r.sessions[i := s.(
           sent := s.sent + [s.queue[0]], queue := s.queue[1..],
           inFlight := if |s.queue| > 1 then [s.queue[1]] else [])])
      && Safe(Step(r, e)) && RoomOk(Step(r, e))
  {
    var s := r.sessions[i];
    assert SessionOk(r, s);
    assert s.inFlight[1..] == [];
    assert |s.queue| > 1 ==> s.inFlight[1..] + [s.queue[1..][0]] == [s.queue[1]];
    OkIsSafe(r);
    StepKeepsOk(r, WriteOk(i));
    OkIsSafe(Step(r, WriteOk(i)));
    hide RoomOk, Safe, ReaderOk, StreamOk;
  }

  lemma TakeFront(sent: seq<Message>, queue: seq<Message>)
    requires queue != []
    ensures sent + [queue[0]] + queue[1..] == sent + queue
    ensures |queue| == 1 ==> queue[1..] == [] && sent + [queue[0]] == sent + queue
  {
  }

  /** With nothing new and no error, a session with an outstanding write has sent its whole queue
      after as many completions as there are messages in it. */
  lemma {:induction false} QueueDrains(r: Room, i: nat)
    requires RoomOk(r) && i < |r.sessions| && r.sessions[i].inFlight != []
    ensures var s, es := r.sessions[i], Writes(i, |r.sessions[i].queue|);
      && IsRun(r, es)
      && Final(r, es) == r.(sessions := r.sessions[i := s.(sent := s.sent + s.queue, queue := [], inFlight := [])])
    decreases |r.sessions[i].queue|
  {
    var s, e, n := r.sessions[i], WriteOk(i), |r.sessions[i].queue|;
    hide RoomOk, Safe, Step, Enabled, IsRun, Final;
    WriteSendsFront(r, i);
    TakeFront(s.sent, s.queue);
    if n > 1 {
      QueueDrains(Step(r, e), i);
      RunCons(r, e, Writes(i, n - 1));
    } else {
      RunNothing(Step(r, e));
      RunCons(r, e, []);
      assert Writes(i, 1) == [e] + [];
    }
  }

  predicate Silent(s: Session) {
    !s.inRoom && s.inFlight == []
  }

  lemma StepKeepsSilent(r: Room, e: Event, i: nat)
    requires Enabled(r, e) && Safe(r) && i < |r.sessions| && Silent(r.sessions[i])
    ensures i < |Step(r, e).sessions| && Silent(Step(r, e).sessions[i])
    ensures Step(r, e).sessions[i].sent == r.sessions[i].sent
  {
  }

  lemma {:induction false} SilentForever(r: Room, es: seq<Event>, i: nat)
    requires IsRun(r, es) && i < |r.sessions| && Silent(r.sessions[i])
    ensures i < |Final(r, es).sessions| && Final(r, es).sessions[i].sent == r.sessions[i].sent
    decreases |es|
  {
    hide Step, Enabled, Safe;
    if es != [] {
      StepKeepsSilent(r, es[0], i);
      SilentForever(Step(r, es[0]), es[1..], i);
    }
  }

  predicate MaySend(r: Room, i: nat, es: seq<Event>)
    requires i < |r.sessions|
  {
    && IsRun(r, es) && i < |Final(r, es).sessions|
    && |Final(r, es).sessions[i].sent| > |r.sessions[i].sent|
  }

  const SPACES := seq(HEADER_LENGTH + MAX_BODY_LENGTH, _ => ' ')

  lemma EmptyBodyArrives(r: Room, j: nat, i: nat)
    requires RoomOk(r) && i < |r.sessions| && j < |r.sessions| && i != j && r.sessions[i].inRoom
    requires r.sessions[j].reading == Body && r.sessions[j].readMsg.bodyLength == 0
    requires r.sessions[i].inFlight == []
    ensures var e := BodyRead(j, "    ");
      && Safe(r) && Enabled(r, e)
      && var d := Step(r, e);
      |d.sessions| == |r.sessions| && d.sessions[i].inFlight != [] && d.sessions[i].sent == r.sessions[i].sent
  {
    OkIsSafe(r);
    SafeAt(r, j);
    assert SessionOk(r, r.sessions[i]);
    hide RoomOk, Safe, Filled;
  }

  /** A newcomer that has sent the header of an empty body; the others are as they were. */
  lemma NewcomerAwaitsBody(r: Room)
    requires RoomOk(r)
    ensures var n, es := |r.sessions|, [Joined(Message(SPACES, 0)), HeaderRead(|r.sessions|, Field(0), true)];
      && IsRun(r, es)
      && var d := Final(r, es);
      && RoomOk(d) && |d.sessions| == n + 1 && d.sessions[..n] == r.sessions
      && d.sessions[n].reading == Body && d.sessions[n].readMsg.bodyLength == 0
  {
    var n := |r.sessions|;
    var e1, e2 := Joined(Message(SPACES, 0)), HeaderRead(n, Field(0), true);
    hide RoomOk, Step, Enabled, Safe, IsRun, Final, Field;
    NewcomerAwaitsHeader(r, Message(SPACES, 0));
    RunNothing(r);
    RunExtends(r, [], e1);
    assert [] + [e1] == [e1] && [e1] + [e2] == [e1, e2];
    RunKeepsOk(r, [e1]);
    LengthArrives(Step(r, e1), n, 0);
    RunExtends(r, [e1], e2);
    RunKeepsOk(r, [e1, e2]);
  }

  /** A session in the room gets to send the next message delivered to it. */
  lemma NextMessageIsSent(r: Room, i: nat)
    requires RoomOk(r) && i < |r.sessions| && r.sessions[i].inRoom && r.sessions[i].inFlight == []
    ensures var n := |r.sessions|;
      MaySend(r, i, [Joined(Message(SPACES, 0)), HeaderRead(n, Field(0), true), BodyRead(n, "    "), WriteOk(i)])
  {
    var n := |r.sessions|;
    var es, e3, e4 := [Joined(Message(SPACES, 0)), HeaderRead(n, Field(0), true)], BodyRead(n, "    "), WriteOk(i);
    NewcomerAwaitsBody(r);
    hide RoomOk, Step, Enabled, Safe, IsRun, Final, Field;
    var d := Final(r, es);
    assert d.sessions[i] == d.sessions[..n][i];
    EmptyBodyArrives(d, n, i);
    RunExtends(r, es, e3);
    RunKeepsOk(r, es + [e3]);
    WriteSendsFront(Step(d, e3), i);
    RunExtends(r, es + [e3], e4);
    assert es + [e3] + [e4] == [es[0], es[1], e3, e4];
  }

  /** Exactly the sessions that have left the room and have no outstanding write never send anything
      again, whatever happens. */
  lemma SilentExactly(r: Room, i: nat)
    requires RoomOk(r) && i < |r.sessions|
    ensures Silent(r.sessions[i]) <==> forall es :: !MaySend(r, i, es)
  {
    hide RoomOk, IsRun, Final;
    var s := r.sessions[i];
    if Silent(s) {
      forall es ensures !MaySend(r, i, es) {
        if IsRun(r, es) {
          SilentForever(r, es, i);
        }
      }
    } else if s.inFlight != [] {
      WriteSendsFront(r, i);
      hide Step, Enabled, Safe;
      RunNothing(r);
      RunExtends(r, [], WriteOk(i));
      assert MaySend(r, i, [] + [WriteOk(i)]);
    } else {
      NextMessageIsSent(r, i);
    }
  }
}
