/** The room, its sessions and the server that starts them.  Each handler is proved to do to the
    objects what `ChatProtocol.Step` says of its event. */
module ChatServing {
  import opened ChatMessages
  import opened ChatProtocol

  class ChatSession {
    const room: ChatRoom
    var queue: seq<Message>
    var inFlight: seq<Message>
    var reading: Reading
    var readMsg: Message
    ghost var sent: seq<Message>
    ghost var joinedAt: nat
    ghost var leftAt: nat
    ghost var received: string
    ghost var delivered: seq<string>

    ghost function View(inRoom: bool): (s: Session)
      reads this
      ensures s.inRoom == inRoom
    {
      Session(inRoom, queue, inFlight, reading, readMsg, sent, joinedAt, leftAt, received, delivered)
    }

    /** The read buffer holds whatever was there. */
    constructor (room: ChatRoom, buffer: Message, ghost now: nat)
      ensures this.room == room && forall b :: View(b) == Constructed(buffer, now).(inRoom := b)
    {
      this.room := room;
      queue, inFlight, reading, readMsg := [], [], Ended, buffer;
      sent, joinedAt, leftAt, received, delivered := [], now, now, "", [];
    }

    /** Joins the room and starts reading. */
    method Start()
      modifies room`participants, this
      ensures room.participants == old(room.participants) + {this}
      ensures View(true) == DeliverAll(old(View(true)), room.recent).(reading := Header)
    {
      room.Join(this);
      DoReadHeader();
    }

    method Deliver(msg: Message)
      modifies this
      ensures forall b :: View(b) == DeliverTo(old(View(b)), msg)
    {
      var writeInProgress := queue != [];
      queue := queue + [msg];
      if !writeInProgress {
        DoWrite();
      }
    }

    method DoReadHeader()
      modifies this`reading
      ensures reading == Header
    {
      reading := Header;
    }

    method DoReadBody()
      modifies this`reading
      ensures reading == Body
    {
      reading := Body;
    }

    method DoWrite()
      requires queue != []
      modifies this`inFlight
      ensures forall b :: View(b) == BeginWrite(old(View(b)))
    {
      inFlight := inFlight + [queue[0]];
    }

    ghost function Seen(): Session
      reads this, room
    {
      View(this in room.participants)
    }

    method OnHeaderRead(bytes: string, ok: bool)
      requires MessageOk(readMsg) && |bytes| <= HEADER_LENGTH
      modifies this, room`participants
      ensures room.participants == old(room.participants) || room.participants == old(room.participants) - {this}
      ensures Seen() == OnHeader(old(Seen()), |room.log|, bytes, ok)
    {
      hide DecodeLength;
      readMsg := Filled(readMsg, 0, bytes);
      received := received + bytes;
      var decoded := DecodeLength(readMsg.data[..HEADER_LENGTH]).Some?;
      if ok {
        readMsg := HeaderDecoded(readMsg);
      }
      reading := Ended;
      if ok && decoded {
        DoReadBody();
      } else {
        room.Leave(this);
      }
    }

    method OnBodyRead(bytes: string)
      requires MessageOk(readMsg) && HEADER_LENGTH + |bytes| <= |readMsg.data|
      modifies this, room`recent, room`log, room.participants
      ensures var d := OnBody(old(Seen()), bytes);
        var msg := d.readMsg;
        && room.recent == Trim(old(room.recent) + [msg]) && room.log == old(room.log) + [msg]
        && (forall s :: s in room.participants && s != this ==> s.View(true) == DeliverTo(old(s.View(true)), msg))
        && Seen() == IfInRoom(d, msg)
    {
      readMsg := Filled(readMsg, HEADER_LENGTH, bytes);
      received := received + bytes;
      delivered := delivered + [ChatMessages.Body(readMsg)];
      room.Deliver(readMsg);
      DoReadHeader();
    }

    method OnBodyFailed(bytes: string)
      requires HEADER_LENGTH + |bytes| <= |readMsg.data|
      modifies this, room`participants
      ensures room.participants == old(room.participants) - {this}
      ensures Seen() == ChatProtocol.Leave(Receive(old(Seen()), HEADER_LENGTH, bytes).(reading := Ended), |room.log|)
    {
      readMsg := Filled(readMsg, HEADER_LENGTH, bytes);
      received := received + bytes;
      reading := Ended;
      room.Leave(this);
    }

    method OnWrite(ok: bool)
      requires MessageOk(readMsg) && inFlight != [] && (ok ==> queue != [])
      modifies this, room`participants
      ensures room.participants == if ok then old(room.participants) else old(room.participants) - {this}
      ensures Seen() == SessionStep(old(Seen()), |room.log|, if ok then WriteOk(0) else WriteFailed(0))
    {
      if ok {
        sent := sent + [inFlight[0]];
      }
      inFlight := inFlight[1..];
      if ok {
        queue := queue[1..];
        if queue != [] {
          DoWrite();
        }
      } else {
        room.Leave(this);
      }
    }

    /** The completion of one of its operations, other than a body read. */
    method Complete(e: Event)
      requires MayHappen(Seen(), e) && SessionSafe(Seen()) && !e.BodyRead?
      modifies this, room`participants
      ensures room.participants == old(room.participants) || room.participants == old(room.participants) - {this}
      ensures Seen() == SessionStep(old(Seen()), |room.log|, e)
    {
      hide OnHeader, Filled, Receive, WriteDone, ChatProtocol.Leave;
      match e {
        case HeaderRead(_, bytes, ok) => OnHeaderRead(bytes, ok);
        case BodyFailed(_, bytes) => OnBodyFailed(bytes);
        case WriteOk(_) => OnWrite(true);
        case WriteFailed(_) => OnWrite(false);
      }
    }
  }

  class ChatRoom {
    var participants: set<ChatSession>
    var recent: seq<Message>
    ghost var log: seq<Message>

    constructor ()
      ensures participants == {} && recent == [] && log == []
    {
      participants, recent, log := {}, [], [];
    }

    method Join(participant: ChatSession)
      modifies this`participants, participant
      ensures participants == old(participants) + {participant}
      ensures forall b :: participant.View(b) == DeliverAll(old(participant.View(b)), recent)
    {
      participants := participants + {participant};
      for i := 0 to |recent|
        invariant participants == old(participants) + {participant}
        invariant forall b ::
          DeliverAll(participant.View(b), recent[i..]) == DeliverAll(old(participant.View(b)), recent)
      {
        assert recent[i..][0] == recent[i] && recent[i..][1..] == recent[i + 1..];
        participant.Deliver(recent[i]);
      }
    }

    method Leave(participant: ChatSession)
      modifies this`participants, participant`leftAt
      ensures participants == old(participants) - {participant}
      ensures participant.View(false) == ChatProtocol.Leave(old(participant.View(participant in participants)), |log|)
    {
      if participant in participants {
        participant.leftAt := |log|;
      }
      participants := participants - {participant};
    }

    method Remember(msg: Message)
      modifies this`recent
      ensures recent == Trim(old(recent) + [msg])
    {
      recent := recent + [msg];
      while |recent| > MAX_RECENT
        invariant Trim(recent) == Trim(old(recent) + [msg])
        decreases |recent|
      {
        recent := recent[1..];
      }
    }

    method Deliver(msg: Message)
      modifies this`recent, this`log, participants
      ensures recent == Trim(old(recent) + [msg]) && log == old(log) + [msg]
      ensures forall s :: s in participants ==> s.View(true) == DeliverTo(old(s.View(true)), msg)
    {
      Remember(msg);
      log := log + [msg];
      var rest := participants;
      while rest != {}
        invariant rest <= participants
        invariant forall s :: s in participants ==>
          s.View(true) == if s in rest then old(s.View(true)) else DeliverTo(old(s.View(true)), msg)
        invariant unchanged(`participants) && recent == Trim(old(recent) + [msg]) && log == old(log) + [msg]
        decreases |rest|
      {
        var participant :| participant in rest;
        participant.Deliver(msg);
        rest := rest - {participant};
      }
    }
  }

  class ChatServer {
    const room: ChatRoom
    var accepts: nat
    /** The sessions whose handlers the event loop holds, in the order of acceptance. */
    var all: seq<ChatSession>
    ghost var world: Room

    ghost function Sessions(): set<ChatSession>
      reads this
    {
      set c | c in all
    }

    ghost predicate Tracks(c: ChatSession, s: Session)
      reads c, room
    {
      c.room == room && s == c.View(c in room.participants)
    }

    ghost predicate Valid()
      reads this, room, all
    {
      && world == Room(room.recent, world.sessions, accepts, room.log, world.authors)
      && |world.sessions| == |all|
      && (forall i :: 0 <= i < |all| ==> Tracks(all[i], world.sessions[i]))
      && (forall c :: c in room.participants ==> c in all)
      && (forall i, j :: 0 <= i < j < |all| ==> all[i] != all[j])
    }

    constructor ()
      ensures Valid() && world == EMPTY && all == []
    {
      room := new ChatRoom();
      accepts, all := 0, [];
      new;
      DoAccept();
      world := EMPTY;
    }

    method DoAccept()
      modifies this`accepts
      ensures accepts == old(accepts) + 1
    {
      accepts := accepts + 1;
    }

    /** The handler of an accept: a new session if it succeeded, and in any case the next accept. */
    method OnAccept(ok: bool, buffer: Message)
      requires Valid() && accepts > 0
      modifies this, room
      ensures Valid() && fresh(Sessions() - old(Sessions()))
      ensures world == Rearmed(if !ok then old(world)
        else old(world).(sessions := old(world).sessions + [Newcomer(old(world), buffer)]))
    {
      accepts := accepts - 1;
      world := world.(accepts := accepts);
      if ok {
        AddSession(buffer);
      }
      DoAccept();
      world := world.(accepts := accepts);
    }

    method AddSession(buffer: Message)
      requires Valid()
      modifies this`all, this`world, room
      ensures Valid() && fresh(Sessions() - old(Sessions()))
      ensures world == old(world).(sessions := old(world).sessions + [Newcomer(old(world), buffer)])
    {
      hide DeliverAll;
      var c := new ChatSession(room, buffer, |room.log|);
      c.Start();
      ghost var s := c.View(true);
      NewcomerReads(world, buffer);
      all := all + [c];
      world := world.(sessions := world.sessions + [s]);
      forall i | 0 <= i < |all| - 1 ensures Tracks(all[i], world.sessions[i]) {
        assert old(Tracks(all[i], world.sessions[i]));
      }
    }

    /** The handler of a completed body read. */
    method OnBody(id: nat, bytes: string)
      requires Valid() && id < |all| && MessageOk(world.sessions[id].readMsg) && Inside(world.sessions[id], bytes)
      modifies this`world, room, Sessions()
      ensures Valid() && all == old(all)
      ensures world == ReadAndDeliver(old(world), id, bytes)
    {
      hide DeliverTo, Filled, ChatMessages.Body;
      var c := all[id];
      assert Tracks(c, world.sessions[id]);
      c.OnBodyRead(bytes);
      world := ReadAndDeliver(world, id, bytes);
      forall i | 0 <= i < |all| ensures Tracks(all[i], world.sessions[i]) {
        assert old(Tracks(all[i], world.sessions[i]));
      }
    }

    /** The handlers that concern one session only. */
    method OnOther(e: Event)
      requires Valid() && Enabled(world, e) && Safe(world) && !e.Joined? && !e.AcceptFailed? && !e.BodyRead?
      modifies this`world, room, Sessions()
      ensures Valid() && all == old(all)
      ensures SessionSafe(old(world).sessions[e.id])
      ensures world == old(world).(sessions :=
        old(world).sessions[e.id := SessionStep(old(world).sessions[e.id], |old(world).log|, e)])
    {
      hide SessionStep, MayHappen;
      var c := all[e.id];
      assert Tracks(c, world.sessions[e.id]) && SessionSafe(world.sessions[e.id]);
      c.Complete(e);
      ghost var seen := c.Seen();
      world := world.(sessions := world.sessions[e.id := seen]);
      forall i | 0 <= i < |all| ensures Tracks(all[i], world.sessions[i]) {
        assert old(Tracks(all[i], world.sessions[i]));
      }
    }

    /** One turn of the event loop. */
    method Dispatch(e: Event)
      requires Valid() && Safe(world) && Enabled(world, e)
      modifies this, room, Sessions()
      ensures Valid() && fresh(Sessions() - old(Sessions()))
      ensures world == Step(old(world), e)
    {
      match e {
        case Joined(buffer) => OnAccept(true, buffer);
        case AcceptFailed => OnAccept(false, Message("", 0));
        case BodyRead(id, bytes) => OnBody(id, bytes);
        case _ => OnOther(e);
      }
    }

    /** What holds of the objects: each session has sent, or still has queued, one stretch of the
        log, and in the room a write of the front is outstanding whenever there is a front. */
    ghost predicate ObjectsOk()
      reads this, room, Sessions()
    {
      && room.recent == room.log[ChatProtocol.Start(|room.log|)..]
      && (forall c :: c in all ==>
            var from, to := ChatProtocol.Start(c.joinedAt), if c in room.participants then |room.log| else c.leftAt;
            && from <= to <= |room.log| && c.sent + c.queue == room.log[from..to]
            && |c.inFlight| <= 1 && (c.inFlight != [] ==> c.queue != [] && c.inFlight == [c.queue[0]])
            && (c in room.participants && c.queue != [] ==> c.inFlight != []))
    }

    lemma ObjectsAreOk()
      requires Valid() && RoomOk(world)
      ensures ObjectsOk()
    {
    }

    /** The event loop, whatever completes and in whatever order. */
    method Run(es: seq<Event>)
      requires Valid() && IsRun(world, es)
      modifies this, room, Sessions()
      ensures Valid() && IsRun(old(world), es) && world == Final(old(world), es)
      ensures RoomOk(old(world)) ==> ObjectsOk()
    {
      hide Enabled, Step, Safe;
      ghost var start := world;
      for k := 0 to |es|
        invariant Valid() && fresh(Sessions() - old(Sessions()))
        invariant IsRun(world, es[k..]) && Final(world, es[k..]) == Final(start, es)
      {
        assert es[k..][0] == es[k] && es[k..][1..] == es[k + 1..];
        Dispatch(es[k]);
      }
      assert es[|es|..] == [];
      if RoomOk(start) {
        RunKeepsOk(start, es);
        ObjectsAreOk();
      }
    }
  }

  lemma NewcomerReads(r: Room, buffer: Message)
    ensures var s := Constructed(buffer, |r.log|).(inRoom := true);
      DeliverAll(s, r.recent).(reading := Header) == Newcomer(r, buffer)
  {
    DeliverAllKeepsReading(Constructed(buffer, |r.log|).(inRoom := true), r.recent);
  }

  lemma {:induction false} DeliverAllKeepsReading(s: Session, ms: seq<Message>)
    ensures DeliverAll(s.(reading := Header), ms) == DeliverAll(s, ms).(reading := Header)
    decreases |ms|
  {
    if ms != [] {
      assert DeliverTo(s.(reading := Header), ms[0]) == DeliverTo(s, ms[0]).(reading := Header);
      DeliverAllKeepsReading(DeliverTo(s, ms[0]), ms[1..]);
    }
  }
}
