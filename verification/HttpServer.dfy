/** The server's objects.  Each handler is proved to do to the objects what `HttpProtocol.Step`
    says of its event. */
module HttpServer {
  import opened RequestGrammar
  import opened RequestMachine
  import opened RequestParsing
  import opened Replies
  import opened RequestHandling
  import opened HttpProtocol

  class Connection {
    const manager: ConnectionManager
    const handler: RequestHandler
    const request: Request
    const parser: RequestParser
    const reply: Reply
    const buffer: array<char>
    var socketOpen: bool
    var pending: seq<Op>
    ghost const born: RequestValue
    ghost var received: string
    ghost var files: map<string, string>
    ghost var handled: nat
    ghost var writes: nat
    ghost var output: string

    ghost function Repr(): set<object> {
      {this, request, parser, reply, buffer}
    }

    ghost predicate Valid()
      reads Repr()
    {
      buffer.Length == BUFFER_SIZE && Safe(parser.View(request))
    }

    ghost function View(member: bool): (c: Conn)
      reads Repr()
      ensures c.member == member
    {
      Conn(
        socketOpen, member, pending, parser.View(request), reply.Contents(),
        born, received, files, handled, writes, output)
    }

    /** A connection takes over an open socket; its request and reply start uninitialised. */
    constructor (manager: ConnectionManager, handler: RequestHandler, major: int, minor: int, status: Status)
      ensures Valid() && fresh(Repr()) && this.manager == manager && this.handler == handler
      ensures var request, reply := RequestValue("", "", major, minor, []), ReplyValue(status, [], "");
        forall m :: View(m) == Constructed(request, reply).(member := m)
    {
      this.manager, this.handler := manager, handler;
      request := new Request(major, minor);
      parser := new RequestParser();
      reply := new Reply(status);
      buffer := new char[BUFFER_SIZE];
      socketOpen, pending := true, [];
      born, received, files, handled, writes := RequestValue("", "", major, minor, []), "", map[], 0, 0;
      output := "";
    }

    method Start()
      modifies this`pending
      ensures forall m :: View(m) == Begin(old(View(m)), Reading)
    {
      DoRead();
    }

    method Stop()
      modifies this`socketOpen
      ensures !socketOpen
    {
      socketOpen := false;
    }

    method DoRead()
      modifies this`pending
      ensures forall m :: View(m) == Begin(old(View(m)), Reading)
    {
      pending := pending + [Op(Reading, socketOpen)];
    }

    method DoWrite()
      modifies this`pending, this`writes, this`output
      ensures forall m :: View(m) == BeginReply(old(View(m)))
    {
      hide Serialize;
      var data := reply.ToBuffers();
      output := output + Flatten(data);
      pending := pending + [Op(Writing, socketOpen)];
      writes := writes + 1;
    }

    /** The operation is no longer pending when its handler runs. */
    method Complete(op: Op)
      modifies this`pending
      ensures forall m :: View(m) == Completed(old(View(m)), op)
    {
      pending := Without(pending, op);
    }

    /** The read itself: the bytes are in the buffer when the handler runs. */
    method Fill(data: string)
      requires |data| <= buffer.Length
      modifies buffer, this`received
      ensures buffer[0..|data|] == data && received == old(received) + data
    {
      forall k | 0 <= k < |data| {
        buffer[k] := data[k];
      }
      received := received + data;
    }

    method OnReadOk(data: string, files: map<string, string>)
      requires Valid() && |data| <= BUFFER_SIZE
      modifies Repr()
      ensures Valid()
      ensures forall m :: View(m) == AfterRead(handler.docRoot, old(View(m)), data, files)
    {
      hide RequestMachine.Run, Decided, Safe;
      Fill(data);
      var result, _ := parser.Parse(request, buffer, 0, |data|);
      Decide(result, files);
    }

    /** What the read handler does with the parser's verdict. */
    method Decide(result: Verdict, files: map<string, string>)
      requires Valid()
      modifies this, reply
      ensures Valid()
      ensures forall m :: View(m) == Decided(handler.docRoot, old(View(m)), result, files)
    {
      hide Handle, Stock, Safe;
      match result {
        case Good =>
          handler.HandleRequest(request, reply, files);
          this.files, handled := files, handled + 1;
          DoWrite();
        case Bad =>
          var stock := Reply.StockReply(BadRequest);
          reply.Assign(stock);
          DoWrite();
        case Indeterminate =>
          DoRead();
      }
    }

    /** A failed read or write: unless it was aborted, the manager stops the connection. */
    method OnEnd(aborted: bool)
      modifies manager`connections, this`socketOpen
      ensures manager.connections == if aborted then old(manager.connections) else old(manager.connections) - {this}
      ensures socketOpen == (aborted && old(socketOpen))
    {
      if !aborted {
        manager.Stop(this);
      }
    }

    ghost function Seen(): Conn
      reads manager, Repr()
    {
      View(this in manager.connections)
    }

    /** The completion of one of its operations. */
    method Deliver(e: Event)
      requires Valid() && manager !in Repr() && HasPending(Seen(), e)
      modifies Repr(), manager`connections
      ensures Valid() && (Seen().member ==> old(Seen().member))
      ensures Safe(old(Seen()).parse) && Seen() == ConnStep(handler.docRoot, old(Seen()), e)
      ensures manager.connections - {this} == old(manager.connections) - {this}
    {
      hide Run, Handle, Stock, Safe, AfterRead, Without;
      match e {
        case ReadOk(_, data, files) =>
          Complete(Op(Reading, true));
          OnReadOk(data, files);
        case ReadFailed(_, startedOpen, aborted) =>
          Complete(Op(Reading, startedOpen));
          OnEnd(aborted);
        case WriteOk(_) =>
          Complete(Op(Writing, true));
          OnEnd(false);
        case WriteFailed(_, startedOpen, aborted) =>
          Complete(Op(Writing, startedOpen));
          OnEnd(aborted);
      }
    }
  }

  class ConnectionManager {
    var connections: set<Connection>

    constructor ()
      ensures connections == {}
    {
      connections := {};
    }

    method Start(c: Connection)
      modifies this`connections, c`pending
      ensures connections == old(connections) + {c} && c.Valid() == old(c.Valid())
      ensures forall m :: c.View(m) == Begin(old(c.View(m)), Reading)
    {
      connections := connections + {c};
      c.Start();
    }

    method Stop(c: Connection)
      modifies this`connections, c`socketOpen
      ensures connections == old(connections) - {c} && !c.socketOpen
    {
      connections := connections - {c};
      c.Stop();
    }

    /** Stops every connection of the set and none of the others there are. */
    method StopAll(ghost all: seq<Connection>)
      modifies this`connections, connections`socketOpen
      ensures connections == {}
      ensures forall c :: c in old(connections) ==> c.View(false) == Closed(old(c.View(true)))
      ensures forall c :: c in all && c !in old(connections) ==> c.View(false) == old(c.View(false))
      ensures forall c :: c in all ==> c.Valid() == old(c.Valid())
    {
      var rest := connections;
      while rest != {}
        invariant rest <= connections == old(connections)
        invariant forall c :: c in connections && c !in rest ==> !c.socketOpen
        decreases |rest|
      {
        var c :| c in rest;
        c.Stop();
        rest := rest - {c};
      }
      connections := {};
    }
  }

  ghost function Footprint(cs: seq<Connection>): set<object> {
    set c, o | c in cs && o in c.Repr() :: o
  }

  class Server {
    const manager: ConnectionManager
    const handler: RequestHandler
    var acceptorOpen: bool
    var accepts: nat
    var awaitingSignal: bool
    /** The connections whose handlers the event loop holds, in the order of acceptance. */
    var all: seq<Connection>
    ghost var world: World

    /** v is what can be seen of c. */
    ghost predicate Tracks(c: Connection, v: Conn)
      reads manager, c.Repr()
    {
      && this !in c.Repr() && manager !in c.Repr()
      && c.Valid() && c.manager == manager && c.handler == handler
      && v == c.View(c in manager.connections)
    }

    ghost predicate Valid()
      reads this, manager, Footprint(all)
    {
      ValidBut(0)
    }

    /** Valid, but for a number of accepts that have completed and are not yet accounted for. */
    ghost predicate ValidBut(completed: nat)
      reads this, manager, Footprint(all)
    {
      && world == World(handler.docRoot, acceptorOpen, accepts + completed, awaitingSignal, world.conns)
      && |world.conns| == |all|
      && (forall i :: 0 <= i < |all| ==> Tracks(all[i], world.conns[i]))
      && (forall c :: c in manager.connections ==> c in all)
      && (forall i, j :: 0 <= i < j < |all| ==> all[i].Repr() !! all[j].Repr())
    }

    constructor (docRoot: string)
      ensures Valid() && Initial(world) && world.docRoot == docRoot && all == []
    {
      manager := new ConnectionManager();
      handler := new RequestHandler(docRoot);
      acceptorOpen, accepts, awaitingSignal, all := false, 0, false, [];
      new;
      DoAwaitStop();
      acceptorOpen := true;
      DoAccept();
      world := World(docRoot, true, 1, true, []);
    }

    method DoAccept()
      modifies this`accepts
      ensures accepts == old(accepts) + 1
    {
      accepts := accepts + 1;
    }

    method DoAwaitStop()
      modifies this`awaitingSignal
      ensures awaitingSignal
    {
      awaitingSignal := true;
    }

    method OnSignal()
      requires Valid()
      modifies this`awaitingSignal, this`acceptorOpen, this`world, manager, manager.connections
      ensures Valid() && all == old(all)
      ensures world == old(world).(acceptorOpen := false, awaitingSignal := false, conns := StopAll(old(world).conns))
    {
      hide Safe, Connection.View, Connection.Valid;
      awaitingSignal := false;
      acceptorOpen := false;
      manager.StopAll(all);
      world := world.(acceptorOpen := false, awaitingSignal := false, conns := StopAll(world.conns));
      forall i | 0 <= i < |all| ensures Tracks(all[i], world.conns[i]) {
        ghost var c := all[i];
        assert old(Tracks(c, world.conns[i]));
        assert old(c in manager.connections) ==> c.View(false) == Closed(old(c.View(true)));
      }
    }

    /** The handler of an accept; the last three are what the memory of a new connection held. */
    method OnAccept(ok: bool, major: int, minor: int, status: Status)
      requires Valid() && accepts > 0
      modifies this, manager
      ensures Valid() && (forall c :: c in all ==> c in old(all) || fresh(c.Repr()))
      ensures
        var request, reply := RequestValue("", "", major, minor, []), ReplyValue(status, [], "");
        world == if !old(acceptorOpen) then old(world).(accepts := old(world).accepts - 1)
                 else if ok then old(world).(conns := old(world).conns + [Started(request, reply)])
                 else old(world)
    {
      hide Safe, Connection.View, Connection.Valid, Started;
      accepts := accepts - 1;
      if !acceptorOpen {
        world := world.(accepts := accepts);
        return;
      }
      if ok {
        AddConnection(major, minor, status);
      }
      DoAccept();
    }

    method StartConnection(major: int, minor: int, status: Status) returns (c: Connection)
      modifies manager`connections
      ensures c.Valid() && fresh(c.Repr()) && c.manager == manager && c.handler == handler
      ensures manager.connections == old(manager.connections) + {c}
      ensures c.View(true) == Started(RequestValue("", "", major, minor, []), ReplyValue(status, [], ""))
    {
      hide Safe, Connection.View, Connection.Valid;
      c := new Connection(manager, handler, major, minor, status);
      manager.Start(c);
    }

    method AddConnection(major: int, minor: int, status: Status)
      requires ValidBut(1)
      modifies this`all, this`world, manager
      ensures ValidBut(1) && (forall c :: c in all ==> c in old(all) || fresh(c.Repr()))
      ensures
        var request, reply := RequestValue("", "", major, minor, []), ReplyValue(status, [], "");
        world == old(world).(conns := old(world).conns + [Started(request, reply)])
    {
      hide Safe, Connection.View, Connection.Valid, Started;
      var c := StartConnection(major, minor, status);
      ghost var started := c.View(true);
      all := all + [c];
      world := world.(conns := world.conns + [started]);
      forall i | 0 <= i < |all| - 1 ensures Tracks(all[i], world.conns[i]) && all[i].Repr() !! c.Repr() {
        assert old(Tracks(all[i], world.conns[i]));
      }
    }

    /** The handler of a completed read or write. */
    method OnCompletion(e: Event)
      requires Valid() && Enabled(world, e) && !e.AcceptOk? && !e.AcceptFailed? && !e.Signalled?
      modifies this`world, manager, Footprint(all)
      ensures Valid() && all == old(all)
      ensures Safe(old(world).conns[e.id].parse)
      ensures world == old(world).(conns :=
        old(world).conns[e.id := ConnStep(old(world).docRoot, old(world).conns[e.id], e)])
    {
      hide Safe, HasPending, Connection.View, Connection.Valid, ConnStep;
      var c := all[e.id];
      assert Tracks(c, world.conns[e.id]) && c.Seen() == world.conns[e.id];
      c.Deliver(e);
      ghost var seen := c.Seen();
      world := world.(conns := world.conns[e.id := seen]);
      assert Tracks(c, seen);
      forall d | d in manager.connections ensures d in all {
        assert d != c ==> d in manager.connections - {c};
      }
      forall i | 0 <= i < |all| && i != e.id ensures Tracks(all[i], world.conns[i]) {
        ghost var d := all[i];
        assert old(Tracks(d, world.conns[i]));
        assert d.Repr() !! c.Repr() && d in d.Repr() && c in c.Repr();
        assert d in manager.connections - {c} <==> d in old(manager.connections) - {c};
      }
    }

    /** One turn of the event loop. */
    method Dispatch(e: Event)
      requires Valid() && Enabled(world, e)
      modifies this, manager, Footprint(all)
      ensures Valid() && (forall c :: c in all ==> c in old(all) || fresh(c.Repr()))
      ensures AllSafe(old(world)) && world == HttpProtocol.Step(old(world), e)
    {
      WorldIsTracked();
      StepOf(world, e);
      hide Safe, HttpProtocol.Step, Enabled, Started, StopAll, ConnStep;
      hide Footprint, Server.Valid, Server.ValidBut, Connection.Repr;
      match e {
        case AcceptOk(request, reply) => OnAccept(true, request.major, request.minor, reply.status);
        case AcceptFailed => OnAccept(false, 0, 0, Ok);
        case Signalled => OnSignal();
        case _ => OnCompletion(e);
      }
    }

    lemma WorldIsTracked()
      requires Valid()
      ensures AllSafe(world) && |all| == |world.conns|
      ensures world.acceptorOpen == acceptorOpen && world.accepts == accepts
      ensures forall c :: c in all ==> c in Footprint(all) && c.Repr() <= Footprint(all)
      ensures manager.connections <= Footprint(all)
    {
    }

    /** What holds of the objects: a connection is live exactly while its socket is open, and then
        has one pending operation; no live connection is left after the stop. */
    ghost predicate ObjectsOk()
      reads this, manager, set c | c in all
    {
      && (forall c :: c in all ==>
            && (c in manager.connections <==> c.socketOpen)
            && |c.pending| == (if c.socketOpen || c.pending != [] then 1 else 0)
            && c.handled <= c.writes <= 1)
      && (!awaitingSignal ==> manager.connections == {} && !acceptorOpen)
    }

    lemma ObjectsAreOk()
      requires Valid() && WorldOk(world)
      ensures ObjectsOk()
    {
    }

    /** The event loop, whatever completes and in whatever order. */
    method Run(es: seq<Event>)
      requires Valid() && IsRun(world, es)
      modifies this, manager, Footprint(all)
      ensures Valid() && IsRun(old(world), es) && world == Final(old(world), es)
      ensures Initial(old(world)) ==> ObjectsOk()
    {
      hide Enabled, HttpProtocol.Step, AllSafe;
      ghost var start := world;
      for k := 0 to |es|
        invariant Valid() && (forall c :: c in all ==> c in old(all) || fresh(c.Repr()))
        invariant IsRun(world, es[k..]) && Final(world, es[k..]) == Final(start, es)
      {
        assert es[k..][0] == es[k] && es[k..][1..] == es[k + 1..];
        Dispatch(es[k]);
      }
      assert es[|es|..] == [];
      if Initial(start) {
        InitialIsOk(start);
        RunKeepsOk(start, es);
        ObjectsAreOk();
      }
    }
  }

  /** `Step` case by case. */
  lemma StepOf(w: World, e: Event)
    requires AllSafe(w) && Enabled(w, e)
    ensures match e
      case AcceptOk(request, reply) =>
        && w.accepts > 0
        && request == RequestValue("", "", request.major, request.minor, [])
        && reply == ReplyValue(reply.status, [], "")
        && HttpProtocol.Step(w, e) ==
             if w.acceptorOpen then w.(conns := w.conns + [Started(request, reply)]) else w.(accepts := w.accepts - 1)
      case AcceptFailed =>
        w.accepts > 0 && HttpProtocol.Step(w, e) == if w.acceptorOpen then w else w.(accepts := w.accepts - 1)
      case Signalled =>
        HttpProtocol.Step(w, e) == w.(acceptorOpen := false, awaitingSignal := false, conns := StopAll(w.conns))
      case _ =>
        && e.id < |w.conns| && Safe(w.conns[e.id].parse)
        && HttpProtocol.Step(w, e) == w.(conns := w.conns[e.id := ConnStep(w.docRoot, w.conns[e.id], e)])
  {
  }
}
