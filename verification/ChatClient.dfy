/** The chat client's object.  Each handler is proved to do to it what `ClientProtocol.Step` says of
    its event. */
module ChatClients {
  import opened Basics
  import opened ChatMessages
  import opened ClientProtocol

  class ChatClient {
    var connecting: bool
    var socketOpen: bool
    var socketClosed: bool
    var queue: seq<Message>
    var inFlight: seq<Outgoing>
    var reading: Reading
    const readMsg: ChatMessage
    ghost var refused: bool
    ghost var accepted: seq<Message>
    ghost var sent: seq<Message>
    ghost var received: string
    ghost var shown: seq<string>
    ghost var awaited: Option<nat>

    ghost function Repr(): set<object>
      reads this
    {
      {this, readMsg, readMsg.data}
    }

    ghost function View(): Client
      reads Repr()
    {
      Client(
        connecting, socketOpen, socketClosed, queue, inFlight, reading, readMsg.Contents(),
        refused, accepted, sent, received, shown, awaited)
    }

    ghost predicate Valid()
      reads Repr()
    {
      readMsg.Valid() && Safe(View())
    }

    constructor ()
      ensures Valid() && fresh(Repr())
      ensures exists m :: MessageOk(m) && View() == Initial(m)
    {
      connecting, socketOpen, socketClosed := true, true, false;
      queue, inFlight, reading := [], [], NotReading;
      readMsg := new ChatMessage();
      refused, accepted, sent, received, shown, awaited := false, [], [], "", [], None;
      new;
      assert MessageOk(readMsg.Contents()) && View() == Initial(readMsg.Contents());
    }

    method OnConnect(ok: bool)
      requires Valid() && Enabled(View(), Connected(ok))
      modifies this
      ensures Valid() && View() == Step(old(View()), Connected(ok))
    {
      connecting := false;
      refused := !ok && socketOpen;
      if ok {
        DoReadHeader();
      }
    }

    /** What `write` posts. */
    method Write(msg: Message)
      requires Valid() && Enabled(View(), Posted(msg))
      modifies this
      ensures Valid() && View() == Step(old(View()), Posted(msg))
    {
      accepted := accepted + [msg];
      var writeInProgress := queue != [];
      queue := queue + [msg];
      if !writeInProgress {
        DoWrite();
      }
    }

    /** What `close` posts. */
    method CloseSocket()
      requires Valid()
      modifies this
      ensures Valid() && View() == Step(old(View()), CloseRequested)
    {
      socketOpen := false;
    }

    method DoReadHeader()
      modifies this`reading
      ensures reading == Header(socketOpen)
    {
      reading := Header(socketOpen);
    }

    method DoReadBody()
      modifies this`reading
      ensures reading == Body(socketOpen)
    {
      reading := Body(socketOpen);
    }

    method DoWrite()
      requires queue != []
      modifies this`inFlight
      ensures inFlight == old(inFlight) + [Outgoing(queue[0], socketOpen)]
    {
      inFlight := inFlight + [Outgoing(queue[0], socketOpen)];
    }

    method OnHeaderRead(bytes: string, ok: bool)
      requires Valid() && Enabled(View(), HeaderRead(bytes, ok))
      modifies Repr()
      ensures Valid() && View() == Step(old(View()), HeaderRead(bytes, ok))
    {
      hide DecodeLength, OnBody, OnWrite, Post, HeaderDecoded, Filled;
      FilledIsOk(readMsg.Contents(), 0, bytes);
      reading := NotReading;
      readMsg.Receive(0, bytes);
      received := received + bytes;
      HeaderDecodedIsOk(readMsg.Contents());
      var decoded := false;
      if ok {
        decoded := readMsg.DecodeHeader();
      }
      if decoded {
        awaited := Some(readMsg.bodyLength);
        DoReadBody();
      } else {
        var again := readMsg.DecodeHeader();
        socketOpen := false;
        socketClosed := true;
      }
    }

    method OnBodyRead(bytes: string, ok: bool)
      requires Valid() && Enabled(View(), BodyRead(bytes, ok))
      modifies Repr()
      ensures Valid() && View() == Step(old(View()), BodyRead(bytes, ok))
    {
      hide OnHeader, OnWrite, Post, Filled, ChatMessages.Body;
      FilledIsOk(readMsg.Contents(), HEADER_LENGTH, bytes);
      reading := NotReading;
      readMsg.Receive(HEADER_LENGTH, bytes);
      received := received + bytes;
      if ok {
        awaited := None;
        shown := shown + [ChatMessages.Body(readMsg.Contents())];
        DoReadHeader();
      } else {
        socketOpen := false;
        socketClosed := true;
      }
    }

    method OnWriteDone(ok: bool)
      requires Valid() && Enabled(View(), WriteDone(ok)) && |inFlight| <= 1
      modifies this
      ensures Valid() && View() == Step(old(View()), WriteDone(ok))
    {
      hide OnHeader, OnBody, Post;
      ghost var done := inFlight[0].msg;
      inFlight := inFlight[1..];
      if ok {
        queue := queue[1..];
        sent := sent + [done];
        if queue != [] {
          DoWrite();
        } else {
          socketOpen := false;
          socketClosed := true;
        }
      }
    }

    /** One turn of the event loop. */
    method Dispatch(e: Event)
      requires Valid() && PumpOk(View()) && Enabled(View(), e)
      modifies Repr()
      ensures Valid() && PumpOk(View()) && View() == Step(old(View()), e)
    {
      StepKeepsPump(View(), e);
      hide Step;
      match e {
        case Connected(ok) => OnConnect(ok);
        case Posted(msg) => Write(msg);
        case CloseRequested => CloseSocket();
        case HeaderRead(bytes, ok) => OnHeaderRead(bytes, ok);
        case BodyRead(bytes, ok) => OnBodyRead(bytes, ok);
        case WriteDone(ok) => OnWriteDone(ok);
      }
    }

    /** The event loop, whatever completes and in whatever order. */
    method Run(es: seq<Event>)
      requires Valid() && PumpOk(View()) && IsRun(View(), es)
      modifies Repr()
      ensures Valid() && IsRun(old(View()), es) && View() == Final(old(View()), es)
    {
      hide Enabled, Step, PumpOk, Safe;
      ghost var start := View();
      for k := 0 to |es|
        invariant Valid() && PumpOk(View())
        invariant IsRun(View(), es[k..]) && Final(View(), es[k..]) == Final(start, es)
      {
        assert es[k..][0] == es[k] && es[k..][1..] == es[k + 1..];
        Dispatch(es[k]);
      }
      assert es[|es|..] == [];
    }
  }
}
