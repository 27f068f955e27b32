/** The chat message: a fixed buffer of a 4-byte length field and up to 512 bytes of body, and the
    readers of a stream of such frames. */
module ChatMessages {
  import opened Basics
  import opened CText

  const HEADER_LENGTH := 4
  const MAX_BODY_LENGTH := 512

  /** The client asks for the body, the server for the length of the whole message. */
  const CLIENT_EXTRA := 0
  const SERVER_EXTRA := HEADER_LENGTH

  datatype Message = Message(data: string, bodyLength: nat)

  predicate MessageOk(m: Message) {
    |m.data| == HEADER_LENGTH + MAX_BODY_LENGTH && m.bodyLength <= MAX_BODY_LENGTH
  }

  /** The bytes of a message that are written. */
  function Frame(m: Message): string
    requires MessageOk(m)
  {
    m.data[..HEADER_LENGTH + m.bodyLength]
  }

  function Body(m: Message): string
    requires MessageOk(m)
  {
    m.data[HEADER_LENGTH..HEADER_LENGTH + m.bodyLength]
  }

  /** The header has been encoded. */
  predicate Encoded(m: Message) {
    MessageOk(m) && m.data[..HEADER_LENGTH] == Field(m.bodyLength)
  }

  /** The length in a header; a negative one becomes a huge `size_t` and is refused like one that
      is too large. */
  function DecodeLength(header: string): Option<nat> {
    var v := Atoi(CString(header));
    if 0 <= v <= MAX_BODY_LENGTH then Some(v) else None
  }

  lemma DecodeEncodes(n: nat)
    ensures |Field(n)| == HEADER_LENGTH && DecodeLength(Field(n)) == Some(n) <==> n <= MAX_BODY_LENGTH
  {
    if n <= 9999 {
      FieldReadsBack(n);
    }
  }

  /** A reader of the header finds out the length of the body. */
  predicate Decodable(m: Message) {
    MessageOk(m) && DecodeLength(m.data[..HEADER_LENGTH]) == Some(m.bodyLength)
  }

  lemma EncodedIsDecodable(m: Message)
    requires Encoded(m)
    ensures Decodable(m)
  {
    DecodeEncodes(m.bodyLength);
  }

  /** What reading the header does to a message. */
  function HeaderDecoded(m: Message): Message
    requires MessageOk(m)
  {
    m.(bodyLength := DecodeLength(m.data[..HEADER_LENGTH]).UnwrapOr(0))
  }

  /** Decoding keeps a message in order, and decoding it once more changes nothing. */
  lemma HeaderDecodedIsOk(m: Message)
    requires MessageOk(m)
    ensures MessageOk(HeaderDecoded(m)) && HeaderDecoded(HeaderDecoded(m)) == HeaderDecoded(m)
    ensures HeaderDecoded(m).data == m.data
    ensures var n := DecodeLength(m.data[..HEADER_LENGTH]);
      if n.Some? then HeaderDecoded(m).bodyLength == n.value && Decodable(HeaderDecoded(m))
      else HeaderDecoded(m).bodyLength == 0
  {
  }

  /** The buffer after bytes were received into it from an offset on. */
  function Filled(m: Message, at: nat, bytes: string): Message
    requires at + |bytes| <= |m.data|
  {
    m.(data := m.data[..at] + bytes + m.data[at + |bytes|..])
  }

  lemma FilledIsOk(m: Message, at: nat, bytes: string)
    requires MessageOk(m) && at + |bytes| <= |m.data|
    ensures MessageOk(Filled(m, at, bytes))
  {
  }

  /** The bytes of a body read fill the buffer behind the header, which they leave alone. */
  lemma FilledBody(m: Message, bytes: string)
    requires MessageOk(m) && m.bodyLength <= |bytes| && HEADER_LENGTH + |bytes| <= |m.data|
    ensures var f := Filled(m, HEADER_LENGTH, bytes);
      && MessageOk(f) && f.bodyLength == m.bodyLength && f.data[..HEADER_LENGTH] == m.data[..HEADER_LENGTH]
      && f.data[HEADER_LENGTH..HEADER_LENGTH + |bytes|] == bytes && Body(f) == bytes[..m.bodyLength]
      && (Decodable(m) ==> Decodable(f))
  {
    hide DecodeLength;
    var f := Filled(m, HEADER_LENGTH, bytes);
    assert f.data[..HEADER_LENGTH] == m.data[..HEADER_LENGTH];
    assert f.data[HEADER_LENGTH..HEADER_LENGTH + |bytes|] == bytes;
    assert Body(f) == bytes[..m.bodyLength];
  }

  class ChatMessage {
    const data: array<char>
    var bodyLength: nat

    ghost predicate Valid()
      reads this
    {
      data.Length == HEADER_LENGTH + MAX_BODY_LENGTH && bodyLength <= MAX_BODY_LENGTH
    }

    ghost function Contents(): Message
      reads this, data
    {
      Message(data[..], bodyLength)
    }

    constructor ()
      ensures Valid() && bodyLength == 0 && fresh(data)
    {
      data := new char[HEADER_LENGTH + MAX_BODY_LENGTH];
      bodyLength := 0;
    }

    method SetBodyLength(newLength: nat)
      requires Valid()
      modifies this
      ensures Valid()
      ensures bodyLength == if newLength <= MAX_BODY_LENGTH then newLength else MAX_BODY_LENGTH
    {
      bodyLength := newLength;
      if bodyLength > MAX_BODY_LENGTH {
        bodyLength := MAX_BODY_LENGTH;
      }
    }

    method DecodeHeader() returns (ok: bool)
      requires Valid()
      modifies this`bodyLength
      ensures Valid() && Contents() == HeaderDecoded(old(Contents()))
      ensures ok == DecodeLength(data[..HEADER_LENGTH]).Some?
    {
      var header := CString(data[..HEADER_LENGTH]);
      assert data[..][..HEADER_LENGTH] == data[..HEADER_LENGTH];
      var length := Atoi(header);
      if length < 0 || length > MAX_BODY_LENGTH {
        bodyLength := 0;
        return false;
      }
      bodyLength := length;
      return true;
    }

    /** Bytes arrive from the socket. */
    method Receive(at: nat, bytes: string)
      requires Valid() && at + |bytes| <= data.Length
      modifies data
      ensures Valid() && Contents() == Filled(old(Contents()), at, bytes)
    {
      forall k | 0 <= k < |bytes| {
        data[at + k] := bytes[k];
      }
    }

    method EncodeHeader()
      requires Valid()
      modifies data
      ensures Valid() && Encoded(Contents())
      ensures Body(Contents()) == old(Body(Contents())) && data[HEADER_LENGTH..] == old(data[HEADER_LENGTH..])
    {
      var header := Field(bodyLength);
      FieldReadsBack(bodyLength);
      forall k | 0 <= k < HEADER_LENGTH {
        data[k] := header[k];
      }
      assert data[HEADER_LENGTH..] == old(data[HEADER_LENGTH..]);
      assert data[..][..HEADER_LENGTH] == header;
    }
  }

  // ---- reading frames

  datatype Phase = AwaitHeader | AwaitBody(length: nat) | Stopped

  /** The bodies delivered, what is being waited for, and the bytes not yet asked for. */
  datatype Progress = Progress(bodies: seq<string>, phase: Phase, rest: string)

  /** Reads headers and bodies in turn; extra is how many bytes more than the body a body read
      asks for. */
  function ReadFrames(s: string, extra: nat): Progress
    decreases |s|
  {
    if |s| < HEADER_LENGTH then Progress([], AwaitHeader, s)
    else
      var t := s[HEADER_LENGTH..];
      match DecodeLength(s[..HEADER_LENGTH])
      case None => Progress([], Stopped, t)
      case Some(n) =>
        if |t| < n + extra then Progress([], AwaitBody(n), t)
        else var p := ReadFrames(t[n + extra..], extra); p.(bodies := [t[..n]] + p.bodies)
  }

  predicate AllDecodable(ms: seq<Message>) {
    forall k :: 0 <= k < |ms| ==> Decodable(ms[k])
  }

  function Frames(ms: seq<Message>): string
    requires AllDecodable(ms)
  {
    if ms == [] then "" else Frame(ms[0]) + Frames(ms[1..])
  }

  function Bodies(ms: seq<Message>): seq<string>
    requires AllDecodable(ms)
  {
    seq(|ms|, i requires 0 <= i < |ms| => Body(ms[i]))
  }

  lemma ReadOne(header: string, n: nat, body: string, next: string, extra: nat)
    requires |header| == HEADER_LENGTH && DecodeLength(header) == Some(n) && |body| == n + extra
    ensures var p := ReadFrames(next, extra);
      ReadFrames(header + (body + next), extra) == p.(bodies := [body[..n]] + p.bodies)
  {
    hide DecodeLength;
    var s := header + (body + next);
    assert s[..HEADER_LENGTH] == header && s[HEADER_LENGTH..] == body + next;
    assert (body + next)[n + extra..] == next && (body + next)[..n] == body[..n];
  }

  lemma FrameIs(m: Message)
    requires Decodable(m)
    ensures Frame(m) == m.data[..HEADER_LENGTH] + Body(m) && |Body(m)| == m.bodyLength
  {
  }

  /** The client gets exactly the bodies that were sent and is back at a frame boundary, where it
      goes on with whatever follows. */
  lemma {:induction false} ClientReadsFrames(ms: seq<Message>, rest: string)
    requires AllDecodable(ms)
    ensures var p := ReadFrames(rest, CLIENT_EXTRA);
      ReadFrames(Frames(ms) + rest, CLIENT_EXTRA) == p.(bodies := Bodies(ms) + p.bodies)
    decreases |ms|
  {
    hide ReadFrames, DecodeLength, Body, Frame;
    var p := ReadFrames(rest, CLIENT_EXTRA);
    if ms == [] {
      assert Frames(ms) + rest == rest && Bodies(ms) + p.bodies == p.bodies;
    } else {
      var m, next := ms[0], Frames(ms[1..]) + rest;
      var header := m.data[..HEADER_LENGTH];
      FrameIs(m);
      assert Body(m)[..m.bodyLength] == Body(m);
      assert Frames(ms) + rest == header + (Body(m) + next);
      ReadOne(header, m.bodyLength, Body(m), next, CLIENT_EXTRA);
      ClientReadsFrames(ms[1..], rest);
      assert Bodies(ms) == [Body(m)] + Bodies(ms[1..]);
      assert [Body(m)] + (Bodies(ms[1..]) + p.bodies) == Bodies(ms) + p.bodies;
    }
  }

  lemma ClientReadsExactly(ms: seq<Message>)
    requires AllDecodable(ms)
    ensures ReadFrames(Frames(ms), CLIENT_EXTRA) == Progress(Bodies(ms), AwaitHeader, "")
  {
    ClientReadsFrames(ms, "");
    assert Frames(ms) + "" == Frames(ms) && Bodies(ms) + [] == Bodies(ms);
  }

  /** The first frame of a stream: its length, its body and what follows. */
  function FirstBody(s: string): (n: nat)
    requires |s| >= HEADER_LENGTH && DecodeLength(s[..HEADER_LENGTH]).Some?
  {
    DecodeLength(s[..HEADER_LENGTH]).value
  }

  predicate HasFrame(s: string, extra: nat) {
    |s| >= HEADER_LENGTH && DecodeLength(s[..HEADER_LENGTH]).Some? && HEADER_LENGTH + FirstBody(s) + extra <= |s|
  }

  function AfterFrame(s: string, extra: nat): string
    requires HasFrame(s, extra)
  {
    s[HEADER_LENGTH + FirstBody(s) + extra..]
  }

  lemma FirstFrame(s: string, t: string, extra: nat)
    requires HasFrame(s, extra)
    ensures var body := s[HEADER_LENGTH..HEADER_LENGTH + FirstBody(s)];
      var p := ReadFrames(AfterFrame(s, extra) + t, extra);
      ReadFrames(s + t, extra) == p.(bodies := [body] + p.bodies)
  {
    hide DecodeLength, ReadFrames;
    var n := FirstBody(s);
    var header, read, next := s[..HEADER_LENGTH], s[HEADER_LENGTH..HEADER_LENGTH + n + extra], AfterFrame(s, extra);
    assert read[..n] == s[HEADER_LENGTH..HEADER_LENGTH + n];
    ReadOne(header, n, read, next + t, extra);
    assert s + t == header + (read + (next + t));
  }

  lemma NoFrame(s: string, extra: nat)
    requires !HasFrame(s, extra)
    ensures ReadFrames(s, extra).bodies == []
    ensures AtHeader(s, [], extra) ==> s == ""
  {
  }

  /** A reader that has delivered these bodies from these bytes awaits a header. */
  predicate AtHeader(received: string, bodies: seq<string>, extra: nat) {
    ReadFrames(received, extra) == Progress(bodies, AwaitHeader, "")
  }

  /** It awaits a body of length n, having just received the header. */
  predicate AtBody(received: string, bodies: seq<string>, n: nat, extra: nat) {
    var k := |received| - HEADER_LENGTH;
    k >= 0 && AtHeader(received[..k], bodies, extra) && DecodeLength(received[k..]) == Some(n)
  }

  lemma AtStart(extra: nat)
    ensures AtHeader("", [], extra)
  {
  }

  /** Reading more after a frame boundary. */
  lemma {:induction false} ReadOn(s: string, t: string, bodies: seq<string>, extra: nat)
    requires AtHeader(s, bodies, extra)
    ensures var q := ReadFrames(t, extra); ReadFrames(s + t, extra) == q.(bodies := bodies + q.bodies)
    decreases |s|
  {
    hide ReadFrames, DecodeLength;
    if HasFrame(s, extra) {
      var next := AfterFrame(s, extra);
      FirstFrame(s, "", extra);
      assert s + "" == s && next + "" == next;
      FirstFrame(s, t, extra);
      ReadOn(next, t, ReadFrames(next, extra).bodies, extra);
    } else {
      NoFrame(s, extra);
      assert s + t == t;
    }
  }

  lemma HeaderArrives(received: string, bodies: seq<string>, bytes: string, n: nat, extra: nat)
    requires AtHeader(received, bodies, extra) && |bytes| == HEADER_LENGTH && DecodeLength(bytes) == Some(n)
    ensures AtBody(received + bytes, bodies, n, extra)
  {
    hide AtHeader, DecodeLength;
    var s := received + bytes;
    assert s[..|received|] == received && s[|received|..] == bytes;
  }

  /** A part of a header, or one that is refused, delivers nothing. */
  lemma HeaderFails(received: string, bodies: seq<string>, bytes: string, extra: nat)
    requires AtHeader(received, bodies, extra)
    requires |bytes| < HEADER_LENGTH || (|bytes| == HEADER_LENGTH && DecodeLength(bytes).None?)
    ensures ReadFrames(received + bytes, extra).bodies == bodies
  {
    hide ReadFrames, DecodeLength;
    ReadOn(received, bytes, bodies, extra);
    assert |bytes| == HEADER_LENGTH ==> bytes[..HEADER_LENGTH] == bytes;
    NoFrame(bytes, extra);
    assert bodies + [] == bodies;
  }

  lemma BodyArrives(received: string, bodies: seq<string>, n: nat, bytes: string, extra: nat)
    requires AtBody(received, bodies, n, extra) && |bytes| == n + extra
    ensures AtHeader(received + bytes, bodies + [bytes[..n]], extra)
  {
    hide ReadFrames, DecodeLength;
    var k := |received| - HEADER_LENGTH;
    var before, header := received[..k], received[k..];
    ReadOn(before, header + bytes, bodies, extra);
    assert received + bytes == before + (header + bytes) && bytes + "" == bytes;
    ReadOne(header, n, bytes, "", extra);
    AtStart(extra);
  }

  /** A part of a body delivers nothing, but for a reader that asks for no byte at all. */
  lemma BodyFails(received: string, bodies: seq<string>, n: nat, bytes: string, extra: nat)
    requires AtBody(received, bodies, n, extra) && (|bytes| < n + extra || bytes == "")
    ensures ReadFrames(received + bytes, extra).bodies == if n + extra == 0 then bodies + [""] else bodies
  {
    hide ReadFrames, DecodeLength;
    var k := |received| - HEADER_LENGTH;
    var before, header := received[..k], received[k..];
    var s := header + bytes;
    ReadOn(before, s, bodies, extra);
    assert received + bytes == before + s && s[..HEADER_LENGTH] == header;
    if n + extra == 0 {
      BodyArrives(received, bodies, n, bytes, extra);
    } else {
      NoFrame(s, extra);
      assert bodies + [] == bodies;
    }
  }

  /** What arrives later does not change what was read before. */
  lemma {:induction false} ReadingGrows(s: string, t: string, extra: nat)
    ensures ReadFrames(s, extra).bodies <= ReadFrames(s + t, extra).bodies
    decreases |s|
  {
    hide ReadFrames, DecodeLength;
    if HasFrame(s, extra) {
      var next := AfterFrame(s, extra);
      FirstFrame(s, "", extra);
      assert s + "" == s && next + "" == next;
      FirstFrame(s, t, extra);
      ReadingGrows(next, t, extra);
    } else {
      NoFrame(s, extra);
    }
  }

  function Lengths(bodies: seq<string>): nat {
    if bodies == [] then 0 else |bodies[0]| + Lengths(bodies[1..])
  }

  lemma {:induction false} BytesUsed(s: string, extra: nat)
    ensures var p := ReadFrames(s, extra);
      |s| >= Lengths(p.bodies) + HEADER_LENGTH * |p.bodies| + extra * |p.bodies|
    decreases |s|
  {
    hide DecodeLength;
    if |s| >= HEADER_LENGTH && DecodeLength(s[..HEADER_LENGTH]).Some? {
      var n, t := DecodeLength(s[..HEADER_LENGTH]).value, s[HEADER_LENGTH..];
      if |t| >= n + extra {
        var q := ReadFrames(t[n + extra..], extra);
        BytesUsed(t[n + extra..], extra);
        assert ReadFrames(s, extra).bodies == [t[..n]] + q.bodies;
        assert ([t[..n]] + q.bodies)[1..] == q.bodies;
        OneMore(extra, |q.bodies|);
      }
    }
  }

  lemma OneMore(x: nat, k: nat)
    ensures x * (k + 1) == x * k + x
  {
  }

  lemma {:induction false} BytesSent(ms: seq<Message>)
    requires AllDecodable(ms)
    ensures |Frames(ms)| == Lengths(Bodies(ms)) + HEADER_LENGTH * |ms|
    decreases |ms|
  {
    if ms != [] {
      BytesSent(ms[1..]);
      assert Bodies(ms)[1..] == Bodies(ms[1..]);
    }
  }

  /** The server's reader, which asks for four bytes too many with each body, gets what was sent
      only when nothing was sent. */
  lemma ServerReadsOnlyNothing(ms: seq<Message>)
    requires AllDecodable(ms)
    ensures ReadFrames(Frames(ms), SERVER_EXTRA).bodies == Bodies(ms) <==> ms == []
  {
    hide ReadFrames, Frames, Decodable, Lengths, Body;
    BytesUsed(Frames(ms), SERVER_EXTRA);
    BytesSent(ms);
    NothingRead();
  }

  lemma NothingRead()
    ensures Frames([]) == "" && ReadFrames("", SERVER_EXTRA).bodies == [] && Bodies([]) == []
  {
  }

  /** A server that got one frame is still waiting for the end of its body. */
  lemma OneFrameIsNotEnough(m: Message)
    requires Decodable(m)
    ensures ReadFrames(Frame(m), SERVER_EXTRA) == Progress([], AwaitBody(m.bodyLength), Body(m))
  {
    hide DecodeLength;
    assert Frame(m)[..HEADER_LENGTH] == m.data[..HEADER_LENGTH] && Frame(m)[HEADER_LENGTH..] == Body(m);
  }

  /** A concrete stream of one message, of which a server reads nothing. */
  lemma OneMessageIsNotRead()
    ensures var m := Message(Field(1) + seq(MAX_BODY_LENGTH, _ => 'x'), 1);
      Encoded(m) && Decodable(m) && Bodies([m]) == ["x"] && ReadFrames(Frames([m]), SERVER_EXTRA).bodies == []
  {
    FieldReadsBack(1);
    var m := Message(Field(1) + seq(MAX_BODY_LENGTH, _ => 'x'), 1);
    assert m.data[..HEADER_LENGTH] == Field(1);
    EncodedIsDecodable(m);
    OneFrameIsNotEnough(m);
    hide Decodable, ReadFrames, Field;
    assert [m][1..] == [] && Frames([]) == "" && Frame(m) + "" == Frame(m);
    assert Body(m) == "x";
  }
}
