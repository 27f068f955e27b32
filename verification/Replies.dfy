/** Replies: their serialisation, a reader that recovers them, and the stock replies. */
module Replies {
  import opened Basics
  import opened Decimal
  import opened CharClasses
  import opened RequestGrammar

  datatype Status =
    | Ok | Created | AcceptedStatus | NoContent
    | MultipleChoices | MovedPermanently | MovedTemporarily | NotModified
    | BadRequest | Unauthorized | Forbidden | NotFound
    | InternalServerError | NotImplemented | BadGateway | ServiceUnavailable

  datatype ReplyValue = ReplyValue(status: Status, headers: seq<Header>, content: string)

  function Code(s: Status): string {
    match s
    case Ok => "200"
    case Created => "201"
    case AcceptedStatus => "202"
    case NoContent => "204"
    case MultipleChoices => "300"
    case MovedPermanently => "301"
    case MovedTemporarily => "302"
    case NotModified => "304"
    case BadRequest => "400"
    case Unauthorized => "401"
    case Forbidden => "403"
    case NotFound => "404"
    case InternalServerError => "500"
    case NotImplemented => "501"
    case BadGateway => "502"
    case ServiceUnavailable => "503"
  }

  function Reason(s: Status): string {
    match s
    case Ok => "OK"
    case Created => "Created"
    case AcceptedStatus => "Accepted"
    case NoContent => "No Content"
    case MultipleChoices => "Multiple Choices"
    case MovedPermanently => "Moved Permanently"
    case MovedTemporarily => "Moved Temporarily"
    case NotModified => "Not Modified"
    case BadRequest => "Bad Request"
    case Unauthorized => "Unauthorized"
    case Forbidden => "Forbidden"
    case NotFound => "Not Found"
    case InternalServerError => "Internal Server Error"
    case NotImplemented => "Not Implemented"
    case BadGateway => "Bad Gateway"
    case ServiceUnavailable => "Service Unavailable"
  }

  /** The status line without its CRLF. */
  function StatusText(s: Status): string {
    "HTTP/1.0 " + (Code(s) + (" " + Reason(s)))
  }

  function TitleLine(s: Status): string {
    "<head><title>" + Reason(s) + "</title></head>"
  }

  /** The heading of 204 leaves out "No". */
  function HeadingLine(s: Status): string {
    "<body><h1>" + Code(s) + " " + (if s == NoContent then "Content" else Reason(s)) + "</h1></body>"
  }

  /** The page of a stock reply. */
  function StockContent(s: Status): string {
    if s == Ok then "" else "<html>" + TitleLine(s) + HeadingLine(s) + "</html>"
  }

  function Stock(s: Status): ReplyValue {
    var content := StockContent(s);
    ReplyValue(s, [Header("Content-Length", Digits(|content|)), Header("Content-Type", "test/html")], content)
  }

  function HeaderLine(h: Header): string {
    h.name + ": " + h.value + CRLF
  }

  function HeaderLines(hs: seq<Header>): string {
    if hs == [] then "" else HeaderLine(hs[0]) + HeaderLines(hs[1..])
  }

  function Serialize(r: ReplyValue): string {
    StatusText(r.status) + CRLF + (HeaderLines(r.headers) + (CRLF + r.content))
  }

  // ---- reading a reply back

  /** Where the first CRLF of s starts, if there is one. */
  function FindCrlf(s: string): Option<nat> {
    if |s| < 2 then None
    else if s[0] == '\r' && s[1] == '\n' then Some(0)
    else match FindCrlf(s[1..])
      case Some(k) => Some(k + 1)
      case None => None
  }

  lemma {:induction false} FindCrlfAfter(x: string, rest: string)
    requires '\r' !in x
    ensures FindCrlf(x + CRLF + rest) == Some(|x|)
    decreases |x|
  {
    if x == "" {
      assert x + CRLF + rest == CRLF + rest;
    } else {
      FindCrlfAfter(x[1..], rest);
      assert (x + CRLF + rest)[1..] == x[1..] + CRLF + rest;
    }
  }

  lemma FindCrlfInside(s: string)
    ensures FindCrlf(s).Some? ==> FindCrlf(s).value + 2 <= |s|
  {
  }

  function FindColon(s: string): (k: nat)
    ensures k <= |s|
  {
    if s == "" || s[0] == ':' then 0 else 1 + FindColon(s[1..])
  }

  lemma {:induction false} FindColonAfter(x: string, rest: string)
    requires ':' !in x
    ensures FindColon(x + ":" + rest) == |x|
    decreases |x|
  {
    if x == "" {
      assert x + ":" + rest == ":" + rest;
    } else {
      FindColonAfter(x[1..], rest);
      assert (x + ":" + rest)[1..] == x[1..] + ":" + rest;
    }
  }

  function ReadHeader(line: string): Option<Header> {
    var k := FindColon(line);
    if k + 2 <= |line| && line[k + 1] == ' ' then Some(Header(line[..k], line[k + 2..])) else None
  }

  /** The header list up to the empty line, and what follows that line. */
  function ReadHeaders(s: string): Option<(seq<Header>, string)>
    decreases |s|
  {
    FindCrlfInside(s);
    match FindCrlf(s)
    case None => None
    case Some(k) =>
      if k == 0 then Some(([], s[2..]))
      else match ReadHeader(s[..k])
        case None => None
        case Some(h) =>
          match ReadHeaders(s[k + 2..])
          case None => None
          case Some(r) => Some(([h] + r.0, r.1))
  }

  const STATUSES := [
    Ok, Created, AcceptedStatus, NoContent, MultipleChoices, MovedPermanently, MovedTemporarily, NotModified,
    BadRequest, Unauthorized, Forbidden, NotFound, InternalServerError, NotImplemented, BadGateway, ServiceUnavailable]

  function ReadStatus(line: string, candidates: seq<Status>): Option<Status> {
    if candidates == [] then None
    else if StatusText(candidates[0]) == line then Some(candidates[0])
    else ReadStatus(line, candidates[1..])
  }

  function ReadReply(s: string): Option<ReplyValue> {
    FindCrlfInside(s);
    match FindCrlf(s)
    case None => None
    case Some(k) =>
      match ReadStatus(s[..k], STATUSES)
      case None => None
      case Some(status) =>
        match ReadHeaders(s[k + 2..])
        case None => None
        case Some(r) => Some(ReplyValue(status, r.0, r.1))
  }

  /** What a header must not contain for its line to be readable. */
  predicate HeaderReadable(h: Header) {
    ':' !in h.name && '\r' !in h.name && '\r' !in h.value
  }

  predicate ReplyReadable(r: ReplyValue) {
    forall k :: 0 <= k < |r.headers| ==> HeaderReadable(r.headers[k])
  }

  lemma ReadHeaderLine(h: Header)
    requires HeaderReadable(h)
    ensures ReadHeader(h.name + ": " + h.value) == Some(h)
  {
    var line := h.name + ": " + h.value;
    FindColonAfter(h.name, " " + h.value);
    assert line == h.name + ":" + (" " + h.value);
    assert line[..|h.name|] == h.name && line[|h.name| + 2..] == h.value;
  }

  lemma {:induction false} ReadHeaderLines(hs: seq<Header>, content: string)
    requires forall k :: 0 <= k < |hs| ==> HeaderReadable(hs[k])
    ensures ReadHeaders(HeaderLines(hs) + (CRLF + content)) == Some((hs, content))
    decreases |hs|
  {
    var s := HeaderLines(hs) + (CRLF + content);
    if hs == [] {
      assert s == "" + CRLF + content;
      FindCrlfAfter("", content);
      assert s[2..] == content;
    } else {
      var line := hs[0].name + ": " + hs[0].value;
      var rest := HeaderLines(hs[1..]) + (CRLF + content);
      assert s == line + CRLF + rest;
      FindCrlfAfter(line, rest);
      assert s[..|line|] == line && s[|line| + 2..] == rest;
      ReadHeaderLine(hs[0]);
      ReadHeaderLines(hs[1..], content);
      assert [hs[0]] + hs[1..] == hs;
    }
  }

  lemma CodesDiffer(s: Status, s': Status)
    requires Code(s) == Code(s')
    ensures s == s'
  {
  }

  lemma CodesAreShort(s: Status)
    ensures |Code(s)| == 3
  {
  }

  lemma StatusTextsDiffer(s: Status, s': Status)
    requires StatusText(s) == StatusText(s')
    ensures s == s'
  {
    CodesAreShort(s);
    CodesAreShort(s');
    hide Code, Reason;
    assert Code(s) == StatusText(s)[9..12] == StatusText(s')[9..12] == Code(s');
    CodesDiffer(s, s');
  }

  lemma {:induction false} ReadStatusText(s: Status, candidates: seq<Status>)
    requires s in candidates
    ensures ReadStatus(StatusText(s), candidates) == Some(s)
    decreases |candidates|
  {
    hide StatusText;
    if StatusText(candidates[0]) == StatusText(s) {
      StatusTextsDiffer(s, candidates[0]);
    } else {
      ReadStatusText(s, candidates[1..]);
    }
  }

  lemma StatusIsListed(s: Status)
    ensures s in STATUSES
  {
  }

  lemma CodeIsOneLine(s: Status)
    ensures '\r' !in Code(s)
  {
  }

  lemma ReasonIsOneLine(s: Status)
    ensures '\r' !in Reason(s)
  {
    hide Reason;
    match s {
      case Ok | Created | AcceptedStatus | NoContent => SuccessReasons(s);
      case MultipleChoices | MovedPermanently | MovedTemporarily | NotModified => RedirectionReasons(s);
      case BadRequest | Unauthorized | Forbidden | NotFound => ClientErrorReasons(s);
      case _ => ServerErrorReasons(s);
    }
  }

  lemma SuccessReasons(s: Status)
    requires s.Ok? || s.Created? || s.AcceptedStatus? || s.NoContent?
    ensures '\r' !in Reason(s)
  {
  }

  lemma RedirectionReasons(s: Status)
    requires s.MultipleChoices? || s.MovedPermanently? || s.MovedTemporarily? || s.NotModified?
    ensures '\r' !in Reason(s)
  {
  }

  lemma ClientErrorReasons(s: Status)
    requires s.BadRequest? || s.Unauthorized? || s.Forbidden? || s.NotFound?
    ensures '\r' !in Reason(s)
  {
  }

  lemma ServerErrorReasons(s: Status)
    requires s.InternalServerError? || s.NotImplemented? || s.BadGateway? || s.ServiceUnavailable?
    ensures '\r' !in Reason(s)
  {
  }

  lemma StatusIsOneLine(s: Status)
    ensures '\r' !in StatusText(s)
  {
    CodeIsOneLine(s);
    ReasonIsOneLine(s);
    hide Code, Reason;
  }

  /** A client recovers status, headers and content from the bytes. */
  lemma SerializeThenRead(r: ReplyValue)
    requires ReplyReadable(r)
    ensures ReadReply(Serialize(r)) == Some(r)
  {
    var line, rest := StatusText(r.status), HeaderLines(r.headers) + (CRLF + r.content);
    StatusIsListed(r.status);
    StatusIsOneLine(r.status);
    hide StatusText, HeaderLines;
    FindCrlfAfter(line, rest);
    var s := line + CRLF + rest;
    assert s[..|line|] == line && s[|line| + 2..] == rest;
    ReadStatusText(r.status, STATUSES);
    ReadHeaderLines(r.headers, r.content);
  }

  /** The length header of a reply says how long its content is. */
  predicate LengthIsRight(r: ReplyValue) {
    r.headers != [] && IsNumeral(r.headers[0].value) && Value(r.headers[0].value) == |r.content|
  }

  lemma NumeralIsPlain(s: string)
    requires All(IsDigit, s)
    ensures '\r' !in s && ':' !in s
  {
  }

  lemma StockIsReadable(s: Status)
    ensures ReplyReadable(Stock(s)) && LengthIsRight(Stock(s))
    ensures ReadReply(Serialize(Stock(s))) == Some(Stock(s))
  {
    hide StockContent;
    ValueOfDigits(|StockContent(s)|);
    NumeralIsPlain(Digits(|StockContent(s)|));
    SerializeThenRead(Stock(s));
  }

  // ---- the statuses by number, and what is sent

  /** The value of the status in the enumeration. */
  function Number(s: Status): nat {
    match s
    case Ok => 200
    case Created => 201
    case AcceptedStatus => 202
    case NoContent => 204
    case MultipleChoices => 300
    case MovedPermanently => 301
    case MovedTemporarily => 302
    case NotModified => 304
    case BadRequest => 400
    case Unauthorized => 401
    case Forbidden => 403
    case NotFound => 404
    case InternalServerError => 500
    case NotImplemented => 501
    case BadGateway => 502
    case ServiceUnavailable => 503
  }

  lemma ThreeDigits(a: char, b: char, c: char)
    requires IsDigit(a) && IsDigit(b) && IsDigit(c)
    ensures All(IsDigit, [a, b, c]) && Value([a, b, c]) == 100 * DigitValue(a) + 10 * DigitValue(b) + DigitValue(c)
  {
    ValueSnoc("", a);
    ValueSnoc([a], b);
    ValueSnoc([a, b], c);
    assert "" + [a] == [a] && [a] + [b] == [a, b] && [a, b] + [c] == [a, b, c];
  }

  /** The code in the status line is the number of the status. */
  lemma CodeIsNumber(s: Status)
    ensures IsNumeral(Code(s)) && Value(Code(s)) == Number(s)
  {
    var c := Code(s);
    assert c == [c[0], c[1], c[2]];
    ThreeDigits(c[0], c[1], c[2]);
    hide Value, Reason;
  }

  /** The reason phrases, in the order of the enumeration. */
  lemma Reasons()
    ensures Reason(Ok) == "OK" && Reason(Created) == "Created" && Reason(AcceptedStatus) == "Accepted"
    ensures Reason(NoContent) == "No Content" && Reason(MultipleChoices) == "Multiple Choices"
    ensures Reason(MovedPermanently) == "Moved Permanently" && Reason(MovedTemporarily) == "Moved Temporarily"
    ensures Reason(NotModified) == "Not Modified" && Reason(BadRequest) == "Bad Request"
    ensures Reason(Unauthorized) == "Unauthorized" && Reason(Forbidden) == "Forbidden"
    ensures Reason(NotFound) == "Not Found" && Reason(InternalServerError) == "Internal Server Error"
    ensures Reason(NotImplemented) == "Not Implemented" && Reason(BadGateway) == "Bad Gateway"
    ensures Reason(ServiceUnavailable) == "Service Unavailable"
  {
  }

  /** The status lines of the server. */
  lemma StatusLines()
    ensures StatusText(Ok) == "HTTP/1.0 200 OK"
    ensures StatusText(BadRequest) == "HTTP/1.0 400 Bad Request"
    ensures StatusText(NotFound) == "HTTP/1.0 404 Not Found"
  {
  }

  const BAD_REQUEST_PAGE :=
    "<html>" + ("<head><title>" + "Bad Request" + "</title></head>")
    + ("<body><h1>" + "400" + " " + "Bad Request" + "</h1></body>") + "</html>"
  const NOT_FOUND_PAGE :=
    "<html>" + ("<head><title>" + "Not Found" + "</title></head>")
    + ("<body><h1>" + "404" + " " + "Not Found" + "</h1></body>") + "</html>"
  const NO_CONTENT_PAGE :=
    "<html>" + ("<head><title>" + "No Content" + "</title></head>")
    + ("<body><h1>" + "204" + " " + "Content" + "</h1></body>") + "</html>"

  lemma Pages()
    ensures StockContent(BadRequest) == BAD_REQUEST_PAGE && StockContent(NotFound) == NOT_FOUND_PAGE
    ensures StockContent(NoContent) == NO_CONTENT_PAGE && StockContent(Ok) == ""
  {
  }

  lemma WithTwoHeaders(s: Status, h: Header, h': Header, content: string)
    ensures Serialize(ReplyValue(s, [h, h'], content)) ==
      StatusText(s) + CRLF + (HeaderLine(h) + HeaderLine(h') + (CRLF + content))
  {
    hide StatusText, HeaderLine;
    assert [h, h'][1..] == [h'] && [h'][1..] == [];
    assert HeaderLines([h']) == HeaderLine(h') + "" == HeaderLine(h');
  }

  /** A stock reply byte by byte, for any status line and page. */
  lemma StockOnTheWire(s: Status)
    ensures Serialize(Stock(s)) ==
      StatusText(s) + "\r\n" +
      ("Content-Length: " + Digits(|StockContent(s)|) + "\r\n" + ("Content-Type: test/html" + "\r\n") +
       ("\r\n" + StockContent(s)))
  {
    hide StatusText, StockContent, Digits;
    var hs := Stock(s).headers;
    assert hs[1..] == [hs[1]] && hs[1..][1..] == [];
    assert HeaderLines(hs[1..]) == HeaderLine(hs[1]) + "";
  }

  /** The two stock replies of the server. */
  lemma BadRequestOnTheWire()
    ensures Serialize(Stock(BadRequest)) ==
      "HTTP/1.0 400 Bad Request" + "\r\n" +
      ("Content-Length: " + "89" + "\r\n" + ("Content-Type: test/html" + "\r\n") + ("\r\n" + BAD_REQUEST_PAGE))
  {
    StockOnTheWire(BadRequest);
    StatusLines();
    Pages();
    assert Digits(89) == "89";
    hide StatusText, StockContent, Digits, Serialize;
    assert |BAD_REQUEST_PAGE| == 89;
  }

  lemma NotFoundOnTheWire()
    ensures Serialize(Stock(NotFound)) ==
      "HTTP/1.0 404 Not Found" + "\r\n" +
      ("Content-Length: " + "85" + "\r\n" + ("Content-Type: test/html" + "\r\n") + ("\r\n" + NOT_FOUND_PAGE))
  {
    StockOnTheWire(NotFound);
    StatusLines();
    Pages();
    assert Digits(85) == "85";
    hide StatusText, StockContent, Digits, Serialize;
    assert |NOT_FOUND_PAGE| == 85;
  }

  // ---- the reply object

  function Resized(hs: seq<Header>, n: nat): (r: seq<Header>)
    ensures |r| == n
  {
    if n <= |hs| then hs[..n] else hs + seq(n - |hs|, _ => Header("", ""))
  }

  function Flatten(buffers: seq<string>): string {
    if buffers == [] then "" else buffers[0] + Flatten(buffers[1..])
  }

  lemma {:induction false} FlattenAppend(a: seq<string>, b: seq<string>)
    ensures Flatten(a + b) == Flatten(a) + Flatten(b)
    decreases |a|
  {
    if a == [] {
      assert a + b == b;
    } else {
      FlattenAppend(a[1..], b);
      assert (a + b)[1..] == a[1..] + b;
    }
  }

  class Reply {
    var status: Status
    var headers: seq<Header>
    var content: string

    ghost function Contents(): ReplyValue
      reads this
    {
      ReplyValue(status, headers, content)
    }

    /** The status is left uninitialised: it holds whatever was there. */
    constructor (oldStatus: Status)
      ensures Contents() == ReplyValue(oldStatus, [], "")
    {
      status, headers, content := oldStatus, [], "";
    }

    method Assign(other: Reply)
      modifies this
      ensures Contents() == old(other.Contents())
    {
      status, headers, content := other.status, other.headers, other.content;
    }

    method ResizeHeaders(n: nat)
      modifies this`headers
      ensures headers == Resized(old(headers), n)
    {
      headers := Resized(headers, n);
    }

    method SetHeader(i: nat, name: string, value: string)
      requires i < |headers|
      modifies this`headers
      ensures headers == old(headers)[i := Header(name, value)]
    {
      headers := headers[i := Header(name, value)];
    }

    /** The buffers of one gathered write. */
    method ToBuffers() returns (buffers: seq<string>)
      ensures Flatten(buffers) == Serialize(Contents())
    {
      hide StatusText, HeaderLines, HeaderLine, Serialize;
      buffers := [StatusText(status) + CRLF];
      assert headers[0..] == headers && Flatten(buffers) == buffers[0];
      hide Flatten;
      for i := 0 to |headers|
        invariant Flatten(buffers) + HeaderLines(headers[i..]) == StatusText(status) + CRLF + HeaderLines(headers)
      {
        var h := headers[i];
        ghost var before := buffers;
        FlattenAppend(buffers, [h.name, ": ", h.value, CRLF]);
        FlattenLine(h);
        HeaderLinesFrom(headers, i);
        buffers := buffers + [h.name, ": ", h.value, CRLF];
        Assoc(Flatten(before), HeaderLine(h), HeaderLines(headers[i + 1..]));
      }
      NoLinesLeft(headers);
      FlattenAppend(buffers, [CRLF, content]);
      buffers := buffers + [CRLF, content];
      SerializeSplit(Contents());
    }

    static method StockReply(status: Status) returns (rep: Reply)
      ensures fresh(rep) && rep.Contents() == Stock(status)
    {
      rep := new Reply(Ok);
      rep.status := status;
      rep.content := StockContent(status);
      rep.ResizeHeaders(2);
      rep.SetHeader(0, "Content-Length", Digits(|rep.content|));
      rep.SetHeader(1, "Content-Type", "test/html");
    }
  }

  lemma FlattenLine(h: Header)
    ensures Flatten([h.name, ": ", h.value, CRLF]) == HeaderLine(h)
  {
    var all := [h.name, ": ", h.value, CRLF];
    assert all[1..] == [": ", h.value, CRLF] && all[1..][1..] == [h.value, CRLF];
    assert all[1..][1..][1..] == [CRLF] && all[1..][1..][1..][1..] == [];
    assert Flatten([CRLF]) == CRLF;
    assert Flatten([h.value, CRLF]) == h.value + CRLF;
    assert Flatten([": ", h.value, CRLF]) == ": " + h.value + CRLF;
  }

  lemma HeaderLinesFrom(hs: seq<Header>, i: nat)
    requires i < |hs|
    ensures HeaderLines(hs[i..]) == HeaderLine(hs[i]) + HeaderLines(hs[i + 1..])
  {
  }

  lemma NoLinesLeft(hs: seq<Header>)
    ensures HeaderLines(hs[|hs|..]) == ""
  {
  }

  lemma SerializeSplit(r: ReplyValue)
    ensures StatusText(r.status) + CRLF + HeaderLines(r.headers) + Flatten([CRLF, r.content]) == Serialize(r)
  {
    hide StatusText, HeaderLines;
    assert [CRLF, r.content][1..] == [r.content] && [r.content][1..] == [];
    assert Flatten([r.content]) == r.content;
    Assoc(StatusText(r.status) + CRLF, HeaderLines(r.headers), CRLF + r.content);
  }
}
