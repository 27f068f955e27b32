/** Turning a request into a reply: path checks, file lookup and the chunked file read. */
module RequestHandling {
  import opened Basics
  import opened RequestGrammar
  import opened RequestParsing
  import opened Decimal
  import opened Replies
  import opened UrlDecoding
  import opened CText

  /** Some two neighbouring characters are dots. */
  predicate HasDotDot(p: string) {
    exists i :: 0 <= i < |p| - 1 && p[i] == '.' && p[i + 1] == '.'
  }

  predicate PathRefused(p: string) {
    p == "" || p[0] != '/' || HasDotDot(p)
  }

  /** A directory stands for its index page. */
  function WithIndex(p: string): string
    requires p != ""
  {
    if p[|p| - 1] == '/' then p + "index.html" else p
  }

  /** The last position of c, or -1. */
  function FindLastOf(p: string, c: char): (k: int)
    ensures -1 <= k < |p|
    ensures k >= 0 ==> p[k] == c
    ensures forall i :: k < i < |p| ==> p[i] != c
  {
    if p == "" then -1
    else if p[|p| - 1] == c then |p| - 1
    else FindLastOf(p[..|p| - 1], c)
  }

  function Extension(p: string): string {
    var slash, dot := FindLastOf(p, '/'), FindLastOf(p, '.');
    if dot != -1 && dot > slash then p[dot + 1..] else ""
  }

  function MimeType(extension: string): string {
    if extension == "gif" then "image/gif"
    else if extension == "htm" || extension == "html" then "text/html"
    else if extension == "jpg" then "image/jpeg"
    else if extension == "png" then "image/png"
    else "text/plain"
  }

  function FileHeaders(content: string, extension: string): seq<Header> {
    [Header("Conetent-Length", Digits(|content|)), Header("Content-type", MimeType(extension))]
  }

  /** The reply to a request for a path that passed the checks. */
  function Serve(docRoot: string, files: map<string, string>, path: string, before: ReplyValue): ReplyValue {
    var name := CString(docRoot + path);
    if name !in files then Stock(NotFound)
    else
      var content := before.content + files[name];
      ReplyValue(Ok, FileHeaders(content, Extension(path)), content)
  }

  /** The reply to a request for uri, given the files there are and the reply object's state. */
  function Handle(docRoot: string, files: map<string, string>, uri: string, before: ReplyValue): ReplyValue {
    match Decode(uri)
    case None => Stock(BadRequest)
    case Some(p) =>
      if PathRefused(p) then Stock(BadRequest)
      else Serve(docRoot, files, WithIndex(p), before)
  }

  /** A path that reaches the file lookup: rooted, without "..", not ending in a slash. */
  predicate PathServed(p: string) {
    p != "" && p[0] == '/' && !HasDotDot(p) && p[|p| - 1] != '/'
  }

  ghost predicate Contains(p: string, x: string) {
    exists a, b :: p == a + x + b
  }

  /** Two dots side by side are the substring "..". */
  lemma DotDotIsSubstring(p: string)
    ensures HasDotDot(p) <==> Contains(p, "..")
  {
    if HasDotDot(p) {
      var i :| 0 <= i < |p| - 1 && p[i] == '.' && p[i + 1] == '.';
      assert p == p[..i] + ".." + p[i + 2..];
    }
    if Contains(p, "..") {
      var a, b :| p == a + ".." + b;
      assert p[|a|] == '.' && p[|a| + 1] == '.';
    }
  }

  /** The checks let through exactly the rooted paths without "..". */
  lemma RefusedPaths(p: string)
    ensures !PathRefused(p) <==> (exists q :: p == "/" + q) && !Contains(p, "..")
  {
    DotDotIsSubstring(p);
    if p != "" && p[0] == '/' {
      assert p == "/" + p[1..];
    }
  }

  /** A path that ends in a slash is that of its index page; any other stays as it is. */
  lemma IndexPages(a: string, p: string)
    ensures WithIndex(a + "/") == a + "/index.html"
    ensures p != "" && p[|p| - 1] != '/' ==> WithIndex(p) == p
  {
    assert "/index.html" == "/" + "index.html";
  }

  lemma ServedPaths(p: string)
    requires !PathRefused(p)
    ensures PathServed(WithIndex(p))
  {
  }

  /** The extension is what follows a dot in the last segment, with neither slash nor dot in it. */
  predicate IsExtensionOf(e: string, p: string) {
    if e == "" then true
    else |e| < |p| && p[|p| - |e|..] == e && p[|p| - |e| - 1] == '.' && '/' !in e && '.' !in e
  }

  lemma ExtensionIsSuffix(p: string)
    ensures IsExtensionOf(Extension(p), p)
  {
  }

  /** And it is the only one there is, unless there is none. */
  lemma ExtensionIsUnique(p: string, e: string)
    requires e != "" && IsExtensionOf(e, p)
    ensures Extension(p) == e
  {
  }

  /** A served reply carries exactly one file and a length that reads back; the file is the one
      named by the root and the path exactly when neither holds a NUL. */
  lemma OkServesFile(docRoot: string, files: map<string, string>, uri: string, before: ReplyValue) returns (p: string)
    requires before.content == "" && Handle(docRoot, files, uri, before).status == Ok
    ensures var r := Handle(docRoot, files, uri, before);
      var name := CString(docRoot + p);
      && PathServed(p) && name in files && r.content == files[name] && LengthIsRight(r)
      && (name == docRoot + p <==> '\0' !in docRoot + p)
  {
    var q := Decode(uri).value;
    p := WithIndex(q);
    ServedPaths(q);
    var r := Handle(docRoot, files, uri, before);
    var file := files[CString(docRoot + p)];
    assert r.content == "" + file == file;
    hide HasDotDot, Decode, WithIndex;
    ValueOfDigits(|r.content|);
  }

  /** uri is a percent-encoding of a path that passes the checks. */
  predicate EncodesPath(uri: string, ps: seq<Piece>) {
    PiecesWf(ps) && Encoded(ps) == uri && !PathRefused(Plaintext(ps))
  }

  /** The name a path is looked up under. */
  function FileName(docRoot: string, path: string): string
    requires path != ""
  {
    CString(docRoot + WithIndex(path))
  }

  /** Which reply it is, in terms of what the URI encodes: a refusal, a missing file or a file. */
  lemma WhichReply(docRoot: string, files: map<string, string>, uri: string, before: ReplyValue)
    ensures var status := Handle(docRoot, files, uri, before).status;
      && (status == BadRequest <==> forall ps :: !EncodesPath(uri, ps))
      && (status == NotFound <==> exists ps :: EncodesPath(uri, ps) && FileName(docRoot, Plaintext(ps)) !in files)
      && (status == Ok <==> exists ps :: EncodesPath(uri, ps) && FileName(docRoot, Plaintext(ps)) in files)
  {
    hide HasDotDot, WithIndex, Decode, Encoded, Plaintext, PiecesWf, StockContent;
    if Decode(uri).Some? {
      var qs := DecodedIsEncoding(uri);
      forall ps | PiecesWf(ps) && Encoded(ps) == uri ensures ps == qs {
        EncodingIsUnique(ps, qs);
      }
      assert EncodesPath(uri, qs) <==> !PathRefused(Decode(uri).value);
    } else {
      forall ps | PiecesWf(ps) && Encoded(ps) == uri ensures false {
        DecodeInverts(ps);
      }
    }
  }

  /** Every reply of the handler survives the way to the client. */
  lemma HandledIsReadable(docRoot: string, files: map<string, string>, uri: string, before: ReplyValue)
    ensures var r := Handle(docRoot, files, uri, before); ReadReply(Serialize(r)) == Some(r)
  {
    var r := Handle(docRoot, files, uri, before);
    if r == Stock(BadRequest) {
      StockIsReadable(BadRequest);
    } else if r == Stock(NotFound) {
      StockIsReadable(NotFound);
    } else {
      var path := WithIndex(Decode(uri).value);
      hide Decode, WithIndex, HasDotDot, Extension, Serialize, ReadReply;
      FileHeadersAreReadable(r.content, Extension(path));
      SerializeThenRead(r);
    }
  }

  /** The table of content types. */
  lemma MimeTypes(extension: string)
    ensures MimeType("gif") == "image/gif" && MimeType("jpg") == "image/jpeg" && MimeType("png") == "image/png"
    ensures MimeType("htm") == "text/html" && MimeType("html") == "text/html"
    ensures extension !in {"gif", "htm", "html", "jpg", "png"} ==> MimeType(extension) == "text/plain"
  {
  }

  lemma MimeTypesAreReadable(extension: string)
    ensures '\r' !in MimeType(extension)
  {
  }

  lemma NamesAreReadable()
    ensures ':' !in "Conetent-Length" && '\r' !in "Conetent-Length"
    ensures ':' !in "Content-type" && '\r' !in "Content-type"
  {
  }

  lemma FileHeadersAreReadable(content: string, extension: string)
    ensures forall k :: 0 <= k < 2 ==> HeaderReadable(FileHeaders(content, extension)[k])
  {
    hide MimeType;
    ValueOfDigits(|content|);
    NumeralIsPlain(Digits(|content|));
    MimeTypesAreReadable(extension);
    NamesAreReadable();
  }

  /** An open file and the state of the stream reading it. */
  class FileStream {
    const data: string
    var pos: nat
    var failed: bool

    constructor (data: string)
      ensures this.data == data && pos == 0 && !failed
    {
      this.data, pos, failed := data, 0, false;
    }

    /** Reads n characters or as many as there are; coming up short makes later reads fail. */
    method Read(n: nat) returns (chunk: string)
      requires pos <= |data|
      modifies this
      ensures old(pos) <= pos <= |data| && chunk == data[old(pos)..pos]
      ensures pos == if old(failed) then old(pos) else if old(pos) + n <= |data| then old(pos) + n else |data|
      ensures failed == (old(failed) || old(pos) + n > |data|)
    {
      var start := pos;
      if !failed {
        if pos + n <= |data| {
          pos := pos + n;
        } else {
          pos, failed := |data|, true;
        }
      }
      chunk := data[start..pos];
    }
  }

  const CHUNK_SIZE := 512

  class RequestHandler {
    const docRoot: string

    constructor (docRoot: string)
      ensures this.docRoot == docRoot
    {
      this.docRoot := docRoot;
    }

    /** The read loop: whatever the length of the file, all of it is appended. */
    method AppendFile(data: string, rep: Reply)
      modifies rep`content
      ensures rep.content == old(rep.content) + data
    {
      var file := new FileStream(data);
      var buf := file.Read(CHUNK_SIZE);
      while |buf| > 0
        invariant file.data == data && file.pos <= |data| && fresh(file)
        invariant |buf| <= file.pos && buf == data[file.pos - |buf|..file.pos]
        invariant rep.content == old(rep.content) + data[..file.pos - |buf|]
        invariant file.failed ==> file.pos == |data|
        invariant buf == "" ==> file.pos == |data|
        decreases |data| - file.pos + |buf|
      {
        ghost var at := file.pos - |buf|;
        assert data[..at] + buf == data[..file.pos];
        Assoc(old(rep.content), data[..at], buf);
        rep.content := rep.content + buf;
        buf := file.Read(CHUNK_SIZE);
      }
      assert data[..file.pos] == data;
    }

    method SetFileHeaders(rep: Reply, extension: string)
      modifies rep`headers
      ensures rep.headers == FileHeaders(rep.content, extension)
    {
      hide Digits, MimeType;
      rep.ResizeHeaders(2);
      rep.SetHeader(0, "Conetent-Length", Digits(|rep.content|));
      rep.SetHeader(1, "Content-type", MimeType(extension));
    }

    method Refuse(rep: Reply, status: Status)
      modifies rep
      ensures rep.Contents() == Stock(status)
    {
      var stock := Reply.StockReply(status);
      rep.Assign(stock);
    }

    /** The lookup, for a path that passed the checks. */
    method ServePath(requestPath: string, rep: Reply, files: map<string, string>)
      modifies rep
      ensures rep.Contents() == Serve(docRoot, files, requestPath, old(rep.Contents()))
    {
      hide Stock, FileHeaders;
      var lastSlash, lastDot := FindLastOf(requestPath, '/'), FindLastOf(requestPath, '.');
      var extension := "";
      if lastDot != -1 && lastDot > lastSlash {
        extension := requestPath[lastDot + 1..];
      }
      var fullPath := docRoot + requestPath;
      var name := CString(fullPath);
      if name !in files {
        Refuse(rep, NotFound);
        return;
      }
      rep.status := Ok;
      AppendFile(files[name], rep);
      SetFileHeaders(rep, extension);
    }

    method HandleRequest(req: Request, rep: Reply, files: map<string, string>)
      modifies rep
      ensures rep.Contents() == Handle(docRoot, files, req.uri, old(rep.Contents()))
    {
      hide Stock, Decode, HasDotDot, Serve;
      var ok, requestPath := UrlDecode(req.uri);
      if !ok {
        Refuse(rep, BadRequest);
        return;
      }
      if requestPath == "" || requestPath[0] != '/' || HasDotDot(requestPath) {
        Refuse(rep, BadRequest);
        return;
      }
      if requestPath[|requestPath| - 1] == '/' {
        requestPath := requestPath + "index.html";
      }
      ServePath(requestPath, rep, files);
    }
  }
}
