/** Requests and replies byte by byte. */
module WireExamples {
  import opened CharClasses
  import opened Decimal
  import opened RequestGrammar
  import opened RequestMachine
  import opened ParserTheorems
  import opened Basics
  import opened CText
  import opened Replies
  import opened UrlDecoding
  import opened RequestHandling
  import opened OpenedFiles

  // ---- a request with a header name that has a hyphen, a folded line and an empty value

  const REQUEST_LINE := "GET /a%20b HTTP/1.0\r\n"
  const HEADER_LINES := "User-Agent: x \r\n \tyz\r\nHost: \r\n"
  const REQUEST := REQUEST_LINE + HEADER_LINES + "\r\n"

  const USER_AGENT := Line("User-Agent", "x ", [Fold(" \t", "yz")])
  const HOST := Line("Host", "", [])
  const TREE := Tree("GET", "/a%20b", "1", "0", [USER_AGENT, HOST])

  lemma LinesAreWf()
    ensures LineWf(USER_AGENT) && LineWf(HOST)
  {
    assert FoldWf(Fold(" \t", "yz"));
  }

  lemma TreeIsWf()
    ensures TreeWf(TREE)
  {
    LinesAreWf();
    hide LineWf;
    assert IsToken("GET") && IsUri("/a%20b") && IsNumeral("1") && IsNumeral("0");
  }

  lemma FoldPrints()
    ensures PrintFolds([Fold(" \t", "yz")]) == "\r\n \tyz" && FoldTexts([Fold(" \t", "yz")]) == "yz"
  {
    var f := Fold(" \t", "yz");
    assert [f][..0] == [];
    assert PrintFolds([]) == "" && FoldTexts([]) == "";
    assert PrintFolds([f]) == "" + CRLF + " \t" + "yz";
    assert FoldTexts([f]) == "" + "yz";
  }

  lemma LinesPrint()
    ensures PrintBody(USER_AGENT) == "User-Agent: x \r\n \tyz" && PrintBody(HOST) == "Host: "
    ensures PrintLines([USER_AGENT, HOST]) == HEADER_LINES
  {
    FoldPrints();
    assert PrintFolds([]) == "";
    hide PrintFolds;
    assert PrintBody(USER_AGENT) == "User-Agent: x \r\n \tyz" && PrintBody(HOST) == "Host: ";
    hide PrintBody;
    assert [USER_AGENT, HOST][..1] == [USER_AGENT] && [USER_AGENT][..0] == [];
    assert PrintLines([]) == "";
    assert PrintLines([USER_AGENT]) == "" + "User-Agent: x \r\n \tyz" + CRLF;
  }

  lemma RequestLinePrints()
    ensures PrintRequestLine(TREE) == REQUEST_LINE
  {
  }

  lemma TreePrints()
    ensures Print(TREE) == REQUEST
  {
    RequestLinePrints();
    LinesPrint();
    hide PrintLines, PrintRequestLine;
  }

  lemma TreeMeans()
    requires TreeWf(TREE)
    ensures Meaning(TREE) == RequestValue("GET", "/a%20b", 1, 0, [Header("User-Agent", "x yz"), Header("Host", "")])
  {
    FoldPrints();
    assert FoldTexts([]) == "";
    hide FoldTexts, TreeWf;
    assert HeaderOf(USER_AGENT) == Header("User-Agent", "x yz") && HeaderOf(HOST) == Header("Host", "");
    assert HeadersOf([USER_AGENT, HOST]) == [Header("User-Agent", "x yz"), Header("Host", "")];
    assert "1"[..0] == "" && "0"[..0] == "" && Value("") == 0;
    assert Value("1") == 1 && Value("0") == 0;
  }

  /** These bytes are accepted, whatever follows them, as this request. */
  lemma RequestIsAccepted(c: Config, rest: string)
    requires Fresh(c)
    ensures Safe(c)
    ensures var o := Run(c, REQUEST + rest);
      && o.verdict == Good && o.rest == rest
      && o.config.request ==
           RequestValue("GET", "/a%20b", 1, 0, [Header("User-Agent", "x yz"), Header("Host", "")])
  {
    TreeIsWf();
    TreePrints();
    TreeMeans();
    hide TreeWf, Print, Meaning, Run, Safe;
    AcceptsPrinting(c, TREE, rest);
  }

  // ---- files on the wire

  /** The reply to a request for a file, byte by byte, for any content and extension. */
  lemma FileOnTheWire(content: string, extension: string)
    ensures Serialize(ReplyValue(Ok, FileHeaders(content, extension), content)) ==
      "HTTP/1.0 200 OK" + "\r\n" +
      (("Conetent-Length" + ": " + Digits(|content|) + "\r\n") +
       ("Content-type" + ": " + MimeType(extension) + "\r\n") +
       ("\r\n" + content))
  {
    StatusLines();
    hide StatusText, Digits, MimeType, Serialize;
    var hs := FileHeaders(content, extension);
    WithTwoHeaders(Ok, hs[0], hs[1], content);
  }

  lemma RootDecodes()
    ensures Decode("/") == Some("/") && !PathRefused("/") && WithIndex("/") == "/index.html"
  {
    DecodePlain("/", "");
    assert "/" + "" == "/";
    IndexPages("", "");
    assert "" + "/" == "/" && "" + "/index.html" == "/index.html";
  }

  lemma IndexOfRoot()
    ensures CString("/index.html") == "/index.html" && Extension("/index.html") == "html"
  {
    ExtensionIsUnique("/index.html", "html");
    hide Extension;
    assert '\0' !in "/index.html";
  }

  /** The root is answered with its index page, as HTML. */
  lemma RootIsServed(docRoot: string, files: map<string, string>)
    requires '\0' !in docRoot && docRoot + "/index.html" in files
    ensures var content := files[docRoot + "/index.html"];
      Handle(docRoot, files, "/", ReplyValue(Ok, [], "")) ==
        ReplyValue(Ok, [Header("Conetent-Length", Digits(|content|)), Header("Content-type", "text/html")], content)
  {
    hide Decode, PathRefused, WithIndex, CString, Extension, MimeType, Digits;
    RootDecodes();
    IndexOfRoot();
    CStringOfSum(docRoot, "/index.html");
    MimeTypes("");
    var content := files[docRoot + "/index.html"];
    assert "" + content == content;
  }
}
