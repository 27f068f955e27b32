/** Which file is opened for a path: the C string that the root and the path are passed on as. */
module OpenedFiles {
  import opened Basics
  import opened Replies
  import opened UrlDecoding
  import opened CText
  import opened RequestHandling

  lemma CStringHead(s: string)
    requires s != ""
    ensures CString(s) == if s[0] == '\0' then "" else [s[0]] + CString(s[1..])
  {
  }

  lemma {:induction false} CStringOfSum(a: string, b: string)
    ensures CString(a + b) == if '\0' in a then CString(a) else a + CString(b)
    decreases |a|
  {
    hide CString;
    if a == "" {
      assert a + b == b;
    } else {
      var x := a[1..];
      CStringOfSum(x, b);
      CStringHead(a + b);
      CStringHead(a);
      assert (a + b)[1..] == x + b && a == [a[0]] + x;
      if a[0] != '\0' && '\0' !in a {
        Assoc([a[0]], x, CString(b));
      }
    }
  }

  lemma NulCuts(a: string, b: string)
    requires '\0' !in a
    ensures CString(a + "\0" + b) == a
  {
    CStringOfSum(a, "\0" + b);
    Assoc(a, "\0", b);
    CStringHead("\0" + b);
    hide CString;
    assert a + "" == a;
  }

  /** A prefix has no dots side by side that the whole has not. */
  lemma PrefixHasNoDotDot(q: string, p: string)
    requires q <= p && !HasDotDot(p)
    ensures !HasDotDot(q)
  {
  }

  /** The first NUL of p directly follows a slash. */
  predicate NulAfterSlash(p: string) {
    exists k :: 1 <= k < |p| && p[k] == '\0' && p[k - 1] == '/' && '\0' !in p[..k]
  }

  lemma {:induction false} CStringEnds(p: string)
    ensures var q := CString(p); |q| < |p| ==> p[|q|] == '\0'
  {
    if p != "" && p[0] != '\0' {
      CStringEnds(p[1..]);
    }
  }

  /** The name that is opened for a path that passes the checks: below the root and without "..",
      but ending in a slash exactly when a NUL directly after a slash cuts the path there. */
  lemma OpenedName(docRoot: string, p: string)
    requires '\0' !in docRoot && !PathRefused(p)
    ensures var q := CString(WithIndex(p));
      && FileName(docRoot, p) == docRoot + q
      && q <= WithIndex(p) && q != "" && q[0] == '/' && !HasDotDot(q)
      && (q[|q| - 1] == '/' <==> NulAfterSlash(p))
  {
    var w := WithIndex(p);
    var q := CString(w);
    CStringOfSum(docRoot, w);
    ServedPaths(p);
    CStringEnds(w);
    hide WithIndex, HasDotDot, NulAfterSlash;
    PrefixHasNoDotDot(q, w);
    assert q != "" by {
      assert w[0] == '/';
    }
    CutAfterSlash(p, q);
  }

  lemma CutAfterSlash(p: string, q: string)
    requires !PathRefused(p) && q == CString(WithIndex(p)) && q != ""
    ensures q[|q| - 1] == '/' <==> NulAfterSlash(p)
  {
    var w := WithIndex(p);
    CStringEnds(w);
    hide HasDotDot;
    if q[|q| - 1] == '/' {
      IndexHasNoNul();
      assert |q| < |w|;
      assert |q| < |p| && p[..|q|] == q;
    }
    if NulAfterSlash(p) {
      var k :| 1 <= k < |p| && p[k] == '\0' && p[k - 1] == '/' && '\0' !in p[..k];
      assert w[k] == '\0';
      assert |q| == k;
    }
  }

  lemma IndexHasNoNul()
    ensures '\0' !in "index.html"
  {
  }

  lemma LastOfSum(a: string, b: string, c: char)
    ensures FindLastOf(a + b, c) == if c in b then |a| + FindLastOf(b, c) else FindLastOf(a, c)
  {
    var s, k := a + b, FindLastOf(a + b, c);
    hide FindLastOf;
    if c in b {
      assert s[|a| + FindLastOf(b, c)] == c;
      assert k >= |a| && b[k - |a|] == c;
    } else {
      forall i | |a| <= i < |s| ensures s[i] != c {
        assert s[i] == b[i - |a|] && b[i - |a|] in b;
      }
      assert FindLastOf(a, c) >= 0 ==> s[FindLastOf(a, c)] == c;
      assert k >= 0 ==> a[k] == c;
    }
  }

  /** The last segment of p has a dot. */
  predicate HasExtension(p: string) {
    FindLastOf(p, '.') > FindLastOf(p, '/')
  }

  /** An extension does not reach back over a dot or slash. */
  lemma ExtensionIsShort(a: string, r: string, f: string)
    requires ('.' in r || '/' in r) && f != "" && IsExtensionOf(f, a + r)
    ensures |f| < |r|
  {
    var w := a + r;
    var start := |w| - |f|;
    var k :| 0 <= k < |r| && (r[k] == '.' || r[k] == '/');
    forall i | start <= i < |w| ensures w[i] != '.' && w[i] != '/' {
      assert w[i] == f[i - start] && f[i - start] in f;
    }
    assert w[|a| + k] == r[k];
  }

  /** Only the end of a path that has a dot or slash matters for its extension. */
  lemma ExtensionOfEnd(a: string, r: string)
    requires '.' in r || '/' in r
    ensures Extension(a + r) == Extension(r)
  {
    var w := a + r;
    var e, f := Extension(r), Extension(w);
    ExtensionIsSuffix(r);
    ExtensionIsSuffix(w);
    hide Extension;
    if e != "" {
      assert w[|w| - |e|..] == r[|r| - |e|..];
      ExtensionIsUnique(w, e);
    } else if f != "" {
      ExtensionIsShort(a, r, f);
      assert w[|w| - |f|..] == r[|r| - |f|..];
      ExtensionIsUnique(r, f);
    }
  }

  lemma ExtensionOfBeginning(w: string, q: string, t: string)
    requires w == q + t && FindLastOf(w, '.') == FindLastOf(q, '.') && FindLastOf(w, '/') == FindLastOf(q, '/')
    ensures Extension(w) == if HasExtension(q) then Extension(q) + t else ""
    ensures !HasExtension(q) ==> Extension(q) == ""
  {
    hide FindLastOf;
    var dot := FindLastOf(q, '.');
    assert w[dot + 1..] == q[dot + 1..] + t;
  }

  /** What the content type is taken from: past a NUL when the part behind it has a dot or slash. */
  lemma ExtensionPastNul(q: string, r: string)
    ensures var e := Extension(q + "\0" + r);
      if '.' in r || '/' in r then e == Extension(r)
      else if HasExtension(q) then e == Extension(q) + ("\0" + r)
      else e == "" && Extension(q) == ""
  {
    var a, t := q + "\0", "\0" + r;
    var w := a + r;
    hide FindLastOf, Extension, HasExtension;
    if '.' in r || '/' in r {
      ExtensionOfEnd(a, r);
    } else {
      assert '.' !in t && '/' !in t;
      assert w == q + t;
      LastOfSum(q, t, '.');
      LastOfSum(q, t, '/');
      ExtensionOfBeginning(w, q, t);
    }
  }

  /** No entry of the table holds a NUL. */
  lemma NulHasPlainType(e: string)
    requires '\0' in e
    ensures MimeType(e) == "text/plain"
  {
    assert '\0' !in "gif" && '\0' !in "htm" && '\0' !in "html" && '\0' !in "jpg" && '\0' !in "png";
  }

  /** The content type is that of the name that is opened exactly if no NUL cuts the path; or the
      part behind the NUL, having a dot or slash, says the same type; or, having none, it spoils an
      extension of the name that is plain text anyway, or there is none to spoil. */
  lemma TypeIsOfOpenedFile(p: string)
    requires p != ""
    ensures var w := WithIndex(p);
      var q := CString(w);
      MimeType(Extension(w)) == MimeType(Extension(q)) <==>
        (q == w
         || (var r := w[|q| + 1..];
             if '.' in r || '/' in r then MimeType(Extension(r)) == MimeType(Extension(q))
             else !HasExtension(q) || MimeType(Extension(q)) == "text/plain"))
  {
    var w := WithIndex(p);
    var q := CString(w);
    CStringEnds(w);
    hide WithIndex, CString, Extension, HasExtension, MimeType;
    if q != w {
      var r := w[|q| + 1..];
      assert w == q + "\0" + r;
      ExtensionPastNul(q, r);
      if HasExtension(q) && '.' !in r && '/' !in r {
        assert Extension(w)[|Extension(q)|] == '\0';
        NulHasPlainType(Extension(w));
      }
    }
  }

  lemma TextExtension()
    ensures Extension("/a.txt") == "txt" && MimeType("txt") == "text/plain"
  {
    ExtensionIsUnique("/a.txt", "txt");
    hide Extension;
  }

  /** A concrete path that is cut and keeps its type, although the extensions differ. */
  lemma NulKeepsPlainType()
    ensures var q, p := "/a.txt", "/a.txt" + "\0" + "z";
      CString(p) == q && Extension(p) != Extension(q) && MimeType(Extension(p)) == MimeType(Extension(q))
  {
    var q := "/a.txt";
    TextExtension();
    assert HasExtension(q);
    hide CString, Extension, HasExtension, MimeType;
    NulCuts(q, "z");
    ExtensionPastNul(q, "z");
    var e := "txt" + ("\0" + "z");
    assert e[3] == '\0';
    NulHasPlainType(e);
  }

  lemma NulDecodes(a: string, b: string)
    requires '%' !in a && '+' !in a && '%' !in b && '+' !in b
    ensures Decode(a + "%00" + b) == Some(a + "\0" + b)
  {
    var s := "%00" + b;
    DecodePlain(b, "");
    DecodePlain(a, s);
    assert b + "" == b && a + s == a + "%00" + b && s[0] == '%' && s[1] == '0' && s[2] == '0' && s[3..] == b;
    assert Decode("") == Some("") && Decode(s) == After("\0", Decode(b));
    hide Decode;
    Assoc(a, "\0", b);
  }

  const NUL_PATH := "/a\0.html"

  lemma NulPathDecodes()
    ensures Decode("/a%00.html") == Some(NUL_PATH) && !PathRefused(NUL_PATH) && WithIndex(NUL_PATH) == NUL_PATH
  {
    hide Decode;
    NulDecodes("/a", ".html");
    assert "/a" + "%00" + ".html" == "/a%00.html" && "/a" + "\0" + ".html" == NUL_PATH;
  }

  lemma PlainExtensions()
    ensures Extension("/a") == "" && Extension(".html") == "html"
  {
    ExtensionIsSuffix("/a");
    ExtensionIsUnique(".html", "html");
    hide Extension;
  }

  lemma NulPathIsCut()
    ensures CString(NUL_PATH) == "/a" && Extension("/a") == "" && Extension(NUL_PATH) == "html"
  {
    PlainExtensions();
    hide CString, Extension, HasExtension;
    assert "/a" + "\0" + ".html" == NUL_PATH;
    NulCuts("/a", ".html");
    ExtensionPastNul("/a", ".html");
  }

  /** A concrete URI whose file is not the one of its decoded path, and whose type is not that of
      the file: one without an extension is served as HTML. */
  lemma NulCutsFileName(docRoot: string, files: map<string, string>)
    requires '\0' !in docRoot && docRoot + "/a" in files
    ensures var r := Handle(docRoot, files, "/a%00.html", ReplyValue(Ok, [], ""));
      && Decode("/a%00.html") == Some(NUL_PATH) && Extension("/a") == ""
      && r == ReplyValue(Ok, FileHeaders(files[docRoot + "/a"], "html"), files[docRoot + "/a"])
  {
    NulPathDecodes();
    NulPathIsCut();
    CStringOfSum(docRoot, NUL_PATH);
    hide Decode, PathRefused, WithIndex, CString, Extension, FileHeaders;
    assert "" + files[docRoot + "/a"] == files[docRoot + "/a"];
  }

  /** And one that passes the checks and is cut to a name that ends in a slash. */
  lemma NulNamesDirectory()
    ensures Decode("/d/%00x") == Some("/d/\0x") && !PathRefused("/d/\0x") && CString("/d/\0x") == "/d/"
  {
    NulDecodes("/d/", "x");
    assert "/d/" + "%00" + "x" == "/d/%00x" && "/d/" + "\0" + "x" == "/d/\0x";
    NulCuts("/d/", "x");
    hide CString, Decode;
  }
}
