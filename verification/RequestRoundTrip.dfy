/** Printing a request and parsing it back. */
module RequestRoundTrip {
  import opened CharClasses
  import opened Decimal
  import opened RequestGrammar
  import opened RequestMachine
  import opened ParserTheorems

  predicate HeaderWf(h: Header) {
    IsToken(h.name) && IsText(h.value)
  }

  predicate RequestWf(r: RequestValue) {
    && IsToken(r.verb) && IsUri(r.uri) && r.major >= 0 && r.minor >= 0
    && forall k :: 0 <= k < |r.headers| ==> HeaderWf(r.headers[k])
  }

  function PlainLine(h: Header): Line {
    Line(h.name, h.value, [])
  }

  /** The tree without folds and without leading zeros. */
  function Canonical(r: RequestValue): Tree
    requires r.major >= 0 && r.minor >= 0
  {
    Tree(r.verb, r.uri, Digits(r.major), Digits(r.minor),
         seq(|r.headers|, i requires 0 <= i < |r.headers| => PlainLine(r.headers[i])))
  }

  lemma CanonicalMeaning(r: RequestValue)
    requires RequestWf(r)
    ensures TreeWf(Canonical(r)) && Meaning(Canonical(r)) == r
  {
    ValueOfDigits(r.major);
    ValueOfDigits(r.minor);
    var ls := Canonical(r).lines;
    forall k | 0 <= k < |ls| ensures LineWf(ls[k]) && HeaderOf(ls[k]) == r.headers[k] {
      assert HeaderWf(r.headers[k]);
    }
    assert HeadersOf(ls) == r.headers;
  }

  lemma {:induction false} FoldTextsAreText(fs: seq<Fold>)
    requires forall k :: 0 <= k < |fs| ==> FoldWf(fs[k])
    ensures IsText(FoldTexts(fs))
    decreases |fs|
  {
    if fs != [] {
      FoldTextsAreText(fs[..|fs| - 1]);
      assert FoldWf(fs[|fs| - 1]);
    }
  }

  lemma MeaningIsWf(t: Tree)
    requires TreeWf(t)
    ensures RequestWf(Meaning(t))
  {
    forall k | 0 <= k < |t.lines| ensures HeaderWf(HeaderOf(t.lines[k])) {
      assert LineWf(t.lines[k]);
      FoldTextsAreText(t.lines[k].folds);
    }
  }

  /** Parsing what was printed gives the request back and leaves what follows it untouched. */
  lemma PrintThenParse(c: Config, r: RequestValue, rest: string)
    requires Fresh(c) && RequestWf(r)
    ensures Safe(c)
    ensures var o := Run(c, Print(Canonical(r)) + rest);
      o.verdict == Good && o.rest == rest && o.config.request == r
  {
    CanonicalMeaning(r);
    hide RequestWf, Canonical, Meaning, TreeWf, Print, Run;
    AcceptsPrinting(c, Canonical(r), rest);
  }

  /** Whatever is accepted can be printed canonically and parsed again to the same request. */
  lemma ParseThenPrint(c: Config, b: string, c': Config)
    requires Fresh(c) && Safe(c) && Run(c, b).verdict == Good && Fresh(c')
    ensures Safe(c')
    ensures var r := Run(c, b).config.request;
      RequestWf(r) && Run(c', Print(Canonical(r))).verdict == Good && Run(c', Print(Canonical(r))).config.request == r
  {
    var t := GoodIsPrinting(c, b);
    MeaningIsWf(t);
    hide RequestWf, Canonical, Meaning, TreeWf, Print, Run, Fresh, Safe;
    PrintThenParse(c', Meaning(t), "");
    assert Print(Canonical(Meaning(t))) + "" == Print(Canonical(Meaning(t)));
  }
}
