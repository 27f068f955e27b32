/** The verdict does not depend on how the bytes are cut into reads. */
module Segmentation {
  import opened RequestMachine

  lemma {:induction false} RunAppend(c: Config, a: string, b: string)
    requires Safe(c)
    ensures var o := Run(c, a);
      Run(c, a + b) == if o.verdict == Indeterminate then Run(o.config, b) else o.(rest := o.rest + b)
    decreases |a|
  {
    hide Step, Safe;
    if a == "" {
      assert a + b == b;
    } else {
      RunHead(c, a);
      RunHead(c, a + b);
      assert (a + b)[1..] == a[1..] + b;
      var (v, c') := Step(c, a[0]);
      if v == Indeterminate {
        RunAppend(c', a[1..], b);
      }
    }
  }

  function Concat(chunks: seq<string>): string {
    if chunks == [] then "" else chunks[0] + Concat(chunks[1..])
  }

  /** Reads are parsed one by one until one decides; the others are never looked at. */
  function RunChunks(c: Config, chunks: seq<string>): (Verdict, Config)
    requires Safe(c)
    decreases |chunks|
  {
    if chunks == [] then (Indeterminate, c)
    else
      var o := Run(c, chunks[0]);
      if o.verdict == Indeterminate then RunChunks(o.config, chunks[1..]) else (o.verdict, o.config)
  }

  lemma {:induction false} ChunksDoNotMatter(c: Config, chunks: seq<string>)
    requires Safe(c)
    ensures var o := Run(c, Concat(chunks)); RunChunks(c, chunks) == (o.verdict, o.config)
    decreases |chunks|
  {
    hide Run, Safe;
    if chunks == [] {
      RunEmpty(c);
    } else {
      RunAppend(c, chunks[0], Concat(chunks[1..]));
      var o := Run(c, chunks[0]);
      if o.verdict == Indeterminate {
        ChunksDoNotMatter(o.config, chunks[1..]);
      }
    }
  }

  // ---- what a fresh parser never looks at

  /** Alike but for version fields that have not been set yet. */
  predicate Agree(c: Config, d: Config) {
    && c.state == d.state
    && c.request == d.request.(major := c.request.major, minor := c.request.minor)
    && (VersionSet(c.state) ==> c.request == d.request)
  }

  lemma StepKeepsAgreement(c: Config, d: Config, x: char)
    requires Agree(c, d) && Safe(c) && Safe(d)
    ensures Step(c, x).0 == Step(d, x).0 && Agree(Step(c, x).1, Step(d, x).1)
  {
  }

  /** The version fields of a request are only read after they were set to 0: whatever they held
      before makes no difference. */
  lemma {:induction false} OldVersionsAreNotRead(c: Config, d: Config, s: string)
    requires Agree(c, d) && Safe(c) && Safe(d)
    ensures Run(c, s).verdict == Run(d, s).verdict && Run(c, s).rest == Run(d, s).rest
    ensures Agree(Run(c, s).config, Run(d, s).config)
    decreases |s|
  {
    hide Step, Safe, Agree;
    if s != "" {
      RunHead(c, s);
      RunHead(d, s);
      StepKeepsAgreement(c, d, s[0]);
      if Step(c, s[0]).0 == Indeterminate {
        OldVersionsAreNotRead(Step(c, s[0]).1, Step(d, s[0]).1, s[1..]);
      }
    }
  }
}
