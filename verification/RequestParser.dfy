/** The request object and the parser that fills it in place. */
module RequestParsing {
  import opened CharClasses
  import opened RequestGrammar
  import opened RequestMachine

  class Request {
    var verb: string
    var uri: string
    var major: int
    var minor: int
    var headers: seq<Header>

    ghost function Contents(): RequestValue
      reads this
    {
      RequestValue(verb, uri, major, minor, headers)
    }

    /** The version fields are left uninitialised: they hold whatever was there. */
    constructor (oldMajor: int, oldMinor: int)
      ensures Contents() == RequestValue("", "", oldMajor, oldMinor, [])
    {
      verb, uri, major, minor, headers := "", "", oldMajor, oldMinor, [];
    }

    method PushHeader(c: char)
      modifies this`headers
      ensures headers == old(headers) + [Header([c], "")]
    {
      headers := headers + [Header([c], "")];
    }

    method PushBackName(c: char)
      requires headers != []
      modifies this`headers
      ensures Contents() == PushName(old(Contents()), c)
    {
      var h := headers[|headers| - 1];
      headers := headers[|headers| - 1 := Header(h.name + [c], h.value)];
    }

    method PushBackValue(c: char)
      requires headers != []
      modifies this`headers
      ensures Contents() == PushValue(old(Contents()), c)
    {
      var h := headers[|headers| - 1];
      headers := headers[|headers| - 1 := Header(h.name, h.value + [c])];
    }
  }

  class RequestParser {
    var state: State

    ghost function View(req: Request): Config
      reads this, req
    {
      Config(state, req.Contents())
    }

    constructor ()
      ensures state == MethodStart
    {
      state := MethodStart;
    }

    method Reset()
      modifies this
      ensures state == MethodStart
    {
      state := MethodStart;
    }

    /** One byte. */
    method Consume(req: Request, input: char) returns (r: Verdict)
      requires Safe(View(req))
      modifies this, req
      ensures (r, View(req)) == Step(old(View(req)), input)
    {
      match state {
        case MethodStart =>
          if !IsChar(input) || IsCtl(input) || IsTspecial(input) {
            return Bad;
          }
          state := Method;
          req.verb := req.verb + [input];
          return Indeterminate;
        case Method =>
          if input == ' ' {
            state := Uri;
            return Indeterminate;
          } else if !IsChar(input) || IsCtl(input) || IsTspecial(input) {
            return Bad;
          }
          req.verb := req.verb + [input];
          return Indeterminate;
        case Uri =>
          if input == ' ' {
            state := VersionH;
            return Indeterminate;
          } else if IsCtl(input) {
            return Bad;
          }
          req.uri := req.uri + [input];
          return Indeterminate;
        case VersionH =>
          if input == 'H' { state := VersionT1; return Indeterminate; }
          return Bad;
        case VersionT1 =>
          if input == 'T' { state := VersionT2; return Indeterminate; }
          return Bad;
        case VersionT2 =>
          if input == 'T' { state := VersionP; return Indeterminate; }
          return Bad;
        case VersionP =>
          if input == 'P' { state := VersionSlash; return Indeterminate; }
          return Bad;
        case VersionSlash =>
          if input == '/' {
            req.major, req.minor := 0, 0;
            state := MajorStart;
            return Indeterminate;
          }
          return Bad;
        case MajorStart =>
          if IsDigit(input) {
            req.major := req.major * 10 + input as int - '0' as int;
            state := Major;
            return Indeterminate;
          }
          return Bad;
        case Major =>
          if input == '.' {
            state := MinorStart;
            return Indeterminate;
          } else if IsDigit(input) {
            req.major := req.major * 10 + input as int - '0' as int;
            return Indeterminate;
          }
          return Bad;
        case MinorStart =>
          if IsDigit(input) {
            req.minor := req.minor * 10 + input as int - '0' as int;
            state := Minor;
            return Indeterminate;
          }
          return Bad;
        case Minor =>
          if input == '\r' {
            state := Newline1;
            return Indeterminate;
          } else if IsDigit(input) {
            req.minor := req.minor * 10 + input as int - '0' as int;
            return Indeterminate;
          }
          return Bad;
        case Newline1 =>
          if input == '\n' { state := LineStart; return Indeterminate; }
          return Bad;
        case LineStart =>
          if input == '\r' {
            state := Newline3;
            return Indeterminate;
          } else if req.headers != [] && (input == ' ' || input == '\t') {
            state := HeaderLws;
            return Indeterminate;
          } else if !IsChar(input) || IsCtl(input) || IsTspecial(input) {
            return Bad;
          }
          req.PushHeader(input);
          state := HeaderName;
          return Indeterminate;
        case HeaderLws =>
          if input == '\r' {
            state := Newline2;
            return Indeterminate;
          } else if input == ' ' || input == '\t' {
            return Indeterminate;
          } else if IsCtl(input) {
            return Bad;
          }
          state := HeaderValue;
          req.PushBackValue(input);
          return Indeterminate;
        case HeaderName =>
          if input == ':' {
            state := SpaceBeforeValue;
            return Indeterminate;
          } else if !IsChar(input) || IsCtl(input) || IsTspecial(input) {
            return Bad;
          }
          req.PushBackName(input);
          return Indeterminate;
        case SpaceBeforeValue =>
          if input == ' ' { state := HeaderValue; return Indeterminate; }
          return Bad;
        case HeaderValue =>
          if input == '\r' {
            state := Newline2;
            return Indeterminate;
          } else if IsCtl(input) {
            return Bad;
          }
          req.PushBackValue(input);
          return Indeterminate;
        case Newline2 =>
          if input == '\n' { state := LineStart; return Indeterminate; }
          return Bad;
        case Newline3 =>
          return if input == '\n' then Good else Bad;
      }
    }

    /** The bytes of one read: stops behind the byte that decides, or at the end. */
    method Parse(req: Request, buffer: array<char>, begin: nat, end: nat) returns (r: Verdict, pos: nat)
      requires begin <= end <= buffer.Length
      requires Safe(View(req))
      modifies this, req
      ensures begin <= pos <= end
      ensures Outcome(r, buffer[pos..end], View(req)) == Run(old(View(req)), buffer[begin..end])
      ensures Safe(View(req))
    {
      hide *;
      pos := begin;
      ghost var input, start := buffer[begin..end], View(req);
      while pos != end
        invariant begin <= pos <= end
        invariant Safe(View(req))
        invariant Run(View(req), input[pos - begin..]) == Run(start, input)
      {
        ghost var ahead := input[pos - begin..];
        assert ahead[0] == buffer[pos] && ahead[1..] == input[pos + 1 - begin..];
        RunHead(View(req), ahead);
        var result := Consume(req, buffer[pos]);
        pos := pos + 1;
        if result == Good || result == Bad {
          assert buffer[pos..end] == input[pos - begin..];
          return result, pos;
        }
      }
      assert buffer[pos..end] == input[pos - begin..] == "";
      RunEmpty(View(req));
      return Indeterminate, pos;
    }
  }
}
