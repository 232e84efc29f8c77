/** `HttpRequestParser` and the server's receive loop, proved equal to the step machine
    of `RequestModel`. */
module RequestParser {
  import opened Text
  import opened Numerals
  import opened Resumable
  import opened RequestModel

  lemma {:induction false} AbsorbBody(s: Server, v: string, k: nat)
    requires s.failed.None? && s.status.ExpectBody? && k <= s.remain && k <= |v|
    ensures Receive(s, v) == Receive(WithBody(s.(remain := s.remain - k), v[..k]), v[k..])
    decreases k
  {
    if k == 0 {
      assert v[0..] == v && s.request.body + "" == s.request.body;
    } else {
      AbsorbBody(s, v, k - 1);
      var d := WithBody(s.(remain := s.remain - (k - 1)), v[..k - 1]);
      ReceiveStep(d, v[k - 1..]);
      hide Receive;
      assert v[k - 1..][1..] == v[k..];
      OneMoreByte(s.request.body, v, k);
    }
  }

  function WithBody(s: Server, data: string): Server {
    s.(request := s.request.(body := s.request.body + data), used := s.used + |data|)
  }

  lemma OneMoreByte(body: string, v: string, k: nat)
    requires 0 < k <= |v|
    ensures body + v[..k - 1] + [v[k - 1..][0]] == body + v[..k]
  {
  }

  datatype ParseStatus = Expecting(what: Status) | GotAll

  /** How one pass of the source's loop leaves things; `Refuse` carries the status code
      whose negative is returned. */
  datatype Pass = Again | Ready | NotReady | Refuse(code: nat)

  class HttpRequestParser {
    const maxBody: nat
    var status: ParseStatus
    var request: Request
    var remain: nat
    var chunk: nat
    var continues: nat
    ghost var overlong: nat

    constructor (maxBody: nat)
      ensures Matches(Init(maxBody)) && this.maxBody == maxBody
    {
      this.maxBody := maxBody;
      status := Expecting(ExpectMethod);
      request := NEW_REQUEST;
      remain, chunk, continues := 0, 0, 0;
      overlong := 0;
    }

    /** This object holds the parser half of the machine state `s`. */
    ghost predicate Matches(s: Server)
      reads this
    {
      && status == Expecting(s.status) && request == s.request && remain == s.remain
      && chunk == s.chunk && continues == s.continues && maxBody == s.maxBody
      && s.failed.None? && overlong == s.overlong
    }

    /** What one pass, or a whole call, may do to the machine state `s` on `v`. */
    ghost predicate Follows(pass: Pass, s: Server, v: string, d: Server, rest: string)
      reads this
    {
      match pass
      case Again => Matches(d) && Receive(s, v) == Receive(d, rest) && d.done == s.done && |rest| < |v|
      case Ready =>
        && status.GotAll? && Receive(s, v) == Receive(Deliver(d), rest)
        && request == d.request && chunk == d.chunk && continues == d.continues
        && maxBody == d.maxBody && d.done == s.done && d.failed.None? && overlong == d.overlong
        && (|rest| < |v| || (|rest| == |v| && s.status.ExpectBody? && s.remain == 0))
      case NotReady =>
        && Matches(d) && d.done == s.done && Receive(s, v) == Config(d, rest) && Guard(d, rest) == d
      case Refuse(code) =>
        var r := Receive(s, v);
        r.state.done == s.done && Guard(r.state, r.rest).failed == Some(code)
    }

    /** Nothing to do but wait, unless what is there is too long already. */
    method NeedMore(v: string, limit: nat, code: nat, ghost s: Server) returns (pass: Pass)
      requires Matches(s) && Step(s, v).Wait?
      requires LengthRefusal(s, v) == if |v| > limit then Some(code) else None
      ensures Follows(pass, s, v, s, v) && !pass.Again? && !pass.Ready?
    {
      ReceiveStep(s, v);
      hide Receive;
      return if |v| > limit then Refuse(code) else NotReady;
    }

    /** Keep track of the limits, for the proof only. */
    ghost method NoteLength(length: nat, s: Server)
      requires Matches(s)
      modifies this`overlong
      ensures Matches(Note(s, length))
    {
      overlong := Note(s, length).overlong;
    }

    method MethodCase(v: string, ghost s: Server) returns (pass: Pass, rest: string, ghost d: Server)
      requires Matches(s) && s.status.ExpectMethod?
      modifies this
      ensures Follows(pass, s, v, d, rest)
    {
      ReceiveStep(s, v);
      hide Receive, MethodOf, Find;
      assert Step(s, v) == MethodStep(s, v);
      rest, d := v, s;
      var space := Find(v, " ", 0);
      if space.None? {
        pass := NeedMore(v, METHOD_MAX_LEN, 400, s);
        return;
      }
      NoteLength(space.value, s);
      var m := MethodOf(v[..space.value]);
      if m.None? {
        StopsAt(Note(s, space.value).(failed := Some(405)), v);
        return Refuse(405), rest, d;
      }
      request := request.(method_ := m.value);
      status := Expecting(ExpectRequestLine);
      return Again, v[space.value + 1..], Step(s, v).next;
    }

    method LineCase(v: string, ghost s: Server) returns (pass: Pass, rest: string, ghost d: Server)
      requires Matches(s) && s.status.ExpectRequestLine?
      modifies this
      ensures Follows(pass, s, v, d, rest)
    {
      ReceiveStep(s, v);
      hide Receive, RequestLine, Find;
      assert Step(s, v) == LineStep(s, v);
      rest, d := v, s;
      var crlf := Find(v, CRLF, 0);
      if crlf.None? {
        pass := NeedMore(v, LINE_MAX - 1, 414, s);
        return;
      }
      NoteLength(crlf.value, s);
      var r := RequestLine(request, v[..crlf.value]);
      if r.None? {
        StopsAt(Note(s, crlf.value).(failed := Some(400)), v);
        return Refuse(400), rest, d;
      }
      request := r.value;
      status := Expecting(ExpectHeaders);
      return Again, v[crlf.value + 2..], Step(s, v).next;
    }

    method HeaderCase(v: string, ghost s: Server) returns (pass: Pass, rest: string, ghost d: Server)
      requires Matches(s) && s.status.ExpectHeaders?
      modifies this
      ensures Follows(pass, s, v, d, rest)
    {
      ReceiveStep(s, v);
      hide Receive, AddHeader, EndOfHeaders, Find;
      assert Step(s, v) == HeaderStep(s, v);
      rest, d := v, s;
      var crlf := Find(v, CRLF, 0);
      if crlf.None? {
        pass := NeedMore(v, LINE_MAX - 1, 400, s);
        return;
      }
      NoteLength(crlf.value, s);
      rest := v[crlf.value + 2..];
      var colon := Find(v[..crlf.value], ":", 0);
      if colon.Some? {
        request := AddHeader(request, v[..crlf.value], colon.value);
        return Again, rest, Step(s, v).next;
      }
      EndOfHeadersKeeps(Note(s, crlf.value));
      pass, d := EndHeaders(crlf.value + 2, Note(s, crlf.value));
      if pass.Refuse? {
        StopsAt(d, rest);
      }
    }

    /** The end of the headers, `used` bytes on; `d` is the machine before any delivery. */
    method EndHeaders(used: nat, ghost s: Server) returns (pass: Pass, ghost d: Server)
      requires Matches(s) && s.status.ExpectHeaders?
      modifies this
      ensures d.done == s.done && d.used == s.used + used
      ensures var e := EndOfHeaders(s);
              match pass
              case Again => Matches(d) && e.(used := s.used + used) == d
              case Ready => status.GotAll? && e.(used := s.used + used) == Deliver(d) && request == d.request
                            && chunk == d.chunk && continues == d.continues && maxBody == d.maxBody && d.failed.None?
                            && overlong == d.overlong
              case Refuse(code) => e.(used := s.used + used) == d && d.failed == Some(code)
              case NotReady => false
    {
      hide FramingOf, Objection;
      var framing := FramingOf(request);
      if framing.Refused? {
        return Refuse(framing.code), s.(failed := Some(framing.code), used := s.used + used);
      }
      var rem := if framing.Length? then framing.n else remain;
      var objection := Objection(request, rem, maxBody);
      if objection.Some? {
        return Refuse(objection.value), s.(failed := objection, used := s.used + used);
      }
      if request.expectation != "" {
        continues := continues + 1;
      }
      match framing {
        case NoBody(length) =>
          request := request.(contentLength := length);
          status := GotAll;
          pass := Ready;
          d := s.(request := request, continues := continues, used := s.used + used);
        case Length(n) =>
          request := request.(contentLength := Some(n));
          remain := n;
          status := Expecting(ExpectBody);
          pass := Again;
          d := s.(request := request, continues := continues, remain := n, status := ExpectBody, used := s.used + used);
        case Chunked =>
          status := Expecting(ExpectChunkLen);
          pass := Again;
          d := s.(continues := continues, status := ExpectChunkLen, used := s.used + used);
      }
    }

    method BodyCase(v: string, ghost s: Server) returns (pass: Pass, rest: string, ghost d: Server)
      requires Matches(s) && s.status.ExpectBody?
      modifies this
      ensures Follows(pass, s, v, d, rest)
    {
      hide Receive;
      var k := if remain <= |v| then remain else |v|;
      AbsorbBody(s, v, k);
      d := WithBody(s.(remain := s.remain - k), v[..k]);
      rest := v[k..];
      request := request.(body := request.body + v[..k]);
      remain := remain - k;
      ReceiveStep(d, rest);
      assert rest[0..] == rest;
      if remain == 0 {
        status := GotAll;
        return Ready, rest, d;
      }
      return NotReady, rest, d;
    }

    method ChunkLenCase(v: string, ghost s: Server) returns (pass: Pass, rest: string, ghost d: Server)
      requires Matches(s) && s.status.ExpectChunkLen?
      modifies this
      ensures Follows(pass, s, v, d, rest)
    {
      ReceiveStep(s, v);
      hide Receive, ChunkSize, Find;
      assert Step(s, v) == ChunkLenStep(s, v);
      rest, d := v, s;
      var crlf := Find(v, CRLF, 0);
      if crlf.None? {
        pass := NeedMore(v, CHUNK_LEN_MAX + 2, 400, s);
        return;
      }
      NoteLength(crlf.value, s);
      chunk := ChunkSize(v[..crlf.value]);
      if chunk != 0 {
        if chunk + remain > maxBody {
          StopsAt(Note(s, crlf.value).(chunk := chunk, failed := Some(413)), v);
          return Refuse(413), rest, d;
        }
        status := Expecting(ExpectChunkBody);
      } else {
        status := Expecting(ExpectLastEmptyChunk);
      }
      return Again, v[crlf.value + 2..], Step(s, v).next;
    }

    method ChunkBodyCase(v: string, ghost s: Server) returns (pass: Pass, rest: string, ghost d: Server)
      requires Matches(s) && s.status.ExpectChunkBody?
      modifies this
      ensures Follows(pass, s, v, d, rest)
    {
      ReceiveStep(s, v);
      hide Receive;
      assert Step(s, v) == ChunkBodyStep(s, v);
      rest, d := v, s;
      if |v| < chunk + 2 {
        return NotReady, rest, d;
      }
      if v[chunk..chunk + 2] != CRLF {
        StopsAt(s.(failed := Some(400)), v);
        return Refuse(400), rest, d;
      }
      request := request.(body := request.body + v[..chunk]);
      rest := v[chunk + 2..];
      remain := remain + chunk;
      chunk := 0;
      status := Expecting(ExpectChunkLen);
      return Again, rest, Step(s, v).next;
    }

    method LastChunkCase(v: string, ghost s: Server) returns (pass: Pass, rest: string, ghost d: Server)
      requires Matches(s) && s.status.ExpectLastEmptyChunk?
      modifies this
      ensures Follows(pass, s, v, d, rest)
    {
      ReceiveStep(s, v);
      hide Receive, Unchunk;
      assert Step(s, v) == LastChunkStep(s, v);
      rest, d := v, s;
      if |v| < 2 {
        return NotReady, rest, d;
      }
      if v[..2] != CRLF {
        StopsAt(s.(failed := Some(400)), v);
        return Refuse(400), rest, d;
      }
      request := Unchunk(request);
      status := GotAll;
      return Ready, v[2..], s.(request := request, used := s.used + 2);
    }

    method OnePass(v: string, ghost s: Server) returns (pass: Pass, rest: string, ghost d: Server)
      requires Matches(s)
      modifies this
      ensures Follows(pass, s, v, d, rest)
    {
      hide Receive;
      match status.what {
        case ExpectMethod => pass, rest, d := MethodCase(v, s);
        case ExpectRequestLine => pass, rest, d := LineCase(v, s);
        case ExpectHeaders => pass, rest, d := HeaderCase(v, s);
        case ExpectBody => pass, rest, d := BodyCase(v, s);
        case ExpectChunkLen => pass, rest, d := ChunkLenCase(v, s);
        case ExpectChunkBody => pass, rest, d := ChunkBodyCase(v, s);
        case ExpectLastEmptyChunk => pass, rest, d := LastChunkCase(v, s);
      }
    }

    /** One call on the buffered bytes `buf`, entered before the request is complete. */
    method ParseRequest(buf: string, ghost s: Server) returns (pass: Pass, rest: string, ghost d: Server)
      requires Matches(s)
      modifies this
      ensures Follows(pass, s, buf, d, rest) && !pass.Again?
    {
      hide Receive;
      pass, rest, d := OnePass(buf, s);
      while pass.Again?
        invariant Follows(pass, s, buf, d, rest)
        decreases pass.Again?, |rest|
      {
        pass, rest, d := OnePass(rest, d);
      }
    }

    method Reset()
      modifies this
      ensures status == Expecting(ExpectMethod) && request == NEW_REQUEST && remain == 0
      ensures chunk == old(chunk) && continues == old(continues) && overlong == old(overlong)
    {
      status := Expecting(ExpectMethod);
      request := NEW_REQUEST;
      remain := 0;
    }
  }

  lemma StopsAt(s: Server, v: string)
    requires s.failed.Some?
    ensures Receive(s, v) == Config(s, v) && v[0..] == v
  {
    ReceiveStep(s, v);
  }

  /** Nothing happens without more bytes: so it is between calls. */
  predicate AtRest(s: Server) { Step(s, "").Wait? }

  lemma RestWaits(s: Server)
    requires AtRest(s)
    ensures Receive(s, "") == Config(s, "") && Guard(s, "") == s
  {
    ReceiveStep(s, "");
  }

  lemma FreshRests(s: Server)
    ensures AtRest(Deliver(s))
  {
  }

  lemma RunRests(s: Server, v: string)
    ensures AtRest(Receive(s, v).state)
  {
    Progresses();
    RunStops(Step, Rank, s, v);
    var r := Receive(s, v);
    assert "" + r.rest == r.rest;
    if Step(r.state, "").Go? {
      StepStable(r.state, "", r.rest);
    }
  }

  /** The receiving half of a server connection. */
  class Connection {
    const parser: HttpRequestParser
    var requests: seq<Request>
    var stopped: bool
    var answered: Option<nat>

    ghost predicate Holds(s: Server)
      reads this, parser
    {
      requests == s.done && answered == s.failed && stopped == s.failed.Some? && (!stopped ==> parser.Matches(s))
    }

    constructor (maxBody: nat)
      ensures Holds(Init(maxBody)) && fresh(parser)
    {
      parser := new HttpRequestParser(maxBody);
      requests := [];
      stopped := false;
      answered := None;
    }

    /** The receive loop does what the machine does: the same requests, in order, the
        same refusal, the same bytes kept for later. */
    method OnMessage(buf: string, ghost s: Server) returns (rest: string)
      requires Holds(s) && !stopped && AtRest(s)
      modifies this, parser
      ensures var r := Receive(s, buf);
              requests == r.state.done && answered == Guard(r.state, r.rest).failed && stopped == answered.Some? &&
              (!stopped ==> rest == r.rest && parser.Matches(r.state) && AtRest(r.state))
    {
      RunRests(s, buf);
      hide Receive;
      rest := buf;
      ghost var d := s;
      while |rest| > 0
        invariant Holds(d) && !stopped && AtRest(d) && Receive(s, buf) == Receive(d, rest)
        decreases |rest|
      {
        ghost var before := |rest|;
        var pass;
        ghost var e;
        pass, rest, e := parser.ParseRequest(rest, d);
        match pass {
          case Refuse(code) =>
            answered := Some(code);
            stopped := true;
            return "";
          case NotReady =>
            return;
          case Ready =>
            requests := requests + [parser.request];
            parser.Reset();
            FreshRests(e);
            d := Deliver(e);
        }
      }
      RestWaits(d);
    }
  }
}
