/** `HttpResponseParser` and the client's receive loop, proved equal to the step
    machine of `ResponseModel`. */
module ResponseParser {
  import opened Text
  import opened Numerals
  import opened Resumable
  import opened ResponseModel

  predicate SameRequests(c: Client, d: Client) {
    d.heads == c.heads && d.plan == c.plan && d.done == c.done
  }

  /** Body bytes one by one or all at once. */
  lemma {:induction false} AbsorbBody(c: Client, v: string, k: nat)
    requires c.failed.None? && c.heads != [] && c.status.ExpectBody? && k <= c.left && k <= |v|
    ensures Receive(c, v) == Receive(WithBody(c.(left := c.left - k), v[..k]), v[k..])
    decreases k
  {
    if k == 0 {
      assert v[0..] == v && c.response.body + "" == c.response.body;
    } else {
      AbsorbBody(c, v, k - 1);
      var d := WithBody(c.(left := c.left - (k - 1)), v[..k - 1]);
      ReceiveStep(d, v[k - 1..]);
      assert v[k - 1..][1..] == v[k..];
      OneMoreByte(c.response.body, v, k);
    }
  }

  function WithBody(c: Client, data: string): Client {
    c.(response := c.response.(body := c.response.body + data), used := c.used + |data|)
  }

  lemma OneMoreByte(body: string, v: string, k: nat)
    requires 0 < k <= |v|
    ensures body + v[..k - 1] + [v[k - 1..][0]] == body + v[..k]
  {
  }

  lemma {:induction false} AbsorbUntilClose(c: Client, v: string, k: nat)
    requires c.failed.None? && c.heads != [] && c.status.ExpectClose? && k <= |v|
    ensures Receive(c, v) == Receive(WithBody(c, v[..k]), v[k..])
    decreases k
  {
    if k == 0 {
      assert v[0..] == v && c.response.body + "" == c.response.body;
    } else {
      AbsorbUntilClose(c, v, k - 1);
      var d := WithBody(c, v[..k - 1]);
      ReceiveStep(d, v[k - 1..]);
      assert v[k - 1..][1..] == v[k..];
      OneMoreByte(c.response.body, v, k);
    }
  }

  /** The status the source keeps; a finished response waits in `GotAll` to be taken. */
  datatype ParseStatus = Expecting(what: Status) | GotAll

  /** How one pass of the source's loop leaves things. */
  datatype Pass = Again | Done | Error

  class HttpResponseParser {
    var status: ParseStatus
    var response: Response
    var forHead: bool
    var left: nat
    var chunk: nat
    var shutdown: bool

    constructor ()
      ensures Matches(Init([false], []))
    {
      status := Expecting(ExpectResponseLine);
      response := NEW_RESPONSE;
      forHead := false;
      left, chunk := 0, 0;
      shutdown := false;
    }

    /** This object holds the parser half of the machine state `c`. */
    ghost predicate Matches(c: Client)
      reads this
    {
      && status == Expecting(c.status) && response == c.response
      && left == c.left && chunk == c.chunk && shutdown == c.shutdown
      && c.failed.None? && c.heads != [] && forHead == c.heads[0]
    }

    /** Running the machine from `c` over `v` delivers this object's finished response
        and goes on from there with `rest`. */
    ghost predicate Delivers(c: Client, v: string, d: Client, rest: string)
      reads this
    {
      && status.GotAll? && response == d.response && shutdown == d.shutdown
      && SameRequests(c, d) && d.heads != []
      && Receive(c, v) == Receive(Deliver(d), rest)
    }

    /** What one pass, or a whole call, may do to the machine state `c` on `v`. */
    ghost predicate Follows(pass: Pass, c: Client, v: string, d: Client, rest: string)
      reads this
    {
      match pass
      case Again => Matches(d) && Receive(c, v) == Receive(d, rest) && SameRequests(c, d) && |rest| < |v|
      case Done =>
        || Delivers(c, v, d, rest)
        || (Matches(d) && Receive(c, v) == Config(d, rest) && SameRequests(c, d))
      case Error => Fails(c, v)
    }

    method Reset()
      modifies this
      ensures status == Expecting(ExpectResponseLine) && response == NEW_RESPONSE && !forHead
      ensures left == 0 && chunk == 0 && shutdown == old(shutdown)
    {
      status := Expecting(ExpectResponseLine);
      response := NEW_RESPONSE;
      forHead := false;
      left, chunk := 0, 0;
    }

    method LineCase(v: string, ghost c: Client) returns (pass: Pass, rest: string, ghost d: Client)
      requires Matches(c) && c.status.ExpectResponseLine?
      modifies this
      ensures Follows(pass, c, v, d, rest) && forHead == old(forHead)
    {
      hide Receive, StatusLine, Find;
      ReceiveStep(c, v);
      assert Step(c, v) == LineStep(c, v);
      rest, d := v, c;
      var pos := Find(v, CRLF, 0);
      if pos.None? {
        return Done, rest, d;
      }
      var line := StatusLine(v[..pos.value]);
      if line.None? {
        StopsAt(c.(failed := Some(BadResponse)), v);
        return Error, rest, d;
      }
      response := response.(version := line.value.0, code := line.value.1);
      status := Expecting(ExpectHeaders);
      return Again, v[pos.value + 2..], Step(c, v).next;
    }

    method HeaderCase(v: string, ghost c: Client) returns (pass: Pass, rest: string, ghost d: Client)
      requires Matches(c) && c.status.ExpectHeaders?
      modifies this
      ensures Follows(pass, c, v, d, rest) && forHead == old(forHead)
    {
      hide Receive, Find, AddHeader, FramingOf;
      ReceiveStep(c, v);
      assert Step(c, v) == HeaderStep(c, v);
      rest, d := v, c;
      var pos := Find(v, CRLF, 0);
      if pos.None? {
        return Done, rest, d;
      }
      var colon := Find(v[..pos.value], ":", 0);
      if colon.Some? {
        response := AddHeader(response, v[..pos.value], colon.value);
        return Again, v[pos.value + 2..], Step(c, v).next;
      }
      var framing := FramingOf(response);
      if framing.BadLength? {
        StopsAt(c.(failed := Some(BadResponse)), v);
        return Error, rest, d;
      }
      rest := v[pos.value + 2..];
      d := EndHeaders(framing, c);
      d := d.(used := c.used + (pos.value + 2));
      return if status.GotAll? then Done else Again, rest, d;
    }

    /** Settle how the body will be delimited; `d` is the machine before any delivery. */
    method EndHeaders(framing: Framing, ghost c: Client) returns (ghost d: Client)
      requires Matches(c) && framing == FramingOf(response) && !framing.BadLength?
      modifies this
      ensures SameRequests(c, d) && response == c.response == d.response
      ensures forHead == old(forHead) && d.used == c.used
      ensures if status.GotAll? then shutdown == d.shutdown && EndOfHeaders(c) == Some(Deliver(d))
              else Matches(d) && EndOfHeaders(c) == Some(d)
    {
      hide FramingOf;
      d := c;
      match framing {
        case Length(n) =>
          left := n;
          status := Expecting(ExpectBody);
          d := c.(status := ExpectBody, left := n);
        case Chunked =>
          status := Expecting(ExpectChunkLen);
          d := c.(status := ExpectChunkLen);
        case NoBody =>
          status := GotAll;
        case UntilClose =>
          status := Expecting(ExpectClose);
          shutdown := true;
          d := c.(status := ExpectClose, shutdown := true);
      }
      if forHead {
        left := 0;
        status := GotAll;
      }
    }

    method ChunkLenCase(v: string, ghost c: Client) returns (pass: Pass, rest: string, ghost d: Client)
      requires Matches(c) && c.status.ExpectChunkLen?
      modifies this
      ensures Follows(pass, c, v, d, rest) && forHead == old(forHead)
    {
      hide Receive, ChunkSize, Find;
      ReceiveStep(c, v);
      assert Step(c, v) == ChunkLenStep(c, v);
      rest, d := v, c;
      var pos := Find(v, CRLF, 0);
      if pos.None? {
        return Done, rest, d;
      }
      var size := ChunkSize(v[..pos.value]);
      if size.None? {
        StopsAt(c.(failed := Some(BadResponse)), v);
        return Error, rest, d;
      }
      chunk := size.value;
      status := Expecting(if chunk != 0 then ExpectChunkBody else ExpectLastEmptyChunk);
      return Again, v[pos.value + 2..], Step(c, v).next;
    }

    method ChunkBodyCase(v: string, ghost c: Client) returns (pass: Pass, rest: string, ghost d: Client)
      requires Matches(c) && c.status.ExpectChunkBody?
      modifies this
      ensures Follows(pass, c, v, d, rest) && forHead == old(forHead)
    {
      hide Receive;
      ReceiveStep(c, v);
      assert Step(c, v) == ChunkBodyStep(c, v);
      rest, d := v, c;
      if |v| < chunk + 2 {
        return Done, rest, d;
      }
      if v[chunk..chunk + 2] != CRLF {
        StopsAt(c.(failed := Some(BadResponse)), v);
        return Error, "", d;
      }
      response := response.(body := response.body + v[..chunk]);
      rest := v[chunk + 2..];
      chunk := 0;
      status := Expecting(ExpectChunkLen);
      return Again, rest, Step(c, v).next;
    }

    method LastChunkCase(v: string, ghost c: Client) returns (pass: Pass, rest: string, ghost d: Client)
      requires Matches(c) && c.status.ExpectLastEmptyChunk?
      modifies this
      ensures Follows(pass, c, v, d, rest) && forHead == old(forHead)
    {
      hide Receive, Unchunk, Find;
      ReceiveStep(c, v);
      assert Step(c, v) == LastChunkStep(c, v);
      rest, d := v, c;
      var pos := Find(v, CRLF, 0);
      if pos.None? {
        return Done, rest, d;
      }
      response := Unchunk(response);
      status := GotAll;
      return Done, v[pos.value + 2..], c.(response := response, used := c.used + (pos.value + 2));
    }

    method BodyCase(v: string, ghost c: Client) returns (pass: Pass, rest: string, ghost d: Client)
      requires Matches(c) && c.status.ExpectBody?
      modifies this
      ensures Follows(pass, c, v, d, rest) && forHead == old(forHead)
    {
      hide Receive;
      rest, d := v, c;
      if |v| == 0 {
        ReceiveStep(c, v);
        assert v[0..] == v;
        if left == 0 {
          status := GotAll;
        }
        return Done, rest, d;
      }
      var k := if left >= |v| then |v| else left;
      AbsorbBody(c, v, k);
      d := WithBody(c.(left := c.left - k), v[..k]);
      response := response.(body := response.body + v[..k]);
      rest := v[k..];
      left := left - k;
      if left == 0 {
        ReceiveStep(d, rest);
        assert rest[0..] == rest;
        status := GotAll;
        return Done, rest, d;
      }
      return Again, rest, d;
    }

    method CloseCase(v: string, ghost c: Client) returns (pass: Pass, rest: string, ghost d: Client)
      requires Matches(c) && c.status.ExpectClose?
      modifies this
      ensures Follows(pass, c, v, d, rest) && forHead == old(forHead)
    {
      hide Receive;
      AbsorbUntilClose(c, v, |v|);
      assert v[..|v|] == v && v[|v|..] == "";
      d := WithBody(c, v);
      ReceiveStep(d, "");
      response := response.(body := response.body + v);
      return Done, "", d;
    }

    method OnePass(v: string, ghost c: Client) returns (pass: Pass, rest: string, ghost d: Client)
      requires Matches(c)
      modifies this
      ensures Follows(pass, c, v, d, rest) && forHead == old(forHead)
    {
      hide Receive;
      match status.what {
        case ExpectResponseLine => pass, rest, d := LineCase(v, c);
        case ExpectHeaders => pass, rest, d := HeaderCase(v, c);
        case ExpectBody => pass, rest, d := BodyCase(v, c);
        case ExpectClose => pass, rest, d := CloseCase(v, c);
        case ExpectChunkLen => pass, rest, d := ChunkLenCase(v, c);
        case ExpectChunkBody => pass, rest, d := ChunkBodyCase(v, c);
        case ExpectLastEmptyChunk => pass, rest, d := LastChunkCase(v, c);
      }
    }

    /** One call on the buffered bytes `buf`; it must not be entered with a finished
        response, on which the source's loop would not end. */
    method ParseResponse(buf: string, ghost c: Client) returns (ok: bool, rest: string, ghost d: Client)
      requires Matches(c)
      modifies this
      ensures Follows(if ok then Done else Error, c, buf, d, rest)
    {
      hide Receive;
      var pass;
      pass, rest, d := OnePass(buf, c);
      while pass.Again?
        invariant Follows(pass, c, buf, d, rest)
        decreases pass.Again?, |rest|
      {
        pass, rest, d := OnePass(rest, d);
      }
      ok := pass.Done?;
    }
  }

  /** The machine started at `c` on `v` refuses what it reads, having delivered nothing. */
  ghost predicate Fails(c: Client, v: string) {
    var r := Receive(c, v).state;
    r.failed == Some(BadResponse) && SameRequests(c, r)
  }

  lemma StopsAt(c: Client, v: string)
    requires c.failed.Some?
    ensures Receive(c, v) == Config(c, v) && v[0..] == v
  {
    ReceiveStep(c, v);
  }

  /** Nothing happens without more bytes: so it is between calls. */
  predicate AtRest(c: Client) { Step(c, "").Wait? }

  lemma RestWaits(c: Client)
    requires AtRest(c)
    ensures Receive(c, "") == Config(c, "")
  {
    ReceiveStep(c, "");
  }

  lemma RunRests(c: Client, v: string)
    ensures AtRest(Receive(c, v).state)
  {
    Progresses();
    RunStops(Step, Rank, c, v);
    var r := Receive(c, v);
    assert "" + r.rest == r.rest;
    if Step(r.state, "").Go? {
      StepStable(r.state, "", r.rest);
    }
  }

  /** The receiving half of the client: the parser of the connection, the requests still
      owed a response (only whether each is a HEAD matters here), those to be sent upon each
      further response, and what they got. */
  class Receiver {
    const parser: HttpResponseParser
    var heads: seq<bool>
    var plan: seq<seq<bool>>
    var done: seq<Response>
    var failed: Option<Failure>

    ghost predicate Holds(c: Client)
      reads this, parser
    {
      && done == c.done && failed == c.failed
      && (failed.None? ==> heads == c.heads && plan == c.plan && ParserHolds(c))
    }

    ghost predicate ParserHolds(c: Client)
      reads this, parser
    {
      && parser.status == Expecting(c.status) && parser.response == c.response
      && parser.left == c.left && parser.chunk == c.chunk && parser.shutdown == c.shutdown
      && (parser.forHead ==> heads != [] && heads[0])
    }

    constructor (heads: seq<bool>, plan: seq<seq<bool>>)
      ensures Holds(Init(heads, plan)) && fresh(parser)
    {
      parser := new HttpResponseParser();
      this.heads, this.plan := heads, plan;
      done := [];
      failed := None;
    }

    /** Parse once and, if a response is complete, hand it over. */
    method ReceiveOne(msg: string, ghost c: Client) returns (again: bool, rest: string, ghost d: Client)
      requires Holds(c) && failed.None? && heads != []
      modifies this, parser
      ensures again ==> Holds(d) && failed.None? && AtRest(d) && Receive(c, msg) == Receive(d, rest)
      ensures again ==> |Owed(d)| < |Owed(c)|
      ensures !again ==> Holds(Receive(c, msg).state) && (failed.None? ==> rest == Receive(c, msg).rest)
    {
      hide Receive;
      if heads[0] {
        parser.forHead := true;
      }
      var ok;
      ok, rest, d := parser.ParseResponse(msg, c);
      if !ok {
        failed := Some(BadResponse);
        return false, rest, d;
      }
      if parser.status.GotAll? {
        done := done + [parser.response];
        heads, plan := heads[1..] + Planned(plan), Behind(plan);
        d := Deliver(d);
        parser.Reset();
        return true, rest, d;
      }
      return false, rest, d;
    }

    /** The receive loop does what the machine does: the same responses, in order, the
        same failure, the same bytes left over. */
    method OnRecvMessage(msg: string, ghost c: Client) returns (rest: string)
      requires Holds(c) && failed.None? && AtRest(c)
      modifies this, parser
      ensures AtRest(Receive(c, msg).state)
      ensures Holds(Receive(c, msg).state)
      ensures failed.None? ==> rest == Receive(c, msg).rest
    {
      RunRests(c, msg);
      hide Receive, AtRest;
      rest := msg;
      ghost var d := c;
      var again := true;
      while again && |rest| > 0
        invariant again ==> Holds(d) && failed.None? && AtRest(d) && Receive(c, msg) == Receive(d, rest)
        invariant !again ==> Holds(Receive(c, msg).state) && (failed.None? ==> rest == Receive(c, msg).rest)
        decreases again, |Owed(d)|
      {
        if heads == [] {
          ReceiveStep(d, rest);
          StopsAt(d.(failed := Some(MoreThanExpected)), rest);
          failed := Some(MoreThanExpected);
          again := false;
        } else {
          again, rest, d := ReceiveOne(rest, d);
        }
      }
      if again {
        assert rest == "";
        RestWaits(d);
      }
    }
  }
}
