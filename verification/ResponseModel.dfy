/** The HTTP response parser together with the client's receive loop, as a step
    machine: one line, one chunk or one body byte at a time, and the next response as
    soon as one is complete. */
module ResponseModel {
  import opened Text
  import opened Numerals
  import opened Resumable

  datatype Status =
    | ExpectResponseLine | ExpectHeaders | ExpectBody
    | ExpectChunkLen | ExpectChunkBody | ExpectLastEmptyChunk | ExpectClose

  datatype Version = Http10 | Http11

  datatype Response = Response(
    version: Version, code: int, headers: map<string, string>, cookies: seq<string>, body: string)

  const NEW_RESPONSE := Response(Http11, 0, map[], [], "")

  datatype Failure = BadResponse | MoreThanExpected

  /** `heads` says of each outstanding request whether it was a HEAD; `plan` which requests
      the client will send upon each further response; `done` are the responses handed to
      their requests so far, oldest first. */
  datatype Client = Client(
    status: Status, response: Response, left: nat, chunk: nat, shutdown: bool,
    heads: seq<bool>, plan: seq<seq<bool>>, done: seq<Response>, failed: Option<Failure>, used: nat)

  function Init(heads: seq<bool>, plan: seq<seq<bool>>): Client {
    Client(ExpectResponseLine, NEW_RESPONSE, 0, 0, false, heads, plan, [], None, 0)
  }

  // Lines.

  /** `atoi` without its behaviour on overflow. */
  function Atoi(s: string): int {
    var t := SkipSpaces(s);
    var u := if t != "" && (t[0] == '-' || t[0] == '+') then t[1..] else t;
    var value: int := DecimalValue(u[..DigitRun(u)]);
    if t != "" && t[0] == '-' then -value else value
  }

  /** The version and the code of a status line; None where it is refused. */
  function StatusLine(line: string): Option<(Version, int)> {
    match Find(line, " ", 0)
    case None => None
    case Some(first) =>
      if first == 0 || (line[first - 1] != '1' && line[first - 1] != '0') then None
      else
        match Find(line, " ", first + 1)
        case None => None
        case Some(second) =>
          Some((if line[first - 1] == '1' then Http11 else Http10, Atoi(line[first + 1..second])))
  }

  function HeaderLookup(headers: map<string, string>, key: string): string {
    if key in headers then headers[key] else ""
  }

  function AddHeader(r: Response, line: string, colon: nat): Response
    requires colon < |line|
  {
    var field := LowerAll(line[..colon]);
    var value := Trim(line[colon + 1..]);
    if field == "set-cookie" then r.(cookies := r.cookies + [value])
    else r.(headers := r.headers[field := value])
  }

  predicate IsUpgrade(r: Response) {
    r.code == 101 && LowerAll(HeaderLookup(r.headers, "upgrade")) == "websocket"
  }

  /** The size on a chunk line: hexadecimal digits up to the end or a semicolon. */
  function ChunkSize(line: string): Option<nat> {
    var n := HexRun(line);
    if n == 0 || (At(line, n) != '\0' && At(line, n) != ';') then None
    else
      var size := HexValue(line[..n]);
      if size > SIZE_MAX then None else Some(size)
  }

  // Steps.

  function Fail(c: Client, why: Failure): Outcome<Client> { Go(c.(failed := Some(why)), 0) }

  function Consume(c: Client, used: nat): Outcome<Client> { Go(c.(used := c.used + used), used) }

  function Planned(plan: seq<seq<bool>>): seq<bool> { if plan == [] then [] else plan[0] }

  function Behind(plan: seq<seq<bool>>): seq<seq<bool>> { if plan == [] then [] else plan[1..] }

  /** Hand the finished response to the oldest request, send what is to be sent then, and
      start over. */
  function Deliver(c: Client): Client
    requires c.heads != []
  {
    Client(ExpectResponseLine, NEW_RESPONSE, 0, 0, c.shutdown, c.heads[1..] + Planned(c.plan), Behind(c.plan),
           c.done + [c.response], None, c.used)
  }

  function Step(c: Client, v: string): Outcome<Client> {
    if c.failed.Some? then Wait
    else if c.heads == [] then (if v == "" then Wait else Fail(c, MoreThanExpected))
    else match c.status
      case ExpectResponseLine => LineStep(c, v)
      case ExpectHeaders => HeaderStep(c, v)
      case ExpectBody => BodyStep(c, v)
      case ExpectClose =>
        if v == "" then Wait
        else Consume(c.(response := c.response.(body := c.response.body + [v[0]])), 1)
      case ExpectChunkLen => ChunkLenStep(c, v)
      case ExpectChunkBody => ChunkBodyStep(c, v)
      case ExpectLastEmptyChunk => LastChunkStep(c, v)
  }

  function LineStep(c: Client, v: string): Outcome<Client> {
    match Find(v, CRLF, 0)
    case None => Wait
    case Some(pos) =>
      match StatusLine(v[..pos])
      case None => Fail(c, BadResponse)
      case Some((version, code)) =>
        Consume(c.(status := ExpectHeaders, response := c.response.(version := version, code := code)), pos + 2)
  }

  function HeaderStep(c: Client, v: string): Outcome<Client>
    requires c.heads != []
  {
    match Find(v, CRLF, 0)
    case None => Wait
    case Some(pos) =>
      match Find(v[..pos], ":", 0)
      case Some(colon) => Consume(c.(response := AddHeader(c.response, v[..pos], colon)), pos + 2)
      case None =>
        match EndOfHeaders(c)
        case None => Fail(c, BadResponse)
        case Some(c') => Consume(c', pos + 2)
  }

  /** How a body is delimited, decided when its headers end. */
  datatype Framing = BadLength | Length(n: nat) | Chunked | NoBody | UntilClose

  function FramingOf(r: Response): Framing {
    var length := HeaderLookup(r.headers, "content-length");
    if length != "" then
      if Stoull(length).None? then BadLength else Length(Stoull(length).value)
    else if HeaderLookup(r.headers, "transfer-encoding") == "chunked" then Chunked
    else if r.code == 204 || IsUpgrade(r) then NoBody
    else UntilClose
  }

  /** A line without a colon ends the headers; a response to HEAD has no body. */
  function EndOfHeaders(c: Client): Option<Client>
    requires c.heads != []
  {
    var framing := FramingOf(c.response);
    if framing.BadLength? then None
    else
      var c' := match framing
        case Length(n) => c.(status := ExpectBody, left := n)
        case Chunked => c.(status := ExpectChunkLen)
        case UntilClose => c.(status := ExpectClose, shutdown := true)
        case _ => c;
      Some(if framing.NoBody? || c.heads[0] then Deliver(c') else c')
  }

  function BodyStep(c: Client, v: string): Outcome<Client>
    requires c.heads != []
  {
    if c.left == 0 then Go(Deliver(c), 0)
    else if v == "" then Wait
    else Consume(c.(left := c.left - 1, response := c.response.(body := c.response.body + [v[0]])), 1)
  }

  function ChunkLenStep(c: Client, v: string): Outcome<Client> {
    match Find(v, CRLF, 0)
    case None => Wait
    case Some(pos) =>
      match ChunkSize(v[..pos])
      case None => Fail(c, BadResponse)
      case Some(n) =>
        Consume(c.(chunk := n, status := if n != 0 then ExpectChunkBody else ExpectLastEmptyChunk), pos + 2)
  }

  function ChunkBodyStep(c: Client, v: string): Outcome<Client> {
    if |v| < c.chunk + 2 then Wait
    else if v[c.chunk..c.chunk + 2] != CRLF then Fail(c, BadResponse)
    else
      Consume(c.(response := c.response.(body := c.response.body + v[..c.chunk]),
                 chunk := 0, status := ExpectChunkLen), c.chunk + 2)
  }

  /** A response that came in chunks is given a length instead. */
  function Unchunk(r: Response): Response {
    r.(headers := r.headers["content-length" := Decimal(|r.body|)] - {"transfer-encoding"})
  }

  function LastChunkStep(c: Client, v: string): Outcome<Client>
    requires c.heads != []
  {
    match Find(v, CRLF, 0)
    case None => Wait
    case Some(pos) => Consume(Deliver(c.(response := Unchunk(c.response))), pos + 2)
  }

  function Rank(c: Client): nat {
    if c.failed.Some? then 0 else if c.status.ExpectResponseLine? then 1 else 2
  }

  lemma StepProgress(c: Client, v: string)
    requires Step(c, v).Go?
    ensures Step(c, v).used <= |v|
    ensures Step(c, v).used > 0 || Rank(Step(c, v).next) < Rank(c)
  {
  }

  lemma Progresses()
    ensures Progress(Step, Rank)
  {
    forall c: Client, v: string | Step(c, v).Go?
      ensures Step(c, v).used <= |v| && (Step(c, v).used > 0 || Rank(Step(c, v).next) < Rank(c))
    {
      StepProgress(c, v);
    }
  }

  lemma StepStable(c: Client, v: string, x: string)
    requires Step(c, v).Go?
    ensures Step(c, v + x) == Step(c, v)
  {
    if Find(v, CRLF, 0).Some? {
      FindExtends(v, CRLF, 0, x);
      assert (v + x)[..Find(v, CRLF, 0).value] == v[..Find(v, CRLF, 0).value];
    }
    if |v| >= c.chunk + 2 {
      assert (v + x)[c.chunk..c.chunk + 2] == v[c.chunk..c.chunk + 2];
      assert (v + x)[..c.chunk] == v[..c.chunk];
    }
  }

  lemma Stables()
    ensures Stable(Step)
  {
    forall c: Client, v: string, x: string | Step(c, v).Go?
      ensures Step(c, v + x) == Step(c, v)
    {
      StepStable(c, v, x);
    }
  }

  ghost function Receive(c: Client, v: string): Config<Client> {
    Progresses();
    Run(Step, Rank, c, v)
  }

  lemma ReceiveStep(c: Client, v: string)
    ensures Step(c, v).Go? ==>
              Step(c, v).used <= |v| && Receive(c, v) == Receive(Step(c, v).next, v[Step(c, v).used..])
    ensures Step(c, v).Wait? ==> Receive(c, v) == Config(c, v)
  {
    Progresses();
  }

  ghost function ReceivePieces(c: Config<Client>, pieces: seq<string>): Config<Client> {
    Progresses();
    RunPieces(Step, Rank, c, pieces)
  }

  /** However the connection cut the bytes, the same responses go to the same requests
      and the parser stands at the same place. */
  lemma CutInvariance(c: Config<Client>, pieces: seq<string>)
    requires Step(c.state, c.rest).Wait?
    ensures ReceivePieces(c, pieces) == Receive(c.state, c.rest + Concat(pieces))
  {
    Progresses();
    Stables();
    AnyCut(Step, Rank, c, pieces);
  }

  function All(plan: seq<seq<bool>>): seq<bool> { if plan == [] then [] else plan[0] + All(plan[1..]) }

  /** All requests still to be answered, sent or not, in order. */
  function Owed(c: Client): seq<bool> { c.heads + All(c.plan) }

  /** `d` goes on from `c`: responses are only added, and each takes the oldest request. */
  predicate Continues(c: Client, d: Client) {
    && c.done <= d.done
    && |d.done| - |c.done| <= |Owed(c)| && Owed(d) == Owed(c)[|d.done| - |c.done|..]
  }

  /** A step leaves the requests alone or answers the oldest. */
  predicate Answers(c: Client, d: Client) {
    || (d.heads == c.heads && d.plan == c.plan && d.done == c.done)
    || (c.heads != [] && d.heads == c.heads[1..] + Planned(c.plan) && d.plan == Behind(c.plan)
        && |d.done| == |c.done| + 1 && c.done <= d.done)
  }

  lemma HeaderAnswers(c: Client, v: string)
    requires c.heads != [] && HeaderStep(c, v).Go?
    ensures Answers(c, HeaderStep(c, v).next)
  {
    hide Find, FramingOf, AddHeader, Planned, Behind;
  }

  lemma StepAnswers(c: Client, v: string)
    requires Step(c, v).Go?
    ensures Answers(c, Step(c, v).next)
  {
    hide Find, FramingOf, Unchunk, ChunkSize, StatusLine, AddHeader, Planned, Behind;
    if c.heads != [] && c.status.ExpectHeaders? {
      HeaderAnswers(c, v);
    }
    hide HeaderStep;
  }

  lemma AnswersContinues(c: Client, d: Client)
    requires Answers(c, d)
    ensures Continues(c, d)
  {
    if |d.done| == |c.done| {
      assert Owed(d) == Owed(c) && Owed(c)[0..] == Owed(c);
    } else {
      assert Owed(d) == Owed(c)[1..];
    }
  }

  lemma ContinuesOn(c: Client, d: Client, e: Client)
    requires Continues(c, d) && Continues(d, e)
    ensures Continues(c, e)
  {
    var m, n := |d.done| - |c.done|, |e.done| - |d.done|;
    assert Owed(c)[m..][n..] == Owed(c)[m + n..];
  }

  lemma {:induction false} InOrder(c: Client, v: string)
    ensures Continues(c, Receive(c, v).state)
    decreases |v|, Rank(c)
  {
    ReceiveStep(c, v);
    if Step(c, v).Go? {
      StepProgress(c, v);
      StepAnswers(c, v);
      AnswersContinues(c, Step(c, v).next);
      hide Step, Receive, Continues;
      var o := Step(c, v);
      InOrder(o.next, v[o.used..]);
      ContinuesOn(c, o.next, Receive(o.next, v[o.used..]).state);
    }
  }

  /** The peer closed the connection: a response delimited by that is complete now. */
  function OnClose(c: Client): Option<Client> {
    if c.failed.None? && c.heads != [] && c.status.ExpectClose? then Some(Deliver(c)) else None
  }

  /** Such a response holds every byte behind its headers. */
  lemma {:induction false} ClosedBody(c: Client, v: string)
    requires c.failed.None? && c.heads != [] && c.status.ExpectClose?
    ensures OnClose(Receive(c, v).state) ==
            Some(Deliver(c.(response := c.response.(body := c.response.body + v), used := c.used + |v|)))
    decreases |v|
  {
    ReceiveStep(c, v);
    if v == "" {
      assert c.response.body + v == c.response.body;
    } else {
      var c' := Step(c, v).next;
      ClosedBody(c', v[1..]);
      assert c'.response.body + v[1..] == c.response.body + v;
    }
  }
}
