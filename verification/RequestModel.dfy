/** The HTTP request parser (outside stream mode) together with the server's receive
    loop, as a step machine. */
module RequestModel {
  import opened Text
  import opened Numerals
  import opened Resumable

  datatype Status =
    | ExpectMethod | ExpectRequestLine | ExpectHeaders | ExpectBody
    | ExpectChunkLen | ExpectChunkBody | ExpectLastEmptyChunk

  datatype Method = Get | Post | Head | Put | Delete | Options | Patch

  datatype Version = Http10 | Http11

  datatype Request = Request(
    method_: Method, path: string, query: string, version: Version,
    headers: map<string, string>, cookies: seq<string>, expectation: string,
    contentLength: Option<nat>, body: string)

  const NEW_REQUEST := Request(Get, "", "", Http11, map[], [], "", None, "")

  /** `maxBody` is the configured limit; `done` are the complete requests, oldest first;
      `continues` counts the interim 100 answers; `failed` is the status code of a refusal;
      `overlong` counts the methods and lines that were longer than their limits. */
  datatype Server = Server(
    maxBody: nat, status: Status, request: Request, remain: nat, chunk: nat,
    continues: nat, done: seq<Request>, failed: Option<nat>, used: nat, overlong: nat)

  const METHOD_MAX_LEN := 7
  const LINE_MAX := 64 * 1024
  const CHUNK_LEN_MAX := 16
  const LONG_MAX: nat := 0x7FFF_FFFF_FFFF_FFFF

  function Init(maxBody: nat): Server {
    Server(maxBody, ExpectMethod, NEW_REQUEST, 0, 0, 0, [], None, 0, 0)
  }

  // Lines.

  function MethodOf(m: string): Option<Method> {
    if m == "GET" then Some(Get) else if m == "PUT" then Some(Put)
    else if m == "POST" then Some(Post) else if m == "HEAD" then Some(Head)
    else if m == "PATCH" then Some(Patch) else if m == "DELETE" then Some(Delete)
    else if m == "OPTIONS" then Some(Options) else None
  }

  /** The position of `c` in `s` at or after `from`, or the end of `s`. */
  function FindOrEnd(s: string, c: string, from: nat): (r: nat)
    requires from <= |s|
    ensures from <= r <= |s|
  {
    var f := Find(s, c, from);
    if f.Some? then f.value else |s|
  }

  /** Target and version of a request line; None where it is refused. */
  function RequestLine(r: Request, line: string): Option<Request> {
    match Find(line, " ", 0)
    case None => None
    case Some(space) =>
      var target := line[..space];
      var first := FindOrEnd(target, "/", 0);
      // a scheme may come before the path
      var slash := if first != 0 && first + 1 < space && target[first + 1] == '/'
                   then FindOrEnd(target, "/", first + 2) else first;
      var question := FindOrEnd(target, "?", slash);
      var path := if slash != space then target[slash..question] else "/";
      var query := if question != space then target[question + 1..] else r.query;
      var version := line[space + 1..];
      if version == "HTTP/1.1" then Some(r.(path := path, query := query, version := Http11))
      else if version == "HTTP/1.0" then Some(r.(path := path, query := query, version := Http10))
      else None
  }

  function HeaderLookup(headers: map<string, string>, key: string): string {
    if key in headers then headers[key] else ""
  }

  /** The first header of a name counts, except for the last expectation. */
  function AddHeader(r: Request, line: string, colon: nat): Request
    requires colon < |line|
  {
    var field := LowerAll(line[..colon]);
    var value := Trim(line[colon + 1..]);
    if field == "cookie" then r.(cookies := r.cookies + [value])
    else
      r.(expectation := if field == "expect" then value else r.expectation,
         headers := if field in r.headers then r.headers else r.headers[field := value])
  }

  /** `strtol` of a line of hexadecimal digits, anything behind them ignored. */
  function ChunkSize(line: string): nat {
    var size := HexValue(line[..HexRun(line)]);
    if size > LONG_MAX then LONG_MAX else size
  }

  // Steps.

  function Fail(s: Server, code: nat, used: nat): Outcome<Server> {
    Go(s.(failed := Some(code), used := s.used + used), used)
  }

  function Consume(s: Server, used: nat): Outcome<Server> { Go(s.(used := s.used + used), used) }

  /** Hand the finished request on and start over. */
  function Deliver(s: Server): Server {
    s.(status := ExpectMethod, request := NEW_REQUEST, remain := 0, done := s.done + [s.request])
  }

  function Step(s: Server, v: string): Outcome<Server> {
    if s.failed.Some? then Wait
    else match s.status
      case ExpectMethod => MethodStep(s, v)
      case ExpectRequestLine => LineStep(s, v)
      case ExpectHeaders => HeaderStep(s, v)
      case ExpectBody => BodyStep(s, v)
      case ExpectChunkLen => ChunkLenStep(s, v)
      case ExpectChunkBody => ChunkBodyStep(s, v)
      case ExpectLastEmptyChunk => LastChunkStep(s, v)
  }

  /** What a method or a line of a state may not grow to; None for states without lines. */
  function Limit(status: Status): Option<nat> {
    match status
    case ExpectMethod => Some(METHOD_MAX_LEN + 1)
    case ExpectRequestLine => Some(LINE_MAX - 1)
    case ExpectHeaders => Some(LINE_MAX - 1)
    case ExpectChunkLen => Some(CHUNK_LEN_MAX + 2)
    case _ => None
  }

  /** Count the item of `length` bytes that just ended if it was too long. */
  function Note(s: Server, length: nat): Server {
    if Limit(s.status).Some? && length >= Limit(s.status).value then s.(overlong := s.overlong + 1) else s
  }

  function MethodStep(s: Server, v: string): Outcome<Server> {
    match Find(v, " ", 0)
    case None => Wait
    case Some(pos) =>
      match MethodOf(v[..pos])
      case None => Fail(Note(s, pos), 405, 0)
      case Some(m) => Consume(Note(s, pos).(request := s.request.(method_ := m), status := ExpectRequestLine), pos + 1)
  }

  function LineStep(s: Server, v: string): Outcome<Server> {
    match Find(v, CRLF, 0)
    case None => Wait
    case Some(pos) =>
      match RequestLine(s.request, v[..pos])
      case None => Fail(Note(s, pos), 400, 0)
      case Some(r) => Consume(Note(s, pos).(request := r, status := ExpectHeaders), pos + 2)
  }

  function HeaderStep(s: Server, v: string): Outcome<Server> {
    match Find(v, CRLF, 0)
    case None => Wait
    case Some(pos) =>
      match Find(v[..pos], ":", 0)
      case Some(colon) => Consume(Note(s, pos).(request := AddHeader(s.request, v[..pos], colon)), pos + 2)
      case None => Consume(EndOfHeaders(Note(s, pos)), pos + 2)
  }

  /** How the body comes, decided when its headers end; or the code of a refusal. */
  datatype Framing = Refused(code: nat) | NoBody(length: Option<nat>) | Length(n: nat) | Chunked

  function FramingOf(r: Request): Framing {
    var length := HeaderLookup(r.headers, "content-length");
    var encoding := HeaderLookup(r.headers, "transfer-encoding");
    if length != "" then
      match Stoull(length)
      case None => Refused(400)
      case Some(n) => if n == 0 then NoBody(Some(0)) else Length(n)
    else if encoding == "" then NoBody(None)
    else if encoding == "chunked" then Chunked
    else Refused(501)
  }

  /** The interim answer to an expectation: None when there is nothing to object to. */
  function Objection(r: Request, remain: nat, maxBody: nat): Option<nat> {
    if remain > maxBody then Some(413)
    else if r.expectation == "100-continue" && r.version == Http11 then
      (if remain == 0 then Some(400) else None)
    else if r.expectation != "" then Some(417)
    else None
  }

  function EndOfHeaders(s: Server): Server {
    var framing := FramingOf(s.request);
    var remain := if framing.Length? then framing.n else s.remain;
    var objection := Objection(s.request, remain, s.maxBody);
    if framing.Refused? then s.(failed := Some(framing.code))
    else if objection.Some? then s.(failed := objection)
    else
      var s' := s.(continues := s.continues + if s.request.expectation != "" then 1 else 0);
      match framing
      case NoBody(length) => Deliver(s'.(request := s.request.(contentLength := length)))
      case Length(n) =>
        s'.(status := ExpectBody, remain := n, request := s.request.(contentLength := Some(n)))
      case Chunked => s'.(status := ExpectChunkLen)
  }

  function BodyStep(s: Server, v: string): Outcome<Server> {
    if s.remain == 0 then Go(Deliver(s), 0)
    else if v == "" then Wait
    else Consume(s.(remain := s.remain - 1, request := s.request.(body := s.request.body + [v[0]])), 1)
  }

  function ChunkLenStep(s: Server, v: string): Outcome<Server> {
    match Find(v, CRLF, 0)
    case None => Wait
    case Some(pos) =>
      var n := ChunkSize(v[..pos]);
      if n != 0 && n + s.remain > s.maxBody then Fail(Note(s, pos).(chunk := n), 413, 0)
      else Consume(Note(s, pos).(chunk := n, status := if n != 0 then ExpectChunkBody else ExpectLastEmptyChunk), pos + 2)
  }

  function ChunkBodyStep(s: Server, v: string): Outcome<Server> {
    if |v| < s.chunk + 2 then Wait
    else if v[s.chunk..s.chunk + 2] != CRLF then Fail(s, 400, 0)
    else
      Consume(s.(request := s.request.(body := s.request.body + v[..s.chunk]),
                 remain := s.remain + s.chunk, chunk := 0, status := ExpectChunkLen), s.chunk + 2)
  }

  /** A request that came in chunks is given a length instead. */
  function Unchunk(r: Request): Request {
    r.(headers := r.headers["content-length" := Decimal(|r.body|)] - {"transfer-encoding"})
  }

  function LastChunkStep(s: Server, v: string): Outcome<Server> {
    if |v| < 2 then Wait
    else if v[..2] != CRLF then Fail(s, 400, 0)
    else Consume(Deliver(s.(request := Unchunk(s.request))), 2)
  }

  function Rank(s: Server): nat {
    if s.failed.Some? then 0 else if s.status.ExpectMethod? then 1 else 2
  }

  /** What a request line or a header must not grow to before it ends. */
  function LengthRefusal(s: Server, v: string): Option<nat> {
    if s.failed.Some? then None
    else match s.status
      case ExpectMethod => if Find(v, " ", 0).None? && |v| > METHOD_MAX_LEN then Some(400) else None
      case ExpectRequestLine => if Find(v, CRLF, 0).None? && |v| >= LINE_MAX then Some(414) else None
      case ExpectHeaders => if Find(v, CRLF, 0).None? && |v| >= LINE_MAX then Some(400) else None
      case ExpectChunkLen => if Find(v, CRLF, 0).None? && |v| > CHUNK_LEN_MAX + 2 then Some(400) else None
      case _ => None
  }

  function Guard(s: Server, v: string): Server {
    var refusal := LengthRefusal(s, v);
    if refusal.Some? then s.(failed := refusal) else s
  }

  lemma StepProgress(s: Server, v: string)
    requires Step(s, v).Go?
    ensures Step(s, v).used <= |v|
    ensures Step(s, v).used > 0 || Rank(Step(s, v).next) < Rank(s)
  {
  }

  lemma Progresses()
    ensures Progress(Step, Rank)
  {
    forall s: Server, v: string | Step(s, v).Go?
      ensures Step(s, v).used <= |v| && (Step(s, v).used > 0 || Rank(Step(s, v).next) < Rank(s))
    {
      StepProgress(s, v);
    }
  }

  /** An item that ends inside `v` is the same item when more bytes follow. */
  lemma ItemStable(v: string, p: string, x: string)
    requires Find(v, p, 0).Some?
    ensures Find(v + x, p, 0) == Find(v, p, 0)
    ensures (v + x)[..Find(v, p, 0).value] == v[..Find(v, p, 0).value]
  {
    FindExtends(v, p, 0, x);
  }

  lemma StepStable(s: Server, v: string, x: string)
    requires Step(s, v).Go?
    ensures Step(s, v + x) == Step(s, v)
  {
    hide Find, RequestLine, MethodOf, AddHeader, EndOfHeaders, Unchunk, ChunkSize;
    match s.status
    case ExpectMethod => ItemStable(v, " ", x);
    case ExpectRequestLine => ItemStable(v, CRLF, x);
    case ExpectHeaders => ItemStable(v, CRLF, x);
    case ExpectBody =>
    case ExpectChunkLen => ItemStable(v, CRLF, x);
    case ExpectChunkBody =>
      assert (v + x)[s.chunk..s.chunk + 2] == v[s.chunk..s.chunk + 2];
      assert (v + x)[..s.chunk] == v[..s.chunk];
    case ExpectLastEmptyChunk => assert (v + x)[..2] == v[..2];
  }

  lemma Stables()
    ensures Stable(Step)
  {
    forall s: Server, v: string, x: string | Step(s, v).Go?
      ensures Step(s, v + x) == Step(s, v)
    {
      StepStable(s, v, x);
    }
  }

  ghost function Receive(s: Server, v: string): Config<Server> {
    Progresses();
    Run(Step, Rank, s, v)
  }

  lemma ReceiveStep(s: Server, v: string)
    ensures Step(s, v).Go? ==>
              Step(s, v).used <= |v| && Receive(s, v) == Receive(Step(s, v).next, v[Step(s, v).used..])
    ensures Step(s, v).Wait? ==> Receive(s, v) == Config(s, v)
  {
    Progresses();
  }

  /** One arrival of bytes on top of those kept: run, then the length limits. */
  ghost function ReceivePiece(c: Config<Server>, piece: string): Config<Server> {
    Progresses();
    Feed(Step, Rank, Guard, c, piece)
  }

  ghost function ReceivePieces(c: Config<Server>, pieces: seq<string>): Config<Server> {
    Progresses();
    FeedPieces(Step, Rank, Guard, c, pieces)
  }

  /** No cut falls into a line that is already over its limit. */
  ghost predicate LinesFit(c: Config<Server>, pieces: seq<string>) {
    Progresses();
    NeverTrips(Step, Rank, Guard, c, pieces)
  }

  /** However the connection cut the bytes, the same requests come out. */
  lemma CutInvariance(c: Config<Server>, pieces: seq<string>)
    requires Step(c.state, c.rest).Wait?
    requires LinesFit(c, pieces)
    ensures ReceivePieces(c, pieces) == Receive(c.state, c.rest + Concat(pieces))
  {
    Progresses();
    Stables();
    AnyGuardedCut(Step, Rank, Guard, c, pieces);
  }

  predicate Agree(c: Config<Server>, d: Config<Server>) {
    c.state == d.state && (c.state.failed.None? ==> c.rest == d.rest)
  }

  /** The method or line the parser is in the middle of has its end in `v`. */
  predicate Ended(s: Server, v: string) {
    Find(v, if s.status.ExpectMethod? then " " else CRLF, 0).Some?
  }

  /** Exactly when one cut can be seen: the first arrival was refused for its length and
      the second would have ended the line. */
  lemma ExactCut(s: Server, a: string, b: string)
    ensures var r := Receive(s, a);
            Agree(ReceivePiece(ReceivePiece(Config(s, ""), a), b), ReceivePiece(Config(s, ""), a + b)) <==>
            !(LengthRefusal(r.state, r.rest).Some? && Ended(r.state, r.rest + b))
  {
    var r := Receive(s, a);
    Progresses();
    Stables();
    Split(Step, Rank, s, a, b);
    assert "" + a == a && "" + (a + b) == a + b;
    if LengthRefusal(r.state, r.rest).Some? {
      RefusedCut(r.state, r.rest, b);
    }
  }

  lemma RefusedCut(s: Server, v: string, b: string)
    requires LengthRefusal(s, v).Some?
    ensures var dead := s.(failed := LengthRefusal(s, v));
            var q := Receive(s, v + b);
            Receive(dead, v + b).state == dead && (Guard(q.state, q.rest) == dead <==> !Ended(s, v + b))
  {
    var dead := s.(failed := LengthRefusal(s, v));
    ReceiveStep(dead, v + b);
    ReceiveStep(s, v + b);
    hide Receive;
    RefusedLine(s, v, b);
    var o := Step(s, v + b);
    if o.Go? {
      hide Step, LengthRefusal;
      UsedGrows(o.next, (v + b)[o.used..]);
    }
  }

  /** When the over-long line does end, the parser moves on or refuses it with another code. */
  lemma RefusedLine(s: Server, v: string, b: string)
    requires LengthRefusal(s, v).Some?
    ensures var o := Step(s, v + b);
            if o.Wait? then !Ended(s, v + b) && LengthRefusal(s, v + b) == LengthRefusal(s, v)
            else
              Ended(s, v + b) && s.used + o.used == o.next.used &&
              (o.used > 0 || (o.next.failed.Some? && o.next.failed != LengthRefusal(s, v)))
  {
    hide Find, RequestLine, MethodOf, AddHeader, EndOfHeaders, ChunkSize;
    if Find(v + b, CRLF, 0).Some? {
      EndOfHeadersKeeps(Note(s, Find(v + b, CRLF, 0).value));
    }
  }

  lemma EndOfHeadersKeeps(s: Server)
    ensures EndOfHeaders(s).used == s.used && EndOfHeaders(s).overlong == s.overlong
  {
  }

  lemma StepUses(s: Server, v: string)
    requires Step(s, v).Go?
    ensures Step(s, v).next.used == s.used + Step(s, v).used && s.failed.None?
    ensures s.overlong <= Step(s, v).next.overlong
  {
    hide Find, RequestLine, MethodOf, AddHeader, EndOfHeaders, ChunkSize, Unchunk;
    if Find(v, CRLF, 0).Some? {
      EndOfHeadersKeeps(Note(s, Find(v, CRLF, 0).value));
    }
  }

  lemma {:induction false} UsedGrows(s: Server, v: string)
    ensures var q := Receive(s, v).state;
            q.used >= s.used && (s.failed.Some? ==> q == s) && s.overlong <= q.overlong
    decreases |v|, Rank(s)
  {
    ReceiveStep(s, v);
    if Step(s, v).Go? {
      StepProgress(s, v);
      StepUses(s, v);
      hide Step, Receive;
      UsedGrows(Step(s, v).next, v[Step(s, v).used..]);
    }
  }

  /** An item refused for its length is noted as too long if it ends after all. */
  lemma RefusalIsNoted(s: Server, v: string, b: string)
    requires LengthRefusal(s, v).Some? && Step(s, v + b).Go?
    ensures Step(s, v + b).next.overlong > s.overlong
  {
    hide RequestLine, MethodOf, AddHeader, EndOfHeaders, ChunkSize;
    var mark := if s.status.ExpectMethod? then " " else CRLF;
    LateEnd(v, b, mark);
    EndOfHeadersKeeps(Note(s, Find(v + b, mark, 0).value));
  }

  lemma LateEnd(v: string, b: string, p: string)
    requires 0 < |p| <= 2 && Find(v, p, 0).None? && Find(v + b, p, 0).Some?
    ensures Find(v + b, p, 0).value + |p| > |v|
  {
    forall k | 0 <= k && k + |p| <= |v| ensures !StartsWith((v + b)[k..], p) {
      assert (v + b)[k..][..|p|] == v[k..][..|p|];
    }
  }

  /** When the whole input run at once keeps every line inside its limit, no cut can
      make a line look too long. */
  lemma {:induction false} ShortLinesFit(c: Config<Server>, pieces: seq<string>)
    requires Step(c.state, c.rest).Wait?
    requires var w := Receive(c.state, c.rest + Concat(pieces));
             w.state.overlong == c.state.overlong && LengthRefusal(w.state, w.rest).None?
    ensures LinesFit(c, pieces)
    decreases |pieces|
  {
    if pieces != [] {
      var a, b := c.rest + pieces[0], Concat(pieces[1..]);
      var r := Receive(c.state, a);
      assert c.rest + Concat(pieces) == a + b;
      SplitReceive(c.state, a, b);
      UsedGrows(c.state, a);
      UsedGrows(r.state, r.rest + b);
      NotRefused(r.state, r.rest, b);
      ShortLinesFit(r, pieces[1..]);
    }
  }

  lemma SplitReceive(s: Server, a: string, b: string)
    ensures var r := Receive(s, a);
            Receive(s, a + b) == Receive(r.state, r.rest + b) && Step(r.state, r.rest).Wait?
  {
    Progresses();
    Stables();
    Split(Step, Rank, s, a, b);
    RunStops(Step, Rank, s, a);
  }

  lemma NotRefused(s: Server, v: string, b: string)
    requires var w := Receive(s, v + b); w.state.overlong == s.overlong && LengthRefusal(w.state, w.rest).None?
    ensures LengthRefusal(s, v).None?
  {
    if LengthRefusal(s, v).Some? {
      ReceiveStep(s, v + b);
      RefusedLine(s, v, b);
      if Step(s, v + b).Go? {
        RefusalIsNoted(s, v, b);
        UsedGrows(Step(s, v + b).next, (v + b)[Step(s, v + b).used..]);
      }
    }
  }

  /** With every line inside its limit, the requests that come out do not depend on how
      the connection cut the bytes. */
  lemma CutInvarianceShortLines(c: Config<Server>, pieces: seq<string>)
    requires Step(c.state, c.rest).Wait?
    requires var w := Receive(c.state, c.rest + Concat(pieces));
             w.state.overlong == c.state.overlong && LengthRefusal(w.state, w.rest).None?
    ensures ReceivePieces(c, pieces) == Receive(c.state, c.rest + Concat(pieces))
  {
    hide Receive, ReceivePieces, LinesFit;
    ShortLinesFit(c, pieces);
    CutInvariance(c, pieces);
  }

  /** A cut that can be seen: eight bytes without a space are refused as malformed, with
      the space behind them as an unknown method. */
  lemma LongMethodIsSeen(maxBody: nat)
    ensures var s := Init(maxBody);
            var a := "ABCDEFGH";
            ReceivePiece(ReceivePiece(Config(s, ""), a), " ").state.failed == Some(400) &&
            ReceivePiece(Config(s, ""), a + " ").state.failed == Some(405)
  {
    var s := Init(maxBody);
    var a := "ABCDEFGH";
    assert "" + a == a && "" + (a + " ") == a + " ";
    NoSpaceYet();
    ReceiveStep(s, a);
    ReceiveStep(s.(failed := Some(400)), a + " ");
    ReceiveStep(s, a + " ");
    ReceiveStep(s.(failed := Some(405)), (a + " ")[0..]);
    hide Receive, Find;
    assert Step(s, a).Wait?;
  }

  lemma NoSpaceYet()
    ensures Find("ABCDEFGH", " ", 0).None? && Find("ABCDEFGH" + " ", " ", 0) == Some(8)
    ensures MethodOf(("ABCDEFGH" + " ")[..8]).None?
  {
    var a := "ABCDEFGH";
    forall k | 0 <= k <= 8 ensures !StartsWith(a[k..], " ") {
      assert k < 8 ==> a[k..][0] == a[k] != ' ';
    }
    var w := a + " ";
    forall k | 0 <= k < 8 ensures !StartsWith(w[k..], " ") {
      assert w[k..][0] == a[k] != ' ';
    }
    assert w[8..][..1] == " " && w[..8] == a;
    FindIs(w, " ", 0, 8);
  }
}
