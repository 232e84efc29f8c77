/** Requests as text, read back by the request parser: what a delivered request contains, and
    which requests are refused. */
module RequestRoundTrip {
  import opened Text
  import opened Numerals
  import opened Resumable
  import opened HeaderText
  import opened RequestModel
  import opened ChunkedCoding
  import opened ChunkedRoundTrip
  import RequestParser

  function MethodName(m: Method): string {
    match m
    case Get => "GET" case Post => "POST" case Head => "HEAD" case Put => "PUT"
    case Delete => "DELETE" case Options => "OPTIONS" case Patch => "PATCH"
  }

  function VersionName(v: Version): string { match v case Http10 => "HTTP/1.0" case Http11 => "HTTP/1.1" }

  /** A path with an optional query, behind an optional scheme and authority. */
  datatype Target = Target(scheme: Option<(string, string)>, path: string, query: Option<string>)

  predicate GoodTarget(t: Target) {
    && OneLine(TargetText(t)) && ' ' !in TargetText(t)
    && t.path != "" && t.path[0] == '/' && '?' !in t.path
    && (t.scheme.Some? ==> '/' !in t.scheme.value.0 && '/' !in t.scheme.value.1)
  }

  function Origin(t: Target): string {
    if t.scheme.Some? then t.scheme.value.0 + "://" + t.scheme.value.1 else ""
  }

  function QueryText(t: Target): string { if t.query.Some? then "?" + t.query.value else "" }

  function TargetText(t: Target): string {
    Origin(t) + t.path + QueryText(t)
  }

  function LineText(t: Target, v: Version): string { TargetText(t) + " " + VersionName(v) }

  /** Where the path begins behind a scheme and an authority. */
  lemma SchemeSkipped(scheme: string, host: string, path: string, tail: string)
    requires '/' !in scheme && '/' !in host && path != "" && path[0] == '/'
    ensures var text := scheme + "://" + host + path + tail;
            var first := |scheme| + 1;
            && FindOrEnd(text, "/", 0) == first && first + 1 < |text| && text[first + 1] == '/'
            && FindOrEnd(text, "/", first + 2) == |scheme + "://" + host|
  {
    var text := scheme + "://" + host + path + tail;
    var behind := "/" + host + path + tail;
    assert text == (scheme + ":") + ['/'] + behind;
    CharAt(scheme + ":", '/', behind);
    var rest := path[1..] + tail;
    assert path + tail == ['/'] + rest;
    assert text == (scheme + "://") + host + ['/'] + rest;
    CharFrom(scheme + "://", host, '/', rest);
    hide Find;
  }

  lemma PathFirst(path: string, tail: string)
    requires path != "" && path[0] == '/'
    ensures FindOrEnd(path + tail, "/", 0) == 0
  {
    assert path + tail == "" + ['/'] + (path[1..] + tail);
    CharAt("", '/', path[1..] + tail);
    hide Find;
  }

  lemma QueryFound(origin: string, path: string, query: string)
    requires '?' !in path
    ensures var text, slash := origin + path + "?" + query, |origin|;
            && FindOrEnd(text, "?", slash) == slash + |path| < |text|
            && text[slash..slash + |path|] == path && text[slash + |path| + 1..] == query
  {
    CharFrom(origin, path, '?', query);
    hide Find;
  }

  lemma NoQueryFound(origin: string, path: string)
    requires '?' !in path
    ensures FindOrEnd(origin + path, "?", |origin|) == |origin + path| && (origin + path)[|origin|..] == path
  {
    CharMissing(origin, path, '?');
    hide Find;
  }

  /** Where the request line finds the path and the query of a target. */
  predicate FoundIn(text: string, t: Target) {
    var first := FindOrEnd(text, "/", 0);
    var slash := if first != 0 && first + 1 < |text| && text[first + 1] == '/'
                 then FindOrEnd(text, "/", first + 2) else first;
    var question := FindOrEnd(text, "?", slash);
    && slash < |text| && text[slash..question] == t.path
    && (question != |text| <==> t.query.Some?)
    && (t.query.Some? ==> text[question + 1..] == t.query.value)
  }

  /** The slash that begins the path is found behind any scheme and authority. */
  lemma SlashFound(t: Target)
    requires GoodTarget(t)
    ensures var text := TargetText(t);
            var first := FindOrEnd(text, "/", 0);
            if t.scheme.None? then first == |Origin(t)| == 0
            else first != 0 && first + 1 < |text| && text[first + 1] == '/' && FindOrEnd(text, "/", first + 2) == |Origin(t)|
  {
    var tail := QueryText(t);
    hide FindOrEnd;
    if t.scheme.Some? {
      SchemeSkipped(t.scheme.value.0, t.scheme.value.1, t.path, tail);
    } else {
      PathFirst(t.path, tail);
      assert "" + t.path + tail == t.path + tail;
    }
  }

  lemma QuestionFound(t: Target)
    requires GoodTarget(t)
    ensures var text, slash := TargetText(t), |Origin(t)|;
            var question := FindOrEnd(text, "?", slash);
            && slash < |text| && text[slash..question] == t.path
            && (question != |text| <==> t.query.Some?)
            && (t.query.Some? ==> text[question + 1..] == t.query.value)
  {
    hide FindOrEnd;
    if t.query.Some? {
      assert Origin(t) + t.path + ("?" + t.query.value) == Origin(t) + t.path + "?" + t.query.value;
      hide Origin;
      QueryFound(Origin(t), t.path, t.query.value);
    } else {
      assert Origin(t) + t.path + "" == Origin(t) + t.path;
      hide Origin;
      NoQueryFound(Origin(t), t.path);
    }
  }

  lemma TargetFound(t: Target)
    requires GoodTarget(t)
    ensures FoundIn(TargetText(t), t)
  {
    hide FindOrEnd, GoodTarget, TargetText, Origin;
    SlashFound(t);
    QuestionFound(t);
  }

  lemma VersionIs(v: Version)
    ensures VersionName(v) == "HTTP/1.1" <==> v == Http11
    ensures VersionName(v) == "HTTP/1.0" <==> v == Http10
  {
    assert "HTTP/1.1"[7] != "HTTP/1.0"[7];
  }

  lemma LineMeans(r: Request, line: string, text: string, t: Target, v: Version)
    requires Find(line, " ", 0) == Some(|text|) && line[..|text|] == text && line[|text| + 1..] == VersionName(v)
    requires FoundIn(text, t)
    ensures RequestLine(r, line) ==
            Some(r.(path := t.path, query := if t.query.Some? then t.query.value else r.query, version := v))
  {
    hide Find, FindOrEnd, VersionName;
    VersionIs(v);
  }

  lemma OneLines(a: string, b: string)
    requires OneLine(a) && OneLine(b)
    ensures OneLine(a + b)
  {}

  /** The request line gives the path, the query and the version. */
  lemma RequestLineReads(r: Request, t: Target, v: Version)
    requires GoodTarget(t)
    ensures OneLine(LineText(t, v))
    ensures RequestLine(r, LineText(t, v)) ==
            Some(r.(path := t.path, query := if t.query.Some? then t.query.value else r.query, version := v))
  {
    var text := TargetText(t);
    TargetFound(t);
    OneLines(text, " ");
    OneLines(text + " ", VersionName(v));
    CharAt(text, ' ', VersionName(v));
    assert |text| + 1 <= |LineText(t, v)|;
    hide *;
    LineMeans(r, LineText(t, v), text, t, v);
  }

  // The head of a request.

  datatype Message = Message(method_: Method, target: Target, version: Version, headers: seq<Header>)

  predicate Good(m: Message) { GoodTarget(m.target) && AllWellFormed(m.headers) }

  function HeadText(m: Message): string {
    MethodName(m.method_) + " " + (LineText(m.target, m.version) + CRLF + (Lines(m.headers) + CRLF))
  }

  /** The request that the head describes: of each name the first field, of the expectations
      the last, and all cookies. */
  function Said(m: Message): Request {
    Request(m.method_, m.target.path, Or(m.target.query, ""), m.version,
            FirstFields(m.headers, "cookie"), Each(m.headers, "cookie"), Or(Last(m.headers, "expect"), ""), None, "")
  }

  function LongLine(line: string): nat { if |line| >= LINE_MAX - 1 then 1 else 0 }

  function LongHeaders(hs: seq<Header>): nat {
    if hs == [] then 0 else LongLine(Line(hs[0])) + LongHeaders(hs[1..])
  }

  /** How many of its lines are over the limit? */
  function LongLines(m: Message): nat { LongLine(LineText(m.target, m.version)) + LongHeaders(m.headers) }

  /** The server between two requests. */
  predicate Between(s: Server) {
    s.failed.None? && s.status.ExpectMethod? && s.request == NEW_REQUEST && s.remain == 0
  }

  lemma MethodWord(m: Method)
    ensures MethodOf(MethodName(m)) == Some(m) && ' ' !in MethodName(m) && |MethodName(m)| <= METHOD_MAX_LEN
  {}

  /** One step from `v` to `rest`. */
  lemma StepOn(s: Server, v: string, next: Server, rest: string)
    requires |rest| <= |v| && v[|v| - |rest|..] == rest && Step(s, v) == Go(next, |v| - |rest|)
    ensures Receive(s, v) == Receive(next, rest)
  {
    hide Step, Receive;
    ReceiveStep(s, v);
  }

  lemma MethodStepIs(s: Server, v: string, m: Method)
    requires s.failed.None? && s.status.ExpectMethod?
    requires var name := MethodName(m); Find(v, " ", 0) == Some(|name|) && v[..|name|] == name
    ensures Step(s, v) == Go(s.(request := s.request.(method_ := m), status := ExpectRequestLine,
                                used := s.used + (|MethodName(m)| + 1)), |MethodName(m)| + 1)
  {
    MethodWord(m);
    hide Find, MethodOf, MethodName;
  }

  lemma MethodReads(s: Server, m: Method, rest: string)
    requires s.failed.None? && s.status.ExpectMethod?
    ensures Receive(s, MethodName(m) + " " + rest) ==
            Receive(s.(request := s.request.(method_ := m), status := ExpectRequestLine,
                       used := s.used + (|MethodName(m)| + 1)), rest)
  {
    var name := MethodName(m);
    MethodWord(m);
    CharAt(name, ' ', rest);
    hide *;
    var v := name + " " + rest;
    MethodStepIs(s, v, m);
    StepOn(s, v, Step(s, v).next, rest);
  }

  lemma LineStepIs(s: Server, v: string, line: string, r: Request)
    requires s.failed.None? && s.status.ExpectRequestLine?
    requires Find(v, CRLF, 0) == Some(|line|) && v[..|line|] == line && RequestLine(s.request, line) == Some(r)
    ensures Step(s, v) == Go(s.(request := r, status := ExpectHeaders, used := s.used + (|line| + 2),
                                overlong := s.overlong + LongLine(line)), |line| + 2)
  {
    hide Find, RequestLine;
  }

  lemma LineReadsOn(s: Server, t: Target, v: Version, rest: string)
    requires s.failed.None? && s.status.ExpectRequestLine? && GoodTarget(t)
    ensures var line := LineText(t, v);
            Receive(s, line + CRLF + rest) ==
            Receive(s.(request := s.request.(path := t.path, query := Or(t.query, s.request.query), version := v),
                       status := ExpectHeaders, used := s.used + (|line| + 2), overlong := s.overlong + LongLine(line)), rest)
  {
    hide LineText, GoodTarget, Find, RequestLine, Step, Receive, OneLine, LongLine;
    var line := LineText(t, v);
    var r := s.request.(path := t.path, query := Or(t.query, s.request.query), version := v);
    RequestLineReads(s.request, t, v);
    LineEnds(line, rest);
    var text := line + CRLF + rest;
    LineStepIs(s, text, line, r);
    StepOn(s, text, Step(s, text).next, rest);
  }

  // The fields of a request.

  function WithFields(r: Request, hs: seq<Header>): Request {
    r.(headers := FirstFields(hs, "cookie") + r.headers, cookies := r.cookies + Each(hs, "cookie"),
       expectation := Or(Last(hs, "expect"), r.expectation))
  }

  lemma OneField(r: Request, h: Header)
    requires WellFormed(h)
    ensures AddHeader(r, Line(h), |h.name|) == WithFields(r, [h])
  {
    LineReads(h);
    hide Find;
    var one := [h];
    assert one[1..] == [] && one[..0] == [];
    assert FirstFields([], "cookie") == map[];
    assert "cookie"[0] != "expect"[0];
    hide Line;
    var r' := AddHeader(r, Line(h), |h.name|);
    assert r'.headers == FirstFields(one, "cookie") + r.headers;
    assert r'.cookies == r.cookies + Each(one, "cookie");
    assert Last(one, "expect") == if Named(h, "expect") then Some(h.value) else None;
  }

  lemma Joined(a: seq<string>, b: seq<string>, c: seq<string>)
    ensures a + b + c == a + (b + c)
  {}

  lemma CookiesFront(hs: seq<Header>, cookies: seq<string>)
    requires hs != []
    ensures cookies + Each([hs[0]], "cookie") + Each(hs[1..], "cookie") == cookies + Each(hs, "cookie")
  {
    OneEach(hs[0], "cookie");
    Joined(cookies, Each([hs[0]], "cookie"), Each(hs[1..], "cookie"));
  }

  lemma MapFront(hs: seq<Header>, headers: map<string, string>)
    requires hs != []
    ensures FirstFields(hs[1..], "cookie") + (FirstFields([hs[0]], "cookie") + headers) == FirstFields(hs, "cookie") + headers
  {
    var one := [hs[0]];
    assert one[1..] == [];
    forall key ensures First(one, key) == if Named(hs[0], key) then Some(hs[0].value) else None {
    }
    hide Named, FirstFields;
  }

  lemma FieldsFront(r: Request, hs: seq<Header>)
    requires hs != []
    ensures WithFields(WithFields(r, [hs[0]]), hs[1..]) == WithFields(r, hs)
  {
    var one, rest := [hs[0]], hs[1..];
    LastFront(hs, "expect");
    assert one[..0] == [] && Last(one, "expect") == if Named(hs[0], "expect") then Some(hs[0].value) else None;
    CookiesFront(hs, r.cookies);
    MapFront(hs, r.headers);
    hide FirstFields, Each, Last, Named;
  }

  lemma FieldStepIs(s: Server, v: string, line: string, colon: nat)
    requires s.failed.None? && s.status.ExpectHeaders?
    requires Find(v, CRLF, 0) == Some(|line|) && v[..|line|] == line && Find(line, ":", 0) == Some(colon)
    ensures Step(s, v) == Go(s.(request := AddHeader(s.request, line, colon), used := s.used + (|line| + 2),
                                overlong := s.overlong + LongLine(line)), |line| + 2)
  {
    hide Find, AddHeader;
  }

  lemma FieldRead(s: Server, h: Header, rest: string)
    requires s.failed.None? && s.status.ExpectHeaders? && WellFormed(h)
    ensures var line := Line(h);
            Receive(s, line + CRLF + rest) ==
            Receive(s.(request := WithFields(s.request, [h]), used := s.used + (|line| + 2),
                       overlong := s.overlong + LongLine(line)), rest)
  {
    hide Line, WellFormed, Find, AddHeader, WithFields, Step, Receive, OneLine, LongLine, Trim;
    var line := Line(h);
    LineReads(h);
    OneField(s.request, h);
    LineEnds(line, rest);
    var text := line + CRLF + rest;
    FieldStepIs(s, text, line, |h.name|);
    StepOn(s, text, Step(s, text).next, rest);
  }

  lemma {:induction false} FieldsRead(s: Server, hs: seq<Header>, rest: string)
    requires s.failed.None? && s.status.ExpectHeaders? && AllWellFormed(hs)
    ensures Receive(s, Lines(hs) + rest) ==
            Receive(s.(request := WithFields(s.request, hs), used := s.used + |Lines(hs)|,
                       overlong := s.overlong + LongHeaders(hs)), rest)
    decreases |hs|
  {
    hide Receive, WithFields, Line, WellFormed, LongLine;
    if hs == [] {
      NoFields(s.request, rest);
    } else {
      var line, lines := Line(hs[0]), Lines(hs[1..]);
      FieldRead(s, hs[0], lines + rest);
      FieldsFront(s.request, hs);
      Regroup(line, lines, rest);
      var s' := s.(request := WithFields(s.request, [hs[0]]), used := s.used + (|line| + 2),
                   overlong := s.overlong + LongLine(line));
      FieldsRead(s', hs[1..], rest);
    }
  }

  lemma NoFields(r: Request, rest: string)
    ensures "" + rest == rest && WithFields(r, []) == r
  {
    assert map[] + r.headers == r.headers && r.cookies + [] == r.cookies;
  }

  lemma Regroup(a: string, b: string, c: string)
    ensures a + CRLF + b + c == a + CRLF + (b + c)
  {}

  lemma EndStepIs(s: Server, v: string)
    requires s.failed.None? && s.status.ExpectHeaders?
    requires Find(v, CRLF, 0) == Some(0) && Find(v[..0], ":", 0) == None
    ensures Step(s, v) == Go(EndOfHeaders(s).(used := EndOfHeaders(s).used + 2), 2)
  {
    hide Find, EndOfHeaders;
  }

  lemma BlankLineRead(s: Server, rest: string)
    requires s.failed.None? && s.status.ExpectHeaders?
    ensures Receive(s, CRLF + rest) == Receive(EndOfHeaders(s).(used := EndOfHeaders(s).used + 2), rest)
  {
    hide Find, EndOfHeaders, Receive, Step;
    var v := CRLF + rest;
    LineEnds("", rest);
    assert "" + CRLF + rest == v;
    CharMissing("", "", ':');
    assert "" + "" == "" && v[..0] == "";
    EndStepIs(s, v);
    StepOn(s, v, Step(s, v).next, rest);
  }

  /** The server when it has read the head up to its blank line. */
  function HeadRead(s: Server, m: Message): Server {
    s.(request := Said(m), status := ExpectHeaders, used := s.used + (|HeadText(m)| - 2), overlong := s.overlong + LongLines(m))
  }

  /** The server behind the blank line. */
  function HeadDone(s: Server, m: Message): Server {
    var t := EndOfHeaders(HeadRead(s, m));
    t.(used := t.used + 2)
  }

  lemma SaidInSteps(m: Message)
    ensures var r := NEW_REQUEST.(method_ := m.method_);
            var r := r.(path := m.target.path, query := Or(m.target.query, r.query), version := m.version);
            WithFields(r, m.headers) == Said(m)
  {
    assert FirstFields(m.headers, "cookie") + map[] == FirstFields(m.headers, "cookie");
    assert [] + Each(m.headers, "cookie") == Each(m.headers, "cookie");
  }

  lemma HeadRegroups(a: string, line: string, lines: string, rest: string)
    ensures a + " " + (line + CRLF + (lines + CRLF)) + rest == a + " " + (line + CRLF + (lines + (CRLF + rest)))
  {}

  /** Reading the head of a request. */
  lemma HeadReads(s: Server, m: Message, rest: string)
    requires Between(s) && Good(m)
    ensures Receive(s, HeadText(m) + rest) == Receive(HeadDone(s, m), rest)
  {
    hide Receive, MethodName, LineText, Lines, GoodTarget, LongLine, LongHeaders, EndOfHeaders, WithFields, Said, WellFormed;
    var name, line, lines := MethodName(m.method_), LineText(m.target, m.version), Lines(m.headers);
    HeadRegroups(name, line, lines, rest);
    MethodReads(s, m.method_, line + CRLF + (lines + (CRLF + rest)));
    var s1 := s.(request := s.request.(method_ := m.method_), status := ExpectRequestLine, used := s.used + (|name| + 1));
    LineReadsOn(s1, m.target, m.version, lines + (CRLF + rest));
    var r := s1.request.(path := m.target.path, query := Or(m.target.query, s1.request.query), version := m.version);
    var s2 := s1.(request := r, status := ExpectHeaders, used := s1.used + (|line| + 2),
                  overlong := s.overlong + LongLine(line));
    FieldsRead(s2, m.headers, CRLF + rest);
    SaidInSteps(m);
    BlankLineRead(HeadRead(s, m), rest);
  }

  // How the body is announced.

  datatype Announced = Nothing | Bytes(n: nat) | Chunks | BadLength | OtherCoding

  predicate Announces(hs: seq<Header>, a: Announced) {
    var length, coding := First(hs, "content-length"), First(hs, "transfer-encoding");
    match a
    case Bytes(n) => n <= SIZE_MAX && length == Some(Decimal(n))
    case BadLength => length.Some? && Unreadable(length.value)
    case Nothing => Without(length) && Without(coding)
    case Chunks => Without(length) && coding == Some("chunked")
    case OtherCoding => Without(length) && !Without(coding) && coding != Some("chunked")
  }

  lemma Lookups(m: Message)
    ensures HeaderLookup(Said(m).headers, "content-length") == Or(First(m.headers, "content-length"), "")
    ensures HeaderLookup(Said(m).headers, "transfer-encoding") == Or(First(m.headers, "transfer-encoding"), "")
  {
    assert |"cookie"| != |"content-length"| && |"cookie"| != |"transfer-encoding"|;
    hide First, FirstFields;
  }

  lemma FramingFits(m: Message, a: Announced)
    requires Announces(m.headers, a)
    ensures FramingOf(Said(m)) == match a
      case Nothing => NoBody(None)
      case Bytes(n) => if n == 0 then NoBody(Some(0)) else Length(n)
      case Chunks => Chunked
      case BadLength => Refused(400)
      case OtherCoding => Refused(501)
  {
    Lookups(m);
    match a {
      case Bytes(n) => StoullDecimal(n);
      case BadLength => UnreadableRefused(First(m.headers, "content-length").value);
      case _ =>
    }
    hide Said, First, Stoull, HeaderLookup;
  }

  // The body.

  /** The payload is what was announced. */
  predicate Carries(a: Announced, p: Payload) {
    match a
    case Nothing => p == Plain("")
    case Bytes(n) => p.Plain? && |p.data| == n
    case Chunks => p.InChunks? && AllGood(p.chunks)
    case _ => true
  }

  function Expects(m: Message): string { Or(Last(m.headers, "expect"), "") }

  /** The expectation that is understood. */
  predicate AsksToContinue(m: Message) { Expects(m) == "100-continue" && m.version == Http11 }

  /** Which requests are refused for their head, and how. */
  function HeadRefusal(m: Message, a: Announced, maxBody: nat): Option<nat> {
    if a.BadLength? then Some(400)
    else if a.OtherCoding? then Some(501)
    else if a.Bytes? && a.n > maxBody then Some(413)
    else if AsksToContinue(m) && !(a.Bytes? && a.n > 0) then Some(400)
    else if Expects(m) != "" && !AsksToContinue(m) then Some(417)
    else None
  }

  /** A body in chunks that turns out too long is refused as well. */
  function Refusal(m: Message, a: Announced, p: Payload, maxBody: nat): Option<nat> {
    var head := HeadRefusal(m, a, maxBody);
    if head.None? && a.Chunks? && |Meant(p)| > maxBody then Some(413) else head
  }

  /** The request that is delivered: what the head says, with the body; one that came in
      chunks has a length instead of its coding. */
  function Expected(m: Message, a: Announced, p: Payload): Request {
    var r := Said(m).(body := Meant(p), contentLength := if a.Bytes? then Some(a.n) else None);
    if a.Chunks? then r.(headers := r.headers["content-length" := Decimal(|Meant(p)|)] - {"transfer-encoding"}) else r
  }

  /** The server behind a request that it delivered. */
  function Served(s: Server, m: Message, a: Announced, p: Payload): Server {
    s.(done := s.done + [Expected(m, a, p)], continues := s.continues + (if Expects(m) != "" then 1 else 0),
       chunk := if a.Chunks? then 0 else s.chunk,
       used := s.used + (|HeadText(m)| + |PayloadText(p)|), overlong := s.overlong + LongLines(m))
  }

  lemma BodyReads(s: Server, data: string, rest: string)
    requires s.failed.None? && s.status.ExpectBody? && s.remain == |data|
    ensures Receive(s, data + rest) ==
            Receive(Deliver(s.(remain := 0, request := s.request.(body := s.request.body + data),
                               used := s.used + |data|)), rest)
  {
    var v := data + rest;
    assert v[..|data|] == data && v[|data|..] == rest;
    hide Receive;
    RequestParser.AbsorbBody(s, v, |data|);
    var d := RequestParser.WithBody(s.(remain := 0), data);
    ReceiveStep(d, rest);
    assert rest[0..] == rest;
  }

  /** The server behind the head, with the request in hand. */
  function InHand(s: Server, m: Message, r: Request, status: Status, remain: nat): Server {
    s.(request := r, status := status, remain := remain,
       continues := s.continues + (if Expects(m) != "" then 1 else 0),
       used := s.used + |HeadText(m)|, overlong := s.overlong + LongLines(m))
  }

  lemma SaidOf(m: Message)
    ensures Said(m).expectation == Expects(m) && Said(m).version == m.version
    ensures Said(m).contentLength == None && Said(m).body == "" && |HeadText(m)| >= 2
  {}

  /** What `EndOfHeaders` makes of a framing that it accepts, or of an objection. */
  lemma EndMeans(t: Server, framing: Framing)
    requires t.remain == 0 && FramingOf(t.request) == framing
    ensures var d := EndOfHeaders(t);
            var objection := Objection(t.request, if framing.Length? then framing.n else 0, t.maxBody);
            if framing.Refused? then d.failed == Some(framing.code) && d.done == t.done
            else if objection.Some? then d.failed == objection && d.done == t.done
            else
              var t' := t.(continues := t.continues + if t.request.expectation != "" then 1 else 0);
              match framing
              case NoBody(length) => d == Deliver(t'.(request := t.request.(contentLength := length)))
              case Length(n) => d == t'.(status := ExpectBody, remain := n, request := t.request.(contentLength := Some(n)))
              case Chunked => d == t'.(status := ExpectChunkLen)
              case _ => false
  {
    hide FramingOf, Objection;
  }

  lemma ObjectionIs(m: Message, a: Announced, maxBody: nat)
    requires !a.BadLength? && !a.OtherCoding?
    ensures Objection(Said(m), if a.Bytes? then a.n else 0, maxBody) == HeadRefusal(m, a, maxBody)
  {
    SaidOf(m);
    hide Said, Expects;
  }

  lemma EndOfHead(s: Server, m: Message, a: Announced)
    requires Between(s) && Announces(m.headers, a)
    ensures var d, refusal := HeadDone(s, m), HeadRefusal(m, a, s.maxBody);
            if refusal.Some? then d.failed == refusal && d.done == s.done
            else
              var r := Said(m).(contentLength := if a.Bytes? then Some(a.n) else None);
              match a
              case Nothing => d == Deliver(InHand(s, m, r, ExpectHeaders, 0))
              case Bytes(n) =>
                d == if n == 0 then Deliver(InHand(s, m, r, ExpectHeaders, 0)) else InHand(s, m, r, ExpectBody, n)
              case Chunks => d == InHand(s, m, r, ExpectChunkLen, 0)
              case _ => false
  {
    hide HeadText, LongLines, FramingOf, Announces, Said, Expects, EndOfHeaders, Objection;
    FramingFits(m, a);
    SaidOf(m);
    EndMeans(HeadRead(s, m), FramingOf(Said(m)));
    if !a.BadLength? && !a.OtherCoding? {
      ObjectionIs(m, a, s.maxBody);
      hide HeadRefusal;
    }
  }

  lemma Stopped(s: Server, v: string)
    requires s.failed.Some?
    ensures Receive(s, v) == Config(s, v)
  {
    ReceiveStep(s, v);
  }

  lemma ServedInChunks(s: Server, m: Message, p: Payload)
    requires Between(s) && p.InChunks?
    ensures var t := InHand(s, m, Said(m).(contentLength := None), ExpectChunkLen, 0);
            Deliver(ReceivedRequest(t, ChunksData(p.chunks), |ChunksText(p.chunks)|)) == Served(s, m, Chunks, p)
  {
    assert Said(m).body + ChunksData(p.chunks) == ChunksData(p.chunks);
    hide HeadText, LongLines, Said, Expects, ChunksText, ChunksData;
  }

  lemma ChunksRead(s: Server, m: Message, p: Payload, rest: string)
    requires Between(s) && Carries(Chunks, p)
    ensures var t := InHand(s, m, Said(m).(contentLength := None), ExpectChunkLen, 0);
            var v := PayloadText(p) + rest;
            if |Meant(p)| > s.maxBody then
              var d := Receive(t, v).state; d.failed == Some(413) && d.done == s.done
            else Receive(t, v) == Receive(Served(s, m, Chunks, p), rest)
  {
    hide HeadText, LongLines, Said, Expects, Receive, ChunksText, ChunksData, Served, ReceivedRequest, Deliver;
    ServedInChunks(s, m, p);
    RequestReadsChunks(InHand(s, m, Said(m).(contentLength := None), ExpectChunkLen, 0), p.chunks, rest);
  }

  lemma PlainRead(s: Server, m: Message, a: Announced, p: Payload, rest: string)
    requires Between(s) && a.Bytes? && a.n > 0 && Carries(a, p)
    ensures var r := Said(m).(contentLength := Some(a.n));
            Receive(InHand(s, m, r, ExpectBody, a.n), p.data + rest) == Receive(Served(s, m, a, p), rest)
  {
    var r := Said(m).(contentLength := Some(a.n));
    assert r.body + p.data == p.data;
    hide HeadText, LongLines, Said, Expects, Receive;
    BodyReads(InHand(s, m, r, ExpectBody, a.n), p.data, rest);
  }

  lemma EmptyBody(s: Server, m: Message, a: Announced)
    requires Between(s) && (a == Nothing || a == Bytes(0))
    ensures var r := Said(m).(contentLength := if a.Bytes? then Some(a.n) else None);
            Deliver(InHand(s, m, r, ExpectHeaders, 0)) == Served(s, m, a, Plain(""))
  {
    hide HeadText, LongLines, Expects, FirstFields, Each, Last;
  }

  /** The round trip.  Every well-formed request, printed with the payload it announces, is
      read back: the server either delivers exactly that request and goes on with what
      follows, or refuses it, with the code and for the reason that `Refusal` gives, and
      delivers nothing. */
  lemma RequestReads(s: Server, m: Message, a: Announced, p: Payload, rest: string)
    requires Between(s) && Good(m) && Announces(m.headers, a) && Carries(a, p)
    ensures var v, refusal := HeadText(m) + (PayloadText(p) + rest), Refusal(m, a, p, s.maxBody);
            if refusal.Some? then
              var d := Receive(s, v).state; d.failed == refusal && d.done == s.done
            else Receive(s, v) == Receive(Served(s, m, a, p), rest)
  {
    var behind := PayloadText(p) + rest;
    HeadReads(s, m, behind);
    EndOfHead(s, m, a);
    hide Receive, HeadText, LongLines, Said, Expects, Announces, HeadDone;
    if HeadRefusal(m, a, s.maxBody).Some? {
      Stopped(HeadDone(s, m), behind);
    } else if a.Chunks? {
      ChunksRead(s, m, p, rest);
    } else if a.Bytes? && a.n > 0 {
      PlainRead(s, m, a, p, rest);
    } else {
      assert behind == rest && p == Plain("");
      EmptyBody(s, m, a);
    }
  }

  lemma NoMethod(word: string)
    requires forall m: Method :: MethodName(m) != word
    ensures MethodOf(word) == None
  {
    assert MethodName(Get) != word && MethodName(Post) != word && MethodName(Head) != word && MethodName(Put) != word;
    assert MethodName(Delete) != word && MethodName(Options) != word && MethodName(Patch) != word;
  }

  lemma MethodRefused(s: Server, v: string, word: string)
    requires Between(s) && Find(v, " ", 0) == Some(|word|) && v[..|word|] == word && MethodOf(word) == None
    ensures var d := Receive(s, v).state; d.failed == Some(405) && d.done == s.done
  {
    hide Find, Receive, MethodOf;
    ReceiveStep(s, v);
    Stopped(Step(s, v).next, v[0..]);
  }

  /** A first word that is no method, and a version that is not spoken. */
  lemma UnknownMethod(s: Server, word: string, rest: string)
    requires Between(s) && ' ' !in word && forall m: Method :: MethodName(m) != word
    ensures var d := Receive(s, word + " " + rest).state; d.failed == Some(405) && d.done == s.done
  {
    NoMethod(word);
    CharAt(word, ' ', rest);
    hide *;
    MethodRefused(s, word + " " + rest, word);
  }

  lemma UnknownVersion(s: Server, m: Method, target: string, version: string, rest: string)
    requires Between(s) && ' ' !in target && OneLine(target) && OneLine(version)
    requires forall v: Version :: VersionName(v) != version
    ensures var d := Receive(s, MethodName(m) + " " + (target + " " + version + CRLF + rest)).state;
            d.failed == Some(400) && d.done == s.done
  {
    assert VersionName(Http10) != version && VersionName(Http11) != version;
    var line := target + " " + version;
    OneLines(target, " ");
    OneLines(target + " ", version);
    CharAt(target, ' ', version);
    MethodReads(s, m, line + CRLF + rest);
    LineEnds(line, rest);
    var t := s.(request := s.request.(method_ := m), status := ExpectRequestLine, used := s.used + (|MethodName(m)| + 1));
    var v := line + CRLF + rest;
    assert RequestLine(t.request, line).None? by {
      hide Find, FindOrEnd;
    }
    hide Find, Receive, RequestLine, MethodName;
    ReceiveStep(t, v);
    Stopped(Step(t, v).next, v[0..]);
  }

  // One request after the other, however they are cut.

  datatype Sent = Sent(message: Message, announced: Announced, payload: Payload)

  predicate Acceptable(x: Sent, maxBody: nat) {
    && Good(x.message) && Announces(x.message.headers, x.announced) && Carries(x.announced, x.payload)
    && Refusal(x.message, x.announced, x.payload, maxBody).None?
  }

  function AllText(xs: seq<Sent>): string {
    if xs == [] then "" else HeadText(xs[0].message) + PayloadText(xs[0].payload) + AllText(xs[1..])
  }

  function AllServed(s: Server, xs: seq<Sent>): Server
    decreases |xs|
  {
    if xs == [] then s else AllServed(Served(s, xs[0].message, xs[0].announced, xs[0].payload), xs[1..])
  }

  /** All of them are delivered, in order. */
  lemma {:induction false} AllRead(s: Server, xs: seq<Sent>, rest: string)
    requires Between(s) && forall i :: 0 <= i < |xs| ==> Acceptable(xs[i], s.maxBody)
    ensures Receive(s, AllText(xs) + rest) == Receive(AllServed(s, xs), rest) && Between(AllServed(s, xs))
    decreases |xs|
  {
    hide Receive, HeadText, PayloadText, Refusal, Expected, LongLines, Expects, Good, Announces, Carries;
    if xs == [] {
      assert "" + rest == rest;
    } else {
      var x, text := xs[0], AllText(xs[1..]);
      assert Acceptable(x, s.maxBody);
      RequestReads(s, x.message, x.announced, x.payload, text + rest);
      Regrouped(HeadText(x.message), PayloadText(x.payload), text, rest);
      AllRead(Served(s, x.message, x.announced, x.payload), xs[1..], rest);
    }
  }

  lemma Regrouped(a: string, b: string, c: string, d: string)
    ensures a + b + c + d == a + (b + (c + d))
  {}

  lemma {:induction false} DeliveredInOrder(s: Server, xs: seq<Sent>, k: nat)
    requires k < |xs|
    ensures var d := AllServed(s, xs);
            && |d.done| == |s.done| + |xs| && s.done <= d.done
            && d.done[|s.done| + k] == Expected(xs[k].message, xs[k].announced, xs[k].payload)
    decreases |xs|
  {
    hide HeadText, PayloadText, Expected, LongLines, Expects;
    var s' := Served(s, xs[0].message, xs[0].announced, xs[0].payload);
    if |xs| > 1 {
      DeliveredInOrder(s', xs[1..], if k == 0 then 0 else k - 1);
    }
  }

  /** However the bytes of any number of requests are cut, with lines inside their limits:
      the k-th request delivered is the k-th one sent, and nothing is left over. */
  lemma AllReadAnyCut(s: Server, xs: seq<Sent>, pieces: seq<string>, k: nat)
    requires Between(s) && forall i :: 0 <= i < |xs| ==> Acceptable(xs[i], s.maxBody) && LongLines(xs[i].message) == 0
    requires Concat(pieces) == AllText(xs) && k < |xs|
    ensures var d := ReceivePieces(Config(s, ""), pieces);
            && d.rest == "" && |d.state.done| == |s.done| + |xs|
            && d.state.done[|s.done| + k] == Expected(xs[k].message, xs[k].announced, xs[k].payload)
  {
    AllRead(s, xs, "");
    DeliveredInOrder(s, xs, k);
    NoneLong(s, xs);
    var d := AllServed(s, xs);
    Waits(s);
    Waits(d);
    hide *;
    assert AllText(xs) + "" == AllText(xs) && "" + Concat(pieces) == Concat(pieces);
    ReceiveStep(d, "");
    CutInvarianceShortLines(Config(s, ""), pieces);
  }

  lemma Waits(s: Server)
    requires Between(s)
    ensures Step(s, "").Wait? && LengthRefusal(s, "").None?
  {}

  lemma {:induction false} NoneLong(s: Server, xs: seq<Sent>)
    requires forall i :: 0 <= i < |xs| ==> LongLines(xs[i].message) == 0
    ensures AllServed(s, xs).overlong == s.overlong
    decreases |xs|
  {
    hide HeadText, PayloadText, Expected, LongLines, Expects;
    if xs != [] {
      NoneLong(Served(s, xs[0].message, xs[0].announced, xs[0].payload), xs[1..]);
    }
  }
}
