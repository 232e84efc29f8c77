/** Responses as text, read back by the response parser: what a delivered response contains,
    however its body is delimited. */
module ResponseRoundTrip {
  import opened Text
  import opened Numerals
  import opened Resumable
  import opened HeaderText
  import opened ResponseModel
  import opened ChunkedCoding
  import opened ChunkedRoundTrip
  import ResponseParser

  function VersionName(v: Version): string { match v case Http10 => "HTTP/1.0" case Http11 => "HTTP/1.1" }

  datatype Message = Message(version: Version, code: nat, reason: string, headers: seq<Header>)

  predicate Good(m: Message) {
    100 <= m.code <= 999 && OneLine(m.reason) && AllWellFormed(m.headers)
  }

  function LineText(m: Message): string { VersionName(m.version) + " " + Decimal(m.code) + " " + m.reason }

  function HeadText(m: Message): string { LineText(m) + CRLF + (Lines(m.headers) + CRLF) }

  // The status line.

  lemma DigitsOnly(n: nat)
    ensures OneLine(Decimal(n)) && ' ' !in Decimal(n) && Atoi(Decimal(n)) == n
  {
    var s := Decimal(n);
    assert IsDigit(s[0]);
    assert SkipSpaces(s) == s;
    DigitRunAll(s, "");
    assert s + "" == s && s[..|s|] == s;
    DecimalReads(n);
  }

  lemma FirstWord(line: string, name: string, rest: string)
    requires ' ' !in name && line == name + " " + rest
    ensures Find(line, " ", 0) == Some(|name|) && line[..|name|] == name
  {
    CharAt(name, ' ', rest);
  }

  lemma SecondWord(line: string, before: string, number: string, reason: string)
    requires ' ' !in number && line == before + number + " " + reason
    ensures var k := |before| + |number|; Find(line, " ", |before|) == Some(k) && k < |line| && line[|before|..k] == number
  {
    CharFrom(before, number, ' ', reason);
  }

  lemma Words(name: string, number: string, reason: string)
    ensures name + " " + number + " " + reason == name + " " + (number + " " + reason)
  {}

  lemma NameEnds(v: Version)
    ensures var name := VersionName(v);
            |name| == 8 && name[7] == (if v == Http11 then '1' else '0') && ' ' !in name && OneLine(name)
  {}

  lemma LineMeans(m: Message, line: string, name: string, number: string)
    requires |name| == 8 && name[7] == (if m.version == Http11 then '1' else '0') && Atoi(number) == m.code
    requires Find(line, " ", 0) == Some(|name|) && |name| <= |line| && line[..|name|] == name
    requires Find(line, " ", |name| + 1) == Some(|name| + 1 + |number|) && |name| + 1 + |number| <= |line|
    requires line[|name| + 1..|name| + 1 + |number|] == number
    ensures StatusLine(line) == Some((m.version, m.code))
  {
    hide Find, Atoi;
    assert line[7] == line[..8][7];
  }

  lemma LineIsOne(name: string, number: string, reason: string)
    requires OneLine(name) && OneLine(number) && OneLine(reason)
    ensures OneLine(name + " " + number + " " + reason)
  {}

  /** The status line gives the version and the code. */
  lemma StatusLineReads(m: Message)
    requires Good(m)
    ensures OneLine(LineText(m)) && StatusLine(LineText(m)) == Some((m.version, m.code))
  {
    hide Find, Atoi, Decimal, StatusLine, VersionName, OneLine, AllWellFormed;
    var name, number := VersionName(m.version), Decimal(m.code);
    var line, before := LineText(m), name + " ";
    DigitsOnly(m.code);
    NameEnds(m.version);
    LineIsOne(name, number, m.reason);
    Words(name, number, m.reason);
    FirstWord(line, name, number + " " + m.reason);
    SecondWord(line, before, number, m.reason);
    hide *;
    assert |before| == |name| + 1;
    LineMeans(m, line, name, number);
  }

  // Steps over text.

  lemma StepOn(c: Client, v: string, next: Client, rest: string)
    requires |rest| <= |v| && v[|v| - |rest|..] == rest && Step(c, v) == Go(next, |v| - |rest|)
    ensures Receive(c, v) == Receive(next, rest)
  {
    hide Step, Receive;
    ReceiveStep(c, v);
  }

  lemma LineStepIs(c: Client, v: string, line: string, version: Version, code: int)
    requires c.failed.None? && c.heads != [] && c.status.ExpectResponseLine?
    requires Find(v, CRLF, 0) == Some(|line|) && v[..|line|] == line && StatusLine(line) == Some((version, code))
    ensures Step(c, v) == Go(c.(status := ExpectHeaders, response := c.response.(version := version, code := code),
                                used := c.used + (|line| + 2)), |line| + 2)
  {
    hide Find, StatusLine;
  }

  lemma LineReadsOn(c: Client, m: Message, rest: string)
    requires c.failed.None? && c.heads != [] && c.status.ExpectResponseLine? && Good(m)
    ensures var line := LineText(m);
            Receive(c, line + CRLF + rest) ==
            Receive(c.(status := ExpectHeaders, response := c.response.(version := m.version, code := m.code),
                       used := c.used + (|line| + 2)), rest)
  {
    hide LineText, Good, Find, StatusLine, Step, Receive, OneLine;
    var line := LineText(m);
    StatusLineReads(m);
    LineEnds(line, rest);
    var text := line + CRLF + rest;
    LineStepIs(c, text, line, m.version, m.code);
    StepOn(c, text, Step(c, text).next, rest);
  }

  // The fields of a response: of each name the last, and all cookies.

  function WithFields(r: Response, hs: seq<Header>): Response {
    r.(headers := r.headers + LastFields(hs, "set-cookie"), cookies := r.cookies + Each(hs, "set-cookie"))
  }

  lemma OneField(r: Response, h: Header)
    requires WellFormed(h)
    ensures AddHeader(r, Line(h), |h.name|) == WithFields(r, [h])
  {
    LineReads(h);
    hide Find;
    var one := [h];
    assert one[1..] == [] && one[..0] == [];
    assert LastFields([], "set-cookie") == map[];
    hide Line;
    var r' := AddHeader(r, Line(h), |h.name|);
    assert r'.headers == r.headers + LastFields(one, "set-cookie");
    assert r'.cookies == r.cookies + Each(one, "set-cookie");
  }

  lemma Joined(a: seq<string>, b: seq<string>, c: seq<string>)
    ensures a + b + c == a + (b + c)
  {}

  lemma CookiesFront(hs: seq<Header>, cookies: seq<string>)
    requires hs != []
    ensures cookies + Each([hs[0]], "set-cookie") + Each(hs[1..], "set-cookie") == cookies + Each(hs, "set-cookie")
  {
    OneEach(hs[0], "set-cookie");
    Joined(cookies, Each([hs[0]], "set-cookie"), Each(hs[1..], "set-cookie"));
  }

  lemma OneLast(h: Header, key: string)
    ensures Last([h], key) == if Named(h, key) then Some(h.value) else None
  {
    assert [h][..0] == [];
  }

  lemma KeyFront(hs: seq<Header>, headers: map<string, string>, key: string)
    requires hs != []
    ensures var a := headers + LastFields([hs[0]], "set-cookie") + LastFields(hs[1..], "set-cookie");
            var b := headers + LastFields(hs, "set-cookie");
            (key in a <==> key in b) && (key in a ==> a[key] == b[key])
  {
    hide LastFields, Last, Named;
    OneLast(hs[0], key);
    LastFront(hs, key);
  }

  lemma SameMap(a: map<string, string>, b: map<string, string>)
    requires forall key :: (key in a <==> key in b) && (key in a ==> a[key] == b[key])
    ensures a == b
  {}

  lemma MapFront(hs: seq<Header>, headers: map<string, string>)
    requires hs != []
    ensures headers + LastFields([hs[0]], "set-cookie") + LastFields(hs[1..], "set-cookie") ==
            headers + LastFields(hs, "set-cookie")
  {
    hide LastFields, Last;
    var a := headers + LastFields([hs[0]], "set-cookie") + LastFields(hs[1..], "set-cookie");
    var b := headers + LastFields(hs, "set-cookie");
    forall key ensures (key in a <==> key in b) && (key in a ==> a[key] == b[key]) {
      KeyFront(hs, headers, key);
    }
    SameMap(a, b);
  }

  lemma FieldsFront(r: Response, hs: seq<Header>)
    requires hs != []
    ensures WithFields(WithFields(r, [hs[0]]), hs[1..]) == WithFields(r, hs)
  {
    CookiesFront(hs, r.cookies);
    MapFront(hs, r.headers);
    hide LastFields, Each;
  }

  lemma FieldStepIs(c: Client, v: string, line: string, colon: nat)
    requires c.failed.None? && c.heads != [] && c.status.ExpectHeaders?
    requires Find(v, CRLF, 0) == Some(|line|) && v[..|line|] == line && Find(line, ":", 0) == Some(colon)
    ensures Step(c, v) == Go(c.(response := AddHeader(c.response, line, colon), used := c.used + (|line| + 2)), |line| + 2)
  {
    hide Find, AddHeader;
  }

  lemma FieldRead(c: Client, h: Header, rest: string)
    requires c.failed.None? && c.heads != [] && c.status.ExpectHeaders? && WellFormed(h)
    ensures var line := Line(h);
            Receive(c, line + CRLF + rest) ==
            Receive(c.(response := WithFields(c.response, [h]), used := c.used + (|line| + 2)), rest)
  {
    hide Line, WellFormed, Find, AddHeader, WithFields, Step, Receive, OneLine, Trim;
    var line := Line(h);
    LineReads(h);
    OneField(c.response, h);
    LineEnds(line, rest);
    var text := line + CRLF + rest;
    FieldStepIs(c, text, line, |h.name|);
    StepOn(c, text, Step(c, text).next, rest);
  }

  lemma NoFields(r: Response, rest: string)
    ensures "" + rest == rest && WithFields(r, []) == r
  {
    assert r.headers + map[] == r.headers && r.cookies + [] == r.cookies;
  }

  lemma Regroup(a: string, b: string, c: string)
    ensures a + CRLF + b + c == a + CRLF + (b + c)
  {}

  lemma {:induction false} FieldsRead(c: Client, hs: seq<Header>, rest: string)
    requires c.failed.None? && c.heads != [] && c.status.ExpectHeaders? && AllWellFormed(hs)
    ensures Receive(c, Lines(hs) + rest) ==
            Receive(c.(response := WithFields(c.response, hs), used := c.used + |Lines(hs)|), rest)
    decreases |hs|
  {
    hide Receive, WithFields, Line, WellFormed;
    if hs == [] {
      NoFields(c.response, rest);
    } else {
      var line, lines := Line(hs[0]), Lines(hs[1..]);
      FieldRead(c, hs[0], lines + rest);
      FieldsFront(c.response, hs);
      Regroup(line, lines, rest);
      FieldsRead(c.(response := WithFields(c.response, [hs[0]]), used := c.used + (|line| + 2)), hs[1..], rest);
    }
  }

  lemma EndStepIs(c: Client, v: string)
    requires c.failed.None? && c.heads != [] && c.status.ExpectHeaders?
    requires Find(v, CRLF, 0) == Some(0) && Find(v[..0], ":", 0) == None
    ensures match EndOfHeaders(c)
            case Some(d) => Step(c, v) == Go(d.(used := d.used + 2), 2)
            case None => Step(c, v) == Go(c.(failed := Some(BadResponse)), 0)
  {
    hide Find, EndOfHeaders;
  }

  lemma BlankLineRead(c: Client, rest: string)
    requires c.failed.None? && c.heads != [] && c.status.ExpectHeaders?
    ensures match EndOfHeaders(c)
            case Some(d) => Receive(c, CRLF + rest) == Receive(d.(used := d.used + 2), rest)
            case None => Receive(c, CRLF + rest).state == c.(failed := Some(BadResponse))
  {
    hide Find, EndOfHeaders, Receive, Step;
    var v := CRLF + rest;
    LineEnds("", rest);
    assert "" + CRLF + rest == v;
    CharMissing("", "", ':');
    assert "" + "" == "" && v[..0] == "";
    EndStepIs(c, v);
    if EndOfHeaders(c).Some? {
      StepOn(c, v, Step(c, v).next, rest);
    } else {
      ReceiveStep(c, v);
      ResponseParser.StopsAt(c.(failed := Some(BadResponse)), v[0..]);
    }
  }

  // The head.

  /** The response that the head describes. */
  function Said(m: Message): Response {
    Response(m.version, m.code, LastFields(m.headers, "set-cookie"), Each(m.headers, "set-cookie"), "")
  }

  /** The client between two responses, with one expected. */
  predicate Ready(c: Client) {
    c.failed.None? && c.heads != [] && c.status.ExpectResponseLine? && c.response == NEW_RESPONSE
  }

  function HeadRead(c: Client, m: Message): Client {
    c.(response := Said(m), status := ExpectHeaders, used := c.used + (|HeadText(m)| - 2))
  }

  lemma SaidInSteps(m: Message)
    ensures WithFields(NEW_RESPONSE.(version := m.version, code := m.code), m.headers) == Said(m)
  {
    assert map[] + LastFields(m.headers, "set-cookie") == LastFields(m.headers, "set-cookie");
    assert [] + Each(m.headers, "set-cookie") == Each(m.headers, "set-cookie");
  }

  lemma HeadRegroups(line: string, lines: string, rest: string)
    ensures line + CRLF + (lines + CRLF) + rest == line + CRLF + (lines + (CRLF + rest))
  {}

  lemma HeadReads(c: Client, m: Message, rest: string)
    requires Ready(c) && Good(m)
    ensures Receive(c, HeadText(m) + rest) == Receive(HeadRead(c, m), CRLF + rest)
  {
    hide Receive, LineText, Lines, WithFields, Said, WellFormed;
    var line, lines := LineText(m), Lines(m.headers);
    HeadRegroups(line, lines, rest);
    LineReadsOn(c, m, lines + (CRLF + rest));
    var c1 := c.(status := ExpectHeaders, response := c.response.(version := m.version, code := m.code),
                 used := c.used + (|line| + 2));
    FieldsRead(c1, m.headers, CRLF + rest);
    SaidInSteps(m);
  }

  // How the body is delimited.

  datatype Announced = Bytes(n: nat) | Chunks | BadLength | Silent

  predicate Announces(hs: seq<Header>, a: Announced) {
    var length, coding := Last(hs, "content-length"), Last(hs, "transfer-encoding");
    match a
    case Bytes(n) => n <= SIZE_MAX && length == Some(Decimal(n))
    case BadLength => length.Some? && Unreadable(length.value)
    case Chunks => Without(length) && coding == Some("chunked")
    case Silent => Without(length) && coding != Some("chunked")
  }

  predicate Upgrades(m: Message) {
    m.code == 101 && LowerAll(Or(Last(m.headers, "upgrade"), "")) == "websocket"
  }

  /** A response without a body that says nothing about one. */
  predicate Bodiless(m: Message) { m.code == 204 || Upgrades(m) }

  lemma Lookup(m: Message, key: string)
    requires key != "set-cookie"
    ensures HeaderLookup(Said(m).headers, key) == Or(Last(m.headers, key), "")
  {
    hide Last, LastFields;
  }

  lemma Lookups(m: Message)
    ensures HeaderLookup(Said(m).headers, "content-length") == Or(Last(m.headers, "content-length"), "")
    ensures HeaderLookup(Said(m).headers, "transfer-encoding") == Or(Last(m.headers, "transfer-encoding"), "")
    ensures HeaderLookup(Said(m).headers, "upgrade") == Or(Last(m.headers, "upgrade"), "")
  {
    assert |"set-cookie"| != |"content-length"| && |"set-cookie"| != |"transfer-encoding"| && |"set-cookie"| != |"upgrade"|;
    hide Last, LastFields, Said, HeaderLookup;
    Lookup(m, "content-length");
    Lookup(m, "transfer-encoding");
    Lookup(m, "upgrade");
  }

  lemma FramingFits(m: Message, a: Announced)
    requires Announces(m.headers, a)
    ensures FramingOf(Said(m)) == match a
      case Bytes(n) => Length(n)
      case Chunks => Chunked
      case BadLength => Framing.BadLength
      case Silent => if Bodiless(m) then NoBody else UntilClose
  {
    Lookups(m);
    assert Said(m).code == m.code;
    match a {
      case Bytes(n) => StoullDecimal(n);
      case BadLength => UnreadableRefused(Last(m.headers, "content-length").value);
      case _ =>
    }
    hide Said, Last, Stoull, HeaderLookup, LowerAll, Unreadable, Decimal;
  }

  // The round trip.

  /** The payload is what was announced; a response to HEAD, or one without a body, has none. */
  predicate Carries(head: bool, m: Message, a: Announced, p: Payload) {
    if head then p == Plain("")
    else
      match a
      case Bytes(n) => p.Plain? && |p.data| == n
      case Chunks => p.InChunks? && AllGood(p.chunks)
      case BadLength => true
      case Silent => p.Plain? && (Bodiless(m) ==> p.data == "")
  }

  /** The body goes on until the connection is closed. */
  predicate UntilTheEnd(m: Message, a: Announced) { a.Silent? && !Bodiless(m) }

  /** The response that is delivered: what the head says, with the body; one that came in
      chunks has a length instead of its coding. */
  function Expected(head: bool, m: Message, a: Announced, p: Payload): Response {
    var r := Said(m).(body := Meant(p));
    if a.Chunks? && !head then
      r.(headers := r.headers["content-length" := Decimal(|Meant(p)|)] - {"transfer-encoding"})
    else r
  }

  /** The client that has handed it to the oldest request. */
  function Served(c: Client, m: Message, a: Announced, p: Payload): Client
    requires c.heads != []
  {
    Deliver(c.(response := Expected(c.heads[0], m, a, p), shutdown := c.shutdown || UntilTheEnd(m, a),
               used := c.used + (|HeadText(m)| + |PayloadText(p)|)))
  }

  /** The client behind the head, with the response in hand. */
  function InHand(c: Client, m: Message, a: Announced): Client {
    var d := c.(response := Said(m), shutdown := c.shutdown || UntilTheEnd(m, a), used := c.used + |HeadText(m)|);
    match a
    case Bytes(n) => d.(status := ExpectBody, left := n)
    case Chunks => d.(status := ExpectChunkLen)
    case _ => d.(status := ExpectClose)
  }

  lemma NoPayload(head: bool, m: Message, a: Announced)
    requires head || a.Silent?
    ensures Expected(head, m, a, Plain("")) == Said(m)
  {}

  lemma EndOfHead(c: Client, m: Message, a: Announced)
    requires Ready(c) && Announces(m.headers, a)
    ensures match EndOfHeaders(HeadRead(c, m))
            case None => a.BadLength?
            case Some(d) =>
              && !a.BadLength?
              && d.(used := d.used + 2) ==
                 if c.heads[0] || (a.Silent? && Bodiless(m)) then Served(c, m, a, Plain("")) else InHand(c, m, a)
  {
    hide HeadText, FramingOf, Announces, Said, Bodiless, Expected;
    FramingFits(m, a);
    if c.heads[0] || a.Silent? {
      NoPayload(c.heads[0], m, a);
    }
    HeadIsLong(m);
  }

  lemma HeadIsLong(m: Message)
    ensures |HeadText(m)| >= 2
  {}

  lemma PlainRead(c: Client, m: Message, a: Announced, p: Payload, rest: string)
    requires Ready(c) && !c.heads[0] && a.Bytes? && Carries(false, m, a, p)
    ensures Receive(InHand(c, m, a), p.data + rest) == Receive(Served(c, m, a, p), rest)
  {
    hide Receive, HeadText, Said, Bodiless;
    BodyReads(InHand(c, m, a), p.data, rest);
    SaidBody(m, p.data);
  }

  lemma SaidBody(m: Message, data: string)
    ensures Said(m).body + data == data
  {}

  lemma BodyReads(c: Client, data: string, rest: string)
    requires c.failed.None? && c.heads != [] && c.status.ExpectBody? && c.left == |data|
    ensures Receive(c, data + rest) == Receive(Deliver(ResponseParser.WithBody(c.(left := 0), data)), rest)
  {
    var v := data + rest;
    assert v[..|data|] == data && v[|data|..] == rest;
    hide Receive;
    ResponseParser.AbsorbBody(c, v, |data|);
    ReceiveStep(ResponseParser.WithBody(c.(left := 0), data), rest);
    assert rest[0..] == rest;
  }

  lemma ServedInChunks(c: Client, m: Message, p: Payload)
    requires Ready(c) && !c.heads[0] && p.InChunks?
    ensures Deliver(ReceivedResponse(InHand(c, m, Chunks), ChunksData(p.chunks), |ChunksText(p.chunks)|)) ==
            Served(c, m, Chunks, p)
  {
    assert Said(m).body + ChunksData(p.chunks) == ChunksData(p.chunks);
    hide HeadText, Said, ChunksText, ChunksData, Bodiless;
  }

  lemma ChunksRead(c: Client, m: Message, p: Payload, rest: string)
    requires Ready(c) && !c.heads[0] && Carries(false, m, Chunks, p)
    ensures Receive(InHand(c, m, Chunks), PayloadText(p) + rest) == Receive(Served(c, m, Chunks, p), rest)
  {
    hide HeadText, Said, Receive, ChunksText, ChunksData, Served, ReceivedResponse, Deliver, Bodiless;
    ServedInChunks(c, m, p);
    ResponseReadsChunks(InHand(c, m, Chunks), p.chunks, rest);
  }

  lemma ClosedRead(c: Client, m: Message, p: Payload)
    requires Ready(c) && !c.heads[0] && p.Plain? && !Bodiless(m)
    ensures OnClose(Receive(InHand(c, m, Silent), p.data).state) == Some(Served(c, m, Silent, p))
  {
    assert Said(m).body + p.data == p.data;
    hide HeadText, Said, Receive, Bodiless;
    ClosedBody(InHand(c, m, Silent), p.data);
  }

  /** Behind the head: refused, delivered without a body, or about to read it. */
  lemma HeadPassed(c: Client, m: Message, a: Announced, behind: string)
    requires Ready(c) && Good(m) && Announces(m.headers, a)
    ensures var r := Receive(c, HeadText(m) + behind);
            if a.BadLength? then r.state.failed == Some(BadResponse) && r.state.done == c.done && r.state.heads == c.heads
            else if c.heads[0] || (a.Silent? && Bodiless(m)) then r == Receive(Served(c, m, a, Plain("")), behind)
            else r == Receive(InHand(c, m, a), behind)
  {
    hide Receive, HeadText, Said, Announces, EndOfHeaders, Bodiless, Served, Good, InHand;
    HeadReads(c, m, behind);
    EndOfHead(c, m, a);
    BlankLineRead(HeadRead(c, m), behind);
  }

  /** The round trip.  Every well-formed response, printed with the payload it announces, is
      read back: exactly its version, code, fields and body are delivered, and the client
      goes on with what follows; or, if the body goes on until the end, as soon as the
      connection is closed.  It is refused if and only if its length cannot be read. */
  lemma ResponseReads(c: Client, m: Message, a: Announced, p: Payload, rest: string)
    requires Ready(c) && Good(m) && Announces(m.headers, a) && Carries(c.heads[0], m, a, p)
    ensures var v := HeadText(m) + (PayloadText(p) + rest);
            if a.BadLength? then
              var d := Receive(c, v).state; d.failed == Some(BadResponse) && d.done == c.done && d.heads == c.heads
            else if UntilTheEnd(m, a) && !c.heads[0] then
              rest == "" ==> OnClose(Receive(c, v).state) == Some(Served(c, m, a, p))
            else Receive(c, v) == Receive(Served(c, m, a, p), rest)
  {
    hide Receive, HeadText, Said, Announces, EndOfHeaders, Bodiless, Served, Good, HeadRead, InHand;
    var behind := PayloadText(p) + rest;
    HeadPassed(c, m, a, behind);
    if rest == "" {
      assert behind == PayloadText(p);
    }
    if PayloadText(p) == "" {
      assert behind == rest;
    }
    if !a.BadLength? && !c.heads[0] {
      match a
      case Bytes(_) => PlainRead(c, m, a, p, rest);
      case Chunks => ChunksRead(c, m, p, rest);
      case Silent =>
        if !Bodiless(m) {
          ClosedRead(c, m, p);
        }
    }
  }

  /** However the bytes of such a response are cut. */
  lemma ResponseAnyCut(c: Client, m: Message, a: Announced, p: Payload, pieces: seq<string>)
    requires Ready(c) && Good(m) && Announces(m.headers, a) && Carries(c.heads[0], m, a, p)
    requires !a.BadLength? && Concat(pieces) == HeadText(m) + PayloadText(p)
    ensures var d := ReceivePieces(Config(c, ""), pieces);
            if UntilTheEnd(m, a) && !c.heads[0] then OnClose(d.state) == Some(Served(c, m, a, p))
            else d == Config(Served(c, m, a, p), "")
  {
    assert PayloadText(p) + "" == PayloadText(p) && "" + Concat(pieces) == Concat(pieces);
    assert Step(c, "").Wait? && Step(Served(c, m, a, p), "").Wait?;
    hide Step, Receive, ReceivePieces, HeadText, PayloadText, Served, Announces, Good, Carries, UntilTheEnd, Concat;
    ResponseReads(c, m, a, p, "");
    ReceiveStep(Served(c, m, a, p), "");
    CutInvariance(Config(c, ""), pieces);
  }

  /** A first word that does not end in 0 or 1, or nothing to divide the line a second time. */
  predicate BadWords(word: string, rest: string) {
    ' ' !in word && (word == "" || (word[|word| - 1] != '0' && word[|word| - 1] != '1') || ' ' !in rest)
  }

  lemma BadWordsRefused(word: string, rest: string)
    requires BadWords(word, rest)
    ensures StatusLine(word + " " + rest) == None
  {
    var line := word + " " + rest;
    CharAt(word, ' ', rest);
    if ' ' !in rest {
      CharMissing(word + " ", rest, ' ');
    }
    hide Find;
    assert |word| > 0 ==> line[|word| - 1] == word[|word| - 1];
  }

  lemma OneWordRefused(word: string)
    requires ' ' !in word
    ensures StatusLine(word) == None
  {
    CharMissing("", word, ' ');
    assert "" + word == word;
  }

  lemma LineRefused(c: Client, line: string, rest: string)
    requires Ready(c) && OneLine(line) && StatusLine(line) == None
    ensures var d := Receive(c, line + CRLF + rest).state; d.failed == Some(BadResponse) && d.done == c.done
  {
    var v := line + CRLF + rest;
    LineEnds(line, rest);
    hide Find, StatusLine, Receive;
    ReceiveStep(c, v);
    ResponseParser.StopsAt(c.(failed := Some(BadResponse)), v[0..]);
  }

  /** Such a first line is refused, and so is one of a single word. */
  lemma BadLineRead(c: Client, word: string, more: string, rest: string)
    requires Ready(c) && OneLine(word) && OneLine(more) && ' ' !in word
    ensures var d := Receive(c, word + CRLF + rest).state; d.failed == Some(BadResponse) && d.done == c.done
    ensures BadWords(word, more) ==>
              var d := Receive(c, word + " " + more + CRLF + rest).state; d.failed == Some(BadResponse) && d.done == c.done
  {
    OneWordRefused(word);
    hide StatusLine, Receive, BadWords;
    LineRefused(c, word, rest);
    if BadWords(word, more) {
      BadWordsRefused(word, more);
      LineRefused(c, word + " " + more, rest);
    }
  }

  /** Bytes that no request is waiting for are refused. */
  lemma UnexpectedRefused(c: Client, v: string)
    requires c.failed.None? && c.heads == [] && v != ""
    ensures Receive(c, v).state == c.(failed := Some(MoreThanExpected))
  {
    ReceiveStep(c, v);
    ResponseParser.StopsAt(c.(failed := Some(MoreThanExpected)), v[0..]);
  }
}
