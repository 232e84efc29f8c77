/** The multipart/form-data stream parser as a step machine, one byte or one line at
    a time, and what that machine keeps however its input is cut. */
module MultipartModel {
  import opened Text
  import opened Resumable

  datatype Status = ExpectFirstBoundary | ExpectNewEntry | ExpectHeader | ExpectBody | ExpectEndOrNewEntry

  datatype Header = Header(name: string, filename: string, contentType: string)

  const NO_HEADER := Header("", "", "")

  /** What the callbacks tell the user, with the data callbacks cut down to bytes: a
      part begins, one byte of it, its end (the zero-length data callback). */
  datatype Event = Begin(header: Header) | Byte(c: char) | End

  /** The fields of the source's parser, and what a run is measured by: the bytes
      consumed, the longest header line accepted, the events so far. */
  datatype Parser = Parser(
    boundary: string, status: Status, header: Header, valid: bool, finished: bool,
    used: nat, longest: nat, out: seq<Event>)

  const MAX_HEADER := 60 * 1024

  function DashBoundaryCrlf(boundary: string): string { DASH + boundary + CRLF }

  function CrlfDashBoundary(boundary: string): string { CRLF + DASH + boundary }

  function Init(boundary: string): Parser {
    Parser(boundary, ExpectFirstBoundary, NO_HEADER, true, false, 0, 0, [])
  }

  /** The parser of `multipart/form-data; boundary=...`; None when the constructor
      declares the content type unusable. */
  function BoundaryOf(contentType: string): Option<string> {
    if !StartsWithIgnoreCase(contentType, "multipart/form-data") then None
    else
      var eq := Find(contentType, "boundary=", 19);
      if eq.None? then None
      else
        var pos := eq.value + 9;
        var quoted := At(contentType, pos) == '"';
        var start := if quoted then pos + 1 else pos;
        var stop := Find(contentType, if quoted then "\"" else ";", start);
        Some(contentType[start..if stop.Some? then stop.value else |contentType|])
  }

  /** The parser as constructed, unusable for an unusable content type. */
  function ForContentType(contentType: string): Parser {
    if BoundaryOf(contentType).Some? then Init(BoundaryOf(contentType).value) else Invalidate(Init(""))
  }

  /** A header line `key: value`, split at its first colon; at most one space is dropped. */
  function SplitLine(line: string): (string, string) {
    var colon := Find(line, ":", 0);
    if colon.None? then ("", "")
    else if At(line, colon.value + 1) == ' ' then (line[..colon.value], line[colon.value + 2..])
    else (line[..colon.value], line[colon.value + 1..])
  }

  /** The value after `key` at or after `from`, quoted or up to a semicolon: where it
      starts, and where it stops if it does. */
  function Attribute(value: string, key: string, from: nat): (r: Option<(nat, Option<nat>)>)
    requires key != "" && from <= |value|
    ensures r.Some? ==> from <= r.value.0 <= |value|
    ensures r.Some? && r.value.1.Some? ==> r.value.0 <= r.value.1.value < |value|
  {
    var k := Find(value, key, from);
    if k.None? then None
    else
      var pos := k.value + |key|;
      if At(value, pos) == '"' then Some((pos + 1, Find(value, "\"", pos + 1)))
      else Some((pos, Find(value, ";", pos)))
  }

  /** The effect of one non-empty header line on the current header; None for a line
      that makes the stream invalid. */
  function ApplyLine(h: Header, line: string): Option<Header> {
    var (key, value) := SplitLine(line);
    if key == "" || value == "" then None
    else if StartsWithIgnoreCase(key, "content-type") then Some(h.(contentType := value))
    else if StartsWithIgnoreCase(key, "content-disposition") then
      match Attribute(value, "name=", 0)
      case None => None
      case Some((start, None)) => None
      case Some((start, Some(stop))) =>
        var h' := h.(name := value[start..stop]);
        match Attribute(value, "filename=", stop)
        case None => Some(h')
        case Some((fstart, fstop)) =>
          Some(h'.(filename := value[fstart..if fstop.Some? then fstop.value else |value|]))
    else Some(h)
  }

  function Max(a: nat, b: nat): nat { if a < b then b else a }

  predicate Dead(p: Parser) { !p.valid || p.finished }

  function Invalidate(p: Parser): Parser { p.(valid := false) }

  function Advance(p: Parser, status: Status, used: nat, out: seq<Event>): Outcome<Parser> {
    Go(p.(status := status, used := p.used + used, out := p.out + out), used)
  }

  function Step(p: Parser, v: string): Outcome<Parser> {
    if Dead(p) then Wait
    else match p.status
      case ExpectFirstBoundary => FirstBoundaryStep(p, v)
      case ExpectNewEntry =>
        if v == "" then Wait else Go(p.(status := ExpectHeader, header := NO_HEADER), 0)
      case ExpectHeader => HeaderStep(p, v)
      case ExpectBody => BodyStep(p, v)
      case ExpectEndOrNewEntry => EndStep(p, v)
  }

  function FirstBoundaryStep(p: Parser, v: string): Outcome<Parser> {
    var d := DashBoundaryCrlf(p.boundary);
    if StartsWith(v, d) then Advance(p, ExpectNewEntry, |d|, [])
    else if |v| > |d| then Advance(p, ExpectFirstBoundary, 1, [])
    else Wait
  }

  function HeaderStep(p: Parser, v: string): Outcome<Parser> {
    match Find(v, CRLF, 0)
    case None => Wait
    case Some(pos) =>
      if pos == 0 then Advance(p, ExpectBody, 2, [Begin(p.header)])
      else match ApplyLine(p.header, v[..pos])
        case None => Go(Invalidate(p), 0)
        case Some(h) => Advance(p.(header := h, longest := Max(p.longest, pos)), ExpectHeader, pos + 2, [])
  }

  function BodyStep(p: Parser, v: string): Outcome<Parser> {
    var d := CrlfDashBoundary(p.boundary);
    if StartsWith(v, d) then Advance(p, ExpectEndOrNewEntry, |d|, [End])
    else if |v| > |d| then Advance(p, ExpectBody, 1, [Byte(v[0])])
    else Wait
  }

  function EndStep(p: Parser, v: string): Outcome<Parser> {
    if |v| < 2 then Wait
    else if StartsWith(v, CRLF) then Advance(p, ExpectNewEntry, 2, [])
    else if StartsWith(v, DASH) then Go(p.(finished := true), 0)
    else Go(Invalidate(p), 0)
  }

  function Rank(p: Parser): nat {
    if Dead(p) then 0 else if p.status.ExpectNewEntry? then 2 else 1
  }

  /** The 60 KiB guard on a header line that has not ended yet. */
  function Guard(p: Parser, v: string): Parser {
    if TooLong(p, v) then Invalidate(p) else p
  }

  predicate TooLong(p: Parser, v: string) {
    !Dead(p) && p.status.ExpectHeader? && Find(v, CRLF, 0).None? && |v| > MAX_HEADER
  }

  lemma StepProgress(p: Parser, v: string)
    requires Step(p, v).Go?
    ensures Step(p, v).used <= |v|
    ensures Step(p, v).used > 0 || Rank(Step(p, v).next) < Rank(p)
  {
  }

  lemma Progresses()
    ensures Progress(Step, Rank)
  {
    forall p: Parser, v: string | Step(p, v).Go?
      ensures Step(p, v).used <= |v| && (Step(p, v).used > 0 || Rank(Step(p, v).next) < Rank(p))
    {
      StepProgress(p, v);
    }
  }

  /** Bytes behind a prefix do not disturb it. */
  lemma PrefixStable(v: string, x: string, d: string)
    requires |d| <= |v|
    ensures StartsWith(v + x, d) == StartsWith(v, d)
  {
    assert (v + x)[..|d|] == v[..|d|];
  }

  lemma StepStable(p: Parser, v: string, x: string)
    requires Step(p, v).Go?
    ensures Step(p, v + x) == Step(p, v)
  {
    match p.status
    case ExpectFirstBoundary => PrefixStable(v, x, DashBoundaryCrlf(p.boundary));
    case ExpectNewEntry =>
    case ExpectHeader =>
      FindExtends(v, CRLF, 0, x);
      assert (v + x)[..Find(v, CRLF, 0).value] == v[..Find(v, CRLF, 0).value];
    case ExpectBody => PrefixStable(v, x, CrlfDashBoundary(p.boundary));
    case ExpectEndOrNewEntry =>
      PrefixStable(v, x, CRLF);
      PrefixStable(v, x, DASH);
  }

  lemma Stables()
    ensures Stable(Step)
  {
    forall p: Parser, v: string, x: string | Step(p, v).Go?
      ensures Step(p, v + x) == Step(p, v)
    {
      StepStable(p, v, x);
    }
  }

  /** Run the machine on the unconsumed bytes `v` until it waits. */
  ghost function Parse(p: Parser, v: string): Config<Parser> {
    Progresses();
    Run(Step, Rank, p, v)
  }

  /** One step forward leaves the outcome of the run as it was. */
  lemma ParseStep(p: Parser, v: string)
    ensures Step(p, v).Go? ==>
              Step(p, v).used <= |v| && Parse(p, v) == Parse(Step(p, v).next, v[Step(p, v).used..])
    ensures Step(p, v).Wait? ==> Parse(p, v) == Config(p, v)
  {
    Progresses();
  }

  /** One call with `piece` on top of what was left before: run, then the length guard. */
  ghost function ParsePiece(c: Config<Parser>, piece: string): Config<Parser> {
    Progresses();
    Feed(Step, Rank, Guard, c, piece)
  }

  ghost function ParsePieces(c: Config<Parser>, pieces: seq<string>): Config<Parser> {
    Progresses();
    FeedPieces(Step, Rank, Guard, c, pieces)
  }

  /** No cut leaves an unfinished header line of more than 60 KiB. */
  ghost predicate LinesFit(c: Config<Parser>, pieces: seq<string>) {
    Progresses();
    NeverTrips(Step, Rank, Guard, c, pieces)
  }

  /** However the body was cut, the parser ends in the same state, with the same bytes
      left and the same events, as if it had arrived at once. */
  lemma CutInvariance(c: Config<Parser>, pieces: seq<string>)
    requires Step(c.state, c.rest).Wait?
    requires LinesFit(c, pieces)
    ensures ParsePieces(c, pieces) == Parse(c.state, c.rest + Concat(pieces))
  {
    Progresses();
    Stables();
    AnyGuardedCut(Step, Rank, Guard, c, pieces);
  }

  /** The bytes in `v` that a call has not consumed begin with a header line that is
      complete and acceptable. */
  predicate GoodLine(p: Parser, v: string) {
    var pos := Find(v, CRLF, 0);
    pos.Some? && (pos.value == 0 || ApplyLine(p.header, v[..pos.value]).Some?)
  }

  /** Two calls and one call agree on everything a user can see: the state and, for
      a live parser, the bytes it holds. */
  predicate Agree(c: Config<Parser>, d: Config<Parser>) {
    c.state == d.state && (!Dead(c.state) ==> c.rest == d.rest)
  }

  /** Exactly when one cut can be seen: the first call gave up on a long line that the
      second would have completed into a good one. */
  lemma ExactCut(p: Parser, a: string, b: string)
    ensures var r := Parse(p, a);
            Agree(ParsePiece(ParsePiece(Config(p, ""), a), b), ParsePiece(Config(p, ""), a + b)) <==>
            !(TooLong(r.state, r.rest) && GoodLine(r.state, r.rest + b))
  {
    var r := Parse(p, a);
    Progresses();
    Stables();
    Split(Step, Rank, p, a, b);
    assert "" + a == a && "" + (a + b) == a + b;
    if TooLong(r.state, r.rest) {
      TooLongCut(r.state, r.rest, b);
    }
  }

  lemma TooLongCut(p: Parser, v: string, b: string)
    requires TooLong(p, v)
    ensures Parse(Invalidate(p), v + b).state == Invalidate(p)
    ensures var q := Parse(p, v + b);
            Guard(q.state, q.rest) == Invalidate(p) <==> !GoodLine(p, v + b)
  {
    Progresses();
    var o := Step(p, v + b);
    if o.Go? && o.used > 0 {
      UsedGrows(o.next, (v + b)[o.used..]);
    }
  }

  /** The parser never gives bytes back. */
  lemma {:induction false} UsedGrows(p: Parser, v: string)
    ensures Parse(p, v).state.used >= p.used
    decreases |v|, Rank(p)
  {
    Progresses();
    var o := Step(p, v);
    if o.Go? {
      StepProgress(p, v);
      UsedGrows(o.next, v[o.used..]);
    }
  }

  lemma {:induction false} LongestGrows(p: Parser, v: string)
    ensures var q := Parse(p, v).state; q.longest >= p.longest
    ensures !p.valid ==> !Parse(p, v).state.valid
    decreases |v|, Rank(p)
  {
    ParseStep(p, v);
    var o := Step(p, v);
    if o.Go? {
      StepProgress(p, v);
      LongestGrows(o.next, v[o.used..]);
    }
  }

  /** From here on no header line of 60 KiB is accepted, and none is left unfinished; what
      was accepted before, and whether the input is good, does not matter. */
  ghost predicate ShortLines(p: Parser, v: string) {
    var w := Parse(p.(longest := 0), v);
    w.state.longest < MAX_HEADER && !TooLong(w.state, w.rest)
  }

  /** What was accepted before changes nothing but the record of it. */
  lemma {:induction false} HistoryApart(p: Parser, k: nat, v: string)
    requires k <= p.longest
    ensures var w, u := Parse(p, v), Parse(p.(longest := k), v);
            u.rest == w.rest && u.state.longest <= w.state.longest && w.state == u.state.(longest := w.state.longest)
    decreases |v|, Rank(p)
  {
    var q := p.(longest := k);
    ParseStep(p, v);
    ParseStep(q, v);
    StepApart(p, k, v);
    if Step(p, v).Go? {
      StepProgress(p, v);
      var o, x := Step(p, v), Step(q, v);
      hide Step, Parse;
      HistoryApart(o.next, x.next.longest, v[o.used..]);
    }
  }

  lemma StepApart(p: Parser, k: nat, v: string)
    requires k <= p.longest
    ensures var o, x := Step(p, v), Step(p.(longest := k), v);
            && o.Go? == x.Go?
            && (o.Go? ==> o.used == x.used && x.next.longest <= o.next.longest
                          && x.next == o.next.(longest := x.next.longest))
  {
    hide Find, ApplyLine, StartsWith;
  }

  /** A line given up for its length was bad anyway, if all good lines are short. */
  lemma NotGood(p: Parser, v: string, b: string)
    requires TooLong(p, v) && ShortLines(p, v + b)
    ensures Parse(p, v + b).state == Invalidate(p)
  {
    var q := p.(longest := 0);
    HistoryApart(p, 0, v + b);
    TooLongCut(p, v, b);
    if GoodLine(p, v + b) {
      LateLineEnd(v, b);
      ParseStep(q, v + b);
      var o := Step(q, v + b);
      LongestGrows(o.next, (v + b)[o.used..]);
    }
  }

  lemma LateLineEnd(v: string, b: string)
    requires Find(v, CRLF, 0).None? && Find(v + b, CRLF, 0).Some?
    ensures Find(v + b, CRLF, 0).value >= |v| - 1
  {
    forall k | 0 <= k < |v| - 1 ensures !StartsWith((v + b)[k..], CRLF) {
      assert (v + b)[k..][..2] == v[k..][..2];
    }
  }

  lemma SplitParse(p: Parser, a: string, b: string)
    ensures var r := Parse(p, a);
            Parse(p, a + b) == Parse(r.state, r.rest + b) && Step(r.state, r.rest).Wait?
  {
    Progresses();
    Stables();
    Split(Step, Rank, p, a, b);
    RunStops(Step, Rank, p, a);
  }

  /** Short lines stay short behind a piece. */
  lemma ShortLinesSplit(p: Parser, a: string, b: string)
    requires ShortLines(p, a + b)
    ensures var r := Parse(p, a); ShortLines(r.state, r.rest + b)
  {
    var r, r0 := Parse(p, a), Parse(p.(longest := 0), a);
    SplitParse(p.(longest := 0), a, b);
    HistoryApart(p, 0, a);
    HistoryApart(r0.state, 0, r.rest + b);
    hide Parse;
    assert r.state.(longest := 0) == r0.state.(longest := 0);
  }

  /** A dead parser is not moved by more bytes. */
  lemma {:induction false} DeadStays(c: Config<Parser>, pieces: seq<string>)
    requires Dead(c.state)
    ensures ParsePieces(c, pieces).state == c.state
    decreases |pieces|
  {
    Progresses();
    if pieces != [] {
      DeadStays(ParsePiece(c, pieces[0]), pieces[1..]);
    }
  }

  lemma PieceParsed(c: Config<Parser>, piece: string)
    ensures var r := Parse(c.state, c.rest + piece); ParsePiece(c, piece) == Config(Guard(r.state, r.rest), r.rest)
  {
    Progresses();
  }

  lemma PiecesParsed(c: Config<Parser>, pieces: seq<string>)
    ensures pieces == [] ==> ParsePieces(c, pieces) == c
    ensures pieces != [] ==> ParsePieces(c, pieces) == ParsePieces(ParsePiece(c, pieces[0]), pieces[1..])
  {
    Progresses();
  }

  lemma Joined(rest: string, pieces: seq<string>)
    requires pieces != []
    ensures rest + Concat(pieces) == rest + pieces[0] + Concat(pieces[1..])
  {}

  /** An input whose header lines stay under 60 KiB is read the same however it is cut, be
      it good or bad. */
  lemma {:induction false} CutInvarianceShortLines(c: Config<Parser>, pieces: seq<string>)
    requires Step(c.state, c.rest).Wait?
    requires ShortLines(c.state, c.rest + Concat(pieces))
    ensures Agree(ParsePieces(c, pieces), Parse(c.state, c.rest + Concat(pieces)))
    decreases |pieces|
  {
    PiecesParsed(c, pieces);
    if pieces == [] {
      assert c.rest + "" == c.rest;
      ParseStep(c.state, c.rest);
    } else {
      hide Parse, ParsePieces, ParsePiece, ShortLines, Step, Concat;
      Joined(c.rest, pieces);
      var a, b := c.rest + pieces[0], Concat(pieces[1..]);
      var r := Parse(c.state, a);
      PieceParsed(c, pieces[0]);
      SplitParse(c.state, a, b);
      ShortLinesSplit(c.state, a, b);
      if TooLong(r.state, r.rest) {
        NotGood(r.state, r.rest, b);
        DeadStays(Config(Invalidate(r.state), r.rest), pieces[1..]);
      } else {
        CutInvarianceShortLines(r, pieces[1..]);
      }
    }
  }

  // A cut that can be seen, from the very first byte.

  function LongValue(n: nat): (r: string)
    ensures |r| == n && forall i :: 0 <= i < n ==> r[i] == 'v'
  {
    if n == 0 then "" else ['v'] + LongValue(n - 1)
  }

  lemma NoLineEnd(line: string)
    requires line == "k:" + LongValue(MAX_HEADER)
    ensures Find(line, CRLF, 0).None?
  {
    forall k | 0 <= k <= |line| ensures !StartsWith(line[k..], CRLF) {
      assert k < |line| ==> line[k] != '\r';
    }
  }

  /** The parser waits for the end of the long line. */
  lemma LongLineWaits(line: string)
    requires line == "k:" + LongValue(MAX_HEADER)
    ensures var p2 := Init("B").(status := ExpectHeader, header := NO_HEADER, used := 5);
            Parse(Init("B"), "--B" + CRLF + line) == Config(p2, line)
  {
    var a := "--B" + CRLF + line;
    var p := Init("B");
    var d := DashBoundaryCrlf("B");
    assert d == "--B" + CRLF;
    assert a[..5] == d && a[5..] == line;
    var p1 := p.(status := ExpectNewEntry, used := 5);
    assert Step(p, a) == Go(p1, 5) by { assert p.out + [] == p.out; }
    var p2 := p1.(status := ExpectHeader, header := NO_HEADER);
    assert Step(p1, line) == Go(p2, 0);
    assert line[0..] == line;
    NoLineEnd(line);
    hide Find, Parse;
    ParseStep(p, a);
    ParseStep(p1, line);
    ParseStep(p2, line);
  }

  /** A line of 60 KiB that is accepted whole is refused when a piece ends before its line
      end. */
  lemma LongLineIsSeen()
    ensures var a := "--B" + CRLF + "k:" + LongValue(MAX_HEADER);
            var p := Init("B");
            !Agree(ParsePiece(ParsePiece(Config(p, ""), a), CRLF), ParsePiece(Config(p, ""), a + CRLF))
  {
    var line := "k:" + LongValue(MAX_HEADER);
    var a := "--B" + CRLF + line;
    assert a == "--B" + CRLF + "k:" + LongValue(MAX_HEADER);
    var p := Init("B");
    Progresses();
    LongLineWaits(line);
    var p2 := p.(status := ExpectHeader, header := NO_HEADER, used := 5);
    LongLineIsGood(p2, line);
    hide Find, Parse, GoodLine;
    ExactCut(p, a, CRLF);
  }

  lemma LongLineIsGood(p: Parser, line: string)
    requires line == "k:" + LongValue(MAX_HEADER)
    ensures GoodLine(p, line + CRLF)
  {
    forall k | 0 <= k < |line| ensures !StartsWith((line + CRLF)[k..], CRLF) {
      assert (line + CRLF)[k] == line[k] != '\r';
    }
    assert (line + CRLF)[|line|..] == CRLF;
    FindIs(line + CRLF, CRLF, 0, |line|);
    assert (line + CRLF)[..|line|] == line;
    assert line[1..][..1] == ":";
    assert !StartsWith(line[0..], ":") by { assert line[0..][..1] == "k"; }
    FindIs(line, ":", 0, 1);
    assert line[..1] == "k";
    assert line[2] == 'v';
  }

  // What the user sees is always a sequence of whole parts, the last one possibly open.

  datatype Part = Part(header: Header, content: string)

  /** The parts told by a sequence of events; `open` is the one still being received. */
  datatype Parts = Parts(done: seq<Part>, open: Option<Part>) | Broken

  function AddEvent(ps: Parts, e: Event): Parts {
    match (ps, e)
    case (Parts(done, None), Begin(h)) => Parts(done, Some(Part(h, "")))
    case (Parts(done, Some(part)), Byte(c)) => Parts(done, Some(part.(content := part.content + [c])))
    case (Parts(done, Some(part)), End) => Parts(done + [part], None)
    case _ => Broken
  }

  function PartsOf(out: seq<Event>): Parts {
    if out == [] then Parts([], None) else AddEvent(PartsOf(out[..|out| - 1]), out[|out| - 1])
  }

  lemma PartsOfAppend(out: seq<Event>, e: Event)
    ensures PartsOf(out + [e]) == AddEvent(PartsOf(out), e)
  {
    assert (out + [e])[..|out|] == out;
  }

  /** Every part begins once, gets its bytes, and ends with exactly one zero-length data
      callback before the next begins; one is open exactly while its body is expected. */
  predicate WholeParts(p: Parser) {
    var ps := PartsOf(p.out);
    ps.Parts? && (ps.open.Some? <==> p.status.ExpectBody?)
  }

  lemma StepKeepsParts(p: Parser, v: string)
    requires Step(p, v).Go? && WholeParts(p)
    ensures WholeParts(Step(p, v).next)
  {
    assert p.out + [] == p.out;
    match p.status
    case ExpectHeader => PartsOfAppend(p.out, Begin(p.header));
    case ExpectBody =>
      PartsOfAppend(p.out, End);
      PartsOfAppend(p.out, Byte(v[0]));
    case _ =>
    hide PartsOf, Find, ApplyLine;
  }

  lemma {:induction false} RunKeepsParts(p: Parser, v: string)
    requires WholeParts(p)
    ensures WholeParts(Parse(p, v).state)
    decreases |v|, Rank(p)
  {
    Progresses();
    var o := Step(p, v);
    if o.Go? {
      StepProgress(p, v);
      StepKeepsParts(p, v);
      RunKeepsParts(o.next, v[o.used..]);
    }
  }

  /** Whatever bytes arrive, in whatever pieces. */
  lemma {:induction false} AlwaysWholeParts(c: Config<Parser>, pieces: seq<string>)
    requires WholeParts(c.state)
    ensures WholeParts(ParsePieces(c, pieces).state)
    decreases |pieces|
  {
    if pieces != [] {
      Progresses();
      RunKeepsParts(c.state, c.rest + pieces[0]);
      AlwaysWholeParts(ParsePiece(c, pieces[0]), pieces[1..]);
    }
  }
}
