/** The multipart body that an upload request prints, and the round trip: the stream
    parser reads it back, however it is cut. */
module MultipartPrinter {
  import opened Text
  import opened Resumable
  import opened MultipartModel
  import opened MultipartParser

  /** One entry of an upload: a form field, or a file with an optional content type. */
  datatype Entry =
    | Field(name: string, value: string)
    | File(name: string, filename: string, mime: Option<string>, data: string)

  function Content(e: Entry): string {
    match e case Field(_, value) => value case File(_, _, _, data) => data
  }

  const VALUE_PREFIX := "form-data; name=\""

  /** The value of the `content-disposition` line. */
  function DispositionValue(e: Entry): string {
    match e
    case Field(name, _) => VALUE_PREFIX + name + "\""
    case File(name, filename, _, _) => VALUE_PREFIX + name + "\"; filename=\"" + filename + "\""
  }

  function DispositionLine(e: Entry): string {
    "content-disposition" + ": " + DispositionValue(e)
  }

  /** The `content-type` line with its line end, when there is one. */
  function TypeLine(e: Entry): string {
    if e.File? && e.mime.Some? then "content-type" + ": " + e.mime.value + CRLF else ""
  }

  /** What stands between two boundaries. */
  function Inner(e: Entry): string {
    DispositionLine(e) + CRLF + TypeLine(e) + CRLF + Content(e)
  }

  function PrintEntry(boundary: string, e: Entry): string {
    DASH + boundary + CRLF + Inner(e) + CRLF
  }

  function PrintEntries(boundary: string, es: seq<Entry>): string {
    if es == [] then "" else PrintEntry(boundary, es[0]) + PrintEntries(boundary, es[1..])
  }

  function PrintBody(boundary: string, es: seq<Entry>): string {
    PrintEntries(boundary, es) + DASH + boundary + DASH
  }

  lemma {:induction false} OneMoreEntry(boundary: string, es: seq<Entry>, i: nat)
    requires i < |es|
    ensures PrintEntries(boundary, es[..i + 1]) == PrintEntries(boundary, es[..i]) + PrintEntry(boundary, es[i])
    decreases i
  {
    hide PrintEntry;
    if i > 0 {
      OneMoreEntry(boundary, es[1..], i - 1);
      assert es[..i + 1][1..] == es[1..][..i] && es[..i][1..] == es[1..][..i - 1];
    }
  }

  /** One entry appended piece by piece, as the source does. */
  method AppendEntry(sofar: string, boundary: string, e: Entry) returns (content: string)
    ensures content == sofar + PrintEntry(boundary, e)
  {
    var value := VALUE_PREFIX + e.name;
    if e.File? {
      value := value + "\"; filename=\"" + e.filename;
    }
    value := value + "\"";
    var line := "content-disposition" + ": " + value;
    var typeLine := "";
    if e.File? && e.mime.Some? {
      typeLine := "content-type" + ": " + e.mime.value + CRLF;
    }
    content := sofar + (DASH + boundary + CRLF + (line + CRLF + typeLine + CRLF + Content(e)) + CRLF);
  }

  /** The source's two loops: the parameters, then the files. */
  method AppendMultipart(boundary: string, fields: seq<Entry>, files: seq<Entry>) returns (content: string)
    requires forall e :: e in fields ==> e.Field?
    requires forall e :: e in files ==> e.File?
    ensures content == PrintBody(boundary, fields + files)
  {
    hide PrintEntry;
    ghost var all := fields + files;
    content := "";
    for i := 0 to |fields|
      invariant content == PrintEntries(boundary, all[..i])
    {
      content := AppendEntry(content, boundary, fields[i]);
      OneMoreEntry(boundary, all, i);
    }
    for i := 0 to |files|
      invariant content == PrintEntries(boundary, all[..|fields| + i])
    {
      content := AppendEntry(content, boundary, files[i]);
      OneMoreEntry(boundary, all, |fields| + i);
    }
    assert all[..|fields| + |files|] == all;
    content := content + DASH + boundary + DASH;
  }

  // Reading one entry back.

  /** No line end inside `s`. */
  predicate OneLine(s: string) {
    forall i :: 0 <= i < |s| - 1 ==> !(s[i] == '\r' && s[i + 1] == '\n')
  }

  /** What the printer can print so that it can be read back: names that stay on one line
      and inside their quotes, and contents without the delimiter. */
  predicate Printable(boundary: string, e: Entry) {
    && OneLine(e.name) && '"' !in e.name
    && (e.File? ==> OneLine(e.filename) && '"' !in e.filename)
    && (e.File? && e.mime.Some? ==> e.mime.value != "" && '\r' !in e.mime.value)
    && Find(Content(e), CrlfDashBoundary(boundary), 0).None?
  }

  function HeaderOf(e: Entry): Header {
    match e
    case Field(name, _) => Header(name, "", "")
    case File(name, filename, mime, _) => Header(name, filename, if mime.Some? then mime.value else "")
  }

  /** A line is found to end where it ends. */
  lemma LineEnds(line: string, rest: string)
    requires Tidy(line)
    ensures Find(line + CRLF + rest, CRLF, 0) == Some(|line|)
    ensures (line + CRLF + rest)[..|line|] == line && (line + CRLF + rest)[|line| + 2..] == rest
  {
    var v := line + CRLF + rest;
    forall j | 0 <= j < |line| ensures !StartsWith(v[j..], CRLF) {
      assert v[j] == line[j];
      assert j < |line| - 1 ==> v[j + 1] == line[j + 1];
    }
    assert v[|line|..][..2] == CRLF;
    FindIs(v, CRLF, 0, |line|);
  }

  /** The delimiter does not overlap itself, so behind content without it the first one
      found is the real one. */
  lemma ContentEnds(boundary: string, content: string, rest: string)
    requires '\r' !in boundary
    requires Find(content, CrlfDashBoundary(boundary), 0).None?
    ensures Find(content + CrlfDashBoundary(boundary) + rest, CrlfDashBoundary(boundary), 0) == Some(|content|)
  {
    var d := CrlfDashBoundary(boundary);
    var v := content + d + rest;
    forall j | 0 <= j < |content| ensures !StartsWith(v[j..], d) {
      NotInside(boundary, content, rest, j);
    }
    assert v[|content|..][..|d|] == d;
    FindIs(v, d, 0, |content|);
  }

  lemma NotInside(boundary: string, content: string, rest: string, j: nat)
    requires '\r' !in boundary
    requires Find(content, CrlfDashBoundary(boundary), 0).None?
    requires j < |content|
    ensures !StartsWith((content + CrlfDashBoundary(boundary) + rest)[j..], CrlfDashBoundary(boundary))
  {
    hide Find;
    var d := CrlfDashBoundary(boundary);
    var v := content + d + rest;
    var k := |content| - j;
    assert !StartsWith(content[j..], d);
    if k < |d| {
      assert v[j..][k] == v[|content|] == d[0] == '\r';
      NoOtherCr(boundary, k);
    } else {
      assert v[j..][..|d|] == content[j..][..|d|];
    }
  }

  lemma NoOtherCr(boundary: string, k: nat)
    requires '\r' !in boundary && 0 < k < |CrlfDashBoundary(boundary)|
    ensures CrlfDashBoundary(boundary)[k] != '\r'
  {
    var d := CrlfDashBoundary(boundary);
    assert k >= 4 ==> d[k] == boundary[k - 4];
  }

  /** A single character is found at the first place it stands. */
  lemma FindChar(v: string, c: char, from: nat, k: nat)
    requires from <= k < |v| && v[k] == c
    requires forall j :: from <= j < k ==> v[j] != c
    ensures Find(v, [c], from) == Some(k)
  {
    assert v[k..][..1] == [c];
    forall j | from <= j < k ensures !StartsWith(v[j..], [c]) {
      assert v[j..][0] == v[j];
    }
    FindIs(v, [c], from, k);
  }

  lemma SplitAtColon(key: string, value: string)
    requires ':' !in key
    ensures SplitLine(key + ": " + value) == (key, value)
  {
    var line := key + ": " + value;
    forall j | 0 <= j < |key| ensures line[j] != ':' {
      assert line[j] == key[j];
    }
    FindChar(line, ':', 0, |key|);
    assert line[..|key|] == key && line[|key| + 2..] == value;
  }

  lemma NameKey(v: string)
    requires StartsWith(v, VALUE_PREFIX)
    ensures Find(v, "name=", 0) == Some(11)
  {
    forall i | 0 <= i < 17 ensures v[i] == VALUE_PREFIX[i] {
      assert v[i] == v[..17][i];
    }
    forall j | 0 <= j < 11 ensures !StartsWith(v[j..], "name=") {
      assert v[j..][0] == v[j] != 'n';
    }
    assert v[11..][..5] == "name=";
    FindIs(v, "name=", 0, 11);
  }

  lemma NameAttribute(name: string, tail: string)
    requires '"' !in name
    ensures Attribute(VALUE_PREFIX + name + "\"" + tail, "name=", 0) == Some((17, Some(17 + |name|)))
    ensures (VALUE_PREFIX + name + "\"" + tail)[17..17 + |name|] == name
  {
    var v := VALUE_PREFIX + name + "\"" + tail;
    assert v[..17] == VALUE_PREFIX;
    NameKey(v);
    assert v[16] == VALUE_PREFIX[16] == '"';
    forall j | 17 <= j < 17 + |name| ensures v[j] != '"' {
      assert v[j] == name[j - 17];
    }
    FindChar(v, '"', 17, 17 + |name|);
  }

  /** A field has no file name. */
  lemma NoFilename(v: string, stop: nat)
    requires stop + 1 == |v|
    ensures Attribute(v, "filename=", stop) == None
  {
    assert Find(v, "filename=", stop).None?;
  }

  lemma FilenameKey(before: string, rest: string)
    ensures Find(before + "\"; filename=\"" + rest, "filename=", |before|) == Some(|before| + 3)
  {
    var mid := "\"; filename=\"";
    var v := before + mid + rest;
    var n := |before|;
    forall i | 0 <= i < 13 ensures v[n + i] == mid[i] {}
    assert v[n + 3..][..9] == "filename=";
    forall j | n <= j < n + 3 ensures !StartsWith(v[j..], "filename=") {
      assert v[j..][0] == v[j] == mid[j - n] != 'f';
    }
    FindIs(v, "filename=", n, n + 3);
  }

  lemma FilenameAttribute(before: string, filename: string)
    requires '"' !in filename
    ensures var v := before + "\"; filename=\"" + filename + "\"";
            var n := |before|;
            Attribute(v, "filename=", n) == Some((n + 13, Some(n + 13 + |filename|))) &&
            v[n + 13..n + 13 + |filename|] == filename
  {
    var head := before + "\"; filename=\"";
    var v := head + filename + "\"";
    var n := |before|;
    FilenameKey(before, filename + "\"");
    assert v == head + (filename + "\"");
    assert v[n + 12] == '"';
    forall j | n + 13 <= j < n + 13 + |filename| ensures v[j] != '"' {
      assert v[j] == filename[j - n - 13];
    }
    FindChar(v, '"', n + 13, n + 13 + |filename|);
    hide Find;
  }

  lemma KeyKinds()
    ensures !StartsWithIgnoreCase("content-disposition", "content-type")
    ensures StartsWithIgnoreCase("content-disposition", "content-disposition")
    ensures StartsWithIgnoreCase("content-type", "content-type")
  {
    assert Lower("content-disposition"[8]) != Lower("content-type"[8]);
  }

  lemma ReadDispositionValue(boundary: string, e: Entry)
    requires Printable(boundary, e)
    ensures var value := DispositionValue(e);
            var stop := 17 + |e.name|;
            && Attribute(value, "name=", 0) == Some((17, Some(stop))) && value[17..stop] == e.name
            && (e.Field? ==> Attribute(value, "filename=", stop).None?)
            && (e.File? ==>
                  && Attribute(value, "filename=", stop) == Some((stop + 13, Some(stop + 13 + |e.filename|)))
                  && value[stop + 13..stop + 13 + |e.filename|] == e.filename)
  {
    hide Find, Attribute;
    var value := DispositionValue(e);
    var stop := 17 + |e.name|;
    if e.Field? {
      NameAttribute(e.name, "");
      assert value == VALUE_PREFIX + e.name + "\"" + "";
      NoFilename(value, stop);
    } else {
      var tail := "; filename=\"" + e.filename + "\"";
      NameAttribute(e.name, tail);
      assert value == VALUE_PREFIX + e.name + "\"" + tail;
      FilenameAttribute(VALUE_PREFIX + e.name, e.filename);
    }
  }

  lemma ReadDisposition(boundary: string, e: Entry)
    requires Printable(boundary, e)
    ensures ApplyLine(NO_HEADER, DispositionLine(e)) == Some(HeaderOf(e).(contentType := ""))
  {
    ReadDispositionValue(boundary, e);
    SplitAtColon("content-disposition", DispositionValue(e));
    KeyKinds();
    hide StartsWithIgnoreCase, SplitLine, Attribute, DispositionValue, Printable;
  }

  lemma ReadType(h: Header, mime: string)
    requires mime != ""
    ensures ApplyLine(h, "content-type" + ": " + mime) == Some(h.(contentType := mime))
  {
    SplitAtColon("content-type", mime);
    KeyKinds();
  }

  /** A non-empty line that does not end half way into a line end. */
  predicate Tidy(s: string) {
    s != "" && OneLine(s) && s[|s| - 1] != '\r'
  }

  /** Quoted text on one line leaves the line one line. */
  lemma Quoted(before: string, quoted: string)
    requires Tidy(before) && OneLine(quoted)
    ensures Tidy(before + quoted + "\"")
  {
    var s := before + quoted + "\"";
    forall i | 0 <= i < |s| - 1 ensures !(s[i] == '\r' && s[i + 1] == '\n') {
      if i + 1 < |before| {
        assert s[i] == before[i] && s[i + 1] == before[i + 1];
      } else if |before| <= i < |before| + |quoted| - 1 {
        assert s[i] == quoted[i - |before|] && s[i + 1] == quoted[i + 1 - |before|];
      }
    }
  }

  lemma TidyPrefix()
    ensures Tidy("content-disposition" + ": " + VALUE_PREFIX)
  {
    var s := "content-disposition" + ": " + VALUE_PREFIX;
    assert forall i :: 0 <= i < |s| ==> s[i] != '\r';
  }

  lemma TidyMiddle(before: string)
    requires Tidy(before)
    ensures Tidy(before + "; filename=\"")
  {
    var s := before + "; filename=\"";
    forall i | 0 <= i < |s| - 1 ensures !(s[i] == '\r' && s[i + 1] == '\n') {
      if i + 1 < |before| {
        assert s[i] == before[i] && s[i + 1] == before[i + 1];
      } else if |before| <= i {
        assert s[i] == "; filename=\""[i - |before|];
      }
    }
  }

  lemma DispositionIsLine(boundary: string, e: Entry)
    requires Printable(boundary, e)
    ensures Tidy(DispositionLine(e))
  {
    hide Tidy, OneLine, Find;
    var prefix := "content-disposition" + ": " + VALUE_PREFIX;
    TidyPrefix();
    Quoted(prefix, e.name);
    var upTo := prefix + e.name + "\"";
    if e.File? {
      TidyMiddle(upTo);
      Quoted(upTo + "; filename=\"", e.filename);
    }
    DispositionPieces(e);
  }

  lemma DispositionPieces(e: Entry)
    ensures var upTo := "content-disposition" + ": " + VALUE_PREFIX + e.name + "\"";
            DispositionLine(e) == if e.Field? then upTo else upTo + "; filename=\"" + e.filename + "\""
  {
    var key := "content-disposition" + ": ";
    if e.Field? {
      Reassociate(key, VALUE_PREFIX, e.name, "\"");
    } else {
      assert "\"; filename=\"" == "\"" + "; filename=\"";
      Reassociate(key, VALUE_PREFIX, e.name, "\"; filename=\"");
      var v := VALUE_PREFIX + e.name + "\"; filename=\"";
      assert key + (v + e.filename + "\"") == key + v + e.filename + "\"";
    }
  }

  lemma Reassociate(a: string, b: string, c: string, d: string)
    ensures a + (b + c + d) == a + b + c + d
  {
  }

  /** One header line read by the machine. */
  lemma ReadLine(p: Parser, line: string, h: Header, rest: string)
    requires !Dead(p) && p.status.ExpectHeader?
    requires Tidy(line)
    requires ApplyLine(p.header, line) == Some(h)
    ensures Parse(p, line + CRLF + rest) ==
            Parse(p.(header := h, used := p.used + (|line| + 2), longest := Max(p.longest, |line|)), rest)
  {
    hide Parse, ApplyLine, Find, OneLine;
    LineEnds(line, rest);
    HeaderRun(p, line + CRLF + rest);
  }

  /** The empty line that ends the headers. */
  lemma ReadBlank(p: Parser, rest: string)
    requires !Dead(p) && p.status.ExpectHeader?
    ensures Parse(p, CRLF + rest) ==
            Parse(p.(status := ExpectBody, out := p.out + [Begin(p.header)], used := p.used + 2), rest)
  {
    hide Parse, ApplyLine;
    var v := CRLF + rest;
    assert v[0..][..2] == CRLF;
    FindIs(v, CRLF, 0, 0);
    HeaderRun(p, v);
    assert v[2..] == rest;
  }

  /** The content and the delimiter behind it. */
  lemma ReadContent(p: Parser, content: string, rest: string)
    requires !Dead(p) && p.status.ExpectBody? && '\r' !in p.boundary
    requires Find(content, CrlfDashBoundary(p.boundary), 0).None?
    ensures var d := CrlfDashBoundary(p.boundary);
            Parse(p, content + d + rest) == Parse(AfterPart(p, content, |d|), rest)
  {
    hide Parse, Find, CrlfDashBoundary, Bytes;
    var d := CrlfDashBoundary(p.boundary);
    var v := content + d + rest;
    ContentEnds(p.boundary, content, rest);
    DelimiterFound(p, v, |content|);
    assert v[..|content|] == content && v[|content| + |d|..] == rest;
  }

  function TypeLength(e: Entry): nat {
    if e.File? && e.mime.Some? then |"content-type" + ": " + e.mime.value| else 0
  }

  /** The length of the longest header line of `e`. */
  function LongestLine(e: Entry): nat {
    Max(|DispositionLine(e)|, TypeLength(e))
  }

  /** The machine right behind the blank line of `e`. */
  function AtContent(p: Parser, e: Entry): Parser {
    p.(status := ExpectBody, header := HeaderOf(e), out := p.out + [Begin(HeaderOf(e))],
       longest := Max(p.longest, LongestLine(e)),
       used := p.used + |DispositionLine(e) + CRLF + TypeLine(e) + CRLF|)
  }

  lemma ReadHeaders(p: Parser, e: Entry, rest: string)
    requires !Dead(p) && p.status.ExpectHeader? && p.header == NO_HEADER
    requires Printable(p.boundary, e)
    ensures Parse(p, DispositionLine(e) + CRLF + TypeLine(e) + CRLF + rest) == Parse(AtContent(p, e), rest)
  {
    hide Parse, ApplyLine, Tidy, DispositionLine, Find;
    var line := DispositionLine(e);
    DispositionIsLine(p.boundary, e);
    ReadDisposition(p.boundary, e);
    var p1 := p.(header := HeaderOf(e).(contentType := ""), used := p.used + (|line| + 2),
                 longest := Max(p.longest, |line|));
    ReadLine(p, line, p1.header, TypeLine(e) + CRLF + rest);
    assert line + CRLF + TypeLine(e) + CRLF + rest == line + CRLF + (TypeLine(e) + CRLF + rest);
    var p2 := p1.(header := HeaderOf(e), used := p1.used + |TypeLine(e)|,
                  longest := Max(p1.longest, TypeLength(e)));
    ReadTypeLine(p1, e, CRLF + rest);
    assert TypeLine(e) + (CRLF + rest) == TypeLine(e) + CRLF + rest;
    ReadBlank(p2, rest);
  }

  lemma ReadTypeLine(p: Parser, e: Entry, rest: string)
    requires !Dead(p) && p.status.ExpectHeader? && p.header == HeaderOf(e).(contentType := "")
    requires Printable(p.boundary, e)
    ensures Parse(p, TypeLine(e) + rest) ==
            Parse(p.(header := HeaderOf(e), used := p.used + |TypeLine(e)|,
                     longest := Max(p.longest, TypeLength(e))), rest)
  {
    hide Parse, ApplyLine, Find;
    if e.File? && e.mime.Some? {
      var line := "content-type" + ": " + e.mime.value;
      assert OneLine(line) && line[|line| - 1] != '\r';
      ReadType(p.header, e.mime.value);
      ReadLine(p, line, HeaderOf(e), rest);
    } else {
      assert TypeLine(e) + rest == rest;
    }
  }

  // The whole body.

  /** The text behind a boundary, when `es` are still to come. */
  function Tail(boundary: string, es: seq<Entry>): string {
    if es == [] then DASH
    else CRLF + Inner(es[0]) + CrlfDashBoundary(boundary) + Tail(boundary, es[1..])
  }

  lemma {:induction false} BodyIsTail(boundary: string, es: seq<Entry>)
    ensures PrintBody(boundary, es) == DASH + boundary + Tail(boundary, es)
    decreases |es|
  {
    hide Inner;
    if es == [] {
      assert PrintBody(boundary, es) == DASH + boundary + DASH;
    } else {
      BodyIsTail(boundary, es[1..]);
      BodyCons(boundary, Inner(es[0]), PrintEntries(boundary, es[1..]), Tail(boundary, es[1..]));
    }
  }

  lemma BodyCons(boundary: string, inner: string, entries: string, tail: string)
    requires entries + DASH + boundary + DASH == DASH + boundary + tail
    ensures DASH + boundary + CRLF + inner + CRLF + entries + DASH + boundary + DASH
         == DASH + boundary + (CRLF + inner + CrlfDashBoundary(boundary) + tail)
  {
    var front := DASH + boundary + CRLF + inner + CRLF;
    assert front + entries + DASH + boundary + DASH == front + (entries + DASH + boundary + DASH);
    assert front + (DASH + boundary + tail) == DASH + boundary + (CRLF + inner + CrlfDashBoundary(boundary) + tail);
  }

  /** The machine behind the delimiter of `e`. */
  function AfterEntry(p: Parser, e: Entry): Parser {
    AfterPart(AtContent(p, e), Content(e), |CrlfDashBoundary(p.boundary)|)
  }

  /** One entry, from the machine's new-entry state to its end. */
  lemma ReadEntry(p: Parser, e: Entry, rest: string)
    requires !Dead(p) && p.status.ExpectNewEntry? && '\r' !in p.boundary
    requires Printable(p.boundary, e)
    ensures Parse(p, Inner(e) + CrlfDashBoundary(p.boundary) + rest) ==
            Parse(AfterEntry(p, e), rest)
  {
    hide Parse, Find, CrlfDashBoundary, DispositionLine, TypeLine, Bytes;
    var d := CrlfDashBoundary(p.boundary);
    var v := Inner(e) + d + rest;
    var p1 := p.(status := ExpectHeader, header := NO_HEADER);
    ParseStep(p, v);
    assert v[0..] == v;
    var head := DispositionLine(e) + CRLF + TypeLine(e) + CRLF;
    assert v == head + (Content(e) + d + rest);
    ReadHeaders(p1, e, Content(e) + d + rest);
    ReadContent(AtContent(p1, e), Content(e), rest);
    assert AtContent(p1, e) == AtContent(p, e);
  }

  function PartOf(e: Entry): Part { Part(HeaderOf(e), Content(e)) }

  function PartsFor(es: seq<Entry>): (r: seq<Part>)
    ensures |r| == |es| && forall i :: 0 <= i < |es| ==> r[i] == PartOf(es[i])
  {
    if es == [] then [] else [PartOf(es[0])] + PartsFor(es[1..])
  }

  /** The parts the user has seen, all of them whole. */
  predicate Seen(p: Parser, done: seq<Part>) {
    PartsOf(p.out) == Parts(done, None)
  }

  lemma {:induction false} BytesGrow(out: seq<Event>, done: seq<Part>, part: Part, data: string)
    requires PartsOf(out) == Parts(done, Some(part))
    ensures PartsOf(out + Bytes(data)) == Parts(done, Some(part.(content := part.content + data)))
    decreases |data|
  {
    if data == "" {
      assert out + [] == out && part.content + "" == part.content;
    } else {
      var n := |data| - 1;
      BytesGrow(out, done, part, data[..n]);
      PartsOfAppend(out + Bytes(data[..n]), Byte(data[n]));
      assert out + Bytes(data[..n]) + [Byte(data[n])] == out + Bytes(data);
      assert part.content + data[..n] + [data[n]] == part.content + data;
    }
  }

  /** Reading an entry adds exactly its part. */
  lemma EntrySeen(p: Parser, e: Entry, done: seq<Part>)
    requires Seen(p, done)
    ensures Seen(AfterEntry(p, e), done + [PartOf(e)])
  {
    hide Bytes, PartsOf, CrlfDashBoundary, DispositionLine, TypeLine, LongestLine;
    PartsOfAppend(p.out, Begin(HeaderOf(e)));
    BytesGrow(p.out + [Begin(HeaderOf(e))], done, Part(HeaderOf(e), ""), Content(e));
    assert "" + Content(e) == Content(e);
    PartsOfAppend(AtContent(p, e).out + Bytes(Content(e)), End);
  }

  lemma EntryFacts(p: Parser, e: Entry)
    ensures var q := AfterEntry(p, e);
            Dead(q) == Dead(p) && q.status.ExpectEndOrNewEntry? && q.boundary == p.boundary &&
            q.longest == Max(p.longest, LongestLine(e))
  {
  }

  /** The end of a successful read. */
  predicate Complete(p: Parser, done: seq<Part>, longest: nat) {
    p.finished && p.valid && Seen(p, done) && p.longest <= longest
  }

  lemma {:induction false} ReadTail(p: Parser, es: seq<Entry>, done: seq<Part>, longest: nat)
    requires !Dead(p) && p.status.ExpectEndOrNewEntry? && '\r' !in p.boundary
    requires Seen(p, done) && p.longest <= longest
    requires forall e :: e in es ==> Printable(p.boundary, e) && LongestLine(e) <= longest
    ensures Complete(Parse(p, Tail(p.boundary, es)).state, done + PartsFor(es), longest)
    decreases |es|
  {
    hide Parse, Inner, CrlfDashBoundary, PartsOf, Bytes, Printable, LongestLine, AfterPart;
    EndRun(p, Tail(p.boundary, es));
    if es == [] {
      assert DASH[..2] == DASH && DASH[0] != CRLF[0];
      assert done + [] == done;
    } else {
      var b := p.boundary;
      var text := Inner(es[0]) + CrlfDashBoundary(b) + Tail(b, es[1..]);
      assert Tail(b, es) == CRLF + text;
      assert (CRLF + text)[..2] == CRLF && (CRLF + text)[2..] == text;
      var q := p.(used := p.used + 2, status := ExpectNewEntry);
      ReadEntryAndOn(q, es, done, longest);
    }
  }

  lemma {:induction false} ReadEntryAndOn(q: Parser, es: seq<Entry>, done: seq<Part>, longest: nat)
    requires !Dead(q) && q.status.ExpectNewEntry? && '\r' !in q.boundary && es != []
    requires Seen(q, done) && q.longest <= longest
    requires forall e :: e in es ==> Printable(q.boundary, e) && LongestLine(e) <= longest
    ensures Complete(Parse(q, Inner(es[0]) + CrlfDashBoundary(q.boundary) + Tail(q.boundary, es[1..])).state,
                     done + PartsFor(es), longest)
    decreases |es|, 0
  {
    hide Parse, Inner, CrlfDashBoundary, Printable, LongestLine, AfterEntry, Seen, Complete, Tail;
    ReadEntry(q, es[0], Tail(q.boundary, es[1..]));
    EntrySeen(q, es[0], done);
    EntryFacts(q, es[0]);
    ReadTail(AfterEntry(q, es[0]), es[1..], done + [PartOf(es[0])], longest);
    assert done + [PartOf(es[0])] + PartsFor(es[1..]) == done + PartsFor(es);
  }

  lemma OpeningText(boundary: string, a: string, b: string, c: string)
    ensures DASH + boundary + (CRLF + a + b + c) == DashBoundaryCrlf(boundary) + (a + b + c)
  {
    assert CRLF + a + b + c == CRLF + (a + b + c);
  }

  lemma BodyOpens(boundary: string, es: seq<Entry>)
    requires es != []
    ensures PrintBody(boundary, es) ==
            DashBoundaryCrlf(boundary) + (Inner(es[0]) + CrlfDashBoundary(boundary) + Tail(boundary, es[1..]))
  {
    BodyIsTail(boundary, es);
    OpeningText(boundary, Inner(es[0]), CrlfDashBoundary(boundary), Tail(boundary, es[1..]));
    hide Inner, CrlfDashBoundary, PrintBody, DashBoundaryCrlf;
  }

  /** The opening boundary is consumed. */
  lemma OpeningRead(boundary: string, text: string)
    ensures var d := DashBoundaryCrlf(boundary);
            Parse(Init(boundary), d + text) == Parse(Init(boundary).(used := |d|, status := ExpectNewEntry), text)
  {
    hide Parse, Find;
    var d := DashBoundaryCrlf(boundary);
    var v := d + text;
    assert v[0..][..|d|] == d;
    FindIs(v, d, 0, 0);
    FirstBoundaryFound(Init(boundary), v, 0);
    assert v[|d|..] == text;
  }

  /** What an upload of at least one entry prints is read back entry by entry: the same
      names, file names, content types and contents, in order, and a clean end. */
  lemma RoundTrip(boundary: string, es: seq<Entry>, longest: nat)
    requires '\r' !in boundary && es != []
    requires forall e :: e in es ==> Printable(boundary, e) && LongestLine(e) <= longest
    ensures Complete(Parse(Init(boundary), PrintBody(boundary, es)).state, PartsFor(es), longest)
  {
    hide Parse, Inner, CrlfDashBoundary, Printable, LongestLine, Complete, Tail, PartsFor, DashBoundaryCrlf, PrintBody;
    var d := DashBoundaryCrlf(boundary);
    BodyOpens(boundary, es);
    OpeningRead(boundary, Inner(es[0]) + CrlfDashBoundary(boundary) + Tail(boundary, es[1..]));
    ReadEntryAndOn(Init(boundary).(used := |d|, status := ExpectNewEntry), es, [], longest);
    assert [] + PartsFor(es) == PartsFor(es);
  }

  /** An upload of nothing prints only a closing boundary, which is not read as an end. */
  lemma NothingPrinted(boundary: string)
    ensures Parse(Init(boundary), PrintBody(boundary, [])) == Config(Init(boundary), PrintBody(boundary, []))
  {
    var v := PrintBody(boundary, []);
    assert v == DASH + boundary + DASH;
    assert v[|boundary| + 2] == '-' != DashBoundaryCrlf(boundary)[|boundary| + 2];
    ParseStep(Init(boundary), v);
  }

  // The round trip through any cut.

  /** However the printed body is cut on its way, the parser, length guard included,
      gives every entry back, as long as no printed header line reaches 60 KiB. */
  lemma RoundTripAnyCut(boundary: string, es: seq<Entry>, pieces: seq<string>)
    requires '\r' !in boundary && es != []
    requires forall e :: e in es ==> Printable(boundary, e) && LongestLine(e) < MAX_HEADER
    requires Concat(pieces) == PrintBody(boundary, es)
    ensures Complete(ParsePieces(Config(Init(boundary), ""), pieces).state, PartsFor(es), MAX_HEADER - 1)
  {
    hide Parse, ParsePieces, LinesFit, Printable, LongestLine, PrintBody, PartsFor, PartsOf, Concat;
    RoundTrip(boundary, es, MAX_HEADER - 1);
    var c := Config(Init(boundary), "");
    assert "" + Concat(pieces) == Concat(pieces);
    assert Step(c.state, c.rest).Wait?;
    CutInvarianceShortLines(c, pieces);
  }
}
