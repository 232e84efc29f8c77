/** `MultipartStreamParser` with its compacting byte buffer, and the stream reader
    that drives it, proved equal to the step machine of `MultipartModel`. */
module MultipartParser {
  import opened Text
  import opened Resumable
  import opened MultipartModel

  /** A byte queue kept in an array between `head` and `tail`. */
  class Buffer {
    var bytes: array<char>
    var head: nat
    var tail: nat

    ghost predicate Valid()
      reads this
    {
      head <= tail <= bytes.Length
    }

    function View(): string
      reads this, bytes
      requires Valid()
    {
      bytes[head..tail]
    }

    function Size(): nat
      reads this
      requires Valid()
    {
      tail - head
    }

    constructor ()
      ensures Valid() && View() == "" && fresh(bytes)
    {
      bytes := new char[0];
      head, tail := 0, 0;
    }

    /** Shift what is held to the front of the array. */
    method MoveToFront()
      requires Valid()
      modifies this, bytes
      ensures Valid() && head == 0 && bytes == old(bytes)
      ensures View() == old(View())
    {
      var remain := tail - head;
      if remain > 0 && head > 0 {
        ghost var held := View();
        for i := 0 to remain
          invariant head == old(head) && tail == old(tail) && bytes == old(bytes)
          invariant forall j :: 0 <= j < i ==> bytes[j] == held[j]
          invariant forall k :: head + i <= k < tail ==> bytes[k] == held[k - head]
        {
          bytes[i] := bytes[head + i];
        }
      }
      head := 0;
      tail := remain;
    }

    /** Make room for `size` bytes, keeping those held. */
    method Resize(size: nat)
      requires Valid() && head == 0 && tail <= size
      modifies this
      ensures Valid() && head == 0 && tail == old(tail) && size <= bytes.Length
      ensures View() == old(View())
      ensures bytes == old(bytes) || fresh(bytes)
    {
      if size > bytes.Length {
        var bigger := new char[size];
        for i := 0 to tail
          invariant head == 0 && tail == old(tail) && bytes == old(bytes)
          invariant forall j :: 0 <= j < i ==> bigger[j] == bytes[j]
        {
          bigger[i] := bytes[i];
        }
        assert bigger[..tail] == bytes[..tail];
        bytes := bigger;
      }
    }

    /** The array behaves as a queue: the new bytes come after those held. */
    method Append(data: string)
      requires Valid()
      modifies this, bytes
      ensures Valid() && View() == old(View()) + data
      ensures bytes == old(bytes) || fresh(bytes)
    {
      MoveToFront();
      Resize(tail + |data|);
      ghost var held := View();
      for i := 0 to |data|
        invariant head == 0 && tail == |held| && tail + |data| <= bytes.Length
        invariant bytes == old(bytes) || fresh(bytes)
        invariant bytes[..tail] == held
        invariant forall j :: 0 <= j < i ==> bytes[tail + j] == data[j]
      {
        bytes[tail + i] := data[i];
      }
      tail := tail + |data|;
      assert bytes[..tail] == held + data;
    }

    method EraseFront(length: nat)
      requires Valid() && length <= Size()
      modifies this`head
      ensures Valid() && View() == old(View())[length..]
    {
      head := head + length;
    }

    method Clear()
      requires Valid()
      modifies this
      ensures Valid() && View() == "" && fresh(bytes)
    {
      bytes := new char[0];
      head, tail := 0, 0;
    }
  }

  /** One callback of the user: a part's header, or a run of its bytes, which is empty
      exactly when it reports the end of the part. */
  datatype Callback = OnHeader(header: Header) | OnData(data: string)

  function Bytes(data: string): seq<Event> {
    if data == "" then [] else Bytes(data[..|data| - 1]) + [Byte(data[|data| - 1])]
  }

  function EventsOf(call: Callback): seq<Event> {
    match call
    case OnHeader(h) => [Begin(h)]
    case OnData(data) => if data == "" then [End] else Bytes(data)
  }

  function Flatten(calls: seq<Callback>): seq<Event> {
    if calls == [] then [] else Flatten(calls[..|calls| - 1]) + EventsOf(calls[|calls| - 1])
  }

  lemma FlattenAppend(calls: seq<Callback>, call: Callback)
    ensures Flatten(calls + [call]) == Flatten(calls) + EventsOf(call)
  {
    assert (calls + [call])[..|calls|] == calls;
  }

  /** Bytes before the first boundary are skipped one by one or all at once. */
  lemma {:induction false} SkipPreamble(p: Parser, v: string, k: nat)
    requires !Dead(p) && p.status.ExpectFirstBoundary?
    requires k + |DashBoundaryCrlf(p.boundary)| <= |v|
    requires forall j :: 0 <= j < k ==> !StartsWith(v[j..], DashBoundaryCrlf(p.boundary))
    ensures MultipartModel.Parse(p, v) == MultipartModel.Parse(p.(used := p.used + k), v[k..])
    decreases k
  {
    if k == 0 {
      assert v[0..] == v;
    } else {
      SkipPreamble(p, v, k - 1);
      var q := p.(used := p.used + (k - 1));
      assert !StartsWith(v[k - 1..], DashBoundaryCrlf(p.boundary));
      ParseStep(q, v[k - 1..]);
      assert v[k - 1..][1..] == v[k..];
      assert q.out + [] == q.out;
    }
  }

  lemma SkipBodyByte(p: Parser, v: string)
    requires !Dead(p) && p.status.ExpectBody?
    requires |v| > |CrlfDashBoundary(p.boundary)| && !StartsWith(v, CrlfDashBoundary(p.boundary))
    ensures MultipartModel.Parse(p, v) ==
            MultipartModel.Parse(p.(used := p.used + 1, out := p.out + [Byte(v[0])]), v[1..])
  {
    ParseStep(p, v);
  }

  /** So are the bytes of a part before its delimiter. */
  lemma {:induction false} SkipBody(p: Parser, v: string, k: nat)
    requires !Dead(p) && p.status.ExpectBody?
    requires k + |CrlfDashBoundary(p.boundary)| <= |v|
    requires forall j :: 0 <= j < k ==> !StartsWith(v[j..], CrlfDashBoundary(p.boundary))
    ensures MultipartModel.Parse(p, v) == MultipartModel.Parse(AfterBytes(p, v[..k]), v[k..])
    decreases k
  {
    if k == 0 {
      assert v[0..] == v && p.out + [] == p.out;
    } else {
      SkipBody(p, v, k - 1);
      var q := AfterBytes(p, v[..k - 1]);
      assert !StartsWith(v[k - 1..], CrlfDashBoundary(p.boundary));
      SkipBodyByte(q, v[k - 1..]);
      assert v[k - 1..][1..] == v[k..];
      AfterOneMore(p, v, k);
    }
  }

  function AfterBytes(p: Parser, data: string): Parser {
    p.(used := p.used + |data|, out := p.out + Bytes(data))
  }

  lemma AfterOneMore(p: Parser, v: string, k: nat)
    requires 0 < k <= |v|
    ensures AfterBytes(p, v[..k]) ==
            var q := AfterBytes(p, v[..k - 1]); q.(used := q.used + 1, out := q.out + [Byte(v[k - 1])])
  {
    assert v[..k][..k - 1] == v[..k - 1];
  }

  // The cases of the source's loop, each as one equation about the machine.

  lemma NoneBefore(v: string, d: string, k: nat)
    requires Find(v, d, 0).None? && k <= |v|
    ensures !StartsWith(v[k..], d)
    ensures forall j :: 0 <= j < k ==> !StartsWith(v[j..], d)
  {
  }

  lemma FirstBoundaryWaits(p: Parser, v: string)
    requires !Dead(p) && p.status.ExpectFirstBoundary?
    requires |v| <= |DashBoundaryCrlf(p.boundary)| && !StartsWith(v, DashBoundaryCrlf(p.boundary))
    ensures MultipartModel.Parse(p, v) == Config(p, v)
  {
    ParseStep(p, v);
  }

  lemma FirstBoundaryMissing(p: Parser, v: string, k: nat)
    requires !Dead(p) && p.status.ExpectFirstBoundary?
    requires k + |DashBoundaryCrlf(p.boundary)| == |v|
    requires !StartsWith(v[k..], DashBoundaryCrlf(p.boundary))
    requires forall j :: 0 <= j < k ==> !StartsWith(v[j..], DashBoundaryCrlf(p.boundary))
    ensures MultipartModel.Parse(p, v) == Config(p.(used := p.used + k), v[k..])
  {
    hide MultipartModel.Parse, DashBoundaryCrlf, StartsWith;
    SkipPreamble(p, v, k);
    FirstBoundaryWaits(p.(used := p.used + k), v[k..]);
  }

  lemma FirstBoundaryFound(p: Parser, v: string, pos: nat)
    requires !Dead(p) && p.status.ExpectFirstBoundary?
    requires Find(v, DashBoundaryCrlf(p.boundary), 0) == Some(pos)
    ensures var d := DashBoundaryCrlf(p.boundary);
            MultipartModel.Parse(p, v) ==
            MultipartModel.Parse(p.(used := p.used + (pos + |d|), status := ExpectNewEntry), v[pos + |d|..])
  {
    hide MultipartModel.Parse, Find, DashBoundaryCrlf;
    var d := DashBoundaryCrlf(p.boundary);
    SkipPreamble(p, v, pos);
    var q := p.(used := p.used + pos);
    ParseStep(q, v[pos..]);
    assert q.out + [] == q.out;
    assert v[pos..][|d|..] == v[pos + |d|..];
  }

  lemma HeaderRun(p: Parser, v: string)
    requires !Dead(p) && p.status.ExpectHeader?
    ensures match Find(v, CRLF, 0)
            case None => MultipartModel.Parse(p, v) == Config(p, v)
            case Some(pos) =>
              if pos == 0 then
                MultipartModel.Parse(p, v) ==
                MultipartModel.Parse(p.(used := p.used + 2, status := ExpectBody, out := p.out + [Begin(p.header)]), v[2..])
              else
                match ApplyLine(p.header, v[..pos])
                case None => MultipartModel.Parse(p, v) == Config(Invalidate(p), v)
                case Some(h) =>
                  MultipartModel.Parse(p, v) ==
                  MultipartModel.Parse(
                    p.(used := p.used + (pos + 2), header := h, longest := Max(p.longest, pos)), v[pos + 2..])
  {
    hide MultipartModel.Parse, ApplyLine;
    ParseStep(p, v);
    ParseStep(Invalidate(p), v);
    assert Step(p, v) == HeaderStep(p, v);
    assert v[0..] == v && p.out + [] == p.out;
  }

  lemma DelimiterWaits(p: Parser, v: string)
    requires !Dead(p) && p.status.ExpectBody?
    requires |v| <= |CrlfDashBoundary(p.boundary)| && !StartsWith(v, CrlfDashBoundary(p.boundary))
    ensures MultipartModel.Parse(p, v) == Config(p, v)
  {
    ParseStep(p, v);
  }

  lemma DelimiterMissing(p: Parser, v: string, k: nat)
    requires !Dead(p) && p.status.ExpectBody?
    requires k + |CrlfDashBoundary(p.boundary)| == |v|
    requires !StartsWith(v[k..], CrlfDashBoundary(p.boundary))
    requires forall j :: 0 <= j < k ==> !StartsWith(v[j..], CrlfDashBoundary(p.boundary))
    ensures MultipartModel.Parse(p, v) == Config(AfterBytes(p, v[..k]), v[k..])
  {
    hide MultipartModel.Parse, CrlfDashBoundary, Bytes, StartsWith;
    SkipBody(p, v, k);
    DelimiterWaits(AfterBytes(p, v[..k]), v[k..]);
  }

  lemma NoBytes(p: Parser)
    ensures AfterBytes(p, "") == p
  {
    assert p.out + [] == p.out;
  }

  lemma DelimiterFound(p: Parser, v: string, pos: nat)
    requires !Dead(p) && p.status.ExpectBody?
    requires Find(v, CrlfDashBoundary(p.boundary), 0) == Some(pos)
    ensures var d := CrlfDashBoundary(p.boundary);
            MultipartModel.Parse(p, v) ==
            MultipartModel.Parse(AfterPart(p, v[..pos], |d|), v[pos + |d|..])
  {
    hide MultipartModel.Parse, Find, CrlfDashBoundary, Bytes;
    var d := CrlfDashBoundary(p.boundary);
    SkipBody(p, v, pos);
    ParseStep(AfterBytes(p, v[..pos]), v[pos..]);
    assert v[pos..][|d|..] == v[pos + |d|..];
  }

  /** The rest of a part and its delimiter of `d` bytes. */
  function AfterPart(p: Parser, data: string, d: nat): Parser {
    p.(used := p.used + (|data| + d), out := p.out + Bytes(data) + [End], status := ExpectEndOrNewEntry)
  }

  lemma EndRun(p: Parser, v: string)
    requires !Dead(p) && p.status.ExpectEndOrNewEntry?
    ensures if |v| < 2 then MultipartModel.Parse(p, v) == Config(p, v)
            else if StartsWith(v, CRLF) then
              MultipartModel.Parse(p, v) ==
              MultipartModel.Parse(p.(used := p.used + 2, status := ExpectNewEntry), v[2..])
            else if StartsWith(v, DASH) then MultipartModel.Parse(p, v) == Config(p.(finished := true), v)
            else MultipartModel.Parse(p, v) == Config(Invalidate(p), v)
  {
    ParseStep(p, v);
    assert v[0..] == v && p.out + [] == p.out;
    ParseStep(Invalidate(p), v);
    ParseStep(p.(finished := true), v);
  }

  /** `isValid_`/`isFinished_` never come back, so a dead parser is asked nothing more;
      see `MultipartStreamReader`. */
  class MultipartStreamParser {
    const boundary: string
    const dashBoundaryCrlf: string
    const crlfDashBoundary: string
    const buffer: Buffer
    var status: Status
    var currentHeader: Header
    var isValid: bool
    var isFinished: bool
    var calls: seq<Callback>
    ghost var used: nat
    ghost var longest: nat

    ghost predicate Valid()
      reads this, buffer
    {
      && buffer.Valid()
      && dashBoundaryCrlf == DashBoundaryCrlf(boundary)
      && crlfDashBoundary == CrlfDashBoundary(boundary)
    }

    /** The machine's state this object stands for. */
    ghost function Model(): Parser
      reads this
    {
      Parser(boundary, status, currentHeader, isValid, isFinished, used, longest, Flatten(calls))
    }

    /** What running the machine from here comes to. */
    ghost function Outlook(): Config<Parser>
      reads this, buffer, buffer.bytes
      requires Valid()
    {
      MultipartModel.Parse(Model(), buffer.View())
    }

    /** This object has done what the run `r` asked of it, length guard included. */
    ghost predicate Settled(r: Config<Parser>)
      reads this, buffer, buffer.bytes
      requires Valid()
    {
      Agree(Config(Model(), buffer.View()), Config(Guard(r.state, r.rest), r.rest))
    }

    constructor (contentType: string)
      ensures Valid() && fresh(buffer) && fresh(buffer.bytes) && buffer.View() == ""
      ensures Model() == ForContentType(contentType)
    {
      var b := BoundaryOf(contentType);
      boundary := if b.Some? then b.value else "";
      dashBoundaryCrlf := DashBoundaryCrlf(if b.Some? then b.value else "");
      crlfDashBoundary := CrlfDashBoundary(if b.Some? then b.value else "");
      isValid := b.Some?;
      isFinished := false;
      status := ExpectFirstBoundary;
      currentHeader := NO_HEADER;
      buffer := new Buffer();
      calls := [];
      used := 0;
      longest := 0;
    }

    /** Drop bytes from the front and account for them. */
    method Consume(length: nat)
      requires Valid() && length <= buffer.Size()
      modifies this`used, buffer`head
      ensures Valid() && used == old(used) + length && buffer.View() == old(buffer.View())[length..]
    {
      buffer.EraseFront(length);
      used := used + length;
    }

    /** Call the user back. */
    method Emit(call: Callback)
      requires Valid()
      modifies this`calls
      ensures Valid() && calls == old(calls) + [call]
      ensures Model() == old(Model()).(out := old(Model()).out + EventsOf(call))
    {
      FlattenAppend(calls, call);
      calls := calls + [call];
    }

    method FirstBoundaryCase() returns (again: bool)
      requires Valid() && !Dead(Model()) && status.ExpectFirstBoundary?
      modifies this, buffer`head
      ensures Valid() && calls == old(calls)
      ensures again ==> !Dead(Model()) && Outlook() == old(Outlook()) && buffer.Size() < old(buffer.Size())
      ensures !again ==> Settled(old(Outlook()))
    {
      hide MultipartModel.Parse, Flatten, Find;
      var v := buffer.View();
      if |v| < |dashBoundaryCrlf| {
        ParseStep(Model(), v);
        return false;
      }
      var pos := Find(v, dashBoundaryCrlf, 0);
      if pos.None? {
        var k := |v| - |dashBoundaryCrlf|;
        NoneBefore(v, dashBoundaryCrlf, k);
        FirstBoundaryMissing(Model(), v, k);
        Consume(k);
        return false;
      }
      FirstBoundaryFound(Model(), v, pos.value);
      Consume(pos.value + |dashBoundaryCrlf|);
      status := ExpectNewEntry;
      return true;
    }

    method NewEntryCase()
      requires Valid() && !Dead(Model()) && status.ExpectNewEntry? && buffer.Size() > 0
      modifies this
      ensures Valid() && calls == old(calls) && status.ExpectHeader?
      ensures !Dead(Model()) && Outlook() == old(Outlook())
    {
      ParseStep(Model(), buffer.View());
      assert buffer.View()[0..] == buffer.View();
      currentHeader := NO_HEADER;
      status := ExpectHeader;
    }

    method HeaderCase() returns (again: bool)
      requires Valid() && !Dead(Model()) && status.ExpectHeader?
      modifies this, buffer`head
      ensures Valid()
      ensures again ==> !Dead(Model()) && Outlook() == old(Outlook()) && buffer.Size() < old(buffer.Size())
      ensures !again ==> Settled(old(Outlook()))
    {
      hide MultipartModel.Parse, Flatten, ApplyLine;
      var v := buffer.View();
      HeaderRun(Model(), v);
      var pos := Find(v, CRLF, 0);
      if pos.None? {
        if |v| > MAX_HEADER {
          isValid := false;
        }
        return false;
      }
      if pos.value == 0 {
        Consume(2);
        status := ExpectBody;
        Emit(OnHeader(currentHeader));
        return true;
      }
      var h := ApplyLine(currentHeader, v[..pos.value]);
      if h.None? {
        isValid := false;
        return false;
      }
      currentHeader := h.value;
      longest := Max(longest, pos.value);
      Consume(pos.value + 2);
      return true;
    }

    method BodyCase() returns (again: bool)
      requires Valid() && !Dead(Model()) && status.ExpectBody?
      modifies this, buffer`head
      ensures Valid()
      ensures again ==> !Dead(Model()) && Outlook() == old(Outlook()) && buffer.Size() < old(buffer.Size())
      ensures !again ==> Settled(old(Outlook()))
    {
      hide MultipartModel.Parse, Flatten, Find, Bytes;
      var v := buffer.View();
      if |v| < |crlfDashBoundary| {
        ParseStep(Model(), v);
        return false;
      }
      var pos := Find(v, crlfDashBoundary, 0);
      if pos.None? {
        // leave what may be the beginning of a delimiter
        var len := |v| - |crlfDashBoundary|;
        NoneBefore(v, crlfDashBoundary, len);
        DelimiterMissing(Model(), v, len);
        if len > 0 {
          Emit(OnData(v[..len]));
          Consume(len);
        } else {
          NoBytes(Model());
          assert v[..0] == "" && v[0..] == v;
        }
        return false;
      }
      EndPart(pos.value);
      return true;
    }

    /** The rest of the data, an empty piece to end the part, and on behind the delimiter. */
    method EndPart(pos: nat)
      requires Valid() && !Dead(Model()) && status.ExpectBody?
      requires Find(buffer.View(), crlfDashBoundary, 0) == Some(pos)
      modifies this, buffer`head
      ensures Valid() && !Dead(Model()) && Outlook() == old(Outlook()) && buffer.Size() < old(buffer.Size())
    {
      hide MultipartModel.Parse, Flatten, Bytes;
      var v := buffer.View();
      DelimiterFound(Model(), v, pos);
      hide Find;
      Emit(OnData(v[..pos]));
      if pos > 0 {
        Emit(OnData(""));
      } else {
        assert v[..0] == "";
        NoBytes(old(Model()));
      }
      Consume(pos + |crlfDashBoundary|);
      status := ExpectEndOrNewEntry;
    }

    method EndCase() returns (again: bool)
      requires Valid() && !Dead(Model()) && status.ExpectEndOrNewEntry?
      modifies this, buffer
      ensures Valid() && calls == old(calls)
      ensures buffer.bytes == old(buffer.bytes) || fresh(buffer.bytes)
      ensures again ==> !Dead(Model()) && Outlook() == old(Outlook()) && buffer.Size() < old(buffer.Size())
      ensures !again ==> Settled(old(Outlook()))
    {
      hide MultipartModel.Parse, Flatten;
      var v := buffer.View();
      EndRun(Model(), v);
      if |v| < 2 {
        return false;
      }
      if StartsWith(v, CRLF) {
        Consume(2);
        status := ExpectNewEntry;
        return true;
      }
      if StartsWith(v, DASH) {
        isFinished := true;
        buffer.Clear();
        return false;
      }
      isValid := false;
      return false;
    }

    /** One pass of the source's `switch`. */
    method Iterate() returns (again: bool)
      requires Valid() && !Dead(Model()) && buffer.Size() > 0
      modifies this, buffer
      ensures Valid() && (buffer.bytes == old(buffer.bytes) || fresh(buffer.bytes))
      ensures again ==> !Dead(Model()) && Outlook() == old(Outlook())
      ensures again ==> buffer.Size() < old(buffer.Size())
                        || (buffer.Size() == old(buffer.Size()) && Rank(Model()) < old(Rank(Model())))
      ensures !again ==> Settled(old(Outlook()))
    {
      hide MultipartModel.Parse, Flatten;
      again := true;
      match status {
        case ExpectFirstBoundary => again := FirstBoundaryCase();
        case ExpectNewEntry => NewEntryCase();
        case ExpectHeader => again := HeaderCase();
        case ExpectBody => again := BodyCase();
        case ExpectEndOrNewEntry => again := EndCase();
      }
    }

    /** One call does what the machine does on the bytes held and the new ones. */
    method Parse(data: string)
      requires Valid() && !Dead(Model())
      modifies this, buffer, buffer.bytes
      ensures Valid() && (buffer.bytes == old(buffer.bytes) || fresh(buffer.bytes))
      ensures Agree(Config(Model(), buffer.View()),
                    ParsePiece(Config(old(Model()), old(buffer.View())), data))
    {
      ghost var target := MultipartModel.Parse(Model(), buffer.View() + data);
      PieceIsGuarded(Config(Model(), buffer.View()), data);
      hide MultipartModel.Parse, ParsePiece, Flatten;
      buffer.Append(data);
      var again := true;
      while again && buffer.Size() > 0
        invariant Valid() && (buffer.bytes == old(buffer.bytes) || fresh(buffer.bytes))
        invariant again ==> !Dead(Model()) && Outlook() == target
        invariant !again ==> Settled(target)
        decreases again, buffer.Size(), Rank(Model())
      {
        again := Iterate();
      }
      if again {
        ParseStep(Model(), buffer.View());
      }
    }
  }

  lemma PieceIsGuarded(c: Config<Parser>, data: string)
    ensures var r := MultipartModel.Parse(c.state, c.rest + data);
            ParsePiece(c, data) == Config(Guard(r.state, r.rest), r.rest)
  {
  }
}
