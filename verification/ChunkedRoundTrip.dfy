/** Both parsers decode what the chunk encoder writes. */
module ChunkedRoundTrip {
  import opened Text
  import opened Numerals
  import opened Resumable
  import opened ChunkedCoding
  import Res = ResponseModel
  import Req = RequestModel

  /** One call of the encoder: the size of its buffer and the bytes it was supplied. */
  datatype Call = Call(size: nat, data: string)

  predicate GoodCall(c: Call) {
    Usable(c.size) && c.data != "" && |c.data| + NeededDigits(c.size) + 4 <= c.size
  }

  /** The bytes on the wire: one chunk a call, then the terminal chunk. */
  function Wire(calls: seq<Call>): string {
    if calls == [] then LAST_CHUNK else Encoded(calls[0].size, calls[0].data) + Wire(calls[1..])
  }

  /** The bytes that were meant. */
  function Data(calls: seq<Call>): string {
    if calls == [] then "" else calls[0].data + Data(calls[1..])
  }

  /** A chunk as text: its size in hexadecimal digits, small or capital, with or without zeros
      in front, and its bytes. */
  datatype Chunk = Chunk(size: string, data: string)

  predicate GoodChunk(c: Chunk) {
    && 0 < |c.size| <= 16 && (forall i :: 0 <= i < |c.size| ==> IsHex(c.size[i]))
    && HexValue(c.size) == |c.data| && 0 < |c.data| <= Req.LONG_MAX
  }

  predicate AllGood(chunks: seq<Chunk>) { forall i :: 0 <= i < |chunks| ==> GoodChunk(chunks[i]) }

  function ChunkText(c: Chunk): string { c.size + CRLF + c.data + CRLF }

  function ChunksText(chunks: seq<Chunk>): string {
    if chunks == [] then LAST_CHUNK else ChunkText(chunks[0]) + ChunksText(chunks[1..])
  }

  function ChunksData(chunks: seq<Chunk>): string {
    if chunks == [] then "" else chunks[0].data + ChunksData(chunks[1..])
  }

  /** The encoder's calls as chunks. */
  function ChunkOf(c: Call): Chunk { Chunk(PaddedHex(NeededDigits(c.size), |c.data|), c.data) }

  function ChunksOf(calls: seq<Call>): seq<Chunk> {
    if calls == [] then [] else [ChunkOf(calls[0])] + ChunksOf(calls[1..])
  }

  lemma {:induction false} WireIsChunks(calls: seq<Call>)
    requires forall call :: call in calls ==> GoodCall(call)
    ensures AllGood(ChunksOf(calls)) && ChunksText(ChunksOf(calls)) == Wire(calls) && ChunksData(ChunksOf(calls)) == Data(calls)
  {
    if calls != [] {
      WireIsChunks(calls[1..]);
      SizeLine(calls[0]);
      CallIsSmall(calls[0]);
      assert ChunksOf(calls)[1..] == ChunksOf(calls[1..]);
      hide PaddedHex, NeededDigits, HexValue, GoodCall;
    }
  }

  lemma CallIsSmall(c: Call)
    requires GoodCall(c)
    ensures 0 < |c.data| <= Req.LONG_MAX
  {
    hide NeededDigits;
  }

  /** A body as it is sent: as it is, or in chunks. */
  datatype Payload = Plain(data: string) | InChunks(chunks: seq<Chunk>)

  function PayloadText(p: Payload): string {
    match p case Plain(data) => data case InChunks(chunks) => ChunksText(chunks)
  }

  function Meant(p: Payload): string {
    match p case Plain(data) => data case InChunks(chunks) => ChunksData(chunks)
  }

  lemma HexLineEnds(size: string, rest: string)
    requires forall i :: 0 <= i < |size| ==> IsHex(size[i])
    ensures Find(size + CRLF + rest, CRLF, 0) == Some(|size|)
    ensures (size + CRLF + rest)[..|size|] == size && (size + CRLF + rest)[|size| + 2..] == rest
  {
    var v := size + CRLF + rest;
    forall j | 0 <= j < |size| ensures !StartsWith(v[j..], CRLF) {
      assert v[j..][0] == v[j] == size[j] != '\r';
    }
    assert v[|size|..][..2] == CRLF;
    FindIs(v, CRLF, 0, |size|);
  }

  /** The size line of a chunk says how many bytes follow. */
  lemma SizeLine(c: Call)
    requires GoodCall(c)
    ensures var size := PaddedHex(NeededDigits(c.size), |c.data|);
            HexRun(size) == |size| > 0 && size[..|size|] == size && HexValue(size) == |c.data| && |size| <= 9
  {
    UsableSize(c.size);
    DigitsSuffice(c.size);
    PaddedHexReads(NeededDigits(c.size), |c.data|);
    var size := PaddedHex(NeededDigits(c.size), |c.data|);
    HexRunAll(size, "");
    assert size + "" == size;
  }

  lemma ZeroLine()
    ensures HexRun("0") == 1 && HexValue("0"[..1]) == 0 && "0"[..1] == "0"
    ensures LAST_CHUNK == "0" + CRLF + CRLF
  {
    assert "0"[1..] == "" && "0"[..0] == "";
  }

  // The response parser.

  function GotData(c: Res.Client, data: string, used: nat): Res.Client {
    c.(response := c.response.(body := c.response.body + data), chunk := 0, used := c.used + used)
  }

  lemma ResponseSize(c: Res.Client, size: string, rest: string)
    requires c.failed.None? && c.heads != [] && c.status.ExpectChunkLen?
    requires HexRun(size) == |size| > 0 && HexValue(size[..|size|]) <= SIZE_MAX
    ensures var n := HexValue(size[..|size|]);
            Res.Receive(c, size + CRLF + rest) ==
            Res.Receive(c.(chunk := n, used := c.used + (|size| + 2),
                           status := if n != 0 then Res.ExpectChunkBody else Res.ExpectLastEmptyChunk), rest)
  {
    hide Res.Receive, Find, HexRun, HexValue;
    var v := size + CRLF + rest;
    HexLineEnds(size, rest);
    Res.ReceiveStep(c, v);
    assert Res.Step(c, v) == Res.ChunkLenStep(c, v);
  }

  lemma ResponseData(c: Res.Client, data: string, rest: string)
    requires c.failed.None? && c.heads != [] && c.status.ExpectChunkBody? && c.chunk == |data|
    ensures Res.Receive(c, data + CRLF + rest) ==
            Res.Receive(GotData(c, data, |data| + 2).(status := Res.ExpectChunkLen), rest)
  {
    hide Res.Receive;
    var w := data + CRLF + rest;
    assert w[|data|..|data| + 2] == CRLF && w[..|data|] == data && w[|data| + 2..] == rest;
    Res.ReceiveStep(c, w);
    assert Res.Step(c, w) == Res.ChunkBodyStep(c, w);
  }

  lemma ResponseChunk(c: Res.Client, chunk: Chunk, rest: string)
    requires c.failed.None? && c.heads != [] && c.status.ExpectChunkLen? && GoodChunk(chunk)
    ensures var text := ChunkText(chunk);
            Res.Receive(c, text + rest) == Res.Receive(GotData(c, chunk.data, |text|), rest)
  {
    hide Res.Receive, HexRun, HexValue;
    var size, data := chunk.size, chunk.data;
    HexRunAll(size, "");
    assert size + "" == size && size[..|size|] == size;
    var v := size + CRLF + (data + CRLF + rest);
    assert ChunkText(chunk) + rest == v;
    ResponseSize(c, size, data + CRLF + rest);
    ResponseData(c.(chunk := |data|, status := Res.ExpectChunkBody, used := c.used + (|size| + 2)), data, rest);
  }

  lemma ResponseLastChunk(c: Res.Client, rest: string)
    requires c.failed.None? && c.heads != [] && c.status.ExpectChunkLen?
    ensures Res.Receive(c, LAST_CHUNK + rest) == Res.Receive(Res.Deliver(ReceivedResponse(c, "", 5)), rest)
  {
    hide Res.Receive, Find, Res.Unchunk, HexRun, HexValue;
    ZeroLine();
    assert LAST_CHUNK + rest == "0" + CRLF + (CRLF + rest);
    ResponseSize(c, "0", CRLF + rest);
    HexLineEnds("", rest);
    assert "" + CRLF + rest == CRLF + rest;
    var d := c.(chunk := 0, status := Res.ExpectLastEmptyChunk, used := c.used + 3);
    Res.ReceiveStep(d, CRLF + rest);
    assert Res.Step(d, CRLF + rest) == Res.LastChunkStep(d, CRLF + rest);
    assert c.response.body + "" == c.response.body;
  }

  lemma {:induction false} ResponseReadsChunks(c: Res.Client, chunks: seq<Chunk>, rest: string)
    requires c.failed.None? && c.heads != [] && c.status.ExpectChunkLen? && AllGood(chunks)
    ensures Res.Receive(c, ChunksText(chunks) + rest) ==
            Res.Receive(Res.Deliver(ReceivedResponse(c, ChunksData(chunks), |ChunksText(chunks)|)), rest)
    decreases |chunks|
  {
    hide Res.Receive, ChunkText, Res.Unchunk, GoodChunk, Res.Deliver;
    if chunks == [] {
      ResponseLastChunk(c, rest);
    } else {
      var text := ChunkText(chunks[0]);
      ResponseChunk(c, chunks[0], ChunksText(chunks[1..]) + rest);
      assert ChunksText(chunks) + rest == text + (ChunksText(chunks[1..]) + rest);
      var d := GotData(c, chunks[0].data, |text|);
      ResponseReadsChunks(d, chunks[1..], rest);
      assert d.response.body + ChunksData(chunks[1..]) == c.response.body + ChunksData(chunks);
    }
  }

  /** The response machine reads the wire bytes back to the data and delivers. */
  lemma ResponseDecodes(c: Res.Client, calls: seq<Call>, rest: string)
    requires c.failed.None? && c.heads != [] && c.status.ExpectChunkLen?
    requires forall call :: call in calls ==> GoodCall(call)
    ensures Res.Receive(c, Wire(calls) + rest) ==
            Res.Receive(Res.Deliver(ReceivedResponse(c, Data(calls), |Wire(calls)|)), rest)
  {
    hide Res.Receive, GoodCall, Res.Deliver, ReceivedResponse;
    WireIsChunks(calls);
    ResponseReadsChunks(c, ChunksOf(calls), rest);
  }

  /** The client about to deliver the response it was reading, with `data` added to its body. */
  function ReceivedResponse(c: Res.Client, data: string, used: nat): Res.Client {
    c.(response := Res.Unchunk(c.response.(body := c.response.body + data)), chunk := 0, used := c.used + used)
  }

  /** However the wire bytes are cut, the response delivered has exactly the data behind
      what its body already held, and a content-length that says so. */
  lemma ResponseRoundTrip(c: Res.Client, calls: seq<Call>, pieces: seq<string>)
    requires c.failed.None? && c.heads != [] && c.status.ExpectChunkLen?
    requires forall call :: call in calls ==> GoodCall(call)
    requires Concat(pieces) == Wire(calls)
    ensures var d := Res.ReceivePieces(Config(c, ""), pieces);
            d.state == Res.Deliver(ReceivedResponse(c, Data(calls), |Wire(calls)|)) && d.rest == ""
  {
    var e := Res.Deliver(ReceivedResponse(c, Data(calls), |Wire(calls)|));
    assert Res.Step(c, "").Wait? && Res.Step(e, "").Wait?;
    hide Wire, Data, Concat;
    Res.CutInvariance(Config(c, ""), pieces);
    ResponseDecodes(c, calls, "");
    assert "" + Concat(pieces) == Wire(calls) + "";
    Res.ReceiveStep(e, "");
  }

  // The request parser.

  function GotRequestData(s: Req.Server, data: string, used: nat): Req.Server {
    s.(request := s.request.(body := s.request.body + data), remain := s.remain + |data|, chunk := 0,
       used := s.used + used)
  }

  lemma RequestSize(s: Req.Server, size: string, rest: string)
    requires s.failed.None? && s.status.ExpectChunkLen? && |size| <= 16
    requires HexRun(size) == |size| > 0 && HexValue(size[..|size|]) <= Req.LONG_MAX
    ensures var n := HexValue(size[..|size|]);
            Req.Receive(s, size + CRLF + rest) ==
            if n != 0 && n + s.remain > s.maxBody then
              Config(s.(chunk := n, failed := Some(413)), size + CRLF + rest)
            else
              Req.Receive(s.(chunk := n, used := s.used + (|size| + 2),
                             status := if n != 0 then Req.ExpectChunkBody else Req.ExpectLastEmptyChunk), rest)
  {
    hide Req.Receive, Find, HexRun, HexValue;
    var v := size + CRLF + rest;
    HexLineEnds(size, rest);
    Req.ReceiveStep(s, v);
    assert Req.Step(s, v) == Req.ChunkLenStep(s, v);
    assert v[0..] == v;
    Req.ReceiveStep(s.(chunk := HexValue(size[..|size|]), failed := Some(413)), v);
  }

  lemma RequestData(s: Req.Server, data: string, rest: string)
    requires s.failed.None? && s.status.ExpectChunkBody? && s.chunk == |data|
    ensures Req.Receive(s, data + CRLF + rest) ==
            Req.Receive(GotRequestData(s, data, |data| + 2).(status := Req.ExpectChunkLen), rest)
  {
    hide Req.Receive;
    var w := data + CRLF + rest;
    assert w[|data|..|data| + 2] == CRLF && w[..|data|] == data && w[|data| + 2..] == rest;
    Req.ReceiveStep(s, w);
    assert Req.Step(s, w) == Req.ChunkBodyStep(s, w);
  }

  lemma RequestChunk(s: Req.Server, chunk: Chunk, rest: string)
    requires s.failed.None? && s.status.ExpectChunkLen? && GoodChunk(chunk)
    ensures var text := ChunkText(chunk);
            if |chunk.data| + s.remain > s.maxBody then
              Req.Receive(s, text + rest) == Config(s.(chunk := |chunk.data|, failed := Some(413)), text + rest)
            else
              Req.Receive(s, text + rest) == Req.Receive(GotRequestData(s, chunk.data, |text|), rest)
  {
    hide Req.Receive, HexRun, HexValue;
    var size, data := chunk.size, chunk.data;
    HexRunAll(size, "");
    assert size + "" == size && size[..|size|] == size;
    var v := size + CRLF + (data + CRLF + rest);
    assert ChunkText(chunk) + rest == v;
    RequestSize(s, size, data + CRLF + rest);
    RequestData(s.(chunk := |data|, status := Req.ExpectChunkBody, used := s.used + (|size| + 2)), data, rest);
  }

  /** The server about to deliver the request it was reading, with `data` added to its body. */
  function ReceivedRequest(s: Req.Server, data: string, used: nat): Req.Server {
    s.(request := Req.Unchunk(s.request.(body := s.request.body + data)), chunk := 0, used := s.used + used)
  }

  lemma RequestLastChunk(s: Req.Server, rest: string)
    requires s.failed.None? && s.status.ExpectChunkLen?
    ensures Req.Receive(s, LAST_CHUNK + rest) == Req.Receive(Req.Deliver(ReceivedRequest(s, "", 5)), rest)
  {
    hide Req.Receive, Req.Unchunk, HexRun, HexValue;
    ZeroLine();
    assert LAST_CHUNK + rest == "0" + CRLF + (CRLF + rest);
    RequestSize(s, "0", CRLF + rest);
    var d := s.(chunk := 0, status := Req.ExpectLastEmptyChunk, used := s.used + 3);
    assert (CRLF + rest)[..2] == CRLF && (CRLF + rest)[2..] == rest;
    Req.ReceiveStep(d, CRLF + rest);
    assert Req.Step(d, CRLF + rest) == Req.LastChunkStep(d, CRLF + rest);
    assert s.request.body + "" == s.request.body;
  }

  lemma {:induction false} RequestReadsChunks(s: Req.Server, chunks: seq<Chunk>, rest: string)
    requires s.failed.None? && s.status.ExpectChunkLen? && s.remain <= s.maxBody && AllGood(chunks)
    ensures if s.remain + |ChunksData(chunks)| <= s.maxBody then
              Req.Receive(s, ChunksText(chunks) + rest) ==
              Req.Receive(Req.Deliver(ReceivedRequest(s, ChunksData(chunks), |ChunksText(chunks)|)), rest)
            else
              var r := Req.Receive(s, ChunksText(chunks) + rest).state;
              r.failed == Some(413) && r.done == s.done
    decreases |chunks|
  {
    hide Req.Receive, ChunkText, Req.Unchunk, GoodChunk;
    if chunks == [] {
      RequestLastChunk(s, rest);
    } else {
      var text := ChunkText(chunks[0]);
      RequestChunk(s, chunks[0], ChunksText(chunks[1..]) + rest);
      assert ChunksText(chunks) + rest == text + (ChunksText(chunks[1..]) + rest);
      if |chunks[0].data| + s.remain <= s.maxBody {
        var d := GotRequestData(s, chunks[0].data, |text|);
        RequestReadsChunks(d, chunks[1..], rest);
        assert d.request.body + ChunksData(chunks[1..]) == s.request.body + ChunksData(chunks);
      }
    }
  }

  /** The request machine reads the wire bytes back to the data, or refuses them with 413
      exactly when the body would exceed its limit. */
  lemma RequestDecodes(s: Req.Server, calls: seq<Call>, rest: string)
    requires s.failed.None? && s.status.ExpectChunkLen? && s.remain <= s.maxBody
    requires forall call :: call in calls ==> GoodCall(call)
    ensures if s.remain + |Data(calls)| <= s.maxBody then
              Req.Receive(s, Wire(calls) + rest) ==
              Req.Receive(Req.Deliver(ReceivedRequest(s, Data(calls), |Wire(calls)|)), rest)
            else
              var r := Req.Receive(s, Wire(calls) + rest).state;
              r.failed == Some(413) && r.done == s.done
  {
    hide Req.Receive, GoodCall, Req.Deliver, ReceivedRequest;
    WireIsChunks(calls);
    RequestReadsChunks(s, ChunksOf(calls), rest);
  }

  /** However the wire bytes of a body within the limit are cut, the server's parser,
      length limits included, delivers exactly the data. */
  lemma RequestRoundTrip(s: Req.Server, calls: seq<Call>, pieces: seq<string>)
    requires s.failed.None? && s.status.ExpectChunkLen?
    requires forall call :: call in calls ==> GoodCall(call)
    requires s.remain + |Data(calls)| <= s.maxBody
    requires Concat(pieces) == Wire(calls)
    ensures var d := Req.ReceivePieces(Config(s, ""), pieces);
            d.state == Req.Deliver(ReceivedRequest(s, Data(calls), |Wire(calls)|)) && d.rest == ""
  {
    var e := Req.Deliver(ReceivedRequest(s, Data(calls), |Wire(calls)|));
    assert Req.Step(s, "").Wait? && Req.Step(e, "").Wait?;
    hide Wire, Data, Concat;
    RequestDecodes(s, calls, "");
    assert "" + Concat(pieces) == Wire(calls) + "";
    Req.ReceiveStep(e, "");
    Req.CutInvarianceShortLines(Config(s, ""), pieces);
  }

  // The length that replaces the chunks.

  /** A decoded message carries the length of its body: the parser that decoded it would read
      a message with those headers as having a body of just that length. */
  lemma ResponseLength(r: Res.Response)
    requires |r.body| <= SIZE_MAX
    ensures Res.FramingOf(Res.Unchunk(r)) == Res.Length(|r.body|)
  {
    StoullDecimal(|r.body|);
  }

  lemma RequestLength(r: Req.Request)
    requires |r.body| <= SIZE_MAX
    ensures Req.FramingOf(Req.Unchunk(r)) == if r.body == "" then Req.NoBody(Some(0)) else Req.Length(|r.body|)
  {
    StoullDecimal(|r.body|);
  }
}
