# drogonR, verified

drogonR serves HTTP and WebSocket traffic from R. An R package (`src/*.cpp`) sits on a
vendored copy of the Drogon C++ framework (`src/drogon`). This project models the parts of
both whose correctness is hardest to see, and proves what they promise.

* **Byte streams.** The multipart parser, the HTTP request and response parsers, the chunk
  encoder and the multipart printer. Results do not depend on how the network cuts the
  bytes; requests, responses and uploads that are printed are read back, or refused for
  stated reasons.
* **Pipelining.** Responses leave in the order their requests came, whoever answers when.
* **The bridge to R.** Three queues on one wake pipe lose no wakeup; every request gets
  exactly one reply, which tells what became of it; streams, WebSocket slots and the reaper
  keep their promises in every interleaving.
* **The HTTP client and request bodies.** Every request is called back once, with the result
  it earned; every reader sees all the bytes.
* **The JSON writer** against a reader written from RFC 8259.
* **Ranges, rates, slashes.** Exact conditions and bounds, in 64-bit and real arithmetic.

Concurrent protocols are state machines: one step is one lock section, one atomic operation,
one loop task or one callback, and the theorems quantify over every run. Code that changes
objects step by step is also written as classes and loops, whose contracts tie them to those
machines. Bytes are characters; no theorem depends on which.

The modules named `...History` read off the actions of a run what must have come of it, and
prove that it did. `Runs.dfy` says what a run is and that every run keeps what every step keeps.
`Resumable.dfy` holds the general argument behind the byte-stream results: a step function
that makes progress and whose decisions survive more input gives the same run however the
input is cut.

## What the models show

Some promises do not hold as they stand. Each such case has a lemma with a concrete input
and a lemma that says exactly when the promise holds.

* A header line, request method or request line longer than its limit is noticed only when a
  read ends inside it, so there a cut can be seen: `MultipartModel.ExactCut`,
  `MultipartModel.LongLineIsSeen`, `RequestModel.ExactCut`, `RequestModel.LongMethodIsSeen`.
* A multipart upload of no entries prints a body its own parser does not read as finished:
  `MultipartPrinter.NothingPrinted`.
* A synchronous advice that answers all earlier requests of a pipeline and then refuses its
  own leaves a response that is never sent: `Pipelining.OvertakenAdviceStalls`,
  `Pipelining.StallCause`.
* The error for a malformed message overtakes the responses still owed, and requests that
  came in the same read are dropped; after it nothing is sent: `Pipelining.ComplaintInPlace`,
  `Pipelining.ComplaintOvertakes`, `Pipelining.ComplaintDrops`, `Pipelining.ComplaintIsLast`.
* The comment at `src/stream_session.cpp:15-20` promises exactly one generator call after a
  cancellation. There is exactly one if the session was live when cancelled and a pump finds
  the stream handed over before the server stops, and none otherwise
  (`StreamSessions.AfterCancel`): none if the generator had ended the stream
  (`StreamSessions.NoCleanupAfterEnd`) or the server stops first
  (`StreamSessions.NoCleanupAfterStop`).
* A token bucket of capacity 1 admits nothing, although the R interface allows that
  capacity: `RateLimiters.SmallBucketNeverAdmits`, `RateLimiters.FirstCallAdmitted`.
* A sliding window is to weigh the unit before. All calls of a unit weigh its admissions in
  full, unless these are lost at the unit's first call; then they weigh none. They are lost
  exactly if there are any and either the unit before was used up and that first call comes
  at the very first instant, which refuses it, or the last admission of the unit before came
  at that unit's own first instant: `LimiterHistory.CountIsHistory`,
  `RateLimiters.FirstRefused`, `RateLimiters.CountKept`, `RateLimiters.RefusalForgets`.
  Concrete runs: `RateLimiters.ForgettingRun`, `RateLimiters.RefusalLetsThrough`,
  `RateLimiters.FirstInstantForgets`.
* A message is still accepted on a closing WebSocket session, but only from a send that
  had passed its check before: `WsReaper.ClosingIsFinal`, `WsReaper.LateSend`.
* The idle clock of a session goes back when a thread stores a reading older than the clock,
  and at no other step; then the reaper may close a session that has just sent. It does not
  if the sends on a session come one after the other: `WsReaper.ClockStep`,
  `WsReaper.StaleClock`, `WsReaper.OnlyTheSilentReaped`.
* A multipart reader calls its finish callback exactly once if the content type is usable,
  and never if it is not: `MultipartReader.FinishedIffUsable`,
  `MultipartReader.NeverFinished`.

## Model

| member | source | states |
|---|---|---|
| MultipartModel.StepProgress | src/drogon/lib/src/MultipartStreamParser.cc:67-251 | every iteration of the parse loop consumes bytes or lowers the rank of the status, so the loop ends |
| MultipartModel.StepStable | src/drogon/lib/src/MultipartStreamParser.cc:67-251 | what the parser decides about a buffer it also decides when more bytes follow |
| MultipartModel.CutInvariance | src/drogon/lib/src/MultipartStreamParser.cc:60-252 | parsing the pieces one by one ends in the same state, buffer and events as parsing them joined, if no guard trips |
| MultipartModel.ExactCut | src/drogon/lib/src/MultipartStreamParser.cc:104-111 | one cut goes unnoticed if and only if it does not leave a line over 60 KiB whose end in the next piece would make it a good line |
| MultipartModel.TooLongCut | src/drogon/lib/src/MultipartStreamParser.cc:104-111 | what becomes of a line that was refused for its length when the next piece comes |
| MultipartModel.CutInvarianceShortLines | src/drogon/lib/src/MultipartStreamParser.cc:60-252 | no cut is noticed in an input, good or bad, whose header lines all stay below the limit |
| MultipartModel.LongLineIsSeen | src/drogon/lib/src/MultipartStreamParser.cc:104-111 | an input with a 60 KiB line that is accepted whole and refused when cut before the line end |
| MultipartModel.AlwaysWholeParts | src/drogon/lib/src/MultipartStreamParser.cc:192-219 | in every run the callbacks are whole parts: a header, data, one end, with at most the last part open, which is so exactly while the body is read |
| MultipartParser.Buffer.Append | src/drogon/lib/src/MultipartStreamParser.cc:259-283 | the compacting array holds the old bytes followed by the new |
| MultipartParser.Buffer.EraseFront | src/drogon/lib/src/MultipartStreamParser.cc:290-294 | the array holds the old bytes without the first ones |
| MultipartParser.Buffer.Clear | src/drogon/lib/src/MultipartStreamParser.cc:296-301 | the array holds nothing |
| MultipartParser.MultipartStreamParser.constructor | src/drogon/lib/src/MultipartStreamParser.cc:24-58 | a parser for the boundary of the content type, or an invalid one |
| MultipartBoundary.PlainBoundary | src/drogon/lib/src/MultipartStreamParser.cc:24-58 | a content type of form data names the boundary behind its key, up to a semicolon or the end, whatever stands between |
| MultipartBoundary.QuotedBoundary | src/drogon/lib/src/MultipartStreamParser.cc:24-58 | a boundary in quotes is what stands between them |
| MultipartBoundary.NoBoundary | src/drogon/lib/src/MultipartStreamParser.cc:24-40 | another media type, or one without a boundary, is unusable |
| MultipartParser.MultipartStreamParser.FirstBoundaryCase | src/drogon/lib/src/MultipartStreamParser.cc:72-91 | skipping the preamble in one go carries out the run of the model |
| MultipartParser.MultipartStreamParser.HeaderCase | src/drogon/lib/src/MultipartStreamParser.cc:100-191 | one header line, its errors and the length guard carry out the run of the model |
| MultipartParser.MultipartStreamParser.BodyCase | src/drogon/lib/src/MultipartStreamParser.cc:192-220 | passing on data up to a possible delimiter carries out the run of the model |
| MultipartParser.MultipartStreamParser.EndCase | src/drogon/lib/src/MultipartStreamParser.cc:221-249 | the end of the body or of a part carries out the run of the model |
| MultipartParser.MultipartStreamParser.Parse | src/drogon/lib/src/MultipartStreamParser.cc:60-252 | the object, array buffer and callbacks included, does what the model's guarded run over one piece asks, and terminates |
| MultipartReader.FinishedOnce | src/drogon/lib/src/RequestStream.cc:155-190 | over any pieces and any end the finish callback of a multipart reader runs exactly once if its parser is usable; otherwise it does not run |
| MultipartReader.FinishedIffUsable | src/drogon/lib/src/RequestStream.cc:144-190 | the finish callback runs exactly once if the content type names a boundary, else never: for bad data, at the end of a whole upload, or when the stream fails or ends early |
| MultipartReader.NeverFinished | src/drogon/lib/src/RequestStream.cc:155-190 | whatever arrives as text/plain, the finish callback never runs |
| MultipartReader.ReaderFollowsParser | src/drogon/lib/src/RequestStream.cc:155-172 | ignoring data after the end changes nothing the parser would have reported |
| MultipartReader.ReaderCutInvariance | src/drogon/lib/src/RequestStream.cc:155-172 | however the bytes are cut, a reader has the same parts, and its finish callback has been called as over the joined bytes, once if they end or spoil the upload |
| MultipartReader.MultipartStreamReader.OnStreamData | src/drogon/lib/src/RequestStream.cc:155-172 | the reader object follows the reader model on a piece of data |
| MultipartReader.MultipartStreamReader.OnStreamFinish | src/drogon/lib/src/RequestStream.cc:174-190 | the reader object follows the reader model at the end of the stream |
| MultipartPrinter.AppendEntry | src/drogon/lib/src/HttpRequestImpl.cc:296-350 | the text appended for one field or file |
| MultipartPrinter.AppendMultipart | src/drogon/lib/src/HttpRequestImpl.cc:291-358 | the two printing loops append exactly the printed body |
| MultipartPrinter.ContentEnds | src/drogon/lib/src/MultipartStreamParser.cc:192-220 | content free of the delimiter ends at the delimiter and not before: the delimiter does not overlap itself |
| MultipartPrinter.ReadEntry | src/drogon/lib/src/HttpRequestImpl.cc:296-350 | one printed entry is read back as its name, file name, type and content |
| MultipartPrinter.RoundTrip | src/drogon/lib/src/HttpRequestImpl.cc:291-358 | for every non-empty list of printable entries, what is printed is read back entry by entry, and the parser ends finished and valid |
| MultipartPrinter.RoundTripAnyCut | src/drogon/lib/src/HttpRequestImpl.cc:291-358 | the same however the printed body is cut on its way |
| MultipartPrinter.NothingPrinted | src/drogon/lib/src/HttpRequestImpl.cc:291-358 | the body printed for no entries leaves the parser where it started |
| ResponseModel.StepProgress | src/drogon/lib/src/HttpResponseParser.cc:89-335 | every pass of the response loop consumes bytes or lowers the rank |
| ResponseModel.StepStable | src/drogon/lib/src/HttpResponseParser.cc:89-335 | what the response parser decides it also decides when more bytes follow |
| ResponseModel.CutInvariance | src/drogon/lib/src/HttpClientImpl.cc:605-646 | the same responses go to the same requests, whatever is sent upon each response, and the parser stands at the same place, however the bytes are cut |
| ResponseModel.InOrder | src/drogon/lib/src/HttpClientImpl.cc:605-646 | responses are only added, and each takes the oldest of the requests outstanding, those sent upon earlier responses included |
| ResponseModel.ClosedBody | src/drogon/lib/src/HttpResponseParser.cc:78-86 | a body that lasts until the connection closes is everything that came |
| ResponseRoundTrip.StatusLineReads | src/drogon/lib/src/HttpResponseParser.cc:42-76 | a printed status line gives its version and code |
| ResponseRoundTrip.ResponseReads | src/drogon/lib/src/HttpResponseParser.cc:88-330 | every well-formed response, printed from its status line on with a body by length, in chunks, until the close or absent (204, upgrade, HEAD), is delivered with exactly its version, code, fields and body, and the client goes on behind it; it is refused if and only if its length cannot be read |
| ResponseRoundTrip.ResponseAnyCut | src/drogon/lib/src/HttpClientImpl.cc:605-646 | the same however the bytes are cut |
| ResponseRoundTrip.BadLineRead | src/drogon/lib/src/HttpResponseParser.cc:42-76 | a first line whose first word does not end in 0 or 1, or that is not divided twice, is refused |
| ResponseRoundTrip.UnexpectedRefused | src/drogon/lib/src/HttpClientImpl.cc:605-625 | bytes that no request waits for are refused |
| ResponseParser.HttpResponseParser.EndHeaders | src/drogon/lib/src/HttpResponseParser.cc:127-193 | the fields after the header end are those of the model, whatever the framing |
| ResponseParser.HttpResponseParser.ParseResponse | src/drogon/lib/src/HttpResponseParser.cc:89-335 | the parser object carries out the model's run up to a response, an error or the end of the bytes |
| ResponseParser.HttpResponseParser.Reset | src/drogon/lib/src/HttpResponseParser.cc:26-33 | ready for the next response |
| ResponseParser.Receiver.OnRecvMessage | src/drogon/lib/src/HttpClientImpl.cc:605-646 | the receive loop carries out the model's run over the whole message |
| RequestModel.StepProgress | src/drogon/lib/src/HttpRequestParser.cc:143-454 | every pass of the request loop consumes bytes or lowers the rank |
| RequestModel.StepStable | src/drogon/lib/src/HttpRequestParser.cc:143-454 | what the request parser decides it also decides when more bytes follow |
| RequestModel.CutInvariance | src/drogon/lib/src/HttpServer.cc:158-249 | the receive loop yields the same requests, refusals and interim answers for every cut in which no length limit trips |
| RequestModel.ExactCut | src/drogon/lib/src/HttpRequestParser.cc:149-207 | one cut goes unnoticed if and only if it does not leave an item over its limit whose end comes in the next piece |
| RequestModel.RefusedCut | src/drogon/lib/src/HttpRequestParser.cc:149-207 | what the next piece would have made of an item refused for its length |
| RequestModel.CutInvarianceShortLines | src/drogon/lib/src/HttpServer.cc:158-249 | no cut is noticed in an input whose items all keep to their limits, whatever came before on the connection |
| RequestModel.LongMethodIsSeen | src/drogon/lib/src/HttpRequestParser.cc:149-171 | a method that is answered by 405 whole and by 400 when cut before the blank |
| RequestRoundTrip.RequestLineReads | src/drogon/lib/src/HttpRequestParser.cc:39-84 | a printed request line gives its path, query and version, behind any scheme and authority |
| RequestRoundTrip.RequestReads | src/drogon/lib/src/HttpRequestParser.cc:143-454 | every well-formed request, printed with a body by length, in chunks or absent, is either delivered with exactly its method, path, query, version, fields (the first of a name, all cookies, the last expectation) and body, and the server goes on behind it; or it is refused, by conditions on what was printed: 400, 413, 417, 501 |
| RequestRoundTrip.UnknownMethod | src/drogon/lib/src/HttpRequestParser.cc:149-171 | a first word that is no method is answered by 405 |
| RequestRoundTrip.UnknownVersion | src/drogon/lib/src/HttpRequestParser.cc:172-194 | a version other than 1.0 and 1.1 is answered by 400 |
| RequestRoundTrip.AllReadAnyCut | src/drogon/lib/src/HttpServer.cc:158-249 | of any number of such requests, however cut, with lines inside their limits, the k-th delivered is the k-th sent |
| RequestParser.HttpRequestParser.EndHeaders | src/drogon/lib/src/HttpRequestParser.cc:217-332 | framing, refusals and the interim answer after the header end are those of the model |
| RequestParser.HttpRequestParser.ParseRequest | src/drogon/lib/src/HttpRequestParser.cc:143-454 | the parser object carries out the model's run up to a request, a refusal or the end of the bytes |
| RequestParser.HttpRequestParser.Reset | src/drogon/lib/src/HttpRequestParser.cc:117-133 | ready for the next request |
| RequestParser.Connection.OnMessage | src/drogon/lib/src/HttpServer.cc:158-249 | the server's loop over one message carries out the model's run, refusals included |
| ChunkedCoding.DigitsSuffice | src/drogon/lib/src/HttpServer.cc:900-909 | the digits reserved for a size are enough for every size up to it |
| ChunkedCoding.UsableSize | src/drogon/lib/src/HttpServer.cc:909-923 | every buffer of the promised sizes leaves room for data, and for the last chunk |
| ChunkedCoding.PaddedHexReads | src/drogon/lib/src/HttpServer.cc:928-938 | a size printed with leading zeros has that value |
| ChunkedCoding.ChunkingParams.ChunkingCallback | src/drogon/lib/src/HttpServer.cc:871-943 | one call writes, within the buffer, exactly the chunk of the data supplied, or the last chunk, or nothing after that |
| ChunkedRoundTrip.ResponseDecodes | src/drogon/lib/src/HttpResponseParser.cc:251-332 | the response parser reads the encoder's output as exactly the data supplied |
| ChunkedRoundTrip.ResponseRoundTrip | src/drogon/lib/src/HttpServer.cc:871-943 | the same for every cut and every sequence of calls, buffers and amounts of data |
| ChunkedRoundTrip.RequestDecodes | src/drogon/lib/src/HttpRequestParser.cc:356-445 | the request parser reads it as exactly the data, or answers 413 exactly if the data exceed the limit |
| ChunkedRoundTrip.RequestRoundTrip | src/drogon/lib/src/HttpRequestParser.cc:356-445 | the same for every cut, within the limit, whatever came before on the connection |
| ChunkedRoundTrip.ResponseLength | src/drogon/lib/src/HttpResponseParser.cc:322-325 | the content-length given to a decoded response is read back as the length of its body |
| ChunkedRoundTrip.RequestLength | src/drogon/lib/src/HttpRequestParser.cc:437-440 | the content-length given to a decoded request is read back as the length of its body |
| PipelineQueue.Pipeline.PushRequest | src/drogon/lib/src/HttpRequestParser.cc:456-461 | the request waits behind the others |
| PipelineQueue.Pipeline.PushResponse | src/drogon/lib/src/HttpRequestParser.cc:466-480 | the response is in its request's slot, and the result tells whether that is the first |
| PipelineQueue.Pipeline.PopReady | src/drogon/lib/src/HttpRequestParser.cc:482-491 | exactly the ready responses at the front move, in order, behind those collected |
| Pipelining.StepKeeps | src/drogon/lib/src/HttpServer.cc:350-409 | every step keeps: sent, buffered, waiting and in hand are together the accepted requests in order, each slot holds its own answer, no assertion fails |
| Pipelining.ResponsesInOrder | src/drogon/lib/src/HttpServer.cc:773-854 | in every run the k-th response sent is the first answer to the k-th request, nothing follows a closing response, fewer requests wait than the limit, no assertion fails |
| Pipelining.InLoopUsesSlot | src/drogon/lib/src/HttpServer.cc:805-836 | on the loop thread an unanswered request always has its slot, at its place in the order |
| Pipelining.TaskUsesSlot | src/drogon/lib/src/HttpServer.cc:837-853 | a response posted by another thread always finds its slot |
| Pipelining.DirectKeeps | src/drogon/lib/src/HttpServer.cc:813-822 | a response while nothing waits comes from the handler in hand, during its batch |
| Pipelining.NothingTakenBack | src/drogon/lib/src/HttpServer.cc:1045-1142 | what was sent or accepted stays so |
| Pipelining.FirstAnswerStands | src/drogon/lib/src/HttpServer.cc:789-794 | a second answer to a request changes nothing |
| Pipelining.EverythingSent | src/drogon/lib/src/HttpServer.cc:402-409 | at rest with all requests answered, all responses were sent if and only if the pipeline is not stalled |
| Pipelining.StallCause | src/drogon/lib/src/HttpServer.cc:1215-1239 | a pipeline stalls exactly when an advice refuses the only request left in it, and stays stalled |
| Pipelining.QuietRunSendsAll | src/drogon/lib/src/HttpServer.cc:350-409 | if no advice completes other requests, a run that has come to rest has sent a response to every answered request |
| PipelineHistory.NothingLost | src/drogon/lib/src/HttpServer.cc:773-853 | over every run: the requests of every batch taken are accepted in order; a request has an answer if and only if an action replied to it, the first such reply, and on a standing connection that is posted, in its slot, buffered or sent |
| PipelineHistory.AllRepliesSent | src/drogon/lib/src/HttpServer.cc:350-409 | in a quiet run at rest with a reply to every request taken, the k-th response sent carries the first reply to the k-th request |
| PipelineHistory.ClosedCause | src/drogon/lib/src/HttpServer.cc:158-249 | the connection goes down if and only if the peer leaves, a message is malformed, a batch exceeds the limit, or the last response sent closes it |
| Pipelining.OvertakenAdviceStalls | src/drogon/lib/src/HttpServer.cc:1215-1239 | a run in which the second of two answered requests never gets its response |
| Pipelining.ComplaintInPlace | src/drogon/lib/src/HttpServer.cc:188-218 | the error for a malformed message stands in its place if and only if nothing waits and no good request came with it |
| Pipelining.ComplaintOvertakes | src/drogon/lib/src/HttpServer.cc:188-218 | a run in which the error takes the place of a response still owed |
| Pipelining.ComplaintDrops | src/drogon/lib/src/HttpServer.cc:188-218 | a run in which a good request of the same read is dropped |
| Pipelining.ComplaintIsLast | src/drogon/lib/src/HttpServer.cc:188-218 | in every run the error stands right behind what was sent, and nothing is sent after it |
| Bridge.StepKeeps | src/request_queue.cpp:49-83 | every step of producers and dispatcher keeps the whole invariant |
| Bridge.NoLostWakeup | src/r_dispatcher.cpp:303-412 | in every run a queue with something in it is watched: a byte in the pipe, a producer about to write one, or the dispatcher before its swap; also when a full pipe drops the write |
| Bridge.ExactlyOneReply | src/drogon_server.cpp:729-766 | every request has had exactly one reply or is entering, being refused, queued or in the batch; the accepted are handled in order; the queue keeps its bound |
| Bridge.AtRest | src/r_dispatcher.cpp:303-412 | with all producers done and the dispatcher waiting at an empty pipe, all queues are empty and every request has had its one reply |
| BridgeHistory.RepliesFit | src/r_dispatcher.cpp:308-396 | over every run the k-th request queued is told what became of its handler: a normal response with its value, the head of its stream, or a failure with the message it raised |
| BridgeHistory.RefusalsFit | src/drogon_server.cpp:729-766 | over every run a request is told 429 if and only if the rate limit refused it, and 503 if and only if it found the queue full |
| RequestQueue.WakePipe.Write | src/socket_compat.h:107-117 | one byte more unless the pipe is full, so the pipe is not empty afterwards |
| RequestQueue.WakePipe.Drain | src/socket_compat.h:119-127 | reading in pieces of 64 empties the pipe |
| RequestQueue.Queue.Enqueue | src/request_queue.cpp:49-60 | refused exactly when full; otherwise queued last and the pipe written |
| RequestQueue.Queue.Drain | src/request_queue.cpp:71-78 | everything queued, in order, and an empty queue |
| RequestQueue.Dispatcher.RunOne | src/r_dispatcher.cpp:309-396 | one reply per request: a normal response if and only if the handler gave a value, with that value; the head of a stream if and only if it gave a callable one; otherwise a failure, with the message raised |
| RequestQueue.Dispatcher.RunBatch | src/r_dispatcher.cpp:308-396 | one reply per request of the batch, in order |
| RequestQueue.BatchRefines | src/r_dispatcher.cpp:308-396 | the loop is the dispatcher's steps of the bridge model taken without a break |
| StreamSessions.StepKeeps | src/stream_session.cpp:191-276 | every step keeps pumps, objects, states, calls and the wire in agreement |
| StreamSessions.StreamRuns | src/stream_session.cpp:191-276 | in every run at most one pump is scheduled, only the last call may be cancelled or end the stream, each call gets the state left by the last, what is sent is a prefix of the chunks, nothing follows the close |
| StreamSessions.NothingLeaks | src/stream_session.cpp:115-174 | what is preserved is what a live session holds; an ended one has released everything, each object once, from either teardown path |
| StreamSessions.AllSentThenClosed | src/stream_session.cpp:149-174 | an ended session whose loop is idle has sent all its chunks, and then the close as its last event |
| StreamSessions.CleanupCall | src/stream_session.cpp:259-266 | the pump after a cancellation makes the one cleanup call, sends nothing and ends the session |
| StreamSessions.AfterCancel | src/stream_session.cpp:191-276 | over every run after a cancellation: a live session makes exactly one cancelled call, its last, on the state it holds, if a pump finds the stream handed over before a stop; otherwise none, and then it still lives or was stopped; an ended session makes none |
| StreamSessions.NoCleanupAfterEnd | src/stream_session.cpp:268-276 | a peer that leaves after the generator ended causes no cleanup call |
| StreamSessions.NoCleanupAfterStop | src/stream_session.cpp:362-388 | a run in which the server stops before the next pump, so that a cancelled live session gets no cleanup call |
| StreamHistory.StreamIsGenerated | src/stream_session.cpp:191-276 | over every run the generator gets exactly the calls, with the states and flags, that the pumps, hand-over, hang-ups and stop of the run call for, and the session lives exactly as long |
| StreamPump.StreamSession.constructor | src/stream_session.cpp:290-360 | a new session is the model's start |
| StreamPump.StreamSession.PumpStream | src/stream_session.cpp:191-276 | the pump callback is the model's pump, branch by branch |
| StreamPump.StreamSession.RunTaskInLoop | src/stream_session.cpp:149-157 | the loop's task is the model's task |
| StreamPump.StreamSession.CloseStream | src/stream_session.cpp:161-174 | teardown from the R thread is the model's teardown |
| WsSlots.StepKeeps | src/ws_session.cpp:345-386 | every atomic step keeps counter, flags, table and erasers in agreement |
| WsSlots.SlotsAreSafe | src/ws_session.cpp:345-386 | in every interleaving the counter is admitted plus not rolled back plus not given back, at most `max` sessions are open, no slot is given back twice or untaken |
| WsSlots.RefusedIffFull | src/ws_session.cpp:345-353 | in every interleaving a connection is turned away if and only if the slots taken, not rolled back and not given back number `max` |
| WsSlots.AtRest | src/ws_session.cpp:155-172 | with no thread at work the counter is the number of open sessions, and each ended session gave its slot back once |
| WsReaper.TightestThreshold | src/ws_session.cpp:638-646 | the least threshold of the native routes, 0 exactly if there is none |
| WsReaper.Interval | src/ws_session.cpp:648-653 | half the threshold, kept between 50 ms and 1 s |
| WsReaper.Deadline | src/ws_session.cpp:605-634 | with scans at most one interval apart, and every load, store and lock section a step of its own, no session stays open more than one interval past a threshold, counted from its newest send, or two while a scan has still to visit or to mark it |
| WsReaper.OnlyTheOverdueReaped | src/ws_session.cpp:605-634 | in every run the reaper closes a session only if it was past a threshold when the last scan visited it; one without thresholds, or not native, is never picked |
| WsReaper.EveryOverdueReaped | src/ws_session.cpp:605-634 | in every run, once the picked sessions are marked, every session the scan found past a threshold is closing or gone |
| WsReaper.ClosingIsFinal | src/ws_session.cpp:209-227 | in every run a closing session stays closing; from then on no check succeeds, and a message is accepted only from a send that had passed its check before, at most one from each |
| WsReaper.CheckPasses | src/ws_session.cpp:209-214 | in every run a send passes its check if and only if the session is there and not closing |
| WsReaper.SendsAreQueued | src/ws_session.cpp:218-222 | every message queued is accepted, and no other |
| WsReaper.LateSend | src/ws_session.cpp:209-227 | a run in which a send passes its check, the session is closed, and the message is accepted |
| WsReaper.ClockStep | src/ws_session.cpp:223-226 | a step leaves the idle clock at the newest send if and only if it does not store an older reading |
| WsReaper.OnlyTheSilentReaped | src/ws_session.cpp:605-634 | if the sends on a session come one after the other, the reaper picks only sessions past a threshold by their newest send |
| WsReaper.StaleClock | src/ws_session.cpp:223-226 | a run in which two overlapping sends set the idle clock back and the reaper picks a session that has just sent |
| ClientModel.StepKeeps | src/drogon/lib/src/HttpClientImpl.cc:390-603 | every event keeps queues, flags, callbacks and the wire in agreement |
| ClientModel.ClientRuns | src/drogon/lib/src/HttpClientImpl.cc:390-603 | in every run each request is in one queue or finished, no callback runs twice, those of buffered requests have not run, those of requests in neither queue have, at most depth + 1 are in flight |
| ClientModel.ResponseFindsItsRequest | src/drogon/lib/src/HttpClientImpl.cc:551-603 | the k-th response on a connection goes to the k-th request sent on it, unless its timer was faster |
| ClientHistory.WaitsForAReason | src/drogon/lib/src/HttpClientImpl.cc:390-603 | in every run a request waits on a standing connection only while depth + 1 are in flight, and without one only while a name is resolved or a connection made |
| ClientHistory.ConnectionSends | src/drogon/lib/src/HttpClientImpl.cc:38-115 | a new connection sends the oldest requests, in order, as many as the depth allows |
| ClientHistory.CallbackGetsResult | src/drogon/lib/src/HttpClientImpl.cc:312-691 | over every run a callback gets a result if and only if it is the first that a step had for its request: its response, its timer, or the failure that hit it |
| ClientHistory.AllSubmitted | src/drogon/lib/src/HttpClientImpl.cc:390-500 | every request handed to the client is taken |
| HttpClient.Client.OnError | src/drogon/lib/src/HttpClientImpl.cc:676-691 | the two loops call back the pipeline, then the buffer, and leave nothing |
| HttpClient.Client.OnConnected | src/drogon/lib/src/HttpClientImpl.cc:72-87 | the loop sends what the depth allows, in order |
| HttpClient.Client.HandleResponse | src/drogon/lib/src/HttpClientImpl.cc:551-603 | the first request gets the response; the next is sent, or the rest fails with the connection |
| HttpClient.Client.OnTimeout | src/drogon/lib/src/HttpClientImpl.cc:327-355 | the timer calls back once and removes the request from the buffer |
| HttpClient.Client.SendRequest | src/drogon/lib/src/HttpClientImpl.cc:390-536 | a request is sent, buffered or refused as the model says |
| RequestBody.ReaderSeesAll | src/drogon/lib/src/HttpRequestImpl.cc:1022-1057 | whenever the reader comes and wherever the body spills: of a body that ended normally it receives exactly the bytes of the appending calls, then one end; of one that failed all the bytes, then the error of the failing step, or that error alone if it came later; of an open one all the bytes so far |
| RequestBody.BodyIsWhole | src/drogon/lib/src/HttpRequestImpl.cc:751-802 | without a reader the body is the concatenation of the data of the appending calls, at most the limit of it in memory |
| RequestBody.WaiterWokenOnce | src/drogon/lib/src/HttpRequestImpl.cc:1065-1123 | the finish callback runs once, when the stream has ended and not before |
| RequestBody.Request.ReserveBodySize | src/drogon/lib/src/HttpRequestImpl.cc:751-772 | a large reservation moves the body to a file |
| RequestBody.Request.AppendToBody | src/drogon/lib/src/HttpRequestImpl.cc:774-802 | data go to the reader, the file or memory, spilling over the limit |
| RequestBody.Request.SetStreamReader | src/drogon/lib/src/HttpRequestImpl.cc:1022-1057 | a new reader gets the error, or what has come so far and the end if there was one |
| RequestBody.Request.StreamFinish | src/drogon/lib/src/HttpRequestImpl.cc:1065-1081 | the finish callback, then the reader, are told |
| RequestBody.Request.StreamError | src/drogon/lib/src/HttpRequestImpl.cc:1083-1107 | the reader is told or the error kept, then the finish callback runs |
| RequestBody.Request.WaitForStreamFinish | src/drogon/lib/src/HttpRequestImpl.cc:1109-1123 | the callback is kept while the stream is open, otherwise it runs at once |
| JsonRoundTrip.StringReads | src/json_writer.cpp:52-75 | an escaped string is read back exactly, and what follows it is left |
| JsonRoundTrip.IntegerIsNumeral | src/json_writer.cpp:100-108 | a printed integer is a JSON number with that value |
| JsonRoundTrip.ElementReads | src/json_writer.cpp:81-116 | an element of a vector, missing and non-finite values included, is read back in front of any delimiter |
| JsonRoundTrip.ValueReads | src/json_writer.cpp:226-249 | every supported value is read back as the tree it denotes, in front of any delimiter |
| JsonWriter.Writer.AppendEscapedString | src/json_writer.cpp:52-75 | the loop appends the quoted string |
| JsonWriter.Writer.AppendElement | src/json_writer.cpp:81-116 | one element appended |
| JsonWriter.Writer.WriteAtomic | src/json_writer.cpp:122-174 | a vector without a class is appended, unboxed where asked; one with a class is refused |
| JsonWriter.Writer.WriteList | src/json_writer.cpp:177-224 | accepted exactly if supported; then the object or array is appended |
| JsonWriter.Writer.WriteValue | src/json_writer.cpp:226-249 | accepted exactly if supported: no class, complete names, no inner NULL, depth at most 64; then its text is appended |
| JsonWriter.ToJson | src/json_writer.cpp:253-268 | a text exactly for supported values; all of it is read as the tree the value denotes; otherwise none |
| RateLimiters.BucketBound | src/drogon/lib/src/TokenBucketRateLimiter.cc:16-31 | at most capacity * (1 + (t - s) / unit) calls are admitted in any [s, t] |
| RateLimiters.SmallBucketNeverAdmits | src/drogon/lib/src/TokenBucketRateLimiter.cc:25-30 | a bucket of capacity at most one never admits a call |
| RateLimiters.FirstCallAdmitted | src/drogon/lib/src/TokenBucketRateLimiter.cc:16-31 | a new bucket admits its first call if and only if its capacity is above one |
| RateLimiters.FixedBound | src/drogon/lib/src/FixedWindowRateLimiter.cc:16-32 | at most twice the capacity, less what the window has used, in any half-open unit |
| RateLimiters.SlidingBound | src/drogon/lib/src/SlidingWindowRateLimiter.cc:17-59 | at most the capacity in each unit from the limiter's start |
| RateLimiters.FirstRefused | src/drogon/lib/src/SlidingWindowRateLimiter.cc:32-59 | the first call of a unit is refused if and only if it comes at the unit's first instant and the unit just before was used up |
| RateLimiters.CountKept | src/drogon/lib/src/SlidingWindowRateLimiter.cc:32-59 | at the first call of a unit: later calls weigh the requests of the unit just before if and only if they are not lost; if they are, or if that unit had none, they weigh none |
| RateLimiters.RefusalForgets | src/drogon/lib/src/SlidingWindowRateLimiter.cc:32-59 | after such a refusal the next call in the unit is admitted, whenever it comes |
| RateLimiters.ForgettingRun | src/drogon/lib/src/SlidingWindowRateLimiter.cc:32-59 | one call per second: admitted at 0.5, refused at 1.0, admitted at any time of that second |
| RateLimiters.RefusalLetsThrough | src/drogon/lib/src/SlidingWindowRateLimiter.cc:32-59 | two calls per second: a call refused at 1.0 lets through a call at 1.1 that is refused without it |
| RateLimiters.FirstInstantForgets | src/drogon/lib/src/SlidingWindowRateLimiter.cc:32-59 | two calls per second: two admitted at 1.0 and two more at 2.0, with nothing refused |
| LimiterHistory.CountIsHistory | src/drogon/lib/src/SlidingWindowRateLimiter.cc:17-59 | over every run of calls from a new window: all calls of a unit weigh exactly the calls admitted in the unit just before if and only if these are not lost at the first call of the unit; if they are, every call weighs none |
| LimiterHistory.SlidingExact | src/drogon/lib/src/SlidingWindowRateLimiter.cc:17-59 | over every run a call behind the first of its unit is admitted if and only if what is weighed of the unit before, less the share of the unit passed, and the admissions of this unit stay below the capacity |
| LimiterHistory.FixedExact | src/drogon/lib/src/FixedWindowRateLimiter.cc:16-32 | over every run a call is admitted if and only if fewer than the capacity were admitted since its window was opened |
| LimiterHistory.BucketExact | src/drogon/lib/src/TokenBucketRateLimiter.cc:16-31 | over every run a call is admitted if and only if more than one token is left, counting inflow less admissions from the start and from each call on as if the bucket had been full then |
| RateLimiters.MovedHolds | src/drogon/lib/src/SlidingWindowRateLimiter.cc:20-50 | the unit found holds the present time, so the coefficient is in [0, 1) and the asserted bound holds |
| RateRules.AdmittedOnce | src/drogon_server.cpp:340-352 | in every interleaving of checks, the calls a limiter admits are one for each request it has admitted, and its state is that after those calls |
| RateRules.CheckRuns | src/drogon_server.cpp:340-352 | one check on its own is such a run, and lets its request pass exactly if the run does |
| RateRules.RuleKept | src/drogon_server.cpp:284-352 | whatever came before, whatever other limiters the routes have and however the checks interleave, the requests a limiter admits keep to the bound of its rule |
| RateTable.BuildServes | src/drogon_server.cpp:284-323 | a route has one limiter for each rule that applies, in order: the shared one of a global rule, a new one as the rule says of any other; shared limiters stay, and new ones are as their rule says |
| RateTable.InstallServes | src/drogon_server.cpp:1141-1154 | over all routes: a global rule has one limiter, made with the first route it applies to, for exactly the routes it applies to; a limiter of any other rule belongs to one route |
| RateTable.RuleOverRoutes | src/drogon_server.cpp:284-352 | for every rule, and in every interleaving of checks from the opening on: the requests that arrive in a stretch of time and pass, at all routes of a global rule together or at one route of any other, keep to the bound of the rule's kind, capacity and window |
| RateLimiting.TokenBucketRateLimiter.IsAllowed | src/drogon/lib/src/TokenBucketRateLimiter.cc:16-31 | the object's fields and answer are the model's |
| RateLimiting.FixedWindowRateLimiter.IsAllowed | src/drogon/lib/src/FixedWindowRateLimiter.cc:16-32 | the object's fields and answer are the model's |
| RateLimiting.SlidingWindowRateLimiter.IsAllowed | src/drogon/lib/src/SlidingWindowRateLimiter.cc:17-59 | the object's fields and answer are the model's, and its assertion holds |
| RateLimiting.Registry.BuildLimitersForPath | src/drogon_server.cpp:284-323 | the loop does what the model asks: a limiter for each rule that applies, new ones as their rule says, shared ones exactly where the rule applies, all of them usable |
| RateLimiting.Registry.InstallRoutes | src/drogon_server.cpp:1141-1154 | the loop over the routes fills the table of the model |
| RateLimiting.Registry.CheckRateLimits | src/drogon_server.cpp:340-352 | the loop asks the limiters in order, each at its own time, until one refuses |
| RangeModel.ParseDecides | src/drogon/lib/src/RangeParser.cc:43-176 | success if and only if the header spells specs within the limit that denote at least one range and at most the file's length together; then the ranges are exactly those denoted, in order, non-empty and in bounds |
| RangeModel.DenotedBytes | src/drogon/lib/src/RangeParser.cc:94-145 | a spec denotes exactly the bytes of the file that it asks for |
| RangeModel.HeaderReads | src/drogon/lib/src/RangeParser.cc:35-41 | a printed list of specs is read as that list |
| RangeParser.GuardIsExact | src/drogon/lib/src/RangeParser.cc:28-31 | the overflow guard refuses exactly the digits that would not fit 64 bits |
| RangeParser.ReadNumber | src/drogon/lib/src/RangeParser.cc:75-83 | the digit loop computes the number without wrap-around, or reports that it does not fit |
| RangeParser.Bounds | src/drogon/lib/src/RangeParser.cc:132-145 | in wrapping arithmetic the bounds are those denoted, the empty file included |
| RangeParser.ParseRangeHeader | src/drogon/lib/src/RangeParser.cc:43-176 | the nested loops compute the parser's result and ranges |
| RangeParser.AcceptedRangeIsServed | src/drogon/lib/src/HttpResponseImpl.cc:303-403 | a response built from an accepted header is never 416: its body is exactly the first range, and Content-Range says so |
| SlashRemover.NormalisedIsNormal | src/drogon/lib/src/SlashRemover.cc:153-194 | each mode's result is normal, changes nothing exactly on normal paths, and is idempotent |
| SlashRemover.StepsCommute | src/drogon/lib/src/SlashRemover.cc:140-151 | stripping and collapsing may come in either order |
| SlashRemover.FindTrailingSlashes | src/drogon/lib/src/SlashRemover.cc:26-38 | nothing found exactly on paths without trailing slashes; otherwise the cut is the stripped path |
| SlashRemover.FindDuplicateSlashes | src/drogon/lib/src/SlashRemover.cc:48-68 | nothing found exactly on paths without double slashes; otherwise the first one |
| SlashRemover.RemoveDuplicateSlashes | src/drogon/lib/src/SlashRemover.cc:70-84 | compaction in place yields the collapsed path |
| SlashRemover.FindExcessiveSlashes | src/drogon/lib/src/SlashRemover.cc:86-138 | both scans at once, the second on the stripped path |
| SlashRemover.HandleReq | src/drogon/lib/src/SlashRemover.cc:153-194 | a path is rewritten exactly if it is not normal, to its normal form |

## Left out

- Sockets, TLS, DNS, event-loop internals, worker processes and the Windows variants: the models keep task queues, a bounded count of wake bytes and a connected flag.
- The R API: handlers and generators give arbitrary results; preserve and release are a multiset. A session whose state is R's NULL holds a null pointer, which the model takes for an absent argument.
- Re-entrancy: generators or hooks that stop the server while they run, and, in the client's state machine, callbacks that send at once.
- Callbacks of a TCP connection the client has already given up.
- What happens to sessions and queued requests once the server has stopped.
- Stream mode of the request parser, cookie and URL decoding, the upgrade to WebSocket, keep-alive limits and compression.
- `strtol` and `strtoull` on chunk sizes that are not plain hexadecimal digits, beyond their error exits, and the wrap-around of a chunk size plus two.
- Regular-expression routing, file-system lookup of static files, MIME tables, sessions, rooms and broadcasts.
- Doubles are reals, and `%.17g` is taken to print a JSON number that stands for its double; C++ memory orders are sequentially consistent.
- StreamSessions.StreamRuns: says nothing about a stream that is never handed over; its pump is only scheduled again and again.
- Pipelining.QuietRunSendsAll: assumes that advices complete no other request, because otherwise it is false.
- WsReaper.Deadline: assumes that the timer fires at most one interval apart; a scan reads the two fields of a session in one step.
- ResponseRoundTrip.BadLineRead: a status line without a blank is refused in the model; the source searches on behind the line.
- RequestRoundTrip.RequestReads: lengths are plain decimal numerals or unreadable, and chunks have no extensions.
- ResponseRoundTrip.ResponseReads: likewise, and codes have three digits.
- RangeParser.AcceptedRangeIsServed: the file has the size the header was parsed for.
- RateRules.RuleKept: a limiter reads the clock and answers in one step, under its mutex.
