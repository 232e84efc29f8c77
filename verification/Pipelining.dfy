/** One server connection over whole runs: requests arrive in batches, handlers answer
    them at once, later on the loop thread, or from other threads, in any order.  The
    responses leave in the order the requests came (section 9.3.2 of RFC 9112). */
module Pipelining {
  import opened Text
  import opened PipelineQueue
  import opened Runs

  /** Where the loop thread is: outside `onRequests`, between two requests of a batch, in
      the synchronous advice of one, or inside its handler.  `queued` says that the request
      went into the pipeline before its handler ran, `ready` that it was answered while the
      pipeline was empty. */
  datatype Phase =
    | Idle
    | Looping
    | Advising(request: Request, queued: bool)
    | Handling(request: Request, queued: bool, ready: bool)

  /** `limit` is the configured number of pipelined requests, 0 for none.  `accepted` are
      the requests taken so far, `answers` the first response to each, `tasks` the
      responses that other threads posted to the loop, `started` the requests whose handler
      holds a callback.  `complaint` is the place on the wire of the error sent for a
      malformed message.  `broken` records a failed assertion of the source. */
  datatype Conn = Conn(
    limit: nat, phase: Phase, batch: nat, todo: seq<Request>,
    pipeline: seq<Slot>, buffer: seq<Outgoing>, sent: seq<Outgoing>,
    tasks: map<nat, Response>, connected: bool,
    accepted: seq<Request>, answers: map<nat, Response>, started: set<nat>,
    complaint: Option<nat>, broken: bool)

  function Init(limit: nat): Conn {
    Conn(limit, Idle, 0, [], [], [], [], map[], true, [], map[], {}, None, false)
  }

  datatype Action =
    | Arrive(requests: seq<Request>)
    | Malformed(dropped: seq<Request>)
    | Take
    | Refuse(response: Response)
    | Start
    | CompleteInLoop(id: nat, response: Response)
    | CompleteElsewhere(id: nat, response: Response)
    | Return
    | EndBatch
    | RunTask(id: nat)
    | Disconnect

  /** The connection is shut down behind a response that asks for it, unless a bare
      response to a request other than HEAD ended the sending early. */
  predicate Closes(o: Outgoing) {
    o.response.close && (o.head || !o.response.bare)
  }

  /** Up to and including the first response that closes the connection. */
  function Sendable(rs: seq<Outgoing>): (n: nat)
    ensures n <= |rs|
    ensures forall i :: 0 <= i < n - 1 ==> !Closes(rs[i])
    ensures n < |rs| ==> n > 0 && Closes(rs[n - 1])
  {
    if rs == [] then 0 else if Closes(rs[0]) then 1 else 1 + Sendable(rs[1..])
  }

  /** `sendResponses`. */
  function Send(c: Conn, rs: seq<Outgoing>): Conn {
    var n := Sendable(rs);
    c.(sent := c.sent + rs[..n], connected := c.connected && (n == 0 || !Closes(rs[n - 1])))
  }

  /** `popReadyResponses` into the response buffer. */
  function Pop(c: Conn): Conn {
    var n := Ready(c.pipeline);
    c.(pipeline := c.pipeline[n..], buffer := c.buffer + Outputs(c.pipeline[..n]))
  }

  function Flush(c: Conn): Conn { Send(c.(buffer := []), c.buffer) }

  /** Is the batch still being looped over? */
  predicate InLoop(c: Conn, batch: nat) {
    !c.phase.Idle? && c.batch == batch
  }

  /** `handleResponse` on the loop thread. */
  function HandleInLoop(c: Conn, r: Request, response: Response): Conn {
    if !c.connected || r.id in c.answers then c
    else
      var c := c.(answers := c.answers[r.id := response]);
      if c.pipeline == [] then
        // the response must have come synchronously
        if InLoop(c, r.batch) && c.phase.Handling? && c.phase.request == r then
          c.(phase := c.phase.(ready := true), buffer := c.buffer + [Outgoing(response, r.head)])
        else c.(broken := true)
      else
        match IndexOf(c.pipeline, r.id)
        case None => c.(broken := true)
        case Some(i) =>
          var c := c.(pipeline := Fill(c.pipeline, i, response));
          if i != 0 then c
          else if InLoop(c, r.batch) then Pop(c)
          else Flush(Pop(c))
  }

  /** A response another thread posted to the loop. */
  function HandleTask(c: Conn, id: nat, response: Response): Conn {
    if !c.connected then c
    else
      match IndexOf(c.pipeline, id)
      case None => c.(broken := true)
      case Some(i) =>
        var c := c.(pipeline := Fill(c.pipeline, i, response));
        if i != 0 then c
        else
          var n := Ready(c.pipeline);
          Send(c.(pipeline := c.pipeline[n..]), Outputs(c.pipeline[..n]))
  }

  predicate NumberedFrom(rs: seq<Request>, n: nat) {
    forall i :: 0 <= i < |rs| ==> rs[i].id == n + i
  }

  predicate Enabled(c: Conn, a: Action) {
    match a
    case Arrive(rs) =>
      && c.phase.Idle? && rs != []
      && NumberedFrom(rs, |c.accepted|)
      && forall i :: 0 <= i < |rs| ==> rs[i].batch == c.batch + 1
    case Malformed(_) => c.phase.Idle?
    case Take => c.phase.Looping? && c.todo != []
    case Refuse(_) => c.phase.Advising?
    case Start => c.phase.Advising?
    case CompleteInLoop(id, _) => id in c.started && id < |c.accepted|
    case CompleteElsewhere(id, _) => id in c.started
    case Return => c.phase.Handling?
    case EndBatch => c.phase.Looping? && c.todo == []
    case RunTask(id) => c.phase.Idle? && id in c.tasks
    case Disconnect => true
  }

  function Next(c: Conn, a: Action): Conn
    requires Enabled(c, a)
  {
    match a
    case Arrive(rs) =>
      if c.limit > 0 && |c.pipeline| + |rs| >= c.limit then c.(connected := false)
      else if !c.connected then c
      else c.(phase := Looping, batch := c.batch + 1, todo := rs)
    case Malformed(_) =>
      if c.connected then c.(complaint := Some(|c.sent|), connected := false) else c
    case Take =>
      var r := c.todo[0];
      var queued := c.pipeline != [];
      c.(phase := Advising(r, queued), todo := c.todo[1..], accepted := c.accepted + [r],
         pipeline := if queued then c.pipeline + [Slot(r, None)] else c.pipeline)
    case Refuse(response) =>
      var r := c.phase.request;
      var c' := c.(phase := Looping, answers := c.answers[r.id := response]);
      if !c.phase.queued then c'.(buffer := c.buffer + [Outgoing(response, r.head)])
      else
        (match IndexOf(c.pipeline, r.id)
         case None => c'.(broken := true)
         case Some(i) => c'.(pipeline := Fill(c.pipeline, i, response)))
    case Start =>
      c.(phase := Handling(c.phase.request, c.phase.queued, false), started := c.started + {c.phase.request.id})
    case CompleteInLoop(id, response) => HandleInLoop(c, c.accepted[id], response)
    case CompleteElsewhere(id, response) =>
      if !c.connected || id in c.answers then c
      else c.(answers := c.answers[id := response], tasks := c.tasks[id := response])
    case Return =>
      if !c.phase.queued && !c.phase.ready then
        c.(phase := Looping, pipeline := c.pipeline + [Slot(c.phase.request, None)])
      else c.(phase := Looping)
    case EndBatch =>
      if c.connected && c.buffer != [] then Flush(c.(phase := Idle)) else c.(phase := Idle)
    case RunTask(id) => HandleTask(c.(tasks := c.tasks - {id}), id, c.tasks[id])
    case Disconnect => c.(connected := false)
  }

  // The invariant.

  /** The request in hand is in neither the pipeline nor the buffer yet. */
  predicate InHand(c: Conn) {
    match c.phase
    case Advising(_, queued) => !queued
    case Handling(_, queued, ready) => !queued && !ready
    case _ => false
  }

  function Hand(c: Conn): nat { if InHand(c) then 1 else 0 }

  predicate Numbered(c: Conn) {
    && NumberedFrom(c.accepted, 0)
    && NumberedFrom(c.todo, |c.accepted|)
    && (forall i :: 0 <= i < |c.todo| ==> c.todo[i].batch == c.batch)
    && (forall id :: id in c.started ==> id < |c.accepted|)
    && (forall id :: id in c.answers ==> id < |c.accepted|)
    && (forall id :: id in c.tasks ==> id in c.answers && c.tasks[id] == c.answers[id])
  }

  /** Request `i` was answered by `o`, and no thread still holds an answer to it. */
  predicate Delivered(c: Conn, i: nat, o: Outgoing)
    requires i < |c.accepted|
  {
    && i in c.answers && i !in c.tasks
    && o == Outgoing(c.answers[i], c.accepted[i].head)
  }

  /** What has been sent answers the first requests, each once and in order, and nothing
      follows a response that closes the connection. */
  predicate SentInOrder(c: Conn) {
    && |c.sent| <= |c.accepted|
    && (forall i :: 0 <= i < |c.sent| ==> Delivered(c, i, c.sent[i]))
    && (forall i :: 0 <= i < |c.sent| && (c.connected || i < |c.sent| - 1) ==> !Closes(c.sent[i]))
  }

  /** A slot holds its request, and the answer once that has reached the loop thread. */
  predicate SlotFor(c: Conn, i: nat, s: Slot)
    requires i < |c.accepted|
  {
    && s.request == c.accepted[i]
    && match s.response
       case Some(response) => i in c.answers && i !in c.tasks && c.answers[i] == response
       case None => i in c.answers <==> i in c.tasks
  }

  /** Sent, buffered, waiting and in hand: together the accepted requests in order. */
  predicate Conserved(c: Conn) {
    var n, m := |c.sent|, |c.sent| + |c.buffer|;
    && m + |c.pipeline| + Hand(c) == |c.accepted|
    && (forall i :: 0 <= i < |c.buffer| ==> Delivered(c, n + i, c.buffer[i]))
    && (forall i :: 0 <= i < |c.pipeline| ==> SlotFor(c, m + i, c.pipeline[i]))
  }

  predicate PhaseFits(c: Conn) {
    match c.phase
    case Idle => c.todo == [] && (c.connected ==> c.buffer == [])
    case Looping => true
    case Advising(r, queued) =>
      && |c.accepted| > 0 && r == c.accepted[|c.accepted| - 1] && r.batch == c.batch
      && r.id !in c.answers && r.id !in c.started
      && (if queued then c.pipeline != [] && c.pipeline[|c.pipeline| - 1] == Slot(r, None) else c.pipeline == [])
    case Handling(r, queued, ready) =>
      && |c.accepted| > 0 && r == c.accepted[|c.accepted| - 1] && r.batch == c.batch
      && (!queued ==> c.pipeline == [])
      && (ready ==> !queued)
      && (c.connected && InHand(c) ==> (r.id in c.answers <==> r.id in c.tasks))
  }

  predicate WithinLimit(c: Conn) {
    c.limit > 0 ==> |c.pipeline| + |c.todo| + Hand(c) < c.limit
  }

  predicate Inv(c: Conn) {
    && !c.broken
    && Numbered(c)
    && SentInOrder(c)
    && PhaseFits(c)
    && WithinLimit(c)
    && (c.connected ==> Conserved(c))
  }

  // Each action keeps it.

  lemma ArriveKeeps(c: Conn, rs: seq<Request>)
    requires Inv(c) && Enabled(c, Arrive(rs))
    ensures Inv(Next(c, Arrive(rs)))
  {}

  lemma TakeConserves(c: Conn)
    requires Numbered(c) && Conserved(c) && Enabled(c, Take)
    ensures Conserved(Next(c, Take))
  {
    var c' := Next(c, Take);
    var m := |c.sent| + |c.buffer|;
    forall i | 0 <= i < |c'.buffer| ensures Delivered(c', |c.sent| + i, c'.buffer[i]) {
      assert Delivered(c, |c.sent| + i, c.buffer[i]);
    }
    forall i | 0 <= i < |c'.pipeline| ensures SlotFor(c', m + i, c'.pipeline[i]) {
      if i < |c.pipeline| {
        assert SlotFor(c, m + i, c.pipeline[i]);
      }
    }
  }

  lemma TakeKeeps(c: Conn)
    requires Inv(c) && Enabled(c, Take)
    ensures Inv(Next(c, Take))
  {
    if c.connected {
      TakeConserves(c);
    }
    hide Conserved;
  }

  lemma StartKeeps(c: Conn)
    requires Inv(c) && Enabled(c, Start)
    ensures Inv(Next(c, Start))
  {}

  lemma ElsewhereKeeps(c: Conn, id: nat, response: Response)
    requires Inv(c) && Enabled(c, CompleteElsewhere(id, response))
    ensures Inv(Next(c, CompleteElsewhere(id, response)))
  {}

  lemma ReturnConserves(c: Conn)
    requires Inv(c) && c.connected && c.phase.Handling?
    ensures Conserved(Next(c, Return))
  {
    var c' := Next(c, Return);
    var m := |c.sent| + |c.buffer|;
    forall i | 0 <= i < |c'.buffer| ensures Delivered(c', |c.sent| + i, c'.buffer[i]) {
      assert Delivered(c, |c.sent| + i, c.buffer[i]);
    }
    forall i | 0 <= i < |c'.pipeline| ensures SlotFor(c', m + i, c'.pipeline[i]) {
      if i < |c.pipeline| {
        assert SlotFor(c, m + i, c.pipeline[i]);
      }
    }
  }

  lemma ReturnKeeps(c: Conn)
    requires Inv(c) && Enabled(c, Return)
    ensures Inv(Next(c, Return))
  {
    if c.connected {
      ReturnConserves(c);
    }
    hide Conserved;
  }

  lemma DisconnectKeeps(c: Conn, dropped: seq<Request>)
    requires Inv(c)
    ensures Inv(Next(c, Disconnect))
    ensures c.phase.Idle? ==> Inv(Next(c, Malformed(dropped)))
  {}

  /** The slot of an unfinished request, counted from the front. */
  lemma SlotOf(c: Conn, id: nat)
    requires Numbered(c) && Conserved(c)
    requires id < |c.accepted|
    ensures IndexOf(c.pipeline, id) ==
            if |c.sent| + |c.buffer| <= id < |c.sent| + |c.buffer| + |c.pipeline|
            then Some(id - |c.sent| - |c.buffer|) else None
  {
    var m := |c.sent| + |c.buffer|;
    forall i | 0 <= i < |c.pipeline| ensures c.pipeline[i].request.id == m + i {
      assert SlotFor(c, m + i, c.pipeline[i]);
    }
    if m <= id < m + |c.pipeline| {
      assert c.pipeline[id - m].request.id == id;
    }
  }

  /** An answer reaches the slot of its request. */
  function Answered(c: Conn, i: nat, response: Response): Conn
    requires i < |c.pipeline|
  {
    var id := c.pipeline[i].request.id;
    c.(pipeline := Fill(c.pipeline, i, response),
       answers := c.answers[id := response], tasks := c.tasks - {id})
  }

  lemma AnsweredConserves(c: Conn, i: nat, response: Response)
    requires Numbered(c) && Conserved(c)
    requires i < |c.pipeline| && c.pipeline[i].response.None?
    requires var id := c.pipeline[i].request.id; id in c.tasks ==> c.tasks[id] == response
    ensures Conserved(Answered(c, i, response))
  {
    var m := |c.sent| + |c.buffer|;
    var c' := Answered(c, i, response);
    assert SlotFor(c, m + i, c.pipeline[i]);
    forall k | 0 <= k < |c'.pipeline| ensures SlotFor(c', m + k, c'.pipeline[k]) {
      assert SlotFor(c, m + k, c.pipeline[k]);
    }
    forall k | 0 <= k < |c'.buffer| ensures Delivered(c', |c.sent| + k, c'.buffer[k]) {
      assert Delivered(c, |c.sent| + k, c.buffer[k]);
    }
  }

  lemma AnsweredKeeps(c: Conn, i: nat, response: Response)
    requires Numbered(c) && SentInOrder(c) && Conserved(c)
    requires i < |c.pipeline| && c.pipeline[i].response.None?
    requires var id := c.pipeline[i].request.id; id in c.tasks ==> c.tasks[id] == response
    ensures var c' := Answered(c, i, response); Numbered(c') && SentInOrder(c') && Conserved(c')
  {
    AnsweredConserves(c, i, response);
    var m := |c.sent| + |c.buffer|;
    assert SlotFor(c, m + i, c.pipeline[i]);
    hide Conserved;
    var c' := Answered(c, i, response);
    forall k | 0 <= k < |c'.sent| ensures Delivered(c', k, c'.sent[k]) {
      assert Delivered(c, k, c.sent[k]);
    }
  }

  lemma RefuseDirect(c: Conn, response: Response)
    requires Inv(c) && c.phase.Advising? && !c.phase.queued
    ensures Inv(Next(c, Refuse(response)))
  {}

  lemma RefuseFillsSlot(c: Conn, response: Response)
    requires Inv(c) && c.connected && c.phase.Advising? && c.phase.queued
    ensures Next(c, Refuse(response)) == Answered(c, |c.pipeline| - 1, response).(phase := Looping)
  {
    SlotOf(c, c.phase.request.id);
    hide IndexOf;
    assert c.tasks - {c.phase.request.id} == c.tasks;
  }

  /** The phase matters to what is kept only through the request in hand. */
  lemma PhaseChanges(c: Conn, phase: Phase)
    requires Numbered(c) && SentInOrder(c)
    ensures var c' := c.(phase := phase);
            && Numbered(c') && SentInOrder(c')
            && (Hand(c) == Hand(c') && Conserved(c) ==> Conserved(c'))
  {
    var c' := c.(phase := phase);
    assert forall i, o :: 0 <= i < |c.accepted| ==> Delivered(c, i, o) == Delivered(c', i, o);
    assert forall i, o :: 0 <= i < |c.accepted| ==> SlotFor(c, i, o) == SlotFor(c', i, o);
  }

  lemma RefuseQueued(c: Conn, response: Response)
    requires Inv(c) && c.connected && c.phase.Advising? && c.phase.queued
    ensures Inv(Next(c, Refuse(response)))
  {
    var k := |c.pipeline| - 1;
    RefuseFillsSlot(c, response);
    AnsweredKeeps(c, k, response);
    PhaseChanges(Answered(c, k, response), Looping);
    hide IndexOf, Numbered, SentInOrder, Conserved, Next;
  }

  lemma RefuseKeeps(c: Conn, response: Response)
    requires Inv(c) && Enabled(c, Refuse(response))
    ensures Inv(Next(c, Refuse(response)))
  {
    if !c.phase.queued {
      RefuseDirect(c, response);
    } else if c.connected {
      RefuseQueued(c, response);
    } else {
      hide Conserved;
    }
  }

  lemma PopFillsBuffer(c: Conn)
    requires Numbered(c) && Conserved(c)
    ensures forall i :: 0 <= i < |Pop(c).buffer| ==> Delivered(c, |c.sent| + i, Pop(c).buffer[i])
  {
    var n := Ready(c.pipeline);
    var popped := Outputs(c.pipeline[..n]);
    var m := |c.sent| + |c.buffer|;
    forall i | 0 <= i < n ensures Delivered(c, m + i, popped[i]) {
      assert SlotFor(c, m + i, c.pipeline[i]);
    }
    hide Outputs, Conserved, Delivered;
    assert forall i :: 0 <= i < |c.buffer| ==> Delivered(c, |c.sent| + i, c.buffer[i]);
    var all := c.buffer + popped;
    forall i | 0 <= i < |all| ensures Delivered(c, |c.sent| + i, all[i]) {
      assert i >= |c.buffer| ==> all[i] == popped[i - |c.buffer|] && Delivered(c, m + (i - |c.buffer|), all[i]);
    }
  }

  /** Popping moves ready responses from the pipeline to the buffer, in order. */
  lemma PopKeeps(c: Conn)
    requires Numbered(c) && Conserved(c)
    ensures Numbered(Pop(c)) && Conserved(Pop(c))
  {
    PopFillsBuffer(c);
    hide Outputs;
    var c' := Pop(c);
    var n := Ready(c.pipeline);
    var m := |c.sent| + |c.buffer|;
    forall i | 0 <= i < |c'.pipeline| ensures SlotFor(c', m + n + i, c'.pipeline[i]) {
      assert SlotFor(c, m + (n + i), c.pipeline[n + i]);
    }
    forall i | 0 <= i < |c'.buffer| ensures Delivered(c', |c.sent| + i, c'.buffer[i]) {
      assert Delivered(c, |c.sent| + i, c'.buffer[i]);
    }
  }

  /** Sending the buffer continues what was sent. */
  lemma FlushKeeps(c: Conn)
    requires c.connected && Numbered(c) && SentInOrder(c) && Conserved(c)
    ensures Numbered(Flush(c)) && SentInOrder(Flush(c))
    ensures Flush(c).connected ==> Conserved(Flush(c)) && |Flush(c).sent| == |c.sent| + |c.buffer|
  {
    var c' := Flush(c);
    var n := Sendable(c.buffer);
    forall i | 0 <= i < |c'.sent| ensures Delivered(c', i, c'.sent[i]) {
      if i < |c.sent| {
        assert Delivered(c, i, c.sent[i]);
      } else {
        assert Delivered(c, |c.sent| + (i - |c.sent|), c.buffer[i - |c.sent|]);
      }
    }
    forall i | 0 <= i < |c'.sent| && (c'.connected || i < |c'.sent| - 1) ensures !Closes(c'.sent[i]) {
      if i >= |c.sent| {
        assert c'.sent[i] == c.buffer[i - |c.sent|];
      }
    }
    if c'.connected {
      assert n == |c.buffer|;
      forall i | 0 <= i < |c'.pipeline| ensures SlotFor(c', |c'.sent| + i, c'.pipeline[i]) {
        assert SlotFor(c, |c.sent| + |c.buffer| + i, c.pipeline[i]);
      }
    }
  }

  /** What happens once slot `i` has been filled. */
  function Forward(c: Conn, i: nat, inLoop: bool): Conn {
    if i != 0 then c else if inLoop then Pop(c) else Flush(Pop(c))
  }

  lemma PopFits(c: Conn)
    requires PhaseFits(c) && WithinLimit(c)
    requires c.pipeline != []
    requires !c.phase.Idle?
    ensures PhaseFits(Pop(c)) && WithinLimit(Pop(c))
  {
    hide Outputs;
    var n := Ready(c.pipeline);
    if c.phase.Advising? && c.phase.queued {
      assert n < |c.pipeline|;
    }
  }

  lemma FlushFits(c: Conn)
    requires PhaseFits(c) && WithinLimit(c)
    ensures PhaseFits(Flush(c)) && WithinLimit(Flush(c))
  {}

  lemma IdlePopFits(c: Conn)
    requires PhaseFits(c) && WithinLimit(c) && c.phase.Idle?
    ensures PhaseFits(Flush(Pop(c))) && WithinLimit(Flush(Pop(c)))
  {
    hide Outputs;
  }

  lemma ForwardKeeps(c: Conn, i: nat, inLoop: bool)
    requires Inv(c) && c.connected && c.pipeline != []
    requires inLoop ==> !c.phase.Idle?
    ensures Inv(Forward(c, i, inLoop))
  {
    if i == 0 {
      PopKeeps(c);
      if !c.phase.Idle? {
        PopFits(c);
        FlushFits(Pop(c));
      } else {
        IdlePopFits(c);
      }
      SentUnpopped(c);
      FlushKeeps(Pop(c));
      hide Numbered, SentInOrder, Conserved, PhaseFits, WithinLimit;
    }
  }

  lemma SentUnpopped(c: Conn)
    requires SentInOrder(c)
    ensures SentInOrder(Pop(c))
  {
    hide Outputs;
    var c' := Pop(c);
    assert forall i, o :: 0 <= i < |c.accepted| ==> Delivered(c, i, o) == Delivered(c', i, o);
  }

  lemma InLoopUsesSlot(c: Conn, id: nat, response: Response)
    requires Inv(c) && c.connected && c.pipeline != []
    requires id < |c.accepted| && id !in c.answers
    ensures var i := id - |c.sent| - |c.buffer|;
            && 0 <= i < |c.pipeline|
            && c.pipeline[i].request.id == id
            && HandleInLoop(c, c.accepted[id], response) ==
               Forward(Answered(c, i, response), i, InLoop(c, c.accepted[id].batch))
  {
    var i := id - |c.sent| - |c.buffer|;
    Unanswered(c, id);
    SlotOf(c, id);
    assert SlotFor(c, |c.sent| + |c.buffer| + i, c.pipeline[i]);
    assert c.tasks - {id} == c.tasks;
    hide IndexOf, Pop, Flush;
  }

  /** A request without an answer has not been sent or buffered. */
  lemma Unanswered(c: Conn, id: nat)
    requires SentInOrder(c) && Conserved(c)
    requires id < |c.accepted| && (id !in c.answers || id in c.tasks)
    ensures |c.sent| + |c.buffer| <= id
  {
    var n := |c.sent|;
    forall j | 0 <= j < n ensures j in c.answers && j !in c.tasks {
      assert Delivered(c, j, c.sent[j]);
    }
    forall j | n <= j < n + |c.buffer| ensures j in c.answers && j !in c.tasks {
      assert Delivered(c, n + (j - n), c.buffer[j - n]);
    }
  }

  lemma AnsweredFits(c: Conn, i: nat, response: Response)
    requires PhaseFits(c) && WithinLimit(c) && NumberedFrom(c.accepted, 0)
    requires i < |c.pipeline|
    requires var id := c.pipeline[i].request.id; id in c.started || id in c.answers
    ensures PhaseFits(Answered(c, i, response)) && WithinLimit(Answered(c, i, response))
  {}

  /** The answer fills the slot of a request that waits for it. */
  lemma AnsweredInv(c: Conn, i: nat, response: Response)
    requires Inv(c) && c.connected && i < |c.pipeline|
    requires var id := c.pipeline[i].request.id;
             if id in c.tasks then c.tasks[id] == response else id in c.started && id !in c.answers
    ensures Inv(Answered(c, i, response)) && c.pipeline[i].response.None?
  {
    assert SlotFor(c, |c.sent| + |c.buffer| + i, c.pipeline[i]);
    assert c.pipeline[i].request.id in c.tasks ==> c.pipeline[i].request.id in c.answers;
    assert c.pipeline[i].response.None?;
    hide Conserved, Answered, SentInOrder;
    AnsweredKeeps(c, i, response);
    AnsweredFits(c, i, response);
    AnsweredStays(c, i, response);
    hide Numbered, PhaseFits, WithinLimit;
  }

  lemma AnsweredStays(c: Conn, i: nat, response: Response)
    requires i < |c.pipeline|
    ensures var c' := Answered(c, i, response);
            && c'.broken == c.broken && c'.connected == c.connected && c'.phase == c.phase
            && c'.batch == c.batch && |c'.pipeline| == |c.pipeline|
  {}

  lemma SlotKeeps(c: Conn, id: nat, response: Response)
    requires Inv(c) && c.connected && c.pipeline != []
    requires id in c.started && id !in c.answers
    ensures Inv(HandleInLoop(c, c.accepted[id], response))
  {
    assert id !in c.tasks;
    InLoopUsesSlot(c, id, response);
    hide Inv, Forward, HandleInLoop, Answered;
    var i := id - |c.sent| - |c.buffer|;
    AnsweredInv(c, i, response);
    AnsweredStays(c, i, response);
    ForwardKeeps(Answered(c, i, response), i, InLoop(c, c.accepted[id].batch));
  }

  lemma DirectKeeps(c: Conn, id: nat, response: Response)
    requires Inv(c) && c.connected && c.pipeline == []
    requires id in c.started && id !in c.answers
    ensures c.phase.Handling? && InLoop(c, c.phase.request.batch) && c.phase.request.id == id
    ensures Inv(HandleInLoop(c, c.accepted[id], response))
  {
    Unanswered(c, id);
    assert c.phase.Handling? && c.phase.request.id == id;
  }

  lemma InLoopKeeps(c: Conn, id: nat, response: Response)
    requires Inv(c) && Enabled(c, CompleteInLoop(id, response))
    ensures Inv(Next(c, CompleteInLoop(id, response)))
  {
    if c.connected && id !in c.answers {
      if c.pipeline == [] {
        DirectKeeps(c, id, response);
      } else {
        SlotKeeps(c, id, response);
      }
    } else {
      assert c.accepted[id].id == id;
    }
    hide Inv;
  }

  lemma EndBatchKeeps(c: Conn)
    requires Inv(c) && Enabled(c, EndBatch)
    ensures Inv(Next(c, EndBatch))
  {
    PhaseChanges(c, Idle);
    var c' := c.(phase := Idle);
    if c.connected {
      FlushKeeps(c');
    }
    hide Numbered, SentInOrder, Conserved;
  }

  lemma TaskUsesSlot(c: Conn, id: nat)
    requires Inv(c) && c.connected && Enabled(c, RunTask(id))
    ensures var i := id - |c.sent| - |c.buffer|;
            && 0 <= i < |c.pipeline|
            && c.pipeline[i].request.id == id
            && Next(c, RunTask(id)) == Forward(Answered(c, i, c.tasks[id]), i, false)
  {
    var i := id - |c.sent| - |c.buffer|;
    Unanswered(c, id);
    SlotOf(c, id);
    assert SlotFor(c, |c.sent| + |c.buffer| + i, c.pipeline[i]);
    assert c.answers[id := c.tasks[id]] == c.answers;
    var c' := Answered(c, i, c.tasks[id]);
    var n := Ready(c'.pipeline);
    assert [] + Outputs(c'.pipeline[..n]) == Outputs(c'.pipeline[..n]);
    hide IndexOf;
  }

  lemma DeliveredTaskKeeps(c: Conn, id: nat)
    requires Inv(c) && c.connected && Enabled(c, RunTask(id))
    ensures Inv(Next(c, RunTask(id)))
  {
    TaskUsesSlot(c, id);
    hide Inv, Next, Forward, Answered;
    var i := id - |c.sent| - |c.buffer|;
    AnsweredInv(c, i, c.tasks[id]);
    AnsweredStays(c, i, c.tasks[id]);
    ForwardKeeps(Answered(c, i, c.tasks[id]), i, false);
  }

  lemma TaskKeeps(c: Conn, id: nat)
    requires Inv(c) && Enabled(c, RunTask(id))
    ensures Inv(Next(c, RunTask(id)))
  {
    if c.connected {
      DeliveredTaskKeeps(c, id);
    } else {
      DroppedTaskKeeps(c, id);
    }
    hide Inv, Next;
  }

  lemma DroppedTaskKeeps(c: Conn, id: nat)
    requires Inv(c) && !c.connected && Enabled(c, RunTask(id))
    ensures Inv(Next(c, RunTask(id)))
  {}

  lemma StepKeeps(c: Conn, a: Action)
    requires Inv(c) && Enabled(c, a)
    ensures Inv(Next(c, a))
  {
    hide Inv, Next;
    match a
    case Arrive(rs) => ArriveKeeps(c, rs);
    case Malformed(dropped) => DisconnectKeeps(c, dropped);
    case Take => TakeKeeps(c);
    case Refuse(response) => RefuseKeeps(c, response);
    case Start => StartKeeps(c);
    case CompleteInLoop(id, response) => InLoopKeeps(c, id, response);
    case CompleteElsewhere(id, response) => ElsewhereKeeps(c, id, response);
    case Return => ReturnKeeps(c);
    case EndBatch => EndBatchKeeps(c);
    case RunTask(id) => TaskKeeps(c, id);
    case Disconnect => DisconnectKeeps(c, []);
  }

  // Whole runs.

  function Step(c: Conn, a: Action): Option<Conn> {
    if Enabled(c, a) then Some(Next(c, a)) else None
  }

  lemma RunInv(limit: nat, actions: seq<Action>)
    requires Run(Step, Init(limit), actions).Some?
    ensures var c := Run(Step, Init(limit), actions).value; Inv(c) && c.limit == limit
  {
    var inv := (c: Conn) => Inv(c) && c.limit == limit;
    forall c, a | inv(c) && Step(c, a).Some? ensures inv(Step(c, a).value) {
      StepKeeps(c, a);
      NothingTakenBack(c, a);
      hide Inv, Next;
    }
    RunKeeps(Step, inv, Init(limit), actions);
    hide Inv;
  }

  /** However the handlers, the loop thread and the other threads interleave: the k-th
      response sent is the first answer to the k-th request, with that request's HEAD flag;
      nothing follows a closing response; the wait never exceeds the configured limit; and
      no assertion of the source fails. */
  lemma ResponsesInOrder(limit: nat, actions: seq<Action>)
    requires Run(Step, Init(limit), actions).Some?
    ensures var c := Run(Step, Init(limit), actions).value;
            && !c.broken
            && |c.sent| <= |c.accepted|
            && (forall i :: 0 <= i < |c.sent| ==>
                  i in c.answers && c.sent[i] == Outgoing(c.answers[i], c.accepted[i].head))
            && (forall i :: 0 <= i < |c.sent| - 1 ==> !Closes(c.sent[i]))
            && (limit > 0 ==> |c.pipeline| < limit)
  {
    RunInv(limit, actions);
    var c := Run(Step, Init(limit), actions).value;
    forall i | 0 <= i < |c.sent| ensures i in c.answers && c.sent[i] == Outgoing(c.answers[i], c.accepted[i].head) {
      assert Delivered(c, i, c.sent[i]);
    }
    hide Numbered, PhaseFits, Conserved, Run;
  }

  /** Handling a response appends to what was sent; requests, limit and batches stay. */
  lemma ResponseAppends(c: Conn, r: Request, id: nat, response: Response)
    ensures var c' := HandleInLoop(c, r, response);
            c.sent <= c'.sent && c'.accepted == c.accepted && c'.limit == c.limit && c'.complaint == c.complaint
    ensures var c' := HandleTask(c, id, response);
            c.sent <= c'.sent && c'.accepted == c.accepted && c'.limit == c.limit && c'.complaint == c.complaint
  {
    hide IndexOf, Fill, Ready, Outputs, Sendable;
  }

  /** What was sent or accepted is not taken back, and the limit stays. */
  lemma NothingTakenBack(c: Conn, a: Action)
    requires Enabled(c, a)
    ensures c.sent <= Next(c, a).sent && c.accepted <= Next(c, a).accepted && Next(c, a).limit == c.limit
  {
    match a
    case CompleteInLoop(id, response) => ResponseAppends(c, c.accepted[id], 0, response);
    case RunTask(id) => ResponseAppends(c.(tasks := c.tasks - {id}), Request(0, false, 0), id, c.tasks[id]);
    case _ =>
    hide IndexOf, Fill, Sendable, HandleInLoop, HandleTask;
  }

  lemma ResponseKeepsAnswers(c: Conn, r: Request, id: nat, response: Response)
    ensures var c' := HandleInLoop(c, r, response);
            forall i :: i in c.answers ==> i in c'.answers && c'.answers[i] == c.answers[i]
    ensures HandleTask(c, id, response).answers == c.answers
  {
    hide IndexOf, Fill, Ready, Outputs, Sendable;
  }

  /** The first answer to a request stands: a second one is ignored. */
  lemma FirstAnswerStands(c: Conn, a: Action)
    requires Inv(c) && Enabled(c, a)
    ensures forall id :: id in c.answers ==> id in Next(c, a).answers && Next(c, a).answers[id] == c.answers[id]
  {
    match a
    case CompleteInLoop(id, response) => ResponseKeepsAnswers(c, c.accepted[id], 0, response);
    case RunTask(id) => ResponseKeepsAnswers(c.(tasks := c.tasks - {id}), Request(0, false, 0), id, c.tasks[id]);
    case _ =>
    hide IndexOf, Fill, Sendable, HandleInLoop, HandleTask, Conserved, SentInOrder, WithinLimit, Numbered;
  }

  // Is everything answered also sent?

  /** An answered request heads the pipeline: nothing will pop it. */
  predicate Stalled(c: Conn) {
    c.pipeline != [] && c.pipeline[0].response.Some?
  }

  /** At rest, with every request answered and no task under way: all responses have been
      sent, in order, unless the pipeline is stalled. */
  lemma EverythingSent(c: Conn)
    requires Inv(c) && c.connected && c.phase.Idle? && c.tasks == map[]
    requires forall i :: 0 <= i < |c.accepted| ==> i in c.answers
    ensures |c.sent| == |c.accepted| <==> !Stalled(c)
  {
    if c.pipeline != [] {
      assert SlotFor(c, |c.sent| + |c.buffer| + 0, c.pipeline[0]);
    }
  }

  lemma ForwardUnstalls(c: Conn, i: nat, response: Response, inLoop: bool)
    requires i < |c.pipeline| && c.pipeline[i].response.None?
    ensures Stalled(Forward(Answered(c, i, response), i, inLoop)) == Stalled(c)
  {
    hide Outputs, Sendable;
  }

  lemma InLoopUnstalls(c: Conn, id: nat, response: Response)
    requires Inv(c) && c.connected && Enabled(c, CompleteInLoop(id, response))
    ensures Stalled(Next(c, CompleteInLoop(id, response))) == Stalled(c)
  {
    assert c.accepted[id].id == id;
    if c.pipeline != [] && id !in c.answers {
      InLoopUsesSlot(c, id, response);
      var i := id - |c.sent| - |c.buffer|;
      assert SlotFor(c, |c.sent| + |c.buffer| + i, c.pipeline[i]);
      hide HandleInLoop, Inv, Stalled, Forward, Answered;
      ForwardUnstalls(c, i, response, InLoop(c, c.accepted[id].batch));
    }
  }

  lemma TaskUnstalls(c: Conn, id: nat)
    requires Inv(c) && c.connected && Enabled(c, RunTask(id))
    ensures Stalled(Next(c, RunTask(id))) == Stalled(c)
  {
    TaskUsesSlot(c, id);
    var i := id - |c.sent| - |c.buffer|;
    assert SlotFor(c, |c.sent| + |c.buffer| + i, c.pipeline[i]);
    ForwardUnstalls(c, i, c.tasks[id], false);
    hide Next, Inv, Stalled, Forward, Answered;
  }

  lemma RefuseStalls(c: Conn, response: Response)
    requires Inv(c) && c.connected && c.phase.Advising?
    ensures Stalled(Next(c, Refuse(response))) <==> Stalled(c) || (c.phase.queued && |c.pipeline| == 1)
  {
    if c.phase.queued {
      RefuseFillsSlot(c, response);
    }
    hide Inv;
  }

  /** A pipeline stalls exactly when a synchronous advice refuses a request that was queued
      behind others and has meanwhile become the only one: its answer is not popped.  Once
      stalled it stays so. */
  lemma StallCause(c: Conn, a: Action)
    requires Inv(c) && c.connected && Enabled(c, a)
    ensures Stalled(Next(c, a)) <==> Stalled(c) || (a.Refuse? && c.phase.queued && |c.pipeline| == 1)
  {
    match a
    case Refuse(response) => RefuseStalls(c, response);
    case CompleteInLoop(id, response) => InLoopUnstalls(c, id, response);
    case RunTask(id) => TaskUnstalls(c, id);
    case _ => hide Inv, Sendable;
  }

  /** The advice completes no other request while it looks at its own. */
  predicate Quiet(c: Conn, a: Action) {
    a.CompleteInLoop? ==> !c.phase.Advising?
  }

  /** A step of a run in which every advice is quiet. */
  function QuietStep(c: Conn, a: Action): Option<Conn> {
    if Quiet(c, a) then Step(c, a) else None
  }

  predicate Flowing(c: Conn) {
    c.connected ==> !Stalled(c) && (c.phase.Advising? && c.phase.queued ==> |c.pipeline| > 1)
  }

  lemma QuietKeeps(c: Conn, a: Action)
    requires Inv(c) && Flowing(c) && Enabled(c, a) && Quiet(c, a)
    ensures Flowing(Next(c, a))
  {
    if c.connected {
      StallCause(c, a);
    }
    hide Inv, IndexOf, Sendable, Outputs, Ready;
  }

  /** In a quiet run that has come to rest, every answered request has had its response. */
  lemma QuietRunSendsAll(limit: nat, actions: seq<Action>)
    requires Run(QuietStep, Init(limit), actions).Some?
    requires var c := Run(QuietStep, Init(limit), actions).value;
             && c.connected && c.phase.Idle? && c.tasks == map[]
             && forall i :: 0 <= i < |c.accepted| ==> i in c.answers
    ensures var c := Run(QuietStep, Init(limit), actions).value; |c.sent| == |c.accepted|
  {
    var inv := (c: Conn) => Inv(c) && Flowing(c);
    forall c, a | inv(c) && QuietStep(c, a).Some? ensures inv(QuietStep(c, a).value) {
      StepKeeps(c, a);
      QuietKeeps(c, a);
      hide Inv, Flowing, Next;
    }
    RunKeeps(QuietStep, inv, Init(limit), actions);
    hide Inv, Run;
    EverythingSent(Run(QuietStep, Init(limit), actions).value);
  }

  lemma RunCons(c: Conn, a: Action, rest: seq<Action>)
    requires Enabled(c, a)
    ensures Run(Step, c, [a] + rest) == Run(Step, Next(c, a), rest)
  {
    assert ([a] + rest)[1..] == rest;
    hide Next, Enabled;
  }

  const R0 := Request(0, false, 1)
  const R1 := Request(1, false, 1)

  /** Two requests came together; the handler of the first has returned without an answer,
      and the advice looks at the second. */
  const WAITING :=
    Conn(0, Advising(R1, true), 1, [], [Slot(R0, None), Slot(R1, None)], [], [],
         map[], true, [R0, R1], map[], {0}, None, false)

  lemma WaitingReached(rest: seq<Action>) returns (actions: seq<Action>)
    ensures Run(Step, Init(0), actions) == Run(Step, WAITING, rest)
  {
    var c1 := Next(Init(0), Arrive([R0, R1]));
    var c2 := Next(c1, Take);
    var c3 := Next(c2, Start);
    var c4 := Next(c3, Return);
    assert Next(c4, Take) == WAITING;
    hide Next, Run;
    RunCons(c4, Take, rest);
    RunCons(c3, Return, [Take] + rest);
    RunCons(c2, Start, [Return] + ([Take] + rest));
    RunCons(c1, Take, [Start] + ([Return] + ([Take] + rest)));
    actions := [Arrive([R0, R1])] + ([Take] + ([Start] + ([Return] + ([Take] + rest))));
    RunCons(Init(0), Arrive([R0, R1]), actions[1..]);
  }

  lemma WaitingStalls(first: Response, second: Response)
    requires !first.close
    ensures var c6 := Next(WAITING, CompleteInLoop(0, first));
            var c7 := Next(c6, Refuse(second));
            && c6.phase.Advising? && c7.phase.Looping? && c7.todo == []
            && var c := Next(c7, EndBatch);
               && c.connected && c.phase.Idle? && c.tasks == map[]
               && c.answers == map[0 := first, 1 := second]
               && |c.accepted| == 2 && c.sent == [Outgoing(first, false)]
  {
    var filled := [Slot(R0, Some(first)), Slot(R1, None)];
    assert filled[1..] == [Slot(R1, None)] && filled[..1] == [Slot(R0, Some(first))];
    assert Ready(filled) == 1;
    assert Outputs(filled[..1]) == [Outgoing(first, false)];
    var c6 := Next(WAITING, CompleteInLoop(0, first));
    assert c6.pipeline == [Slot(R1, None)] && c6.buffer == [Outgoing(first, false)];
    assert Sendable(c6.buffer) == 1;
  }

  /** An advice that answers the request before its own and then refuses its own: the
      second response is never sent. */
  lemma OvertakenAdviceStalls(first: Response, second: Response) returns (actions: seq<Action>)
    requires !first.close
    ensures Run(Step, Init(0), actions).Some?
    ensures var c := Run(Step, Init(0), actions).value;
            && c.connected && c.phase.Idle? && c.tasks == map[]
            && c.answers == map[0 := first, 1 := second]
            && |c.accepted| == 2 && c.sent == [Outgoing(first, false)]
  {
    WaitingStalls(first, second);
    hide Next;
    var c6 := Next(WAITING, CompleteInLoop(0, first));
    var c7 := Next(c6, Refuse(second));
    assert Run(Step, Next(c7, EndBatch), []) == Some(Next(c7, EndBatch));
    hide Run;
    RunCons(c7, EndBatch, []);
    RunCons(c6, Refuse(second), [EndBatch] + []);
    RunCons(WAITING, CompleteInLoop(0, first), [Refuse(second)] + ([EndBatch] + []));
    actions := WaitingReached([CompleteInLoop(0, first)] + ([Refuse(second)] + ([EndBatch] + [])));
  }

  // A malformed message.

  /** The error for a malformed message is sent at once.  It stands in its place, behind
      the responses to the messages before it, only if those were all sent and none came
      in the same read: the requests of that read are dropped. */
  lemma ComplaintInPlace(c: Conn, dropped: seq<Request>)
    requires Inv(c) && c.connected && c.phase.Idle?
    ensures var c' := Next(c, Malformed(dropped));
            && c'.complaint == Some(|c.sent|) && !c'.connected
            && (c'.complaint == Some(|c.accepted| + |dropped|) <==> c.pipeline == [] && dropped == [])
  {
  }

  /** A request whose handler has not answered when the malformed message comes: the error
      stands where the response to that request belongs. */
  lemma ComplaintOvertakes() returns (actions: seq<Action>)
    ensures Run(Step, Init(0), actions).Some?
    ensures var c := Run(Step, Init(0), actions).value;
            |c.accepted| == 1 && c.sent == [] && c.complaint == Some(0)
  {
    var c1 := Next(Init(0), Arrive([R0]));
    var c2 := Next(c1, Take);
    var c3 := Next(c2, Start);
    var c4 := Next(c3, Return);
    var c5 := Next(c4, EndBatch);
    var c6 := Next(c5, Malformed([]));
    assert c6.accepted == [R0] && c6.sent == [] && c6.complaint == Some(0);
    assert Run(Step, c6, []) == Some(c6);
    hide Next, Run;
    RunCons(c5, Malformed([]), []);
    RunCons(c4, EndBatch, [Malformed([])] + []);
    RunCons(c3, Return, [EndBatch] + ([Malformed([])] + []));
    RunCons(c2, Start, [Return] + ([EndBatch] + ([Malformed([])] + [])));
    RunCons(c1, Take, [Start] + ([Return] + ([EndBatch] + ([Malformed([])] + []))));
    actions := [Arrive([R0])] + ([Take] + ([Start] + ([Return] + ([EndBatch] + ([Malformed([])] + [])))));
    RunCons(Init(0), Arrive([R0]), actions[1..]);
  }

  /** A good request in the same read as the malformed message: it is dropped, and the error
      stands where its response belongs. */
  lemma ComplaintDrops()
    ensures var run := Run(Step, Init(0), [Malformed([R0])]);
            run.Some? && run.value.accepted == [] && run.value.sent == [] && run.value.complaint == Some(0)
  {
    assert [Malformed([R0])] == [Malformed([R0])] + [];
    RunCons(Init(0), Malformed([R0]), []);
  }

  lemma SilentStep(c: Conn, a: Action)
    requires Enabled(c, a) && !c.connected
    ensures !Next(c, a).connected && Next(c, a).sent == c.sent && Next(c, a).complaint == c.complaint
  {
    hide IndexOf, Fill, Sendable, Outputs, Ready;
  }

  lemma ComplaintStep(c: Conn, a: Action)
    requires Enabled(c, a) && c.connected
    ensures a.Malformed? ==> !Next(c, a).connected && Next(c, a).complaint == Some(|Next(c, a).sent|)
    ensures !a.Malformed? ==> Next(c, a).complaint == c.complaint
  {
    match a
    case CompleteInLoop(id, response) => ResponseAppends(c, c.accepted[id], 0, response);
    case RunTask(id) => ResponseAppends(c.(tasks := c.tasks - {id}), Request(0, false, 0), id, c.tasks[id]);
    case _ =>
    hide IndexOf, Fill, Sendable, HandleInLoop, HandleTask;
  }

  /** In every run the error is the last thing sent: it stands behind the responses sent
      before it, and nothing is sent after it. */
  lemma ComplaintIsLast(limit: nat, before: seq<Action>, after: seq<Action>)
    requires var r := Run(Step, Init(limit), before);
             r.Some? && r.value.complaint.Some? && Run(Step, r.value, after).Some?
    ensures var c := Run(Step, Init(limit), before).value;
            var d := Run(Step, c, after).value;
            && c.complaint == Some(|c.sent|)
            && d.sent == c.sent && d.complaint == c.complaint && !d.connected
  {
    var inv := (c: Conn) => c.complaint.Some? ==> !c.connected && c.complaint == Some(|c.sent|);
    forall c, a | inv(c) && Step(c, a).Some? ensures inv(Step(c, a).value) {
      if c.connected {
        ComplaintStep(c, a);
      } else {
        SilentStep(c, a);
      }
      hide Next;
    }
    RunKeeps(Step, inv, Init(limit), before);
    var c := Run(Step, Init(limit), before).value;
    var same := (d: Conn) => !d.connected && d.sent == c.sent && d.complaint == c.complaint;
    forall d, a | same(d) && Step(d, a).Some? ensures same(Step(d, a).value) {
      SilentStep(d, a);
      hide Next;
    }
    RunKeeps(Step, same, c, after);
  }
}
