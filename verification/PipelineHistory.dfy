/** A connection against the history of its run: which requests were taken, and which
    completion answered each, read off the actions alone. */
module PipelineHistory {
  import opened Text
  import opened PipelineQueue
  import opened Runs
  import opened Pipelining

  /** A batch is taken while the connection stands and the limit leaves room for it. */
  predicate TakesIn(c: Conn, a: Action) {
    a.Arrive? && c.connected && (c.limit > 0 ==> |c.pipeline| + |a.requests| < c.limit)
  }

  /** The requests of the batches taken in a run, in order. */
  function Arrivals(c: Conn, actions: seq<Action>): seq<Request>
    requires Run(Step, c, actions).Some?
    decreases |actions|
  {
    if actions == [] then []
    else (if TakesIn(c, actions[0]) then actions[0].requests else []) + Arrivals(Next(c, actions[0]), actions[1..])
  }

  lemma StepArrives(c: Conn, a: Action)
    requires Enabled(c, a) && Inv(c)
    ensures var d := Next(c, a);
            d.accepted + d.todo == c.accepted + c.todo + if TakesIn(c, a) then a.requests else []
  {
    match a
    case CompleteInLoop(id, response) => HandlingKeepsTodo(c, c.accepted[id], 0, response);
    case RunTask(id) => HandlingKeepsTodo(c.(tasks := c.tasks - {id}), Request(0, false, 0), id, c.tasks[id]);
    case _ =>
    hide IndexOf, Fill, Sendable, HandleInLoop, HandleTask, Numbered, SentInOrder, Conserved;
  }

  lemma HandlingKeepsTodo(c: Conn, r: Request, id: nat, response: Response)
    ensures HandleInLoop(c, r, response).todo == c.todo && HandleTask(c, id, response).todo == c.todo
    ensures HandleInLoop(c, r, response).accepted == c.accepted && HandleTask(c, id, response).accepted == c.accepted
    ensures HandleInLoop(c, r, response).started == c.started && HandleTask(c, id, response).started == c.started
  {
    hide IndexOf, Fill, Ready, Outputs, Sendable;
  }

  lemma Regroup(a: seq<Request>, b: seq<Request>, c: seq<Request>)
    ensures a + b + c == a + (b + c)
  {}

  /** Every request of a batch taken is accepted, in order, or still to be looked at. */
  lemma {:induction false} AllTaken(c: Conn, actions: seq<Action>)
    requires Inv(c) && Run(Step, c, actions).Some?
    ensures var d := Run(Step, c, actions).value;
            d.accepted + d.todo == c.accepted + c.todo + Arrivals(c, actions)
    decreases |actions|
  {
    if actions == [] {
      assert c.accepted + c.todo + [] == c.accepted + c.todo;
    } else {
      var a := actions[0];
      StepArrives(c, a);
      StepKeeps(c, a);
      hide Next, Inv, Enabled, TakesIn;
      AllTaken(Next(c, a), actions[1..]);
      Regroup(c.accepted + c.todo, if TakesIn(c, a) then a.requests else [], Arrivals(Next(c, a), actions[1..]));
    }
  }

  /** The response an action gives to a request: the advice refuses the request in hand, or
      its handler completes it while the connection stands. */
  function ReplyIn(c: Conn, a: Action, id: nat): Option<Response> {
    match a
    case Refuse(response) => if |c.accepted| == id + 1 then Some(response) else None
    case CompleteInLoop(i, response) => if i == id && c.connected then Some(response) else None
    case CompleteElsewhere(i, response) => if i == id && c.connected then Some(response) else None
    case _ => None
  }

  /** The first of them in a run. */
  function FirstReply(c: Conn, actions: seq<Action>, id: nat): Option<Response>
    requires Run(Step, c, actions).Some?
    decreases |actions|
  {
    if actions == [] then None
    else if ReplyIn(c, actions[0], id).Some? then ReplyIn(c, actions[0], id)
    else FirstReply(Next(c, actions[0]), actions[1..], id)
  }

  function AnswerTo(c: Conn, id: nat): Option<Response> {
    if id in c.answers then Some(c.answers[id]) else None
  }

  lemma HandlingAnswers(c: Conn, r: Request, id: nat, response: Response, k: nat)
    ensures AnswerTo(HandleTask(c, id, response), k) == AnswerTo(c, k)
    ensures AnswerTo(HandleInLoop(c, r, response), k) ==
            if c.connected && r.id == k && k !in c.answers then Some(response) else AnswerTo(c, k)
  {
    hide IndexOf, Fill, Ready, Outputs, Sendable;
  }

  /** A step answers a request if and only if it gives the first reply to it, by that reply. */
  lemma StepAnswers(c: Conn, a: Action, id: nat)
    requires Enabled(c, a) && Inv(c)
    ensures AnswerTo(Next(c, a), id) == if id in c.answers then AnswerTo(c, id) else ReplyIn(c, a, id)
  {
    match a
    case CompleteInLoop(i, response) =>
      assert c.accepted[i].id == i;
      HandlingAnswers(c, c.accepted[i], 0, response, id);
    case RunTask(i) => HandlingAnswers(c.(tasks := c.tasks - {i}), Request(0, false, 0), i, c.tasks[i], id);
    case Refuse(_) => assert c.phase.request.id == |c.accepted| - 1;
    case _ =>
    hide IndexOf, Fill, Sendable, HandleInLoop, HandleTask, SentInOrder, Conserved;
  }

  lemma {:induction false} AnswersAreReplies(c: Conn, actions: seq<Action>, id: nat)
    requires Inv(c) && Run(Step, c, actions).Some?
    ensures AnswerTo(Run(Step, c, actions).value, id) ==
            if id in c.answers then AnswerTo(c, id) else FirstReply(c, actions, id)
    decreases |actions|
  {
    if actions != [] {
      StepAnswers(c, actions[0], id);
      StepKeeps(c, actions[0]);
      hide Next, Inv, Enabled, ReplyIn;
      AnswersAreReplies(Next(c, actions[0]), actions[1..], id);
    }
  }

  /** The requests whose handlers were started in a run. */
  function Starts(c: Conn, actions: seq<Action>): set<int>
    requires Run(Step, c, actions).Some?
    decreases |actions|
  {
    if actions == [] then {}
    else (if actions[0].Start? then {|c.accepted| - 1} else {}) + Starts(Next(c, actions[0]), actions[1..])
  }

  lemma StepStarts(c: Conn, a: Action)
    requires Enabled(c, a) && Inv(c)
    ensures Next(c, a).started == c.started + if a.Start? then {|c.accepted| - 1} else {}
  {
    match a
    case CompleteInLoop(id, response) => HandlingKeepsTodo(c, c.accepted[id], 0, response);
    case RunTask(id) => HandlingKeepsTodo(c.(tasks := c.tasks - {id}), Request(0, false, 0), id, c.tasks[id]);
    case _ =>
    hide IndexOf, Fill, Sendable, HandleInLoop, HandleTask, SentInOrder, Conserved;
  }

  lemma {:induction false} AllStarted(c: Conn, actions: seq<Action>)
    requires Inv(c) && Run(Step, c, actions).Some?
    ensures var d := Run(Step, c, actions).value; forall id :: id in d.started <==> id in c.started || id in Starts(c, actions)
    decreases |actions|
  {
    if actions != [] {
      StepStarts(c, actions[0]);
      StepKeeps(c, actions[0]);
      hide Next, Inv, Enabled;
      AllStarted(Next(c, actions[0]), actions[1..]);
    }
  }

  /** An answer is on its way on a standing connection: posted to the loop, in the slot of its
      request, in the buffer, or sent. */
  predicate OnItsWay(c: Conn, id: nat, response: Response) {
    || (id in c.tasks && c.tasks[id] == response)
    || (exists i :: 0 <= i < |c.pipeline| && c.pipeline[i].request.id == id && c.pipeline[i].response == Some(response))
    || (|c.sent| <= id < |c.sent| + |c.buffer| && c.buffer[id - |c.sent|].response == response)
    || (id < |c.sent| && c.sent[id].response == response)
  }

  lemma AnswerIsOnItsWay(c: Conn, id: nat)
    requires Inv(c) && c.connected && id in c.answers
    ensures OnItsWay(c, id, c.answers[id])
  {
    var n, m := |c.sent|, |c.sent| + |c.buffer|;
    if id < n {
      assert Delivered(c, id, c.sent[id]);
    } else if id < m {
      assert Delivered(c, n + (id - n), c.buffer[id - n]);
    } else if id < m + |c.pipeline| {
      assert SlotFor(c, m + (id - m), c.pipeline[id - m]);
    }
  }

  /** Nothing is lost.  Over every run: the requests of every batch taken are accepted in
      order; the handlers started are those of the actions; and a request has an answer if
      and only if an action replied to it, the first such reply, which on a standing
      connection is posted, in its slot, buffered or sent. */
  lemma NothingLost(limit: nat, actions: seq<Action>, id: nat)
    requires Run(Step, Init(limit), actions).Some?
    ensures var c := Run(Step, Init(limit), actions).value;
            && c.accepted + c.todo == Arrivals(Init(limit), actions)
            && (forall k :: k in c.started <==> k in Starts(Init(limit), actions))
            && AnswerTo(c, id) == FirstReply(Init(limit), actions, id)
            && (FirstReply(Init(limit), actions, id).Some? && c.connected ==>
                  OnItsWay(c, id, FirstReply(Init(limit), actions, id).value))
  {
    RunInv(limit, actions);
    var c := Run(Step, Init(limit), actions).value;
    AllTaken(Init(limit), actions);
    AllStarted(Init(limit), actions);
    AnswersAreReplies(Init(limit), actions, id);
    assert [] + [] + Arrivals(Init(limit), actions) == Arrivals(Init(limit), actions);
    hide Run, Inv, OnItsWay, Arrivals, Starts, FirstReply;
    if id in c.answers && c.connected {
      AnswerIsOnItsWay(c, id);
    }
  }

  lemma {:induction false} QuietRuns(c: Conn, actions: seq<Action>)
    requires Run(QuietStep, c, actions).Some?
    ensures Run(Step, c, actions) == Run(QuietStep, c, actions)
    decreases |actions|
  {
    hide Next, Enabled, Quiet;
    if actions != [] {
      QuietRuns(Next(c, actions[0]), actions[1..]);
    }
  }

  /** In a quiet run that has come to rest on a standing connection, with a reply to every
      request taken: every request has had its response, in order, and it is the first reply
      to that request. */
  lemma AllRepliesSent(limit: nat, actions: seq<Action>)
    requires Run(QuietStep, Init(limit), actions).Some? && Run(Step, Init(limit), actions).Some?
    requires var c := Run(QuietStep, Init(limit), actions).value; c.connected && c.phase.Idle? && c.tasks == map[]
    requires forall i :: 0 <= i < |Arrivals(Init(limit), actions)| ==> FirstReply(Init(limit), actions, i).Some?
    ensures var c, requests := Run(QuietStep, Init(limit), actions).value, Arrivals(Init(limit), actions);
            && |c.sent| == |requests|
            && forall i :: 0 <= i < |requests| ==>
                 c.sent[i] == Outgoing(FirstReply(Init(limit), actions, i).value, requests[i].head)
  {
    QuietRuns(Init(limit), actions);
    RunInv(limit, actions);
    var c, requests := Run(Step, Init(limit), actions).value, Arrivals(Init(limit), actions);
    NothingLost(limit, actions, 0);
    assert c.todo == [] && c.accepted == requests;
    forall i | 0 <= i < |requests| ensures i in c.answers && c.answers[i] == FirstReply(Init(limit), actions, i).value {
      NothingLost(limit, actions, i);
    }
    hide Arrivals, FirstReply, Starts;
    QuietRunSendsAll(limit, actions);
    ResponsesInOrder(limit, actions);
    hide Run, Inv;
  }

  predicate ClosedBySending(c: Conn, d: Conn) {
    c.sent <= d.sent && (!d.connected <==> |d.sent| > |c.sent| && Closes(d.sent[|d.sent| - 1]))
  }

  lemma SendCause(c: Conn, rs: seq<Outgoing>)
    requires c.connected
    ensures ClosedBySending(c, Send(c, rs))
  {}

  lemma FlushCause(c: Conn)
    requires c.connected
    ensures ClosedBySending(c, Flush(c))
  {
    SendCause(c.(buffer := []), c.buffer);
    hide Send, Closes;
  }

  lemma PopLeaves(c: Conn)
    ensures Pop(c).sent == c.sent && Pop(c).connected == c.connected
  {
    hide Outputs;
  }

  lemma InLoopCause(c: Conn, r: Request, response: Response)
    requires c.connected
    ensures ClosedBySending(c, HandleInLoop(c, r, response))
  {
    hide IndexOf, Fill, Flush, Pop, Closes;
    if r.id !in c.answers && c.pipeline != [] && IndexOf(c.pipeline, r.id) == Some(0) {
      var filled := c.(answers := c.answers[r.id := response], pipeline := Fill(c.pipeline, 0, response));
      PopLeaves(filled);
      FlushCause(Pop(filled));
    }
  }

  lemma TaskCause(c: Conn, id: nat, response: Response)
    requires c.connected
    ensures ClosedBySending(c, HandleTask(c, id, response))
  {
    if IndexOf(c.pipeline, id) == Some(0) {
      var slots := Fill(c.pipeline, 0, response);
      var n := Ready(slots);
      SendCause(c.(pipeline := slots[n..]), Outputs(slots[..n]));
    }
    hide IndexOf, Fill, Ready, Outputs, Send, Closes;
  }

  lemma OtherSteps(c: Conn, a: Action)
    requires Enabled(c, a) && !a.CompleteInLoop? && !a.RunTask? && !a.EndBatch?
    ensures Next(c, a).sent == c.sent
    ensures c.connected ==> (!Next(c, a).connected <==> a.Disconnect? || a.Malformed? || (a.Arrive? && !TakesIn(c, a)))
  {
    hide IndexOf, Fill;
  }

  /** The connection goes down only for a reason: the peer, a malformed message, a batch over
      the limit, or a response that closes it, which is then the last one sent. */
  lemma ClosedCause(c: Conn, a: Action)
    requires c.connected && Enabled(c, a)
    ensures var d := Next(c, a);
            !d.connected <==>
              || a.Disconnect? || a.Malformed?
              || (a.Arrive? && !TakesIn(c, a))
              || (|d.sent| > |c.sent| && Closes(d.sent[|d.sent| - 1]))
  {
    if a.CompleteInLoop? {
      InLoopCause(c, c.accepted[a.id], a.response);
    } else if a.RunTask? {
      TaskCause(c.(tasks := c.tasks - {a.id}), a.id, c.tasks[a.id]);
    } else if a.EndBatch? {
      FlushCause(c.(phase := Idle));
    } else {
      OtherSteps(c, a);
    }
    hide HandleInLoop, HandleTask, Flush, Closes, TakesIn, Fill, IndexOf;
  }
}
