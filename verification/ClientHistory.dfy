/** The client against the history of its run: nothing waits without a reason, and each
    callback gets the result its request earned, read off the actions. */
module ClientHistory {
  import opened Text
  import opened Runs
  import opened ClientModel

  // Nothing waits without a reason.

  /** On a standing connection a request waits only while the pipeline is full. */
  predicate Busy(c: Client) {
    c.link.Up? && c.buffer != [] ==> |c.flight| == c.depth + 1
  }

  lemma {:induction false} RefillFills(c: Client)
    requires |c.flight| <= c.depth + 1
    ensures var d := Refill(c);
            && d.flight + d.buffer == c.flight + c.buffer && d == c.(flight := d.flight, buffer := d.buffer, wire := d.wire)
            && |c.flight| <= |d.flight| <= c.depth + 1
            && (d.buffer != [] ==> |d.flight| == c.depth + 1)
    decreases |c.buffer|
  {
    if |c.flight| <= c.depth && c.buffer != [] {
      RefillFills(SendFirst(c));
      assert c.flight + [c.buffer[0]] + c.buffer[1..] == c.flight + c.buffer;
    }
  }

  lemma HandleBusy(c: Client, close: bool, up: bool)
    requires c.flight != [] && |c.flight| <= c.depth + 1 && c.link.Up? == up && Busy(c)
    ensures Busy(Handle(c, close, up))
  {
    hide FireAll, Fire;
  }

  lemma SubmitBusy(c: Client, timed: bool)
    requires |c.flight| <= c.depth + 1 && Busy(c)
    ensures Busy(Submitted(c, timed))
  {
    hide Fire;
  }

  lemma BusyKept(c: Client, a: Action)
    requires Inv(c) && Busy(c) && Enabled(c, a)
    ensures Busy(Next(c, a))
  {
    assert |c.flight| <= c.depth + 1;
    hide Inv, FireAll, Refill, Without, Handle, Submitted;
    match a
    case Submit(timed) => SubmitBusy(c, timed);
    case ConnectOk => RefillFills(c.(link := Up));
    case CompleteResponse(close) =>
      if c.flight != [] {
        HandleBusy(c.(reading := false), close, c.link.Up?);
      }
    case TimerFires(id) => WithoutShorter(c.buffer, id);
    case _ =>
  }

  lemma WithoutShorter(rs: seq<Request>, id: nat)
    ensures rs == [] ==> Without(rs, id) == []
  {}

  /** In every run: a request waits on a standing connection only while `depth + 1` are in
      flight, and without one only while a name is resolved or a connection is made. */
  lemma WaitsForAReason(depth: nat, domain: bool, reachable: bool, actions: seq<Action>)
    requires Run(Step, Init(depth, domain, reachable), actions).Some?
    ensures var c := Run(Step, Init(depth, domain, reachable), actions).value;
            c.buffer != [] ==>
              (c.link.Up? && |c.flight| == c.depth + 1) || c.link.Shut? || c.link.Connecting? || c.resolving
  {
    var start := Init(depth, domain, reachable);
    assert CallIds(start.log.calls) == [];
    var inv := (c: Client) => Inv(c) && Busy(c);
    forall c, a | inv(c) && Step(c, a).Some? ensures inv(Step(c, a).value) {
      StepKeeps(c, a);
      BusyKept(c, a);
      hide Inv, Next, Busy;
    }
    RunKeeps(Step, inv, start, actions);
    hide Run, CallIds, InOrder, Accounts;
  }

  /** A new connection sends the oldest requests first, as many as the depth allows. */
  lemma ConnectionSends(c: Client)
    requires Inv(c) && c.link.Connecting?
    ensures var d := Next(c, ConnectOk);
            && d.link.Up? && d.flight + d.buffer == c.buffer && d.wire == IdsOf(d.flight)
            && |d.flight| == if |c.buffer| <= c.depth + 1 then |c.buffer| else c.depth + 1
  {
    RefillFills(c.(link := Up));
    StepKeeps(c, ConnectOk);
    assert [] + c.buffer == c.buffer;
    assert Matched(Next(c, ConnectOk));
    hide Refill, CallIds, InOrder, Accounts;
    assert [] + IdsOf(Next(c, ConnectOk).flight) == IdsOf(Next(c, ConnectOk).flight);
  }

  // Who gets what.

  /** The result a step has for a request: its response, its timer, the failure that hits
      everyone in flight or in both queues, or an address that cannot be used. */
  function ResultIn(c: Client, a: Action, id: nat): Option<Result>
    requires Enabled(c, a)
  {
    var first := c.flight != [] && c.flight[0].id == id;
    var either := Holds(c.flight, id) || Holds(c.buffer, id);
    match a
    case Submit(_) =>
      if id == c.submitted && c.link.NoClient? && !c.domain && !c.reachable then Some(BadServerAddress) else None
    case Resolved(ok) => if !ok && Holds(c.buffer, id) then Some(BadServerAddress) else None
    case ConnectFail => if either then Some(BadServerAddress) else None
    case MalformedResponse => if either then Some(BadResponse) else None
    case CompleteResponse(_) =>
      if first then Some(Ok) else if c.link.Shut? && Holds(c.flight, id) then Some(NetworkFailure) else None
    case Disconnect(completes) =>
      if completes then (if first then Some(Ok) else if Holds(c.flight, id) then Some(NetworkFailure) else None)
      else if either then Some(NetworkFailure) else None
    case TimerFires(i) => if i == id then Some(Timeout) else None
    case _ => None
  }

  /** The first of them in a run. */
  function FirstResult(c: Client, actions: seq<Action>, id: nat): Option<Result>
    requires Run(Step, c, actions).Some?
    decreases |actions|
  {
    if actions == [] then None
    else if ResultIn(c, actions[0], id).Some? then ResultIn(c, actions[0], id)
    else FirstResult(Next(c, actions[0]), actions[1..], id)
  }

  /** The callback of a request has run with this result, or not at all. */
  predicate Told(l: Log, id: nat, result: Option<Result>) {
    && (id in l.flags <==> result.Some?)
    && (forall r :: (id, r) in l.calls <==> result == Some(r))
  }

  function Or(a: Option<Result>, b: Option<Result>): Option<Result> { if a.Some? then a else b }

  lemma FireTells(l: Log, r: Request, result: Result, id: nat, before: Option<Result>)
    requires Told(l, id, before) && (r.id == id && before.Some? ==> r.timed)
    ensures Told(Fire(l, r, result), id, Or(before, if r.id == id then Some(result) else None))
  {
    var l' := Fire(l, r, result);
    if l' != l {
      assert forall x :: x in l'.calls <==> x in l.calls || x == (r.id, result);
    }
  }

  lemma {:induction false} FireAllTells(l: Log, rs: seq<Request>, result: Result, id: nat, before: Option<Result>)
    requires Told(l, id, before) && InOrder(rs)
    requires forall i :: 0 <= i < |rs| && rs[i].id == id && before.Some? ==> rs[i].timed
    ensures Told(FireAll(l, rs, result), id, Or(before, if Holds(rs, id) then Some(result) else None))
    decreases |rs|
  {
    if rs != [] {
      var mid := Or(before, if rs[0].id == id then Some(result) else None);
      FireTells(l, rs[0], result, id, before);
      HoldsFirst(rs);
      hide Told, Fire, Holds;
      FireAllTells(Fire(l, rs[0], result), rs[1..], result, id, mid);
    }
  }

  /** Whoever is in a queue and has been called was called by its timer. */
  lemma TimedIfTold(c: Client, id: nat, before: Option<Result>)
    requires Inv(c) && Told(c.log, id, before)
    ensures forall i :: 0 <= i < |c.flight| && c.flight[i].id == id && before.Some? ==> c.flight[i].timed
    ensures Holds(c.buffer, id) ==> before.None?
    ensures InOrder(c.flight) && InOrder(c.buffer) && !(Holds(c.flight, id) && Holds(c.buffer, id))
  {
    PartsInOrder(c.flight, c.buffer);
    hide InOrder, CallIds;
  }

  lemma FailTells(c: Client, result: Result, id: nat, before: Option<Result>)
    requires Inv(c) && Told(c.log, id, before)
    ensures Told(Fail(c, result).log, id,
                 Or(before, if Holds(c.flight, id) || Holds(c.buffer, id) then Some(result) else None))
  {
    TimedIfTold(c, id, before);
    FireAllTells(c.log, c.flight, result, id, before);
    var mid := Or(before, if Holds(c.flight, id) then Some(result) else None);
    assert forall i :: 0 <= i < |c.buffer| && c.buffer[i].id == id ==> Holds(c.buffer, id);
    hide Told, FireAll, Inv;
    FireAllTells(FireAll(c.log, c.flight, result), c.buffer, result, id, mid);
  }

  lemma RestTimed(c: Client, id: nat, before: Option<Result>)
    requires Inv(c) && c.flight != [] && Told(c.log, id, before)
    ensures var first, rest := c.flight[0], c.flight[1..];
            && InOrder(rest) && (first.id == id ==> !Holds(rest, id))
            && (Holds(c.flight, id) <==> first.id == id || Holds(rest, id))
            && (forall i :: 0 <= i < |rest| && rest[i].id == id ==> first.id != id && (before.Some? ==> rest[i].timed))
            && (first.id == id && before.Some? ==> first.timed)
  {
    TimedIfTold(c, id, before);
    HoldsFirst(c.flight);
    var rest := c.flight[1..];
    assert forall i :: 0 <= i < |rest| ==> rest[i] == c.flight[i + 1];
    hide Told, Inv;
  }

  lemma HandleTells(c: Client, close: bool, up: bool, id: nat, before: Option<Result>)
    requires Inv(c) && c.flight != [] && Told(c.log, id, before)
    ensures Told(Handle(c, close, up).log, id,
                 Or(before, if c.flight[0].id == id then Some(Ok)
                            else if !up && Holds(c.flight, id) then Some(NetworkFailure) else None))
  {
    RestTimed(c, id, before);
    hide Told, Fire, FireAll, Inv, Holds, InOrder;
    var first, rest := c.flight[0], c.flight[1..];
    FireTells(c.log, first, Ok, id, before);
    var mid := Or(before, if first.id == id then Some(Ok) else None);
    FireAllTells(Fire(c.log, first, Ok), rest, NetworkFailure, id, mid);
  }

  lemma SubmitTells(c: Client, timed: bool, id: nat, before: Option<Result>)
    requires Inv(c) && Told(c.log, id, before)
    ensures Told(Next(c, Submit(timed)).log, id, Or(before, ResultIn(c, Submit(timed), id)))
  {
    assert c.submitted !in c.log.flags;
    FireTells(c.log, Request(c.submitted, timed), BadServerAddress, id, before);
    hide Told, Inv, Fire;
  }

  lemma ResolvedTells(c: Client, ok: bool, id: nat, before: Option<Result>)
    requires Inv(c) && c.resolving && Told(c.log, id, before)
    ensures Told(Next(c, Resolved(ok)).log, id, Or(before, ResultIn(c, Resolved(ok), id)))
  {
    TimedIfTold(c, id, before);
    assert forall i :: 0 <= i < |c.buffer| && c.buffer[i].id == id ==> Holds(c.buffer, id);
    hide Told, Inv, FireAll;
    FireAllTells(c.log, c.buffer, BadServerAddress, id, before);
  }

  lemma ResponseTells(c: Client, close: bool, id: nat, before: Option<Result>)
    requires Inv(c) && Enabled(c, CompleteResponse(close)) && Told(c.log, id, before)
    ensures Told(Next(c, CompleteResponse(close)).log, id, Or(before, ResultIn(c, CompleteResponse(close), id)))
  {
    assert Inv(c.(reading := false));
    hide Told, Inv, Handle;
    if c.flight != [] {
      HandleTells(c.(reading := false), close, c.link.Up?, id, before);
    }
  }

  lemma DisconnectTells(c: Client, completes: bool, id: nat, before: Option<Result>)
    requires Inv(c) && Enabled(c, Disconnect(completes)) && Told(c.log, id, before)
    ensures Told(Next(c, Disconnect(completes)).log, id, Or(before, ResultIn(c, Disconnect(completes), id)))
  {
    assert Inv(c.(reading := false)) && (completes ==> c.flight != []);
    hide Told, Inv, Handle, Fail;
    if completes {
      HandleTells(c.(reading := false), false, false, id, before);
    } else {
      FailTells(c, NetworkFailure, id, before);
    }
  }

  lemma TimerTells(c: Client, i: nat, id: nat, before: Option<Result>)
    requires Enabled(c, TimerFires(i)) && Told(c.log, id, before)
    ensures Told(Next(c, TimerFires(i)).log, id, Or(before, ResultIn(c, TimerFires(i), id)))
  {
    FireTells(c.log, Request(i, true), Timeout, id, before);
  }

  lemma StepTells(c: Client, a: Action, id: nat, before: Option<Result>)
    requires Inv(c) && Enabled(c, a) && Told(c.log, id, before)
    ensures Told(Next(c, a).log, id, Or(before, ResultIn(c, a, id)))
  {
    hide Told, Inv, Refill, Fail, Handle, Submitted;
    match a
    case Submit(timed) => SubmitTells(c, timed, id, before);
    case Resolved(ok) => ResolvedTells(c, ok, id, before);
    case ConnectOk => RefillLogs(c.(link := Up));
    case ConnectFail => FailTells(c, BadServerAddress, id, before);
    case PartialResponse =>
    case MalformedResponse => FailTells(c, BadResponse, id, before);
    case CompleteResponse(close) => ResponseTells(c, close, id, before);
    case Disconnect(completes) => DisconnectTells(c, completes, id, before);
    case TimerFires(i) => TimerTells(c, i, id, before);
  }

  lemma {:induction false} RefillLogs(c: Client)
    ensures Refill(c).log == c.log && Refill(c).submitted == c.submitted
    decreases |c.buffer|
  {
    if |c.flight| <= c.depth && c.buffer != [] {
      RefillLogs(SendFirst(c));
    }
  }

  lemma {:induction false} RunTells(c: Client, actions: seq<Action>, id: nat, before: Option<Result>)
    requires Inv(c) && Run(Step, c, actions).Some? && Told(c.log, id, before)
    ensures Told(Run(Step, c, actions).value.log, id, Or(before, FirstResult(c, actions, id)))
    decreases |actions|
  {
    if actions != [] {
      StepTells(c, actions[0], id, before);
      StepKeeps(c, actions[0]);
      hide Next, Inv, Enabled, Told, ResultIn;
      RunTells(Next(c, actions[0]), actions[1..], id, Or(before, ResultIn(c, actions[0], id)));
    }
  }

  /** Over every run the callback of a request runs with the first result a step had for it,
      and only if one had.  So it gets a response if and only if its response came before
      its timer and before any failure. */
  lemma CallbackGetsResult(depth: nat, domain: bool, reachable: bool, actions: seq<Action>, id: nat, result: Result)
    requires Run(Step, Init(depth, domain, reachable), actions).Some?
    ensures var c := Run(Step, Init(depth, domain, reachable), actions).value;
            (id, result) in c.log.calls <==> FirstResult(Init(depth, domain, reachable), actions, id) == Some(result)
  {
    var start := Init(depth, domain, reachable);
    assert CallIds(start.log.calls) == [];
    RunTells(start, actions, id, None);
    hide Run, FirstResult;
  }

  /** How many requests were handed to the client? */
  function Submissions(actions: seq<Action>): nat {
    if actions == [] then 0 else (if actions[0].Submit? then 1 else 0) + Submissions(actions[1..])
  }

  lemma HandleSubmits(c: Client, close: bool, up: bool)
    requires c.flight != []
    ensures Handle(c, close, up).submitted == c.submitted
  {
    hide FireAll, Fire;
  }

  lemma StepSubmits(c: Client, a: Action)
    requires Enabled(c, a)
    ensures Next(c, a).submitted == c.submitted + if a.Submit? then 1 else 0
  {
    hide Refill, FireAll, Fire, Handle, Without;
    RefillLogs(c.(link := Up));
    if c.flight != [] && a.CompleteResponse? {
      HandleSubmits(c.(reading := false), a.close, c.link.Up?);
    } else if c.flight != [] && a.Disconnect? {
      HandleSubmits(c.(reading := false), false, false);
    }
  }

  lemma {:induction false} AllSubmitted(c: Client, actions: seq<Action>)
    requires Inv(c) && Run(Step, c, actions).Some?
    ensures Run(Step, c, actions).value.submitted == c.submitted + Submissions(actions)
    decreases |actions|
  {
    if actions != [] {
      StepSubmits(c, actions[0]);
      StepKeeps(c, actions[0]);
      hide Next, Inv, Enabled;
      AllSubmitted(Next(c, actions[0]), actions[1..]);
    }
  }
}
