/** The bridge against the history of its run: what each request was told, and why, read off
    the actions alone. */
module BridgeHistory {
  import opened Text
  import opened Runs
  import opened Bridge

  /** The outcome of the handler call a step makes for a request, if any. */
  function HandledIn(s: State, a: Action): seq<Outcome>
    requires Enabled(s, a)
  {
    if a.Handle? && s.phase.ch == Http then [a.outcome] else []
  }

  /** The outcomes of the handler calls made for requests in a run, in order. */
  function Handled(s: State, actions: seq<Action>): seq<Outcome>
    requires Run(Step, s, actions).Some?
    decreases |actions|
  {
    if actions == [] then [] else HandledIn(s, actions[0]) + Handled(Next(s, actions[0]), actions[1..])
  }

  /** The answers given by the dispatcher, in order. */
  function FromHandlers(replies: seq<(nat, Reply)>): seq<(nat, Reply)> {
    if replies == [] then []
    else
      var last := replies[|replies| - 1];
      FromHandlers(replies[..|replies| - 1]) + if FromDispatcher(last.1) then [last] else []
  }

  lemma FromHandlersMore(replies: seq<(nat, Reply)>, more: (nat, Reply))
    ensures FromHandlers(replies + [more]) == FromHandlers(replies) + if FromDispatcher(more.1) then [more] else []
  {
    assert (replies + [more])[..|replies|] == replies;
  }

  lemma {:induction false} SameRequests(replies: seq<(nat, Reply)>)
    ensures |FromHandlers(replies)| == |Dispatched(replies)|
    ensures forall k :: 0 <= k < |FromHandlers(replies)| ==> FromHandlers(replies)[k].0 == Dispatched(replies)[k]
  {
    if replies != [] {
      SameRequests(replies[..|replies| - 1]);
    }
  }

  /** The k-th answer fits the k-th outcome. */
  predicate AllFit(outcomes: seq<Outcome>, answers: seq<(nat, Reply)>) {
    |outcomes| == |answers| && forall k :: 0 <= k < |answers| ==> Fits(outcomes[k], answers[k].1)
  }

  lemma StepFits(s: State, a: Action, outcomes: seq<Outcome>)
    requires Enabled(s, a) && AllFit(outcomes, FromHandlers(s.replies))
    ensures AllFit(outcomes + HandledIn(s, a), FromHandlers(Next(s, a).replies))
  {
    hide FromHandlers, Push;
    assert outcomes + [] == outcomes;
    match a
    case Limit(id) => FromHandlersMore(s.replies, (id, TooMany));
    case TurnAway(id) => FromHandlersMore(s.replies, (id, Unavailable));
    case Handle(outcome) =>
      if s.phase.ch == Http {
        FromHandlersMore(s.replies, (s.http.batch[0], ReplyFor(outcome)));
        assert Fits(outcome, ReplyFor(outcome));
      }
    case _ =>
    hide Fits, ReplyFor;
  }

  lemma Regroup(a: seq<Outcome>, b: seq<Outcome>, c: seq<Outcome>)
    ensures a + b + c == a + (b + c)
  {}

  lemma {:induction false} RunFits(s: State, actions: seq<Action>, outcomes: seq<Outcome>)
    requires Run(Step, s, actions).Some? && AllFit(outcomes, FromHandlers(s.replies))
    ensures AllFit(outcomes + Handled(s, actions), FromHandlers(Run(Step, s, actions).value.replies))
    decreases |actions|
  {
    if actions == [] {
      assert outcomes + [] == outcomes;
    } else {
      var a := actions[0];
      StepFits(s, a, outcomes);
      hide Next, Enabled, AllFit, FromHandlers, HandledIn;
      RunFits(Next(s, a), actions[1..], outcomes + HandledIn(s, a));
      Regroup(outcomes, HandledIn(s, a), Handled(Next(s, a), actions[1..]));
    }
  }

  /** Over every run, the k-th request handled is the k-th one queued, and it is told what
      became of its handler: a normal response with the value it gave, the head of its
      stream, or else a failure, with the message it raised. */
  lemma RepliesFit(capacity: nat, max: nat, actions: seq<Action>)
    requires capacity > 0 && Run(Step, Init(capacity, max), actions).Some?
    ensures var s, outcomes := Run(Step, Init(capacity, max), actions).value, Handled(Init(capacity, max), actions);
            var answers := FromHandlers(s.replies);
            && |answers| == |outcomes| <= |s.http.pushed|
            && forall k :: 0 <= k < |outcomes| ==> answers[k].0 == s.http.pushed[k] && Fits(outcomes[k], answers[k].1)
  {
    var s := Run(Step, Init(capacity, max), actions).value;
    RunFits(Init(capacity, max), actions, []);
    ExactlyOneReply(capacity, max, actions);
    SameRequests(s.replies);
    assert [] + Handled(Init(capacity, max), actions) == Handled(Init(capacity, max), actions);
    hide Run, Handled, Fits;
  }

  /** The queue held `max` requests when this one asked to enter. */
  function FoundFull(s: State, actions: seq<Action>, id: nat): bool
    requires Run(Step, s, actions).Some?
    decreases |actions|
  {
    actions != [] &&
    ((actions[0] == Enter(id) && 0 < s.max <= |s.http.queue|) || FoundFull(Next(s, actions[0]), actions[1..], id))
  }

  /** What a request is told without its handler: 429 if the rate limit refused it, 503 if it
      found the queue full. */
  predicate Told(s: State, id: nat, limited: bool, full: bool) {
    && ((id, TooMany) in s.replies <==> limited)
    && ((id, Unavailable) in s.replies || id in s.refused <==> full)
  }

  lemma StepTold(s: State, a: Action, id: nat, limited: bool, full: bool)
    requires Enabled(s, a) && Told(s, id, limited, full)
    ensures Told(Next(s, a), id, limited || a == Limit(id), full || (a == Enter(id) && 0 < s.max <= |s.http.queue|))
  {
    var t := Next(s, a);
    assert forall r :: r in s.replies ==> r in t.replies;
    assert a == Limit(id) ==> t.replies[|s.replies|] == (id, TooMany);
    assert a == TurnAway(id) ==> t.replies[|s.replies|] == (id, Unavailable);
    assert forall r :: r in t.replies ==> r in s.replies || r == t.replies[|s.replies|];
    hide Push, Set, Get;
  }

  lemma {:induction false} RunTold(s: State, actions: seq<Action>, id: nat, limited: bool, full: bool)
    requires Run(Step, s, actions).Some? && Told(s, id, limited, full)
    ensures Told(Run(Step, s, actions).value, id, limited || Limit(id) in actions, full || FoundFull(s, actions, id))
    decreases |actions|
  {
    if actions != [] {
      var a := actions[0];
      StepTold(s, a, id, limited, full);
      hide Next, Enabled, Told;
      RunTold(Next(s, a), actions[1..], id, limited || a == Limit(id), full || (a == Enter(id) && 0 < s.max <= |s.http.queue|));
      assert actions == [a] + actions[1..];
    }
  }

  /** Over every run: a request is told 429 if and only if the rate limit refused it, and 503,
      or about to be, if and only if it found the queue full. */
  lemma RefusalsFit(capacity: nat, max: nat, actions: seq<Action>, id: nat)
    requires Run(Step, Init(capacity, max), actions).Some?
    ensures var s := Run(Step, Init(capacity, max), actions).value;
            && ((id, TooMany) in s.replies <==> Limit(id) in actions)
            && ((id, Unavailable) in s.replies || id in s.refused <==> FoundFull(Init(capacity, max), actions, id))
  {
    RunTold(Init(capacity, max), actions, id, false, false);
    hide Run, FoundFull;
  }
}
