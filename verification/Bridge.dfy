/** The bridge from the I/O threads to the R thread: three queues share one wake pipe.
    Every lock section, pipe write and pipe read is one step. */
module Bridge {
  import opened Text
  import opened Runs

  datatype Channel = Http | Ws | Client

  function Rank(ch: Channel): nat {
    match ch case Http => 0 case Ws => 1 case Client => 2
  }

  /** One queue with its history: `pushed` and `done` are all items ever pushed and handled,
      `batch` what the dispatcher took out and has not handled yet, `notifying` the
      producers between their push and their write to the pipe. */
  datatype Lane = Lane(queue: seq<nat>, batch: seq<nat>, done: seq<nat>, pushed: seq<nat>, notifying: nat)

  const EMPTY := Lane([], [], [], [], 0)

  /** The dispatcher: waiting for the pipe, emptying it, about to take over a queue, or
      handling what it took. */
  datatype Phase = Waiting | Draining | Swapping(ch: Channel) | Working(ch: Channel)

  /** What becomes of one R handler call. */
  datatype Outcome =
    | NoHandler
    | Raised(message: string)
    | Value(body: string)
    | Stream(callable: bool)

  datatype Reply =
    | TooMany             // 429, rate limit
    | Unavailable         // 503, queue full
    | Failure(text: string)
    | Normal(body: string)
    | StreamHead

  /** `capacity` is the size of the pipe and `max` that of the request queue, 0 for
      unbounded.  `entering` are the requests between their arrival and the queue,
      `refused` those the full queue turned away that still wait for their 503.
      `replies` logs every call of a request's respond function. */
  datatype State = State(
    capacity: nat, max: nat, pipe: nat, phase: Phase,
    http: Lane, ws: Lane, client: Lane,
    arrived: nat, entering: set<nat>, refused: set<nat>, replies: seq<(nat, Reply)>)

  function Init(capacity: nat, max: nat): State {
    State(capacity, max, 0, Waiting, EMPTY, EMPTY, EMPTY, 0, {}, {}, [])
  }

  function Get(s: State, ch: Channel): Lane {
    match ch case Http => s.http case Ws => s.ws case Client => s.client
  }

  function Set(s: State, ch: Channel, lane: Lane): (r: State)
    ensures Get(r, ch) == lane
    ensures forall c :: c != ch ==> Get(r, c) == Get(s, c)
  {
    match ch
    case Http => s.(http := lane)
    case Ws => s.(ws := lane)
    case Client => s.(client := lane)
  }

  datatype Action =
    | Arrive
    | Limit(id: nat)
    | Enter(id: nat)
    | TurnAway(id: nat)
    | Post(ch: Channel, item: nat)
    | Notify(ch: Channel)
    | Fire
    | Read(amount: nat)
    | Swap
    | Handle(outcome: Outcome)
    | Advance

  function Push(lane: Lane, item: nat): Lane {
    lane.(queue := lane.queue + [item], pushed := lane.pushed + [item], notifying := lane.notifying + 1)
  }

  /** The dispatcher's answer to one request. */
  function ReplyFor(outcome: Outcome): Reply {
    match outcome
    case NoHandler => Failure("no handler registered for this route")
    case Raised(message) => Failure("R handler error: " + message)
    case Value(body) => Normal(body)
    case Stream(callable) =>
      if callable then StreamHead else Failure("drogon_stream: next_chunk is not a function")
  }

  /** What the answer to a request says about its handler. */
  predicate Fits(outcome: Outcome, reply: Reply) {
    && (reply.Normal? <==> outcome.Value?)
    && (reply.StreamHead? <==> outcome == Stream(true))
    && (reply.Failure? <==> outcome.NoHandler? || outcome.Raised? || outcome == Stream(false))
    && (outcome.Value? ==> reply.body == outcome.body)
    && (outcome.Raised? ==> reply.text == "R handler error: " + outcome.message)
    && (outcome.NoHandler? ==> reply.text == "no handler registered for this route")
    && (outcome == Stream(false) ==> reply.text == "drogon_stream: next_chunk is not a function")
  }

  predicate Enabled(s: State, a: Action) {
    match a
    case Arrive => true
    case Limit(id) => id in s.entering
    case Enter(id) => id in s.entering
    case TurnAway(id) => id in s.refused
    case Post(ch, _) => ch != Http
    case Notify(ch) => Get(s, ch).notifying > 0
    case Fire => s.phase.Waiting?
    case Read(amount) => s.phase.Draining? && amount <= s.pipe && amount <= 64 && (s.pipe > 0 ==> amount > 0)
    case Swap => s.phase.Swapping?
    case Handle(_) => s.phase.Working? && Get(s, s.phase.ch).batch != []
    case Advance => s.phase.Working? && Get(s, s.phase.ch).batch == []
  }

  function Next(s: State, a: Action): State
    requires Enabled(s, a)
  {
    match a
    case Arrive => s.(arrived := s.arrived + 1, entering := s.entering + {s.arrived})
    case Limit(id) => s.(entering := s.entering - {id}, replies := s.replies + [(id, TooMany)])
    case Enter(id) =>
      var s' := s.(entering := s.entering - {id});
      if s.max > 0 && |s.http.queue| >= s.max then s'.(refused := s.refused + {id})
      else s'.(http := Push(s.http, id))
    case TurnAway(id) => s.(refused := s.refused - {id}, replies := s.replies + [(id, Unavailable)])
    case Post(ch, item) => Set(s, ch, Push(Get(s, ch), item))
    case Notify(ch) =>
      var lane := Get(s, ch);
      // a write to a full pipe is dropped
      Set(s.(pipe := if s.pipe < s.capacity then s.pipe + 1 else s.pipe),
          ch, lane.(notifying := lane.notifying - 1))
    case Fire => s.(phase := Draining)
    case Read(amount) =>
      if s.pipe == 0 then s.(phase := Swapping(Http)) else s.(pipe := s.pipe - amount)
    case Swap =>
      var lane := Get(s, s.phase.ch);
      Set(s.(phase := Working(s.phase.ch)), s.phase.ch, lane.(queue := [], batch := lane.queue))
    case Handle(outcome) =>
      var lane := Get(s, s.phase.ch);
      var item := lane.batch[0];
      Set(if s.phase.ch == Http then s.(replies := s.replies + [(item, ReplyFor(outcome))]) else s,
          s.phase.ch, lane.(batch := lane.batch[1..], done := lane.done + [item]))
    case Advance =>
      s.(phase := match s.phase.ch
                  case Http => Swapping(Ws)
                  case Ws => Swapping(Client)
                  case Client => Waiting)
  }

  // No wakeup is lost.

  /** Will this round still take over the queue? */
  predicate StillToCome(phase: Phase, ch: Channel) {
    match phase
    case Waiting => false
    case Draining => true
    case Swapping(c) => Rank(c) <= Rank(ch)
    case Working(c) => Rank(c) < Rank(ch)
  }

  /** Items wait only under the eye of someone: a byte in the pipe, a producer about to
      write one, or the dispatcher before its swap. */
  predicate Watched(s: State, ch: Channel) {
    var lane := Get(s, ch);
    lane.queue != [] ==> s.pipe > 0 || lane.notifying > 0 || StillToCome(s.phase, ch)
  }

  /** First in, first out. */
  predicate Fifo(lane: Lane) {
    lane.pushed == lane.done + lane.batch + lane.queue
  }

  predicate Ordered(s: State, ch: Channel) {
    var lane := Get(s, ch);
    && Fifo(lane)
    && (lane.batch != [] ==> s.phase == Working(ch))
  }

  // Every request is answered once.

  function Ids(replies: seq<(nat, Reply)>): (r: seq<nat>)
    ensures |r| == |replies|
    ensures forall i :: 0 <= i < |r| ==> r[i] == replies[i].0
  {
    seq(|replies|, i requires 0 <= i < |replies| => replies[i].0)
  }

  function One(b: bool): nat { if b then 1 else 0 }

  /** How often a request has been answered or is still owed its answer. */
  function Count(s: State, id: nat): nat {
    multiset(Ids(s.replies))[id] + One(id in s.entering) + One(id in s.refused)
    + multiset(s.http.batch)[id] + multiset(s.http.queue)[id]
  }

  ghost predicate AnsweredOnce(s: State) {
    forall id: nat :: Count(s, id) == One(id < s.arrived)
  }

  predicate FromDispatcher(r: Reply) { r != TooMany && r != Unavailable }

  /** The requests answered by the dispatcher, in the order of the answers. */
  function Dispatched(replies: seq<(nat, Reply)>): seq<nat> {
    if replies == [] then []
    else
      var last := replies[|replies| - 1];
      Dispatched(replies[..|replies| - 1]) + if FromDispatcher(last.1) then [last.0] else []
  }

  ghost predicate Inv(s: State) {
    && s.capacity > 0
    && s.pipe <= s.capacity
    && (s.max > 0 ==> |s.http.queue| <= s.max)
    && (forall ch :: Watched(s, ch) && Ordered(s, ch))
    && AnsweredOnce(s)
    && Dispatched(s.replies) == s.http.done
  }

  lemma WatchKept(s: State, a: Action, ch: Channel)
    requires s.capacity > 0 && Enabled(s, a)
    requires Watched(s, ch)
    ensures Watched(Next(s, a), ch)
  {}

  lemma FifoKept(lane: Lane, item: nat)
    requires Fifo(lane)
    ensures Fifo(Push(lane, item))
    ensures lane.batch == [] ==> Fifo(lane.(queue := [], batch := lane.queue))
    ensures lane.batch != [] ==> Fifo(lane.(batch := lane.batch[1..], done := lane.done + [lane.batch[0]]))
  {
    if lane.batch != [] {
      assert lane.batch == [lane.batch[0]] + lane.batch[1..];
    }
  }

  lemma OrderKept(s: State, a: Action, ch: Channel)
    requires Enabled(s, a)
    requires forall c :: Ordered(s, c)
    ensures Ordered(Next(s, a), ch)
  {
    assert Ordered(s, ch);
    FifoKept(Get(s, ch), if a.Post? then a.item else if a.Enter? then a.id else 0);
    if a.Notify? && Get(s, ch).notifying > 0 {
      assert Fifo(Get(s, ch).(notifying := Get(s, ch).notifying - 1));
    }
    hide Fifo, Push;
  }

  lemma DispatchedMore(replies: seq<(nat, Reply)>, id: nat, r: Reply)
    ensures Dispatched(replies + [(id, r)]) == Dispatched(replies) + if FromDispatcher(r) then [id] else []
    ensures Ids(replies + [(id, r)]) == Ids(replies) + [id]
  {
    assert (replies + [(id, r)])[..|replies|] == replies;
  }

  lemma CountMore(xs: seq<nat>, x: nat, id: nat)
    ensures multiset(xs + [x])[id] == multiset(xs)[id] + One(id == x)
  {}

  lemma CountFirst(xs: seq<nat>, id: nat)
    requires xs != []
    ensures multiset(xs)[id] == One(id == xs[0]) + multiset(xs[1..])[id]
  {
    assert xs == [xs[0]] + xs[1..];
  }

  lemma CountReply(s: State, a: Action, id: nat)
    requires Enabled(s, a) && (a.Limit? || a.TurnAway?)
    ensures Count(Next(s, a), id) == Count(s, id)
  {
    DispatchedMore(s.replies, a.id, TooMany);
    DispatchedMore(s.replies, a.id, Unavailable);
    CountMore(Ids(s.replies), a.id, id);
    hide Dispatched, Ids;
  }

  lemma CountEntry(s: State, i: nat, id: nat)
    requires i in s.entering && AnsweredOnce(s)
    ensures Count(Next(s, Enter(i)), id) == Count(s, id)
  {
    assert Count(s, i) == One(i < s.arrived);
    CountMore(s.http.queue, i, id);
    hide Ids;
  }

  lemma CountHandled(s: State, outcome: Outcome, id: nat)
    requires Enabled(s, Handle(outcome)) && s.phase.ch == Http
    ensures Count(Next(s, Handle(outcome)), id) == Count(s, id)
  {
    var item := s.http.batch[0];
    var s' := Next(s, Handle(outcome));
    DispatchedMore(s.replies, item, ReplyFor(outcome));
    assert Ids(s'.replies) == Ids(s.replies) + [item] && s'.http.batch == s.http.batch[1..];
    CountMore(Ids(s.replies), item, id);
    CountFirst(s.http.batch, id);
    assert s'.http.queue == s.http.queue && s'.entering == s.entering && s'.refused == s.refused;
    hide Dispatched, Ids, ReplyFor, Next, One;
  }

  /** Everything else leaves the counts alone; a swap moves the queue to an empty batch. */
  lemma CountUntouched(s: State, a: Action, id: nat)
    requires Enabled(s, a) && Ordered(s, Http)
    requires a.Post? || a.Notify? || a.Fire? || a.Read? || a.Swap? || a.Advance? || (a.Handle? && s.phase.ch != Http)
    ensures Count(Next(s, a), id) == Count(s, id)
  {
    hide Ids, Fifo, One;
  }

  lemma CountKept(s: State, a: Action, id: nat)
    requires Enabled(s, a)
    requires AnsweredOnce(s) && Ordered(s, Http)
    ensures Count(Next(s, a), id) == One(id < Next(s, a).arrived)
  {
    assert Count(s, id) == One(id < s.arrived);
    if a.Arrive? {
      assert Count(s, s.arrived) == One(s.arrived < s.arrived);
    } else {
      hide Count, One;
      assert Next(s, a).arrived == s.arrived;
      if a.Limit? || a.TurnAway? {
        CountReply(s, a, id);
      } else if a.Enter? {
        CountEntry(s, a.id, id);
      } else if a.Handle? && s.phase.ch == Http {
        CountHandled(s, a.outcome, id);
      } else {
        CountUntouched(s, a, id);
      }
    }
  }

  lemma DispatchKept(s: State, a: Action)
    requires Enabled(s, a)
    requires Dispatched(s.replies) == s.http.done
    ensures Dispatched(Next(s, a).replies) == Next(s, a).http.done
  {
    match a
    case Limit(i) => DispatchedMore(s.replies, i, TooMany);
    case TurnAway(i) => DispatchedMore(s.replies, i, Unavailable);
    case Handle(outcome) =>
      if s.phase.ch == Http {
        DispatchedMore(s.replies, s.http.batch[0], ReplyFor(outcome));
      }
    case _ =>
  }

  lemma StepKeeps(s: State, a: Action)
    requires Inv(s) && Enabled(s, a)
    ensures Inv(Next(s, a))
  {
    var s' := Next(s, a);
    forall ch ensures Watched(s', ch) && Ordered(s', ch) {
      WatchKept(s, a, ch);
      OrderKept(s, a, ch);
    }
    forall id: nat ensures Count(s', id) == One(id < s'.arrived) {
      CountKept(s, a, id);
    }
    DispatchKept(s, a);
    hide Watched, Ordered, Count, Dispatched;
  }

  // Whole runs.

  function Step(s: State, a: Action): Option<State> {
    if Enabled(s, a) then Some(Next(s, a)) else None
  }

  lemma AllKept()
    ensures Keeps(Step, (s: State) => Inv(s))
  {
    forall s, a | Inv(s) && Step(s, a).Some? ensures Inv(Step(s, a).value) {
      StepKeeps(s, a);
    }
    hide Inv, Next;
  }

  lemma InitInv(capacity: nat, max: nat)
    requires capacity > 0
    ensures Inv(Init(capacity, max))
  {
    var s := Init(capacity, max);
    forall id: nat ensures Count(s, id) == One(id < s.arrived) {
      assert Ids(s.replies) == [];
    }
  }

  lemma RunInv(capacity: nat, max: nat, actions: seq<Action>)
    requires capacity > 0 && Run(Step, Init(capacity, max), actions).Some?
    ensures Inv(Run(Step, Init(capacity, max), actions).value)
  {
    InitInv(capacity, max);
    AllKept();
    RunKeeps(Step, (s: State) => Inv(s), Init(capacity, max), actions);
  }

  /** In every state of every run, a queue with something in it is watched, even though a
      write to a full pipe is dropped. */
  lemma NoLostWakeup(capacity: nat, max: nat, actions: seq<Action>, ch: Channel)
    requires capacity > 0 && Run(Step, Init(capacity, max), actions).Some?
    ensures var s := Run(Step, Init(capacity, max), actions).value;
            Get(s, ch).queue != [] ==>
              s.pipe > 0 || Get(s, ch).notifying > 0 || StillToCome(s.phase, ch)
  {
    RunInv(capacity, max, actions);
    assert Watched(Run(Step, Init(capacity, max), actions).value, ch);
    hide Run;
  }

  /** Each request that has arrived has been answered exactly once, or it is on its way in,
      turned away and about to be told so, queued, or in the batch in hand.  Those accepted
      are handled in the order they were queued, and the queue keeps to its bound. */
  lemma ExactlyOneReply(capacity: nat, max: nat, actions: seq<Action>)
    requires capacity > 0 && Run(Step, Init(capacity, max), actions).Some?
    ensures var s := Run(Step, Init(capacity, max), actions).value;
            && (forall id: nat :: Count(s, id) == One(id < s.arrived))
            && s.http.pushed == Dispatched(s.replies) + s.http.batch + s.http.queue
            && (s.max > 0 ==> |s.http.queue| <= s.max)
  {
    RunInv(capacity, max, actions);
    assert Ordered(Run(Step, Init(capacity, max), actions).value, Http);
    hide Run;
  }

  /** When all producers are done and the dispatcher waits at an empty pipe, nothing is
      left behind: the queues are empty and every request has had its one reply. */
  lemma AtRest(s: State)
    requires Inv(s)
    requires s.phase.Waiting? && s.pipe == 0 && s.entering == {} && s.refused == {}
    requires forall ch :: Get(s, ch).notifying == 0
    ensures forall ch :: Get(s, ch).queue == [] && Get(s, ch).done == Get(s, ch).pushed
    ensures forall id: nat :: multiset(Ids(s.replies))[id] == One(id < s.arrived)
  {
    forall ch ensures Get(s, ch).queue == [] && Get(s, ch).batch == [] && Get(s, ch).done == Get(s, ch).pushed {
      assert Watched(s, ch) && Ordered(s, ch);
    }
    forall id: nat ensures multiset(Ids(s.replies))[id] == One(id < s.arrived) {
      assert Get(s, Http).queue == [] && Get(s, Http).batch == [];
      assert Count(s, id) == One(id < s.arrived);
    }
  }
}
