/** The reaper of native WebSocket sessions: one timer that scans all sessions and closes
    those that have been silent or open for too long.  Times are milliseconds of a clock
    that never goes back. */
module WsReaper {
  import opened Text
  import opened Runs

  /** A route with its thresholds; 0 or less means none. */
  datatype Route = Route(native: bool, idle: int, lifetime: int)

  /** Thresholds that ask for reaping. */
  ghost predicate Wanted(routes: seq<Route>, v: int) {
    v > 0 && exists i :: 0 <= i < |routes| && routes[i].native && (v == routes[i].idle || v == routes[i].lifetime)
  }

  function Tighter(v: int, least: int): int {
    if v > 0 && (least == 0 || v < least) then v else least
  }

  /** The tightest threshold of the native routes, 0 if there is none. */
  method TightestThreshold(routes: seq<Route>) returns (least: int)
    ensures least == 0 <==> forall v :: !Wanted(routes, v)
    ensures least != 0 ==> Wanted(routes, least) && forall v :: Wanted(routes, v) ==> least <= v
  {
    least := 0;
    for i := 0 to |routes|
      invariant least >= 0
      invariant least == 0 || Wanted(routes[..i], least)
      invariant forall v :: Wanted(routes[..i], v) ==> 0 < least <= v
    {
      ghost var before := least;
      if routes[i].native {
        least := Tighter(routes[i].idle, least);
        least := Tighter(routes[i].lifetime, least);
      }
      WantedMore(routes, i);
      ghost var more := routes[..i + 1];
      forall v | Wanted(more, v) ensures 0 < least <= v {
        assert Wanted(routes[..i], v) ==> 0 < before <= v;
      }
    }
    assert routes[..|routes|] == routes;
  }

  lemma WantedMore(routes: seq<Route>, i: nat)
    requires i < |routes|
    ensures forall v :: Wanted(routes[..i + 1], v) <==>
              Wanted(routes[..i], v) || (routes[i].native && v > 0 && (v == routes[i].idle || v == routes[i].lifetime))
  {
    var all, some := routes[..i + 1], routes[..i];
    forall v | Wanted(some, v) ensures Wanted(all, v) {
      var k :| 0 <= k < |some| && some[k].native && (v == some[k].idle || v == some[k].lifetime);
      assert all[k] == some[k];
    }
    forall v | Wanted(all, v)
      ensures Wanted(some, v) || (routes[i].native && v > 0 && (v == routes[i].idle || v == routes[i].lifetime))
    {
      var k :| 0 <= k < |all| && all[k].native && (v == all[k].idle || v == all[k].lifetime);
      assert k < i ==> some[k] == all[k];
    }
    assert all[i] == routes[i];
  }

  /** Half the tightest threshold in seconds, kept between 50 milliseconds and one second. */
  function Interval(least: int): (seconds: real)
    requires least > 0
    ensures 0.05 <= seconds <= 1.0
    ensures 100 <= least <= 2000 ==> 2000.0 * seconds == least as real
    ensures least <= 100 ==> seconds == 0.05
    ensures least >= 2000 ==> seconds == 1.0
  {
    var half := least as real / 2.0 / 1000.0;
    if half < 0.05 then 0.05 else if half > 1.0 then 1.0 else half
  }

  /** `lastSend` is the idle clock the reaper reads; `latest` logs the newest reading that
      was ever stored in it. */
  datatype Session = Session(
    native: bool, idle: int, lifetime: int, connected: int, lastSend: int, latest: int, closing: bool)

  /** A thread inside a send: it has found the session open, then queued the message, then
      read the clock to store it. */
  datatype Stage = Checked | Queued | Timed(at: int)

  datatype Sender = Sender(id: nat, stage: Stage)

  datatype Message = Message(id: nat, sender: nat)

  /** The reaper rests or marks what it picked, or has read the clock for a scan, or holds
      the lock with some sessions left to visit. */
  datatype Reaper = Resting | Called | Visiting(left: set<nat>)

  /** The sessions by identity, `next` being the next one to give out.  `ticked` is the time
      of the last scan, `previous` that of the scan before it, `seen` the sessions as the
      last scan saw them, `expired` what it picked and has not marked yet.  `senders` are
      the sends under way, by number, `tickets` the next number, `sends` the messages
      that were accepted. */
  datatype State = State(
    now: int, ticked: int, previous: int, next: nat, sessions: map<nat, Session>,
    reaper: Reaper, seen: map<nat, Session>, expired: set<nat>,
    tickets: nat, senders: map<nat, Sender>, sends: seq<Message>)

  datatype Action =
    | Wait(until: int)
    | Connect(route: Route)
    | Check(id: nat)
    | Queue(sender: nat)
    | Clock(sender: nat)
    | Store(sender: nat)
    | Leave(sender: nat)
    | Shut(id: nat)
    | Erase(id: nat)
    | Scan
    | Lock
    | Visit(id: nat)
    | Release
    | Mark(id: nat)

  predicate Overdue(s: Session, now: int) {
    && s.native && !s.closing
    && ((s.idle > 0 && now - s.lastSend > s.idle) || (s.lifetime > 0 && now - s.connected > s.lifetime))
  }

  predicate AtStage(s: State, k: nat, stage: Stage) { k in s.senders && s.senders[k].stage == stage }

  /** `interval` in milliseconds bounds the time between two scans; the scan comes before
      the clock passes it.  Sessions come and go under the lock. */
  predicate Enabled(s: State, a: Action, interval: real) {
    match a
    case Wait(until) => s.now <= until && (until - s.ticked) as real <= interval
    case Connect(_) => !s.reaper.Visiting?
    case Check(_) => true
    case Queue(k) => AtStage(s, k, Checked)
    case Clock(k) => AtStage(s, k, Queued)
    case Store(k) => k in s.senders && s.senders[k].stage.Timed?
    case Leave(k) => k in s.senders
    case Shut(_) => true
    case Erase(_) => !s.reaper.Visiting?
    case Scan => s.reaper.Resting? && s.expired == {}
    case Lock => s.reaper.Called?
    case Visit(id) => s.reaper.Visiting? && id in s.reaper.left
    case Release => s.reaper == Visiting({})
    case Mark(id) => s.reaper.Resting? && id in s.expired
  }

  function Shutting(s: State, id: nat): State {
    if id !in s.sessions then s else s.(sessions := s.sessions[id := s.sessions[id].(closing := true)])
  }

  function Later(a: int, b: int): int { if a < b then b else a }

  function Stored(x: Session, at: int): Session { x.(lastSend := at, latest := Later(x.latest, at)) }

  /** A send under way goes on although its session is closed or gone. */
  function Next(s: State, a: Action): State {
    match a
    case Wait(until) => s.(now := until)
    case Connect(r) =>
      s.(next := s.next + 1,
         sessions := s.sessions[s.next := Session(r.native, r.idle, r.lifetime, s.now, s.now, s.now, false)])
    case Check(id) =>
      if id !in s.sessions || s.sessions[id].closing then s
      else s.(tickets := s.tickets + 1, senders := s.senders[s.tickets := Sender(id, Checked)])
    case Queue(k) =>
      if k !in s.senders then s
      else
        var id := s.senders[k].id;
        s.(senders := s.senders[k := Sender(id, Queued)], sends := s.sends + [Message(id, k)])
    case Clock(k) =>
      if k !in s.senders then s else s.(senders := s.senders[k := Sender(s.senders[k].id, Timed(s.now))])
    case Store(k) =>
      if k !in s.senders || !s.senders[k].stage.Timed? then s
      else
        var id, at := s.senders[k].id, s.senders[k].stage.at;
        var s' := s.(senders := s.senders - {k});
        if id !in s.sessions then s' else s'.(sessions := s.sessions[id := Stored(s.sessions[id], at)])
    case Leave(k) => s.(senders := s.senders - {k})
    case Shut(id) => Shutting(s, id)
    case Erase(id) => s.(sessions := s.sessions - {id})
    case Scan => s.(reaper := Called, ticked := s.now, previous := s.ticked, seen := map[])
    case Lock => s.(reaper := Visiting(s.sessions.Keys))
    case Visit(id) =>
      if !s.reaper.Visiting? || id !in s.sessions then s
      else
        var x := s.sessions[id];
        s.(reaper := Visiting(s.reaper.left - {id}), seen := s.seen[id := x],
           expired := if Overdue(x, s.ticked) then s.expired + {id} else s.expired)
    case Release => s.(reaper := Resting)
    case Mark(id) => Shutting(s.(expired := s.expired - {id}), id)
  }

  /** Past a threshold by the newest send. */
  predicate Late(x: Session, now: int) {
    Overdue(x.(lastSend := x.latest), now)
  }

  /** The running scan has not come to this session yet. */
  predicate Pending(s: State, id: nat) {
    s.reaper.Called? || (s.reaper.Visiting? && id in s.reaper.left)
  }

  predicate InTime(s: State, interval: real) {
    && s.previous <= s.ticked <= s.now
    && (s.now - s.ticked) as real <= interval
    && (s.ticked - s.previous) as real <= interval
    && (forall id :: id in s.sessions ==>
          s.sessions[id].connected <= s.now && s.sessions[id].lastSend <= s.sessions[id].latest <= s.now)
    && (forall k :: k in s.senders && s.senders[k].stage.Timed? ==> s.senders[k].stage.at <= s.now)
  }

  /** At the last scan every session left open was within its thresholds, or is about to
      be visited or marked; at the scan before it all were. */
  predicate OnTime(s: State) {
    && (forall id :: id in s.sessions && id !in s.expired && !Pending(s, id) ==> !Late(s.sessions[id], s.ticked))
    && (forall id :: id in s.sessions ==> !Late(s.sessions[id], s.previous))
  }

  predicate SameTerms(x: Session, y: Session) {
    x.native == y.native && x.idle == y.idle && x.lifetime == y.lifetime && x.connected == y.connected
  }

  /** What is about to be marked was overdue when the last scan saw it, and what was overdue
      then is about to be marked, closing or gone. */
  predicate Picked(s: State) {
    && (forall id :: id in s.sessions ==> id < s.next)
    && (forall id :: id in s.seen ==> id < s.next)
    && (forall id :: id in s.seen && id in s.sessions ==>
          SameTerms(s.seen[id], s.sessions[id]) && (s.seen[id].closing ==> s.sessions[id].closing))
    && (forall id :: id in s.expired ==> id in s.seen && Overdue(s.seen[id], s.ticked))
    && (forall id :: id in s.seen && Overdue(s.seen[id], s.ticked) ==>
          id in s.expired || (id in s.sessions ==> s.sessions[id].closing))
    && (s.reaper.Called? ==> s.seen == map[])
    && (s.reaper.Visiting? ==> s.sessions.Keys == s.reaper.left + s.seen.Keys && s.reaper.left !! s.seen.Keys)
  }

  /** Every send has its own number, and a message is accepted from it once, after its check. */
  predicate Numbered(s: State) {
    && (forall k :: k in s.senders ==> k < s.tickets && s.senders[k].id < s.next)
    && (forall i :: 0 <= i < |s.sends| ==> s.sends[i].sender < s.tickets)
    && (forall i :: 0 <= i < |s.sends| && s.sends[i].sender in s.senders ==>
          !s.senders[s.sends[i].sender].stage.Checked?)
    && (forall i, j :: 0 <= i < j < |s.sends| ==> s.sends[i].sender != s.sends[j].sender)
  }

  predicate Inv(s: State, interval: real) {
    InTime(s, interval) && OnTime(s) && Picked(s) && Numbered(s)
  }

  lemma TimeKept(s: State, a: Action, interval: real)
    requires interval >= 0.0 && InTime(s, interval) && Enabled(s, a, interval)
    ensures InTime(Next(s, a), interval)
  {}

  lemma DeadlineKept(s: State, a: Action, interval: real)
    requires InTime(s, interval) && OnTime(s) && Enabled(s, a, interval)
    ensures OnTime(Next(s, a))
  {}

  lemma PicksKept(s: State, a: Action, interval: real)
    requires Picked(s) && Enabled(s, a, interval)
    ensures Picked(Next(s, a))
  {
    hide Overdue;
  }

  lemma NumbersKept(s: State, a: Action, interval: real)
    requires Picked(s) && Numbered(s) && Enabled(s, a, interval)
    ensures Numbered(Next(s, a))
  {}

  lemma StepKeeps(s: State, a: Action, interval: real)
    requires interval >= 0.0
    requires Inv(s, interval) && Enabled(s, a, interval)
    ensures Inv(Next(s, a), interval)
  {
    TimeKept(s, a, interval);
    DeadlineKept(s, a, interval);
    PicksKept(s, a, interval);
    NumbersKept(s, a, interval);
    hide InTime, OnTime, Picked, Numbered, Next;
  }

  /** One step, the scans being at most `interval` apart. */
  function Step(interval: real): (State, Action) -> Option<State> {
    (s: State, a: Action) => if Enabled(s, a, interval) then Some(Next(s, a)) else None
  }

  function Start(now: int): State { State(now, now, now, 0, map[], Resting, map[], {}, 0, map[], []) }

  lemma RunInv(now: int, actions: seq<Action>, interval: real)
    requires interval >= 0.0 && Run(Step(interval), Start(now), actions).Some?
    ensures Inv(Run(Step(interval), Start(now), actions).value, interval)
  {
    var step, inv := Step(interval), (s: State) => Inv(s, interval);
    forall s, a | inv(s) && step(s, a).Some? ensures inv(step(s, a).value) {
      StepKeeps(s, a, interval);
      hide Inv, Next;
    }
    RunKeeps(step, inv, Start(now), actions);
  }

  /** The deadline.  While scans come at most one interval apart, a native session that is
      not closing is at most one interval past each of its thresholds, or two while a scan
      has still to visit it, or to mark it. */
  lemma Deadline(now: int, actions: seq<Action>, least: int, id: nat)
    requires least > 0
    requires var r := Run(Step(1000.0 * Interval(least)), Start(now), actions);
             && r.Some? && id in r.value.sessions
             && r.value.sessions[id].native && !r.value.sessions[id].closing
    ensures var s := Run(Step(1000.0 * Interval(least)), Start(now), actions).value;
            var x := s.sessions[id];
            var late := (if id in s.expired || Pending(s, id) then 2000.0 else 1000.0) * Interval(least);
            && (x.idle > 0 ==> (s.now - x.latest) as real <= x.idle as real + late)
            && (x.lifetime > 0 ==> (s.now - x.connected) as real <= x.lifetime as real + late)
  {
    var interval := 1000.0 * Interval(least);
    RunInv(now, actions, interval);
    var s := Run(Step(interval), Start(now), actions).value;
    assert 2000.0 * Interval(least) == interval + interval;
    assert !Late(s.sessions[id], s.previous);
    assert id !in s.expired && !Pending(s, id) ==> !Late(s.sessions[id], s.ticked);
    hide Run, Interval, Step;
  }

  /** In every run the reaper's mark closes a session only if it was past a threshold when
      the last scan saw it; the only other way to `closing` is an explicit close.  A
      session without thresholds is never even picked. */
  lemma OnlyTheOverdueReaped(now: int, actions: seq<Action>, interval: real, a: Action, id: nat)
    requires interval >= 0.0
    requires var r := Run(Step(interval), Start(now), actions); r.Some? && Enabled(r.value, a, interval)
    requires var s := Run(Step(interval), Start(now), actions).value;
             id in s.sessions && !s.sessions[id].closing
    ensures var s := Run(Step(interval), Start(now), actions).value;
            var x, s' := s.sessions[id], Next(s, a);
            && (id in s'.sessions && s'.sessions[id].closing ==>
                  || a == Shut(id)
                  || (a == Mark(id) && id in s.seen
                      && ((x.idle > 0 && s.ticked - s.seen[id].lastSend > x.idle)
                          || (x.lifetime > 0 && s.ticked - x.connected > x.lifetime))))
            && (x.idle <= 0 && x.lifetime <= 0 ==> id !in s.expired)
            && (!x.native ==> id !in s.expired)
  {
    RunInv(now, actions, interval);
    hide Run, Step, InTime, OnTime, Numbered;
  }

  /** In every run, once a scan has marked what it picked, every session it saw past a
      threshold is closing or gone. */
  lemma EveryOverdueReaped(now: int, actions: seq<Action>, interval: real, id: nat)
    requires interval >= 0.0
    requires var r := Run(Step(interval), Start(now), actions);
             && r.Some? && r.value.expired == {} && id in r.value.seen && r.value.seen[id].native
             && var x := r.value.seen[id];
                || (x.idle > 0 && r.value.ticked - x.lastSend > x.idle)
                || (x.lifetime > 0 && r.value.ticked - x.connected > x.lifetime)
    ensures var s := Run(Step(interval), Start(now), actions).value;
            id in s.sessions ==> s.sessions[id].closing
  {
    RunInv(now, actions, interval);
    hide Run, Step, InTime, OnTime, Numbered;
  }

  /** How many messages were queued? */
  function Queues(actions: seq<Action>): nat {
    if actions == [] then 0 else (if actions[0].Queue? then 1 else 0) + Queues(actions[1..])
  }

  /** Every message queued is accepted. */
  lemma {:induction false} SendsAreQueued(s: State, actions: seq<Action>, interval: real)
    requires Run(Step(interval), s, actions).Some?
    ensures |Run(Step(interval), s, actions).value.sends| == |s.sends| + Queues(actions)
    decreases |actions|
  {
    if actions != [] {
      assert |Next(s, actions[0]).sends| == |s.sends| + if actions[0].Queue? then 1 else 0;
      hide Next;
      SendsAreQueued(Next(s, actions[0]), actions[1..], interval);
    }
  }

  /** A send passes its check if and only if the session is there and not closing. */
  lemma CheckPasses(now: int, actions: seq<Action>, interval: real, id: nat)
    requires interval >= 0.0 && Run(Step(interval), Start(now), actions).Some?
    ensures var s := Run(Step(interval), Start(now), actions).value;
            s.tickets !in s.senders &&
            (s.tickets in Next(s, Check(id)).senders <==> id in s.sessions && !s.sessions[id].closing)
  {
    RunInv(now, actions, interval);
    hide Run, Step, InTime, OnTime, Picked;
  }

  // Sends on a closing session.

  /** Since `s`, in which the session was closing or gone, its messages come only from sends
      that had passed their check in `s`. */
  predicate OnlyFrom(s: State, id: nat, t: State) {
    && id < t.next && (id in t.sessions ==> t.sessions[id].closing) && s.tickets <= t.tickets
    && s.sends <= t.sends
    && (forall k :: k in t.senders && t.senders[k].id == id ==>
          && k in s.senders && s.senders[k].id == id
          && (t.senders[k].stage.Checked? ==> s.senders[k].stage.Checked?))
    && (forall i :: |s.sends| <= i < |t.sends| && t.sends[i].id == id ==>
          t.sends[i].sender in s.senders && s.senders[t.sends[i].sender] == Sender(id, Checked))
  }

  lemma OnlyFromStays(s: State, id: nat, t: State, a: Action, interval: real)
    requires OnlyFrom(s, id, t) && Enabled(t, a, interval)
    ensures OnlyFrom(s, id, Next(t, a))
  {}

  /** A closing session stays closing until it is gone.  From then on no check succeeds: a
      message is accepted only from a send that had passed its check before, at most one
      from each. */
  lemma ClosingIsFinal(now: int, before: seq<Action>, after: seq<Action>, interval: real, id: nat)
    requires interval >= 0.0
    requires var r := Run(Step(interval), Start(now), before);
             && r.Some? && id < r.value.next && (id in r.value.sessions ==> r.value.sessions[id].closing)
             && Run(Step(interval), r.value, after).Some?
    ensures var s := Run(Step(interval), Start(now), before).value;
            var t := Run(Step(interval), s, after).value;
            && (id in t.sessions ==> t.sessions[id].closing)
            && (forall k :: k in t.senders && t.senders[k].id == id ==> k in s.senders && s.senders[k].id == id)
            && s.sends <= t.sends
            && (forall i :: |s.sends| <= i < |t.sends| && t.sends[i].id == id ==>
                  t.sends[i].sender in s.senders && s.senders[t.sends[i].sender] == Sender(id, Checked))
            && (forall i, j :: 0 <= i < j < |t.sends| ==> t.sends[i].sender != t.sends[j].sender)
  {
    var step := Step(interval);
    RunInv(now, before, interval);
    var s := Run(step, Start(now), before).value;
    var inv := (t: State) => OnlyFrom(s, id, t) && Inv(t, interval);
    forall t, a | inv(t) && step(t, a).Some? ensures inv(step(t, a).value) {
      OnlyFromStays(s, id, t, a, interval);
      StepKeeps(t, a, interval);
      hide OnlyFrom, Inv, Next;
    }
    RunKeeps(step, inv, s, after);
    hide Run;
  }

  /** Such a message: the send had found the session open, then the session was closed. */
  lemma LateSend(now: int, interval: real, route: Route)
    ensures var r := Run(Step(interval), Start(now), [Connect(route), Check(0), Shut(0), Queue(0)]);
            && r.Some? && r.value.sends == [Message(0, 0)]
            && 0 in r.value.sessions && r.value.sessions[0].closing
  {
    var s1 := Next(Start(now), Connect(route));
    var s2 := Next(s1, Check(0));
    var s3 := Next(s2, Shut(0));
    var s4 := Next(s3, Queue(0));
    TraceRuns(Step(interval), [Start(now), s1, s2, s3, s4], [Connect(route), Check(0), Shut(0), Queue(0)]);
  }

  // The idle clock.

  /** A reading is stored that is older than the clock it is stored in. */
  predicate SetsBack(s: State, a: Action, id: nat) {
    && a.Store? && a.sender in s.senders && s.senders[a.sender].id == id && s.senders[a.sender].stage.Timed?
    && id in s.sessions && s.senders[a.sender].stage.at < s.sessions[id].lastSend
  }

  predicate TellsNewest(s: State, id: nat) {
    id in s.sessions ==> s.sessions[id].lastSend == s.sessions[id].latest
  }

  /** A step leaves the idle clock of a session at its newest send if and only if it does not
      set it back. */
  lemma ClockStep(s: State, a: Action, interval: real, id: nat)
    requires TellsNewest(s, id) && Enabled(s, a, interval)
    ensures TellsNewest(Next(s, a), id) <==> !SetsBack(s, a, id)
  {}

  /** Sends on one session come one after the other. */
  predicate Alone(s: State, a: Action) {
    a.Check? ==> forall k :: k in s.senders ==> s.senders[k].id != a.id
  }

  function StepAlone(interval: real): (State, Action) -> Option<State> {
    (s: State, a: Action) => if Enabled(s, a, interval) && Alone(s, a) then Some(Next(s, a)) else None
  }

  predicate OneEach(s: State) {
    && (forall id :: id in s.sessions ==> id < s.next)
    && (forall k :: k in s.senders ==> s.senders[k].id < s.next)
    && (forall j, k :: j in s.senders && k in s.senders && j != k ==> s.senders[j].id != s.senders[k].id)
  }

  /** The idle clocks tell the newest sends. */
  predicate Fresh(s: State) {
    && (forall id :: id in s.sessions ==> s.sessions[id].lastSend == s.sessions[id].latest <= s.now)
    && (forall id :: id in s.seen ==> s.seen[id].lastSend == s.seen[id].latest)
    && (forall k :: k in s.senders && s.senders[k].stage.Timed? ==>
          && s.senders[k].stage.at <= s.now
          && (s.senders[k].id in s.sessions ==> s.sessions[s.senders[k].id].latest <= s.senders[k].stage.at))
  }

  lemma OneEachKept(s: State, a: Action, interval: real)
    requires OneEach(s) && Enabled(s, a, interval) && Alone(s, a)
    ensures OneEach(Next(s, a))
  {
    hide Overdue;
  }

  lemma FreshKept(s: State, a: Action, interval: real)
    requires OneEach(s) && Fresh(s) && Enabled(s, a, interval)
    ensures Fresh(Next(s, a))
  {
    hide Overdue;
  }

  lemma AloneInv(now: int, actions: seq<Action>, interval: real)
    requires interval >= 0.0 && Run(StepAlone(interval), Start(now), actions).Some?
    ensures var s := Run(StepAlone(interval), Start(now), actions).value; Fresh(s) && Inv(s, interval)
  {
    var step, inv := StepAlone(interval), (s: State) => OneEach(s) && Fresh(s) && Inv(s, interval);
    forall s, a | inv(s) && step(s, a).Some? ensures inv(step(s, a).value) {
      hide OneEach, Fresh, Inv, Next;
      OneEachKept(s, a, interval);
      FreshKept(s, a, interval);
      StepKeeps(s, a, interval);
    }
    RunKeeps(step, inv, Start(now), actions);
    hide *;
  }

  /** Then the reaper picks only sessions that are past a threshold by their newest send. */
  lemma OnlyTheSilentReaped(now: int, actions: seq<Action>, interval: real, id: nat)
    requires interval >= 0.0
    requires var r := Run(StepAlone(interval), Start(now), actions); r.Some? && id in r.value.expired
    ensures var s := Run(StepAlone(interval), Start(now), actions).value;
            && id in s.seen
            && var x := s.seen[id];
               (x.idle > 0 && s.ticked - x.latest > x.idle) || (x.lifetime > 0 && s.ticked - x.connected > x.lifetime)
  {
    hide Run, InTime, OnTime, Numbered, Next, Enabled, Alone;
    AloneInv(now, actions, interval);
  }

  // A thread reads the clock at 0 ms and is held up; another sends at 5 ms, and the first
  // stores its 0 ms.

  const HELD_UP := State(
    5, 0, 0, 1, map[0 := Session(true, 7, 0, 0, 0, 0, false)], Resting, map[], {},
    1, map[0 := Sender(0, Timed(0))], [Message(0, 0)])

  const SET_BACK := HELD_UP.(
    sessions := map[0 := Session(true, 7, 0, 0, 0, 5, false)],
    tickets := 2, senders := map[], sends := [Message(0, 0), Message(0, 1)])

  lemma HeldUp()
    ensures Run(Step(50.0), Start(0), [Connect(Route(true, 7, 0)), Check(0), Queue(0), Clock(0), Wait(5)]) == Some(HELD_UP)
  {
    var s1 := Next(Start(0), Connect(Route(true, 7, 0)));
    var s2 := Next(s1, Check(0));
    var s3 := Next(s2, Queue(0));
    var s4 := Next(s3, Clock(0));
    assert Next(s4, Wait(5)) == HELD_UP;
    TraceRuns(Step(50.0), [Start(0), s1, s2, s3, s4, HELD_UP],
              [Connect(Route(true, 7, 0)), Check(0), Queue(0), Clock(0), Wait(5)]);
  }

  lemma SetBack()
    ensures Run(Step(50.0), HELD_UP, [Check(0), Queue(1), Clock(1), Store(1), Store(0)]) == Some(SET_BACK)
  {
    var s1 := Next(HELD_UP, Check(0));
    var s2 := Next(s1, Queue(1));
    var s3 := Next(s2, Clock(1));
    var s4 := Next(s3, Store(1));
    assert Next(s4, Store(0)) == SET_BACK;
    TraceRuns(Step(50.0), [HELD_UP, s1, s2, s3, s4, SET_BACK], [Check(0), Queue(1), Clock(1), Store(1), Store(0)]);
  }

  lemma FoundOverdue()
    ensures var r := Run(Step(50.0), SET_BACK, [Wait(8), Scan, Lock, Visit(0)]);
            && r.Some? && 0 in r.value.expired && r.value.ticked == 8
            && 0 in r.value.seen && r.value.seen[0] == SET_BACK.sessions[0]
  {
    var s1 := Next(SET_BACK, Wait(8));
    var s2 := Next(s1, Scan);
    var s3 := Next(s2, Lock);
    var s4 := Next(s3, Visit(0));
    TraceRuns(Step(50.0), [SET_BACK, s1, s2, s3, s4], [Wait(8), Scan, Lock, Visit(0)]);
  }

  /** So a session that may be silent for 7 ms is picked at 8 ms, although it sent at 5 ms. */
  lemma StaleClock() returns (actions: seq<Action>)
    ensures Run(Step(50.0), Start(0), actions).Some?
    ensures var s := Run(Step(50.0), Start(0), actions).value;
            0 in s.expired && 0 in s.seen && s.seen[0].latest == 5 && s.ticked == 8 && !Late(s.seen[0], s.ticked)
  {
    HeldUp();
    SetBack();
    FoundOverdue();
    var first := [Connect(Route(true, 7, 0)), Check(0), Queue(0), Clock(0), Wait(5)];
    var second := [Check(0), Queue(1), Clock(1), Store(1), Store(0)];
    actions := first + (second + [Wait(8), Scan, Lock, Visit(0)]);
    hide Run, Next, Enabled;
    RunJoins(Step(50.0), HELD_UP, second, [Wait(8), Scan, Lock, Visit(0)]);
    RunJoins(Step(50.0), Start(0), first, second + [Wait(8), Scan, Lock, Visit(0)]);
  }
}
