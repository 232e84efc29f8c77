/** One streaming response over its whole life: the R thread pumps the generator, the
    connection's loop sends and closes, the peer may leave at any time, and the server may
    stop.  Each pump, loop task and callback is one step. */
module StreamSessions {
  import opened Text
  import opened Runs

  /** An R object, by its identity. */
  type Object = nat

  /** What one call of the generator gives. */
  datatype Result =
    | Raised
    | NotAList
    | Listed(chunk: string, state: Option<Object>, done: bool)

  datatype Call = Call(state: Option<Object>, cancelled: bool, result: Result)

  /** A task queued on the connection's loop. */
  datatype Task = Send(data: string) | Close

  /** The stream pointer: not handed over yet, held, or given up. */
  datatype Stream = Awaited | Open | Gone

  /** What the stream is told. */
  datatype Event = Sent(data: string) | Closed

  /** `pumps` counts the pumps scheduled on the R thread.  `next` and `state` are the
      preserved objects the session holds, and `preserved` counts every object preserved
      and not released since.  `broken` records a release of something not preserved, or
      the use of a loop the session does not know yet. */
  datatype Session = Session(
    live: bool, closing: bool, cancelled: bool, stopped: bool,
    stream: Stream, pumps: nat, tasks: seq<Task>,
    next: Option<Object>, state: Option<Object>, preserved: multiset<Object>,
    calls: seq<Call>, events: seq<Event>, broken: bool)

  /** `startStreamSession`; `connected` tells whether the connection still exists. */
  function Start(next: Object, state: Option<Object>, connected: bool): Session {
    Session(true, false, !connected, false, Awaited, 1, [], Some(next), state,
            multiset{next} + Held(state), [], [], false)
  }

  datatype Action =
    | HandOver
    | Pump(result: Result)
    | RunTask(accepted: bool)
    | PeerLeft
    | Stop

  function Held(o: Option<Object>): multiset<Object> {
    match o case None => multiset{} case Some(x) => multiset{x}
  }

  function Release(s: Session, o: Option<Object>): Session {
    match o
    case None => s
    case Some(x) =>
      if x in s.preserved then s.(preserved := s.preserved - multiset{x}) else s.(broken := true)
  }

  /** `releaseSEXPs`. */
  function ReleaseAll(s: Session): Session {
    Release(Release(s, s.next), s.state).(next := None, state := None)
  }

  /** `closeStreamFromMain`. */
  function CloseFromMain(s: Session): Session {
    var s := s.(closing := true, tasks := s.tasks + [Close], broken := s.broken || s.stream.Awaited?);
    ReleaseAll(s).(live := false)
  }

  /** A new state is preserved before the old one is released. */
  function ReplaceState(s: Session, state: Option<Object>): Session {
    match state
    case None => s
    case Some(x) => Release(s.(preserved := s.preserved + multiset{x}, state := state), s.state)
  }

  /** `pumpStreamMain`. */
  function Pumped(s: Session, result: Result): Session {
    if !s.live || s.closing then s
    else if s.stream.Awaited? then s.(pumps := s.pumps + 1)
    else
      var called := s.(calls := s.calls + [Call(s.state, s.cancelled, result)]);
      match result
      case Raised => CloseFromMain(called)
      case NotAList => CloseFromMain(called)
      case Listed(chunk, state, done) =>
        var s' := ReplaceState(called, state);
        if s.cancelled then CloseFromMain(s')
        else
          var s' := if chunk != "" then s'.(tasks := s'.tasks + [Send(chunk)]) else s';
          if done then CloseFromMain(s') else s'.(pumps := s'.pumps + 1)
  }

  function Performed(s: Session, accepted: bool): Session
    requires s.tasks != []
  {
    var task := s.tasks[0];
    var s := s.(tasks := s.tasks[1..]);
    if !s.stream.Open? then s
    else
      match task
      case Send(data) => s.(events := s.events + [Sent(data)], cancelled := s.cancelled || !accepted)
      case Close => s.(events := s.events + [Closed], stream := Gone)
  }

  predicate Enabled(s: Session, a: Action) {
    match a
    case HandOver => s.stream.Awaited? && !s.stopped
    case Pump(_) => s.pumps > 0
    case RunTask(_) => s.tasks != [] && !s.stopped
    case PeerLeft => true
    case Stop => !s.stopped
  }

  function Next(s: Session, a: Action): Session
    requires Enabled(s, a)
  {
    match a
    case HandOver => s.(stream := Open)
    case Pump(result) => Pumped(s.(pumps := s.pumps - 1), result)
    case RunTask(accepted) => Performed(s, accepted)
    case PeerLeft => s.(cancelled := true)
    case Stop =>
      // `clearAllStreamSessions`, after the loops have ended
      if s.live then ReleaseAll(s.(stopped := true, closing := true, stream := Gone)).(live := false)
      else s.(stopped := true)
  }

  // What a run keeps.

  /** The non-empty chunks of the uncancelled calls. */
  function Chunks(calls: seq<Call>): seq<string> {
    if calls == [] then []
    else Chunks(calls[..|calls| - 1]) + ChunkOf(calls[|calls| - 1])
  }

  function ChunkOf(c: Call): seq<string> {
    if !c.cancelled && c.result.Listed? && c.result.chunk != "" then [c.result.chunk] else []
  }

  /** The data passed to the stream's `send`. */
  function DataSent(events: seq<Event>): seq<string> {
    if events == [] then []
    else
      var last := events[|events| - 1];
      DataSent(events[..|events| - 1]) + if last.Sent? then [last.data] else []
  }

  function DataQueued(tasks: seq<Task>): seq<string> {
    if tasks == [] then []
    else DataOf(tasks[0]) + DataQueued(tasks[1..])
  }

  /** The state a generator call is given: the first one, or the last that was returned. */
  function StateAfter(calls: seq<Call>, first: Option<Object>): Option<Object> {
    if calls == [] then first
    else
      var last := calls[|calls| - 1].result;
      if last.Listed? && last.state.Some? then last.state else StateAfter(calls[..|calls| - 1], first)
  }

  /** Every call was given the state that the calls before it left. */
  predicate Threaded(calls: seq<Call>, first: Option<Object>) {
    forall i :: 0 <= i < |calls| ==> calls[i].state == StateAfter(calls[..i], first)
  }

  /** Nothing ends a session that goes on. */
  predicate GoesOn(c: Call) {
    !c.cancelled && c.result.Listed? && !c.result.done
  }

  /** Only the last call may be the cleanup call, or end the stream. */
  predicate EndsOnce(s: Session) {
    forall i :: 0 <= i < |s.calls| && (s.live || i < |s.calls| - 1) ==> GoesOn(s.calls[i])
  }

  /** The close, if any, stands at the end. */
  predicate CloseIsLast(s: Session) {
    && (forall i :: 0 <= i < |s.events| && (i < |s.events| - 1 || s.stream.Open?) ==> s.events[i].Sent?)
    && (forall i :: 0 <= i < |s.tasks| ==> s.tasks[i].Close? ==> i == |s.tasks| - 1 && s.closing)
    && (s.stream.Gone? && !s.stopped ==> s.tasks == [] && s.events != [] && s.events[|s.events| - 1].Closed?)
    && (s.stream.Awaited? ==> s.tasks == [] && s.events == [] && s.calls == [])
  }

  /** One pump is outstanding while the session lives; only a stop can leave one behind. */
  predicate Pumping(s: Session) {
    && !s.broken
    && s.live == !s.closing
    && s.pumps <= 1
    && (s.live ==> s.pumps == 1 && !s.stopped && !s.stream.Gone?)
  }

  /** What is preserved is what the session holds, and it holds nothing once it has ended. */
  predicate Balanced(s: Session, first: Option<Object>) {
    && s.preserved == Held(s.next) + Held(s.state)
    && (if s.live then s.next.Some? && s.state == StateAfter(s.calls, first) else s.next.None? && s.state.None?)
  }

  predicate CloseComes(s: Session) {
    s.live || s.stopped || s.stream.Gone? || (s.tasks != [] && s.tasks[|s.tasks| - 1].Close?)
  }

  /** Sent and queued data are the chunks of the calls. */
  predicate Carried(s: Session) {
    DataSent(s.events) + DataQueued(s.tasks) == Chunks(s.calls)
  }

  predicate Inv(s: Session, first: Option<Object>) {
    && Pumping(s) && Balanced(s, first) && Threaded(s.calls, first) && EndsOnce(s)
    && CloseIsLast(s) && CloseComes(s) && Carried(s)
  }

  lemma HandOverKeeps(s: Session, first: Option<Object>)
    requires Inv(s, first) && Enabled(s, HandOver)
    ensures Inv(Next(s, HandOver), first)
  {}

  lemma PeerLeftKeeps(s: Session, first: Option<Object>)
    requires Inv(s, first)
    ensures Inv(Next(s, PeerLeft), first)
  {}

  lemma ReleaseAllFrees(s: Session)
    requires !s.broken && s.preserved == Held(s.next) + Held(s.state)
    ensures ReleaseAll(s) == s.(next := None, state := None, preserved := multiset{})
  {
    if s.next.Some? && s.state.Some? {
      assert s.preserved - multiset{s.next.value} == multiset{s.state.value};
    }
  }

  lemma StopKeeps(s: Session, first: Option<Object>)
    requires Inv(s, first) && Enabled(s, Stop)
    ensures Inv(Next(s, Stop), first)
  {
    var s' := s.(stopped := true);
    if s.live {
      var s1 := s.(stopped := true, closing := true, stream := Gone);
      ReleaseAllFrees(s1);
      s' := s1.(next := None, state := None, preserved := multiset{}, live := false);
    }
    assert Next(s, Stop) == s';
    CarriedBy(s, s');
    assert EndsOnce(s');
    hide ReleaseAll, Next, Carried, Threaded, EndsOnce, StateAfter;
  }

  lemma CarriedBy(s: Session, s': Session)
    requires Carried(s) && s'.events == s.events && s'.tasks == s.tasks && s'.calls == s.calls
    ensures Carried(s')
  {}

  lemma EventAdds(events: seq<Event>, e: Event)
    ensures DataSent(events + [e]) == DataSent(events) + if e.Sent? then [e.data] else []
  {
    assert (events + [e])[..|events|] == events;
  }

  function DataOf(t: Task): seq<string> { if t.Send? then [t.data] else [] }

  lemma {:induction false} TaskAdds(tasks: seq<Task>, t: Task)
    ensures DataQueued(tasks + [t]) == DataQueued(tasks) + DataOf(t)
  {
    if tasks == [] {
      assert tasks + [t] == [t] && [t][1..] == [];
      Regroup(DataOf(t), [], []);
    } else {
      assert (tasks + [t])[1..] == tasks[1..] + [t] && (tasks + [t])[0] == tasks[0];
      TaskAdds(tasks[1..], t);
      Regroup(DataOf(tasks[0]), DataQueued(tasks[1..]), DataOf(t));
      hide DataOf;
    }
  }

  lemma CallAdds(calls: seq<Call>, c: Call)
    ensures Chunks(calls + [c]) == Chunks(calls) + ChunkOf(c)
  {
    assert (calls + [c])[..|calls|] == calls;
  }

  lemma Regroup(a: seq<string>, b: seq<string>, c: seq<string>)
    ensures a + b + c == a + (b + c)
    ensures [] + a == a == a + []
  {}

  /** Performing a task moves its data from the queue to the wire. */
  lemma DataMoves(events: seq<Event>, tasks: seq<Task>, e: Event)
    requires tasks != []
    requires if tasks[0].Send? then e == Sent(tasks[0].data) else e == Closed
    ensures DataSent(events + [e]) + DataQueued(tasks[1..]) == DataSent(events) + DataQueued(tasks)
  {
    EventAdds(events, e);
    var a, b, c := DataSent(events), if e.Sent? then [e.data] else [], DataQueued(tasks[1..]);
    Regroup(a, b, c);
    assert DataQueued(tasks) == b + c;
    hide DataSent, DataQueued;
  }

  lemma TaskCarries(s: Session, accepted: bool)
    requires Carried(s) && s.tasks != [] && s.stream.Open?
    ensures Carried(Performed(s, accepted))
  {
    var task := s.tasks[0];
    DataMoves(s.events, s.tasks, if task.Send? then Sent(task.data) else Closed);
    hide DataSent, DataQueued, Chunks;
  }

  lemma TaskCloses(s: Session, accepted: bool)
    requires CloseIsLast(s) && CloseComes(s) && Enabled(s, RunTask(accepted)) && s.stream.Open?
    ensures CloseIsLast(Performed(s, accepted)) && CloseComes(Performed(s, accepted))
  {}

  lemma TaskSpares(s: Session, first: Option<Object>, accepted: bool)
    requires Pumping(s) && Balanced(s, first) && EndsOnce(s) && s.tasks != [] && s.stream.Open?
    requires s.tasks[0].Close? ==> !s.live
    ensures var s' := Performed(s, accepted);
            Pumping(s') && Balanced(s', first) && EndsOnce(s') && s'.calls == s.calls
  {
    hide StateAfter;
  }

  lemma TaskKeeps(s: Session, first: Option<Object>, accepted: bool)
    requires Inv(s, first) && Enabled(s, RunTask(accepted))
    ensures Inv(Next(s, RunTask(accepted)), first)
  {
    assert s.stream.Open?;
    TaskCarries(s, accepted);
    TaskCloses(s, accepted);
    TaskSpares(s, first, accepted);
    hide Carried, Threaded, Performed, CloseIsLast, CloseComes, EndsOnce, Pumping, Balanced;
  }

  // A pump.

  function CallMade(s: Session, result: Result): Call {
    Call(s.state, s.cancelled, result)
  }

  function Sends(c: Call): seq<Task> {
    if ChunkOf(c) == [] then [] else [Send(ChunkOf(c)[0])]
  }

  function StateLeft(c: Call): Option<Object> {
    if c.result.Listed? && c.result.state.Some? then c.result.state else c.state
  }

  lemma ReplaceStateHolds(s: Session, state: Option<Object>)
    requires !s.broken && s.preserved == Held(s.next) + Held(s.state)
    ensures var kept := if state.Some? then state else s.state;
            ReplaceState(s, state) == s.(state := kept, preserved := Held(s.next) + Held(kept))
  {
    if state.Some? && s.state.Some? {
      var x, y := state.value, s.state.value;
      assert Held(s.next) + multiset{y} + multiset{x} - multiset{y} == Held(s.next) + multiset{x};
    }
  }

  lemma CloseFromMainEnds(s: Session)
    requires !s.broken && s.preserved == Held(s.next) + Held(s.state) && !s.stream.Awaited?
    ensures CloseFromMain(s) ==
            s.(closing := true, live := false, tasks := s.tasks + [Close],
               next := None, state := None, preserved := multiset{})
  {
    ReleaseAllFrees(s.(closing := true, tasks := s.tasks + [Close]));
    hide ReleaseAll;
  }

  /** The session a pump leaves that goes on. */
  function Continued(s: Session, c: Call): Session {
    s.(calls := s.calls + [c], tasks := s.tasks + Sends(c),
       state := StateLeft(c), preserved := Held(s.next) + Held(StateLeft(c)))
  }

  /** The session a pump leaves that ends it. */
  function Ended(s: Session, c: Call): Session {
    s.(calls := s.calls + [c], tasks := s.tasks + Sends(c) + [Close], closing := true, live := false,
       next := None, state := None, preserved := multiset{})
  }

  /** Can the session be pumped? */
  predicate Ready(s: Session) {
    && !s.broken && s.live && !s.closing && s.stream.Open?
    && s.preserved == Held(s.next) + Held(s.state)
  }

  lemma FailedPumpLeaves(s: Session, result: Result)
    requires Ready(s) && !result.Listed?
    ensures Pumped(s, result) == Ended(s, CallMade(s, result))
  {
    CloseFromMainEnds(s.(calls := s.calls + [CallMade(s, result)]));
    assert s.tasks + [] == s.tasks;
    hide CloseFromMain, ReplaceState;
  }

  /** A pump after the generator returned a list and its state was taken over. */
  lemma ListedPump(s: Session, result: Result)
    requires Ready(s) && result.Listed?
    ensures var c := CallMade(s, result);
            var s1 := s.(calls := s.calls + [c], state := StateLeft(c), preserved := Held(s.next) + Held(StateLeft(c)));
            Pumped(s, result) ==
              if s.cancelled then CloseFromMain(s1)
              else
                var s2 := s1.(tasks := s.tasks + Sends(c));
                if result.done then CloseFromMain(s2) else s2.(pumps := s.pumps + 1)
  {
    var c := CallMade(s, result);
    ReplaceStateHolds(s.(calls := s.calls + [c]), result.state);
    assert s.tasks + [] == s.tasks;
    hide ReplaceState, CloseFromMain, Held;
  }

  lemma ListedPumpLeaves(s: Session, result: Result)
    requires Ready(s) && result.Listed?
    ensures var c := CallMade(s, result);
            Pumped(s, result) == if GoesOn(c) then Continued(s, c).(pumps := s.pumps + 1) else Ended(s, c)
  {
    var c := CallMade(s, result);
    ListedPump(s, result);
    var s1 := s.(calls := s.calls + [c], state := StateLeft(c), preserved := Held(s.next) + Held(StateLeft(c)));
    assert s.tasks + [] == s.tasks;
    hide Pumped, CloseFromMain, Held, StateLeft;
    CloseFromMainEnds(s1);
    CloseFromMainEnds(s1.(tasks := s.tasks + Sends(c)));
  }

  lemma PumpLeaves(s: Session, result: Result)
    requires Ready(s)
    ensures var c := CallMade(s, result);
            Pumped(s, result) == if GoesOn(c) then Continued(s, c).(pumps := s.pumps + 1) else Ended(s, c)
  {
    if result.Listed? {
      ListedPumpLeaves(s, result);
    } else {
      FailedPumpLeaves(s, result);
    }
    hide Pumped;
  }

  lemma CallThreads(calls: seq<Call>, c: Call, first: Option<Object>)
    requires Threaded(calls, first) && c.state == StateAfter(calls, first)
    ensures Threaded(calls + [c], first)
    ensures StateAfter(calls + [c], first) == StateLeft(c)
  {
    var all := calls + [c];
    assert all[..|calls|] == calls;
    forall i | 0 <= i < |all| ensures all[i].state == StateAfter(all[..i], first) {
      if i < |calls| {
        assert all[..i] == calls[..i];
      }
    }
  }

  lemma CallCarries(s: Session, c: Call)
    requires Carried(s)
    ensures DataSent(s.events) + DataQueued(s.tasks + Sends(c)) == Chunks(s.calls + [c])
    ensures DataSent(s.events) + DataQueued(s.tasks + Sends(c) + [Close]) == Chunks(s.calls + [c])
  {
    CallAdds(s.calls, c);
    var a, b := DataSent(s.events), DataQueued(s.tasks);
    Regroup(a, b, ChunkOf(c));
    Regroup(DataQueued(s.tasks + Sends(c)), [], []);
    if ChunkOf(c) != [] {
      TaskAdds(s.tasks, Send(ChunkOf(c)[0]));
      assert ChunkOf(c) == [ChunkOf(c)[0]];
    } else {
      Regroup(b, [], []);
      assert s.tasks + Sends(c) == s.tasks;
    }
    TaskAdds(s.tasks + Sends(c), Close);
    hide DataSent, DataQueued, Chunks;
  }

  lemma GoingOnCloses(s: Session, c: Call)
    requires CloseIsLast(s) && CloseComes(s) && s.live && !s.closing && s.stream.Open?
    ensures CloseIsLast(Continued(s, c)) && CloseComes(Continued(s, c))
  {
    hide ChunkOf;
  }

  lemma GoingOnKeeps(s: Session, first: Option<Object>, c: Call)
    requires Inv(s, first) && s.live && s.stream.Open?
    requires GoesOn(c) && c.state == s.state
    ensures Inv(Continued(s, c), first)
  {
    var s' := Continued(s, c);
    CallThreads(s.calls, c, first);
    CallCarries(s, c);
    GoingOnCloses(s, c);
    assert Carried(s');
    assert EndsOnce(s');
    hide Carried, Threaded, StateAfter, EndsOnce, CloseIsLast, CloseComes, Sends;
  }

  lemma EndingCloses(s: Session, c: Call)
    requires CloseIsLast(s) && s.live && !s.closing && s.stream.Open?
    ensures var s' := Ended(s, c).(pumps := 0); CloseIsLast(s') && CloseComes(s')
  {
    hide ChunkOf;
  }

  lemma EndingKeeps(s: Session, first: Option<Object>, c: Call)
    requires Inv(s, first) && s.live && s.stream.Open?
    requires c.state == s.state
    ensures Inv(Ended(s, c).(pumps := 0), first)
  {
    var s' := Ended(s, c).(pumps := 0);
    CallThreads(s.calls, c, first);
    CallCarries(s, c);
    EndingCloses(s, c);
    assert Carried(s');
    assert EndsOnce(s');
    hide Carried, Threaded, StateAfter, EndsOnce, CloseIsLast, CloseComes, Sends;
  }

  lemma IdlePumpKeeps(s: Session, first: Option<Object>, result: Result)
    requires Inv(s, first) && Enabled(s, Pump(result)) && !(s.live && s.stream.Open?)
    ensures Inv(Next(s, Pump(result)), first)
  {
    assert Next(s, Pump(result)) == if s.live then s else s.(pumps := s.pumps - 1);
    hide Threaded, Carried, Next;
    var s' := Next(s, Pump(result));
    CarriedBy(s, s');
  }

  lemma PumpKeeps(s: Session, first: Option<Object>, result: Result)
    requires Inv(s, first) && Enabled(s, Pump(result))
    ensures Inv(Next(s, Pump(result)), first)
  {
    if s.live && s.stream.Open? {
      var c := CallMade(s, result);
      PumpLeaves(s.(pumps := 0), result);
      hide Pumped, Inv;
      if GoesOn(c) {
        GoingOnKeeps(s, first, c);
        assert Next(s, Pump(result)) == Continued(s, c);
      } else {
        EndingKeeps(s, first, c);
        assert Next(s, Pump(result)) == Ended(s, c).(pumps := 0);
      }
    } else {
      IdlePumpKeeps(s, first, result);
      hide Inv, Next;
    }
  }

  lemma StepKeeps(s: Session, first: Option<Object>, a: Action)
    requires Inv(s, first) && Enabled(s, a)
    ensures Inv(Next(s, a), first)
  {
    hide Inv, Next;
    match a
    case HandOver => HandOverKeeps(s, first);
    case Pump(result) => PumpKeeps(s, first, result);
    case RunTask(accepted) => TaskKeeps(s, first, accepted);
    case PeerLeft => PeerLeftKeeps(s, first);
    case Stop => StopKeeps(s, first);
  }

  // Whole runs.

  function Step(s: Session, a: Action): Option<Session> {
    if Enabled(s, a) then Some(Next(s, a)) else None
  }

  lemma RunInv(next: Object, state: Option<Object>, connected: bool, actions: seq<Action>)
    requires Run(Step, Start(next, state, connected), actions).Some?
    ensures var s := Run(Step, Start(next, state, connected), actions).value;
            Inv(s, state) && (s.live ==> s.next == Some(next))
  {
    StartInv(next, state, connected);
    var inv := (s: Session) => Inv(s, state) && (s.live ==> s.next == Some(next));
    forall s, a | inv(s) && Step(s, a).Some? ensures inv(Step(s, a).value) {
      StepKeeps(s, state, a);
      OutlivesStep(s, a);
      hide Inv, Next;
    }
    RunKeeps(Step, inv, Start(next, state, connected), actions);
    hide Inv;
  }

  /** However pumps, sends, hang-ups and a stop interleave: at most one pump is scheduled;
      the generator is called with `cancelled` at most once, and never again after that or
      after it ended the stream; each call gets the state the last one left; what is sent
      is, in order, a prefix of the non-empty chunks of the uncancelled calls; nothing is
      sent after the close, which comes at most once. */
  lemma StreamRuns(next: Object, state: Option<Object>, connected: bool, actions: seq<Action>)
    requires Run(Step, Start(next, state, connected), actions).Some?
    ensures var s := Run(Step, Start(next, state, connected), actions).value;
            && !s.broken
            && s.pumps <= 1
            && (forall i :: 0 <= i < |s.calls| - 1 ==> GoesOn(s.calls[i]))
            && Threaded(s.calls, state)
            && DataSent(s.events) <= Chunks(s.calls)
            && (forall i :: 0 <= i < |s.events| - 1 ==> s.events[i].Sent?)
  {
    RunInv(next, state, connected, actions);
    hide Run;
  }

  lemma StartInv(next: Object, state: Option<Object>, connected: bool)
    ensures Inv(Start(next, state, connected), state)
  {}

  /** What is preserved is exactly what a live session holds; an ended one, whether it ended
      by itself or by the stop, has released everything, once. */
  lemma NothingLeaks(next: Object, state: Option<Object>, connected: bool, actions: seq<Action>)
    requires Run(Step, Start(next, state, connected), actions).Some?
    ensures var s := Run(Step, Start(next, state, connected), actions).value;
            && s.preserved == (if s.live then multiset{next} + Held(StateAfter(s.calls, state)) else multiset{})
            && !s.broken
  {
    RunInv(next, state, connected, actions);
    hide Run, Carried, Threaded, StateAfter;
  }

  lemma OutlivesStep(s: Session, a: Action)
    requires Enabled(s, a)
    ensures Next(s, a).live ==> s.live && Next(s, a).next == s.next
  {}

  /** A session that has ended without a stop, and whose loop has nothing left to do, has
      sent all its chunks and then closed. */
  lemma AllSentThenClosed(s: Session, first: Option<Object>)
    requires Inv(s, first) && !s.live && !s.stopped && s.tasks == []
    ensures DataSent(s.events) == Chunks(s.calls)
    ensures s.stream.Gone? && s.events != [] && s.events[|s.events| - 1].Closed?
    ensures forall i :: 0 <= i < |s.events| - 1 ==> s.events[i].Sent?
  {}

  // After a cancellation.

  /** The pump that makes the cleanup call, if any: the first one that finds the stream
      handed over and the server not stopped. */
  function CleanupPump(open: bool, actions: seq<Action>): Option<Result>
    decreases |actions|
  {
    if actions == [] then None
    else match actions[0]
      case Stop => None
      case Pump(result) => if open then Some(result) else CleanupPump(open, actions[1..])
      case HandOver => CleanupPump(true, actions[1..])
      case _ => CleanupPump(open, actions[1..])
  }

  /** Once the peer has left, the next pump that finds the stream makes the cleanup call,
      sends nothing and ends the session, whatever the generator returns. */
  lemma CleanupCall(s: Session, first: Option<Object>, result: Result)
    requires Inv(s, first) && s.live && s.stream.Open? && s.cancelled
    ensures var s' := Next(s, Pump(result));
            && !s'.live && s'.pumps == 0
            && s'.calls == s.calls + [Call(s.state, true, result)]
            && s'.tasks == s.tasks + [Close]
  {
    var s0 := s.(pumps := 0);
    assert Ready(s0);
    hide Inv, Pumped;
    PumpLeaves(s0, result);
    assert s.tasks + [] == s.tasks;
  }

  /** An ended session makes no more calls. */
  lemma EndedStep(s: Session, first: Option<Object>, a: Action)
    requires Inv(s, first) && !s.live && Enabled(s, a)
    ensures !Next(s, a).live && Next(s, a).calls == s.calls && (s.stopped ==> Next(s, a).stopped)
  {
    hide Carried, Threaded, Balanced;
  }

  /** Every other step leaves a cancelled session as it is, or a stop ends it. */
  lemma WaitingStep(s: Session, first: Option<Object>, a: Action)
    requires Inv(s, first) && s.live && s.cancelled && Enabled(s, a)
    requires a.Pump? ==> !s.stream.Open?
    ensures var s' := Next(s, a);
            && s'.calls == s.calls && s'.cancelled
            && (if a.Stop? then !s'.live && s'.stopped
                else s'.live && s'.state == s.state && (s'.stream.Open? <==> s.stream.Open? || a.HandOver?))
  {
    if a.RunTask? {
      assert s.tasks[0].Send?;
    }
    hide Carried, Threaded, StateAfter;
  }

  lemma {:induction false} EndedRun(s: Session, first: Option<Object>, actions: seq<Action>)
    requires Inv(s, first) && !s.live && Run(Step, s, actions).Some?
    ensures var t := Run(Step, s, actions).value; !t.live && t.calls == s.calls && (s.stopped ==> t.stopped)
    decreases |actions|
  {
    hide Inv, Next, Enabled;
    if actions != [] {
      StepKeeps(s, first, actions[0]);
      EndedStep(s, first, actions[0]);
      EndedRun(Next(s, actions[0]), first, actions[1..]);
    }
  }

  /** Exactly when a cancelled session gets its cleanup call.  A session still live when it
      is cancelled has made no cancelled call before.  It makes exactly one, its last, on
      the state it holds, if a pump finds the stream handed over before the server stops;
      otherwise none.  So it makes one unless it still lives or was stopped.  A session
      that had already ended makes none. */
  lemma {:induction false} AfterCancel(s: Session, first: Option<Object>, actions: seq<Action>)
    requires Inv(s, first) && s.cancelled && Run(Step, s, actions).Some?
    ensures var t := Run(Step, s, actions).value;
            && (!s.live ==> t.calls == s.calls)
            && (s.live ==>
                  && (forall i :: 0 <= i < |s.calls| ==> !s.calls[i].cancelled)
                  && match CleanupPump(s.stream.Open?, actions)
                     case Some(result) => !t.live && t.calls == s.calls + [Call(s.state, true, result)]
                     case None => t.calls == s.calls && (t.live || t.stopped))
    decreases |actions|
  {
    if !s.live {
      EndedRun(s, first, actions);
    } else {
      assert forall i :: 0 <= i < |s.calls| ==> GoesOn(s.calls[i]);
      if actions != [] {
        var a := actions[0];
        StepKeeps(s, first, a);
        if a.Pump? && s.stream.Open? {
          CleanupCall(s, first, a.result);
        } else {
          WaitingStep(s, first, a);
        }
        hide Inv, Next, Enabled;
        var s' := Next(s, a);
        if s'.live {
          AfterCancel(s', first, actions[1..]);
        } else {
          EndedRun(s', first, actions[1..]);
        }
      }
    }
  }

  /** The peer may leave just after the generator ended the stream by itself; then there is
      no cleanup call. */
  lemma NoCleanupAfterEnd(next: Object, state: Option<Object>, chunk: string)
    ensures var s0 := Next(Start(next, state, true), HandOver);
            var s1 := Next(s0, Pump(Listed(chunk, None, true)));
            var s2 := Next(s1, PeerLeft);
            s2.cancelled && !s2.live && s2.pumps == 0 && s2.calls == [Call(state, false, Listed(chunk, None, true))]
  {
    var s0 := Next(Start(next, state, true), HandOver);
    PumpLeaves(s0.(pumps := 0), Listed(chunk, None, true));
    hide Pumped;
  }

  /** The peer leaves while the session lives, but the server stops before the next pump:
      the generator is never told. */
  lemma NoCleanupAfterStop(next: Object, state: Option<Object>, result: Result)
    ensures var run := Run(Step, Start(next, state, true), [HandOver, PeerLeft, Stop, Pump(result)]);
            run.Some? && run.value.cancelled && !run.value.live && run.value.pumps == 0 && run.value.calls == []
  {
    var s0 := Start(next, state, true);
    var s1 := Next(s0, HandOver);
    var s2 := Next(s1, PeerLeft);
    ReleaseAllFrees(s2.(stopped := true, closing := true, stream := Gone));
    var s3 := Next(s2, Stop);
    var s4 := Next(s3, Pump(result));
    hide ReleaseAll;
    var all := [HandOver, PeerLeft, Stop, Pump(result)];
    assert all[1..] == [PeerLeft, Stop, Pump(result)] && all[1..][1..] == [Stop, Pump(result)];
    assert all[1..][1..][1..] == [Pump(result)] && all[1..][1..][1..][1..] == [];
    assert Run(Step, s3, [Pump(result)]) == Some(s4);
    assert Run(Step, s2, all[1..][1..]) == Some(s4);
    assert Run(Step, s1, all[1..]) == Some(s4);
  }
}
