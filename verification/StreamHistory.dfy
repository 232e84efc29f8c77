/** A stream against the history of its run: which calls the generator gets, read off the
    actions alone. */
module StreamHistory {
  import opened Text
  import opened Runs
  import opened StreamSessions

  function NewState(state: Option<Object>, result: Result): Option<Object> {
    if result.Listed? && result.state.Some? then result.state else state
  }

  /** The calls of a generator, and whether its session is still live: every pump that finds
      the stream handed over makes one, with the state left by the last, and the last one is
      the first that fails, ends the stream or finds it cancelled.  The peer cancels by
      leaving, or by a send that the stream does not accept.  A stop ends everything. */
  function Generated(open: bool, cancelled: bool, state: Option<Object>, actions: seq<Action>): (seq<Call>, bool)
    decreases |actions|
  {
    if actions == [] then ([], true)
    else
      var rest := actions[1..];
      match actions[0]
      case HandOver => Generated(true, cancelled, state, rest)
      case PeerLeft => Generated(open, true, state, rest)
      case RunTask(accepted) => Generated(open, cancelled || !accepted, state, rest)
      case Stop => ([], false)
      case Pump(result) =>
        if !open then Generated(open, cancelled, state, rest)
        else
          var call := Call(state, cancelled, result);
          if !GoesOn(call) then ([call], false)
          else
            var (calls, live) := Generated(open, cancelled, NewState(state, result), rest);
            ([call] + calls, live)
  }

  lemma QuietStep(s: Session, first: Option<Object>, a: Action)
    requires Inv(s, first) && s.live && Enabled(s, a) && (a.Pump? ==> !s.stream.Open?)
    ensures var t := Next(s, a);
            && t.calls == s.calls
            && (if a.Stop? then !t.live
                else
                  && t.live && t.state == s.state
                  && (t.stream.Open? <==> s.stream.Open? || a.HandOver?)
                  && (t.cancelled <==> s.cancelled || a.PeerLeft? || a == RunTask(false)))
  {
    if a.RunTask? {
      assert s.tasks[0].Send? && s.stream.Open?;
    }
    hide Carried, Threaded, StateAfter;
  }

  lemma CallStep(s: Session, first: Option<Object>, result: Result)
    requires Inv(s, first) && s.live && s.stream.Open?
    ensures var t, call := Next(s, Pump(result)), Call(s.state, s.cancelled, result);
            && t.calls == s.calls + [call] && t.live == GoesOn(call)
            && (t.live ==> t.stream.Open? && t.cancelled == s.cancelled && t.state == NewState(s.state, result))
  {
    var s0 := s.(pumps := 0);
    assert Ready(s0);
    hide Inv, Pumped;
    PumpLeaves(s0, result);
  }

  lemma Regroup(a: seq<Call>, b: seq<Call>, c: seq<Call>)
    ensures a + b + c == a + (b + c) && a + [] == a
  {}

  /** What the first action contributes. */
  lemma QuietFront(open: bool, cancelled: bool, state: Option<Object>, actions: seq<Action>)
    requires actions != [] && !(actions[0].Pump? && open)
    ensures var a := actions[0];
            Generated(open, cancelled, state, actions) ==
              if a.Stop? then ([], false)
              else Generated(open || a.HandOver?, cancelled || a.PeerLeft? || a == RunTask(false), state, actions[1..])
  {}

  lemma CallFront(cancelled: bool, state: Option<Object>, actions: seq<Action>)
    requires actions != [] && actions[0].Pump?
    ensures var call := Call(state, cancelled, actions[0].result);
            var (calls, live) := Generated(true, cancelled, NewState(state, call.result), actions[1..]);
            Generated(true, cancelled, state, actions) == if GoesOn(call) then ([call] + calls, live) else ([call], false)
  {
    hide GoesOn, NewState;
  }

  /** In every run the generator gets exactly those calls, and the session lives exactly as
      long as they say. */
  lemma {:induction false} CallsAreGenerated(s: Session, first: Option<Object>, actions: seq<Action>)
    requires Inv(s, first) && s.live && Run(Step, s, actions).Some?
    ensures var t := Run(Step, s, actions).value;
            var (calls, live) := Generated(s.stream.Open?, s.cancelled, s.state, actions);
            t.calls == s.calls + calls && t.live == live
    decreases |actions|
  {
    if actions == [] {
      assert s.calls + [] == s.calls;
    } else {
      hide Inv, Next, Enabled, GoesOn, NewState, Generated;
      var a, rest := actions[0], actions[1..];
      var t := Next(s, a);
      StepKeeps(s, first, a);
      if a.Pump? && s.stream.Open? {
        var call := Call(s.state, s.cancelled, a.result);
        CallStep(s, first, a.result);
        CallFront(s.cancelled, s.state, actions);
        Regroup(s.calls, [call], Generated(true, s.cancelled, NewState(s.state, a.result), rest).0);
      } else {
        QuietStep(s, first, a);
        QuietFront(s.stream.Open?, s.cancelled, s.state, actions);
        Regroup(s.calls, [], []);
      }
      if t.live {
        CallsAreGenerated(t, first, rest);
      } else {
        EndedRun(t, first, rest);
      }
    }
  }

  /** The whole life of a stream, from its start. */
  lemma StreamIsGenerated(next: Object, state: Option<Object>, connected: bool, actions: seq<Action>)
    requires Run(Step, Start(next, state, connected), actions).Some?
    ensures var s := Run(Step, Start(next, state, connected), actions).value;
            (s.calls, s.live) == Generated(false, !connected, state, actions)
  {
    StartInv(next, state, connected);
    CallsAreGenerated(Start(next, state, connected), state, actions);
    var (calls, live) := Generated(false, !connected, state, actions);
    assert [] + calls == calls;
    hide Run, Generated;
  }
}
