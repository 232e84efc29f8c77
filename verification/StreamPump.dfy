/** The session object of a streaming response: its pump, its teardown and its loop tasks
    carry out the steps of the session model. */
module StreamPump {
  import opened Text
  import opened StreamSessions

  class StreamSession {
    var live: bool
    var closing: bool
    var cancelled: bool
    var stopped: bool
    var stream: Stream
    var pumps: nat
    var tasks: seq<Task>
    var next: Option<Object>
    var state: Option<Object>
    var preserved: multiset<Object>
    ghost var calls: seq<Call>
    var events: seq<Event>
    ghost var broken: bool

    ghost function View(): Session
      reads this
    {
      Session(live, closing, cancelled, stopped, stream, pumps, tasks, next, state, preserved, calls, events, broken)
    }

    constructor (next: Object, state: Option<Object>, connected: bool)
      ensures View() == Start(next, state, connected)
    {
      live, closing, cancelled, stopped := true, false, !connected, false;
      stream, tasks, calls, events, broken := Awaited, [], [], [], false;
      this.next, this.state := Some(next), state;
      preserved := multiset{next} + Held(state);
      pumps := 1;
    }

    method Drop(o: Option<Object>)
      modifies this
      ensures View() == Release(old(View()), o)
    {
      if o.Some? {
        if o.value in preserved {
          preserved := preserved - multiset{o.value};
        } else {
          broken := true;
        }
      }
    }

    method ReleaseObjects()
      modifies this
      ensures View() == ReleaseAll(old(View()))
    {
      hide Release;
      var closure, value := next, state;
      Drop(closure);
      Drop(value);
      next, state := None, None;
    }

    method CloseStream()
      modifies this
      ensures View() == CloseFromMain(old(View()))
    {
      hide ReleaseAll;
      closing := true;
      broken := broken || stream.Awaited?;
      tasks := tasks + [Close];
      ReleaseObjects();
      live := false;
    }

    method KeepState(s: Option<Object>)
      modifies this
      ensures View() == ReplaceState(old(View()), s)
    {
      if s.Some? {
        preserved := preserved + multiset{s.value};
        var former := state;
        state := s;
        Drop(former);
      }
    }

    /** The pump callback; the generator's result is a parameter. */
    method PumpStream(result: Result)
      modifies this
      ensures View() == Pumped(old(View()), result)
    {
      hide CloseFromMain, ReplaceState;
      if !live || closing {
        return;
      }
      if stream.Awaited? {
        pumps := pumps + 1;
        return;
      }
      var wasCancelled := cancelled;
      calls := calls + [Call(state, wasCancelled, result)];
      if !result.Listed? {
        CloseStream();
        return;
      }
      KeepState(result.state);
      if wasCancelled {
        CloseStream();
        return;
      }
      if result.chunk != "" {
        tasks := tasks + [Send(result.chunk)];
      }
      if result.done {
        CloseStream();
      } else {
        pumps := pumps + 1;
      }
    }

    /** The loop runs its next task; `accepted` is what the stream's send returns. */
    method RunTaskInLoop(accepted: bool)
      requires tasks != []
      modifies this
      ensures View() == Performed(old(View()), accepted)
    {
      var task := tasks[0];
      tasks := tasks[1..];
      if stream.Open? {
        match task {
          case Send(data) =>
            events := events + [Sent(data)];
            if !accepted {
              cancelled := true;
            }
          case Close =>
            events := events + [Closed];
            stream := Gone;
        }
      }
    }
  }
}
