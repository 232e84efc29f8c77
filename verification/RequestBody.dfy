/** How a request's body reaches its consumer: kept in memory or spilled to a file, and
    handed to a stream reader that may come before, between or after the data. */
module RequestBody {
  import opened Text
  import opened Runs

  datatype Status = Plain | Open | Finished | Failed

  /** What a reader is told. */
  datatype Event = Data(bytes: string) | End | Error(code: nat)

  /** `content` and `file` are the memory and the file the body is kept in, `reader` whether
      a reader is attached, `error` the error kept for a reader to come, `waiting` whether
      a finish callback is stored.  `appended`, `events` and `woken` log what was appended,
      what the reader was told and how often the finish callback ran; `installed` is the
      status in which a reader was set, `cause` the error the stream failed with, and
      `waited` whether a finish callback was ever set. */
  datatype Body = Body(
    max: nat, content: string, file: Option<string>, status: Status,
    reader: bool, error: Option<nat>, waiting: bool,
    appended: string, events: seq<Event>, woken: nat, installed: Option<Status>, cause: Option<nat>, waited: bool)

  function Init(max: nat): Body {
    Body(max, "", None, Plain, false, None, false, "", [], 0, None, None, false)
  }

  datatype Action =
    | Start
    | Reserve(length: nat)
    | Append(data: string)
    | SetReader
    | Finish
    | Fail(code: nat)
    | Wait

  function View(b: Body): string { if b.file.Some? then b.file.value else b.content }

  /** `reserveBodySize`. */
  function Reserved(b: Body, length: nat): Body {
    if b.file.Some? || length <= b.max then b else b.(file := Some(b.content), content := "")
  }

  /** `appendToBody`. */
  function Appended(b: Body, data: string): Body {
    var b := b.(appended := b.appended + data);
    if b.reader then b.(events := b.events + [Data(data)])
    else if b.file.Some? then b.(file := Some(b.file.value + data))
    else if |b.content| + |data| <= b.max then b.(content := b.content + data)
    else b.(file := Some(b.content + data), content := "")
  }

  /** `setStreamReader`. */
  function Installed(b: Body): Body {
    var b := b.(installed := Some(b.status));
    if b.error.Some? then b.(events := b.events + [Error(b.error.value)], error := None)
    else
      var b := if View(b) != "" then b.(events := b.events + [Data(View(b))]) else b;
      var b := if b.file.Some? then b.(file := None) else b.(content := "");
      if b.status.Finished? then b.(events := b.events + [End]) else b.(reader := true)
  }

  /** The stored finish callback, if any, runs. */
  function Woken(b: Body): Body {
    if b.waiting then b.(waiting := false, woken := b.woken + 1) else b
  }

  /** The stages in which the parser and the handlers make their calls: data come while the
      body is open, one reader and one finish callback are set, and the stream ends once. */
  predicate Enabled(b: Body, a: Action) {
    match a
    case Start => b.status.Plain? && b.appended == ""
    case Reserve(_) => true
    case Append(_) => b.status.Plain? || b.status.Open?
    case SetReader => b.installed.None? && !b.status.Plain?
    case Finish => b.status.Open?
    case Fail(_) => b.status.Open?
    case Wait => !b.waited && !b.status.Plain?
  }

  function Next(b: Body, a: Action): Body
    requires Enabled(b, a)
  {
    match a
    case Start => b.(status := Open)
    case Reserve(length) => Reserved(b, length)
    case Append(data) => Appended(b, data)
    case SetReader => Installed(b)
    case Finish =>
      var b := Woken(b.(status := Finished));
      if b.reader then b.(events := b.events + [End], reader := false) else b
    case Fail(code) =>
      var b := b.(status := Failed, cause := Some(code));
      Woken(if b.reader then b.(events := b.events + [Error(code)], reader := false) else b.(error := Some(code)))
    case Wait =>
      var b := b.(waited := true);
      if b.status.Open? then b.(waiting := true) else b.(woken := b.woken + 1)
  }

  /** The bytes a reader has been given. */
  function Received(events: seq<Event>): string {
    if events == [] then ""
    else
      var last := events[|events| - 1];
      Received(events[..|events| - 1]) + if last.Data? then last.bytes else ""
  }

  /** All data, then at most one end. */
  predicate EndIsLast(events: seq<Event>) {
    forall i :: 0 <= i < |events| - 1 ==> events[i].Data?
  }

  /** The events end with `e`, and everything before it is data. */
  predicate EndsWith(events: seq<Event>, e: Event) {
    events != [] && events[|events| - 1] == e && EndIsLast(events)
  }

  predicate OnlyData(events: seq<Event>) {
    forall i :: 0 <= i < |events| ==> events[i].Data?
  }

  /** What a reader has been told: while the body is open all its data so far; of a finished
      body all its data, then the end; of a failed one the error it failed with, after all
      the data if the reader was there before the failure, alone if it came later. */
  predicate Told(b: Body) {
    match b.status
    case Plain => false
    case Open => OnlyData(b.events) && Received(b.events) == b.appended
    case Finished => EndsWith(b.events, End) && Received(b.events) == b.appended
    case Failed =>
      && b.cause.Some? && EndsWith(b.events, Error(b.cause.value))
      && (if b.installed == Some(Failed) then b.events == [Error(b.cause.value)] else Received(b.events) == b.appended)
  }

  predicate Inv(b: Body) {
    && |b.content| <= b.max
    && (b.file.Some? ==> b.content == "")
    && (b.reader <==> b.installed.Some? && b.status.Open?)
    && (b.status.Failed? <==> b.cause.Some?)
    && (b.error == if b.status.Failed? && b.installed.None? then b.cause else None)
    && (b.installed == Some(Failed) ==> b.status.Failed?)
    && (if b.installed.None? then b.events == [] && View(b) == b.appended
        else Told(b) && (!b.status.Failed? ==> View(b) == ""))
    && (b.waiting ==> b.waited && b.status.Open?)
    && b.woken == (if b.waited && !b.waiting then 1 else 0)
    && (b.waited && b.status.Open? ==> b.waiting)
    && (b.status.Plain? ==> !b.waited)
  }

  lemma ReceivedMore(events: seq<Event>, e: Event)
    ensures Received(events + [e]) == Received(events) + if e.Data? then e.bytes else ""
  {
    assert (events + [e])[..|events|] == events;
  }

  lemma AppendKeeps(b: Body, data: string)
    requires Inv(b) && Enabled(b, Append(data))
    ensures Inv(Next(b, Append(data)))
  {
    ReceivedMore(b.events, Data(data));
    hide Received;
  }

  /** What a reader has been told after its installation. */
  lemma FirstEvents(data: string)
    ensures Received([Data(data)]) == data && Received([]) == "" && Received([End]) == ""
    ensures Received([Data(data), End]) == data
  {
    ReceivedMore([], Data(data));
    ReceivedMore([], End);
    ReceivedMore([Data(data)], End);
    assert [] + [Data(data)] == [Data(data)] && [] + [End] == [End] && [Data(data)] + [End] == [Data(data), End];
    hide Received;
  }

  lemma SetReaderKeeps(b: Body)
    requires Inv(b) && Enabled(b, SetReader)
    ensures Inv(Next(b, SetReader))
  {
    FirstEvents(View(b));
    hide Received;
    var told := if b.error.Some? then [Error(b.error.value)]
                else if View(b) == "" then (if b.status.Finished? then [End] else [])
                else if b.status.Finished? then [Data(View(b)), End] else [Data(View(b))];
    assert Next(b, SetReader).events == told;
  }

  lemma EndTold(events: seq<Event>, e: Event)
    requires OnlyData(events) && !e.Data?
    ensures EndsWith(events + [e], e) && Received(events + [e]) == Received(events)
  {
    ReceivedMore(events, e);
    hide Received;
  }

  lemma FinishKeeps(b: Body)
    requires Inv(b) && Enabled(b, Finish)
    ensures Inv(Next(b, Finish))
  {
    if b.reader {
      EndTold(b.events, End);
    }
    var b' := Next(b, Finish);
    assert View(b') == View(b) && b'.events == if b.reader then b.events + [End] else b.events;
    hide Received, EndsWith, OnlyData, View;
  }

  lemma FailKeeps(b: Body, code: nat)
    requires Inv(b) && Enabled(b, Fail(code))
    ensures Inv(Next(b, Fail(code)))
  {
    if b.reader {
      EndTold(b.events, Error(code));
    }
    var b' := Next(b, Fail(code));
    assert b'.installed == b.installed != Some(Failed);
    assert b'.installed.Some? ==> Told(b') by {
      hide Received, EndsWith, OnlyData;
    }
    hide Told;
    assert View(b') == View(b) && b'.events == if b.reader then b.events + [Error(code)] else b.events;
    hide Received, EndsWith, OnlyData, View;
  }

  lemma StepKeeps(b: Body, a: Action)
    requires Inv(b) && Enabled(b, a)
    ensures Inv(Next(b, a))
  {
    match a
    case Append(data) => AppendKeeps(b, data);
    case SetReader => SetReaderKeeps(b);
    case Finish => FinishKeeps(b);
    case Fail(code) => FailKeeps(b, code);
    case _ => hide Received;
  }

  function Step(b: Body, a: Action): Option<Body> {
    if Enabled(b, a) then Some(Next(b, a)) else None
  }

  lemma RunInv(max: nat, actions: seq<Action>)
    requires Run(Step, Init(max), actions).Some?
    ensures Inv(Run(Step, Init(max), actions).value)
  {
    forall b, a | Inv(b) && Step(b, a).Some? ensures Inv(Step(b, a).value) {
      StepKeeps(b, a);
    }
    RunKeeps(Step, Inv, Init(max), actions);
    hide Inv;
  }

  // The log against the actions.

  function DataOf(actions: seq<Action>): string {
    if actions == [] then "" else (if actions[0].Append? then actions[0].data else "") + DataOf(actions[1..])
  }

  /** The last of the steps that open, finish or fail the body decides its status. */
  function StatusAfter(status: Status, actions: seq<Action>): Status
    decreases |actions|
  {
    if actions == [] then status
    else
      var next := match actions[0] case Start => Open case Finish => Finished case Fail(_) => Failed case _ => status;
      StatusAfter(next, actions[1..])
  }

  lemma StepLogs(b: Body, a: Action)
    requires Enabled(b, a)
    ensures var b' := Next(b, a);
            && b'.appended == b.appended + (if a.Append? then a.data else "")
            && b'.status == StatusAfter(b.status, [a])
            && (b'.installed.Some? <==> b.installed.Some? || a.SetReader?)
            && (b'.waited <==> b.waited || a.Wait?)
  {
    assert [a][1..] == [];
  }

  /** What the log says is what the actions did. */
  lemma {:induction false} LogIsActions(b: Body, actions: seq<Action>)
    requires Run(Step, b, actions).Some?
    ensures var c := Run(Step, b, actions).value;
            && c.appended == b.appended + DataOf(actions)
            && c.status == StatusAfter(b.status, actions)
            && (c.installed.Some? <==> b.installed.Some? || SetReader in actions)
            && (c.waited <==> b.waited || Wait in actions)
    decreases |actions|
  {
    if actions == [] {
      assert b.appended + "" == b.appended;
    } else {
      var a, rest := actions[0], actions[1..];
      StepLogs(b, a);
      assert [a][1..] == [] && actions == [a] + rest;
      hide Next, Enabled;
      LogIsActions(Next(b, a), rest);
      Regroup(b.appended, if a.Append? then a.data else "", DataOf(rest));
    }
  }

  lemma Regroup(a: string, b: string, c: string)
    ensures a + b + c == a + (b + c)
  {}

  /** Whenever the reader is set and wherever the body spills to a file: a reader of a body
      that ended normally receives exactly the appended bytes, in order, and then one end;
      a reader of one that failed receives all the bytes and then the error of the failure,
      or the error alone if it came after the failure; and while the body is open a reader
      has received all there is. */
  lemma ReaderSeesAll(max: nat, actions: seq<Action>)
    requires Run(Step, Init(max), actions).Some?
    requires SetReader in actions
    ensures var b := Run(Step, Init(max), actions).value;
            && b.appended == DataOf(actions) && b.status == StatusAfter(Plain, actions)
            && match b.status
               case Plain => false
               case Open => OnlyData(b.events) && Received(b.events) == b.appended
               case Finished => EndsWith(b.events, End) && Received(b.events) == b.appended
               case Failed =>
                 && b.cause.Some? && EndsWith(b.events, Error(b.cause.value))
                 && Fail(b.cause.value) in actions
                 && (if b.installed == Some(Failed) then b.events == [Error(b.cause.value)]
                     else Received(b.events) == b.appended)
  {
    RunInv(max, actions);
    CauseIsAFailure(Init(max), actions);
    LogIsActions(Init(max), actions);
    assert "" + DataOf(actions) == DataOf(actions);
    hide Run, DataOf, StatusAfter;
  }

  /** The cause on record is the code of a step that failed the stream. */
  lemma {:induction false} CauseIsAFailure(b: Body, actions: seq<Action>)
    requires Run(Step, b, actions).Some?
    ensures var c := Run(Step, b, actions).value.cause;
            c == b.cause || (c.Some? && Fail(c.value) in actions)
    decreases |actions|
  {
    if actions != [] {
      var b' := Step(b, actions[0]).value;
      CauseIsAFailure(b', actions[1..]);
      assert b'.cause == if actions[0].Fail? then Some(actions[0].code) else b.cause;
      assert forall x :: x in actions[1..] ==> x in actions;
    }
  }

  /** Without a reader the body is the concatenation of what was appended, of which at most
      `max` bytes are held in memory. */
  lemma BodyIsWhole(max: nat, actions: seq<Action>)
    requires Run(Step, Init(max), actions).Some?
    ensures var b := Run(Step, Init(max), actions).value;
            && (SetReader !in actions ==> View(b) == DataOf(actions))
            && |b.content| <= b.max
  {
    RunInv(max, actions);
    LogIsActions(Init(max), actions);
    assert "" + DataOf(actions) == DataOf(actions);
    hide Run, DataOf;
  }

  /** The finish callback runs once, when the stream has ended and not before. */
  lemma WaiterWokenOnce(max: nat, actions: seq<Action>)
    requires Run(Step, Init(max), actions).Some?
    ensures var b := Run(Step, Init(max), actions).value;
            b.woken == if Wait in actions && (b.status.Finished? || b.status.Failed?) then 1 else 0
  {
    RunInv(max, actions);
    LogIsActions(Init(max), actions);
    hide Run;
  }

  /** The request object's body fields and the methods that change them. */
  class Request {
    const max: nat
    var content: string
    var file: Option<string>
    var status: Status
    var reader: bool
    var error: Option<nat>
    var waiting: bool
    ghost var appended: string
    var events: seq<Event>
    var woken: nat
    ghost var installed: Option<Status>
    ghost var cause: Option<nat>
    ghost var waited: bool

    ghost function State(): Body
      reads this
    {
      Body(max, content, file, status, reader, error, waiting, appended, events, woken, installed, cause, waited)
    }

    constructor (max: nat)
      ensures State() == Init(max)
    {
      this.max := max;
      content, file, status, reader, error, waiting := "", None, Plain, false, None, false;
      appended, events, woken, installed, cause, waited := "", [], 0, None, None, false;
    }

    method ReserveBodySize(length: nat)
      modifies this
      ensures State() == Reserved(old(State()), length)
    {
      if file.Some? {
        return;
      }
      if length > max {
        file := Some("");
        if content != "" {
          file := Some(content);
          content := "";
        }
      }
    }

    method AppendToBody(data: string)
      modifies this
      ensures State() == Appended(old(State()), data)
    {
      appended := appended + data;
      if reader {
        events := events + [Data(data)];
      } else if file.Some? {
        file := Some(file.value + data);
      } else if |content| + |data| <= max {
        content := content + data;
      } else {
        file := Some(content);
        file := Some(file.value + data);
        content := "";
      }
    }

    method SetStreamReader()
      modifies this
      ensures State() == Installed(old(State()))
    {
      installed := Some(status);
      if error.Some? {
        events := events + [Error(error.value)];
        error := None;
        return;
      }
      if file.Some? {
        if file.value != "" {
          events := events + [Data(file.value)];
        }
        file := None;
      } else if content != "" {
        events := events + [Data(content)];
        content := "";
      }
      if status.Finished? {
        events := events + [End];
      } else {
        reader := true;
      }
    }

    method Wake()
      modifies this`waiting, this`woken
      ensures State() == Woken(old(State()))
    {
      if waiting {
        waiting := false;
        woken := woken + 1;
      }
    }

    method StreamFinish()
      requires status.Open?
      modifies this
      ensures State() == Next(old(State()), Finish)
    {
      status := Finished;
      Wake();
      if reader {
        events := events + [End];
        reader := false;
      }
    }

    method StreamError(code: nat)
      requires status.Open?
      modifies this
      ensures State() == Next(old(State()), Fail(code))
    {
      status, cause := Failed, Some(code);
      if reader {
        events := events + [Error(code)];
        reader := false;
      } else {
        error := Some(code);
      }
      Wake();
    }

    method WaitForStreamFinish()
      requires !waited && !status.Plain?
      modifies this
      ensures State() == Next(old(State()), Wait)
    {
      waited := true;
      if status.Open? {
        waiting := true;
      } else {
        woken := woken + 1;
      }
    }
  }
}
