/** The HTTP client over whole runs: requests wait in a buffer, travel in the pipeline, or
    are finished; each owns one callback, and some a timer. */
module ClientModel {
  import opened Text
  import opened Runs
  /** `timed` requests have a timer and the flag that guards their callback. */
  datatype Request = Request(id: nat, timed: bool)

  datatype Result = Ok | BadResponse | NetworkFailure | BadServerAddress | Timeout

  /** No TCP client, one that is connecting, a connection, or one that was shut down and
      has not reported it yet. */
  datatype Link = NoClient | Connecting | Up | Shut

  /** The flags set by callbacks and timers, and the user callbacks that ran. */
  datatype Log = Log(flags: set<nat>, calls: seq<(nat, Result)>)

  /** `domain` tells that a name must be resolved first, `reachable` that the given address
      is valid.  `buffer` and `flight` are `requestsBuffer_` and `pipeliningCallbacks_`;
      `reading` says that part of a response has come.  `wire` and `delivered` are the requests sent and
      the requests answered on the present connection.  `broken` records a failed
      assertion, or a look at the front of an empty queue. */
  datatype Client = Client(
    depth: nat, domain: bool, reachable: bool,
    link: Link, resolving: bool, reading: bool,
    buffer: seq<Request>, flight: seq<Request>,
    submitted: nat, log: Log,
    wire: seq<nat>, delivered: seq<nat>, broken: bool)

  function Init(depth: nat, domain: bool, reachable: bool): Client {
    Client(depth, domain, reachable, NoClient, false, false, [], [], 0, Log({}, []), [], [], false)
  }

  datatype Action =
    | Submit(timed: bool)
    | Resolved(ok: bool)
    | ConnectOk
    | ConnectFail
    | PartialResponse
    | CompleteResponse(close: bool)
    | MalformedResponse
    | Disconnect(completes: bool)
    | TimerFires(id: nat)

  function IdsOf(rs: seq<Request>): (ids: seq<nat>)
    ensures |ids| == |rs|
    ensures forall i :: 0 <= i < |rs| ==> ids[i] == rs[i].id
  {
    seq(|rs|, i requires 0 <= i < |rs| => rs[i].id)
  }

  /** The callback stored with a request: one with a timer does nothing once its flag is
      set, and sets it. */
  function Fire(l: Log, r: Request, result: Result): Log {
    if r.timed && r.id in l.flags then l
    else Log(l.flags + {r.id}, l.calls + [(r.id, result)])
  }

  function FireAll(l: Log, rs: seq<Request>, result: Result): Log
    decreases |rs|
  {
    if rs == [] then l else FireAll(Fire(l, rs[0], result), rs[1..], result)
  }

  /** `onError`: first the pipeline, then the buffer. */
  function Fail(c: Client, result: Result): Client {
    c.(log := FireAll(FireAll(c.log, c.flight, result), c.buffer, result),
       flight := [], buffer := [], link := NoClient, reading := false, wire := [], delivered := [])
  }

  function SendFirst(c: Client): Client
    requires c.buffer != []
  {
    c.(flight := c.flight + [c.buffer[0]], buffer := c.buffer[1..], wire := c.wire + [c.buffer[0].id])
  }

  /** A new connection sends what the depth allows. */
  function Refill(c: Client): Client
    decreases |c.buffer|
  {
    if |c.flight| <= c.depth && c.buffer != [] then Refill(SendFirst(c)) else c
  }

  /** `handleResponse`; `up` is whether the connection still stands. */
  function Handle(c: Client, close: bool, up: bool): Client
    requires c.flight != []
  {
    var first := c.flight[0];
    var c := c.(flight := c.flight[1..], delivered := c.delivered + [first.id], log := Fire(c.log, first, Ok));
    if up then
      if c.buffer != [] then SendFirst(c)
      else if close && c.flight == [] then c.(link := NoClient, wire := [], delivered := [])
      else c
    else c.(log := FireAll(c.log, c.flight, NetworkFailure), flight := [], wire := [], delivered := [])
  }

  /** The first request of that identity is dropped. */
  function Without(rs: seq<Request>, id: nat): seq<Request> {
    if rs == [] then [] else if rs[0].id == id then rs[1..] else [rs[0]] + Without(rs[1..], id)
  }

  /** `sendRequestInLoop`: without a client one is made, after resolving the name if there
      is one; with a connection the request is sent if there is room and nothing waits. */
  function Submitted(c: Client, timed: bool): Client {
    var r := Request(c.submitted, timed);
    var c := c.(submitted := c.submitted + 1);
    match c.link
    case NoClient =>
      var c := c.(buffer := c.buffer + [r]);
      if c.domain then c.(resolving := true)
      else if c.reachable then c.(link := Connecting)
      else
        var c := c.(buffer := c.buffer[1..], log := Fire(c.log, r, BadServerAddress));
        c.(broken := c.broken || c.buffer != [])
    case Connecting => c.(buffer := c.buffer + [r])
    case _ =>
      // what is written to a connection that was shut down is dropped
      if |c.flight| <= c.depth && c.buffer == [] then
        c.(flight := c.flight + [r], wire := if c.link.Up? then c.wire + [r.id] else c.wire)
      else c.(buffer := c.buffer + [r])
  }

  predicate Enabled(c: Client, a: Action) {
    match a
    case Submit(_) => true
    case Resolved(_) => c.resolving
    case ConnectOk => c.link.Connecting?
    case ConnectFail => c.link.Connecting?
    case PartialResponse => c.link.Up? && c.flight != []
    case CompleteResponse(_) => c.link.Up? || c.link.Shut?
    case MalformedResponse => c.link.Up? && c.flight != []
    case Disconnect(completes) => (c.link.Up? || c.link.Shut?) && (completes ==> c.reading)
    case TimerFires(id) => Request(id, true) in c.buffer + c.flight
  }

  function Next(c: Client, a: Action): Client
    requires Enabled(c, a)
  {
    match a
    case Submit(timed) => Submitted(c, timed)
    case Resolved(ok) =>
      if ok then c.(resolving := false, link := Connecting)
      else c.(log := FireAll(c.log, c.buffer, BadServerAddress), buffer := [], resolving := false)
    case ConnectOk => Refill(c.(link := Up))
    case ConnectFail => Fail(c, BadServerAddress)
    case PartialResponse => c.(reading := true)
    case CompleteResponse(close) =>
      // more responses than expected shut the connection down
      if c.flight == [] then c.(link := Shut, wire := [], delivered := [])
      else Handle(c.(reading := false), close, c.link.Up?)
    case MalformedResponse => Fail(c, BadResponse)
    case Disconnect(completes) =>
      if !completes then Fail(c, NetworkFailure)
      else if c.flight == [] then c.(broken := true)
      else
        // a new client is made for what is still buffered
        var c := Handle(c.(reading := false), false, false);
        c.(link := if c.buffer != [] then Connecting else NoClient)
    case TimerFires(id) =>
      if id in c.log.flags then c
      else c.(buffer := Without(c.buffer, id), log := Log(c.log.flags + {id}, c.log.calls + [(id, Timeout)]))
  }

  // What every action keeps.

  /** Pipeline and buffer together are in the order of submission. */
  predicate InOrder(rs: seq<Request>) {
    forall i, j :: 0 <= i < j < |rs| ==> rs[i].id < rs[j].id
  }

  predicate Holds(rs: seq<Request>, id: nat) {
    exists i :: 0 <= i < |rs| && rs[i].id == id
  }

  /** A request that is in neither queue has had its callback; one that is still buffered
      has not; one in flight can have had it only from its timer. */
  predicate Accounts(flight: seq<Request>, buffer: seq<Request>, flags: set<nat>, submitted: nat) {
    && (forall id :: id in flags ==> id < submitted)
    && (forall i :: 0 <= i < |flight| ==> flight[i].id < submitted)
    && (forall i :: 0 <= i < |buffer| ==> buffer[i].id < submitted)
    && (forall id :: 0 <= id < submitted ==> id in flags || Holds(flight, id) || Holds(buffer, id))
    && (forall i :: 0 <= i < |buffer| ==> buffer[i].id !in flags)
    && (forall i :: 0 <= i < |flight| && flight[i].id in flags ==> flight[i].timed)
  }

  predicate Accounted(c: Client) {
    Accounts(c.flight, c.buffer, c.log.flags, c.submitted)
  }

  function CallIds(calls: seq<(nat, Result)>): (ids: seq<nat>)
    ensures |ids| == |calls|
    ensures forall i :: 0 <= i < |calls| ==> ids[i] == calls[i].0
  {
    seq(|calls|, i requires 0 <= i < |calls| => calls[i].0)
  }

  /** Every callback that ran, ran once, and set its flag. */
  predicate CalledOnce(l: Log) {
    multiset(CallIds(l.calls)) == multiset(l.flags)
  }

  /** The link and what hangs on it. */
  predicate Linked(c: Client) {
    && !c.broken
    && |c.flight| <= c.depth + 1
    && (c.link.Up? || c.link.Shut? || (c.flight == [] && c.wire == [] && c.delivered == []))
    && (c.link.Shut? ==> c.wire == [] && c.delivered == [])
    && (c.link.NoClient? ==> c.buffer == [] || c.resolving)
    && (c.resolving ==> c.link.NoClient? && c.domain)
    && (c.reading ==> c.flight != [])
  }

  /** The answers so far went to the first requests sent, in order. */
  predicate Matched(c: Client) {
    c.link.Up? ==> c.wire == c.delivered + IdsOf(c.flight)
  }

  predicate Inv(c: Client) {
    && InOrder(c.flight + c.buffer)
    && Accounted(c) && CalledOnce(c.log) && Linked(c) && Matched(c)
  }

  lemma FireOnce(l: Log, r: Request, result: Result)
    requires CalledOnce(l) && (r.id in l.flags ==> r.timed)
    ensures CalledOnce(Fire(l, r, result)) && Fire(l, r, result).flags == l.flags + {r.id}
  {
    if r.id !in l.flags {
      assert CallIds(l.calls + [(r.id, result)]) == CallIds(l.calls) + [r.id];
      assert multiset(l.flags + {r.id}) == multiset(l.flags) + multiset{r.id};
    } else {
      assert l.flags + {r.id} == l.flags;
    }
  }

  /** Firing a queue of distinct requests calls back each that was not called yet. */
  lemma {:induction false} FireAllOnce(l: Log, rs: seq<Request>, result: Result)
    requires CalledOnce(l) && InOrder(rs)
    requires forall i :: 0 <= i < |rs| && rs[i].id in l.flags ==> rs[i].timed
    ensures var l' := FireAll(l, rs, result);
            && CalledOnce(l')
            && (forall id :: id in l'.flags <==> id in l.flags || Holds(rs, id))
    decreases |rs|
  {
    if rs != [] {
      FireOnce(l, rs[0], result);
      FireAllOnce(Fire(l, rs[0], result), rs[1..], result);
      HoldsFirst(rs);
      hide CalledOnce, Holds;
    }
  }

  lemma HoldsFirst(rs: seq<Request>)
    requires rs != []
    ensures forall id :: Holds(rs, id) <==> id == rs[0].id || Holds(rs[1..], id)
  {
    forall id | Holds(rs[1..], id) ensures Holds(rs, id) {
      var i :| 0 <= i < |rs[1..]| && rs[1..][i].id == id;
      assert rs[i + 1].id == id;
    }
    forall id | Holds(rs, id) && id != rs[0].id ensures Holds(rs[1..], id) {
      var i :| 0 <= i < |rs| && rs[i].id == id;
      assert rs[1..][i - 1].id == id;
    }
  }

  lemma PartsInOrder(a: seq<Request>, b: seq<Request>)
    requires InOrder(a + b)
    ensures InOrder(a) && InOrder(b)
    ensures forall i, j :: 0 <= i < |a| && 0 <= j < |b| ==> a[i].id < b[j].id
  {
    var all := a + b;
    forall i, j | 0 <= i < j < |a| ensures a[i].id < a[j].id {
      assert all[i].id < all[j].id;
    }
    forall i, j | 0 <= i < j < |b| ensures b[i].id < b[j].id {
      assert all[|a| + i].id < all[|a| + j].id;
    }
    forall i, j | 0 <= i < |a| && 0 <= j < |b| ensures a[i].id < b[j].id {
      assert all[i].id < all[|a| + j].id;
    }
  }

  /** Both queues are called back, and nobody is left. */
  lemma FailSettles(c: Client, result: Result)
    requires InOrder(c.flight + c.buffer) && Accounted(c) && CalledOnce(c.log)
    ensures var c' := Fail(c, result);
            && CalledOnce(c'.log)
            && (forall id :: id in c'.log.flags <==> 0 <= id < c.submitted)
  {
    PartsInOrder(c.flight, c.buffer);
    FireAllOnce(c.log, c.flight, result);
    var l1 := FireAll(c.log, c.flight, result);
    forall i | 0 <= i < |c.buffer| ensures c.buffer[i].id !in l1.flags {
      assert !Holds(c.flight, c.buffer[i].id);
    }
    FireAllOnce(l1, c.buffer, result);
    hide FireAll, CalledOnce, InOrder;
  }

  lemma NoneLeft(flags: set<nat>, submitted: nat)
    requires forall id :: id in flags <==> 0 <= id < submitted
    ensures InOrder([] + []) && Accounts([], [], flags, submitted)
  {}

  lemma FailKeeps(c: Client, result: Result)
    requires Inv(c)
    ensures Inv(Fail(c, result).(resolving := false))
    ensures !c.resolving ==> Inv(Fail(c, result))
  {
    FailSettles(c, result);
    var c' := Fail(c, result);
    NoneLeft(c'.log.flags, c.submitted);
    hide FireAll, CallIds, InOrder, Accounts, IdsOf;
  }

  lemma HoldsMore(rs: seq<Request>, r: Request)
    ensures forall id :: Holds(rs + [r], id) <==> Holds(rs, id) || id == r.id
  {
    var all := rs + [r];
    assert all[|rs|].id == r.id;
    forall id | Holds(rs, id) ensures Holds(all, id) {
      var i :| 0 <= i < |rs| && rs[i].id == id;
      assert all[i].id == id;
    }
  }

  lemma BufferedKeeps(c: Client, timed: bool)
    requires InOrder(c.flight + c.buffer) && Accounted(c)
    ensures var c' := c.(submitted := c.submitted + 1, buffer := c.buffer + [Request(c.submitted, timed)]);
            InOrder(c'.flight + c'.buffer) && Accounted(c')
  {
    var r := Request(c.submitted, timed);
    HoldsMore(c.buffer, r);
    assert c.flight + (c.buffer + [r]) == c.flight + c.buffer + [r];
    hide Holds;
  }

  lemma SentKeeps(c: Client, timed: bool)
    requires InOrder(c.flight + c.buffer) && Accounted(c) && c.buffer == []
    ensures var c' := c.(submitted := c.submitted + 1, flight := c.flight + [Request(c.submitted, timed)]);
            InOrder(c'.flight + c'.buffer) && Accounted(c')
  {
    var r := Request(c.submitted, timed);
    HoldsMore(c.flight, r);
    assert c.flight + [r] + [] == c.flight + [r] && c.flight + [] == c.flight;
    hide Holds;
  }

  /** The refused request is called back at once. */
  lemma RefusedKeeps(c: Client, timed: bool)
    requires Inv(c) && c.link.NoClient? && !c.domain && !c.reachable
    ensures Inv(Next(c, Submit(timed)))
  {
    var r := Request(c.submitted, timed);
    assert ([] + [r])[1..] == [];
    FireOnce(c.log, r, BadServerAddress);
    assert c.flight + [] == c.flight;
    assert forall id :: !Holds([], id);
    hide CallIds, Holds;
  }

  lemma IdsMore(delivered: seq<nat>, flight: seq<Request>, r: Request)
    ensures delivered + IdsOf(flight + [r]) == delivered + IdsOf(flight) + [r.id]
  {}

  lemma WaitingKeeps(c: Client, timed: bool)
    requires Inv(c) && (c.link.NoClient? ==> c.domain || c.reachable)
    requires c.link.NoClient? || c.link.Connecting?
    ensures Inv(Next(c, Submit(timed)))
  {
    BufferedKeeps(c, timed);
    hide CallIds, InOrder, Accounts, IdsOf, Fire;
  }

  lemma SentAtOnceKeeps(c: Client, timed: bool)
    requires Inv(c) && (c.link.Up? || c.link.Shut?) && c.buffer == [] && |c.flight| <= c.depth
    ensures Inv(Next(c, Submit(timed)))
  {
    SentKeeps(c, timed);
    IdsMore(c.delivered, c.flight, Request(c.submitted, timed));
    hide CallIds, InOrder, Accounts, IdsOf, Fire;
  }

  lemma HeldBackKeeps(c: Client, timed: bool)
    requires Inv(c) && (c.link.Up? || c.link.Shut?) && !(c.buffer == [] && |c.flight| <= c.depth)
    ensures Inv(Next(c, Submit(timed)))
  {
    BufferedKeeps(c, timed);
    hide CallIds, InOrder, Accounts, IdsOf, Fire;
  }

  lemma SubmitKeeps(c: Client, timed: bool)
    requires Inv(c)
    ensures Inv(Next(c, Submit(timed)))
  {
    if c.link.Up? || c.link.Shut? {
      if c.buffer == [] && |c.flight| <= c.depth {
        SentAtOnceKeeps(c, timed);
      } else {
        HeldBackKeeps(c, timed);
      }
    } else if c.link.NoClient? && !c.domain && !c.reachable {
      RefusedKeeps(c, timed);
    } else {
      WaitingKeeps(c, timed);
    }
    hide Inv, Next;
  }

  lemma ResolvedKeeps(c: Client, ok: bool)
    requires Inv(c) && c.resolving
    ensures Inv(Next(c, Resolved(ok)))
  {
    PartsInOrder(c.flight, c.buffer);
    FireAllOnce(c.log, c.buffer, BadServerAddress);
    assert forall id :: !Holds([], id);
    hide CallIds, Holds, FireAll;
  }

  lemma SendFirstKeeps(c: Client)
    requires Inv(c) && c.link.Up? && |c.flight| <= c.depth && c.buffer != []
    ensures Inv(SendFirst(c))
  {
    var r, rest := c.buffer[0], c.buffer[1..];
    assert c.flight + [r] + rest == c.flight + c.buffer;
    PartsInOrder(c.flight, c.buffer);
    HoldsMore(c.flight, r);
    HoldsFirst(c.buffer);
    IdsMore(c.delivered, c.flight, r);
    hide CallIds, InOrder, Holds;
  }

  lemma {:induction false} RefillKeeps(c: Client)
    requires Inv(c) && c.link.Up?
    ensures Inv(Refill(c)) && Refill(c).link.Up?
    decreases |c.buffer|
  {
    if |c.flight| <= c.depth && c.buffer != [] {
      SendFirstKeeps(c);
      RefillKeeps(SendFirst(c));
    }
    hide Inv;
  }

  lemma ConnectKeeps(c: Client)
    requires Inv(c) && c.link.Connecting?
    ensures Inv(Next(c, ConnectOk))
  {
    assert Inv(c.(link := Up));
    RefillKeeps(c.(link := Up));
    hide Inv;
  }

  /** Nothing new appears, and the first goes if it is the one. */
  lemma {:induction false} WithoutSubset(rs: seq<Request>, id: nat)
    requires InOrder(rs)
    ensures forall r :: r in Without(rs, id) ==> r in rs && r.id != id
  {
    if rs != [] {
      if rs[0].id == id {
        forall r | r in rs[1..] ensures r.id != id {
          var k :| 0 <= k < |rs[1..]| && rs[1..][k] == r;
          assert rs[0].id < rs[k + 1].id;
        }
      } else {
        WithoutSubset(rs[1..], id);
      }
    }
  }

  lemma {:induction false} WithoutHolds(rs: seq<Request>, id: nat)
    requires InOrder(rs)
    ensures forall x :: Holds(Without(rs, id), x) <==> Holds(rs, x) && x != id
  {
    if rs != [] {
      HoldsFirst(rs);
      if rs[0].id == id {
        WithoutSubset(rs, id);
        assert forall x :: Holds(rs[1..], x) ==> x != id;
      } else {
        var rest := Without(rs[1..], id);
        WithoutHolds(rs[1..], id);
        assert ([rs[0]] + rest)[1..] == rest;
        HoldsFirst([rs[0]] + rest);
        hide Holds;
      }
    }
  }

  lemma {:induction false} WithoutDrops(rs: seq<Request>, id: nat)
    requires InOrder(rs)
    ensures InOrder(Without(rs, id))
    ensures forall r :: r in Without(rs, id) ==> r in rs && r.id != id
    ensures forall x :: Holds(Without(rs, id), x) <==> Holds(rs, x) && x != id
  {
    WithoutSubset(rs, id);
    WithoutHolds(rs, id);
    hide Holds;
    if rs != [] && rs[0].id != id {
      var rest := Without(rs[1..], id);
      WithoutDrops(rs[1..], id);
      forall j | 0 <= j < |rest| ensures rs[0].id < rest[j].id {
        assert rest[j] in rest && rest[j] in rs[1..];
      }
    }
  }

  lemma KeptInOrder(flight: seq<Request>, buffer: seq<Request>, id: nat)
    requires InOrder(flight + buffer)
    ensures InOrder(flight + Without(buffer, id))
  {
    PartsInOrder(flight, buffer);
    WithoutDrops(buffer, id);
    var kept := Without(buffer, id);
    forall i | 0 <= i < |kept| ensures kept[i] in buffer {
      assert kept[i] in kept;
    }
    hide Without, Holds;
  }

  lemma KeptAccounts(flight: seq<Request>, buffer: seq<Request>, flags: set<nat>, submitted: nat, id: nat)
    requires InOrder(flight + buffer) && Accounts(flight, buffer, flags, submitted) && id < submitted
    requires forall i :: 0 <= i < |flight| && flight[i].id == id ==> flight[i].timed
    ensures Accounts(flight, Without(buffer, id), flags + {id}, submitted)
  {
    PartsInOrder(flight, buffer);
    WithoutDrops(buffer, id);
    var kept := Without(buffer, id);
    forall i | 0 <= i < |kept| ensures kept[i] in buffer && kept[i].id != id {
      assert kept[i] in kept;
    }
    hide Without, Holds, InOrder;
  }

  lemma TimerSettles(c: Client, id: nat)
    requires InOrder(c.flight + c.buffer) && Accounted(c) && Enabled(c, TimerFires(id)) && id !in c.log.flags
    ensures var c' := Next(c, TimerFires(id)); InOrder(c'.flight + c'.buffer) && Accounted(c')
  {
    var r := Request(id, true);
    assert id < c.submitted by {
      assert if r in c.buffer then exists k :: 0 <= k < |c.buffer| && c.buffer[k] == r
             else exists k :: 0 <= k < |c.flight| && c.flight[k] == r;
    }
    forall i | 0 <= i < |c.flight| && c.flight[i].id == id ensures c.flight[i].timed {
      OnlyOne(c, r, i);
    }
    KeptInOrder(c.flight, c.buffer, id);
    KeptAccounts(c.flight, c.buffer, c.log.flags, c.submitted, id);
    hide Without, Accounts, InOrder;
  }

  /** A request in flight is the only one of its identity. */
  lemma OnlyOne(c: Client, r: Request, i: nat)
    requires InOrder(c.flight + c.buffer) && r in c.buffer + c.flight
    requires i < |c.flight| && c.flight[i].id == r.id
    ensures c.flight[i] == r
  {
    PartsInOrder(c.flight, c.buffer);
    assert forall k :: 0 <= k < |c.buffer| ==> c.buffer[k].id != r.id;
    assert r in c.flight;
  }

  lemma TimerKeeps(c: Client, id: nat)
    requires Inv(c) && Enabled(c, TimerFires(id))
    ensures Inv(Next(c, TimerFires(id)))
  {
    if id !in c.log.flags {
      TimerSettles(c, id);
      FireOnce(c.log, Request(id, true), Timeout);
    }
    hide CallIds, InOrder, Accounts, IdsOf;
  }

  lemma AccountsFirst(flight: seq<Request>, buffer: seq<Request>, flags: set<nat>, submitted: nat)
    requires flight != [] && InOrder(flight + buffer) && Accounts(flight, buffer, flags, submitted)
    ensures InOrder(flight[1..] + buffer) && Accounts(flight[1..], buffer, flags + {flight[0].id}, submitted)
  {
    PartsInOrder(flight, buffer);
    HoldsFirst(flight);
    var all, rest := flight + buffer, flight[1..] + buffer;
    assert rest == all[1..];
    forall i, j | 0 <= i < j < |rest| ensures rest[i].id < rest[j].id {
      assert all[i + 1].id < all[j + 1].id;
    }
    hide Holds, InOrder;
  }

  lemma IdsFirst(delivered: seq<nat>, flight: seq<Request>)
    requires flight != []
    ensures delivered + IdsOf(flight) == delivered + [flight[0].id] + IdsOf(flight[1..])
  {}

  lemma FirstAnswered(c: Client)
    requires Inv(c) && c.flight != []
    ensures var c1 := c.(flight := c.flight[1..], delivered := c.delivered + [c.flight[0].id],
                         log := Fire(c.log, c.flight[0], Ok));
            && InOrder(c1.flight + c1.buffer) && Accounted(c1) && CalledOnce(c1.log)
            && (c.link.Up? ==> Matched(c1))
  {
    AccountsFirst(c.flight, c.buffer, c.log.flags, c.submitted);
    IdsFirst(c.delivered, c.flight);
    assert c.flight[0].id in c.log.flags ==> c.flight[0].timed;
    hide CallIds, IdsOf, InOrder, Accounts;
    FireOnce(c.log, c.flight[0], Ok);
  }

  lemma StandingKeeps(c: Client, close: bool)
    requires Inv(c) && c.flight != [] && c.link.Up? && !c.reading
    ensures Inv(Handle(c, close, true))
  {
    FirstAnswered(c);
    var c1 := c.(flight := c.flight[1..], delivered := c.delivered + [c.flight[0].id], log := Fire(c.log, c.flight[0], Ok));
    assert Linked(c1);
    hide CallIds, InOrder, Accounts, IdsOf, Fire;
    if c1.buffer != [] {
      SendFirstKeeps(c1);
    }
  }

  lemma FallenKeeps(c: Client)
    requires InOrder(c.flight + c.buffer) && Accounted(c) && CalledOnce(c.log)
    ensures var c1 := c.(log := FireAll(c.log, c.flight, NetworkFailure), flight := []);
            InOrder(c1.flight + c1.buffer) && Accounted(c1) && CalledOnce(c1.log)
  {
    PartsInOrder(c.flight, c.buffer);
    FireAllOnce(c.log, c.flight, NetworkFailure);
    var l1 := FireAll(c.log, c.flight, NetworkFailure);
    assert [] + c.buffer == c.buffer;
    forall i | 0 <= i < |c.buffer| ensures c.buffer[i].id !in l1.flags {
      assert !Holds(c.flight, c.buffer[i].id);
    }
    assert forall id :: !Holds([], id);
    hide FireAll, CallIds;
  }

  /** A response while the connection no longer stands: the first request gets it, the
      others in flight fail. */
  lemma FallenResponseKeeps(c: Client, close: bool)
    requires Inv(c) && c.flight != [] && !c.reading && !c.resolving
    ensures var c' := Handle(c, close, false);
            && InOrder(c'.flight + c'.buffer) && Accounted(c') && CalledOnce(c'.log)
            && c' == c.(log := c'.log, flight := [], wire := [], delivered := [])
  {
    FirstAnswered(c);
    var c1 := c.(flight := c.flight[1..], delivered := c.delivered + [c.flight[0].id], log := Fire(c.log, c.flight[0], Ok));
    FallenKeeps(c1);
    hide CallIds, InOrder, Accounts, IdsOf, FireAll;
  }

  lemma ResponseKeeps(c: Client, close: bool)
    requires Inv(c) && Enabled(c, CompleteResponse(close))
    ensures Inv(Next(c, CompleteResponse(close)))
  {
    if c.flight != [] {
      var c0 := c.(reading := false);
      assert Inv(c0);
      if c.link.Up? {
        StandingKeeps(c0, close);
      } else {
        FallenResponseKeeps(c0, close);
      }
    }
    hide CallIds, InOrder, Accounts, IdsOf, Handle;
  }

  lemma DisconnectKeeps(c: Client, completes: bool)
    requires Inv(c) && Enabled(c, Disconnect(completes))
    ensures Inv(Next(c, Disconnect(completes)))
  {
    if !completes {
      FailKeeps(c, NetworkFailure);
    } else {
      FallenAwayKeeps(c);
    }
    hide Inv, Fail, Handle;
  }

  lemma FallenAwayKeeps(c: Client)
    requires Inv(c) && Enabled(c, Disconnect(true))
    ensures Inv(Next(c, Disconnect(true)))
  {
    var c0 := c.(reading := false);
    assert Inv(c0);
    FallenResponseKeeps(c0, false);
    hide CallIds, InOrder, Accounts, IdsOf, Handle;
  }

  lemma StepKeeps(c: Client, a: Action)
    requires Inv(c) && Enabled(c, a)
    ensures Inv(Next(c, a))
  {
    match a
    case Submit(timed) => SubmitKeeps(c, timed);
    case Resolved(ok) => ResolvedKeeps(c, ok);
    case ConnectOk => ConnectKeeps(c);
    case ConnectFail => FailKeeps(c, BadServerAddress);
    case PartialResponse => assert Inv(c.(reading := true));
    case CompleteResponse(close) => ResponseKeeps(c, close);
    case MalformedResponse => FailKeeps(c, BadResponse);
    case Disconnect(completes) => DisconnectKeeps(c, completes);
    case TimerFires(id) => TimerKeeps(c, id);
    hide CallIds, InOrder, Accounts, IdsOf, Fail, Handle;
  }

  // Whole runs.

  function Step(c: Client, a: Action): Option<Client> {
    if Enabled(c, a) then Some(Next(c, a)) else None
  }

  lemma RunInv(c: Client, actions: seq<Action>)
    requires Inv(c) && Run(Step, c, actions).Some?
    ensures Inv(Run(Step, c, actions).value)
  {
    forall c, a | Inv(c) && Step(c, a).Some? ensures Inv(Step(c, a).value) {
      StepKeeps(c, a);
    }
    RunKeeps(Step, Inv, c, actions);
    hide Inv;
  }

  function Calls(c: Client, id: nat): nat { multiset(CallIds(c.log.calls))[id] }

  /** In every run: no assertion fails; at most `depth + 1` requests are in flight; the
      pipeline followed by the buffer is in the order of submission, so no request is in
      them twice; no callback runs twice; that of a buffered request has not run, and that
      of a request in neither queue has.  Once both queues are empty every callback has
      run exactly once. */
  lemma ClientRuns(depth: nat, domain: bool, reachable: bool, actions: seq<Action>)
    requires Run(Step, Init(depth, domain, reachable), actions).Some?
    ensures var c := Run(Step, Init(depth, domain, reachable), actions).value;
            && !c.broken
            && |c.flight| <= c.depth + 1
            && InOrder(c.flight + c.buffer)
            && (forall id :: 0 <= id < c.submitted ==>
                  && Calls(c, id) <= 1
                  && (Holds(c.buffer, id) ==> Calls(c, id) == 0)
                  && (!Holds(c.buffer, id) && !Holds(c.flight, id) ==> Calls(c, id) == 1))
            && (c.flight == [] && c.buffer == [] ==> forall id :: 0 <= id < c.submitted ==> Calls(c, id) == 1)
  {
    var c := Init(depth, domain, reachable);
    assert CallIds(c.log.calls) == [];
    RunInv(c, actions);
    hide Run, CallIds, InOrder;
  }

  /** The k-th response on a connection goes to the k-th request sent on it, whose callback
      gets it unless the timer was faster. */
  lemma ResponseFindsItsRequest(c: Client, close: bool)
    requires Inv(c) && c.link.Up? && c.flight != []
    ensures |c.delivered| < |c.wire|
    ensures var r, c' := c.flight[0], Next(c, CompleteResponse(close));
            && r.id == c.wire[|c.delivered|]
            && c'.log.calls == (if r.id in c.log.flags then c.log.calls else c.log.calls + [(r.id, Ok)])
            && (c'.link.Up? ==> c'.delivered == c.delivered + [r.id])
  {
    assert IdsOf(c.flight)[0] == c.flight[0].id;
    hide CallIds, InOrder, Holds;
  }
}
