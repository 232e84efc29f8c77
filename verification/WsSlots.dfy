/** The connection slots of one WebSocket route with a cap on its connections.  Every atomic
    operation on the shared counter, every exchange of a session's `counted` flag and every
    lock section is one step, and any number of threads take such steps. */
module WsSlots {
  import opened Text
  import opened Counting
  import opened Runs

  /** A connection: counted past the cap and not rolled back yet, counted and not
      registered yet, refused, or a session. */
  datatype Conn =
    | Overflowed
    | Admitted
    | Refused
    | Session(registered: bool, counted: bool)

  /** A thread in `eraseWsSession`: before its lookup, holding the session it took out of
      the table, about to give the slot back, or through. */
  datatype Eraser =
    | Looking(conn: nat)
    | Holding(conn: nat)
    | Returning(conn: nat)
    | Through

  /** `returned` lists the connections whose slots were given back. */
  datatype State = State(max: nat, live: int, conns: seq<Conn>, erasers: seq<Eraser>, returned: seq<nat>)

  function Init(max: nat): State { State(max, 0, [], [], []) }

  datatype Action =
    | Connect
    | Rollback(conn: nat)
    | Register(conn: nat)
    | Erase(conn: nat)
    | Find(eraser: nat)
    | Exchange(eraser: nat)
    | Return(eraser: nat)

  predicate Enabled(s: State, a: Action) {
    match a
    case Connect => true
    case Rollback(c) => c < |s.conns| && s.conns[c].Overflowed?
    case Register(c) => c < |s.conns| && s.conns[c].Admitted?
    case Erase(c) => c < |s.conns|
    case Find(e) => e < |s.erasers| && s.erasers[e].Looking? && s.erasers[e].conn < |s.conns|
    case Exchange(e) =>
      && e < |s.erasers| && s.erasers[e].Holding?
      && s.erasers[e].conn < |s.conns| && s.conns[s.erasers[e].conn].Session?
    case Return(e) => e < |s.erasers| && s.erasers[e].Returning?
  }

  function Next(s: State, a: Action): State
    requires Enabled(s, a)
  {
    match a
    case Connect =>
      var after := s.live + 1;
      s.(live := after, conns := s.conns + [if after > s.max then Overflowed else Admitted])
    case Rollback(c) => s.(live := s.live - 1, conns := s.conns[c := Refused])
    case Register(c) => s.(conns := s.conns[c := Session(true, true)])
    case Erase(c) => s.(erasers := s.erasers + [Looking(c)])
    case Find(e) =>
      var c := s.erasers[e].conn;
      if s.conns[c].Session? && s.conns[c].registered then
        s.(conns := s.conns[c := s.conns[c].(registered := false)], erasers := s.erasers[e := Holding(c)])
      else s.(erasers := s.erasers[e := Through])
    case Exchange(e) =>
      var c := s.erasers[e].conn;
      if s.conns[c].counted then
        s.(conns := s.conns[c := s.conns[c].(counted := false)], erasers := s.erasers[e := Returning(c)])
      else s.(erasers := s.erasers[e := Through])
    case Return(e) =>
      s.(live := s.live - 1, erasers := s.erasers[e := Through], returned := s.returned + [s.erasers[e].conn])
  }

  predicate Admittance(c: Conn) { c.Admitted? || (c.Session? && c.counted) }

  predicate IsOverflowed(c: Conn) { c.Overflowed? }

  predicate IsReturning(e: Eraser) { e.Returning? }

  /** Threads that give back, or have given back, the slot of a connection. */
  function GivenBack(s: State, c: nat): nat {
    multiset(s.erasers)[Returning(c)] + multiset(s.returned)[c]
  }

  predicate Balanced(s: State) {
    && s.live == Count(s.conns, Admittance) + Count(s.conns, IsOverflowed) + Count(s.erasers, IsReturning)
    && Count(s.conns, Admittance) + Count(s.erasers, IsReturning) <= s.max
  }

  /** The table's entry, the flag and the holder of one session agree. */
  predicate Coherent(s: State, c: nat)
    requires c < |s.conns|
  {
    match s.conns[c]
    case Session(registered, counted) =>
      && (registered ==> counted && Holding(c) !in s.erasers)
      && (counted && !registered ==> Holding(c) in s.erasers)
      && GivenBack(s, c) == One(!counted)
    case _ => Holding(c) !in s.erasers && GivenBack(s, c) == 0
  }

  predicate Inv(s: State) {
    && Balanced(s)
    && (forall c :: 0 <= c < |s.conns| ==> Coherent(s, c))
    && (forall e :: 0 <= e < |s.erasers| && !s.erasers[e].Through? ==> s.erasers[e].conn < |s.conns|)
    && (forall i :: 0 <= i < |s.returned| ==> s.returned[i] < |s.conns|)
  }

  lemma ConnsCounted(s: State, c: nat, x: Conn)
    requires c < |s.conns|
    ensures var conns := s.conns[c := x];
            && Count(conns, Admittance) == Count(s.conns, Admittance) - One(Admittance(s.conns[c])) + One(Admittance(x))
            && Count(conns, IsOverflowed) == Count(s.conns, IsOverflowed) - One(s.conns[c].Overflowed?) + One(x.Overflowed?)
  {
    CountUpdate(s.conns, c, x, Admittance);
    CountUpdate(s.conns, c, x, IsOverflowed);
  }

  lemma BalanceKept(s: State, a: Action)
    requires Balanced(s) && Enabled(s, a)
    ensures Balanced(Next(s, a))
  {
    hide Count;
    match a
    case Connect =>
      var x := if s.live + 1 > s.max then Overflowed else Admitted;
      CountAppend(s.conns, x, Admittance);
      CountAppend(s.conns, x, IsOverflowed);
    case Rollback(c) => ConnsCounted(s, c, Refused);
    case Register(c) => ConnsCounted(s, c, Session(true, true));
    case Erase(c) => CountAppend(s.erasers, Looking(c), IsReturning);
    case Find(e) =>
      var c := s.erasers[e].conn;
      CountUpdate(s.erasers, e, Holding(c), IsReturning);
      CountUpdate(s.erasers, e, Through, IsReturning);
      if s.conns[c].Session? {
        ConnsCounted(s, c, s.conns[c].(registered := false));
      }
    case Exchange(e) =>
      var c := s.erasers[e].conn;
      CountUpdate(s.erasers, e, Returning(c), IsReturning);
      CountUpdate(s.erasers, e, Through, IsReturning);
      ConnsCounted(s, c, s.conns[c].(counted := false));
    case Return(e) => CountUpdate(s.erasers, e, Through, IsReturning);
  }

  lemma EraserMoves(s: State, e: nat, x: Eraser, c: nat)
    requires e < |s.erasers|
    ensures multiset(s.erasers[e := x])[Returning(c)] ==
            multiset(s.erasers)[Returning(c)] - One(s.erasers[e] == Returning(c)) + One(x == Returning(c))
    ensures Holding(c) in s.erasers && s.erasers[e] != Holding(c) ==> Holding(c) in s.erasers[e := x]
    ensures Holding(c) !in s.erasers && x != Holding(c) ==> Holding(c) !in s.erasers[e := x]
    ensures x in s.erasers[e := x]
  {
    assert s.erasers[e := x][e] == x;
    if Holding(c) in s.erasers && s.erasers[e] != Holding(c) {
      var k :| 0 <= k < |s.erasers| && s.erasers[k] == Holding(c);
      assert s.erasers[e := x][k] == Holding(c);
    }
  }

  lemma NewcomerCoherent(s: State)
    requires Inv(s)
    ensures GivenBack(Next(s, Connect), |s.conns|) == 0
    ensures Holding(|s.conns|) !in s.erasers
  {
    var c := |s.conns|;
    assert Holding(c) !in s.erasers;
    assert Returning(c) !in s.erasers;
    assert c !in s.returned;
  }

  lemma ConnCoherent(s: State, a: Action, c: nat)
    requires Inv(s) && Enabled(s, a) && c < |Next(s, a).conns|
    requires a.Connect? || a.Rollback? || a.Register? || a.Erase?
    ensures Coherent(Next(s, a), c)
  {
    hide Balanced;
    if c < |s.conns| {
      assert Coherent(s, c);
    } else {
      NewcomerCoherent(s);
    }
  }

  lemma FindCoherent(s: State, e: nat, c: nat)
    requires Inv(s) && Enabled(s, Find(e)) && c < |s.conns|
    ensures Coherent(Next(s, Find(e)), c)
  {
    assert Coherent(s, c);
    EraserMoves(s, e, Through, c);
    EraserMoves(s, e, Holding(s.erasers[e].conn), c);
    hide Inv;
  }

  lemma ExchangeCoherent(s: State, e: nat, c: nat)
    requires Inv(s) && Enabled(s, Exchange(e)) && c < |s.conns|
    ensures Coherent(Next(s, Exchange(e)), c)
  {
    assert Coherent(s, c);
    EraserMoves(s, e, Through, c);
    EraserMoves(s, e, Returning(s.erasers[e].conn), c);
    hide Inv;
  }

  lemma ReturnCoherent(s: State, e: nat, c: nat)
    requires Inv(s) && Enabled(s, Return(e)) && c < |s.conns|
    ensures Coherent(Next(s, Return(e)), c)
  {
    assert Coherent(s, c);
    EraserMoves(s, e, Through, c);
    hide Inv;
  }

  lemma CoherenceKept(s: State, a: Action, c: nat)
    requires Inv(s) && Enabled(s, a) && c < |Next(s, a).conns|
    ensures Coherent(Next(s, a), c)
  {
    match a
    case Find(e) => FindCoherent(s, e, c);
    case Exchange(e) => ExchangeCoherent(s, e, c);
    case Return(e) => ReturnCoherent(s, e, c);
    case _ => ConnCoherent(s, a, c);
    hide Inv, Coherent;
  }

  lemma StepKeeps(s: State, a: Action)
    requires Inv(s) && Enabled(s, a)
    ensures Inv(Next(s, a))
  {
    BalanceKept(s, a);
    var s' := Next(s, a);
    forall c | 0 <= c < |s'.conns| ensures Coherent(s', c) {
      CoherenceKept(s, a, c);
    }
    hide Balanced, Coherent;
  }

  // Whole runs.

  function Step(s: State, a: Action): Option<State> {
    if Enabled(s, a) then Some(Next(s, a)) else None
  }

  lemma RunInv(max: nat, actions: seq<Action>)
    requires Run(Step, Init(max), actions).Some?
    ensures var s := Run(Step, Init(max), actions).value; Inv(s) && s.max == max
  {
    var inv := (s: State) => Inv(s) && s.max == max;
    forall s, a | inv(s) && Step(s, a).Some? ensures inv(Step(s, a).value) {
      StepKeeps(s, a);
      hide Inv;
    }
    RunKeeps(Step, inv, Init(max), actions);
    hide Inv;
  }

  predicate IsOpen(c: Conn) { c.Session? && c.registered }

  function OpenSessions(s: State): nat { Count(s.conns, IsOpen) }

  /** In every interleaving: the counter is the admitted connections plus those not rolled
      back plus those not given back; at most `max` sessions are open; and no slot is given
      back twice, or without having been taken. */
  lemma SlotsAreSafe(max: nat, actions: seq<Action>)
    requires Run(Step, Init(max), actions).Some?
    ensures var s := Run(Step, Init(max), actions).value;
            && s.live == Count(s.conns, Admittance) + Count(s.conns, IsOverflowed) + Count(s.erasers, IsReturning)
            && OpenSessions(s) <= Count(s.conns, Admittance) <= max
            && (forall c :: 0 <= c < |s.conns| ==>
                  GivenBack(s, c) == One(s.conns[c].Session? && !s.conns[c].counted))
  {
    RunInv(max, actions);
    var s := Run(Step, Init(max), actions).value;
    forall c | 0 <= c < |s.conns|
      ensures IsOpen(s.conns[c]) ==> Admittance(s.conns[c])
      ensures GivenBack(s, c) == One(s.conns[c].Session? && !s.conns[c].counted)
    {
      assert Coherent(s, c);
    }
    CountWeaker(s.conns, IsOpen, Admittance);
    hide Run;
  }

  /** In every interleaving a connection is turned away if and only if the slots taken, those
      not rolled back yet and those not given back yet already number `max`. */
  lemma RefusedIffFull(max: nat, actions: seq<Action>)
    requires Run(Step, Init(max), actions).Some?
    ensures var s := Run(Step, Init(max), actions).value;
            var t, taken := Next(s, Connect),
                            Count(s.conns, Admittance) + Count(s.conns, IsOverflowed) + Count(s.erasers, IsReturning);
            && |t.conns| == |s.conns| + 1 && s.conns <= t.conns
            && (t.conns[|s.conns|] == Overflowed <==> taken >= max)
            && (t.conns[|s.conns|] == Admitted <==> taken < max)
  {
    RunInv(max, actions);
    hide Run, Count;
  }

  /** When no thread is at work on a slot, the counter is the number of open sessions, and
      every session that ended gave its slot back once. */
  lemma AtRest(s: State)
    requires Inv(s)
    requires forall c :: 0 <= c < |s.conns| ==> !s.conns[c].Overflowed? && !s.conns[c].Admitted?
    requires forall e :: 0 <= e < |s.erasers| ==> s.erasers[e].Through?
    ensures s.live == OpenSessions(s)
    ensures forall c :: 0 <= c < |s.conns| ==>
              multiset(s.returned)[c] == One(s.conns[c].Session? && !s.conns[c].registered)
  {
    CountZero(s.conns, IsOverflowed);
    CountZero(s.erasers, IsReturning);
    forall c | 0 <= c < |s.conns|
      ensures IsOpen(s.conns[c]) == Admittance(s.conns[c])
      ensures multiset(s.returned)[c] == One(s.conns[c].Session? && !s.conns[c].registered)
    {
      assert Coherent(s, c);
      assert Returning(c) !in s.erasers && Holding(c) !in s.erasers;
    }
    CountWeaker(s.conns, IsOpen, Admittance);
    CountWeaker(s.conns, Admittance, IsOpen);
    hide Inv;
  }
}
