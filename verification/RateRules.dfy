/** Rate-limit rules: which limiters a route gets, and what a rule of global scope means for
    all its routes together. */
module RateRules {
  import opened Text
  import opened Runs
  import opened RateLimiters

  datatype Rule = Rule(prefixes: seq<string>, global: bool, kind: Kind, capacity: nat, window: real)

  predicate Applies(rule: Rule, path: string) {
    rule.prefixes == [] || exists i :: 0 <= i < |rule.prefixes| && rule.prefixes[i] <= path
  }

  predicate InTable(ids: seq<nat>, n: nat) {
    && (forall i :: 0 <= i < |ids| ==> ids[i] < n)
    && (forall i, j :: 0 <= i < j < |ids| ==> ids[i] != ids[j])
  }

  predicate AllInTable(routes: seq<seq<nat>>, n: nat) {
    forall q :: 0 <= q < |routes| ==> InTable(routes[q], n)
  }

  predicate Ticking(table: seq<Limiter>) {
    forall i :: 0 <= i < |table| ==> Unit(table[i]) > 0.0
  }

  // Asking the limiters of a route, one after the other, until one refuses.

  /** A request in its check: the limiters of its route that have admitted it, in order, and
      whether one refused it. */
  datatype Arrival = Arrival(route: nat, done: nat, refused: bool)

  /** The limiters of each route, the table of limiters, and the requests by arrival. */
  datatype Server = Server(routes: seq<seq<nat>>, table: seq<Limiter>, requests: seq<Arrival>)

  /** A request arrives, or asks its next limiter.  The limiter's mutex makes a call one
      step; the calls of different requests interleave in any way. */
  datatype Event = Arrive(route: nat) | Ask(request: nat, now: real)

  predicate InOrder(r: Arrival, routes: seq<seq<nat>>) {
    r.route < |routes| && r.done <= |routes[r.route]|
  }

  predicate AllInOrder(routes: seq<seq<nat>>, requests: seq<Arrival>) {
    forall r :: 0 <= r < |requests| ==> InOrder(requests[r], routes)
  }

  predicate Sane(s: Server) {
    Ticking(s.table) && AllInTable(s.routes, |s.table|) && AllInOrder(s.routes, s.requests)
  }

  predicate Enabled(s: Server, e: Event)
    requires Sane(s)
  {
    match e
    case Arrive(route) => route < |s.routes|
    case Ask(r, _) => r < |s.requests| && !s.requests[r].refused && s.requests[r].done < |s.routes[s.requests[r].route]|
  }

  /** The limiter a request asks next. */
  function Asks(s: Server, r: nat): (g: nat)
    requires Sane(s) && Enabled(s, Ask(r, 0.0))
    ensures g < |s.table|
  {
    s.routes[s.requests[r].route][s.requests[r].done]
  }

  function Next(s: Server, e: Event): (t: Server)
    requires Sane(s) && Enabled(s, e)
    ensures Sane(t) && t.routes == s.routes && |t.table| == |s.table|
  {
    match e
    case Arrive(route) => s.(requests := s.requests + [Arrival(route, 0, false)])
    case Ask(r, now) =>
      var g, request := Asks(s, r), s.requests[r];
      var (l, ok) := Asked(s.table[g], now);
      s.(table := s.table[g := l],
         requests := s.requests[r := if ok then request.(done := request.done + 1) else request.(refused := true)])
  }

  function Step(s: Server, e: Event): Option<Server> {
    if Sane(s) && Enabled(s, e) then Some(Next(s, e)) else None
  }

  /** Has the request passed its check? */
  predicate Passes(routes: seq<seq<nat>>, r: Arrival)
    requires InOrder(r, routes)
  {
    !r.refused && r.done == |routes[r.route]|
  }

  /** Has the limiter admitted the request? */
  predicate AdmittedBy(routes: seq<seq<nat>>, r: Arrival, g: nat)
    requires InOrder(r, routes)
  {
    g in routes[r.route][..r.done]
  }

  /** How many requests has a limiter admitted? */
  function Through(routes: seq<seq<nat>>, requests: seq<Arrival>, g: nat): nat
    requires AllInOrder(routes, requests)
  {
    if requests == [] then 0
    else
      var n := |requests| - 1;
      Through(routes, requests[..n], g) + One(AdmittedBy(routes, requests[n], g))
  }

  lemma {:induction false} ThroughChanges(routes: seq<seq<nat>>, requests: seq<Arrival>, k: nat, x: Arrival, g: nat)
    requires k < |requests| && InOrder(x, routes)
    requires AllInOrder(routes, requests)
    ensures Through(routes, requests[k := x], g) + One(AdmittedBy(routes, requests[k], g)) ==
            Through(routes, requests, g) + One(AdmittedBy(routes, x, g))
  {
    var n := |requests| - 1;
    hide AdmittedBy, InOrder;
    if k == n {
      assert requests[k := x][..n] == requests[..n];
    } else {
      ThroughChanges(routes, requests[..n], k, x, g);
      assert requests[k := x][..n] == requests[..n][k := x];
    }
  }

  /** A call to a limiter that admits adds one request to those it has admitted; nothing else
      changes their number, or the limiter. */
  lemma OneCall(s: Server, e: Event, g: nat)
    requires Sane(s) && Enabled(s, e) && g < |s.table|
    ensures var t := Next(s, e);
            if e.Ask? && Asks(s, e.request) == g then
              var (l, ok) := Asked(s.table[g], e.now);
              t.table[g] == l && Through(t.routes, t.requests, g) == Through(s.routes, s.requests, g) + One(ok)
            else
              t.table[g] == s.table[g] && Through(t.routes, t.requests, g) == Through(s.routes, s.requests, g)
  {
    hide Asked;
    match e
    case Arrive(route) =>
      assert (s.requests + [Arrival(route, 0, false)])[..|s.requests|] == s.requests;
    case Ask(r, now) =>
      var x, y := s.requests[r], Next(s, e).requests[r];
      ThroughChanges(s.routes, s.requests, r, y, g);
      var ids := s.routes[x.route];
      assert ids[..x.done + 1] == ids[..x.done] + [ids[x.done]];
      assert InTable(ids, |s.table|);
      hide Through;
  }

  /** The times at which limiter `g` is asked. */
  function CallTimes(s: Server, events: seq<Event>, g: nat): seq<real>
    requires Run(Step, s, events).Some?
    decreases |events|
  {
    if events == [] then []
    else
      var rest := CallTimes(Next(s, events[0]), events[1..], g);
      if events[0].Ask? && Asks(s, events[0].request) == g then [events[0].now] + rest else rest
  }

  /** In every run the calls a limiter admits are one for each request it admits. */
  lemma {:induction false} AdmittedOnce(s: Server, events: seq<Event>, g: nat)
    requires Sane(s) && g < |s.table| && Run(Step, s, events).Some?
    ensures var t, times := Run(Step, s, events).value, CallTimes(s, events, g);
            && Sane(t) && t.routes == s.routes && |t.table| == |s.table|
            && t.table[g] == After(s.table[g], times)
            && Through(t.routes, t.requests, g) == Through(s.routes, s.requests, g) + Admitted(s.table[g], times)
    decreases |events|
  {
    if events != [] {
      OneCall(s, events[0], g);
      var s' := Next(s, events[0]);
      hide Asked, Next, Enabled, Through;
      AdmittedOnce(s', events[1..], g);
      var rest := CallTimes(s', events[1..], g);
      if events[0].Ask? {
        assert ([events[0].now] + rest)[1..] == rest;
      }
    }
  }

  /** `checkRateLimits` for one request on its own, its calls coming at the given times. */
  function Check(table: seq<Limiter>, ids: seq<nat>, times: seq<real>): (r: (seq<Limiter>, bool))
    requires Ticking(table) && InTable(ids, |table|) && |times| == |ids|
    ensures |r.0| == |table| && Ticking(r.0)
    decreases |ids|
  {
    if ids == [] then (table, true)
    else
      var (l, ok) := Asked(table[ids[0]], times[0]);
      if ok then Check(table[ids[0] := l], ids[1..], times[1..]) else (table[ids[0] := l], false)
  }

  /** Such a check is a run of its calls, and it lets the request pass exactly if that run does. */
  lemma CheckRuns(s: Server, q: nat, times: seq<real>) returns (events: seq<Event>, x: Arrival)
    requires Sane(s) && q < |s.routes| && |times| == |s.routes[q]|
    ensures var (table, ok) := Check(s.table, s.routes[q], times);
            && Run(Step, s, events) == Some(s.(table := table, requests := s.requests + [x]))
            && x.route == q && InOrder(x, s.routes) && (Passes(s.routes, x) <==> ok)
  {
    var t := Next(s, Arrive(q));
    assert s.routes[q][0..] == s.routes[q] && times[0..] == times;
    hide Asked, Check;
    events, x := RestRuns(t, s.requests, q, 0, times);
    events := [Arrive(q)] + events;
    assert events[1..] == events[1..];
  }

  lemma {:induction false} RestRuns(s: Server, others: seq<Arrival>, q: nat, j: nat, times: seq<real>)
    returns (events: seq<Event>, x: Arrival)
    requires Sane(s) && q < |s.routes| && j <= |s.routes[q]| == |times|
    requires s.requests == others + [Arrival(q, j, false)]
    ensures var (table, ok) := Check(s.table, s.routes[q][j..], times[j..]);
            && Run(Step, s, events) == Some(s.(table := table, requests := others + [x]))
            && x.route == q && InOrder(x, s.routes) && (Passes(s.routes, x) <==> ok)
    decreases |times| - j
  {
    hide Asked;
    if j == |times| {
      return [], Arrival(q, j, false);
    }
    var r, ids := |others|, s.routes[q];
    var ask := Ask(r, times[j]);
    var (l, ok) := Asked(s.table[ids[j]], times[j]);
    var s' := Next(s, ask);
    assert s'.table == s.table[ids[j] := l];
    assert ids[j..][0] == ids[j] && ids[j..][1..] == ids[j + 1..];
    assert times[j..][0] == times[j] && times[j..][1..] == times[j + 1..];
    if ok {
      assert s'.requests == others + [Arrival(q, j + 1, false)];
      events, x := RestRuns(s', others, q, j + 1, times);
      events := [ask] + events;
    } else {
      x := Arrival(q, j, true);
      assert s'.requests == others + [x];
      events := [ask];
    }
  }

  // Time.

  /** The times of the calls, in order. */
  function Times(events: seq<Event>): seq<real> {
    if events == [] then []
    else (if events[0].Ask? then [events[0].now] else []) + Times(events[1..])
  }

  /** The clock never goes back: all calls come in [s, t], one after the other. */
  predicate Within(events: seq<Event>, s: real, t: real) {
    Forward(Times(events), s) && forall i :: 0 <= i < |Times(events)| ==> Times(events)[i] <= t
  }

  lemma WithinRest(events: seq<Event>, s: real, t: real)
    requires events != [] && Within(events, s, t)
    ensures if events[0].Ask? then s <= events[0].now <= t && Within(events[1..], events[0].now, t)
            else Within(events[1..], s, t)
  {
    var all, rest := Times(events), Times(events[1..]);
    if events[0].Ask? {
      assert all[0] == events[0].now && all[1..] == rest;
      assert forall i :: 0 <= i < |rest| ==> rest[i] == all[i + 1];
    } else {
      assert all == rest;
    }
  }

  lemma {:induction false} CallTimesWithin(s: Server, events: seq<Event>, g: nat, from: real, until: real)
    requires Run(Step, s, events).Some? && Within(events, from, until)
    ensures var times := CallTimes(s, events, g);
            Forward(times, from) && forall i :: 0 <= i < |times| ==> times[i] <= until
    decreases |events|
  {
    hide Next, Enabled, Sane, Within;
    if events != [] {
      WithinRest(events, from, until);
      CallTimesWithin(Next(s, events[0]), events[1..], g, if events[0].Ask? then events[0].now else from, until);
    }
  }

  /** A limiter that is still the one a rule made. */
  ghost predicate MadeBy(l: Limiter, kind: Kind, capacity: nat, unit: real, start: real, now: real) {
    && Sound(l, now) && Capacity(l) == capacity && Unit(l) == unit
    && match kind
       case Bucket => l.OfBucket?
       case Fixed => l.OfFixed?
       case Sliding => l.OfSliding? && start <= l.sliding.unitStart && Aligned(start, l.sliding.unitStart, unit)
  }

  lemma AskedStaysMade(l: Limiter, kind: Kind, capacity: nat, unit: real, start: real, from: real, now: real)
    requires MadeBy(l, kind, capacity, unit, start, from) && from <= now
    ensures MadeBy(l, kind, capacity, unit, start, now)
    ensures MadeBy(Asked(l, now).0, kind, capacity, unit, start, now)
  {
    AskedSound(l, now, from);
    if l.OfSliding? {
      var s := l.sliding;
      UnitHolds(s.unitStart, now, s.unit);
      if kind.Sliding? {
        AlignedMore(start, s.unitStart, now, unit);
      }
    }
    hide UnitOf, Aligned, Filled, Weight;
  }

  lemma {:induction false} StaysMade(
    l: Limiter, times: seq<real>, kind: Kind, capacity: nat, unit: real, start: real, from: real, now: real)
    requires MadeBy(l, kind, capacity, unit, start, from) && Forward(times, from) && from <= now
    requires forall i :: 0 <= i < |times| ==> times[i] <= now
    ensures MadeBy(After(l, times), kind, capacity, unit, start, now)
    decreases |times|
  {
    if times == [] {
      AskedStaysMade(l, kind, capacity, unit, start, from, now);
    } else {
      AskedStaysMade(l, kind, capacity, unit, start, from, times[0]);
      hide Asked, MadeBy;
      StaysMade(Asked(l, times[0]).0, times[1..], kind, capacity, unit, start, times[0], now);
    }
  }

  /** What a rule whose limiter was made at `start` lets pass in [s, t]: the allowance of a
      token bucket; twice the capacity of a fixed window, in less than a unit; the capacity
      of a sliding window, in each unit from its start. */
  ghost predicate WithinRule(kind: Kind, capacity: nat, unit: real, start: real, s: real, t: real, passed: nat)
    requires unit > 0.0
  {
    match kind
    case Bucket => passed as real <= Allowance(capacity, t - s, unit)
    case Fixed => t < s + unit ==> passed <= 2 * capacity
    case Sliding => t < s + unit && Aligned(start, s, unit) ==> passed <= capacity
  }

  lemma MadeIsWithin(
    l: Limiter, times: seq<real>, kind: Kind, capacity: nat, unit: real, start: real, s: real, t: real)
    requires unit > 0.0 && MadeBy(l, kind, capacity, unit, start, s) && s <= t && Forward(times, s)
    requires forall i :: 0 <= i < |times| ==> times[i] <= t
    ensures WithinRule(kind, capacity, unit, start, s, t, Admitted(l, times))
  {
    match kind
    case Bucket => BucketBound(l, times, s, t);
    case Fixed =>
      if t < s + unit {
        FixedBound(l, times, s);
      }
    case Sliding =>
      if t < s + unit && Aligned(start, s, unit) {
        AlignedBetween(start, l.sliding.unitStart, s, unit);
        SlidingBound(l, times, s);
      }
    hide Admitted, Allowance, Aligned;
  }

  /** A rule, from the start of its limiter on: whatever came before, whatever other limiters
      the routes have, and however the calls of any number of requests interleave, the
      requests that its limiter admits in [s, t] stay within it. */
  lemma RuleKept(
    server: Server, before: seq<Event>, during: seq<Event>, g: nat,
    kind: Kind, capacity: nat, unit: real, start: real, s: real, t: real)
    requires Sane(server) && g < |server.table| && unit > 0.0 && server.table[g] == New(kind, capacity, unit, start)
    requires Run(Step, server, before).Some? && Run(Step, Run(Step, server, before).value, during).Some?
    requires start <= s <= t && Within(before, start, s) && Within(during, s, t)
    ensures var then' := Run(Step, server, before).value;
            var now := Run(Step, then', during).value;
            && Sane(then') && Sane(now)
            && var admitted: int := Through(now.routes, now.requests, g) - Through(then'.routes, then'.requests, g);
               admitted >= 0 && WithinRule(kind, capacity, unit, start, s, t, admitted)
  {
    NewIsSound(kind, capacity, unit, start);
    AlignedWithItself(start, unit);
    var then' := Run(Step, server, before).value;
    assert MadeBy(server.table[g], kind, capacity, unit, start, start);
    hide MadeBy, Aligned, Through, WithinRule, Within, Sane;
    AdmittedOnce(server, before, g);
    CallTimesWithin(server, before, g, start, s);
    StaysMade(server.table[g], CallTimes(server, before, g), kind, capacity, unit, start, start, s);
    AdmittedOnce(then', during, g);
    CallTimesWithin(then', during, g, s, t);
    MadeIsWithin(then'.table[g], CallTimes(then', during, g), kind, capacity, unit, start, s, t);
  }
}
