/** What the limiters remember of their past: their counts against the calls that
    were really admitted. */
module LimiterHistory {
  import opened RateLimiters

  /** The times of the calls admitted, in order. */
  function Log(l: Limiter, times: seq<real>): seq<real>
    requires Unit(l) > 0.0
    decreases |times|
  {
    if times == [] then []
    else (if Asked(l, times[0]).1 then [times[0]] else []) + Log(Asked(l, times[0]).0, times[1..])
  }

  lemma LogFront(l: Limiter, log: seq<real>, times: seq<real>)
    requires Unit(l) > 0.0 && times != []
    ensures var (l', ok) := Asked(l, times[0]);
            log + Log(l, times) == (if ok then log + [times[0]] else log) + Log(l', times[1..])
  {
    hide Asked;
    var (l', ok) := Asked(l, times[0]);
    Regroup(log, if ok then [times[0]] else [], Log(l', times[1..]));
    assert log + [] == log;
  }

  lemma Regroup(a: seq<real>, b: seq<real>, c: seq<real>)
    ensures a + b + c == a + (b + c)
  {}

  /** How many fall in [a, b)? */
  function CountIn(log: seq<real>, a: real, b: real): nat {
    if log == [] then 0
    else CountIn(log[..|log| - 1], a, b) + One(a <= log[|log| - 1] < b)
  }

  lemma CountMore(log: seq<real>, t: real, a: real, b: real)
    ensures CountIn(log + [t], a, b) == CountIn(log, a, b) + One(a <= t < b)
  {
    assert (log + [t])[..|log|] == log;
  }

  lemma {:induction false} NoneIn(log: seq<real>, a: real, b: real)
    requires forall i :: 0 <= i < |log| ==> log[i] < a
    ensures CountIn(log, a, b) == 0
  {
    if log != [] {
      NoneIn(log[..|log| - 1], a, b);
    }
  }

  /** The window, counting units from `start` and last asked by `asked`, holds the count of
      the unit of its last admission, until a refused call of a later unit clears it. */
  ghost predicate Remembers(s: SlidingWindow, log: seq<real>, start: real, asked: real) {
    && s.unit > 0.0 && start <= s.unitStart <= asked && s.last <= asked
    && Aligned(start, s.unitStart, s.unit)
    && (forall i :: 0 <= i < |log| ==> log[i] <= s.last)
    && s.current <= s.capacity
    && if s.unitStart <= s.last
       then s.last < s.unitStart + s.unit && s.current == CountIn(log, s.unitStart, s.unitStart + s.unit)
       else s.current == 0
  }

  lemma UnitMoves(s: SlidingWindow, log: seq<real>, start: real, asked: real, now: real)
    requires Remembers(s, log, start, asked) && asked <= now
    ensures var u := UnitOf(s.unitStart, now, s.unit);
            && s.unitStart <= u <= now < u + s.unit && Aligned(start, u, s.unit)
            && (s.unitStart < u ==> s.unitStart + s.unit <= u)
            && (s.unitStart + s.unit < u ==> s.unitStart + s.unit + s.unit <= u)
  {
    UnitHolds(s.unitStart, now, s.unit);
    AlignedMore(start, s.unitStart, now, s.unit);
    Apart(s.unitStart, now, s.unit);
  }

  lemma Apart(start: real, now: real, unit: real)
    requires unit > 0.0 && start <= now
    ensures start < UnitOf(start, now, unit) ==> start + unit <= UnitOf(start, now, unit)
    ensures start + unit < UnitOf(start, now, unit) ==> start + unit + unit <= UnitOf(start, now, unit)
  {
    var n := ((now - start) / unit).Floor;
    MulUnits(0.0, now - start, unit);
    MulUnits(1.0, now - start, unit);
    MulAtMost(n as real, 0.0, unit);
    MulAtMost(n as real, 1.0, unit);
    MulAtMost(1.0, n as real, unit);
    MulAtMost(2.0, n as real, unit);
    hide Mul;
  }

  lemma AskRemembers(s: SlidingWindow, log: seq<real>, start: real, asked: real, now: real)
    requires Remembers(s, log, start, asked) && asked <= now
    ensures var (s', ok) := SlidingAsked(s, now);
            Remembers(s', if ok then log + [now] else log, start, now)
  {
    UnitMoves(s, log, start, asked, now);
    MovedHolds(s, now);
    var u := UnitOf(s.unitStart, now, s.unit);
    CountMore(log, now, u, u + s.unit);
    if s.last < u {
      NoneIn(log, u, u + s.unit);
    }
    hide UnitOf, Weight, Aligned, CountIn;
  }

  lemma {:induction false} RunRemembers(l: Limiter, log: seq<real>, times: seq<real>, start: real, asked: real, now: real)
    requires l.OfSliding? && Remembers(l.sliding, log, start, asked) && Forward(times, asked)
    requires asked <= now && forall i :: 0 <= i < |times| ==> times[i] <= now
    ensures Remembers(After(l, times).sliding, log + Log(l, times), start, now)
    decreases |times|
  {
    if times == [] {
      assert log + [] == log;
    } else {
      var t := times[0];
      AskRemembers(l.sliding, log, start, asked, t);
      hide SlidingAsked, Remembers, UnitOf, Aligned, CountIn;
      LogFront(l, log, times);
      var (l', ok) := Asked(l, t);
      RunRemembers(l', if ok then log + [t] else log, times[1..], start, t, now);
    }
  }

  /** Within one unit the window goes on weighing `n` requests of the unit before. */
  predicate Weighs(s: SlidingWindow, u: real, n: nat) {
    s.unit > 0.0 && s.unitStart == u && if s.last >= u then s.previous == n else s.current == 0 && n == 0
  }

  lemma WeighsOn(s: SlidingWindow, u: real, n: nat, now: real)
    requires Weighs(s, u, n) && u <= now < u + s.unit
    ensures Moved(s, now).previous == n && Weighs(SlidingAsked(s, now).0, u, n)
  {
    AlignedWithItself(u, s.unit);
    UnitReached(u, u, now, s.unit);
    hide UnitOf, Weight;
  }

  lemma {:induction false} WeighsAll(l: Limiter, u: real, n: nat, times: seq<real>)
    requires l.OfSliding? && Weighs(l.sliding, u, n)
    requires forall i :: 0 <= i < |times| ==> u <= times[i] < u + Unit(l)
    ensures Weighs(After(l, times).sliding, u, n)
    decreases |times|
  {
    if times != [] {
      WeighsOn(l.sliding, u, n, times[0]);
      hide SlidingAsked, Weighs;
      WeighsAll(Asked(l, times[0]).0, u, n, times[1..]);
    }
  }

  /** The admissions of a unit are lost to the next one, [u, u + unit), whose first call
      comes at `now`: the unit was used up and the call comes at the first instant, or the
      last admission came at the unit's own first instant. */
  predicate LostTo(log: seq<real>, capacity: nat, unit: real, u: real, now: real) {
    var n := CountIn(log, u - unit, u);
    n > 0 && log != [] && ((now == u && n == capacity) || log[|log| - 1] == u - unit)
  }

  /** The log ends with the last admission. */
  lemma {:induction false} LogEnds(l: Limiter, times: seq<real>)
    requires l.OfSliding? && Unit(l) > 0.0
    ensures var log := Log(l, times);
            After(l, times).sliding.last == if log == [] then l.sliding.last else log[|log| - 1]
    decreases |times|
  {
    if times != [] {
      LogEnds(Asked(l, times[0]).0, times[1..]);
      hide Weight, UnitOf;
    }
  }

  /** The first call of a unit settles what is weighed in it. */
  lemma FirstCall(s: SlidingWindow, log: seq<real>, start: real, asked: real, now: real)
    requires Remembers(s, log, start, asked) && asked <= now && s.capacity > 0
    requires asked < UnitOf(s.unitStart, now, s.unit)
    requires log != [] ==> log[|log| - 1] == s.last
    ensures var u := UnitOf(s.unitStart, now, s.unit);
            var n := if LostTo(log, s.capacity, s.unit, u, now) then 0 else CountIn(log, u - s.unit, u);
            Weighs(SlidingAsked(s, now).0, u, n)
  {
    UnitMoves(s, log, start, asked, now);
    FirstRefused(s, now);
    var u := UnitOf(s.unitStart, now, s.unit);
    if s.last < u - s.unit {
      NoneIn(log, u - s.unit, u);
    } else {
      assert s.unitStart + s.unit == u;
    }
    hide UnitOf, Weight, Aligned;
  }

  /** What the calls of a unit weigh after the calls `before` of earlier units. */
  function Carried(capacity: nat, unit: real, start: real, before: seq<real>, now: real): nat
    requires unit > 0.0
  {
    var u, log := UnitOf(start, now, unit), Log(New(Sliding, capacity, unit, start), before);
    if LostTo(log, capacity, unit, u, now) then 0 else CountIn(log, u - unit, u)
  }

  lemma RunFromNew(capacity: nat, unit: real, start: real, before: seq<real>, asked: real)
    requires unit > 0.0 && Forward(before, start)
    requires asked == if before == [] then start else before[|before| - 1]
    ensures var l := New(Sliding, capacity, unit, start);
            var s, log := After(l, before).sliding, Log(l, before);
            && Remembers(s, log, start, asked) && s.capacity == capacity && s.unit == unit
            && (log != [] ==> log[|log| - 1] == s.last)
  {
    var l := New(Sliding, capacity, unit, start);
    AlignedWithItself(start, unit);
    RunRemembers(l, [], before, start, start, asked);
    LogEnds(l, before);
    hide *;
    assert [] + Log(l, before) == Log(l, before);
  }

  /** Units counted from a unit's start are those counted from the beginning. */
  lemma SameUnit(s: SlidingWindow, log: seq<real>, start: real, asked: real, now: real)
    requires Remembers(s, log, start, asked) && asked <= now
    ensures UnitOf(s.unitStart, now, s.unit) == UnitOf(start, now, s.unit)
  {
    UnitMoves(s, log, start, asked, now);
    UnitReached(start, UnitOf(s.unitStart, now, s.unit), now, s.unit);
  }

  lemma FirstOfAll(capacity: nat, unit: real, start: real, now: real)
    requires unit > 0.0 && start <= now < start + unit
    ensures var s := New(Sliding, capacity, unit, start).sliding;
            Weighs(SlidingAsked(s, now).0, start, 0)
  {
    hide SlidingAsked;
    WeighsOn(New(Sliding, capacity, unit, start).sliding, start, 0, now);
  }

  lemma FirstOfUnit(capacity: nat, unit: real, start: real, before: seq<real>, now: real)
    requires unit > 0.0 && capacity > 0 && start <= now && Forward(before, start)
    requires forall i :: 0 <= i < |before| ==> before[i] < UnitOf(start, now, unit)
    ensures var s := After(New(Sliding, capacity, unit, start), before).sliding;
            Weighs(SlidingAsked(s, now).0, UnitOf(start, now, unit), Carried(capacity, unit, start, before, now))
  {
    hide UnitOf, SlidingAsked, Aligned, Weighs, Moved;
    UnitHolds(start, now, unit);
    var l := New(Sliding, capacity, unit, start);
    if before == [] && UnitOf(start, now, unit) == start {
      FirstOfAll(capacity, unit, start, now);
    } else {
      var asked := if before == [] then start else before[|before| - 1];
      LaterUnit(capacity, unit, start, before, asked, now);
    }
  }

  lemma LaterUnit(capacity: nat, unit: real, start: real, before: seq<real>, asked: real, now: real)
    requires unit > 0.0 && capacity > 0 && Forward(before, start)
    requires asked == (if before == [] then start else before[|before| - 1])
    requires asked <= now && asked < UnitOf(start, now, unit)
    ensures var s := After(New(Sliding, capacity, unit, start), before).sliding;
            Weighs(SlidingAsked(s, now).0, UnitOf(start, now, unit), Carried(capacity, unit, start, before, now))
  {
    hide UnitOf, SlidingAsked, Weighs, Remembers, After, Log, LostTo, CountIn, Moved, Asked;
    RunFromNew(capacity, unit, start, before, asked);
    var l := New(Sliding, capacity, unit, start);
    var s, log := After(l, before).sliding, Log(l, before);
    SameUnit(s, log, start, asked, now);
    FirstCall(s, log, start, asked, now);
  }

  /** Exactly when a sliding window counts right.  Over every run of calls from a new window:
      all calls of a unit weigh the admissions of the unit just before, in full, if and only
      if these are not lost to it at its first call; if they are, every call weighs none. */
  lemma CountIsHistory(
    capacity: nat, unit: real, start: real, before: seq<real>, now: real, between: seq<real>, later: real)
    requires unit > 0.0 && capacity > 0 && start <= now && Forward(before, start) && Forward(between, now)
    requires forall i :: 0 <= i < |before| ==> before[i] < UnitOf(start, now, unit)
    requires now <= later < UnitOf(start, now, unit) + unit && forall i :: 0 <= i < |between| ==> between[i] <= later
    ensures var l := New(Sliding, capacity, unit, start);
            var u, log := UnitOf(start, now, unit), Log(l, before);
            var last := After(Asked(After(l, before), now).0, between);
            var weighed := Moved(last.sliding, later).previous;
            && (weighed == CountIn(log, u - unit, u) <==> !LostTo(log, capacity, unit, u, now))
            && (LostTo(log, capacity, unit, u, now) ==> weighed == 0)
  {
    UnitHolds(start, now, unit);
    FirstOfUnit(capacity, unit, start, before, now);
    var u, n := UnitOf(start, now, unit), Carried(capacity, unit, start, before, now);
    hide UnitOf, SlidingAsked, CountIn, Log, After, Weighs, Moved;
    var l := Asked(After(New(Sliding, capacity, unit, start), before), now).0;
    WeighsAll(l, u, n, between);
    WeighsOn(After(l, between).sliding, u, n, later);
  }

  lemma {:induction false} CallsJoin(l: Limiter, a: seq<real>, b: seq<real>)
    requires Unit(l) > 0.0
    ensures After(l, a + b) == After(After(l, a), b)
    ensures Log(l, a + b) == Log(l, a) + Log(After(l, a), b)
    decreases |a|
  {
    hide Asked;
    if a == [] {
      assert a + b == b && [] + Log(l, b) == Log(l, b);
    } else {
      assert (a + b)[0] == a[0] && (a + b)[1..] == a[1..] + b;
      CallsJoin(Asked(l, a[0]).0, a[1..], b);
    }
  }

  /** In its unit a window counts the admissions of that unit. */
  lemma CountsUnit(s: SlidingWindow, log: seq<real>, start: real, asked: real, now: real)
    requires Remembers(s, log, start, asked) && asked <= now
    ensures var u := UnitOf(s.unitStart, now, s.unit);
            && Moved(s, now).unitStart == u && Moved(s, now).capacity == s.capacity && Moved(s, now).unit == s.unit
            && Moved(s, now).current == CountIn(log, u, u + s.unit)
  {
    UnitMoves(s, log, start, asked, now);
    var u := UnitOf(s.unitStart, now, s.unit);
    if s.last < u {
      NoneIn(log, u, u + s.unit);
    }
    hide UnitOf, Aligned, CountIn;
  }

  lemma Decision(s: SlidingWindow, now: real, u: real, n: nat, m: nat)
    requires s.unit > 0.0
    requires var t := Moved(s, now);
             t.unitStart == u && t.previous == n && t.current == m && t.unit == s.unit && t.capacity == s.capacity
    ensures SlidingAsked(s, now).1 <==> n as real * (1.0 - Share(u, now, s.unit)) + m as real < s.capacity as real
  {
    hide Moved, Share;
  }

  lemma JoinsThere(l: Limiter, before: seq<real>, now: real, between: seq<real>)
    requires Unit(l) > 0.0
    ensures After(l, before + [now] + between) == After(Asked(After(l, before), now).0, between)
  {
    hide Asked;
    CallsJoin(l, before + [now], between);
    CallsJoin(l, before, [now]);
    var m := After(l, before);
    assert [now][1..] == [] && After(m, [now]) == Asked(m, now).0;
  }

  lemma ForwardAll(before: seq<real>, start: real, now: real, between: seq<real>)
    requires Forward(before, start) && Forward(between, now) && start <= now
    requires forall i :: 0 <= i < |before| ==> before[i] <= now
    ensures Forward(before + [now] + between, start)
  {}

  lemma SameUnitLater(start: real, now: real, later: real, unit: real)
    requires unit > 0.0 && start <= now <= later < UnitOf(start, now, unit) + unit
    ensures UnitOf(start, later, unit) == UnitOf(start, now, unit)
  {
    AlignedWithItself(start, unit);
    AlignedMore(start, start, now, unit);
    UnitHolds(start, now, unit);
    UnitReached(start, UnitOf(start, now, unit), later, unit);
  }

  lemma WeighedThere(
    capacity: nat, unit: real, start: real, before: seq<real>, now: real, between: seq<real>, later: real)
    requires unit > 0.0 && capacity > 0 && start <= now && Forward(before, start) && Forward(between, now)
    requires forall i :: 0 <= i < |before| ==> before[i] < UnitOf(start, now, unit)
    requires now <= later < UnitOf(start, now, unit) + unit && forall i :: 0 <= i < |between| ==> between[i] <= later
    ensures var l := Asked(After(New(Sliding, capacity, unit, start), before), now).0;
            Moved(After(l, between).sliding, later).previous == Carried(capacity, unit, start, before, now)
  {
    UnitHolds(start, now, unit);
    FirstOfUnit(capacity, unit, start, before, now);
    var u, n := UnitOf(start, now, unit), Carried(capacity, unit, start, before, now);
    hide UnitOf, SlidingAsked, CountIn, Log, After, Weighs, Moved;
    var l := Asked(After(New(Sliding, capacity, unit, start), before), now).0;
    WeighsAll(l, u, n, between);
    WeighsOn(After(l, between).sliding, u, n, later);
  }

  /** Exactly when a sliding window admits a call behind the first of its unit: if what it
      weighs of the unit before, less the share of the unit that has passed, and the
      admissions of this unit leave room. */
  lemma SlidingExact(
    capacity: nat, unit: real, start: real, before: seq<real>, now: real, between: seq<real>, later: real)
    requires unit > 0.0 && capacity > 0 && start <= now && Forward(before, start) && Forward(between, now)
    requires forall i :: 0 <= i < |before| ==> before[i] < UnitOf(start, now, unit)
    requires now <= later < UnitOf(start, now, unit) + unit && forall i :: 0 <= i < |between| ==> between[i] <= later
    ensures var l, u := New(Sliding, capacity, unit, start), UnitOf(start, now, unit);
            var calls := before + [now] + between;
            var old', new' := Carried(capacity, unit, start, before, now), CountIn(Log(l, calls), u, u + unit);
            Asked(After(l, calls), later).1 <==>
              old' as real * (1.0 - Share(u, later, unit)) + new' as real < capacity as real
  {
    hide UnitOf, Carried, Moved, CountIn, Share, SlidingAsked, Log, After, Remembers, Weight;
    UnitHolds(start, now, unit);
    var l, u, calls := New(Sliding, capacity, unit, start), UnitOf(start, now, unit), before + [now] + between;
    var last := After(l, calls).sliding;
    var asked := if between == [] then now else between[|between| - 1];
    JoinsThere(l, before, now, between);
    ForwardAll(before, start, now, between);
    RunFromNew(capacity, unit, start, calls, asked);
    CountsUnit(last, Log(l, calls), start, asked, later);
    SameUnit(last, Log(l, calls), start, asked, later);
    SameUnitLater(start, now, later, unit);
    WeighedThere(capacity, unit, start, before, now, between, later);
    Decision(last, later, u, Carried(capacity, unit, start, before, now), CountIn(Log(l, calls), u, u + unit));
  }

  // The fixed window.

  /** The window of a call, opened at `w` or by the call itself, a unit or more behind. */
  function Opening(w: real, unit: real, now: real): real { if now - w >= unit then now else w }

  /** When the present window was opened: each is opened by the first call a unit or more
      behind the opening of the one before. */
  function OpenedAt(w: real, unit: real, times: seq<real>): real
    decreases |times|
  {
    if times == [] then w
    else OpenedAt(Opening(w, unit, times[0]), unit, times[1..])
  }

  /** The window counts the admissions since its opening. */
  predicate Counts(f: FixedWindow, log: seq<real>, asked: real) {
    && f.unit > 0.0 && f.last <= asked && f.current <= f.capacity
    && f.current == CountIn(log, f.last, f.last + f.unit)
    && forall i :: 0 <= i < |log| ==> log[i] < f.last + f.unit
  }

  predicate FixedFollows(f: FixedWindow, log: seq<real>, now: real) {
    var (f', ok) := FixedAsked(f, now);
    && Counts(f', if ok then log + [now] else log, now)
    && f'.last == Opening(f.last, f.unit, now) && f'.unit == f.unit && f'.capacity == f.capacity
    && (ok <==> CountIn(log, f'.last, f'.last + f.unit) < f.capacity)
  }

  lemma SameWindowStep(f: FixedWindow, log: seq<real>, asked: real, now: real)
    requires Counts(f, log, asked) && asked <= now < f.last + f.unit
    ensures FixedFollows(f, log, now)
  {
    CountMore(log, now, f.last, f.last + f.unit);
    hide CountIn;
  }

  lemma NewWindowStep(f: FixedWindow, log: seq<real>, asked: real, now: real)
    requires Counts(f, log, asked) && asked <= now && now >= f.last + f.unit
    ensures FixedFollows(f, log, now)
  {
    NoneIn(log, now, now + f.unit);
    CountMore(log, now, now, now + f.unit);
    hide CountIn;
  }

  lemma FixedStep(f: FixedWindow, log: seq<real>, asked: real, now: real)
    requires Counts(f, log, asked) && asked <= now
    ensures FixedFollows(f, log, now)
  {
    if now < f.last + f.unit {
      SameWindowStep(f, log, asked, now);
    } else {
      NewWindowStep(f, log, asked, now);
    }
    hide FixedFollows;
  }

  lemma ForwardRest(times: seq<real>, from: real)
    requires Forward(times, from) && times != []
    ensures from <= times[0] && Forward(times[1..], times[0])
  {}

  lemma AskedIsFixed(l: Limiter, t: real)
    requires l.OfFixed? && Unit(l) > 0.0
    ensures Asked(l, t) == (OfFixed(FixedAsked(l.fixed, t).0), FixedAsked(l.fixed, t).1)
  {}

  lemma CountsLater(f: FixedWindow, log: seq<real>, asked: real, now: real)
    requires Counts(f, log, asked) && asked <= now
    ensures Counts(f, log, now) && log + [] == log
  {}

  lemma {:induction false} FixedRun(l: Limiter, log: seq<real>, times: seq<real>, asked: real, now: real)
    requires l.OfFixed? && Unit(l) > 0.0 && Counts(l.fixed, log, asked) && Forward(times, asked)
    requires asked <= now && forall i :: 0 <= i < |times| ==> times[i] <= now
    ensures var r := After(l, times);
            && Counts(r.fixed, log + Log(l, times), now)
            && r.fixed.last == OpenedAt(l.fixed.last, l.fixed.unit, times)
            && r.fixed.capacity == l.fixed.capacity && r.fixed.unit == l.fixed.unit
    decreases |times|
  {
    hide Counts, FixedAsked, Asked, Forward, Opening, CountIn;
    if times == [] {
      CountsLater(l.fixed, log, asked, now);
    } else {
      var t := times[0];
      ForwardRest(times, asked);
      FixedStep(l.fixed, log, asked, t);
      AskedIsFixed(l, t);
      LogFront(l, log, times);
      var (l', ok) := Asked(l, t);
      FixedRun(l', if ok then log + [t] else log, times[1..], t, now);
    }
  }

  lemma FixedFromNew(capacity: nat, unit: real, start: real, times: seq<real>, now: real)
    requires unit > 0.0 && start <= now && Forward(times, start)
    requires forall i :: 0 <= i < |times| ==> times[i] <= now
    ensures var l := New(Fixed, capacity, unit, start);
            var f := After(l, times).fixed;
            && Counts(f, Log(l, times), now) && f.last == OpenedAt(start, unit, times)
            && f.capacity == capacity && f.unit == unit
  {
    var l := New(Fixed, capacity, unit, start);
    assert Counts(l.fixed, [], start);
    FixedRun(l, [], times, start, now);
    hide *;
    assert [] + Log(l, times) == Log(l, times);
  }

  /** Exactly when a fixed window admits a call: over every run from a new window, if and only
      if fewer calls than its capacity were admitted since the opening of the window that
      the call falls in. */
  lemma FixedExact(capacity: nat, unit: real, start: real, times: seq<real>, now: real)
    requires unit > 0.0 && start <= now && Forward(times, start)
    requires forall i :: 0 <= i < |times| ==> times[i] <= now
    ensures var l := New(Fixed, capacity, unit, start);
            var w := Opening(OpenedAt(start, unit, times), unit, now);
            Asked(After(l, times), now).1 <==> CountIn(Log(l, times), w, w + unit) < capacity
  {
    hide CountIn, Log, After, FixedAsked, Counts, OpenedAt, Opening;
    FixedFromNew(capacity, unit, start, times, now);
    var l := New(Fixed, capacity, unit, start);
    FixedStep(After(l, times).fixed, Log(l, times), now, now);
  }

  // The token bucket.

  /** More than `x` is left if so much flowed in, net of what was given out: from the state
      the bucket was in, and from each call on, if it had been full then. */
  predicate LeavesMore(b: TokenBucket, times: seq<real>, now: real, x: real)
    requires b.unit > 0.0
  {
    && b.capacity as real > x
    && b.tokens + Inflow(b.capacity, now - b.last, b.unit) - Admitted(OfBucket(b), times) as real > x
    && AllLeave(b, times, now, x)
  }

  /** What a bucket full at the j-th call has left at `now`. */
  function LeftSince(b: TokenBucket, times: seq<real>, j: nat, now: real): real
    requires b.unit > 0.0 && j < |times|
  {
    b.capacity as real + Inflow(b.capacity, now - times[j], b.unit)
    - Admitted(After(OfBucket(b), times[..j]), times[j..]) as real
  }

  lemma InflowAdds(capacity: nat, a: real, b: real, unit: real)
    requires unit > 0.0 && a >= 0.0
    ensures Inflow(capacity, a, unit) + Inflow(capacity, b, unit) == Inflow(capacity, a + b, unit)
  {
    InflowGrows(capacity, a, b, unit);
    hide Inflow;
  }

  lemma LeftFront(b: TokenBucket, times: seq<real>, j: nat, now: real)
    requires b.unit > 0.0 && j < |times| - 1
    ensures var b' := BucketAsked(b, times[0]).0;
            b'.unit > 0.0 && LeftSince(b', times[1..], j, now) == LeftSince(b, times, j + 1, now)
  {
    assert times[1..][..j] == times[..j + 1][1..] && times[1..][j..] == times[j + 1..];
    hide Inflow, Filled, Admitted;
  }

  predicate AllLeave(b: TokenBucket, times: seq<real>, now: real, x: real)
    requires b.unit > 0.0
  {
    forall j :: 0 <= j < |times| ==> LeftSince(b, times, j, now) > x
  }

  lemma AllLeaveFront(b: TokenBucket, times: seq<real>, now: real, x: real)
    requires b.unit > 0.0 && times != []
    ensures var b' := BucketAsked(b, times[0]).0;
            AllLeave(b, times, now, x) <==> LeftSince(b, times, 0, now) > x && AllLeave(b', times[1..], now, x)
  {
    var b', rest := BucketAsked(b, times[0]).0, times[1..];
    forall j | 0 <= j < |rest| ensures LeftSince(b', rest, j, now) == LeftSince(b, times, j + 1, now) {
      LeftFront(b, times, j, now);
    }
    hide LeftSince, BucketAsked;
    if LeftSince(b, times, 0, now) > x && AllLeave(b', rest, now, x) {
      forall j | 0 <= j < |times| ensures LeftSince(b, times, j, now) > x {
        if j > 0 {
          assert LeftSince(b', rest, j - 1, now) > x;
        }
      }
    }
  }

  lemma {:induction false} BucketLevel(b: TokenBucket, times: seq<real>, now: real, x: real)
    requires b.unit > 0.0 && Forward(times, b.last) && b.last <= now && forall i :: 0 <= i < |times| ==> times[i] <= now
    ensures Filled(After(OfBucket(b), times).bucket, now) > x <==> LeavesMore(b, times, now, x)
    decreases |times|
  {
    assert times == [] ==> AllLeave(b, times, now, x);
    hide Inflow, AllLeave;
    if times != [] {
      var t, rest := times[0], times[1..];
      var (b', ok) := BucketAsked(b, t);
      BucketLevel(b', rest, now, x);
      InflowAdds(b.capacity, t - b.last, now - t, b.unit);
      AllLeaveFront(b, times, now, x);
      assert times[..0] == [] && times[0..] == times;
      assert LeftSince(b, times, 0, now) ==
             b.capacity as real + Inflow(b.capacity, now - t, b.unit) - Admitted(OfBucket(b), times) as real;
      assert Admitted(OfBucket(b), times) == One(ok) + Admitted(OfBucket(b'), rest);
      hide LeftSince, Admitted, After;
    }
  }

  /** Exactly when a token bucket admits a call: over every run from a new bucket, if and only
      if more than one token is left at the call, counting what flowed in less what was given
      out, from the start and from each call on as if the bucket had been full then. */
  lemma BucketExact(capacity: nat, unit: real, start: real, times: seq<real>, now: real)
    requires unit > 0.0 && start <= now && Forward(times, start)
    requires forall i :: 0 <= i < |times| ==> times[i] <= now
    ensures var l := New(Bucket, capacity, unit, start);
            Asked(After(l, times), now).1 <==>
              && capacity > 1
              && capacity as real + Inflow(capacity, now - start, unit) - Admitted(l, times) as real > 1.0
              && forall j :: 0 <= j < |times| ==>
                   capacity as real + Inflow(capacity, now - times[j], unit)
                   - Admitted(After(l, times[..j]), times[j..]) as real > 1.0
  {
    var l := New(Bucket, capacity, unit, start);
    BucketLevel(l.bucket, times, now, 1.0);
    assert forall j :: 0 <= j < |times| ==>
             LeftSince(l.bucket, times, j, now) == capacity as real + Inflow(capacity, now - times[j], unit)
               - Admitted(After(l, times[..j]), times[j..]) as real;
    hide Inflow, Admitted, After, Filled;
  }
}
