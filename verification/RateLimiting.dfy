/** The limiter objects and the table of limiters that the server builds for its routes. */
module RateLimiting {
  import opened RateLimiters
  import opened RateRules
  import opened RateTable

  class TokenBucketRateLimiter {
    const capacity: nat
    const timeUnit: real
    var lastTime: real
    var tokens: real

    function State(): TokenBucket
      reads this
    {
      TokenBucket(capacity, timeUnit, lastTime, tokens)
    }

    constructor (capacity: nat, timeUnit: real, now: real)
      ensures OfBucket(State()) == New(Bucket, capacity, timeUnit, now)
    {
      this.capacity, this.timeUnit := capacity, timeUnit;
      lastTime, tokens := now, capacity as real;
    }

    method IsAllowed(now: real) returns (allowed: bool)
      requires timeUnit > 0.0
      modifies this
      ensures (State(), allowed) == BucketAsked(old(State()), now)
    {
      tokens := tokens + Inflow(capacity, now - lastTime, timeUnit);
      if tokens > capacity as real {
        tokens := capacity as real;
      }
      lastTime := now;
      if tokens > 1.0 {
        tokens := tokens - 1.0;
        return true;
      }
      return false;
    }
  }

  class FixedWindowRateLimiter {
    const capacity: nat
    const timeUnit: real
    var lastTime: real
    var currentRequests: nat

    function State(): FixedWindow
      reads this
    {
      FixedWindow(capacity, timeUnit, lastTime, currentRequests)
    }

    constructor (capacity: nat, timeUnit: real, now: real)
      ensures OfFixed(State()) == New(Fixed, capacity, timeUnit, now)
    {
      this.capacity, this.timeUnit := capacity, timeUnit;
      lastTime, currentRequests := now, 0;
    }

    method IsAllowed(now: real) returns (allowed: bool)
      modifies this
      ensures (State(), allowed) == FixedAsked(old(State()), now)
    {
      if now - lastTime >= timeUnit {
        currentRequests := 0;
        lastTime := now;
      }
      if currentRequests < capacity {
        currentRequests := currentRequests + 1;
        return true;
      }
      return false;
    }
  }

  class SlidingWindowRateLimiter {
    const capacity: nat
    const timeUnit: real
    var unitStartTime: real
    var lastTime: real
    var previousRequests: nat
    var currentRequests: nat

    function State(): SlidingWindow
      reads this
    {
      SlidingWindow(capacity, timeUnit, unitStartTime, lastTime, previousRequests, currentRequests)
    }

    constructor (capacity: nat, timeUnit: real, now: real)
      ensures OfSliding(State()) == New(Sliding, capacity, timeUnit, now)
    {
      this.capacity, this.timeUnit := capacity, timeUnit;
      unitStartTime, lastTime, previousRequests, currentRequests := now, now, 0, 0;
    }

    method IsAllowed(now: real) returns (allowed: bool)
      requires timeUnit > 0.0 && unitStartTime <= now
      modifies this
      ensures (State(), allowed) == SlidingAsked(old(State()), now)
    {
      MovedHolds(State(), now);
      unitStartTime := UnitOf(unitStartTime, now, timeUnit);
      if unitStartTime > lastTime {
        if unitStartTime - lastTime >= timeUnit {
          previousRequests := 0;
        } else {
          previousRequests := currentRequests;
        }
        currentRequests := 0;
      }
      var coef := Share(unitStartTime, now, timeUnit);
      assert coef <= 1.0;
      var count := previousRequests as real * (1.0 - coef) + currentRequests as real;
      if count < capacity as real {
        currentRequests := currentRequests + 1;
        lastTime := now;
        return true;
      }
      return false;
    }
  }

  /** The rules, the limiters made so far, and for each rule of global scope that has
      matched a route the limiter its routes share. */
  class Registry {
    const rules: seq<Rule>
    var shared: map<nat, nat>
    var limiters: seq<Limiter>

    function State(): Table
      reads this
    {
      Table(shared, limiters)
    }

    ghost predicate Valid()
      reads this
    {
      Proper(rules, State())
    }

    constructor (rules: seq<Rule>)
      ensures this.rules == rules && shared == map[] && limiters == [] && Valid()
    {
      this.rules := rules;
      shared, limiters := map[], [];
    }

    method Matches(rule: Rule, path: string) returns (match': bool)
      ensures match' == Applies(rule, path)
    {
      match' := rule.prefixes == [];
      if !match' {
        var i := 0;
        while i < |rule.prefixes|
          invariant 0 <= i <= |rule.prefixes|
          invariant forall j :: 0 <= j < i ==> !(rule.prefixes[j] <= path)
        {
          if |path| >= |rule.prefixes[i]| && path[..|rule.prefixes[i]|] == rule.prefixes[i] {
            return true;
          }
          i := i + 1;
        }
      }
    }

    /** The limiters of one route: for each rule that applies, in order, the shared limiter if
        the rule is global, otherwise a new one.  So a route has the shared limiter of a rule
        exactly if the rule applies to it, and the same one as every other such route. */
    method BuildLimitersForPath(path: string, now: real) returns (ids: seq<nat>)
      requires Valid()
      modifies this
      ensures (State(), ids) == Build(rules, old(State()), path, now, |rules|)
      ensures Valid() && Built(rules, old(State()), path, now, |rules|, State(), ids)
      ensures forall k :: k in shared && k !in old(shared) ==>
                Applies(rules[k], path) && limiters[shared[k]] == New(rules[k].kind, rules[k].capacity, rules[k].window, now)
      ensures |ids| == |Applying(rules, path, |rules|)|
      ensures Windows(rules) && Ticking(old(limiters)) ==> Ticking(limiters)
    {
      ids := [];
      var k := 0;
      while k < |rules|
        invariant 0 <= k <= |rules|
        invariant (State(), ids) == Build(rules, old(State()), path, now, k)
      {
        var more := AddRule(k, path, now);
        ids := ids + more;
        k := k + 1;
      }
      BuildServes(rules, old(State()), path, now, |rules|);
      if Windows(rules) && Ticking(old(limiters)) {
        BuildTicks(rules, old(State()), path, now, |rules|);
      }
    }

    /** What one rule adds to a route. */
    method AddRule(k: nat, path: string, now: real) returns (more: seq<nat>)
      requires k < |rules|
      modifies this
      ensures (State(), more) == Add(rules, old(State()), k, path, now)
    {
      var rule := rules[k];
      var applies := Matches(rule, path);
      if !applies {
        return [];
      }
      if rule.global {
        if k !in shared {
          shared := shared[k := |limiters|];
          limiters := limiters + [New(rule.kind, rule.capacity, rule.window, now)];
        }
        return [shared[k]];
      }
      limiters := limiters + [New(rule.kind, rule.capacity, rule.window, now)];
      return [|limiters| - 1];
    }

    /** All routes, before the server takes requests. */
    method InstallRoutes(paths: seq<string>, times: seq<real>) returns (routes: seq<seq<nat>>)
      requires State() == EMPTY && |times| == |paths|
      modifies this
      ensures (State(), routes) == Install(rules, paths, times)
      ensures Installed(rules, paths, times, State(), routes)
      ensures Windows(rules) ==> Ticking(limiters)
    {
      routes := [];
      var i := 0;
      while i < |paths|
        invariant 0 <= i <= |paths|
        invariant (State(), routes) == Install(rules, paths[..i], times[..i])
        invariant Valid()
      {
        var ids := BuildLimitersForPath(paths[i], times[i]);
        assert paths[..i + 1][..i] == paths[..i] && times[..i + 1][..i] == times[..i];
        routes := routes + [ids];
        i := i + 1;
      }
      assert paths[..i] == paths && times[..i] == times;
      InstallServes(rules, paths, times);
      if Windows(rules) {
        InstallTicks(rules, paths, times);
      }
    }

    /** Ask the route's limiters until one refuses; each reads the clock for itself. */
    method CheckRateLimits(ids: seq<nat>, times: seq<real>) returns (ok: bool)
      requires Ticking(limiters) && InTable(ids, |limiters|) && |times| == |ids|
      modifies this`limiters
      ensures (limiters, ok) == Check(old(limiters), ids, times)
    {
      var i := 0;
      assert ids[0..] == ids && times[0..] == times;
      while i < |ids|
        invariant 0 <= i <= |ids| && |limiters| == |old(limiters)| && Ticking(limiters)
        invariant InTable(ids[i..], |limiters|)
        invariant Check(limiters, ids[i..], times[i..]) == Check(old(limiters), ids, times)
      {
        var (l, allowed) := Asked(limiters[ids[i]], times[i]);
        assert ids[i..][1..] == ids[i + 1..] && times[i..][1..] == times[i + 1..];
        limiters := limiters[ids[i] := l];
        if !allowed {
          return false;
        }
        i := i + 1;
      }
      return true;
    }
  }
}
