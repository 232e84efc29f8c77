/** The table of limiters that the server builds for its routes, and what it means for a
    rule and all the routes it applies to. */
module RateTable {
  import opened Text
  import opened Runs
  import opened RateLimiters
  import opened RateRules

  /** The limiters made so far, and for each rule of global scope that has matched a route
      the limiter its routes share. */
  datatype Table = Table(shared: map<nat, nat>, limiters: seq<Limiter>)

  const EMPTY := Table(map[], [])

  function NewFor(rule: Rule, now: real): Limiter {
    New(rule.kind, rule.capacity, rule.window, now)
  }

  /** What one rule adds to a route's limiters. */
  function Add(rules: seq<Rule>, t: Table, k: nat, path: string, now: real): (Table, seq<nat>)
    requires k < |rules|
  {
    if !Applies(rules[k], path) then (t, [])
    else if rules[k].global && k in t.shared then (t, [t.shared[k]])
    else
      (Table(if rules[k].global then t.shared[k := |t.limiters|] else t.shared, t.limiters + [NewFor(rules[k], now)]),
       [|t.limiters|])
  }

  /** The table and the limiters of a route after its first `n` rules. */
  function Build(rules: seq<Rule>, t: Table, path: string, now: real, n: nat): (Table, seq<nat>)
    requires n <= |rules|
  {
    if n == 0 then (t, [])
    else
      var (t1, ids) := Build(rules, t, path, now, n - 1);
      var (t2, more) := Add(rules, t1, n - 1, path, now);
      (t2, ids + more)
  }

  /** All routes, one after the other, each at its time. */
  function Install(rules: seq<Rule>, paths: seq<string>, times: seq<real>): (r: (Table, seq<seq<nat>>))
    requires |times| == |paths|
    ensures |r.1| == |paths|
    decreases |paths|
  {
    if paths == [] then (EMPTY, [])
    else
      var n := |paths| - 1;
      var (t, routes) := Install(rules, paths[..n], times[..n]);
      var (t', ids) := Build(rules, t, paths[n], times[n], |rules|);
      (t', routes + [ids])
  }

  // What a route gets.

  /** The rules among the first `n` that apply to a path, in order. */
  function Applying(rules: seq<Rule>, path: string, n: nat): seq<nat>
    requires n <= |rules|
  {
    if n == 0 then []
    else Applying(rules, path, n - 1) + if Applies(rules[n - 1], path) then [n - 1] else []
  }

  /** Limiter `g` is the one rule `k` gives to a route built at `now` on top of `before`
      limiters: the shared one, or one made for this route alone. */
  predicate Serves(rules: seq<Rule>, t: Table, k: nat, g: nat, before: nat, now: real) {
    && k < |rules| && g < |t.limiters|
    && if rules[k].global then k in t.shared && t.shared[k] == g
       else g >= before && t.limiters[g] == NewFor(rules[k], now) && forall j :: j in t.shared ==> t.shared[j] != g
  }

  predicate Proper(rules: seq<Rule>, t: Table) {
    && (forall k :: k in t.shared ==> k < |rules| && rules[k].global && t.shared[k] < |t.limiters|)
    && (forall j, k :: j in t.shared && k in t.shared && j != k ==> t.shared[j] != t.shared[k])
  }

  /** Nothing made before is changed; what is newly shared is new. */
  predicate Extends(rules: seq<Rule>, t: Table, t': Table, now: real) {
    && t.limiters <= t'.limiters
    && (forall k :: k in t.shared ==> k in t'.shared && t'.shared[k] == t.shared[k])
    && (forall k :: k in t'.shared && k !in t.shared ==>
          && k < |rules| && |t.limiters| <= t'.shared[k] < |t'.limiters|
          && t'.limiters[t'.shared[k]] == NewFor(rules[k], now))
  }

  predicate ServedInOrder(rules: seq<Rule>, t: Table, ks: seq<nat>, ids: seq<nat>, before: nat, now: real) {
    |ids| == |ks| && forall p :: 0 <= p < |ks| ==> Serves(rules, t, ks[p], ids[p], before, now)
  }

  /** A route has the limiter shared under a rule exactly if the rule is among the first `n`
      and applies to it. */
  predicate SharesExactly(rules: seq<Rule>, t: Table, path: string, ids: seq<nat>, n: nat) {
    && (forall k :: k in t.shared && k < |rules| ==> (t.shared[k] in ids <==> k < n && Applies(rules[k], path)))
    && (forall k :: 0 <= k < n && k < |rules| && rules[k].global && Applies(rules[k], path) ==> k in t.shared)
  }

  /** What building a route's limiters brings about, after its first `n` rules. */
  predicate Built(rules: seq<Rule>, t: Table, path: string, now: real, n: nat, t': Table, ids: seq<nat>) {
    && n <= |rules| && Proper(rules, t') && Extends(rules, t, t', now)
    && (forall k :: k in t'.shared && k !in t.shared ==> k < n && Applies(rules[k], path))
    && InTable(ids, |t'.limiters|)
    && ServedInOrder(rules, t', Applying(rules, path, n), ids, |t.limiters|, now)
    && SharesExactly(rules, t', path, ids, n)
  }

  lemma ExtendsMore(rules: seq<Rule>, t: Table, t1: Table, t2: Table, now: real)
    requires Extends(rules, t, t1, now) && Extends(rules, t1, t2, now)
    ensures Extends(rules, t, t2, now)
  {}

  lemma AddExtends(rules: seq<Rule>, t1: Table, k: nat, path: string, now: real)
    requires k < |rules| && Proper(rules, t1)
    ensures var t2 := Add(rules, t1, k, path, now).0;
            && Proper(rules, t2) && Extends(rules, t1, t2, now)
            && (forall j :: j in t2.shared && j !in t1.shared ==> j == k && Applies(rules[k], path))
  {
    hide Applies, NewFor;
  }

  /** A limiter goes on serving its rule, whatever routes come later. */
  lemma ServesLater(rules: seq<Rule>, t: Table, t': Table, k: nat, g: nat, before: nat, now: real, later: real)
    requires Serves(rules, t, k, g, before, now) && Extends(rules, t, t', later)
    ensures Serves(rules, t', k, g, before, now)
  {}

  lemma AddServed(rules: seq<Rule>, t: Table, t1: Table, k: nat, path: string, now: real, ids: seq<nat>)
    requires k < |rules| && Proper(rules, t1) && t.limiters <= t1.limiters
    requires ServedInOrder(rules, t1, Applying(rules, path, k), ids, |t.limiters|, now)
    ensures var (t2, more) := Add(rules, t1, k, path, now);
            ServedInOrder(rules, t2, Applying(rules, path, k + 1), ids + more, |t.limiters|, now)
  {
    var (t2, more) := Add(rules, t1, k, path, now);
    var ks := Applying(rules, path, k);
    assert more != [] ==> Serves(rules, t2, k, more[0], |t.limiters|, now);
    AddExtends(rules, t1, k, path, now);
    hide Applies, Proper, Serves, Extends;
    forall p | 0 <= p < |ks|
      ensures Serves(rules, t2, ks[p], ids[p], |t.limiters|, now)
    {
      ServesLater(rules, t1, t2, ks[p], ids[p], |t.limiters|, now, now);
    }
  }

  lemma AddShares(rules: seq<Rule>, t1: Table, k: nat, path: string, now: real, ids: seq<nat>)
    requires k < |rules| && Proper(rules, t1)
    requires InTable(ids, |t1.limiters|) && SharesExactly(rules, t1, path, ids, k)
    ensures var (t2, more) := Add(rules, t1, k, path, now);
            InTable(ids + more, |t2.limiters|) && SharesExactly(rules, t2, path, ids + more, k + 1)
  {
    hide Applies, NewFor;
  }

  lemma AddBuilds(rules: seq<Rule>, t: Table, path: string, now: real, k: nat, t1: Table, ids: seq<nat>)
    requires k < |rules| && Built(rules, t, path, now, k, t1, ids)
    ensures var (t2, more) := Add(rules, t1, k, path, now);
            Built(rules, t, path, now, k + 1, t2, ids + more)
  {
    AddExtends(rules, t1, k, path, now);
    ExtendsMore(rules, t, t1, Add(rules, t1, k, path, now).0, now);
    AddServed(rules, t, t1, k, path, now, ids);
    AddShares(rules, t1, k, path, now, ids);
    hide Add, Proper, InTable, ServedInOrder, SharesExactly;
  }

  /** The limiters of a route are those of the rules that apply to it, in order: the shared
      one of a global rule, a new one of any other.  A limiter shared under a rule is the
      route's exactly if the rule applies; one not shared before is new, as its rule says. */
  lemma {:induction false} BuildServes(rules: seq<Rule>, t: Table, path: string, now: real, n: nat)
    requires n <= |rules| && Proper(rules, t)
    ensures var (t', ids) := Build(rules, t, path, now, n);
            Built(rules, t, path, now, n, t', ids)
  {
    if n > 0 {
      BuildServes(rules, t, path, now, n - 1);
      var (t1, ids) := Build(rules, t, path, now, n - 1);
      AddBuilds(rules, t, path, now, n - 1, t1, ids);
      hide Built, Add;
    }
  }

  predicate Windows(rules: seq<Rule>) {
    forall k :: 0 <= k < |rules| ==> rules[k].window > 0.0
  }

  lemma {:induction false} BuildTicks(rules: seq<Rule>, t: Table, path: string, now: real, n: nat)
    requires n <= |rules| && Windows(rules) && Ticking(t.limiters)
    ensures Ticking(Build(rules, t, path, now, n).0.limiters)
  {
    if n > 0 {
      BuildTicks(rules, t, path, now, n - 1);
      hide Applies;
    }
  }

  // All routes.

  /** The first path a rule applies to. */
  function First(rule: Rule, paths: seq<string>): (r: nat)
    ensures r <= |paths|
    ensures forall i :: 0 <= i < r ==> !Applies(rule, paths[i])
    ensures r < |paths| ==> Applies(rule, paths[r])
    decreases |paths|
  {
    if paths == [] then 0
    else
      var n := |paths| - 1;
      var r := First(rule, paths[..n]);
      if r < n || Applies(rule, paths[n]) then r else |paths|
  }

  /** The limiter shared under a rule is the one made for the first route it applies to. */
  predicate SharedFromFirst(rules: seq<Rule>, paths: seq<string>, times: seq<real>, t: Table)
    requires |times| == |paths|
  {
    && (forall k :: 0 <= k < |rules| && rules[k].global && First(rules[k], paths) < |paths| ==> k in t.shared)
    && (forall k :: k in t.shared ==>
          && k < |rules| && First(rules[k], paths) < |paths| && t.shared[k] < |t.limiters|
          && t.limiters[t.shared[k]] == NewFor(rules[k], times[First(rules[k], paths)]))
  }

  predicate RouteServed(rules: seq<Rule>, t: Table, path: string, ids: seq<nat>, now: real) {
    && InTable(ids, |t.limiters|)
    && ServedInOrder(rules, t, Applying(rules, path, |rules|), ids, 0, now)
    && (forall k :: k in t.shared && k < |rules| ==> (t.shared[k] in ids <==> Applies(rules[k], path)))
  }

  /** A limiter of a rule that is not global belongs to one route only. */
  predicate Own(rules: seq<Rule>, path: string, ids: seq<nat>, others: seq<nat>) {
    var ks := Applying(rules, path, |rules|);
    forall p :: 0 <= p < |ks| && p < |ids| && ks[p] < |rules| && !rules[ks[p]].global ==> ids[p] !in others
  }

  predicate Installed(rules: seq<Rule>, paths: seq<string>, times: seq<real>, t: Table, routes: seq<seq<nat>>) {
    && |paths| == |times| == |routes| && Proper(rules, t)
    && SharedFromFirst(rules, paths, times, t)
    && (forall r :: 0 <= r < |routes| ==> RouteServed(rules, t, paths[r], routes[r], times[r]))
    && (forall r, q :: 0 <= r < |routes| && 0 <= q < |routes| && r != q ==> Own(rules, paths[r], routes[r], routes[q]))
  }

  lemma RouteServedLater(rules: seq<Rule>, t: Table, t': Table, path: string, ids: seq<nat>, now: real, later: real)
    requires RouteServed(rules, t, path, ids, now) && Extends(rules, t, t', later)
    requires forall k :: 0 <= k < |rules| && rules[k].global && Applies(rules[k], path) ==> k in t.shared
    requires Proper(rules, t')
    ensures RouteServed(rules, t', path, ids, now)
  {
    var ks := Applying(rules, path, |rules|);
    forall p | 0 <= p < |ks|
      ensures Serves(rules, t', ks[p], ids[p], 0, now)
    {
      ServesLater(rules, t, t', ks[p], ids[p], 0, now, later);
    }
    hide Serves, Applies, NewFor, Applying;
  }

  lemma SharedStep(
    rules: seq<Rule>, paths: seq<string>, times: seq<real>, t: Table, path: string, now: real, t': Table, ids: seq<nat>)
    requires |times| == |paths| && SharedFromFirst(rules, paths, times, t)
    requires Built(rules, t, path, now, |rules|, t', ids)
    ensures SharedFromFirst(rules, paths + [path], times + [now], t')
  {
    hide Applies, NewFor, Applying, ServedInOrder, InTable;
    forall k | 0 <= k < |rules|
      ensures var r := First(rules[k], paths);
              First(rules[k], paths + [path]) == if r < |paths| || Applies(rules[k], path) then r else |paths| + 1
    {
      assert (paths + [path])[..|paths|] == paths;
    }
    hide First;
  }

  lemma RouteBuilt(rules: seq<Rule>, t: Table, path: string, now: real, t': Table, ids: seq<nat>)
    requires Built(rules, t, path, now, |rules|, t', ids)
    ensures RouteServed(rules, t', path, ids, now)
  {
    hide Applies, NewFor, Applying, Proper, Extends;
  }

  /** The limiters of a new route's own are not those of an earlier one, nor the other way. */
  lemma OwnBoth(
    rules: seq<Rule>, t: Table, early: string, ids: seq<nat>, then': real, path: string, now: real, t': Table, new': seq<nat>)
    requires RouteServed(rules, t', early, ids, then') && InTable(ids, |t.limiters|)
    requires Built(rules, t, path, now, |rules|, t', new')
    ensures Own(rules, early, ids, new') && Own(rules, path, new', ids)
  {
    var ks, js := Applying(rules, early, |rules|), Applying(rules, path, |rules|);
    hide Applies, NewFor, Applying, Proper, Extends, SharesExactly;
    forall p, q | 0 <= p < |ks| && 0 <= q < |js|
      ensures !rules[ks[p]].global || !rules[js[q]].global ==> ids[p] != new'[q]
    {
      assert Serves(rules, t', ks[p], ids[p], 0, then');
      assert Serves(rules, t', js[q], new'[q], |t.limiters|, now);
    }
  }

  lemma InstallStep(
    rules: seq<Rule>, paths: seq<string>, times: seq<real>, t: Table, routes: seq<seq<nat>>,
    path: string, now: real, t': Table, ids: seq<nat>)
    requires Installed(rules, paths, times, t, routes) && Built(rules, t, path, now, |rules|, t', ids)
    ensures Installed(rules, paths + [path], times + [now], t', routes + [ids])
  {
    SharedStep(rules, paths, times, t, path, now, t', ids);
    RouteBuilt(rules, t, path, now, t', ids);
    forall r | 0 <= r < |routes|
      ensures RouteServed(rules, t', paths[r], routes[r], times[r])
      ensures Own(rules, paths[r], routes[r], ids) && Own(rules, path, ids, routes[r])
    {
      hide Applies, NewFor, Applying, ServedInOrder, Own;
      RouteServedLater(rules, t, t', paths[r], routes[r], times[r], now);
      OwnBoth(rules, t, paths[r], routes[r], times[r], path, now, t', ids);
    }
    hide Own, RouteServed, SharedFromFirst, Extends, SharesExactly, InTable, ServedInOrder;
  }

  lemma NothingInstalled(rules: seq<Rule>)
    ensures Installed(rules, [], [], EMPTY, [])
  {}

  lemma BuiltNext(
    rules: seq<Rule>, paths: seq<string>, times: seq<real>, t: Table, routes: seq<seq<nat>>, path: string, now: real)
    requires Installed(rules, paths, times, t, routes)
    ensures var (t', ids) := Build(rules, t, path, now, |rules|);
            Installed(rules, paths + [path], times + [now], t', routes + [ids])
  {
    BuildServes(rules, t, path, now, |rules|);
    var (t', ids) := Build(rules, t, path, now, |rules|);
    hide *;
    InstallStep(rules, paths, times, t, routes, path, now, t', ids);
  }

  /** What the routes get, whatever the rules: the limiters of the rules that apply, in
      order; under a global rule one limiter, made with the first route it applies to, for
      exactly the routes it applies to; under any other rule a limiter that no other route
      has. */
  lemma {:induction false} InstallServes(rules: seq<Rule>, paths: seq<string>, times: seq<real>)
    requires |times| == |paths|
    ensures var (t, routes) := Install(rules, paths, times);
            Installed(rules, paths, times, t, routes)
    decreases |paths|
  {
    hide Installed, Build;
    if paths == [] {
      NothingInstalled(rules);
    } else {
      var n := |paths| - 1;
      var (t, routes) := Install(rules, paths[..n], times[..n]);
      InstallServes(rules, paths[..n], times[..n]);
      BuiltNext(rules, paths[..n], times[..n], t, routes, paths[n], times[n]);
      assert paths[..n] + [paths[n]] == paths && times[..n] + [times[n]] == times;
    }
  }

  lemma {:induction false} InstallTicks(rules: seq<Rule>, paths: seq<string>, times: seq<real>)
    requires |times| == |paths| && Windows(rules)
    ensures Ticking(Install(rules, paths, times).0.limiters)
    decreases |paths|
  {
    if paths != [] {
      var n := |paths| - 1;
      InstallTicks(rules, paths[..n], times[..n]);
      BuildTicks(rules, Install(rules, paths[..n], times[..n]).0, paths[n], times[n], |rules|);
      hide Build, Ticking;
    }
  }

  /** The routes that count together under rule `k` with route `r`: all that a global rule
      applies to, otherwise the route alone. */
  function Together(rules: seq<Rule>, k: nat, paths: seq<string>, r: nat): set<nat>
    requires k < |rules|
  {
    if rules[k].global then set q: nat | q < |paths| && Applies(rules[k], paths[q]) else {r}
  }

  /** The route with which their limiter is made. */
  function MadeWith(rules: seq<Rule>, k: nat, paths: seq<string>, r: nat): (q: nat)
    requires k < |rules| && r < |paths| && Applies(rules[k], paths[r])
    ensures q < |paths|
  {
    if rules[k].global then First(rules[k], paths) else r
  }

  lemma {:induction false} AppliesAt(rules: seq<Rule>, path: string, n: nat, k: nat) returns (p: nat)
    requires k < n <= |rules| && Applies(rules[k], path)
    ensures p < |Applying(rules, path, n)| && Applying(rules, path, n)[p] == k
  {
    hide Applies;
    if k == n - 1 {
      p := |Applying(rules, path, n - 1)|;
    } else {
      p := AppliesAt(rules, path, n - 1, k);
    }
  }

  /** Some limiter is exactly that of the routes that count together. */
  lemma LimiterOf(
    rules: seq<Rule>, k: nat, paths: seq<string>, times: seq<real>, r: nat, t: Table, routes: seq<seq<nat>>) returns (g: nat)
    requires k < |rules| && r < |paths| && Applies(rules[k], paths[r])
    requires Installed(rules, paths, times, t, routes)
    ensures g < |t.limiters| && t.limiters[g] == NewFor(rules[k], times[MadeWith(rules, k, paths, r)])
    ensures forall q :: 0 <= q < |routes| ==> (g in routes[q] <==> q in Together(rules, k, paths, r))
  {
    var p := AppliesAt(rules, paths[r], |rules|, k);
    g := routes[r][p];
    assert RouteServed(rules, t, paths[r], routes[r], times[r]);
    assert Serves(rules, t, k, g, 0, times[r]);
    if rules[k].global {
      forall q | 0 <= q < |routes|
        ensures g in routes[q] <==> q in Together(rules, k, paths, r)
      {
        assert RouteServed(rules, t, paths[q], routes[q], times[q]);
      }
    } else {
      forall q | 0 <= q < |routes|
        ensures g in routes[q] <==> q == r
      {
        assert q != r ==> Own(rules, paths[r], routes[r], routes[q]);
      }
    }
  }

  lemma InstalledIn(rules: seq<Rule>, paths: seq<string>, times: seq<real>, t: Table, routes: seq<seq<nat>>)
    requires Installed(rules, paths, times, t, routes)
    ensures AllInTable(routes, |t.limiters|)
  {
    forall r | 0 <= r < |routes|
      ensures InTable(routes[r], |t.limiters|)
    {
      assert RouteServed(rules, t, paths[r], routes[r], times[r]);
    }
  }

  // Requests to the routes.

  /** How many requests of some of the routes have passed? */
  function PassedOn(routes: seq<seq<nat>>, requests: seq<Arrival>, of: set<nat>): nat
    requires AllInOrder(routes, requests)
  {
    if requests == [] then 0
    else
      var n := |requests| - 1;
      PassedOn(routes, requests[..n], of) + One(Passes(routes, requests[n]) && requests[n].route in of)
  }

  /** Each of them was admitted by the limiter of those routes. */
  lemma {:induction false} PassedIsThrough(routes: seq<seq<nat>>, requests: seq<Arrival>, of: set<nat>, g: nat)
    requires AllInOrder(routes, requests)
    requires forall q :: 0 <= q < |routes| ==> (g in routes[q] <==> q in of)
    ensures PassedOn(routes, requests, of) <= Through(routes, requests, g)
  {
    if requests != [] {
      var n := |requests| - 1;
      PassedIsThrough(routes, requests[..n], of, g);
      var x := requests[n];
      assert Passes(routes, x) ==> routes[x.route][..x.done] == routes[x.route];
    }
  }

  /** Requests only get further, and more come. */
  predicate Further(a: seq<Arrival>, b: seq<Arrival>) {
    |a| <= |b| && forall r :: 0 <= r < |a| ==> a[r].route == b[r].route && a[r].done <= b[r].done
  }

  lemma {:induction false} RunFurther(s: Server, events: seq<Event>)
    requires Run(Step, s, events).Some?
    ensures Further(s.requests, Run(Step, s, events).value.requests)
    decreases |events|
  {
    if events != [] {
      var s' := Next(s, events[0]);
      assert Further(s.requests, s'.requests);
      hide Next, Enabled, Sane;
      RunFurther(s', events[1..]);
    }
  }

  lemma {:induction false} ThroughFurther(routes: seq<seq<nat>>, a: seq<Arrival>, b: seq<Arrival>, g: nat)
    requires Further(a, b) && AllInOrder(routes, a) && AllInOrder(routes, b)
    ensures Through(routes, a, g) + Through(routes, b[|a|..], g) <= Through(routes, b, g)
    decreases |b|
  {
    if b != [] {
      var n := |b| - 1;
      if |a| == |b| {
        ThroughFurther(routes, a[..n], b[..n], g);
        assert AdmittedBy(routes, a[n], g) ==> AdmittedBy(routes, b[n], g);
        assert b[|a|..] == [] && b[..n][n..] == [];
      } else {
        ThroughFurther(routes, a, b[..n], g);
        assert b[|a|..][..n - |a|] == b[..n][|a|..];
      }
    }
  }

  lemma FewerWithin(kind: Kind, capacity: nat, unit: real, start: real, s: real, t: real, more: nat, fewer: nat)
    requires unit > 0.0 && fewer <= more && WithinRule(kind, capacity, unit, start, s, t, more)
    ensures WithinRule(kind, capacity, unit, start, s, t, fewer)
  {
    hide Allowance, Aligned;
  }

  /** The server as it opens. */
  function Opened(rules: seq<Rule>, paths: seq<string>, times: seq<real>): Server
    requires |times| == |paths|
  {
    var (table, routes) := Install(rules, paths, times);
    Server(routes, table.limiters, [])
  }

  lemma OpenedIsSane(rules: seq<Rule>, paths: seq<string>, times: seq<real>)
    requires |times| == |paths| && Windows(rules)
    ensures Sane(Opened(rules, paths, times))
  {
    InstallServes(rules, paths, times);
    InstallTicks(rules, paths, times);
    var (table, routes) := Install(rules, paths, times);
    InstalledIn(rules, paths, times, table, routes);
    hide Install, Installed;
  }

  lemma OneLimiter(
    server: Server, before: seq<Event>, during: seq<Event>, of: set<nat>, g: nat,
    rule: Rule, start: real, ready: real, s: real, t: real)
    requires Sane(server) && g < |server.table| && rule.window > 0.0 && server.table[g] == NewFor(rule, start)
    requires forall q :: 0 <= q < |server.routes| ==> (g in server.routes[q] <==> q in of)
    requires Run(Step, server, before).Some? && Run(Step, Run(Step, server, before).value, during).Some?
    requires start <= ready <= s <= t && Within(before, ready, s) && Within(during, s, t)
    ensures var then' := Run(Step, server, before).value;
            var now := Run(Step, then', during).value;
            && |then'.requests| <= |now.requests| && AllInOrder(now.routes, now.requests)
            && WithinRule(rule.kind, rule.capacity, rule.window, start, s, t,
                          PassedOn(now.routes, now.requests[|then'.requests|..], of))
  {
    var then' := Run(Step, server, before).value;
    var now := Run(Step, then', during).value;
    AdmittedOnce(server, before, g);
    AdmittedOnce(then', during, g);
    RunFurther(then', during);
    var late := now.requests[|then'.requests|..];
    assert AllInOrder(now.routes, late) && AllInOrder(now.routes, then'.requests) && AllInOrder(now.routes, now.requests);
    hide Run, Step, Through, PassedOn, WithinRule, Sane, Times;
    RuleKept(server, before, during, g, rule.kind, rule.capacity, rule.window, start, s, t);
    ThroughFurther(now.routes, then'.requests, now.requests, g);
    PassedIsThrough(now.routes, late, of, g);
    var admitted := Through(now.routes, now.requests, g) - Through(now.routes, then'.requests, g);
    FewerWithin(rule.kind, rule.capacity, rule.window, start, s, t, admitted, PassedOn(now.routes, late, of));
  }

  /** What a rule promises, for all rules, routes and runs: from the time the server is ready,
      whatever came before, whatever other limiters the routes have, and however the checks
      of any number of requests interleave, the requests that arrive at the routes counting
      together under a rule, and pass, stay within it. */
  lemma RuleOverRoutes(
    rules: seq<Rule>, k: nat, paths: seq<string>, times: seq<real>, r: nat,
    before: seq<Event>, during: seq<Event>, ready: real, s: real, t: real)
    requires Windows(rules) && k < |rules| && |times| == |paths|
    requires r < |paths| && Applies(rules[k], paths[r])
    requires forall i :: 0 <= i < |times| ==> times[i] <= ready
    requires Run(Step, Opened(rules, paths, times), before).Some?
    requires Run(Step, Run(Step, Opened(rules, paths, times), before).value, during).Some?
    requires ready <= s <= t && Within(before, ready, s) && Within(during, s, t)
    ensures var then' := Run(Step, Opened(rules, paths, times), before).value;
            var now := Run(Step, then', during).value;
            var start := times[MadeWith(rules, k, paths, r)];
            && |then'.requests| <= |now.requests| && AllInOrder(now.routes, now.requests)
            && WithinRule(rules[k].kind, rules[k].capacity, rules[k].window, start, s, t,
                          PassedOn(now.routes, now.requests[|then'.requests|..], Together(rules, k, paths, r)))
  {
    var server := Opened(rules, paths, times);
    OpenedIsSane(rules, paths, times);
    InstallServes(rules, paths, times);
    var (table, routes) := Install(rules, paths, times);
    var g := LimiterOf(rules, k, paths, times, r, table, routes);
    hide Install, Installed, Applies;
    OneLimiter(server, before, during, Together(rules, k, paths, r), g, rules[k],
               times[MadeWith(rules, k, paths, r)], ready, s, t);
  }
}
