/** The three rate limiters, over real time.  A limiter is asked at times that never go
    back; `Admitted` counts how often it says yes. */
module RateLimiters {

  datatype TokenBucket = TokenBucket(capacity: nat, unit: real, last: real, tokens: real)

  datatype FixedWindow = FixedWindow(capacity: nat, unit: real, last: real, current: nat)

  datatype SlidingWindow =
    SlidingWindow(capacity: nat, unit: real, unitStart: real, last: real, previous: nat, current: nat)

  datatype Limiter = OfBucket(bucket: TokenBucket) | OfFixed(fixed: FixedWindow) | OfSliding(sliding: SlidingWindow)

  datatype Kind = Bucket | Fixed | Sliding

  function New(kind: Kind, capacity: nat, unit: real, now: real): Limiter {
    match kind
    case Bucket => OfBucket(TokenBucket(capacity, unit, now, capacity as real))
    case Fixed => OfFixed(FixedWindow(capacity, unit, now, 0))
    case Sliding => OfSliding(SlidingWindow(capacity, unit, now, now, 0, 0))
  }

  function Capacity(l: Limiter): nat {
    match l case OfBucket(b) => b.capacity case OfFixed(f) => f.capacity case OfSliding(s) => s.capacity
  }

  function Unit(l: Limiter): real {
    match l case OfBucket(b) => b.unit case OfFixed(f) => f.unit case OfSliding(s) => s.unit
  }

  // `isAllowed` of each.

  /** The tokens that flow into a bucket in a time. */
  function Inflow(capacity: nat, time: real, unit: real): real
    requires unit > 0.0
  {
    capacity as real * (time / unit)
  }

  /** capacity * (1 + time / unit). */
  function Allowance(capacity: nat, time: real, unit: real): real
    requires unit > 0.0
  {
    capacity as real * (1.0 + time / unit)
  }

  function Filled(b: TokenBucket, now: real): real
    requires b.unit > 0.0
  {
    var tokens := b.tokens + Inflow(b.capacity, now - b.last, b.unit);
    if tokens > b.capacity as real then b.capacity as real else tokens
  }

  function BucketAsked(b: TokenBucket, now: real): (TokenBucket, bool)
    requires b.unit > 0.0
  {
    var tokens := Filled(b, now);
    if tokens > 1.0 then (b.(last := now, tokens := tokens - 1.0), true) else (b.(last := now, tokens := tokens), false)
  }

  function FixedAsked(f: FixedWindow, now: real): (FixedWindow, bool) {
    var f := if now - f.last >= f.unit then f.(current := 0, last := now) else f;
    if f.current < f.capacity then (f.(current := f.current + 1), true) else (f, false)
  }

  function Mul(a: real, b: real): real { a * b }

  /** The start of the unit that `now` falls in, counted from an earlier start. */
  function UnitOf(start: real, now: real, unit: real): real
    requires unit > 0.0
  {
    start + Mul(((now - start) / unit).Floor as real, unit)
  }

  /** The counts are moved on when the unit is later than the last admission. */
  function Moved(s: SlidingWindow, now: real): SlidingWindow
    requires s.unit > 0.0
  {
    var s := s.(unitStart := UnitOf(s.unitStart, now, s.unit));
    if s.unitStart > s.last then
      s.(previous := if s.unitStart - s.last >= s.unit then 0 else s.current, current := 0)
    else s
  }

  /** How far into its unit a time is, as a fraction of the unit. */
  function Share(start: real, now: real, unit: real): real
    requires unit > 0.0
  {
    (now - start) / unit
  }

  function Weight(s: SlidingWindow, now: real): real
    requires s.unit > 0.0
  {
    s.previous as real * (1.0 - Share(s.unitStart, now, s.unit)) + s.current as real
  }

  function SlidingAsked(s: SlidingWindow, now: real): (SlidingWindow, bool)
    requires s.unit > 0.0
  {
    var s := Moved(s, now);
    if Weight(s, now) < s.capacity as real then (s.(current := s.current + 1, last := now), true) else (s, false)
  }

  function Asked(l: Limiter, now: real): (r: (Limiter, bool))
    requires Unit(l) > 0.0
    ensures Unit(r.0) == Unit(l) && Capacity(r.0) == Capacity(l)
  {
    match l
    case OfBucket(b) => (OfBucket(BucketAsked(b, now).0), BucketAsked(b, now).1)
    case OfFixed(f) => (OfFixed(FixedAsked(f, now).0), FixedAsked(f, now).1)
    case OfSliding(s) => (OfSliding(SlidingAsked(s, now).0), SlidingAsked(s, now).1)
  }

  /** Times that never go back, none before `from`. */
  predicate Forward(times: seq<real>, from: real) {
    && (forall i :: 0 <= i < |times| ==> from <= times[i])
    && (forall i, j :: 0 <= i < j < |times| ==> times[i] <= times[j])
  }

  function One(b: bool): nat { if b then 1 else 0 }

  function Admitted(l: Limiter, times: seq<real>): nat
    requires Unit(l) > 0.0
    decreases |times|
  {
    if times == [] then 0 else One(Asked(l, times[0]).1) + Admitted(Asked(l, times[0]).0, times[1..])
  }

  /** The limiter after those calls. */
  function After(l: Limiter, times: seq<real>): (r: Limiter)
    requires Unit(l) > 0.0
    ensures Unit(r) == Unit(l) && Capacity(r) == Capacity(l)
    ensures (l.OfSliding? ==> r.OfSliding?) && (l.OfBucket? ==> r.OfBucket?) && (l.OfFixed? ==> r.OfFixed?)
    decreases |times|
  {
    if times == [] then l else After(Asked(l, times[0]).0, times[1..])
  }

  /** A limiter in order, last asked no later than `now`. */
  predicate Sound(l: Limiter, now: real) {
    && Unit(l) > 0.0
    && match l
       case OfBucket(b) => b.last <= now && 0.0 <= b.tokens <= b.capacity as real
       case OfFixed(f) => f.last <= now && f.current <= f.capacity
       case OfSliding(s) => s.unitStart <= now && s.last <= now && s.current <= s.capacity
  }

  // Arithmetic, kept apart.

  lemma InflowGrows(capacity: nat, a: real, b: real, unit: real)
    requires unit > 0.0 && a >= 0.0
    ensures Inflow(capacity, a, unit) >= 0.0
    ensures Inflow(capacity, a + b, unit) == Inflow(capacity, a, unit) + Inflow(capacity, b, unit)
    ensures b >= 0.0 ==> Inflow(capacity, b, unit) >= 0.0
  {
    assert (a + b) / unit == a / unit + b / unit;
    assert a / unit >= 0.0;
    NonNegative(capacity as real, a / unit);
    if b >= 0.0 {
      assert b / unit >= 0.0;
      NonNegative(capacity as real, b / unit);
    }
  }

  lemma NonNegative(a: real, b: real)
    requires a >= 0.0 && b >= 0.0
    ensures a * b >= 0.0
  {}

  lemma MulAtMost(a: real, b: real, unit: real)
    requires unit > 0.0
    ensures a <= b <==> Mul(a, unit) <= Mul(b, unit)
  {
    if a > b {
      assert b * unit < a * unit;
    }
  }

  lemma MulUnits(a: real, x: real, unit: real)
    requires unit > 0.0
    ensures Mul(a + 1.0, unit) == Mul(a, unit) + unit
    ensures Mul(x / unit, unit) == x
    ensures Mul(0.0, unit) == 0.0 && Mul(1.0, unit) == unit
  {}

  lemma Between(x: real, q: real, n: real, unit: real)
    requires unit > 0.0 && Mul(q, unit) == x && n <= q < n + 1.0
    ensures Mul(n, unit) <= x < Mul(n, unit) + unit
  {
    MulAtMost(n, q, unit);
    MulAtMost(n + 1.0, q, unit);
    MulUnits(n, x, unit);
    hide Mul;
  }

  /** The unit of `now` begins at or before it, less than a unit earlier. */
  lemma UnitHolds(start: real, now: real, unit: real)
    requires unit > 0.0 && start <= now
    ensures start <= UnitOf(start, now, unit) <= now < UnitOf(start, now, unit) + unit
  {
    var q := (now - start) / unit;
    MulUnits(q, now - start, unit);
    MulAtMost(0.0, q, unit);
    MulAtMost(0.0, q.Floor as real, unit);
    hide Mul;
    Between(now - start, q, q.Floor as real, unit);
  }

  lemma ShareHolds(start: real, now: real, unit: real)
    requires unit > 0.0 && start <= now < start + unit
    ensures 0.0 <= Share(start, now, unit) < 1.0
  {
    var q := (now - start) / unit;
    MulUnits(0.0, now - start, unit);
    MulAtMost(0.0, q, unit);
    MulAtMost(1.0, q, unit);
    hide Mul;
  }

  lemma NewIsSound(kind: Kind, capacity: nat, unit: real, now: real)
    requires unit > 0.0
    ensures Sound(New(kind, capacity, unit, now), now)
  {}

  lemma MovedHolds(s: SlidingWindow, now: real)
    requires s.unit > 0.0 && s.unitStart <= now
    ensures var m := Moved(s, now);
            && m.unitStart <= now < m.unitStart + m.unit
            && 0.0 <= Share(m.unitStart, now, m.unit) < 1.0
            && m.current as real <= Weight(m, now)
  {
    UnitHolds(s.unitStart, now, s.unit);
    var m := Moved(s, now);
    ShareHolds(m.unitStart, now, m.unit);
    NonNegative(m.previous as real, 1.0 - Share(m.unitStart, now, m.unit));
    hide UnitOf, Share;
  }

  lemma AskedSound(l: Limiter, now: real, from: real)
    requires Sound(l, from) && from <= now
    ensures Sound(Asked(l, now).0, now)
  {
    match l
    case OfBucket(b) => InflowGrows(b.capacity, now - b.last, 0.0, b.unit);
    case OfFixed(_) =>
    case OfSliding(s) => MovedHolds(s, now);
    hide Inflow, UnitOf, Weight;
  }

  // The token bucket.

  /** What is left plus what was admitted is at most what was there plus what flowed in. */
  lemma {:induction false} BucketFlow(l: Limiter, times: seq<real>, until: real)
    requires l.OfBucket? && Sound(l, l.bucket.last) && Forward(times, l.bucket.last)
    requires l.bucket.last <= until && forall i :: 0 <= i < |times| ==> times[i] <= until
    ensures Admitted(l, times) as real <=
            l.bucket.tokens + Inflow(l.bucket.capacity, until - l.bucket.last, l.bucket.unit)
    decreases |times|
  {
    var b := l.bucket;
    hide Inflow;
    if times == [] {
      InflowGrows(b.capacity, until - b.last, 0.0, b.unit);
    } else {
      var now := times[0];
      AskedSound(l, now, b.last);
      BucketFlow(Asked(l, now).0, times[1..], until);
      InflowGrows(b.capacity, now - b.last, until - now, b.unit);
      assert now - b.last + (until - now) == until - b.last;
    }
  }

  /** From its first call on, a bucket has at most its capacity to give. */
  lemma BucketFirst(l: Limiter, times: seq<real>, t: real)
    requires l.OfBucket? && times != [] && Sound(l, times[0]) && Forward(times, times[0])
    requires forall i :: 0 <= i < |times| ==> times[i] <= t
    ensures Admitted(l, times) as real <=
            l.bucket.capacity as real + Inflow(l.bucket.capacity, t - times[0], l.bucket.unit)
  {
    hide Inflow;
    AskedSound(l, times[0], times[0]);
    BucketFlow(Asked(l, times[0]).0, times[1..], t);
  }

  /** In any stretch of time [s, t] at most capacity * (1 + (t - s) / unit) are admitted. */
  lemma BucketBound(l: Limiter, times: seq<real>, s: real, t: real)
    requires l.OfBucket? && Sound(l, s) && s <= t && Forward(times, s)
    requires forall i :: 0 <= i < |times| ==> times[i] <= t
    ensures Admitted(l, times) as real <= Allowance(Capacity(l), t - s, Unit(l))
  {
    BoundSplits(Capacity(l), t - s, Unit(l));
    BucketBurst(l, times, s, t);
    hide Allowance, Inflow;
  }

  lemma BoundSplits(capacity: nat, time: real, unit: real)
    requires unit > 0.0
    ensures Allowance(capacity, time, unit) == capacity as real + Inflow(capacity, time, unit)
  {}

  lemma BucketBurst(l: Limiter, times: seq<real>, s: real, t: real)
    requires l.OfBucket? && Sound(l, s) && s <= t && Forward(times, s)
    requires forall i :: 0 <= i < |times| ==> times[i] <= t
    ensures Admitted(l, times) as real <= Capacity(l) as real + Inflow(Capacity(l), t - s, Unit(l))
  {
    hide Inflow;
    if times == [] {
      InflowGrows(Capacity(l), t - s, 0.0, Unit(l));
    } else {
      BucketFirst(l, times, t);
      InflowGrows(Capacity(l), t - times[0], times[0] - s, Unit(l));
      assert t - times[0] + (times[0] - s) == t - s;
    }
  }

  /** A bucket gives a token only while it holds more than one, so one of capacity one or
      none never admits anything. */
  lemma {:induction false} SmallBucketNeverAdmits(l: Limiter, times: seq<real>, from: real)
    requires l.OfBucket? && Sound(l, from) && Forward(times, from)
    requires Capacity(l) <= 1
    ensures Admitted(l, times) == 0
    decreases |times|
  {
    hide Inflow;
    if times != [] {
      AskedSound(l, times[0], from);
      SmallBucketNeverAdmits(Asked(l, times[0]).0, times[1..], times[0]);
    }
  }

  /** A new bucket admits its first call exactly if its capacity is above one. */
  lemma FirstCallAdmitted(capacity: nat, unit: real, start: real, now: real)
    requires unit > 0.0 && start <= now
    ensures Asked(New(Bucket, capacity, unit, start), now).1 <==> capacity > 1
  {
    InflowGrows(capacity, now - start, 0.0, unit);
    hide Inflow;
  }

  // The fixed window.

  /** Without a reset, what the current window has left. */
  lemma {:induction false} SameWindow(l: Limiter, times: seq<real>)
    requires l.OfFixed? && Unit(l) > 0.0 && l.fixed.current <= l.fixed.capacity
    requires forall i :: 0 <= i < |times| ==> times[i] - l.fixed.last < l.fixed.unit
    ensures Admitted(l, times) <= l.fixed.capacity - l.fixed.current
    decreases |times|
  {
    if times != [] {
      SameWindow(Asked(l, times[0]).0, times[1..]);
    }
  }

  /** In any half-open stretch of one unit at most twice the capacity is admitted: at most
      one window begins in it. */
  lemma {:induction false} FixedBound(l: Limiter, times: seq<real>, s: real)
    requires l.OfFixed? && Sound(l, s) && Forward(times, s)
    requires forall i :: 0 <= i < |times| ==> times[i] < s + Unit(l)
    ensures Admitted(l, times) <= 2 * Capacity(l) - l.fixed.current
    decreases |times|
  {
    if times != [] {
      var now := times[0];
      var l' := Asked(l, now).0;
      if now - l.fixed.last >= l.fixed.unit {
        SameWindow(l', times[1..]);
      } else {
        FixedBound(l', times[1..], s);
      }
    }
  }

  // The sliding window.

  /** Is `u` a whole number of units after `start`? */
  ghost predicate Aligned(start: real, u: real, unit: real) {
    exists m: nat :: u == start + Units(m, unit)
  }

  function Units(m: nat, unit: real): real { Mul(m as real, unit) }

  lemma UnitReached(start: real, u: real, now: real, unit: real)
    requires unit > 0.0 && Aligned(start, u, unit) && u <= now < u + unit
    ensures UnitOf(start, now, unit) == u
  {
    var m: nat :| u == start + Units(m, unit);
    var q, n := (now - start) / unit, m as real;
    MulUnits(n, now - start, unit);
    MulAtMost(n, q, unit);
    MulAtMost(n + 1.0, q, unit);
    hide Mul;
    assert n <= q < n + 1.0;
    assert q.Floor == m;
  }

  lemma AlignedWithItself(u: real, unit: real)
    ensures Aligned(u, u, unit)
  {
    assert Units(0, unit) == 0.0;
  }

  lemma AlignedMore(start: real, a: real, now: real, unit: real)
    requires unit > 0.0 && Aligned(start, a, unit) && a <= now
    ensures Aligned(start, UnitOf(a, now, unit), unit)
  {
    var m: nat :| a == start + Units(m, unit);
    var q := (now - a) / unit;
    assert q >= 0.0 by {
      MulUnits(0.0, now - a, unit);
      MulAtMost(0.0, q, unit);
      hide Mul;
    }
    UnitsAdd(m, q.Floor, unit);
    assert UnitOf(a, now, unit) == start + Units(m + q.Floor, unit);
  }

  lemma UnitsAdd(m: nat, n: nat, unit: real)
    ensures Units(m, unit) + Units(n, unit) == Units(m + n, unit)
    ensures m <= n && unit > 0.0 ==> Units(n, unit) == Units(m, unit) + Units(n - m, unit)
  {}

  /** Two units of the same count are a whole number of units apart. */
  lemma AlignedBetween(start: real, a: real, b: real, unit: real)
    requires unit > 0.0 && Aligned(start, a, unit) && Aligned(start, b, unit) && a <= b
    ensures Aligned(a, b, unit)
  {
    var m: nat :| a == start + Units(m, unit);
    var n: nat :| b == start + Units(n, unit);
    MulAtMost(m as real, n as real, unit);
    UnitsAdd(m, n, unit);
    hide Mul;
    assert b == a + Units(n - m, unit);
  }

  /** In each unit, counted from the limiter's start, at most the capacity is admitted. */
  lemma {:induction false} SlidingBound(l: Limiter, times: seq<real>, u: real)
    requires l.OfSliding? && Sound(l, u + Unit(l)) && Aligned(l.sliding.unitStart, u, Unit(l))
    requires l.sliding.unitStart <= u
    requires forall i :: 0 <= i < |times| ==> u <= times[i] < u + Unit(l)
    ensures Admitted(l, times) <= Capacity(l) - if l.sliding.last >= u then l.sliding.current else 0
    decreases |times|
  {
    if times != [] {
      var now := times[0];
      var s := l.sliding;
      UnitReached(s.unitStart, u, now, s.unit);
      MovedHolds(s, now);
      var l' := Asked(l, now).0;
      AlignedWithItself(u, s.unit);
      hide UnitOf, Weight, Aligned;
      SlidingBound(l', times[1..], u);
    }
  }

  /** The first call of a unit comes at its very first instant, right behind a unit that was
      used up. */
  predicate UsedUp(s: SlidingWindow, now: real)
    requires s.unit > 0.0
  {
    var u := UnitOf(s.unitStart, now, s.unit);
    now == u && s.current == s.capacity && u - s.last < s.unit
  }

  lemma LessThanWhole(n: real, share: real)
    requires n >= 0.0 && 0.0 <= share
    ensures n * (1.0 - share) <= n
    ensures n > 0.0 && share > 0.0 ==> n * (1.0 - share) < n
    ensures share == 0.0 ==> n * (1.0 - share) == n
  {}

  lemma ShareIsZero(start: real, now: real, unit: real)
    requires unit > 0.0 && start <= now
    ensures Share(start, now, unit) == 0.0 <==> now == start
  {
    var q := (now - start) / unit;
    MulUnits(0.0, now - start, unit);
    MulAtMost(q, 0.0, unit);
    MulAtMost(0.0, q, unit);
    hide Mul;
  }

  /** The first call of a unit is refused exactly in that case. */
  lemma FirstRefused(s: SlidingWindow, now: real)
    requires Sound(OfSliding(s), now) && s.capacity > 0
    requires UnitOf(s.unitStart, now, s.unit) > s.last
    ensures !SlidingAsked(s, now).1 <==> UsedUp(s, now)
  {
    var m := Moved(s, now);
    MovedHolds(s, now);
    ShareIsZero(m.unitStart, now, m.unit);
    var share := Share(m.unitStart, now, m.unit);
    LessThanWhole(m.previous as real, share);
    hide UnitOf, Share;
  }

  /** The requests of the unit just before are lost to the unit of `now`, whose first call
      comes then: that call is refused, or the last admission of the unit before came at
      its very first instant. */
  predicate Lost(s: SlidingWindow, now: real)
    requires s.unit > 0.0
  {
    var u := UnitOf(s.unitStart, now, s.unit);
    s.current > 0 && u - s.unit <= s.last < u && (UsedUp(s, now) || s.last == u - s.unit)
  }

  /** Later calls in the unit weigh the requests of the unit just before if and only if they
      are not lost; if they are, or if nothing was admitted in that unit, they weigh none. */
  lemma CountKept(s: SlidingWindow, now: real, later: real)
    requires Sound(OfSliding(s), now) && s.capacity > 0
    requires UnitOf(s.unitStart, now, s.unit) > s.last
    requires now <= later < UnitOf(s.unitStart, now, s.unit) + s.unit
    ensures var u, s1 := UnitOf(s.unitStart, now, s.unit), SlidingAsked(s, now).0;
            && (u - s.unit <= s.last ==> (Moved(s1, later).previous == s.current <==> !Lost(s, now)))
            && (s.last < u - s.unit || Lost(s, now) ==> Moved(s1, later).previous == 0)
  {
    var u := UnitOf(s.unitStart, now, s.unit);
    UnitHolds(s.unitStart, now, s.unit);
    FirstRefused(s, now);
    AlignedWithItself(u, s.unit);
    UnitReached(u, u, later, s.unit);
    hide UnitOf, Weight;
  }

  /** So a call refused at the first instant of a unit opens the unit: every later call
      until the first admission finds no count at all and is admitted. */
  lemma RefusalForgets(s: SlidingWindow, now: real, later: real)
    requires Sound(OfSliding(s), now) && s.capacity > 0
    requires UnitOf(s.unitStart, now, s.unit) > s.last
    requires UsedUp(s, now)
    requires now <= later < UnitOf(s.unitStart, now, s.unit) + s.unit
    ensures !SlidingAsked(s, now).1 && SlidingAsked(SlidingAsked(s, now).0, later).1
  {
    var u := UnitOf(s.unitStart, now, s.unit);
    UnitHolds(s.unitStart, now, s.unit);
    FirstRefused(s, now);
    CountKept(s, now, later);
    AlignedWithItself(u, s.unit);
    UnitReached(u, u, later, s.unit);
    var s1 := SlidingAsked(s, now).0;
    assert s1 == Moved(s, now) && s1.unitStart == u && s1.current == 0 && s1.last == s.last;
    hide UnitOf;
    var s2 := Moved(s1, later);
    assert s2.previous == 0 && s2.current == 0;
    assert Weight(s2, later) == 0.0;
  }

  lemma WholeUnits(k: nat, now: real)
    requires k as real <= now < k as real + 1.0
    ensures UnitOf(0.0, now, 1.0) == k as real
  {
    assert Aligned(0.0, k as real, 1.0) by {
      assert Units(k, 1.0) == k as real;
    }
    UnitReached(0.0, k as real, now, 1.0);
  }

  /** A window of one call per second: admitted at 0.5 s, refused at 1.0 s for that call, and
      admitted at once, or later in that second, when asked again. */
  lemma ForgettingRun(later: real)
    requires 1.0 <= later < 2.0
    ensures var l0 := New(Sliding, 1, 1.0, 0.0);
            var (l1, first) := Asked(l0, 0.5);
            var (l2, second) := Asked(l1, 1.0);
            var (l3, third) := Asked(l2, later);
            first && !second && third
  {
    var s0 := SlidingWindow(1, 1.0, 0.0, 0.0, 0, 0);
    WholeUnits(0, 0.5);
    WholeUnits(1, 1.0);
    var s1 := s0.(current := 1, last := 0.5);
    assert SlidingAsked(s0, 0.5) == (s1, true) by {
      assert Moved(s0, 0.5) == s0;
      assert Weight(s0, 0.5) == 0.0;
    }
    hide UnitOf;
    RefusalForgets(s1, 1.0, later);
  }

  /** A refused call lets a later one through.  Two calls per second, both at 0.5 s: of two
      calls at 1.1 s the second is refused, unless there was a refused call at 1.0 s. */
  lemma RefusalLetsThrough()
    ensures var s := SlidingWindow(2, 1.0, 0.0, 0.5, 0, 2);
            var plain := SlidingAsked(s, 1.1);
            var refused := SlidingAsked(s, 1.0);
            var behind := SlidingAsked(refused.0, 1.1);
            && New(Sliding, 2, 1.0, 0.0) == OfSliding(s.(last := 0.0, current := 0))
            && SlidingAsked(SlidingAsked(s.(last := 0.0, current := 0), 0.5).0, 0.5) == (s, true)
            && plain.1 && !SlidingAsked(plain.0, 1.1).1
            && !refused.1 && behind.1 && SlidingAsked(behind.0, 1.1).1
  {
    var s := SlidingWindow(2, 1.0, 0.0, 0.5, 0, 2);
    WholeUnits(0, 0.5);
    WholeUnits(1, 1.0);
    WholeUnits(1, 1.1);
    AlignedWithItself(1.0, 1.0);
    UnitReached(1.0, 1.0, 1.1, 1.0);
    hide UnitOf;
    assert Share(1.0, 1.1, 1.0) == 0.1;
    assert SlidingAsked(s, 1.1) == (s.(unitStart := 1.0, previous := 2, current := 1, last := 1.1), true);
    assert SlidingAsked(s, 1.0) == (s.(unitStart := 1.0, previous := 2, current := 0), false);
  }

  /** A window forgets a used-up unit without refusing anything.  Two calls per second, both
      at 1.0 s, the first instant of a unit: two more are admitted at 2.0 s. */
  lemma FirstInstantForgets()
    ensures var l0 := New(Sliding, 2, 1.0, 0.0);
            var (l1, first) := Asked(l0, 1.0);
            var (l2, second) := Asked(l1, 1.0);
            var (l3, third) := Asked(l2, 2.0);
            var (l4, fourth) := Asked(l3, 2.0);
            first && second && third && fourth
  {
    var s0 := SlidingWindow(2, 1.0, 0.0, 0.0, 0, 0);
    WholeUnits(1, 1.0);
    AlignedWithItself(1.0, 1.0);
    AlignedWithItself(2.0, 1.0);
    UnitReached(1.0, 1.0, 1.0, 1.0);
    UnitReached(2.0, 2.0, 2.0, 1.0);
    assert UnitOf(1.0, 2.0, 1.0) == 2.0 by {
      assert 2.0 == 1.0 + Units(1, 1.0);
      UnitReached(1.0, 2.0, 2.0, 1.0);
    }
    hide UnitOf;
    var s1 := SlidingWindow(2, 1.0, 1.0, 1.0, 0, 1);
    var s2 := s1.(current := 2);
    var s3 := SlidingWindow(2, 1.0, 2.0, 2.0, 0, 1);
    assert SlidingAsked(s0, 1.0) == (s1, true);
    assert SlidingAsked(s1, 1.0) == (s2, true);
    assert SlidingAsked(s2, 2.0) == (s3, true);
    assert SlidingAsked(s3, 2.0).1;
  }
}
