/** Incremental parsers as step machines.  A parser state (which records what has
    been emitted so far) and the bytes not yet consumed decide either to wait for
    more bytes or to take one step: move to a new state and consume some bytes.

    The one fact proved here carries every "it does not matter how the network cut
    the bytes" statement of the project: if a step that is possible stays the same
    step when more bytes arrive behind it (`Stable`), then running on `a` and later
    on `b` is running once on `a + b`. */
module Resumable {

  datatype Outcome<+S> = Wait | Go(next: S, used: nat)

  datatype Config<+S> = Config(state: S, rest: string)

  /** Every step consumes bytes or goes down in rank. */
  ghost predicate Progress<S(!new)>(step: (S, string) -> Outcome<S>, rank: S -> nat) {
    forall s: S, b: string :: step(s, b).Go? ==>
      step(s, b).used <= |b| && (step(s, b).used > 0 || rank(step(s, b).next) < rank(s))
  }

  /** A step that can be taken is not changed by bytes arriving behind it. */
  ghost predicate Stable<S(!new)>(step: (S, string) -> Outcome<S>) {
    forall s: S, b: string, x: string :: step(s, b).Go? ==> step(s, b + x) == step(s, b)
  }

  /** Take steps until the machine waits. */
  ghost function Run<S(!new)>(step: (S, string) -> Outcome<S>, rank: S -> nat, s: S, b: string): Config<S>
    requires Progress(step, rank)
    decreases |b|, rank(s)
  {
    match step(s, b)
    case Wait => Config(s, b)
    case Go(next, used) => Run(step, rank, next, b[used..])
  }

  /** A run ends waiting, with a suffix of its input left. */
  lemma {:induction false} RunStops<S(!new)>(step: (S, string) -> Outcome<S>, rank: S -> nat, s: S, b: string)
    requires Progress(step, rank)
    ensures var r := Run(step, rank, s, b);
            |r.rest| <= |b| && r.rest == b[|b| - |r.rest|..] && step(r.state, r.rest).Wait?
    decreases |b|, rank(s)
  {
    if step(s, b).Go? {
      RunStops(step, rank, step(s, b).next, b[step(s, b).used..]);
    }
  }

  /** Cutting the input in two changes nothing. */
  lemma {:induction false} Split<S(!new)>(
    step: (S, string) -> Outcome<S>, rank: S -> nat, s: S, a: string, b: string)
    requires Progress(step, rank) && Stable(step)
    ensures var r := Run(step, rank, s, a);
            Run(step, rank, s, a + b) == Run(step, rank, r.state, r.rest + b)
    decreases |a|, rank(s)
  {
    if step(s, a).Go? {
      var o := step(s, a);
      assert step(s, a + b) == o;
      assert (a + b)[o.used..] == a[o.used..] + b;
      Split(step, rank, o.next, a[o.used..], b);
    }
  }

  /** Feed the pieces one after the other, keeping the unconsumed bytes in between. */
  ghost function RunPieces<S(!new)>(
    step: (S, string) -> Outcome<S>, rank: S -> nat, c: Config<S>, pieces: seq<string>): Config<S>
    requires Progress(step, rank)
    decreases |pieces|
  {
    if pieces == [] then c
    else RunPieces(step, rank, Run(step, rank, c.state, c.rest + pieces[0]), pieces[1..])
  }

  function Concat(pieces: seq<string>): string {
    if pieces == [] then "" else pieces[0] + Concat(pieces[1..])
  }

  /** However the input was cut, a run over the pieces is the run over the whole. */
  lemma {:induction false} AnyCut<S(!new)>(
    step: (S, string) -> Outcome<S>, rank: S -> nat, c: Config<S>, pieces: seq<string>)
    requires Progress(step, rank) && Stable(step)
    requires step(c.state, c.rest).Wait?
    ensures RunPieces(step, rank, c, pieces) == Run(step, rank, c.state, c.rest + Concat(pieces))
    decreases |pieces|
  {
    if pieces == [] {
      assert c.rest + "" == c.rest;
    } else {
      var d := Run(step, rank, c.state, c.rest + pieces[0]);
      RunStops(step, rank, c.state, c.rest + pieces[0]);
      AnyCut(step, rank, d, pieces[1..]);
      Split(step, rank, c.state, c.rest + pieces[0], Concat(pieces[1..]));
      assert c.rest + pieces[0] + Concat(pieces[1..]) == c.rest + Concat(pieces);
    }
  }

  /** A parser that also looks at what it was left waiting with, and may give up there
      (`guard` answers the state unchanged when it does not). */
  ghost function Feed<S(!new)>(
    step: (S, string) -> Outcome<S>, rank: S -> nat, guard: (S, string) -> S, c: Config<S>, piece: string): Config<S>
    requires Progress(step, rank)
  {
    var r := Run(step, rank, c.state, c.rest + piece);
    Config(guard(r.state, r.rest), r.rest)
  }

  ghost function FeedPieces<S(!new)>(
    step: (S, string) -> Outcome<S>, rank: S -> nat, guard: (S, string) -> S, c: Config<S>, pieces: seq<string>)
    : Config<S>
    requires Progress(step, rank)
    decreases |pieces|
  {
    if pieces == [] then c
    else FeedPieces(step, rank, guard, Feed(step, rank, guard, c, pieces[0]), pieces[1..])
  }

  /** At no cut is the parser left waiting with something its guard refuses. */
  ghost predicate NeverTrips<S(!new)>(
    step: (S, string) -> Outcome<S>, rank: S -> nat, guard: (S, string) -> S, c: Config<S>, pieces: seq<string>)
    requires Progress(step, rank)
    decreases |pieces|
  {
    pieces == [] ||
    var r := Run(step, rank, c.state, c.rest + pieces[0]);
    guard(r.state, r.rest) == r.state && NeverTrips(step, rank, guard, r, pieces[1..])
  }

  /** As long as the guard never trips, the guarded parser does not see the cuts either. */
  lemma {:induction false} AnyGuardedCut<S(!new)>(
    step: (S, string) -> Outcome<S>, rank: S -> nat, guard: (S, string) -> S, c: Config<S>, pieces: seq<string>)
    requires Progress(step, rank) && Stable(step)
    requires step(c.state, c.rest).Wait?
    requires NeverTrips(step, rank, guard, c, pieces)
    ensures FeedPieces(step, rank, guard, c, pieces) == Run(step, rank, c.state, c.rest + Concat(pieces))
    decreases |pieces|
  {
    if pieces == [] {
      assert c.rest + "" == c.rest;
    } else {
      var d := Run(step, rank, c.state, c.rest + pieces[0]);
      RunStops(step, rank, c.state, c.rest + pieces[0]);
      AnyGuardedCut(step, rank, guard, d, pieces[1..]);
      Split(step, rank, c.state, c.rest + pieces[0], Concat(pieces[1..]));
      assert c.rest + pieces[0] + Concat(pieces[1..]) == c.rest + Concat(pieces);
    }
  }
}
