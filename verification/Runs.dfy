/** Runs of a state machine: sequences of actions, each enabled where it is taken. */
module Runs {
  import opened Text

  /** The state after the actions, if all of them could be taken. */
  function Run<S, A>(step: (S, A) -> Option<S>, s: S, actions: seq<A>): Option<S>
    decreases |actions|
  {
    if actions == [] then Some(s)
    else
      var next := step(s, actions[0]);
      if next.None? then None else Run(step, next.value, actions[1..])
  }

  ghost predicate Keeps<S(!new), A(!new)>(step: (S, A) -> Option<S>, inv: S -> bool) {
    forall s, a :: inv(s) && step(s, a).Some? ==> inv(step(s, a).value)
  }

  /** What every step keeps, every run keeps. */
  lemma {:induction false} RunKeeps<S(!new), A(!new)>(
    step: (S, A) -> Option<S>, inv: S -> bool, s: S, actions: seq<A>)
    requires Keeps(step, inv) && inv(s) && Run(step, s, actions).Some?
    ensures inv(Run(step, s, actions).value)
    decreases |actions|
  {
    if actions != [] {
      RunKeeps(step, inv, step(s, actions[0]).value, actions[1..]);
    }
  }

  /** The states a run goes through, one by one. */
  predicate Trace<S(==), A>(step: (S, A) -> Option<S>, states: seq<S>, actions: seq<A>) {
    && |states| == |actions| + 1
    && forall i :: 0 <= i < |actions| ==> step(states[i], actions[i]) == Some(states[i + 1])
  }

  lemma {:induction false} TraceRuns<S, A>(step: (S, A) -> Option<S>, states: seq<S>, actions: seq<A>)
    requires Trace(step, states, actions)
    ensures Run(step, states[0], actions) == Some(states[|actions|])
    decreases |actions|
  {
    if actions != [] {
      TraceRuns(step, states[1..], actions[1..]);
    }
  }

  lemma {:induction false} RunJoins<S, A>(step: (S, A) -> Option<S>, s: S, first: seq<A>, second: seq<A>)
    requires Run(step, s, first).Some?
    ensures Run(step, s, first + second) == Run(step, Run(step, s, first).value, second)
    decreases |first|
  {
    if first == [] {
      assert first + second == second;
    } else {
      RunJoins(step, step(s, first[0]).value, first[1..], second);
      assert (first + second)[1..] == first[1..] + second;
    }
  }
}
