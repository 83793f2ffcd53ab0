/** Runs of a state machine, one event after the other. */
module Runs {

  /** The state after all events. */
  function RunAll<S, E>(step: (S, E) -> S, start: S, events: seq<E>): S {
    if events == [] then start
    else
      var n := |events| - 1;
      step(RunAll(step, start, events[..n]), events[n])
  }

  lemma LastApart<T>(xs: seq<T>)
    requires xs != []
    ensures xs[..|xs| - 1] + [xs[|xs| - 1]] == xs
  {
  }

  lemma RunAllSnoc<S, E>(step: (S, E) -> S, start: S, events: seq<E>, e: E)
    ensures RunAll(step, start, events + [e]) == step(RunAll(step, start, events), e)
  {
    assert (events + [e])[..|events|] == events;
  }

  /** What no event destroys stays. */
  lemma {:induction false} KeepsForEver<S(!new), E(!new)>(step: (S, E) -> S, start: S, p: S -> bool,
                                                          before: seq<E>, after: seq<E>)
    requires p(RunAll(step, start, before)) && forall s, e :: p(s) ==> p(step(s, e))
    ensures p(RunAll(step, start, before + after))
    decreases |after|
  {
    if after == [] {
      assert before + after == before;
    } else {
      var n := |after| - 1;
      KeepsForEver(step, start, p, before, after[..n]);
      assert before + after == (before + after[..n]) + [after[n]];
      RunAllSnoc(step, start, before + after[..n], after[n]);
    }
  }

  /** `p` holds at the start and after every event. */
  ghost predicate Always<S, E>(step: (S, E) -> S, start: S, p: S -> bool, events: seq<E>) {
    forall k :: 0 <= k <= |events| ==> p(RunAll(step, start, events[..k]))
  }

  lemma AlwaysSnoc<S, E>(step: (S, E) -> S, start: S, p: S -> bool, events: seq<E>, e: E)
    ensures Always(step, start, p, events + [e])
       <==> Always(step, start, p, events) && p(RunAll(step, start, events + [e]))
  {
    var all, n := events + [e], |events|;
    assert all[..n + 1] == all;
    assert forall k :: 0 <= k <= n ==> all[..k] == events[..k];
    if Always(step, start, p, all) {
      forall k | 0 <= k <= n ensures p(RunAll(step, start, events[..k])) {
        assert all[..k] == events[..k];
      }
    }
  }
}
