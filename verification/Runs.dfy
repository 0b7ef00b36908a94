/** Finite runs of a machine given by its step relation, each step labelled by an event. */
module Runs {

  ghost predicate IsRun<S, E>(step: (S, E, S) -> bool, states: seq<S>, events: seq<E>) {
    && |states| == |events| + 1
    && forall k :: 0 <= k < |events| ==> step(states[k], events[k], states[k + 1])
  }

  /** There is a run from s to s'. */
  ghost predicate Reaches<S(!new), E(!new)>(step: (S, E, S) -> bool, s: S, s': S) {
    exists states, events: seq<E> ::
      IsRun(step, states, events) && states[0] == s && states[|events|] == s'
  }

  lemma ReachesSelf<S(!new), E(!new)>(step: (S, E, S) -> bool, s: S)
    ensures Reaches(step, s, s)
  {
    var none: seq<E> := [];
    assert IsRun(step, [s], none);
  }

  lemma ReachesSnoc<S(!new), E(!new)>(step: (S, E, S) -> bool, s: S, mid: S, e: E, s': S)
    requires Reaches(step, s, mid) && step(mid, e, s')
    ensures Reaches(step, s, s')
  {
    var states, events: seq<E> :|
      IsRun(step, states, events) && states[0] == s && states[|events|] == mid;
    assert IsRun(step, states + [s'], events + [e]);
  }

  /** A run from s to t followed by a run from t to u. */
  lemma JoinRuns<S(!new), E(!new)>(step: (S, E, S) -> bool, ss: seq<S>, es: seq<E>, ts: seq<S>, fs: seq<E>)
    requires IsRun(step, ss, es) && IsRun(step, ts, fs) && ss[|es|] == ts[0]
    ensures Reaches(step, ss[0], ts[|fs|])
  {
    var us, gs := ss + ts[1..], es + fs;
    forall k | 0 <= k < |gs|
      ensures step(us[k], gs[k], us[k + 1])
    {
      if k >= |es| {
        assert us[k] == ts[k - |es|] && us[k + 1] == ts[k + 1 - |es|];
        assert step(ts[k - |es|], fs[k - |es|], ts[k + 1 - |es|]);
      } else {
        assert step(ss[k], es[k], ss[k + 1]);
      }
    }
    assert IsRun(step, us, gs);
  }
}
