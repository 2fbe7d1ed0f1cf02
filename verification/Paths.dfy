/**
 Sequences of steps, for any kind of state and any relation between a state, a step and
 the state after it.
 */
module Paths {

  ghost predicate StepAt<S, T>(next: (S, T, S) -> bool, states: seq<S>, steps: seq<T>, i: nat)
    requires |states| == |steps| + 1 && i < |steps|
  {
    next(states[i], steps[i], states[i + 1])
  }

  ghost predicate Stretch<S, T>(next: (S, T, S) -> bool, states: seq<S>, steps: seq<T>, s: S, t: S) {
    && |states| == |steps| + 1 && states[0] == s && states[|steps|] == t
    && forall i {:trigger StepAt(next, states, steps, i)} :: 0 <= i < |steps| ==> StepAt(next, states, steps, i)
  }

  // Some sequence of steps leads from s to t.
  ghost predicate Connected<S(!new), T(!new)>(next: (S, T, S) -> bool, s: S, t: S) {
    exists states, steps :: Stretch(next, states, steps, s, t)
  }

  lemma ConnectedSelf<S(!new), T(!new)>(next: (S, T, S) -> bool, s: S)
    ensures Connected(next, s, s)
  {
    var none: seq<T> := [];
    assert Stretch(next, [s], none, s, s);
  }

  lemma ConnectedOn<S(!new), T(!new)>(next: (S, T, S) -> bool, s: S, t: S, st: T, u: S)
    requires Connected(next, s, t) && next(t, st, u)
    ensures Connected(next, s, u)
  {
    var states, steps :| Stretch(next, states, steps, s, t);
    forall i | 0 <= i < |steps| + 1 ensures StepAt(next, states + [u], steps + [st], i) {
      if i < |steps| {
        assert StepAt(next, states, steps, i);
      }
    }
    assert Stretch(next, states + [u], steps + [st], s, u);
  }

  lemma {:induction false} Onward<S(!new), T(!new)>(next: (S, T, S) -> bool, s: S, t: S, states: seq<S>, steps: seq<T>, u: S)
    requires Connected(next, s, t) && Stretch(next, states, steps, t, u)
    ensures Connected(next, s, u)
    decreases |steps|
  {
    var n := |steps|;
    if n > 0 {
      var before, last := steps[..n - 1], n - 1;
      forall i | 0 <= i < last ensures StepAt(next, states[..n], before, i) {
        assert StepAt(next, states, steps, i);
      }
      assert StepAt(next, states, steps, last);
      Onward(next, s, t, states[..n], before, states[last]);
      ConnectedOn(next, s, states[last], steps[last], u);
    }
  }

  lemma ConnectedTwice<S(!new), T(!new)>(next: (S, T, S) -> bool, s: S, t: S, u: S)
    requires Connected(next, s, t) && Connected(next, t, u)
    ensures Connected(next, s, u)
  {
    var states, steps :| Stretch(next, states, steps, t, u);
    Onward(next, s, t, states, steps, u);
  }
}
