/** Runs of a state machine, and what it means that a run is equivalent to atomic calls one after another. */
module Runs {
  import opened Folds

  /** The state after the actions, oldest first. */
  function Run<S, A>(step: (S, A) -> S, s: S, actions: seq<A>): S {
    if actions == [] then s
    else step(Run(step, s, actions[..|actions| - 1]), actions[|actions| - 1])
  }

  lemma {:induction false} RunConcat<S, A>(step: (S, A) -> S, s: S, a: seq<A>, b: seq<A>)
    ensures Run(step, s, a + b) == Run(step, Run(step, s, a), b)
  {
    if b == [] {
      assert a + b == a;
    } else {
      assert (a + b)[..|a + b| - 1] == a + b[..|b| - 1];
      RunConcat(step, s, a, b[..|b| - 1]);
    }
  }

  /** What every step keeps, every run keeps. */
  lemma {:induction false} Keeps<S(!new), A(!new)>(step: (S, A) -> S, inv: S -> bool, s: S, actions: seq<A>)
    requires inv(s) && forall t, a :: inv(t) ==> inv(step(t, a))
    ensures inv(Run(step, s, actions))
  {
    if actions != [] {
      Keeps(step, inv, s, actions[..|actions| - 1]);
    }
  }

  /** The calls one after another; None as soon as one is refused where it stands. */
  function SerialRun<D, X>(apply: (D, X) -> Option<D>, db: D, calls: seq<X>): Option<D> {
    if calls == [] then Some(db)
    else
      var before := SerialRun(apply, db, calls[..|calls| - 1]);
      if before.None? then None else apply(before.value, calls[|calls| - 1])
  }

  /** The call that each step makes visible, in the order of the steps. */
  function Calls<S, A, X>(step: (S, A) -> S, visible: (S, A) -> X, s: S, actions: seq<A>): seq<X> {
    if actions == [] then []
    else
      Calls(step, visible, s, actions[..|actions| - 1])
      + [visible(Run(step, s, actions[..|actions| - 1]), actions[|actions| - 1])]
  }

  /** If every step changes what is seen of the state as its visible call does, a run does what its calls do. */
  lemma {:induction false} Serializes<S(!new), A(!new), D, X>(
      step: (S, A) -> S, visible: (S, A) -> X, view: S -> D, apply: (D, X) -> Option<D>, inv: S -> bool,
      s: S, actions: seq<A>)
    requires inv(s)
    requires forall t, a :: inv(t) ==> inv(step(t, a)) && apply(view(t), visible(t, a)) == Some(view(step(t, a)))
    ensures inv(Run(step, s, actions))
    ensures SerialRun(apply, view(s), Calls(step, visible, s, actions)) == Some(view(Run(step, s, actions)))
  {
    if actions != [] {
      var before, a := actions[..|actions| - 1], actions[|actions| - 1];
      Serializes(step, visible, view, apply, inv, s, before);
      var calls := Calls(step, visible, s, actions);
      assert calls[..|calls| - 1] == Calls(step, visible, s, before);
      var reached := Run(step, s, before);
      assert step(reached, a) == Run(step, s, actions);
    }
  }
}
