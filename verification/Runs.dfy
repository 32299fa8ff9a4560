/** Runs of a state machine given by a partial step function, and the induction principle over them. */
module Runs {
  import opened Wrappers

  /** The state after the events `es`, or None when some event is not enabled where it occurs. */
  function Exec<S, E>(step: (S, E) -> Option<S>, s: S, es: seq<E>): Option<S>
  {
    if es == [] then Some(s)
    else
      match Exec(step, s, es[..|es| - 1])
      case None => None
      case Some(t) => step(t, es[|es| - 1])
  }

  /** What every step keeps holds at the end of every run. */
  lemma {:induction false} InvariantOverRuns<S(!new), E(!new)>(
      step: (S, E) -> Option<S>, inv: S -> bool, s: S, es: seq<E>)
    requires inv(s)
    requires forall t, e :: inv(t) && step(t, e).Some? ==> inv(step(t, e).value)
    ensures Exec(step, s, es).Some? ==> inv(Exec(step, s, es).value)
  {
    if es != [] {
      InvariantOverRuns(step, inv, s, es[..|es| - 1]);
    }
  }

  lemma {:induction false} ExecAppend<S, E>(step: (S, E) -> Option<S>, s: S, a: seq<E>, b: seq<E>)
    ensures Exec(step, s, a + b) ==
            match Exec(step, s, a) case None => None case Some(t) => Exec(step, t, b)
  {
    if b == [] {
      assert a + b == a;
    } else {
      assert (a + b)[..|a + b| - 1] == a + b[..|b| - 1];
      ExecAppend(step, s, a, b[..|b| - 1]);
    }
  }

  lemma ExecOne<S, E>(step: (S, E) -> Option<S>, s: S, e: E)
    ensures Exec(step, s, [e]) == step(s, e)
  {
    assert [e][..0] == [];
  }

  lemma {:induction false} LastStep<S, E>(step: (S, E) -> Option<S>, s: S, es: seq<E>)
    requires es != [] && Exec(step, s, es).Some?
    ensures var n := |es| - 1;
            && es[..n] + [es[n]] == es
            && Exec(step, s, es[..n]).Some?
            && step(Exec(step, s, es[..n]).value, es[n]) == Exec(step, s, es)
  {
  }
}
