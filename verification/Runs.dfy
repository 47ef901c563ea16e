/** Runs of a transition function that is total: what holds of them whatever the steps are. */
module Runs {

  function Exec<S, A>(step: (S, A) -> S, s: S, acts: seq<A>): S
    decreases |acts|
  {
    if acts == [] then s else Exec(step, step(s, acts[0]), acts[1..])
  }

  lemma {:induction false} Concat<S, A>(step: (S, A) -> S, s: S, a: seq<A>, b: seq<A>)
    ensures Exec(step, s, a + b) == Exec(step, Exec(step, s, a), b)
    decreases |a|
  {
    if a == [] {
      assert a + b == b;
    } else {
      assert (a + b)[0] == a[0] && (a + b)[1..] == a[1..] + b;
      Concat(step, step(s, a[0]), a[1..], b);
    }
  }

  lemma Cons<S, A>(step: (S, A) -> S, s: S, act: A, acts: seq<A>)
    ensures Exec(step, s, [act] + acts) == Exec(step, step(s, act), acts)
  {
    assert ([act] + acts)[0] == act && ([act] + acts)[1..] == acts;
  }

  lemma One<S, A>(step: (S, A) -> S, s: S, act: A)
    ensures Exec(step, s, [act]) == step(s, act)
  {
    assert [act][0] == act && [act][1..] == [];
  }

  lemma Snoc<S, A>(step: (S, A) -> S, s: S, acts: seq<A>, act: A)
    ensures Exec(step, s, acts + [act]) == step(Exec(step, s, acts), act)
  {
    Concat(step, s, acts, [act]);
    One(step, Exec(step, s, acts), act);
  }
}
