/**
 * Dispatching a sequence of actions to a reducer, one after the other, as
 * the store does.
 */
module Reducers {

  /** The state after dispatching `actions` in order, starting from `s`. */
  function ReduceAll<S, A>(reduce: (S, A) -> S, s: S, actions: seq<A>): S
    decreases |actions|
  {
    if actions == [] then s else ReduceAll(reduce, reduce(s, actions[0]), actions[1..])
  }

  /** A sequence that ends in `a` reaches `a` applied to the state the rest reaches. */
  lemma {:induction false} ReduceAllSnoc<S, A>(reduce: (S, A) -> S, s: S, actions: seq<A>, a: A)
    ensures ReduceAll(reduce, s, actions + [a]) == reduce(ReduceAll(reduce, s, actions), a)
    decreases |actions|
  {
    if actions == [] {
      assert actions + [a] == [a];
      assert ReduceAll(reduce, s, [a]) == ReduceAll(reduce, reduce(s, a), [a][1..]);
      assert [a][1..] == [];
    } else {
      assert (actions + [a])[0] == actions[0];
      assert (actions + [a])[1..] == actions[1..] + [a];
      ReduceAllSnoc(reduce, reduce(s, actions[0]), actions[1..], a);
    }
  }

  /** Two actions in a row. */
  lemma ReduceAllPair<S, A>(reduce: (S, A) -> S, s: S, a: A, b: A)
    ensures ReduceAll(reduce, s, [a, b]) == reduce(reduce(s, a), b)
  {
    var t := reduce(s, a);
    assert [a, b][1..] == [b];
    assert ReduceAll(reduce, s, [a, b]) == ReduceAll(reduce, t, [b]);
    assert [b][1..] == [];
    assert ReduceAll(reduce, t, [b]) == ReduceAll(reduce, reduce(t, b), []);
  }
}
