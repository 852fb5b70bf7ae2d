/** Running a deterministic machine that reads one input at a time and emits outputs. */
module Machines {

  function Fold<S, I, O>(step: (S, I) -> (S, seq<O>), s: S, inputs: seq<I>): (S, seq<O>)
    decreases inputs
  {
    if inputs == [] then (s, [])
    else
      var (s1, out1) := step(s, inputs[0]);
      var (s2, out2) := Fold(step, s1, inputs[1..]);
      (s2, out1 + out2)
  }

  lemma {:induction false} FoldConcat<S, I, O>(step: (S, I) -> (S, seq<O>), s: S, p: seq<I>, q: seq<I>)
    ensures Fold(step, s, p + q)
            == (Fold(step, Fold(step, s, p).0, q).0, Fold(step, s, p).1 + Fold(step, Fold(step, s, p).0, q).1)
    decreases p
  {
    if p == [] {
      assert p + q == q;
      assert [] + Fold(step, s, q).1 == Fold(step, s, q).1;
    } else {
      var (s1, out1) := step(s, p[0]);
      var (s2, out2) := Fold(step, s1, p[1..]);
      assert (p + q)[1..] == p[1..] + q;
      FoldConcat(step, s1, p[1..], q);
      assert out1 + (out2 + Fold(step, s2, q).1) == (out1 + out2) + Fold(step, s2, q).1;
    }
  }

  lemma FoldOne<S, I, O>(step: (S, I) -> (S, seq<O>), s: S, i: I)
    ensures Fold(step, s, [i]) == step(s, i)
  {
    assert [i][1..] == [];
    assert step(s, i).1 + [] == step(s, i).1;
  }
}
