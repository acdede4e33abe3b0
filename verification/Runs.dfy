/** Runs of a step system: a fold of its step function over a sequence of events. */
module Runs {

  function Fold<S, E>(step: (S, E) -> S, s: S, events: seq<E>): S
    decreases |events|
  {
    if events == [] then s else Fold(step, step(s, events[0]), events[1..])
  }

  lemma FoldOne<S, E>(step: (S, E) -> S, s: S, a: E)
    ensures Fold(step, s, [a]) == step(s, a)
  {
    assert [a][1..] == [];
  }

  lemma FoldTwo<S, E>(step: (S, E) -> S, s: S, a: E, b: E)
    ensures Fold(step, s, [a, b]) == step(step(s, a), b)
  {
    assert [a, b][1..] == [b];
    FoldOne(step, step(s, a), b);
  }

  lemma FoldThree<S, E>(step: (S, E) -> S, s: S, a: E, b: E, c: E)
    ensures Fold(step, s, [a, b, c]) == step(step(step(s, a), b), c)
  {
    assert [a, b, c][1..] == [b, c] && [b, c][1..] == [c];
    FoldOne(step, step(step(s, a), b), c);
  }

  lemma FoldFive<S, E>(step: (S, E) -> S, s: S, a: E, b: E, c: E, d: E, e: E)
    ensures Fold(step, s, [a, b, c, d, e]) == step(step(step(step(step(s, a), b), c), d), e)
  {
    assert [a, b, c, d, e][1..] == [b, c, d, e] && [b, c, d, e][1..] == [c, d, e];
    FoldThree(step, step(step(s, a), b), c, d, e);
  }
}
