/** Runs of a step machine: a state and the steps taken from it. */
module Runs {
  /** The state after the steps, in order. */
  function Play<S, E>(next: (S, E) -> S, s: S, steps: seq<E>): S
    decreases |steps|
  {
    if steps == [] then s else Play(next, next(s, steps[0]), steps[1..])
  }

  lemma {:induction false} Concat<S, E>(next: (S, E) -> S, s: S, a: seq<E>, b: seq<E>)
    ensures Play(next, s, a + b) == Play(next, Play(next, s, a), b)
    decreases |a|
  {
    if a == [] {
      assert a + b == b;
    } else {
      assert (a + b)[1..] == a[1..] + b;
      Concat(next, next(s, a[0]), a[1..], b);
    }
  }

  lemma {:induction false} Nothing<S, E>(next: (S, E) -> S, s: S)
    ensures Play(next, s, []) == s
  {
  }

  lemma {:induction false} One<S, E>(next: (S, E) -> S, s: S, a: E)
    ensures Play(next, s, [a]) == next(s, a)
  {
  }

  lemma {:induction false} Two<S, E>(next: (S, E) -> S, s: S, a: E, b: E)
    ensures Play(next, s, [a, b]) == next(next(s, a), b)
  {
    assert [a, b][1..] == [b];
    One(next, next(s, a), b);
  }

  lemma {:induction false} Three<S, E>(next: (S, E) -> S, s: S, a: E, b: E, c: E)
    ensures Play(next, s, [a, b, c]) == next(next(next(s, a), b), c)
  {
    assert [a, b, c][1..] == [b, c];
    Two(next, next(s, a), b, c);
  }
}
