// Runs of a step function: possible inputs taken one after the other.

module Runs {

  function Run<S, I>(step: (S, I) -> S, s: S, inputs: seq<I>): S
    decreases inputs
  {
    if inputs == [] then s else Run(step, step(s, inputs[0]), inputs[1..])
  }

  predicate Possible<S, I>(can: (S, I) -> bool, step: (S, I) -> S, s: S, inputs: seq<I>)
    decreases inputs
  {
    inputs != [] ==> can(s, inputs[0]) && Possible(can, step, step(s, inputs[0]), inputs[1..])
  }

  lemma RunFirst<S, I>(can: (S, I) -> bool, step: (S, I) -> S, s: S, first: I, rest: seq<I>)
    ensures Run(step, s, [first] + rest) == Run(step, step(s, first), rest)
    ensures Possible(can, step, s, [first] + rest) <==> can(s, first) && Possible(can, step, step(s, first), rest)
  {
    assert ([first] + rest)[1..] == rest;
  }

  lemma {:induction false} RunAppend<S, I>(step: (S, I) -> S, s: S, a: seq<I>, b: seq<I>)
    ensures Run(step, s, a + b) == Run(step, Run(step, s, a), b)
    decreases a
  {
    if a == [] {
      assert a + b == b;
    } else {
      assert (a + b)[0] == a[0] && (a + b)[1..] == a[1..] + b;
      RunAppend(step, step(s, a[0]), a[1..], b);
    }
  }

  lemma {:induction false} PossibleAppend<S, I>(can: (S, I) -> bool, step: (S, I) -> S, s: S, a: seq<I>, b: seq<I>)
    requires Possible(can, step, s, a) && Possible(can, step, Run(step, s, a), b)
    ensures Possible(can, step, s, a + b)
    decreases a
  {
    if a == [] {
      assert a + b == b;
    } else {
      assert (a + b)[0] == a[0] && (a + b)[1..] == a[1..] + b;
      PossibleAppend(can, step, step(s, a[0]), a[1..], b);
    }
  }
}
