// A scan over a text, one step at a time: a step takes a position and a state
// to the next position and state.

module Scans {

  type Step<!S> = (nat, S) -> (nat, S)

  /** So many steps, or as many as there are before the end. */
  function Steps<S>(step: Step<S>, size: nat, i: nat, st: S, n: nat): (nat, S)
    decreases n
  {
    if n == 0 || i >= size then (i, st)
    else
      var (j, st') := step(i, st);
      Steps(step, size, j, st', n - 1)
  }

  /** From `i` in the state `st` the scan comes to `j` in the state `st'`. */
  ghost predicate Goes<S(!new)>(step: Step<S>, size: nat, i: nat, st: S, j: nat, st': S) {
    exists n: nat :: Steps(step, size, i, st, n) == (j, st')
  }

  lemma {:induction false} StaysHere<S(!new)>(step: Step<S>, size: nat, i: nat, st: S)
    ensures Goes(step, size, i, st, i, st)
  {
    assert Steps(step, size, i, st, 0) == (i, st);
  }

  lemma {:induction false} GoesStep<S(!new)>(step: Step<S>, size: nat, i: nat, st: S, j: nat, st': S)
    requires i < size && step(i, st) == (j, st')
    ensures Goes(step, size, i, st, j, st')
  {
    assert Steps(step, size, j, st', 0) == (j, st');
    assert Steps(step, size, i, st, 1) == (j, st');
  }

  lemma {:induction false} StepsAdd<S(!new)>(step: Step<S>, size: nat, i: nat, st: S, n: nat, m: nat)
    ensures var (j, st') := Steps(step, size, i, st, n);
            Steps(step, size, i, st, n + m) == Steps(step, size, j, st', m)
    decreases n
  {
    if n > 0 && i < size {
      var (j, st') := step(i, st);
      StepsAdd(step, size, j, st', n - 1, m);
    } else if i >= size {
      AtEnd(step, size, i, st, m);
    }
  }

  lemma {:induction false} AtEnd<S(!new)>(step: Step<S>, size: nat, i: nat, st: S, m: nat)
    requires i >= size
    ensures Steps(step, size, i, st, m) == (i, st)
  {
  }

  lemma {:induction false} GoesOn<S(!new)>(step: Step<S>, size: nat, i: nat, st: S, j: nat, st': S, k: nat, st'': S)
    requires Goes(step, size, i, st, j, st') && Goes(step, size, j, st', k, st'')
    ensures Goes(step, size, i, st, k, st'')
  {
    var n: nat :| Steps(step, size, i, st, n) == (j, st');
    var m: nat :| Steps(step, size, j, st', m) == (k, st'');
    StepsAdd(step, size, i, st, n, m);
    assert Steps(step, size, i, st, n + m) == (k, st'');
  }
}
