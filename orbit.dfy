/**
 Repeated application of a step function and the values read off along the
 way, for any state type; the generator's stream is the instance whose step is
 Advance and whose reading is Output.
 */
module Orbit {

  /** The state after n steps from x. */
  function Iterate<S>(step: S -> S, x: S, n: nat): S
    decreases n
  {
    if n == 0 then x else Iterate(step, step(x), n - 1)
  }

  /** The values read off the first n states from x. */
  function Trace<S, T>(step: S -> S, read: S -> T, x: S, n: nat): (r: seq<T>)
    ensures |r| == n
    decreases n
  {
    if n == 0 then [] else [read(x)] + Trace(step, read, step(x), n - 1)
  }

  /** m steps followed by n steps are m + n steps. */
  lemma {:induction false} IterateAdd<S>(step: S -> S, x: S, m: nat, n: nat)
    ensures Iterate(step, Iterate(step, x, m), n) == Iterate(step, x, m + n)
    decreases m
  {
    if m > 0 {
      IterateAdd(step, step(x), m - 1, n);
    }
  }

  /** The i-th value read is the reading of the state after i steps. */
  lemma {:induction false} TraceAt<S, T>(step: S -> S, read: S -> T, x: S, n: nat, i: nat)
    requires i < n
    ensures Trace(step, read, x, n)[i] == read(Iterate(step, x, i))
    decreases i
  {
    if i > 0 {
      TraceAt(step, read, step(x), n - 1, i - 1);
    }
  }

  /** The first m + n values are the first m values followed by the n values
      read from the state the first m steps reach. */
  lemma TraceSplit<S, T>(step: S -> S, read: S -> T, x: S, m: nat, n: nat)
    ensures Trace(step, read, x, m + n)
         == Trace(step, read, x, m) + Trace(step, read, Iterate(step, x, m), n)
  {
    var whole := Trace(step, read, x, m + n);
    var joined := Trace(step, read, x, m) + Trace(step, read, Iterate(step, x, m), n);
    forall i | 0 <= i < m + n
      ensures whole[i] == joined[i]
    {
      TraceAt(step, read, x, m + n, i);
      if i < m {
        TraceAt(step, read, x, m, i);
      } else {
        TraceAt(step, read, Iterate(step, x, m), n, i - m);
        IterateAdd(step, x, m, i - m);
      }
    }
  }
}
