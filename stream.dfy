/**
 The stream of values a caller sees when it calls nextRandom again and again,
 as the instance of Orbit whose step is Advance and whose reading is Output.
 */
module Stream {
  import opened Random
  import Orbit

  /** The state after n calls of nextRandom, starting from st. */
  function Iterate(st: State, n: nat): State
  {
    Orbit.Iterate(Advance, st, n)
  }

  /** The values returned by the first n calls of nextRandom, starting from st. */
  function Outputs(st: State, n: nat): (r: seq<bv64>)
    ensures |r| == n
  {
    Orbit.Trace(Advance, Output, st, n)
  }

  /** The i-th call returns the output of the state after i calls, which is
      below 2^63. */
  lemma OutputsAt(st: State, n: nat, i: nat)
    requires i < n
    ensures Outputs(st, n)[i] == Output(Iterate(st, i)) && Outputs(st, n)[i] < SignBit
  {
    Orbit.TraceAt(Advance, Output, st, n, i);
  }

  /** One more call advances the state once and appends the output of the
      state before it. */
  lemma Next(st: State, n: nat)
    ensures Iterate(st, n + 1) == Advance(Iterate(st, n))
    ensures Outputs(st, n + 1) == Outputs(st, n) + [Output(Iterate(st, n))]
  {
    Orbit.IterateAdd(Advance, st, n, 1);
    Orbit.TraceSplit(Advance, Output, st, n, 1);
  }

  /** However many calls are made, the state is all-zero exactly when it
      started all-zero: a seeded generator never reaches the zero state, and
      the unseeded one never leaves it. */
  lemma {:induction false} IterateZero(st: State, n: nat)
    ensures Iterate(st, n) == Zero <==> st == Zero
    decreases n
  {
    if n > 0 {
      AdvanceZero(st);
      IterateZero(Advance(st), n - 1);
    }
  }

  /** The all-zero state (the generator before seedRandom) returns 0 on every
      call. */
  lemma OutputsOfZero(n: nat)
    ensures forall i :: 0 <= i < n ==> Outputs(Zero, n)[i] == 0
  {
    forall i | 0 <= i < n
      ensures Outputs(Zero, n)[i] == 0
    {
      OutputsAt(Zero, n, i);
      IterateZero(Zero, i);
    }
  }

  /** Seeding with 0 gives the two splitmix64 outputs for counter 0, and the
      first three calls return these values. */
  lemma SeedZeroValues()
    ensures Expand(0) == State(0xE220_A839_7B1D_CDAF, 0x6E78_9E6A_A1B9_65F4)
    ensures Outputs(Expand(0), 3) == [0x37B4_70F3_F132_3770, 0x5FCB_8DBF_A2A0_4A56, 0x2479_6F2A_B798_6F1C]
  {
    ExpandWords(0);
  }

  /** Seeding with 1 and seeding with 2 give different first values. */
  lemma DistinctFirstOutputs()
    ensures Output(Expand(1)) != Output(Expand(2))
  {
    ExpandWords(1);
    ExpandWords(2);
  }

  /** n successive calls of nextRandom on rng: they return the first n values of
      the stream from rng's state and leave the state n steps on. Seeding the
      same value and calling the same number of times therefore always gives
      the same values. */
  method Draw(rng: Rng, n: nat) returns (values: seq<bv64>)
    modifies rng
    ensures values == Outputs(old(rng.CurrentState()), n)
    ensures rng.CurrentState() == Iterate(old(rng.CurrentState()), n)
  {
    ghost var start := rng.CurrentState();
    values := [];
    var i := 0;
    while i < n
      invariant 0 <= i <= n
      invariant values == Outputs(start, i)
      invariant rng.CurrentState() == Iterate(start, i)
    {
      var x := rng.NextRandom();
      Next(start, i);
      values := values + [x];
      i := i + 1;
    }
  }
}
