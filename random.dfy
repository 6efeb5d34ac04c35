/**
 The pseudo-random generator of rfxgen (src/random.c): splitmix64 expands a
 64-bit seed into a 128-bit state, and xoroshiro128++ advances that state and
 produces one output per call, shifted right by one bit.

 All arithmetic of the C code is on uint64_t, so every word here is a bv64,
 whose `+`, `*`, `<<` and `>>` wrap or truncate modulo 2^64 exactly as C's
 unsigned arithmetic does.

 Each C expression is stated once, as a function (Rotl, Mix, SplitMix64,
 Scramble, Output, Advance); the class Rng holds the static array s[2] and its
 methods update it by evaluating those functions in the order of the C code.
 */
module Random {

  /** The additive constant of splitmix64 (the 64-bit golden-ratio increment). */
  const Golden: bv64 := 0x9E37_79B9_7F4A_7C15

  /** The value nextRandom returns is below this bound (2^63). */
  const SignBit: bv64 := 0x8000_0000_0000_0000

  // ---------------------------------------------------------------------------
  // rotl
  // ---------------------------------------------------------------------------

  /** rotl: left rotation of a 64-bit word by k bits written as two shifts.
      The C code is only defined for 0 < k < 64 (a shift by 64 is undefined),
      hence the requires. */
  function Rotl(x: bv64, k: bv7): bv64
    requires 0 < k < 64
  {
    (x << k) | (x >> (64 - k))
  }

  /** For each amount the generator uses, Rotl is the true circular rotation,
      and rotating on by the complementary amount restores the word. */
  lemma RotlBy17(x: bv64)
    ensures Rotl(x, 17) == x.RotateLeft(17) && Rotl(Rotl(x, 17), 47) == x
  {
  }

  lemma RotlBy49(x: bv64)
    ensures Rotl(x, 49) == x.RotateLeft(49) && Rotl(Rotl(x, 49), 15) == x
  {
  }

  lemma RotlBy28(x: bv64)
    ensures Rotl(x, 28) == x.RotateLeft(28) && Rotl(Rotl(x, 28), 36) == x
  {
  }

  // ---------------------------------------------------------------------------
  // splitmix64
  // ---------------------------------------------------------------------------

  /** The splitmix64 finaliser: xor-shift by 30, multiply by 0xBF58476D1CE4E5B9,
      xor-shift by 27, multiply by 0x94D049BB133111EB, xor-shift by 31. */
  function Mix(z: bv64): bv64
  {
    var a := (z ^ (z >> 30)) * 0xBF58_476D_1CE4_E5B9;
    var b := (a ^ (a >> 27)) * 0x94D0_49BB_1331_11EB;
    b ^ (b >> 31)
  }

  /** Every step of the finaliser maps only 0 to 0 (the multipliers are odd),
      so the finaliser does too. */
  lemma MixZero(z: bv64)
    ensures Mix(z) == 0 <==> z == 0
  {
  }

  /** One result of splitmix64: the advanced counter that the C code writes
      back through its pointer argument, and the mixed output. */
  datatype SplitMixStep = SplitMixStep(counter: bv64, output: bv64)

  /** splitmix64: the caller's counter advances by exactly Golden modulo 2^64,
      and the output is the finaliser of the advanced counter, so it depends on
      nothing but the incoming counter; it is 0 exactly when that counter
      wraps to 0. */
  function SplitMix64(counter: bv64): (r: SplitMixStep)
    ensures r.counter == counter + Golden
    ensures r.output == Mix(r.counter)
    ensures r.output == 0 <==> r.counter == 0
  {
    var z := counter + Golden;
    MixZero(z);
    SplitMixStep(z, Mix(z))
  }

  // ---------------------------------------------------------------------------
  // The generator state and xoroshiro128++
  // ---------------------------------------------------------------------------

  /** The two words s[0] and s[1]. */
  datatype State = State(s0: bv64, s1: bv64)

  const Zero: State := State(0, 0)

  /** The state seedRandom(seed) leaves: the outputs of two splitmix64 calls
      that share one counter starting at the seed. It is never all-zero: the
      first output is 0 only when the counter wrapped to 0, and then the
      second counter is Golden, whose output is not 0. */
  function Expand(seed: bv64): (st: State)
    ensures st != Zero
  {
    var first := SplitMix64(seed);
    var second := SplitMix64(first.counter);
    State(first.output, second.output)
  }

  /** The seeded words in closed form: the finaliser of seed + Golden and of
      seed + 2 * Golden, both with wrap-around. */
  lemma ExpandWords(seed: bv64)
    ensures Expand(seed) == State(Mix(seed + Golden), Mix(seed + Golden + Golden))
  {
    var counter := seed + Golden;
    assert SplitMix64(seed).counter == counter;
    assert SplitMix64(counter).counter == counter + Golden;
  }

  /** The scrambler of xoroshiro128++: rotl(s0 + s1, 17) + s0 with wrap-around
      additions. */
  function Scramble(st: State): bv64
  {
    Rotl(st.s0 + st.s1, 17) + st.s0
  }

  /** The value nextRandom returns: the scrambled value without its low bit,
      so that it is non-negative when read as a signed 64-bit integer. */
  function Output(st: State): (r: bv64)
    ensures r < SignBit
  {
    Scramble(st) >> 1
  }

  /** The state nextRandom leaves, with t = s1 ^ s0 taken from the old words. */
  function Advance(st: State): State
  {
    var t := st.s1 ^ st.s0;
    State(Rotl(st.s0, 49) ^ t ^ (t << 21), Rotl(t, 28))
  }

  /** Only the all-zero state leads to the all-zero state, which is a fixed
      point: if the new s1, rotl(t, 28), is 0 then t is 0, so the new s0 is
      rotl(s0, 49) and being 0 makes s0 0, and then s1 = t ^ s0 is 0 too. */
  lemma AdvanceZero(st: State)
    ensures Advance(st) == Zero <==> st == Zero
  {
  }

  // ---------------------------------------------------------------------------
  // The generator object
  // ---------------------------------------------------------------------------

  /** The file-static array s[2], as an object that owns it. */
  class Rng {
    var s0: bv64
    var s1: bv64

    function CurrentState(): State
      reads this
    {
      State(s0, s1)
    }

    /** A static C array starts zeroed: before seedRandom the state is all-zero. */
    constructor ()
      ensures CurrentState() == Zero
    {
      s0, s1 := 0, 0;
    }

    /** seedRandom: two successive splitmix64 calls on a counter that starts at
        the seed. The new state depends on the seed alone, whatever the old
        state was, and is never all-zero. */
    method SeedRandom(seed: bv64)
      modifies this
      ensures CurrentState() == Expand(seed) && CurrentState() != Zero
    {
      var counter := seed;
      var step := SplitMix64(counter);
      counter := step.counter;
      s0 := step.output;
      step := SplitMix64(counter);
      counter := step.counter;
      s1 := step.output;
    }

    /** nextRandom: returns the scrambled value of the old state shifted right
        by one and replaces both words by the successor state. */
    method NextRandom() returns (r: bv64)
      modifies this
      ensures r == Output(old(CurrentState())) && r < SignBit
      ensures CurrentState() == Advance(old(CurrentState()))
      ensures old(CurrentState()) != Zero ==> CurrentState() != Zero
    {
      var current := State(s0, s1);
      AdvanceZero(current);
      r := Output(current);
      var next := Advance(current);
      s0, s1 := next.s0, next.s1;
    }
  }
}
