# rfxgen pseudo-random generator, modelled in Dafny

rfxgen draws its random numbers from `src/random.c`. That file keeps a
process-wide state of two 64-bit words `s[2]`. `seedRandom(seed)` fills them
with two successive outputs of splitmix64, and each of the two calls advances
a counter that starts at the seed. `nextRandom()` is xoroshiro128++. It returns
`rotl(s0 + s1, 17) + s0` shifted right by one bit, and it replaces the state by
its successor: with `t = s0 ^ s1`, the new state is
`(rotl(s0, 49) ^ t ^ (t << 21), rotl(t, 28))`.

The model has three modules:

- `Random` (`random.dfy`) covers the C file itself.
  - Every `uint64_t` is a `bv64`, so additions, multiplications and shifts
    wrap or truncate modulo 2^64 as in C.
  - Each C expression is a function:
    - `Rotl` is rotl;
    - `Mix` is the splitmix64 finaliser;
    - `SplitMix64` returns the advanced counter and the output;
    - `Expand` is the state seedRandom leaves;
    - `Scramble` and `Output` give the returned value;
    - `Advance` gives the successor state.
  - The class `Rng` owns the two words. Its methods `SeedRandom` and
    `NextRandom` update them by evaluating those functions in the C order, and
    they are proved to leave exactly the state the functions describe.
- `Orbit` (`orbit.dfy`) defines, for any state type, repeated application of a
  step function and the values read off along the way, with their algebra.
- `Stream` (`stream.dfy`) instantiates `Orbit` with `Advance` and `Output`.
  - It describes what a caller sees over many calls: the state after n calls,
    the first n outputs, and the behaviour of the all-zero state.
  - It checks concrete values for seed 0, which the verifier evaluates itself.
  - `Draw` makes n successive `NextRandom` calls on one object.

## Model

| member | source | states |
|---|---|---|
| Random.Rotl | src/random.c:10-12 | defines rotl as the bitwise or of x << k and x >> (64 - k) on 64-bit words and requires 0 < k < 64, where the C shifts are defined; its properties are proved by RotlBy17, RotlBy49 and RotlBy28 |
| Random.RotlBy17 | src/random.c:10-12 | rotl by 17 is the circular left rotation, and rotating the result by 47 gives back the word |
| Random.RotlBy49 | src/random.c:10-12 | rotl by 49 is the circular left rotation, and rotating the result by 15 gives back the word |
| Random.RotlBy28 | src/random.c:10-12 | rotl by 28 is the circular left rotation, and rotating the result by 36 gives back the word |
| Random.Mix | src/random.c:16-18 | defines the splitmix64 finaliser: xor-shift by 30, multiply by 0xBF58476D1CE4E5B9, xor-shift by 27, multiply by 0x94D049BB133111EB, xor-shift by 31, all modulo 2^64; MixZero proves it is 0 only at 0 |
| Random.MixZero | src/random.c:16-18 | the finaliser maps a word to 0 if and only if the word is 0 |
| Random.SplitMix64 | src/random.c:14-19 | the counter advances by exactly 0x9E3779B97F4A7C15 modulo 2^64; the output is the finaliser of the advanced counter alone; the output is 0 if and only if the advanced counter is 0 |
| Random.Expand | src/random.c:21-25 | the state produced from any seed is never all-zero |
| Random.ExpandWords | src/random.c:21-25 | the seeded words are mix(seed + C) and mix(seed + 2C), where C is the splitmix64 increment and the sums wrap around |
| Random.Scramble | src/random.c:31 | defines the xoroshiro128++ scrambler rotl(s0 + s1, 17) + s0 with wrap-around additions; Output proves the shifted value is below 2^63 |
| Random.Output | src/random.c:31-37 | the returned value is below 2^63, so it is non-negative as a signed 64-bit integer |
| Random.Advance | src/random.c:33-35 | defines the successor state: with t = s1 ^ s0, the new words are rotl(s0, 49) ^ t ^ (t << 21) and rotl(t, 28); AdvanceZero proves only the all-zero state leads to the all-zero state |
| Random.AdvanceZero | src/random.c:33-35 | the successor state is all-zero if and only if the state was all-zero |
| Random.Rng.constructor | src/random.c:8 | the static array starts all-zero |
| Random.Rng.SeedRandom | src/random.c:21-25 | the new state is Expand(seed) whatever the old state was, and it is not all-zero |
| Random.Rng.NextRandom | src/random.c:27-38 | returns Output of the old state (below 2^63); the new state is Advance of the old one; a non-zero state stays non-zero |
| Orbit.Iterate | src/random.c:27-38 | defines the state after n applications of a step function; IterateAdd proves m steps then n steps are m + n steps |
| Orbit.Trace | src/random.c:27-38 | n calls yield exactly n values |
| Orbit.IterateAdd | src/random.c:27-38 | m calls followed by n calls leave the same state as m + n calls |
| Orbit.TraceAt | src/random.c:27-38 | the i-th value read is the reading of the state after i steps |
| Orbit.TraceSplit | src/random.c:27-38 | the first m + n values are the first m values followed by the n values produced from the state after m steps |
| Stream.Iterate | src/random.c:27-38 | defines the state after n nextRandom calls as n applications of Advance; Next proves one more call applies Advance once more, and IterateZero proves it is all-zero only from the all-zero state |
| Stream.Outputs | src/random.c:27-38 | the first n values of the stream number exactly n |
| Stream.OutputsAt | src/random.c:27-38 | the i-th call returns Output of the state after i calls, and that value is below 2^63 |
| Stream.Next | src/random.c:27-38 | one more call advances the state once and appends the output of the state before it |
| Stream.IterateZero | src/random.c:27-38 | after any number of calls the state is all-zero if and only if it started all-zero |
| Stream.OutputsOfZero | src/random.c:27-38 | an unseeded generator (all-zero state) returns 0 on every call |
| Stream.SeedZeroValues | src/random.c:14-38 | seed 0 gives the state (0xE220A8397B1DCDAF, 0x6E789E6AA1B965F4), and the first three calls return 0x37B470F3F1323770, 0x5FCB8DBFA2A04A56, 0x24796F2AB7986F1C |
| Stream.DistinctFirstOutputs | src/random.c:21-38 | seeding with 1 and seeding with 2 give different first values of nextRandom |
| Stream.Draw | src/random.c:21-38 | n successive nextRandom calls return the first n values of the stream from the current state and leave the state n steps on, so the values after a seed depend on the seed alone |

## Left out

- Random.RotlBy17, Random.RotlBy49, Random.RotlBy28: that rotl is a rotation, and that 64 - k undoes it, is proved only for the three amounts the generator uses, not for a symbolic k. Rotl requires 0 < k < 64 because C leaves a shift by 64 undefined.
- Random.Rng.NextRandom: the body evaluates Output and Advance on the old state instead of mirroring the in-place `s1 ^= s0` statement by statement. The contract still fixes the returned value and both new words.
- The finaliser and the state step are both bijections on their 64-bit and 128-bit domains. Neither this nor any statement that distinct seeds give distinct states is proved.
- Statistical quality (period, equidistribution) is out of scope.
- The process-wide static state is one `Rng` object. Concurrent callers sharing it are not modelled.
- `random.h` and the callers of `seedRandom` and `nextRandom` elsewhere in rfxgen are not part of this model.
