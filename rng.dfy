/**
 * The noise generator of band extension: a four-word xorshift generator whose words are
 * combined with 32-bit two's-complement operators.
 */
module NoiseGenerator {
  import opened JsInt

  /** The four state words A, B, C and D. */
  datatype RngState = RngState(A: int, B: int, C: int, D: int)

  /** `0x4D93 * (seed ^ (seed >> 14))`, a product of numbers, not of 32-bit words. */
  function StartValue(seed: int): int
  {
    0x4D93 * Xor(seed, Sar(seed, 14))
  }

  /** One step: the words move down one place and A takes the mixed value. */
  function Step(s: RngState): (r: RngState)
    ensures r.B == s.A && r.C == s.B && r.D == s.C
    ensures -TWO_31 <= r.A < TWO_31
  {
    var t := Xor(s.D, Shl(s.D, 5));
    RngState(Xor(Xor(t, s.A), Sar(Xor(t, Sar(s.A, 5)), 4)), s.A, s.B, s.C)
  }

  predicate Int32Words(s: RngState)
  {
    -TWO_31 <= s.A < TWO_31 && -TWO_31 <= s.B < TWO_31 && -TWO_31 <= s.C < TWO_31 && -TWO_31 <= s.D < TWO_31
  }

  class Atrac9Rng {
    var StateA: int
    var StateB: int
    var StateC: int
    var StateD: int

    function State(): RngState
      reads this
    {
      RngState(StateA, StateB, StateC, StateD)
    }

    /** D is minus the start value, and C, B and A count up from it by one. */
    constructor(seed: int)
      ensures StateD == -StartValue(seed)
      ensures StateA == StateD + 3 && StateB == StateD + 2 && StateC == StateD + 1
      ensures State() == Seeded(seed)
    {
      var startValue := 0x4D93 * Xor(seed, Sar(seed, 14));
      StateA := 3 - startValue;
      StateB := 2 - startValue;
      StateC := 1 - startValue;
      StateD := 0 - startValue;
    }

    /**
     * A generator holding the words `s`: the state a channel's generator was left in by its
     * last noise fill, taken up again by the next one.
     */
    constructor Resumed(s: RngState)
      ensures State() == s
    {
      StateA, StateB, StateC, StateD := s.A, s.B, s.C, s.D;
    }

    /** Advances one step and returns the new A, a 32-bit word. */
    method Next() returns (value: int32)
      modifies this
      ensures State() == Step(old(State()))
      ensures value == StateA
    {
      var t := Xor(StateD, Shl(StateD, 5));
      StateD := StateC;
      StateC := StateB;
      StateB := StateA;
      StateA := Xor(Xor(t, StateA), Sar(Xor(t, Sar(StateA, 5)), 4));
      return StateA;
    }
  }

  /** The state a generator starts in. */
  function Seeded(seed: int): RngState
  {
    var d := -StartValue(seed);
    RngState(d + 3, d + 2, d + 1, d)
  }

  /** n applications of a step function, from s. */
  function Iterate(f: RngState -> RngState, s: RngState, n: nat): RngState
  {
    if n == 0 then s else f(Iterate(f, s, n - 1))
  }

  /** The A words of the first n states that iterating f from s reaches, in order. */
  function Draws(f: RngState -> RngState, s: RngState, n: nat): (r: seq<int>)
    ensures |r| == n
  {
    if n == 0 then [] else Draws(f, s, n - 1) + [Iterate(f, s, n).A]
  }

  /** Iterating m times and then j more times is iterating m + j times. */
  lemma {:induction false} IterateAdd(f: RngState -> RngState, s: RngState, m: nat, j: nat)
    ensures Iterate(f, Iterate(f, s, m), j) == Iterate(f, s, m + j)
    decreases j
  {
    if j > 0 {
      IterateAdd(f, s, m, j - 1);
    }
  }

  /** Draw k is the A word after k + 1 iterations. */
  lemma {:induction false} DrawAt(f: RngState -> RngState, s: RngState, n: nat, k: nat)
    requires k < n
    ensures Draws(f, s, n)[k] == Iterate(f, s, k + 1).A
  {
    if k < n - 1 {
      DrawAt(f, s, n - 1, k);
    }
  }

  /** The state after n steps from s. */
  function After(s: RngState, n: nat): RngState
  {
    Iterate(Step, s, n)
  }

  /** The values the first n calls of next return, in order. */
  function Outputs(s: RngState, n: nat): (r: seq<int>)
    ensures |r| == n
  {
    Draws(Step, s, n)
  }

  /** One step more from where n steps left the generator. */
  lemma AfterStep(s: RngState, n: nat)
    ensures After(s, n + 1) == Step(After(s, n))
  {
  }

  /** Call k of next returns the A word of the state after k + 1 steps. */
  lemma OutputAt(s: RngState, n: nat, k: nat)
    requires k < n
    ensures Outputs(s, n)[k] == After(s, k + 1).A
  {
    DrawAt(Step, s, n, k);
  }

  /**
   * The output stream is a function of the seed alone: generators seeded alike produce the same
   * values, and a longer run extends a shorter one.
   */
  lemma OutputsExtend(seed: int, m: nat, n: nat)
    requires m <= n
    ensures Outputs(Seeded(seed), m) == Outputs(Seeded(seed), n)[..m]
  {
    var s := Seeded(seed);
    forall k | 0 <= k < m
      ensures Outputs(s, m)[k] == Outputs(s, n)[k]
    {
      DrawAt(Step, s, m, k);
      DrawAt(Step, s, n, k);
    }
  }

  /**
   * A generator that is kept and used again continues its stream: the n values drawn after m
   * earlier draws are values m to m + n of one uninterrupted run.
   */
  lemma NoiseContinues(s: RngState, m: nat, n: nat)
    ensures Outputs(After(s, m), n) == Outputs(s, m + n)[m..]
  {
    DrawsContinue(Step, s, m, n);
  }

  /** The draws from where m iterations left off are draws m to m + n from the start. */
  lemma DrawsContinue(f: RngState -> RngState, s: RngState, m: nat, n: nat)
    ensures Draws(f, Iterate(f, s, m), n) == Draws(f, s, m + n)[m..]
  {
    forall k | 0 <= k < n
      ensures Draws(f, Iterate(f, s, m), n)[k] == Draws(f, s, m + n)[m + k]
    {
      DrawAt(f, Iterate(f, s, m), n, k);
      DrawAt(f, s, m + n, m + k);
      IterateAdd(f, s, m, k + 1);
    }
  }

  /**
   * For the seeds band extension feeds it, 0 to 65535, the start value stays below 2^31, so all four
   * words start as 32-bit values.
   */
  lemma SeededWords(seed: int)
    requires 0 <= seed < 0x1_0000
    ensures Int32Words(Seeded(seed))
    ensures 0 <= StartValue(seed) < 0x4D93 * 0x1_0000
  {
    var x := XorOfShifted(seed);
    assert 0x4D93 * x < 0x4D93 * 0x1_0000;
  }

  /** `seed ^ (seed >> 14)` of a 16-bit seed is a 16-bit value. */
  lemma XorOfShifted(seed: int) returns (x: int)
    requires 0 <= seed < 0x1_0000
    ensures x == Xor(seed, Sar(seed, 14)) && 0 <= x < 0x1_0000
  {
    var p := Pow2(16);
    Pow2Of32();
    Pow2Monotone(14, 16);
    SarNonNegative(seed, 14);
    var high := seed / Pow2(14);
    assert 0 <= high <= seed;
    var n := 32;
    BitXorNarrow(seed, high, 16, n);
    x := Xor(seed, Sar(seed, 14));
  }

  /** Bitwise exclusive or of two m-bit values is an m-bit value, whatever width it is taken at. */
  lemma {:induction false} BitXorNarrow(a: nat, b: nat, m: nat, n: nat)
    requires a < Pow2(m) && b < Pow2(m)
    ensures BitXor(a, b, n) < Pow2(m)
  {
    if n > 0 {
      if m == 0 {
        BitXorNarrow(a / 2, b / 2, 0, n - 1);
      } else {
        BitXorNarrow(a / 2, b / 2, m - 1, n - 1);
      }
    }
  }

  /** Every step keeps the words within 32 bits, so once they start there they stay there. */
  lemma {:induction false} AfterWords(s: RngState, n: nat)
    requires Int32Words(s)
    ensures Int32Words(After(s, n))
  {
    if n > 0 {
      AfterWords(s, n - 1);
      StepWords(After(s, n - 1));
    }
  }

  lemma StepWords(s: RngState)
    requires Int32Words(s)
    ensures Int32Words(Step(s))
  {
  }
}
