/** The sampler's 64-bit generator: a counter with an odd increment, and an output
    mix that is a permutation of the 64-bit words. */
module SplitMix {
  import opened Basics

  function NextState(state: bv64): bv64 {
    state + 0x9E37_79B9_7F4A_7C15
  }

  function Shift30(x: bv64): bv64 { x ^ (x >> 30) }
  function Shift27(x: bv64): bv64 { x ^ (x >> 27) }
  function Shift31(x: bv64): bv64 { x ^ (x >> 31) }
  function Times1(x: bv64): bv64 { x * 0xBF58_476D_1CE4_E5B9 }
  function Times2(x: bv64): bv64 { x * 0x94D0_49BB_1331_11EB }

  /** The output mix of one state. */
  function Mix(state: bv64): bv64 {
    Shift31(Times2(Shift27(Times1(Shift30(state)))))
  }

  function Half(v: bv64): bv64 { v >> 1 }

  function Pow2(k: nat): nat {
    if k == 0 then 1 else 2 * Pow2(k - 1)
  }

  /** The number a word stands for, read off its low k bits. */
  function Value(c: bv64, k: nat): (n: nat)
    ensures n < Pow2(k)
    decreases k
  {
    if k == 0 then 0 else 2 * Value(Half(c), k - 1) + (if c & 1 == 1 then 1 else 0)
  }

  lemma {:induction false} Pow2Add(i: nat, j: nat)
    ensures Pow2(i + j) == Pow2(i) * Pow2(j)
  {
    if i > 0 {
      Pow2Add(i - 1, j);
      TwiceProduct(Pow2(i - 1), Pow2(j));
    }
  }

  lemma TwiceProduct(a: nat, b: nat)
    ensures 2 * a * b == 2 * (a * b)
  {
  }

  lemma Pow2Of53()
    ensures Pow2(53) == 9007199254740992
  {
    assert Pow2(10) == 1024 && Pow2(3) == 8;
    Pow2Add(10, 10);
    Pow2Add(20, 20);
    Pow2Add(40, 10);
    Pow2Add(50, 3);
  }

  /** Uniform in [0, 1): the top 53 bits. */
  function Uniform(value: bv64): (u: real)
    ensures 0.0 <= u < 1.0
  {
    Pow2Of53();
    Value(value >> 11, 53) as real / 9007199254740992.0
  }

  /** The first three outputs from seed zero. */
  lemma KnownOutputs()
    ensures Mix(NextState(0)) == 0xE220_A839_7B1D_CDAF
    ensures Mix(NextState(NextState(0))) == 0x6E78_9E6A_A1B9_65F4
    ensures Mix(NextState(NextState(NextState(0)))) == 0x06C4_5D18_8009_454F
  {
  }

  class SplitMix64 {
    var state: bv64

    constructor (seed: bv64)
      ensures state == seed
    {
      state := seed;
    }

    method NextU64() returns (value: bv64)
      modifies this
      ensures state == NextState(old(state)) && value == Mix(state)
      ensures state == old(state) + 0x9E37_79B9_7F4A_7C15
    {
      state := NextState(state);
      var z := state;
      z := Times1(Shift30(z));
      z := Times2(Shift27(z));
      value := Shift31(z);
    }

    method NextDouble() returns (u: real)
      modifies this
      ensures state == NextState(old(state)) && u == Uniform(Mix(state))
    {
      var value := NextU64();
      u := Uniform(value);
    }
  }

  // ----- the mix is a permutation -------------------------------------------

  function Unshift30(x: bv64): bv64 { x ^ (x >> 30) ^ (x >> 60) }
  function Unshift27(x: bv64): bv64 { x ^ (x >> 27) ^ (x >> 54) }
  function Unshift31(x: bv64): bv64 { x ^ (x >> 31) ^ (x >> 62) }
  function Untimes1(x: bv64): bv64 { x * 0x96DE_1B17_3F11_9089 }
  function Untimes2(x: bv64): bv64 { x * 0x3196_42B2_D24D_8EC3 }

  function Unmix(value: bv64): bv64 {
    Unshift30(Untimes1(Unshift27(Untimes2(Unshift31(value)))))
  }

  // Each lemma first shows the identity with the inner step written out, then for
  // the named steps.

  lemma Inverse30(x: bv64)
    ensures Unshift30(Shift30(x)) == x && Shift30(Unshift30(x)) == x
  {
    assert Unshift30(x ^ (x >> 30)) == x;
    assert Shift30(x ^ (x >> 30) ^ (x >> 60)) == x;
  }

  lemma Inverse27(x: bv64)
    ensures Unshift27(Shift27(x)) == x && Shift27(Unshift27(x)) == x
  {
    assert Unshift27(x ^ (x >> 27)) == x;
    assert Shift27(x ^ (x >> 27) ^ (x >> 54)) == x;
  }

  lemma Inverse31(x: bv64)
    ensures Unshift31(Shift31(x)) == x && Shift31(Unshift31(x)) == x
  {
    assert Unshift31(x ^ (x >> 31)) == x;
    assert Shift31(x ^ (x >> 31) ^ (x >> 62)) == x;
  }

  lemma InverseTimes1(x: bv64)
    ensures Untimes1(Times1(x)) == x && Times1(Untimes1(x)) == x
  {
    assert Untimes1(x * 0xBF58_476D_1CE4_E5B9) == x;
    assert Times1(x * 0x96DE_1B17_3F11_9089) == x;
  }

  lemma InverseTimes2(x: bv64)
    ensures Untimes2(Times2(x)) == x && Times2(Untimes2(x)) == x
  {
    assert Untimes2(x * 0x94D0_49BB_1331_11EB) == x;
    assert Times2(x * 0x3196_42B2_D24D_8EC3) == x;
  }

  /** No two states give the same output, and every output is given. */
  lemma MixIsPermutation(x: bv64)
    ensures Unmix(Mix(x)) == x
    ensures Mix(Unmix(x)) == x
  {
    Inverse30(x);
    InverseTimes1(Shift30(x));
    Inverse27(Times1(Shift30(x)));
    InverseTimes2(Shift27(Times1(Shift30(x))));
    Inverse31(Times2(Shift27(Times1(Shift30(x)))));
    Inverse31(x);
    InverseTimes2(Unshift31(x));
    Inverse27(Untimes2(Unshift31(x)));
    InverseTimes1(Unshift27(Untimes2(Unshift31(x))));
    Inverse30(Untimes1(Unshift27(Untimes2(Unshift31(x)))));
  }

  // ----- the counter visits every word --------------------------------------

  /** The state after n draws. */
  function StateAfter(seed: bv64, n: nat): bv64 {
    if n == 0 then seed else NextState(StateAfter(seed, n - 1))
  }

  function Double(v: bv64): bv64 { v << 1 }
  function DoubleOne(v: bv64): bv64 { (v << 1) | 1 }
  function Inc(v: bv64): bv64 { v + 1 }

  /** The low 64 bits of n, bit by bit. */
  function Word(n: nat): bv64 {
    if n == 0 then 0
    else if n % 2 == 1 then DoubleOne(Word(n / 2))
    else Double(Word(n / 2))
  }

  lemma Carry(v: bv64)
    ensures Inc(Double(v)) == DoubleOne(v) && Inc(DoubleOne(v)) == Double(Inc(v))
  {
    assert Inc(v << 1) == DoubleOne(v);
    assert Inc((v << 1) | 1) == Double(v + 1);
  }

  /** Counting up in the word is counting up in the numbers. */
  lemma {:induction false} WordSucc(n: nat)
    ensures Word(n + 1) == Inc(Word(n))
  {
    if n == 0 {
      assert Word(1) == DoubleOne(Word(0));
      Carry(0);
    } else if n % 2 == 0 {
      assert (n + 1) / 2 == n / 2;
      Carry(Word(n / 2));
    } else {
      assert (n + 1) / 2 == n / 2 + 1;
      Carry(Word(n / 2));
      WordSucc(n / 2);
    }
  }

  // ----- a word is zero exactly when the number is a multiple of 2^64 -------

  function Shifted(v: bv64, j: nat): bv64
    decreases j
  {
    if j == 0 then v else Shifted(Double(v), j - 1)
  }

  lemma {:induction false} ShiftedZero(j: nat)
    ensures Shifted(0, j) == 0
  {
    assert Double(0) == 0;
    if j > 0 {
      ShiftedZero(j - 1);
    }
  }

  lemma {:induction false} ShiftedAdd(v: bv64, i: nat, j: nat)
    ensures Shifted(Shifted(v, i), j) == Shifted(v, i + j)
    decreases i
  {
    if i > 0 {
      ShiftedAdd(Double(v), i - 1, j);
    }
  }

  function Halved(v: bv64, j: nat): bv64
    decreases j
  {
    if j == 0 then v else Halved(Half(v), j - 1)
  }

  lemma {:induction false} HalvedAdd(v: bv64, i: nat, j: nat)
    ensures Halved(Halved(v, i), j) == Halved(v, i + j)
    decreases i
  {
    if i > 0 {
      HalvedAdd(Half(v), i - 1, j);
    }
  }

  // Repeated steps as single shifts, doubling the count each time.

  function Left2(v: bv64): bv64 { v << 2 }
  function Left4(v: bv64): bv64 { v << 4 }
  function Left8(v: bv64): bv64 { v << 8 }
  function Left16(v: bv64): bv64 { v << 16 }
  function Left32(v: bv64): bv64 { v << 32 }
  function Right2(v: bv64): bv64 { v >> 2 }
  function Right4(v: bv64): bv64 { v >> 4 }
  function Right8(v: bv64): bv64 { v >> 8 }
  function Right16(v: bv64): bv64 { v >> 16 }
  function Right32(v: bv64): bv64 { v >> 32 }

  lemma By2(v: bv64)
    ensures Shifted(v, 2) == Left2(v) && Halved(v, 2) == Right2(v)
  {
    assert Double(v << 1) == Left2(v) && Half(v >> 1) == Right2(v);
    assert Shifted(v, 2) == Shifted(Double(v), 1) && Halved(v, 2) == Halved(Half(v), 1);
  }

  lemma Twice2(v: bv64)
    ensures Left2(Left2(v)) == Left4(v) && Right2(Right2(v)) == Right4(v)
  {
    assert Left2(v << 2) == Left4(v) && Right2(v >> 2) == Right4(v);
  }

  lemma Twice4(v: bv64)
    ensures Left4(Left4(v)) == Left8(v) && Right4(Right4(v)) == Right8(v)
  {
    assert Left4(v << 4) == Left8(v) && Right4(v >> 4) == Right8(v);
  }

  lemma Twice8(v: bv64)
    ensures Left8(Left8(v)) == Left16(v) && Right8(Right8(v)) == Right16(v)
  {
    assert Left8(v << 8) == Left16(v) && Right8(v >> 8) == Right16(v);
  }

  lemma Twice16(v: bv64)
    ensures Left16(Left16(v)) == Left32(v) && Right16(Right16(v)) == Right32(v)
  {
    assert Left16(v << 16) == Left32(v) && Right16(v >> 16) == Right32(v);
  }

  lemma By4(v: bv64)
    ensures Shifted(v, 4) == Left4(v) && Halved(v, 4) == Right4(v)
  {
    ShiftedAdd(v, 2, 2);
    HalvedAdd(v, 2, 2);
    By2(v);
    By2(Left2(v));
    By2(Right2(v));
    Twice2(v);
  }

  lemma By8(v: bv64)
    ensures Shifted(v, 8) == Left8(v) && Halved(v, 8) == Right8(v)
  {
    ShiftedAdd(v, 4, 4);
    HalvedAdd(v, 4, 4);
    By4(v);
    By4(Left4(v));
    By4(Right4(v));
    Twice4(v);
  }

  lemma By16(v: bv64)
    ensures Shifted(v, 16) == Left16(v) && Halved(v, 16) == Right16(v)
  {
    ShiftedAdd(v, 8, 8);
    HalvedAdd(v, 8, 8);
    By8(v);
    By8(Left8(v));
    By8(Right8(v));
    Twice8(v);
  }

  lemma By32(v: bv64)
    ensures Shifted(v, 32) == Left32(v) && Halved(v, 32) == Right32(v)
  {
    ShiftedAdd(v, 16, 16);
    HalvedAdd(v, 16, 16);
    By16(v);
    By16(Left16(v));
    By16(Right16(v));
    Twice16(v);
  }

  function Left63(v: bv64): bv64 {
    Double(Left2(Left4(Left8(Left16(Left32(v))))))
  }

  lemma By7(v: bv64)
    ensures Shifted(v, 7) == Double(Left2(Left4(v)))
  {
    ShiftedAdd(v, 4, 3);
    By4(v);
    ShiftedAdd(Left4(v), 2, 1);
    By2(Left4(v));
    assert Shifted(Left2(Left4(v)), 1) == Double(Left2(Left4(v)));
  }

  lemma By31(v: bv64)
    ensures Shifted(v, 31) == Double(Left2(Left4(Left8(Left16(v)))))
  {
    ShiftedAdd(v, 16, 15);
    By16(v);
    ShiftedAdd(Left16(v), 8, 7);
    By8(Left16(v));
    By7(Left8(Left16(v)));
  }

  lemma By63(v: bv64)
    ensures Shifted(v, 63) == Left63(v)
  {
    ShiftedAdd(v, 32, 31);
    By32(v);
    By31(Left32(v));
  }

  /** The lowest bit of an odd word is still there after 63 doublings. */
  lemma OddSurvives(v: bv64)
    ensures Shifted(DoubleOne(v), 63) != 0
  {
    By63(DoubleOne(v));
    assert Left63((v << 1) | 1) == 0x8000_0000_0000_0000;
  }

  /** Below 2^k, a non-zero number keeps a set bit among the low k bits. */
  lemma {:induction false} WordNonZero(n: nat, k: nat)
    requires 0 < n < Pow2(k) && k <= 64
    ensures Shifted(Word(n), 64 - k) != 0
    decreases k
  {
    if n % 2 == 1 {
      ShiftedAdd(Word(n), 64 - k, k - 1);
      ShiftedZero(k - 1);
      OddSurvives(Word(n / 2));
    } else {
      WordNonZero(n / 2, k - 1);
    }
  }

  lemma SplitBit(c: bv64)
    ensures c & 1 == 1 ==> DoubleOne(Half(c)) == c
    ensures c & 1 != 1 ==> Double(Half(c)) == c
  {
  }

  lemma HalvedAway(c: bv64)
    ensures Halved(c, 64) == 0
  {
    HalvedAdd(c, 32, 32);
    By32(c);
    By32(Right32(c));
    assert Right32(c >> 32) == 0;
  }

  /** Every word is the low 64 bits of a number below 2^64. */
  lemma {:induction false} WordOfValue(c: bv64, k: nat)
    requires Halved(c, k) == 0
    ensures Value(c, k) < Pow2(k) && Word(Value(c, k)) == c
    decreases k
  {
    if k > 0 {
      WordOfValue(Half(c), k - 1);
      SplitBit(c);
      var n := Value(c, k);
      assert n / 2 == Value(Half(c), k - 1);
      assert Double(0) == 0;
    }
  }

  /** Dropping the low j bits divides by 2^j. */
  lemma {:induction false} ValueHalved(c: bv64, k: nat, j: nat) returns (r: nat)
    requires j <= k
    ensures r < Pow2(j) && Value(c, k) == Value(Halved(c, j), k - j) * Pow2(j) + r
    decreases j
  {
    if j == 0 {
      r := 0;
    } else {
      var high := ValueHalved(Half(c), k - 1, j - 1);
      r := OneMoreBit(c, k, Value(Halved(c, j), k - j), Pow2(j - 1), high);
    }
  }

  lemma OneMoreBit(c: bv64, k: nat, q: nat, p: nat, high: nat) returns (r: nat)
    requires k > 0 && high < p && Value(Half(c), k - 1) == q * p + high
    ensures r < 2 * p && Value(c, k) == q * (2 * p) + r
  {
    r := if c & 1 == 1 then 2 * high + 1 else 2 * high;
    TwiceOver(Value(Half(c), k - 1), q, p, high);
  }

  lemma TwiceOver(n: nat, q: nat, p: nat, high: nat)
    requires n == q * p + high
    ensures 2 * n == q * (2 * p) + 2 * high
  {
  }

  function Right3(v: bv64): bv64 { v >> 3 }
  function Right11(v: bv64): bv64 { v >> 11 }

  lemma Joined3(v: bv64)
    ensures Half(Right2(v)) == Right3(v) && Right3(Right8(v)) == Right11(v)
  {
    assert Half(v >> 2) == Right3(v) && Right3(v >> 8) == Right11(v);
  }

  lemma By3(v: bv64)
    ensures Halved(v, 3) == Half(Right2(v))
  {
    HalvedAdd(v, 2, 1);
    By2(v);
    assert Halved(Right2(v), 1) == Half(Right2(v));
  }

  lemma By11(v: bv64)
    ensures Halved(v, 11) == Right11(v)
  {
    HalvedAdd(v, 8, 3);
    By8(v);
    By3(Right8(v));
    Joined3(Right8(v));
    Joined3(v);
  }

  lemma TopBits(value: bv64)
    ensures Value(value, 64) / 2048 == Value(Right11(value), 53)
  {
    By11(value);
    var r := ValueHalved(value, 64, 11);
    assert Pow2(11) == 2048;
    DivModUnique(Value(Right11(value), 53), r, 2048);
  }

  lemma CutDown(n: int, q: int)
    requires n / 2048 == q
    ensures 0.0 <= n as real / 18446744073709551616.0 - q as real / 9007199254740992.0 < 1.0 / 9007199254740992.0
  {
    var r := n % 2048;
    assert n as real == q as real * 2048.0 + r as real;
  }

  /** The number a word stands for is below 2^64, and the word is its low 64 bits. */
  lemma WordIsNumber(value: bv64)
    ensures Value(value, 64) < Pow2(64) && Word(Value(value, 64)) == value
  {
    HalvedAway(value);
    WordOfValue(value, 64);
  }

  /** The draw is the number of the word over 2^64, cut down to a multiple of 2^-53. */
  lemma UniformExact(value: bv64)
    ensures Uniform(value) == (Value(value, 64) / 2048) as real / 9007199254740992.0
    ensures 0.0 <= Value(value, 64) as real / 18446744073709551616.0 - Uniform(value) < 1.0 / 9007199254740992.0
  {
    var n, q := Value(value, 64), Value(Right11(value), 53);
    TopBits(value);
    CutDown(n, q);
    assert Uniform(value) == q as real / 9007199254740992.0;
  }

  // ----- full period --------------------------------------------------------

  /** Where `w` increments lead. */
  function Jump(seed: bv64, w: bv64): bv64 {
    seed + w * 0x9E37_79B9_7F4A_7C15
  }

  /** How many increments lead from seed to target; the increment is odd, so it has
      an inverse. */
  function Steps(seed: bv64, target: bv64): bv64 {
    (target - seed) * 0xF1DE_83E1_9937_733D
  }

  lemma JumpSteps(seed: bv64, x: bv64)
    ensures Steps(seed, Jump(seed, x)) == x && Jump(seed, Steps(seed, x)) == x
    ensures Jump(seed, 0) == seed && Jump(seed, Inc(x)) == NextState(Jump(seed, x))
  {
    assert Steps(seed, seed + x * 0x9E37_79B9_7F4A_7C15) == x;
    assert Jump(seed, (x - seed) * 0xF1DE_83E1_9937_733D) == x;
    assert NextState(seed + x * 0x9E37_79B9_7F4A_7C15) == Jump(seed, x + 1);
  }

  lemma {:induction false} StateIsJump(seed: bv64, n: nat)
    ensures StateAfter(seed, n) == Jump(seed, Word(n))
  {
    JumpSteps(seed, 0);
    if n > 0 {
      StateIsJump(seed, n - 1);
      WordSucc(n - 1);
      JumpSteps(seed, Word(n - 1));
    }
  }

  lemma {:induction false} StateAfterAdd(seed: bv64, i: nat, j: nat)
    ensures StateAfter(seed, i + j) == StateAfter(StateAfter(seed, i), j)
  {
    if j > 0 {
      StateAfterAdd(seed, i, j - 1);
    }
  }

  lemma JumpFixed(seed: bv64, w: bv64)
    ensures Jump(seed, w) == seed ==> w == 0
  {
    JumpSteps(seed, 0);
    JumpSteps(seed, w);
  }

  lemma MixInjective(a: bv64, b: bv64)
    ensures Mix(a) == Mix(b) ==> a == b
  {
    MixIsPermutation(a);
    MixIsPermutation(b);
  }

  lemma ReturnsOnlyAtZero(seed: bv64, n: nat)
    requires 0 < n < Pow2(64)
    ensures StateAfter(seed, n) != seed
  {
    StateIsJump(seed, n);
    JumpFixed(seed, Word(n));
    WordNonZero(n, 64);
    assert Shifted(Word(n), 0) == Word(n);
  }

  lemma StatesDiffer(seed: bv64, i: nat, n: nat, a: bv64, b: bv64)
    requires 0 < n < Pow2(64) && a == StateAfter(seed, i) && b == StateAfter(a, n)
    ensures a != b && b == StateAfter(seed, i + n)
  {
    StateAfterAdd(seed, i, n);
    ReturnsOnlyAtZero(a, n);
  }

  /** Within one period no state repeats, so no two draws are equal. */
  lemma NoRepeat(seed: bv64, i: nat, j: nat)
    requires i < j < i + Pow2(64)
    ensures StateAfter(seed, i) != StateAfter(seed, j)
    ensures Mix(StateAfter(seed, i)) != Mix(StateAfter(seed, j))
  {
    StatesDiffer(seed, i, j - i, StateAfter(seed, i), StateAfter(StateAfter(seed, i), j - i));
    MixInjective(StateAfter(seed, i), StateAfter(seed, j));
  }

  lemma {:induction false} WordOfPow2(k: nat)
    ensures Word(Pow2(k)) == Shifted(1, k)
  {
    assert DoubleOne(0) == 1;
    if k > 0 {
      WordOfPow2(k - 1);
      ShiftedAdd(1, k - 1, 1);
      assert Shifted(Word(Pow2(k - 1)), 1) == Shifted(Double(Word(Pow2(k - 1))), 0);
    }
  }

  lemma ShiftedAway(v: bv64, k: nat)
    requires k == 64
    ensures Shifted(v, k) == 0
  {
    ShiftedAdd(v, 32, 32);
    By32(v);
    By32(Left32(v));
    assert Left32(v << 32) == 0;
  }

  /** The period is exactly 2^64: the state is back after that many draws, and by
      NoRepeat no sooner. */
  lemma Period(seed: bv64, k: nat)
    requires k == 64
    ensures StateAfter(seed, Pow2(k)) == seed
  {
    StateIsJump(seed, Pow2(k));
    WordOfPow2(k);
    ShiftedAway(1, k);
    JumpSteps(seed, 0);
  }

  /** Every 64-bit word is reached, as a state and as an output, within one period. */
  lemma EveryWordReached(seed: bv64, target: bv64) returns (n: nat, m: nat)
    ensures n < Pow2(64) && StateAfter(seed, n) == target
    ensures m < Pow2(64) && Mix(StateAfter(seed, m)) == target
  {
    n := StepsTo(seed, target);
    m := StepsTo(seed, Unmix(target));
    MixIsPermutation(target);
  }

  lemma StepsTo(seed: bv64, target: bv64) returns (n: nat)
    ensures n < Pow2(64) && StateAfter(seed, n) == target
  {
    var w := Steps(seed, target);
    HalvedAway(w);
    WordOfValue(w, 64);
    n := Value(w, 64);
    StateIsJump(seed, n);
    JumpSteps(seed, target);
  }
}
