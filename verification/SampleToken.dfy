/** Drawing one token: the cumulative walk is an exact inverse of the distribution the
    pipeline computes, and the generator advances by one draw exactly when sampling. */
module SampleTokens {
  import opened Greedy
  import opened Rankings
  import opened Masses
  import opened SplitMix
  import opened Sampling

  ghost predicate NonNegative(p: seq<real>) {
    forall i | 0 <= i < |p| :: p[i] >= 0.0
  }

  /** u falls in token i's stretch of the cumulative sum. */
  ghost predicate Covers(p: seq<real>, u: real, i: int) {
    0 <= i < |p| && Sum(p[..i]) <= u < Sum(p[..i]) + p[i]
  }

  function LastPositive(p: seq<real>): int {
    if p == [] then -1
    else if p[|p| - 1] > 0.0 then |p| - 1
    else LastPositive(p[..|p| - 1])
  }

  /** The last index with a share, or `pick` when none has any. */
  function Fallback(p: seq<real>, pick: int): int {
    if LastPositive(p) >= 0 then LastPositive(p) else pick
  }

  /** What is left when the sum falls short: the last id with a share; `pick` if none has. */
  lemma {:induction false} FallbackExact(p: seq<real>, pick: int)
    ensures (forall i | 0 <= i < |p| :: p[i] <= 0.0) ==> LastPositive(p) == -1 && Fallback(p, pick) == pick
    ensures (exists i | 0 <= i < |p| :: p[i] > 0.0) ==>
              && 0 <= LastPositive(p) == Fallback(p, pick) < |p| && p[Fallback(p, pick)] > 0.0
              && forall j | Fallback(p, pick) < j < |p| :: p[j] <= 0.0
  {
    if p != [] && p[|p| - 1] <= 0.0 {
      FallbackExact(p[..|p| - 1], pick);
    }
  }

  function WalkFrom(p: seq<real>, u: real, pick: int, i: nat): int
    requires i <= |p|
    decreases |p| - i
  {
    if i == |p| then Fallback(p, pick)
    else if u < Sum(p[..i + 1]) then i
    else WalkFrom(p, u, pick, i + 1)
  }

  /** The first index whose cumulative sum exceeds u, or the fallback. */
  function Walk(p: seq<real>, u: real, pick: int): int {
    WalkFrom(p, u, pick, 0)
  }

  lemma {:induction false} SumGrows(p: seq<real>, i: nat, j: nat)
    requires NonNegative(p) && i <= j <= |p|
    ensures Sum(p[..i]) <= Sum(p[..j])
    decreases j - i
  {
    if i < j {
      SumGrows(p, i, j - 1);
      SumStep(p, j - 1);
    }
  }

  lemma CoversUnique(p: seq<real>, u: real, i: int, j: int)
    requires NonNegative(p) && Covers(p, u, i) && Covers(p, u, j)
    ensures i == j
  {
    SumStep(p, i);
    SumStep(p, j);
    if i < j {
      SumGrows(p, i + 1, j);
    }
    if j < i {
      SumGrows(p, j + 1, i);
    }
  }

  lemma {:induction false} WalkFromCovers(p: seq<real>, u: real, pick: int, i: nat)
    requires i <= |p| && Sum(p[..i]) <= u < Sum(p)
    ensures Covers(p, u, WalkFrom(p, u, pick, i))
    decreases |p| - i
  {
    assert p[..|p|] == p;
    if i < |p| {
      SumStep(p, i);
      if u >= Sum(p[..i + 1]) {
        WalkFromCovers(p, u, pick, i + 1);
      }
    }
  }

  /** Inside the total, the walk returns i exactly for the u in i's stretch. */
  lemma WalkIsInverse(p: seq<real>, u: real, pick: int, i: int)
    requires NonNegative(p) && 0.0 <= u < Sum(p)
    ensures Walk(p, u, pick) == i <==> Covers(p, u, i)
  {
    assert p[..0] == [];
    WalkFromCovers(p, u, pick, 0);
    if Covers(p, u, i) {
      CoversUnique(p, u, i, Walk(p, u, pick));
    }
  }

  /** From the total on, nothing is covered and the fallback is returned. */
  lemma {:induction false} WalkBeyond(p: seq<real>, u: real, pick: int, i: nat)
    requires NonNegative(p) && u >= Sum(p) && i <= |p|
    ensures WalkFrom(p, u, pick, i) == Fallback(p, pick)
    decreases |p| - i
  {
    if i < |p| {
      assert p[..|p|] == p;
      SumGrows(p, i + 1, |p|);
      WalkBeyond(p, u, pick, i + 1);
    }
  }

  lemma LastPositiveStep(p: seq<real>, i: nat)
    requires i < |p|
    ensures LastPositive(p[..i + 1]) == if p[i] > 0.0 then i else LastPositive(p[..i])
  {
    assert p[..i + 1][..i] == p[..i];
  }

  /** The walk over the drawable tokens only: a token with no share leaves the
      cumulative sum where it was. */
  method WalkCumulative(p: array<real>, u: real, logits: seq<real>) returns (token: int)
    requires NonNegative(p[..]) && u >= 0.0 && logits != []
    ensures token == Walk(p[..], u, Argmax(logits))
  {
    ghost var q := p[..];
    var cum := 0.0;
    var lastKept := -1;
    for i := 0 to p.Length
      invariant p[..] == q && cum == Sum(q[..i]) && lastKept == LastPositive(q[..i])
      invariant Walk(q, u, Argmax(logits)) == WalkFrom(q, u, Argmax(logits), i) && cum <= u
    {
      SumStep(q, i);
      LastPositiveStep(q, i);
      if p[i] > 0.0 {
        cum := cum + p[i];
        lastKept := i;
        if u < cum {
          return i;
        }
      }
    }
    assert q[..p.Length] == q;
    token := lastKept;
    if token < 0 {
      token := ArgmaxBf16(logits);
    }
  }

  // ----- the distribution ---------------------------------------------------

  lemma {:induction false} OneHotSum(n: nat, best: nat)
    ensures Sum(OneHot(n, best)) == if best < n then 1.0 else 0.0
  {
    if n > 0 {
      OneHotSum(n - 1, best);
      assert OneHot(n, best)[..n - 1] == OneHot(n - 1, best);
    }
  }

  lemma DivPositive(a: real, m: real)
    requires a > 0.0 && m > 0.0
    ensures a / m > 0.0 && m / m == 1.0
  {
  }

  lemma SharesPositive(w: seq<real>, keep: seq<bool>, m: real)
    requires |w| == |keep| && m > 0.0 && Positive(w)
    ensures NonNegative(Shares(w, keep, m))
    ensures forall i | 0 <= i < |w| :: Shares(w, keep, m)[i] > 0.0 <==> keep[i]
  {
    forall i | 0 <= i < |w|
      ensures w[i] / m > 0.0
    {
      DivPositive(w[i], m);
    }
  }

  /** Which tokens can be drawn at all. */
  ghost predicate Drawable(e: Exp, logits: seq<real>, cfg: SamplingConfig, i: int)
    requires logits != []
  {
    && 0 <= i < |logits|
    && if cfg.IsGreedy() then i == Argmax(logits) else i in Survivors(e, Scaled(logits, cfg.temperature), cfg)
  }

  /** The probabilities are non-negative, positive exactly on the drawable tokens, sum
      to one, and rank drawable tokens as their logits do. */
  lemma EffectiveIsDistribution(e: Exp, logits: seq<real>, cfg: SamplingConfig)
    requires ExpLike(e) && cfg.Valid() && logits != []
    ensures Sum(Effective(e, logits, cfg)) == 1.0 && NonNegative(Effective(e, logits, cfg))
    ensures forall i | 0 <= i < |logits| :: Effective(e, logits, cfg)[i] > 0.0 <==> Drawable(e, logits, cfg, i)
    ensures Drawable(e, logits, cfg, Argmax(logits))
  {
    if cfg.IsGreedy() {
      OneHotSum(|logits|, Argmax(logits));
    } else {
      PickSurvives(e, logits, cfg);
      SampledIsDistribution(e, logits, cfg);
    }
  }

  lemma SampledIsDistribution(e: Exp, logits: seq<real>, cfg: SamplingConfig)
    requires ExpLike(e) && cfg.Valid() && logits != [] && !cfg.IsGreedy()
    ensures Sum(Effective(e, logits, cfg)) == 1.0 && NonNegative(Effective(e, logits, cfg))
    ensures forall i | 0 <= i < |logits| :: Effective(e, logits, cfg)[i] > 0.0 <==> Drawable(e, logits, cfg, i)
  {
    var f := Scaled(logits, cfg.temperature);
    var w, keep := Weights(e, f), Flags(|f|, Survivors(e, f, cfg));
    SurvivorMassPositive(e, f, cfg);
    WeightsPositive(e, f);
    var m := Mass(w, keep);
    SharesSum(w, keep, m);
    DivPositive(m, m);
    SharesPositive(w, keep, m);
    assert Effective(e, logits, cfg) == Shares(w, keep, m);
  }

  lemma PickSurvives(e: Exp, logits: seq<real>, cfg: SamplingConfig)
    requires ExpLike(e) && cfg.Valid() && logits != [] && !cfg.IsGreedy()
    ensures Argmax(logits) in Survivors(e, Scaled(logits, cfg.temperature), cfg)
  {
    var f := Scaled(logits, cfg.temperature);
    ScaledArgmax(logits, cfg.temperature);
    var c := SurvivorsArePrefix(e, f, cfg);
    assert Ranking(f)[..c][0] == Argmax(logits);
  }

  /** Among drawable tokens the larger logit has the larger probability. */
  lemma LargerLogitLikelier(e: Exp, logits: seq<real>, cfg: SamplingConfig, i: nat, j: nat)
    requires ExpLike(e) && cfg.Valid() && logits != [] && !cfg.IsGreedy()
    requires Drawable(e, logits, cfg, i) && Drawable(e, logits, cfg, j) && logits[i] < logits[j]
    ensures Effective(e, logits, cfg)[i] < Effective(e, logits, cfg)[j]
  {
    var f := Scaled(logits, cfg.temperature);
    var w, keep := Weights(e, f), Flags(|f|, Survivors(e, f, cfg));
    SurvivorMassPositive(e, f, cfg);
    DivGrows(logits[i], logits[j], cfg.temperature);
    assert f[i] - f[Argmax(f)] < f[j] - f[Argmax(f)];
    assert w[i] < w[j];
    DivGrows(w[i], w[j], Mass(w, keep));
  }

  // ----- one draw -----------------------------------------------------------

  /** The token a generator in this state yields, and the generator's next state. */
  function Draw(e: Exp, logits: seq<real>, cfg: SamplingConfig, state: bv64): (int, bv64)
    requires ExpLike(e) && cfg.Valid()
  {
    if logits == [] then (-1, state)
    else if cfg.IsGreedy() then (Argmax(logits), state)
    else (Walk(Effective(e, logits, cfg), Uniform(Mix(NextState(state))), Argmax(logits)), NextState(state))
  }

  /** The draw for u is i exactly when u lies in a stretch as long as i's probability;
      the stretches follow each other from 0 to 1, so the fallback is never needed, not even its last resort. */
  lemma DrawIsInverseCdf(e: Exp, logits: seq<real>, cfg: SamplingConfig, u: real, i: int)
    requires ExpLike(e) && cfg.Valid() && logits != [] && 0.0 <= u < 1.0
    ensures Walk(Effective(e, logits, cfg), u, Argmax(logits)) == i <==> Covers(Effective(e, logits, cfg), u, i)
  {
    EffectiveIsDistribution(e, logits, cfg);
    WalkIsInverse(Effective(e, logits, cfg), u, Argmax(logits), i);
  }

  /** One draw in full: no token over no logits, the greedy pick in greedy mode, and
      otherwise the token in whose stretch of the distribution the generator's next number
      falls. Only the last advances the generator, by one step. */
  lemma DrawExact(e: Exp, logits: seq<real>, cfg: SamplingConfig, state: bv64, token: int, next: bv64)
    requires ExpLike(e) && cfg.Valid()
    ensures (token, next) == Draw(e, logits, cfg, state) <==>
      if logits == [] then token == -1 && next == state
      else if cfg.temperature <= 0.0 then IsArgmax(logits, token) && next == state
      else next == NextState(state) && Covers(Effective(e, logits, cfg), Uniform(Mix(next)), token)
  {
    if logits != [] {
      if cfg.temperature <= 0.0 {
        if IsArgmax(logits, token) {
          ArgmaxUnique(logits, token, Argmax(logits));
        }
      } else {
        DrawIsInverseCdf(e, logits, cfg, Uniform(Mix(NextState(state))), token);
      }
    }
  }

  lemma DrawTakesOne(e: Exp, logits: seq<real>, cfg: SamplingConfig, state: bv64)
    requires ExpLike(e) && cfg.Valid()
    ensures Draw(e, logits, cfg, state).1 == if logits == [] || cfg.IsGreedy() then state else NextState(state)
  {
  }

  /** Every draw over a non-empty vocabulary is a drawable token. */
  lemma DrawInRange(e: Exp, logits: seq<real>, cfg: SamplingConfig, state: bv64)
    requires ExpLike(e) && cfg.Valid() && logits != []
    ensures Drawable(e, logits, cfg, Draw(e, logits, cfg, state).0)
  {
    if !cfg.IsGreedy() {
      var i, u := Draw(e, logits, cfg, state).0, Uniform(Mix(NextState(state)));
      DrawIsInverseCdf(e, logits, cfg, u, i);
      EffectiveIsDistribution(e, logits, cfg);
    }
  }

  /** With top_k = 1 every u draws the greedy pick. */
  lemma TopOneIsGreedy(e: Exp, logits: seq<real>, cfg: SamplingConfig, state: bv64)
    requires ExpLike(e) && cfg.Valid() && logits != [] && cfg.topK == 1
    ensures Draw(e, logits, cfg, state).0 == Argmax(logits)
  {
    DrawInRange(e, logits, cfg, state);
    if !cfg.IsGreedy() {
      ScaledArgmax(logits, cfg.temperature);
      OneSurvivor(e, Scaled(logits, cfg.temperature), cfg, Draw(e, logits, cfg, state).0);
    }
  }

  lemma OneSurvivor(e: Exp, f: seq<real>, cfg: SamplingConfig, i: int)
    requires ExpLike(e) && cfg.Valid() && f != [] && cfg.topK == 1 && i in Survivors(e, f, cfg)
    ensures i == Argmax(f)
  {
    var c := SurvivorsArePrefix(e, f, cfg);
    assert Ranking(f)[..c] == [Argmax(f)];
  }

  method SampleToken(e: Exp, logits: seq<real>, cfg: SamplingConfig, rng: SplitMix64) returns (token: int)
    requires ExpLike(e) && cfg.Valid()
    modifies rng
    ensures (token, rng.state) == Draw(e, logits, cfg, old(rng.state))
    ensures logits == [] ==> token == -1 && rng.state == old(rng.state)
    ensures logits != [] && cfg.temperature <= 0.0 ==> IsArgmax(logits, token) && rng.state == old(rng.state)
    ensures logits != [] && cfg.temperature > 0.0 ==>
              && rng.state == NextState(old(rng.state))
              && Covers(Effective(e, logits, cfg), Uniform(Mix(rng.state)), token)
  {
    if logits == [] {
      return -1;
    }
    if cfg.IsGreedy() {
      token := ArgmaxBf16(logits);
      return;
    }
    var p := EffectiveProbabilities(e, logits, cfg);
    EffectiveIsDistribution(e, logits, cfg);
    var u := rng.NextDouble();
    token := WalkCumulative(p, u, logits);
    DrawIsInverseCdf(e, logits, cfg, u, token);
  }

  class Sampler {
    const cfg: SamplingConfig
    const rng: SplitMix64

    constructor (cfg: SamplingConfig)
      ensures this.cfg == cfg && fresh(rng) && rng.state == cfg.seed
    {
      this.cfg := cfg;
      rng := new SplitMix64(cfg.seed);
    }

    method Sample(e: Exp, logits: seq<real>) returns (token: int)
      requires ExpLike(e) && cfg.Valid()
      modifies rng
      ensures (token, rng.state) == Draw(e, logits, cfg, old(rng.state))
      ensures logits == [] ==> token == -1 && rng.state == old(rng.state)
      ensures logits != [] && cfg.temperature <= 0.0 ==> IsArgmax(logits, token) && rng.state == old(rng.state)
      ensures logits != [] && cfg.temperature > 0.0 ==>
                && rng.state == NextState(old(rng.state))
                && Covers(Effective(e, logits, cfg), Uniform(Mix(rng.state)), token)
    {
      token := SampleToken(e, logits, cfg, rng);
    }
  }
}
