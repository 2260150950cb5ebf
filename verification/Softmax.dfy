/** Subtracting the largest scaled logit before exponentiating changes nothing: for any
    exponential that turns sums into products, both filters and the probabilities are
    those of the plain softmax. */
module Softmax {
  import opened Greedy
  import opened Rankings
  import opened Masses
  import opened Sampling

  function AtSum(e: Exp, x: real, y: real): real {
    e(x + y)
  }

  ghost predicate Multiplicative(e: Exp) {
    forall x, y :: AtSum(e, x, y) == e(x) * e(y)
  }

  function Plain(e: Exp, f: seq<real>): (v: seq<real>)
    ensures |v| == |f|
  {
    seq(|f|, i requires 0 <= i < |f| => e(f[i]))
  }

  /** Every weight of v is c times that of w. */
  ghost predicate Multiple(v: seq<real>, w: seq<real>, c: real) {
    |v| == |w| && c > 0.0 && forall i | 0 <= i < |w| :: IsTimes(v[i], c, w[i])
  }

  predicate IsTimes(b: real, c: real, a: real) {
    b == c * a
  }

  lemma Unshift(e: Exp, x: real, m: real)
    requires Multiplicative(e)
    ensures IsTimes(e(x), e(m), e(x - m))
  {
    assert AtSum(e, m, x - m) == e(m) * e(x - m);
    assert m + (x - m) == x;
  }

  lemma PlainIsMultiple(e: Exp, f: seq<real>)
    requires ExpLike(e) && Multiplicative(e) && f != []
    ensures Multiple(Plain(e, f), Weights(e, f), e(f[Argmax(f)]))
  {
    var m := f[Argmax(f)];
    var v, w, c := Plain(e, f), Weights(e, f), e(m);
    forall i | 0 <= i < |f|
      ensures IsTimes(v[i], c, w[i])
    {
      Unshift(e, f[i], m);
    }
  }

  lemma {:induction false} MassMultiple(v: seq<real>, w: seq<real>, c: real, keep: seq<bool>)
    requires Multiple(v, w, c) && |keep| == |w|
    ensures IsTimes(Mass(v, keep), c, Mass(w, keep))
  {
    if w != [] {
      var k := |w| - 1;
      MassMultiple(v[..k], w[..k], c, keep[..k]);
      var kept := if keep[k] then w[k] else 0.0;
      assert c * (Mass(w[..k], keep[..k]) + kept) == c * Mass(w[..k], keep[..k]) + c * kept;
    }
  }

  lemma SameOrder(x: real, y: real, a: real, b: real, c: real)
    requires c > 0.0 && IsTimes(x, c, a) && IsTimes(y, c, b)
    ensures x >= y <==> a >= b
  {
    if a < b {
      assert c * (b - a) > 0.0;
    } else {
      assert c * (a - b) >= 0.0;
    }
  }

  /** Two cuts agree when every prefix passes both targets or neither. */
  lemma {:induction false} SameCut(v: seq<real>, w: seq<real>, s: seq<nat>, tv: real, tw: real, from: nat)
    requires from <= |s|
    requires forall d | 0 <= d <= |s| :: PrefixMass(v, s, d) >= tv <==> PrefixMass(w, s, d) >= tw
    ensures CutFrom(v, s, tv, from) == CutFrom(w, s, tw, from)
    decreases |s| - from
  {
    assert PrefixMass(v, s, from) >= tv <==> PrefixMass(w, s, from) >= tw;
    if from < |s| && PrefixMass(w, s, from) < tw {
      SameCut(v, w, s, tv, tw, from + 1);
    }
  }

  lemma ScaledTarget(topP: real, x: real, a: real, c: real)
    requires IsTimes(x, c, a)
    ensures IsTimes(topP * x, c, topP * a)
  {
  }

  lemma NucleusMultiple(v: seq<real>, w: seq<real>, c: real, s: seq<nat>, topP: real)
    requires Multiple(v, w, c) && s != []
    ensures Nucleus(v, s, topP) == Nucleus(w, s, topP)
  {
    var tv, tw := topP * PrefixMass(v, s, |s|), topP * PrefixMass(w, s, |s|);
    PrefixMultiple(v, w, c, s, |s|);
    ScaledTarget(topP, PrefixMass(v, s, |s|), PrefixMass(w, s, |s|), c);
    forall d | 0 <= d <= |s|
      ensures PrefixMass(v, s, d) >= tv <==> PrefixMass(w, s, d) >= tw
    {
      PrefixMultiple(v, w, c, s, d);
      SameOrder(PrefixMass(v, s, d), tv, PrefixMass(w, s, d), tw, c);
    }
    SameCut(v, w, s, tv, tw, 1);
  }

  lemma PrefixMultiple(v: seq<real>, w: seq<real>, c: real, s: seq<nat>, d: nat)
    requires Multiple(v, w, c) && d <= |s|
    ensures IsTimes(PrefixMass(v, s, d), c, PrefixMass(w, s, d))
  {
    MassMultiple(v, w, c, Flags(|w|, s[..d]));
  }

  lemma RatioMultiple(a: real, m: real, b: real, n: real, c: real)
    requires c > 0.0 && m > 0.0 && IsTimes(b, c, a) && IsTimes(n, c, m)
    ensures n > 0.0 && b / n == a / m
  {
    assert a == (a / m) * m;
    assert b == (a / m) * n;
  }

  /** The survivors and every probability are those of the unshifted exponentials. */
  lemma ShiftIsHarmless(e: Exp, logits: seq<real>, cfg: SamplingConfig, i: nat)
    requires ExpLike(e) && Multiplicative(e) && cfg.Valid() && !cfg.IsGreedy() && i < |logits|
    ensures var f := Scaled(logits, cfg.temperature);
      var v, kept := Plain(e, f), Survivors(e, f, cfg);
      && |Ranking(f)| == |f|
      && kept == Nucleus(v, Ranking(f)[..if 0 < cfg.topK < |f| then cfg.topK else |f|], cfg.topP)
      && Mass(v, Flags(|f|, kept)) > 0.0
      && Effective(e, logits, cfg)[i] == if i in kept then v[i] / Mass(v, Flags(|f|, kept)) else 0.0
  {
    var f := Scaled(logits, cfg.temperature);
    RankingLength(f);
    PlainIsMultiple(e, f);
    NucleusMultiple(Plain(e, f), Weights(e, f), e(f[Argmax(f)]), Ranking(f)[..KeptRanks(|f|, cfg.topK)], cfg.topP);
    SurvivorMassPositive(e, f, cfg);
    ShareMultiple(Plain(e, f), Weights(e, f), e(f[Argmax(f)]), Flags(|f|, Survivors(e, f, cfg)), i);
  }

  lemma ShareMultiple(v: seq<real>, w: seq<real>, c: real, keep: seq<bool>, i: nat)
    requires Multiple(v, w, c) && |keep| == |w| && i < |w| && Mass(w, keep) > 0.0
    ensures Mass(v, keep) > 0.0 && w[i] / Mass(w, keep) == v[i] / Mass(v, keep)
  {
    MassMultiple(v, w, c, keep);
    RatioMultiple(w[i], Mass(w, keep), v[i], Mass(v, keep), c);
  }
}
