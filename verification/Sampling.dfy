/** The sampling pipeline over real logits: temperature, top-k, top-p, normalise and
    one inverse-CDF walk. The exponential is a parameter of which only positivity and
    strict growth are used. */
module Sampling {
  import opened Basics
  import opened Greedy
  import opened Rankings
  import opened Masses
  import opened FixedIdPools

  type Exp = real -> real

  ghost predicate ExpLike(e: Exp) {
    (forall x :: e(x) > 0.0) && (forall x, y | x < y :: e(x) < e(y))
  }

  datatype SamplingConfig = SamplingConfig(temperature: real, topK: int, topP: real, seed: bv64) {

    predicate IsGreedy() {
      temperature <= 0.0
    }

    predicate Valid() {
      topK >= 0 && 0.0 < topP <= 1.0
    }
  }

  function GreedyConfig(): SamplingConfig {
    SamplingConfig(0.0, 0, 1.0, 0)
  }

  method ValidateSamplingConfig(cfg: SamplingConfig) returns (ok: bool)
    ensures ok <==> cfg.Valid()
    ensures ok <==> cfg.topK >= 0 && 0.0 < cfg.topP <= 1.0
  {
    if cfg.topK < 0 {
      return false;
    }
    if cfg.topP <= 0.0 || cfg.topP > 1.0 {
      return false;
    }
    return true;
  }

  // ----- what the pipeline computes -----------------------------------------

  function Scaled(logits: seq<real>, t: real): (f: seq<real>)
    requires t > 0.0
    ensures |f| == |logits|
  {
    seq(|logits|, i requires 0 <= i < |logits| => logits[i] / t)
  }

  function Weights(e: Exp, f: seq<real>): (w: seq<real>)
    ensures |w| == |f|
  {
    seq(|f|, i requires 0 <= i < |f| => e(f[i] - f[Argmax(f)]))
  }

  /** How many ranks the top-k stage lets through. */
  function KeptRanks(n: nat, topK: int): nat {
    if 0 < topK < n then topK else n
  }

  /** The part of an ordered listing that the top-p stage keeps. */
  function Nucleus(w: seq<real>, s: seq<nat>, topP: real): seq<nat>
    requires s != []
  {
    if topP < 1.0 then s[..CutOf(w, s, topP * PrefixMass(w, s, |s|))] else s
  }

  function CutOf(w: seq<real>, s: seq<nat>, target: real): (c: nat)
    requires s != []
    ensures 1 <= c <= |s|
  {
    CutInRange(w, s, target, 1);
    Cut(w, s, target)
  }

  lemma {:induction false} CutInRange(w: seq<real>, s: seq<nat>, target: real, c: nat)
    requires c <= |s|
    ensures c <= CutFrom(w, s, target, c) <= |s|
    decreases |s| - c
  {
    if c < |s| && PrefixMass(w, s, c) < target {
      CutInRange(w, s, target, c + 1);
    }
  }

  /** The tokens that can be drawn, best first. */
  function Survivors(e: Exp, f: seq<real>, cfg: SamplingConfig): seq<nat>
    requires f != []
  {
    RankingLength(f);
    Nucleus(Weights(e, f), Ranking(f)[..KeptRanks(|f|, cfg.topK)], cfg.topP)
  }

  function OneHot(n: nat, best: nat): (p: seq<real>)
    ensures |p| == n
  {
    seq(n, i => if i == best then 1.0 else 0.0)
  }

  /** The distribution a token is drawn from. */
  function Effective(e: Exp, logits: seq<real>, cfg: SamplingConfig): (p: seq<real>)
    requires ExpLike(e) && cfg.Valid()
    ensures |p| == |logits|
  {
    if logits == [] then []
    else if cfg.IsGreedy() then OneHot(|logits|, Argmax(logits))
    else
      var f := Scaled(logits, cfg.temperature);
      var keep := Flags(|f|, Survivors(e, f, cfg));
      SurvivorMassPositive(e, f, cfg);
      Shares(Weights(e, f), keep, Mass(Weights(e, f), keep))
  }

  // ----- the filters --------------------------------------------------------

  lemma WeightsPositive(e: Exp, f: seq<real>)
    requires ExpLike(e)
    ensures Positive(Weights(e, f))
  {
  }

  lemma PrefixOrdered(f: seq<real>, s: seq<nat>, c: nat)
    requires Ordered(f, s) && c <= |s|
    ensures Ordered(f, s[..c]) && Distinct(s[..c])
  {
  }

  /** A prefix of a prefix of a listing has the prefix's mass. */
  lemma PrefixOfPrefix(w: seq<real>, s: seq<nat>, k: nat, c: nat)
    requires c <= k <= |s|
    ensures s[..k][..c] == s[..c] && PrefixMass(w, s[..k], c) == PrefixMass(w, s, c)
  {
    assert s[..k][..c] == s[..c];
  }

  /** What the two filters keep: a prefix of the ranking that holds the greedy pick, and
      of the first k ranks (all of them when k is 0 or no smaller than the vocabulary) the
      shortest prefix that reaches the share p of their mass. */
  lemma SurvivorsArePrefix(e: Exp, f: seq<real>, cfg: SamplingConfig) returns (c: nat)
    requires ExpLike(e) && cfg.Valid() && f != []
    ensures 1 <= c <= |f| == |Ranking(f)|
    ensures Survivors(e, f, cfg) == Ranking(f)[..c] && Ranking(f)[0] == Argmax(f)
    ensures var k := if 0 < cfg.topK < |f| then cfg.topK else |f|;
      c <= k && Shortest(Weights(e, f), Ranking(f), k, c, cfg.topP)
  {
    RankingLength(f);
    RankingHead(f);
    RankingComplete(f);
    WeightsPositive(e, f);
    var k := KeptRanks(|f|, cfg.topK);
    PrefixOrdered(f, Ranking(f), k);
    c := NucleusIsShortest(Weights(e, f), Ranking(f)[..k], cfg.topP);
    TopPrefix(Weights(e, f), Ranking(f), k, c, cfg.topP);
  }

  /** The top-p stage keeps the shortest prefix reaching the share. */
  lemma NucleusIsShortest(w: seq<real>, s: seq<nat>, topP: real) returns (c: nat)
    requires s != [] && Ids(w, s) && Distinct(s) && Positive(w) && 0.0 < topP <= 1.0
    ensures 1 <= c <= |s| && Nucleus(w, s, topP) == s[..c]
    ensures Shortest(w, s, |s|, c, topP)
  {
    var total := PrefixMass(w, s, |s|);
    PrefixMassZero(w, s);
    PrefixMassGrows(w, s, 0, |s|);
    ShareBelow(topP, total);
    c := |s|;
    if topP < 1.0 {
      CutShortest(w, s, topP * total);
      c := CutOf(w, s, topP * total);
    }
  }

  /** c of the first k listed ids are kept: they reach the share topP of the mass of
      those k, and with top-p on no shorter prefix does. */
  ghost predicate Shortest(w: seq<real>, s: seq<nat>, k: nat, c: nat, topP: real)
    requires c <= k <= |s|
  {
    && PrefixMass(w, s, c) >= topP * PrefixMass(w, s, k)
    && (topP == 1.0 ==> c == k)
    && (topP < 1.0 ==> forall d | 0 <= d < c :: PrefixMass(w, s, d) < topP * PrefixMass(w, s, k))
  }

  lemma TopPrefix(w: seq<real>, s: seq<nat>, k: nat, c: nat, topP: real)
    requires c <= k <= |s| && Shortest(w, s[..k], k, c, topP)
    ensures Shortest(w, s, k, c, topP)
  {
    forall d | 0 <= d <= k
      ensures PrefixMass(w, s[..k], d) == PrefixMass(w, s, d)
    {
      PrefixOfPrefix(w, s, k, d);
    }
  }

  lemma ShareBelow(p: real, total: real)
    requires 0.0 < p <= 1.0 && total > 0.0
    ensures 0.0 < p * total <= total
  {
    assert (1.0 - p) * total >= 0.0;
  }

  lemma SurvivorMassPositive(e: Exp, f: seq<real>, cfg: SamplingConfig)
    requires ExpLike(e) && cfg.Valid() && f != []
    ensures Mass(Weights(e, f), Flags(|f|, Survivors(e, f, cfg))) > 0.0
  {
    var c := SurvivorsArePrefix(e, f, cfg);
    assert Ranking(f)[..c][0] == Argmax(f);
    WeightsPositive(e, f);
    MassPositive(Weights(e, f), Flags(|f|, Survivors(e, f, cfg)), Argmax(f));
  }

  /** Scaling by a positive temperature keeps the greedy pick. */
  lemma ScaledArgmax(logits: seq<real>, t: real)
    requires logits != [] && t > 0.0
    ensures Argmax(Scaled(logits, t)) == Argmax(logits)
  {
    var f, best := Scaled(logits, t), Argmax(logits);
    forall j | 0 <= j < |f|
      ensures f[j] <= f[best] && (j < best ==> f[j] < f[best])
    {
      DivGrows(logits[j], logits[best], t);
    }
    ArgmaxUnique(f, best, Argmax(f));
  }

  lemma DivGrows(a: real, b: real, t: real)
    requires t > 0.0
    ensures a < b ==> a / t < b / t
    ensures a <= b ==> a / t <= b / t
  {
  }

  // ----- the distribution, id by id ------------------------------------------

  /** Scaling keeps the order. */
  lemma ScaledAhead(logits: seq<real>, t: real)
    requires t > 0.0
    ensures forall i | 0 <= i < |logits| :: Ahead(Scaled(logits, t), i) == Ahead(logits, i)
  {
    forall i, j | 0 <= i < |logits| && 0 <= j < |logits|
      ensures j in Ahead(Scaled(logits, t), i) <==> j in Ahead(logits, i)
    {
      DivGrows(logits[i], logits[j], t);
      DivGrows(logits[j], logits[i], t);
    }
  }

  /** The scaled logits are the logits over the temperature ... */
  lemma ScaledAt(logits: seq<real>, t: real, i: nat)
    requires t > 0.0 && i < |logits|
    ensures Scaled(logits, t)[i] == logits[i] / t
  {
  }

  /** ... and an id's weight is the exponential of its distance to the largest of them. */
  lemma WeightAt(e: Exp, f: seq<real>, i: nat, x: real, largest: real)
    requires i < |f| && f[i] == x && largest in f && forall j | 0 <= j < |f| :: f[j] <= largest
    ensures Weights(e, f)[i] == e(x - largest)
  {
    assert f[Argmax(f)] == largest;
  }

  /** The top-k stage keeps the ids that fewer than k ids beat. */
  lemma TopKeptExact(f: seq<real>, topK: int)
    ensures |Ranking(f)| == |f|
    ensures forall i: nat | i < |f| ::
              i in Ranking(f)[..KeptRanks(|f|, topK)] <==> topK <= 0 || |Ahead(f, i)| < topK
  {
    RankingLength(f);
    forall i: nat | i < |f|
      ensures i in Ranking(f)[..KeptRanks(|f|, topK)] <==> topK <= 0 || |Ahead(f, i)| < topK
    {
      var r := RankOf(f, i);
    }
  }

  /** Shortest, with the share as a number. */
  ghost predicate Reaches(w: seq<real>, s: seq<nat>, k: nat, c: nat, cutting: bool, share: real)
    requires c <= k <= |s|
  {
    && PrefixMass(w, s, c) >= share
    && (!cutting ==> c == k)
    && (cutting ==> forall d | 0 <= d < c :: PrefixMass(w, s, d) < share)
  }

  lemma ShortestReaches(w: seq<real>, s: seq<nat>, k: nat, c: nat, topP: real, total: real, share: real)
    requires c <= k <= |s| && topP <= 1.0 && Shortest(w, s, k, c, topP)
    requires total == PrefixMass(w, s, k) && share == topP * total
    ensures Reaches(w, s, k, c, topP < 1.0, share)
  {
  }

  /** Rank r is kept exactly when it is among the first k and the ranks before it miss the
      share. */
  lemma KeptRank(w: seq<real>, s: seq<nat>, k: nat, c: nat, cutting: bool, share: real, r: nat)
    requires Ids(w, s) && Distinct(s) && Positive(w) && c <= k <= |s| && r < |s|
    requires Reaches(w, s, k, c, cutting, share)
    ensures r < c <==> r < k && (cutting ==> PrefixMass(w, s, r) < share)
  {
    if c <= r {
      PrefixMassGrows(w, s, c, r);
    }
  }

  ghost predicate TopKept(f: seq<real>, topK: int, top: seq<bool>) {
    |top| == |f| && forall i: nat | i < |f| :: top[i] <==> topK == 0 || |Ahead(f, i)| < topK
  }

  ghost predicate ShareKept(f: seq<real>, w: seq<real>, top: seq<bool>, cutting: bool, share: real, keep: seq<bool>) {
    && |top| == |keep| == |f|
    && forall i: nat | i < |f| :: keep[i] <==> top[i] && (cutting ==> MassOf(w, Ahead(f, i)) < share)
  }

  /** Ranks and their masses as counts and masses of ids. */
  lemma RankMass(f: seq<real>, w: seq<real>, topK: int, top: seq<bool>, k: nat, i: nat) returns (r: nat)
    requires topK >= 0 && |w| == |f| && i < |f| && k == KeptRanks(|f|, topK) && TopKept(f, topK, top)
    ensures r < |f| == |Ranking(f)| && Ranking(f)[r] == i && (top[i] <==> r < k)
    ensures forall c: nat | c <= |f| :: i in Ranking(f)[..c] <==> r < c
    ensures PrefixMass(w, Ranking(f), r) == MassOf(w, Ahead(f, i))
  {
    r := RankOf(f, i);
    assert Flags(|f|, Ranking(f)[..r]) == seq(|w|, j => j in Ahead(f, i));
  }

  lemma TopMass(f: seq<real>, w: seq<real>, topK: int, top: seq<bool>)
    requires topK >= 0 && |w| == |f| && TopKept(f, topK, top)
    ensures |Ranking(f)| == |f| && PrefixMass(w, Ranking(f), KeptRanks(|f|, topK)) == Mass(w, top)
  {
    TopKeptExact(f, topK);
    assert Flags(|f|, Ranking(f)[..KeptRanks(|f|, topK)]) == top;
  }

  lemma KeptIsPrefix(f: seq<real>, w: seq<real>, topK: int, top: seq<bool>, cutting: bool, share: real,
      k: nat, c: nat, keep: seq<bool>)
    requires topK >= 0 && |w| == |f| == |Ranking(f)| && Positive(w) && k == KeptRanks(|f|, topK) && c <= k
    requires TopKept(f, topK, top) && ShareKept(f, w, top, cutting, share, keep)
    requires Reaches(w, Ranking(f), k, c, cutting, share)
    ensures keep == Flags(|f|, Ranking(f)[..c])
  {
    RankingComplete(f);
    forall i: nat | i < |f|
      ensures keep[i] <==> i in Ranking(f)[..c]
    {
      var r := RankMass(f, w, topK, top, k, i);
      KeptRank(w, Ranking(f), k, c, cutting, share, r);
    }
  }

  /** The survivors as a prefix of the ranking that reaches a share given as a number. */
  lemma SurvivorsReach(e: Exp, f: seq<real>, cfg: SamplingConfig, w: seq<real>, total: real, share: real)
      returns (c: nat)
    requires ExpLike(e) && cfg.Valid() && f != [] && w == Weights(e, f) && |Ranking(f)| == |f|
    requires total == PrefixMass(w, Ranking(f), KeptRanks(|f|, cfg.topK)) && share == cfg.topP * total
    ensures c <= KeptRanks(|f|, cfg.topK) && Survivors(e, f, cfg) == Ranking(f)[..c] && Positive(w)
    ensures Reaches(w, Ranking(f), KeptRanks(|f|, cfg.topK), c, cfg.topP < 1.0, share)
  {
    c := SurvivorsArePrefix(e, f, cfg);
    WeightsPositive(e, f);
    ShortestReaches(w, Ranking(f), KeptRanks(|f|, cfg.topK), c, cfg.topP, total, share);
  }

  lemma KeptIsSurvivors(e: Exp, f: seq<real>, cfg: SamplingConfig, w: seq<real>, top: seq<bool>, total: real,
      share: real, keep: seq<bool>)
    requires ExpLike(e) && cfg.Valid() && f != [] && w == Weights(e, f) && TopKept(f, cfg.topK, top)
    requires total == Mass(w, top) && share == cfg.topP * total
    requires ShareKept(f, w, top, cfg.topP < 1.0, share, keep)
    ensures keep == Flags(|f|, Survivors(e, f, cfg))
  {
    TopMass(f, w, cfg.topK, top);
    var c := SurvivorsReach(e, f, cfg, w, total, share);
    KeptIsPrefix(f, w, cfg.topK, top, cfg.topP < 1.0, share, KeptRanks(|f|, cfg.topK), c, keep);
  }

  /** The probabilities id by id, with f the scaled logits and w their weights: top-k keeps
      the ids that fewer than k beat, top-p those of them before which less than the share p
      of their mass stands, and what is kept is normalised. */
  lemma EffectiveExact(e: Exp, logits: seq<real>, cfg: SamplingConfig, f: seq<real>, w: seq<real>,
      top: seq<bool>, total: real, share: real, keep: seq<bool>)
    requires ExpLike(e) && cfg.Valid() && cfg.temperature > 0.0 && |top| == |keep| == |logits| > 0
    requires f == Scaled(logits, cfg.temperature) && w == Weights(e, f)
    requires forall i: nat | i < |logits| :: top[i] <==> cfg.topK == 0 || |Ahead(logits, i)| < cfg.topK
    requires total == Mass(w, top) && share == cfg.topP * total
    requires forall i: nat | i < |logits| ::
               keep[i] <==> top[i] && (cfg.topP < 1.0 ==> MassOf(w, Ahead(logits, i)) < share)
    ensures Mass(w, keep) > 0.0
    ensures forall i | 0 <= i < |logits| ::
              Effective(e, logits, cfg)[i] == if keep[i] then w[i] / Mass(w, keep) else 0.0
  {
    ScaledAhead(logits, cfg.temperature);
    KeptIsSurvivors(e, f, cfg, w, top, total, share, keep);
    SharesAt(e, logits, cfg, f, w, keep);
  }

  lemma SharesAt(e: Exp, logits: seq<real>, cfg: SamplingConfig, f: seq<real>, w: seq<real>, keep: seq<bool>)
    requires ExpLike(e) && cfg.Valid() && cfg.temperature > 0.0 && logits != []
    requires f == Scaled(logits, cfg.temperature) && w == Weights(e, f) && keep == Flags(|f|, Survivors(e, f, cfg))
    ensures Mass(w, keep) > 0.0
    ensures forall i | 0 <= i < |logits| ::
              Effective(e, logits, cfg)[i] == if keep[i] then w[i] / Mass(w, keep) else 0.0
  {
    SurvivorMassPositive(e, f, cfg);
  }

  /** In greedy mode all of it is on the first largest logit. */
  lemma GreedyExact(e: Exp, logits: seq<real>, cfg: SamplingConfig, i: nat)
    requires ExpLike(e) && cfg.Valid() && cfg.temperature <= 0.0 && i < |logits|
    ensures Effective(e, logits, cfg)[i] == if IsArgmax(logits, i) then 1.0 else 0.0
  {
    if IsArgmax(logits, i) {
      ArgmaxUnique(logits, i, Argmax(logits));
    }
  }

  // ----- the pipeline's stages ----------------------------------------------

  method ScaleLogits(logits: seq<real>, t: real) returns (f: array<real>, maxF: real)
    requires logits != [] && t > 0.0
    ensures fresh(f) && f[..] == Scaled(logits, t) && maxF == f[Argmax(f[..])]
  {
    f := new real[|logits|](_ => 0.0);
    f[0] := logits[0] / t;
    maxF := f[0];
    ghost var best := 0;
    for i := 1 to |logits|
      invariant forall j | 0 <= j < i :: f[j] == logits[j] / t
      invariant 0 <= best < i && maxF == f[best] && forall j | 0 <= j < i :: f[j] <= maxF
    {
      f[i] := logits[i] / t;
      if f[i] > maxF {
        maxF := f[i];
        best := i;
      }
    }
    assert f[..][best] == f[best] && f[..][Argmax(f[..])] == f[Argmax(f[..])];
  }

  method TopKFilter(f: array<real>, topK: int, keep: array<bool>)
    requires f.Length == keep.Length > 0 && forall i | 0 <= i < keep.Length :: keep[i]
    modifies keep
    ensures |Ranking(f[..])| == f.Length
    ensures keep[..] == Flags(f.Length, Ranking(f[..])[..KeptRanks(f.Length, topK)])
    ensures forall i | 0 <= i < f.Length :: keep[i] <==> topK <= 0 || |Ahead(f[..], i)| < topK
  {
    TopKeptExact(f[..], topK);
    RankingLength(f[..]);
    RankingComplete(f[..]);
    var n := f.Length;
    ghost var ranking := Ranking(f[..]);
    if topK > 0 {
      var k := if topK < n then topK else n;
      var idx := PartialSort(f[..], k);
      PartialIsRanking(f[..], k, idx);
      for i := k to n
        invariant forall id: nat | id < n :: keep[id] <==> id !in idx[k..i]
      {
        keep[idx[i]] := false;
        assert idx[k..i + 1] == idx[k..i] + [idx[i]];
      }
      SplitIds(n, idx, k);
      assert keep[..] == Flags(n, idx[..k]);
    } else {
      assert ranking[..n] == ranking;
      assert keep[..] == Flags(n, ranking);
    }
  }

  /** Of a listing of all ids, an id is in the front part exactly when not in the rest. */
  lemma SplitIds(n: nat, idx: seq<nat>, k: nat)
    requires |idx| == n && k <= n && Distinct(idx) && forall x: nat | x < n :: x in idx
    ensures forall x: nat | x < n :: x in idx[..k] <==> x !in idx[k..n]
  {
    assert idx == idx[..k] + idx[k..n];
    forall x: nat | x < n
      ensures x in idx[..k] <==> x !in idx[k..n]
    {
      assert x in idx && (x in idx[..k] || x in idx[k..n]);
    }
  }

  method TopPFilter(e: Exp, f: array<real>, maxF: real, topP: real, keep: array<bool>,
      ghost s: seq<nat>, ghost w: seq<real>)
    requires ExpLike(e) && f.Length == keep.Length > 0 && maxF == f[Argmax(f[..])] && 0.0 < topP <= 1.0
    requires s != [] && Ordered(f[..], s) && keep[..] == Flags(f.Length, s) && w == Weights(e, f[..])
    modifies keep
    ensures keep[..] == Flags(f.Length, Nucleus(w, s, topP))
  {
    if topP < 1.0 {
      var ids := CollectKept(keep);
      var survivors := StdSort(f[..], ids);
      KeptAreListed(f[..], keep[..], s, survivors);
      var cut := NucleusCut(e, f, maxF, topP, survivors, w);
      ClearFrom(keep, survivors, cut + 1);
    }
  }

  method NucleusCut(e: Exp, f: array<real>, maxF: real, topP: real, s: seq<nat>, ghost w: seq<real>)
      returns (cut: nat)
    requires ExpLike(e) && f.Length > 0 && maxF == f[Argmax(f[..])] && 0.0 < topP < 1.0
    requires s != [] && Ids(f[..], s) && Distinct(s) && w == Weights(e, f[..])
    ensures cut < |s| && s[..cut + 1] == Nucleus(w, s, topP)
  {
    WeightsPositive(e, f[..]);
    var total := TotalWeight(e, f, maxF, s);
    var target := topP * total;
    TargetInReach(w, s, topP, total);
    cut := FindCut(e, f, maxF, s, target);
    NucleusFromCut(w, s, topP, target, cut + 1);
  }

  lemma TargetInReach(w: seq<real>, s: seq<nat>, topP: real, total: real)
    requires s != [] && Ids(w, s) && Distinct(s) && Positive(w) && 0.0 < topP < 1.0
    requires total == PrefixMass(w, s, |s|)
    ensures topP * total <= total
  {
    PrefixMassZero(w, s);
    PrefixMassGrows(w, s, 0, |s|);
    ShareBelow(topP, total);
  }

  lemma NucleusFromCut(w: seq<real>, s: seq<nat>, topP: real, target: real, c: int)
    requires s != [] && 0.0 < topP < 1.0 && target == topP * PrefixMass(w, s, |s|)
    requires IsCut(w, s, target, c) && target <= PrefixMass(w, s, |s|)
    ensures s[..c] == Nucleus(w, s, topP)
  {
    CutShortest(w, s, target);
    CutUnique(w, s, target, c, CutOf(w, s, target));
  }

  method CollectKept(keep: array<bool>) returns (ids: seq<nat>)
    ensures ids == LiveIds(keep[..])
    ensures forall i | 0 <= i < |ids| :: ids[i] < keep.Length
    ensures Distinct(ids)
  {
    ids := [];
    for i := 0 to keep.Length
      invariant ids == LiveIds(keep[..i])
    {
      LiveIdsStep(keep[..], i);
      assert keep[..][..i + 1] == keep[..i + 1] && keep[..][..i] == keep[..i];
      if keep[i] {
        ids := ids + [i];
      }
    }
    assert keep[..keep.Length] == keep[..];
    LiveIdsComplete(keep[..]);
  }

  lemma KeptAreListed(f: seq<real>, keep: seq<bool>, s: seq<nat>, survivors: seq<nat>)
    requires Ordered(f, s) && keep == Flags(|f|, s)
    requires Ordered(f, survivors) && SameIds(survivors, LiveIds(keep))
    ensures survivors == s
  {
    LiveIdsComplete(keep);
    forall x
      ensures x in survivors <==> x in s
    {
      assert x in s ==> x < |f| && keep[x];
      assert x in LiveIds(keep) ==> keep[x];
    }
    OrderedUnique(f, survivors, s);
  }

  method TotalWeight(e: Exp, f: array<real>, maxF: real, s: seq<nat>) returns (total: real)
    requires f.Length > 0 && maxF == f[Argmax(f[..])] && Ids(f[..], s) && Distinct(s)
    ensures total == PrefixMass(Weights(e, f[..]), s, |s|)
  {
    ghost var w := Weights(e, f[..]);
    PrefixMassZero(w, s);
    total := 0.0;
    for j := 0 to |s|
      invariant total == PrefixMass(w, s, j)
    {
      PrefixMassStep(w, s, j);
      total := total + e(f[s[j]] - maxF);
    }
  }

  /** The index of the last id the top-p stage keeps. */
  method FindCut(e: Exp, f: array<real>, maxF: real, s: seq<nat>, target: real) returns (cut: nat)
    requires f.Length > 0 && maxF == f[Argmax(f[..])] && Ids(f[..], s) && Distinct(s) && s != []
    requires target <= PrefixMass(Weights(e, f[..]), s, |s|)
    ensures IsCut(Weights(e, f[..]), s, target, cut + 1)
  {
    ghost var w := Weights(e, f[..]);
    PrefixMassZero(w, s);
    var cum := 0.0;
    cut := |s| - 1;
    for j := 0 to |s|
      invariant cum == PrefixMass(w, s, j)
      invariant forall d | 1 <= d <= j :: PrefixMass(w, s, d) < target
    {
      PrefixMassStep(w, s, j);
      cum := cum + e(f[s[j]] - maxF);
      if cum >= target || j + 1 == |s| {
        cut := j;
        return;
      }
    }
  }

  method ClearFrom(keep: array<bool>, s: seq<nat>, from: nat)
    requires Distinct(s) && from <= |s| && keep[..] == Flags(keep.Length, s)
    requires forall i | 0 <= i < |s| :: s[i] < keep.Length
    modifies keep
    ensures keep[..] == Flags(keep.Length, s[..from])
  {
    for j := from to |s|
      invariant forall id: nat | id < keep.Length :: keep[id] <==> id in s && id !in s[from..j]
    {
      keep[s[j]] := false;
      assert s[from..j + 1] == s[from..j] + [s[j]];
    }
    assert s == s[..from] + s[from..|s|];
  }

  method KeptWeight(e: Exp, f: array<real>, maxF: real, keep: array<bool>) returns (norm: real)
    requires f.Length == keep.Length > 0 && maxF == f[Argmax(f[..])]
    ensures norm == Mass(Weights(e, f[..]), keep[..])
  {
    ghost var w, kept := Weights(e, f[..]), keep[..];
    norm := 0.0;
    for i := 0 to f.Length
      invariant norm == Mass(w[..i], kept[..i])
    {
      MassStep(w, kept, i);
      if keep[i] {
        norm := norm + e(f[i] - maxF);
      }
    }
    assert w[..f.Length] == w && kept[..f.Length] == kept;
  }

  method Normalize(e: Exp, f: array<real>, maxF: real, keep: array<bool>, p: array<real>, ghost w: seq<real>)
    requires f.Length == keep.Length == p.Length > 0 && maxF == f[Argmax(f[..])] && p != f
    requires w == Weights(e, f[..]) && Mass(w, keep[..]) > 0.0
    requires forall i | 0 <= i < p.Length :: p[i] == 0.0
    modifies p
    ensures p[..] == Shares(w, keep[..], Mass(w, keep[..]))
  {
    var norm := KeptWeight(e, f, maxF, keep);
    ghost var shares, scaled := Shares(w, keep[..], norm), f[..];
    for i := 0 to f.Length
      invariant f[..] == scaled
      invariant forall j | 0 <= j < i :: p[j] == shares[j]
      invariant forall j | i <= j < p.Length :: p[j] == 0.0
    {
      if keep[i] {
        assert w[i] == e(f[i] - maxF);
        p[i] := e(f[i] - maxF) / norm;
      }
    }
  }

  method DrawableProbabilities(e: Exp, logits: seq<real>, cfg: SamplingConfig, p: array<real>)
    requires ExpLike(e) && cfg.Valid() && !cfg.IsGreedy() && p.Length == |logits| > 0
    requires forall i | 0 <= i < p.Length :: p[i] == 0.0
    modifies p
    ensures p[..] == Effective(e, logits, cfg)
  {
    var n := |logits|;
    var f, maxF := ScaleLogits(logits, cfg.temperature);
    ghost var scaled := f[..];
    var keep := new bool[n](_ => true);
    TopKFilter(f, cfg.topK, keep);
    ghost var s := Ranking(scaled)[..KeptRanks(n, cfg.topK)];
    RankingComplete(scaled);
    PrefixOrdered(scaled, Ranking(scaled), KeptRanks(n, cfg.topK));
    TopPFilter(e, f, maxF, cfg.topP, keep, s, Weights(e, scaled));
    SurvivorMassPositive(e, scaled, cfg);
    assert f[..] == scaled && keep[..] == Flags(n, Survivors(e, scaled, cfg));
    Normalize(e, f, maxF, keep, p, Weights(e, scaled));
  }

  method EffectiveProbabilities(e: Exp, logits: seq<real>, cfg: SamplingConfig) returns (p: array<real>)
    requires ExpLike(e) && cfg.Valid()
    ensures fresh(p) && p[..] == Effective(e, logits, cfg)
  {
    p := new real[|logits|](_ => 0.0);
    if logits == [] {
      return;
    }
    if cfg.IsGreedy() {
      var best := ArgmaxBf16(logits);
      p[best] := 1.0;
    } else {
      DrawableProbabilities(e, logits, cfg, p);
    }
  }
}
