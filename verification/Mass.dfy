/** Sums of weights over flagged ids, and the shortest prefix of a listing that
    reaches a target. */
module Masses {
  import opened Basics
  import opened Rankings

  /** Sum of all entries. */
  function Sum(p: seq<real>): real {
    if p == [] then 0.0 else Sum(p[..|p| - 1]) + p[|p| - 1]
  }

  /** Sum of the flagged weights. */
  function Mass(w: seq<real>, keep: seq<bool>): real
    requires |w| == |keep|
  {
    if w == [] then 0.0
    else
      Mass(w[..|w| - 1], keep[..|w| - 1]) + if keep[|w| - 1] then w[|w| - 1] else 0.0
  }

  /** The keep flags of a listing. */
  function Flags(n: nat, ids: seq<nat>): (keep: seq<bool>)
    ensures |keep| == n && forall i | 0 <= i < n :: keep[i] <==> i in ids
  {
    seq(n, i requires 0 <= i < n => i in ids)
  }

  lemma {:induction false} MassFlip(w: seq<real>, keep: seq<bool>, i: nat)
    requires |w| == |keep| && i < |w| && !keep[i]
    ensures Mass(w, keep[i := true]) == Mass(w, keep) + w[i]
  {
    var m := |w| - 1;
    if i < m {
      MassFlip(w[..m], keep[..m], i);
      assert keep[i := true][..m] == keep[..m][i := true];
    } else {
      assert keep[i := true][..m] == keep[..m];
    }
  }

  lemma {:induction false} MassNone(w: seq<real>, keep: seq<bool>)
    requires |w| == |keep| && forall i | 0 <= i < |keep| :: !keep[i]
    ensures Mass(w, keep) == 0.0
  {
    if w != [] {
      MassNone(w[..|w| - 1], keep[..|w| - 1]);
    }
  }

  lemma MassStep(w: seq<real>, keep: seq<bool>, i: nat)
    requires |w| == |keep| && i < |w|
    ensures Mass(w[..i + 1], keep[..i + 1]) == Mass(w[..i], keep[..i]) + if keep[i] then w[i] else 0.0
  {
    assert w[..i + 1][..i] == w[..i] && keep[..i + 1][..i] == keep[..i];
  }

  lemma SumStep(p: seq<real>, i: nat)
    requires i < |p|
    ensures Sum(p[..i + 1]) == Sum(p[..i]) + p[i]
  {
    assert p[..i + 1][..i] == p[..i];
  }

  /** Mass of the first c ids of a listing. */
  function PrefixMass(w: seq<real>, s: seq<nat>, c: nat): real
    requires c <= |s|
  {
    Mass(w, Flags(|w|, s[..c]))
  }

  lemma PrefixMassStep(w: seq<real>, s: seq<nat>, c: nat)
    requires c < |s| && Ids(w, s) && Distinct(s)
    ensures PrefixMass(w, s, c + 1) == PrefixMass(w, s, c) + w[s[c]]
  {
    var keep := Flags(|w|, s[..c]);
    assert s[c] !in s[..c];
    assert s[..c + 1] == s[..c] + [s[c]];
    assert Flags(|w|, s[..c + 1]) == keep[s[c] := true];
    MassFlip(w, keep, s[c]);
  }

  lemma PrefixMassZero(w: seq<real>, s: seq<nat>)
    ensures PrefixMass(w, s, 0) == 0.0
  {
    MassNone(w, Flags(|w|, s[..0]));
  }

  /** Mass of a set of ids. */
  ghost function MassOf(w: seq<real>, ids: set<nat>): real {
    Mass(w, seq(|w|, i => i in ids))
  }

  ghost predicate Positive(w: seq<real>) {
    forall i | 0 <= i < |w| :: w[i] > 0.0
  }

  lemma {:induction false} PrefixMassGrows(w: seq<real>, s: seq<nat>, c: nat, d: nat)
    requires c <= d <= |s| && Ids(w, s) && Distinct(s) && Positive(w)
    ensures PrefixMass(w, s, c) <= PrefixMass(w, s, d)
    ensures c < d ==> PrefixMass(w, s, c) < PrefixMass(w, s, d)
    decreases d - c
  {
    if c < d {
      PrefixMassGrows(w, s, c, d - 1);
      PrefixMassStep(w, s, d - 1);
    }
  }

  lemma {:induction false} MassPositive(w: seq<real>, keep: seq<bool>, i: nat)
    requires |w| == |keep| && i < |w| && keep[i] && Positive(w)
    ensures Mass(w, keep) > 0.0
  {
    var m := |w| - 1;
    if i < m {
      MassPositive(w[..m], keep[..m], i);
    } else {
      MassNonNegative(w[..m], keep[..m]);
    }
  }

  lemma {:induction false} MassNonNegative(w: seq<real>, keep: seq<bool>)
    requires |w| == |keep| && Positive(w)
    ensures Mass(w, keep) >= 0.0
  {
    if w != [] {
      MassNonNegative(w[..|w| - 1], keep[..|w| - 1]);
    }
  }

  // ----- the shortest prefix that reaches a target --------------------------

  ghost predicate IsCut(w: seq<real>, s: seq<nat>, target: real, c: int) {
    && 1 <= c <= |s|
    && PrefixMass(w, s, c) >= target
    && forall d | 1 <= d < c :: PrefixMass(w, s, d) < target
  }

  function CutFrom(w: seq<real>, s: seq<nat>, target: real, c: nat): nat
    requires c <= |s|
    decreases |s| - c
  {
    if c == |s| || PrefixMass(w, s, c) >= target then c else CutFrom(w, s, target, c + 1)
  }

  /** How many ids of the listing are needed to reach the target; never none. */
  function Cut(w: seq<real>, s: seq<nat>, target: real): nat
    requires s != []
  {
    CutFrom(w, s, target, 1)
  }

  lemma {:induction false} CutFromShortest(w: seq<real>, s: seq<nat>, target: real, c: nat)
    requires 1 <= c <= |s| && target <= PrefixMass(w, s, |s|)
    requires forall d | 1 <= d < c :: PrefixMass(w, s, d) < target
    ensures IsCut(w, s, target, CutFrom(w, s, target, c))
    decreases |s| - c
  {
    if c < |s| && PrefixMass(w, s, c) < target {
      CutFromShortest(w, s, target, c + 1);
    }
  }

  lemma CutShortest(w: seq<real>, s: seq<nat>, target: real)
    requires s != [] && target <= PrefixMass(w, s, |s|)
    ensures IsCut(w, s, target, Cut(w, s, target))
  {
    CutFromShortest(w, s, target, 1);
  }

  lemma CutUnique(w: seq<real>, s: seq<nat>, target: real, c: int, d: int)
    requires IsCut(w, s, target, c) && IsCut(w, s, target, d)
    ensures c == d
  {
  }

  // ----- normalising --------------------------------------------------------

  /** Each flagged weight over m, zero elsewhere. */
  function Shares(w: seq<real>, keep: seq<bool>, m: real): (p: seq<real>)
    requires |w| == |keep| && m > 0.0
    ensures |p| == |w|
  {
    seq(|w|, i requires 0 <= i < |w| => if keep[i] then w[i] / m else 0.0)
  }

  lemma DivAdd(a: real, b: real, m: real)
    requires m > 0.0
    ensures a / m + b / m == (a + b) / m
  {
  }

  lemma {:induction false} SharesSum(w: seq<real>, keep: seq<bool>, m: real)
    requires |w| == |keep| && m > 0.0
    ensures Sum(Shares(w, keep, m)) == Mass(w, keep) / m
  {
    if w == [] {
      assert 0.0 / m == 0.0;
    } else {
      var k := |w| - 1;
      SharesSum(w[..k], keep[..k], m);
      assert Shares(w, keep, m)[..k] == Shares(w[..k], keep[..k], m);
      DivAdd(Mass(w[..k], keep[..k]), w[k], m);
    }
  }
}
