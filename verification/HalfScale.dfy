/** Scales as they are stored, in half precision, and what the group check of the
    ingestion verifier makes of them. */
module HalfScales {
  import opened Basics
  import opened Quantizers

  /** The smallest positive half-precision number, 2^-24. */
  const HALF_UNIT: real := 1.0 / 16777216.0

  /** Largest finite half-precision number, and where rounding starts to overflow. */
  const HALF_MAX: real := 65504.0
  const HALF_LIMIT: real := 65520.0

  /** The spacing of half-precision numbers, from 2^-24 to 2^5. */
  const TOP_BINADE: nat := 29

  function Unit(k: nat): (u: real)
    ensures u > 0.0
  {
    if k == 0 then HALF_UNIT else 2.0 * Unit(k - 1)
  }

  /** The first spacing, from the k-th on, that reaches s with an eleven-bit significand. */
  function BinadeFrom(s: real, k: nat): (b: nat)
    requires k <= TOP_BINADE
    ensures k <= b <= TOP_BINADE && (b < TOP_BINADE ==> s < 2048.0 * Unit(b))
    ensures k < b ==> s >= 1024.0 * Unit(b)
    decreases TOP_BINADE - k
  {
    if k == TOP_BINADE || s < 2048.0 * Unit(k) then k else BinadeFrom(s, k + 1)
  }

  /** The half-precision number a finite non-negative scale is stored as: round to nearest,
      ties to even, subnormals included. */
  function Half(s: real): (h: real)
    requires 0.0 <= s < HALF_LIMIT
    ensures h >= 0.0
  {
    var u := Unit(BinadeFrom(s, 0));
    RoundedSign(s, u);
    Times(RoundEven(s / u) as real, u)
  }

  lemma RoundedSign(s: real, u: real)
    requires s >= 0.0 && u > 0.0
    ensures RoundEven(s / u) >= 0 && Times(RoundEven(s / u) as real, u) >= 0.0
  {
    assert s / u >= 0.0;
    ProductNonNegative(RoundEven(s / u) as real, u);
  }

  /** Rounding to a multiple of u is off by at most half of u, and no multiple is nearer. */
  lemma RoundTo(s: real, u: real)
    requires s >= 0.0 && u > 0.0
    ensures Abs(s - Times(RoundEven(s / u) as real, u)) <= u / 2.0
  {
    var x := s / u;
    RoundEvenNear(x);
    assert s == x * u;
    TimesNear(s, x, RoundEven(x), u);
  }

  lemma RoundNearest(x: real, m: int)
    ensures Abs(x - RoundEven(x) as real) <= Abs(x - m as real)
  {
    RoundEvenNear(x);
    OneApart(RoundEven(x), m);
  }

  lemma OneApart(q: int, m: int)
    ensures q == m || (q as real) + 1.0 <= m as real || (m as real) + 1.0 <= q as real
  {
    assert q < m ==> (q + 1) as real <= m as real;
    assert m < q ==> (m + 1) as real <= q as real;
  }

  lemma TimesGrows(a: real, b: real, u: real)
    requires a <= b && u > 0.0
    ensures Times(a, u) <= Times(b, u)
  {
    ProductNonNegative(b - a, u);
    assert b * u - a * u == (b - a) * u;
  }

  lemma NearestMultiple(s: real, u: real, m: int)
    requires s >= 0.0 && u > 0.0
    ensures Abs(s - Times(RoundEven(s / u) as real, u)) <= Abs(s - Times(m as real, u))
  {
    var x := s / u;
    assert Times(x, u) == s;
    RoundNearest(x, m);
    ScaledGap(x, RoundEven(x) as real, u);
    ScaledGap(x, m as real, u);
    TimesGrows(Abs(x - RoundEven(x) as real), Abs(x - m as real), u);
  }

  lemma HalfError(s: real)
    requires 0.0 <= s < HALF_LIMIT
    ensures Abs(s - Half(s)) <= Unit(BinadeFrom(s, 0)) / 2.0
  {
    RoundTo(s, Unit(BinadeFrom(s, 0)));
  }

  lemma {:induction false} UnitGrows(k: nat, m: nat)
    requires k <= m
    ensures Unit(k) <= Unit(m)
  {
    if k < m {
      UnitGrows(k, m - 1);
    }
  }

  /** A finite non-negative half-precision number: up to 2047 units of some spacing. */
  ghost predicate IsHalf(x: real) {
    exists n: nat, k: nat :: HalfNumber(x, n, k)
  }

  ghost predicate HalfNumber(x: real, n: nat, k: nat) {
    n <= 2047 && k <= TOP_BINADE && x == Times(n as real, Unit(k))
  }

  lemma UnitTop()
    ensures Unit(TOP_BINADE) == 32.0
  {
    assert Unit(6) == 64.0 * HALF_UNIT;
    assert Unit(12) == 4096.0 * HALF_UNIT;
    assert Unit(18) == 262144.0 * HALF_UNIT;
    assert Unit(24) == 16777216.0 * HALF_UNIT;
  }

  lemma QuotientBelow(s: real, u: real, limit: real)
    requires 0.0 <= s && u > 0.0 && s < Times(limit, u)
    ensures 0.0 <= s / u < limit
  {
    var x := s / u;
    assert x * u == s;
    if x >= limit {
      TimesGrows(limit, x, u);
    }
  }

  lemma RoundedBelow(x: real)
    requires x < 2048.0
    ensures RoundEven(x) <= 2048
    ensures x < 2047.5 ==> RoundEven(x) <= 2047
  {
  }

  lemma FewUnits(n: nat, b: nat)
    requires b <= TOP_BINADE && n <= 2048 && (b == TOP_BINADE ==> n <= 2047)
    ensures IsHalf(Times(n as real, Unit(b)))
  {
    var x := Times(n as real, Unit(b));
    if n <= 2047 {
      assert HalfNumber(x, n, b);
    } else {
      assert Unit(b + 1) == 2.0 * Unit(b);
      assert HalfNumber(x, 1024, b + 1);
    }
  }

  /** What is stored is a half-precision number ... */
  lemma HalfIsHalf(s: real)
    requires 0.0 <= s < HALF_LIMIT
    ensures IsHalf(Half(s))
  {
    var b := BinadeFrom(s, 0);
    UnitTop();
    RoundedSign(s, Unit(b));
    QuotientBelow(s, Unit(b), if b == TOP_BINADE then 2047.5 else 2048.0);
    RoundedBelow(s / Unit(b));
    FewUnits(RoundEven(s / Unit(b)), b);
  }

  function Shifted(n: nat, j: nat): nat {
    if j == 0 then n else 2 * Shifted(n, j - 1)
  }

  lemma Doubled(a: real, u: real)
    ensures Times(a, 2.0 * u) == 2.0 * Times(a, u) && Times(2.0 * a, u) == 2.0 * Times(a, u)
  {
  }

  lemma {:induction false} CoarserIsMultiple(n: nat, b: nat, k: nat)
    requires b <= k
    ensures Times(n as real, Unit(k)) == Times(Shifted(n, k - b) as real, Unit(b))
  {
    if b < k {
      CoarserIsMultiple(n, b, k - 1);
      Doubled(n as real, Unit(k - 1));
      Doubled(Shifted(n, k - 1 - b) as real, Unit(b));
    }
  }

  /** ... and no half-precision number is nearer. */
  lemma HalfNearest(s: real, x: real)
    requires 0.0 <= s < HALF_LIMIT && IsHalf(x)
    ensures Abs(s - Half(s)) <= Abs(s - x)
  {
    var n: nat, k: nat :| HalfNumber(x, n, k);
    var b := BinadeFrom(s, 0);
    if b <= k {
      CoarserIsMultiple(n, b, k);
      NearestMultiple(s, Unit(b), Shifted(n, k - b));
    } else {
      NearestMultiple(s, Unit(b), 1024);
      FinerIsBelow(n, k, b);
    }
  }

  lemma FinerIsBelow(n: nat, k: nat, b: nat)
    requires n <= 2047 && k < b
    ensures Times(n as real, Unit(k)) <= Times(1024.0, Unit(b))
  {
    UnitGrows(k + 1, b);
    TimesGrows(n as real, 2048.0, Unit(k));
    assert Times(2048.0, Unit(k)) == 1024.0 * Unit(k + 1);
  }

  /** The other half-precision number as near to a scale is a neighbour, and the stored one
      is the even multiple of their distance. */
  lemma HalfTie(s: real, x: real) returns (n: nat, k: nat)
    requires 0.0 <= s < HALF_LIMIT && IsHalf(x) && x != Half(s) && Abs(s - x) == Abs(s - Half(s))
    ensures n % 2 == 0 && k <= TOP_BINADE && Half(s) == Times(n as real, Unit(k)) && Abs(x - Half(s)) == Unit(k)
  {
    var c: nat, l: nat :| HalfNumber(x, c, l);
    k := BinadeFrom(s, 0);
    RoundedSign(s, Unit(k));
    n := RoundEven(s / Unit(k));
    if k <= l {
      CoarserIsMultiple(c, k, l);
      TieEven(s, Unit(k), Shifted(c, l - k));
    } else {
      NearestMultiple(s, Unit(k), 1024);
      FinerIsBelow(c, l, k);
      TieEven(s, Unit(k), 1024);
    }
  }

  lemma TieEven(s: real, u: real, m: int)
    requires s >= 0.0 && u > 0.0 && m != RoundEven(s / u)
    requires Abs(s - Times(m as real, u)) == Abs(s - Times(RoundEven(s / u) as real, u))
    ensures RoundEven(s / u) % 2 == 0 && Abs(Times(m as real, u) - Times(RoundEven(s / u) as real, u)) == u
  {
    var x, q := s / u, RoundEven(s / u);
    assert Times(x, u) == s;
    ScaledGap(x, q as real, u);
    ScaledGap(x, m as real, u);
    SameFactor(Abs(x - q as real), Abs(x - m as real), u);
    RoundEvenIff(x, q);
    OneApart(q, m);
    ScaledGap(m as real, q as real, u);
  }

  lemma SameFactor(a: real, b: real, u: real)
    requires u > 0.0 && Times(a, u) == Times(b, u)
    ensures a == b
  {
    assert (a - b) * u == 0.0;
  }

  /** From 2^-14, the smallest normal number, the relative error is at most 2^-11. */
  lemma HalfNear(s: real)
    requires 1024.0 * HALF_UNIT <= s < HALF_LIMIT
    ensures NearScale(Half(s), s)
  {
    HalfError(s);
  }

  /** Below 2^-13 scales are stored as whole multiples of 2^-24. */
  lemma HalfSmall(s: real)
    requires 0.0 <= s < 2048.0 * HALF_UNIT
    ensures Half(s) == Times(RoundEven(s / HALF_UNIT) as real, HALF_UNIT)
  {
  }

  /** More than 324.5 units are always stored closely enough. */
  lemma HalfClose(s: real)
    requires 324.5 * HALF_UNIT < s < HALF_LIMIT
    ensures CloseScale(Half(s), s)
  {
    if s >= 1024.0 * HALF_UNIT {
      HalfNear(s);
      NearIsClose(Half(s), s);
    } else {
      HalfError(s);
      HalfSmall(s);
      assert s / HALF_UNIT > 324.5;
      assert RoundEven(s / HALF_UNIT) >= 325;
    }
  }

  /** The threshold is sharp: 324.5 units are stored as 324. */
  lemma HalfNotClose()
    ensures !CloseScale(Half(324.5 * HALF_UNIT), 324.5 * HALF_UNIT)
  {
    HalfSmall(324.5 * HALF_UNIT);
    assert 324.5 * HALF_UNIT / HALF_UNIT == 324.5;
    assert RoundEven(324.5) == 324;
  }

  /** A scale is stored as zero exactly up to half a unit. */
  lemma HalfZero(s: real)
    requires 0.0 <= s < HALF_LIMIT
    ensures Half(s) == 0.0 <==> s <= HALF_UNIT / 2.0
  {
    if s < 2048.0 * HALF_UNIT {
      HalfSmall(s);
      var x := s / HALF_UNIT;
      assert x * HALF_UNIT == s;
      assert RoundEven(x) == 0 <==> x <= 0.5;
    } else {
      HalfNear(s);
    }
  }

  // ----- the group check ----------------------------------------------------

  /** The scale stored for a group. */
  function StoredScale(g: seq<real>): (t: real)
    requires Scale(g) < HALF_LIMIT
    ensures t >= 0.0
  {
    GroupScale(g);
    Half(Scale(g))
  }

  /** Groups of half-precision weights never overflow their scale. */
  lemma HalfWeightsFit(g: seq<real>)
    requires forall i | 0 <= i < |g| :: Abs(g[i]) <= HALF_MAX
    ensures Scale(g) < HALF_LIMIT
  {
    AmaxIsMax(g);
  }

  /** The verifier's test of one group: the largest error against the stored scale, or,
      when that is zero, the underflow limit. */
  ghost predicate Accepted(g: seq<real>)
    requires Scale(g) < HALF_LIMIT
  {
    if StoredScale(g) > 0.0 then GroupClose(g, StoredScale(g)) else Amax(g) <= 7.0 * (HALF_UNIT / 2.0)
  }

  /** The zero-scale branch never complains: a group's scale is stored as zero exactly up to
      the underflow limit, where every weight decodes to zero. */
  lemma UnderflowExact(g: seq<real>)
    requires Scale(g) < HALF_LIMIT
    ensures StoredScale(g) == 0.0 <==> Amax(g) <= 7.0 * (HALF_UNIT / 2.0)
    ensures StoredScale(g) == 0.0 ==>
              forall i | 0 <= i < |g| :: Within(g[i], Code(g[i], Scale(g)), StoredScale(g), 7.0 * (HALF_UNIT / 2.0))
  {
    GroupScale(g);
    AmaxIsMax(g);
    HalfZero(Scale(g));
    if StoredScale(g) == 0.0 {
      forall i | 0 <= i < |g|
        ensures Within(g[i], Code(g[i], Scale(g)), 0.0, 7.0 * (HALF_UNIT / 2.0))
      {
        assert Times(Code(g[i], Scale(g)) as real, 0.0) == 0.0;
      }
    }
  }

  /** All full groups of a given scale above half a unit pass if and only if the scale is
      stored closely. */
  lemma AcceptedExact(s: real)
    requires HALF_UNIT / 2.0 < s < HALF_LIMIT
    ensures (forall g | |g| == GROUP_SIZE && Scale(g) == s :: Accepted(g)) <==> CloseScale(Half(s), s)
  {
    HalfZero(s);
    GroupCloseExact(s, Half(s));
    forall g | |g| == GROUP_SIZE && Scale(g) == s
      ensures Accepted(g) <==> GroupClose(g, Half(s))
    {
      GroupScale(g);
    }
  }

  /** The check passes whatever the weights when the largest one is zero, underflows, or is
      above 7 * 324.5 units. */
  lemma AcceptedAlways(g: seq<real>)
    requires Scale(g) < HALF_LIMIT
    requires Amax(g) <= 7.0 * (HALF_UNIT / 2.0) || Amax(g) > 7.0 * 324.5 * HALF_UNIT
    ensures Accepted(g)
  {
    UnderflowExact(g);
    if Amax(g) > 7.0 * 324.5 * HALF_UNIT {
      HalfClose(Scale(g));
      CloseGroup(g, StoredScale(g));
    }
  }

  /** With scales narrowed to half precision, a quantised row whose every scale is zero or
      above 324.5 units is close to the original at every place. */
  lemma StoredRowsClose(w: seq<seq<real>>, k: nat, store: real -> real, n: nat, z: Quantized)
    requires forall r | 0 <= r < |w| :: |w[r]| == k
    requires forall s | 0.0 <= s < HALF_LIMIT :: store(s) == Half(s)
    requires QuantizeW(w, k, store) == Some(z) && n < |w| && |z.scales| == |w|
    requires forall j | 0 <= j < |z.scales[n]| :: ScaleFine(z.scales[n][j])
    ensures |z.stored| == |z.packed| == |w| && RowClose(w[n], Unpack(z.packed[n]), z.stored[n])
  {
    QuantizedRow(w, k, store, n, z);
    forall j | 0 <= j < |z.stored[n]|
      ensures CloseScale(z.stored[n][j], z.scales[n][j])
    {
      assert ScaleFine(z.scales[n][j]);
      if z.scales[n][j] == 0.0 {
        HalfZero(0.0);
      } else {
        HalfClose(z.scales[n][j]);
      }
    }
    QuantizedRowsClose(w, k, store, n, z);
  }

  predicate ScaleFine(s: real) {
    s == 0.0 || 324.5 * HALF_UNIT < s < HALF_LIMIT
  }

  /** In between it can fail: one weight of ten units, the rest zero, is stored with a
      scale of one unit. */
  lemma CoarseScaleMisses()
    ensures var g := Padded(10.0 * HALF_UNIT, 0.0);
      && |g| == GROUP_SIZE && Scale(g) < HALF_LIMIT && StoredScale(g) == HALF_UNIT && !Accepted(g)
  {
    var g, s := Padded(10.0 * HALF_UNIT, 0.0), 10.0 * HALF_UNIT / 7.0;
    PaddedScale(10.0 * HALF_UNIT, 0.0);
    HalfSmall(s);
    assert s / HALF_UNIT == 10.0 / 7.0 && RoundEven(10.0 / 7.0) == 1;
    assert g[0] == 7.0 * s && g[0] / s == 7.0;
    assert !Within(g[0], Code(g[0], s), HALF_UNIT, 0.51 * HALF_UNIT);
  }
}
