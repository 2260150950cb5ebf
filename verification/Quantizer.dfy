/** The group-wise 4-bit weight quantiser and its nibble packing, over real weights.
    One scale per group of 128 weights of a row. */
module Quantizers {
  import opened Basics

  const INT4_MAX: int := 7
  const GROUP_SIZE: nat := 128

  function Abs(x: real): real {
    if x < 0.0 then -x else x
  }

  function AbsInt(x: int): nat {
    if x < 0 then -x else x
  }

  /** Round to the nearest integer, halves to the even one. */
  function RoundEven(x: real): int {
    var low := x.Floor;
    var part := x - low as real;
    if part < 0.5 || (part == 0.5 && low % 2 == 0) then low else low + 1
  }

  function Amax(g: seq<real>): real {
    if g == [] then 0.0
    else
      var rest := Amax(g[..|g| - 1]);
      if Abs(g[|g| - 1]) > rest then Abs(g[|g| - 1]) else rest
  }

  function Scale(g: seq<real>): real {
    Amax(g) / 7.0
  }

  function Clamp(q: int): int {
    if q < -INT4_MAX then -INT4_MAX else if q > INT4_MAX then INT4_MAX else q
  }

  /** The code of one weight: zero in an all-zero group. */
  function Code(w: real, s: real): int {
    if s == 0.0 then 0 else Clamp(RoundEven(w / s))
  }

  // ----- one group ----------------------------------------------------------

  lemma {:induction false} AmaxIsMax(g: seq<real>)
    ensures Amax(g) >= 0.0
    ensures forall i | 0 <= i < |g| :: Abs(g[i]) <= Amax(g)
    ensures g != [] ==> exists i | 0 <= i < |g| :: Abs(g[i]) == Amax(g)
  {
    if g != [] {
      var m := |g| - 1;
      AmaxIsMax(g[..m]);
      if m == 0 {
        assert Amax(g[..0]) == 0.0 && Abs(g[0]) == Amax(g);
      } else if Abs(g[m]) <= Amax(g[..m]) {
        var i :| 0 <= i < m && Abs(g[..m][i]) == Amax(g[..m]);
        assert Abs(g[i]) == Amax(g);
      } else {
        assert Abs(g[m]) == Amax(g);
      }
    }
  }

  lemma RoundEvenNear(x: real)
    ensures Abs(x - RoundEven(x) as real) <= 0.5
    ensures x <= 7.0 ==> RoundEven(x) <= 7
    ensures x >= -7.0 ==> RoundEven(x) >= -7
  {
  }

  lemma RoundEvenExact(n: int)
    ensures RoundEven(n as real) == n
  {
  }

  /** Rounding gives the integer within a half, at a tie the even one of the two. */
  lemma RoundEvenIff(x: real, n: int)
    ensures RoundEven(x) == n <==> Abs(x - n as real) <= 0.5 && (Abs(x - n as real) == 0.5 ==> n % 2 == 0)
  {
  }

  /** b / s for |b| at most seven s lies between -7 and 7. */
  lemma QuotientInRange(w: real, s: real)
    requires s > 0.0 && Abs(w) <= 7.0 * s
    ensures -7.0 <= w / s <= 7.0
    ensures (w / s) * s == w
  {
    var x := w / s;
    assert x * s == w;
    assert (x - 7.0) * s == w - 7.0 * s && (x + 7.0) * s == w + 7.0 * s;
    assert x > 7.0 ==> (x - 7.0) * s > 0.0;
    assert x < -7.0 ==> (x + 7.0) * s < 0.0;
  }

  /** The clamp never bites: the code is the rounded quotient itself. */
  lemma ClampNeverBites(w: real, s: real)
    requires s > 0.0 && Abs(w) <= 7.0 * s
    ensures Code(w, s) == RoundEven(w / s) && -7 <= Code(w, s) <= 7
  {
    QuotientInRange(w, s);
    RoundEvenNear(w / s);
  }

  /** Decoding q with scale s misses w by at most `bound`. */
  predicate Within(w: real, q: int, s: real, bound: real) {
    Abs(w - Times(q as real, s)) <= bound
  }

  function Times(a: real, b: real): real {
    a * b
  }

  lemma ProductNonNegative(a: real, b: real)
    requires a >= 0.0 && b >= 0.0
    ensures a * b >= 0.0
  {
  }

  lemma TimesNear(w: real, x: real, q: int, s: real)
    requires s > 0.0 && Abs(x - q as real) <= 0.5 && w == x * s
    ensures Within(w, q, s, s / 2.0)
  {
    var d := x - q as real;
    assert w - q as real * s == d * s;
    ProductNonNegative(0.5 - d, s);
    ProductNonNegative(0.5 + d, s);
  }

  /** Against the exact scale the error is at most half a step. */
  lemma HalfStep(w: real, s: real)
    requires s >= 0.0 && Abs(w) <= 7.0 * s
    ensures Within(w, Code(w, s), s, s / 2.0)
  {
    if s > 0.0 {
      ClampNeverBites(w, s);
      QuotientInRange(w, s);
      RoundEvenNear(w / s);
      TimesNear(w, w / s, Code(w, s), s);
    } else {
      assert w == 0.0 && Code(w, s) == 0;
      assert Within(0.0, 0, s, s / 2.0);
    }
  }

  lemma ScaledGap(x: real, q: real, u: real)
    requires u > 0.0
    ensures Abs(Times(x, u) - Times(q, u)) == Times(Abs(x - q), u)
  {
    assert x * u - q * u == (x - q) * u;
    assert x >= q ==> (x - q) * u >= 0.0;
    assert x < q ==> (q - x) * u >= 0.0 && (x - q) * u == -((q - x) * u);
  }

  lemma HalfSteps(d: real, s: real)
    requires s > 0.0
    ensures Times(d, s) <= s / 2.0 <==> d <= 0.5
    ensures Times(d, s) == s / 2.0 <==> d == 0.5
  {
    assert d * s - s / 2.0 == (d - 0.5) * s;
    assert d > 0.5 ==> (d - 0.5) * s > 0.0;
    assert d < 0.5 ==> (0.5 - d) * s > 0.0;
  }

  /** The code of a weight is the integer whose multiple of the scale is within half a
      step, at a tie the even one of the two. */
  lemma CodeExact(w: real, s: real, q: int)
    requires s > 0.0 && Abs(w) <= 7.0 * s
    ensures Code(w, s) == q <==>
      Within(w, q, s, s / 2.0) && (Abs(w - Times(q as real, s)) == s / 2.0 ==> q % 2 == 0)
  {
    ClampNeverBites(w, s);
    QuotientInRange(w, s);
    assert w == Times(w / s, s);
    ScaledGap(w / s, q as real, s);
    HalfSteps(Abs(w / s - q as real), s);
    RoundEvenIff(w / s, q);
  }

  /** A stored scale within relative error 2^-11 of the computed one. */
  predicate NearScale(stored: real, s: real) {
    Abs(stored - s) <= s / 2048.0
  }

  /** The exact condition on a stored scale: it is off by at most a 650th of itself. */
  predicate CloseScale(stored: real, s: real) {
    650.0 * Abs(s - stored) <= stored
  }

  lemma NearIsClose(stored: real, s: real)
    requires s >= 0.0 && NearScale(stored, s)
    ensures CloseScale(stored, s)
  {
  }

  lemma CodeTimesDrift(q: real, d: real)
    requires -6.0 <= q <= 6.0
    ensures -6.0 * Abs(d) <= Times(q, d) <= 6.0 * Abs(d)
  {
    ProductNonNegative(6.0 - q, Abs(d));
    ProductNonNegative(6.0 + q, Abs(d));
  }

  lemma SplitStored(q: real, s: real, stored: real)
    ensures Times(q, stored) == Times(q, s) + Times(q, stored - s)
  {
  }

  /** A code below seven: the half step and at most six times the drift. */
  lemma InnerCodeClose(w: real, q: int, s: real, stored: real)
    requires s >= 0.0 && -6 <= q <= 6 && CloseScale(stored, s) && Within(w, q, s, s / 2.0)
    ensures Within(w, q, stored, 0.51 * stored)
  {
    CodeTimesDrift(q as real, stored - s);
    SplitStored(q as real, s, stored);
  }

  /** The outermost code: no weight lies beyond seven computed steps. */
  lemma OuterCodeClose(w: real, q: int, s: real, stored: real)
    requires s >= 0.0 && AbsInt(q) == 7 && CloseScale(stored, s) && Within(w, q, s, s / 2.0) && Abs(w) <= 7.0 * s
    ensures Within(w, q, stored, 0.51 * stored)
  {
    if q == 7 {
      assert Times(q as real, s) == 7.0 * s && Times(q as real, stored) == 7.0 * stored;
    } else {
      assert Times(q as real, s) == -7.0 * s && Times(q as real, stored) == -7.0 * stored;
    }
  }

  lemma CloseStep(w: real, s: real, stored: real)
    requires s >= 0.0 && Abs(w) <= 7.0 * s && CloseScale(stored, s)
    ensures Within(w, Code(w, s), stored, 0.51 * stored)
  {
    HalfStep(w, s);
    CodeInRange(w, s);
    if AbsInt(Code(w, s)) == 7 {
      OuterCodeClose(w, Code(w, s), s, stored);
    } else {
      InnerCodeClose(w, Code(w, s), s, stored);
    }
  }

  /** Against a stored scale within relative error 2^-11 the error is at most 0.51 of the
      stored scale. */
  lemma StoredStep(w: real, s: real, stored: real)
    requires s >= 0.0 && Abs(w) <= 7.0 * s && NearScale(stored, s)
    ensures Within(w, Code(w, s), stored, 0.51 * stored)
  {
    NearIsClose(stored, s);
    CloseStep(w, s, stored);
  }

  // A stored scale that is not close has a weight that misses the bound: below the
  // computed scale a weight halfway between codes 6 and 7, above it one just past halfway.

  function PastHalf(s: real, stored: real): real {
    if s > stored then 0.0
    else
      var room := (6.5 * (stored - s) - 0.01 * stored) / 2.0;
      if room < s / 2.0 then room else s / 2.0
  }

  function MissedWeight(s: real, stored: real): real {
    6.5 * s + PastHalf(s, stored)
  }

  lemma MissedCode(s: real, y: real)
    requires s > 0.0 && 0.0 <= y <= s / 2.0
    ensures Code(6.5 * s + y, s) == if y == 0.0 then 6 else 7
  {
    var x := y / s;
    assert x * s == y;
    assert x > 0.5 ==> (x - 0.5) * s > 0.0;
    assert (6.5 * s + y) / s == 6.5 + x by {
      Cancel(6.5 + x, s);
      assert Times(6.5 + x, s) == 6.5 * s + y;
    }
    assert y > 0.0 ==> x > 0.0;
  }

  lemma NotCloseMisses(s: real, stored: real)
    requires s > 0.0 && !CloseScale(stored, s)
    ensures Abs(MissedWeight(s, stored)) <= 7.0 * s
    ensures !Within(MissedWeight(s, stored), Code(MissedWeight(s, stored), s), stored, 0.51 * stored)
  {
    var y := PastHalf(s, stored);
    MissedCode(s, y);
    if y == 0.0 {
      assert Times(6.0, stored) == 6.0 * stored;
    } else {
      assert Times(7.0, stored) == 7.0 * stored;
    }
  }

  /** Every weight of a computed scale meets the 0.51 bound if and only if the stored
      scale is close to it. */
  lemma CloseScaleExact(s: real, stored: real)
    requires s > 0.0
    ensures (forall w | Abs(w) <= 7.0 * s :: Within(w, Code(w, s), stored, 0.51 * stored)) <==> CloseScale(stored, s)
  {
    if CloseScale(stored, s) {
      forall w | Abs(w) <= 7.0 * s
        ensures Within(w, Code(w, s), stored, 0.51 * stored)
      {
        CloseStep(w, s, stored);
      }
    } else {
      NotCloseMisses(s, stored);
    }
  }

  lemma CodeInRange(w: real, s: real)
    ensures -7 <= Code(w, s) <= 7
  {
  }

  /** Every group's scale bounds its weights, and a group with a non-zero weight uses
      the full code range. */
  lemma GroupScale(g: seq<real>)
    ensures Scale(g) >= 0.0
    ensures forall i | 0 <= i < |g| :: Abs(g[i]) <= 7.0 * Scale(g)
    ensures Scale(g) == 0.0 <==> forall i | 0 <= i < |g| :: g[i] == 0.0
  {
    AmaxIsMax(g);
    if Scale(g) == 0.0 {
      forall i | 0 <= i < |g|
        ensures g[i] == 0.0
      {
        assert Abs(g[i]) <= 0.0;
      }
    } else if g != [] {
      var i :| 0 <= i < |g| && Abs(g[i]) == Amax(g);
      assert g[i] != 0.0;
    }
  }

  lemma FullRange(g: seq<real>)
    requires Scale(g) > 0.0
    ensures exists i | 0 <= i < |g| :: AbsInt(Code(g[i], Scale(g))) == 7
  {
    AmaxIsMax(g);
    var s := Scale(g);
    assert g != [];
    var i :| 0 <= i < |g| && Abs(g[i]) == Amax(g);
    SevenSteps(g[i], s);
    assert AbsInt(Code(g[i], s)) == 7;
  }

  lemma SevenSteps(w: real, s: real)
    requires s > 0.0 && Abs(w) == 7.0 * s
    ensures AbsInt(Code(w, s)) == 7
  {
    QuotientInRange(w, s);
    var x := w / s;
    if w >= 0.0 {
      assert (x - 7.0) * s == 0.0;
      assert x == 7.0;
    } else {
      assert (x + 7.0) * s == 0.0;
      assert x == -7.0;
    }
    RoundEvenExact(7);
    RoundEvenExact(-7);
  }

  // ----- quantising again ---------------------------------------------------

  function GroupCodes(g: seq<real>): (q: seq<int>)
    ensures |q| == |g|
  {
    seq(|g|, i requires 0 <= i < |g| => Code(g[i], Scale(g)))
  }

  function Decoded(q: seq<int>, s: real): (g: seq<real>)
    ensures |g| == |q| && forall i | 0 <= i < |q| :: g[i] == Times(q[i] as real, s)
  {
    seq(|q|, i requires 0 <= i < |q| => Times(q[i] as real, s))
  }

  lemma StepBound(q: int, s: real)
    requires s >= 0.0 && -7 <= q <= 7
    ensures Abs(Times(q as real, s)) <= 7.0 * s
    ensures AbsInt(q) == 7 ==> Abs(Times(q as real, s)) == 7.0 * s
  {
    ProductNonNegative(7.0 - q as real, s);
    ProductNonNegative(7.0 + q as real, s);
  }

  lemma Cancel(a: real, s: real)
    requires s > 0.0
    ensures Times(a, s) / s == a
  {
    assert (a * s) / s == a;
  }

  lemma DecodeCode(q: int, s: real)
    requires s > 0.0 && -7 <= q <= 7
    ensures Code(Times(q as real, s), s) == q
  {
    Cancel(q as real, s);
    RoundEvenExact(q);
  }

  lemma AmaxIs(g: seq<real>, top: real, i: nat)
    requires i < |g| && Abs(g[i]) == top && forall j | 0 <= j < |g| :: Abs(g[j]) <= top
    ensures Amax(g) == top
  {
    AmaxIsMax(g);
    var k :| 0 <= k < |g| && Abs(g[k]) == Amax(g);
  }

  /** Every weight of the group is within 0.51 of the stored scale of its decoding. */
  ghost predicate GroupClose(g: seq<real>, stored: real) {
    forall i | 0 <= i < |g| :: Within(g[i], Code(g[i], Scale(g)), stored, 0.51 * stored)
  }

  /** A group of full length: the two weights, then zeros. */
  function Padded(a: real, b: real): (g: seq<real>)
    ensures |g| == GROUP_SIZE && g[0] == a && g[1] == b
    ensures forall i | 2 <= i < GROUP_SIZE :: g[i] == 0.0
  {
    [a, b] + seq(GROUP_SIZE - 2, _ => 0.0)
  }

  lemma PaddedScale(a: real, b: real)
    requires Abs(b) <= Abs(a)
    ensures Scale(Padded(a, b)) == Abs(a) / 7.0
  {
    AmaxIs(Padded(a, b), Abs(a), 0);
  }

  /** The bound the group check tests holds of every full group with a given computed
      scale if and only if the stored scale is close to it. */
  lemma GroupCloseExact(s: real, stored: real)
    requires s > 0.0
    ensures (forall g | |g| == GROUP_SIZE && Scale(g) == s :: GroupClose(g, stored)) <==> CloseScale(stored, s)
  {
    if CloseScale(stored, s) {
      forall g | |g| == GROUP_SIZE && Scale(g) == s
        ensures GroupClose(g, stored)
      {
        CloseGroup(g, stored);
      }
    } else {
      var w := MissedWeight(s, stored);
      NotCloseMisses(s, stored);
      PaddedScale(7.0 * s, w);
      assert !Within(Padded(7.0 * s, w)[1], Code(w, s), stored, 0.51 * stored);
      assert !GroupClose(Padded(7.0 * s, w), stored);
    }
  }

  lemma CloseGroup(g: seq<real>, stored: real)
    requires CloseScale(stored, Scale(g))
    ensures GroupClose(g, stored)
  {
    GroupScale(g);
    forall i | 0 <= i < |g|
      ensures Within(g[i], Code(g[i], Scale(g)), stored, 0.51 * stored)
    {
      CloseStep(g[i], Scale(g), stored);
    }
  }

  /** Codes that use the full range decode to a group that quantises to the same codes
      and the same scale. */
  lemma DecodedScale(q: seq<int>, s: real, i: nat)
    requires s > 0.0 && i < |q| && AbsInt(q[i]) == 7 && forall j | 0 <= j < |q| :: -7 <= q[j] <= 7
    ensures Scale(Decoded(q, s)) == s && GroupCodes(Decoded(q, s)) == q
  {
    var g := Decoded(q, s);
    forall j | 0 <= j < |q|
      ensures Abs(g[j]) <= 7.0 * s && Code(g[j], s) == q[j]
    {
      StepBound(q[j], s);
      DecodeCode(q[j], s);
    }
    StepBound(q[i], s);
    AmaxIs(g, 7.0 * s, i);
  }

  /** Quantising is idempotent: decoding a quantised group with its scale and
      quantising the result gives the same codes and scale back. */
  lemma QuantiseTwice(g: seq<real>)
    ensures Scale(Decoded(GroupCodes(g), Scale(g))) == Scale(g)
    ensures GroupCodes(Decoded(GroupCodes(g), Scale(g))) == GroupCodes(g)
  {
    GroupScale(g);
    var q, s := GroupCodes(g), Scale(g);
    if s > 0.0 {
      FullRange(g);
      var i :| 0 <= i < |g| && AbsInt(Code(g[i], s)) == 7;
      forall j | 0 <= j < |q|
        ensures -7 <= q[j] <= 7
      {
        CodeInRange(g[j], s);
      }
      DecodedScale(q, s, i);
    } else {
      GroupScale(Decoded(q, s));
    }
  }

  // ----- packing ------------------------------------------------------------

  /** The low four bits of a two's-complement integer. */
  function Nibble(q: int): (n: nat)
    ensures n < 16
  {
    q % 16
  }

  function SignExtend(n: nat): int {
    if n > 7 then n - 16 else n
  }

  function Pack(q: seq<int>): (packed: seq<nat>)
    ensures |packed| == |q| / 2 && forall j | 0 <= j < |packed| :: packed[j] < 256
  {
    seq(|q| / 2, j requires 0 <= j < |q| / 2 => Nibble(q[2 * j + 1]) * 16 + Nibble(q[2 * j]))
  }

  function Unpack(packed: seq<nat>): (q: seq<int>)
    ensures |q| == 2 * |packed|
  {
    seq(2 * |packed|, i requires 0 <= i < 2 * |packed| =>
      SignExtend(if i % 2 == 0 then packed[i / 2] % 16 else packed[i / 2] / 16 % 16))
  }

  lemma NibbleRoundTrip(q: int)
    requires -8 <= q <= 7
    ensures SignExtend(Nibble(q)) == q
  {
  }

  lemma SignExtendRoundTrip(n: nat)
    requires n < 16
    ensures Nibble(SignExtend(n)) == n && -8 <= SignExtend(n) <= 7
  {
  }

  lemma ByteNibbles(lo: nat, hi: nat)
    requires lo < 16 && hi < 16
    ensures (hi * 16 + lo) % 16 == lo && (hi * 16 + lo) / 16 % 16 == hi
  {
  }

  lemma UnpackPack(q: seq<int>)
    requires |q| % 2 == 0 && forall i | 0 <= i < |q| :: -8 <= q[i] <= 7
    ensures Unpack(Pack(q)) == q
  {
    forall i | 0 <= i < |q|
      ensures Unpack(Pack(q))[i] == q[i]
    {
      UnpackPackAt(q, i, i / 2);
    }
  }

  lemma UnpackPackAt(q: seq<int>, i: nat, j: nat)
    requires |q| % 2 == 0 && i < |q| && -8 <= q[i] <= 7 && j == i / 2
    ensures Unpack(Pack(q))[i] == q[i]
  {
    ByteNibbles(Nibble(q[2 * j]), Nibble(q[2 * j + 1]));
    NibbleRoundTrip(q[i]);
  }

  /** No two byte strings unpack alike: the packing wastes no byte value. */
  lemma PackUnpack(packed: seq<nat>)
    requires forall j | 0 <= j < |packed| :: packed[j] < 256
    ensures Pack(Unpack(packed)) == packed
  {
    forall j | 0 <= j < |packed|
      ensures Pack(Unpack(packed))[j] == packed[j]
    {
      PackUnpackAt(packed, j);
    }
  }

  lemma PackUnpackAt(packed: seq<nat>, j: nat)
    requires j < |packed| && packed[j] < 256
    ensures Pack(Unpack(packed))[j] == packed[j]
  {
    var b, q := packed[j], Unpack(packed);
    EvenOdd(j);
    assert q[2 * j] == SignExtend(b % 16) && q[2 * j + 1] == SignExtend(b / 16 % 16);
    SignExtendRoundTrip(b % 16);
    SignExtendRoundTrip(b / 16 % 16);
  }

  lemma EvenOdd(j: nat)
    ensures 2 * j / 2 == (2 * j + 1) / 2 == j && 2 * j % 2 == 0 && (2 * j + 1) % 2 == 1
  {
  }

  // ----- a weight matrix ----------------------------------------------------

  function Group(row: seq<real>, j: nat): (g: seq<real>)
    requires |row| % GROUP_SIZE == 0 && j < |row| / GROUP_SIZE
    ensures |g| == GROUP_SIZE
  {
    row[j * GROUP_SIZE..j * GROUP_SIZE + GROUP_SIZE]
  }

  function RowScales(row: seq<real>): (s: seq<real>)
    requires |row| % GROUP_SIZE == 0
    ensures |s| == |row| / GROUP_SIZE
  {
    seq(|row| / GROUP_SIZE, j requires 0 <= j < |row| / GROUP_SIZE => Scale(Group(row, j)))
  }

  function RowCodes(row: seq<real>): (q: seq<int>)
    requires |row| % GROUP_SIZE == 0
    ensures |q| == |row|
  {
    seq(|row|, i requires 0 <= i < |row| => Code(row[i], RowScales(row)[i / GROUP_SIZE]))
  }

  datatype Quantized = Quantized(packed: seq<seq<nat>>, stored: seq<seq<real>>,
    codes: seq<seq<int>>, scales: seq<seq<real>>)

  function Map<A, B>(f: A --> B, s: seq<A>): (t: seq<B>)
    requires forall i | 0 <= i < |s| :: f.requires(s[i])
    ensures |t| == |s| && forall i | 0 <= i < |s| :: t[i] == f(s[i])
  {
    seq(|s|, i requires 0 <= i < |s| && f.requires(s[i]) => f(s[i]))
  }

  /** The outputs hold the matrix: the packed bytes unpack to the codes, every code decodes
      with its group's scale to within half a step of its weight, and the stored scales
      are the narrowed ones. */
  ghost predicate Decodes(w: seq<seq<real>>, k: nat, store: real -> real, z: Quantized)
    requires k % GROUP_SIZE == 0
  {
    && |z.packed| == |z.stored| == |z.codes| == |z.scales| == |w|
    && forall n | 0 <= n < |w| ::
         && |w[n]| == |z.codes[n]| == k && |z.scales[n]| == |z.stored[n]| == k / GROUP_SIZE
         && Unpack(z.packed[n]) == z.codes[n]
         && (forall j | 0 <= j < k / GROUP_SIZE :: z.stored[n][j] == store(z.scales[n][j]))
         && RowDecodes(w[n], z.codes[n], z.scales[n])
  }

  ghost predicate RowDecodes(row: seq<real>, q: seq<int>, s: seq<real>)
    requires |row| == |q| && |row| % GROUP_SIZE == 0 && |s| == |row| / GROUP_SIZE
  {
    forall i | 0 <= i < |row| ::
      Abs(row[i]) <= 7.0 * s[i / GROUP_SIZE] && Within(row[i], q[i], s[i / GROUP_SIZE], s[i / GROUP_SIZE] / 2.0)
  }

  lemma RowsDecode(w: seq<seq<real>>, k: nat)
    requires k % GROUP_SIZE == 0 && forall n | 0 <= n < |w| :: |w[n]| == k
    ensures forall n | 0 <= n < |w| ::
              Unpack(Pack(RowCodes(w[n]))) == RowCodes(w[n]) && RowDecodes(w[n], RowCodes(w[n]), RowScales(w[n]))
  {
    forall n | 0 <= n < |w|
      ensures Unpack(Pack(RowCodes(w[n]))) == RowCodes(w[n]) && RowDecodes(w[n], RowCodes(w[n]), RowScales(w[n]))
    {
      StoredCodes(w[n]);
      forall i | 0 <= i < |w[n]|
        ensures Abs(w[n][i]) <= 7.0 * RowScales(w[n])[i / GROUP_SIZE]
        ensures Within(w[n][i], RowCodes(w[n])[i], RowScales(w[n])[i / GROUP_SIZE],
                       RowScales(w[n])[i / GROUP_SIZE] / 2.0)
      {
        RowError(w[n], RowScales(w[n]), i);
        RowWeightBounded(w[n], i);
      }
    }
  }

  /** The whole matrix of n rows of k weights; `store` is the narrowing of a scale to
      its stored precision. A row length that is not a multiple of the group size is
      refused. */
  function QuantizeW(w: seq<seq<real>>, k: nat, store: real -> real): (z: Option<Quantized>)
    requires forall n | 0 <= n < |w| :: |w[n]| == k
    ensures z.Some? <==> k % GROUP_SIZE == 0
    ensures z.Some? ==> Decodes(w, k, store, z.value)
  {
    if k % GROUP_SIZE != 0 then None
    else
      RowsDecode(w, k);
      var codes := seq(|w|, n requires 0 <= n < |w| => RowCodes(w[n]));
      var scales := seq(|w|, n requires 0 <= n < |w| => RowScales(w[n]));
      var packed := seq(|w|, n requires 0 <= n < |w| => Pack(codes[n]));
      var stored := seq(|w|, n requires 0 <= n < |w| => Map(store, scales[n]));
      Some(Quantized(packed, stored, codes, scales))
  }

  lemma RowWeightBounded(row: seq<real>, i: nat)
    requires |row| % GROUP_SIZE == 0 && i < |row|
    ensures i / GROUP_SIZE < |row| / GROUP_SIZE
    ensures RowScales(row)[i / GROUP_SIZE] >= 0.0
    ensures Abs(row[i]) <= 7.0 * RowScales(row)[i / GROUP_SIZE]
  {
    var g := Group(row, i / GROUP_SIZE);
    GroupScale(g);
    assert g[i % GROUP_SIZE] == row[i];
  }

  /** What the unpacker reads is what the quantiser decided, within [-7, 7]. */
  lemma StoredCodes(row: seq<real>)
    requires |row| % GROUP_SIZE == 0
    ensures Unpack(Pack(RowCodes(row))) == RowCodes(row)
    ensures forall i | 0 <= i < |row| :: -7 <= RowCodes(row)[i] <= 7
  {
    forall i | 0 <= i < |row|
      ensures -7 <= RowCodes(row)[i] <= 7
    {
      CodeInRange(row[i], RowScales(row)[i / GROUP_SIZE]);
    }
    UnpackPack(RowCodes(row));
  }

  /** One row against any stored scales. */
  lemma RowError(row: seq<real>, t: seq<real>, i: nat)
    requires |row| % GROUP_SIZE == 0 && |t| == |row| / GROUP_SIZE && i < |row|
    ensures i / GROUP_SIZE < |t|
    ensures Within(row[i], RowCodes(row)[i], RowScales(row)[i / GROUP_SIZE], RowScales(row)[i / GROUP_SIZE] / 2.0)
    ensures CloseScale(t[i / GROUP_SIZE], RowScales(row)[i / GROUP_SIZE])
        ==> Within(row[i], RowCodes(row)[i], t[i / GROUP_SIZE], 0.51 * t[i / GROUP_SIZE])
  {
    RowWeightBounded(row, i);
    var s := RowScales(row)[i / GROUP_SIZE];
    assert RowCodes(row)[i] == Code(row[i], s);
    HalfStep(row[i], s);
    if CloseScale(t[i / GROUP_SIZE], s) {
      CloseStep(row[i], s, t[i / GROUP_SIZE]);
    }
  }

  /** The four outputs, row by row. */
  lemma QuantizedRow(w: seq<seq<real>>, k: nat, store: real -> real, n: nat, z: Quantized)
    requires forall r | 0 <= r < |w| :: |w[r]| == k
    requires QuantizeW(w, k, store) == Some(z) && n < |w|
    ensures
      && |z.packed| == |z.stored| == |z.codes| == |z.scales| == |w|
      && z.codes[n] == RowCodes(w[n]) && z.scales[n] == RowScales(w[n])
      && z.packed[n] == Pack(RowCodes(w[n])) && z.stored[n] == Map(store, RowScales(w[n]))
  {
  }

  /** Every output, place by place, against the weights: the scale is a seventh of the
      largest magnitude among the 128 weights of its group; the code is the multiple of it
      within half a step, the even one at a tie, and zero when the scale is; byte j holds
      code 2j in its low and code 2j + 1 in its high four bits. */
  lemma QuantizedExact(w: seq<seq<real>>, k: nat, store: real -> real, n: nat, i: nat, z: Quantized)
    requires forall r | 0 <= r < |w| :: |w[r]| == k
    requires QuantizeW(w, k, store) == Some(z) && n < |w| && i < k
    ensures |z.packed| == |z.stored| == |z.codes| == |z.scales| == |w| && k % 128 == 0
    ensures |z.codes[n]| == k && |z.scales[n]| == |z.stored[n]| == k / 128 && |z.packed[n]| == k / 2
    ensures i / 128 < k / 128 && i / 2 < k / 2
    ensures var g, q, s := w[n][i / 128 * 128..i / 128 * 128 + 128], z.codes[n][i], z.scales[n][i / 128];
      && z.stored[n][i / 128] == store(s)
      && (forall m | 0 <= m < 128 :: Abs(g[m]) <= 7.0 * s) && (exists m | 0 <= m < 128 :: Abs(g[m]) == 7.0 * s)
      && (if s == 0.0 then q == 0
          else Within(w[n][i], q, s, s / 2.0) && (Abs(w[n][i] - Times(q as real, s)) == s / 2.0 ==> q % 2 == 0))
      && z.packed[n][i / 2] < 256
      && (if i % 2 == 0 then z.packed[n][i / 2] % 16 else z.packed[n][i / 2] / 16) == q % 16
  {
    QuantizedRow(w, k, store, n, z);
    RowExact(w[n], i);
    PackedExact(z.codes[n], i);
  }

  lemma RowExact(row: seq<real>, i: nat)
    requires |row| % 128 == 0 && i < |row|
    ensures i / 128 < |row| / 128 && IsScale(row[i / 128 * 128..i / 128 * 128 + 128], RowScales(row)[i / 128])
    ensures CodeFits(row[i], RowScales(row)[i / 128], RowCodes(row)[i])
  {
    GroupScaleExact(Group(row, i / GROUP_SIZE));
    RowWeightBounded(row, i);
    CodeFitsScale(row[i], RowScales(row)[i / GROUP_SIZE]);
  }

  /** The low four bits of byte j hold code 2j, the high four bits code 2j + 1. */
  lemma PackedExact(q: seq<int>, i: nat)
    requires |q| % 2 == 0 && i < |q|
    ensures |Pack(q)| == |q| / 2 && i / 2 < |q| / 2 && Pack(q)[i / 2] < 256
    ensures (if i % 2 == 0 then Pack(q)[i / 2] % 16 else Pack(q)[i / 2] / 16) == q[i] % 16
  {
    ByteNibbles(Nibble(q[i / 2 * 2]), Nibble(q[i / 2 * 2 + 1]));
  }

  /** Seven times the scale is the largest magnitude of the group. */
  ghost predicate IsScale(g: seq<real>, s: real) {
    && (forall i | 0 <= i < |g| :: Abs(g[i]) <= 7.0 * s)
    && (exists i | 0 <= i < |g| :: Abs(g[i]) == 7.0 * s)
  }

  ghost predicate CodeFits(w: real, s: real, q: int) {
    if s == 0.0 then q == 0
    else Within(w, q, s, s / 2.0) && (Abs(w - Times(q as real, s)) == s / 2.0 ==> q % 2 == 0)
  }

  lemma GroupScaleExact(g: seq<real>)
    requires g != []
    ensures IsScale(g, Scale(g))
  {
    AmaxIsMax(g);
  }

  lemma CodeFitsScale(w: real, s: real)
    requires s >= 0.0 && Abs(w) <= 7.0 * s
    ensures CodeFits(w, s, Code(w, s))
  {
    if s > 0.0 {
      CodeExact(w, s, Code(w, s));
    }
  }

  /** The whole path, quantise, pack, unpack, decode, misses each weight by at most half
      the computed scale, and by at most 0.51 of any stored scale close to it. */
  lemma DequantizeError(w: seq<seq<real>>, k: nat, store: real -> real, n: nat, i: nat, z: Quantized)
    requires forall r | 0 <= r < |w| :: |w[r]| == k
    requires QuantizeW(w, k, store) == Some(z) && n < |w| && i < k
    ensures |z.packed| == |z.stored| == |z.codes| == |z.scales| == |w|
    ensures |z.scales[n]| == |z.stored[n]| == k / GROUP_SIZE && i / GROUP_SIZE < k / GROUP_SIZE
    ensures Unpack(z.packed[n]) == z.codes[n] && |z.codes[n]| == k
    ensures var q, s, t := Unpack(z.packed[n])[i], z.scales[n][i / GROUP_SIZE], z.stored[n][i / GROUP_SIZE];
      && Within(w[n][i], q, s, s / 2.0)
      && (CloseScale(t, s) ==> Within(w[n][i], q, t, 0.51 * t))
  {
    QuantizedRow(w, k, store, n, z);
    StoredCodes(w[n]);
    RowError(w[n], Map(store, RowScales(w[n])), i);
  }

  // ----- a dot product ------------------------------------------------------

  /** Sum of the first m products. */
  function Dot(x: seq<real>, w: seq<real>, m: nat): real
    requires m <= |x| && m <= |w|
  {
    if m == 0 then 0.0 else Dot(x, w, m - 1) + Times(x[m - 1], w[m - 1])
  }

  /** A vector that is zero but at place i picks out that product. */
  lemma {:induction false} DotPicks(x: seq<real>, w: seq<real>, m: nat, i: nat)
    requires m <= |x| && m <= |w| && forall j | 0 <= j < m && j != i :: w[j] == 0.0
    ensures Dot(x, w, m) == if i < m then x[i] * w[i] else 0.0
  {
    if m > 0 {
      DotPicks(x, w, m - 1, i);
    }
  }

  lemma {:induction false} DotAdds(x: seq<real>, v: seq<real>, w: seq<real>, s: seq<real>, m: nat)
    requires m <= |x| && m <= |v| && m <= |w| && m <= |s| && forall j | 0 <= j < m :: s[j] == v[j] + w[j]
    ensures Dot(x, s, m) == Dot(x, v, m) + Dot(x, w, m)
  {
    if m > 0 {
      DotAdds(x, v, w, s, m - 1);
      assert x[m - 1] * s[m - 1] == x[m - 1] * v[m - 1] + x[m - 1] * w[m - 1];
    }
  }

  /** Sum of the first m |x[i]| times the error allowed at i. */
  function ErrorBudget(x: seq<real>, b: seq<real>, m: nat): real
    requires m <= |x| && m <= |b|
  {
    if m == 0 then 0.0 else ErrorBudget(x, b, m - 1) + Times(Abs(x[m - 1]), b[m - 1])
  }

  lemma {:induction false} BudgetIsDot(x: seq<real>, b: seq<real>, a: seq<real>, m: nat)
    requires m <= |x| && m <= |b| && m <= |a| && forall j | 0 <= j < m :: a[j] == Abs(x[j])
    ensures ErrorBudget(x, b, m) == Dot(a, b, m)
  {
    if m > 0 {
      BudgetIsDot(x, b, a, m - 1);
    }
  }

  lemma TermError(x: real, w: real, d: real, b: real)
    requires Abs(w - d) <= b
    ensures Abs(Times(x, w) - Times(x, d)) <= Times(Abs(x), b)
  {
    assert x * w - x * d == x * (w - d);
    ProductNonNegative(Abs(x), b - (w - d));
    ProductNonNegative(Abs(x), b + (w - d));
  }

  lemma {:induction false} DotError(x: seq<real>, w: seq<real>, d: seq<real>, b: seq<real>, m: nat)
    requires m <= |x| && m <= |w| && m <= |d| && m <= |b|
    requires forall i | 0 <= i < m :: Abs(w[i] - d[i]) <= b[i]
    ensures Abs(Dot(x, w, m) - Dot(x, d, m)) <= ErrorBudget(x, b, m)
  {
    if m > 0 {
      DotError(x, w, d, b, m - 1);
      TermError(x[m - 1], w[m - 1], d[m - 1], b[m - 1]);
    }
  }

  /** The weights a row stands for once decoded. */
  function DecodedRow(q: seq<int>, scales: seq<real>): (d: seq<real>)
    requires |q| <= |scales| * GROUP_SIZE
    ensures |d| == |q|
  {
    seq(|q|, i requires 0 <= i < |q| => Times(q[i] as real, scales[i / GROUP_SIZE]))
  }

  /** The error allowed at each place of a row of k weights. */
  function StepAt(scales: seq<real>, k: nat): (b: seq<real>)
    requires k <= |scales| * GROUP_SIZE
    ensures |b| == k
  {
    seq(k, i requires 0 <= i < k => 0.51 * scales[i / GROUP_SIZE])
  }

  /** Every weight of a row is within 0.51 of its group's stored scale of its code's
      decoding. */
  ghost predicate RowClose(row: seq<real>, q: seq<int>, t: seq<real>) {
    && |q| == |row| && |row| % GROUP_SIZE == 0 && |t| == |row| / GROUP_SIZE
    && forall i | 0 <= i < |row| :: Within(row[i], q[i], t[i / GROUP_SIZE], 0.51 * t[i / GROUP_SIZE])
  }

  /** Whatever the narrowing of the scales, if every stored scale is close to the computed
      one then every row, as unpacked, is close to the original. */
  lemma QuantizedRowsClose(w: seq<seq<real>>, k: nat, store: real -> real, n: nat, z: Quantized)
    requires forall r | 0 <= r < |w| :: |w[r]| == k
    requires QuantizeW(w, k, store) == Some(z) && n < |w|
    requires |z.stored| == |z.scales| == |z.packed| == |w| && |z.stored[n]| == |z.scales[n]|
    requires forall j | 0 <= j < |z.stored[n]| :: CloseScale(z.stored[n][j], z.scales[n][j])
    ensures RowClose(w[n], Unpack(z.packed[n]), z.stored[n])
  {
    QuantizedRow(w, k, store, n, z);
    StoredCodes(w[n]);
    RowCodesClose(w[n], z.stored[n]);
  }

  lemma RowCodesClose(row: seq<real>, t: seq<real>)
    requires |row| % GROUP_SIZE == 0 && |t| == |row| / GROUP_SIZE
    requires forall j | 0 <= j < |t| :: CloseScale(t[j], RowScales(row)[j])
    ensures RowClose(row, RowCodes(row), t)
  {
    var q := RowCodes(row);
    forall i | 0 <= i < |row|
      ensures Within(row[i], q[i], t[i / GROUP_SIZE], 0.51 * t[i / GROUP_SIZE])
    {
      RowError(row, t, i);
    }
  }

  /** The dot product with the decoded row is off by at most the summed steps. */
  ghost predicate DotClose(row: seq<real>, q: seq<int>, t: seq<real>, x: seq<real>) {
    && RowClose(row, q, t) && |x| == |row|
    && Abs(Dot(x, row, |row|) - Dot(x, DecodedRow(q, t), |row|)) <= ErrorBudget(x, StepAt(t, |row|), |row|)
  }

  /** A dot product against a close row misses the exact one by at most the sum, over
      the row, of |x[i]| times 0.51 of its group's stored scale. */
  lemma DotProductError(row: seq<real>, q: seq<int>, t: seq<real>, x: seq<real>)
    requires RowClose(row, q, t) && |x| == |row|
    ensures DotClose(row, q, t, x)
  {
    var d, b := DecodedRow(q, t), StepAt(t, |row|);
    forall i | 0 <= i < |row|
      ensures Abs(row[i] - d[i]) <= b[i]
    {
      assert Within(row[i], q[i], t[i / GROUP_SIZE], 0.51 * t[i / GROUP_SIZE]);
    }
    DotError(x, row, d, b, |row|);
  }

  /** The same from end to end: quantised, packed, unpacked and decoded with stored scales
      close to the computed ones. */
  lemma QuantizedDotError(w: seq<seq<real>>, k: nat, store: real -> real, n: nat, z: Quantized, x: seq<real>)
    requires forall r | 0 <= r < |w| :: |w[r]| == k
    requires QuantizeW(w, k, store) == Some(z) && n < |w| && |x| == k
    requires |z.stored| == |z.scales| == |z.packed| == |w| && |z.stored[n]| == |z.scales[n]|
    requires forall j | 0 <= j < |z.stored[n]| :: CloseScale(z.stored[n][j], z.scales[n][j])
    ensures DotClose(w[n], Unpack(z.packed[n]), z.stored[n], x)
  {
    QuantizedRowsClose(w, k, store, n, z);
    DotProductError(w[n], Unpack(z.packed[n]), z.stored[n], x);
  }
}
