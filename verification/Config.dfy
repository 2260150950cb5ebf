/** The hybrid decoder configuration, its layer schedule, and the byte formulas
    of the two state pools. */
module Configs {
  import opened Basics

  const BF16_BYTES: nat := 2
  const FP32_BYTES: nat := 4

  datatype Config = Config(
    hiddenSize: int, numHiddenLayers: int, intermediateSize: int, vocabSize: int,
    nHeads: int, nKvHeads: int, headDim: int,
    linNumKHeads: int, linNumVHeads: int, linKeyHeadDim: int, linValueHeadDim: int,
    linConvKernelDim: int, fullAttentionInterval: int, groupSize: int, maxSeqLen: int,
    eps: real, ropeTheta: real, partialRotaryFactor: real, mropeSection: (int, int, int))
  {
    function OProjIn(): int { nHeads * headDim }
    function LinearKeyDim(): int { linNumKHeads * linKeyHeadDim }
    function LinearValueDim(): int { linNumVHeads * linValueHeadDim }
    function LinearConvDim(): int { 2 * LinearKeyDim() + LinearValueDim() }
    function LinearConvStateLen(): int { linConvKernelDim - 1 }

    /** Conversion to an integer drops the fraction. */
    function RotaryDim(): int {
      var x := headDim as real * partialRotaryFactor + 0.5;
      if x >= 0.0 then x.Floor else -((-x).Floor)
    }

    predicate HasLayer(i: int) {
      numHiddenLayers > 0 && 0 <= i < numHiddenLayers
    }

    predicate IsFullAttention(i: int) {
      HasLayer(i) && fullAttentionInterval > 0 && (i + 1) % fullAttentionInterval == 0
    }

    predicate IsLinearAttention(i: int) {
      HasLayer(i) && !IsFullAttention(i)
    }

    predicate Valid() {
      && hiddenSize > 0 && numHiddenLayers > 0 && intermediateSize > 0
      && nHeads > 0 && nKvHeads > 0 && headDim > 0
      && nHeads % nKvHeads == 0
      && linNumKHeads > 0 && linNumVHeads > 0
      && linNumVHeads % linNumKHeads == 0
      && linKeyHeadDim > 0 && linValueHeadDim > 0
      && linConvKernelDim >= 2
      && fullAttentionInterval >= 2
      && groupSize > 0 && maxSeqLen > 0
      && eps > 0.0 && ropeTheta > 0.0
      && 0 < RotaryDim() <= headDim && RotaryDim() % 2 == 0
      && mropeSection.0 + mropeSection.1 + mropeSection.2 == RotaryDim() / 2
      && hiddenSize % groupSize == 0
      && OProjIn() % groupSize == 0
      && intermediateSize % groupSize == 0
      && LinearValueDim() % groupSize == 0
    }
  }

  /** The rotary width is head_dim times the factor, rounded to the nearest integer, halves
      up; below -1/2 the dropped fraction leaves the integer above. */
  lemma RotaryExact(cfg: Config)
    ensures var x, r := cfg.headDim as real * cfg.partialRotaryFactor, cfg.RotaryDim() as real;
      if x >= -0.5 then r - 0.5 <= x < r + 0.5 else r - 1.5 < x <= r - 0.5
  {
    var y := cfg.headDim as real * cfg.partialRotaryFactor + 0.5;
    assert y >= 0.0 ==> cfg.RotaryDim() == y.Floor;
    assert y < 0.0 ==> cfg.RotaryDim() == -((-y).Floor);
  }

  /** The full-attention layers below n, ascending. */
  function FullLayers(cfg: Config, n: nat): (layers: seq<nat>)
    ensures forall o | 0 <= o < |layers| :: layers[o] < n && cfg.IsFullAttention(layers[o])
  {
    if n == 0 then []
    else FullLayers(cfg, n - 1) + if cfg.IsFullAttention(n - 1) then [n - 1] else []
  }

  /** The linear-attention layers below n, ascending. */
  function LinearLayers(cfg: Config, n: nat): (layers: seq<nat>)
    ensures forall o | 0 <= o < |layers| :: layers[o] < n && cfg.IsLinearAttention(layers[o])
  {
    if n == 0 then []
    else LinearLayers(cfg, n - 1) + if cfg.IsLinearAttention(n - 1) then [n - 1] else []
  }

  function LayerCount(cfg: Config): nat {
    if cfg.numHiddenLayers > 0 then cfg.numHiddenLayers else 0
  }

  function NumFull(cfg: Config): nat {
    |FullLayers(cfg, LayerCount(cfg))|
  }

  function NumLinear(cfg: Config): nat {
    |LinearLayers(cfg, LayerCount(cfg))|
  }

  /** Every layer is counted once, as full or as linear. */
  lemma {:induction false} LayersPartition(cfg: Config, n: nat)
    requires n <= LayerCount(cfg)
    ensures |FullLayers(cfg, n)| + |LinearLayers(cfg, n)| == n
  {
    if n > 0 {
      LayersPartition(cfg, n - 1);
    }
  }

  method CountFullLayers(cfg: Config) returns (n: int)
    ensures n == NumFull(cfg)
  {
    n := 0;
    for i := 0 to LayerCount(cfg)
      invariant n == |FullLayers(cfg, i)|
    {
      if cfg.IsFullAttention(i) {
        n := n + 1;
      }
    }
  }

  method CountLinearLayers(cfg: Config) returns (n: int)
    ensures n == if cfg.numHiddenLayers >= 0 then NumLinear(cfg) else cfg.numHiddenLayers
  {
    var full := CountFullLayers(cfg);
    LayersPartition(cfg, LayerCount(cfg));
    n := cfg.numHiddenLayers - full;
  }

  lemma DivSucc(n: int, b: int)
    requires 0 < b && 0 < n
    ensures n % b == 0 ==> n / b == (n - 1) / b + 1 && n == (n / b) * b
    ensures n % b != 0 ==> n / b == (n - 1) / b
  {
    var q, r := n / b, n % b;
    assert n == q * b + r;
    if r == 0 {
      assert n - 1 == (q - 1) * b + (b - 1);
      DivModUnique(q - 1, b - 1, b);
    } else {
      DivModUnique(q, r - 1, b);
    }
  }

  /** The counting loop in closed form: layers / interval full layers, and full
      ordinal o is layer (o + 1) * interval - 1. */
  lemma {:induction false} FullScheduleClosedForm(cfg: Config, n: nat)
    requires cfg.fullAttentionInterval > 0 && n <= LayerCount(cfg)
    ensures |FullLayers(cfg, n)| == n / cfg.fullAttentionInterval
    ensures forall o | 0 <= o < |FullLayers(cfg, n)| ::
              FullLayers(cfg, n)[o] == (o + 1) * cfg.fullAttentionInterval - 1
  {
    if n > 0 {
      FullScheduleClosedForm(cfg, n - 1);
      DivSucc(n, cfg.fullAttentionInterval);
    }
  }

  /** Linear ordinal o is layer o + o / (interval - 1): each group of interval
      layers holds interval - 1 linear ones followed by one full one. */
  lemma {:induction false} LinearScheduleClosedForm(cfg: Config, n: nat)
    requires cfg.fullAttentionInterval >= 2 && n <= LayerCount(cfg)
    ensures |LinearLayers(cfg, n)| == n - n / cfg.fullAttentionInterval
    ensures forall o | 0 <= o < |LinearLayers(cfg, n)| ::
              LinearLayers(cfg, n)[o] == o + o / (cfg.fullAttentionInterval - 1)
  {
    if n > 0 {
      LinearScheduleClosedForm(cfg, n - 1);
      DivSucc(n, cfg.fullAttentionInterval);
      if cfg.IsLinearAttention(n - 1) {
        LinearOrdinalOf(n - 1, cfg.fullAttentionInterval);
      }
    }
  }

  lemma LinearOrdinalOf(i: int, interval: int)
    requires interval >= 2 && 0 <= i && (i + 1) % interval != 0
    ensures i == (i - i / interval) + (i - i / interval) / (interval - 1)
  {
    var q, r := i / interval, i % interval;
    assert i == q * interval + r;
    GroupEnds(q, interval);
    assert i - q == q * (interval - 1) + r;
    DivModUnique(q, r, interval - 1);
  }

  lemma GroupEnds(q: int, interval: int)
    requires interval > 0
    ensures (q * interval + (interval - 1) + 1) % interval == 0
  {
    DivModUnique(q + 1, 0, interval);
    assert (q + 1) * interval + 0 == q * interval + (interval - 1) + 1;
  }

  /** Full layer i sits at ordinal (i + 1) / interval - 1, and nowhere else. */
  lemma FullOrdinalOf(cfg: Config, i: int)
    requires cfg.IsFullAttention(i)
    ensures var o := (i + 1) / cfg.fullAttentionInterval - 1;
            0 <= o < NumFull(cfg) && FullLayers(cfg, LayerCount(cfg))[o] == i
    ensures forall o | 0 <= o < NumFull(cfg) && FullLayers(cfg, LayerCount(cfg))[o] == i ::
              o == (i + 1) / cfg.fullAttentionInterval - 1
  {
    var interval, n := cfg.fullAttentionInterval, LayerCount(cfg);
    FullScheduleClosedForm(cfg, n);
    DivSucc(i + 1, interval);
    DivMonotone(i + 1, n, interval);
    DivModUnique(1, 0, interval);
    if i + 1 < interval {
      DivModUnique(0, i + 1, interval);
    } else {
      DivMonotone(interval, i + 1, interval);
    }
    forall o | 0 <= o < NumFull(cfg) && FullLayers(cfg, n)[o] == i
      ensures o == (i + 1) / interval - 1
    {
      DivModUnique(o + 1, 0, interval);
    }
  }

  /** Linear layer i sits at ordinal i - i / interval, and nowhere else. */
  lemma LinearOrdinal(cfg: Config, i: int)
    requires cfg.fullAttentionInterval >= 2 && cfg.IsLinearAttention(i)
    ensures var o := i - i / cfg.fullAttentionInterval;
            0 <= o < NumLinear(cfg) && LinearLayers(cfg, LayerCount(cfg))[o] == i
    ensures forall o | 0 <= o < NumLinear(cfg) && LinearLayers(cfg, LayerCount(cfg))[o] == i ::
              o == i - i / cfg.fullAttentionInterval
  {
    var interval, n := cfg.fullAttentionInterval, LayerCount(cfg);
    LinearScheduleClosedForm(cfg, n);
    LinearOrdinalOf(i, interval);
    LinearOrdinalBound(i, n, interval);
    forall o | 0 <= o < NumLinear(cfg) && LinearLayers(cfg, n)[o] == i
      ensures o == i - i / interval
    {
      var want := i - i / interval;
      if o <= want {
        DivMonotone(o, want, interval - 1);
      } else {
        DivMonotone(want, o, interval - 1);
      }
    }
  }

  lemma {:induction false} LayersGrow(cfg: Config, i: nat, n: nat)
    requires i <= n
    ensures |FullLayers(cfg, i)| <= |FullLayers(cfg, n)|
    ensures |LinearLayers(cfg, i)| <= |LinearLayers(cfg, n)|
  {
    if i < n {
      LayersGrow(cfg, i, n - 1);
    }
  }

  /** For any interval, layer i is found at the number of full layers before it. */
  lemma {:induction false} FullRank(cfg: Config, i: nat, n: nat)
    requires i < n && cfg.IsFullAttention(i)
    ensures |FullLayers(cfg, i)| < |FullLayers(cfg, n)| && FullLayers(cfg, n)[|FullLayers(cfg, i)|] == i
    ensures forall o | 0 <= o < |FullLayers(cfg, n)| && FullLayers(cfg, n)[o] == i :: o == |FullLayers(cfg, i)|
  {
    if i < n - 1 {
      FullRank(cfg, i, n - 1);
    }
  }

  lemma {:induction false} LinearRank(cfg: Config, i: nat, n: nat)
    requires i < n && cfg.IsLinearAttention(i)
    ensures |LinearLayers(cfg, i)| < |LinearLayers(cfg, n)| && LinearLayers(cfg, n)[|LinearLayers(cfg, i)|] == i
    ensures forall o | 0 <= o < |LinearLayers(cfg, n)| && LinearLayers(cfg, n)[o] == i :: o == |LinearLayers(cfg, i)|
  {
    if i < n - 1 {
      LinearRank(cfg, i, n - 1);
    }
  }

  lemma LinearOrdinalPositive(cfg: Config)
    requires cfg.fullAttentionInterval >= 2 && cfg.numHiddenLayers > 0
    ensures NumLinear(cfg) >= 1
  {
    DivModUnique(0, 1, cfg.fullAttentionInterval);
    LinearOrdinal(cfg, 0);
  }

  /** The counting loops in closed form; a page pool can be built only when the
      full count is positive, which a valid configuration does not guarantee. */
  lemma ScheduleCounts(cfg: Config)
    requires cfg.Valid()
    ensures NumFull(cfg) == cfg.numHiddenLayers / cfg.fullAttentionInterval
    ensures NumFull(cfg) + NumLinear(cfg) == cfg.numHiddenLayers
    ensures NumLinear(cfg) >= 1
    ensures NumFull(cfg) >= 1 <==> cfg.numHiddenLayers >= cfg.fullAttentionInterval
  {
    var interval, n := cfg.fullAttentionInterval, LayerCount(cfg);
    FullScheduleClosedForm(cfg, n);
    LayersPartition(cfg, n);
    if interval <= n {
      DivMonotone(interval, n, interval);
      DivModUnique(1, 0, interval);
    } else {
      DivModUnique(0, n, interval);
    }
    LinearOrdinalPositive(cfg);
  }

  /** The dimensions of the 0.8B model cut down to three layers, one short of the first full one. */
  function ShallowConfig(): Config {
    Config(hiddenSize := 1024, numHiddenLayers := 3, intermediateSize := 3584, vocabSize := 248320,
           nHeads := 8, nKvHeads := 2, headDim := 256,
           linNumKHeads := 16, linNumVHeads := 16, linKeyHeadDim := 128, linValueHeadDim := 128,
           linConvKernelDim := 4, fullAttentionInterval := 4, groupSize := 128, maxSeqLen := 4096,
           eps := 0.000001, ropeTheta := 10000000.0, partialRotaryFactor := 0.25, mropeSection := (11, 11, 10))
  }

  /** It passes the validity check and has no full-attention layer, so no page pool can
      be built for it. */
  lemma ShallowIsValid()
    ensures ShallowConfig().Valid() && NumFull(ShallowConfig()) == 0 && !PoolReady(ShallowConfig())
  {
    var cfg := ShallowConfig();
    assert cfg.RotaryDim() == 64 by {
      assert cfg.headDim as real * cfg.partialRotaryFactor + 0.5 == 64.5;
    }
    FullScheduleClosedForm(cfg, 3);
  }

  lemma DivMonotone(a: int, b: int, d: int)
    requires 0 < d && 0 <= a <= b
    ensures 0 <= a / d <= b / d
  {
    var k := a / d - b / d;
    assert a == (a / d) * d + a % d && b == (b / d) * d + b % d;
    assert k * d == (a / d) * d - (b / d) * d;
    assert k >= 1 ==> k * d >= d;
  }

  lemma LinearOrdinalBound(i: int, n: int, interval: int)
    requires interval >= 2 && 0 <= i < n && (i + 1) % interval != 0
    ensures 0 <= i - i / interval < n - n / interval
  {
    DivSucc(i + 1, interval);
    OrdinalMonotone(i + 1, n, interval);
    OrdinalMonotone(0, i, interval);
  }

  lemma {:induction false} OrdinalMonotone(a: int, b: int, interval: int)
    requires 0 <= a <= b && interval >= 2
    ensures a - a / interval <= b - b / interval
    decreases b
  {
    if a < b {
      DivSucc(b, interval);
      OrdinalMonotone(a, b - 1, interval);
    }
  }

  // ----- pool geometry ------------------------------------------------------

  /** The sizes both pools work with, all derived from a configuration. */
  datatype Dims = Dims(nFull: nat, nKv: nat, pageTokens: nat, headDim: nat, maxSeqLen: nat,
                       nLinear: nat, convElems: nat, recElems: nat)
  {
    predicate KvPositive() {
      nFull >= 1 && nKv >= 1 && pageTokens >= 1 && headDim >= 1
    }
    predicate Positive() {
      KvPositive() && maxSeqLen >= 1
    }
    function PageElems(): nat { nKv * pageTokens * headDim }
  }

  /** What the page pool's constructor demands of a configuration. */
  predicate KvReady(cfg: Config) {
    NumFull(cfg) >= 1 && cfg.nKvHeads >= 1 && cfg.headDim >= 1
  }

  /** What the slot pool's constructor demands of a configuration. */
  predicate DeltaReady(cfg: Config) {
    && NumLinear(cfg) >= 1 && cfg.LinearConvDim() >= 1
    && cfg.linNumKHeads >= 1 && cfg.linKeyHeadDim >= 1 && cfg.linValueHeadDim >= 1
  }

  /** What the state manager's constructor demands, its pools included. */
  predicate PoolReady(cfg: Config) {
    cfg.Valid() && NumFull(cfg) >= 1
  }

  function ConvElems(cfg: Config): nat {
    AtLeastZero(cfg.LinearConvDim() * cfg.LinearConvStateLen())
  }

  function RecElems(cfg: Config): nat {
    AtLeastZero(cfg.linNumKHeads * cfg.linKeyHeadDim * cfg.linValueHeadDim)
  }

  function DimsOf(cfg: Config, pageTokens: nat): Dims {
    Dims(NumFull(cfg), AtLeastZero(cfg.nKvHeads), pageTokens, AtLeastZero(cfg.headDim), AtLeastZero(cfg.maxSeqLen),
         NumLinear(cfg), ConvElems(cfg), RecElems(cfg))
  }

  lemma ProductPositive(a: int, b: int)
    requires a >= 1 && b >= 1
    ensures a * b >= 1
  {
  }

  /** Every valid configuration has what the slot pool demands. */
  lemma SlotsReady(cfg: Config)
    requires cfg.Valid()
    ensures DeltaReady(cfg)
  {
    LinearOrdinalPositive(cfg);
    ProductPositive(cfg.linNumKHeads, cfg.linKeyHeadDim);
    ProductPositive(cfg.linNumVHeads, cfg.linValueHeadDim);
  }

  /** The sizes in terms of the configuration's fields alone. */
  ghost predicate Sizes(cfg: Config, pageTokens: nat, d: Dims)
    requires cfg.fullAttentionInterval > 0
  {
    && d.nFull == cfg.numHiddenLayers / cfg.fullAttentionInterval
    && d.nLinear == cfg.numHiddenLayers - cfg.numHiddenLayers / cfg.fullAttentionInterval
    && d.nKv == cfg.nKvHeads && d.headDim == cfg.headDim
    && d.pageTokens == pageTokens && d.maxSeqLen == cfg.maxSeqLen
    && d.convElems == (2 * (cfg.linNumKHeads * cfg.linKeyHeadDim) + cfg.linNumVHeads * cfg.linValueHeadDim)
                      * (cfg.linConvKernelDim - 1)
    && d.recElems == cfg.linNumKHeads * cfg.linKeyHeadDim * cfg.linValueHeadDim
  }

  /** A valid configuration's sizes, all eight, none of them cut off. */
  lemma DimsExact(cfg: Config, pageTokens: nat)
    requires cfg.Valid()
    ensures Sizes(cfg, pageTokens, DimsOf(cfg, pageTokens))
  {
    ScheduleCounts(cfg);
    LayersPartition(cfg, LayerCount(cfg));
    ProductPositive(cfg.linNumKHeads, cfg.linKeyHeadDim);
    ProductPositive(cfg.linNumVHeads, cfg.linValueHeadDim);
    ProductPositive(cfg.LinearConvDim(), cfg.LinearConvStateLen());
    ProductPositive(cfg.linNumKHeads * cfg.linKeyHeadDim, cfg.linValueHeadDim);
  }

  /** The two byte formulas in the configuration's fields: two bytes for every K and V
      element and every conv element, four for every recurrent one. */
  lemma BytesExactly(cfg: Config, pageTokens: nat)
    requires cfg.Valid()
    ensures KvPageBytes(DimsOf(cfg, pageTokens)) ==
            2 * (cfg.numHiddenLayers / cfg.fullAttentionInterval) * cfg.nKvHeads * pageTokens * cfg.headDim * 2
    ensures DeltaSlotBytes(DimsOf(cfg, pageTokens)) ==
            (cfg.numHiddenLayers - cfg.numHiddenLayers / cfg.fullAttentionInterval) *
            ((2 * (cfg.linNumKHeads * cfg.linKeyHeadDim) + cfg.linNumVHeads * cfg.linValueHeadDim)
             * (cfg.linConvKernelDim - 1) * 2
             + cfg.linNumKHeads * cfg.linKeyHeadDim * cfg.linValueHeadDim * 4)
  {
    DimsExact(cfg, pageTokens);
  }

  function KvPageBytes(d: Dims): nat {
    2 * d.nFull * d.nKv * d.pageTokens * d.headDim * BF16_BYTES
  }

  function DeltaSlotBytes(d: Dims): nat {
    d.nLinear * (d.convElems * BF16_BYTES + d.recElems * FP32_BYTES)
  }

  /** capacity * bytes-per-page is the size of two buffers of every layer's pages. */
  lemma PageBytesTile(d: Dims, capacity: nat)
    ensures capacity * KvPageBytes(d) == 2 * (d.nFull * capacity * d.PageElems()) * BF16_BYTES
  {
    var pe := d.PageElems();
    assert KvPageBytes(d) == 4 * (d.nFull * pe) by {
      assert d.nFull * pe == d.nFull * d.nKv * d.pageTokens * d.headDim;
    }
    assert capacity * (4 * (d.nFull * pe)) == 4 * (capacity * (d.nFull * pe));
    assert d.nFull * capacity * pe == capacity * (d.nFull * pe);
  }

  /** capacity * bytes-per-slot, layer by layer. */
  lemma SlotBytesTile(d: Dims, capacity: nat)
    ensures capacity * DeltaSlotBytes(d) ==
            d.nLinear * (capacity * d.convElems * BF16_BYTES + capacity * d.recElems * FP32_BYTES)
  {
    var a, b := d.convElems, d.recElems;
    assert capacity * (a * BF16_BYTES + b * FP32_BYTES) == capacity * a * BF16_BYTES + capacity * b * FP32_BYTES;
    assert capacity * (d.nLinear * (a * BF16_BYTES + b * FP32_BYTES)) ==
           d.nLinear * (capacity * (a * BF16_BYTES + b * FP32_BYTES));
  }
}
