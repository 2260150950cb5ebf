/** The decoder as a chain of layers. A layer is any function of the hidden vector, of
    the sequence's own storage of that layer, and of the position; it yields what it
    stores and the next hidden vector. */
module Networks {
  import opened Basics
  import opened Configs
  import opened PageLayout
  import opened DeltaStatePools
  import opened ManagerModel
  import opened SequenceViews
  import opened Forwards
  import opened Runs

  type Hidden = seq<real>

  datatype FullOut = FullOut(k: seq<Elem>, v: seq<Elem>, next: Hidden)

  datatype LinearOut = LinearOut(conv: Row, rec: Row, next: Hidden)

  datatype Net = Net(
    embed: nat -> Hidden,
    full: (nat, Hidden, seq<seq<Row>>, seq<seq<Row>>, nat) -> FullOut,
    linear: (nat, Hidden, Row, Row, nat) -> LinearOut,
    head: Hidden -> seq<real>)
  {
    /** Every layer stores rows of the pools' sizes. */
    ghost predicate Fits(d: Dims) {
      && (forall i, x, k, v, t :: |full(i, x, k, v, t).k| == |full(i, x, k, v, t).v| == d.nKv * d.headDim)
      && (forall i, x, c, r, t ::
            |linear(i, x, c, r, t).conv| == d.convElems && |linear(i, x, c, r, t).rec| == d.recElems)
    }
  }

  /** The pools hold one ordinal per layer of each kind. */
  predicate Scheduled(cfg: Config, d: Dims) {
    d.nFull == NumFull(cfg) && d.nLinear == NumLinear(cfg)
  }

  /** The hidden vector that enters layer i, every layer below having read the
      sequence's storage as it is in `s`. */
  function Entering(net: Net, cfg: Config, d: Dims, token: nat, s: SeqState, i: nat): Hidden
    requires Scheduled(cfg, d) && SeqShape(d, s) && i <= LayerCount(cfg)
    decreases i, 0
  {
    if i == 0 then net.embed(token)
    else if cfg.IsFullAttention(i - 1) then FullAt(net, cfg, d, token, s, i - 1).next
    else LinearAt(net, cfg, d, token, s, i - 1).next
  }

  function FullAt(net: Net, cfg: Config, d: Dims, token: nat, s: SeqState, i: nat): FullOut
    requires Scheduled(cfg, d) && SeqShape(d, s) && i < LayerCount(cfg) && cfg.IsFullAttention(i)
    decreases i, 1
  {
    FullRank(cfg, i, LayerCount(cfg));
    var o := |FullLayers(cfg, i)|;
    net.full(i, Entering(net, cfg, d, token, s, i), s.k[o], s.v[o], s.length)
  }

  function LinearAt(net: Net, cfg: Config, d: Dims, token: nat, s: SeqState, i: nat): LinearOut
    requires Scheduled(cfg, d) && SeqShape(d, s) && i < LayerCount(cfg) && cfg.IsLinearAttention(i)
    decreases i, 1
  {
    LinearRank(cfg, i, LayerCount(cfg));
    var o := |LinearLayers(cfg, i)|;
    net.linear(i, Entering(net, cfg, d, token, s, i), s.conv[o], s.rec[o], s.length)
  }

  /** Everything one token's walk through the layers stores, and its logits. */
  function Traverse(net: Net, cfg: Config, d: Dims, token: nat, s: SeqState): Out
    requires Scheduled(cfg, d) && SeqShape(d, s)
  {
    var full, linear := FullLayers(cfg, LayerCount(cfg)), LinearLayers(cfg, LayerCount(cfg));
    Out(seq(|full|, o requires 0 <= o < |full| => FullAt(net, cfg, d, token, s, full[o]).k),
        seq(|full|, o requires 0 <= o < |full| => FullAt(net, cfg, d, token, s, full[o]).v),
        seq(|linear|, o requires 0 <= o < |linear| => LinearAt(net, cfg, d, token, s, linear[o]).conv),
        seq(|linear|, o requires 0 <= o < |linear| => LinearAt(net, cfg, d, token, s, linear[o]).rec),
        net.head(Entering(net, cfg, d, token, s, LayerCount(cfg))))
  }

  lemma BlankShape(d: Dims)
    ensures OutShape(d, Blank(d))
  {
  }

  lemma FullFits(net: Net, cfg: Config, d: Dims, token: nat, s: SeqState, i: nat)
    requires Scheduled(cfg, d) && SeqShape(d, s) && net.Fits(d) && i < LayerCount(cfg) && cfg.IsFullAttention(i)
    ensures |FullAt(net, cfg, d, token, s, i).k| == |FullAt(net, cfg, d, token, s, i).v| == d.nKv * d.headDim
  {
    FullRank(cfg, i, LayerCount(cfg));
    var o := |FullLayers(cfg, i)|;
    assert FullAt(net, cfg, d, token, s, i) ==
           net.full(i, Entering(net, cfg, d, token, s, i), s.k[o], s.v[o], s.length);
  }

  lemma LinearFits(net: Net, cfg: Config, d: Dims, token: nat, s: SeqState, i: nat)
    requires Scheduled(cfg, d) && SeqShape(d, s) && net.Fits(d) && i < LayerCount(cfg) && cfg.IsLinearAttention(i)
    ensures |LinearAt(net, cfg, d, token, s, i).conv| == d.convElems
    ensures |LinearAt(net, cfg, d, token, s, i).rec| == d.recElems
  {
    LinearRank(cfg, i, LayerCount(cfg));
    var o := |LinearLayers(cfg, i)|;
    assert LinearAt(net, cfg, d, token, s, i) ==
           net.linear(i, Entering(net, cfg, d, token, s, i), s.conv[o], s.rec[o], s.length);
  }

  lemma TraverseShape(net: Net, cfg: Config, d: Dims, token: nat, s: SeqState)
    requires Scheduled(cfg, d) && SeqShape(d, s) && net.Fits(d)
    ensures OutShape(d, Traverse(net, cfg, d, token, s))
  {
    var out := Traverse(net, cfg, d, token, s);
    forall o | 0 <= o < d.nFull
      ensures |out.k[o]| == d.nKv * d.headDim && |out.v[o]| == d.nKv * d.headDim
    {
      FullFits(net, cfg, d, token, s, FullLayers(cfg, LayerCount(cfg))[o]);
    }
    forall o | 0 <= o < d.nLinear
      ensures |out.conv[o]| == d.convElems && |out.rec[o]| == d.recElems
    {
      LinearFits(net, cfg, d, token, s, LinearLayers(cfg, LayerCount(cfg))[o]);
    }
  }

  /** The walk stores, at the ordinal of layer i, what layer i computed. */
  lemma TraverseAt(net: Net, cfg: Config, d: Dims, token: nat, s: SeqState, i: nat)
    requires Scheduled(cfg, d) && SeqShape(d, s) && i < LayerCount(cfg)
    ensures var out := Traverse(net, cfg, d, token, s);
            && |out.k| == |out.v| == d.nFull && |out.conv| == |out.rec| == d.nLinear
            && (cfg.IsFullAttention(i) ==>
                var o := |FullLayers(cfg, i)|;
                && o < d.nFull && FullAt(net, cfg, d, token, s, i).k == out.k[o]
                && FullAt(net, cfg, d, token, s, i).v == out.v[o])
            && (cfg.IsLinearAttention(i) ==>
                var o := |LinearLayers(cfg, i)|;
                && o < d.nLinear && LinearAt(net, cfg, d, token, s, i).conv == out.conv[o]
                && LinearAt(net, cfg, d, token, s, i).rec == out.rec[o])
  {
    if cfg.IsFullAttention(i) {
      FullRank(cfg, i, LayerCount(cfg));
    } else {
      LinearRank(cfg, i, LayerCount(cfg));
    }
  }

  function Blank(d: Dims): Out {
    Out(seq(d.nFull, _ => seq(d.nKv * d.headDim, _ => 0)), seq(d.nFull, _ => seq(d.nKv * d.headDim, _ => 0)),
        ZeroSlot(d.nLinear, d.convElems), ZeroSlot(d.nLinear, d.recElems), [])
  }

  /** The run theorems' layers, made of the net's. */
  function SetupOf(net: Net, cfg: Config, d: Dims): Setup
    requires Scheduled(cfg, d)
  {
    Setup(d, AtLeastZero(cfg.vocabSize),
          (token: nat, s: SeqState) => if SeqShape(d, s) then Traverse(net, cfg, d, token, s) else Blank(d))
  }

  lemma SetupOk(net: Net, cfg: Config, d: Dims)
    requires Scheduled(cfg, d) && net.Fits(d) && d.Positive()
    ensures SetupOf(net, cfg, d).Ok()
  {
    var c := SetupOf(net, cfg, d);
    forall token: nat, s: SeqState
      ensures OutShape(d, c.layers(token, s))
    {
      if SeqShape(d, s) {
        TraverseShape(net, cfg, d, token, s);
      } else {
        BlankShape(d);
      }
    }
  }

  /** What a forward of the decoder's setup needs: a token of the vocabulary, a live
      sequence with room for one more position, and free pages for the blocks that position
      still lacks. */
  lemma ForwardExact(net: Net, cfg: Config, d: Dims, m: Mgr, id: nat, token: int)
    requires Scheduled(cfg, d) && d.pageTokens >= 1
    ensures Succeeds(SetupOf(net, cfg, d), m, Forward(id, token)) <==>
      && 0 <= token < cfg.vocabSize && id in m.seqs && m.seqs[id].length < d.maxSeqLen
      && m.seqs[id].length / d.pageTokens + 1 - |m.seqs[id].pages| <= |m.kv.ids.free|
  {
    SuccessExact(SetupOf(net, cfg, d), m, Forward(id, token));
  }
}
