/** The layer-by-layer walk of a batch on the net's own layers: which state each layer
    meets, what it reads there, and what it leaves. */
module LayerWalks {
  import opened Configs
  import opened ManagerModel
  import opened SequenceViews
  import opened Forwards
  import opened Runs
  import opened Batches
  import opened Networks
  import opened LayerOrders

  // ----- one layer of one row -----------------------------------------------

  /** The sequence's storage can be read, and its next token has a page. */
  ghost predicate CanStep(net: Net, d: Dims, m: Mgr, id: nat) {
    Readable(d, m, id) && Covered(d, m, id, m.seqs[id].length) && net.Fits(d)
  }

  /** Layer i of one row: read the storage as it is, store the layer's part. */
  ghost function FullStep(net: Net, d: Dims, m: Mgr, id: nat, i: nat, ord: nat, x: Hidden): (Mgr, Hidden)
    requires CanStep(net, d, m, id) && ord < d.nFull
  {
    var s, t := SeqView(d, m, id), m.seqs[id].length;
    var out := net.full(i, x, s.k[ord], s.v[ord], t);
    (RowWritten(d, m, id, t, ord, out.k, out.v), out.next)
  }

  ghost function LinearStep(net: Net, d: Dims, m: Mgr, id: nat, i: nat, ord: nat, x: Hidden): (Mgr, Hidden)
    requires CanStep(net, d, m, id) && ord < d.nLinear
  {
    var s, t := SeqView(d, m, id), m.seqs[id].length;
    var out := net.linear(i, x, s.conv[ord], s.rec[ord], t);
    (SlotWritten(d, m, id, ord, out.conv, out.rec), out.next)
  }

  /** A full layer taken through the rows in order, from state to state. */
  ghost predicate FullChain(net: Net, d: Dims, i: nat, ord: nat, rows: seq<BatchRow>, xs: seq<Hidden>,
                            turns: seq<Mgr>, ys: seq<Hidden>) {
    && ord < d.nFull && |turns| == |rows| + 1 && |xs| == |ys| == |rows|
    && forall b | 0 <= b < |rows| :: FullLink(net, d, i, ord, rows[b].id, xs[b], turns[b], turns[b + 1], ys[b])
  }

  ghost predicate FullLink(net: Net, d: Dims, i: nat, ord: nat, id: nat, x: Hidden, m: Mgr, after: Mgr, y: Hidden)
    requires ord < d.nFull
  {
    CanStep(net, d, m, id) && FullStep(net, d, m, id, i, ord, x) == (after, y)
  }

  /** The first rows have had their turn: `ys` is what they came to, `m` where they led. */
  ghost predicate FullUpto(net: Net, d: Dims, i: nat, ord: nat, rows: seq<BatchRow>, xs: seq<Hidden>,
                          turns: seq<Mgr>, want: seq<Hidden>, ys: seq<Hidden>, m: Mgr) {
    && FullChain(net, d, i, ord, rows, xs, turns, want)
    && |ys| <= |rows| && ys == want[..|ys|] && m == turns[|ys|]
  }

  lemma FullNext(net: Net, d: Dims, i: nat, ord: nat, rows: seq<BatchRow>, xs: seq<Hidden>,
                turns: seq<Mgr>, want: seq<Hidden>, ys: seq<Hidden>, m: Mgr)
    requires FullUpto(net, d, i, ord, rows, xs, turns, want, ys, m) && |ys| < |rows|
    ensures var b := |ys|;
            && FullLink(net, d, i, ord, rows[b].id, xs[b], m, turns[b + 1], want[b])
            && FullUpto(net, d, i, ord, rows, xs, turns, want, ys + [want[b]], turns[b + 1])
  {
  }

  ghost predicate LinearChain(net: Net, d: Dims, i: nat, ord: nat, rows: seq<BatchRow>, xs: seq<Hidden>,
                              turns: seq<Mgr>, ys: seq<Hidden>) {
    && ord < d.nLinear && |turns| == |rows| + 1 && |xs| == |ys| == |rows|
    && forall b | 0 <= b < |rows| :: LinearLink(net, d, i, ord, rows[b].id, xs[b], turns[b], turns[b + 1], ys[b])
  }

  ghost predicate LinearLink(net: Net, d: Dims, i: nat, ord: nat, id: nat, x: Hidden, m: Mgr, after: Mgr, y: Hidden)
    requires ord < d.nLinear
  {
    CanStep(net, d, m, id) && LinearStep(net, d, m, id, i, ord, x) == (after, y)
  }

  /** The first rows have had their turn: `ys` is what they came to, `m` where they led. */
  ghost predicate LinearUpto(net: Net, d: Dims, i: nat, ord: nat, rows: seq<BatchRow>, xs: seq<Hidden>,
                          turns: seq<Mgr>, want: seq<Hidden>, ys: seq<Hidden>, m: Mgr) {
    && LinearChain(net, d, i, ord, rows, xs, turns, want)
    && |ys| <= |rows| && ys == want[..|ys|] && m == turns[|ys|]
  }

  lemma LinearNext(net: Net, d: Dims, i: nat, ord: nat, rows: seq<BatchRow>, xs: seq<Hidden>,
                turns: seq<Mgr>, want: seq<Hidden>, ys: seq<Hidden>, m: Mgr)
    requires LinearUpto(net, d, i, ord, rows, xs, turns, want, ys, m) && |ys| < |rows|
    ensures var b := |ys|;
            && LinearLink(net, d, i, ord, rows[b].id, xs[b], m, turns[b + 1], want[b])
            && LinearUpto(net, d, i, ord, rows, xs, turns, want, ys + [want[b]], turns[b + 1])
  {
  }

  /** Layer i taken through the rows leads from one state between layers to the next. */
  ghost predicate LayerLink(net: Net, cfg: Config, d: Dims, i: nat, rows: seq<BatchRow>,
                            m: Mgr, xs: seq<Hidden>, after: Mgr, ys: seq<Hidden>) {
    exists turns: seq<Mgr> | |turns| == |rows| + 1 && turns[0] == m && turns[|rows|] == after ::
      if cfg.IsLinearAttention(i) then LinearChain(net, d, i, |LinearLayers(cfg, i)|, rows, xs, turns, ys)
      else FullChain(net, d, i, |FullLayers(cfg, i)|, rows, xs, turns, ys)
  }

  /** The states of such a chain. */
  ghost function TurnsOf(net: Net, cfg: Config, d: Dims, i: nat, rows: seq<BatchRow>,
                         m: Mgr, xs: seq<Hidden>, after: Mgr, ys: seq<Hidden>): (turns: seq<Mgr>)
    requires LayerLink(net, cfg, d, i, rows, m, xs, after, ys)
    ensures |turns| == |rows| + 1 && turns[0] == m && turns[|rows|] == after
    ensures if cfg.IsLinearAttention(i) then LinearChain(net, d, i, |LinearLayers(cfg, i)|, rows, xs, turns, ys)
            else FullChain(net, d, i, |FullLayers(cfg, i)|, rows, xs, turns, ys)
  {
    var turns: seq<Mgr> :| |turns| == |rows| + 1 && turns[0] == m && turns[|rows|] == after &&
      if cfg.IsLinearAttention(i) then LinearChain(net, d, i, |LinearLayers(cfg, i)|, rows, xs, turns, ys)
      else FullChain(net, d, i, |FullLayers(cfg, i)|, rows, xs, turns, ys);
    turns
  }

  // ----- the whole walk -----------------------------------------------------

  /** Rows to walk, and the state they start from. */
  datatype Job = Job(net: Net, cfg: Config, d: Dims, base: Mgr, rows: seq<BatchRow>) {

    ghost predicate Ready() {
      Scheduled(cfg, d) && net.Fits(d) && Armed(SetupOf(net, cfg, d), base, rows)
    }

    /** What row b's sequence held at the start. */
    ghost function View(b: nat): SeqState
      requires Ready() && b < |rows|
    {
      assert RowReady(SetupOf(net, cfg, d), base, rows[b]);
      InvReadable(d, base, rows[b].id);
      SeqView(d, base, rows[b].id)
    }

    /** What row b's walk stores in all, computed from that alone. */
    ghost function OutOf(b: nat): (out: Out)
      requires Ready() && b < |rows|
      ensures OutShape(d, out)
    {
      assert RowReady(SetupOf(net, cfg, d), base, rows[b]);
      TraverseShape(net, cfg, d, rows[b].token, View(b));
      Traverse(net, cfg, d, rows[b].token, View(b))
    }

    ghost function Outs(): (outs: seq<Out>)
      requires Ready()
      ensures |outs| == |rows| && forall b | 0 <= b < |rows| :: outs[b] == OutOf(b)
      ensures Walk(SetupOf(net, cfg, d), base, rows, outs)
    {
      seq(|rows|, b requires 0 <= b < |rows| => OutOf(b))
    }

    /** The hidden vector entering layer i of row b. */
    ghost function HiddenAt(b: nat, i: nat): Hidden
      requires Ready() && b < |rows| && i <= LayerCount(cfg)
    {
      assert RowReady(SetupOf(net, cfg, d), base, rows[b]);
      Entering(net, cfg, d, rows[b].token, View(b), i)
    }

    /** The hidden vectors entering layer i, one per row. */
    ghost function Hids(i: nat): (xs: seq<Hidden>)
      requires Ready() && i <= LayerCount(cfg)
      ensures |xs| == |rows|
    {
      seq(|rows|, b requires 0 <= b < |rows| => HiddenAt(b, i))
    }

    ghost function Turns(i: nat): (turns: seq<Mgr>)
      requires Ready() && i < LayerCount(cfg)
      ensures |turns| == |rows| + 1 && forall b | 0 <= b <= |rows| :: turns[b] == Turn(i, b)
    {
      seq(|rows| + 1, b requires 0 <= b <= |rows| => Turn(i, b))
    }

    ghost function DepthAt(i: nat): (at: Depth)
      requires Scheduled(cfg, d) && i <= LayerCount(cfg)
      ensures Within(d, at)
    {
      LayersGrow(cfg, i, LayerCount(cfg));
      Depth(|FullLayers(cfg, i)|, |LinearLayers(cfg, i)|)
    }

    /** The state once every row has run the layers below i. */
    ghost function At(i: nat): Mgr
      requires Ready() && i <= LayerCount(cfg)
    {
      RowsAt(SetupOf(net, cfg, d), base, rows, Outs(), DepthAt(i).full, DepthAt(i).linear)
    }

    /** The state when layer i's turn has reached row b. */
    ghost function Turn(i: nat, b: nat): (m: Mgr)
      requires Ready() && i < LayerCount(cfg) && b <= |rows|
      ensures m.seqs == base.seqs
    {
      Mixed(SetupOf(net, cfg, d), base, rows, Outs(), b, DepthAt(i + 1), DepthAt(i))
    }
  }

  lemma TurnBounds(j: Job, i: nat)
    requires j.Ready() && i < LayerCount(j.cfg)
    ensures j.Turn(i, 0) == j.At(i) && j.Turn(i, |j.rows|) == j.At(i + 1)
  {
    LayerStarts(SetupOf(j.net, j.cfg, j.d), j.base, j.rows, j.Outs(), j.DepthAt(i + 1), j.DepthAt(i));
    LayerEnds(SetupOf(j.net, j.cfg, j.d), j.base, j.rows, j.Outs(), j.DepthAt(i + 1), j.DepthAt(i));
  }

  lemma WalkStarts(j: Job)
    requires j.Ready()
    ensures j.At(0) == j.base
  {
    NothingStored(SetupOf(j.net, j.cfg, j.d), j.base, j.rows, j.Outs());
  }

  lemma OutIsRowOut(j: Job, b: nat)
    requires j.Ready() && b < |j.rows|
    ensures RowReady(SetupOf(j.net, j.cfg, j.d), j.base, j.rows[b])
    ensures j.OutOf(b) == RowOut(SetupOf(j.net, j.cfg, j.d), j.base, j.rows[b])
  {
    assert RowReady(SetupOf(j.net, j.cfg, j.d), j.base, j.rows[b]);
  }

  /** At the end every row is stored, as if one row had run after another. */
  lemma WalkEnds(j: Job)
    requires j.Ready()
    ensures j.At(LayerCount(j.cfg)) == StoreAll(SetupOf(j.net, j.cfg, j.d), j.base, j.base, j.rows)
  {
    forall b | 0 <= b < |j.rows|
      ensures RowReady(SetupOf(j.net, j.cfg, j.d), j.base, j.rows[b])
      ensures j.Outs()[b] == RowOut(SetupOf(j.net, j.cfg, j.d), j.base, j.rows[b])
    {
      OutIsRowOut(j, b);
    }
    AllStored(SetupOf(j.net, j.cfg, j.d), j.base, j.base, j.rows, j.Outs());
  }

  /** What row b's sequence holds, and where its token goes, when its turn comes. */
  lemma TurnReady(j: Job, i: nat, b: nat)
    requires j.Ready() && i < LayerCount(j.cfg) && b < |j.rows|
    ensures var m, id := j.Turn(i, b), j.rows[b].id;
            && id in m.seqs && Readable(j.d, m, id) && Covered(j.d, m, id, m.seqs[id].length)
            && m.seqs[id].length == j.View(b).length
            && SameAbove(j.d, j.View(b), SeqView(j.d, m, id), j.DepthAt(i).full, j.DepthAt(i).linear)
  {
    assert RowReady(SetupOf(j.net, j.cfg, j.d), j.base, j.rows[b]);
    TurnReads(SetupOf(j.net, j.cfg, j.d), j.base, j.rows, j.Outs(), b, j.DepthAt(i + 1), j.DepthAt(i));
  }

  lemma FullReads(j: Job, i: nat, b: nat)
    requires j.Ready() && i < LayerCount(j.cfg) && j.cfg.IsFullAttention(i) && b < |j.rows|
    ensures var m, id, o := j.Turn(i, b), j.rows[b].id, |FullLayers(j.cfg, i)|;
            && id in m.seqs && Readable(j.d, m, id) && o < j.d.nFull && 0 <= j.rows[b].token
            && var s := SeqView(j.d, m, id);
               j.net.full(i, j.HiddenAt(b, i), s.k[o], s.v[o], m.seqs[id].length) ==
               FullAt(j.net, j.cfg, j.d, j.rows[b].token, j.View(b), i)
  {
    assert RowReady(SetupOf(j.net, j.cfg, j.d), j.base, j.rows[b]);
    FullRank(j.cfg, i, LayerCount(j.cfg));
    TurnReady(j, i, b);
  }

  lemma FullStores(j: Job, i: nat, b: nat)
    requires j.Ready() && i < LayerCount(j.cfg) && j.cfg.IsFullAttention(i) && b < |j.rows|
    ensures var m, id, o := j.Turn(i, b), j.rows[b].id, |FullLayers(j.cfg, i)|;
            && id in m.seqs && Readable(j.d, m, id) && Covered(j.d, m, id, m.seqs[id].length)
            && o < j.d.nFull && 0 <= j.rows[b].token
            && var out := FullAt(j.net, j.cfg, j.d, j.rows[b].token, j.View(b), i);
               && |out.k| == |out.v| == j.d.nKv * j.d.headDim && out.next == j.HiddenAt(b, i + 1)
               && RowWritten(j.d, m, id, m.seqs[id].length, o, out.k, out.v) == j.Turn(i, b + 1)
  {
    assert RowReady(SetupOf(j.net, j.cfg, j.d), j.base, j.rows[b]);
    FullFits(j.net, j.cfg, j.d, j.rows[b].token, j.View(b), i);
    TraverseAt(j.net, j.cfg, j.d, j.rows[b].token, j.View(b), i);
    TurnReady(j, i, b);
    FullTurn(SetupOf(j.net, j.cfg, j.d), j.base, j.rows, j.Outs(), b, j.DepthAt(i + 1), j.DepthAt(i));
  }

  /** A full layer reads its own rows as they were, and its store passes the turn on. */
  lemma FullLayerTurn(j: Job, i: nat, b: nat)
    requires j.Ready() && i < LayerCount(j.cfg) && j.cfg.IsFullAttention(i) && b < |j.rows|
    ensures var o := |FullLayers(j.cfg, i)|;
            && o < j.d.nFull
            && FullLink(j.net, j.d, i, o, j.rows[b].id, j.HiddenAt(b, i), j.Turn(i, b), j.Turn(i, b + 1),
                        j.HiddenAt(b, i + 1))
  {
    FullReads(j, i, b);
    FullStores(j, i, b);
  }

  lemma LinearReads(j: Job, i: nat, b: nat)
    requires j.Ready() && i < LayerCount(j.cfg) && j.cfg.IsLinearAttention(i) && b < |j.rows|
    ensures var m, id, o := j.Turn(i, b), j.rows[b].id, |LinearLayers(j.cfg, i)|;
            && id in m.seqs && Readable(j.d, m, id) && o < j.d.nLinear && 0 <= j.rows[b].token
            && var s := SeqView(j.d, m, id);
               j.net.linear(i, j.HiddenAt(b, i), s.conv[o], s.rec[o], m.seqs[id].length) ==
               LinearAt(j.net, j.cfg, j.d, j.rows[b].token, j.View(b), i)
  {
    assert RowReady(SetupOf(j.net, j.cfg, j.d), j.base, j.rows[b]);
    LinearRank(j.cfg, i, LayerCount(j.cfg));
    TurnReady(j, i, b);
  }

  lemma LinearStores(j: Job, i: nat, b: nat)
    requires j.Ready() && i < LayerCount(j.cfg) && j.cfg.IsLinearAttention(i) && b < |j.rows|
    ensures var m, id, o := j.Turn(i, b), j.rows[b].id, |LinearLayers(j.cfg, i)|;
            && id in m.seqs && Readable(j.d, m, id) && o < j.d.nLinear && 0 <= j.rows[b].token
            && var out := LinearAt(j.net, j.cfg, j.d, j.rows[b].token, j.View(b), i);
               && |out.conv| == j.d.convElems && |out.rec| == j.d.recElems && out.next == j.HiddenAt(b, i + 1)
               && SlotWritten(j.d, m, id, o, out.conv, out.rec) == j.Turn(i, b + 1)
  {
    assert RowReady(SetupOf(j.net, j.cfg, j.d), j.base, j.rows[b]);
    LinearFits(j.net, j.cfg, j.d, j.rows[b].token, j.View(b), i);
    TraverseAt(j.net, j.cfg, j.d, j.rows[b].token, j.View(b), i);
    TurnReady(j, i, b);
    LinearTurn(SetupOf(j.net, j.cfg, j.d), j.base, j.rows, j.Outs(), b, j.DepthAt(i + 1), j.DepthAt(i));
  }

  /** The same for a linear layer and the sequence's slot. */
  lemma LinearLayerTurn(j: Job, i: nat, b: nat)
    requires j.Ready() && i < LayerCount(j.cfg) && j.cfg.IsLinearAttention(i) && b < |j.rows|
    ensures var o := |LinearLayers(j.cfg, i)|;
            && o < j.d.nLinear
            && LinearLink(j.net, j.d, i, o, j.rows[b].id, j.HiddenAt(b, i), j.Turn(i, b), j.Turn(i, b + 1),
                          j.HiddenAt(b, i + 1))
  {
    LinearReads(j, i, b);
    LinearStores(j, i, b);
  }

  lemma FullLayerChain(j: Job, i: nat)
    requires j.Ready() && i < LayerCount(j.cfg) && j.cfg.IsFullAttention(i)
    ensures FullChain(j.net, j.d, i, |FullLayers(j.cfg, i)|, j.rows, j.Hids(i), j.Turns(i), j.Hids(i + 1))
  {
    FullRank(j.cfg, i, LayerCount(j.cfg));
    forall b | 0 <= b < |j.rows|
      ensures FullLink(j.net, j.d, i, |FullLayers(j.cfg, i)|, j.rows[b].id, j.Hids(i)[b], j.Turns(i)[b],
                       j.Turns(i)[b + 1], j.Hids(i + 1)[b])
    {
      FullLayerTurn(j, i, b);
    }
  }

  lemma LinearLayerChain(j: Job, i: nat)
    requires j.Ready() && i < LayerCount(j.cfg) && j.cfg.IsLinearAttention(i)
    ensures LinearChain(j.net, j.d, i, |LinearLayers(j.cfg, i)|, j.rows, j.Hids(i), j.Turns(i), j.Hids(i + 1))
  {
    LinearRank(j.cfg, i, LayerCount(j.cfg));
    forall b | 0 <= b < |j.rows|
      ensures LinearLink(j.net, j.d, i, |LinearLayers(j.cfg, i)|, j.rows[b].id, j.Hids(i)[b], j.Turns(i)[b],
                         j.Turns(i)[b + 1], j.Hids(i + 1)[b])
    {
      LinearLayerTurn(j, i, b);
    }
  }

  /** Between two layers of the walk lies one layer taken through all the rows. */
  lemma WalkLink(j: Job, i: nat)
    requires j.Ready() && i < LayerCount(j.cfg)
    ensures LayerLink(j.net, j.cfg, j.d, i, j.rows, j.At(i), j.Hids(i), j.At(i + 1), j.Hids(i + 1))
  {
    TurnBounds(j, i);
    assert j.Turns(i)[0] == j.At(i) && j.Turns(i)[|j.rows|] == j.At(i + 1);
    if j.cfg.IsLinearAttention(i) {
      LinearLayerChain(j, i);
    } else {
      FullLayerChain(j, i);
    }
  }

  /** The embedded tokens. */
  function Embedded(net: Net, rows: seq<BatchRow>): (xs: seq<Hidden>)
    requires forall b | 0 <= b < |rows| :: 0 <= rows[b].token
    ensures |xs| == |rows|
  {
    seq(|rows|, b requires 0 <= b < |rows| => net.embed(rows[b].token))
  }

  // ----- the walk of a job --------------------------------------------------

  /** The states between the layers of a job, and the hidden vectors there. */
  ghost function StatesOf(j: Job): (states: seq<Mgr>)
    requires j.Ready()
    ensures |states| == LayerCount(j.cfg) + 1 && forall i | 0 <= i <= LayerCount(j.cfg) :: states[i] == j.At(i)
  {
    seq(LayerCount(j.cfg) + 1, i requires 0 <= i <= LayerCount(j.cfg) => j.At(i))
  }

  ghost function HidsOf(j: Job): (hids: seq<seq<Hidden>>)
    requires j.Ready()
    ensures |hids| == LayerCount(j.cfg) + 1 && forall i | 0 <= i <= LayerCount(j.cfg) :: hids[i] == j.Hids(i)
  {
    seq(LayerCount(j.cfg) + 1, i requires 0 <= i <= LayerCount(j.cfg) => j.Hids(i))
  }

  lemma PlanStarts(j: Job)
    requires j.Ready()
    ensures forall b | 0 <= b < |j.rows| :: 0 <= j.rows[b].token
    ensures StatesOf(j)[0] == j.base && HidsOf(j)[0] == Embedded(j.net, j.rows)
  {
    forall b | 0 <= b < |j.rows|
      ensures 0 <= j.rows[b].token && j.HiddenAt(b, 0) == j.net.embed(j.rows[b].token)
    {
      assert RowReady(SetupOf(j.net, j.cfg, j.d), j.base, j.rows[b]);
    }
    WalkStarts(j);
  }

  lemma PlanLinks(j: Job)
    requires j.Ready()
    ensures forall i | 0 <= i < LayerCount(j.cfg) ::
              LayerLink(j.net, j.cfg, j.d, i, j.rows, StatesOf(j)[i], HidsOf(j)[i],
                        StatesOf(j)[i + 1], HidsOf(j)[i + 1])
  {
    forall i | 0 <= i < LayerCount(j.cfg)
      ensures LayerLink(j.net, j.cfg, j.d, i, j.rows, StatesOf(j)[i], HidsOf(j)[i],
                        StatesOf(j)[i + 1], HidsOf(j)[i + 1])
    {
      WalkLink(j, i);
    }
  }

  /** The layer-major walk ends where the rows one after another would: every layer of
      every row has read and stored what it would have alone. */
  lemma PlanEnds(j: Job)
    requires j.Ready()
    ensures StatesOf(j)[LayerCount(j.cfg)] == StoreAll(SetupOf(j.net, j.cfg, j.d), j.base, j.base, j.rows)
    ensures HidsOf(j)[LayerCount(j.cfg)] == j.Hids(LayerCount(j.cfg))
  {
    WalkEnds(j);
  }

  /** The head on each row's last hidden vector. */
  function HeadAll(net: Net, xs: seq<Hidden>): (logits: seq<seq<real>>)
    ensures |logits| == |xs| && forall b | 0 <= b < |xs| :: logits[b] == net.head(xs[b])
  {
    seq(|xs|, b requires 0 <= b < |xs| => net.head(xs[b]))
  }

  lemma HeadsAreLogits(j: Job)
    requires j.Ready()
    ensures HeadAll(j.net, j.Hids(LayerCount(j.cfg))) == BatchLogits(SetupOf(j.net, j.cfg, j.d), j.base, j.rows)
  {
    forall b | 0 <= b < |j.rows|
      ensures j.net.head(j.HiddenAt(b, LayerCount(j.cfg))) == j.OutOf(b).logits
    {
      assert RowReady(SetupOf(j.net, j.cfg, j.d), j.base, j.rows[b]);
    }
    forall b | 0 <= b < |j.rows|
      ensures RowReady(SetupOf(j.net, j.cfg, j.d), j.base, j.rows[b])
      ensures j.OutOf(b) == RowOut(SetupOf(j.net, j.cfg, j.d), j.base, j.rows[b])
    {
      OutIsRowOut(j, b);
    }
  }

  // ----- one token ----------------------------------------------------------

  lemma StepFails(c: Setup, m: Mgr, token: int, id: nat)
    requires c.Ok() && Inv(c.d, m) && !CanForward(c.d, c.vocab, m, token, id)
    ensures Step(c, m, Forward(id, token)) == (m, Failed)
  {
  }

  lemma OneRow(c: Setup, g: Mgr, r: BatchRow)
    requires c.Ok() && Inv(c.d, g) && RowReady(c, g, r) && Covered(c.d, g, r.id, g.seqs[r.id].length)
    ensures Armed(c, g, [r]) && StoreAll(c, g, g, [r]) == RowStored(c, g, r, RowOut(c, g, r))
    ensures BatchLogits(c, g, [r]) == [RowOut(c, g, r).logits]
  {
    StoreKeeps(c, g, [r], RowOut(c, g, r));
    assert [r][1..] == [];
  }

  /** A forward is growth, the layers on one row, and the length. */
  lemma StepIs(c: Setup, m: Mgr, token: int, id: nat)
    requires c.Ok() && Inv(c.d, m) && CanForward(c.d, c.vocab, m, token, id)
    ensures var g := Ensured(c.d, m, id, m.seqs[id].length);
            && Armed(c, g, [BatchRow(token, id)])
            && Step(c, m, Forward(id, token)) ==
               (Advanced(StoreAll(c, g, g, [BatchRow(token, id)]), id, 1),
                Logits(BatchLogits(c, g, [BatchRow(token, id)])[0]))
            && Inv(c.d, Step(c, m, Forward(id, token)).0)
  {
    var g := Ensured(c.d, m, id, m.seqs[id].length);
    EnsuredIsCovered(c.d, m, id, m.seqs[id].length);
    OneRow(c, g, BatchRow(token, id));
    AfterInv(c, m, Forward(id, token));
  }
}
