/** The model's forward passes over the state manager: one token of one sequence,
    and a decode batch. Each layer reads the storage as it finds it and writes its
    own part; which layer of which row runs when, and when the length moves, is the
    code's order. */
module ModelForwards {
  import opened Basics
  import opened Configs
  import opened KvBlockTables
  import opened ManagerModel
  import opened SequenceViews
  import opened Runs
  import opened Batches
  import opened Networks
  import opened LayerWalks
  import opened StateManagers

  /** The decoder: its configuration, whether its weights are loaded, its layers. */
  datatype Decoder = Decoder(cfg: Config, loaded: bool, net: Net) {

    /** The gates passed before anything is touched: loaded weights, the same
        configuration, one stream. */
    predicate Admits(mgr: StateManager, stream: int) {
      loaded && mgr.cfg == cfg && stream == mgr.kv.stream && stream == mgr.delta.stream
    }

    /** The layers are written for the pools of a manager of this configuration. */
    ghost predicate Suits(mgr: StateManager) {
      mgr.cfg == cfg ==> net.Fits(mgr.d)
    }
  }

  /** The run theorems' setup for a decoder over this manager's pools. */
  ghost function Layers(net: Net, mgr: StateManager): Setup
    requires Scheduled(mgr.cfg, mgr.d)
  {
    SetupOf(net, mgr.cfg, mgr.d)
  }

  // ----- one layer of one row -----------------------------------------------

  method FullRow(net: Net, mgr: StateManager, i: nat, ord: nat, id: nat, x: Hidden, ghost after: Mgr, ghost y: Hidden)
    returns (next: Hidden)
    requires mgr.Shape() && ord < mgr.d.nFull && FullLink(net, mgr.d, i, ord, id, x, mgr.Model(), after, y)
    modifies mgr.kv.k, mgr.kv.v
    ensures mgr.Shape() && mgr.Model() == after && next == y
  {
    assert mgr.Model().seqs.Keys == mgr.sequences.Keys;
    var position := mgr.LengthOf(id);
    var s := SeqView(mgr.d, mgr.Model(), id);
    var out := net.full(i, x, s.k[ord], s.v[ord], position);
    mgr.StoreLayerRow(id, position, ord, out.k, out.v);
    next := out.next;
  }

  method LinearRow(net: Net, mgr: StateManager, i: nat, ord: nat, id: nat, x: Hidden, ghost after: Mgr, ghost y: Hidden)
    returns (next: Hidden)
    requires mgr.Shape() && ord < mgr.d.nLinear && LinearLink(net, mgr.d, i, ord, id, x, mgr.Model(), after, y)
    modifies mgr.delta.conv[ord], mgr.delta.rec[ord]
    ensures mgr.Shape() && mgr.Model() == after && next == y
  {
    assert mgr.Model().seqs.Keys == mgr.sequences.Keys;
    var position := mgr.LengthOf(id);
    var s := SeqView(mgr.d, mgr.Model(), id);
    var out := net.linear(i, x, s.conv[ord], s.rec[ord], position);
    mgr.StoreLayerSlot(id, ord, out.conv, out.rec);
    next := out.next;
  }

  // ----- one layer of every row ---------------------------------------------

  method FullTurn(net: Net, mgr: StateManager, i: nat, ord: nat, rows: seq<BatchRow>, xs: seq<Hidden>,
                  so: seq<Hidden>, ghost turns: seq<Mgr>, ghost want: seq<Hidden>)
    returns (ys: seq<Hidden>)
    requires mgr.Shape() && ord < mgr.d.nFull && |so| < |rows| == |xs|
    requires FullUpto(net, mgr.d, i, ord, rows, xs, turns, want, so, mgr.Model())
    modifies mgr.kv.k, mgr.kv.v
    ensures mgr.Shape() && |ys| == |so| + 1
    ensures FullUpto(net, mgr.d, i, ord, rows, xs, turns, want, ys, mgr.Model())
  {
    FullNext(net, mgr.d, i, ord, rows, xs, turns, want, so, mgr.Model());
    var b := |so|;
    var next := FullRow(net, mgr, i, ord, rows[b].id, xs[b], turns[b + 1], want[b]);
    ys := so + [next];
  }

  method FullRows(net: Net, mgr: StateManager, i: nat, ord: nat, rows: seq<BatchRow>, xs: seq<Hidden>,
                  ghost turns: seq<Mgr>, ghost want: seq<Hidden>)
    returns (ys: seq<Hidden>)
    requires mgr.Shape() && ord < mgr.d.nFull && |rows| == |xs|
    requires FullUpto(net, mgr.d, i, ord, rows, xs, turns, want, [], mgr.Model())
    modifies mgr.kv.k, mgr.kv.v
    ensures mgr.Shape() && |ys| == |rows|
    ensures FullUpto(net, mgr.d, i, ord, rows, xs, turns, want, ys, mgr.Model())
  {
    ys := [];
    while |ys| < |rows|
      invariant mgr.Shape() && |ys| <= |rows|
      invariant FullUpto(net, mgr.d, i, ord, rows, xs, turns, want, ys, mgr.Model())
    {
      ys := FullTurn(net, mgr, i, ord, rows, xs, ys, turns, want);
    }
  }

  method LinearTurn(net: Net, mgr: StateManager, i: nat, ord: nat, rows: seq<BatchRow>, xs: seq<Hidden>,
                  so: seq<Hidden>, ghost turns: seq<Mgr>, ghost want: seq<Hidden>)
    returns (ys: seq<Hidden>)
    requires mgr.Shape() && ord < mgr.d.nLinear && |so| < |rows| == |xs|
    requires LinearUpto(net, mgr.d, i, ord, rows, xs, turns, want, so, mgr.Model())
    modifies mgr.delta.conv[ord], mgr.delta.rec[ord]
    ensures mgr.Shape() && |ys| == |so| + 1
    ensures LinearUpto(net, mgr.d, i, ord, rows, xs, turns, want, ys, mgr.Model())
  {
    LinearNext(net, mgr.d, i, ord, rows, xs, turns, want, so, mgr.Model());
    var b := |so|;
    var next := LinearRow(net, mgr, i, ord, rows[b].id, xs[b], turns[b + 1], want[b]);
    ys := so + [next];
  }

  method LinearRows(net: Net, mgr: StateManager, i: nat, ord: nat, rows: seq<BatchRow>, xs: seq<Hidden>,
                  ghost turns: seq<Mgr>, ghost want: seq<Hidden>)
    returns (ys: seq<Hidden>)
    requires mgr.Shape() && ord < mgr.d.nLinear && |rows| == |xs|
    requires LinearUpto(net, mgr.d, i, ord, rows, xs, turns, want, [], mgr.Model())
    modifies mgr.delta.conv[ord], mgr.delta.rec[ord]
    ensures mgr.Shape() && |ys| == |rows|
    ensures LinearUpto(net, mgr.d, i, ord, rows, xs, turns, want, ys, mgr.Model())
  {
    ys := [];
    while |ys| < |rows|
      invariant mgr.Shape() && |ys| <= |rows|
      invariant LinearUpto(net, mgr.d, i, ord, rows, xs, turns, want, ys, mgr.Model())
    {
      ys := LinearTurn(net, mgr, i, ord, rows, xs, ys, turns, want);
    }
  }

  // Each layer's ordinal is looked up once, for all rows.

  method FullLayer(net: Net, mgr: StateManager, i: nat, rows: seq<BatchRow>, xs: seq<Hidden>,
                  ghost turns: seq<Mgr>, ghost want: seq<Hidden>)
    returns (ys: seq<Hidden>)
    requires mgr.Shape() && i < LayerCount(mgr.cfg) && mgr.cfg.IsFullAttention(i)
    requires FullChain(net, mgr.d, i, |FullLayers(mgr.cfg, i)|, rows, xs, turns, want) && mgr.Model() == turns[0]
    modifies mgr.kv.Repr()
    ensures mgr.Shape() && mgr.Model() == turns[|rows|] && ys == want
  {
    var ord := mgr.kv.FullLayerOrdinal(i);
    assert mgr.Model() == turns[0];
    ys := FullRows(net, mgr, i, ord, rows, xs, turns, want);
  }

  method LinearLayer(net: Net, mgr: StateManager, i: nat, rows: seq<BatchRow>, xs: seq<Hidden>,
                  ghost turns: seq<Mgr>, ghost want: seq<Hidden>)
    returns (ys: seq<Hidden>)
    requires mgr.Shape() && i < LayerCount(mgr.cfg) && mgr.cfg.IsLinearAttention(i)
    requires LinearChain(net, mgr.d, i, |LinearLayers(mgr.cfg, i)|, rows, xs, turns, want) && mgr.Model() == turns[0]
    modifies mgr.delta.Repr()
    ensures mgr.Shape() && mgr.Model() == turns[|rows|] && ys == want
  {
    var ord := mgr.delta.LinearLayerOrdinal(i);
    assert mgr.Model() == turns[0];
    ys := LinearRows(net, mgr, i, ord, rows, xs, turns, want);
  }

  /** One layer for all rows. */
  method RunLayer(net: Net, mgr: StateManager, i: nat, rows: seq<BatchRow>, xs: seq<Hidden>,
                  ghost after: Mgr, ghost want: seq<Hidden>)
    returns (ys: seq<Hidden>)
    requires mgr.Shape() && i < LayerCount(mgr.cfg)
    requires LayerLink(net, mgr.cfg, mgr.d, i, rows, mgr.Model(), xs, after, want)
    modifies mgr.kv.Repr(), mgr.delta.Repr()
    ensures mgr.Shape() && mgr.Model() == after && ys == want
  {
    ghost var turns := TurnsOf(net, mgr.cfg, mgr.d, i, rows, mgr.Model(), xs, after, want);
    if mgr.cfg.IsLinearAttention(i) {
      ys := LinearLayer(net, mgr, i, rows, xs, turns, want);
    } else {
      ys := FullLayer(net, mgr, i, rows, xs, turns, want);
    }
  }

  /** One walk over the layers, all rows inside each. */
  method WalkLayers(net: Net, mgr: StateManager, rows: seq<BatchRow>,
                    ghost states: seq<Mgr>, ghost hids: seq<seq<Hidden>>)
    returns (xs: seq<Hidden>)
    requires forall b | 0 <= b < |rows| :: 0 <= rows[b].token
    requires |states| == |hids| == LayerCount(mgr.cfg) + 1
    requires forall i | 0 <= i < LayerCount(mgr.cfg) ::
               LayerLink(net, mgr.cfg, mgr.d, i, rows, states[i], hids[i], states[i + 1], hids[i + 1])
    requires mgr.Shape() && mgr.Model() == states[0] && hids[0] == Embedded(net, rows)
    modifies mgr.kv.Repr(), mgr.delta.Repr()
    ensures mgr.Shape() && mgr.Model() == states[LayerCount(mgr.cfg)] && xs == hids[LayerCount(mgr.cfg)]
  {
    xs := Embedded(net, rows);
    for i := 0 to LayerCount(mgr.cfg)
      invariant mgr.Shape() && mgr.Model() == states[i] && xs == hids[i]
    {
      xs := RunLayer(net, mgr, i, rows, xs, states[i + 1], hids[i + 1]);
    }
  }

  /** All rows through all layers: every row stored, every row's logits. */
  method RunRows(net: Net, mgr: StateManager, rows: seq<BatchRow>, ghost m: Mgr) returns (logits: seq<seq<real>>)
    requires mgr.Shape() && mgr.Model() == m && Job(net, mgr.cfg, mgr.d, m, rows).Ready()
    modifies mgr.kv.Repr(), mgr.delta.Repr()
    ensures mgr.Shape() && mgr.Model() == StoreAll(Layers(net, mgr), m, m, rows)
    ensures logits == BatchLogits(Layers(net, mgr), m, rows)
  {
    ghost var j := Job(net, mgr.cfg, mgr.d, m, rows);
    PlanStarts(j);
    PlanLinks(j);
    PlanEnds(j);
    HeadsAreLogits(j);
    var xs := WalkLayers(net, mgr, rows, StatesOf(j), HidsOf(j));
    logits := HeadAll(net, xs);
  }

  // ----- one token ----------------------------------------------------------

  /** The rest of a forward once the position is covered: layers, then the length. */
  method Commit(net: Net, mgr: StateManager, token: int, id: nat, ghost m: Mgr) returns (logits: seq<real>)
    requires mgr.Shape() && mgr.Model() == m && Job(net, mgr.cfg, mgr.d, m, [BatchRow(token, id)]).Ready()
    modifies mgr.sequences.Values, mgr.kv.Repr(), mgr.delta.Repr()
    ensures mgr.Shape() && mgr.sequences == old(mgr.sequences) && id in m.seqs
    ensures mgr.Model() == Advanced(StoreAll(Layers(net, mgr), m, m, [BatchRow(token, id)]), id, 1)
    ensures logits == BatchLogits(Layers(net, mgr), m, [BatchRow(token, id)])[0]
  {
    mgr.Apart();
    assert RowReady(Layers(net, mgr), m, [BatchRow(token, id)][0]);
    assert m.seqs.Keys == mgr.sequences.Keys;
    var all := RunRows(net, mgr, [BatchRow(token, id)], m);
    mgr.AddLength(id, 1);
    logits := all[0];
  }

  /** Growth first, then the layers; the length moves last. */
  method GrowAndCommit(net: Net, mgr: StateManager, token: int, id: nat) returns (logits: Option<seq<real>>)
    requires mgr.Valid() && net.Fits(mgr.d) && Layers(net, mgr).Ok()
    requires RowReady(Layers(net, mgr), mgr.Model(), BatchRow(token, id))
    modifies mgr.Repr()
    ensures mgr.Valid() && mgr.sequences == old(mgr.sequences) && Inv(mgr.d, old(mgr.Model()))
    ensures (mgr.Model(), if logits.None? then Failed else Logits(logits.value)) ==
            Step(Layers(net, mgr), old(mgr.Model()), Forward(id, token))
  {
    ghost var c, was := Layers(net, mgr), mgr.Model();
    assert was.seqs.Keys == mgr.sequences.Keys;
    var ok := mgr.EnsureKvCapacity(id, mgr.LengthOf(id));
    if !ok {
      StepFails(c, was, token, id);
      return None;
    }
    StepIs(c, was, token, id);
    var values := Commit(net, mgr, token, id, mgr.Model());
    logits := Some(values);
  }

  /** One token of one live sequence, or a failure that changed nothing. */
  method ForwardTokenWithState(dec: Decoder, mgr: StateManager, token: int, id: nat, stream: int)
    returns (logits: Option<seq<real>>)
    requires mgr.Valid() && dec.Suits(mgr)
    modifies mgr.Repr()
    ensures mgr.Valid() && fresh(mgr.Repr() - old(mgr.Repr())) && mgr.sequences == old(mgr.sequences)
    ensures Inv(mgr.d, old(mgr.Model())) && (dec.Admits(mgr, stream) ==> Layers(dec.net, mgr).Ok())
    ensures dec.Admits(mgr, stream) <==>
              dec.loaded && mgr.cfg == dec.cfg && stream == mgr.kv.stream && stream == mgr.delta.stream
    ensures !dec.Admits(mgr, stream) ==> logits.None? && mgr.Model() == old(mgr.Model())
    ensures dec.Admits(mgr, stream) ==>
              (mgr.Model(), if logits.None? then Failed else Logits(logits.value)) ==
              Step(Layers(dec.net, mgr), old(mgr.Model()), Forward(id, token))
  {
    if !dec.loaded {
      return None;
    }
    if mgr.cfg == dec.cfg {
      SetupOk(dec.net, mgr.cfg, mgr.d);
    }
    if token < 0 || token >= dec.cfg.vocabSize {
      return None;
    }
    if mgr.cfg != dec.cfg {
      return None;
    }
    if stream != mgr.kv.stream || stream != mgr.delta.stream {
      return None;
    }
    assert mgr.Model().seqs.Keys == mgr.sequences.Keys;
    if id !in mgr.sequences {
      return None;
    }
    if mgr.LengthOf(id) >= mgr.d.maxSeqLen {
      return None;
    }
    logits := GrowAndCommit(dec.net, mgr, token, id);
  }

  // ----- a decode batch -----------------------------------------------------

  /** Covers the sequence's next position. */
  method CoverNext(mgr: StateManager, id: nat, ghost m: Mgr, ghost next: Mgr)
    requires mgr.Valid() && mgr.Model() == m && id in m.seqs && CanEnsureKv(mgr.d, m, id, m.seqs[id].length)
    requires next == Ensured(mgr.d, m, id, m.seqs[id].length)
    modifies mgr.Repr()
    ensures mgr.Valid() && mgr.sequences == old(mgr.sequences) && mgr.Model() == next
  {
    assert m.seqs.Keys == mgr.sequences.Keys;
    var ok := mgr.EnsureKvCapacity(id, mgr.LengthOf(id));
    assert ok;
  }

  method GrowRow(ghost c: Setup, mgr: StateManager, rows: seq<BatchRow>, ghost m: Mgr)
    requires mgr.Valid() && c.d == mgr.d && mgr.Model() == m && Growing(c, m, rows) && rows != []
    modifies mgr.Repr()
    ensures mgr.Valid() && mgr.sequences == old(mgr.sequences)
    ensures Growing(c, mgr.Model(), rows[1..]) && GrowAll(c, mgr.Model(), rows[1..]) == GrowAll(c, m, rows)
  {
    GrowingTail(c, m, rows);
    CoverNext(mgr, rows[0].id, m, Grown(c, m, rows[0]));
  }

  method GrowRows(ghost c: Setup, mgr: StateManager, rows: seq<BatchRow>, ghost m: Mgr)
    requires mgr.Valid() && c.d == mgr.d && mgr.Model() == m && Growing(c, m, rows)
    modifies mgr.Repr()
    ensures mgr.Valid() && mgr.sequences == old(mgr.sequences)
    ensures mgr.Model() == GrowAll(c, m, rows)
  {
    for b := 0 to |rows|
      invariant mgr.Valid() && mgr.sequences == old(mgr.sequences)
      invariant Growing(c, mgr.Model(), rows[b..])
      invariant GrowAll(c, mgr.Model(), rows[b..]) == GrowAll(c, m, rows)
    {
      assert rows[b..][1..] == rows[b + 1..];
      GrowRow(c, mgr, rows[b..], mgr.Model());
    }
  }

  method AdvanceRows(mgr: StateManager, rows: seq<BatchRow>)
    requires mgr.Shape() && forall i | 0 <= i < |rows| :: rows[i].id in mgr.sequences
    modifies mgr.sequences.Values
    ensures mgr.Shape() && mgr.sequences == old(mgr.sequences)
    ensures forall i | 0 <= i < |rows| :: rows[i].id in old(mgr.Model()).seqs
    ensures mgr.Model() == AdvanceAll(old(mgr.Model()), rows)
  {
    ghost var was := mgr.Model();
    assert was.seqs.Keys == mgr.sequences.Keys;
    for b := 0 to |rows|
      invariant mgr.Shape() && mgr.sequences == old(mgr.sequences)
      invariant mgr.Model().seqs.Keys == mgr.sequences.Keys
      invariant AdvanceAll(mgr.Model(), rows[b..]) == AdvanceAll(was, rows)
    {
      assert rows[b..][1..] == rows[b + 1..];
      mgr.AddLength(rows[b].id, 1);
    }
  }

  /** Token in range, sequence live, room for one more position, for every row. */
  method CheckRows(c: Setup, mgr: StateManager, rows: seq<BatchRow>) returns (ok: bool)
    requires mgr.Shape() && c.d == mgr.d
    ensures ok == AllReady(c, mgr.Model(), rows)
  {
    ghost var m := mgr.Model();
    assert m.seqs.Keys == mgr.sequences.Keys;
    for b := 0 to |rows|
      invariant AllReady(c, m, rows[..b])
    {
      if rows[b].token < 0 || rows[b].token >= c.vocab {
        assert !RowReady(c, m, rows[b]);
        return false;
      }
      if rows[b].id !in mgr.sequences {
        assert !RowReady(c, m, rows[b]);
        return false;
      }
      if mgr.LengthOf(rows[b].id) >= mgr.d.maxSeqLen {
        assert !RowReady(c, m, rows[b]);
        return false;
      }
      assert RowReady(c, m, rows[b]);
    }
    assert rows[..|rows|] == rows;
    ok := true;
  }

  /** The check's own formula agrees with what growth will take. */
  function MissingBlocks(pageTokens: nat, position: nat, haveBlocks: nat): (missing: nat)
    requires pageTokens >= 1
    ensures missing == NewBlocks(pageTokens, haveBlocks, position)
  {
    NextBlock(position, pageTokens);
    var needBlocks := (position + pageTokens) / pageTokens;
    if needBlocks > haveBlocks then needBlocks - haveBlocks else 0
  }

  /** New pages over all rows: blocks covering the position minus blocks held. */
  method SumNeeds(c: Setup, mgr: StateManager, rows: seq<BatchRow>) returns (needed: nat)
    requires mgr.Shape() && c.d == mgr.d && AllReady(c, mgr.Model(), rows)
    ensures needed == PagesNeeded(c, mgr.Model(), rows)
  {
    ghost var m := mgr.Model();
    assert m.seqs.Keys == mgr.sequences.Keys;
    needed := 0;
    for b := 0 to |rows|
      invariant needed == PagesNeeded(c, m, rows[..b])
    {
      assert rows[..b + 1][..b] == rows[..b];
      assert RowReady(c, m, rows[b]);
      var id := rows[b].id;
      needed := needed + MissingBlocks(mgr.d.pageTokens, mgr.LengthOf(id), mgr.NumBlocksOf(id));
    }
    assert rows[..|rows|] == rows;
  }

  method CheckBatch(c: Setup, mgr: StateManager, rows: seq<BatchRow>, ghost m: Mgr) returns (ok: bool)
    requires mgr.Shape() && mgr.kv.ids.Valid() && c.d == mgr.d && mgr.Model() == m
    ensures ok == Preflight(c, m, rows)
  {
    if rows == [] {
      return false;
    }
    var ready := CheckRows(c, mgr, rows);
    if !ready {
      return false;
    }
    if !UniqueIds(rows) {
      return false;
    }
    assert mgr.Model() == m;
    var needed := SumNeeds(c, mgr, rows);
    assert mgr.Model() == m;
    var free := mgr.kv.ids.FreeCount();
    ok := needed <= free;
  }

  /** Growth of every row, the layers, then every row's length. */
  method GrowAndRun(net: Net, mgr: StateManager, rows: seq<BatchRow>) returns (logits: seq<seq<real>>)
    requires mgr.Valid() && net.Fits(mgr.d) && Growing(Layers(net, mgr), mgr.Model(), rows)
    modifies mgr.Repr()
    ensures mgr.Shape() && mgr.sequences == old(mgr.sequences)
    ensures Growing(Layers(net, mgr), old(mgr.Model()), rows)
    ensures var c, grown := Layers(net, mgr), GrowAll(Layers(net, mgr), old(mgr.Model()), rows);
            && Armed(c, grown, rows)
            && mgr.Model() == AdvanceAll(StoreAll(c, grown, grown, rows), rows)
            && logits == BatchLogits(c, grown, rows)
  {
    ghost var c := Layers(net, mgr);
    GrowAllArmed(c, mgr.Model(), rows);
    GrowRows(c, mgr, rows, mgr.Model());
    logits := RunAndAdvance(net, mgr, rows, mgr.Model());
  }

  method RunAndAdvance(net: Net, mgr: StateManager, rows: seq<BatchRow>, ghost m: Mgr) returns (logits: seq<seq<real>>)
    requires mgr.Shape() && mgr.Model() == m && Job(net, mgr.cfg, mgr.d, m, rows).Ready()
    modifies mgr.sequences.Values, mgr.kv.Repr(), mgr.delta.Repr()
    ensures mgr.Shape() && mgr.sequences == old(mgr.sequences)
    ensures forall b | 0 <= b < |rows| :: rows[b].id in m.seqs
    ensures mgr.Model() == AdvanceAll(StoreAll(Layers(net, mgr), m, m, rows), rows)
    ensures logits == BatchLogits(Layers(net, mgr), m, rows)
  {
    mgr.Apart();
    AllLiveRows(Layers(net, mgr), m, rows);
    assert m.seqs.Keys == mgr.sequences.Keys;
    logits := RunRows(net, mgr, rows, m);
    AdvanceRows(mgr, rows);
  }

  lemma AllLiveRows(c: Setup, m: Mgr, rows: seq<BatchRow>)
    requires Armed(c, m, rows)
    ensures forall b | 0 <= b < |rows| :: rows[b].id in m.seqs
  {
  }

  /** The batch: nothing happens unless the gates and the whole preflight pass, and
      then nothing can fail. */
  method ForwardBatchWithState(dec: Decoder, mgr: StateManager, rows: seq<BatchRow>, stream: int)
    returns (logits: Option<seq<seq<real>>>)
    requires mgr.Valid() && dec.Suits(mgr)
    modifies mgr.Repr()
    ensures mgr.Valid() && fresh(mgr.Repr() - old(mgr.Repr())) && mgr.sequences == old(mgr.sequences)
    ensures Inv(mgr.d, old(mgr.Model())) && (dec.Admits(mgr, stream) ==> Layers(dec.net, mgr).Ok())
    ensures logits.Some? <==> dec.Admits(mgr, stream) && Preflight(Layers(dec.net, mgr), old(mgr.Model()), rows)
    ensures dec.Admits(mgr, stream) <==>
              dec.loaded && mgr.cfg == dec.cfg && stream == mgr.kv.stream && stream == mgr.delta.stream
    ensures logits.Some? <==>
              && dec.Admits(mgr, stream)
              && rows != [] && (forall i, j | 0 <= i < j < |rows| :: rows[i].id != rows[j].id)
              && SerialSucceeds(Layers(dec.net, mgr), old(mgr.Model()), rows)
    ensures logits.None? ==> mgr.Model() == old(mgr.Model())
    ensures logits.Some? ==>
              && SerialSucceeds(Layers(dec.net, mgr), old(mgr.Model()), rows)
              && mgr.Model() == SerialAfter(Layers(dec.net, mgr), old(mgr.Model()), rows)
              && logits.value == SerialLogits(Layers(dec.net, mgr), old(mgr.Model()), rows)
  {
    if !dec.Admits(mgr, stream) {
      return None;
    }
    SetupOk(dec.net, mgr.cfg, mgr.d);
    ghost var c, m := Layers(dec.net, mgr), mgr.Model();
    var ok := CheckBatch(SetupOf(dec.net, mgr.cfg, mgr.d), mgr, rows, m);
    assert mgr.Model() == m;
    PreflightExact(c, m, rows);
    if !ok {
      return None;
    }
    BatchIsSerial(c, m, rows);
    SerialInv(c, m, rows);
    var values := GrowAndRun(dec.net, mgr, rows);
    logits := Some(values);
  }
}
