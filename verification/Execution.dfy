/** Runs carried out: the operations of a run as calls on a state manager. Every run of
    the step relation is what some sequence of method calls does, call by call. */
module Executions {
  import opened Basics
  import opened Configs
  import opened PageLayout
  import opened ManagerModel
  import opened SequenceViews
  import opened Runs
  import opened Batches
  import opened Networks
  import opened StateManagers
  import opened ModelForwards

  /** What a call that reports only success or failure comes to. */
  function Reported(ok: bool): Outcome {
    if ok then Done else Failed
  }

  method Create(ghost c: Setup, mgr: StateManager) returns (outcome: Outcome)
    requires mgr.Valid() && c.Ok() && c.d == mgr.d
    modifies mgr.Repr()
    ensures mgr.Valid() && fresh(mgr.Repr() - old(mgr.Repr())) && Inv(c.d, old(mgr.Model()))
    ensures (mgr.Model(), outcome) == Step(c, old(mgr.Model()), Op.Create)
  {
    var id := mgr.CreateSequence();
    outcome := if id.None? then Failed else Issued(id.value);
  }

  lemma ResetStep(c: Setup, m: Mgr, id: nat)
    requires c.Ok() && Inv(c.d, m)
    ensures id !in m.seqs ==> Step(c, m, Op.Reset(id)) == (m, Failed)
    ensures id in m.seqs ==> Clearable(m, id) && m.delta.ids.IsLive(m.seqs[id].slot)
    ensures id in m.seqs ==> Step(c, m, Op.Reset(id)) == (WasReset(c.d, m, id), Done)
  {
    if id in m.seqs {
      AlwaysClearable(c.d, m, id);
    }
  }

  method Reset(ghost c: Setup, mgr: StateManager, id: nat, ghost m: Mgr) returns (outcome: Outcome)
    requires mgr.Valid() && c.Ok() && c.d == mgr.d && m == mgr.Model()
    modifies mgr.Repr()
    ensures mgr.Valid() && fresh(mgr.Repr() - old(mgr.Repr()))
    ensures (mgr.Model(), outcome) == Step(c, m, Op.Reset(id))
  {
    assert m.seqs.Keys == mgr.sequences.Keys;
    ResetStep(c, m, id);
    var ok := mgr.ResetSequence(id);
    outcome := Reported(ok);
  }

  lemma RetireStep(c: Setup, m: Mgr, id: nat)
    requires c.Ok() && Inv(c.d, m)
    ensures id !in m.seqs ==> Step(c, m, Op.Retire(id)) == (m, Failed)
    ensures id in m.seqs ==> Clearable(m, id) && m.delta.ids.IsLive(m.seqs[id].slot)
    ensures id in m.seqs ==> Step(c, m, Op.Retire(id)) == (Retired(c.d, m, id), Done)
  {
    if id in m.seqs {
      AlwaysClearable(c.d, m, id);
    }
  }

  method Retire(ghost c: Setup, mgr: StateManager, id: nat, ghost m: Mgr) returns (outcome: Outcome)
    requires mgr.Valid() && c.Ok() && c.d == mgr.d && m == mgr.Model()
    modifies mgr.Repr()
    ensures mgr.Valid() && fresh(mgr.Repr() - old(mgr.Repr()))
    ensures (mgr.Model(), outcome) == Step(c, m, Op.Retire(id))
  {
    assert m.seqs.Keys == mgr.sequences.Keys;
    RetireStep(c, m, id);
    var ok := mgr.RetireSequence(id);
    outcome := Reported(ok);
  }

  /** The three operations that change one record only. */
  method Adjust(ghost c: Setup, mgr: StateManager, op: Op) returns (outcome: Outcome)
    requires mgr.Valid() && c.Ok() && c.d == mgr.d && (op.Ensure? || op.SetLength? || op.Advance?)
    modifies mgr.Repr()
    ensures mgr.Valid() && fresh(mgr.Repr() - old(mgr.Repr())) && Inv(c.d, old(mgr.Model()))
    ensures (mgr.Model(), outcome) == Step(c, old(mgr.Model()), op)
  {
    var ok;
    if op.Ensure? {
      ok := mgr.EnsureKvCapacity(op.id, op.position);
    } else if op.SetLength? {
      ok := mgr.SetLength(op.id, op.newLength);
    } else {
      ok := mgr.Advance(op.id, op.n);
    }
    outcome := Reported(ok);
  }

  // The device writes, done only where the step relation has them succeed.

  lemma WriteRowStep(c: Setup, m: Mgr, id: nat, at: nat, ord: nat, kRow: seq<Elem>, vRow: seq<Elem>)
    requires c.Ok() && Inv(c.d, m)
    ensures var op := WriteRow(id, at, ord, kRow, vRow);
            if Succeeds(c, m, op) then
              && InPool(m.seqs[id].pages, |m.kv.k|)
              && Step(c, m, op) == (RowWritten(c.d, m, id, at, ord, kRow, vRow), Done) && Inv(c.d, Step(c, m, op).0)
            else Step(c, m, op) == (m, Failed)
  {
    if Succeeds(c, m, WriteRow(id, at, ord, kRow, vRow)) {
      InvReadable(c.d, m, id);
      RowWrittenInv(c.d, m, id, at, ord, kRow, vRow);
    }
  }

  lemma WriteSlotStep(c: Setup, m: Mgr, id: nat, ord: nat, convRow: Row, recRow: Row)
    requires c.Ok() && Inv(c.d, m)
    ensures var op := WriteSlot(id, ord, convRow, recRow);
            if Succeeds(c, m, op) then
              && m.delta.Shaped(c.d) && m.seqs[id].slot < |m.delta.conv|
              && Step(c, m, op) == (SlotWritten(c.d, m, id, ord, convRow, recRow), Done) && Inv(c.d, Step(c, m, op).0)
            else Step(c, m, op) == (m, Failed)
  {
    if Succeeds(c, m, WriteSlot(id, ord, convRow, recRow)) {
      InvReadable(c.d, m, id);
      SlotWrittenInv(c.d, m, id, ord, convRow, recRow);
    }
  }

  method PutRow(mgr: StateManager, id: nat, at: nat, ord: nat, kRow: seq<Elem>, vRow: seq<Elem>, ghost after: Mgr)
    requires mgr.Valid() && Covered(mgr.d, mgr.Model(), id, at) && InPool(mgr.Model().seqs[id].pages, mgr.kv.capacity)
    requires ord < mgr.d.nFull && |kRow| == |vRow| == mgr.d.nKv * mgr.d.headDim
    requires after == RowWritten(mgr.d, mgr.Model(), id, at, ord, kRow, vRow) && Inv(mgr.d, after)
    modifies mgr.kv.k, mgr.kv.v
    ensures mgr.Valid() && mgr.Model() == after && mgr.sequences == old(mgr.sequences)
  {
    mgr.StoreLayerRow(id, at, ord, kRow, vRow);
  }

  method WriteRowAt(ghost c: Setup, mgr: StateManager, id: nat, at: nat, ord: nat, kRow: seq<Elem>, vRow: seq<Elem>,
                    ghost m: Mgr, ghost want: (Mgr, Outcome))
    returns (outcome: Outcome)
    requires mgr.Valid() && c.Ok() && c.d == mgr.d && m == mgr.Model()
    requires want == Step(c, m, WriteRow(id, at, ord, kRow, vRow))
    modifies mgr.kv.k, mgr.kv.v
    ensures mgr.Valid() && mgr.sequences == old(mgr.sequences)
    ensures mgr.Model() == want.0 && outcome == want.1
  {
    WriteRowStep(c, m, id, at, ord, kRow, vRow);
    if !Covered(mgr.d, mgr.Model(), id, at) || ord >= mgr.d.nFull
       || |kRow| != mgr.d.nKv * mgr.d.headDim || |vRow| != mgr.d.nKv * mgr.d.headDim {
      return Failed;
    }
    PutRow(mgr, id, at, ord, kRow, vRow, want.0);
    outcome := Done;
  }

  method PutSlot(mgr: StateManager, id: nat, ord: nat, convRow: Row, recRow: Row, ghost after: Mgr)
    requires mgr.Valid() && id in mgr.Model().seqs && mgr.Model().seqs[id].slot < mgr.delta.capacity
    requires ord < mgr.d.nLinear
    requires |convRow| == mgr.d.convElems && |recRow| == mgr.d.recElems
    requires after == SlotWritten(mgr.d, mgr.Model(), id, ord, convRow, recRow) && Inv(mgr.d, after)
    modifies mgr.delta.conv[ord], mgr.delta.rec[ord]
    ensures mgr.Valid() && mgr.Model() == after && mgr.sequences == old(mgr.sequences)
  {
    mgr.StoreLayerSlot(id, ord, convRow, recRow);
  }

  method WriteSlotOf(ghost c: Setup, mgr: StateManager, id: nat, ord: nat, convRow: Row, recRow: Row,
                     ghost m: Mgr, ghost want: (Mgr, Outcome))
    returns (outcome: Outcome)
    requires mgr.Valid() && c.Ok() && c.d == mgr.d && m == mgr.Model()
    requires want == Step(c, m, WriteSlot(id, ord, convRow, recRow))
    modifies mgr.delta.Repr()
    ensures mgr.Valid() && mgr.sequences == old(mgr.sequences)
    ensures mgr.Model() == want.0 && outcome == want.1
  {
    WriteSlotStep(c, m, id, ord, convRow, recRow);
    assert m.seqs.Keys == mgr.sequences.Keys;
    var ok := id in mgr.sequences && ord < mgr.d.nLinear && |convRow| == mgr.d.convElems && |recRow| == mgr.d.recElems;
    assert ok == Succeeds(c, m, WriteSlot(id, ord, convRow, recRow));
    if !ok {
      return Failed;
    }
    PutSlot(mgr, id, ord, convRow, recRow, want.0);
    outcome := Done;
  }

  /** One operation. */
  method Execute(dec: Decoder, mgr: StateManager, op: Op) returns (outcome: Outcome)
    requires mgr.Valid() && dec.Suits(mgr) && dec.Admits(mgr, mgr.kv.stream) && Layers(dec.net, mgr).Ok()
    modifies mgr.Repr()
    ensures mgr.Valid() && fresh(mgr.Repr() - old(mgr.Repr())) && Inv(mgr.d, old(mgr.Model()))
    ensures (mgr.Model(), outcome) == Step(Layers(dec.net, mgr), old(mgr.Model()), op)
  {
    ghost var c, m := Layers(dec.net, mgr), mgr.Model();
    match op {
      case Create => outcome := Create(c, mgr);
      case Reset(id) => outcome := Reset(c, mgr, id, m);
      case Retire(id) => outcome := Retire(c, mgr, id, m);
      case WriteRow(id, at, ord, kRow, vRow) =>
        outcome := WriteRowAt(c, mgr, id, at, ord, kRow, vRow, m, Step(c, m, op));
      case WriteSlot(id, ord, convRow, recRow) =>
        outcome := WriteSlotOf(c, mgr, id, ord, convRow, recRow, m, Step(c, m, op));
      case Forward(id, token) =>
        var logits := ForwardTokenWithState(dec, mgr, token, id, mgr.kv.stream);
        outcome := if logits.None? then Failed else Logits(logits.value);
      case _ => outcome := Adjust(c, mgr, op);
    }
  }

  /** From `m` the operation leads to `next` and comes to `outcome`. */
  ghost predicate StepLink(c: Setup, m: Mgr, op: Op, next: Mgr, outcome: Outcome) {
    c.Ok() && Inv(c.d, m) && Step(c, m, op) == (next, outcome)
  }

  /** The operations lead through these states to these outcomes. */
  ghost predicate StepChain(c: Setup, ops: seq<Op>, states: seq<Mgr>, wants: seq<Outcome>) {
    && |states| == |ops| + 1 && |wants| == |ops|
    && forall i | 0 <= i < |ops| :: ChainLink(c, ops, states, wants, i)
  }

  ghost predicate ChainLink(c: Setup, ops: seq<Op>, states: seq<Mgr>, wants: seq<Outcome>, i: nat)
    requires |states| == |ops| + 1 && |wants| == |ops| && i < |ops|
  {
    StepLink(c, states[i], ops[i], states[i + 1], wants[i])
  }

  /** The first operations are done: their outcomes are in, and `m` is where they led. */
  ghost predicate Upto(c: Setup, ops: seq<Op>, states: seq<Mgr>, wants: seq<Outcome>, outcomes: seq<Outcome>, m: Mgr) {
    && StepChain(c, ops, states, wants) && |outcomes| <= |ops|
    && outcomes == wants[..|outcomes|] && m == states[|outcomes|]
  }

  lemma UptoNext(c: Setup, ops: seq<Op>, states: seq<Mgr>, wants: seq<Outcome>, so: seq<Outcome>, m: Mgr)
    requires Upto(c, ops, states, wants, so, m) && |so| < |ops|
    ensures c.Ok() && Inv(c.d, m)
    ensures var (next, outcome) := Step(c, m, ops[|so|]); Upto(c, ops, states, wants, so + [outcome], next)
  {
    assert ChainLink(c, ops, states, wants, |so|);
  }

  method ExecuteAt(dec: Decoder, mgr: StateManager, ops: seq<Op>, so: seq<Outcome>,
                   ghost c: Setup, ghost states: seq<Mgr>, ghost wants: seq<Outcome>)
    returns (outcomes: seq<Outcome>, ghost repr: set<object>)
    requires mgr.Valid() && dec.Suits(mgr) && dec.Admits(mgr, mgr.kv.stream)
    requires c == Layers(dec.net, mgr) && Upto(c, ops, states, wants, so, mgr.Model()) && |so| < |ops|
    modifies mgr.Repr()
    ensures mgr.Valid() && repr == mgr.Repr() && fresh(repr - old(mgr.Repr()))
    ensures |outcomes| == |so| + 1 && Upto(c, ops, states, wants, outcomes, mgr.Model())
  {
    UptoNext(c, ops, states, wants, so, mgr.Model());
    var outcome := Execute(dec, mgr, ops[|so|]);
    outcomes := so + [outcome];
    repr := mgr.Repr();
  }

  /** Any operations in turn, on a manager in the first of the states they lead through. */
  method Drive(dec: Decoder, mgr: StateManager, ops: seq<Op>,
               ghost c: Setup, ghost states: seq<Mgr>, ghost wants: seq<Outcome>)
    returns (outcomes: seq<Outcome>, ghost repr: set<object>)
    requires mgr.Valid() && dec.Suits(mgr) && dec.Admits(mgr, mgr.kv.stream)
    requires c == Layers(dec.net, mgr) && Upto(c, ops, states, wants, [], mgr.Model())
    modifies mgr.Repr()
    ensures mgr.Valid() && repr == mgr.Repr() && fresh(repr - old(mgr.Repr()))
    ensures |outcomes| == |ops| && Upto(c, ops, states, wants, outcomes, mgr.Model())
  {
    outcomes, repr := [], mgr.Repr();
    ghost var was := repr;
    while |outcomes| < |ops|
      invariant mgr.Valid() && repr == mgr.Repr() && fresh(repr - was)
      invariant |outcomes| <= |ops| && Upto(c, ops, states, wants, outcomes, mgr.Model())
    {
      outcomes, repr := ExecuteAt(dec, mgr, ops, outcomes, c, states, wants);
    }
  }

  /** The states of a run, before its first operation and after each. */
  ghost function RunStates(c: Setup, pools: Pools, ops: seq<Op>): (states: seq<Mgr>)
    requires c.Ok()
    ensures |states| == |ops| + 1 && states[0] == FreshMgr(c.d, pools.kvCapacity, pools.deltaCapacity)
    ensures states[|ops|] == Run(c, pools, ops)
    ensures forall i | 0 <= i <= |ops| :: states[i] == Run(c, pools, ops[..i])
  {
    assert ops[..|ops|] == ops;
    seq(|ops| + 1, i requires 0 <= i <= |ops| => Run(c, pools, ops[..i]))
  }

  lemma RunChain(c: Setup, pools: Pools, ops: seq<Op>)
    requires c.Ok()
    ensures StepChain(c, ops, RunStates(c, pools, ops), RunOutcomes(c, pools, ops))
  {
    forall i | 0 <= i < |ops|
      ensures ChainLink(c, ops, RunStates(c, pools, ops), RunOutcomes(c, pools, ops), i)
    {
      RunLink(c, pools, ops, i);
    }
  }

  lemma RunLink(c: Setup, pools: Pools, ops: seq<Op>, i: nat)
    requires c.Ok() && i < |ops|
    ensures StepLink(c, RunStates(c, pools, ops)[i], ops[i], RunStates(c, pools, ops)[i + 1],
                     RunOutcomes(c, pools, ops)[i])
  {
    assert ops[..i + 1] == ops[..i] + [ops[i]];
    RunStep(c, pools, ops[..i], ops[i]);
  }

  lemma RunBounds(c: Setup, pools: Pools, ops: seq<Op>, outcomes: seq<Outcome>, m: Mgr)
    requires c.Ok()
    ensures m == FreshMgr(c.d, pools.kvCapacity, pools.deltaCapacity) ==>
              Upto(c, ops, RunStates(c, pools, ops), RunOutcomes(c, pools, ops), [], m)
    ensures |outcomes| == |ops| && Upto(c, ops, RunStates(c, pools, ops), RunOutcomes(c, pools, ops), outcomes, m) ==>
              m == Run(c, pools, ops) && outcomes == RunOutcomes(c, pools, ops)
  {
    RunChain(c, pools, ops);
  }

  method DriveRun(dec: Decoder, mgr: StateManager, ops: seq<Op>, ghost c: Setup, ghost pools: Pools,
                  ghost before: set<object>)
    returns (outcomes: seq<Outcome>, ghost repr: set<object>)
    requires mgr.Valid() && dec.Suits(mgr) && dec.Admits(mgr, mgr.kv.stream)
    requires c == Layers(dec.net, mgr) && c.Ok() && before == mgr.Repr()
    requires mgr.Model() == FreshMgr(c.d, pools.kvCapacity, pools.deltaCapacity)
    modifies mgr.Repr()
    ensures mgr.Valid() && repr == mgr.Repr() && fresh(repr - before)
    ensures mgr.Model() == Run(c, pools, ops) && outcomes == RunOutcomes(c, pools, ops)
  {
    RunBounds(c, pools, ops, [], mgr.Model());
    outcomes, repr := Drive(dec, mgr, ops, c, RunStates(c, pools, ops), RunOutcomes(c, pools, ops));
    RunBounds(c, pools, ops, outcomes, mgr.Model());
  }

  /** An unused manager for the decoder, with the setup of its layers. */
  method Build(dec: Decoder, pageTokens: nat, pools: Pools, stream: int)
    returns (mgr: StateManager, ghost c: Setup, ghost repr: set<object>)
    requires PoolReady(dec.cfg) && pageTokens >= 1 && dec.loaded && dec.net.Fits(DimsOf(dec.cfg, pageTokens))
    ensures mgr.Valid() && repr == mgr.Repr() && fresh(repr)
    ensures mgr.cfg == dec.cfg && mgr.d == DimsOf(dec.cfg, pageTokens)
    ensures dec.Suits(mgr) && dec.Admits(mgr, mgr.kv.stream) && c == Layers(dec.net, mgr) && c.Ok()
    ensures mgr.Model() == FreshMgr(c.d, pools.kvCapacity, pools.deltaCapacity)
  {
    mgr := new StateManager(dec.cfg, pageTokens, pools.kvCapacity, pools.deltaCapacity, stream);
    SetupOk(dec.net, mgr.cfg, mgr.d);
    c, repr := Layers(dec.net, mgr), mgr.Repr();
  }

  /** A manager built and driven through a whole run: its state is the run's, and every
      call came to what the run says. */
  method ExecuteAll(dec: Decoder, pageTokens: nat, pools: Pools, stream: int, ops: seq<Op>)
    returns (mgr: StateManager, outcomes: seq<Outcome>)
    requires PoolReady(dec.cfg) && pageTokens >= 1 && dec.loaded && dec.net.Fits(DimsOf(dec.cfg, pageTokens))
    ensures mgr.Valid() && fresh(mgr.Repr()) && mgr.cfg == dec.cfg && mgr.d == DimsOf(dec.cfg, pageTokens)
    ensures Layers(dec.net, mgr).Ok() && mgr.Model() == Run(Layers(dec.net, mgr), pools, ops)
    ensures outcomes == RunOutcomes(Layers(dec.net, mgr), pools, ops)
  {
    ghost var c, repr;
    mgr, c, repr := Build(dec, pageTokens, pools, stream);
    outcomes, repr := DriveRun(dec, mgr, ops, c, pools, repr);
  }

  /** A decode batch continues a run by its rows' forwards, and its logits are their
      outcomes; a batch that fails the preflight leaves the run where it was. */
  method ExecuteBatch(dec: Decoder, mgr: StateManager, rows: seq<BatchRow>,
                      ghost c: Setup, ghost pools: Pools, ghost ops: seq<Op>)
    returns (logits: Option<seq<seq<real>>>, ghost after: seq<Op>)
    requires mgr.Valid() && dec.Suits(mgr) && dec.Admits(mgr, mgr.kv.stream)
    requires c == Layers(dec.net, mgr) && c.Ok() && mgr.Model() == Run(c, pools, ops)
    modifies mgr.Repr()
    ensures mgr.Valid() && fresh(mgr.Repr() - old(mgr.Repr()))
    ensures logits.Some? <==>
              && rows != [] && (forall i, j | 0 <= i < j < |rows| :: rows[i].id != rows[j].id)
              && SerialSucceeds(c, Run(c, pools, ops), rows)
    ensures after == if logits.Some? then ops + ForwardOps(rows) else ops
    ensures mgr.Model() == Run(c, pools, after)
    ensures logits.Some? ==> RunOutcomes(c, pools, after)[|ops|..] == AllLogits(logits.value)
  {
    logits := ForwardBatchWithState(dec, mgr, rows, mgr.kv.stream);
    after := ops;
    if logits.Some? {
      SerialIsRun(c, pools, ops, rows);
      SerialAnswers(c, pools, ops, rows);
      after := ops + ForwardOps(rows);
    }
  }
}
