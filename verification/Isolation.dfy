/** The independent reference: a sequence's own steps, run alone on a manager of
    its own, succeed one by one and end in the same view. */
module Isolation {
  import opened ManagerModel
  import opened SequenceViews
  import opened Runs
  import opened Conservation

  function Renamed(op: Op, id: nat): Op
    requires !op.Create?
  {
    op.(id := id)
  }

  /** A private manager: enough pages for one full sequence, and one slot. */
  function Private(c: Setup): Pools
    requires c.d.pageTokens >= 1
  {
    Pools(MaxBlocks(c.d), 1)
  }

  /** One sequence alone, with every page either its own or free. */
  ghost predicate Alone(c: Setup, m: Mgr, s: SeqState) {
    && c.Ok() && Inv(c.d, m) && 1 in m.seqs && Readable(c.d, m, 1)
    && SeqView(c.d, m, 1) == s
    && |m.kv.ids.free| + |m.seqs[1].pages| == MaxBlocks(c.d)
  }

  lemma AloneAtFirst(c: Setup)
    requires c.Ok()
    ensures Succeeds(c, Run(c, Private(c), []), Create)
    ensures Alone(c, Run(c, Private(c), [Create]), FreshSeq(c.d))
  {
    var m := Run(c, Private(c), []);
    RunStep(c, Private(c), [], Create);
    assert [] + [Create] == [Create];
    AfterInv(c, m, Create);
    CreatedView(c.d, m);
  }

  /** What a sequence accepts by itself, a private manager never refuses. */
  lemma AloneStep(c: Setup, m: Mgr, s: SeqState, op: Op)
    requires Alone(c, m, s) && !op.Create? && !op.Retire? && SoloAccepts(c, s, op)
    ensures Succeeds(c, m, Renamed(op, 1))
    ensures Alone(c, After(c, m, Renamed(op, 1)), SoloStep(c, s, op))
  {
    var mine := Renamed(op, 1);
    EnoughPages(c, m, s, op);
    SuccessIsLocal(c, m, mine);
    AfterInv(c, m, mine);
    AfterOwn(c, m, mine);
    StepMoves(c, m, mine);
    SameSoloStep(c, s, op);
  }

  lemma SameSoloStep(c: Setup, s: SeqState, op: Op)
    requires c.d.pageTokens >= 1 && SeqShape(c.d, s) && !op.Create?
    ensures SoloStep(c, s, Renamed(op, 1)) == SoloStep(c, s, op)
  {
  }

  lemma EnoughPages(c: Setup, m: Mgr, s: SeqState, op: Op)
    requires Alone(c, m, s) && SoloAccepts(c, s, op)
    ensures PagesWanted(c, s, op) <= |m.kv.ids.free|
  {
    if op.Ensure? {
      BlocksBound(c.d, s.blocks, op.position);
    } else if op.Forward? {
      BlocksBound(c.d, s.blocks, s.length);
    }
  }

  /** The sequence's own history under the private manager's id. */
  function PrivateOps(history: seq<Op>): (ops: seq<Op>)
    requires NoCreate(history)
    ensures |ops| == |history| + 1
  {
    [Create] + seq(|history|, i requires 0 <= i < |history| => Renamed(history[i], 1))
  }

  predicate NoCreate(history: seq<Op>) {
    forall i | 0 <= i < |history| :: !history[i].Create?
  }

  lemma PrivateOpsStep(h: seq<Op>, op: Op)
    requires NoCreate(h) && !op.Create?
    ensures NoCreate(h + [op]) && PrivateOps(h + [op]) == PrivateOps(h) + [Renamed(op, 1)]
  {
  }

  /** No step of the run failed. */
  ghost predicate NeverFails(c: Setup, pools: Pools, ops: seq<Op>)
    requires c.Ok()
  {
    ops == [] ||
    (NeverFails(c, pools, ops[..|ops| - 1]) && Succeeds(c, Run(c, pools, ops[..|ops| - 1]), ops[|ops| - 1]))
  }

  lemma NeverFailsExtend(c: Setup, pools: Pools, ops: seq<Op>, op: Op)
    requires c.Ok() && NeverFails(c, pools, ops) && Succeeds(c, Run(c, pools, ops), op)
    ensures NeverFails(c, pools, ops + [op])
  {
    assert (ops + [op])[..|ops|] == ops;
  }

  /** Histories hold no create. */
  lemma {:induction false} HistoryShape(c: Setup, pools: Pools, ops: seq<Op>, id: nat)
    requires c.Ok()
    ensures NoCreate(History(c, pools, ops, id))
  {
    if ops != [] {
      HistoryShape(c, pools, ops[..|ops| - 1], id);
    }
  }

  /** The history, run alone, never fails and ends in the state of its private replay. */
  ghost predicate RunsAlone(c: Setup, h: seq<Op>) {
    && c.Ok() && NoCreate(h) && NeverFails(c, Private(c), PrivateOps(h))
    && Alone(c, Run(c, Private(c), PrivateOps(h)), Replay(c, h))
  }

  lemma RunsAloneAtFirst(c: Setup)
    requires c.Ok()
    ensures RunsAlone(c, [])
  {
    AloneAtFirst(c);
    NeverFailsExtend(c, Private(c), [], Create);
    assert PrivateOps([]) == [] + [Create];
  }

  lemma RunsAloneStep(c: Setup, h: seq<Op>, op: Op)
    requires RunsAlone(c, h) && !op.Create? && !op.Retire? && SoloAccepts(c, Replay(c, h), op)
    ensures RunsAlone(c, h + [op])
  {
    AloneStep(c, Run(c, Private(c), PrivateOps(h)), Replay(c, h), op);
    PrivateOpsStep(h, op);
    RunStep(c, Private(c), PrivateOps(h), Renamed(op, 1));
    NeverFailsExtend(c, Private(c), PrivateOps(h), Renamed(op, 1));
    assert (h + [op])[..|h|] == h;
  }

  lemma {:induction false} HistoryRunsAlone(c: Setup, pools: Pools, ops: seq<Op>, id: nat)
    requires c.Ok() && id in Run(c, pools, ops).seqs
    ensures RunsAlone(c, History(c, pools, ops, id))
  {
    if ops != [] {
      var before, op := ops[..|ops| - 1], ops[|ops| - 1];
      var was := Run(c, pools, before);
      if Succeeds(c, was, op) {
        AfterIds(c, was, op);
      }
      if id in was.seqs {
        HistoryRunsAlone(c, pools, before, id);
        if Succeeds(c, was, op) && !op.Create? && op.id == id {
          InterleavingParity(c, pools, before, id);
          SuccessIsLocal(c, was, op);
          RunsAloneStep(c, History(c, pools, before, id), op);
        }
      } else {
        NoHistoryBeforeIssue(c, pools, before, id);
        RunsAloneAtFirst(c);
      }
    }
  }

  /** Interleaved or alone, the same steps give the same view: nothing another
      sequence did, and no failure in between, can be observed. */
  lemma IsolatedReference(c: Setup, pools: Pools, ops: seq<Op>, id: nat)
    requires c.Ok()
    ensures NoCreate(History(c, pools, ops, id))
    ensures id in Run(c, pools, ops).seqs ==>
              && Readable(c.d, Run(c, pools, ops), id)
              && NeverFails(c, Private(c), PrivateOps(History(c, pools, ops, id)))
              && Alone(c, Run(c, Private(c), PrivateOps(History(c, pools, ops, id))),
                       SeqView(c.d, Run(c, pools, ops), id))
  {
    HistoryShape(c, pools, ops, id);
    if id in Run(c, pools, ops).seqs {
      InterleavingParity(c, pools, ops, id);
      HistoryRunsAlone(c, pools, ops, id);
    }
  }

  // ----- step by step -------------------------------------------------------

  /** One step of the interleaved run and the same step of the private one come to the
      same: the forward's logits, or plain success. */
  lemma SameOutcome(c: Setup, m: Mgr, op: Op, h: seq<Op>)
    requires c.Ok() && Inv(c.d, m) && !op.Create? && Succeeds(c, m, op)
    requires RunsAlone(c, h) && Readable(c.d, m, op.id) && SeqView(c.d, m, op.id) == Replay(c, h)
    ensures Succeeds(c, Run(c, Private(c), PrivateOps(h)), Renamed(op, 1))
    ensures Step(c, Run(c, Private(c), PrivateOps(h)), Renamed(op, 1)).1 == Step(c, m, op).1
  {
    SuccessIsLocal(c, m, op);
    var alone := Run(c, Private(c), PrivateOps(h));
    if !op.Retire? {
      AloneStep(c, alone, Replay(c, h), op);
    }
    if op.Forward? {
      ForwardOutIsSolo(c, m, op.id, op.token);
      ForwardOutIsSolo(c, alone, 1, op.token);
    }
  }

  lemma {:induction false} HistoryGrows(c: Setup, pools: Pools, ops: seq<Op>, i: nat, id: nat)
    requires c.Ok() && i <= |ops|
    ensures History(c, pools, ops[..i], id) <= History(c, pools, ops, id)
  {
    if i == |ops| {
      assert ops[..i] == ops;
    } else {
      var before := ops[..|ops| - 1];
      HistoryGrows(c, pools, before, i, id);
      assert before[..i] == ops[..i];
    }
  }

  lemma PrivatePrefix(h: seq<Op>, op: Op, full: seq<Op>)
    requires NoCreate(h) && NoCreate(full) && !op.Create? && h + [op] <= full
    ensures |h| + 1 < |PrivateOps(full)| && PrivateOps(full)[|h| + 1] == Renamed(op, 1)
    ensures PrivateOps(full)[..|h| + 1] == PrivateOps(h)
  {
    assert full[|h|] == op;
    assert forall i | 0 <= i < |h| :: full[i] == h[i];
  }

  lemma StepKept(c: Setup, pools: Pools, before: seq<Op>, op: Op, ops: seq<Op>)
    requires c.Ok() && before + [op] <= ops && !op.Create? && Succeeds(c, Run(c, pools, before), op)
    ensures History(c, pools, before, op.id) + [op] <= History(c, pools, ops, op.id)
  {
    assert ops[..|before| + 1] == before + [op];
    HistoryGrows(c, pools, ops, |before| + 1, op.id);
    HistoryStep(c, pools, before, op, op.id);
  }

  /** What a successful step comes to, its sequence finds out in the private run. */
  lemma PrivateOutcome(c: Setup, pools: Pools, before: seq<Op>, op: Op, h: seq<Op>, outcome: Outcome)
    requires c.Ok() && !op.Create? && Succeeds(c, Run(c, pools, before), op) && h == History(c, pools, before, op.id)
    requires outcome == Step(c, Run(c, pools, before), op).1
    ensures NoCreate(h) && Step(c, Run(c, Private(c), PrivateOps(h)), Renamed(op, 1)).1 == outcome
  {
    InterleavingParity(c, pools, before, op.id);
    HistoryRunsAlone(c, pools, before, op.id);
    SameOutcome(c, Run(c, pools, before), op, h);
  }

  lemma PlacedOutcome(c: Setup, h: seq<Op>, op: Op, full: seq<Op>, outcome: Outcome)
    requires c.Ok() && NoCreate(h) && NoCreate(full) && !op.Create? && h + [op] <= full
    requires Step(c, Run(c, Private(c), PrivateOps(h)), Renamed(op, 1)).1 == outcome
    ensures |h| + 1 < |PrivateOps(full)| && PrivateOps(full)[|h| + 1] == Renamed(op, 1)
    ensures OutcomeOf(c, Private(c), PrivateOps(full), |h| + 1) == outcome
  {
    PrivatePrefix(h, op, full);
  }

  lemma OutcomeKept(c: Setup, pools: Pools, before: seq<Op>, op: Op, ops: seq<Op>, outcome: Outcome)
    requires c.Ok() && before + [op] <= ops && !op.Create? && outcome == Step(c, Run(c, pools, before), op).1
    ensures NoCreate(History(c, pools, before, op.id)) && NoCreate(History(c, pools, ops, op.id))
    ensures var reference, k := PrivateOps(History(c, pools, ops, op.id)), |History(c, pools, before, op.id)| + 1;
            outcome != Failed ==>
              && k < |reference| && reference[k] == Renamed(op, 1)
              && OutcomeOf(c, Private(c), reference, k) == outcome
  {
    var h, full := History(c, pools, before, op.id), History(c, pools, ops, op.id);
    HistoryShape(c, pools, before, op.id);
    HistoryShape(c, pools, ops, op.id);
    if outcome != Failed {
      StepKept(c, pools, before, op, ops);
      PrivateOutcome(c, pools, before, op, h, outcome);
      PlacedOutcome(c, h, op, full, outcome);
    }
  }

  /** The independent reference, step by step: every successful step of a sequence is a
      step of the private run, at its place, and comes to the same there. A forward's
      logits are those the sequence computes alone. */
  lemma IsolatedOutcome(c: Setup, pools: Pools, ops: seq<Op>, i: nat)
    requires c.Ok() && i < |ops| && !ops[i].Create?
    ensures NoCreate(History(c, pools, ops[..i], ops[i].id)) && NoCreate(History(c, pools, ops, ops[i].id))
    ensures var reference := PrivateOps(History(c, pools, ops, ops[i].id));
            var k := |History(c, pools, ops[..i], ops[i].id)| + 1;
            OutcomeOf(c, pools, ops, i) != Failed ==>
              && k < |reference| && reference[k] == Renamed(ops[i], 1)
              && OutcomeOf(c, Private(c), reference, k) == OutcomeOf(c, pools, ops, i)
  {
    OutcomeKept(c, pools, ops[..i], ops[i], ops, OutcomeOf(c, pools, ops, i));
  }
}
