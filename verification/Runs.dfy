/** Whole runs of the state manager: any finite interleaving of steps on any number
    of sequences, failures included, and what each sequence can observe of it. */
module Runs {
  import opened Configs
  import opened PageLayout
  import opened KvBlockTables
  import opened ManagerModel
  import opened SequenceViews
  import opened Forwards

  datatype Op =
    | Create
    | Ensure(id: nat, position: int)
    | SetLength(id: nat, newLength: int)
    | Advance(id: nat, n: int)
    | Reset(id: nat)
    | Retire(id: nat)
    | WriteRow(id: nat, at: nat, ord: nat, kRow: seq<Elem>, vRow: seq<Elem>)
    | WriteSlot(id: nat, ord: nat, convRow: Row, recRow: Row)
    | Forward(id: nat, token: int)

  datatype Outcome = Failed | Done | Issued(newId: nat) | Logits(values: seq<real>)

  /** The geometry, the vocabulary, and the layers as one function of the token and
      of what the sequence can see. */
  datatype Setup = Setup(d: Dims, vocab: nat, layers: (nat, SeqState) -> Out) {
    ghost predicate Ok() {
      && d.Positive()
      && forall token: nat, s: SeqState :: OutShape(d, layers(token, s))
    }
  }

  // ----- one sequence on private storage ------------------------------------

  /** Whether the operation itself is acceptable, looking at one sequence alone. */
  predicate SoloAccepts(c: Setup, s: SeqState, op: Op)
    requires c.d.pageTokens >= 1
  {
    match op
    case Create => false
    case Ensure(_, position) => 0 <= position < c.d.maxSeqLen
    case SetLength(_, newLength) => 0 <= newLength <= c.d.maxSeqLen
    case Advance(_, n) => n >= 0 && s.length + n <= c.d.maxSeqLen
    case Reset(_) => true
    case Retire(_) => true
    case WriteRow(_, position, ord, kRow, vRow) =>
      && position < c.d.maxSeqLen && position / c.d.pageTokens < s.blocks
      && ord < c.d.nFull && |kRow| == |vRow| == c.d.nKv * c.d.headDim
    case WriteSlot(_, ord, convRow, recRow) =>
      ord < c.d.nLinear && |convRow| == c.d.convElems && |recRow| == c.d.recElems
    case Forward(_, token) => 0 <= token < c.vocab && s.length < c.d.maxSeqLen
  }

  /** The only thing a sequence ever asks of the others: this many free pages. */
  function PagesWanted(c: Setup, s: SeqState, op: Op): nat
    requires c.d.pageTokens >= 1
  {
    if op.Ensure? && op.position >= 0 then NewBlocks(c.d.pageTokens, s.blocks, op.position)
    else if op.Forward? then NewBlocks(c.d.pageTokens, s.blocks, s.length)
    else 0
  }

  function SoloStep(c: Setup, s: SeqState, op: Op): (r: SeqState)
    requires c.d.pageTokens >= 1 && SeqShape(c.d, s)
    ensures SeqShape(c.d, r)
  {
    if !SoloAccepts(c, s, op) then s
    else match op
      case Create => s
      case Ensure(_, position) => SoloEnsure(c.d, s, position)
      case SetLength(_, newLength) => s.(length := newLength)
      case Advance(_, n) => s.(length := s.length + n)
      case Reset(_) => FreshSeq(c.d)
      case Retire(_) => s
      case WriteRow(_, position, ord, kRow, vRow) => SoloRow(c.d, s, position, ord, kRow, vRow)
      case WriteSlot(_, ord, convRow, recRow) => SoloSlot(s, ord, convRow, recRow)
      case Forward(_, token) =>
        var out := SoloOut(c, s, token);
        if OutShape(c.d, out) then SoloForward(c.d, s, out) else s
  }

  /** What the layers compute for a token, given the sequence's own state. */
  function SoloOut(c: Setup, s: SeqState, token: nat): Out
    requires c.d.pageTokens >= 1
  {
    c.layers(token, SoloEnsure(c.d, s, s.length))
  }

  /** A private replay: fresh storage, then the given operations in order. */
  function Replay(c: Setup, ops: seq<Op>): (s: SeqState)
    requires c.d.pageTokens >= 1
    ensures SeqShape(c.d, s)
  {
    if ops == [] then FreshSeq(c.d) else SoloStep(c, Replay(c, ops[..|ops| - 1]), ops[|ops| - 1])
  }

  // ----- the shared manager -------------------------------------------------

  /** Whether the operation succeeds in the shared state. A raw write outside the
      covered prefix is outside its caller's contract and is not a step. */
  predicate Succeeds(c: Setup, m: Mgr, op: Op)
    requires c.d.pageTokens >= 1
  {
    match op
    case Create => CanCreate(m)
    case Ensure(id, position) => CanEnsureKv(c.d, m, id, position)
    case SetLength(id, newLength) => CanSetLength(c.d, m, id, newLength)
    case Advance(id, n) => CanAdvance(c.d, m, id, n)
    case Reset(id) => id in m.seqs
    case Retire(id) => id in m.seqs
    case WriteRow(id, position, ord, kRow, vRow) =>
      Covered(c.d, m, id, position) && ord < c.d.nFull && |kRow| == |vRow| == c.d.nKv * c.d.headDim
    case WriteSlot(id, ord, convRow, recRow) =>
      id in m.seqs && ord < c.d.nLinear && |convRow| == c.d.convElems && |recRow| == c.d.recElems
    case Forward(id, token) => CanForward(c.d, c.vocab, m, token, id)
  }

  ghost function ForwardOut(c: Setup, m: Mgr, id: nat, token: nat): Out
    requires Inv(c.d, m) && CanForward(c.d, c.vocab, m, token, id)
  {
    EnsuredIsCovered(c.d, m, id, m.seqs[id].length);
    InvReadable(c.d, Ensured(c.d, m, id, m.seqs[id].length), id);
    c.layers(token, SeqView(c.d, Ensured(c.d, m, id, m.seqs[id].length), id))
  }

  ghost function After(c: Setup, m: Mgr, op: Op): Mgr
    requires c.Ok() && Inv(c.d, m) && Succeeds(c, m, op)
  {
    match op
    case Create => Created(m)
    case Ensure(id, position) => Ensured(c.d, m, id, position)
    case SetLength(id, newLength) => LengthSet(m, id, newLength)
    case Advance(id, n) => Advanced(m, id, n)
    case Reset(id) => AlwaysClearable(c.d, m, id); WasReset(c.d, m, id)
    case Retire(id) => AlwaysClearable(c.d, m, id); Retired(c.d, m, id)
    case WriteRow(id, position, ord, kRow, vRow) =>
      InvReadable(c.d, m, id); RowWritten(c.d, m, id, position, ord, kRow, vRow)
    case WriteSlot(id, ord, convRow, recRow) =>
      InvReadable(c.d, m, id); SlotWritten(c.d, m, id, ord, convRow, recRow)
    case Forward(id, token) => Forwarded(c.d, m, id, ForwardOut(c, m, id, token))
  }

  ghost function Step(c: Setup, m: Mgr, op: Op): (r: (Mgr, Outcome))
    requires c.Ok() && Inv(c.d, m)
  {
    if !Succeeds(c, m, op) then (m, Failed)
    else
      var outcome := match op
        case Create => Issued(m.nextId)
        case Forward(id, token) => Logits(ForwardOut(c, m, id, token).logits)
        case _ => Done;
      (After(c, m, op), outcome)
  }

  /** The ownership partition, zeroed free storage and exact free lists survive
      every operation. */
  lemma AfterInv(c: Setup, m: Mgr, op: Op)
    requires c.Ok() && Inv(c.d, m) && Succeeds(c, m, op)
    ensures Inv(c.d, After(c, m, op))
  {
    if op.WriteRow? || op.WriteSlot? || op.Forward? {
      AfterWriteInv(c, m, op);
    } else if op.Reset? || op.Retire? {
      AfterReleaseInv(c, m, op);
    } else {
      AfterRecordInv(c, m, op);
    }
  }

  lemma AfterRecordInv(c: Setup, m: Mgr, op: Op)
    requires c.Ok() && Inv(c.d, m) && Succeeds(c, m, op)
    requires op.Create? || op.Ensure? || op.SetLength? || op.Advance?
    ensures Inv(c.d, After(c, m, op))
  {
    match op
    case Create => CreatedInv(c.d, m);
    case Ensure(id, position) => EnsuredInv(c.d, m, id, position);
    case SetLength(id, newLength) => LengthSetInv(c.d, m, id, newLength);
    case Advance(id, n) => AdvancedInv(c.d, m, id, n);
  }

  lemma AfterReleaseInv(c: Setup, m: Mgr, op: Op)
    requires c.Ok() && Inv(c.d, m) && Succeeds(c, m, op) && (op.Reset? || op.Retire?)
    ensures Inv(c.d, After(c, m, op))
  {
    match op
    case Reset(id) => WasResetInv(c.d, m, id);
    case Retire(id) => RetiredInv(c.d, m, id);
  }

  lemma AfterWriteInv(c: Setup, m: Mgr, op: Op)
    requires c.Ok() && Inv(c.d, m) && Succeeds(c, m, op)
    requires op.WriteRow? || op.WriteSlot? || op.Forward?
    ensures Inv(c.d, After(c, m, op))
  {
    match op
    case WriteRow(id, at, ord, kRow, vRow) => RowWrittenInv(c.d, m, id, at, ord, kRow, vRow);
    case WriteSlot(id, ord, convRow, recRow) => SlotWrittenInv(c.d, m, id, ord, convRow, recRow);
    case Forward(id, token) => ForwardedInv(c.d, m, id, ForwardOut(c, m, id, token));
  }

  // ----- one step, seen by the sequence it names and by all others ----------

  /** Shared success is private acceptance plus enough free pages, nothing else. */
  lemma SuccessIsLocal(c: Setup, m: Mgr, op: Op)
    requires c.Ok() && Inv(c.d, m) && !op.Create? && op.id in m.seqs
    ensures Readable(c.d, m, op.id)
    ensures var s := SeqView(c.d, m, op.id);
            Succeeds(c, m, op) <==> SoloAccepts(c, s, op) && PagesWanted(c, s, op) <= |m.kv.ids.free|
  {
    InvReadable(c.d, m, op.id);
  }

  /** When each operation succeeds, on the records and the free lists. */
  lemma SuccessExact(c: Setup, m: Mgr, op: Op)
    requires c.d.pageTokens >= 1
    ensures Succeeds(c, m, op) <==>
      match op
      case Create => m.delta.ids.free != []
      case Ensure(id, position) =>
        && id in m.seqs && 0 <= position < c.d.maxSeqLen
        && position / c.d.pageTokens + 1 - |m.seqs[id].pages| <= |m.kv.ids.free|
      case SetLength(id, newLength) => id in m.seqs && 0 <= newLength <= c.d.maxSeqLen
      case Advance(id, n) => id in m.seqs && 0 <= n <= c.d.maxSeqLen - m.seqs[id].length
      case Reset(id) => id in m.seqs
      case Retire(id) => id in m.seqs
      case WriteRow(id, at, ord, kRow, vRow) =>
        && id in m.seqs && at < c.d.maxSeqLen && at / c.d.pageTokens < |m.seqs[id].pages|
        && ord < c.d.nFull && |kRow| == |vRow| == c.d.nKv * c.d.headDim
      case WriteSlot(id, ord, convRow, recRow) =>
        id in m.seqs && ord < c.d.nLinear && |convRow| == c.d.convElems && |recRow| == c.d.recElems
      case Forward(id, token) =>
        && 0 <= token < c.vocab && id in m.seqs && m.seqs[id].length < c.d.maxSeqLen
        && m.seqs[id].length / c.d.pageTokens + 1 - |m.seqs[id].pages| <= |m.kv.ids.free|
  {
  }

  lemma AfterOwn(c: Setup, m: Mgr, op: Op)
    requires c.Ok() && Inv(c.d, m) && !op.Create? && !op.Retire? && Succeeds(c, m, op)
    ensures Readable(c.d, m, op.id) && Readable(c.d, After(c, m, op), op.id)
    ensures SeqView(c.d, After(c, m, op), op.id) == SoloStep(c, SeqView(c.d, m, op.id), op)
  {
    InvReadable(c.d, m, op.id);
    SuccessIsLocal(c, m, op);
    match op
    case Ensure(id, position) => EnsuredView(c.d, m, id, position);
    case SetLength(id, newLength) => LengthSetView(c.d, m, id, newLength, id);
    case Advance(id, n) => LengthSetView(c.d, m, id, m.seqs[id].length + n, id);
    case Reset(id) => WasResetView(c.d, m, id);
    case WriteRow(id, at, ord, kRow, vRow) => RowWrittenView(c.d, m, id, at, ord, kRow, vRow);
    case WriteSlot(id, ord, convRow, recRow) => SlotWrittenView(c.d, m, id, ord, convRow, recRow, id);
    case Forward(id, token) =>
      ForwardOutIsSolo(c, m, id, token);
      ForwardedView(c.d, m, id, ForwardOut(c, m, id, token));
  }

  /** The layers are fed the sequence's own state and nothing of anyone else's. */
  lemma ForwardOutIsSolo(c: Setup, m: Mgr, id: nat, token: nat)
    requires c.Ok() && Inv(c.d, m) && CanForward(c.d, c.vocab, m, token, id)
    ensures Readable(c.d, m, id)
    ensures ForwardOut(c, m, id, token) == SoloOut(c, SeqView(c.d, m, id), token)
  {
    EnsuredView(c.d, m, id, m.seqs[id].length);
  }

  lemma AfterOther(c: Setup, m: Mgr, op: Op, other: nat)
    requires c.Ok() && Inv(c.d, m) && Succeeds(c, m, op) && other in m.seqs
    requires op.Create? || op.id != other
    ensures Readable(c.d, m, other) && Readable(c.d, After(c, m, op), other)
    ensures SeqView(c.d, After(c, m, op), other) == SeqView(c.d, m, other)
  {
    InvReadable(c.d, m, other);
    match op
    case Create => CreatedOther(c.d, m, other);
    case Ensure(id, position) => EnsuredOther(c.d, m, id, position, other);
    case SetLength(id, newLength) =>
      InvReadable(c.d, m, id);
      LengthSetView(c.d, m, id, newLength, other);
    case Advance(id, n) =>
      InvReadable(c.d, m, id);
      LengthSetView(c.d, m, id, m.seqs[id].length + n, other);
    case Reset(id) => WasResetOther(c.d, m, id, other);
    case Retire(id) => RetiredOther(c.d, m, id, other);
    case WriteRow(id, at, ord, kRow, vRow) => RowWrittenOther(c.d, m, id, at, ord, kRow, vRow, other);
    case WriteSlot(id, ord, convRow, recRow) => SlotWrittenView(c.d, m, id, ord, convRow, recRow, other);
    case Forward(id, token) => ForwardedOther(c.d, m, id, ForwardOut(c, m, id, token), other);
  }

  /** Only create adds an id, always the next one; only retire removes one. */
  lemma AfterIds(c: Setup, m: Mgr, op: Op)
    requires c.Ok() && Inv(c.d, m) && Succeeds(c, m, op)
    ensures After(c, m, op).nextId == m.nextId + if op.Create? then 1 else 0
    ensures After(c, m, op).seqs.Keys ==
            if op.Create? then m.seqs.Keys + {m.nextId}
            else if op.Retire? then m.seqs.Keys - {op.id}
            else m.seqs.Keys
  {
    if op.Forward? {
      ForwardedInv(c.d, m, op.id, ForwardOut(c, m, op.id, op.token));
    }
  }

  // ----- whole runs ---------------------------------------------------------

  datatype Pools = Pools(kvCapacity: nat, deltaCapacity: nat)

  /** The manager after the operations, from empty pools of the given capacities. */
  ghost function Run(c: Setup, pools: Pools, ops: seq<Op>): (m: Mgr)
    requires c.Ok()
    ensures Inv(c.d, m)
  {
    if ops == [] then
      FreshMgrInv(c.d, pools.kvCapacity, pools.deltaCapacity);
      FreshMgr(c.d, pools.kvCapacity, pools.deltaCapacity)
    else
      var before, op := Run(c, pools, ops[..|ops| - 1]), ops[|ops| - 1];
      if Succeeds(c, before, op) then
        AfterInv(c, before, op);
        After(c, before, op)
      else before
  }

  ghost function OutcomeOf(c: Setup, pools: Pools, ops: seq<Op>, i: nat): Outcome
    requires c.Ok() && i < |ops|
  {
    Step(c, Run(c, pools, ops[..i]), ops[i]).1
  }

  /** What every operation of a run comes to. */
  ghost function RunOutcomes(c: Setup, pools: Pools, ops: seq<Op>): (outcomes: seq<Outcome>)
    requires c.Ok()
    ensures |outcomes| == |ops|
    ensures forall i | 0 <= i < |ops| :: outcomes[i] == OutcomeOf(c, pools, ops, i)
  {
    seq(|ops|, i requires 0 <= i < |ops| => OutcomeOf(c, pools, ops, i))
  }

  /** The successful steps of one sequence, in order. */
  ghost function History(c: Setup, pools: Pools, ops: seq<Op>, id: nat): seq<Op>
    requires c.Ok()
  {
    if ops == [] then []
    else
      var before, op := ops[..|ops| - 1], ops[|ops| - 1];
      if !op.Create? && op.id == id && Succeeds(c, Run(c, pools, before), op)
      then History(c, pools, before, id) + [op]
      else History(c, pools, before, id)
  }

  lemma HistoryStep(c: Setup, pools: Pools, ops: seq<Op>, op: Op, id: nat)
    requires c.Ok()
    ensures History(c, pools, ops + [op], id) ==
            if !op.Create? && op.id == id && Succeeds(c, Run(c, pools, ops), op)
            then History(c, pools, ops, id) + [op] else History(c, pools, ops, id)
  {
    assert (ops + [op])[..|ops|] == ops;
  }

  /** Operations on other sequences leave a sequence's history alone. */
  lemma {:induction false} HistoryOthers(c: Setup, pools: Pools, ops: seq<Op>, more: seq<Op>, id: nat)
    requires c.Ok() && forall i | 0 <= i < |more| :: more[i].Create? || more[i].id != id
    ensures History(c, pools, ops + more, id) == History(c, pools, ops, id)
  {
    if more == [] {
      assert ops + more == ops;
    } else {
      var most, last := more[..|more| - 1], more[|more| - 1];
      HistoryOthers(c, pools, ops, most, id);
      HistoryStep(c, pools, ops + most, last, id);
      assert ops + more == ops + most + [last];
    }
  }

  /** An id that was not issued yet has no history. */
  lemma {:induction false} NoHistoryBeforeIssue(c: Setup, pools: Pools, ops: seq<Op>, id: nat)
    requires c.Ok() && id >= Run(c, pools, ops).nextId
    ensures History(c, pools, ops, id) == [] && id !in Run(c, pools, ops).seqs
  {
    if ops != [] {
      var before, op := ops[..|ops| - 1], ops[|ops| - 1];
      var m := Run(c, pools, before);
      if Succeeds(c, m, op) {
        AfterIds(c, m, op);
      }
      NoHistoryBeforeIssue(c, pools, before, id);
    }
  }

  /** Interleaving parity: whatever the other sequences do, and whatever fails, a
      live sequence sees exactly what replaying its own successful steps on private
      storage produces. */
  lemma {:induction false} InterleavingParity(c: Setup, pools: Pools, ops: seq<Op>, id: nat)
    requires c.Ok()
    ensures id in Run(c, pools, ops).seqs ==>
              && Readable(c.d, Run(c, pools, ops), id)
              && SeqView(c.d, Run(c, pools, ops), id) == Replay(c, History(c, pools, ops, id))
  {
    if ops != [] && id in Run(c, pools, ops).seqs {
      InvReadable(c.d, Run(c, pools, ops), id);
      var before, op := ops[..|ops| - 1], ops[|ops| - 1];
      var was := Run(c, pools, before);
      if !Succeeds(c, was, op) {
        InterleavingParity(c, pools, before, id);
      } else {
        AfterIds(c, was, op);
        if op.Create? && id == was.nextId {
          NoHistoryBeforeIssue(c, pools, before, id);
          CreatedView(c.d, was);
        } else {
          InterleavingParity(c, pools, before, id);
          ParityStep(c, was, op, id, History(c, pools, before, id));
        }
      }
    }
  }

  lemma ParityStep(c: Setup, m: Mgr, op: Op, id: nat, history: seq<Op>)
    requires c.Ok() && Inv(c.d, m) && Succeeds(c, m, op) && id in m.seqs
    requires op.Retire? ==> op.id != id
    requires Readable(c.d, m, id) && SeqView(c.d, m, id) == Replay(c, history)
    ensures Readable(c.d, After(c, m, op), id)
    ensures SeqView(c.d, After(c, m, op), id) ==
            Replay(c, if !op.Create? && op.id == id then history + [op] else history)
  {
    if !op.Create? && op.id == id {
      AfterOwn(c, m, op);
      assert (history + [op])[..|history|] == history;
    } else {
      AfterOther(c, m, op, id);
    }
  }

  /** Every successful forward returns the logits of the private replay. */
  lemma LogitsParity(c: Setup, pools: Pools, ops: seq<Op>, i: nat)
    requires c.Ok() && i < |ops| && ops[i].Forward?
    ensures OutcomeOf(c, pools, ops, i) != Failed ==>
              OutcomeOf(c, pools, ops, i) ==
              Logits(SoloOut(c, Replay(c, History(c, pools, ops[..i], ops[i].id)), ops[i].token).logits)
  {
    var m := Run(c, pools, ops[..i]);
    if Succeeds(c, m, ops[i]) {
      InterleavingParity(c, pools, ops[..i], ops[i].id);
      ForwardOutIsSolo(c, m, ops[i].id, ops[i].token);
    }
  }

  lemma RunStep(c: Setup, pools: Pools, ops: seq<Op>, op: Op)
    requires c.Ok()
    ensures var m := Run(c, pools, ops);
            Run(c, pools, ops + [op]) == if Succeeds(c, m, op) then After(c, m, op) else m
  {
    assert (ops + [op])[..|ops|] == ops;
  }

  /** Ids only grow, and an id that is gone stays gone. */
  ghost predicate NoRevival(m: Mgr, later: Mgr) {
    && m.nextId <= later.nextId
    && forall id | 0 <= id < m.nextId && id !in m.seqs :: id !in later.seqs
  }

  lemma NoRevivalStep(c: Setup, pools: Pools, ops: seq<Op>, op: Op)
    requires c.Ok()
    ensures NoRevival(Run(c, pools, ops), Run(c, pools, ops + [op]))
  {
    RunStep(c, pools, ops, op);
    if Succeeds(c, Run(c, pools, ops), op) {
      AfterIds(c, Run(c, pools, ops), op);
    }
  }

  lemma NoRevivalTrans(a: Mgr, b: Mgr, c: Mgr)
    requires NoRevival(a, b) && NoRevival(b, c)
    ensures NoRevival(a, c)
  {
  }

  /** A retired id is absent in every later state of the run. */
  lemma {:induction false} RetiredForever(c: Setup, pools: Pools, ops: seq<Op>, more: seq<Op>)
    requires c.Ok()
    ensures NoRevival(Run(c, pools, ops), Run(c, pools, ops + more))
    decreases |more|
  {
    if more == [] {
      assert ops + more == ops;
    } else {
      var next := ops + [more[0]];
      assert ops + more == next + more[1..];
      NoRevivalStep(c, pools, ops, more[0]);
      RetiredForever(c, pools, next, more[1..]);
      NoRevivalTrans(Run(c, pools, ops), Run(c, pools, next), Run(c, pools, ops + more));
    }
  }

  lemma IssuedIsNext(c: Setup, pools: Pools, ops: seq<Op>, i: nat)
    requires c.Ok() && i < |ops| && OutcomeOf(c, pools, ops, i).Issued?
    ensures OutcomeOf(c, pools, ops, i).newId == Run(c, pools, ops[..i]).nextId
    ensures Run(c, pools, ops[..i + 1]).nextId == Run(c, pools, ops[..i]).nextId + 1
  {
    assert ops[..i + 1][..i] == ops[..i];
    AfterIds(c, Run(c, pools, ops[..i]), ops[i]);
  }

  lemma NextIdGrows(c: Setup, pools: Pools, ops: seq<Op>, i: nat, j: nat)
    requires c.Ok() && i <= j <= |ops|
    ensures Run(c, pools, ops[..i]).nextId <= Run(c, pools, ops[..j]).nextId
  {
    assert ops[..j] == ops[..i] + ops[i..j];
    RetiredForever(c, pools, ops[..i], ops[i..j]);
  }

  /** No id is ever issued twice. */
  lemma IssuedOnce(c: Setup, pools: Pools, ops: seq<Op>, i: nat, j: nat)
    requires c.Ok() && i < j < |ops|
    ensures OutcomeOf(c, pools, ops, i).Issued? && OutcomeOf(c, pools, ops, j).Issued? ==>
              OutcomeOf(c, pools, ops, i).newId < OutcomeOf(c, pools, ops, j).newId
  {
    if OutcomeOf(c, pools, ops, i).Issued? && OutcomeOf(c, pools, ops, j).Issued? {
      IssuedIsNext(c, pools, ops, i);
      IssuedIsNext(c, pools, ops, j);
      NextIdGrows(c, pools, ops, i + 1, j);
    }
  }

  /** A create with a free slot adds the next id and takes one slot. */
  lemma CreateAdds(c: Setup, pools: Pools, ops: seq<Op>)
    requires c.Ok() && Run(c, pools, ops).delta.ids.free != []
    ensures var m, after := Run(c, pools, ops), Run(c, pools, ops + [Create]);
            && after.seqs.Keys == m.seqs.Keys + {m.nextId} && after.nextId == m.nextId + 1
            && |after.delta.ids.free| == |m.delta.ids.free| - 1
  {
    RunStep(c, pools, ops, Create);
    AfterIds(c, Run(c, pools, ops), Create);
  }

  lemma RetireDrops(c: Setup, pools: Pools, ops: seq<Op>, id: nat)
    requires c.Ok() && id in Run(c, pools, ops).seqs
    ensures Run(c, pools, ops + [Retire(id)]).seqs.Keys == Run(c, pools, ops).seqs.Keys - {id}
  {
    RunStep(c, pools, ops, Retire(id));
    AfterIds(c, Run(c, pools, ops), Retire(id));
  }

  lemma CreateTwice(c: Setup, pools: Pools)
    requires c.Ok() && pools.deltaCapacity >= 2
    ensures Run(c, pools, [Create] + [Create]).seqs.Keys == {1, 2}
  {
    var none: seq<Op> := [];
    assert Run(c, pools, none) == FreshMgr(c.d, pools.kvCapacity, pools.deltaCapacity);
    CreateAdds(c, pools, none);
    assert none + [Create] == [Create];
    CreateAdds(c, pools, [Create]);
  }

  /** The theorems speak of real runs: with two slots, two creates leave two live
      sequences, and retiring the first leaves the second. */
  lemma TwoLive(c: Setup, pools: Pools)
    requires c.Ok() && pools.deltaCapacity >= 2
    ensures Run(c, pools, [Create] + [Create]).seqs.Keys == {1, 2}
    ensures Run(c, pools, [Create] + [Create] + [Retire(1)]).seqs.Keys == {2}
  {
    CreateTwice(c, pools);
    RetireDrops(c, pools, [Create] + [Create], 1);
  }
}
