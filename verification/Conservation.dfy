/** Nothing is lost and nothing is made: in every reachable state each page is in one
    live sequence's table or free, each slot belongs to one live sequence or is free,
    and the two add up to the pools' capacities, in ids and in bytes. */
module Conservation {
  import opened Configs
  import opened FixedIdPools
  import opened ManagerModel
  import opened Runs

  function PagesOf(seqs: Records, id: nat): nat {
    if id in seqs then |seqs[id].pages| else 0
  }

  function SlotOf(seqs: Records, id: nat): nat {
    if id in seqs then 1 else 0
  }

  /** The pages in the tables of the sequences with ids below n. */
  function PagesHeld(seqs: Records, n: nat): nat {
    if n == 0 then 0 else PagesHeld(seqs, n - 1) + PagesOf(seqs, n - 1)
  }

  /** How many sequences with ids below n are live, each with its one slot. */
  function SlotsHeld(seqs: Records, n: nat): nat {
    if n == 0 then 0 else SlotsHeld(seqs, n - 1) + SlotOf(seqs, n - 1)
  }

  ghost predicate SameHolding(seqs: Records, after: Records, id: nat) {
    PagesOf(after, id) == PagesOf(seqs, id) && SlotOf(after, id) == SlotOf(seqs, id)
  }

  lemma {:induction false} HeldSame(seqs: Records, after: Records, n: nat)
    requires forall i | 0 <= i < n :: SameHolding(seqs, after, i)
    ensures PagesHeld(after, n) == PagesHeld(seqs, n) && SlotsHeld(after, n) == SlotsHeld(seqs, n)
  {
    if n > 0 {
      HeldSame(seqs, after, n - 1);
      assert SameHolding(seqs, after, n - 1);
    }
  }

  /** When one sequence alone gains or gives up, the sums move by just that. */
  lemma {:induction false} HeldBut(seqs: Records, after: Records, n: nat, id: nat)
    requires id < n && forall i | 0 <= i < n && i != id :: SameHolding(seqs, after, i)
    ensures PagesHeld(after, n) + PagesOf(seqs, id) == PagesHeld(seqs, n) + PagesOf(after, id)
    ensures SlotsHeld(after, n) + SlotOf(seqs, id) == SlotsHeld(seqs, n) + SlotOf(after, id)
  {
    if id == n - 1 {
      HeldSame(seqs, after, n - 1);
    } else {
      HeldBut(seqs, after, n - 1, id);
      assert SameHolding(seqs, after, n - 1);
    }
  }

  lemma {:induction false} HeldBeyond(seqs: Records, n: nat, more: nat)
    requires n <= more && forall i | i in seqs :: i < n
    ensures PagesHeld(seqs, more) == PagesHeld(seqs, n) && SlotsHeld(seqs, more) == SlotsHeld(seqs, n)
  {
    if n < more {
      HeldBeyond(seqs, n, more - 1);
    }
  }

  function Below(seqs: Records, n: nat): set<nat> {
    set i | i in seqs.Keys && i < n
  }

  lemma {:induction false} SlotsHeldCount(seqs: Records, n: nat)
    ensures SlotsHeld(seqs, n) == |Below(seqs, n)|
  {
    if n > 0 {
      SlotsHeldCount(seqs, n - 1);
      assert Below(seqs, n) == Below(seqs, n - 1) + if n - 1 in seqs then {n - 1} else {};
    }
  }

  /** One step moves pages and slots between the free lists and one sequence only. */
  ghost predicate Moves(m: Mgr, after: Mgr, id: nat) {
    && |after.kv.ids.live| == |m.kv.ids.live| && |after.delta.ids.live| == |m.delta.ids.live|
    && m.nextId <= after.nextId && id < after.nextId
    && PagesOf(after.seqs, id) + |after.kv.ids.free| == PagesOf(m.seqs, id) + |m.kv.ids.free|
    && SlotOf(after.seqs, id) + |after.delta.ids.free| == SlotOf(m.seqs, id) + |m.delta.ids.free|
    && forall i: nat | i != id :: SameHolding(m.seqs, after.seqs, i)
  }

  function Actor(m: Mgr, op: Op): nat {
    if op.Create? then m.nextId else op.id
  }

  lemma ResetMoves(d: Dims, m: Mgr, id: nat)
    requires Inv(d, m) && id in m.seqs
    ensures Clearable(m, id) && m.delta.ids.IsLive(m.seqs[id].slot)
    ensures Moves(m, WasReset(d, m, id), id)
  {
    ReleaseNeverFails(d, m, id);
  }

  lemma RetireMoves(d: Dims, m: Mgr, id: nat)
    requires Inv(d, m) && id in m.seqs
    ensures Clearable(m, id) && m.delta.ids.IsLive(m.seqs[id].slot)
    ensures Moves(m, Retired(d, m, id), id)
  {
    ReleaseNeverFails(d, m, id);
  }

  lemma StorageMoves(c: Setup, m: Mgr, op: Op)
    requires c.Ok() && Inv(c.d, m) && Succeeds(c, m, op) && (op.WriteRow? || op.WriteSlot? || op.Forward?)
    ensures Moves(m, After(c, m, op), op.id)
  {
  }

  lemma RecordMoves(c: Setup, m: Mgr, op: Op)
    requires c.Ok() && Inv(c.d, m) && Succeeds(c, m, op)
    requires op.Create? || op.Ensure? || op.SetLength? || op.Advance?
    ensures Moves(m, After(c, m, op), Actor(m, op))
  {
  }

  lemma StepMoves(c: Setup, m: Mgr, op: Op)
    requires c.Ok() && Inv(c.d, m) && Succeeds(c, m, op)
    ensures Moves(m, After(c, m, op), Actor(m, op))
  {
    if op.Reset? {
      ResetMoves(c.d, m, op.id);
    } else if op.Retire? {
      RetireMoves(c.d, m, op.id);
    } else if op.WriteRow? || op.WriteSlot? || op.Forward? {
      StorageMoves(c, m, op);
    } else {
      RecordMoves(c, m, op);
    }
  }

  /** Live plus free is the capacity, for pages and for slots. */
  ghost predicate Conserved(pools: Pools, m: Mgr) {
    && |m.kv.ids.live| == pools.kvCapacity && |m.delta.ids.live| == pools.deltaCapacity
    && PagesHeld(m.seqs, m.nextId) + |m.kv.ids.free| == pools.kvCapacity
    && SlotsHeld(m.seqs, m.nextId) + |m.delta.ids.free| == pools.deltaCapacity
  }

  lemma MovesConserve(pools: Pools, m: Mgr, after: Mgr, id: nat)
    requires Conserved(pools, m) && Moves(m, after, id) && forall i | i in m.seqs :: i < m.nextId
    ensures Conserved(pools, after)
  {
    HeldBeyond(m.seqs, m.nextId, after.nextId);
    HeldBut(m.seqs, after.seqs, after.nextId, id);
  }

  lemma {:induction false} RunConserved(c: Setup, pools: Pools, ops: seq<Op>)
    requires c.Ok()
    ensures Conserved(pools, Run(c, pools, ops))
  {
    if ops == [] {
      HeldBeyond(map[], 0, 1);
    } else {
      var before, op := ops[..|ops| - 1], ops[|ops| - 1];
      var m := Run(c, pools, before);
      RunConserved(c, pools, before);
      if Succeeds(c, m, op) {
        StepMoves(c, m, op);
        MovesConserve(pools, m, After(c, m, op), Actor(m, op));
      }
    }
  }

  /** In every reachable state the used ids are exactly those the live sequences hold,
      and used plus free is the capacity. */
  lemma IdsConserved(c: Setup, pools: Pools, ops: seq<Op>)
    requires c.Ok()
    ensures var m := Run(c, pools, ops);
            && CountLive(m.kv.ids.live) == PagesHeld(m.seqs, m.nextId)
            && CountLive(m.delta.ids.live) == |m.seqs|
            && CountLive(m.kv.ids.live) + |m.kv.ids.free| == pools.kvCapacity
            && CountLive(m.delta.ids.live) + |m.delta.ids.free| == pools.deltaCapacity
  {
    var m := Run(c, pools, ops);
    RunConserved(c, pools, ops);
    Accounting(m.kv.ids);
    Accounting(m.delta.ids);
    SlotsHeldCount(m.seqs, m.nextId);
    assert Below(m.seqs, m.nextId) == m.seqs.Keys;
  }

  function TotalStateBytes(d: Dims, pools: Pools): nat {
    pools.kvCapacity * KvPageBytes(d) + pools.deltaCapacity * DeltaSlotBytes(d)
  }

  /** The same in bytes, pool by pool and for the manager as a whole. */
  lemma BytesConserved(c: Setup, pools: Pools, ops: seq<Op>)
    requires c.Ok()
    ensures var m := Run(c, pools, ops);
            && CountLive(m.kv.ids.live) * KvPageBytes(c.d) + |m.kv.ids.free| * KvPageBytes(c.d) ==
               pools.kvCapacity * KvPageBytes(c.d)
            && CountLive(m.delta.ids.live) * DeltaSlotBytes(c.d) + |m.delta.ids.free| * DeltaSlotBytes(c.d) ==
               pools.deltaCapacity * DeltaSlotBytes(c.d)
            && UsedStateBytes(c.d, m) + FreeStateBytes(c.d, m) == TotalStateBytes(c.d, pools)
  {
    var m := Run(c, pools, ops);
    RunConserved(c, pools, ops);
    BytesExact(m.kv.ids, KvPageBytes(c.d));
    BytesExact(m.delta.ids, DeltaSlotBytes(c.d));
  }
}
