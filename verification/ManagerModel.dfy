/** The state manager as a value: two pools, the sequence records, the next id.
    Every lifecycle operation is a function here; the class in StateManager.dfy
    is proved against them. */
module ManagerModel {
  import opened Basics
  import opened Configs
  import opened FixedIdPools
  import opened PageLayout
  import opened KvPagePools
  import opened KvBlockTables
  import opened DeltaStatePools

  datatype Rec = Rec(slot: nat, pages: seq<nat>, length: nat)

  type Records = map<nat, Rec>

  datatype Mgr = Mgr(kv: KvPool, delta: DeltaPool, seqs: Records, nextId: nat)

  function FreshMgr(d: Dims, kvCapacity: nat, deltaCapacity: nat): Mgr {
    Mgr(FreshKvPool(d, kvCapacity), FreshDeltaPool(d, deltaCapacity), map[], 1)
  }

  // ----- ownership ----------------------------------------------------------

  ghost predicate Owns(seqs: Records, id: nat, page: nat) {
    id in seqs && page in seqs[id].pages
  }

  /** Block tables are duplicate free and pairwise disjoint, and together they are
      exactly the live pages. */
  ghost predicate PagesPartition(ids: IdPool, seqs: Records) {
    && (forall id | id in seqs :: Distinct(seqs[id].pages) && AllLive(ids, seqs[id].pages))
    && (forall i, j, p | Owns(seqs, i, p) && Owns(seqs, j, p) :: i == j)
    && (forall p | 0 <= p < |ids.live| && ids.live[p] :: exists id :: Owns(seqs, id, p))
  }

  ghost predicate Holds(seqs: Records, id: nat, slot: nat) {
    id in seqs && seqs[id].slot == slot
  }

  /** Live slots and live sequences are in one-to-one correspondence. */
  ghost predicate SlotsPartition(ids: IdPool, seqs: Records) {
    && (forall id | id in seqs :: ids.IsLive(seqs[id].slot))
    && (forall i, j, s | Holds(seqs, i, s) && Holds(seqs, j, s) :: i == j)
    && (forall s | 0 <= s < |ids.live| && ids.live[s] :: exists id :: Holds(seqs, id, s))
  }

  function MaxBlocks(d: Dims): nat
    requires d.pageTokens >= 1
  {
    (d.maxSeqLen + d.pageTokens - 1) / d.pageTokens
  }

  ghost predicate Bounded(d: Dims, seqs: Records, nextId: nat)
    requires d.pageTokens >= 1
  {
    && nextId >= 1
    && forall id | id in seqs ::
         1 <= id < nextId && seqs[id].length <= d.maxSeqLen && |seqs[id].pages| <= MaxBlocks(d)
  }

  ghost predicate Inv(d: Dims, m: Mgr) {
    && d.Positive()
    && m.kv.Valid(d) && m.delta.Valid(d)
    && PagesPartition(m.kv.ids, m.seqs)
    && SlotsPartition(m.delta.ids, m.seqs)
    && Bounded(d, m.seqs, m.nextId)
  }

  lemma FreshMgrInv(d: Dims, kvCapacity: nat, deltaCapacity: nat)
    requires d.Positive()
    ensures Inv(d, FreshMgr(d, kvCapacity, deltaCapacity))
  {
    FreshKvPoolValid(d, kvCapacity);
    FreshDeltaPoolValid(d, deltaCapacity);
  }

  // ----- operations ---------------------------------------------------------

  predicate CanCreate(m: Mgr) {
    m.delta.ids.free != []
  }

  function Created(m: Mgr): Mgr
    requires CanCreate(m) && m.delta.ids.Top() < |m.delta.ids.live|
  {
    Mgr(m.kv, m.delta.Acquired(), m.seqs[m.nextId := Rec(m.delta.ids.Top(), [], 0)], m.nextId + 1)
  }

  predicate CanEnsureKv(d: Dims, m: Mgr, id: nat, position: int)
    requires d.pageTokens >= 1
  {
    id in m.seqs && CanEnsure(d.maxSeqLen, d.pageTokens, m.kv, |m.seqs[id].pages|, position)
  }

  function Ensured(d: Dims, m: Mgr, id: nat, position: nat): Mgr
    requires d.pageTokens >= 1 && CanEnsureKv(d, m, id, position) && FreeInRange(m.kv.ids)
  {
    var r := m.seqs[id];
    m.(kv := EnsuredPool(d.pageTokens, m.kv, |r.pages|, position),
       seqs := m.seqs[id := r.(pages := EnsuredPages(d.pageTokens, m.kv, r.pages, position))])
  }

  predicate CanSetLength(d: Dims, m: Mgr, id: nat, newLength: int) {
    id in m.seqs && 0 <= newLength <= d.maxSeqLen
  }

  function LengthSet(m: Mgr, id: nat, newLength: nat): Mgr
    requires id in m.seqs
  {
    m.(seqs := m.seqs[id := m.seqs[id].(length := newLength)])
  }

  predicate CanAdvance(d: Dims, m: Mgr, id: nat, n: int) {
    id in m.seqs && n >= 0 && m.seqs[id].length + n <= d.maxSeqLen
  }

  function Advanced(m: Mgr, id: nat, n: nat): Mgr
    requires id in m.seqs
  {
    LengthSet(m, id, m.seqs[id].length + n)
  }

  predicate Clearable(m: Mgr, id: nat) {
    && id in m.seqs
    && Distinct(m.seqs[id].pages)
    && forall i | 0 <= i < |m.seqs[id].pages| :: m.kv.ids.IsLive(m.seqs[id].pages[i])
  }

  /** Same id, same slot; no pages, a zeroed slot, length 0. */
  function WasReset(d: Dims, m: Mgr, id: nat): Mgr
    requires Clearable(m, id) && m.seqs[id].slot < |m.delta.conv| && m.seqs[id].slot < |m.delta.rec|
  {
    var r := m.seqs[id];
    m.(kv := FreedMany(d, m.kv, r.pages), delta := m.delta.Zeroed(d, r.slot),
       seqs := m.seqs[id := Rec(r.slot, [], 0)])
  }

  /** Pages and slot handed back; the record is gone. */
  function Retired(d: Dims, m: Mgr, id: nat): Mgr
    requires Clearable(m, id) && m.delta.ids.IsLive(m.seqs[id].slot)
    requires |m.delta.conv| == |m.delta.rec| == |m.delta.ids.live|
  {
    var r := m.seqs[id];
    m.(kv := FreedMany(d, m.kv, r.pages), delta := m.delta.Released(d, r.slot), seqs := m.seqs - {id})
  }

  // The code's own order of a reset and of a retire, error exits included: clear
  // the table first, and go on only when every page was handed back.

  function TableCleared(d: Dims, m: Mgr, id: nat): (Mgr, bool)
    requires id in m.seqs && |m.kv.k| == |m.kv.v| == |m.kv.ids.live|
  {
    var (kv, freed) := FreeEach(d, m.kv, m.seqs[id].pages);
    (m.(kv := kv, seqs := m.seqs[id := m.seqs[id].(pages := [])]), freed)
  }

  function ResetInOrder(d: Dims, m: Mgr, id: nat): (Mgr, bool)
    requires id in m.seqs && |m.kv.k| == |m.kv.v| == |m.kv.ids.live|
    requires |m.delta.conv| == |m.delta.rec| == |m.delta.ids.live|
  {
    var (c, freed) := TableCleared(d, m, id);
    var slot := m.seqs[id].slot;
    if !freed || !m.delta.ids.IsLive(slot) then (c, false)
    else (c.(delta := m.delta.Zeroed(d, slot), seqs := m.seqs[id := Rec(slot, [], 0)]), true)
  }

  function RetireInOrder(d: Dims, m: Mgr, id: nat): (Mgr, bool)
    requires id in m.seqs && |m.kv.k| == |m.kv.v| == |m.kv.ids.live|
    requires |m.delta.conv| == |m.delta.rec| == |m.delta.ids.live|
  {
    var (c, freed) := TableCleared(d, m, id);
    var slot := m.seqs[id].slot;
    if !freed || !m.delta.ids.IsLive(slot) then (c, false)
    else (c.(delta := m.delta.Released(d, slot), seqs := m.seqs - {id}), true)
  }

  lemma ResetComposes(d: Dims, m: Mgr, id: nat)
    requires id in m.seqs && |m.kv.k| == |m.kv.v| == |m.kv.ids.live|
    requires |m.delta.conv| == |m.delta.rec| == |m.delta.ids.live|
    ensures var (c, freed) := TableCleared(d, m, id);
            var live := c.delta.ids.IsLive(c.seqs[id].slot);
            && (!freed || !live ==> ResetInOrder(d, m, id) == (c, false))
            && (freed && live ==>
                ResetInOrder(d, m, id) ==
                (LengthSet(c.(delta := c.delta.Zeroed(d, c.seqs[id].slot)), id, 0), true))
  {
    var r := m.seqs[id];
    assert m.seqs[id := r.(pages := [])][id := Rec(r.slot, [], 0)] == m.seqs[id := Rec(r.slot, [], 0)];
  }

  lemma RetireComposes(d: Dims, m: Mgr, id: nat)
    requires id in m.seqs && |m.kv.k| == |m.kv.v| == |m.kv.ids.live|
    requires |m.delta.conv| == |m.delta.rec| == |m.delta.ids.live|
    ensures var (c, freed) := TableCleared(d, m, id);
            var live := c.delta.ids.IsLive(c.seqs[id].slot);
            && (!freed || !live ==> RetireInOrder(d, m, id) == (c, false))
            && (freed && live ==>
                RetireInOrder(d, m, id) ==
                (c.(delta := c.delta.Released(d, c.seqs[id].slot), seqs := c.seqs - {id}), true))
  {
    assert m.seqs[id := m.seqs[id].(pages := [])] - {id} == m.seqs - {id};
  }

  /** The block holding a position has a page. */
  predicate Covered(d: Dims, m: Mgr, id: nat, position: nat)
    requires d.pageTokens >= 1
  {
    id in m.seqs && position < d.maxSeqLen && position / d.pageTokens < |m.seqs[id].pages|
  }

  /** One layer's K and V rows of one token, through the block table. */
  function RowWritten(d: Dims, m: Mgr, id: nat, position: nat, ord: nat, kRow: seq<Elem>, vRow: seq<Elem>): Mgr
    requires d.Positive() && m.kv.Shaped(d) && Covered(d, m, id, position)
    requires forall i | 0 <= i < |m.seqs[id].pages| :: m.seqs[id].pages[i] < |m.kv.k|
    requires ord < d.nFull && |kRow| == |vRow| == d.nKv * d.headDim
  {
    m.(kv := m.kv.RowStored(d, ord, m.seqs[id].pages[position / d.pageTokens], position % d.pageTokens, kRow, vRow))
  }

  /** One linear layer's conv and recurrent state of the sequence's slot. */
  function SlotWritten(d: Dims, m: Mgr, id: nat, ord: nat, convRow: Row, recRow: Row): Mgr
    requires id in m.seqs && m.delta.Shaped(d) && m.seqs[id].slot < |m.delta.conv| && ord < d.nLinear
  {
    m.(delta := m.delta.Stored(m.seqs[id].slot, ord, convRow, recRow))
  }

  // ----- bytes --------------------------------------------------------------

  function UsedStateBytes(d: Dims, m: Mgr): nat {
    CountLive(m.kv.ids.live) * KvPageBytes(d) + CountLive(m.delta.ids.live) * DeltaSlotBytes(d)
  }

  function FreeStateBytes(d: Dims, m: Mgr): nat {
    |m.kv.ids.free| * KvPageBytes(d) + |m.delta.ids.free| * DeltaSlotBytes(d)
  }

  // ----- the invariant is kept by every operation ---------------------------

  lemma CreatedInv(d: Dims, m: Mgr)
    requires Inv(d, m) && CanCreate(m)
    ensures Inv(d, Created(m))
  {
    AcquireValid(m.delta.ids);
    var after := Created(m);
    assert SlotsPartition(after.delta.ids, after.seqs) by {
      SlotsAfterCreate(m.delta.ids, m.seqs, m.nextId);
    }
    assert PagesPartition(after.kv.ids, after.seqs) by {
      PagesSame(m.kv.ids, m.seqs, after.seqs);
    }
  }

  lemma SlotsAfterCreate(ids: IdPool, seqs: Records, id: nat)
    requires ids.Valid() && ids.free != [] && SlotsPartition(ids, seqs) && id !in seqs
    ensures SlotsPartition(ids.Acquired(), seqs[id := Rec(ids.Top(), [], 0)])
  {
    AcquireValid(ids);
    var after := seqs[id := Rec(ids.Top(), [], 0)];
    assert Holds(after, id, ids.Top());
    forall s | 0 <= s < |ids.live| && ids.Acquired().live[s]
      ensures exists i :: Holds(after, i, s)
    {
      if s != ids.Top() {
        var i :| Holds(seqs, i, s);
        assert Holds(after, i, s);
      }
    }
    forall i, j, s | Holds(after, i, s) && Holds(after, j, s)
      ensures i == j
    {
      if i != id && j != id {
        assert Holds(seqs, i, s) && Holds(seqs, j, s);
      }
    }
  }

  /** Records that own the same pages partition the same live set. */
  lemma PagesSame(ids: IdPool, seqs: Records, after: Records)
    requires PagesPartition(ids, seqs)
    requires forall id | id in seqs :: id in after && after[id].pages == seqs[id].pages
    requires forall id | id in after && id !in seqs :: after[id].pages == []
    ensures PagesPartition(ids, after)
  {
    forall p | 0 <= p < |ids.live| && ids.live[p]
      ensures exists id :: Owns(after, id, p)
    {
      var id :| Owns(seqs, id, p);
      assert Owns(after, id, p);
    }
    forall i, j, p | Owns(after, i, p) && Owns(after, j, p)
      ensures i == j
    {
      assert Owns(seqs, i, p) && Owns(seqs, j, p);
    }
  }

  lemma SlotsSame(ids: IdPool, seqs: Records, after: Records)
    requires SlotsPartition(ids, seqs)
    requires after.Keys == seqs.Keys && forall id | id in seqs :: after[id].slot == seqs[id].slot
    ensures SlotsPartition(ids, after)
  {
    forall s | 0 <= s < |ids.live| && ids.live[s]
      ensures exists id :: Holds(after, id, s)
    {
      var id :| Holds(seqs, id, s);
      assert Holds(after, id, s);
    }
    forall i, j, s | Holds(after, i, s) && Holds(after, j, s)
      ensures i == j
    {
      assert Holds(seqs, i, s) && Holds(seqs, j, s);
    }
  }

  lemma EnsuredInv(d: Dims, m: Mgr, id: nat, position: nat)
    requires Inv(d, m) && CanEnsureKv(d, m, id, position)
    ensures Inv(d, Ensured(d, m, id, position))
  {
    var r, n := m.seqs[id], NewBlocks(d.pageTokens, |m.seqs[id].pages|, position);
    AllocatedManyValid(d, m.kv, n);
    PagesAfterEnsure(m.kv.ids, m.seqs, id, n);
    SlotsSame(m.delta.ids, m.seqs, Ensured(d, m, id, position).seqs);
    BlocksBound(d, |r.pages|, position);
  }

  lemma NextBlock(position: nat, pageTokens: nat)
    requires pageTokens >= 1
    ensures (position + pageTokens) / pageTokens == position / pageTokens + 1
  {
    assert position == (position / pageTokens) * pageTokens + position % pageTokens;
    DivModUnique(position / pageTokens + 1, position % pageTokens, pageTokens);
  }

  /** Just enough blocks for the longest sequence. */
  lemma BlocksCeiling(d: Dims)
    requires d.pageTokens >= 1
    ensures (MaxBlocks(d) - 1) * d.pageTokens < d.maxSeqLen <= MaxBlocks(d) * d.pageTokens
  {
    var n := d.maxSeqLen + d.pageTokens - 1;
    assert n == (n / d.pageTokens) * d.pageTokens + n % d.pageTokens;
    assert (MaxBlocks(d) - 1) * d.pageTokens == MaxBlocks(d) * d.pageTokens - d.pageTokens;
  }

  lemma BlocksBound(d: Dims, have: nat, position: nat)
    requires d.pageTokens >= 1 && position < d.maxSeqLen && have <= MaxBlocks(d)
    ensures have + NewBlocks(d.pageTokens, have, position) <= MaxBlocks(d)
  {
    NextBlock(position, d.pageTokens);
    DivMonotone(position + d.pageTokens, d.maxSeqLen + d.pageTokens - 1, d.pageTokens);
  }

  lemma PagesAfterEnsure(ids: IdPool, seqs: Records, id: nat, n: nat)
    requires ids.Valid() && PagesPartition(ids, seqs) && id in seqs && n <= |ids.free|
    ensures PagesPartition(AcquiredMany(ids, n), seqs[id := seqs[id].(pages := seqs[id].pages + Taken(ids, n))])
  {
    var taken, after := Taken(ids, n), AcquiredMany(ids, n);
    var grown := seqs[id := seqs[id].(pages := seqs[id].pages + taken)];
    AcquiredManyLive(ids, n);
    TakenFresh(ids, n);
    forall i | i in grown
      ensures Distinct(grown[i].pages) && AllLive(after, grown[i].pages)
    {
      assert AllLive(ids, seqs[i].pages);
    }
    forall p | 0 <= p < |ids.live| && after.live[p]
      ensures exists i :: Owns(grown, i, p)
    {
      if p in taken {
        assert Owns(grown, id, p);
      } else {
        var i :| Owns(seqs, i, p);
        assert Owns(grown, i, p);
      }
    }
    forall i, j, p | Owns(grown, i, p) && Owns(grown, j, p)
      ensures i == j
    {
      if p in taken {
        OwnedIsLive(ids, seqs, i, p);
        OwnedIsLive(ids, seqs, j, p);
      } else {
        assert Owns(seqs, i, p) && Owns(seqs, j, p);
      }
    }
  }

  lemma OwnedIsLive(ids: IdPool, seqs: Records, id: nat, page: nat)
    requires PagesPartition(ids, seqs)
    ensures Owns(seqs, id, page) ==> ids.IsLive(page)
  {
    if Owns(seqs, id, page) {
      var i :| 0 <= i < |seqs[id].pages| && seqs[id].pages[i] == page;
      assert AllLive(ids, seqs[id].pages);
    }
  }

  lemma LengthSetInv(d: Dims, m: Mgr, id: nat, newLength: nat)
    requires Inv(d, m) && id in m.seqs && newLength <= d.maxSeqLen
    ensures Inv(d, LengthSet(m, id, newLength))
  {
    var after := LengthSet(m, id, newLength).seqs;
    PagesSame(m.kv.ids, m.seqs, after);
    SlotsSame(m.delta.ids, m.seqs, after);
  }

  lemma AdvancedInv(d: Dims, m: Mgr, id: nat, n: nat)
    requires Inv(d, m) && id in m.seqs && m.seqs[id].length + n <= d.maxSeqLen
    ensures Advanced(m, id, n) == LengthSet(m, id, m.seqs[id].length + n)
    ensures Inv(d, Advanced(m, id, n))
  {
    LengthSetInv(d, m, id, m.seqs[id].length + n);
  }

  /** Dropping a sequence's pages returns exactly them to the pool. */
  lemma PagesAfterClear(ids: IdPool, seqs: Records, id: nat, after: Records)
    requires ids.Valid() && PagesPartition(ids, seqs) && id in seqs
    requires forall i | i in after :: i in seqs && after[i].pages == if i == id then [] else seqs[i].pages
    requires forall i | i in seqs && i != id :: i in after
    ensures PagesPartition(ReleasedMany(ids, seqs[id].pages), after)
  {
    var q := ReleasedMany(ids, seqs[id].pages);
    forall i | i in after
      ensures Distinct(after[i].pages) && AllLive(q, after[i].pages)
    {
      if i != id {
        assert AllLive(ids, seqs[i].pages);
        forall k | 0 <= k < |after[i].pages|
          ensures q.IsLive(after[i].pages[k])
        {
          var p := after[i].pages[k];
          assert Owns(seqs, i, p);
          assert !Owns(seqs, id, p);
        }
      }
    }
    forall p | 0 <= p < |ids.live| && q.live[p]
      ensures exists i :: Owns(after, i, p)
    {
      var i :| Owns(seqs, i, p);
      assert Owns(after, i, p);
    }
    forall i, j, p | Owns(after, i, p) && Owns(after, j, p)
      ensures i == j
    {
      assert Owns(seqs, i, p) && Owns(seqs, j, p);
    }
  }

  /** A sequence always owns what clearing it is about to hand back. */
  lemma AlwaysClearable(d: Dims, m: Mgr, id: nat)
    requires Inv(d, m) && id in m.seqs
    ensures Clearable(m, id) && m.delta.ids.IsLive(m.seqs[id].slot)
  {
    assert AllLive(m.kv.ids, m.seqs[id].pages);
  }

  /** From a reachable state neither error exit is taken: release never fails, and
      it hands back exactly the sequence's pages and slot. */
  lemma ReleaseNeverFails(d: Dims, m: Mgr, id: nat)
    requires Inv(d, m) && id in m.seqs
    ensures Clearable(m, id) && m.delta.ids.IsLive(m.seqs[id].slot)
    ensures ResetInOrder(d, m, id) == (WasReset(d, m, id), true)
    ensures RetireInOrder(d, m, id) == (Retired(d, m, id), true)
    ensures |WasReset(d, m, id).kv.ids.free| == |m.kv.ids.free| + |m.seqs[id].pages|
    ensures |Retired(d, m, id).kv.ids.free| == |m.kv.ids.free| + |m.seqs[id].pages|
    ensures |Retired(d, m, id).delta.ids.free| == |m.delta.ids.free| + 1
  {
    AlwaysClearable(d, m, id);
    FreeEachOwned(d, m.kv, m.seqs[id].pages);
  }

  lemma WasResetInv(d: Dims, m: Mgr, id: nat)
    requires Inv(d, m) && id in m.seqs
    ensures Clearable(m, id) && Inv(d, WasReset(d, m, id))
  {
    AlwaysClearable(d, m, id);
    var r, after := m.seqs[id], WasReset(d, m, id);
    assert PagesPartition(after.kv.ids, after.seqs) by {
      PagesAfterClear(m.kv.ids, m.seqs, id, after.seqs);
    }
    assert SlotsPartition(after.delta.ids, after.seqs) by {
      SlotsSame(m.delta.ids, m.seqs, after.seqs);
    }
    FreedManyValid(d, m.kv, r.pages);
    ReleasedValid(d, m.delta, r.slot);
  }

  lemma RetiredInv(d: Dims, m: Mgr, id: nat)
    requires Inv(d, m) && id in m.seqs
    ensures Clearable(m, id) && Inv(d, Retired(d, m, id))
  {
    AlwaysClearable(d, m, id);
    var r := m.seqs[id];
    FreedManyValid(d, m.kv, r.pages);
    ReleasedValid(d, m.delta, r.slot);
    PagesAfterClear(m.kv.ids, m.seqs, id, m.seqs - {id});
    SlotsAfterRetire(m.delta.ids, m.seqs, id);
  }

  lemma SlotsAfterRetire(ids: IdPool, seqs: Records, id: nat)
    requires ids.Valid() && SlotsPartition(ids, seqs) && id in seqs
    ensures SlotsPartition(ids.Released(seqs[id].slot), seqs - {id})
  {
    var slot, after := seqs[id].slot, seqs - {id};
    assert Holds(seqs, id, slot);
    forall i | i in after
      ensures ids.Released(slot).IsLive(after[i].slot)
    {
      assert Holds(seqs, i, seqs[i].slot);
    }
    forall s | 0 <= s < |ids.live| && ids.Released(slot).live[s]
      ensures exists i :: Holds(after, i, s)
    {
      var i :| Holds(seqs, i, s);
      assert Holds(after, i, s);
    }
    forall i, j, s | Holds(after, i, s) && Holds(after, j, s)
      ensures i == j
    {
      assert Holds(seqs, i, s) && Holds(seqs, j, s);
    }
  }

  lemma RowWrittenInv(d: Dims, m: Mgr, id: nat, position: nat, ord: nat, kRow: seq<Elem>, vRow: seq<Elem>)
    requires Inv(d, m) && Covered(d, m, id, position)
    requires ord < d.nFull && |kRow| == |vRow| == d.nKv * d.headDim
    ensures forall i | 0 <= i < |m.seqs[id].pages| :: m.seqs[id].pages[i] < |m.kv.k|
    ensures Inv(d, RowWritten(d, m, id, position, ord, kRow, vRow))
  {
    assert AllLive(m.kv.ids, m.seqs[id].pages);
    RowStoredValid(d, m.kv, ord, m.seqs[id].pages[position / d.pageTokens], position % d.pageTokens, kRow, vRow);
  }

  lemma RowStoredValid(d: Dims, kv: KvPool, ord: nat, page: nat, off: nat, kRow: seq<Elem>, vRow: seq<Elem>)
    requires kv.Valid(d) && kv.ids.IsLive(page) && ord < d.nFull && off < d.pageTokens
    requires |kRow| == |vRow| == d.nKv * d.headDim
    ensures kv.RowStored(d, ord, page, off, kRow, vRow).Valid(d)
  {
  }

  lemma SlotWrittenInv(d: Dims, m: Mgr, id: nat, ord: nat, convRow: Row, recRow: Row)
    requires Inv(d, m) && id in m.seqs && ord < d.nLinear
    requires |convRow| == d.convElems && |recRow| == d.recElems
    ensures Inv(d, SlotWritten(d, m, id, ord, convRow, recRow))
  {
    StoredValid(d, m.delta, m.seqs[id].slot, ord, convRow, recRow);
  }
}
