/** The control plane over the two pools, as mutable objects. Each method is proved
    against the function of the same operation in ManagerModel. */
module StateManagers {
  import opened Basics
  import opened Configs
  import opened PageLayout
  import opened KvPagePools
  import opened KvBlockTables
  import opened DeltaStatePools
  import opened ManagerModel
  import opened SequenceViews

  /** One live sequence's record. */
  class SequenceState {
    const id: nat
    const deltaSlot: nat
    const table: KvBlockTable
    var length: nat

    constructor (id: nat, deltaSlot: nat, table: KvBlockTable)
      ensures this.id == id && this.deltaSlot == deltaSlot && this.table == table && length == 0
    {
      this.id := id;
      this.deltaSlot := deltaSlot;
      this.table := table;
      length := 0;
    }
  }

  ghost function RecordSet(sequences: map<nat, SequenceState>): set<object> {
    (set id | id in sequences :: sequences[id] as object) + (set id | id in sequences :: sequences[id].table as object)
  }

  lemma RecordSetGrows(sequences: map<nat, SequenceState>, id: nat, rec: SequenceState)
    ensures RecordSet(sequences[id := rec]) <= RecordSet(sequences) + {rec, rec.table}
  {
  }

  lemma RecordSetShrinks(sequences: map<nat, SequenceState>, id: nat)
    ensures RecordSet(sequences - {id}) <= RecordSet(sequences)
  {
  }

  /** Different sequences have different records and different tables. */
  ghost predicate Separate(sequences: map<nat, SequenceState>) {
    forall i, j | i in sequences && j in sequences && i != j ::
      sequences[i] != sequences[j] && sequences[i].table != sequences[j].table
  }

  ghost predicate TablesFit(d: Dims, sequences: map<nat, SequenceState>) {
    forall id | id in sequences ::
      sequences[id].table.maxSeqLen == d.maxSeqLen && sequences[id].table.pageTokens == d.pageTokens
  }

  lemma RecordAdded(d: Dims, sequences: map<nat, SequenceState>, id: nat, rec: SequenceState)
    requires Separate(sequences) && TablesFit(d, sequences) && id !in sequences
    requires rec !in RecordSet(sequences) && rec.table !in RecordSet(sequences)
    requires rec.table.maxSeqLen == d.maxSeqLen && rec.table.pageTokens == d.pageTokens
    ensures Separate(sequences[id := rec]) && TablesFit(d, sequences[id := rec])
  {
    forall i | i in sequences
      ensures sequences[i] != rec && sequences[i].table != rec.table
    {
      assert sequences[i] as object in RecordSet(sequences);
      assert sequences[i].table as object in RecordSet(sequences);
    }
  }

  function Values(sequences: map<nat, SequenceState>): Records
    reads RecordSet(sequences)
  {
    map id | id in sequences :: Rec(sequences[id].deltaSlot, sequences[id].table.pages, sequences[id].length)
  }

  lemma PagesReplaced(was: Records, now: Records, id: nat, pages: seq<nat>)
    requires id in was && now.Keys == was.Keys
    requires forall j | j in was :: now[j] == if j == id then was[j].(pages := pages) else was[j]
    ensures now == was[id := was[id].(pages := pages)]
    ensures pages == was[id].pages ==> now == was
  {
  }

  class StateManager {
    const cfg: Config
    const d: Dims
    const kv: KvPagePool
    const delta: DeltaStatePool
    var sequences: map<nat, SequenceState>
    var nextId: nat

    ghost function Repr(): set<object>
      reads this
    {
      {this} + kv.Repr() + delta.Repr() + RecordSet(sequences)
    }

    ghost predicate Laid() {
      && kv.Laid() && delta.Laid()
      && kv.d == d && delta.d == d && kv.cfg == cfg && delta.cfg == cfg
      && kv.Repr() !! delta.Repr()
    }

    function Model(): Mgr
      requires Laid()
      reads Repr()
    {
      Mgr(kv.Model(), delta.Model(), Values(sequences), nextId)
    }

    /** Object structure, apart from any content. */
    ghost predicate Shape()
      reads this
    {
      Laid() && Separate(sequences) && TablesFit(d, sequences)
    }

    ghost predicate Valid()
      reads Repr()
    {
      Shape() && Inv(d, Model())
    }

    // Steps on the objects. Each says what one object change does to the model,
    // before anything is known about ownership.

    /** Records, tables, the manager and the two pools are different objects. */
    lemma Apart()
      requires Laid()
      ensures RecordSet(sequences) !! kv.Repr() && RecordSet(sequences) !! delta.Repr()
      ensures this !in RecordSet(sequences) && this !in kv.Repr() && this !in delta.Repr()
    {
    }

    method StoreLength(id: nat, newLength: nat)
      requires Shape() && id in sequences
      modifies sequences[id]
      ensures Shape() && sequences == old(sequences)
      ensures Model() == LengthSet(old(Model()), id, newLength)
    {
      sequences[id].length := newLength;
      assert kv.Model() == old(kv.Model());
      assert delta.Model() == old(delta.Model());
    }

    function LengthOf(id: nat): nat
      requires Shape() && id in sequences
      reads this, Repr()
      ensures LengthOf(id) == Model().seqs[id].length
    {
      sequences[id].length
    }

    function NumBlocksOf(id: nat): nat
      requires Shape() && id in sequences
      reads this, Repr()
      ensures NumBlocksOf(id) == |Model().seqs[id].pages|
    {
      sequences[id].table.NumBlocks()
    }

    method AddLength(id: nat, n: nat)
      requires Shape() && id in sequences
      modifies sequences[id]
      ensures Shape() && sequences == old(sequences)
      ensures Model() == Advanced(old(Model()), id, n)
    {
      StoreLength(id, LengthOf(id) + n);
    }

    method TakeSlot() returns (slot: Option<nat>)
      requires Shape() && delta.Valid()
      modifies delta.Repr()
      ensures Shape() && sequences == old(sequences)
      ensures slot.None? <==> old(Model()).delta.ids.free == []
      ensures slot.None? ==> Model() == old(Model())
      ensures slot.Some? ==> slot.value == old(Model()).delta.ids.Top()
      ensures slot.Some? ==> Model() == old(Model()).(delta := old(Model()).delta.Acquired())
    {
      Apart();
      slot := delta.AcquireSlot();
      assert kv.Model() == old(kv.Model());
      assert Values(sequences) == old(Values(sequences));
    }

    method AddRecord(slot: nat, ghost before: set<object>) returns (ghost added: set<object>)
      requires before == RecordSet(sequences)
      requires Shape() && nextId !in sequences && d.maxSeqLen >= 1 && d.pageTokens >= 1
      modifies this
      ensures Shape() && nextId == old(nextId) + 1
      ensures fresh(added) && RecordSet(sequences) <= before + added
      ensures Model() == Mgr(old(Model()).kv, old(Model()).delta,
                             old(Model()).seqs[old(nextId) := Rec(slot, [], 0)], old(nextId) + 1)
    {
      ghost var m, was := Model(), sequences;
      var table := new KvBlockTable(d.maxSeqLen, d.pageTokens);
      var rec := new SequenceState(nextId, slot, table);
      RecordSetGrows(was, nextId, rec);
      added := {rec, table};
      assert Model() == m;
      InsertRecord(rec);
    }

    method InsertRecord(rec: SequenceState)
      requires Shape() && rec.id == nextId && nextId !in sequences
      requires rec !in RecordSet(sequences) && rec.table !in RecordSet(sequences)
      requires rec.table.maxSeqLen == d.maxSeqLen && rec.table.pageTokens == d.pageTokens
      modifies this
      ensures Shape() && nextId == old(nextId) + 1 && sequences == old(sequences)[old(nextId) := rec]
      ensures Model() == Mgr(old(Model()).kv, old(Model()).delta,
                             old(Model()).seqs[old(nextId) := Rec(rec.deltaSlot, rec.table.pages, rec.length)],
                             old(nextId) + 1)
    {
      RecordAdded(d, sequences, nextId, rec);
      sequences := sequences[nextId := rec];
      nextId := nextId + 1;
    }

    method GrowPages(id: nat, position: int) returns (ok: bool)
      requires Shape() && kv.Valid() && id in sequences && d.pageTokens >= 1
      modifies sequences[id].table, kv.Repr()
      ensures ok == CanEnsure(d.maxSeqLen, d.pageTokens, old(kv.Model()), |old(Values(sequences))[id].pages|, position)
      ensures var pages := old(Values(sequences))[id].pages;
              && kv.Model() == (if ok then EnsuredPool(d.pageTokens, old(kv.Model()), |pages|, position)
                                else old(kv.Model()))
              && Values(sequences) ==
                 (if ok then old(Values(sequences))[id := old(Values(sequences))[id].(
                    pages := EnsuredPages(d.pageTokens, old(kv.Model()), pages, position))]
                  else old(Values(sequences)))
    {
      ghost var was := Values(sequences);
      Apart();
      var table := sequences[id].table;
      ok := table.EnsureCapacity(position, kv);
      forall j | j in sequences
        ensures Values(sequences)[j] == if j == id then was[j].(pages := table.pages) else was[j]
      {
        assert j != id ==> sequences[j].table != table;
      }
      PagesReplaced(was, Values(sequences), id, table.pages);
    }

    method GrowTable(id: nat, position: int) returns (ok: bool)
      requires Shape() && kv.Valid() && id in sequences && d.pageTokens >= 1
      modifies sequences[id].table, kv.Repr()
      ensures Shape() && sequences == old(sequences)
      ensures ok == CanEnsureKv(d, old(Model()), id, position)
      ensures Model() == if ok then Ensured(d, old(Model()), id, position) else old(Model())
    {
      ghost var slots := delta.Model();
      Apart();
      ok := GrowPages(id, position);
      assert delta.Model() == slots;
    }

    method ClearPages(id: nat, ghost others: set<object>) returns (ok: bool)
      requires Shape() && kv.Valid() && id in sequences && others !! {sequences[id].table} + kv.Repr()
      modifies sequences[id].table, kv.Repr()
      ensures unchanged(others)
      ensures (kv.Model(), ok) == FreeEach(d, old(kv.Model()), old(Values(sequences))[id].pages)
      ensures Values(sequences) == old(Values(sequences))[id := old(Values(sequences))[id].(pages := [])]
    {
      ghost var was := Values(sequences);
      Apart();
      var table := sequences[id].table;
      ok := table.Clear(kv);
      forall j | j in sequences
        ensures Values(sequences)[j] == if j == id then was[j].(pages := []) else was[j]
      {
        assert j != id ==> sequences[j].table != table;
      }
      PagesReplaced(was, Values(sequences), id, []);
    }

    method ClearTable(id: nat) returns (ok: bool)
      requires Shape() && kv.Valid() && id in sequences
      modifies sequences[id].table, kv.Repr()
      ensures Shape() && sequences == old(sequences)
      ensures (Model(), ok) == TableCleared(d, old(Model()), id)
    {
      ghost var slots := delta.Model();
      Apart();
      ok := ClearPages(id, delta.Repr());
      assert delta.Model() == slots;
    }

    method ZeroSlotOf(id: nat) returns (ok: bool)
      requires Shape() && delta.Valid() && id in sequences
      modifies delta.Repr()
      ensures Shape() && sequences == old(sequences)
      ensures ok == old(Model()).delta.ids.IsLive(old(Model()).seqs[id].slot)
      ensures var m := old(Model());
              Model() == if ok then m.(delta := m.delta.Zeroed(d, m.seqs[id].slot)) else m
    {
      Apart();
      ok := delta.ResetSlot(sequences[id].deltaSlot);
      assert kv.Model() == old(kv.Model());
      assert Values(sequences) == old(Values(sequences));
    }

    method ReleaseSlotOf(id: nat) returns (ok: bool)
      requires Shape() && delta.Valid() && id in sequences
      modifies delta.Repr()
      ensures Shape() && sequences == old(sequences)
      ensures ok == old(Model()).delta.ids.IsLive(old(Model()).seqs[id].slot)
      ensures var m := old(Model());
              Model() == if ok then m.(delta := m.delta.Released(d, m.seqs[id].slot)) else m
    {
      Apart();
      ok := delta.ReleaseSlot(sequences[id].deltaSlot);
      assert kv.Model() == old(kv.Model());
      assert Values(sequences) == old(Values(sequences));
    }

    method DropRecord(id: nat)
      requires Shape() && id in sequences
      modifies this
      ensures Shape() && sequences == old(sequences) - {id}
      ensures Model() == old(Model()).(seqs := old(Model()).seqs - {id})
    {
      Apart();
      sequences := sequences - {id};
    }

    constructor (cfg: Config, pageTokens: nat, kvCapacityPages: nat, deltaCapacitySlots: nat, stream: int)
      requires PoolReady(cfg) && pageTokens >= 1
      ensures Valid() && fresh(Repr())
      ensures this.cfg == cfg && d == DimsOf(cfg, pageTokens) && kv.stream == delta.stream == stream
      ensures Sizes(cfg, pageTokens, d)
      ensures Model() == FreshMgr(d, kvCapacityPages, deltaCapacitySlots)
    {
      var dims := DimsOf(cfg, pageTokens);
      DimsExact(cfg, pageTokens);
      var pages, slots;
      ghost var objs;
      pages, slots, objs := NewPools(cfg, dims, pageTokens, kvCapacityPages, deltaCapacitySlots, stream);
      this.cfg, d := cfg, dims;
      kv, delta := pages, slots;
      sequences := map[];
      nextId := 1;
      new;
      Unused(kvCapacityPages, deltaCapacitySlots, objs);
    }

    /** With fresh pools and no records the manager is the fresh one. */
    lemma Unused(kvCapacityPages: nat, deltaCapacitySlots: nat, objs: set<object>)
      requires Laid() && d.Positive() && sequences == map[] && nextId == 1
      requires kv.Model() == FreshKvPool(d, kvCapacityPages) && delta.Model() == FreshDeltaPool(d, deltaCapacitySlots)
      requires objs == kv.Repr() + delta.Repr()
      ensures Valid() && Model() == FreshMgr(d, kvCapacityPages, deltaCapacitySlots)
      ensures Repr() == {this} + objs
    {
      FreshMgrInv(d, kvCapacityPages, deltaCapacitySlots);
      assert Values(sequences) == map[];
    }

    static method NewPools(cfg: Config, dims: Dims, pageTokens: nat, kvCapacityPages: nat, deltaCapacitySlots: nat,
        stream: int)
      returns (kv: KvPagePool, delta: DeltaStatePool, ghost objs: set<object>)
      requires PoolReady(cfg) && pageTokens >= 1 && dims == DimsOf(cfg, pageTokens)
      ensures kv.Laid() && kv.d == dims && kv.cfg == cfg && kv.Model() == FreshKvPool(dims, kvCapacityPages)
      ensures delta.Laid() && delta.d == dims && delta.cfg == cfg && kv.stream == delta.stream == stream
      ensures delta.Model() == FreshDeltaPool(dims, deltaCapacitySlots)
      ensures fresh(objs) && objs == kv.Repr() + delta.Repr() && kv.Repr() !! delta.Repr()
    {
      SlotsReady(cfg);
      kv := new KvPagePool(cfg, pageTokens, kvCapacityPages, stream);
      ghost var unused, more := kv.Model(), {};
      objs := kv.Repr();
      delta, more := NewSlots(cfg, dims, pageTokens, deltaCapacitySlots, stream, objs);
      assert kv.Model() == unused;
      objs := objs + more;
    }

    /** A slot pool that shares no object with what was there before. */
    static method NewSlots(cfg: Config, ghost dims: Dims, pageTokens: nat, capacity: nat, stream: int,
                           ghost others: set<object>)
      returns (delta: DeltaStatePool, ghost objs: set<object>)
      requires DeltaReady(cfg) && dims == DimsOf(cfg, pageTokens)
      ensures delta.Laid() && delta.d == dims && delta.cfg == cfg && delta.stream == stream
      ensures delta.Model() == FreshDeltaPool(dims, capacity)
      ensures fresh(objs) && objs == delta.Repr() && objs !! others
    {
      delta := new DeltaStatePool(cfg, pageTokens, capacity, stream);
      objs := delta.Repr();
    }

    /** Slot first: when none is free nothing is registered and no id is issued. */
    method Register(ghost before: set<object>) returns (id: Option<nat>, ghost added: set<object>)
      requires before == RecordSet(sequences)
      requires Shape() && delta.Valid() && nextId !in sequences && d.maxSeqLen >= 1 && d.pageTokens >= 1
      modifies this, delta.Repr()
      ensures Shape() && fresh(added) && RecordSet(sequences) <= before + added
      ensures id.Some? <==> CanCreate(old(Model()))
      ensures id.Some? ==> id.value == old(nextId) && Model() == Created(old(Model()))
      ensures id.None? ==> Model() == old(Model())
    {
      var slot := TakeSlot();
      if slot.None? {
        return None, {};
      }
      id := Some(nextId);
      added := AddRecord(slot.value, before);
    }

    method ClearAndZero(id: nat) returns (ok: bool)
      requires Shape() && kv.Valid() && delta.Valid() && id in sequences
      modifies sequences[id], sequences[id].table, kv.Repr(), delta.Repr()
      ensures Shape() && sequences == old(sequences)
      ensures (Model(), ok) == ResetInOrder(d, old(Model()), id)
    {
      Apart();
      ResetComposes(d, Model(), id);
      var cleared := ClearTable(id);
      if !cleared {
        return false;
      }
      var zeroed := ZeroSlotOf(id);
      if !zeroed {
        return false;
      }
      StoreLength(id, 0);
      ok := true;
    }

    method ClearAndRelease(id: nat) returns (ok: bool)
      requires Shape() && kv.Valid() && delta.Valid() && id in sequences
      modifies this, sequences[id].table, kv.Repr(), delta.Repr()
      ensures Shape() && sequences == if ok then old(sequences) - {id} else old(sequences)
      ensures (Model(), ok) == RetireInOrder(d, old(Model()), id)
    {
      RetireComposes(d, Model(), id);
      var cleared := ClearTable(id);
      var released := false;
      if cleared {
        released := ReleaseSlotOf(id);
      }
      if !released {
        return false;
      }
      DropRecord(id);
      ok := true;
    }

    /** A row written into the pages; the objects in `others` stay as they are. */
    method WriteKv(ord: nat, page: nat, off: nat, kRow: seq<Elem>, vRow: seq<Elem>, ghost others: set<object>)
      requires kv.Laid() && ord < kv.d.nFull && page < kv.capacity && off < kv.d.pageTokens
      requires |kRow| == |vRow| == kv.d.nKv * kv.d.headDim && others !! {kv.k, kv.v}
      modifies kv.k, kv.v
      ensures kv.Model() == old(kv.Model()).RowStored(kv.d, ord, page, off, kRow, vRow) && unchanged(others)
    {
      kv.WriteRow(ord, page, off, kRow, vRow);
    }

    method StoreLayerRow(id: nat, position: nat, ord: nat, kRow: seq<Elem>, vRow: seq<Elem>)
      requires Shape() && Covered(d, Model(), id, position) && InPool(Model().seqs[id].pages, kv.capacity)
      requires ord < d.nFull && |kRow| == |vRow| == d.nKv * d.headDim
      modifies kv.k, kv.v
      ensures Shape() && sequences == old(sequences)
      ensures Model() == RowWritten(d, old(Model()), id, position, ord, kRow, vRow)
    {
      ghost var slots, records := delta.Model(), Values(sequences);
      Apart();
      var page := sequences[id].table.pages[position / d.pageTokens];
      assert page == records[id].pages[position / d.pageTokens];
      WriteKv(ord, page, position % d.pageTokens, kRow, vRow, delta.Repr() + RecordSet(sequences));
      assert delta.Model() == slots;
      assert Values(sequences) == records;
    }

    /** One layer of a slot written; the objects in `others` stay as they are. */
    method WriteDelta(slot: nat, ord: nat, convRow: Row, recRow: Row, ghost others: set<object>)
      requires delta.Laid() && slot < delta.capacity && ord < delta.d.nLinear
      requires |convRow| == delta.d.convElems && |recRow| == delta.d.recElems
      requires others !! {delta.conv[ord], delta.rec[ord]}
      modifies delta.conv[ord], delta.rec[ord]
      ensures delta.Model() == old(delta.Model()).Stored(slot, ord, convRow, recRow) && unchanged(others)
    {
      delta.WriteSlot(slot, ord, convRow, recRow);
    }

    method StoreLayerSlot(id: nat, ord: nat, convRow: Row, recRow: Row)
      requires Shape() && id in Model().seqs && ord < d.nLinear && Model().seqs[id].slot < delta.capacity
      requires |convRow| == d.convElems && |recRow| == d.recElems
      modifies delta.conv[ord], delta.rec[ord]
      ensures Shape() && sequences == old(sequences)
      ensures Model() == SlotWritten(d, old(Model()), id, ord, convRow, recRow)
    {
      ghost var pages, records := kv.Model(), Values(sequences);
      Apart();
      var slot := sequences[id].deltaSlot;
      assert slot == records[id].slot;
      WriteDelta(slot, ord, convRow, recRow, kv.Repr() + RecordSet(sequences));
      assert kv.Model() == pages;
      assert Values(sequences) == records;
    }

    // Lifecycle.

    method CreateSequence() returns (id: Option<nat>)
      requires Valid()
      modifies Repr()
      ensures Valid() && fresh(Repr() - old(Repr()))
      ensures id.Some? <==> old(Model()).delta.ids.free != []
      ensures id.Some? ==> id.value == old(nextId) && Model() == Created(old(Model()))
      ensures id.None? ==> Model() == old(Model())
    {
      ghost var was := Model();
      assert Model().seqs.Keys == sequences.Keys;
      ghost var added;
      id, added := Register(RecordSet(sequences));
      if id.Some? {
        CreatedInv(d, was);
      }
    }

    method EnsureKvCapacity(id: nat, position: int) returns (ok: bool)
      requires Valid()
      modifies Repr()
      ensures Valid() && fresh(Repr() - old(Repr())) && sequences == old(sequences)
      ensures ok == CanEnsureKv(d, old(Model()), id, position)
      ensures var m := old(Model());
              ok <==> id in m.seqs && 0 <= position < d.maxSeqLen
                      && position / d.pageTokens + 1 - |m.seqs[id].pages| <= |m.kv.ids.free|
      ensures Model() == if ok then Ensured(d, old(Model()), id, position) else old(Model())
    {
      if id !in sequences {
        return false;
      }
      ghost var was := Model();
      ok := GrowTable(id, position);
      if ok {
        EnsuredInv(d, was, id, position);
      }
    }

    method SetLength(id: nat, newLength: int) returns (ok: bool)
      requires Valid()
      modifies Repr()
      ensures Valid() && fresh(Repr() - old(Repr())) && sequences == old(sequences)
      ensures ok <==> id in old(sequences) && 0 <= newLength <= d.maxSeqLen
      ensures Model() == if ok then LengthSet(old(Model()), id, newLength) else old(Model())
    {
      if id !in sequences {
        return false;
      }
      if newLength < 0 || newLength > d.maxSeqLen {
        return false;
      }
      LengthSetInv(d, Model(), id, newLength);
      StoreLength(id, newLength);
      ok := true;
    }

    method Advance(id: nat, nTokens: int) returns (ok: bool)
      requires Valid()
      modifies Repr()
      ensures Valid() && fresh(Repr() - old(Repr())) && sequences == old(sequences)
      ensures ok <==> id in old(sequences) && nTokens >= 0 && old(sequences[id].length) + nTokens <= d.maxSeqLen
      ensures Model() == if ok then Advanced(old(Model()), id, nTokens) else old(Model())
    {
      if id !in sequences {
        return false;
      }
      if nTokens < 0 {
        return false;
      }
      if LengthOf(id) + nTokens > d.maxSeqLen {
        return false;
      }
      AdvancedInv(d, Model(), id, nTokens);
      AddLength(id, nTokens);
      ok := true;
    }

    method ResetSequence(id: nat) returns (ok: bool)
      requires Valid()
      modifies Repr()
      ensures Valid() && fresh(Repr() - old(Repr())) && sequences == old(sequences)
      ensures ok <==> id in old(sequences)
      ensures ok ==> Clearable(old(Model()), id) && Model() == WasReset(d, old(Model()), id)
      ensures !ok ==> Model() == old(Model())
    {
      if id !in sequences {
        return false;
      }
      ghost var was := Model();
      ReleaseNeverFails(d, was, id);
      WasResetInv(d, was, id);
      ok := ClearAndZero(id);
    }

    method RetireSequence(id: nat) returns (ok: bool)
      requires Valid()
      modifies Repr()
      ensures Valid() && fresh(Repr() - old(Repr()))
      ensures ok <==> id in old(sequences)
      ensures ok ==> Clearable(old(Model()), id) && old(Model()).delta.ids.IsLive(old(Model()).seqs[id].slot)
      ensures ok ==> Model() == Retired(d, old(Model()), id)
      ensures !ok ==> Model() == old(Model())
    {
      if id !in sequences {
        return false;
      }
      ghost var was := Model();
      ReleaseNeverFails(d, was, id);
      RetiredInv(d, was, id);
      RecordSetShrinks(sequences, id);
      ok := ClearAndRelease(id);
    }

    /** Both pools' sizes: the bytes of every buffer the manager holds. */
    method TotalStateBytes() returns (bytes: nat)
      requires Laid()
      ensures bytes == kv.capacity * KvPageBytes(d) + delta.capacity * DeltaSlotBytes(d)
      ensures bytes == (kv.k.Length + kv.v.Length) * 2 + BufferBytes(delta.conv, 2) + BufferBytes(delta.rec, 4)
    {
      var pages := kv.TotalBytes();
      var slots := delta.TotalBytes();
      bytes := pages + slots;
    }

    method UsedStateBytes() returns (bytes: nat)
      requires Valid()
      ensures bytes == ManagerModel.UsedStateBytes(d, Model())
    {
      var pages := kv.UsedBytes();
      var slots := delta.UsedBytes();
      bytes := pages + slots;
    }

    /** The live record, or nothing for an id never issued or retired. */
    function Lookup(id: nat): (rec: Option<SequenceState>)
      requires Laid()
      reads Repr()
      ensures rec.Some? <==> id in Model().seqs
      ensures rec.Some? ==>
                Model().seqs[id] == Rec(rec.value.deltaSlot, rec.value.table.pages, rec.value.length)
    {
      if id in sequences then Some(sequences[id]) else None
    }
  }
}
