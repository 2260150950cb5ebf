/** The per-sequence recurrent state pool: one slot id addresses the conv and the
    recurrent state of every linear-attention layer. Released and reset slots are
    zeroed. */
module DeltaStatePools {
  import opened Basics
  import opened Configs
  import opened FixedIdPools
  import opened PageLayout

  /** The state of one slot across the linear layers: [layer ordinal] -> elements. */
  type SlotData = seq<Row>

  predicate SlotShape(nLinear: nat, elems: nat, s: SlotData) {
    |s| == nLinear && forall l | 0 <= l < nLinear :: |s[l]| == elems
  }

  function ZeroSlot(nLinear: nat, elems: nat): (s: SlotData)
    ensures SlotShape(nLinear, elems, s)
  {
    seq(nLinear, _ => seq(elems, _ => 0))
  }

  datatype DeltaPool = DeltaPool(ids: IdPool, conv: seq<SlotData>, rec: seq<SlotData>) {

    predicate Shaped(d: Dims) {
      && |conv| == |rec| == |ids.live|
      && (forall s | 0 <= s < |conv| :: SlotShape(d.nLinear, d.convElems, conv[s]))
      && (forall s | 0 <= s < |rec| :: SlotShape(d.nLinear, d.recElems, rec[s]))
    }

    /** Zero on release: a slot that is not live holds nothing. */
    predicate FreeZero(d: Dims)
      requires Shaped(d)
    {
      forall s | 0 <= s < |ids.live| && !ids.live[s] ::
        conv[s] == ZeroSlot(d.nLinear, d.convElems) && rec[s] == ZeroSlot(d.nLinear, d.recElems)
    }

    ghost predicate Valid(d: Dims) {
      ids.Valid() && Shaped(d) && FreeZero(d)
    }

    function Acquired(): DeltaPool
      requires ids.free != [] && ids.Top() < |ids.live|
    {
      this.(ids := ids.Acquired())
    }

    /** The slot zeroed in place, still owned by whoever owned it. */
    function Zeroed(d: Dims, slot: nat): DeltaPool
      requires slot < |conv| && slot < |rec|
    {
      DeltaPool(ids, conv[slot := ZeroSlot(d.nLinear, d.convElems)], rec[slot := ZeroSlot(d.nLinear, d.recElems)])
    }

    function Released(d: Dims, slot: nat): DeltaPool
      requires ids.IsLive(slot) && |conv| == |rec| == |ids.live|
    {
      Zeroed(d, slot).(ids := ids.Released(slot))
    }

    /** One layer's conv and recurrent state of a slot, replaced. */
    function Stored(slot: nat, ord: nat, convRow: Row, recRow: Row): DeltaPool
      requires slot < |conv| && slot < |rec| && ord < |conv[slot]| && ord < |rec[slot]|
    {
      DeltaPool(ids, conv[slot := conv[slot][ord := convRow]], rec[slot := rec[slot][ord := recRow]])
    }
  }

  function ZeroStore(capacity: nat, nLinear: nat, elems: nat): (r: seq<SlotData>)
    ensures |r| == capacity && forall s | 0 <= s < capacity :: r[s] == ZeroSlot(nLinear, elems)
  {
    seq(capacity, _ => ZeroSlot(nLinear, elems))
  }

  function FreshDeltaPool(d: Dims, capacity: nat): DeltaPool {
    DeltaPool(FreshIds(capacity),
              ZeroStore(capacity, d.nLinear, d.convElems), ZeroStore(capacity, d.nLinear, d.recElems))
  }

  lemma FreshDeltaPoolValid(d: Dims, capacity: nat)
    ensures FreshDeltaPool(d, capacity).Valid(d)
  {
    FreshIdsValid(capacity);
  }

  lemma ReleasedValid(d: Dims, p: DeltaPool, slot: nat)
    requires p.Valid(d) && p.ids.IsLive(slot)
    ensures p.Released(d, slot).Valid(d) && p.Zeroed(d, slot).Valid(d)
  {
    ReleaseValid(p.ids, slot);
  }

  lemma StoredValid(d: Dims, p: DeltaPool, slot: nat, ord: nat, convRow: Row, recRow: Row)
    requires p.Valid(d) && p.ids.IsLive(slot) && ord < d.nLinear
    requires |convRow| == d.convElems && |recRow| == d.recElems
    ensures p.Stored(slot, ord, convRow, recRow).Valid(d)
  {
  }

  // ----- flat per-layer buffers: [slot][elements] ---------------------------

  function SlotRow(flat: seq<Elem>, capacity: nat, elems: nat, slot: nat): (r: Row)
    requires |flat| == capacity * elems && slot < capacity
    ensures |r| == elems
  {
    NextMultiple(slot, capacity, elems);
    flat[slot * elems..slot * elems + elems]
  }

  function SlotView(flats: seq<seq<Elem>>, capacity: nat, elems: nat, slot: nat): (r: SlotData)
    requires slot < capacity && forall l | 0 <= l < |flats| :: |flats[l]| == capacity * elems
    ensures SlotShape(|flats|, elems, r)
  {
    seq(|flats|, l requires 0 <= l < |flats| => SlotRow(flats[l], capacity, elems, slot))
  }

  function Slots(flats: seq<seq<Elem>>, capacity: nat, elems: nat): (r: seq<SlotData>)
    requires forall l | 0 <= l < |flats| :: |flats[l]| == capacity * elems
    ensures |r| == capacity && forall s | 0 <= s < capacity :: SlotShape(|flats|, elems, r[s])
  {
    seq(capacity, s requires 0 <= s < capacity => SlotView(flats, capacity, elems, s))
  }

  function Splice(flat: seq<Elem>, start: nat, row: Row): (r: seq<Elem>)
    requires start + |row| <= |flat|
    ensures |r| == |flat|
  {
    flat[..start] + row + flat[start + |row|..]
  }

  /** Writing one slot's slice leaves every other slot's slice alone. */
  lemma SpliceRow(flat: seq<Elem>, capacity: nat, elems: nat, slot: nat, row: Row, s: nat)
    requires |flat| == capacity * elems && slot < capacity && s < capacity && |row| == elems
    ensures slot * elems + elems <= |flat|
    ensures SlotRow(Splice(flat, slot * elems, row), capacity, elems, s) ==
            if s == slot then row else SlotRow(flat, capacity, elems, s)
  {
    NextMultiple(slot, capacity, elems);
    NextMultiple(s, capacity, elems);
    if s < slot {
      NextMultiple(s, slot, elems);
    } else if s > slot {
      NextMultiple(slot, s, elems);
    }
  }

  lemma SpliceSlots(flats: seq<seq<Elem>>, capacity: nat, elems: nat, slot: nat, ord: nat, row: Row)
    requires forall l | 0 <= l < |flats| :: |flats[l]| == capacity * elems
    requires slot < capacity && ord < |flats| && |row| == elems
    ensures slot * elems + elems <= |flats[ord]|
    ensures Slots(flats[ord := Splice(flats[ord], slot * elems, row)], capacity, elems) ==
            Slots(flats, capacity, elems)[slot := Slots(flats, capacity, elems)[slot][ord := row]]
  {
    SpliceRow(flats[ord], capacity, elems, slot, row, slot);
    var after := flats[ord := Splice(flats[ord], slot * elems, row)];
    var was := Slots(flats, capacity, elems);
    forall s | 0 <= s < capacity
      ensures SlotView(after, capacity, elems, s) == if s == slot then was[s][ord := row] else was[s]
    {
      SpliceRow(flats[ord], capacity, elems, slot, row, s);
    }
  }

  /** The first `layers` layers of a slot zeroed, the rest as they were. */
  function ZeroPrefix(s: SlotData, elems: nat, layers: nat): (r: SlotData)
    ensures |r| == |s|
  {
    seq(|s|, l requires 0 <= l < |s| => if l < layers then seq(elems, _ => 0) else s[l])
  }

  lemma ZeroPrefixStep(store: seq<SlotData>, elems: nat, slot: nat, l: nat)
    requires slot < |store| && l < |store[slot]|
    ensures var before := store[slot := ZeroPrefix(store[slot], elems, l)];
            before[slot := before[slot][l := seq(elems, _ => 0)]] ==
            store[slot := ZeroPrefix(store[slot], elems, l + 1)]
  {
    assert ZeroPrefix(store[slot], elems, l)[l := seq(elems, _ => 0)] == ZeroPrefix(store[slot], elems, l + 1);
  }

  // ----- the device pool ----------------------------------------------------

  /** One buffer per linear layer, as the contents they hold. */
  function Flats(buffers: seq<array<Elem>>): (r: seq<seq<Elem>>)
    reads buffers
    ensures |r| == |buffers| && forall l | 0 <= l < |buffers| :: r[l] == buffers[l][..]
  {
    if buffers == [] then []
    else Flats(buffers[..|buffers| - 1]) + [buffers[|buffers| - 1][..]]
  }

  ghost function BufferSet(buffers: seq<array<Elem>>): set<object> {
    set l | 0 <= l < |buffers| :: buffers[l]
  }

  ghost predicate Buffers(buffers: seq<array<Elem>>, length: nat) {
    && (forall l | 0 <= l < |buffers| :: buffers[l].Length == length)
    && (forall l, m | 0 <= l < m < |buffers| :: buffers[l] != buffers[m])
  }

  lemma Disjoint(a: seq<array<Elem>>, b: seq<array<Elem>>)
    requires BufferSet(a) !! BufferSet(b)
    ensures forall l, m | 0 <= l < |a| && 0 <= m < |b| :: a[l] != b[m]
  {
    forall l, m | 0 <= l < |a| && 0 <= m < |b|
      ensures a[l] != b[m]
    {
      assert a[l] in BufferSet(a) && b[m] in BufferSet(b);
    }
  }

  ghost predicate Zeroed(buffers: seq<array<Elem>>)
    reads buffers
  {
    forall l, j | 0 <= l < |buffers| && 0 <= j < buffers[l].Length :: buffers[l][j] == 0
  }

  /** One zeroed buffer per layer. */
  method AllocateBuffers(count: nat, length: nat) returns (buffers: seq<array<Elem>>)
    ensures |buffers| == count && Buffers(buffers, length) && Zeroed(buffers)
    ensures fresh(BufferSet(buffers))
  {
    buffers := [];
    for i := 0 to count
      invariant |buffers| == i && Buffers(buffers, length)
      invariant forall l | 0 <= l < i :: fresh(buffers[l])
      invariant Zeroed(buffers)
    {
      var buffer := new Elem[length](_ => 0);
      buffers := buffers + [buffer];
    }
  }

  /** The bytes of a list of buffers whose elements take `width` bytes each. */
  function BufferBytes(buffers: seq<array<Elem>>, width: nat): nat {
    if buffers == [] then 0
    else BufferBytes(buffers[..|buffers| - 1], width) + buffers[|buffers| - 1].Length * width
  }

  lemma {:induction false} EqualBuffers(buffers: seq<array<Elem>>, length: nat, width: nat)
    requires forall l | 0 <= l < |buffers| :: buffers[l].Length == length
    ensures BufferBytes(buffers, width) == |buffers| * (length * width)
  {
    if buffers != [] {
      EqualBuffers(buffers[..|buffers| - 1], length, width);
      assert |buffers| * (length * width) == (|buffers| - 1) * (length * width) + length * width;
    }
  }

  /** Copies a row into a buffer. */
  method CopyInto(a: array<Elem>, start: nat, row: Row)
    requires start + |row| <= a.Length
    modifies a
    ensures a[..] == Splice(old(a[..]), start, row)
  {
    for i := 0 to |row|
      invariant forall j | 0 <= j < a.Length :: a[j] == if start <= j < start + i then row[j - start] else old(a[j])
    {
      a[start + i] := row[i];
    }
  }

  /** Replaces one layer's slice of a slot. */
  method StoreSlot(buffers: seq<array<Elem>>, capacity: nat, elems: nat, slot: nat, ord: nat, row: Row)
    requires Buffers(buffers, capacity * elems)
    requires slot < capacity && ord < |buffers| && |row| == elems
    modifies buffers[ord]
    ensures Slots(Flats(buffers), capacity, elems) ==
            old(Slots(Flats(buffers), capacity, elems))
              [slot := old(Slots(Flats(buffers), capacity, elems))[slot][ord := row]]
  {
    ghost var was := Flats(buffers);
    SpliceSlots(was, capacity, elems, slot, ord, row);
    CopyInto(buffers[ord], slot * elems, row);
    assert Flats(buffers) == was[ord := Splice(was[ord], slot * elems, row)];
  }

  class DeltaStatePool {
    const cfg: Config
    const d: Dims
    const capacity: nat
    const ids: FixedIdPool
    const conv: seq<array<Elem>>
    const rec: seq<array<Elem>>
    const linearLayerIdxs: seq<nat>
    const stream: int

    ghost function Repr(): set<object> {
      {ids, ids.live} + (BufferSet(conv) + BufferSet(rec))
    }

    ghost predicate Laid() {
      && ids.capacity == ids.live.Length == capacity
      && |conv| == |rec| == d.nLinear
      && Buffers(conv, capacity * d.convElems) && Buffers(rec, capacity * d.recElems)
      && (forall l, m | 0 <= l < |conv| && 0 <= m < |rec| :: conv[l] != rec[m])
      && linearLayerIdxs == LinearLayers(cfg, LayerCount(cfg))
      && d.nLinear == |linearLayerIdxs|
    }

    function Model(): DeltaPool
      requires Laid()
      reads Repr()
    {
      DeltaPool(ids.Model(), Slots(Flats(conv), capacity, d.convElems), Slots(Flats(rec), capacity, d.recElems))
    }

    ghost predicate Valid()
      reads Repr()
    {
      Laid() && Model().Valid(d)
    }

    /** The slot sizes are the configuration's; `pageTokens` only completes the record of
        sizes the two pools share. */
    constructor (cfg: Config, pageTokens: nat, capacity: nat, stream: int)
      requires DeltaReady(cfg)
      ensures this.cfg == cfg && d == DimsOf(cfg, pageTokens) && this.capacity == capacity && this.stream == stream
      ensures fresh({ids, ids.live} + (BufferSet(conv) + BufferSet(rec)))
      ensures Valid()
      ensures Model() == FreshDeltaPool(d, capacity)
      ensures |conv| == |rec| == d.nLinear
    {
      var dims := DimsOf(cfg, pageTokens);
      var freshIds := new FixedIdPool(capacity);
      var convBuffers, recBuffers := NewBuffers(dims, capacity);
      this.cfg := cfg;
      this.stream := stream;
      d := dims;
      this.capacity := capacity;
      ids := freshIds;
      linearLayerIdxs := LinearLayers(cfg, LayerCount(cfg));
      conv, rec := convBuffers, recBuffers;
      new;
      Unused();
    }

    static method NewBuffers(dims: Dims, capacity: nat) returns (conv: seq<array<Elem>>, rec: seq<array<Elem>>)
      ensures |conv| == |rec| == dims.nLinear && Zeroed(conv) && Zeroed(rec)
      ensures Buffers(conv, capacity * dims.convElems) && Buffers(rec, capacity * dims.recElems)
      ensures fresh(BufferSet(conv) + BufferSet(rec))
      ensures forall l, m | 0 <= l < |conv| && 0 <= m < |rec| :: conv[l] != rec[m]
    {
      conv := AllocateBuffers(dims.nLinear, capacity * dims.convElems);
      rec := AllocateBuffers(dims.nLinear, capacity * dims.recElems);
      Disjoint(conv, rec);
    }

    /** Zeroed buffers and a fresh id list make the fresh pool. */
    lemma Unused()
      requires Laid() && ids.Model() == FreshIds(capacity) && Zeroed(conv) && Zeroed(rec)
      ensures Valid() && Model() == FreshDeltaPool(d, capacity)
    {
      ZeroSlots(Flats(conv), capacity, d.convElems);
      ZeroSlots(Flats(rec), capacity, d.recElems);
      FreshDeltaPoolValid(d, capacity);
    }

    method AcquireSlot() returns (slot: Option<nat>)
      requires Valid()
      modifies Repr()
      ensures Valid()
      ensures slot.None? <==> old(Model()).ids.free == []
      ensures slot.None? ==> Model() == old(Model())
      ensures slot.Some? ==> slot.value == old(Model()).ids.Top() && Model() == old(Model()).Acquired()
    {
      slot := ids.Acquire();
    }

    method ReleaseSlot(slot: int) returns (ok: bool)
      requires Valid()
      modifies Repr()
      ensures Valid()
      ensures ok == old(Model()).ids.IsLive(slot)
      ensures Model() == if ok then old(Model()).Released(d, slot) else old(Model())
    {
      if slot < 0 || slot >= capacity {
        return false;
      }
      if !ids.IsLive(slot) {
        return false;
      }
      ghost var was := Model();
      ReleasedValid(d, was, slot);
      ZeroSlotStorage(slot);
      ghost var zeroed := Model();
      ok := ids.Release(slot);
      assert Model().ids == was.ids.Released(slot);
      assert Model().conv == zeroed.conv && Model().rec == zeroed.rec;
    }

    method ResetSlot(slot: int) returns (ok: bool)
      requires Valid()
      modifies Repr()
      ensures Valid()
      ensures ok == old(Model()).ids.IsLive(slot)
      ensures Model() == if ok then old(Model()).Zeroed(d, slot) else old(Model())
    {
      if slot < 0 || slot >= capacity {
        return false;
      }
      if !ids.IsLive(slot) {
        return false;
      }
      ZeroSlotStorage(slot);
      ok := true;
    }

    method ZeroSlotStorage(slot: nat)
      requires Laid() && slot < capacity
      modifies BufferSet(conv), BufferSet(rec)
      ensures Slots(Flats(conv), capacity, d.convElems) ==
              old(Slots(Flats(conv), capacity, d.convElems))[slot := ZeroSlot(d.nLinear, d.convElems)]
      ensures Slots(Flats(rec), capacity, d.recElems) ==
              old(Slots(Flats(rec), capacity, d.recElems))[slot := ZeroSlot(d.nLinear, d.recElems)]
    {
      ZeroLayers(conv, capacity, d.convElems, slot);
      ZeroLayers(rec, capacity, d.recElems, slot);
    }

    /** The slot's slice of every layer's buffer, cleared one layer at a time. */
    static method ZeroLayers(buffers: seq<array<Elem>>, capacity: nat, elems: nat, slot: nat)
      requires Buffers(buffers, capacity * elems) && slot < capacity
      modifies BufferSet(buffers)
      ensures Slots(Flats(buffers), capacity, elems) ==
              old(Slots(Flats(buffers), capacity, elems))[slot := ZeroSlot(|buffers|, elems)]
    {
      ghost var was := Slots(Flats(buffers), capacity, elems);
      assert ZeroPrefix(was[slot], elems, 0) == was[slot];
      for l := 0 to |buffers|
        invariant Slots(Flats(buffers), capacity, elems) == was[slot := ZeroPrefix(was[slot], elems, l)]
      {
        ZeroPrefixStep(was, elems, slot, l);
        StoreSlot(buffers, capacity, elems, slot, l, seq(elems, _ => 0));
      }
      assert ZeroPrefix(was[slot], elems, |buffers|) == ZeroSlot(|buffers|, elems);
    }

    /** The in-place update of one layer's conv and recurrent state. */
    method WriteSlot(slot: nat, ord: nat, convRow: Row, recRow: Row)
      requires Laid() && slot < capacity && ord < d.nLinear
      requires |convRow| == d.convElems && |recRow| == d.recElems
      modifies conv[ord], rec[ord]
      ensures Model() == old(Model()).Stored(slot, ord, convRow, recRow)
    {
      StoreSlot(conv, capacity, d.convElems, slot, ord, convRow);
      StoreSlot(rec, capacity, d.recElems, slot, ord, recRow);
    }

    method LinearLayerOrdinal(layerIdx: int) returns (o: int)
      requires Laid()
      ensures if cfg.IsLinearAttention(layerIdx) then o == |LinearLayers(cfg, layerIdx)| else o == -1
      ensures o != -1 ==> 0 <= o < d.nLinear && linearLayerIdxs[o] == layerIdx
    {
      if !cfg.IsLinearAttention(layerIdx) {
        return -1;
      }
      LinearRank(cfg, layerIdx, LayerCount(cfg));
      for i := 0 to |linearLayerIdxs|
        invariant forall j | 0 <= j < i :: linearLayerIdxs[j] != layerIdx
      {
        if linearLayerIdxs[i] == layerIdx {
          return i;
        }
      }
      o := -1;
      assert false;
    }

    /** The byte formula is the size of all layers' buffers together. */
    lemma BytesAllocated()
      requires Laid()
      ensures capacity * DeltaSlotBytes(d) == BufferBytes(conv, 2) + BufferBytes(rec, 4)
    {
      SlotBytesTile(d, capacity);
      EqualBuffers(conv, capacity * d.convElems, BF16_BYTES);
      EqualBuffers(rec, capacity * d.recElems, FP32_BYTES);
    }

    method TotalBytes() returns (bytes: nat)
      requires Laid()
      ensures bytes == capacity * DeltaSlotBytes(d) == BufferBytes(conv, 2) + BufferBytes(rec, 4)
    {
      BytesAllocated();
      bytes := capacity * DeltaSlotBytes(d);
    }

    method UsedBytes() returns (bytes: nat)
      requires ids.Valid()
      ensures bytes == CountLive(ids.Model().live) * DeltaSlotBytes(d)
    {
      var used := ids.Used();
      bytes := used * DeltaSlotBytes(d);
    }
  }

  lemma ZeroSlots(flats: seq<seq<Elem>>, capacity: nat, elems: nat)
    requires forall l | 0 <= l < |flats| :: |flats[l]| == capacity * elems
    requires forall l, j | 0 <= l < |flats| && 0 <= j < capacity * elems :: flats[l][j] == 0
    ensures Slots(flats, capacity, elems) == ZeroStore(capacity, |flats|, elems)
  {
    forall s | 0 <= s < capacity
      ensures SlotView(flats, capacity, elems, s) == ZeroSlot(|flats|, elems)
    {
      forall l | 0 <= l < |flats|
        ensures SlotRow(flats[l], capacity, elems, s) == seq(elems, _ => 0)
      {
        NextMultiple(s, capacity, elems);
      }
    }
  }
}
