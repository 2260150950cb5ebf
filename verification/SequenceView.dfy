/** What one sequence sees of the shared pools: contiguous per-layer K and V
    caches, its recurrent state, its covered blocks and its length. Each manager
    operation is proved to act on that view exactly as it would on private storage,
    and to leave every other sequence's view alone. */
module SequenceViews {
  import opened Basics
  import opened Configs
  import opened FixedIdPools
  import opened PageLayout
  import opened KvBlockTables
  import opened DeltaStatePools
  import opened ManagerModel

  /** Contiguous caches, [layer ordinal][head][position] -> row. */
  type Cache = seq<seq<seq<Row>>>

  datatype SeqState = SeqState(k: Cache, v: Cache, conv: SlotData, rec: SlotData, blocks: nat, length: nat)

  // ----- private storage ----------------------------------------------------

  predicate CacheShape(d: Dims, c: Cache) {
    && |c| == d.nFull
    && forall o | 0 <= o < d.nFull ::
         && |c[o]| == d.nKv
         && forall n | 0 <= n < d.nKv :: |c[o][n]| == d.maxSeqLen
  }

  function ZeroCache(d: Dims): (c: Cache)
    ensures CacheShape(d, c)
  {
    seq(d.nFull, _ => seq(d.nKv, _ => seq(d.maxSeqLen, _ => ZeroRow(d))))
  }

  function FreshSeq(d: Dims): SeqState {
    SeqState(ZeroCache(d), ZeroCache(d), ZeroSlot(d.nLinear, d.convElems), ZeroSlot(d.nLinear, d.recElems), 0, 0)
  }

  predicate SeqShape(d: Dims, s: SeqState) {
    && CacheShape(d, s.k) && CacheShape(d, s.v)
    && SlotShape(d.nLinear, d.convElems, s.conv) && SlotShape(d.nLinear, d.recElems, s.rec)
  }

  /** One layer's contiguous cache with the row at `t` replaced in every head. */
  function LayerWrite(d: Dims, layer: seq<seq<Row>>, t: nat, packed: seq<Elem>): (r: seq<seq<Row>>)
    requires |layer| == d.nKv && forall n | 0 <= n < d.nKv :: t < |layer[n]|
    requires |packed| == d.nKv * d.headDim
    ensures |r| == d.nKv && forall n | 0 <= n < d.nKv :: |r[n]| == |layer[n]|
  {
    seq(d.nKv, n requires 0 <= n < d.nKv => layer[n][t := HeadRow(d, packed, n)])
  }

  function CacheWrite(d: Dims, c: Cache, ord: nat, t: nat, packed: seq<Elem>): (r: Cache)
    requires CacheShape(d, c) && ord < d.nFull && t < d.maxSeqLen && |packed| == d.nKv * d.headDim
    ensures CacheShape(d, r)
  {
    c[ord := LayerWrite(d, c[ord], t, packed)]
  }

  function SoloEnsure(d: Dims, s: SeqState, position: nat): SeqState
    requires d.pageTokens >= 1
  {
    s.(blocks := s.blocks + NewBlocks(d.pageTokens, s.blocks, position))
  }

  function SoloRow(d: Dims, s: SeqState, position: nat, ord: nat, kRow: seq<Elem>, vRow: seq<Elem>): SeqState
    requires SeqShape(d, s) && ord < d.nFull && position < d.maxSeqLen
    requires |kRow| == |vRow| == d.nKv * d.headDim
  {
    s.(k := CacheWrite(d, s.k, ord, position, kRow), v := CacheWrite(d, s.v, ord, position, vRow))
  }

  function SoloSlot(s: SeqState, ord: nat, convRow: Row, recRow: Row): SeqState
    requires ord < |s.conv| && ord < |s.rec|
  {
    s.(conv := s.conv[ord := convRow], rec := s.rec[ord := recRow])
  }

  // ----- the view through the block table -----------------------------------

  predicate InPool(pages: seq<nat>, capacity: nat) {
    forall i | 0 <= i < |pages| :: pages[i] < capacity
  }

  predicate Readable(d: Dims, m: Mgr, id: nat) {
    && d.Positive() && m.kv.Shaped(d) && m.delta.Shaped(d)
    && id in m.seqs && m.seqs[id].slot < |m.delta.conv| && InPool(m.seqs[id].pages, |m.kv.k|)
  }

  lemma InvReadable(d: Dims, m: Mgr, id: nat)
    requires Inv(d, m) && id in m.seqs
    ensures Readable(d, m, id)
    ensures Distinct(m.seqs[id].pages)
  {
    assert AllLive(m.kv.ids, m.seqs[id].pages);
  }

  predicate StoreShape(d: Dims, store: seq<PageData>) {
    forall p | 0 <= p < |store| :: PageShape(d, store[p])
  }

  /** The row a kernel reads for position t: through the table when the block is
      allocated, and a zero row when it is not. */
  function LogicalRow(d: Dims, store: seq<PageData>, pages: seq<nat>, o: nat, n: nat, t: nat): Row
    requires d.Positive() && StoreShape(d, store) && InPool(pages, |store|)
    requires o < d.nFull && n < d.nKv
  {
    if t / d.pageTokens < |pages| then store[pages[t / d.pageTokens]][o][n][t % d.pageTokens] else ZeroRow(d)
  }

  function Gather(d: Dims, store: seq<PageData>, pages: seq<nat>): (c: Cache)
    requires d.Positive() && StoreShape(d, store) && InPool(pages, |store|)
    ensures CacheShape(d, c)
  {
    seq(d.nFull, o requires 0 <= o < d.nFull =>
      seq(d.nKv, n requires 0 <= n < d.nKv =>
        seq(d.maxSeqLen, t requires 0 <= t < d.maxSeqLen => LogicalRow(d, store, pages, o, n, t))))
  }

  function SeqView(d: Dims, m: Mgr, id: nat): (s: SeqState)
    requires Readable(d, m, id)
    ensures SeqShape(d, s)
  {
    var r := m.seqs[id];
    SeqState(Gather(d, m.kv.k, r.pages), Gather(d, m.kv.v, r.pages),
             m.delta.conv[r.slot], m.delta.rec[r.slot], |r.pages|, r.length)
  }

  lemma CacheExt(d: Dims, a: Cache, b: Cache)
    requires CacheShape(d, a) && CacheShape(d, b)
    requires forall o, n, t | 0 <= o < d.nFull && 0 <= n < d.nKv && 0 <= t < d.maxSeqLen :: a[o][n][t] == b[o][n][t]
    ensures a == b
  {
    forall o | 0 <= o < d.nFull
      ensures a[o] == b[o]
    {
      forall n | 0 <= n < d.nKv
        ensures a[o][n] == b[o][n]
      {
      }
    }
  }

  /** Only the content of a sequence's own pages reaches its view. */
  lemma GatherFrame(d: Dims, store: seq<PageData>, after: seq<PageData>, pages: seq<nat>)
    requires d.Positive() && StoreShape(d, store) && StoreShape(d, after)
    requires InPool(pages, |store|) && InPool(pages, |after|)
    requires forall i | 0 <= i < |pages| :: store[pages[i]] == after[pages[i]]
    ensures Gather(d, store, pages) == Gather(d, after, pages)
  {
    CacheExt(d, Gather(d, store, pages), Gather(d, after, pages));
  }

  /** An empty table reads as an untouched cache. */
  lemma GatherEmpty(d: Dims, store: seq<PageData>)
    requires d.Positive() && StoreShape(d, store)
    ensures Gather(d, store, []) == ZeroCache(d)
  {
    CacheExt(d, Gather(d, store, []), ZeroCache(d));
  }

  /** Appending all-zero pages does not change what the table reads. */
  lemma GatherGrow(d: Dims, store: seq<PageData>, pages: seq<nat>, tail: seq<nat>)
    requires d.Positive() && StoreShape(d, store) && InPool(pages, |store|) && InPool(tail, |store|)
    requires forall i | 0 <= i < |tail| :: store[tail[i]] == ZeroPage(d)
    ensures Gather(d, store, pages + tail) == Gather(d, store, pages)
  {
    CacheExt(d, Gather(d, store, pages + tail), Gather(d, store, pages));
  }

  /** A row stored through a duplicate-free table lands on exactly the row a
      contiguous cache would have changed. */
  lemma GatherWrite(d: Dims, store: seq<PageData>, pages: seq<nat>, ord: nat, t: nat, packed: seq<Elem>)
    requires d.Positive() && StoreShape(d, store) && InPool(pages, |store|) && Distinct(pages)
    requires ord < d.nFull && t < d.maxSeqLen && t / d.pageTokens < |pages| && |packed| == d.nKv * d.headDim
    ensures var page := pages[t / d.pageTokens];
            var after := store[page := PutRow(d, store[page], ord, t % d.pageTokens, packed)];
            StoreShape(d, after) && Gather(d, after, pages) == CacheWrite(d, Gather(d, store, pages), ord, t, packed)
  {
    var page := pages[t / d.pageTokens];
    var after := store[page := PutRow(d, store[page], ord, t % d.pageTokens, packed)];
    var want := CacheWrite(d, Gather(d, store, pages), ord, t, packed);
    forall o, n, u | 0 <= o < d.nFull && 0 <= n < d.nKv && 0 <= u < d.maxSeqLen
      ensures LogicalRow(d, after, pages, o, n, u) == want[o][n][u]
    {
      LogicalRowWrite(d, store, pages, ord, t, packed, o, n, u);
    }
    CacheExt(d, Gather(d, after, pages), want);
  }

  lemma LogicalRowWrite(d: Dims, store: seq<PageData>, pages: seq<nat>, ord: nat, t: nat, packed: seq<Elem>,
                        o: nat, n: nat, u: nat)
    requires d.Positive() && StoreShape(d, store) && InPool(pages, |store|) && Distinct(pages)
    requires ord < d.nFull && t < d.maxSeqLen && t / d.pageTokens < |pages| && |packed| == d.nKv * d.headDim
    requires o < d.nFull && n < d.nKv
    ensures var page := pages[t / d.pageTokens];
            var after := store[page := PutRow(d, store[page], ord, t % d.pageTokens, packed)];
            LogicalRow(d, after, pages, o, n, u) ==
            if o == ord && u == t then HeadRow(d, packed, n) else LogicalRow(d, store, pages, o, n, u)
  {
    SamePlace(t, u, d.pageTokens);
    var b, c := t / d.pageTokens, u / d.pageTokens;
    assert c < |pages| && c != b ==> pages[c] != pages[b];
  }

  lemma SamePlace(t: nat, u: nat, pageTokens: nat)
    requires pageTokens >= 1
    ensures t / pageTokens == u / pageTokens && t % pageTokens == u % pageTokens <==> t == u
  {
    assert t == (t / pageTokens) * pageTokens + t % pageTokens;
    assert u == (u / pageTokens) * pageTokens + u % pageTokens;
  }

  // ----- each operation on the view -----------------------------------------

  lemma ViewFrame(d: Dims, m: Mgr, after: Mgr, id: nat)
    requires Readable(d, m, id) && Readable(d, after, id)
    requires m.seqs[id] == after.seqs[id]
    requires forall i | 0 <= i < |m.seqs[id].pages| ::
               var p := m.seqs[id].pages[i];
               m.kv.k[p] == after.kv.k[p] && m.kv.v[p] == after.kv.v[p]
    requires m.delta.conv[m.seqs[id].slot] == after.delta.conv[m.seqs[id].slot]
    requires m.delta.rec[m.seqs[id].slot] == after.delta.rec[m.seqs[id].slot]
    ensures SeqView(d, m, id) == SeqView(d, after, id)
  {
    GatherFrame(d, m.kv.k, after.kv.k, m.seqs[id].pages);
    GatherFrame(d, m.kv.v, after.kv.v, m.seqs[id].pages);
  }

  /** A new sequence sees untouched storage, whatever its slot held before. */
  lemma CreatedView(d: Dims, m: Mgr)
    requires Inv(d, m) && CanCreate(m)
    ensures Readable(d, Created(m), m.nextId) && SeqView(d, Created(m), m.nextId) == FreshSeq(d)
  {
    CreatedInv(d, m);
    InvReadable(d, Created(m), m.nextId);
    GatherEmpty(d, m.kv.k);
    GatherEmpty(d, m.kv.v);
    assert !m.delta.ids.live[m.delta.ids.Top()];
  }

  lemma CreatedOther(d: Dims, m: Mgr, other: nat)
    requires Inv(d, m) && CanCreate(m) && other in m.seqs
    ensures Readable(d, m, other) && Readable(d, Created(m), other)
    ensures SeqView(d, Created(m), other) == SeqView(d, m, other)
  {
    InvReadable(d, m, other);
    CreatedInv(d, m);
    InvReadable(d, Created(m), other);
    ViewFrame(d, m, Created(m), other);
  }

  /** Growth is invisible except for the covered block count: fresh pages are zero. */
  lemma EnsuredView(d: Dims, m: Mgr, id: nat, position: nat)
    requires Inv(d, m) && CanEnsureKv(d, m, id, position)
    ensures Readable(d, m, id) && Readable(d, Ensured(d, m, id, position), id)
    ensures SeqView(d, Ensured(d, m, id, position), id) == SoloEnsure(d, SeqView(d, m, id), position)
  {
    InvReadable(d, m, id);
    EnsuredInv(d, m, id, position);
    var after := Ensured(d, m, id, position);
    InvReadable(d, after, id);
    var r, n := m.seqs[id], NewBlocks(d.pageTokens, |m.seqs[id].pages|, position);
    TakenFresh(m.kv.ids, n);
    GatherGrow(d, m.kv.k, r.pages, Taken(m.kv.ids, n));
    GatherGrow(d, m.kv.v, r.pages, Taken(m.kv.ids, n));
  }

  lemma EnsuredOther(d: Dims, m: Mgr, id: nat, position: nat, other: nat)
    requires Inv(d, m) && CanEnsureKv(d, m, id, position) && other in m.seqs && other != id
    ensures Readable(d, m, other) && Readable(d, Ensured(d, m, id, position), other)
    ensures SeqView(d, Ensured(d, m, id, position), other) == SeqView(d, m, other)
  {
    InvReadable(d, m, other);
    EnsuredInv(d, m, id, position);
    InvReadable(d, Ensured(d, m, id, position), other);
    ViewFrame(d, m, Ensured(d, m, id, position), other);
  }

  lemma LengthSetView(d: Dims, m: Mgr, id: nat, newLength: nat, other: nat)
    requires Readable(d, m, id) && Readable(d, m, other)
    ensures Readable(d, LengthSet(m, id, newLength), other)
    ensures SeqView(d, LengthSet(m, id, newLength), other) ==
            if other == id then SeqView(d, m, id).(length := newLength) else SeqView(d, m, other)
  {
  }

  /** Two live sequences never share a page or a slot. */
  lemma NoAlias(d: Dims, m: Mgr, id: nat, other: nat)
    requires Inv(d, m) && id in m.seqs && other in m.seqs && id != other
    ensures m.seqs[id].slot != m.seqs[other].slot
    ensures forall i | 0 <= i < |m.seqs[other].pages| :: m.seqs[other].pages[i] !in m.seqs[id].pages
  {
    assert Holds(m.seqs, id, m.seqs[id].slot) && Holds(m.seqs, other, m.seqs[other].slot);
    forall i | 0 <= i < |m.seqs[other].pages|
      ensures m.seqs[other].pages[i] !in m.seqs[id].pages
    {
      assert Owns(m.seqs, other, m.seqs[other].pages[i]);
      assert Owns(m.seqs, id, m.seqs[other].pages[i]) ==> id == other;
    }
  }

  /** After a reset the sequence cannot be told from a fresh one. */
  lemma WasResetView(d: Dims, m: Mgr, id: nat)
    requires Inv(d, m) && id in m.seqs
    ensures Clearable(m, id) && m.delta.ids.IsLive(m.seqs[id].slot) && Readable(d, WasReset(d, m, id), id)
    ensures SeqView(d, WasReset(d, m, id), id) == FreshSeq(d)
  {
    AlwaysClearable(d, m, id);
    WasResetInv(d, m, id);
    InvReadable(d, WasReset(d, m, id), id);
    GatherEmpty(d, WasReset(d, m, id).kv.k);
    GatherEmpty(d, WasReset(d, m, id).kv.v);
  }

  lemma WasResetOther(d: Dims, m: Mgr, id: nat, other: nat)
    requires Inv(d, m) && id in m.seqs && other in m.seqs && other != id
    ensures Clearable(m, id) && Readable(d, m, other) && Readable(d, WasReset(d, m, id), other)
    ensures SeqView(d, WasReset(d, m, id), other) == SeqView(d, m, other)
  {
    InvReadable(d, m, other);
    WasResetInv(d, m, id);
    InvReadable(d, WasReset(d, m, id), other);
    NoAlias(d, m, id, other);
    ViewFrame(d, m, WasReset(d, m, id), other);
  }

  lemma RetiredOther(d: Dims, m: Mgr, id: nat, other: nat)
    requires Inv(d, m) && id in m.seqs && other in m.seqs && other != id
    ensures Clearable(m, id) && m.delta.ids.IsLive(m.seqs[id].slot)
    ensures Readable(d, m, other) && Readable(d, Retired(d, m, id), other)
    ensures SeqView(d, Retired(d, m, id), other) == SeqView(d, m, other)
  {
    AlwaysClearable(d, m, id);
    InvReadable(d, m, other);
    RetiredInv(d, m, id);
    InvReadable(d, Retired(d, m, id), other);
    NoAlias(d, m, id, other);
    ViewFrame(d, m, Retired(d, m, id), other);
  }

  lemma RowWrittenView(d: Dims, m: Mgr, id: nat, position: nat, ord: nat, kRow: seq<Elem>, vRow: seq<Elem>)
    requires Inv(d, m) && Covered(d, m, id, position)
    requires ord < d.nFull && |kRow| == |vRow| == d.nKv * d.headDim
    ensures Readable(d, m, id) && Readable(d, RowWritten(d, m, id, position, ord, kRow, vRow), id)
    ensures SeqView(d, RowWritten(d, m, id, position, ord, kRow, vRow), id) ==
            SoloRow(d, SeqView(d, m, id), position, ord, kRow, vRow)
  {
    InvReadable(d, m, id);
    RowWrittenInv(d, m, id, position, ord, kRow, vRow);
    InvReadable(d, RowWritten(d, m, id, position, ord, kRow, vRow), id);
    GatherWrite(d, m.kv.k, m.seqs[id].pages, ord, position, kRow);
    GatherWrite(d, m.kv.v, m.seqs[id].pages, ord, position, vRow);
  }

  lemma RowWrittenOther(d: Dims, m: Mgr, id: nat, position: nat, ord: nat, kRow: seq<Elem>, vRow: seq<Elem>, other: nat)
    requires Inv(d, m) && Covered(d, m, id, position) && other in m.seqs && other != id
    requires ord < d.nFull && |kRow| == |vRow| == d.nKv * d.headDim
    ensures Readable(d, m, id) && Readable(d, m, other)
    ensures Readable(d, RowWritten(d, m, id, position, ord, kRow, vRow), other)
    ensures SeqView(d, RowWritten(d, m, id, position, ord, kRow, vRow), other) == SeqView(d, m, other)
  {
    InvReadable(d, m, id);
    InvReadable(d, m, other);
    RowWrittenInv(d, m, id, position, ord, kRow, vRow);
    InvReadable(d, RowWritten(d, m, id, position, ord, kRow, vRow), other);
    NoAlias(d, m, id, other);
    ViewFrame(d, m, RowWritten(d, m, id, position, ord, kRow, vRow), other);
  }

  lemma SlotWrittenView(d: Dims, m: Mgr, id: nat, ord: nat, convRow: Row, recRow: Row, other: nat)
    requires Inv(d, m) && id in m.seqs && other in m.seqs && ord < d.nLinear
    requires |convRow| == d.convElems && |recRow| == d.recElems
    ensures Readable(d, m, id) && Readable(d, m, other)
    ensures Readable(d, SlotWritten(d, m, id, ord, convRow, recRow), other)
    ensures SeqView(d, SlotWritten(d, m, id, ord, convRow, recRow), other) ==
            if other == id then SoloSlot(SeqView(d, m, id), ord, convRow, recRow) else SeqView(d, m, other)
  {
    InvReadable(d, m, id);
    InvReadable(d, m, other);
    SlotWrittenInv(d, m, id, ord, convRow, recRow);
    InvReadable(d, SlotWritten(d, m, id, ord, convRow, recRow), other);
    if other != id {
      NoAlias(d, m, id, other);
    }
  }
}
