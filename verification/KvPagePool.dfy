/** The paged K/V pool: one page id addresses the same logical token block in
    every full-attention layer. Released pages are zeroed. */
module KvPagePools {
  import opened Basics
  import opened Configs
  import opened FixedIdPools
  import opened PageLayout

  datatype KvPool = KvPool(ids: IdPool, k: seq<PageData>, v: seq<PageData>) {

    predicate Shaped(d: Dims) {
      && |k| == |v| == |ids.live|
      && (forall p | 0 <= p < |k| :: PageShape(d, k[p]))
      && (forall p | 0 <= p < |v| :: PageShape(d, v[p]))
    }

    /** Zero on release: whatever is not live is all zero, in K and in V. */
    predicate FreeZero(d: Dims)
      requires Shaped(d)
    {
      forall p | 0 <= p < |ids.live| && !ids.live[p] :: k[p] == ZeroPage(d) && v[p] == ZeroPage(d)
    }

    ghost predicate Valid(d: Dims) {
      ids.Valid() && Shaped(d) && FreeZero(d)
    }

    function Allocated(): KvPool
      requires ids.free != [] && ids.Top() < |ids.live|
    {
      this.(ids := ids.Acquired())
    }

    function Freed(d: Dims, page: nat): KvPool
      requires ids.IsLive(page) && |k| == |v| == |ids.live|
    {
      KvPool(ids.Released(page), k[page := ZeroPage(d)], v[page := ZeroPage(d)])
    }

    /** One token's K and V rows of one layer, stored at an offset of a page. */
    function RowStored(d: Dims, ord: nat, page: nat, off: nat, kRow: seq<Elem>, vRow: seq<Elem>): KvPool
      requires Shaped(d) && page < |k| && ord < d.nFull && off < d.pageTokens
      requires |kRow| == |vRow| == d.nKv * d.headDim
    {
      KvPool(ids, k[page := PutRow(d, k[page], ord, off, kRow)], v[page := PutRow(d, v[page], ord, off, vRow)])
    }

    function Emptied(d: Dims): KvPool {
      KvPool(ids.Emptied(), seq(|k|, _ => ZeroPage(d)), seq(|v|, _ => ZeroPage(d)))
    }
  }

  function FreshKvPool(d: Dims, capacity: nat): KvPool {
    KvPool(FreshIds(capacity), seq(capacity, _ => ZeroPage(d)), seq(capacity, _ => ZeroPage(d)))
  }

  lemma FreshKvPoolValid(d: Dims, capacity: nat)
    ensures FreshKvPool(d, capacity).Valid(d)
  {
    FreshIdsValid(capacity);
  }

  lemma FreedValid(d: Dims, kv: KvPool, page: nat)
    requires kv.Valid(d) && kv.ids.IsLive(page)
    ensures kv.Freed(d, page).Valid(d)
  {
    ReleaseValid(kv.ids, page);
  }

  // ----- several pages at once ----------------------------------------------

  function AllocatedMany(kv: KvPool, n: nat): KvPool
    requires FreeInRange(kv.ids) && n <= |kv.ids.free|
  {
    kv.(ids := AcquiredMany(kv.ids, n))
  }

  lemma AllocatedManyValid(d: Dims, kv: KvPool, n: nat)
    requires kv.Valid(d) && n <= |kv.ids.free|
    ensures AllocatedMany(kv, n).Valid(d)
  {
    AcquiredManyValid(kv.ids, n);
    AcquiredManyLive(kv.ids, n);
  }

  /** A page taken and handed straight back leaves ids, order and content as they
      were: the top of the free list is popped, is still all zero, and is pushed
      back on top. */
  lemma AllocateFreeUndo(d: Dims, kv: KvPool, n: nat)
    requires kv.Valid(d) && 0 < n <= |kv.ids.free|
    ensures AllocatedMany(kv, n).ids.IsLive(Taken(kv.ids, n)[n - 1])
    ensures AllocatedMany(kv, n).Freed(d, Taken(kv.ids, n)[n - 1]) == AllocatedMany(kv, n - 1)
  {
    AllocatedStep(kv, n);
    AllocatedManyValid(d, kv, n - 1);
    UndoOnto(d, AllocatedMany(kv, n - 1), AllocatedMany(kv, n), Taken(kv.ids, n)[n - 1]);
  }

  lemma UndoOnto(d: Dims, before: KvPool, after: KvPool, page: nat)
    requires before.Valid(d) && before.ids.free != [] && before.ids.Top() < |before.ids.live|
    requires after == before.Allocated() && page == before.ids.Top()
    ensures after.ids.IsLive(page) && page < |after.k| && page < |after.v|
    ensures after.Freed(d, page) == before
  {
    OnePageUndo(d, before);
  }

  lemma AllocatedStep(kv: KvPool, n: nat)
    requires FreeInRange(kv.ids) && 0 < n <= |kv.ids.free|
    ensures var before := AllocatedMany(kv, n - 1);
            && before.ids.free != [] && before.ids.Top() < |before.ids.live|
            && AllocatedMany(kv, n) == before.Allocated()
            && Taken(kv.ids, n)[n - 1] == before.ids.Top()
  {
    TakenStep(kv.ids, n);
  }

  lemma OnePageUndo(d: Dims, kv: KvPool)
    requires kv.Valid(d) && kv.ids.free != []
    ensures kv.Allocated().ids.IsLive(kv.ids.Top())
    ensures kv.Allocated().Freed(d, kv.ids.Top()) == kv
  {
    var last := kv.ids.Top();
    AcquireReleaseUndo(kv.ids, last);
    assert !kv.ids.live[last];
    assert kv.k[last := ZeroPage(d)] == kv.k;
    assert kv.v[last := ZeroPage(d)] == kv.v;
  }

  function ZeroedPages(d: Dims, store: seq<PageData>, pages: seq<nat>): (r: seq<PageData>)
    ensures |r| == |store|
  {
    seq(|store|, p requires 0 <= p < |store| => if p in pages then ZeroPage(d) else store[p])
  }

  function FreedMany(d: Dims, kv: KvPool, pages: seq<nat>): KvPool
    requires Distinct(pages) && AllLive(kv.ids, pages)
  {
    KvPool(ReleasedMany(kv.ids, pages), ZeroedPages(d, kv.k, pages), ZeroedPages(d, kv.v, pages))
  }

  lemma FreedManyValid(d: Dims, kv: KvPool, pages: seq<nat>)
    requires kv.Valid(d) && Distinct(pages) && AllLive(kv.ids, pages)
    ensures FreedMany(d, kv, pages).Valid(d)
  {
    ReleasedManyValid(kv.ids, pages);
  }

  lemma FreedManyStep(d: Dims, kv: KvPool, pages: seq<nat>, n: nat)
    requires kv.Valid(d) && Distinct(pages) && AllLive(kv.ids, pages) && n < |pages|
    ensures Distinct(pages[..n]) && AllLive(kv.ids, pages[..n])
    ensures Distinct(pages[..n + 1]) && AllLive(kv.ids, pages[..n + 1])
    ensures FreedMany(d, kv, pages[..n]).ids.IsLive(pages[n])
    ensures FreedMany(d, kv, pages[..n + 1]) == FreedMany(d, kv, pages[..n]).Freed(d, pages[n])
  {
    assert kv.ids.IsLive(pages[n]);
    assert pages[..n + 1][..n] == pages[..n];
    assert pages[..n + 1] == pages[..n] + [pages[n]];
    ZeroedPagesStep(d, kv.k, pages[..n], pages[n]);
    ZeroedPagesStep(d, kv.v, pages[..n], pages[n]);
  }

  lemma ZeroedPagesStep(d: Dims, store: seq<PageData>, pages: seq<nat>, page: nat)
    requires page < |store|
    ensures ZeroedPages(d, store, pages + [page]) == ZeroedPages(d, store, pages)[page := ZeroPage(d)]
  {
  }

  /** Zeroing the live pages of a valid pool leaves no page with content. */
  lemma AllZeroed(d: Dims, kv: KvPool, live: seq<nat>)
    requires kv.Valid(d) && live == LiveIds(kv.ids.live)
    ensures ZeroedPages(d, kv.k, live) == kv.Emptied(d).k
    ensures ZeroedPages(d, kv.v, live) == kv.Emptied(d).v
  {
    LiveIdsComplete(kv.ids.live);
  }

  // ----- the device pool ----------------------------------------------------

  lemma ViewZeros(d: Dims, capacity: nat, flat: seq<Elem>)
    requires d.KvPositive() && |flat| == Total(d, capacity)
    requires forall j | 0 <= j < |flat| :: flat[j] == 0
    ensures View(d, capacity, flat) == seq(capacity, _ => ZeroPage(d))
  {
    forall p | 0 <= p < capacity
      ensures ViewPage(d, capacity, flat, p) == ZeroPage(d)
    {
      forall o, n, off | 0 <= o < d.nFull && 0 <= n < d.nKv && 0 <= off < d.pageTokens
        ensures ViewRow(d, capacity, flat, o, p, n, off) == ZeroRow(d)
      {
        ViewRowExt(d, capacity, flat, o, p, n, off, ZeroRow(d));
      }
      PageExt(d, ViewPage(d, capacity, flat, p), ZeroPage(d));
    }
  }

  lemma SliceFits(d: Dims, capacity: nat, l: nat, page: nat)
    requires l < d.nFull && page < capacity
    ensures SliceStart(d, capacity, l, page) + d.PageElems() <= Total(d, capacity)
  {
    MixedRadixBound(l, page, d.nFull, capacity);
    NextMultiple(l * capacity + page, d.nFull * capacity, d.PageElems());
  }

  class KvPagePool {
    const cfg: Config
    const d: Dims
    const capacity: nat
    const ids: FixedIdPool
    const k: array<Elem>
    const v: array<Elem>
    const fullLayerIdxs: seq<nat>
    const stream: int

    ghost function Repr(): set<object> {
      {ids, ids.live, k, v}
    }

    /** What construction fixes for good. */
    ghost predicate Laid() {
      && d.KvPositive() && k != v
      && ids.capacity == ids.live.Length == capacity
      && k.Length == v.Length == Total(d, capacity)
      && fullLayerIdxs == FullLayers(cfg, LayerCount(cfg))
      && d.nFull == |fullLayerIdxs|
    }

    function Model(): KvPool
      requires Laid()
      reads Repr()
    {
      KvPool(ids.Model(), View(d, capacity, k[..]), View(d, capacity, v[..]))
    }

    ghost predicate Valid()
      reads Repr()
    {
      Laid() && Model().Valid(d)
    }

    constructor (cfg: Config, pageTokens: nat, numPages: nat, stream: int)
      requires KvReady(cfg) && pageTokens >= 1
      ensures Valid() && fresh(Repr())
      ensures this.cfg == cfg && d == DimsOf(cfg, pageTokens) && capacity == numPages && this.stream == stream
      ensures Model() == FreshKvPool(d, numPages)
      ensures d.nKv == cfg.nKvHeads && d.headDim == cfg.headDim && d.pageTokens == pageTokens
      ensures cfg.fullAttentionInterval > 0 && d.nFull == cfg.numHiddenLayers / cfg.fullAttentionInterval
      ensures k.Length == v.Length == d.nFull * numPages * (d.nKv * d.pageTokens * d.headDim)
    {
      FullIntervalPositive(cfg, LayerCount(cfg));
      FullScheduleClosedForm(cfg, LayerCount(cfg));
      this.cfg := cfg;
      this.stream := stream;
      d := DimsOf(cfg, pageTokens);
      capacity := numPages;
      ids := new FixedIdPool(numPages);
      fullLayerIdxs := FullLayers(cfg, LayerCount(cfg));
      k := new Elem[Total(DimsOf(cfg, pageTokens), numPages)](_ => 0);
      v := new Elem[Total(DimsOf(cfg, pageTokens), numPages)](_ => 0);
      new;
      ViewZeros(d, capacity, k[..]);
      ViewZeros(d, capacity, v[..]);
      FreshKvPoolValid(d, capacity);
    }

    method AllocatePage() returns (page: Option<nat>)
      requires Valid()
      modifies Repr()
      ensures Valid()
      ensures page.None? <==> old(Model()).ids.free == []
      ensures page.None? ==> Model() == old(Model())
      ensures page.Some? ==> page.value == old(Model()).ids.Top() && Model() == old(Model()).Allocated()
    {
      page := ids.Acquire();
    }

    method FreePage(page: int) returns (ok: bool)
      requires Valid()
      modifies Repr()
      ensures Valid()
      ensures ok == old(Model()).ids.IsLive(page)
      ensures Model() == if ok then old(Model()).Freed(d, page) else old(Model())
    {
      if page < 0 || page >= capacity {
        return false;
      }
      if !ids.IsLive(page) {
        return false;
      }
      FreedValid(d, Model(), page);
      ZeroPage(page);
      ok := ids.Release(page);
    }

    /** Clears the page's slice of every layer, K and V. */
    method ZeroPage(page: nat)
      requires Laid() && page < capacity
      modifies k, v
      ensures View(d, capacity, k[..]) == old(View(d, capacity, k[..]))[page := PageLayout.ZeroPage(d)]
      ensures View(d, capacity, v[..]) == old(View(d, capacity, v[..]))[page := PageLayout.ZeroPage(d)]
    {
      ghost var kWas, vWas := k[..], v[..];
      ClearedNone(d, capacity, kWas, page);
      ClearedNone(d, capacity, vWas, page);
      for l := 0 to d.nFull
        invariant k[..] == Cleared(d, capacity, kWas, page, l)
        invariant v[..] == Cleared(d, capacity, vWas, page, l)
      {
        SliceFits(d, capacity, l, page);
        var start := SliceStart(d, capacity, l, page);
        Memset(k, start, d.PageElems());
        Memset(v, start, d.PageElems());
        ClearedStep(d, capacity, kWas, page, l, k[..]);
        ClearedStep(d, capacity, vWas, page, l, v[..]);
      }
      ClearedView(d, capacity, kWas, page);
      ClearedView(d, capacity, vWas, page);
    }

    method Reset()
      requires Valid()
      modifies Repr()
      ensures Valid()
      ensures Model() == old(Model()).Emptied(d)
    {
      ghost var was := Model();
      var live := ids.LiveList();
      LiveIdsComplete(was.ids.live);
      ZeroPages(live);
      AllZeroed(d, was, live);
      EmptiedValid(was.ids);
      ids.Reset();
    }

    method ZeroPages(pages: seq<nat>)
      requires Laid() && forall i | 0 <= i < |pages| :: pages[i] < capacity
      modifies k, v
      ensures View(d, capacity, k[..]) == ZeroedPages(d, old(View(d, capacity, k[..])), pages)
      ensures View(d, capacity, v[..]) == ZeroedPages(d, old(View(d, capacity, v[..])), pages)
    {
      ghost var kWas, vWas := View(d, capacity, k[..]), View(d, capacity, v[..]);
      for i := 0 to |pages|
        invariant View(d, capacity, k[..]) == ZeroedPages(d, kWas, pages[..i])
        invariant View(d, capacity, v[..]) == ZeroedPages(d, vWas, pages[..i])
      {
        assert pages[..i + 1] == pages[..i] + [pages[i]];
        ZeroedPagesStep(d, kWas, pages[..i], pages[i]);
        ZeroedPagesStep(d, vWas, pages[..i], pages[i]);
        ZeroPage(pages[i]);
      }
      assert pages[..|pages|] == pages;
    }

    /** The paged write: both rows of one token, in one layer. */
    method WriteRow(ord: nat, page: nat, off: nat, kRow: seq<Elem>, vRow: seq<Elem>)
      requires Laid() && ord < d.nFull && page < capacity && off < d.pageTokens
      requires |kRow| == |vRow| == d.nKv * d.headDim
      modifies k, v
      ensures Model() == old(Model()).RowStored(d, ord, page, off, kRow, vRow)
    {
      ghost var kWas, vWas := k[..], v[..];
      StoreRow(d, capacity, k, ord, page, off, kRow);
      StoreRow(d, capacity, v, ord, page, off, vRow);
      StoredView(d, capacity, kWas, ord, page, off, kRow);
      StoredView(d, capacity, vWas, ord, page, off, vRow);
    }

    method FullLayerOrdinal(layerIdx: int) returns (o: int)
      requires Laid()
      ensures if cfg.IsFullAttention(layerIdx) then o == (layerIdx + 1) / cfg.fullAttentionInterval - 1 else o == -1
      ensures o != -1 ==> o == |FullLayers(cfg, layerIdx)| < d.nFull && fullLayerIdxs[o] == layerIdx
    {
      if !cfg.IsFullAttention(layerIdx) {
        return -1;
      }
      FullOrdinalOf(cfg, layerIdx);
      FullRank(cfg, layerIdx, LayerCount(cfg));
      for i := 0 to |fullLayerIdxs|
        invariant forall j | 0 <= j < i :: fullLayerIdxs[j] != layerIdx
      {
        if fullLayerIdxs[i] == layerIdx {
          return i;
        }
      }
      o := -1;
      assert false;
    }

    method LayerOfFullOrdinal(ordinal: int) returns (layer: int)
      requires Laid()
      ensures if 0 <= ordinal < d.nFull then layer == (ordinal + 1) * cfg.fullAttentionInterval - 1 else layer == -1
    {
      if ordinal < 0 || ordinal >= |fullLayerIdxs| {
        return -1;
      }
      layer := fullLayerIdxs[ordinal];
      FullIntervalPositive(cfg, LayerCount(cfg));
      FullScheduleClosedForm(cfg, LayerCount(cfg));
    }

    /** The byte formula is the size of the two buffers really allocated. */
    lemma BytesAllocated()
      requires Laid()
      ensures capacity * KvPageBytes(d) == (k.Length + v.Length) * 2
    {
      PageBytesTile(d, capacity);
    }

    method TotalBytes() returns (bytes: nat)
      requires Laid()
      ensures bytes == capacity * KvPageBytes(d) == (k.Length + v.Length) * 2
    {
      BytesAllocated();
      bytes := capacity * KvPageBytes(d);
    }

    method UsedBytes() returns (bytes: nat)
      requires ids.Valid()
      ensures bytes == CountLive(ids.Model().live) * KvPageBytes(d)
    {
      var used := ids.Used();
      bytes := used * KvPageBytes(d);
    }
  }

  lemma {:induction false} FullIntervalPositive(cfg: Config, n: nat)
    requires FullLayers(cfg, n) != []
    ensures cfg.fullAttentionInterval > 0
  {
    if !cfg.IsFullAttention(n - 1) {
      FullIntervalPositive(cfg, n - 1);
    }
  }
}
