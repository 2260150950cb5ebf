/** The contiguous per-layer cache, [kv head][position][head dim]: the simple form
    the paged storage must agree with. */
module KvCaches {
  import opened Basics
  import opened Configs
  import opened PageLayout
  import opened SequenceViews
  import opened Forwards

  /** A contiguous cache is a single page that holds every position. */
  function CacheDims(nKv: nat, maxSeq: nat, headDim: nat): Dims {
    Dims(1, nKv, maxSeq, headDim, maxSeq, 0, 0, 0)
  }

  class KvCache {
    const nKv: nat
    const maxSeq: nat
    const headDim: nat
    const k: array<Elem>
    const v: array<Elem>

    ghost predicate Valid() {
      && nKv >= 1 && maxSeq >= 1 && headDim >= 1 && k != v
      && k.Length == v.Length == Total(CacheDims(nKv, maxSeq, headDim), 1)
    }

    /** The structured view of one buffer: [head][position] -> row. */
    function Rows(a: array<Elem>): (layer: seq<seq<Row>>)
      requires Valid() && (a == k || a == v)
      reads a
      ensures |layer| == nKv && forall n | 0 <= n < nKv :: |layer[n]| == maxSeq
    {
      View(CacheDims(nKv, maxSeq, headDim), 1, a[..])[0][0]
    }

    constructor (cfg: Config)
      requires cfg.nKvHeads >= 1 && cfg.maxSeqLen >= 1 && cfg.headDim >= 1
      ensures Valid() && nKv == cfg.nKvHeads && maxSeq == cfg.maxSeqLen && headDim == cfg.headDim
      ensures k.Length == v.Length == nKv * maxSeq * headDim
      ensures Rows(k) == Rows(v) == seq(nKv, _ => seq(maxSeq, _ => seq(headDim, _ => 0)))
    {
      nKv, maxSeq, headDim := cfg.nKvHeads, cfg.maxSeqLen, cfg.headDim;
      var total := Total(CacheDims(cfg.nKvHeads, cfg.maxSeqLen, cfg.headDim), 1);
      k := new Elem[total](_ => 0);
      v := new Elem[total](_ => 0);
      new;
      ZeroRows(nKv, maxSeq, headDim, k[..]);
      ZeroRows(nKv, maxSeq, headDim, v[..]);
    }

    /** Flat offset of row (n, t). */
    function RowOffset(n: nat, t: nat): int {
      (n * maxSeq + t) * headDim
    }

    /** Stores the token's K and V rows at `position`, all heads; every other row is
        left as it was. */
    method Write(position: nat, kRow: seq<Elem>, vRow: seq<Elem>)
      requires Valid() && position < maxSeq && |kRow| == |vRow| == nKv * headDim
      modifies k, v
      ensures Rows(k) == LayerWrite(CacheDims(nKv, maxSeq, headDim), old(Rows(k)), position, kRow)
      ensures Rows(v) == LayerWrite(CacheDims(nKv, maxSeq, headDim), old(Rows(v)), position, vRow)
    {
      WriteOne(k, position, kRow);
      WriteOne(v, position, vRow);
    }

    method WriteOne(a: array<Elem>, position: nat, packed: seq<Elem>)
      requires Valid() && (a == k || a == v) && position < maxSeq && |packed| == nKv * headDim
      modifies a
      ensures Rows(a) == LayerWrite(CacheDims(nKv, maxSeq, headDim), old(Rows(a)), position, packed)
    {
      ghost var d, was := CacheDims(nKv, maxSeq, headDim), a[..];
      assert was == Stored(d, 1, was, 0, 0, position, packed, 0);
      for idx := 0 to nKv * headDim
        invariant a[..] == Stored(d, 1, was, 0, 0, position, packed, idx)
      {
        StoreStep(d, 1, was, 0, 0, position, packed, idx);
        Contiguous(nKv, maxSeq, headDim, position, idx);
        var n, x := idx / headDim, idx % headDim;
        a[RowOffset(n, position) + x] := packed[idx];
      }
      StoredView(d, 1, was, 0, 0, position, packed);
    }
  }

  lemma Contiguous(nKv: nat, maxSeq: nat, headDim: nat, position: nat, idx: nat)
    requires headDim >= 1
    ensures Destination(CacheDims(nKv, maxSeq, headDim), 1, 0, 0, position, idx) ==
            (idx / headDim * maxSeq + position) * headDim + idx % headDim
    ensures idx / headDim >= 0
  {
  }

  lemma ZeroRows(nKv: nat, maxSeq: nat, headDim: nat, flat: seq<Elem>)
    requires nKv >= 1 && maxSeq >= 1 && headDim >= 1
    requires |flat| == Total(CacheDims(nKv, maxSeq, headDim), 1)
    requires forall j | 0 <= j < |flat| :: flat[j] == 0
    ensures View(CacheDims(nKv, maxSeq, headDim), 1, flat)[0][0] ==
            seq(nKv, _ => seq(maxSeq, _ => seq(headDim, _ => 0)))
  {
    var d := CacheDims(nKv, maxSeq, headDim);
    var page, zero := ViewPage(d, 1, flat, 0), ZeroPage(d);
    forall o, n, off | 0 <= o < d.nFull && 0 <= n < d.nKv && 0 <= off < d.pageTokens
      ensures page[o][n][off] == zero[o][n][off]
    {
      ViewRowExt(d, 1, flat, o, 0, n, off, ZeroRow(d));
    }
    PageExt(d, page, zero);
    var want: seq<seq<Row>> := seq(nKv, _ => seq(maxSeq, _ => seq(headDim, _ => 0)));
    assert zero[0] == want;
  }

  /** One token stored through a block table changes, in every layer, exactly what
      `Write` changes in a contiguous cache holding the same rows. */
  lemma PagedMatchesContiguous(d: Dims, store: seq<PageData>, pages: seq<nat>, t: nat, rows: seq<seq<Elem>>, o: nat)
    requires d.Positive() && StoreShape(d, store) && InPool(pages, |store|) && Distinct(pages)
    requires t < d.maxSeqLen && t / d.pageTokens < |pages| && RowsShape(d, rows) && o < d.nFull
    ensures var page := pages[t / d.pageTokens];
            var after := store[page := PutRows(d, store[page], t % d.pageTokens, rows, d.nFull)];
            && StoreShape(d, after)
            && Gather(d, after, pages)[o] ==
               LayerWrite(CacheDims(d.nKv, d.maxSeqLen, d.headDim), Gather(d, store, pages)[o], t, rows[o])
  {
    GatherToken(d, store, pages, t, rows);
    var contiguous := CacheDims(d.nKv, d.maxSeqLen, d.headDim);
    assert forall n | 0 <= n < d.nKv :: HeadRow(d, rows[o], n) == HeadRow(contiguous, rows[o], n);
  }
}
