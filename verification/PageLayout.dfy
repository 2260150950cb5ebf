/** Row-major addressing of the paged K and V buffers,
    [full layer][page][kv head][token offset][head dim], and what zeroing one
    page or writing one token row does to a flat buffer. */
module PageLayout {
  import opened Basics
  import opened Configs

  /** One stored element; a bit pattern, only its zero is special. */
  type Elem = int
  type Row = seq<Elem>

  /** One page across every full layer: [layer ordinal][head][offset]. */
  type PageData = seq<seq<seq<Row>>>

  datatype Cell = Cell(ord: int, page: int, head: int, off: int, dim: int)

  predicate InRange(d: Dims, capacity: nat, c: Cell) {
    && 0 <= c.ord < d.nFull && 0 <= c.page < capacity
    && 0 <= c.head < d.nKv && 0 <= c.off < d.pageTokens && 0 <= c.dim < d.headDim
  }

  function Total(d: Dims, capacity: nat): nat {
    d.nFull * capacity * d.PageElems()
  }

  /** Page slice of (ordinal, page), then the row of (head, offset) inside it. */
  function Addr(d: Dims, capacity: nat, c: Cell): int {
    (c.ord * capacity + c.page) * d.PageElems() + (c.head * d.pageTokens + c.off) * d.headDim + c.dim
  }

  function Decode(d: Dims, capacity: nat, j: nat): Cell
    requires d.KvPositive() && capacity > 0
  {
    PageElemsPositive(d);
    var slice, inner := j / d.PageElems(), j % d.PageElems();
    var row := inner / d.headDim;
    Cell(slice / capacity, slice % capacity, row / d.pageTokens, row % d.pageTokens, inner % d.headDim)
  }

  lemma PageElemsPositive(d: Dims)
    requires d.KvPositive()
    ensures d.PageElems() > 0
  {
    assert d.nKv * d.pageTokens >= 1;
  }

  lemma InnerBound(d: Dims, c: Cell)
    requires 0 <= c.head < d.nKv && 0 <= c.off < d.pageTokens && 0 <= c.dim < d.headDim
    ensures 0 <= (c.head * d.pageTokens + c.off) * d.headDim + c.dim < d.PageElems()
  {
    MixedRadixBound(c.head, c.off, d.nKv, d.pageTokens);
    MixedRadixBound(c.head * d.pageTokens + c.off, c.dim, d.nKv * d.pageTokens, d.headDim);
  }

  /** Distinct cells never share an address, and every address is in bounds. */
  lemma AddrDecodes(d: Dims, capacity: nat, c: Cell)
    requires d.KvPositive() && InRange(d, capacity, c)
    ensures 0 <= Addr(d, capacity, c) < Total(d, capacity)
    ensures Decode(d, capacity, Addr(d, capacity, c)) == c
  {
    var row := c.head * d.pageTokens + c.off;
    var inner := row * d.headDim + c.dim;
    var slice := c.ord * capacity + c.page;
    InnerBound(d, c);
    MixedRadixBound(c.ord, c.page, d.nFull, capacity);
    MixedRadixBound(slice, inner, d.nFull * capacity, d.PageElems());
    assert Addr(d, capacity, c) == slice * d.PageElems() + inner;
    DivModUnique(slice, inner, d.PageElems());
    DivModUnique(row, c.dim, d.headDim);
    DivModUnique(c.head, c.off, d.pageTokens);
    DivModUnique(c.ord, c.page, capacity);
  }

  /** The cells tile the buffer: every index below the total is one cell. */
  lemma DecodeCovers(d: Dims, capacity: nat, j: nat)
    requires d.KvPositive() && capacity > 0 && j < Total(d, capacity)
    ensures InRange(d, capacity, Decode(d, capacity, j))
    ensures Addr(d, capacity, Decode(d, capacity, j)) == j
  {
    PageElemsPositive(d);
    var slice, inner := j / d.PageElems(), j % d.PageElems();
    var row := inner / d.headDim;
    QuotientBound(j, d.nFull * capacity, d.PageElems());
    QuotientBound(slice, d.nFull, capacity);
    QuotientBound(inner, d.nKv * d.pageTokens, d.headDim);
    QuotientBound(row, d.nKv, d.pageTokens);
    assert slice == (slice / capacity) * capacity + slice % capacity;
    assert row == (row / d.pageTokens) * d.pageTokens + row % d.pageTokens;
    assert inner == row * d.headDim + inner % d.headDim;
    assert j == slice * d.PageElems() + inner;
  }

  /** First element of the slice of (ordinal, page). */
  function SliceStart(d: Dims, capacity: nat, ord: nat, page: nat): nat {
    (ord * capacity + page) * d.PageElems()
  }

  /** The elements cleared for (ordinal, page) are exactly that page's cells. */
  lemma SliceIsPage(d: Dims, capacity: nat, ord: nat, page: nat, j: nat)
    requires d.KvPositive() && page < capacity
    ensures SliceStart(d, capacity, ord, page) <= j < SliceStart(d, capacity, ord, page) + d.PageElems() <==>
            Decode(d, capacity, j).ord == ord && Decode(d, capacity, j).page == page
  {
    PageElemsPositive(d);
    var pe, slice := d.PageElems(), ord * capacity + page;
    assert j / pe == (j / pe / capacity) * capacity + (j / pe) % capacity;
    assert j == (j / pe) * pe + j % pe;
    if slice * pe <= j < slice * pe + pe {
      DivModUnique(slice, j - slice * pe, pe);
      DivModUnique(ord, page, capacity);
    }
  }

  // ----- structured view of a flat buffer -----------------------------------

  predicate PageShape(d: Dims, page: PageData) {
    && |page| == d.nFull
    && forall o | 0 <= o < d.nFull ::
         && |page[o]| == d.nKv
         && forall n | 0 <= n < d.nKv ::
              && |page[o][n]| == d.pageTokens
              && forall off | 0 <= off < d.pageTokens :: |page[o][n][off]| == d.headDim
  }

  function ZeroRow(d: Dims): Row {
    seq(d.headDim, _ => 0)
  }

  function ZeroPage(d: Dims): (page: PageData)
    ensures PageShape(d, page)
  {
    seq(d.nFull, _ => seq(d.nKv, _ => seq(d.pageTokens, _ => ZeroRow(d))))
  }

  /** The head rows packed one after another in a token's K or V vector. */
  function HeadRow(d: Dims, packed: seq<Elem>, n: nat): Row
    requires n < d.nKv && |packed| == d.nKv * d.headDim
  {
    seq(d.headDim, x requires 0 <= x < d.headDim =>
      MixedRadixBound(n, x, d.nKv, d.headDim);
      packed[n * d.headDim + x])
  }

  /** A page with the row of one layer replaced, in every head, at one offset. */
  function PutRow(d: Dims, page: PageData, ord: nat, off: nat, packed: seq<Elem>): (r: PageData)
    requires PageShape(d, page) && ord < d.nFull && off < d.pageTokens && |packed| == d.nKv * d.headDim
    ensures PageShape(d, r)
  {
    page[ord := seq(d.nKv, n requires 0 <= n < d.nKv => page[ord][n][off := HeadRow(d, packed, n)])]
  }

  function ViewRow(d: Dims, capacity: nat, flat: seq<Elem>, o: nat, p: nat, n: nat, off: nat): Row
    requires d.KvPositive() && |flat| == Total(d, capacity)
    requires o < d.nFull && p < capacity && n < d.nKv && off < d.pageTokens
  {
    seq(d.headDim, x requires 0 <= x < d.headDim =>
      AddrDecodes(d, capacity, Cell(o, p, n, off, x));
      flat[Addr(d, capacity, Cell(o, p, n, off, x))])
  }

  function ViewPage(d: Dims, capacity: nat, flat: seq<Elem>, p: nat): (page: PageData)
    requires d.KvPositive() && |flat| == Total(d, capacity) && p < capacity
    ensures PageShape(d, page)
  {
    seq(d.nFull, o requires 0 <= o < d.nFull =>
      seq(d.nKv, n requires 0 <= n < d.nKv =>
        seq(d.pageTokens, off requires 0 <= off < d.pageTokens => ViewRow(d, capacity, flat, o, p, n, off))))
  }

  function View(d: Dims, capacity: nat, flat: seq<Elem>): (pages: seq<PageData>)
    requires d.KvPositive() && |flat| == Total(d, capacity)
    ensures |pages| == capacity
    ensures forall p | 0 <= p < capacity :: PageShape(d, pages[p])
  {
    seq(capacity, p requires 0 <= p < capacity => ViewPage(d, capacity, flat, p))
  }

  /** A buffer after the page's slices of the first `layers` ordinals were cleared. */
  function Cleared(d: Dims, capacity: nat, flat: seq<Elem>, page: nat, layers: nat): (r: seq<Elem>)
    requires d.KvPositive() && page < capacity
    ensures |r| == |flat|
  {
    seq(|flat|, j requires 0 <= j < |flat| =>
      var c := Decode(d, capacity, j);
      if c.page == page && c.ord < layers then 0 else flat[j])
  }

  lemma ClearedNone(d: Dims, capacity: nat, flat: seq<Elem>, page: nat)
    requires d.KvPositive() && |flat| == Total(d, capacity) && page < capacity
    ensures Cleared(d, capacity, flat, page, 0) == flat
  {
    forall j | 0 <= j < |flat|
      ensures Cleared(d, capacity, flat, page, 0)[j] == flat[j]
    {
      DecodeCovers(d, capacity, j);
    }
  }

  lemma ClearedStep(d: Dims, capacity: nat, flat: seq<Elem>, page: nat, l: nat, after: seq<Elem>)
    requires d.KvPositive() && page < capacity && |after| == |flat|
    requires forall j | 0 <= j < |flat| ::
               after[j] == if SliceStart(d, capacity, l, page) <= j < SliceStart(d, capacity, l, page) + d.PageElems()
                           then 0 else Cleared(d, capacity, flat, page, l)[j]
    ensures after == Cleared(d, capacity, flat, page, l + 1)
  {
    forall j | 0 <= j < |flat|
      ensures after[j] == Cleared(d, capacity, flat, page, l + 1)[j]
    {
      SliceIsPage(d, capacity, l, page, j);
    }
  }

  /** A buffer after the first `count` elements of a packed row were stored at
      (ordinal, page, offset). */
  function Stored(d: Dims, capacity: nat, flat: seq<Elem>, ord: nat, page: nat, off: nat,
                  packed: seq<Elem>, count: nat): (r: seq<Elem>)
    requires d.KvPositive() && page < capacity && count <= |packed|
    ensures |r| == |flat|
  {
    seq(|flat|, j requires 0 <= j < |flat| =>
      var c := Decode(d, capacity, j);
      var idx := c.head * d.headDim + c.dim;
      if c.ord == ord && c.page == page && c.off == off && 0 <= idx < count then packed[idx] else flat[j])
  }

  lemma ViewRowExt(d: Dims, capacity: nat, flat: seq<Elem>, o: nat, p: nat, n: nat, off: nat, row: Row)
    requires d.KvPositive() && |flat| == Total(d, capacity)
    requires o < d.nFull && p < capacity && n < d.nKv && off < d.pageTokens
    requires |row| == d.headDim
    requires forall x | 0 <= x < d.headDim ::
               0 <= Addr(d, capacity, Cell(o, p, n, off, x)) < |flat| ==>
               flat[Addr(d, capacity, Cell(o, p, n, off, x))] == row[x]
    ensures ViewRow(d, capacity, flat, o, p, n, off) == row
  {
    forall x | 0 <= x < d.headDim
      ensures ViewRow(d, capacity, flat, o, p, n, off)[x] == row[x]
    {
      AddrDecodes(d, capacity, Cell(o, p, n, off, x));
    }
  }

  lemma PageExt(d: Dims, a: PageData, b: PageData)
    requires PageShape(d, a) && PageShape(d, b)
    requires forall o, n, off | 0 <= o < d.nFull && 0 <= n < d.nKv && 0 <= off < d.pageTokens ::
               a[o][n][off] == b[o][n][off]
    ensures a == b
  {
    forall o | 0 <= o < d.nFull
      ensures a[o] == b[o]
    {
      forall n | 0 <= n < d.nKv
        ensures a[o][n] == b[o][n]
      {
      }
    }
  }

  /** Clearing a page in every layer zeroes that page and no other. */
  lemma ClearedView(d: Dims, capacity: nat, flat: seq<Elem>, page: nat)
    requires d.KvPositive() && |flat| == Total(d, capacity) && page < capacity
    ensures View(d, capacity, Cleared(d, capacity, flat, page, d.nFull)) ==
            View(d, capacity, flat)[page := ZeroPage(d)]
  {
    var after := Cleared(d, capacity, flat, page, d.nFull);
    forall p | 0 <= p < capacity
      ensures ViewPage(d, capacity, after, p) ==
              if p == page then ZeroPage(d) else ViewPage(d, capacity, flat, p)
    {
      var want := if p == page then ZeroPage(d) else ViewPage(d, capacity, flat, p);
      forall o, n, off | 0 <= o < d.nFull && 0 <= n < d.nKv && 0 <= off < d.pageTokens
        ensures ViewRow(d, capacity, after, o, p, n, off) == want[o][n][off]
      {
        ClearedRow(d, capacity, flat, page, o, p, n, off);
      }
      PageExt(d, ViewPage(d, capacity, after, p), want);
    }
  }

  lemma ClearedRow(d: Dims, capacity: nat, flat: seq<Elem>, page: nat, o: nat, p: nat, n: nat, off: nat)
    requires d.KvPositive() && |flat| == Total(d, capacity) && page < capacity
    requires o < d.nFull && p < capacity && n < d.nKv && off < d.pageTokens
    ensures ViewRow(d, capacity, Cleared(d, capacity, flat, page, d.nFull), o, p, n, off) ==
            if p == page then ZeroRow(d) else ViewRow(d, capacity, flat, o, p, n, off)
  {
    var after := Cleared(d, capacity, flat, page, d.nFull);
    forall x | 0 <= x < d.headDim
      ensures ViewRow(d, capacity, after, o, p, n, off)[x] ==
              if p == page then 0 else ViewRow(d, capacity, flat, o, p, n, off)[x]
    {
      AddrDecodes(d, capacity, Cell(o, p, n, off, x));
    }
  }

  /** Storing a packed row at one offset changes exactly that row of that page. */
  lemma StoredView(d: Dims, capacity: nat, flat: seq<Elem>, ord: nat, page: nat, off: nat, packed: seq<Elem>)
    requires d.KvPositive() && |flat| == Total(d, capacity)
    requires ord < d.nFull && page < capacity && off < d.pageTokens && |packed| == d.nKv * d.headDim
    ensures View(d, capacity, Stored(d, capacity, flat, ord, page, off, packed, |packed|)) ==
            View(d, capacity, flat)[page := PutRow(d, View(d, capacity, flat)[page], ord, off, packed)]
  {
    var after := Stored(d, capacity, flat, ord, page, off, packed, |packed|);
    var was := View(d, capacity, flat);
    forall p | 0 <= p < capacity
      ensures ViewPage(d, capacity, after, p) ==
              if p == page then PutRow(d, was[page], ord, off, packed) else was[p]
    {
      var want := if p == page then PutRow(d, was[page], ord, off, packed) else was[p];
      forall o, n, f | 0 <= o < d.nFull && 0 <= n < d.nKv && 0 <= f < d.pageTokens
        ensures ViewRow(d, capacity, after, o, p, n, f) == want[o][n][f]
      {
        StoredRow(d, capacity, flat, ord, page, off, packed, o, p, n, f);
      }
      PageExt(d, ViewPage(d, capacity, after, p), want);
    }
  }

  lemma StoredRow(d: Dims, capacity: nat, flat: seq<Elem>, ord: nat, page: nat, off: nat, packed: seq<Elem>,
                  o: nat, p: nat, n: nat, f: nat)
    requires d.KvPositive() && |flat| == Total(d, capacity)
    requires ord < d.nFull && page < capacity && off < d.pageTokens && |packed| == d.nKv * d.headDim
    requires o < d.nFull && p < capacity && n < d.nKv && f < d.pageTokens
    ensures ViewRow(d, capacity, Stored(d, capacity, flat, ord, page, off, packed, |packed|), o, p, n, f) ==
            if o == ord && p == page && f == off then HeadRow(d, packed, n)
            else ViewRow(d, capacity, flat, o, p, n, f)
  {
    var after := Stored(d, capacity, flat, ord, page, off, packed, |packed|);
    forall x | 0 <= x < d.headDim
      ensures ViewRow(d, capacity, after, o, p, n, f)[x] ==
              if o == ord && p == page && f == off then HeadRow(d, packed, n)[x]
              else ViewRow(d, capacity, flat, o, p, n, f)[x]
    {
      AddrDecodes(d, capacity, Cell(o, p, n, f, x));
      MixedRadixBound(n, x, d.nKv, d.headDim);
    }
  }

  // ----- in-place writers ---------------------------------------------------

  /** Clears `count` consecutive elements. */
  method Memset(a: array<Elem>, start: nat, count: nat)
    requires start + count <= a.Length
    modifies a
    ensures forall j | 0 <= j < a.Length :: a[j] == if start <= j < start + count then 0 else old(a[j])
  {
    for i := 0 to count
      invariant forall j | 0 <= j < a.Length :: a[j] == if start <= j < start + i then 0 else old(a[j])
    {
      a[start + i] := 0;
    }
  }

  /** Where element idx of a packed row goes: the layer's page-array base, the page,
      then the row of (head, offset). */
  function Destination(d: Dims, capacity: nat, ord: nat, page: nat, off: nat, idx: nat): int
    requires d.headDim > 0
  {
    ord * capacity * d.PageElems() + page * d.PageElems() +
    (idx / d.headDim * d.pageTokens + off) * d.headDim + idx % d.headDim
  }

  lemma DestinationIsCell(d: Dims, capacity: nat, ord: nat, page: nat, off: nat, idx: nat)
    requires d.KvPositive() && ord < d.nFull && page < capacity && off < d.pageTokens && idx < d.nKv * d.headDim
    ensures var cell := Cell(ord, page, idx / d.headDim, off, idx % d.headDim);
            && InRange(d, capacity, cell)
            && Destination(d, capacity, ord, page, off, idx) == Addr(d, capacity, cell)
  {
    QuotientBound(idx, d.nKv, d.headDim);
    assert (ord * capacity + page) * d.PageElems() == ord * capacity * d.PageElems() + page * d.PageElems();
  }

  /** Copies a token's packed rows to page `page` at offset `off`, one element per
      (head, dim). */
  method StoreRow(d: Dims, capacity: nat, a: array<Elem>, ord: nat, page: nat, off: nat, packed: seq<Elem>)
    requires d.KvPositive() && a.Length == Total(d, capacity)
    requires ord < d.nFull && page < capacity && off < d.pageTokens && |packed| == d.nKv * d.headDim
    modifies a
    ensures a[..] == Stored(d, capacity, old(a[..]), ord, page, off, packed, |packed|)
  {
    ghost var was := a[..];
    assert was == Stored(d, capacity, was, ord, page, off, packed, 0);
    for idx := 0 to |packed|
      invariant a[..] == Stored(d, capacity, was, ord, page, off, packed, idx)
    {
      StoreStep(d, capacity, was, ord, page, off, packed, idx);
      a[Destination(d, capacity, ord, page, off, idx)] := packed[idx];
    }
  }

  lemma StoreStep(d: Dims, capacity: nat, was: seq<Elem>, ord: nat, page: nat, off: nat, packed: seq<Elem>, idx: nat)
    requires d.KvPositive() && |was| == Total(d, capacity)
    requires ord < d.nFull && page < capacity && off < d.pageTokens && |packed| == d.nKv * d.headDim
    requires idx < |packed|
    ensures var dst := Destination(d, capacity, ord, page, off, idx);
            && 0 <= dst < |was|
            && Stored(d, capacity, was, ord, page, off, packed, idx + 1) ==
               Stored(d, capacity, was, ord, page, off, packed, idx)[dst := packed[idx]]
  {
    var cell := Cell(ord, page, idx / d.headDim, off, idx % d.headDim);
    DestinationIsCell(d, capacity, ord, page, off, idx);
    AddrDecodes(d, capacity, cell);
    assert cell.head * d.headDim + cell.dim == idx;
    var before := Stored(d, capacity, was, ord, page, off, packed, idx);
    var after := Stored(d, capacity, was, ord, page, off, packed, idx + 1);
    forall j | 0 <= j < |was|
      ensures after[j] == before[Addr(d, capacity, cell) := packed[idx]][j]
    {
      StoredElement(d, capacity, cell, j);
    }
  }

  /** Only one address decodes to the given head, dim, and page row. */
  lemma StoredElement(d: Dims, capacity: nat, cell: Cell, j: nat)
    requires d.KvPositive() && InRange(d, capacity, cell) && j < Total(d, capacity)
    ensures var c := Decode(d, capacity, j);
            && (c.ord == cell.ord && c.page == cell.page && c.off == cell.off &&
                c.head * d.headDim + c.dim == cell.head * d.headDim + cell.dim
                <==> j == Addr(d, capacity, cell))
  {
    var c := Decode(d, capacity, j);
    DecodeCovers(d, capacity, j);
    AddrDecodes(d, capacity, cell);
    DivModUnique(c.head, c.dim, d.headDim);
    DivModUnique(cell.head, cell.dim, d.headDim);
  }
}
