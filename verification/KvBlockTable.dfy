/** A sequence's block table: logical token block -> physical page, always a
    prefix, grown transactionally. */
module KvBlockTables {
  import opened Basics
  import opened Configs
  import opened FixedIdPools
  import opened KvPagePools

  function BlockOf(pageTokens: nat, position: nat): nat
    requires pageTokens >= 1
  {
    position / pageTokens
  }

  /** Tail blocks missing before `position` is covered by a table of `have` blocks. */
  function NewBlocks(pageTokens: nat, have: nat, position: nat): nat
    requires pageTokens >= 1
  {
    if BlockOf(pageTokens, position) < have then 0 else BlockOf(pageTokens, position) + 1 - have
  }

  /** When growth succeeds: the position is in range and the missing tail fits the
      free pages. */
  predicate CanEnsure(maxSeqLen: nat, pageTokens: nat, kv: KvPool, have: nat, position: int)
    requires pageTokens >= 1
  {
    0 <= position < maxSeqLen && NewBlocks(pageTokens, have, position) <= |kv.ids.free|
  }

  function EnsuredPages(pageTokens: nat, kv: KvPool, pages: seq<nat>, position: nat): (r: seq<nat>)
    requires pageTokens >= 1 && NewBlocks(pageTokens, |pages|, position) <= |kv.ids.free|
    ensures |r| == |pages| + NewBlocks(pageTokens, |pages|, position)
    ensures pages <= r
  {
    pages + Taken(kv.ids, NewBlocks(pageTokens, |pages|, position))
  }

  function EnsuredPool(pageTokens: nat, kv: KvPool, have: nat, position: nat): KvPool
    requires pageTokens >= 1 && FreeInRange(kv.ids)
    requires NewBlocks(pageTokens, have, position) <= |kv.ids.free|
  {
    AllocatedMany(kv, NewBlocks(pageTokens, have, position))
  }

  /** After growth the table is the smallest prefix that covers both what it
      covered before and the position. */
  lemma EnsuredCovers(pageTokens: nat, have: nat, position: nat)
    requires pageTokens >= 1
    ensures var blocks := have + NewBlocks(pageTokens, have, position);
            && position < blocks * pageTokens
            && (blocks > have ==> (blocks - 1) * pageTokens <= position)
            && NewBlocks(pageTokens, blocks, position) == 0
  {
    var q := position / pageTokens;
    assert position == q * pageTokens + position % pageTokens;
    var blocks := have + NewBlocks(pageTokens, have, position);
    assert (blocks - 1 - q) * pageTokens == blocks * pageTokens - pageTokens - q * pageTokens;
    assert blocks - 1 >= q;
    assert (blocks - 1 - q) * pageTokens >= 0;
  }

  /** Frees each page that is live when its turn comes; reports whether all were. */
  function FreeEach(d: Dims, kv: KvPool, pages: seq<nat>): (r: (KvPool, bool))
    requires |kv.k| == |kv.v| == |kv.ids.live|
    ensures |r.0.k| == |r.0.v| == |r.0.ids.live| == |kv.k|
  {
    if pages == [] then (kv, true)
    else
      var (q, ok) := FreeEach(d, kv, pages[..|pages| - 1]);
      var page := pages[|pages| - 1];
      if q.ids.IsLive(page) then (q.Freed(d, page), ok) else (q, false)
  }

  /** On pages the table really owns, clearing cannot fail and frees exactly them. */
  lemma {:induction false} FreeEachOwned(d: Dims, kv: KvPool, pages: seq<nat>)
    requires kv.Valid(d) && Distinct(pages) && AllLive(kv.ids, pages)
    ensures FreeEach(d, kv, pages) == (FreedMany(d, kv, pages), true)
  {
    if pages == [] {
      assert ZeroedPages(d, kv.k, pages) == kv.k;
      assert ZeroedPages(d, kv.v, pages) == kv.v;
    } else {
      var n := |pages| - 1;
      FreedManyStep(d, kv, pages, n);
      FreeEachOwned(d, kv, pages[..n]);
      assert pages[..n + 1] == pages;
    }
  }

  /** Whatever pages a table lists, clearing leaves a valid pool. */
  lemma {:induction false} FreeEachValid(d: Dims, kv: KvPool, pages: seq<nat>)
    requires kv.Valid(d)
    ensures FreeEach(d, kv, pages).0.Valid(d)
  {
    if pages != [] {
      var n := |pages| - 1;
      FreeEachValid(d, kv, pages[..n]);
      var q := FreeEach(d, kv, pages[..n]).0;
      if q.ids.IsLive(pages[n]) {
        FreedValid(d, q, pages[n]);
      }
    }
  }

  lemma UndoAt(d: Dims, was: KvPool, acquired: seq<nat>, j: nat, kv: KvPool)
    requires was.Valid(d) && j < |acquired| <= |was.ids.free| && acquired == Taken(was.ids, |acquired|)
    requires kv == AllocatedMany(was, j + 1)
    ensures kv.ids.IsLive(acquired[j]) && acquired[j] < |kv.k| && acquired[j] < |kv.v|
    ensures kv.Freed(d, acquired[j]) == AllocatedMany(was, j)
  {
    assert acquired[j] == Taken(was.ids, j + 1)[j];
    AllocateFreeUndo(d, was, j + 1);
  }

  class KvBlockTable {
    const maxSeqLen: nat
    const pageTokens: nat
    var pages: seq<nat>

    constructor (maxSeqLen: nat, pageTokens: nat)
      requires maxSeqLen >= 1 && pageTokens >= 1
      ensures this.maxSeqLen == maxSeqLen && this.pageTokens == pageTokens && pages == []
    {
      this.maxSeqLen := maxSeqLen;
      this.pageTokens := pageTokens;
      pages := [];
    }

    function NumBlocks(): nat
      reads this
    {
      |pages|
    }

    /** Grows the prefix to cover `position`, or changes nothing at all. */
    method EnsureCapacity(position: int, src: KvPagePool) returns (ok: bool)
      requires pageTokens >= 1 && src.Valid()
      modifies this, src.Repr()
      ensures src.Valid()
      ensures ok == CanEnsure(maxSeqLen, pageTokens, old(src.Model()), |old(pages)|, position)
      ensures ok <==> 0 <= position < maxSeqLen
                      && position / pageTokens + 1 - |old(pages)| <= |old(src.Model()).ids.free|
      ensures ok ==> pages == EnsuredPages(pageTokens, old(src.Model()), old(pages), position)
      ensures ok ==> src.Model() == EnsuredPool(pageTokens, old(src.Model()), |old(pages)|, position)
      ensures !ok ==> pages == old(pages) && src.Model() == old(src.Model())
    {
      if position < 0 || position >= maxSeqLen {
        return false;
      }
      ghost var was := src.Model();
      var target := BlockOf(pageTokens, position);
      if target < |pages| {
        assert pages + Taken(was.ids, 0) == pages;
        return true;
      }
      var needed := target + 1 - |pages|;
      var acquired := AcquireTail(needed, src);
      if acquired.None? {
        return false;
      }
      pages := pages + acquired.value;
      ok := true;
    }

    /** Takes `needed` pages, or takes none. */
    static method AcquireTail(needed: nat, src: KvPagePool) returns (tail: Option<seq<nat>>)
      requires src.Valid()
      modifies src.Repr()
      ensures src.Valid()
      ensures tail.Some? <==> needed <= |old(src.Model()).ids.free|
      ensures tail.Some? ==> tail.value == Taken(old(src.Model()).ids, needed)
      ensures tail.Some? ==> src.Model() == AllocatedMany(old(src.Model()), needed)
      ensures tail.None? ==> src.Model() == old(src.Model())
    {
      ghost var was := src.Model();
      var acquired: seq<nat> := [];
      for i := 0 to needed
        invariant src.Valid() && i <= |was.ids.free|
        invariant src.Model() == AllocatedMany(was, i)
        invariant acquired == Taken(was.ids, i)
      {
        var page := src.AllocatePage();
        if page.None? {
          RollBack(acquired, src, was);
          return None;
        }
        TakenStep(was.ids, i + 1);
        acquired := acquired + [page.value];
      }
      tail := Some(acquired);
    }

    /** Hands back, in reverse, the pages one growth attempt had taken. */
    static method RollBack(acquired: seq<nat>, src: KvPagePool, ghost was: KvPool)
      requires src.Valid() && was.Valid(src.d)
      requires |acquired| <= |was.ids.free| && acquired == Taken(was.ids, |acquired|)
      requires src.Model() == AllocatedMany(was, |acquired|)
      modifies src.Repr()
      ensures src.Valid() && src.Model() == was
    {
      var j := |acquired|;
      while j > 0
        invariant 0 <= j <= |acquired|
        invariant src.Valid() && src.Model() == AllocatedMany(was, j)
      {
        j := j - 1;
        HandBack(acquired, src, was, j);
      }
    }

    static method HandBack(acquired: seq<nat>, src: KvPagePool, ghost was: KvPool, j: nat)
      requires src.Valid() && was.Valid(src.d)
      requires j < |acquired| <= |was.ids.free| && acquired == Taken(was.ids, |acquired|)
      requires src.Model() == AllocatedMany(was, j + 1)
      modifies src.Repr()
      ensures src.Valid() && src.Model() == AllocatedMany(was, j)
    {
      UndoAt(src.d, was, acquired, j, src.Model());
      var _ := src.FreePage(acquired[j]);
    }

    method Clear(src: KvPagePool) returns (ok: bool)
      requires src.Valid()
      modifies this, src.Repr()
      ensures src.Valid() && pages == []
      ensures (src.Model(), ok) == FreeEach(src.d, old(src.Model()), old(pages))
    {
      ok := ReleaseEach(pages, src);
      pages := [];
    }

    static method ReleaseEach(pages: seq<nat>, src: KvPagePool) returns (ok: bool)
      requires src.Valid()
      modifies src.Repr()
      ensures src.Valid()
      ensures (src.Model(), ok) == FreeEach(src.d, old(src.Model()), pages)
    {
      ghost var was := src.Model();
      ok := true;
      for i := 0 to |pages|
        invariant src.Valid()
        invariant (src.Model(), ok) == FreeEach(src.d, was, pages[..i])
      {
        assert pages[..i + 1][..i] == pages[..i];
        var freed := src.FreePage(pages[i]);
        if !freed {
          ok := false;
        }
      }
      assert pages[..|pages|] == pages;
    }
  }
}
