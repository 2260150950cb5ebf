/** One token through the whole model on a sequence's external state: cover the
    position, store each full layer's K and V rows and each linear layer's new
    state, then advance the length. The layers themselves are one abstract function
    from the token and the sequence's view to what they store. */
module Forwards {
  import opened Basics
  import opened Configs
  import opened FixedIdPools
  import opened PageLayout
  import opened KvPagePools
  import opened KvBlockTables
  import opened DeltaStatePools
  import opened ManagerModel
  import opened SequenceViews

  /** What one token's traversal stores, per layer ordinal, and its logits. */
  datatype Out = Out(k: seq<seq<Elem>>, v: seq<seq<Elem>>, conv: SlotData, rec: SlotData, logits: seq<real>)

  predicate RowsShape(d: Dims, rows: seq<seq<Elem>>) {
    |rows| == d.nFull && forall o | 0 <= o < d.nFull :: |rows[o]| == d.nKv * d.headDim
  }

  predicate OutShape(d: Dims, out: Out) {
    && RowsShape(d, out.k) && RowsShape(d, out.v)
    && SlotShape(d.nLinear, d.convElems, out.conv) && SlotShape(d.nLinear, d.recElems, out.rec)
  }

  // ----- on private storage -------------------------------------------------

  function TokenWrite(d: Dims, c: Cache, t: nat, rows: seq<seq<Elem>>): (r: Cache)
    requires CacheShape(d, c) && t < d.maxSeqLen && RowsShape(d, rows)
    ensures CacheShape(d, r)
  {
    seq(d.nFull, o requires 0 <= o < d.nFull => LayerWrite(d, c[o], t, rows[o]))
  }

  function SoloForward(d: Dims, s: SeqState, out: Out): (r: SeqState)
    requires d.pageTokens >= 1 && SeqShape(d, s) && s.length < d.maxSeqLen && OutShape(d, out)
    ensures SeqShape(d, r)
  {
    SeqState(TokenWrite(d, s.k, s.length, out.k), TokenWrite(d, s.v, s.length, out.v), out.conv, out.rec,
             s.blocks + NewBlocks(d.pageTokens, s.blocks, s.length), s.length + 1)
  }

  // ----- on the shared pools ------------------------------------------------

  /** A page after the rows of the first `layers` ordinals were stored at `off`. */
  function PutRows(d: Dims, page: PageData, off: nat, rows: seq<seq<Elem>>, layers: nat): (r: PageData)
    requires PageShape(d, page) && off < d.pageTokens && RowsShape(d, rows) && layers <= d.nFull
    ensures PageShape(d, r)
  {
    seq(d.nFull, o requires 0 <= o < d.nFull =>
      if o < layers then seq(d.nKv, n requires 0 <= n < d.nKv => page[o][n][off := HeadRow(d, rows[o], n)])
      else page[o])
  }

  function KvAfter(d: Dims, kv: KvPool, page: nat, off: nat, out: Out, layers: nat): KvPool
    requires kv.Shaped(d) && page < |kv.k| && off < d.pageTokens && OutShape(d, out) && layers <= d.nFull
  {
    KvPool(kv.ids, kv.k[page := PutRows(d, kv.k[page], off, out.k, layers)],
           kv.v[page := PutRows(d, kv.v[page], off, out.v, layers)])
  }

  function DeltaAfter(d: Dims, delta: DeltaPool, slot: nat, out: Out, layers: nat): DeltaPool
    requires delta.Shaped(d) && slot < |delta.conv| && OutShape(d, out) && layers <= d.nLinear
  {
    DeltaPool(delta.ids, delta.conv[slot := out.conv[..layers] + delta.conv[slot][layers..]],
              delta.rec[slot := out.rec[..layers] + delta.rec[slot][layers..]])
  }

  /** Storing one more full layer's rows extends the stored prefix by that layer. */
  lemma KvAfterStep(d: Dims, kv: KvPool, page: nat, off: nat, out: Out, layers: nat)
    requires kv.Shaped(d) && page < |kv.k| && off < d.pageTokens && OutShape(d, out) && layers < d.nFull
    ensures KvAfter(d, kv, page, off, out, layers).Shaped(d)
    ensures KvAfter(d, kv, page, off, out, layers).RowStored(d, layers, page, off, out.k[layers], out.v[layers]) ==
            KvAfter(d, kv, page, off, out, layers + 1)
  {
    PutRowsStep(d, kv.k[page], off, out.k, layers);
    PutRowsStep(d, kv.v[page], off, out.v, layers);
  }

  lemma PutRowsStep(d: Dims, page: PageData, off: nat, rows: seq<seq<Elem>>, layers: nat)
    requires PageShape(d, page) && off < d.pageTokens && RowsShape(d, rows) && layers < d.nFull
    ensures PutRow(d, PutRows(d, page, off, rows, layers), layers, off, rows[layers]) ==
            PutRows(d, page, off, rows, layers + 1)
  {
    var before := PutRows(d, page, off, rows, layers);
    PageExt(d, PutRow(d, before, layers, off, rows[layers]), PutRows(d, page, off, rows, layers + 1));
  }

  lemma KvAfterNone(d: Dims, kv: KvPool, page: nat, off: nat, out: Out)
    requires kv.Shaped(d) && page < |kv.k| && off < d.pageTokens && OutShape(d, out)
    ensures KvAfter(d, kv, page, off, out, 0) == kv
  {
    assert PutRows(d, kv.k[page], off, out.k, 0) == kv.k[page];
    assert PutRows(d, kv.v[page], off, out.v, 0) == kv.v[page];
  }

  lemma DeltaAfterStep(d: Dims, delta: DeltaPool, slot: nat, out: Out, layers: nat)
    requires delta.Shaped(d) && slot < |delta.conv| && OutShape(d, out) && layers < d.nLinear
    ensures DeltaAfter(d, delta, slot, out, layers).Shaped(d)
    ensures DeltaAfter(d, delta, slot, out, layers).Stored(slot, layers, out.conv[layers], out.rec[layers]) ==
            DeltaAfter(d, delta, slot, out, layers + 1)
  {
    PrefixStep(delta.conv[slot], out.conv, layers);
    PrefixStep(delta.rec[slot], out.rec, layers);
  }

  lemma PrefixStep(was: SlotData, now: SlotData, layers: nat)
    requires |was| == |now| && layers < |was|
    ensures (now[..layers] + was[layers..])[layers := now[layers]] == now[..layers + 1] + was[layers + 1..]
  {
  }

  /** The storage effect of one traversal that got through `full` full-attention
      and `linear` linear-attention layers. */
  function TokenStored(d: Dims, m: Mgr, id: nat, position: nat, out: Out, full: nat, linear: nat): Mgr
    requires Readable(d, m, id) && Covered(d, m, id, position) && OutShape(d, out)
    requires full <= d.nFull && linear <= d.nLinear
  {
    var r := m.seqs[id];
    m.(kv := KvAfter(d, m.kv, r.pages[position / d.pageTokens], position % d.pageTokens, out, full),
       delta := DeltaAfter(d, m.delta, r.slot, out, linear))
  }

  lemma TokenStoredInv(d: Dims, m: Mgr, id: nat, position: nat, out: Out, full: nat, linear: nat)
    requires Inv(d, m) && Covered(d, m, id, position) && OutShape(d, out)
    requires full <= d.nFull && linear <= d.nLinear
    ensures Readable(d, m, id) && Inv(d, TokenStored(d, m, id, position, out, full, linear))
  {
    InvReadable(d, m, id);
    assert AllLive(m.kv.ids, m.seqs[id].pages);
    KvAfterValid(d, m.kv, m.seqs[id].pages[position / d.pageTokens], position % d.pageTokens, out, full);
    DeltaAfterValid(d, m.delta, m.seqs[id].slot, out, linear);
  }

  lemma KvAfterValid(d: Dims, kv: KvPool, page: nat, off: nat, out: Out, layers: nat)
    requires kv.Valid(d) && kv.ids.IsLive(page) && off < d.pageTokens && OutShape(d, out) && layers <= d.nFull
    ensures KvAfter(d, kv, page, off, out, layers).Valid(d)
  {
  }

  lemma DeltaAfterValid(d: Dims, delta: DeltaPool, slot: nat, out: Out, layers: nat)
    requires delta.Valid(d) && delta.ids.IsLive(slot) && OutShape(d, out) && layers <= d.nLinear
    ensures DeltaAfter(d, delta, slot, out, layers).Valid(d)
  {
  }

  lemma TokenStoredNone(d: Dims, m: Mgr, id: nat, position: nat, out: Out)
    requires Readable(d, m, id) && Covered(d, m, id, position) && OutShape(d, out)
    ensures TokenStored(d, m, id, position, out, 0, 0) == m
  {
    KvAfterNone(d, m.kv, m.seqs[id].pages[position / d.pageTokens], position % d.pageTokens, out);
    assert out.conv[..0] + m.delta.conv[m.seqs[id].slot][0..] == m.delta.conv[m.seqs[id].slot];
    assert out.rec[..0] + m.delta.rec[m.seqs[id].slot][0..] == m.delta.rec[m.seqs[id].slot];
  }

  /** The traversal advances by one full layer's rows or by one linear layer's state. */
  lemma TokenStoredStep(d: Dims, m: Mgr, id: nat, position: nat, out: Out, full: nat, linear: nat)
    requires Readable(d, m, id) && Covered(d, m, id, position) && OutShape(d, out)
    requires full <= d.nFull && linear <= d.nLinear
    ensures var now := TokenStored(d, m, id, position, out, full, linear);
            && Readable(d, now, id) && Covered(d, now, id, position)
            && (full < d.nFull ==>
                RowWritten(d, now, id, position, full, out.k[full], out.v[full]) ==
                TokenStored(d, m, id, position, out, full + 1, linear))
            && (linear < d.nLinear ==>
                SlotWritten(d, now, id, linear, out.conv[linear], out.rec[linear]) ==
                TokenStored(d, m, id, position, out, full, linear + 1))
  {
    if full < d.nFull {
      KvAfterStep(d, m.kv, m.seqs[id].pages[position / d.pageTokens], position % d.pageTokens, out, full);
    }
    if linear < d.nLinear {
      DeltaAfterStep(d, m.delta, m.seqs[id].slot, out, linear);
    }
  }

  // ----- effect on the views ------------------------------------------------

  lemma GatherToken(d: Dims, store: seq<PageData>, pages: seq<nat>, t: nat, rows: seq<seq<Elem>>)
    requires d.Positive() && StoreShape(d, store) && InPool(pages, |store|) && Distinct(pages)
    requires t < d.maxSeqLen && t / d.pageTokens < |pages| && RowsShape(d, rows)
    ensures var page := pages[t / d.pageTokens];
            var after := store[page := PutRows(d, store[page], t % d.pageTokens, rows, d.nFull)];
            StoreShape(d, after) && Gather(d, after, pages) == TokenWrite(d, Gather(d, store, pages), t, rows)
  {
    var page := pages[t / d.pageTokens];
    var after := store[page := PutRows(d, store[page], t % d.pageTokens, rows, d.nFull)];
    var want := TokenWrite(d, Gather(d, store, pages), t, rows);
    forall o, n, u | 0 <= o < d.nFull && 0 <= n < d.nKv && 0 <= u < d.maxSeqLen
      ensures LogicalRow(d, after, pages, o, n, u) == want[o][n][u]
    {
      LogicalRowToken(d, store, pages, t, rows, o, n, u);
    }
    CacheExt(d, Gather(d, after, pages), want);
  }

  lemma LogicalRowToken(d: Dims, store: seq<PageData>, pages: seq<nat>, t: nat, rows: seq<seq<Elem>>,
                        o: nat, n: nat, u: nat)
    requires d.Positive() && StoreShape(d, store) && InPool(pages, |store|) && Distinct(pages)
    requires t < d.maxSeqLen && t / d.pageTokens < |pages| && RowsShape(d, rows)
    requires o < d.nFull && n < d.nKv
    ensures var page := pages[t / d.pageTokens];
            var after := store[page := PutRows(d, store[page], t % d.pageTokens, rows, d.nFull)];
            LogicalRow(d, after, pages, o, n, u) ==
            if u == t then HeadRow(d, rows[o], n) else LogicalRow(d, store, pages, o, n, u)
  {
    SamePlace(t, u, d.pageTokens);
    var b, c := t / d.pageTokens, u / d.pageTokens;
    assert c < |pages| && c != b ==> pages[c] != pages[b];
  }

  lemma TokenStoredView(d: Dims, m: Mgr, id: nat, position: nat, out: Out)
    requires Inv(d, m) && Covered(d, m, id, position) && OutShape(d, out)
    ensures Readable(d, m, id) && Readable(d, TokenStored(d, m, id, position, out, d.nFull, d.nLinear), id)
    ensures var s := SeqView(d, m, id);
            SeqView(d, TokenStored(d, m, id, position, out, d.nFull, d.nLinear), id) ==
            s.(k := TokenWrite(d, s.k, position, out.k), v := TokenWrite(d, s.v, position, out.v),
               conv := out.conv, rec := out.rec)
  {
    TokenStoredInv(d, m, id, position, out, d.nFull, d.nLinear);
    var after := TokenStored(d, m, id, position, out, d.nFull, d.nLinear);
    InvReadable(d, m, id);
    InvReadable(d, after, id);
    GatherToken(d, m.kv.k, m.seqs[id].pages, position, out.k);
    GatherToken(d, m.kv.v, m.seqs[id].pages, position, out.v);
    assert after.delta.conv[m.seqs[id].slot] == out.conv;
    assert after.delta.rec[m.seqs[id].slot] == out.rec;
  }

  /** Whatever part of a traversal is stored, another sequence cannot see it. */
  lemma TokenStoredOther(d: Dims, m: Mgr, id: nat, position: nat, out: Out, full: nat, linear: nat, other: nat)
    requires Inv(d, m) && Covered(d, m, id, position) && OutShape(d, out) && other in m.seqs && other != id
    requires full <= d.nFull && linear <= d.nLinear
    ensures Readable(d, m, id) && Readable(d, m, other)
    ensures Readable(d, TokenStored(d, m, id, position, out, full, linear), other)
    ensures SeqView(d, TokenStored(d, m, id, position, out, full, linear), other) == SeqView(d, m, other)
  {
    TokenStoredInv(d, m, id, position, out, full, linear);
    var after := TokenStored(d, m, id, position, out, full, linear);
    InvReadable(d, m, other);
    InvReadable(d, after, other);
    NoAlias(d, m, id, other);
    var page := m.seqs[id].pages[position / d.pageTokens];
    assert forall i | 0 <= i < |m.seqs[other].pages| :: m.seqs[other].pages[i] != page;
    ViewFrame(d, m, after, other);
  }

  /** A layer whose turn has not come still reads what it would have at the start. */
  lemma TokenStoredUnread(d: Dims, m: Mgr, id: nat, position: nat, out: Out, full: nat, linear: nat)
    requires Inv(d, m) && Covered(d, m, id, position) && OutShape(d, out)
    requires full <= d.nFull && linear <= d.nLinear
    ensures Readable(d, m, id) && Readable(d, TokenStored(d, m, id, position, out, full, linear), id)
    ensures SameAbove(d, SeqView(d, m, id), SeqView(d, TokenStored(d, m, id, position, out, full, linear), id),
                      full, linear)
  {
    TokenStoredInv(d, m, id, position, out, full, linear);
    var after := TokenStored(d, m, id, position, out, full, linear);
    InvReadable(d, m, id);
    InvReadable(d, after, id);
    var pages, at := m.seqs[id].pages, position / d.pageTokens;
    GatherAbove(d, m.kv.k, pages, at, PutRows(d, m.kv.k[pages[at]], position % d.pageTokens, out.k, full), full);
    GatherAbove(d, m.kv.v, pages, at, PutRows(d, m.kv.v[pages[at]], position % d.pageTokens, out.v, full), full);
  }

  /** The two views agree from ordinal `full` and `linear` on, and on the metadata. */
  ghost predicate SameAbove(d: Dims, s: SeqState, after: SeqState, full: nat, linear: nat)
    requires SeqShape(d, s) && SeqShape(d, after)
  {
    && after.length == s.length && after.blocks == s.blocks
    && (forall o | full <= o < d.nFull :: after.k[o] == s.k[o] && after.v[o] == s.v[o])
    && (forall o | linear <= o < d.nLinear :: after.conv[o] == s.conv[o] && after.rec[o] == s.rec[o])
  }

  /** Replacing the part of one page below ordinal `full` leaves the others' rows. */
  lemma GatherAbove(d: Dims, store: seq<PageData>, pages: seq<nat>, at: nat, page: PageData, full: nat)
    requires d.Positive() && StoreShape(d, store) && InPool(pages, |store|) && at < |pages| && PageShape(d, page)
    requires forall o | full <= o < d.nFull :: page[o] == store[pages[at]][o]
    ensures StoreShape(d, store[pages[at] := page])
    ensures forall o | full <= o < d.nFull ::
              Gather(d, store[pages[at] := page], pages)[o] == Gather(d, store, pages)[o]
  {
    var after := store[pages[at] := page];
    var was, now := Gather(d, store, pages), Gather(d, after, pages);
    forall o, n | full <= o < d.nFull && 0 <= n < d.nKv
      ensures now[o][n] == was[o][n]
    {
      forall t | 0 <= t < d.maxSeqLen
        ensures now[o][n][t] == was[o][n][t]
      {
        assert LogicalRow(d, after, pages, o, n, t) == LogicalRow(d, store, pages, o, n, t);
      }
    }
  }

  // ----- the whole forward step ---------------------------------------------

  /** Storage and length of one traversal, once the position is covered. */
  ghost function Committed(d: Dims, m: Mgr, id: nat, out: Out): (r: Mgr)
    requires Inv(d, m) && id in m.seqs && Covered(d, m, id, m.seqs[id].length) && OutShape(d, out)
  {
    var position := m.seqs[id].length;
    TokenStoredInv(d, m, id, position, out, d.nFull, d.nLinear);
    Advanced(TokenStored(d, m, id, position, out, d.nFull, d.nLinear), id, 1)
  }

  lemma CommittedInv(d: Dims, m: Mgr, id: nat, out: Out)
    requires Inv(d, m) && id in m.seqs && Covered(d, m, id, m.seqs[id].length) && OutShape(d, out)
    ensures Inv(d, Committed(d, m, id, out))
    ensures Committed(d, m, id, out).seqs.Keys == m.seqs.Keys
  {
    var position := m.seqs[id].length;
    TokenStoredInv(d, m, id, position, out, d.nFull, d.nLinear);
    var stored := TokenStored(d, m, id, position, out, d.nFull, d.nLinear);
    assert stored.seqs == m.seqs;
    AdvancedInv(d, stored, id, 1);
  }

  lemma CommittedView(d: Dims, m: Mgr, id: nat, out: Out)
    requires Inv(d, m) && id in m.seqs && Covered(d, m, id, m.seqs[id].length) && OutShape(d, out)
    ensures Readable(d, m, id) && Readable(d, Committed(d, m, id, out), id)
    ensures SeqView(d, m, id).length < d.maxSeqLen
    ensures SeqView(d, Committed(d, m, id, out), id) ==
            SoloForward(d, SeqView(d, m, id), out).(blocks := SeqView(d, m, id).blocks)
  {
    var position := m.seqs[id].length;
    TokenStoredView(d, m, id, position, out);
    TokenStoredInv(d, m, id, position, out, d.nFull, d.nLinear);
    LengthSetView(d, TokenStored(d, m, id, position, out, d.nFull, d.nLinear), id, position + 1, id);
  }

  lemma CommittedOther(d: Dims, m: Mgr, id: nat, out: Out, other: nat)
    requires Inv(d, m) && id in m.seqs && Covered(d, m, id, m.seqs[id].length) && OutShape(d, out)
    requires other in m.seqs && other != id
    ensures Readable(d, m, other) && Readable(d, Committed(d, m, id, out), other)
    ensures SeqView(d, Committed(d, m, id, out), other) == SeqView(d, m, other)
  {
    var position := m.seqs[id].length;
    TokenStoredOther(d, m, id, position, out, d.nFull, d.nLinear, other);
    LengthSetView(d, TokenStored(d, m, id, position, out, d.nFull, d.nLinear), id, position + 1, other);
  }

  /** The gates a forward passes before it touches anything. */
  predicate CanForward(d: Dims, vocab: nat, m: Mgr, token: int, id: nat)
    requires d.pageTokens >= 1
  {
    && 0 <= token < vocab
    && id in m.seqs && m.seqs[id].length < d.maxSeqLen
    && CanEnsureKv(d, m, id, m.seqs[id].length)
  }

  lemma EnsuredIsCovered(d: Dims, m: Mgr, id: nat, position: nat)
    requires Inv(d, m) && CanEnsureKv(d, m, id, position)
    ensures Inv(d, Ensured(d, m, id, position))
    ensures Covered(d, Ensured(d, m, id, position), id, position)
  {
    EnsuredInv(d, m, id, position);
  }

  /** The position is derived from the length; growth comes first; the length is
      committed last. */
  ghost function Forwarded(d: Dims, m: Mgr, id: nat, out: Out): (r: Mgr)
    requires Inv(d, m) && id in m.seqs && CanEnsureKv(d, m, id, m.seqs[id].length) && OutShape(d, out)
  {
    EnsuredIsCovered(d, m, id, m.seqs[id].length);
    Committed(d, Ensured(d, m, id, m.seqs[id].length), id, out)
  }

  lemma ForwardedInv(d: Dims, m: Mgr, id: nat, out: Out)
    requires Inv(d, m) && id in m.seqs && CanEnsureKv(d, m, id, m.seqs[id].length) && OutShape(d, out)
    ensures Inv(d, Forwarded(d, m, id, out)) && Forwarded(d, m, id, out).seqs.Keys == m.seqs.Keys
  {
    EnsuredIsCovered(d, m, id, m.seqs[id].length);
    CommittedInv(d, Ensured(d, m, id, m.seqs[id].length), id, out);
  }

  /** A forward through the shared pools is the forward on private storage. */
  lemma ForwardedView(d: Dims, m: Mgr, id: nat, out: Out)
    requires Inv(d, m) && id in m.seqs && CanEnsureKv(d, m, id, m.seqs[id].length) && OutShape(d, out)
    ensures Readable(d, m, id) && Readable(d, Forwarded(d, m, id, out), id)
    ensures SeqView(d, m, id).length < d.maxSeqLen
    ensures SeqView(d, Forwarded(d, m, id, out), id) == SoloForward(d, SeqView(d, m, id), out)
  {
    var position := m.seqs[id].length;
    EnsuredIsCovered(d, m, id, position);
    EnsuredView(d, m, id, position);
    CommittedView(d, Ensured(d, m, id, position), id, out);
  }

  lemma ForwardedOther(d: Dims, m: Mgr, id: nat, out: Out, other: nat)
    requires Inv(d, m) && id in m.seqs && CanEnsureKv(d, m, id, m.seqs[id].length) && OutShape(d, out)
    requires other in m.seqs && other != id
    ensures Readable(d, m, other) && Readable(d, Forwarded(d, m, id, out), other)
    ensures SeqView(d, Forwarded(d, m, id, out), other) == SeqView(d, m, other)
  {
    var position := m.seqs[id].length;
    EnsuredIsCovered(d, m, id, position);
    EnsuredOther(d, m, id, position, other);
    CommittedOther(d, Ensured(d, m, id, position), id, out, other);
  }
}
