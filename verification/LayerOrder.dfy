/** A batch walks the layers once, all rows inside each layer. This module shows that
    walk to leave what storing every row in turn leaves, each layer of each row reading
    what it would have read alone. */
module LayerOrders {
  import opened Configs
  import opened PageLayout
  import opened KvPagePools
  import opened ManagerModel
  import opened SequenceViews
  import opened Forwards
  import opened Runs
  import opened Batches

  /** Rows with their pages, and what each row's walk stores in all. */
  ghost predicate Walk(c: Setup, m: Mgr, rows: seq<BatchRow>, outs: seq<Out>) {
    Armed(c, m, rows) && |outs| == |rows| && forall i | 0 <= i < |outs| :: OutShape(c.d, outs[i])
  }

  ghost predicate RowWalk(c: Setup, m: Mgr, r: BatchRow, out: Out) {
    && c.Ok() && Inv(c.d, m) && RowReady(c, m, r) && Covered(c.d, m, r.id, m.seqs[r.id].length)
    && OutShape(c.d, out)
  }

  /** One row's storage once `full` full and `linear` linear layers have run. */
  ghost function RowAt(c: Setup, m: Mgr, r: BatchRow, out: Out, full: nat, linear: nat): (after: Mgr)
    requires RowWalk(c, m, r, out) && full <= c.d.nFull && linear <= c.d.nLinear
    ensures after.seqs == m.seqs && after.nextId == m.nextId
  {
    InvReadable(c.d, m, r.id);
    TokenStored(c.d, m, r.id, m.seqs[r.id].length, out, full, linear)
  }

  lemma RowAtInv(c: Setup, m: Mgr, r: BatchRow, out: Out, full: nat, linear: nat)
    requires RowWalk(c, m, r, out) && full <= c.d.nFull && linear <= c.d.nLinear
    ensures Inv(c.d, RowAt(c, m, r, out, full, linear))
  {
    TokenStoredInv(c.d, m, r.id, m.seqs[r.id].length, out, full, linear);
  }

  lemma WalkFirst(c: Setup, m: Mgr, rows: seq<BatchRow>, outs: seq<Out>, full: nat, linear: nat)
    requires Walk(c, m, rows, outs) && rows != [] && full <= c.d.nFull && linear <= c.d.nLinear
    ensures RowWalk(c, m, rows[0], outs[0])
    ensures Walk(c, RowAt(c, m, rows[0], outs[0], full, linear), rows[1..], outs[1..])
  {
    RowAtInv(c, m, rows[0], outs[0], full, linear);
    RowsUnmoved(c, m, RowAt(c, m, rows[0], outs[0], full, linear), rows);
  }

  /** Every row's storage at the same depth. */
  ghost function RowsAt(c: Setup, m: Mgr, rows: seq<BatchRow>, outs: seq<Out>, full: nat, linear: nat): (after: Mgr)
    requires Walk(c, m, rows, outs) && full <= c.d.nFull && linear <= c.d.nLinear
    ensures after.seqs == m.seqs
    decreases |rows|
  {
    if rows == [] then m
    else
      WalkFirst(c, m, rows, outs, full, linear);
      RowsAt(c, RowAt(c, m, rows[0], outs[0], full, linear), rows[1..], outs[1..], full, linear)
  }

  lemma {:induction false} RowsAtInv(c: Setup, m: Mgr, rows: seq<BatchRow>, outs: seq<Out>, full: nat, linear: nat)
    requires Walk(c, m, rows, outs) && full <= c.d.nFull && linear <= c.d.nLinear
    ensures Inv(c.d, RowsAt(c, m, rows, outs, full, linear))
    decreases |rows|
  {
    if rows != [] {
      WalkFirst(c, m, rows, outs, full, linear);
      RowsAtInv(c, RowAt(c, m, rows[0], outs[0], full, linear), rows[1..], outs[1..], full, linear);
    }
  }

  // ----- one layer's store --------------------------------------------------

  /** One full layer of one row stored. */
  ghost function PutFull(c: Setup, m: Mgr, r: BatchRow, out: Out, full: nat): (after: Mgr)
    requires RowWalk(c, m, r, out) && full < c.d.nFull
    ensures after.seqs == m.seqs
  {
    InvReadable(c.d, m, r.id);
    RowWritten(c.d, m, r.id, m.seqs[r.id].length, full, out.k[full], out.v[full])
  }

  ghost function PutLinear(c: Setup, m: Mgr, r: BatchRow, out: Out, linear: nat): (after: Mgr)
    requires RowWalk(c, m, r, out) && linear < c.d.nLinear
    ensures after.seqs == m.seqs
  {
    InvReadable(c.d, m, r.id);
    SlotWritten(c.d, m, r.id, linear, out.conv[linear], out.rec[linear])
  }

  lemma PutFullWalk(c: Setup, m: Mgr, r: BatchRow, out: Out, full: nat, q: BatchRow, qOut: Out)
    requires RowWalk(c, m, r, out) && full < c.d.nFull && RowWalk(c, m, q, qOut)
    ensures RowWalk(c, PutFull(c, m, r, out, full), q, qOut)
  {
    RowWrittenInv(c.d, m, r.id, m.seqs[r.id].length, full, out.k[full], out.v[full]);
  }

  lemma PutLinearWalk(c: Setup, m: Mgr, r: BatchRow, out: Out, linear: nat, q: BatchRow, qOut: Out)
    requires RowWalk(c, m, r, out) && linear < c.d.nLinear && RowWalk(c, m, q, qOut)
    ensures RowWalk(c, PutLinear(c, m, r, out, linear), q, qOut)
  {
    SlotWrittenInv(c.d, m, r.id, linear, out.conv[linear], out.rec[linear]);
  }

  /** The next layer's store takes a row one layer further. */
  lemma PutAdvances(c: Setup, m: Mgr, r: BatchRow, out: Out, full: nat, linear: nat)
    requires RowWalk(c, m, r, out) && full <= c.d.nFull && linear <= c.d.nLinear
    ensures RowWalk(c, RowAt(c, m, r, out, full, linear), r, out)
    ensures full < c.d.nFull ==>
              PutFull(c, RowAt(c, m, r, out, full, linear), r, out, full) == RowAt(c, m, r, out, full + 1, linear)
    ensures linear < c.d.nLinear ==>
              PutLinear(c, RowAt(c, m, r, out, full, linear), r, out, linear) == RowAt(c, m, r, out, full, linear + 1)
  {
    RowAtInv(c, m, r, out, full, linear);
    InvReadable(c.d, m, r.id);
    TokenStoredStep(c.d, m, r.id, m.seqs[r.id].length, out, full, linear);
  }

  lemma PagesCommute(d: Dims, kv: KvPool, page: nat, off: nat, o: nat, kRow: seq<Elem>, vRow: seq<Elem>,
                     other: nat, at: nat, out: Out, full: nat)
    requires kv.Shaped(d) && page < |kv.k| && other < |kv.k| && page != other && OutShape(d, out)
    requires off < d.pageTokens && at < d.pageTokens && o < d.nFull && full <= d.nFull
    requires |kRow| == |vRow| == d.nKv * d.headDim
    ensures KvAfter(d, kv, other, at, out, full).Shaped(d)
    ensures kv.RowStored(d, o, page, off, kRow, vRow).Shaped(d)
    ensures KvAfter(d, kv, other, at, out, full).RowStored(d, o, page, off, kRow, vRow) ==
            KvAfter(d, kv.RowStored(d, o, page, off, kRow, vRow), other, at, out, full)
  {
  }

  /** Stores of different sequences commute: they share no page and no slot. */
  lemma PutFullCommutes(c: Setup, m: Mgr, r: BatchRow, out: Out, o: nat, q: BatchRow, qOut: Out, full: nat, linear: nat)
    requires RowWalk(c, m, r, out) && o < c.d.nFull && RowWalk(c, m, q, qOut) && q.id != r.id
    requires full <= c.d.nFull && linear <= c.d.nLinear
    ensures RowWalk(c, RowAt(c, m, q, qOut, full, linear), r, out)
    ensures RowWalk(c, PutFull(c, m, r, out, o), q, qOut)
    ensures PutFull(c, RowAt(c, m, q, qOut, full, linear), r, out, o) ==
            RowAt(c, PutFull(c, m, r, out, o), q, qOut, full, linear)
  {
    RowAtInv(c, m, q, qOut, full, linear);
    PutFullWalk(c, m, r, out, o, q, qOut);
    TailPagesDiffer(c, m, r, q);
    TailFits(c, m, r, out);
    TailFits(c, m, q, qOut);
    PagesCommute(c.d, m.kv, TailPage(c, m, r.id), m.seqs[r.id].length % c.d.pageTokens, o, out.k[o], out.v[o],
                 TailPage(c, m, q.id), m.seqs[q.id].length % c.d.pageTokens, qOut, full);
  }

  /** The page the sequence's next token goes to. */
  function TailPage(c: Setup, m: Mgr, id: nat): nat
    requires c.d.pageTokens >= 1 && id in m.seqs && Covered(c.d, m, id, m.seqs[id].length)
  {
    m.seqs[id].pages[m.seqs[id].length / c.d.pageTokens]
  }

  lemma TailFits(c: Setup, m: Mgr, r: BatchRow, out: Out)
    requires RowWalk(c, m, r, out)
    ensures m.kv.Shaped(c.d) && TailPage(c, m, r.id) < |m.kv.k|
    ensures m.seqs[r.id].length % c.d.pageTokens < c.d.pageTokens
    ensures forall o | 0 <= o < c.d.nFull :: |out.k[o]| == |out.v[o]| == c.d.nKv * c.d.headDim
  {
    InvReadable(c.d, m, r.id);
  }

  lemma TailPagesDiffer(c: Setup, m: Mgr, r: BatchRow, q: BatchRow)
    requires c.Ok() && Inv(c.d, m) && q.id != r.id
    requires r.id in m.seqs && Covered(c.d, m, r.id, m.seqs[r.id].length)
    requires q.id in m.seqs && Covered(c.d, m, q.id, m.seqs[q.id].length)
    ensures TailPage(c, m, r.id) != TailPage(c, m, q.id)
    ensures m.seqs[r.id].slot != m.seqs[q.id].slot
  {
    NoAlias(c.d, m, r.id, q.id);
    assert TailPage(c, m, q.id) !in m.seqs[r.id].pages;
  }

  lemma PutLinearCommutes(c: Setup, m: Mgr, r: BatchRow, out: Out, o: nat, q: BatchRow, qOut: Out,
                          full: nat, linear: nat)
    requires RowWalk(c, m, r, out) && o < c.d.nLinear && RowWalk(c, m, q, qOut) && q.id != r.id
    requires full <= c.d.nFull && linear <= c.d.nLinear
    ensures RowWalk(c, RowAt(c, m, q, qOut, full, linear), r, out)
    ensures RowWalk(c, PutLinear(c, m, r, out, o), q, qOut)
    ensures PutLinear(c, RowAt(c, m, q, qOut, full, linear), r, out, o) ==
            RowAt(c, PutLinear(c, m, r, out, o), q, qOut, full, linear)
  {
    RowAtInv(c, m, q, qOut, full, linear);
    PutLinearWalk(c, m, r, out, o, q, qOut);
    TailPagesDiffer(c, m, r, q);
  }

  lemma StillReady(c: Setup, m: Mgr, after: Mgr, r: BatchRow, out: Out, rows: seq<BatchRow>, outs: seq<Out>)
    requires Inv(c.d, after) && after.seqs == m.seqs
    ensures RowWalk(c, m, r, out) ==> RowWalk(c, after, r, out)
    ensures Walk(c, m, rows, outs) ==> Walk(c, after, rows, outs)
  {
  }

  /** No row is of this sequence. */
  ghost predicate Without(rows: seq<BatchRow>, id: nat) {
    forall i | 0 <= i < |rows| :: rows[i].id != id
  }

  lemma NotFirst(rows: seq<BatchRow>, id: nat)
    requires rows != [] && Without(rows, id)
    ensures rows[0].id != id && Without(rows[1..], id)
  {
  }

  lemma {:induction false} PutFullPasses(c: Setup, m: Mgr, r: BatchRow, out: Out, o: nat,
                                         rows: seq<BatchRow>, outs: seq<Out>, full: nat, linear: nat)
    requires RowWalk(c, m, r, out) && o < c.d.nFull && Walk(c, m, rows, outs)
    requires Without(rows, r.id)
    requires full <= c.d.nFull && linear <= c.d.nLinear
    ensures RowWalk(c, RowsAt(c, m, rows, outs, full, linear), r, out)
    ensures Walk(c, PutFull(c, m, r, out, o), rows, outs)
    ensures PutFull(c, RowsAt(c, m, rows, outs, full, linear), r, out, o) ==
            RowsAt(c, PutFull(c, m, r, out, o), rows, outs, full, linear)
    decreases |rows|
  {
    PutFullWalk(c, m, r, out, o, r, out);
    StillReady(c, m, PutFull(c, m, r, out, o), r, out, rows, outs);
    RowsAtInv(c, m, rows, outs, full, linear);
    StillReady(c, m, RowsAt(c, m, rows, outs, full, linear), r, out, rows, outs);
    if rows != [] {
      NotFirst(rows, r.id);
      WalkFirst(c, m, rows, outs, full, linear);
      PutFullCommutes(c, m, r, out, o, rows[0], outs[0], full, linear);
      PutFullPasses(c, RowAt(c, m, rows[0], outs[0], full, linear), r, out, o, rows[1..], outs[1..], full, linear);
    }
  }

  lemma {:induction false} PutLinearPasses(c: Setup, m: Mgr, r: BatchRow, out: Out, o: nat,
                                           rows: seq<BatchRow>, outs: seq<Out>, full: nat, linear: nat)
    requires RowWalk(c, m, r, out) && o < c.d.nLinear && Walk(c, m, rows, outs)
    requires Without(rows, r.id)
    requires full <= c.d.nFull && linear <= c.d.nLinear
    ensures RowWalk(c, RowsAt(c, m, rows, outs, full, linear), r, out)
    ensures Walk(c, PutLinear(c, m, r, out, o), rows, outs)
    ensures PutLinear(c, RowsAt(c, m, rows, outs, full, linear), r, out, o) ==
            RowsAt(c, PutLinear(c, m, r, out, o), rows, outs, full, linear)
    decreases |rows|
  {
    PutLinearWalk(c, m, r, out, o, r, out);
    StillReady(c, m, PutLinear(c, m, r, out, o), r, out, rows, outs);
    RowsAtInv(c, m, rows, outs, full, linear);
    StillReady(c, m, RowsAt(c, m, rows, outs, full, linear), r, out, rows, outs);
    if rows != [] {
      NotFirst(rows, r.id);
      WalkFirst(c, m, rows, outs, full, linear);
      PutLinearCommutes(c, m, r, out, o, rows[0], outs[0], full, linear);
      PutLinearPasses(c, RowAt(c, m, rows[0], outs[0], full, linear), r, out, o, rows[1..], outs[1..], full, linear);
    }
  }

  // ----- in the middle of a layer -------------------------------------------

  lemma WalkPart(c: Setup, m: Mgr, rows: seq<BatchRow>, outs: seq<Out>, after: Mgr, lo: nat, hi: nat)
    requires Walk(c, m, rows, outs) && lo <= hi <= |rows|
    requires Inv(c.d, after) && after.seqs == m.seqs
    ensures Walk(c, after, rows[lo..hi], outs[lo..hi])
  {
  }

  /** How deep a row is when the layer's turn has reached row b. */
  datatype Depth = Depth(full: nat, linear: nat)

  predicate Within(d: Dims, at: Depth) {
    at.full <= d.nFull && at.linear <= d.nLinear
  }

  /** The rows below b have run the layer. */
  ghost function Ahead(c: Setup, m: Mgr, rows: seq<BatchRow>, outs: seq<Out>, b: nat, done: Depth): (r: Mgr)
    requires Walk(c, m, rows, outs) && b <= |rows| && Within(c.d, done)
    ensures r.seqs == m.seqs
  {
    WalkPart(c, m, rows, outs, m, 0, b);
    RowsAt(c, m, rows[0..b], outs[0..b], done.full, done.linear)
  }

  lemma AheadReady(c: Setup, m: Mgr, rows: seq<BatchRow>, outs: seq<Out>, b: nat, done: Depth)
    requires Walk(c, m, rows, outs) && b <= |rows| && Within(c.d, done)
    ensures Inv(c.d, Ahead(c, m, rows, outs, b, done))
    ensures Walk(c, Ahead(c, m, rows, outs, b, done), rows[b..|rows|], outs[b..|rows|])
  {
    WalkPart(c, m, rows, outs, m, 0, b);
    RowsAtInv(c, m, rows[0..b], outs[0..b], done.full, done.linear);
    WalkPart(c, m, rows, outs, Ahead(c, m, rows, outs, b, done), b, |rows|);
  }

  /** Rows below b have run the layer, rows from b on have not. */
  ghost function Mixed(c: Setup, m: Mgr, rows: seq<BatchRow>, outs: seq<Out>, b: nat, done: Depth, todo: Depth)
    : (r: Mgr)
    requires Walk(c, m, rows, outs) && b <= |rows| && Within(c.d, done) && Within(c.d, todo)
    ensures r.seqs == m.seqs
  {
    AheadReady(c, m, rows, outs, b, done);
    RowsAt(c, Ahead(c, m, rows, outs, b, done), rows[b..|rows|], outs[b..|rows|], todo.full, todo.linear)
  }

  lemma {:induction false} RowsAtSnoc(c: Setup, m: Mgr, rows: seq<BatchRow>, outs: seq<Out>, r: BatchRow, out: Out,
                                      full: nat, linear: nat)
    requires Walk(c, m, rows + [r], outs + [out]) && |rows| == |outs| && full <= c.d.nFull && linear <= c.d.nLinear
    ensures Walk(c, m, rows, outs) && RowWalk(c, RowsAt(c, m, rows, outs, full, linear), r, out)
    ensures RowsAt(c, m, rows + [r], outs + [out], full, linear) ==
            RowAt(c, RowsAt(c, m, rows, outs, full, linear), r, out, full, linear)
    decreases |rows|
  {
    var all, allOuts := rows + [r], outs + [out];
    assert all[0..|rows|] == rows && allOuts[0..|rows|] == outs;
    WalkPart(c, m, all, allOuts, m, 0, |rows|);
    WalkFirst(c, m, all, allOuts, full, linear);
    if rows == [] {
      assert all[1..] == [] && allOuts[1..] == [];
    } else {
      assert all[1..] == rows[1..] + [r] && allOuts[1..] == outs[1..] + [out];
      RowsAtSnoc(c, RowAt(c, m, rows[0], outs[0], full, linear), rows[1..], outs[1..], r, out, full, linear);
    }
  }

  /** Row b on its own, with the rows behind it still to run. */
  ghost predicate Around(c: Setup, ahead: Mgr, rows: seq<BatchRow>, outs: seq<Out>, b: nat, at: Depth)
    requires b < |rows| == |outs|
  {
    && Within(c.d, at) && RowWalk(c, ahead, rows[b], outs[b])
    && Walk(c, RowAt(c, ahead, rows[b], outs[b], at.full, at.linear), rows[b + 1..|rows|], outs[b + 1..|rows|])
  }

  ghost function Behind(c: Setup, ahead: Mgr, rows: seq<BatchRow>, outs: seq<Out>, b: nat, at: Depth, todo: Depth): Mgr
    requires b < |rows| == |outs| && Around(c, ahead, rows, outs, b, at) && Within(c.d, todo)
  {
    RowsAt(c, RowAt(c, ahead, rows[b], outs[b], at.full, at.linear), rows[b + 1..|rows|], outs[b + 1..|rows|],
           todo.full, todo.linear)
  }

  lemma AheadAround(c: Setup, m: Mgr, rows: seq<BatchRow>, outs: seq<Out>, b: nat, done: Depth, at: Depth)
    requires Walk(c, m, rows, outs) && b < |rows| && Within(c.d, done) && Within(c.d, at)
    ensures Around(c, Ahead(c, m, rows, outs, b, done), rows, outs, b, at)
  {
    var n, ahead := |rows|, Ahead(c, m, rows, outs, b, done);
    AheadReady(c, m, rows, outs, b, done);
    assert rows[b..n][1..] == rows[b + 1..n] && outs[b..n][1..] == outs[b + 1..n];
    WalkFirst(c, ahead, rows[b..n], outs[b..n], at.full, at.linear);
  }

  lemma MixedHere(c: Setup, m: Mgr, rows: seq<BatchRow>, outs: seq<Out>, b: nat, done: Depth, todo: Depth)
    requires Walk(c, m, rows, outs) && b < |rows| && Within(c.d, done) && Within(c.d, todo)
    ensures Around(c, Ahead(c, m, rows, outs, b, done), rows, outs, b, todo)
    ensures Mixed(c, m, rows, outs, b, done, todo) ==
            Behind(c, Ahead(c, m, rows, outs, b, done), rows, outs, b, todo, todo)
  {
    var n := |rows|;
    AheadAround(c, m, rows, outs, b, done, todo);
    assert rows[b..n][1..] == rows[b + 1..n] && outs[b..n][1..] == outs[b + 1..n];
  }

  lemma MixedNext(c: Setup, m: Mgr, rows: seq<BatchRow>, outs: seq<Out>, b: nat, done: Depth, todo: Depth)
    requires Walk(c, m, rows, outs) && b < |rows| && Within(c.d, done) && Within(c.d, todo)
    ensures Around(c, Ahead(c, m, rows, outs, b, done), rows, outs, b, done)
    ensures Mixed(c, m, rows, outs, b + 1, done, todo) ==
            Behind(c, Ahead(c, m, rows, outs, b, done), rows, outs, b, done, todo)
  {
    AheadAround(c, m, rows, outs, b, done, done);
    WalkPart(c, m, rows, outs, m, 0, b + 1);
    assert rows[0..b + 1] == rows[0..b] + [rows[b]] && outs[0..b + 1] == outs[0..b] + [outs[b]];
    RowsAtSnoc(c, m, rows[0..b], outs[0..b], rows[b], outs[b], done.full, done.linear);
  }

  lemma LaterRowsDiffer(rows: seq<BatchRow>, b: nat)
    requires UniqueIds(rows) && b < |rows|
    ensures Without(rows[b + 1..|rows|], rows[b].id) && Without(rows[0..b], rows[b].id)
  {
  }

  lemma FullPassesRest(c: Setup, ahead: Mgr, r: BatchRow, out: Out, rest: seq<BatchRow>, outs: seq<Out>,
                        full: nat, linear: nat, next: nat)
    requires full <= c.d.nFull && linear <= c.d.nLinear && next == full + 1 <= c.d.nFull && RowWalk(c, ahead, r, out)
    requires Walk(c, RowAt(c, ahead, r, out, full, linear), rest, outs) && Without(rest, r.id)
    requires Walk(c, RowAt(c, ahead, r, out, next, linear), rest, outs)
    ensures var here := RowsAt(c, RowAt(c, ahead, r, out, full, linear), rest, outs, full, linear);
            && RowWalk(c, here, r, out)
            && PutFull(c, here, r, out, full) ==
               RowsAt(c, RowAt(c, ahead, r, out, next, linear), rest, outs, full, linear)
  {
    PutAdvances(c, ahead, r, out, full, linear);
    PutFullPasses(c, RowAt(c, ahead, r, out, full, linear), r, out, full, rest, outs, full, linear);
  }

  lemma FullTurnHere(c: Setup, ahead: Mgr, rows: seq<BatchRow>, outs: seq<Out>, b: nat, done: Depth, todo: Depth)
    requires b < |rows| == |outs| && Around(c, ahead, rows, outs, b, todo) && Around(c, ahead, rows, outs, b, done)
    requires Without(rows[b + 1..|rows|], rows[b].id)
    requires todo.full < c.d.nFull && done == Depth(todo.full + 1, todo.linear)
    ensures RowWalk(c, Behind(c, ahead, rows, outs, b, todo, todo), rows[b], outs[b])
    ensures PutFull(c, Behind(c, ahead, rows, outs, b, todo, todo), rows[b], outs[b], todo.full) ==
            Behind(c, ahead, rows, outs, b, done, todo)
  {
    FullPassesRest(c, ahead, rows[b], outs[b], rows[b + 1..|rows|], outs[b + 1..|rows|],
                   todo.full, todo.linear, done.full);
  }

  /** A full layer's store of row b hands the turn to row b + 1. */
  lemma FullTurn(c: Setup, m: Mgr, rows: seq<BatchRow>, outs: seq<Out>, b: nat, done: Depth, todo: Depth)
    requires Walk(c, m, rows, outs) && b < |rows| && Within(c.d, done) && Within(c.d, todo)
    requires todo.full < c.d.nFull && done == Depth(todo.full + 1, todo.linear)
    ensures RowWalk(c, Mixed(c, m, rows, outs, b, done, todo), rows[b], outs[b])
    ensures PutFull(c, Mixed(c, m, rows, outs, b, done, todo), rows[b], outs[b], todo.full) ==
            Mixed(c, m, rows, outs, b + 1, done, todo)
  {
    MixedHere(c, m, rows, outs, b, done, todo);
    MixedNext(c, m, rows, outs, b, done, todo);
    LaterRowsDiffer(rows, b);
    FullTurnHere(c, Ahead(c, m, rows, outs, b, done), rows, outs, b, done, todo);
  }

  lemma LinearPassesRest(c: Setup, ahead: Mgr, r: BatchRow, out: Out, rest: seq<BatchRow>, outs: seq<Out>,
                        full: nat, linear: nat, next: nat)
    requires full <= c.d.nFull && linear <= c.d.nLinear && next == linear + 1 <= c.d.nLinear
    requires RowWalk(c, ahead, r, out)
    requires Walk(c, RowAt(c, ahead, r, out, full, linear), rest, outs) && Without(rest, r.id)
    requires Walk(c, RowAt(c, ahead, r, out, full, next), rest, outs)
    ensures var here := RowsAt(c, RowAt(c, ahead, r, out, full, linear), rest, outs, full, linear);
            && RowWalk(c, here, r, out)
            && PutLinear(c, here, r, out, linear) ==
               RowsAt(c, RowAt(c, ahead, r, out, full, next), rest, outs, full, linear)
  {
    PutAdvances(c, ahead, r, out, full, linear);
    PutLinearPasses(c, RowAt(c, ahead, r, out, full, linear), r, out, linear, rest, outs, full, linear);
  }

  lemma LinearTurnHere(c: Setup, ahead: Mgr, rows: seq<BatchRow>, outs: seq<Out>, b: nat, done: Depth, todo: Depth)
    requires b < |rows| == |outs| && Around(c, ahead, rows, outs, b, todo) && Around(c, ahead, rows, outs, b, done)
    requires Without(rows[b + 1..|rows|], rows[b].id)
    requires todo.linear < c.d.nLinear && done == Depth(todo.full, todo.linear + 1)
    ensures RowWalk(c, Behind(c, ahead, rows, outs, b, todo, todo), rows[b], outs[b])
    ensures PutLinear(c, Behind(c, ahead, rows, outs, b, todo, todo), rows[b], outs[b], todo.linear) ==
            Behind(c, ahead, rows, outs, b, done, todo)
  {
    LinearPassesRest(c, ahead, rows[b], outs[b], rows[b + 1..|rows|], outs[b + 1..|rows|],
                     todo.full, todo.linear, done.linear);
  }

  lemma LinearTurn(c: Setup, m: Mgr, rows: seq<BatchRow>, outs: seq<Out>, b: nat, done: Depth, todo: Depth)
    requires Walk(c, m, rows, outs) && b < |rows| && Within(c.d, done) && Within(c.d, todo)
    requires todo.linear < c.d.nLinear && done == Depth(todo.full, todo.linear + 1)
    ensures RowWalk(c, Mixed(c, m, rows, outs, b, done, todo), rows[b], outs[b])
    ensures PutLinear(c, Mixed(c, m, rows, outs, b, done, todo), rows[b], outs[b], todo.linear) ==
            Mixed(c, m, rows, outs, b + 1, done, todo)
  {
    MixedHere(c, m, rows, outs, b, done, todo);
    MixedNext(c, m, rows, outs, b, done, todo);
    LaterRowsDiffer(rows, b);
    LinearTurnHere(c, Ahead(c, m, rows, outs, b, done), rows, outs, b, done, todo);
  }

  // ----- what a layer reads -------------------------------------------------

  lemma {:induction false} RowsAtOther(c: Setup, m: Mgr, rows: seq<BatchRow>, outs: seq<Out>, full: nat, linear: nat,
                                       id: nat)
    requires Walk(c, m, rows, outs) && full <= c.d.nFull && linear <= c.d.nLinear && id in m.seqs
    requires Without(rows, id)
    ensures Readable(c.d, m, id) && Readable(c.d, RowsAt(c, m, rows, outs, full, linear), id)
    ensures SeqView(c.d, RowsAt(c, m, rows, outs, full, linear), id) == SeqView(c.d, m, id)
    decreases |rows|
  {
    InvReadable(c.d, m, id);
    if rows != [] {
      NotFirst(rows, id);
      WalkFirst(c, m, rows, outs, full, linear);
      TokenStoredOther(c.d, m, rows[0].id, m.seqs[rows[0].id].length, outs[0], full, linear, id);
      RowsAtOther(c, RowAt(c, m, rows[0], outs[0], full, linear), rows[1..], outs[1..], full, linear, id);
    }
  }

  /** In the middle of a layer, row b still reads, at every ordinal whose turn has not
      come for it, what it read before the walk began. */
  lemma TurnReads(c: Setup, m: Mgr, rows: seq<BatchRow>, outs: seq<Out>, b: nat, done: Depth, todo: Depth)
    requires Walk(c, m, rows, outs) && b < |rows| && Within(c.d, done) && Within(c.d, todo)
    ensures rows[b].id in m.seqs && Readable(c.d, m, rows[b].id)
    ensures Readable(c.d, Mixed(c, m, rows, outs, b, done, todo), rows[b].id)
    ensures SameAbove(c.d, SeqView(c.d, m, rows[b].id),
                      SeqView(c.d, Mixed(c, m, rows, outs, b, done, todo), rows[b].id), todo.full, todo.linear)
  {
    var r := rows[b];
    assert RowReady(c, m, r);
    MixedHere(c, m, rows, outs, b, done, todo);
    LaterRowsDiffer(rows, b);
    WalkPart(c, m, rows, outs, m, 0, b);
    var ahead := Ahead(c, m, rows, outs, b, done);
    RowsAtOther(c, m, rows[0..b], outs[0..b], done.full, done.linear, r.id);
    TokenStoredUnread(c.d, ahead, r.id, ahead.seqs[r.id].length, outs[b], todo.full, todo.linear);
    RowsAtOther(c, RowAt(c, ahead, r, outs[b], todo.full, todo.linear), rows[b + 1..|rows|], outs[b + 1..|rows|],
                todo.full, todo.linear, r.id);
  }

  // ----- from the first layer to the last -----------------------------------

  lemma LayerStarts(c: Setup, m: Mgr, rows: seq<BatchRow>, outs: seq<Out>, done: Depth, todo: Depth)
    requires Walk(c, m, rows, outs) && Within(c.d, done) && Within(c.d, todo)
    ensures Mixed(c, m, rows, outs, 0, done, todo) == RowsAt(c, m, rows, outs, todo.full, todo.linear)
  {
    assert rows[0..|rows|] == rows && outs[0..|outs|] == outs;
  }

  lemma LayerEnds(c: Setup, m: Mgr, rows: seq<BatchRow>, outs: seq<Out>, done: Depth, todo: Depth)
    requires Walk(c, m, rows, outs) && Within(c.d, done) && Within(c.d, todo)
    ensures Mixed(c, m, rows, outs, |rows|, done, todo) == RowsAt(c, m, rows, outs, done.full, done.linear)
  {
    assert rows[0..|rows|] == rows && outs[0..|outs|] == outs;
  }

  lemma {:induction false} NothingStored(c: Setup, m: Mgr, rows: seq<BatchRow>, outs: seq<Out>)
    requires Walk(c, m, rows, outs)
    ensures RowsAt(c, m, rows, outs, 0, 0) == m
    decreases |rows|
  {
    if rows != [] {
      WalkFirst(c, m, rows, outs, 0, 0);
      InvReadable(c.d, m, rows[0].id);
      TokenStoredNone(c.d, m, rows[0].id, m.seqs[rows[0].id].length, outs[0]);
      NothingStored(c, m, rows[1..], outs[1..]);
    }
  }

  /** Once every layer has run, all rows are stored, as if one after another. */
  lemma {:induction false} AllStored(c: Setup, base: Mgr, m: Mgr, rows: seq<BatchRow>, outs: seq<Out>)
    requires Walk(c, m, rows, outs) && Armed(c, base, rows)
    requires forall i | 0 <= i < |rows| :: outs[i] == RowOut(c, base, rows[i])
    ensures RowsAt(c, m, rows, outs, c.d.nFull, c.d.nLinear) == StoreAll(c, base, m, rows)
    decreases |rows|
  {
    if rows != [] {
      WalkFirst(c, m, rows, outs, c.d.nFull, c.d.nLinear);
      ArmedTail(c, base, rows);
      StoreKeeps(c, m, rows, outs[0]);
      assert forall i | 0 <= i < |rows[1..]| :: outs[1..][i] == RowOut(c, base, rows[1..][i]);
      AllStored(c, base, RowAt(c, m, rows[0], outs[0], c.d.nFull, c.d.nLinear), rows[1..], outs[1..]);
    }
  }
}
