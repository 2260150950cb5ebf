/** A decode batch: an aggregate page check up front, then growth for every row,
    then every row's storage, then every row's length. Proved to be exactly the
    rows forwarded one after another, and never to fail once the check passed. */
module Batches {
  import opened FixedIdPools
  import opened KvBlockTables
  import opened ManagerModel
  import opened SequenceViews
  import opened Forwards
  import opened Runs

  datatype BatchRow = BatchRow(token: int, id: nat)

  predicate RowReady(c: Setup, m: Mgr, r: BatchRow) {
    0 <= r.token < c.vocab && r.id in m.seqs && m.seqs[r.id].length < c.d.maxSeqLen
  }

  predicate AllReady(c: Setup, m: Mgr, rows: seq<BatchRow>) {
    forall i | 0 <= i < |rows| :: RowReady(c, m, rows[i])
  }

  predicate UniqueIds(rows: seq<BatchRow>) {
    forall i, j | 0 <= i < j < |rows| :: rows[i].id != rows[j].id
  }

  function RowNeed(c: Setup, m: Mgr, r: BatchRow): nat
    requires c.d.pageTokens >= 1 && r.id in m.seqs
  {
    NewBlocks(c.d.pageTokens, |m.seqs[r.id].pages|, m.seqs[r.id].length)
  }

  /** New pages summed over the rows. */
  function PagesNeeded(c: Setup, m: Mgr, rows: seq<BatchRow>): nat
    requires c.d.pageTokens >= 1 && AllReady(c, m, rows)
  {
    if rows == [] then 0
    else PagesNeeded(c, m, rows[..|rows| - 1]) + RowNeed(c, m, rows[|rows| - 1])
  }

  predicate Preflight(c: Setup, m: Mgr, rows: seq<BatchRow>)
    requires c.d.pageTokens >= 1
  {
    rows != [] && AllReady(c, m, rows) && UniqueIds(rows) && PagesNeeded(c, m, rows) <= |m.kv.ids.free|
  }

  /** Whether growing row by row, first to last, gets through. */
  ghost predicate GrowsThrough(c: Setup, m: Mgr, rows: seq<BatchRow>)
    requires c.Ok() && Inv(c.d, m) && AllReady(c, m, rows) && UniqueIds(rows)
    decreases |rows|
  {
    rows == [] ||
    (var r := rows[0];
     CanEnsureKv(c.d, m, r.id, m.seqs[r.id].length) &&
     (GrownReady(c, m, rows);
      GrowsThrough(c, Grown(c, m, r), rows[1..])))
  }

  ghost function Grown(c: Setup, m: Mgr, r: BatchRow): Mgr
    requires c.Ok() && Inv(c.d, m) && r.id in m.seqs && CanEnsureKv(c.d, m, r.id, m.seqs[r.id].length)
  {
    Ensured(c.d, m, r.id, m.seqs[r.id].length)
  }

  lemma GrownReady(c: Setup, m: Mgr, rows: seq<BatchRow>)
    requires c.Ok() && Inv(c.d, m) && rows != [] && AllReady(c, m, rows) && UniqueIds(rows)
    requires CanEnsureKv(c.d, m, rows[0].id, m.seqs[rows[0].id].length)
    ensures Inv(c.d, Grown(c, m, rows[0]))
    ensures AllReady(c, Grown(c, m, rows[0]), rows[1..]) && UniqueIds(rows[1..])
    ensures forall id | id in m.seqs && id != rows[0].id :: Grown(c, m, rows[0]).seqs[id] == m.seqs[id]
    ensures |Grown(c, m, rows[0]).kv.ids.free| == |m.kv.ids.free| - RowNeed(c, m, rows[0])
  {
    EnsuredInv(c.d, m, rows[0].id, m.seqs[rows[0].id].length);
  }

  /** The sum may be taken from the front as well. */
  lemma {:induction false} NeedFromFront(c: Setup, m: Mgr, rows: seq<BatchRow>)
    requires c.d.pageTokens >= 1 && AllReady(c, m, rows) && rows != []
    ensures PagesNeeded(c, m, rows) == RowNeed(c, m, rows[0]) + PagesNeeded(c, m, rows[1..])
  {
    var n := |rows| - 1;
    if n == 0 {
      assert rows[..0] == [] && rows[1..] == [];
    } else {
      NeedFromFront(c, m, rows[..n]);
      assert rows[..n][1..] == rows[1..][..n - 1];
    }
  }

  lemma {:induction false} NeedSame(c: Setup, m: Mgr, after: Mgr, rows: seq<BatchRow>)
    requires c.d.pageTokens >= 1 && AllReady(c, m, rows) && AllReady(c, after, rows)
    requires forall i | 0 <= i < |rows| :: after.seqs[rows[i].id] == m.seqs[rows[i].id]
    ensures PagesNeeded(c, after, rows) == PagesNeeded(c, m, rows)
  {
    if rows != [] {
      NeedSame(c, m, after, rows[..|rows| - 1]);
    }
  }

  /** The aggregate check is exact: growth row by row gets through if and only if
      the summed need fits the free pages. */
  lemma {:induction false} AggregateExact(c: Setup, m: Mgr, rows: seq<BatchRow>)
    requires c.Ok() && Inv(c.d, m) && AllReady(c, m, rows) && UniqueIds(rows)
    ensures GrowsThrough(c, m, rows) <==> PagesNeeded(c, m, rows) <= |m.kv.ids.free|
    decreases |rows|
  {
    if rows != [] {
      NeedFromFront(c, m, rows);
      if CanEnsureKv(c.d, m, rows[0].id, m.seqs[rows[0].id].length) {
        GrownReady(c, m, rows);
        NeedSame(c, m, Grown(c, m, rows[0]), rows[1..]);
        AggregateExact(c, Grown(c, m, rows[0]), rows[1..]);
      }
    }
  }

  lemma RemoveAt(rows: seq<BatchRow>, k: nat)
    requires k < |rows|
    ensures multiset(rows[..k] + rows[k + 1..]) == multiset(rows) - multiset{rows[k]}
  {
    assert rows == rows[..k] + [rows[k]] + rows[k + 1..];
  }

  /** The need does not depend on the order of the rows, so neither does success. */
  lemma {:induction false} NeedAnyOrder(c: Setup, m: Mgr, rows: seq<BatchRow>, other: seq<BatchRow>)
    requires c.d.pageTokens >= 1 && AllReady(c, m, rows) && AllReady(c, m, other)
    requires multiset(rows) == multiset(other)
    ensures PagesNeeded(c, m, rows) == PagesNeeded(c, m, other)
    decreases |rows|
  {
    if rows == [] {
      assert |multiset(other)| == 0;
    } else {
      var last, n := rows[|rows| - 1], |rows| - 1;
      assert rows == rows[..n] + [last];
      assert last in multiset(other);
      var k :| 0 <= k < |other| && other[k] == last;
      var without := other[..k] + other[k + 1..];
      RemoveAt(other, k);
      RemoveAt(rows, n);
      assert rows[..n] + rows[n + 1..] == rows[..n];
      NeedAnyOrder(c, m, rows[..n], without);
      NeedWithout(c, m, other, k);
    }
  }

  lemma {:induction false} NeedWithout(c: Setup, m: Mgr, rows: seq<BatchRow>, k: nat)
    requires c.d.pageTokens >= 1 && AllReady(c, m, rows) && k < |rows|
    ensures PagesNeeded(c, m, rows) == PagesNeeded(c, m, rows[..k] + rows[k + 1..]) + RowNeed(c, m, rows[k])
    decreases |rows|
  {
    var n := |rows| - 1;
    if k == n {
      assert rows[..k] + rows[k + 1..] == rows[..n];
    } else {
      NeedWithout(c, m, rows[..n], k);
      var without := rows[..k] + rows[k + 1..];
      assert without[..n - 1] == rows[..n][..k] + rows[..n][k + 1..];
      assert without[n - 1] == rows[n];
    }
  }

  // ----- the batch in the code's order --------------------------------------

  ghost function GrowAll(c: Setup, m: Mgr, rows: seq<BatchRow>): Mgr
    requires c.Ok() && Inv(c.d, m) && AllReady(c, m, rows) && UniqueIds(rows) && GrowsThrough(c, m, rows)
    decreases |rows|
  {
    if rows == [] then m
    else
      GrownReady(c, m, rows);
      GrowAll(c, Grown(c, m, rows[0]), rows[1..])
  }

  /** Rows that can still grow one after another. */
  ghost predicate Growing(c: Setup, m: Mgr, rows: seq<BatchRow>) {
    c.Ok() && Inv(c.d, m) && AllReady(c, m, rows) && UniqueIds(rows) && GrowsThrough(c, m, rows)
  }

  lemma GrowingTail(c: Setup, m: Mgr, rows: seq<BatchRow>)
    requires Growing(c, m, rows) && rows != []
    ensures rows[0].id in m.seqs && CanEnsureKv(c.d, m, rows[0].id, m.seqs[rows[0].id].length)
    ensures Growing(c, Grown(c, m, rows[0]), rows[1..])
    ensures GrowAll(c, m, rows) == GrowAll(c, Grown(c, m, rows[0]), rows[1..])
  {
    GrownReady(c, m, rows);
  }

  lemma GrowingNeed(c: Setup, m: Mgr, rows: seq<BatchRow>)
    requires Growing(c, m, rows) && rows != []
    ensures rows[0].id in m.seqs && CanEnsureKv(c.d, m, rows[0].id, m.seqs[rows[0].id].length)
    ensures var g := Grown(c, m, rows[0]);
            && AllReady(c, g, rows[1..])
            && |g.kv.ids.free| - PagesNeeded(c, g, rows[1..]) == |m.kv.ids.free| - PagesNeeded(c, m, rows)
  {
    GrownReady(c, m, rows);
    NeedFromFront(c, m, rows);
    NeedSame(c, m, Grown(c, m, rows[0]), rows[1..]);
  }

  /** Growth takes exactly the summed need from the free pages. */
  lemma {:induction false} GrowthExact(c: Setup, m: Mgr, rows: seq<BatchRow>)
    requires Growing(c, m, rows)
    ensures |GrowAll(c, m, rows).kv.ids.free| == |m.kv.ids.free| - PagesNeeded(c, m, rows)
    decreases |rows|
  {
    if rows != [] {
      GrowingTail(c, m, rows);
      GrowingNeed(c, m, rows);
      GrowthExact(c, Grown(c, m, rows[0]), rows[1..]);
    }
  }

  lemma TwicePresent(rows: seq<BatchRow>, i: nat, j: nat)
    requires i < j < |rows| && rows[i] == rows[j]
    ensures multiset(rows)[rows[j]] >= 2
  {
    assert rows == rows[..j] + [rows[j]] + rows[j + 1..];
    assert rows[..j][i] == rows[j];
    assert rows[j] in multiset(rows[..j]);
  }

  lemma OnceWhenUnique(rows: seq<BatchRow>, k: nat)
    requires k < |rows| && UniqueIds(rows)
    ensures multiset(rows)[rows[k]] == 1
  {
    var without := rows[..k] + rows[k + 1..];
    RemoveAt(rows, k);
    forall q | 0 <= q < |without|
      ensures without[q] != rows[k]
    {
      assert without[q] == rows[if q < k then q else q + 1];
    }
    assert rows[k] !in multiset(without);
  }

  lemma ReorderedUnique(rows: seq<BatchRow>, other: seq<BatchRow>)
    requires UniqueIds(rows) && multiset(rows) == multiset(other)
    ensures UniqueIds(other)
  {
    forall i, j | 0 <= i < j < |other|
      ensures other[i].id != other[j].id
    {
      assert other[i] in multiset(other) && other[j] in multiset(other);
      var p :| 0 <= p < |rows| && rows[p] == other[i];
      var q :| 0 <= q < |rows| && rows[q] == other[j];
      if p == q {
        TwicePresent(other, i, j);
        OnceWhenUnique(rows, q);
        assert false;
      }
    }
  }

  /** Growth goes through in every order of the rows or in none, and always takes the
      same number of pages. */
  lemma GrowthAnyOrder(c: Setup, m: Mgr, rows: seq<BatchRow>, other: seq<BatchRow>)
    requires c.Ok() && Inv(c.d, m) && AllReady(c, m, rows) && UniqueIds(rows) && multiset(rows) == multiset(other)
    ensures AllReady(c, m, other) && UniqueIds(other)
    ensures GrowsThrough(c, m, other) <==> GrowsThrough(c, m, rows)
    ensures GrowsThrough(c, m, rows) ==>
              |GrowAll(c, m, other).kv.ids.free| == |GrowAll(c, m, rows).kv.ids.free|
  {
    forall i | 0 <= i < |other|
      ensures RowReady(c, m, other[i])
    {
      assert other[i] in multiset(other);
    }
    ReorderedUnique(rows, other);
    NeedAnyOrder(c, m, rows, other);
    AggregateExact(c, m, rows);
    AggregateExact(c, m, other);
    if GrowsThrough(c, m, rows) {
      GrowthExact(c, m, rows);
      GrowthExact(c, m, other);
    }
  }

  /** Every row's position has a page. */
  ghost predicate AllCovered(c: Setup, m: Mgr, rows: seq<BatchRow>)
    requires c.d.pageTokens >= 1
  {
    forall i | 0 <= i < |rows| :: RowReady(c, m, rows[i]) && Covered(c.d, m, rows[i].id, m.seqs[rows[i].id].length)
  }

  /** What the layers compute for a row once all rows have their pages. */
  ghost function RowOut(c: Setup, m: Mgr, r: BatchRow): Out
    requires c.Ok() && Inv(c.d, m) && RowReady(c, m, r)
  {
    InvReadable(c.d, m, r.id);
    c.layers(r.token, SeqView(c.d, m, r.id))
  }

  /** All rows have their pages, and no sequence appears twice. */
  ghost predicate Armed(c: Setup, m: Mgr, rows: seq<BatchRow>) {
    c.Ok() && Inv(c.d, m) && AllCovered(c, m, rows) && UniqueIds(rows)
  }

  ghost function RowStored(c: Setup, m: Mgr, r: BatchRow, out: Out): Mgr
    requires c.Ok() && Inv(c.d, m) && OutShape(c.d, out)
    requires RowReady(c, m, r) && Covered(c.d, m, r.id, m.seqs[r.id].length)
  {
    InvReadable(c.d, m, r.id);
    TokenStored(c.d, m, r.id, m.seqs[r.id].length, out, c.d.nFull, c.d.nLinear)
  }

  lemma RowsUnmoved(c: Setup, m: Mgr, after: Mgr, rows: seq<BatchRow>)
    requires c.d.pageTokens >= 1 && AllCovered(c, m, rows) && UniqueIds(rows) && rows != []
    requires forall id | id in m.seqs && id != rows[0].id :: id in after.seqs && after.seqs[id] == m.seqs[id]
    ensures AllCovered(c, after, rows[1..]) && UniqueIds(rows[1..])
  {
  }

  /** Nothing but one record is different. */
  ghost predicate KeepsOthers(m: Mgr, after: Mgr, id: nat) {
    forall j | j in m.seqs && j != id :: j in after.seqs && after.seqs[j] == m.seqs[j]
  }

  lemma ArmedRest(c: Setup, m: Mgr, after: Mgr, rows: seq<BatchRow>)
    requires Armed(c, m, rows) && rows != [] && Inv(c.d, after) && KeepsOthers(m, after, rows[0].id)
    ensures Armed(c, after, rows[1..])
  {
    RowsUnmoved(c, m, after, rows);
  }

  lemma ArmedTail(c: Setup, m: Mgr, rows: seq<BatchRow>)
    requires Armed(c, m, rows) && rows != []
    ensures Armed(c, m, rows[1..])
  {
    RowsUnmoved(c, m, m, rows);
  }

  lemma StoreKeeps(c: Setup, m: Mgr, rows: seq<BatchRow>, out: Out)
    requires Armed(c, m, rows) && rows != [] && OutShape(c.d, out)
    ensures Covered(c.d, m, rows[0].id, m.seqs[rows[0].id].length)
    ensures Armed(c, RowStored(c, m, rows[0], out), rows[1..])
  {
    TokenStoredInv(c.d, m, rows[0].id, m.seqs[rows[0].id].length, out, c.d.nFull, c.d.nLinear);
  }

  lemma CommitKeeps(c: Setup, m: Mgr, rows: seq<BatchRow>, out: Out)
    requires Armed(c, m, rows) && rows != [] && OutShape(c.d, out)
    ensures Covered(c.d, m, rows[0].id, m.seqs[rows[0].id].length)
    ensures Armed(c, Committed(c.d, m, rows[0].id, out), rows[1..])
  {
    CommittedKeeps(c, m, rows[0].id, out);
    ArmedRest(c, m, Committed(c.d, m, rows[0].id, out), rows);
  }

  lemma CommittedKeeps(c: Setup, m: Mgr, id: nat, out: Out)
    requires c.Ok() && Inv(c.d, m) && id in m.seqs && Covered(c.d, m, id, m.seqs[id].length) && OutShape(c.d, out)
    ensures Inv(c.d, Committed(c.d, m, id, out)) && KeepsOthers(m, Committed(c.d, m, id, out), id)
  {
    CommittedInv(c.d, m, id, out);
    CommittedRecords(c, m, id, out);
  }

  lemma CommittedRecords(c: Setup, m: Mgr, id: nat, out: Out)
    requires c.Ok() && Inv(c.d, m) && id in m.seqs && Covered(c.d, m, id, m.seqs[id].length) && OutShape(c.d, out)
    ensures Committed(c.d, m, id, out).seqs == m.seqs[id := m.seqs[id].(length := m.seqs[id].length + 1)]
    ensures Committed(c.d, m, id, out).kv.ids == m.kv.ids
  {
  }

  /** Every row's storage, with what the layers computed in `base`. */
  ghost function StoreAll(c: Setup, base: Mgr, m: Mgr, rows: seq<BatchRow>): (r: Mgr)
    requires Armed(c, base, rows) && Armed(c, m, rows)
    ensures r.seqs == m.seqs
    decreases |rows|
  {
    if rows == [] then m
    else
      var out := RowOut(c, base, rows[0]);
      StoreKeeps(c, m, rows, out);
      StoreAll(c, base, RowStored(c, m, rows[0], out), rows[1..])
  }

  lemma StoreAllHead(c: Setup, base: Mgr, m: Mgr, rows: seq<BatchRow>, out: Out)
    requires Armed(c, base, rows) && Armed(c, m, rows) && rows != [] && out == RowOut(c, base, rows[0])
    ensures Covered(c.d, m, rows[0].id, m.seqs[rows[0].id].length)
    ensures Armed(c, RowStored(c, m, rows[0], out), rows[1..]) && Armed(c, base, rows[1..])
    ensures RowStored(c, m, rows[0], out).seqs == m.seqs
    ensures StoreAll(c, base, m, rows) == StoreAll(c, base, RowStored(c, m, rows[0], out), rows[1..])
  {
    StoreKeeps(c, m, rows, out);
    ArmedTail(c, base, rows);
  }

  function AdvanceAll(m: Mgr, rows: seq<BatchRow>): Mgr
    requires forall i | 0 <= i < |rows| :: rows[i].id in m.seqs
    decreases |rows|
  {
    if rows == [] then m else AdvanceAll(Advanced(m, rows[0].id, 1), rows[1..])
  }

  /** Storage and length, row by row. */
  ghost function CommitAll(c: Setup, base: Mgr, m: Mgr, rows: seq<BatchRow>): Mgr
    requires Armed(c, base, rows) && Armed(c, m, rows)
    decreases |rows|
  {
    if rows == [] then m
    else
      var out := RowOut(c, base, rows[0]);
      CommitKeeps(c, m, rows, out);
      CommitAll(c, base, Committed(c.d, m, rows[0].id, out), rows[1..])
  }

  // ----- storing then advancing is committing -------------------------------

  /** A length change of another sequence commutes with a row's storage. */
  lemma StoreAdvanceCommute(c: Setup, m: Mgr, r: BatchRow, out: Out, id: nat)
    requires c.Ok() && Inv(c.d, m) && OutShape(c.d, out) && RowReady(c, m, r)
    requires Covered(c.d, m, r.id, m.seqs[r.id].length)
    requires id in m.seqs && id != r.id && Inv(c.d, Advanced(m, id, 1))
    ensures RowStored(c, Advanced(m, id, 1), r, out) == Advanced(RowStored(c, m, r, out), id, 1)
  {
  }

  lemma AdvanceKeeps(c: Setup, m: Mgr, rows: seq<BatchRow>, id: nat)
    requires Armed(c, m, rows) && id in m.seqs && m.seqs[id].length < c.d.maxSeqLen
    requires forall i | 0 <= i < |rows| :: rows[i].id != id
    ensures Armed(c, Advanced(m, id, 1), rows)
  {
    AdvancedInv(c.d, m, id, 1);
  }

  /** Rows about to be stored, and a sequence that is none of theirs and can move on. */
  ghost predicate Moving(c: Setup, base: Mgr, m: Mgr, rows: seq<BatchRow>, id: nat) {
    && Armed(c, base, rows) && Armed(c, m, rows)
    && id in m.seqs && m.seqs[id].length < c.d.maxSeqLen && forall i | 0 <= i < |rows| :: rows[i].id != id
  }

  /** The first row's storage, with that sequence's length moved before it. */
  lemma AdvanceHead(c: Setup, base: Mgr, m: Mgr, rows: seq<BatchRow>, id: nat) returns (stored: Mgr)
    requires Moving(c, base, m, rows, id) && rows != []
    ensures Moving(c, base, stored, rows[1..], id)
    ensures Armed(c, Advanced(m, id, 1), rows) && Armed(c, Advanced(stored, id, 1), rows[1..])
    ensures StoreAll(c, base, m, rows) == StoreAll(c, base, stored, rows[1..])
    ensures StoreAll(c, base, Advanced(m, id, 1), rows) == StoreAll(c, base, Advanced(stored, id, 1), rows[1..])
  {
    var out := RowOut(c, base, rows[0]);
    AdvanceKeeps(c, m, rows, id);
    StoreAllHead(c, base, m, rows, out);
    StoreAllHead(c, base, Advanced(m, id, 1), rows, out);
    StoreAdvanceCommute(c, m, rows[0], out, id);
    stored := RowStored(c, m, rows[0], out);
  }

  lemma {:induction false} StoreAllAdvanceCommute(c: Setup, base: Mgr, m: Mgr, rows: seq<BatchRow>, id: nat)
    requires Moving(c, base, m, rows, id)
    ensures Armed(c, Advanced(m, id, 1), rows)
    ensures StoreAll(c, base, Advanced(m, id, 1), rows) == Advanced(StoreAll(c, base, m, rows), id, 1)
    decreases |rows|
  {
    if rows == [] {
      AdvanceKeeps(c, m, rows, id);
    } else {
      var stored := AdvanceHead(c, base, m, rows, id);
      StoreAllAdvanceCommute(c, base, stored, rows[1..], id);
    }
  }

  lemma {:induction false} StoreThenAdvance(c: Setup, base: Mgr, m: Mgr, rows: seq<BatchRow>)
    requires Armed(c, base, rows) && Armed(c, m, rows)
    ensures AdvanceAll(StoreAll(c, base, m, rows), rows) == CommitAll(c, base, m, rows)
    decreases |rows|
  {
    if rows != [] {
      var r, rest, out := rows[0], rows[1..], RowOut(c, base, rows[0]);
      ArmedTail(c, base, rows);
      StoreKeeps(c, m, rows, out);
      CommitKeeps(c, m, rows, out);
      var stored := RowStored(c, m, r, out);
      assert forall i | 0 <= i < |rest| :: rest[i] == rows[i + 1];
      StoreAllAdvanceCommute(c, base, stored, rest, r.id);
      StoreThenAdvance(c, base, Advanced(stored, r.id, 1), rest);
    }
  }

  // ----- committing early commutes with growing the others ------------------

  lemma GrowCommitLegal(c: Setup, m: Mgr, id: nat, out: Out, r: BatchRow)
    requires c.Ok() && Inv(c.d, m) && id in m.seqs && OutShape(c.d, out)
    requires Covered(c.d, m, id, m.seqs[id].length)
    requires r.id in m.seqs && r.id != id && CanEnsureKv(c.d, m, r.id, m.seqs[r.id].length)
    ensures Inv(c.d, Grown(c, m, r)) && Inv(c.d, Committed(c.d, m, id, out))
    ensures Covered(c.d, Grown(c, m, r), id, m.seqs[id].length) && Grown(c, m, r).seqs[id] == m.seqs[id]
    ensures Committed(c.d, m, id, out).seqs[r.id] == m.seqs[r.id]
    ensures CanEnsureKv(c.d, Committed(c.d, m, id, out), r.id, m.seqs[r.id].length)
  {
    EnsuredInv(c.d, m, r.id, m.seqs[r.id].length);
    CommittedInv(c.d, m, id, out);
    CommittedRecords(c, m, id, out);
  }

  lemma GrowCommitStorage(c: Setup, m: Mgr, id: nat, out: Out, r: BatchRow)
    requires c.Ok() && Inv(c.d, m) && id in m.seqs && OutShape(c.d, out)
    requires Covered(c.d, m, id, m.seqs[id].length)
    requires r.id in m.seqs && r.id != id && CanEnsureKv(c.d, m, r.id, m.seqs[r.id].length)
    requires Inv(c.d, Grown(c, m, r)) && Inv(c.d, Committed(c.d, m, id, out))
    requires Committed(c.d, m, id, out).seqs[r.id] == m.seqs[r.id]
    requires CanEnsureKv(c.d, Committed(c.d, m, id, out), r.id, m.seqs[r.id].length)
    ensures Covered(c.d, Grown(c, m, r), id, m.seqs[id].length)
    ensures Grown(c, Committed(c.d, m, id, out), r).kv == Committed(c.d, Grown(c, m, r), id, out).kv
    ensures Grown(c, Committed(c.d, m, id, out), r).delta == Committed(c.d, Grown(c, m, r), id, out).delta
  {
  }

  lemma GrowCommitRecords(c: Setup, m: Mgr, id: nat, out: Out, r: BatchRow)
    requires c.Ok() && Inv(c.d, m) && id in m.seqs && OutShape(c.d, out)
    requires Covered(c.d, m, id, m.seqs[id].length)
    requires r.id in m.seqs && r.id != id && CanEnsureKv(c.d, m, r.id, m.seqs[r.id].length)
    requires Inv(c.d, Grown(c, m, r)) && Inv(c.d, Committed(c.d, m, id, out))
    requires Committed(c.d, m, id, out).seqs[r.id] == m.seqs[r.id]
    requires CanEnsureKv(c.d, Committed(c.d, m, id, out), r.id, m.seqs[r.id].length)
    ensures Covered(c.d, Grown(c, m, r), id, m.seqs[id].length) && Grown(c, m, r).seqs[id] == m.seqs[id]
    ensures Grown(c, Committed(c.d, m, id, out), r).seqs == Committed(c.d, Grown(c, m, r), id, out).seqs
    ensures Grown(c, Committed(c.d, m, id, out), r).nextId == Committed(c.d, Grown(c, m, r), id, out).nextId
  {
    CommitThenGrow(c, m, id, out, r);
    GrowThenCommit(c, m, id, out, r);
    MapSwap(m.seqs, id, m.seqs[id].(length := m.seqs[id].length + 1), r.id, GrownRecord(c, m, r));
  }

  lemma CommitThenGrow(c: Setup, m: Mgr, id: nat, out: Out, r: BatchRow)
    requires c.Ok() && Inv(c.d, m) && id in m.seqs && OutShape(c.d, out)
    requires Covered(c.d, m, id, m.seqs[id].length) && Inv(c.d, Committed(c.d, m, id, out))
    requires r.id in m.seqs && r.id != id && CanEnsureKv(c.d, m, r.id, m.seqs[r.id].length)
    requires Committed(c.d, m, id, out).seqs[r.id] == m.seqs[r.id]
    requires CanEnsureKv(c.d, Committed(c.d, m, id, out), r.id, m.seqs[r.id].length)
    ensures var next := Grown(c, Committed(c.d, m, id, out), r);
            && next.seqs == m.seqs[id := m.seqs[id].(length := m.seqs[id].length + 1)][r.id := GrownRecord(c, m, r)]
            && next.nextId == m.nextId
  {
    CommittedRecords(c, m, id, out);
    GrownRecords(c, Committed(c.d, m, id, out), r);
  }

  lemma GrowThenCommit(c: Setup, m: Mgr, id: nat, out: Out, r: BatchRow)
    requires c.Ok() && Inv(c.d, m) && id in m.seqs && OutShape(c.d, out)
    requires Covered(c.d, m, id, m.seqs[id].length)
    requires r.id in m.seqs && r.id != id && CanEnsureKv(c.d, m, r.id, m.seqs[r.id].length)
    requires Inv(c.d, Grown(c, m, r))
    ensures Covered(c.d, Grown(c, m, r), id, m.seqs[id].length) && Grown(c, m, r).seqs[id] == m.seqs[id]
    ensures var next := Committed(c.d, Grown(c, m, r), id, out);
            && next.seqs == m.seqs[r.id := GrownRecord(c, m, r)][id := m.seqs[id].(length := m.seqs[id].length + 1)]
            && next.nextId == m.nextId
  {
    GrownRecords(c, m, r);
    CommittedRecords(c, Grown(c, m, r), id, out);
  }

  ghost function GrownRecord(c: Setup, m: Mgr, r: BatchRow): Rec
    requires c.Ok() && Inv(c.d, m) && r.id in m.seqs && CanEnsureKv(c.d, m, r.id, m.seqs[r.id].length)
  {
    m.seqs[r.id].(pages := m.seqs[r.id].pages + Taken(m.kv.ids, RowNeed(c, m, r)))
  }

  lemma GrownRecords(c: Setup, m: Mgr, r: BatchRow)
    requires c.Ok() && Inv(c.d, m) && r.id in m.seqs && CanEnsureKv(c.d, m, r.id, m.seqs[r.id].length)
    ensures Grown(c, m, r).seqs == m.seqs[r.id := GrownRecord(c, m, r)]
    ensures Grown(c, m, r).nextId == m.nextId
  {
  }

  lemma MapSwap(seqs: Records, i: nat, a: Rec, j: nat, b: Rec)
    requires i != j
    ensures seqs[i := a][j := b] == seqs[j := b][i := a]
  {
  }

  /** Committing one sequence and growing another can be swapped. */
  lemma GrowCommitCommute(c: Setup, m: Mgr, id: nat, out: Out, r: BatchRow)
    requires c.Ok() && Inv(c.d, m) && id in m.seqs && OutShape(c.d, out)
    requires Covered(c.d, m, id, m.seqs[id].length)
    requires r.id in m.seqs && r.id != id && CanEnsureKv(c.d, m, r.id, m.seqs[r.id].length)
    ensures Inv(c.d, Grown(c, m, r)) && Inv(c.d, Committed(c.d, m, id, out))
    ensures Covered(c.d, Grown(c, m, r), id, m.seqs[id].length) && Grown(c, m, r).seqs[id] == m.seqs[id]
    ensures Committed(c.d, m, id, out).seqs[r.id] == m.seqs[r.id]
    ensures CanEnsureKv(c.d, Committed(c.d, m, id, out), r.id, m.seqs[r.id].length)
    ensures Grown(c, Committed(c.d, m, id, out), r) == Committed(c.d, Grown(c, m, r), id, out)
  {
    GrowCommitLegal(c, m, id, out, r);
    GrowCommitStorage(c, m, id, out, r);
    GrowCommitRecords(c, m, id, out, r);
  }

  /** Growing other rows leaves a covered sequence covered, record untouched. */
  lemma {:induction false} GrowAllKeeps(c: Setup, m: Mgr, rows: seq<BatchRow>, id: nat)
    requires c.Ok() && Inv(c.d, m) && id in m.seqs
    requires AllReady(c, m, rows) && UniqueIds(rows) && GrowsThrough(c, m, rows)
    requires forall i | 0 <= i < |rows| :: rows[i].id != id
    ensures Inv(c.d, GrowAll(c, m, rows)) && id in GrowAll(c, m, rows).seqs
    ensures GrowAll(c, m, rows).seqs[id] == m.seqs[id]
    decreases |rows|
  {
    if rows != [] {
      GrownReady(c, m, rows);
      GrowAllKeeps(c, Grown(c, m, rows[0]), rows[1..], id);
    }
  }

  /** A sequence about to be committed, and other rows still to grow. */
  ghost predicate Pending(c: Setup, m: Mgr, id: nat, out: Out, rows: seq<BatchRow>) {
    && c.Ok() && Inv(c.d, m) && OutShape(c.d, out)
    && id in m.seqs && Covered(c.d, m, id, m.seqs[id].length)
    && AllReady(c, m, rows) && UniqueIds(rows) && GrowsThrough(c, m, rows)
    && (forall i | 0 <= i < |rows| :: rows[i].id != id)
  }

  lemma CommittedReady(c: Setup, m: Mgr, id: nat, out: Out, rows: seq<BatchRow>)
    requires c.Ok() && Inv(c.d, m) && OutShape(c.d, out)
    requires id in m.seqs && Covered(c.d, m, id, m.seqs[id].length) && AllReady(c, m, rows)
    requires forall i | 0 <= i < |rows| :: rows[i].id != id
    ensures AllReady(c, Committed(c.d, m, id, out), rows)
    ensures PagesNeeded(c, Committed(c.d, m, id, out), rows) == PagesNeeded(c, m, rows)
    ensures Committed(c.d, m, id, out).kv.ids == m.kv.ids
  {
    CommittedRecords(c, m, id, out);
    CommittedStillReady(c, m, id, out, rows);
    NeedSame(c, m, Committed(c.d, m, id, out), rows);
  }

  lemma CommittedStillReady(c: Setup, m: Mgr, id: nat, out: Out, rows: seq<BatchRow>)
    requires c.Ok() && Inv(c.d, m) && OutShape(c.d, out)
    requires id in m.seqs && Covered(c.d, m, id, m.seqs[id].length) && AllReady(c, m, rows)
    requires forall i | 0 <= i < |rows| :: rows[i].id != id
    ensures AllReady(c, Committed(c.d, m, id, out), rows)
    ensures forall i | 0 <= i < |rows| :: Committed(c.d, m, id, out).seqs[rows[i].id] == m.seqs[rows[i].id]
  {
    CommittedRecords(c, m, id, out);
  }

  lemma CommittedGrowsThrough(c: Setup, m: Mgr, id: nat, out: Out, rows: seq<BatchRow>)
    requires Pending(c, m, id, out, rows)
    ensures Inv(c.d, Committed(c.d, m, id, out)) && AllReady(c, Committed(c.d, m, id, out), rows)
    ensures GrowsThrough(c, Committed(c.d, m, id, out), rows)
  {
    CommittedInv(c.d, m, id, out);
    CommittedReady(c, m, id, out, rows);
    AggregateExact(c, m, rows);
    AggregateExact(c, Committed(c.d, m, id, out), rows);
  }

  lemma PendingTail(c: Setup, m: Mgr, id: nat, out: Out, rows: seq<BatchRow>)
    requires Pending(c, m, id, out, rows) && rows != []
    ensures Pending(c, Grown(c, m, rows[0]), id, out, rows[1..])
    ensures Grown(c, m, rows[0]).seqs[id] == m.seqs[id]
  {
    GrowCommitLegal(c, m, id, out, rows[0]);
    GrownReady(c, m, rows);
  }

  /** Growth in another order: the committed sequence first, then all the others. */
  lemma {:induction false} GrowAllCommitCommute(c: Setup, m: Mgr, id: nat, out: Out, rows: seq<BatchRow>)
    requires Pending(c, m, id, out, rows)
    requires Inv(c.d, Committed(c.d, m, id, out)) && AllReady(c, Committed(c.d, m, id, out), rows)
    requires GrowsThrough(c, Committed(c.d, m, id, out), rows)
    ensures Inv(c.d, GrowAll(c, m, rows)) && Covered(c.d, GrowAll(c, m, rows), id, m.seqs[id].length)
    ensures GrowAll(c, m, rows).seqs[id] == m.seqs[id]
    ensures GrowAll(c, Committed(c.d, m, id, out), rows) == Committed(c.d, GrowAll(c, m, rows), id, out)
    decreases |rows|
  {
    if rows != [] {
      var g := Grown(c, m, rows[0]);
      PendingTail(c, m, id, out, rows);
      CommittedGrowsThrough(c, g, id, out, rows[1..]);
      GrowAllCommitCommute(c, g, id, out, rows[1..]);
      GrowCommitCommute(c, m, id, out, rows[0]);
    }
  }

  // ----- the layers see the same state either way ---------------------------

  lemma {:induction false} GrowAllKeepsView(c: Setup, m: Mgr, rows: seq<BatchRow>, id: nat)
    requires c.Ok() && Inv(c.d, m) && id in m.seqs
    requires AllReady(c, m, rows) && UniqueIds(rows) && GrowsThrough(c, m, rows)
    requires forall i | 0 <= i < |rows| :: rows[i].id != id
    ensures Readable(c.d, m, id) && Readable(c.d, GrowAll(c, m, rows), id)
    ensures SeqView(c.d, GrowAll(c, m, rows), id) == SeqView(c.d, m, id)
    decreases |rows|
  {
    InvReadable(c.d, m, id);
    if rows != [] {
      GrownReady(c, m, rows);
      EnsuredOther(c.d, m, rows[0].id, m.seqs[rows[0].id].length, id);
      GrowAllKeepsView(c, Grown(c, m, rows[0]), rows[1..], id);
    }
  }

  /** The layers compute the same for every row from either state. */
  ghost predicate SameOuts(c: Setup, base: Mgr, other: Mgr, rows: seq<BatchRow>)
    requires Armed(c, base, rows) && Armed(c, other, rows)
  {
    forall i | 0 <= i < |rows| :: RowOut(c, base, rows[i]) == RowOut(c, other, rows[i])
  }

  lemma SameOutsTail(c: Setup, base: Mgr, other: Mgr, rows: seq<BatchRow>)
    requires Armed(c, base, rows) && Armed(c, other, rows) && SameOuts(c, base, other, rows) && rows != []
    ensures RowOut(c, base, rows[0]) == RowOut(c, other, rows[0])
    ensures Armed(c, base, rows[1..]) && Armed(c, other, rows[1..]) && SameOuts(c, base, other, rows[1..])
  {
    ArmedTail(c, base, rows);
    ArmedTail(c, other, rows);
    assert forall i | 0 <= i < |rows[1..]| :: rows[1..][i] == rows[i + 1];
  }

  lemma {:induction false} CommitAllSameBase(c: Setup, base: Mgr, other: Mgr, m: Mgr, rows: seq<BatchRow>)
    requires Armed(c, base, rows) && Armed(c, other, rows) && Armed(c, m, rows) && SameOuts(c, base, other, rows)
    ensures CommitAll(c, base, m, rows) == CommitAll(c, other, m, rows)
    decreases |rows|
  {
    if rows != [] {
      var out := RowOut(c, base, rows[0]);
      SameOutsTail(c, base, other, rows);
      CommitKeeps(c, m, rows, out);
      CommitAllSameBase(c, base, other, Committed(c.d, m, rows[0].id, out), rows[1..]);
    }
  }

  lemma CommitKeepsOuts(c: Setup, m: Mgr, rows: seq<BatchRow>, out: Out, i: nat)
    requires Armed(c, m, rows) && rows != [] && OutShape(c.d, out) && 0 < i < |rows|
    ensures Covered(c.d, m, rows[0].id, m.seqs[rows[0].id].length)
    ensures Inv(c.d, Committed(c.d, m, rows[0].id, out)) && RowReady(c, Committed(c.d, m, rows[0].id, out), rows[i])
    ensures RowOut(c, Committed(c.d, m, rows[0].id, out), rows[i]) == RowOut(c, m, rows[i])
  {
    CommitKeeps(c, m, rows, out);
    assert rows[1..][i - 1] == rows[i];
    CommittedOther(c.d, m, rows[0].id, out, rows[i].id);
  }

  // ----- serial execution ---------------------------------------------------

  function ForwardOp(r: BatchRow): Op {
    Forward(r.id, r.token)
  }

  /** The rows forwarded one at a time, and whether every one of them succeeded. */
  ghost predicate SerialSucceeds(c: Setup, m: Mgr, rows: seq<BatchRow>)
    requires c.Ok() && Inv(c.d, m)
    decreases |rows|
  {
    rows == [] ||
    (Succeeds(c, m, ForwardOp(rows[0])) &&
     (AfterInv(c, m, ForwardOp(rows[0]));
      SerialSucceeds(c, After(c, m, ForwardOp(rows[0])), rows[1..])))
  }

  ghost function SerialAfter(c: Setup, m: Mgr, rows: seq<BatchRow>): Mgr
    requires c.Ok() && Inv(c.d, m) && SerialSucceeds(c, m, rows)
    decreases |rows|
  {
    if rows == [] then m
    else
      AfterInv(c, m, ForwardOp(rows[0]));
      SerialAfter(c, After(c, m, ForwardOp(rows[0])), rows[1..])
  }

  ghost function SerialLogits(c: Setup, m: Mgr, rows: seq<BatchRow>): seq<seq<real>>
    requires c.Ok() && Inv(c.d, m) && SerialSucceeds(c, m, rows)
    decreases |rows|
  {
    if rows == [] then []
    else
      AfterInv(c, m, ForwardOp(rows[0]));
      [ForwardOut(c, m, rows[0].id, rows[0].token).logits] +
      SerialLogits(c, After(c, m, ForwardOp(rows[0])), rows[1..])
  }

  // ----- the batch is its rows, one after another ---------------------------

  lemma GrowAllArmed(c: Setup, m: Mgr, rows: seq<BatchRow>)
    requires c.Ok() && Inv(c.d, m) && AllReady(c, m, rows) && UniqueIds(rows) && GrowsThrough(c, m, rows)
    ensures Armed(c, GrowAll(c, m, rows), rows)
    decreases |rows|
  {
    if rows != [] {
      var r, g := rows[0], Grown(c, m, rows[0]);
      GrownReady(c, m, rows);
      EnsuredIsCovered(c.d, m, r.id, m.seqs[r.id].length);
      GrowAllArmed(c, g, rows[1..]);
      GrowAllKeeps(c, g, rows[1..], r.id);
      FrontArmed(c, GrowAll(c, g, rows[1..]), rows);
    }
  }

  lemma FrontArmed(c: Setup, m: Mgr, rows: seq<BatchRow>)
    requires rows != [] && UniqueIds(rows) && Armed(c, m, rows[1..])
    requires RowReady(c, m, rows[0]) && Covered(c.d, m, rows[0].id, m.seqs[rows[0].id].length)
    ensures Armed(c, m, rows)
  {
    forall i | 0 <= i < |rows|
      ensures RowReady(c, m, rows[i]) && Covered(c.d, m, rows[i].id, m.seqs[rows[i].id].length)
    {
      if i > 0 {
        assert rows[i] == rows[1..][i - 1];
      }
    }
  }

  /** The state after a batch, in the code's order: growth, storage, lengths. */
  ghost function BatchAfter(c: Setup, m: Mgr, rows: seq<BatchRow>): Mgr
    requires c.Ok() && Inv(c.d, m) && Preflight(c, m, rows)
  {
    AggregateExact(c, m, rows);
    GrowAllArmed(c, m, rows);
    var grown := GrowAll(c, m, rows);
    AdvanceAll(StoreAll(c, grown, grown, rows), rows)
  }

  ghost function BatchLogits(c: Setup, m: Mgr, rows: seq<BatchRow>): seq<seq<real>>
    requires Armed(c, m, rows)
  {
    seq(|rows|, i requires 0 <= i < |rows| => RowOut(c, m, rows[i]).logits)
  }

  lemma FirstRow(c: Setup, m: Mgr, rows: seq<BatchRow>)
    requires c.Ok() && Inv(c.d, m) && AllReady(c, m, rows) && UniqueIds(rows) && GrowsThrough(c, m, rows)
    requires rows != []
    ensures Succeeds(c, m, ForwardOp(rows[0]))
    ensures Pending(c, Grown(c, m, rows[0]), rows[0].id, ForwardOut(c, m, rows[0].id, rows[0].token), rows[1..])
    ensures RowReady(c, Grown(c, m, rows[0]), rows[0])
    ensures After(c, m, ForwardOp(rows[0])) ==
            Committed(c.d, Grown(c, m, rows[0]), rows[0].id, ForwardOut(c, m, rows[0].id, rows[0].token))
  {
    GrownReady(c, m, rows);
    EnsuredIsCovered(c.d, m, rows[0].id, m.seqs[rows[0].id].length);
  }

  /** After the first row was forwarded, growing the rest gives the fully grown
      state with the first row committed, and the layers see what they would have. */
  lemma AfterFirst(c: Setup, m: Mgr, rows: seq<BatchRow>)
    requires c.Ok() && Inv(c.d, m) && AllReady(c, m, rows) && UniqueIds(rows) && GrowsThrough(c, m, rows)
    requires rows != []
    ensures Succeeds(c, m, ForwardOp(rows[0]))
    ensures var out, f := ForwardOut(c, m, rows[0].id, rows[0].token), After(c, m, ForwardOp(rows[0]));
            && Inv(c.d, f) && AllReady(c, f, rows[1..]) && UniqueIds(rows[1..]) && GrowsThrough(c, f, rows[1..])
            && Armed(c, GrowAll(c, m, rows), rows)
            && RowOut(c, GrowAll(c, m, rows), rows[0]) == out
            && GrowAll(c, f, rows[1..]) == Committed(c.d, GrowAll(c, m, rows), rows[0].id, out)
  {
    FirstRow(c, m, rows);
    GrowAllArmed(c, m, rows);
    var r, g := rows[0], Grown(c, m, rows[0]);
    var out := ForwardOut(c, m, r.id, r.token);
    CommittedGrowsThrough(c, g, r.id, out, rows[1..]);
    GrowAllCommitCommute(c, g, r.id, out, rows[1..]);
    GrowAllKeepsView(c, g, rows[1..], r.id);
  }

  /** Row parity: storing every row and then advancing every row leaves exactly the
      state, and the logits, of forwarding the rows one at a time. */
  lemma {:induction false} SerialIsCommitAll(c: Setup, m: Mgr, rows: seq<BatchRow>)
    requires c.Ok() && Inv(c.d, m) && AllReady(c, m, rows) && UniqueIds(rows) && GrowsThrough(c, m, rows)
    ensures SerialSucceeds(c, m, rows) && Armed(c, GrowAll(c, m, rows), rows)
    ensures SerialAfter(c, m, rows) == CommitAll(c, GrowAll(c, m, rows), GrowAll(c, m, rows), rows)
    ensures SerialLogits(c, m, rows) == BatchLogits(c, GrowAll(c, m, rows), rows)
    decreases |rows|
  {
    GrowAllArmed(c, m, rows);
    if rows != [] {
      var r, rest, grown := rows[0], rows[1..], GrowAll(c, m, rows);
      AfterFirst(c, m, rows);
      var out, f := ForwardOut(c, m, r.id, r.token), After(c, m, ForwardOp(r));
      SerialIsCommitAll(c, f, rest);
      CommitRest(c, grown, rows);
      LogitsRest(c, grown, rows);
    }
  }

  lemma NextOuts(c: Setup, grown: Mgr, rows: seq<BatchRow>, out: Out)
    requires Armed(c, grown, rows) && rows != [] && OutShape(c.d, out)
    ensures Covered(c.d, grown, rows[0].id, grown.seqs[rows[0].id].length)
    ensures Armed(c, grown, rows[1..]) && Armed(c, Committed(c.d, grown, rows[0].id, out), rows[1..])
    ensures SameOuts(c, grown, Committed(c.d, grown, rows[0].id, out), rows[1..])
  {
    CommitKeeps(c, grown, rows, out);
    ArmedTail(c, grown, rows);
    forall i | 0 <= i < |rows[1..]|
      ensures RowOut(c, grown, rows[1..][i]) == RowOut(c, Committed(c.d, grown, rows[0].id, out), rows[1..][i])
    {
      CommitKeepsOuts(c, grown, rows, out, i + 1);
    }
  }

  lemma CommitRest(c: Setup, grown: Mgr, rows: seq<BatchRow>)
    requires Armed(c, grown, rows) && rows != []
    ensures Covered(c.d, grown, rows[0].id, grown.seqs[rows[0].id].length)
    ensures var next := Committed(c.d, grown, rows[0].id, RowOut(c, grown, rows[0]));
            && Armed(c, next, rows[1..])
            && CommitAll(c, grown, grown, rows) == CommitAll(c, next, next, rows[1..])
  {
    var out := RowOut(c, grown, rows[0]);
    CommitKeeps(c, grown, rows, out);
    NextOuts(c, grown, rows, out);
    var next := Committed(c.d, grown, rows[0].id, out);
    CommitAllSameBase(c, grown, next, next, rows[1..]);
  }

  lemma LogitsRest(c: Setup, grown: Mgr, rows: seq<BatchRow>)
    requires Armed(c, grown, rows) && rows != []
    ensures Covered(c.d, grown, rows[0].id, grown.seqs[rows[0].id].length)
    ensures var next := Committed(c.d, grown, rows[0].id, RowOut(c, grown, rows[0]));
            && Armed(c, next, rows[1..])
            && BatchLogits(c, grown, rows) == [RowOut(c, grown, rows[0]).logits] + BatchLogits(c, next, rows[1..])
  {
    NextOuts(c, grown, rows, RowOut(c, grown, rows[0]));
    LogitsFirst(c, grown, rows);
    LogitsSame(c, grown, Committed(c.d, grown, rows[0].id, RowOut(c, grown, rows[0])), rows[1..]);
  }

  lemma LogitsFirst(c: Setup, m: Mgr, rows: seq<BatchRow>)
    requires Armed(c, m, rows) && rows != []
    ensures Armed(c, m, rows[1..])
    ensures BatchLogits(c, m, rows) == [RowOut(c, m, rows[0]).logits] + BatchLogits(c, m, rows[1..])
  {
    ArmedTail(c, m, rows);
    assert forall i | 0 <= i < |rows[1..]| :: rows[1..][i] == rows[i + 1];
  }

  lemma LogitsSame(c: Setup, m: Mgr, other: Mgr, rows: seq<BatchRow>)
    requires Armed(c, m, rows) && Armed(c, other, rows) && SameOuts(c, m, other, rows)
    ensures BatchLogits(c, m, rows) == BatchLogits(c, other, rows)
  {
  }

  /** After a passed preflight the batch cannot fail, and it is exactly the rows
      forwarded one after another: same pages, same storage, same lengths, same
      logits per row. */
  lemma BatchIsSerial(c: Setup, m: Mgr, rows: seq<BatchRow>)
    requires c.Ok() && Inv(c.d, m) && Preflight(c, m, rows)
    ensures GrowsThrough(c, m, rows) && SerialSucceeds(c, m, rows)
    ensures BatchAfter(c, m, rows) == SerialAfter(c, m, rows)
    ensures Armed(c, GrowAll(c, m, rows), rows)
    ensures BatchLogits(c, GrowAll(c, m, rows), rows) == SerialLogits(c, m, rows)
  {
    AggregateExact(c, m, rows);
    SerialIsCommitAll(c, m, rows);
    var grown := GrowAll(c, m, rows);
    StoreThenAdvance(c, grown, grown, rows);
  }

  lemma AfterIsCommitted(c: Setup, m: Mgr, r: BatchRow)
    requires c.Ok() && Inv(c.d, m) && Succeeds(c, m, ForwardOp(r))
    ensures RowReady(c, m, r) && CanEnsureKv(c.d, m, r.id, m.seqs[r.id].length)
    ensures Inv(c.d, Grown(c, m, r)) && Covered(c.d, Grown(c, m, r), r.id, m.seqs[r.id].length)
    ensures Grown(c, m, r).seqs[r.id].length == m.seqs[r.id].length
    ensures After(c, m, ForwardOp(r)) == Committed(c.d, Grown(c, m, r), r.id, ForwardOut(c, m, r.id, r.token))
  {
    EnsuredIsCovered(c.d, m, r.id, m.seqs[r.id].length);
  }

  /** The row was ready, it took its pages, and the other sequences are as they were. */
  ghost predicate Leaves(c: Setup, m: Mgr, r: BatchRow, next: Mgr)
    requires c.d.pageTokens >= 1
  {
    && RowReady(c, m, r) && KeepsOthers(m, next, r.id) && next.seqs.Keys == m.seqs.Keys
    && |next.kv.ids.free| == |m.kv.ids.free| - RowNeed(c, m, r)
  }

  /** What one successful forward leaves for the rows after it. */
  lemma ForwardLeaves(c: Setup, m: Mgr, r: BatchRow, next: Mgr)
    requires c.Ok() && Inv(c.d, m) && Succeeds(c, m, ForwardOp(r)) && next == After(c, m, ForwardOp(r))
    ensures Leaves(c, m, r, next)
  {
    ForwardKeys(c, m, r, next);
    AfterIsCommitted(c, m, r);
    GrownRecords(c, m, r);
    LeftOver(c, m, Grown(c, m, r), r, ForwardOut(c, m, r.id, r.token));
  }

  lemma LeftOver(c: Setup, m: Mgr, g: Mgr, r: BatchRow, out: Out)
    requires c.Ok() && Inv(c.d, m) && r.id in m.seqs && CanEnsureKv(c.d, m, r.id, m.seqs[r.id].length)
    requires g == Grown(c, m, r) && Inv(c.d, g) && r.id in g.seqs && OutShape(c.d, out)
    requires Covered(c.d, g, r.id, g.seqs[r.id].length) && g.seqs == m.seqs[r.id := GrownRecord(c, m, r)]
    ensures var next := Committed(c.d, g, r.id, out);
            KeepsOthers(m, next, r.id) && |next.kv.ids.free| == |m.kv.ids.free| - RowNeed(c, m, r)
  {
    CommittedRecords(c, g, r.id, out);
  }

  /** All rows are ready and their summed need fits the free pages. */
  ghost predicate RowsFit(c: Setup, m: Mgr, rows: seq<BatchRow>)
    requires c.d.pageTokens >= 1
  {
    AllReady(c, m, rows) && PagesNeeded(c, m, rows) <= |m.kv.ids.free|
  }

  lemma ReadyBack(c: Setup, m: Mgr, after: Mgr, rows: seq<BatchRow>)
    requires c.d.pageTokens >= 1 && rows != [] && UniqueIds(rows)
    requires Leaves(c, m, rows[0], after) && RowsFit(c, after, rows[1..])
    ensures RowsFit(c, m, rows)
  {
    forall i | 0 <= i < |rows|
      ensures RowReady(c, m, rows[i])
    {
      if i > 0 {
        assert rows[i] == rows[1..][i - 1];
      }
    }
    NeedFromFront(c, m, rows);
    NeedSame(c, m, after, rows[1..]);
  }

  /** Rows of different sequences that go through one after another. */
  ghost predicate Serial(c: Setup, m: Mgr, rows: seq<BatchRow>) {
    c.Ok() && Inv(c.d, m) && UniqueIds(rows) && SerialSucceeds(c, m, rows)
  }

  lemma SerialRest(c: Setup, m: Mgr, rows: seq<BatchRow>) returns (next: Mgr)
    requires Serial(c, m, rows) && rows != []
    ensures Succeeds(c, m, ForwardOp(rows[0])) && next == After(c, m, ForwardOp(rows[0]))
    ensures Serial(c, next, rows[1..])
  {
    next := After(c, m, ForwardOp(rows[0]));
    AfterInv(c, m, ForwardOp(rows[0]));
  }

  lemma SerialHead(c: Setup, m: Mgr, rows: seq<BatchRow>) returns (next: Mgr)
    requires Serial(c, m, rows) && rows != []
    ensures Serial(c, next, rows[1..]) && Leaves(c, m, rows[0], next)
  {
    next := SerialRest(c, m, rows);
    ForwardLeaves(c, m, rows[0], next);
  }

  lemma ForwardKeys(c: Setup, m: Mgr, r: BatchRow, next: Mgr)
    requires c.Ok() && Inv(c.d, m) && Succeeds(c, m, ForwardOp(r)) && next == After(c, m, ForwardOp(r))
    ensures next.seqs.Keys == m.seqs.Keys
  {
    AfterIds(c, m, ForwardOp(r));
  }

  /** Rows that go through one after another are ready, and their need fits. */
  lemma {:induction false} SerialFits(c: Setup, m: Mgr, rows: seq<BatchRow>)
    requires Serial(c, m, rows)
    ensures RowsFit(c, m, rows)
    decreases |rows|
  {
    if rows != [] {
      var next := SerialHead(c, m, rows);
      SerialFits(c, next, rows[1..]);
      ReadyBack(c, m, next, rows);
    }
  }

  /** The preflight is exact: it lets a batch through if and only if the batch has a row,
      its ids are distinct, and its rows' single forwards all succeed one after another. */
  lemma PreflightExact(c: Setup, m: Mgr, rows: seq<BatchRow>)
    requires c.Ok() && Inv(c.d, m)
    ensures Preflight(c, m, rows) <==>
      && rows != [] && (forall i, j | 0 <= i < j < |rows| :: rows[i].id != rows[j].id)
      && SerialSucceeds(c, m, rows)
  {
    if Preflight(c, m, rows) {
      BatchIsSerial(c, m, rows);
    }
    if UniqueIds(rows) && SerialSucceeds(c, m, rows) {
      SerialFits(c, m, rows);
    }
  }

  lemma {:induction false} SerialInv(c: Setup, m: Mgr, rows: seq<BatchRow>)
    requires c.Ok() && Inv(c.d, m) && SerialSucceeds(c, m, rows)
    ensures Inv(c.d, SerialAfter(c, m, rows))
    decreases |rows|
  {
    if rows != [] {
      AfterInv(c, m, ForwardOp(rows[0]));
      SerialInv(c, After(c, m, ForwardOp(rows[0])), rows[1..]);
    }
  }

  function ForwardOps(rows: seq<BatchRow>): (ops: seq<Op>)
    ensures |ops| == |rows|
  {
    if rows == [] then [] else [ForwardOp(rows[0])] + ForwardOps(rows[1..])
  }

  lemma ForwardOpsFront(ops: seq<Op>, rows: seq<BatchRow>)
    requires rows != []
    ensures ops + ForwardOps(rows) == ops + [ForwardOp(rows[0])] + ForwardOps(rows[1..])
  {
  }

  lemma SerialTail(c: Setup, m: Mgr, next: Mgr, rows: seq<BatchRow>)
    requires c.Ok() && Inv(c.d, m) && SerialSucceeds(c, m, rows) && rows != []
    requires next == (if Succeeds(c, m, ForwardOp(rows[0])) then After(c, m, ForwardOp(rows[0])) else m)
    ensures Inv(c.d, next) && SerialSucceeds(c, next, rows[1..])
    ensures SerialAfter(c, next, rows[1..]) == SerialAfter(c, m, rows)
  {
    AfterInv(c, m, ForwardOp(rows[0]));
  }

  /** A batch is a stretch of a run, so parity holds for batched decoding too. */
  lemma {:induction false} SerialIsRun(c: Setup, pools: Pools, ops: seq<Op>, rows: seq<BatchRow>)
    requires c.Ok() && SerialSucceeds(c, Run(c, pools, ops), rows)
    ensures Run(c, pools, ops + ForwardOps(rows)) == SerialAfter(c, Run(c, pools, ops), rows)
    decreases |rows|
  {
    if rows == [] {
      assert ops + ForwardOps(rows) == ops;
    } else {
      var op, rest := ForwardOp(rows[0]), rows[1..];
      var m, next := Run(c, pools, ops), ops + [op];
      RunStep(c, pools, ops, op);
      SerialTail(c, m, Run(c, pools, next), rows);
      SerialIsRun(c, pools, next, rest);
      ForwardOpsFront(ops, rows);
    }
  }

  function AllLogits(wants: seq<seq<real>>): (outcomes: seq<Outcome>)
    ensures |outcomes| == |wants|
  {
    seq(|wants|, b requires 0 <= b < |wants| => Logits(wants[b]))
  }

  lemma AnswersFront(outcomes: seq<Outcome>, from: nat, want: seq<real>, rest: seq<seq<real>>)
    requires from < |outcomes| && outcomes[from] == Logits(want) && outcomes[from + 1..] == AllLogits(rest)
    ensures outcomes[from..] == AllLogits([want] + rest)
  {
    assert outcomes[from..] == [outcomes[from]] + outcomes[from + 1..];
  }

  lemma FirstAnswer(c: Setup, pools: Pools, ops: seq<Op>, more: seq<Op>, want: seq<real>)
    requires c.Ok() && more != [] && Step(c, Run(c, pools, ops), more[0]).1 == Logits(want)
    ensures RunOutcomes(c, pools, ops + more)[|ops|] == Logits(want)
  {
    assert (ops + more)[..|ops|] == ops;
  }

  lemma SerialFirst(c: Setup, m: Mgr, next: Mgr, rows: seq<BatchRow>, logits: seq<seq<real>>)
    requires c.Ok() && Inv(c.d, m) && SerialSucceeds(c, m, rows) && rows != [] && logits == SerialLogits(c, m, rows)
    requires next == (if Succeeds(c, m, ForwardOp(rows[0])) then After(c, m, ForwardOp(rows[0])) else m)
    ensures Inv(c.d, next) && SerialSucceeds(c, next, rows[1..])
    ensures logits != [] && Step(c, m, ForwardOp(rows[0])).1 == Logits(logits[0])
    ensures logits == [logits[0]] + SerialLogits(c, next, rows[1..])
  {
    AfterInv(c, m, ForwardOp(rows[0]));
  }

  /** And so do its answers: row b's logits are the outcome of the run's forward of row b. */
  lemma {:induction false} SerialAnswers(c: Setup, pools: Pools, ops: seq<Op>, rows: seq<BatchRow>)
    requires c.Ok() && SerialSucceeds(c, Run(c, pools, ops), rows)
    ensures RunOutcomes(c, pools, ops + ForwardOps(rows))[|ops|..] ==
            AllLogits(SerialLogits(c, Run(c, pools, ops), rows))
    decreases |rows|
  {
    if rows != [] {
      var op, rest := ForwardOp(rows[0]), rows[1..];
      var m, next, logits := Run(c, pools, ops), ops + [op], SerialLogits(c, Run(c, pools, ops), rows);
      RunStep(c, pools, ops, op);
      SerialFirst(c, m, Run(c, pools, next), rows, logits);
      SerialAnswers(c, pools, next, rest);
      ForwardOpsFront(ops, rows);
      FirstAnswer(c, pools, ops, ForwardOps(rows), logits[0]);
      AnswersFront(RunOutcomes(c, pools, ops + ForwardOps(rows)), |ops|, logits[0],
                   SerialLogits(c, Run(c, pools, next), rest));
    }
  }

  lemma {:induction false} ForwardOpsAt(rows: seq<BatchRow>, b: nat)
    requires b < |rows|
    ensures ForwardOps(rows)[b] == ForwardOp(rows[b])
  {
    if b > 0 {
      ForwardOpsAt(rows[1..], b - 1);
    }
  }

  /** Row b of a batch is operation |ops| + b of the continued run, and finds its sequence's
      history as the batch found it. */
  lemma RowPlace(c: Setup, pools: Pools, ops: seq<Op>, rows: seq<BatchRow>, b: nat, all: seq<Op>, i: nat, h: seq<Op>)
    requires c.Ok() && UniqueIds(rows) && b < |rows| && all == ops + ForwardOps(rows) && i == |ops| + b
    requires h == History(c, pools, ops, rows[b].id)
    ensures i < |all| && all[i] == ForwardOp(rows[b]) && History(c, pools, all[..i], rows[b].id) == h
  {
    var more := ForwardOps(rows)[..b];
    ForwardOpsAt(rows, b);
    OtherRows(rows, b);
    assert all[..i] == ops + more;
    HistoryOthers(c, pools, ops, more, rows[b].id);
  }

  /** LogitsParity with its place and history given. */
  lemma ParityAt(c: Setup, pools: Pools, ops: seq<Op>, i: nat, r: BatchRow, history: seq<Op>, want: seq<real>)
    requires c.Ok() && i < |ops| && ops[i] == ForwardOp(r) && r.token >= 0
    requires OutcomeOf(c, pools, ops, i) == Logits(want) && History(c, pools, ops[..i], r.id) == history
    ensures want == SoloOut(c, Replay(c, history), r.token).logits
  {
    LogitsParity(c, pools, ops, i);
  }

  lemma RowParity(c: Setup, pools: Pools, ops: seq<Op>, rows: seq<BatchRow>, b: nat, logits: seq<seq<real>>)
    requires c.Ok() && UniqueIds(rows) && b < |rows| == |logits| && 0 <= rows[b].token
    requires RunOutcomes(c, pools, ops + ForwardOps(rows))[|ops|..] == AllLogits(logits)
    ensures logits[b] == SoloOut(c, Replay(c, History(c, pools, ops, rows[b].id)), rows[b].token).logits
  {
    var all, i, h := ops + ForwardOps(rows), |ops| + b, History(c, pools, ops, rows[b].id);
    RowAnswer(c, pools, all, |ops|, logits, b, i);
    RowPlace(c, pools, ops, rows, b, all, i, h);
    ParityAt(c, pools, all, i, rows[b], h, logits[b]);
  }

  lemma RowAnswer(c: Setup, pools: Pools, ops: seq<Op>, from: nat, logits: seq<seq<real>>, b: nat, i: nat)
    requires c.Ok() && from <= |ops| && RunOutcomes(c, pools, ops)[from..] == AllLogits(logits)
    requires b < |logits| && i == from + b
    ensures i < |ops| && OutcomeOf(c, pools, ops, i) == Logits(logits[b])
  {
    var outcomes := RunOutcomes(c, pools, ops);
    BatchAnswer(outcomes, from, logits, b, i);
    assert outcomes[i] == OutcomeOf(c, pools, ops, i);
  }

  lemma RowsReady(c: Setup, m: Mgr, rows: seq<BatchRow>, b: nat)
    requires c.Ok() && Inv(c.d, m) && Preflight(c, m, rows) && b < |rows|
    ensures SerialSucceeds(c, m, rows) && |SerialLogits(c, m, rows)| == |rows|
    ensures UniqueIds(rows) && 0 <= rows[b].token
  {
    BatchIsSerial(c, m, rows);
    assert RowReady(c, m, rows[b]);
  }

  /** Parity for a decode batch anywhere in a run: row b's logits are those its sequence
      computes alone from its own history before the batch. */
  lemma BatchParity(c: Setup, pools: Pools, ops: seq<Op>, rows: seq<BatchRow>, b: nat)
    requires c.Ok() && Preflight(c, Run(c, pools, ops), rows) && b < |rows|
    ensures SerialSucceeds(c, Run(c, pools, ops), rows) && |SerialLogits(c, Run(c, pools, ops), rows)| == |rows|
    ensures 0 <= rows[b].token
    ensures SerialLogits(c, Run(c, pools, ops), rows)[b] ==
            SoloOut(c, Replay(c, History(c, pools, ops, rows[b].id)), rows[b].token).logits
  {
    RowsReady(c, Run(c, pools, ops), rows, b);
    SerialAnswers(c, pools, ops, rows);
    RowParity(c, pools, ops, rows, b, SerialLogits(c, Run(c, pools, ops), rows));
  }

  lemma BatchAnswer(outcomes: seq<Outcome>, from: nat, logits: seq<seq<real>>, b: nat, i: nat)
    requires from <= |outcomes| && outcomes[from..] == AllLogits(logits) && b < |logits| && i == from + b
    ensures |logits| == |outcomes| - from && outcomes[i] == Logits(logits[b])
  {
    assert outcomes[from..][b] == AllLogits(logits)[b];
  }

  lemma OtherRows(rows: seq<BatchRow>, b: nat)
    requires UniqueIds(rows) && b < |rows|
    ensures forall i | 0 <= i < b :: ForwardOps(rows)[..b][i].Forward? && ForwardOps(rows)[..b][i].id != rows[b].id
  {
    forall i | 0 <= i < b
      ensures ForwardOps(rows)[i] == ForwardOp(rows[i])
    {
      ForwardOpsAt(rows, i);
    }
  }
}
