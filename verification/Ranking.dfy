/** The order both sampling filters use, value descending and ties to the lower id,
    and what the two library sorts are asked for. */
module Rankings {
  import opened Basics
  import opened Greedy

  predicate Before(f: seq<real>, a: nat, b: nat)
    requires a < |f| && b < |f|
  {
    f[a] > f[b] || (f[a] == f[b] && a < b)
  }

  predicate Ids(f: seq<real>, s: seq<nat>) {
    forall i | 0 <= i < |s| :: s[i] < |f|
  }

  ghost predicate Ordered(f: seq<real>, s: seq<nat>) {
    Ids(f, s) && forall i, j | 0 <= i < j < |s| :: Before(f, s[i], s[j])
  }

  ghost predicate SameIds(s: seq<nat>, t: seq<nat>) {
    forall x :: x in s <==> x in t
  }

  function Insert(f: seq<real>, a: nat, s: seq<nat>): seq<nat>
    requires a < |f| && Ids(f, s)
  {
    if s == [] then [a]
    else if Before(f, a, s[0]) then [a] + s
    else [s[0]] + Insert(f, a, s[1..])
  }

  lemma {:induction false} InsertIds(f: seq<real>, a: nat, s: seq<nat>)
    requires a < |f| && Ids(f, s)
    ensures Ids(f, Insert(f, a, s))
    ensures forall x :: x in Insert(f, a, s) <==> x == a || x in s
  {
    if s != [] {
      assert s == [s[0]] + s[1..];
      InsertIds(f, a, s[1..]);
    }
  }

  lemma {:induction false} InsertOrdered(f: seq<real>, a: nat, s: seq<nat>)
    requires a < |f| && Ordered(f, s) && a !in s
    ensures Ordered(f, Insert(f, a, s))
  {
    if s != [] && !Before(f, a, s[0]) {
      InsertOrdered(f, a, s[1..]);
      InsertIds(f, a, s[1..]);
      var t := Insert(f, a, s[1..]);
      forall j | 0 <= j < |t|
        ensures Before(f, s[0], t[j])
      {
        assert t[j] in t;
        assert t[j] == a || t[j] in s[1..];
      }
    }
  }

  function Sort(f: seq<real>, ids: seq<nat>): (s: seq<nat>)
    requires Ids(f, ids)
    ensures Ids(f, s) && forall x :: x in s <==> x in ids
  {
    if ids == [] then []
    else
      var rest := Sort(f, ids[1..]);
      InsertIds(f, ids[0], rest);
      assert ids == [ids[0]] + ids[1..];
      Insert(f, ids[0], rest)
  }

  lemma {:induction false} SortOrdered(f: seq<real>, ids: seq<nat>)
    requires Ids(f, ids) && Distinct(ids)
    ensures Ordered(f, Sort(f, ids))
  {
    if ids != [] {
      SortOrdered(f, ids[1..]);
      InsertOrdered(f, ids[0], Sort(f, ids[1..]));
    }
  }

  lemma HeadFirst(f: seq<real>, s: seq<nat>, x: nat)
    requires Ordered(f, s) && x in s
    ensures x == s[0] || Before(f, s[0], x)
  {
  }

  lemma TailIds(f: seq<real>, s: seq<nat>, x: nat)
    requires Ordered(f, s) && s != []
    ensures x in s[1..] <==> x in s && x != s[0]
  {
    assert s == [s[0]] + s[1..];
    if x in s[1..] {
      var j :| 0 <= j < |s| - 1 && s[1..][j] == x;
      assert Before(f, s[0], s[j + 1]);
    }
  }

  lemma HeadIn(s: seq<nat>)
    ensures s == [] || s[0] in s
  {
  }

  /** A set of ids has one ordered listing, so any correct sort gives the same. */
  lemma {:induction false} OrderedUnique(f: seq<real>, s: seq<nat>, t: seq<nat>)
    requires Ordered(f, s) && Ordered(f, t) && SameIds(s, t)
    ensures s == t
  {
    if s == [] {
      HeadIn(t);
    } else {
      assert s[0] in s && s[0] in t;
      HeadFirst(f, t, s[0]);
      assert t[0] in t && t[0] in s;
      HeadFirst(f, s, t[0]);
      forall x
        ensures x in s[1..] <==> x in t[1..]
      {
        TailIds(f, s, x);
        TailIds(f, t, x);
      }
      OrderedUnique(f, s[1..], t[1..]);
    }
  }

  function Iota(n: nat): (s: seq<nat>)
    ensures |s| == n && forall i | 0 <= i < n :: s[i] == i
  {
    seq(n, i => i)
  }

  /** All ids, best first. */
  function Ranking(f: seq<real>): (s: seq<nat>)
    ensures Ids(f, s)
  {
    Sort(f, Iota(|f|))
  }

  lemma IotaIn(n: nat, x: nat)
    ensures x in Iota(n) <==> x < n
  {
    if x < n {
      assert Iota(n)[x] == x;
    }
  }

  lemma RankingComplete(f: seq<real>)
    ensures Ordered(f, Ranking(f)) && forall x: nat :: x in Ranking(f) <==> x < |f|
  {
    SortOrdered(f, Iota(|f|));
    forall x: nat
      ensures x in Ranking(f) <==> x < |f|
    {
      IotaIn(|f|, x);
    }
  }

  /** Distinct ids below n that cover every id below n are n in number. */
  lemma {:induction false} CoverLength(s: seq<nat>, n: nat)
    requires Distinct(s) && forall x: nat :: x in s <==> x < n
    ensures |s| == n
  {
    if n == 0 {
      HeadIn(s);
    } else {
      assert n - 1 in s;
      var k :| 0 <= k < |s| && s[k] == n - 1;
      var t := s[..k] + s[k + 1..];
      assert s == s[..k] + [s[k]] + s[k + 1..];
      forall x: nat
        ensures x in t <==> x < n - 1
      {
        assert x in s <==> x in t || x == n - 1;
        assert n - 1 !in t;
      }
      CoverLength(t, n - 1);
    }
  }

  lemma RankingLength(f: seq<real>)
    ensures |Ranking(f)| == |f|
  {
    RankingComplete(f);
    CoverLength(Ranking(f), |f|);
  }

  /** The head of the ranking is the greedy pick. */
  lemma RankingHead(f: seq<real>)
    requires f != []
    ensures Ranking(f) != [] && Ranking(f)[0] == Argmax(f)
  {
    RankingComplete(f);
    assert 0 in Ranking(f);
    var r := Ranking(f)[0];
    assert r in Ranking(f);
    forall j | 0 <= j < |f|
      ensures f[j] <= f[r] && (j < r ==> f[j] < f[r])
    {
      assert j in Ranking(f);
      HeadFirst(f, Ranking(f), j);
    }
    ArgmaxUnique(f, r, Argmax(f));
  }

  /** The ids that beat id i: a larger value, or the same value at a lower id. */
  ghost function Ahead(f: seq<real>, i: nat): set<nat>
    requires i < |f|
  {
    set j: nat | j < |f| && (f[j] > f[i] || (f[j] == f[i] && j < i))
  }

  ghost function Members(s: seq<nat>): set<nat> {
    set x | x in s
  }

  lemma {:induction false} DistinctSize(s: seq<nat>)
    requires Distinct(s)
    ensures |Members(s)| == |s|
  {
    if s != [] {
      var last := |s| - 1;
      DistinctSize(s[..last]);
      assert s == s[..last] + [s[last]];
      assert Members(s) == Members(s[..last]) + {s[last]};
      assert s[last] !in s[..last];
    }
  }

  /** The id at rank r is beaten by exactly the r ids ranked before it. */
  lemma RankIsCount(f: seq<real>, r: nat)
    requires r < |f|
    ensures |Ranking(f)| == |f| && Ahead(f, Ranking(f)[r]) == Members(Ranking(f)[..r])
    ensures |Ahead(f, Ranking(f)[r])| == r
  {
    RankingComplete(f);
    RankingLength(f);
    var s := Ranking(f);
    forall j: nat | j < |f|
      ensures j in Ahead(f, s[r]) <==> j in s[..r]
    {
      assert j in s;
      var k :| 0 <= k < |s| && s[k] == j;
      if k < r {
        assert s[..r][k] == j;
      } else {
        assert k == r || Before(f, s[r], j);
        assert j !in s[..r];
      }
    }
    assert Members(s[..r]) == Ahead(f, s[r]);
    DistinctSize(s[..r]);
  }

  /** The rank of an id is how many ids beat it. */
  lemma RankOf(f: seq<real>, i: nat) returns (r: nat)
    requires i < |f|
    ensures r < |f| == |Ranking(f)| && Ranking(f)[r] == i
    ensures r == |Ahead(f, i)| && Ahead(f, i) == Members(Ranking(f)[..r])
    ensures forall k: nat | k <= |f| :: i in Ranking(f)[..k] <==> r < k
  {
    RankingComplete(f);
    RankingLength(f);
    assert i in Ranking(f);
    r :| 0 <= r < |f| && Ranking(f)[r] == i;
    RankIsCount(f, r);
    forall k: nat | k <= |f|
      ensures i in Ranking(f)[..k] <==> r < k
    {
      assert r < k ==> Ranking(f)[..k][r] == i;
    }
  }

  /** A library sort of ids under this order. */
  method StdSort(f: seq<real>, ids: seq<nat>) returns (sorted: seq<nat>)
    requires Ids(f, ids) && Distinct(ids)
    ensures Ordered(f, sorted) && SameIds(sorted, ids)
  {
    sorted := Sort(f, ids);
    SortOrdered(f, ids);
  }

  /** What a library partial sort promises: the first k places hold the k best in
      order, the other places the rest in any order. */
  ghost predicate PartlySorted(f: seq<real>, k: nat, idx: seq<nat>) {
    && |idx| == |f| && k <= |f| && Ids(f, idx) && Distinct(idx)
    && (forall x: nat | x < |f| :: x in idx)
    && Ordered(f, idx[..k])
    && (forall i, j | 0 <= i < k <= j < |f| :: Before(f, idx[i], idx[j]))
  }

  method PartialSort(f: seq<real>, k: nat) returns (idx: seq<nat>)
    requires k <= |f|
    ensures PartlySorted(f, k, idx)
  {
    idx := Ranking(f);
    RankingComplete(f);
    RankingLength(f);
  }

  /** However the rest is arranged, the first k places are the first k ranks. */
  lemma PartialIsRanking(f: seq<real>, k: nat, idx: seq<nat>)
    requires PartlySorted(f, k, idx)
    ensures |Ranking(f)| == |f| && idx[..k] == Ranking(f)[..k]
  {
    var rest := Sort(f, idx[k..]);
    SortOrdered(f, idx[k..]);
    var t := idx[..k] + rest;
    forall i, j | 0 <= i < j < |t|
      ensures Before(f, t[i], t[j])
    {
      RestIsLater(f, k, idx, rest);
    }
    RankingComplete(f);
    RankingLength(f);
    forall x
      ensures x in t <==> x in Ranking(f)
    {
      assert idx == idx[..k] + idx[k..];
      assert x in t <==> x in idx;
      assert x in idx ==> x < |f|;
    }
    OrderedUnique(f, t, Ranking(f));
    assert t[..k] == idx[..k];
  }

  lemma RestIsLater(f: seq<real>, k: nat, idx: seq<nat>, rest: seq<nat>)
    requires PartlySorted(f, k, idx) && Ordered(f, rest) && SameIds(rest, idx[k..])
    ensures Ordered(f, idx[..k] + rest)
  {
    forall i, j | 0 <= i < k && 0 <= j < |rest|
      ensures Before(f, idx[i], rest[j])
    {
      assert rest[j] in rest && rest[j] in idx[k..];
    }
  }
}
