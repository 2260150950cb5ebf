/** The fixed-capacity id freelist shared by the page pool and the slot pool:
    a live bitmap and a last-in first-out list of free ids. */
module FixedIdPools {
  import opened Basics

  /** Number of set flags. */
  function CountLive(live: seq<bool>): nat {
    if live == [] then 0
    else CountLive(live[..|live| - 1]) + if live[|live| - 1] then 1 else 0
  }

  /** The set positions, ascending. */
  function LiveIds(live: seq<bool>): seq<nat> {
    if live == [] then []
    else LiveIds(live[..|live| - 1]) + if live[|live| - 1] then [|live| - 1] else []
  }

  datatype IdPool = IdPool(live: seq<bool>, free: seq<nat>) {

    /** The free list enumerates exactly the ids that are not live, once each. */
    ghost predicate Valid() {
      && (forall i | 0 <= i < |free| :: free[i] < |live| && !live[free[i]])
      && (forall i, j | 0 <= i < j < |free| :: free[i] != free[j])
      && (forall id | 0 <= id < |live| && !live[id] :: id in free)
    }

    predicate IsLive(id: int) {
      0 <= id < |live| && live[id]
    }

    function Top(): nat
      requires free != []
    {
      free[|free| - 1]
    }

    /** The pool after the top of the free list has been handed out. */
    function Acquired(): IdPool
      requires free != [] && Top() < |live|
    {
      IdPool(live[Top() := true], free[..|free| - 1])
    }

    /** The pool after a live id has been handed back. */
    function Released(id: nat): IdPool
      requires IsLive(id)
    {
      IdPool(live[id := false], free + [id])
    }

    /** The pool after every live id has been handed back in ascending order. */
    function Emptied(): IdPool {
      IdPool(seq(|live|, _ => false), free + LiveIds(live))
    }
  }

  function FreshIds(capacity: nat): IdPool {
    IdPool(seq(capacity, _ => false), seq(capacity, i requires 0 <= i < capacity => (capacity - 1 - i) as nat))
  }

  /** Nothing is live at first, and the ids are handed out in ascending order from 0. */
  lemma FreshIdsValid(capacity: nat)
    ensures FreshIds(capacity).Valid() && |FreshIds(capacity).free| == capacity
    ensures forall id :: !FreshIds(capacity).IsLive(id)
    ensures forall i | 0 <= i < capacity :: Taken(FreshIds(capacity), capacity)[i] == i
  {
    var p := FreshIds(capacity);
    forall id | 0 <= id < capacity
      ensures id in p.free
    {
      assert p.free[capacity - 1 - id] == id;
    }
  }

  /** A live id is never handed out, and the acquired id becomes live. */
  lemma AcquireValid(p: IdPool)
    requires p.Valid() && p.free != []
    ensures p.Acquired().Valid()
    ensures !p.IsLive(p.Top()) && p.Acquired().IsLive(p.Top())
  {
    var q := p.Acquired();
    forall id | 0 <= id < |q.live| && !q.live[id]
      ensures id in q.free
    {
      var i :| 0 <= i < |p.free| && p.free[i] == id;
      assert q.free[i] == id;
    }
  }

  lemma ReleaseValid(p: IdPool, id: nat)
    requires p.Valid() && p.IsLive(id)
    ensures p.Released(id).Valid() && !p.Released(id).IsLive(id)
  {
    var q := p.Released(id);
    forall x | 0 <= x < |q.live| && !q.live[x]
      ensures x in q.free
    {
      if x == id {
        assert q.free[|p.free|] == id;
      } else {
        var i :| 0 <= i < |p.free| && p.free[i] == x;
        assert q.free[i] == x;
      }
    }
  }

  /** Last in, first out: the id released last is the id acquired next, and an
      acquisition that is handed straight back leaves no trace. */
  lemma AcquireReleaseUndo(p: IdPool, id: nat)
    requires p.Valid()
    ensures p.free != [] ==> p.Acquired().IsLive(p.Top()) && p.Acquired().Released(p.Top()) == p
    ensures p.IsLive(id) ==> p.Released(id).Top() == id && p.Released(id).Acquired() == p
  {
    AcquireUndone(p);
    ReleaseUndone(p, id);
  }

  lemma AcquireUndone(p: IdPool)
    requires p.Valid()
    ensures p.free != [] ==> p.Acquired().IsLive(p.Top()) && p.Acquired().Released(p.Top()) == p
  {
    if p.free != [] {
      assert p.Acquired().Released(p.Top()).live == p.live;
    }
  }

  lemma ReleaseUndone(p: IdPool, id: nat)
    ensures p.IsLive(id) ==> p.Released(id).Top() == id && p.Released(id).Acquired() == p
  {
    if p.IsLive(id) {
      assert p.Released(id).Acquired().live == p.live;
    }
  }

  // ----- exact accounting ---------------------------------------------------

  lemma {:induction false} CountUpdate(live: seq<bool>, id: nat)
    requires id < |live| && !live[id]
    ensures CountLive(live[id := true]) == CountLive(live) + 1
  {
    var n := |live| - 1;
    var updated := live[id := true];
    if id == n {
      assert updated[..n] == live[..n];
    } else {
      assert updated[..n] == live[..n][id := true];
      CountUpdate(live[..n], id);
    }
  }

  lemma {:induction false} CountAll(live: seq<bool>)
    ensures CountLive(live) <= |live|
    ensures CountLive(live) == |live| <==> forall id | 0 <= id < |live| :: live[id]
    ensures CountLive(live) == 0 <==> forall id | 0 <= id < |live| :: !live[id]
  {
    if live != [] {
      var n := |live| - 1;
      CountAll(live[..n]);
      assert live == live[..n] + [live[n]];
      assert forall id | 0 <= id < n :: live[..n][id] == live[id];
    }
  }

  /** Accounting is exact in every valid state: used + free == capacity. */
  lemma {:induction false} Accounting(p: IdPool)
    requires p.Valid()
    ensures CountLive(p.live) + |p.free| == |p.live|
    decreases |p.free|
  {
    if p.free == [] {
      CountAll(p.live);
    } else {
      AcquireValid(p);
      Accounting(p.Acquired());
      CountUpdate(p.live, p.Top());
    }
  }

  /** Byte accounting is exact in every valid state, whatever one id weighs. */
  lemma BytesExact(p: IdPool, bytes: nat)
    requires p.Valid()
    ensures CountLive(p.live) * bytes + |p.free| * bytes == |p.live| * bytes
  {
    Accounting(p);
    assert (CountLive(p.live) + |p.free|) * bytes == CountLive(p.live) * bytes + |p.free| * bytes;
  }

  lemma {:induction false} LiveIdsComplete(live: seq<bool>)
    ensures forall i | 0 <= i < |LiveIds(live)| :: LiveIds(live)[i] < |live| && live[LiveIds(live)[i]]
    ensures forall i, j | 0 <= i < j < |LiveIds(live)| :: LiveIds(live)[i] < LiveIds(live)[j]
    ensures forall id | 0 <= id < |live| && live[id] :: id in LiveIds(live)
    ensures |LiveIds(live)| == CountLive(live)
  {
    if live != [] {
      LiveIdsComplete(live[..|live| - 1]);
    }
  }

  lemma LiveIdsStep(live: seq<bool>, id: nat)
    requires id < |live|
    ensures LiveIds(live[..id + 1]) == LiveIds(live[..id]) + if live[id] then [id] else []
  {
    assert live[..id + 1][..id] == live[..id];
  }

  /** Reset hands back every live id: the pool stays valid with nothing live. */
  lemma EmptiedValid(p: IdPool)
    requires p.Valid()
    ensures p.Emptied().Valid()
    ensures CountLive(p.Emptied().live) == 0 && |p.Emptied().free| == |p.live|
  {
    var q := p.Emptied();
    LiveIdsComplete(p.live);
    CountAll(q.live);
    Accounting(p);
    forall id | 0 <= id < |q.live|
      ensures id in q.free
    {
      if p.live[id] {
        assert id in LiveIds(p.live);
      }
    }
  }

  /** The ids handed back stand in ascending order behind the ids that were free, so the
      highest of them is acquired next. */
  lemma EmptiedOrder(p: IdPool)
    requires p.Valid()
    ensures var ids, n := p.Emptied().free, |p.free|;
      && n <= |ids| == |p.live| == |p.Emptied().live| && ids[..n] == p.free
      && (forall i, j | n <= i < j < |ids| :: ids[i] < ids[j])
      && (forall i | n <= i < |ids| :: p.IsLive(ids[i]))
      && forall id :: !p.Emptied().IsLive(id)
  {
    EmptiedValid(p);
    LiveIdsComplete(p.live);
  }

  // ----- several acquisitions or releases in a row --------------------------

  /** The ids handed out by the next n acquisitions, in order. */
  function Taken(p: IdPool, n: nat): (ids: seq<nat>)
    requires n <= |p.free|
    ensures |ids| == n
  {
    seq(n, i requires 0 <= i < n => p.free[|p.free| - 1 - i])
  }

  predicate FreeInRange(p: IdPool) {
    forall i | 0 <= i < |p.free| :: p.free[i] < |p.live|
  }

  /** The pool after n acquisitions. */
  function AcquiredMany(p: IdPool, n: nat): (q: IdPool)
    requires FreeInRange(p) && n <= |p.free|
    ensures q.free == p.free[..|p.free| - n] && |q.live| == |p.live|
  {
    if n == 0 then p else AcquiredMany(p, n - 1).Acquired()
  }

  lemma {:induction false} AcquiredManyValid(p: IdPool, n: nat)
    requires p.Valid() && n <= |p.free|
    ensures AcquiredMany(p, n).Valid()
  {
    if n > 0 {
      AcquiredManyValid(p, n - 1);
      AcquireValid(AcquiredMany(p, n - 1));
    }
  }

  /** Taken ids were free and are pairwise different. */
  lemma TakenFresh(p: IdPool, n: nat)
    requires p.Valid() && n <= |p.free|
    ensures forall i | 0 <= i < n :: Taken(p, n)[i] < |p.live| && !p.live[Taken(p, n)[i]]
    ensures Distinct(Taken(p, n))
  {
  }

  lemma TakenStep(p: IdPool, n: nat)
    requires FreeInRange(p) && 0 < n <= |p.free|
    ensures Taken(p, n) == Taken(p, n - 1) + [AcquiredMany(p, n - 1).Top()]
  {
  }

  /** Exactly the taken ids become live; no other flag moves. */
  lemma {:induction false} AcquiredManyLive(p: IdPool, n: nat)
    requires FreeInRange(p) && n <= |p.free|
    ensures forall id | 0 <= id < |p.live| :: AcquiredMany(p, n).live[id] == (p.live[id] || id in Taken(p, n))
  {
    if n > 0 {
      AcquiredManyLive(p, n - 1);
      TakenStep(p, n);
      MarkedLive(p.live, AcquiredMany(p, n - 1), Taken(p, n - 1));
    }
  }

  lemma MarkedLive(live: seq<bool>, q: IdPool, taken: seq<nat>)
    requires q.free != [] && q.Top() < |q.live| == |live|
    requires forall id | 0 <= id < |live| :: q.live[id] == (live[id] || id in taken)
    ensures forall id | 0 <= id < |live| :: q.Acquired().live[id] == (live[id] || id in taken + [q.Top()])
  {
  }

  ghost predicate AllLive(p: IdPool, s: seq<nat>) {
    forall i | 0 <= i < |s| :: p.IsLive(s[i])
  }

  /** The pool after the ids of s were handed back, first to last. */
  function ReleasedMany(p: IdPool, s: seq<nat>): (q: IdPool)
    requires Distinct(s) && AllLive(p, s)
    ensures q.free == p.free + s && |q.live| == |p.live|
    ensures forall id | 0 <= id < |p.live| :: q.live[id] == (p.live[id] && id !in s)
  {
    if s == [] then p else ReleasedMany(p, s[..|s| - 1]).Released(s[|s| - 1])
  }

  lemma {:induction false} ReleasedManyValid(p: IdPool, s: seq<nat>)
    requires p.Valid() && Distinct(s) && AllLive(p, s)
    ensures ReleasedMany(p, s).Valid()
  {
    if s != [] {
      ReleasedManyValid(p, s[..|s| - 1]);
      ReleaseValid(ReleasedMany(p, s[..|s| - 1]), s[|s| - 1]);
    }
  }

  // ----- the mutable pool ---------------------------------------------------

  class FixedIdPool {
    const capacity: nat
    const live: array<bool>
    var freeIds: seq<nat>

    function Model(): IdPool
      reads this, live
    {
      IdPool(live[..], freeIds)
    }

    ghost predicate Valid()
      reads this, live
    {
      live.Length == capacity && Model().Valid()
    }

    constructor (capacity: nat)
      ensures Valid() && this.capacity == capacity && fresh(live)
      ensures Model() == FreshIds(capacity)
    {
      this.capacity := capacity;
      live := new bool[capacity](_ => false);
      freeIds := [];
      new;
      var i := capacity;
      while i > 0
        invariant 0 <= i <= capacity
        invariant freeIds == FreshIds(capacity).free[..capacity - i]
        invariant forall id | 0 <= id < capacity :: !live[id]
      {
        i := i - 1;
        freeIds := freeIds + [i];
      }
      assert live[..] == FreshIds(capacity).live;
      FreshIdsValid(capacity);
    }

    method Acquire() returns (id: Option<nat>)
      requires Valid()
      modifies this, live
      ensures Valid()
      ensures id.None? <==> old(Model()).free == []
      ensures id.None? ==> Model() == old(Model())
      ensures id.Some? ==> id.value == old(Model()).Top() && Model() == old(Model()).Acquired()
    {
      if freeIds == [] {
        return None;
      }
      AcquireValid(Model());
      var top := freeIds[|freeIds| - 1];
      freeIds := freeIds[..|freeIds| - 1];
      live[top] := true;
      id := Some(top);
      assert Model() == old(Model()).Acquired();
    }

    method Release(id: int) returns (ok: bool)
      requires Valid()
      modifies this, live
      ensures Valid()
      ensures ok == old(Model()).IsLive(id)
      ensures Model() == if ok then old(Model()).Released(id) else old(Model())
    {
      if id < 0 || id >= capacity {
        return false;
      }
      if !live[id] {
        return false;
      }
      ReleaseValid(Model(), id);
      live[id] := false;
      freeIds := freeIds + [id];
      ok := true;
      assert Model() == old(Model()).Released(id);
    }

    predicate IsLive(id: int)
      requires Valid()
      reads this, live
      ensures IsLive(id) == Model().IsLive(id)
    {
      0 <= id < capacity && live[id]
    }

    method Reset()
      requires Valid()
      modifies this, live
      ensures Valid()
      ensures Model() == old(Model()).Emptied()
    {
      ghost var was := Model();
      var id := 0;
      while id < capacity
        invariant 0 <= id <= capacity
        invariant forall x | 0 <= x < id :: !live[x]
        invariant forall x | id <= x < capacity :: live[x] == was.live[x]
        invariant freeIds == was.free + LiveIds(was.live[..id])
      {
        LiveIdsStep(was.live, id);
        if live[id] {
          live[id] := false;
          freeIds := freeIds + [id];
        }
        id := id + 1;
      }
      assert was.live[..capacity] == was.live;
      assert live[..] == was.Emptied().live;
      EmptiedValid(was);
    }

    method Used() returns (n: nat)
      requires Valid()
      ensures n == CountLive(Model().live) == capacity - |Model().free|
    {
      n := 0;
      for id := 0 to capacity
        invariant n == CountLive(live[..id])
      {
        assert live[..id + 1][..id] == live[..id];
        if live[id] {
          n := n + 1;
        }
      }
      assert live[..capacity] == live[..];
      Accounting(Model());
    }

    method FreeCount() returns (n: nat)
      requires Valid()
      ensures n == |Model().free|
    {
      var used := Used();
      n := capacity - used;
    }

    method LiveList() returns (ids: seq<nat>)
      requires Valid()
      ensures ids == LiveIds(Model().live)
    {
      ids := [];
      for id := 0 to capacity
        invariant ids == LiveIds(live[..id])
      {
        assert live[..id + 1][..id] == live[..id];
        if live[id] {
          ids := ids + [id];
        }
      }
      assert live[..capacity] == live[..];
    }
  }
}
