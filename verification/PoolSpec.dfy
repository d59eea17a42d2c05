/**
  The static handle pools of the session store (internal/jaccld/resource/handle.go): a stack of
  available handles and a map of those in use. The queue-pair pool records a peer with each
  handle in use and the completion-queue pool the value true; otherwise they are the same.
 */
module PoolSpec {
  type Handle = string

  datatype PoolError = ContextDone | Exhausted | NotInUse

  datatype Acquired = Got(handle: Handle) | NotGot(error: PoolError)

  datatype Released = Done | NotReleased(error: PoolError)

  datatype Pool<P> = Pool(available: seq<Handle>, inUse: map<Handle, P>)

  function Acquire<P>(p: Pool<P>, cancelled: bool, tag: P): (Pool<P>, Acquired) {
    if cancelled then (p, NotGot(ContextDone))
    else if p.available == [] then (p, NotGot(Exhausted))
    else
      var last := |p.available| - 1;
      (Pool(p.available[..last], p.inUse[p.available[last] := tag]), Got(p.available[last]))
  }

  function Release<P>(p: Pool<P>, cancelled: bool, h: Handle): (Pool<P>, Released) {
    if cancelled then (p, NotReleased(ContextDone))
    else if h !in p.inUse then (p, NotReleased(NotInUse))
    else (Pool(p.available + [h], p.inUse - {h}), Done)
  }

  predicate Distinct<T(==)>(s: seq<T>) { forall i, j :: 0 <= i < j < |s| ==> s[i] != s[j] }

  /** Every handle the pool was made with is either available, once, or in use. */
  ghost predicate Holds<P>(p: Pool<P>, handles: set<Handle>) {
    && Distinct(p.available)
    && (forall h :: h in p.available ==> h !in p.inUse)
    && (forall h :: h in handles <==> h in p.available || h in p.inUse)
  }

  lemma AcquireKeeps<P>(p: Pool<P>, cancelled: bool, tag: P, handles: set<Handle>)
    requires Holds(p, handles)
    ensures var (q, r) := Acquire(p, cancelled, tag);
            && Holds(q, handles)
            && (r.Got? ==> r.handle in handles && r.handle !in p.inUse && q.inUse == p.inUse[r.handle := tag])
  {
    var (q, r) := Acquire(p, cancelled, tag);
    if r.Got? {
      assert p.available == q.available + [r.handle];
    }
  }

  lemma ReleaseKeeps<P>(p: Pool<P>, cancelled: bool, h: Handle, handles: set<Handle>)
    requires Holds(p, handles)
    ensures Holds(Release(p, cancelled, h).0, handles)
  {
    if !cancelled && h in p.inUse {
      var q := Release(p, cancelled, h).0;
      assert q.available == p.available + [h];
    }
  }

  /** Releasing what was just acquired restores the pool exactly, stack order included. */
  lemma AcquireThenRelease<P>(p: Pool<P>, tag: P, handles: set<Handle>)
    requires Holds(p, handles) && p.available != []
    ensures var (q, r) := Acquire(p, false, tag); r.Got? && Release(q, false, r.handle) == (p, Done)
  {
    var (q, r) := Acquire(p, false, tag);
    assert q.inUse - {r.handle} == p.inUse;
    assert q.available + [r.handle] == p.available;
  }

  ghost function Elements(s: seq<Handle>): set<Handle> { set h | h in s }

  lemma {:induction false} DistinctCount(s: seq<Handle>)
    requires Distinct(s)
    ensures |Elements(s)| == |s|
  {
    if s != [] {
      var front, h := s[..|s| - 1], s[|s| - 1];
      DistinctCount(front);
      assert s == front + [h];
      assert Elements(s) == Elements(front) + {h};
    }
  }

  /** In use plus available is always the number of handles the pool was made with. */
  lemma PoolConserves<P>(p: Pool<P>, handles: set<Handle>)
    requires Holds(p, handles)
    ensures |p.inUse| + |p.available| == |handles|
  {
    DistinctCount(p.available);
    assert handles == Elements(p.available) + p.inUse.Keys;
    assert Elements(p.available) !! p.inUse.Keys;
  }
}
