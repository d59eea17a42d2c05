/** The handle pools as the source updates them, in place, against PoolSpec. */
module HandlePools {
  import opened PoolSpec

  class HandlePool<P> {
    var available: seq<Handle>
    var inUse: map<Handle, P>

    ghost function View(): Pool<P>
      reads this
    {
      Pool(available, inUse)
    }

    constructor (handles: seq<Handle>)
      ensures View() == Pool(handles, map[])
    {
      available := handles;
      inUse := map[];
    }

    method Acquire(cancelled: bool, tag: P) returns (r: Acquired)
      modifies this
      ensures View() == PoolSpec.Acquire(old(View()), cancelled, tag).0
      ensures r == PoolSpec.Acquire(old(View()), cancelled, tag).1
    {
      if cancelled { return NotGot(ContextDone); }
      if |available| == 0 { return NotGot(Exhausted); }
      var h := available[|available| - 1];
      available := available[..|available| - 1];
      inUse := inUse[h := tag];
      return Got(h);
    }

    method Release(cancelled: bool, h: Handle) returns (r: Released)
      modifies this
      ensures View() == PoolSpec.Release(old(View()), cancelled, h).0
      ensures r == PoolSpec.Release(old(View()), cancelled, h).1
    {
      if cancelled { return NotReleased(ContextDone); }
      if h !in inUse { return NotReleased(NotInUse); }
      inUse := inUse - {h};
      available := available + [h];
      return Done;
    }

    method Stats(ghost handles: set<Handle>) returns (used: nat, unused: nat)
      requires Holds(View(), handles)
      ensures used == |inUse| && used + unused == |handles|
    {
      PoolConserves(View(), handles);
      return |inUse|, |available|;
    }
  }

  /** The pool constructors' check: at least one handle, none empty, none twice. */
  method NewPool<P>(handles: seq<Handle>) returns (pool: HandlePool?<P>)
    ensures pool != null <==> handles != [] && "" !in handles && Distinct(handles)
    ensures pool != null ==> fresh(pool) && pool.View() == Pool(handles, map[]) && Holds(pool.View(), Elements(handles))
  {
    if |handles| == 0 { return null; }
    var seen: set<Handle> := {};
    for i := 0 to |handles|
      invariant seen == Elements(handles[..i])
      invariant "" !in handles[..i] && Distinct(handles[..i])
    {
      var h := handles[i];
      if h == "" { return null; }
      assert handles[..i + 1] == handles[..i] + [h];
      if h in seen {
        var k :| 0 <= k < i && handles[..i][k] == h;
        assert handles[k] == handles[i];
        return null;
      }
      seen := seen + {h};
    }
    assert handles[..|handles|] == handles;
    pool := new HandlePool(handles);
  }
}
