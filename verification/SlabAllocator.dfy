/**
  The slab allocator as it runs (internal/allocator/slab.go): the free list lives in a
  backing array that Alloc splices and coalesceFree compacts while reading it. Every
  method is proved against the value-level specification in SlabSpec.
 */
module SlabAllocator {
  import opened SlabSpec

  /** Close the hole at i: append(free[:i], free[i+1:]...). */
  method RemoveAt(a: array<Span>, count: nat, i: nat)
    requires i < count <= a.Length
    modifies a
    ensures a[..count - 1] == old(a[..i]) + old(a[i + 1..count])
  {
    ghost var was := a[..count];
    for k := i to count - 1
      invariant a[..k] == was[..i] + was[i + 1..k + 1]
      invariant a[k..count] == was[k..]
    {
      a[k] := a[k + 1];
      assert a[k] == was[k + 1];
      assert was[i + 1..k + 2] == was[i + 1..k + 1] + [was[k + 1]];
      assert a[..k + 1] == a[..k] + [a[k]];
    }
    assert was[..i] == old(a[..i]) && was[i + 1..count] == old(a[i + 1..count]);
  }

  /** Open a hole at i and put r there: copy(free[i+1:], free[i:]); free[i] = r. */
  method InsertAt(a: array<Span>, count: nat, i: nat, r: Span)
    requires i <= count < a.Length
    modifies a
    ensures a[..count + 1] == old(a[..count])[..i] + [r] + old(a[..count])[i..]
  {
    ghost var was := a[..count];
    var k := count;
    while k > i
      invariant i <= k <= count
      invariant a[..k] == was[..k]
      invariant a[k + 1..count + 1] == was[k..]
    {
      a[k] := a[k - 1];
      assert a[k..count + 1] == [was[k - 1]] + was[k..];
      k := k - 1;
    }
    a[i] := r;
    assert a[..count + 1] == a[..i] + [a[i]] + a[i + 1..count + 1];
  }

  /** The insertion scan of insertFree. */
  method FindSlot(a: array<Span>, count: nat, off: nat) returns (i: nat)
    requires count <= a.Length
    ensures i == Slot(a[..count], off)
  {
    i := 0;
    while i < count && a[i].off < off
      invariant i <= count
      invariant forall j :: 0 <= j < i ==> a[j].off < off
    {
      i := i + 1;
    }
    SlotIs(a[..count], off, i);
  }

  lemma MergeShort(f: seq<Span>)
    requires |f| < 2
    ensures Merge(f) == f
  {
    if f != [] {
      assert f[..0] == [];
    }
  }

  lemma MergeSnoc(f: seq<Span>, k: nat)
    requires k < |f|
    ensures Merge(f[..k + 1]) == Push(Merge(f[..k]), f[k])
  {
    assert f[..k + 1][..k] == f[..k];
  }

  /** One turn of the coalescing loop: extend the last kept span or append after it. */
  method PushInPlace(a: array<Span>, out: nat, r: Span) returns (kept: nat)
    requires 0 < out < a.Length
    modifies a
    ensures kept <= out + 1 && a[..kept] == Push(old(a[..out]), r) && kept > 0
    ensures forall j :: out < j < a.Length ==> a[j] == old(a[j])
  {
    ghost var was := a[..out];
    if a[out - 1].End() == r.off {
      a[out - 1] := Span(a[out - 1].off, a[out - 1].n + r.n);
      kept := out;
      assert a[..out] == was[..out - 1] + [a[out - 1]];
    } else {
      a[out] := r;
      kept := out + 1;
      assert a[..kept] == was + [r];
    }
  }

  /** coalesceFree: writes the merged list over the front of the list it is still reading. */
  method CoalesceInPlace(a: array<Span>, count: nat) returns (out: nat)
    requires count <= a.Length
    modifies a
    ensures out <= count && a[..out] == Merge(old(a[..count]))
  {
    hide Push, Merge;
    ghost var was := a[..count];
    if count < 2 {
      MergeShort(was);
      return count;
    }
    out := 1;
    MergeShort(was[..1]);
    for k := 1 to count
      invariant 1 <= out <= k
      invariant a[..out] == Merge(was[..k])
      invariant forall j :: k <= j < count ==> a[j] == was[j]
    {
      MergeSnoc(was, k);
      out := PushInPlace(a, out, a[k]);
    }
    assert was[..count] == was;
  }

  /** The outcome when span i is the first fit. */
  ghost function AllocAt(s: Slab, i: nat, n: nat): (Slab, AllocResult)
    requires i < |s.free| && s.free[i].n >= n
  {
    var id := s.nextID + 1;
    (s.(nextID := id, free := Take(s.free, i, n), leases := s.leases[id := Span(s.free[i].off, n)]),
     Leased(id, s.free[i].off, n))
  }

  lemma AllocCases(s: Slab, n: int)
    ensures n <= 0 ==> SlabSpec.Alloc(s, n) == (s, AllocFailed(BadSize))
    ensures n > 0 && s.closed ==> SlabSpec.Alloc(s, n) == (s, AllocFailed(SlabClosed))
    ensures n > 0 && !s.closed && FirstFit(s.free, n) == |s.free| ==> SlabSpec.Alloc(s, n) == (s, AllocFailed(NoMemory))
    ensures n > 0 && !s.closed && FirstFit(s.free, n) < |s.free| ==>
              SlabSpec.Alloc(s, n) == AllocAt(s, FirstFit(s.free, n), n)
  {
  }

  /** The first-fit scan. */
  method FindFit(a: array<Span>, count: nat, n: nat) returns (i: nat)
    requires count <= a.Length && n > 0
    ensures i == FirstFit(a[..count], n)
  {
    i := 0;
    while i < count && a[i].n < n
      invariant i <= count
      invariant forall j :: 0 <= j < i ==> a[j].n < n
    {
      i := i + 1;
    }
    FirstFitIs(a[..count], n, i);
  }

  /** Take n bytes from the front of span i, dropping the span when nothing is left. */
  method TakeAt(a: array<Span>, count: nat, i: nat, n: nat) returns (left: nat)
    requires i < count <= a.Length && a[i].n >= n
    modifies a
    ensures left <= count && a[..left] == Take(old(a[..count]), i, n)
  {
    ghost var was := a[..count];
    var got := a[i];
    if got.n == n {
      RemoveAt(a, count, i);
      left := count - 1;
      assert was[..i] == old(a[..i]) && was[i + 1..] == old(a[i + 1..count]);
    } else {
      a[i] := Span(got.off + n, got.n - n);
      left := count;
      assert a[..count] == was[i := Span(got.off + n, got.n - n)];
    }
  }

  class Allocator {
    const size: nat
    var nextID: nat
    var free: array<Span>
    var count: nat
    var leases: map<nat, Span>
    var closed: bool

    ghost function View(): Slab
      requires count <= free.Length
      reads this, free
    {
      Slab(size, nextID, free[..count], leases, closed)
    }

    ghost predicate Ok()
      reads this, free
    {
      count <= free.Length && Valid(View())
    }

    constructor (bytes: nat)
      requires bytes > 0
      ensures Ok() && fresh(free) && View() == NewSlab(bytes)
    {
      size := bytes;
      nextID := 0;
      free := new Span[1](_ => Span(0, bytes));
      count := 1;
      leases := map[];
      closed := false;
      new;
      assert free[..count] == [Span(0, bytes)];
      NewSlabValid(bytes);
    }

    /** Reserve n bytes from the first free span that is large enough. */
    method Alloc(n: int) returns (r: AllocResult)
      requires Ok()
      modifies this, free
      ensures Ok() && free == old(free)
      ensures View() == SlabSpec.Alloc(old(View()), n).0 && r == SlabSpec.Alloc(old(View()), n).1
    {
      ghost var s := View();
      AllocKeepsValid(s, n);
      AllocCases(s, n);
      hide Valid, Take, FirstFit, SlabSpec.Alloc;
      if n <= 0 { return AllocFailed(BadSize); }
      if closed { return AllocFailed(SlabClosed); }
      var i := FindFit(free, count, n);
      if i == count { return AllocFailed(NoMemory); }
      r := Carve(i, n);
    }

    method Carve(i: nat, n: nat) returns (r: AllocResult)
      requires i < count <= free.Length && free[i].n >= n
      modifies this, free
      ensures count <= free.Length && free == old(free)
      ensures View() == AllocAt(old(View()), i, n).0 && r == AllocAt(old(View()), i, n).1
    {
      hide Take;
      var off := free[i].off;
      nextID := nextID + 1;
      leases := leases[nextID := Span(off, n)];
      count := TakeAt(free, count, i, n);
      return Leased(nextID, off, n);
    }

    /** Release a lease: insert its span in offset order, then merge touching spans. */
    method Free(id: nat) returns (r: FreeResult)
      requires Ok()
      modifies this, free
      ensures Ok() && (free == old(free) || fresh(free))
      ensures View() == SlabSpec.Free(old(View()), id).0 && r == SlabSpec.Free(old(View()), id).1
    {
      ghost var s := View();
      FreeKeepsValid(s, id);
      hide Valid, Merge, Insert;
      if closed { return FreeFailed(SlabClosed); }
      if id !in leases { return FreeFailed(LeaseNotFound); }
      var span := leases[id];
      leases := leases - {id};
      InsertFree(span);
      return Freed;
    }

    method InsertFree(r: Span)
      requires count <= free.Length
      modifies this, free
      ensures count <= free.Length && (free == old(free) || fresh(free))
      ensures free[..count] == Merge(Insert(old(free[..count]), r))
      ensures nextID == old(nextID) && leases == old(leases) && closed == old(closed)
    {
      hide Merge, Slot;
      var i := FindSlot(free, count, r.off);
      ghost var was := free[..count];
      if count == free.Length {
        Grow();
      }
      InsertAt(free, count, i, r);
      count := count + 1;
      count := CoalesceInPlace(free, count);
    }

    /** append past the capacity: move to a larger backing array. */
    method Grow()
      requires count == free.Length
      modifies this
      ensures fresh(free) && count == old(count) && count < free.Length
      ensures free[..count] == old(free[..count])
      ensures nextID == old(nextID) && leases == old(leases) && closed == old(closed)
    {
      var bigger := new Span[2 * count + 1](_ => Span(0, 0));
      for k := 0 to count
        modifies bigger
        invariant forall j :: 0 <= j < k ==> bigger[j] == free[j]
      {
        bigger[k] := free[k];
      }
      free := bigger;
    }

    /** The used and free byte counts add up: used is exactly the sum of the live leases. */
    method Stats() returns (used: nat, unused: nat, nLeases: nat, nRanges: nat)
      requires Ok()
      ensures used == TotalLeased(leases) && unused == TotalFree(free[..count]) && used + unused == size
      ensures nLeases == |leases| && nRanges == count
    {
      unused := 0;
      for i := 0 to count
        invariant unused == TotalFree(free[..i])
      {
        unused := unused + free[i].n;
        assert free[..i + 1][..i] == free[..i];
      }
      used := size - unused;
      nLeases, nRanges := |leases|, count;
    }
  }

  lemma {:induction false} FirstFitIs(f: seq<Span>, n: int, i: nat)
    requires n > 0 && i <= |f| && (forall j :: 0 <= j < i ==> f[j].n < n) && (i < |f| ==> f[i].n >= n)
    ensures FirstFit(f, n) == i
  {
    if i > 0 {
      FirstFitIs(f[1..], n, i - 1);
    }
  }

  lemma {:induction false} SlotIs(f: seq<Span>, off: nat, i: nat)
    requires i <= |f| && (forall j :: 0 <= j < i ==> f[j].off < off) && (i < |f| ==> f[i].off >= off)
    ensures Slot(f, off) == i
  {
    if i > 0 {
      SlotIs(f[1..], off, i - 1);
    }
  }
}
