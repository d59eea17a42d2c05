/**
  The slab allocator's value-level specification (internal/allocator/slab.go).

  A slab is a size, the free list, and the live leases. In every reachable state the
  leases and the free spans partition the slab, and the free list is the one sorted list
  of maximal unleased gaps, so it depends on the live leases alone.
 */
module SlabSpec {

  datatype Span = Span(off: nat, n: nat) {
    function End(): nat { off + n }
  }

  datatype Slab = Slab(size: nat, nextID: nat, free: seq<Span>, leases: map<nat, Span>, closed: bool)

  datatype SlabError = BadSize | SlabClosed | NoMemory | LeaseNotFound

  datatype AllocResult = Leased(id: nat, off: nat, n: nat) | AllocFailed(error: SlabError)

  datatype FreeResult = Freed | FreeFailed(error: SlabError)

  // ---- Bytes ----

  predicate Covers(s: Span, b: int) { s.off <= b < s.End() }

  predicate InSpans(free: seq<Span>, b: int) {
    exists i :: 0 <= i < |free| && Covers(free[i], b)
  }

  predicate IsLeased(leases: map<nat, Span>, b: int) {
    exists id :: id in leases && Covers(leases[id], b)
  }

  predicate Apart(s: Span, t: Span) { s.End() <= t.off || t.End() <= s.off }

  /** Sorted, positive, inside the slab; neighbours may touch but not overlap. */
  predicate Sorted(free: seq<Span>, size: nat) {
    && (forall i :: 0 <= i < |free| ==> free[i].n > 0 && free[i].End() <= size)
    && (forall i, j :: 0 <= i < j < |free| ==> free[i].End() <= free[j].off)
  }

  /** Sorted, and no two spans touch: every span is a maximal gap of what it covers. */
  predicate Normal(free: seq<Span>, size: nat) {
    && (forall i :: 0 <= i < |free| ==> free[i].n > 0 && free[i].End() <= size)
    && (forall i, j :: 0 <= i < j < |free| ==> free[i].End() < free[j].off)
  }

  ghost predicate LeasesOk(leases: map<nat, Span>, size: nat, nextID: nat) {
    && (forall id :: id in leases ==> 0 < id <= nextID && leases[id].n > 0 && leases[id].End() <= size)
    && (forall a, b :: a in leases && b in leases && a != b ==> Apart(leases[a], leases[b]))
  }

  /** The free spans cover exactly the unleased bytes. */
  ghost predicate Partition(free: seq<Span>, leases: map<nat, Span>, size: nat) {
    forall b :: 0 <= b < size ==> (InSpans(free, b) <==> !IsLeased(leases, b))
  }

  ghost predicate Valid(s: Slab) {
    && s.size > 0
    && Normal(s.free, s.size)
    && LeasesOk(s.leases, s.size, s.nextID)
    && Partition(s.free, s.leases, s.size)
    && TotalFree(s.free) + TotalLeased(s.leases) == s.size
  }

  // ---- The canonical free list ----

  /** The maximal runs of unleased bytes below hi, found by scanning upwards. */
  ghost function Gaps(leases: map<nat, Span>, hi: nat): seq<Span> {
    if hi == 0 then []
    else
      var g := Gaps(leases, hi - 1);
      if IsLeased(leases, hi - 1) then g else Push(g, Span(hi - 1, 1))
  }

  /** Add r after the spans kept so far, extending the last one when they touch. */
  function Push(out: seq<Span>, r: Span): seq<Span> {
    var last := |out| - 1;
    if |out| > 0 && out[last].End() == r.off then out[..last] + [Span(out[last].off, out[last].n + r.n)]
    else out + [r]
  }

  lemma PushNormal(out: seq<Span>, r: Span, size: nat)
    requires Normal(out, size) && r.n > 0 && r.End() <= size
    requires out == [] || out[|out| - 1].End() <= r.off
    ensures Normal(Push(out, r), size)
    ensures |Push(out, r)| > 0 && Push(out, r)[|Push(out, r)| - 1].End() == r.End()
  {
    var t, last := Push(out, r), |out| - 1;
    if |out| > 0 && out[last].End() == r.off {
      assert forall i :: 0 <= i < last ==> t[i] == out[i];
      assert t[last].off == out[last].off;
    } else {
      assert forall i :: 0 <= i < |out| ==> t[i] == out[i];
      assert forall i :: 0 <= i < |out| ==> out[i].End() <= out[last].End() < r.off;
    }
  }

  lemma PushTotal(out: seq<Span>, r: Span)
    ensures TotalFree(Push(out, r)) == TotalFree(out) + r.n
  {
    var t, last := Push(out, r), |out| - 1;
    if |out| > 0 && out[last].End() == r.off {
      assert t[..last] == out[..last];
    } else {
      assert t[..|out|] == out;
    }
  }

  /** Pushing r covers exactly r's bytes more. */
  lemma PushCover(out: seq<Span>, r: Span, b: int)
    ensures InSpans(Push(out, r), b) <==> InSpans(out, b) || Covers(r, b)
  {
    var t, last := Push(out, r), |out| - 1;
    if |out| > 0 && out[last].End() == r.off {
      assert Covers(t[last], b) <==> Covers(out[last], b) || Covers(r, b);
    } else {
      assert Covers(t[|out|], b) <==> Covers(r, b);
    }
    if k :| 0 <= k < |out| && Covers(out[k], b) {
      assert Covers(t[k], b);
    }
    if k :| 0 <= k < |t| && Covers(t[k], b) {
      assert k >= last || Covers(out[k], b);
    }
  }

  lemma NormalWiden(f: seq<Span>, size: nat, wider: nat)
    requires Normal(f, size) && size <= wider
    ensures Normal(f, wider)
  {
  }

  lemma {:induction false} GapsAreNormal(leases: map<nat, Span>, hi: nat)
    ensures Normal(Gaps(leases, hi), hi)
  {
    if hi > 0 {
      var g := Gaps(leases, hi - 1);
      GapsAreNormal(leases, hi - 1);
      assert g == [] || g[|g| - 1].End() <= hi - 1;
      NormalWiden(g, hi - 1, hi);
      PushNormal(g, Span(hi - 1, 1), hi);
    }
  }

  lemma {:induction false} GapsCover(leases: map<nat, Span>, hi: nat, b: int)
    ensures InSpans(Gaps(leases, hi), b) <==> 0 <= b < hi && !IsLeased(leases, b)
  {
    if hi > 0 {
      GapsCover(leases, hi - 1, b);
      PushCover(Gaps(leases, hi - 1), Span(hi - 1, 1), b);
    }
  }

  lemma TailCover(f: seq<Span>, size: nat, b: int)
    requires Normal(f, size) && f != []
    ensures InSpans(f[1..], b) <==> InSpans(f, b) && !Covers(f[0], b)
  {
    if i :| 0 <= i < |f| && Covers(f[i], b) {
      if i > 0 {
        assert Covers(f[1..][i - 1], b);
      }
    }
    if i :| 0 <= i < |f[1..]| && Covers(f[1..][i], b) {
      assert Covers(f[i + 1], b);
    }
  }

  /** Two lists of maximal gaps that cover the same bytes have the same first gap. */
  lemma FirstGap(f: seq<Span>, g: seq<Span>, size: nat)
    requires Normal(f, size) && Normal(g, size) && f != []
    requires forall b :: InSpans(f, b) <==> InSpans(g, b)
    ensures g != [] && f[0] == g[0]
  {
    assert Covers(f[0], f[0].off);
    assert InSpans(f, f[0].off);
    var i :| 0 <= i < |g| && Covers(g[i], f[0].off);
    assert Covers(g[0], g[0].off);
    assert InSpans(g, g[0].off);
    var j :| 0 <= j < |f| && Covers(f[j], g[0].off);
    assert f[0].off == g[0].off;
    EndUncovered(f, size, 0);
    EndUncovered(g, size, 0);
    var fEnd, gEnd := f[0].End(), g[0].End();
    assert Covers(g[0], fEnd) ==> InSpans(g, fEnd);
    assert Covers(f[0], gEnd) ==> InSpans(f, gEnd);
  }

  /** Gaps are maximal: the byte after one is in none. */
  lemma EndUncovered(f: seq<Span>, size: nat, i: nat)
    requires Normal(f, size) && i < |f|
    ensures !InSpans(f, f[i].End())
  {
  }

  lemma {:induction false} SameCoverSameList(f: seq<Span>, g: seq<Span>, size: nat)
    requires Normal(f, size) && Normal(g, size)
    requires forall b :: InSpans(f, b) <==> InSpans(g, b)
    ensures f == g
    decreases |f|
  {
    hide InSpans;
    if f == [] {
      if g != [] {
        FirstGap(g, f, size);
      }
    } else {
      FirstGap(f, g, size);
      forall b
        ensures InSpans(f[1..], b) <==> InSpans(g[1..], b)
      {
        TailCover(f, size, b);
        TailCover(g, size, b);
      }
      SameCoverSameList(f[1..], g[1..], size);
      assert f == [f[0]] + f[1..] && g == [g[0]] + g[1..];
    }
  }

  lemma OutsideUncovered(f: seq<Span>, size: nat, b: int)
    requires Normal(f, size) && !(0 <= b < size)
    ensures !InSpans(f, b)
  {
  }

  /** The free list is a function of the live leases: the list of maximal unleased gaps. */
  lemma FreeListIsCanonical(s: Slab)
    requires Valid(s)
    ensures s.free == Gaps(s.leases, s.size)
  {
    var g := Gaps(s.leases, s.size);
    GapsAreNormal(s.leases, s.size);
    forall b
      ensures InSpans(s.free, b) <==> InSpans(g, b)
    {
      GapsCover(s.leases, s.size, b);
      if !(0 <= b < s.size) {
        OutsideUncovered(s.free, s.size, b);
      }
    }
    SameCoverSameList(s.free, g, s.size);
  }

  /** History does not matter: the same live leases mean the same free list. */
  lemma FreeListForgetsHistory(s: Slab, t: Slab)
    requires Valid(s) && Valid(t) && s.size == t.size && s.leases == t.leases
    ensures s.free == t.free
  {
    FreeListIsCanonical(s);
    FreeListIsCanonical(t);
  }

  // ---- Totals ----

  function TotalFree(free: seq<Span>): nat {
    if free == [] then 0 else TotalFree(free[..|free| - 1]) + free[|free| - 1].n
  }

  ghost function TotalLeased(leases: map<nat, Span>): nat {
    if leases == map[] then 0
    else
      var id :| id in leases;
      leases[id].n + TotalLeased(leases - {id})
  }

  lemma {:induction false} TotalLeasedRemove(leases: map<nat, Span>, id: nat)
    requires id in leases
    ensures TotalLeased(leases) == leases[id].n + TotalLeased(leases - {id})
    decreases leases
  {
    var pick :| pick in leases && TotalLeased(leases) == leases[pick].n + TotalLeased(leases - {pick});
    if pick != id {
      TotalLeasedRemove(leases - {pick}, id);
      TotalLeasedRemove(leases - {id}, pick);
      assert leases - {pick} - {id} == leases - {id} - {pick};
    }
  }

  lemma TotalLeasedAdd(leases: map<nat, Span>, id: nat, s: Span)
    requires id !in leases
    ensures TotalLeased(leases[id := s]) == TotalLeased(leases) + s.n
  {
    TotalLeasedRemove(leases[id := s], id);
    assert leases[id := s] - {id} == leases;
  }

  lemma {:induction false} TotalFreeSplit(a: seq<Span>, b: seq<Span>)
    ensures TotalFree(a + b) == TotalFree(a) + TotalFree(b)
    decreases |b|
  {
    if b == [] {
      assert a + b == a;
    } else {
      var front := b[..|b| - 1];
      TotalFreeSplit(a, front);
      assert (a + b)[..|a + b| - 1] == a + front;
    }
  }

  lemma TotalFreeAt(f: seq<Span>, i: nat)
    requires i < |f|
    ensures TotalFree(f) == TotalFree(f[..i]) + f[i].n + TotalFree(f[i + 1..])
  {
    TotalFreeSplit(f[..i], f[i..]);
    assert f == f[..i] + f[i..];
    TotalFreeSplit([f[i]], f[i + 1..]);
    assert f[i..] == [f[i]] + f[i + 1..];
    assert TotalFree([f[i]]) == f[i].n;
  }

  // ---- Alloc ----

  /** Index of the first free span of at least n bytes, or |free|. */
  function FirstFit(free: seq<Span>, n: nat): (i: nat)
    ensures i <= |free|
    ensures forall j :: 0 <= j < i ==> free[j].n < n
    ensures i < |free| ==> free[i].n >= n
  {
    if free == [] then 0
    else if free[0].n >= n then 0
    else
      var k := FirstFit(free[1..], n);
      assert forall j :: 0 < j < k + 1 ==> free[j] == free[1..][j - 1];
      k + 1
  }

  /** The free list after taking n bytes from the front of span i. */
  function Take(free: seq<Span>, i: nat, n: nat): seq<Span>
    requires i < |free| && free[i].n >= n
  {
    if free[i].n == n then free[..i] + free[i + 1..]
    else free[i := Span(free[i].off + n, free[i].n - n)]
  }

  function Alloc(s: Slab, n: int): (Slab, AllocResult) {
    if n <= 0 then (s, AllocFailed(BadSize))
    else if s.closed then (s, AllocFailed(SlabClosed))
    else
      var i := FirstFit(s.free, n);
      if i == |s.free| then (s, AllocFailed(NoMemory))
      else
        var id := s.nextID + 1;
        (s.(nextID := id, free := Take(s.free, i, n), leases := s.leases[id := Span(s.free[i].off, n)]),
         Leased(id, s.free[i].off, n))
  }

  lemma TakeCover(free: seq<Span>, size: nat, i: nat, n: nat, b: int)
    requires Normal(free, size) && i < |free| && 0 < n <= free[i].n
    ensures InSpans(Take(free, i, n), b) <==> InSpans(free, b) && !(free[i].off <= b < free[i].off + n)
  {
    var t := Take(free, i, n);
    if k :| 0 <= k < |free| && Covers(free[k], b) {
      if !(free[i].off <= b < free[i].off + n) {
        if free[i].n == n && k > i {
          assert Covers(t[k - 1], b);
        } else if k != i || free[i].n != n {
          assert Covers(t[k], b);
        }
      }
    }
    if k :| 0 <= k < |t| && Covers(t[k], b) {
      if free[i].n == n && k >= i {
        assert Covers(free[k + 1], b);
      } else {
        assert Covers(free[k], b);
      }
    }
  }

  lemma TakeNormal(free: seq<Span>, size: nat, i: nat, n: nat)
    requires Normal(free, size) && i < |free| && 0 < n <= free[i].n
    ensures Normal(Take(free, i, n), size)
  {
    var t := Take(free, i, n);
    if free[i].n == n {
      assert forall a :: 0 <= a < |t| ==> t[a] == free[if a < i then a else a + 1];
    }
  }

  lemma TakeTotal(free: seq<Span>, i: nat, n: nat)
    requires i < |free| && n <= free[i].n
    ensures TotalFree(Take(free, i, n)) + n == TotalFree(free)
  {
    TotalFreeAt(free, i);
    var t := Take(free, i, n);
    if free[i].n == n {
      TotalFreeSplit(free[..i], free[i + 1..]);
    } else {
      TotalFreeAt(t, i);
      assert t[..i] == free[..i] && t[i + 1..] == free[i + 1..];
    }
  }

  lemma LeaseAdd(leases: map<nat, Span>, id: nat, s: Span, b: int)
    requires id !in leases
    ensures IsLeased(leases[id := s], b) <==> IsLeased(leases, b) || Covers(s, b)
  {
    var l := leases[id := s];
    if k :| k in leases && Covers(leases[k], b) {
      assert Covers(l[k], b);
    }
    if Covers(s, b) {
      assert Covers(l[id], b);
    }
  }

  /** A free span overlaps no lease. */
  lemma FreeApart(s: Slab, i: nat, id: nat)
    requires Valid(s) && i < |s.free| && id in s.leases
    ensures Apart(s.free[i], s.leases[id])
  {
    var f, l := s.free[i], s.leases[id];
    if !Apart(f, l) {
      var b := if f.off < l.off then l.off else f.off;
      assert Covers(f, b) && Covers(l, b);
      assert InSpans(s.free, b) && IsLeased(s.leases, b);
    }
  }

  lemma AllocPartition(s: Slab, n: int, b: int)
    requires Valid(s) && Alloc(s, n).1.Leased? && 0 <= b < s.size
    ensures var t := Alloc(s, n).0; InSpans(t.free, b) <==> !IsLeased(t.leases, b)
  {
    FreshID(s, n);
    var (t, r) := Alloc(s, n);
    var i := FirstFit(s.free, n);
    var got := Span(s.free[i].off, n);
    assert Covers(got, b) ==> Covers(s.free[i], b);
    hide Covers, LeasesOk, Normal, Take;
    assert InSpans(s.free, b) <==> !IsLeased(s.leases, b);
    TakeCover(s.free, s.size, i, n, b);
    LeaseAdd(s.leases, r.id, got, b);
    CoversIs(got, b);
  }

  lemma CoversIs(s: Span, b: int)
    ensures Covers(s, b) <==> s.off <= b < s.End()
  {
  }

  lemma AllocLeases(s: Slab, n: int)
    requires Valid(s) && Alloc(s, n).1.Leased?
    ensures var t := Alloc(s, n).0; LeasesOk(t.leases, t.size, t.nextID)
  {
    var i := FirstFit(s.free, n);
    forall id | id in s.leases
      ensures Apart(s.leases[id], Span(s.free[i].off, n))
    {
      FreeApart(s, i, id);
    }
  }

  lemma AllocKeepsValid(s: Slab, n: int)
    requires Valid(s)
    ensures Valid(Alloc(s, n).0)
  {
    var (t, r) := Alloc(s, n);
    if r.Leased? {
      var i := FirstFit(s.free, n);
      FreshID(s, n);
      TakeNormal(s.free, s.size, i, n);
      TakeTotal(s.free, i, n);
      TotalLeasedAdd(s.leases, r.id, Span(s.free[i].off, n));
      AllocLeases(s, n);
      hide Normal, LeasesOk, IsLeased, InSpans, TotalFree, TotalLeased, Take;
      forall b | 0 <= b < s.size
        ensures InSpans(t.free, b) <==> !IsLeased(t.leases, b)
      {
        AllocPartition(s, n, b);
      }
    }
  }

  lemma FreshID(s: Slab, n: int)
    requires Valid(s) && Alloc(s, n).1.Leased?
    ensures Alloc(s, n).1.id !in s.leases
  {
  }

  /** What Alloc answers is what it records, under an id nobody has; and which refusal it gives. */
  lemma AllocAnswers(s: Slab, n: int)
    requires Valid(s)
    ensures var (t, r) := Alloc(s, n);
            && (r == AllocFailed(BadSize) <==> n <= 0)
            && (r == AllocFailed(SlabClosed) <==> n > 0 && s.closed)
            && (r == AllocFailed(NoMemory) <==> n > 0 && !s.closed && forall o :: !Fits(s, n, o))
            && (r.AllocFailed? ==> t == s)
            && (r.Leased? ==>
                  && r.id !in s.leases && s.nextID < r.id == t.nextID && r.n == n > 0
                  && t.leases == s.leases[r.id := Span(r.off, n)] && t.size == s.size && t.closed == s.closed)
  {
    if n > 0 && !s.closed {
      AllocIsLowestFit(s, n);
      hide Fits;
      if Alloc(s, n).1.Leased? {
        FreshID(s, n);
      }
    }
  }

  /** Free ends exactly the lease it names, and refuses exactly when closed or when there is none. */
  lemma FreeAnswers(s: Slab, id: nat)
    ensures var (t, r) := Free(s, id);
            && (r == FreeFailed(SlabClosed) <==> s.closed)
            && (r == FreeFailed(LeaseNotFound) <==> !s.closed && id !in s.leases)
            && (r == Freed <==> !s.closed && id in s.leases)
            && t.leases == (if r.Freed? then s.leases - {id} else s.leases)
            && (r.FreeFailed? ==> t == s) && t.nextID == s.nextID && t.size == s.size && t.closed == s.closed
  {
  }

  /** n consecutive unleased bytes start at o. */
  ghost predicate Fits(s: Slab, n: nat, o: int) {
    0 <= o && o + n <= s.size && forall b :: o <= b < o + n ==> !IsLeased(s.leases, b)
  }

  /** A run of unleased bytes lies inside one free span. */
  lemma RunInsideSpan(s: Slab, n: nat, o: int) returns (i: nat)
    requires Valid(s) && n > 0 && Fits(s, n, o)
    ensures i < |s.free| && s.free[i].off <= o && o + n <= s.free[i].End()
  {
    assert InSpans(s.free, o);
    var k :| 0 <= k < |s.free| && Covers(s.free[k], o);
    i := k;
    var end := s.free[i].End();
    EndUncovered(s.free, s.size, i);
    assert end < o + n ==> !IsLeased(s.leases, end);
    assert end < o + n ==> InSpans(s.free, end);
  }

  /** Alloc succeeds exactly when n consecutive bytes are unleased, and returns the lowest such offset. */
  lemma AllocIsLowestFit(s: Slab, n: int)
    requires Valid(s) && !s.closed && n > 0
    ensures Alloc(s, n).1.Leased? <==> exists o :: Fits(s, n, o)
    ensures Alloc(s, n).1.Leased? ==>
              && Alloc(s, n).1.n == n
              && Fits(s, n, Alloc(s, n).1.off)
              && forall o :: Fits(s, n, o) ==> Alloc(s, n).1.off <= o
    ensures !Alloc(s, n).1.Leased? ==> Alloc(s, n).1 == AllocFailed(NoMemory)
  {
    var i := FirstFit(s.free, n);
    if i < |s.free| {
      var o := s.free[i].off;
      forall b | o <= b < o + n
        ensures !IsLeased(s.leases, b)
      {
        assert Covers(s.free[i], b);
        assert InSpans(s.free, b);
      }
      assert Fits(s, n, o);
    }
    forall o | Fits(s, n, o)
      ensures i < |s.free| && s.free[i].off <= o
    {
      var j := RunInsideSpan(s, n, o);
    }
  }

  // ---- Free ----

  /** Where insertFree puts a span that starts at off. */
  function Slot(free: seq<Span>, off: nat): (i: nat)
    ensures i <= |free|
    ensures forall j :: 0 <= j < i ==> free[j].off < off
    ensures i < |free| ==> free[i].off >= off
  {
    if free == [] || free[0].off >= off then 0
    else
      var k := Slot(free[1..], off);
      assert forall j :: 0 < j < k + 1 ==> free[j] == free[1..][j - 1];
      k + 1
  }

  function Insert(free: seq<Span>, r: Span): seq<Span> {
    var i := Slot(free, r.off);
    free[..i] + [r] + free[i..]
  }

  /** coalesceFree on values: merge each span into the last one kept when they touch. */
  function Merge(free: seq<Span>): seq<Span> {
    if |free| == 0 then []
    else
      Push(Merge(free[..|free| - 1]), free[|free| - 1])
  }

  function Free(s: Slab, id: nat): (Slab, FreeResult) {
    if s.closed then (s, FreeFailed(SlabClosed))
    else if id !in s.leases then (s, FreeFailed(LeaseNotFound))
    else (s.(free := Merge(Insert(s.free, s.leases[id])), leases := s.leases - {id}), Freed)
  }

  lemma InsertTotal(free: seq<Span>, r: Span)
    ensures TotalFree(Insert(free, r)) == TotalFree(free) + r.n
  {
    var i := Slot(free, r.off);
    var t := Insert(free, r);
    TotalFreeAt(t, i);
    assert t[..i] == free[..i] && t[i + 1..] == free[i..];
    TotalFreeSplit(free[..i], free[i..]);
    assert free == free[..i] + free[i..];
  }

  lemma InsertSorted(free: seq<Span>, size: nat, r: Span)
    requires Normal(free, size) && r.n > 0 && r.End() <= size
    requires forall i :: 0 <= i < |free| ==> Apart(free[i], r)
    ensures Sorted(Insert(free, r), size)
  {
    hide InSpans, Insert, Slot, Normal;
    var t := Insert(free, r);
    forall a | 0 <= a < |t|
      ensures t[a].n > 0 && t[a].End() <= size
    {
      InsertPlaces(free, size, r, a, a);
    }
    forall a, b | 0 <= a < b < |t|
      ensures t[a].End() <= t[b].off
    {
      InsertPlaces(free, size, r, a, b);
    }
  }

  /** Any two places of the insertion, in order. */
  lemma InsertPlaces(free: seq<Span>, size: nat, r: Span, a: nat, b: nat)
    requires Normal(free, size) && r.n > 0 && r.End() <= size && a <= b < |Insert(free, r)|
    requires forall i :: 0 <= i < |free| ==> Apart(free[i], r)
    ensures var t := Insert(free, r);
            t[a].n > 0 && t[a].End() <= size && (a < b ==> t[a].End() <= t[b].off)
  {
    hide Slot;
    var i := Slot(free, r.off);
    if a < i {
      assert Apart(free[a], r);
    }
    if b > i {
      assert Apart(free[b - 1], r);
      assert i < b - 1 ==> free[i].End() < free[b - 1].off;
    }
  }

  lemma InsertCover(free: seq<Span>, r: Span, b: int)
    ensures InSpans(Insert(free, r), b) <==> InSpans(free, b) || Covers(r, b)
  {
    var i := Slot(free, r.off);
    var t := Insert(free, r);
    if k :| 0 <= k < |free| && Covers(free[k], b) {
      assert Covers(t[if k < i then k else k + 1], b);
    }
    if Covers(r, b) {
      assert Covers(t[i], b);
    }
    if k :| 0 <= k < |t| && Covers(t[k], b) {
      if k != i {
        assert Covers(free[if k < i then k else k - 1], b);
      }
    }
  }

  /** Merging sorted spans gives the maximal gaps of the same bytes. */
  lemma {:induction false} MergeNormal(free: seq<Span>, size: nat)
    requires Sorted(free, size)
    ensures Normal(Merge(free), size)
    ensures if free == [] then Merge(free) == []
            else |Merge(free)| > 0 && Merge(free)[|Merge(free)| - 1].End() == free[|free| - 1].End()
    decreases |free|
  {
    if free != [] {
      hide Normal, Push;
      var front, r := free[..|free| - 1], free[|free| - 1];
      MergeNormal(front, size);
      PushNormal(Merge(front), r, size);
    }
  }

  lemma {:induction false} MergeTotal(free: seq<Span>)
    ensures TotalFree(Merge(free)) == TotalFree(free)
  {
    if free != [] {
      hide Push;
      MergeTotal(free[..|free| - 1]);
      PushTotal(Merge(free[..|free| - 1]), free[|free| - 1]);
    }
  }

  lemma {:induction false} MergeCover(free: seq<Span>, b: int)
    ensures InSpans(Merge(free), b) <==> InSpans(free, b)
    decreases |free|
  {
    hide Push;
    if free != [] {
      var front, r := free[..|free| - 1], free[|free| - 1];
      MergeCover(front, b);
      SnocCover(front, r, b);
      assert free == front + [r];
      PushCover(Merge(front), r, b);
    }
  }

  lemma SnocCover(front: seq<Span>, r: Span, b: int)
    ensures InSpans(front + [r], b) <==> InSpans(front, b) || Covers(r, b)
  {
    var free := front + [r];
    assert free[|front|] == r;
    if k :| 0 <= k < |front| && Covers(front[k], b) {
      assert Covers(free[k], b);
    }
    if k :| 0 <= k < |free| && Covers(free[k], b) {
      assert k == |front| || Covers(front[k], b);
    }
  }

  lemma LeaseDrop(s: Slab, id: nat, b: int)
    requires Valid(s) && id in s.leases
    ensures IsLeased(s.leases - {id}, b) <==> IsLeased(s.leases, b) && !Covers(s.leases[id], b)
  {
    var rest := s.leases - {id};
    if k :| k in s.leases && Covers(s.leases[k], b) {
      if !Covers(s.leases[id], b) {
        assert Covers(rest[k], b);
      }
    }
    if k :| k in rest && Covers(rest[k], b) {
      assert Covers(s.leases[k], b);
      assert Apart(s.leases[k], s.leases[id]);
    }
  }

  lemma FreeKeepsValid(s: Slab, id: nat)
    requires Valid(s)
    ensures Valid(Free(s, id).0)
  {
    var (t, r) := Free(s, id);
    if r.Freed? {
      var l := s.leases[id];
      forall i | 0 <= i < |s.free|
        ensures Apart(s.free[i], l)
      {
        FreeApart(s, i, id);
      }
      InsertSorted(s.free, s.size, l);
      InsertTotal(s.free, l);
      MergeNormal(Insert(s.free, l), s.size);
      MergeTotal(Insert(s.free, l));
      TotalLeasedRemove(s.leases, id);
      forall b | 0 <= b < s.size
        ensures InSpans(t.free, b) <==> !IsLeased(t.leases, b)
      {
        MergeCover(Insert(s.free, l), b);
        InsertCover(s.free, l, b);
        LeaseDrop(s, id, b);
        if Covers(l, b) {
          assert IsLeased(s.leases, b);
        }
      }
    }
  }

  /** Freeing what was just allocated restores leases and free list exactly. */
  lemma AllocThenFreeRestores(s: Slab, n: int)
    requires Valid(s) && Alloc(s, n).1.Leased?
    ensures var (t, r) := Alloc(s, n);
            Free(t, r.id).1.Freed? && Free(t, r.id).0 == s.(nextID := t.nextID)
  {
    hide Valid, Merge, Insert, Take;
    var (t, r) := Alloc(s, n);
    AllocKeepsValid(s, n);
    FreeKeepsValid(t, r.id);
    FreshID(s, n);
    var u := Free(t, r.id).0;
    assert u.leases == s.leases;
    FreeListForgetsHistory(u, s);
  }

  // ---- Runs ----

  datatype Call = CallAlloc(n: int) | CallFree(id: nat) | CallClose

  function Step(s: Slab, c: Call): Slab {
    match c
    case CallAlloc(n) => Alloc(s, n).0
    case CallFree(id) => Free(s, id).0
    case CallClose => s.(closed := true)
  }

  function Calls(s: Slab, cs: seq<Call>): Slab {
    if cs == [] then s else Step(Calls(s, cs[..|cs| - 1]), cs[|cs| - 1])
  }

  function NewSlab(size: nat): Slab {
    Slab(size, 0, [Span(0, size)], map[], false)
  }

  lemma NewSlabValid(size: nat)
    requires size > 0
    ensures Valid(NewSlab(size))
  {
    var s := NewSlab(size);
    forall b | 0 <= b < size
      ensures InSpans(s.free, b)
    {
      assert Covers(s.free[0], b);
    }
  }

  /** Every sequence of calls on a new slab ends in a valid state with the canonical free list. */
  lemma {:induction false} EveryRunCanonical(size: nat, cs: seq<Call>)
    requires size > 0
    ensures var s := Calls(NewSlab(size), cs);
            && s.size == size && Valid(s) && s.free == Gaps(s.leases, size)
  {
    var s := Calls(NewSlab(size), cs);
    if cs == [] {
      NewSlabValid(size);
    } else {
      var front, c := cs[..|cs| - 1], cs[|cs| - 1];
      EveryRunCanonical(size, front);
      var p := Calls(NewSlab(size), front);
      match c
      case CallAlloc(n) => AllocKeepsValid(p, n);
      case CallFree(id) => FreeKeepsValid(p, id);
      case CallClose =>
    }
    FreeListIsCanonical(s);
  }

  /** Freeing every lease, in whatever order, leaves the single span [0,size). */
  lemma {:induction false} FreeAllRestores(s: Slab, ids: seq<nat>)
    requires Valid(s) && !s.closed
    requires forall id :: id in s.leases ==> id in ids
    ensures var t := Calls(s, seq(|ids|, i requires 0 <= i < |ids| => CallFree(ids[i])));
            t.leases == map[] && t.free == [Span(0, s.size)]
  {
    var cs := seq(|ids|, i requires 0 <= i < |ids| => CallFree(ids[i]));
    var t := Calls(s, cs);
    FreesDrop(s, ids, cs);
    assert t.leases == map[];
    FreeListIsCanonical(t);
    var unused := NewSlab(s.size);
    NewSlabValid(s.size);
    FreeListIsCanonical(unused);
  }

  lemma {:induction false} FreesDrop(s: Slab, ids: seq<nat>, cs: seq<Call>)
    requires Valid(s) && !s.closed && |cs| == |ids|
    requires forall i :: 0 <= i < |ids| ==> cs[i] == CallFree(ids[i])
    ensures var t := Calls(s, cs);
            && Valid(t) && t.size == s.size && !t.closed
            && (forall id :: id in t.leases ==> id in s.leases && id !in ids)
    decreases |ids|
  {
    hide Valid, Merge, Insert;
    if ids != [] {
      var last := |ids| - 1;
      FreesDrop(s, ids[..last], cs[..last]);
      FreeKeepsValid(Calls(s, cs[..last]), ids[last]);
      assert forall id :: id in ids ==> id in ids[..last] || id == ids[last];
    }
  }
}
