/**
  Range checks in 64-bit arithmetic (internal/ipc/server.go, cmd/jaccld/transport.go).

  The checks compare sums that may wrap. They are proved to accept exactly the ranges that
  fit, and for leases of one slab an accepted asynchronous request has its source and
  destination inside the slab and identical or disjoint.
 */
module Ranges {
  import opened Bytes
  import opened SlabSpec

  const Two63: int := 0x8000_0000_0000_0000

  type Int64 = x: int | -0x8000_0000_0000_0000 <= x < 0x8000_0000_0000_0000

  const MaxInt64: Int64 := 0x7fff_ffff_ffff_ffff

  /** Two's-complement addition. */
  function Add(a: Int64, b: Int64): Int64 {
    if a + b >= Two63 then a + b - 2 * Two63
    else if a + b < -Two63 then a + b + 2 * Two63
    else a + b
  }

  /** A connection's leases, as recorded when they were granted. */
  type Leases = map<nat, Span>

  predicate Fits64(leases: Leases) {
    forall id :: id in leases ==> leases[id].End() < Two63
  }

  /** checkRange. */
  predicate CheckRange(leases: Leases, leaseID: nat, peer: int, offset: Int64, length: Int64)
    requires Fits64(leases)
  {
    && peer >= 0 && leaseID in leases && length >= 0
    && var end := Add(offset, length);
       var lease := leases[leaseID];
       !(end < offset || offset < lease.off || end > lease.End())
  }

  /** The check is exact: it accepts the ranges inside the lease and no others, however the sum wraps. */
  lemma CheckRangeExact(leases: Leases, leaseID: nat, peer: int, offset: Int64, length: Int64)
    requires Fits64(leases)
    ensures CheckRange(leases, leaseID, peer, offset, length) <==>
              peer >= 0 && leaseID in leases && length >= 0
              && leases[leaseID].off <= offset && offset + length <= leases[leaseID].End()
  {
  }

  datatype AsyncRequest = AsyncRequest(dstLease: nat, dstOff: Int64, dstLen: Int64, srcLease: nat, srcOff: Int64,
      srcLen: Int64)

  predicate SameRange(aOff: Int64, aLen: Int64, bOff: Int64, bLen: Int64) { aOff == bOff && aLen == bLen }

  predicate RangesOverlap(aOff: Int64, aLen: Int64, bOff: Int64, bLen: Int64) {
    aOff < Add(bOff, bLen) && bOff < Add(aOff, aLen)
  }

  /** checkAsyncRange. */
  predicate CheckAsyncRange(leases: Leases, q: AsyncRequest)
    requires Fits64(leases)
  {
    && !(q.dstOff < 0 || q.dstLen < 0 || q.srcOff < 0 || q.srcLen < 0)
    && !(Add(q.dstOff, q.dstLen) < q.dstOff || Add(q.srcOff, q.srcLen) < q.srcOff)
    && q.srcLen != 0
    && !(q.dstLen < q.srcLen)
    && CheckRange(leases, q.srcLease, 0, q.srcOff, q.srcLen)
    && CheckRange(leases, q.dstLease, 0, q.dstOff, q.dstLen)
    && !(q.srcLease == q.dstLease && RangesOverlap(q.srcOff, q.srcLen, q.dstOff, q.dstLen)
         && !SameRange(q.srcOff, q.srcLen, q.dstOff, q.dstLen))
  }

  predicate InsideLease(leases: Leases, id: nat, off: int, len: int) {
    id in leases && 0 <= len && leases[id].off <= off && off + len <= leases[id].End()
  }

  predicate DisjointRanges(aOff: int, aLen: int, bOff: int, bLen: int) {
    aOff + aLen <= bOff || bOff + bLen <= aOff
  }

  /**
    In plain arithmetic: accepted are exactly the requests for a positive source that the destination has
    room for, both inside their leases, and within one lease identical or disjoint.
   */
  lemma AsyncRangeExact(leases: Leases, q: AsyncRequest)
    requires Fits64(leases)
    ensures CheckAsyncRange(leases, q) <==>
              && 0 <= q.srcOff && 0 <= q.dstOff && 0 < q.srcLen <= q.dstLen
              && InsideLease(leases, q.srcLease, q.srcOff, q.srcLen)
              && InsideLease(leases, q.dstLease, q.dstOff, q.dstLen)
              && (|| q.srcLease != q.dstLease
                  || (q.srcOff == q.dstOff && q.srcLen == q.dstLen)
                  || DisjointRanges(q.srcOff, q.srcLen, q.dstOff, q.dstLen))
  {
    CheckRangeExact(leases, q.srcLease, 0, q.srcOff, q.srcLen);
    CheckRangeExact(leases, q.dstLease, 0, q.dstOff, q.dstLen);
    hide CheckRange;
  }

  /** The leases a connection holds are live leases of the slab. */
  ghost predicate Owned(s: Slab, leases: Leases) {
    Valid(s) && s.size < Two63 && forall id :: id in leases ==> id in s.leases && s.leases[id] == leases[id]
  }

  /** An accepted request has both ranges inside the slab, and they are identical or disjoint. */
  lemma AcceptedRequest(s: Slab, leases: Leases, q: AsyncRequest)
    requires Owned(s, leases) && Fits64(leases) && CheckAsyncRange(leases, q)
    ensures InsideLease(s.leases, q.srcLease, q.srcOff, q.srcLen)
    ensures InsideLease(s.leases, q.dstLease, q.dstOff, q.dstLen)
    ensures 0 <= q.srcOff && q.srcOff + q.srcLen <= s.size && 0 <= q.dstOff && q.dstOff + q.dstLen <= s.size
    ensures SameRange(q.srcOff, q.srcLen, q.dstOff, q.dstLen) || DisjointRanges(q.srcOff, q.srcLen, q.dstOff, q.dstLen)
  {
    CheckRangeExact(leases, q.srcLease, 0, q.srcOff, q.srcLen);
    CheckRangeExact(leases, q.dstLease, 0, q.dstOff, q.dstLen);
    if q.srcLease != q.dstLease {
      assert Apart(s.leases[q.srcLease], s.leases[q.dstLease]);
    }
  }

  lemma OwnedFits(s: Slab, leases: Leases)
    requires Owned(s, leases)
    ensures Fits64(leases)
  {
  }

  // ---- Transport side ----

  /** rangeInMR over a registered region of the given length. */
  predicate RangeInMR(region: nat, offset: Int64, length: Int64) {
    && !(offset < 0 || length < 0)
    && var end := Add(offset, length);
       !(end < offset || end > region)
  }

  lemma RangeInMRExact(region: nat, offset: Int64, length: Int64)
    requires region < Two63
    ensures RangeInMR(region, offset, length) <==> 0 <= offset && 0 <= length && offset + length <= region
  {
  }

  lemma MulMonotone(a: nat, b: nat, c: nat)
    requires a <= b
    ensures a * c <= b * c
  {
  }

  /** The source's overflow guard: srcLength > maxInt64/size is refused. */
  predicate ProductGuard(len: nat, size: nat)
    requires size > 0
  {
    len <= MaxInt64 / size
  }

  /** The guard is exact: it refuses precisely the products that do not fit 64 bits. */
  lemma ProductGuardExact(len: nat, size: nat)
    requires size > 0
    ensures ProductGuard(len, size) <==> Off(size, len) < 0x8000_0000_0000_0000
  {
    OffIsProduct(size, len);
    DivisionBounds(MaxInt64, size);
    hide Off;
    var q := MaxInt64 / size;
    if len <= q {
      MulMonotone(len, q, size);
    } else {
      MulMonotone(q + 1, len, size);
    }
  }

  lemma DivisionBounds(x: nat, d: nat)
    requires d > 0
    ensures (x / d) * d <= x < (x / d + 1) * d
  {
  }

  /** The checks of runMeshGather on size ranks. */
  predicate GatherChecks(region: nat, size: int, elemSize: int, q: AsyncRequest) {
    && elemSize > 0 && q.srcLen >= 0 && q.srcLen % elemSize == 0
    && size > 0 && ProductGuard(q.srcLen, size)
    && q.dstLen >= Off(size, q.srcLen)
    && RangeInMR(region, q.dstOff, q.dstLen) && RangeInMR(region, q.srcOff, q.srcLen)
  }

  /** In plain arithmetic: whole elements, room for one block per rank, and both ranges inside the region. */
  lemma GatherChecksExact(region: nat, size: int, elemSize: int, q: AsyncRequest)
    requires region < Two63
    ensures GatherChecks(region, size, elemSize, q) <==>
              && elemSize > 0 && size > 0 && q.srcLen >= 0 && q.srcLen % elemSize == 0
              && size * q.srcLen <= q.dstLen
              && 0 <= q.dstOff && q.dstOff + q.dstLen <= region && 0 <= q.srcOff && q.srcOff + q.srcLen <= region
  {
    RangeInMRExact(region, q.dstOff, q.dstLen);
    RangeInMRExact(region, q.srcOff, q.srcLen);
    if size > 0 && q.srcLen >= 0 {
      ProductGuardExact(q.srcLen, size);
      OffIsProduct(size, q.srcLen);
    }
    hide RangeInMR, ProductGuard, Off;
  }

  lemma GatherParts(s: Slab, leases: Leases, q: AsyncRequest, size: nat, elemSize: int)
    requires Owned(s, leases) && Fits64(leases) && CheckAsyncRange(leases, q) && GatherChecks(s.size, size, elemSize, q)
    ensures s.size < Two63 == 0x8000_0000_0000_0000 && 0 < q.srcLen && q.dstLen >= Off(size, q.srcLen)
    ensures SameRange(q.srcOff, q.srcLen, q.dstOff, q.dstLen) ==> q.srcLen == q.dstLen
    ensures DisjointRanges(q.srcOff, q.srcLen, q.dstOff, q.dstLen) <==>
              q.srcOff + q.srcLen <= q.dstOff || q.dstOff + q.dstLen <= q.srcOff
  {
    hide Off, Valid, ProductGuard, CheckRange;
  }

  /**
    A gather request that passes both checks with more than one rank has its source apart from
    its whole destination, and each chunk's receive window lies inside its peer's block and
    passes rangeInMR: no 64-bit sum on the way wraps.
   */
  lemma GatherWindowsFit(s: Slab, leases: Leases, q: AsyncRequest, size: nat, elemSize: int, peer: nat, off: nat,
                         chunk: nat)
    requires Owned(s, leases) && Fits64(leases) && CheckAsyncRange(leases, q)
    requires size > 1 && GatherChecks(s.size, size, elemSize, q)
    requires peer < size && off + chunk <= q.srcLen
    ensures DisjointRanges(q.srcOff, q.srcLen, q.dstOff, q.dstLen)
    ensures Off(peer, q.srcLen) + off + chunk <= Off(peer, q.srcLen) + q.srcLen <= q.dstLen
    ensures q.dstOff + q.dstLen <= s.size < Two63
    ensures RangeInMR(s.size, q.dstOff + Off(peer, q.srcLen) + off, chunk)
  {
    hide *;
    GatherParts(s, leases, q, size, elemSize);
    AcceptedRequest(s, leases, q);
    OffBounds(peer, size, q.srcLen);
    OffBounds(0, size - 1, q.srcLen);
    OffBounds(size - 1, size, q.srcLen);
    OffIsProduct(0, q.srcLen);
    RangeInMRExact(s.size, q.dstOff + Off(peer, q.srcLen) + off, chunk);
  }
}
