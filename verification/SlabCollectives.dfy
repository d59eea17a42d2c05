/**
  One daemon rank's all-reduce over slab offsets (cmd/jaccld/transport.go): lease scratch, copy the
  source, exchange into the scratch, fold it into the destination and free the lease, on every path.
  What the exchange brings is an outcome here; CollectiveRuns ties it to the other ranks.
 */
module SlabCollectives {
  import opened Bytes
  import opened Options
  import opened SlabSpec
  import opened SlabAllocator
  import opened Ranges
  import opened Reduce
  import opened ReduceMeaning

  /** What the exchange into the scratch lease came to: every peer's buffer, or an error that left anything there. */
  datatype Exchange = Arrived(peers: seq<seq<byte>>) | Failed(debris: seq<byte>)

  function ReductionOp(op: int): Option<Op> {
    if op == 0 then Some(Sum) else if op == 1 then Some(Max) else if op == 2 then Some(Min) else None
  }

  /** The wire numbers: 0 is the sum, 1 the maximum, 2 the minimum, and there are no others. */
  lemma OperationNumbers(op: int)
    ensures ReductionOp(op).Some? <==> op in {0, 1, 2}
    ensures ReductionOp(op).Some? ==> Wire(op, ReductionOp(op).value)
  {
  }

  /** The ranks' buffers as this rank sees them: its own source in its own slot. */
  function Buffers(peers: seq<seq<byte>>, rank: nat, src: seq<byte>): seq<seq<byte>>
    requires rank < |peers|
  {
    peers[rank := src]
  }

  ghost predicate ExchangeOk(x: Exchange, size: nat, len: nat) {
    match x
    case Arrived(peers) => |peers| == size && AllOfLength(peers, len)
    case Failed(debris) => |debris| == Off(size, len)
  }

  /** A request as the server admits it: both ranges in live leases, identical or disjoint. */
  ghost predicate Admitted(leases: map<nat, Span>, q: AsyncRequest) {
    && InsideLease(leases, q.srcLease, q.srcOff, q.srcLen) && InsideLease(leases, q.dstLease, q.dstOff, q.dstLen)
    && 0 <= q.srcOff && 0 <= q.dstOff
    && (SameRange(q.srcOff, q.srcLen, q.dstOff, q.dstLen) || DisjointRanges(q.srcOff, q.srcLen, q.dstOff, q.dstLen))
  }

  /** Bytes that belong to a live lease and not to the destination keep their value. */
  ghost predicate LeasedBytesKept(leases: map<nat, Span>, before: seq<byte>, after: seq<byte>, dst: int, len: int) {
    && |after| == |before|
    && forall b :: 0 <= b < |before| && IsLeased(leases, b) && !(dst <= b < dst + len) ==> after[b] == before[b]
  }

  lemma InLeaseIsLeased(leases: map<nat, Span>, id: nat, off: int, len: int, b: int)
    requires InsideLease(leases, id, off, len) && off <= b < off + len
    ensures IsLeased(leases, b)
  {
    assert Covers(leases[id], b);
  }

  /** A fresh lease covers no byte of an older one. */
  lemma ScratchApart(s: Slab, n: int, b: int)
    requires Valid(s) && Alloc(s, n).1.Leased? && Alloc(s, n).1.off <= b < Alloc(s, n).1.off + n
    ensures !IsLeased(s.leases, b) && 0 <= b < s.size
  {
    AllocIsLowestFit(s, n);
  }

  predicate WholeElements(dt: DType, len: nat) { len % Size(dt) == 0 && Supported(dt) }

  /** When runMeshReduce returns nil. */
  ghost predicate ReduceSucceeds(s: Slab, size: nat, op: int, dt: DType, len: nat, room: int, cancelled: bool,
                                 x: Exchange) {
    && !cancelled
    && (len == 0 ||
        (&& len <= room && size > 0 && ProductGuard(len, size) && Alloc(s, Off(size, len)).1.Leased?
         && (size == 1 || (x.Arrived? && Foldable(op, dt, len)))))
  }

  /** The exchange: bytes outside the scratch [base, base + Off(size, len)) are untouched. */
  method RunExchange(mem: array<byte>, base: nat, len: nat, rank: nat, size: nat, x: Exchange)
    requires base + Off(size, len) <= mem.Length && ExchangeOk(x, size, len) && rank < size
    modifies mem
    ensures SameOutside(old(mem[..]), mem[..], base, Off(size, len))
    ensures x.Arrived? ==> ScratchHolds(mem[..], base, len, rank, x.peers)
  {
    hide Off, Splice, SameOutside, ScratchUpTo;
    match x {
      case Failed(debris) =>
        SameAsItself(mem[..], base, Off(size, len));
        SpliceOutside(mem[..], mem[..], base, debris);
        Store(mem, base, debris);
      case Arrived(peers) =>
        FillScratch(mem, base, len, rank, peers);
    }
  }

  method FillScratch(mem: array<byte>, base: nat, len: nat, rank: nat, peers: seq<seq<byte>>)
    requires base + Off(|peers|, len) <= mem.Length && AllOfLength(peers, len)
    modifies mem
    ensures SameOutside(old(mem[..]), mem[..], base, Off(|peers|, len))
    ensures ScratchUpTo(mem[..], base, len, rank, peers, |peers|)
  {
    ghost var was := mem[..];
    ScratchNone(was, base, len, rank, peers);
    hide *;
    for p := 0 to |peers|
      invariant SameOutside(was, mem[..], base, Off(|peers|, len)) && ScratchUpTo(mem[..], base, len, rank, peers, p)
    {
      ScratchStep(was, mem[..], base, len, rank, peers, p);
      if p != rank {
        Store(mem, base + Off(p, len), peers[p]);
      }
    }
  }

  lemma ScratchNone(mem: seq<byte>, base: nat, len: nat, rank: nat, peers: seq<seq<byte>>)
    requires base + Off(|peers|, len) <= |mem|
    ensures ScratchUpTo(mem, base, len, rank, peers, 0) && SameOutside(mem, mem, base, Off(|peers|, len))
  {
  }

  /** Blocks 0..k of the scratch, other than the rank's own, hold the peers' buffers. */
  ghost predicate ScratchUpTo(mem: seq<byte>, base: nat, len: nat, rank: nat, peers: seq<seq<byte>>, k: nat) {
    && base + Off(|peers|, len) <= |mem| && k <= |peers|
    && forall p: nat :: p < k && p != rank ==>
         base + Off(p, len) + len <= |mem| && mem[base + Off(p, len)..base + Off(p, len) + len] == peers[p]
  }

  ghost predicate ScratchHolds(mem: seq<byte>, base: nat, len: nat, rank: nat, peers: seq<seq<byte>>) {
    ScratchUpTo(mem, base, len, rank, peers, |peers|)
  }

  /** What the next block does: nothing for the rank's own, and otherwise the peer's buffer stored there. */
  lemma ScratchStep(was: seq<byte>, mem: seq<byte>, base: nat, len: nat, rank: nat, peers: seq<seq<byte>>, k: nat)
    requires ScratchUpTo(mem, base, len, rank, peers, k) && k < |peers| && AllOfLength(peers, len)
    requires SameOutside(was, mem, base, Off(|peers|, len))
    ensures base + Off(k, len) + len <= |mem| && |peers[k]| == len
    ensures k == rank ==> ScratchUpTo(mem, base, len, rank, peers, k + 1)
    ensures var now := Splice(mem, base + Off(k, len), peers[k]);
            ScratchUpTo(now, base, len, rank, peers, k + 1) && SameOutside(was, now, base, Off(|peers|, len))
  {
    hide Off, Splice;
    OffBounds(k, |peers|, len);
    var now := Splice(mem, base + Off(k, len), peers[k]);
    forall p: nat | p < k + 1 && p != rank
      ensures base + Off(p, len) + len <= |now| && now[base + Off(p, len)..base + Off(p, len) + len] == peers[p]
    {
      if p < k {
        OffBounds(p, k, len);
        SpliceElsewhere(mem, base + Off(k, len), peers[k], base + Off(p, len), base + Off(p, len) + len);
      }
    }
    SpliceWithin(was, mem, base + Off(k, len), peers[k], base, Off(|peers|, len));
  }

  /** Splicing inside a range that may differ leaves everything outside it alone. */
  lemma SpliceWithin(was: seq<byte>, mem: seq<byte>, at: nat, data: seq<byte>, base: nat, n: nat)
    requires base <= at && at + |data| <= base + n <= |mem| && SameOutside(was, mem, base, n)
    ensures SameOutside(was, Splice(mem, at, data), base, n)
  {
  }

  /** Writing a range apart from the scratch keeps it. */
  lemma ScratchStays(mem: seq<byte>, base: nat, len: nat, rank: nat, peers: seq<seq<byte>>, at: nat, data: seq<byte>)
    requires ScratchHolds(mem, base, len, rank, peers) && at + |data| <= |mem|
    requires at + |data| <= base || base + Off(|peers|, len) <= at
    ensures ScratchHolds(Splice(mem, at, data), base, len, rank, peers)
  {
    hide Off, Splice;
    var now := Splice(mem, at, data);
    forall p: nat | p < |peers| && p != rank
      ensures base + Off(p, len) + len <= |now| && now[base + Off(p, len)..base + Off(p, len) + len] == peers[p]
    {
      OffBounds(p, |peers|, len);
      SpliceElsewhere(mem, at, data, base + Off(p, len), base + Off(p, len) + len);
    }
  }

  /** Equal outside [at, at+len). */
  ghost predicate SameOutside(a: seq<byte>, b: seq<byte>, at: int, len: int) {
    |a| == |b| && forall i :: 0 <= i < |a| && !(at <= i < at + len) ==> a[i] == b[i]
  }

  /** Equal outside both ranges. */
  ghost predicate SameOutsideBoth(a: seq<byte>, b: seq<byte>, at: int, len: int, base: int, n: int) {
    |a| == |b| && forall i :: 0 <= i < |a| && !(at <= i < at + len) && !(base <= i < base + n) ==> a[i] == b[i]
  }

  /** An operation and a length that every fold step accepts. */
  predicate Foldable(op: int, dt: DType, len: nat) { ReductionOp(op).Some? && WholeElements(dt, len) }

  /** applyDaemonReduction on the destination window. */
  method FoldOne(op: int, dt: DType, mem: array<byte>, dst: nat, len: nat, value: seq<byte>) returns (ok: bool)
    requires dst + len <= mem.Length && |value| == len
    modifies mem
    ensures ok <==> Foldable(op, dt, len)
    ensures !ok ==> mem[..] == old(mem[..])
    ensures ok ==> len == Off(len / Size(dt), Size(dt))
                   && mem[..] == Splice(old(mem[..]), dst,
                                        Kernel(ReductionOp(op).value, dt, len / Size(dt),
                                               old(mem[..])[dst..dst + len], value))
  {
    hide Off, Splice, Kernel, Size;
    if ReductionOp(op).None? { return false; }
    var err := Reduce.Apply(ReductionOp(op).value, dt, mem, dst, len, value);
    return err == None;
  }

  /** The destination window after folding peers 0..k. */
  ghost predicate FoldedUpTo(op: int, dt: DType, mem: seq<byte>, dst: nat, len: nat, inputs: seq<seq<byte>>, rank: nat,
                             k: nat) {
    && Foldable(op, dt, len) && dst + len <= |mem| && rank < |inputs| && k <= |inputs|
    && len == Off(len / Size(dt), Size(dt)) && AllOfLength(inputs, len)
    && mem[dst..dst + len] == FoldSkipping(ReductionOp(op).value, dt, inputs, len / Size(dt), inputs[rank], rank, k)
  }

  lemma FoldedStep(op: int, dt: DType, mem: seq<byte>, dst: nat, len: nat, inputs: seq<seq<byte>>, rank: nat, k: nat)
    requires FoldedUpTo(op, dt, mem, dst, len, inputs, rank, k) && k < |inputs|
    ensures k == rank ==> FoldedUpTo(op, dt, mem, dst, len, inputs, rank, k + 1)
    ensures k != rank ==>
              FoldedUpTo(op, dt, Splice(mem, dst, Kernel(ReductionOp(op).value, dt, len / Size(dt), mem[dst..dst + len],
                inputs[k])),
                         dst, len, inputs, rank, k + 1)
  {
    hide Off, Splice, Kernel, Size;
  }

  lemma SpliceOutside(a: seq<byte>, mem: seq<byte>, at: nat, data: seq<byte>)
    requires at + |data| <= |mem| && SameOutside(a, mem, at, |data|)
    ensures SameOutside(a, Splice(mem, at, data), at, |data|)
  {
  }

  /** Fold one peer's scratch block into the destination window. */
  method FoldPeer(op: int, dt: DType, mem: array<byte>, dst: nat, len: nat, base: nat, rank: nat, peer: nat,
                  ghost peers: seq<seq<byte>>, ghost inputs: seq<seq<byte>>, ghost was: seq<byte>)
    returns (ok: bool)
    requires dst + len <= mem.Length && peer < |peers| && peer != rank
    requires peer < |inputs| && inputs[peer] == peers[peer] && |peers[peer]| == len
    requires dst + len <= base || base + Off(|peers|, len) <= dst
    requires ScratchHolds(mem[..], base, len, rank, peers) && SameOutside(was, mem[..], dst, len)
    requires Foldable(op, dt, len) ==> FoldedUpTo(op, dt, mem[..], dst, len, inputs, rank, peer)
    modifies mem
    ensures ok <==> Foldable(op, dt, len)
    ensures SameOutside(was, mem[..], dst, len)
    ensures ok ==> ScratchHolds(mem[..], base, len, rank, peers)
    ensures ok ==> FoldedUpTo(op, dt, mem[..], dst, len, inputs, rank, peer + 1)
  {
    hide *;
    PeerFolds(op, dt, mem[..], dst, len, base, rank, peer, peers, inputs, was);
    var from := base + Off(peer, len);
    ok := FoldOne(op, dt, mem, dst, len, mem[..][from..from + len]);
  }

  lemma PeerFolds(op: int, dt: DType, now: seq<byte>, dst: nat, len: nat, base: nat, rank: nat, peer: nat,
                  peers: seq<seq<byte>>, inputs: seq<seq<byte>>, was: seq<byte>)
    requires dst + len <= |now| && peer < |peers| && peer != rank
    requires peer < |inputs| && inputs[peer] == peers[peer] && |peers[peer]| == len
    requires dst + len <= base || base + Off(|peers|, len) <= dst
    requires ScratchHolds(now, base, len, rank, peers) && SameOutside(was, now, dst, len)
    requires Foldable(op, dt, len) ==> FoldedUpTo(op, dt, now, dst, len, inputs, rank, peer)
    ensures base + Off(peer, len) + len <= |now|
    ensures now[base + Off(peer, len)..base + Off(peer, len) + len] == peers[peer]
    ensures Foldable(op, dt, len) ==> ReductionOp(op).Some? && len == Off(len / Size(dt), Size(dt))
    ensures Foldable(op, dt, len) ==>
              var folded := Splice(now, dst, Kernel(ReductionOp(op).value, dt, len / Size(dt), now[dst..dst + len],
                  peers[peer]));
              && ScratchHolds(folded, base, len, rank, peers) && SameOutside(was, folded, dst, len)
              && FoldedUpTo(op, dt, folded, dst, len, inputs, rank, peer + 1)
  {
    hide Off, Splice, Kernel, Size, ScratchHolds, SameOutside;
    ScratchAt(now, base, len, rank, peers, peer);
    if Foldable(op, dt, len) {
      FoldedStep(op, dt, now, dst, len, inputs, rank, peer);
      var folded := Kernel(ReductionOp(op).value, dt, len / Size(dt), now[dst..dst + len], peers[peer]);
      ScratchStays(now, base, len, rank, peers, dst, folded);
      SpliceOutside(was, now, dst, folded);
    }
  }

  /** The fold over the scratch blocks into the destination window. */
  method FoldScratch(op: int, dt: DType, mem: array<byte>, dst: nat, len: nat, base: nat, rank: nat, size: nat,
                     ghost peers: seq<seq<byte>>)
    returns (ok: bool)
    requires rank < size == |peers| && AllOfLength(peers, len) && dst + len <= mem.Length
    requires ScratchHolds(mem[..], base, len, rank, peers)
    requires dst + len <= base || base + Off(size, len) <= dst
    modifies mem
    ensures ok <==> size == 1 || Foldable(op, dt, len)
    ensures SameOutside(old(mem[..]), mem[..], dst, len)
    ensures Foldable(op, dt, len) ==>
              FoldedUpTo(op, dt, mem[..], dst, len, Buffers(peers, rank, old(mem[..])[dst..dst + len]), rank, size)
  {
    hide *;
    ghost var was := mem[..];
    ghost var inputs := Buffers(peers, rank, was[dst..dst + len]);
    FoldStarts(op, dt, was, dst, len, peers, rank);
    SameAsItself(was, dst, len);
    for peer := 0 to size
      invariant SameOutside(was, mem[..], dst, len)
      invariant ScratchHolds(mem[..], base, len, rank, peers)
      invariant Foldable(op, dt, len) ==> FoldedUpTo(op, dt, mem[..], dst, len, inputs, rank, peer)
      invariant !Foldable(op, dt, len) ==> peer <= 1 && (peer == 1 ==> rank == 0)
    {
      if peer != rank {
        ok := FoldPeer(op, dt, mem, dst, len, base, rank, peer, peers, inputs, was);
        if !ok { return; }
      } else if Foldable(op, dt, len) {
        FoldedStep(op, dt, mem[..], dst, len, inputs, rank, peer);
      }
    }
    return true;
  }

  lemma FoldStarts(op: int, dt: DType, was: seq<byte>, dst: nat, len: nat, peers: seq<seq<byte>>, rank: nat)
    requires rank < |peers| && AllOfLength(peers, len) && dst + len <= |was|
    ensures var inputs := Buffers(peers, rank, was[dst..dst + len]);
            && |inputs| == |peers| && (forall p :: 0 <= p < |peers| ==> |peers[p]| == len)
            && (forall p :: 0 <= p < |peers| && p != rank ==> inputs[p] == peers[p])
            && (Foldable(op, dt, len) ==> FoldedUpTo(op, dt, was, dst, len, inputs, rank, 0))
  {
    if WholeElements(dt, len) {
      WholeCount(len, Size(dt));
    }
  }

  lemma SameAsItself(a: seq<byte>, at: int, len: int)
    ensures SameOutside(a, a, at, len)
  {
  }

  lemma ScratchAt(mem: seq<byte>, base: nat, len: nat, rank: nat, peers: seq<seq<byte>>, p: nat)
    requires ScratchHolds(mem, base, len, rank, peers) && p < |peers| && p != rank
    ensures base + Off(p, len) + len <= |mem| && mem[base + Off(p, len)..base + Off(p, len) + len] == peers[p]
  {
  }

  /** Everything runMeshReduce does while it holds its scratch lease at base. */
  method ReduceInScratch(mem: array<byte>, size: nat, rank: nat, op: int, dt: DType, dst: nat, src: nat, len: nat,
                         base: nat, x: Exchange)
    returns (ok: bool)
    requires rank < size && ExchangeOk(x, size, len) && dst + len <= mem.Length && src + len <= mem.Length
    requires base + Off(size, len) <= mem.Length && DisjointRanges(base, Off(size, len), dst, len)
    modifies mem
    ensures ok <==> size == 1 || (x.Arrived? && Foldable(op, dt, len))
    ensures SameOutsideBoth(old(mem[..]), mem[..], dst, len, base, Off(size, len))
    ensures size == 1 ==> mem[..][dst..dst + len] == old(mem[..])[src..src + len]
    ensures ok && size > 1 ==>
              FoldedUpTo(op, dt, mem[..], dst, len, Buffers(x.peers, rank, old(mem[..])[src..src + len]), rank, size)
  {
    hide Off, Splice, Size, FoldedUpTo, Foldable;
    ghost var m0 := mem[..];
    ghost var data := m0[src..src + len];
    Store(mem, dst, mem[..][src..src + len]);
    if size == 1 { return true; }
    RunExchange(mem, base, len, rank, size, x);
    DestinationKept(m0, mem[..], dst, data, base, Off(size, len));
    if x.Failed? { return false; }
    ok := FoldScratch(op, dt, mem, dst, len, base, rank, size, x.peers);
  }

  /**
    runMeshReduce, in place or not: succeeds exactly when ReduceSucceeds says, ends with the
    destination equal to the fold of all ranks' sources, which is their sum, maximum or minimum as
    the operation's number says, changes no byte of any live lease outside the destination, and
    restores leases and free list exactly on every path.
   */
  method MeshReduce(slab: Allocator, mem: array<byte>, size: nat, rank: nat, op: int, dt: DType, q: AsyncRequest,
                    cancelled: bool, x: Exchange)
    returns (ok: bool)
    requires slab.Ok() && mem.Length == slab.size < Two63 && rank < size
    requires Admitted(slab.leases, q) && ExchangeOk(x, size, q.srcLen)
    modifies slab, slab.free, mem
    ensures slab.Ok() && slab.leases == old(slab.leases) && slab.View().free == old(slab.View().free)
    ensures ok <==> ReduceSucceeds(old(slab.View()), size, op, dt, q.srcLen, q.dstLen, cancelled, x)
    ensures LeasedBytesKept(old(slab.leases), old(mem[..]), mem[..], q.dstOff, q.srcLen)
    ensures ok && q.srcLen > 0 ==> ReducedInto(op, dt, old(mem[..]), mem[..], q, size, rank, ok, x)
    ensures ok && q.srcLen > 0 && size > 1 ==> ReducedAs(op, dt, old(mem[..]), mem[..], q, rank, x)
  {
    NothingChanged(slab.leases, mem[..], q);
    ghost var m0 := mem[..];
    hide Valid, SlabSpec.Alloc, FoldedUpTo, ProductGuard, LeasedBytesKept, Admitted, Foldable, ExchangeOk, ReducedInto,
         ReducedAs;
    if cancelled { return false; }
    if q.srcLen == 0 { return true; }
    if q.dstLen < q.srcLen { return false; }
    if !ProductGuard(q.srcLen, size) { return false; }
    ok := LeaseAndReduce(slab, mem, size, rank, op, dt, q, x);
    if ok && size > 1 {
      ReducedMeans(op, dt, m0, mem[..], q, size, rank, x);
    }
  }

  /** The part of runMeshReduce after its checks: lease scratch, reduce, free the lease. */
  method LeaseAndReduce(slab: Allocator, mem: array<byte>, size: nat, rank: nat, op: int, dt: DType, q: AsyncRequest,
                        x: Exchange)
    returns (ok: bool)
    requires slab.Ok() && mem.Length == slab.size && rank < size && 0 < q.srcLen <= q.dstLen
    requires Admitted(slab.leases, q) && ExchangeOk(x, size, q.srcLen)
    modifies slab, slab.free, mem
    ensures slab.Ok() && Restores(old(slab.View()), slab.View())
    ensures ok <==> SlabSpec.Alloc(old(slab.View()), Off(size, q.srcLen)).1.Leased?
                    && (size == 1 || (x.Arrived? && Foldable(op, dt, q.srcLen)))
    ensures LeasedBytesKept(old(slab.leases), old(mem[..]), mem[..], q.dstOff, q.srcLen)
    ensures ok ==> ReducedInto(op, dt, old(mem[..]), mem[..], q, size, rank, ok, x)
  {
    ghost var before := slab.View();
    var need := Off(size, q.srcLen);
    LeaseRestores(before, need);
    NothingChanged(slab.leases, mem[..], q);
    hide Valid, SlabSpec.Alloc, SlabSpec.Free, Off, FoldedUpTo, LeasedBytesKept, Admitted, Foldable, ExchangeOk,
         ReducedInto, Restores;
    var lease := slab.Alloc(need);
    if lease.AllocFailed? { return false; }
    ok := WithScratch(before, mem, size, rank, op, dt, q, need, lease, x);
    var freed := slab.Free(lease.id);
  }

  /** Everything runMeshReduce does with memory under a lease that Alloc(before, need) granted. */
  method WithScratch(ghost before: Slab, mem: array<byte>, size: nat, rank: nat, op: int, dt: DType, q: AsyncRequest,
                     need: nat, lease: AllocResult, x: Exchange)
    returns (ok: bool)
    requires Valid(before) && mem.Length == before.size && rank < size && 0 < q.srcLen <= q.dstLen
    requires Admitted(before.leases, q) && ExchangeOk(x, size, q.srcLen) && need == Off(size, q.srcLen)
    requires lease.Leased? && lease == SlabSpec.Alloc(before, need).1
    modifies mem
    ensures ok <==> size == 1 || (x.Arrived? && Foldable(op, dt, q.srcLen))
    ensures LeasedBytesKept(before.leases, old(mem[..]), mem[..], q.dstOff, q.srcLen)
    ensures ReducedInto(op, dt, old(mem[..]), mem[..], q, size, rank, ok, x)
  {
    hide *;
    ScratchFacts(before, need, q);
    ghost var m0 := mem[..];
    ok := ReduceInScratch(mem, size, rank, op, dt, q.dstOff, q.srcOff, q.srcLen, lease.off, x);
    KeptFromFrames(before, need, m0, mem[..], q.dstOff, q.srcLen);
    ScratchReduced(op, dt, m0, mem[..], q, size, rank, ok, x);
  }

  /**
    The destination of a successful reduce: the source alone on one rank, the fold of every rank's
    source otherwise.
   */
  ghost predicate ReducedInto(op: int, dt: DType, before: seq<byte>, after: seq<byte>, q: AsyncRequest, size: nat,
                              rank: nat, ok: bool, x: Exchange) {
    && |after| == |before| && 0 <= q.srcOff && 0 <= q.dstOff && 0 <= q.srcLen
    && q.srcOff + q.srcLen <= |before| && q.dstOff + q.srcLen <= |after|
    && (ok && size == 1 ==> after[q.dstOff..q.dstOff + q.srcLen] == before[q.srcOff..q.srcOff + q.srcLen])
    && (ok && size > 1 ==>
          && x.Arrived? && rank < |x.peers|
          && FoldedUpTo(op, dt, after, q.dstOff, q.srcLen, Buffers(x.peers, rank,
               before[q.srcOff..q.srcOff + q.srcLen]), rank, size))
  }

  /** The destination is the ranks' sources reduced as the operation's number says, element by element. */
  ghost predicate ReducedAs(op: int, dt: DType, before: seq<byte>, after: seq<byte>, q: AsyncRequest, rank: nat,
                            x: Exchange) {
    && 0 <= q.srcOff && 0 <= q.dstOff && 0 <= q.srcLen
    && q.srcOff + q.srcLen <= |before| && q.dstOff + q.srcLen <= |after|
    && x.Arrived? && rank < |x.peers|
    && IsReduction(op, dt, Buffers(x.peers, rank, before[q.srcOff..q.srcOff + q.srcLen]), q.srcLen / Size(dt),
                   after[q.dstOff..q.dstOff + q.srcLen])
  }

  lemma ReducedMeans(op: int, dt: DType, before: seq<byte>, after: seq<byte>, q: AsyncRequest, size: nat, rank: nat,
                     x: Exchange)
    requires size > 1 && rank < size && 0 <= q.srcLen && ExchangeOk(x, size, q.srcLen)
    requires ReducedInto(op, dt, before, after, q, size, rank, true, x)
    ensures ReducedAs(op, dt, before, after, q, rank, x)
  {
    hide Size, Off, IsReduction, FoldSkipping;
    var inputs := Buffers(x.peers, rank, before[q.srcOff..q.srcOff + q.srcLen]);
    DaemonRanksAgree(op, dt, after, q.dstOff, q.srcLen, inputs, rank);
    OperationNumbers(op);
    ReferenceMeans(op, ReductionOp(op).value, dt, inputs, q.srcLen / Size(dt));
  }

  lemma ScratchReduced(op: int, dt: DType, before: seq<byte>, after: seq<byte>, q: AsyncRequest, size: nat, rank: nat,
                       ok: bool, x: Exchange)
    requires |after| == |before| && 0 <= q.srcOff && 0 <= q.dstOff && 0 <= q.srcLen
    requires q.srcOff + q.srcLen <= |before| && q.dstOff + q.srcLen <= |after|
    requires ExchangeOk(x, size, q.srcLen) && rank < size && (ok ==> size == 1 || x.Arrived?)
    requires size == 1 ==> after[q.dstOff..q.dstOff + q.srcLen] == before[q.srcOff..q.srcOff + q.srcLen]
    requires ok && size > 1 ==>
               FoldedUpTo(op, dt, after, q.dstOff, q.srcLen, Buffers(x.peers, rank,
                 before[q.srcOff..q.srcOff + q.srcLen]), rank, size)
    ensures ReducedInto(op, dt, before, after, q, size, rank, ok, x)
  {
    hide FoldedUpTo, Buffers, Off;
  }

  /** An allocation that fails, or is freed again, leaves leases and free list as they were. */
  lemma LeaseRestores(s: Slab, need: nat)
    requires Valid(s)
    ensures var a := SlabSpec.Alloc(s, need);
            if a.1.AllocFailed? then Restores(s, a.0) else Restores(s, SlabSpec.Free(a.0, a.1.id).0)
  {
    if SlabSpec.Alloc(s, need).1.Leased? {
      AllocThenFreeRestores(s, need);
    }
  }

  /** The same leases and the same free list. */
  ghost predicate Restores(s: Slab, t: Slab) { t.leases == s.leases && t.free == s.free }

  lemma NothingChanged(leases: map<nat, Span>, m: seq<byte>, q: AsyncRequest)
    ensures LeasedBytesKept(leases, m, m, q.dstOff, q.srcLen)
  {
  }

  /** Every rank's destination is the one reference reduction. */
  lemma DaemonRanksAgree(op: int, dt: DType, mem: seq<byte>, dst: nat, len: nat, inputs: seq<seq<byte>>, rank: nat)
    requires FoldedUpTo(op, dt, mem, dst, len, inputs, rank, |inputs|)
    ensures mem[dst..dst + len] == Reference(ReductionOp(op).value, dt, inputs, len / Size(dt), |inputs|)
  {
    hide Off, Kernel, Size;
    AllRanksAgree(ReductionOp(op).value, dt, inputs, len / Size(dt), rank);
  }

  /** The scratch lease lies inside the slab, apart from source and destination. */
  lemma ScratchFacts(s: Slab, need: nat, q: AsyncRequest)
    requires Valid(s) && SlabSpec.Alloc(s, need).1.Leased? && Admitted(s.leases, q) && 0 < q.srcLen <= q.dstLen
    ensures var l := SlabSpec.Alloc(s, need).1;
            && l.n == need && need > 0 && l.off + need <= s.size && 0 <= q.dstOff && 0 <= q.srcOff
            && DisjointRanges(l.off, need, q.dstOff, q.srcLen) && DisjointRanges(l.off, need, q.srcOff, q.srcLen)
            && q.dstOff + q.srcLen <= s.size && q.srcOff + q.srcLen <= s.size
  {
    var l := SlabSpec.Alloc(s, need).1;
    AllocIsLowestFit(s, need);
    RangeApart(s, l.off, need, q.dstLease, q.dstOff, q.srcLen);
    RangeApart(s, l.off, need, q.srcLease, q.srcOff, q.srcLen);
  }

  lemma RangeApart(s: Slab, o: nat, n: nat, id: nat, off: int, len: int)
    requires Valid(s) && n > 0 && Fits(s, n, o) && len > 0 && InsideLease(s.leases, id, off, len)
    ensures DisjointRanges(o, n, off, len) && off + len <= s.size
  {
    var b := if o < off then off else o;
    if off <= b < off + len {
      InLeaseIsLeased(s.leases, id, off, len, b);
    }
  }

  lemma DestinationKept(m0: seq<byte>, now: seq<byte>, dst: nat, src: seq<byte>, base: nat, n: nat)
    requires |now| == |m0| && dst + |src| <= |m0| && DisjointRanges(base, n, dst, |src|)
    requires forall b :: 0 <= b < |m0| && !(base <= b < base + n) ==> now[b] == Splice(m0, dst, src)[b]
    ensures now[dst..dst + |src|] == src
  {
    var spliced := Splice(m0, dst, src);
    assert spliced[dst..dst + |src|] == src;
    forall i | 0 <= i < |src|
      ensures now[dst..dst + |src|][i] == src[i]
    {
      assert spliced[dst + i] == spliced[dst..dst + |src|][i];
    }
  }

  /** Only the destination and the scratch lease changed, and the scratch was in no live lease. */
  lemma KeptFromFrames(s: Slab, need: nat, m0: seq<byte>, now: seq<byte>, dst: nat, len: nat)
    requires Valid(s) && SlabSpec.Alloc(s, need).1.Leased? && |now| == |m0| == s.size && dst + len <= |m0|
    requires SameOutsideBoth(m0, now, dst, len, SlabSpec.Alloc(s, need).1.off, need)
    ensures LeasedBytesKept(s.leases, m0, now, dst, len)
  {
    var l := SlabSpec.Alloc(s, need).1;
    forall b | 0 <= b < |m0| && IsLeased(s.leases, b) && !(dst <= b < dst + len)
      ensures now[b] == m0[b]
    {
      if l.off <= b < l.off + need {
        ScratchApart(s, need, b);
      }
    }
  }
}
