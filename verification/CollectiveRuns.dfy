/**
  The daemon's collectives over every run of all ranks (cmd/jaccld/transport.go): requests that the
  checks accept give clean plans, so every run of them gathers or reduces as promised and leaves the
  memory of every other lease alone.
 */
module CollectiveRuns {
  import opened Bytes
  import opened Options
  import opened SlabSpec
  import opened Ranges
  import opened Reduce
  import opened ReduceMeaning
  import opened MeshMemory
  import opened SlabCollectives

  function Offset(x: int): nat { if x < 0 then 0 else x }

  function SourceOffsets(reqs: seq<AsyncRequest>): (s: seq<nat>)
    ensures |s| == |reqs|
  {
    seq(|reqs|, r requires 0 <= r < |reqs| => Offset(reqs[r].srcOff))
  }

  function TargetOffsets(reqs: seq<AsyncRequest>): (s: seq<nat>)
    ensures |s| == |reqs|
  {
    seq(|reqs|, r requires 0 <= r < |reqs| => Offset(reqs[r].dstOff))
  }

  /** Every rank's source lies inside its memory. */
  ghost predicate SourcesFit(reqs: seq<AsyncRequest>, len: nat, mem: seq<Memory>) {
    |reqs| == |mem| && forall r :: 0 <= r < |mem| ==> 0 <= reqs[r].srcOff && reqs[r].srcOff + len <= |mem[r]|
  }

  /** Every rank's source as it was before anyone started. */
  ghost function OriginalSources(reqs: seq<AsyncRequest>, len: nat, mem: seq<Memory>): (s: seq<seq<byte>>)
    requires SourcesFit(reqs, len, mem)
    ensures |s| == |mem| && AllOfLength(s, len)
  {
    seq(|mem|, r requires 0 <= r < |mem| => mem[r][reqs[r].srcOff..reqs[r].srcOff + len])
  }

  // ---- All-gather ----

  /** runMeshGather on every rank: the source goes to the rank's own block, and peers' chunks straight to theirs. */
  function GatherPlan(reqs: seq<AsyncRequest>, len: nat, chunk: nat): Plan {
    Plan(len, chunk, SourceOffsets(reqs),
         seq(|reqs|, r requires 0 <= r < |reqs| => Offset(reqs[r].dstOff) + Off(r, len)), TargetOffsets(reqs), NoFold)
  }

  /** On rank r both the server's and the transport's checks accept the request. */
  ghost predicate GatherAccepted(slab: Slab, conn: Leases, q: AsyncRequest, n: nat, elemSize: int, len: nat) {
    && Owned(slab, conn) && Fits64(conn) && CheckAsyncRange(conn, q) && GatherChecks(slab.size, n, elemSize, q)
    && q.srcLen == len
  }

  ghost predicate GatherCalled(slabs: seq<Slab>, conns: seq<Leases>, reqs: seq<AsyncRequest>, elemSize: int, len: nat,
                               chunk: nat, mem: seq<Memory>)
  {
    && |slabs| == |conns| == |reqs| == |mem| > 1 && chunk > 0
    && forall r :: 0 <= r < |mem| ==>
         |mem[r]| == slabs[r].size && GatherAccepted(slabs[r], conns[r], reqs[r], |mem|, elemSize, len)
  }

  lemma GatherRankIsClean(slab: Slab, conn: Leases, q: AsyncRequest, n: nat, elemSize: int, len: nat, plan: Plan,
                          r: nat)
    requires GatherAccepted(slab, conn, q, n, elemSize, len) && n > 1 && r < n
    requires plan.len == len && r < |plan.src| && r < |plan.dst| && r < |plan.base|
    requires plan.src[r] == Offset(q.srcOff) && plan.base[r] == Offset(q.dstOff)
    requires plan.dst[r] == plan.base[r] + Off(r, len)
    ensures CleanRank(plan, n, r, slab.size) && 0 <= q.srcOff && 0 <= q.dstOff
  {
    hide Off, Valid, CheckAsyncRange, RangeInMR, ProductGuard;
    AcceptedRequest(slab, conn, q);
    GatherWindowsFit(slab, conn, q, n, elemSize, r, 0, 0);
    OffBounds(r, n, len);
    forall p: nat | p < n && p != r
      ensures MeshMemory.Disjoint(BlockStart(plan, r, p), plan.src[r], len)
      ensures MeshMemory.Disjoint(BlockStart(plan, r, p), plan.dst[r], len)
    {
      OffBounds(p, n, len);
      BlocksApart(plan, r, p, r);
    }
  }

  lemma GatherPlanIsClean(slabs: seq<Slab>, conns: seq<Leases>, reqs: seq<AsyncRequest>, elemSize: int, len: nat,
                          chunk: nat, mem: seq<Memory>)
    requires GatherCalled(slabs, conns, reqs, elemSize, len, chunk, mem)
    ensures Clean(GatherPlan(reqs, len, chunk), mem)
  {
    hide GatherAccepted, CleanRank;
    forall r | 0 <= r < |mem|
      ensures CleanRank(GatherPlan(reqs, len, chunk), |mem|, r, |mem[r]|)
    {
      GatherRankIsClean(slabs[r], conns[r], reqs[r], |mem|, elemSize, len, GatherPlan(reqs, len, chunk), r);
    }
  }

  lemma ReturnedHasCopied(plan: Plan, p: Phase)
    requires ExchangeReturned(plan, p)
    ensures !p.Before?
  {
  }

  /** The plan's sources are the requests' sources. */
  lemma GatherSources(slabs: seq<Slab>, conns: seq<Leases>, reqs: seq<AsyncRequest>, elemSize: int, len: nat,
                      chunk: nat, mem: seq<Memory>)
    requires GatherCalled(slabs, conns, reqs, elemSize, len, chunk, mem)
    ensures |reqs| == |mem| && Clean(GatherPlan(reqs, len, chunk), mem) && SourcesFit(reqs, len, mem)
    ensures Sources(GatherPlan(reqs, len, chunk), mem) == OriginalSources(reqs, len, mem)
  {
    hide GatherAccepted, CleanRank, Clean;
    GatherPlanIsClean(slabs, conns, reqs, elemSize, len, chunk, mem);
    forall r | 0 <= r < |mem|
      ensures 0 <= reqs[r].srcOff && reqs[r].srcOff + len <= |mem[r]|
    {
      AcceptedSource(slabs[r], conns[r], reqs[r], |mem|, elemSize, len);
    }
    PlanSources(GatherPlan(reqs, len, chunk), reqs, len, mem);
  }

  lemma AcceptedSource(slab: Slab, conn: Leases, q: AsyncRequest, n: nat, elemSize: int, len: nat)
    requires GatherAccepted(slab, conn, q, n, elemSize, len)
    ensures 0 <= q.srcOff && q.srcOff + len <= slab.size && 0 <= q.dstOff
  {
    AcceptedRequest(slab, conn, q);
  }

  /** A plan with the requests' source offsets has the requests' sources. */
  lemma PlanSources(plan: Plan, reqs: seq<AsyncRequest>, len: nat, mem: seq<Memory>)
    requires Clean(plan, mem) && SourcesFit(reqs, len, mem) && plan.len == len && plan.src == SourceOffsets(reqs)
    ensures Sources(plan, mem) == OriginalSources(reqs, len, mem)
  {
    hide Clean;
    forall r | 0 <= r < |mem|
      ensures Sources(plan, mem)[r] == OriginalSources(reqs, len, mem)[r]
    {
      assert plan.src[r] == reqs[r].srcOff;
    }
  }

  /** Where rank r's blocks are, in terms of its request. */
  lemma GatherBlocks(slabs: seq<Slab>, conns: seq<Leases>, reqs: seq<AsyncRequest>, elemSize: int, len: nat, chunk: nat,
                     mem: seq<Memory>, r: nat, p: nat)
    requires GatherCalled(slabs, conns, reqs, elemSize, len, chunk, mem) && r < |mem| && p < |mem|
    ensures 0 <= reqs[r].dstOff
    ensures var plan := GatherPlan(reqs, len, chunk);
            && |plan.dst| == |plan.base| == |mem| && plan.len == len && plan.fold.NoFold?
            && BlockStart(plan, r, p) == reqs[r].dstOff + Off(p, len) && plan.dst[r] == reqs[r].dstOff + Off(r, len)
  {
    hide GatherAccepted, Off, CleanRank;
    GatherRankIsClean(slabs[r], conns[r], reqs[r], |mem|, elemSize, len, GatherPlan(reqs, len, chunk), r);
  }

  /**
    The whole all-gather, over every run: when rank r's exchange has returned, block p of its
    destination is rank p's source as it was before anyone started, for every p including r.
   */
  lemma GatherAssembles(slabs: seq<Slab>, conns: seq<Leases>, reqs: seq<AsyncRequest>, elemSize: int, len: nat,
                        chunk: nat, mem: seq<Memory>, tr: seq<State>, i: nat, r: nat, p: nat)
    requires GatherCalled(slabs, conns, reqs, elemSize, len, chunk, mem) && r < |mem| && p < |mem|
    requires Run(GatherPlan(reqs, len, chunk), mem, tr) && i < |tr|
    requires r < |tr[i].ranks| && ExchangeReturned(GatherPlan(reqs, len, chunk), tr[i].ranks[r])
    ensures SourcesFit(reqs, len, mem) && |reqs| == |tr[i].mem| == |mem|
    ensures HasAt(tr[i].mem[r], reqs[r].dstOff + Off(p, len), OriginalSources(reqs, len, mem)[p])
  {
    hide *;
    var plan := GatherPlan(reqs, len, chunk);
    ReturnedHasCopied(plan, tr[i].ranks[r]);
    GatherSources(slabs, conns, reqs, elemSize, len, chunk, mem);
    GatherBlocks(slabs, conns, reqs, elemSize, len, chunk, mem, r, p);
    if p != r {
      ExchangeDelivers(plan, mem, tr, i, r, p);
    } else {
      CopyStays(plan, mem, tr, i, r);
    }
  }

  /** The gather writes its destination and nothing else, at any moment of any run. */
  lemma GatherTouchesDestinationOnly(slabs: seq<Slab>, conns: seq<Leases>, reqs: seq<AsyncRequest>, elemSize: int,
                                     len: nat, chunk: nat, mem: seq<Memory>, tr: seq<State>, i: nat, r: nat, b: nat)
    requires GatherCalled(slabs, conns, reqs, elemSize, len, chunk, mem) && r < |mem| && b < |mem[r]|
    requires Run(GatherPlan(reqs, len, chunk), mem, tr) && i < |tr|
    requires !(reqs[r].dstOff <= b < reqs[r].dstOff + Off(|mem|, len))
    ensures |tr[i].mem| == |mem| && |tr[i].mem[r]| == |mem[r]| && tr[i].mem[r][b] == mem[r][b]
  {
    hide *;
    var plan := GatherPlan(reqs, len, chunk);
    GatherSources(slabs, conns, reqs, elemSize, len, chunk, mem);
    GatherBlocks(slabs, conns, reqs, elemSize, len, chunk, mem, r, r);
    OffBounds(r, |mem|, len);
    forall q: nat | q < |mem|
      ensures !(BlockStart(plan, r, q) <= b < BlockStart(plan, r, q) + len)
    {
      GatherBlocks(slabs, conns, reqs, elemSize, len, chunk, mem, r, q);
      OffBounds(q, |mem|, len);
    }
    RunTouchesOnly(plan, mem, tr, i, r, b);
  }

  // ---- All-reduce ----

  /** The scratch lease that runMeshReduce takes for n blocks. */
  function Scratch(slab: Slab, n: nat, len: nat): AllocResult { Alloc(slab, Off(n, len)).1 }

  /** runMeshReduce on every rank: peers' chunks go to the scratch lease and are folded into the destination. */
  function ReducePlan(slabs: seq<Slab>, reqs: seq<AsyncRequest>, len: nat, chunk: nat, op: Op, dt: DType): Plan {
    Plan(len, chunk, SourceOffsets(reqs), TargetOffsets(reqs),
         seq(|slabs|, r requires 0 <= r < |slabs| =>
           if Scratch(slabs[r], |slabs|, len).Leased? then Scratch(slabs[r], |slabs|, len).off else 0),
         Folds(op, dt, len / Size(dt)))
  }

  /** Rank r's request was admitted by its server and its scratch lease was granted. */
  ghost predicate ReduceAdmitted(slab: Slab, q: AsyncRequest, n: nat, len: nat) {
    Valid(slab) && Admitted(slab.leases, q) && q.srcLen == len && 0 < len <= q.dstLen && Scratch(slab, n, len).Leased?
  }

  ghost predicate ReduceCalled(slabs: seq<Slab>, reqs: seq<AsyncRequest>, len: nat, chunk: nat, dt: DType,
                               mem: seq<Memory>) {
    && |slabs| == |reqs| == |mem| && chunk > 0 && WholeElements(dt, len)
    && forall r :: 0 <= r < |mem| ==> |mem[r]| == slabs[r].size && ReduceAdmitted(slabs[r], reqs[r], |mem|, len)
  }

  /** A request the server's check accepts is admitted. */
  lemma AcceptedIsAdmitted(slab: Slab, conn: Leases, q: AsyncRequest)
    requires Owned(slab, conn) && Fits64(conn) && CheckAsyncRange(conn, q)
    ensures Admitted(slab.leases, q) && 0 < q.srcLen <= q.dstLen
  {
    AcceptedRequest(slab, conn, q);
  }

  lemma ReduceRankIsClean(slab: Slab, q: AsyncRequest, n: nat, len: nat, plan: Plan, r: nat)
    requires ReduceAdmitted(slab, q, n, len) && r < n
    requires plan.len == len && r < |plan.src| && r < |plan.dst| && r < |plan.base|
    requires plan.src[r] == Offset(q.srcOff) && plan.dst[r] == Offset(q.dstOff)
    requires plan.base[r] == Scratch(slab, n, len).off
    ensures CleanRank(plan, n, r, slab.size) && 0 <= q.srcOff && 0 <= q.dstOff
  {
    ScratchFacts(slab, Off(n, len), q);
    assert SameRange(q.srcOff, q.srcLen, q.dstOff, q.dstLen) || DisjointRanges(q.srcOff, q.srcLen, q.dstOff, q.dstLen);
    hide Off, Valid, Alloc, Admitted;
    forall p: nat | p < n && p != r
      ensures MeshMemory.Disjoint(BlockStart(plan, r, p), plan.src[r], len)
      ensures MeshMemory.Disjoint(BlockStart(plan, r, p), plan.dst[r], len)
    {
      OffBounds(p, n, len);
    }
  }

  lemma ReducePlanIsClean(slabs: seq<Slab>, reqs: seq<AsyncRequest>, len: nat, chunk: nat, op: Op, dt: DType,
                          mem: seq<Memory>)
    requires ReduceCalled(slabs, reqs, len, chunk, dt, mem)
    ensures Clean(ReducePlan(slabs, reqs, len, chunk, op, dt), mem)
  {
    var plan := ReducePlan(slabs, reqs, len, chunk, op, dt);
    WholeCount(len, Size(dt));
    hide Off, Size, CleanRank, Alloc;
    forall r | 0 <= r < |mem|
      ensures CleanRank(plan, |mem|, r, |mem[r]|)
    {
      assert Scratch(slabs[r], |mem|, len).Leased?;
      ReduceRankIsClean(slabs[r], reqs[r], |mem|, len, plan, r);
    }
  }

  lemma RequestsFit(slabs: seq<Slab>, reqs: seq<AsyncRequest>, len: nat, chunk: nat, op: Op, dt: DType,
                    mem: seq<Memory>)
    requires ReduceCalled(slabs, reqs, len, chunk, dt, mem)
    ensures SourcesFit(reqs, len, mem)
    ensures forall r :: 0 <= r < |mem| ==> 0 <= reqs[r].dstOff && reqs[r].dstOff + len <= |mem[r]|
    ensures Clean(ReducePlan(slabs, reqs, len, chunk, op, dt), mem)
    ensures Sources(ReducePlan(slabs, reqs, len, chunk, op, dt), mem) == OriginalSources(reqs, len, mem)
  {
    hide Clean, ReduceAdmitted;
    ReducePlanIsClean(slabs, reqs, len, chunk, op, dt, mem);
    forall r | 0 <= r < |mem|
      ensures 0 <= reqs[r].srcOff && reqs[r].srcOff + len <= |mem[r]|
      ensures 0 <= reqs[r].dstOff && reqs[r].dstOff + len <= |mem[r]|
    {
      AdmittedFits(slabs[r], reqs[r], |mem|, len);
    }
    PlanSources(ReducePlan(slabs, reqs, len, chunk, op, dt), reqs, len, mem);
  }

  lemma AdmittedFits(slab: Slab, q: AsyncRequest, n: nat, len: nat)
    requires ReduceAdmitted(slab, q, n, len)
    ensures 0 <= q.srcOff && q.srcOff + len <= slab.size && 0 <= q.dstOff && q.dstOff + len <= slab.size
    ensures Scratch(slab, n, len).Leased? && Scratch(slab, n, len).off + Off(n, len) <= slab.size
  {
    ScratchFacts(slab, Off(n, len), q);
  }

  /** Where rank r's ranges are, in terms of its request and its scratch lease. */
  lemma ReduceRanges(slabs: seq<Slab>, reqs: seq<AsyncRequest>, len: nat, chunk: nat, op: Op, dt: DType,
                     mem: seq<Memory>, r: nat, p: nat)
    requires ReduceCalled(slabs, reqs, len, chunk, dt, mem) && r < |mem|
    ensures |slabs| == |reqs| == |mem| && |mem[r]| == slabs[r].size && Scratch(slabs[r], |mem|, len).Leased?
    ensures Valid(slabs[r]) && Scratch(slabs[r], |mem|, len).off + Off(|mem|, len) <= |mem[r]|
    ensures var plan := ReducePlan(slabs, reqs, len, chunk, op, dt);
            && |plan.dst| == |plan.base| == |mem| && plan.len == len && plan.fold == Folds(op, dt, len / Size(dt))
            && plan.dst[r] == reqs[r].dstOff
            && BlockStart(plan, r, p) == Scratch(slabs[r], |mem|, len).off + Off(p, len)
  {
    assert ReduceAdmitted(slabs[r], reqs[r], |mem|, len);
    AdmittedFits(slabs[r], reqs[r], |mem|, len);
    hide Off, Admitted, Alloc, Valid;
  }

  /**
    The whole all-reduce, in place or not, over every run: a rank that has folded all its peers holds
    in its destination the reference reduction of all ranks' sources as they were before anyone
    started, although faster ranks may already have overwritten theirs.
   */
  lemma ReduceReachesReference(slabs: seq<Slab>, reqs: seq<AsyncRequest>, len: nat, chunk: nat, op: Op, dt: DType,
                               mem: seq<Memory>, tr: seq<State>, i: nat, r: nat)
    requires ReduceCalled(slabs, reqs, len, chunk, dt, mem) && r < |mem|
    requires Run(ReducePlan(slabs, reqs, len, chunk, op, dt), mem, tr) && i < |tr|
    requires r < |tr[i].ranks| && tr[i].ranks[r] == After(|mem|)
    ensures SourcesFit(reqs, len, mem) && |reqs| == |tr[i].mem| == |mem|
    ensures Inputs(dt, OriginalSources(reqs, len, mem), len / Size(dt))
    ensures HasAt(tr[i].mem[r], reqs[r].dstOff,
                  Reference(op, dt, OriginalSources(reqs, len, mem), len / Size(dt), |mem|))
  {
    hide *;
    RequestsFit(slabs, reqs, len, chunk, op, dt, mem);
    ReduceRanges(slabs, reqs, len, chunk, op, dt, mem, r, 0);
    FoldsToReference(ReducePlan(slabs, reqs, len, chunk, op, dt), mem, tr, i, r);
  }

  /**
    The same in plain numbers, for the operation that travels as op: every element of the destination
    is the wrapped sum (0), the maximum (1) or the minimum (2) of the ranks' original elements.
   */
  lemma ReduceComputes(slabs: seq<Slab>, reqs: seq<AsyncRequest>, len: nat, chunk: nat, op: int, dt: DType,
                       mem: seq<Memory>, tr: seq<State>, i: nat, r: nat)
    requires ReduceCalled(slabs, reqs, len, chunk, dt, mem) && r < |mem| && ReductionOp(op).Some?
    requires Run(ReducePlan(slabs, reqs, len, chunk, ReductionOp(op).value, dt), mem, tr) && i < |tr|
    requires r < |tr[i].ranks| && tr[i].ranks[r] == After(|mem|)
    ensures SourcesFit(reqs, len, mem) && |reqs| == |tr[i].mem| == |mem|
    ensures 0 <= reqs[r].dstOff && reqs[r].dstOff + len <= |tr[i].mem[r]|
    ensures IsReduction(op, dt, OriginalSources(reqs, len, mem), len / Size(dt),
                        tr[i].mem[r][reqs[r].dstOff..reqs[r].dstOff + len])
  {
    ReducedLength(dt, len);
    hide *;
    ReduceReachesReference(slabs, reqs, len, chunk, ReductionOp(op).value, dt, mem, tr, i, r);
    OperationNumbers(op);
    var srcs := OriginalSources(reqs, len, mem);
    ReferenceMeans(op, ReductionOp(op).value, dt, srcs, len / Size(dt));
    HasSlice(tr[i].mem[r], reqs[r].dstOff, Reference(ReductionOp(op).value, dt, srcs, len / Size(dt), |mem|));
    CalledLength(slabs, reqs, len, chunk, dt, mem);
  }

  lemma ReducedLength(dt: DType, len: nat)
    ensures WholeElements(dt, len) ==> Off(len / Size(dt), Size(dt)) == len
  {
    if WholeElements(dt, len) {
      WholeCount(len, Size(dt));
    }
  }

  lemma CalledLength(slabs: seq<Slab>, reqs: seq<AsyncRequest>, len: nat, chunk: nat, dt: DType, mem: seq<Memory>)
    requires ReduceCalled(slabs, reqs, len, chunk, dt, mem)
    ensures WholeElements(dt, len)
  {
  }

  lemma HasSlice(mem: seq<byte>, at: int, data: seq<byte>)
    requires HasAt(mem, at, data)
    ensures 0 <= at && at + |data| <= |mem| && mem[at..at + |data|] == data
  {
  }

  /** At every moment of every run, in any phase, a rank changes no byte of a live lease outside its destination. */
  lemma ReduceKeepsLeases(slabs: seq<Slab>, reqs: seq<AsyncRequest>, len: nat, chunk: nat, op: Op, dt: DType,
                          mem: seq<Memory>, tr: seq<State>, i: nat, r: nat)
    requires ReduceCalled(slabs, reqs, len, chunk, dt, mem) && r < |mem|
    requires Run(ReducePlan(slabs, reqs, len, chunk, op, dt), mem, tr) && i < |tr|
    ensures |tr[i].mem| == |mem| && LeasedBytesKept(slabs[r].leases, mem[r], tr[i].mem[r], reqs[r].dstOff, len)
  {
    hide Off, ReduceCalled, ReducePlan, Scratch, Run, Clean, Inv, LeasedBytesKept, BlockStart, Valid;
    var plan, need := ReducePlan(slabs, reqs, len, chunk, op, dt), Off(|mem|, len);
    RequestsFit(slabs, reqs, len, chunk, op, dt, mem);
    ReduceRanges(slabs, reqs, len, chunk, op, dt, mem, r, 0);
    RunInv(plan, mem, tr, i);
    InvSizes(plan, mem, tr[i]);
    var base := Scratch(slabs[r], |mem|, len).off;
    forall b | 0 <= b < |mem[r]| && !(reqs[r].dstOff <= b < reqs[r].dstOff + len) && !(base <= b < base + need)
      ensures tr[i].mem[r][b] == mem[r][b]
    {
      forall q: nat | q < |mem|
        ensures !(BlockStart(plan, r, q) <= b < BlockStart(plan, r, q) + len)
      {
        ReduceRanges(slabs, reqs, len, chunk, op, dt, mem, r, q);
        OffBounds(q, |mem|, len);
      }
      RunTouchesOnly(plan, mem, tr, i, r, b);
    }
    ScratchIs(slabs[r], |mem|, len);
    KeptFromFrames(slabs[r], need, mem[r], tr[i].mem[r], reqs[r].dstOff, len);
  }

  lemma ScratchIs(slab: Slab, n: nat, len: nat)
    ensures Scratch(slab, n, len) == Alloc(slab, Off(n, len)).1
  {
  }

  /**
    The outcome that one rank's all-reduce is given is the one every run produces: when its exchange
    has returned, the scratch holds every peer's original source.
   */
  lemma ExchangeFillsScratch(slabs: seq<Slab>, reqs: seq<AsyncRequest>, len: nat, chunk: nat, op: Op, dt: DType,
                             mem: seq<Memory>, tr: seq<State>, i: nat, r: nat)
    requires ReduceCalled(slabs, reqs, len, chunk, dt, mem) && r < |mem|
    requires Run(ReducePlan(slabs, reqs, len, chunk, op, dt), mem, tr) && i < |tr|
    requires r < |tr[i].ranks| && ExchangeReturned(ReducePlan(slabs, reqs, len, chunk, op, dt), tr[i].ranks[r])
    ensures SourcesFit(reqs, len, mem) && |slabs| == |tr[i].mem| == |mem| && Scratch(slabs[r], |mem|, len).Leased?
    ensures ExchangeOk(Arrived(OriginalSources(reqs, len, mem)), |mem|, len)
    ensures ScratchHolds(tr[i].mem[r], Scratch(slabs[r], |mem|, len).off, len, r, OriginalSources(reqs, len, mem))
  {
    hide *;
    var plan := ReducePlan(slabs, reqs, len, chunk, op, dt);
    RequestsFit(slabs, reqs, len, chunk, op, dt, mem);
    ReduceRanges(slabs, reqs, len, chunk, op, dt, mem, r, 0);
    RunInv(plan, mem, tr, i);
    InvSizes(plan, mem, tr[i]);
    var base, srcs := Scratch(slabs[r], |mem|, len).off, OriginalSources(reqs, len, mem);
    forall p: nat | p < |mem| && p != r
      ensures HasAt(tr[i].mem[r], base + Off(p, len), srcs[p])
    {
      ReduceRanges(slabs, reqs, len, chunk, op, dt, mem, r, p);
      ExchangeDelivers(plan, mem, tr, i, r, p);
    }
    ScratchFromBlocks(tr[i].mem[r], base, len, r, srcs);
  }

  lemma ScratchFromBlocks(mem: seq<byte>, base: nat, len: nat, r: nat, srcs: seq<seq<byte>>)
    requires base + Off(|srcs|, len) <= |mem| && AllOfLength(srcs, len)
    requires forall p: nat :: p < |srcs| && p != r ==> HasAt(mem, base + Off(p, len), srcs[p])
    ensures ScratchHolds(mem, base, len, r, srcs) && ExchangeOk(Arrived(srcs), |srcs|, len)
  {
    hide Off;
    forall p: nat | p < |srcs| && p != r
      ensures base + Off(p, len) + len <= |mem| && mem[base + Off(p, len)..base + Off(p, len) + len] == srcs[p]
    {
      assert HasAt(mem, base + Off(p, len), srcs[p]);
    }
  }

  /** One rank's all-reduce, given that outcome, succeeds with the same reference reduction. */
  lemma ReducedIsReference(op: int, dt: DType, before: seq<byte>, after: seq<byte>, q: AsyncRequest, rank: nat,
                           srcs: seq<seq<byte>>)
    requires rank < |srcs| && |srcs| > 1 && 0 <= q.srcLen && AllOfLength(srcs, q.srcLen)
    requires ReducedInto(op, dt, before, after, q, |srcs|, rank, true, Arrived(srcs))
    requires srcs[rank] == before[q.srcOff..q.srcOff + q.srcLen]
    ensures Foldable(op, dt, q.srcLen) && Inputs(dt, srcs, q.srcLen / Size(dt))
    ensures after[q.dstOff..q.dstOff + q.srcLen]
         == Reference(ReductionOp(op).value, dt, srcs, q.srcLen / Size(dt), |srcs|)
  {
    BuffersThemselves(srcs, rank);
    ReducedFolds(op, dt, before, after, q, rank, srcs);
    hide *;
    DaemonRanksAgree(op, dt, after, q.dstOff, q.srcLen, srcs, rank);
  }

  lemma BuffersThemselves(srcs: seq<seq<byte>>, rank: nat)
    requires rank < |srcs|
    ensures Buffers(srcs, rank, srcs[rank]) == srcs
  {
  }

  lemma ReducedFolds(op: int, dt: DType, before: seq<byte>, after: seq<byte>, q: AsyncRequest, rank: nat,
                     srcs: seq<seq<byte>>)
    requires rank < |srcs| && |srcs| > 1 && 0 <= q.srcLen && AllOfLength(srcs, q.srcLen)
    requires ReducedInto(op, dt, before, after, q, |srcs|, rank, true, Arrived(srcs))
    requires srcs[rank] == before[q.srcOff..q.srcOff + q.srcLen] && Buffers(srcs, rank, srcs[rank]) == srcs
    ensures 0 <= q.dstOff && FoldedUpTo(op, dt, after, q.dstOff, q.srcLen, srcs, rank, |srcs|)
    ensures Foldable(op, dt, q.srcLen) && Inputs(dt, srcs, q.srcLen / Size(dt)) && q.dstOff + q.srcLen <= |after|
  {
    hide FoldSkipping, Off, Size, Buffers;
  }
}
