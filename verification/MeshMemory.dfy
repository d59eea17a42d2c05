/**
  The daemon's mesh collectives over slab memory (cmd/jaccld/transport.go): N ranks copy their
  source, send it to every peer in chunks straight out of and into their own slabs, and then
  fold what arrived. Gather and reduce are two plans of the same steps.

  A queue pair reads a chunk out of the sender's memory at some moment between the post of the
  send and its completion, and the receiver's writes it into the posted window at some later
  moment. A send completion says that the chunk was read out and nothing about its arrival. So a
  source that changes too early would be sent corrupted, and the ranks that have finished do
  change theirs: a reduce in place folds into its own source while slower peers still exchange.
 */
module MeshMemory {
  import opened Bytes
  import opened Chunks
  import opened Grid
  import opened Stages
  import opened Reduce

  type Memory = seq<byte>

  /** What a rank does with the received blocks: nothing, or fold m elements of each into its destination. */
  datatype Fold = NoFold | Folds(op: Op, dt: DType, m: nat)

  /** Per rank: its source, the range it copies the source to, and where its receive blocks start. */
  datatype Plan = Plan(len: nat, chunk: nat, src: seq<nat>, dst: seq<nat>, base: seq<nat>, fold: Fold)

  /** After(k): the exchange has returned and the first k ranks' blocks are folded. */
  datatype Phase = Before | Exchanging(t: nat, stage: Stage) | After(folded: nat)

  /** wire[q][r]: chunks read out at q and not yet written at r; written[q][r]: chunks written. */
  datatype State = State(ranks: seq<Phase>, written: seq<seq<nat>>, wire: seq<seq<seq<seq<byte>>>>, mem: seq<Memory>)

  datatype Action = Copy(r: nat) | Advance(r: nat) | ReadOut(q: nat, r: nat) | WriteIn(q: nat, r: nat)
                  | FoldNext(r: nat)

  // ---- Layout ----

  /** Start of the block in which rank r receives from q. */
  function BlockStart(plan: Plan, r: nat, q: nat): nat
    requires r < |plan.base|
  {
    plan.base[r] + Off(q, plan.len)
  }

  predicate Disjoint(a: nat, b: nat, len: nat) { a + len <= b || b + len <= a }

  /**
    Rank r's ranges fit its memory; source and destination are identical or apart, and both apart
    from what it receives.
   */
  ghost predicate CleanRank(plan: Plan, n: nat, r: nat, size: nat) {
    && r < |plan.src| && r < |plan.dst| && r < |plan.base|
    && plan.src[r] + plan.len <= size && plan.dst[r] + plan.len <= size && plan.base[r] + Off(n, plan.len) <= size
    && (plan.src[r] == plan.dst[r] || Disjoint(plan.src[r], plan.dst[r], plan.len))
    && forall q: nat :: q < n && q != r ==>
         && Disjoint(BlockStart(plan, r, q), plan.src[r], plan.len)
         && Disjoint(BlockStart(plan, r, q), plan.dst[r], plan.len)
  }

  predicate FoldOk(plan: Plan) {
    plan.fold.Folds? ==> Supported(plan.fold.dt) && plan.len == Off(plan.fold.m, Size(plan.fold.dt))
  }

  ghost predicate Clean(plan: Plan, mem: seq<Memory>) {
    && plan.chunk > 0 && FoldOk(plan) && |plan.src| == |plan.dst| == |plan.base| == |mem|
    && forall r :: 0 <= r < |mem| ==> CleanRank(plan, |mem|, r, |mem[r]|)
  }

  function Source(plan: Plan, mem: seq<Memory>, q: nat): (s: seq<byte>)
    requires |plan.src| == |mem| && q < |mem| && plan.src[q] + plan.len <= |mem[q]|
    ensures |s| == plan.len
  {
    mem[q][plan.src[q]..plan.src[q] + plan.len]
  }

  ghost function Sources(plan: Plan, mem: seq<Memory>): (s: seq<seq<byte>>)
    requires Clean(plan, mem)
    ensures |s| == |mem| && AllOfLength(s, plan.len)
  {
    hide Off;
    assert forall q :: 0 <= q < |mem| ==> CleanRank(plan, |mem|, q, |mem[q]|);
    seq(|mem|, q requires 0 <= q < |mem| => Source(plan, mem, q))
  }

  // ---- Steps ----

  function Turns(plan: Plan): nat { if plan.chunk == 0 then 0 else ChunkCount(plan.len, plan.chunk) }

  function RecvsPosted(turns: nat, p: Phase, q: nat): nat {
    match p
    case Before => 0
    case Exchanging(t, stage) => if t == turns || (stage.Recvs? && q >= stage.next) then t else t + 1
    case After(_) => turns
  }

  function SendsPosted(turns: nat, p: Phase, q: nat): nat {
    match p
    case Before => 0
    case Exchanging(t, stage) => if t == turns || stage.Recvs? || (stage.Sends? && q >= stage.next) then t else t + 1
    case After(_) => turns
  }

  function Polled(turns: nat, p: Phase, q: nat): nat {
    match p
    case Before => 0
    case Exchanging(t, stage) => if stage.Polls? && q < stage.next then t + 1 else t
    case After(_) => turns
  }

  ghost predicate Shaped(plan: Plan, s: State) {
    |s.ranks| == |s.mem| && IsGrid(s.written, |s.mem|) && IsGrid(s.wire, |s.mem|) && Clean(plan, s.mem)
  }

  /** Chunks of q's source that have left q's memory for r. */
  function Read(s: State, q: nat, r: nat): nat
    requires q < |s.written| && r < |s.written[q]| && q < |s.wire| && r < |s.wire[q]|
  {
    s.written[q][r] + |s.wire[q][r]|
  }

  /** A poll for peer q waits for the completions of r's own send and of its receive from q. */
  ghost predicate PollReady(s: State, r: nat, t: nat, q: nat) {
    && r < |s.ranks| && IsGrid(s.written, |s.ranks|) && IsGrid(s.wire, |s.ranks|)
    && (q < |s.ranks| && q != r ==> Read(s, r, q) > t && s.written[q][r] > t)
  }

  /** The window of the next chunk from q lies inside r's memory. */
  ghost predicate WindowFits(plan: Plan, s: State, q: nat, r: nat) {
    && Shaped(plan, s) && q < |s.mem| && r < |s.mem| && s.wire[q][r] != []
    && BlockStart(plan, r, q) + Off(s.written[q][r], plan.chunk) + |s.wire[q][r][0]| <= |s.mem[r]|
  }

  ghost predicate Enabled(plan: Plan, s: State, a: Action) {
    && Shaped(plan, s)
    && match a
       case Copy(r) => r < |s.ranks| && s.ranks[r].Before?
       case Advance(r) =>
         && r < |s.ranks| && s.ranks[r].Exchanging?
         && (s.ranks[r].stage.Polls? && s.ranks[r].t < Turns(plan) ==>
              PollReady(s, r, s.ranks[r].t, s.ranks[r].stage.next))
       case ReadOut(q, r) =>
         q < |s.ranks| && r < |s.ranks| && q != r && Read(s, q, r) < SendsPosted(Turns(plan), s.ranks[q], r)
       case WriteIn(q, r) =>
         && q < |s.ranks| && r < |s.ranks| && q != r && WindowFits(plan, s, q, r)
         && s.written[q][r] < RecvsPosted(Turns(plan), s.ranks[r], q)
       case FoldNext(r) => r < |s.ranks| && s.ranks[r].After? && s.ranks[r].folded < |s.ranks| && plan.fold.Folds?
  }

  function Advanced(plan: Plan, n: nat, p: Phase): Phase
    requires p.Exchanging?
  {
    if p.t >= Turns(plan) then After(0)
    else if p.stage == Polls(n) then Exchanging(p.t + 1, Recvs(0))
    else Exchanging(p.t, StageAfter(n, p.stage))
  }

  /** The destination once the block of rank k is folded into it, whatever either holds. */
  ghost function Folded(plan: Plan, mem: Memory, r: nat, k: nat): (d: seq<byte>)
    requires plan.fold.Folds? && FoldOk(plan) && r < |plan.dst| && r < |plan.base|
    requires plan.dst[r] + plan.len <= |mem| && BlockStart(plan, r, k) + plan.len <= |mem|
    ensures |d| == plan.len
  {
    Kernel(plan.fold.op, plan.fold.dt, plan.fold.m, mem[plan.dst[r]..plan.dst[r] + plan.len],
           mem[BlockStart(plan, r, k)..BlockStart(plan, r, k) + plan.len])
  }

  ghost function Effect(plan: Plan, s: State, a: Action): State
    requires Enabled(plan, s, a)
  {
    match a
    case Copy(r) =>
      assert CleanRank(plan, |s.mem|, r, |s.mem[r]|);
      s.(ranks := s.ranks[r := Exchanging(0, Recvs(0))],
         mem := s.mem[r := Splice(s.mem[r], plan.dst[r], Source(plan, s.mem, r))])
    case Advance(r) => s.(ranks := s.ranks[r := Advanced(plan, |s.ranks|, s.ranks[r])])
    case ReadOut(q, r) =>
      assert CleanRank(plan, |s.mem|, q, |s.mem[q]|);
      s.(wire := Put(s.wire, q, r, s.wire[q][r] + [Chunk(Source(plan, s.mem, q), plan.chunk, Read(s, q, r))]))
    case WriteIn(q, r) =>
      s.(written := Put(s.written, q, r, s.written[q][r] + 1),
         wire := Put(s.wire, q, r, s.wire[q][r][1..]),
         mem := s.mem[r := Splice(s.mem[r], BlockStart(plan, r, q) + Off(s.written[q][r], plan.chunk),
           s.wire[q][r][0])])
    case FoldNext(r) =>
      var k := s.ranks[r].folded;
      assert CleanRank(plan, |s.mem|, r, |s.mem[r]|);
      OffBounds(k, |s.mem|, plan.len);
      s.(ranks := s.ranks[r := After(k + 1)],
         mem := if k == r then s.mem else s.mem[r := Splice(s.mem[r], plan.dst[r], Folded(plan, s.mem[r], r, k))])
  }

  ghost predicate Init(plan: Plan, m0: seq<Memory>, s: State) {
    && s.mem == m0 && Shaped(plan, s)
    && (forall r :: 0 <= r < |s.ranks| ==> s.ranks[r] == Before)
    && (forall q, r :: 0 <= q < |s.ranks| && 0 <= r < |s.ranks| ==> s.written[q][r] == 0 && s.wire[q][r] == [])
  }

  ghost predicate Next(plan: Plan, s: State, t: State) {
    exists a :: Enabled(plan, s, a) && t == Effect(plan, s, a)
  }

  /** Any interleaving of all ranks' steps and of the queue pairs' reads and writes. */
  ghost predicate Run(plan: Plan, m0: seq<Memory>, tr: seq<State>) {
    |tr| > 0 && Init(plan, m0, tr[0]) && forall i :: 0 < i < |tr| ==> Next(plan, tr[i - 1], tr[i])
  }

  // ---- Memory of one rank ----

  /** Bytes of q's source that have been written. */
  function Arrived(plan: Plan, k: nat): nat { Least(Off(k, plan.chunk), plan.len) }

  /** Byte b of rank r lies in no written part of a receive block. */
  ghost predicate Elsewhere(plan: Plan, r: nat, del: seq<nat>, b: nat)
    requires r < |plan.base|
  {
    forall q: nat :: q < |del| && q != r ==>
      !(BlockStart(plan, r, q) <= b < BlockStart(plan, r, q) + Arrived(plan, del[q]))
  }

  /** The written part of q's block holds the start of q's source. */
  ghost predicate BlockHolds(plan: Plan, mem: Memory, r: nat, q: nat, k: nat, src: seq<byte>)
    requires r < |plan.base|
  {
    && |src| == plan.len && BlockStart(plan, r, q) + plan.len <= |mem|
    && mem[BlockStart(plan, r, q)..BlockStart(plan, r, q) + Arrived(plan, k)] == src[..Arrived(plan, k)]
  }

  /** mem is before, except that del[q] chunks of each peer's source have been written into its block. */
  ghost predicate MemoryOk(plan: Plan, before: Memory, mem: Memory, r: nat, del: seq<nat>, srcs: seq<seq<byte>>) {
    && r < |plan.base| && |del| == |srcs| && |mem| == |before|
    && (forall q: nat :: q < |del| && q != r ==> BlockHolds(plan, mem, r, q, del[q], srcs[q]))
    && (forall b: nat :: b < |mem| && Elsewhere(plan, r, del, b) ==> mem[b] == before[b])
  }

  lemma ArrivedStep(plan: Plan, src: seq<byte>, k: nat)
    requires |src| == plan.len && Off(k, plan.chunk) <= plan.len
    ensures Arrived(plan, k) == Off(k, plan.chunk)
    ensures Arrived(plan, k + 1) == Off(k, plan.chunk) + |Chunk(src, plan.chunk, k)| <= plan.len
    ensures src[..Arrived(plan, k + 1)] == src[..Arrived(plan, k)] + Chunk(src, plan.chunk, k)
  {
    ChunkShift(k, plan.chunk);
  }

  lemma BlocksApart(plan: Plan, r: nat, p: nat, q: nat)
    requires r < |plan.base| && p != q
    ensures Disjoint(BlockStart(plan, r, p), BlockStart(plan, r, q), plan.len)
  {
    if p < q {
      OffBounds(p, q, plan.len);
    } else {
      OffBounds(q, p, plan.len);
    }
  }

  lemma BlockExtends(plan: Plan, mem: Memory, r: nat, q: nat, k: nat, src: seq<byte>)
    requires r < |plan.base| && BlockHolds(plan, mem, r, q, k, src) && Off(k, plan.chunk) <= plan.len
    ensures var at := BlockStart(plan, r, q) + Off(k, plan.chunk);
            var data := Chunk(src, plan.chunk, k);
            && at + |data| == BlockStart(plan, r, q) + Arrived(plan, k + 1) <= |mem|
            && BlockHolds(plan, Splice(mem, at, data), r, q, k + 1, src)
  {
    hide *;
    BlockUnfold(plan, mem, r, q, k, src);
    ArrivedStep(plan, src, k);
    var start, had, data := BlockStart(plan, r, q), Off(k, plan.chunk), Chunk(src, plan.chunk, k);
    SpliceExtends(mem, start, start + had, data);
    BlockFold(plan, Splice(mem, start + had, data), r, q, k + 1, src);
  }

  lemma BlockUnfold(plan: Plan, mem: Memory, r: nat, q: nat, k: nat, src: seq<byte>)
    requires r < |plan.base| && BlockHolds(plan, mem, r, q, k, src)
    ensures |src| == plan.len && BlockStart(plan, r, q) + plan.len <= |mem| && Arrived(plan, k) <= plan.len
    ensures mem[BlockStart(plan, r, q)..BlockStart(plan, r, q) + Arrived(plan, k)] == src[..Arrived(plan, k)]
  {
  }

  lemma BlockFold(plan: Plan, mem: Memory, r: nat, q: nat, k: nat, src: seq<byte>)
    requires r < |plan.base| && |src| == plan.len && BlockStart(plan, r, q) + plan.len <= |mem|
    requires Arrived(plan, k) <= plan.len
    requires mem[BlockStart(plan, r, q)..BlockStart(plan, r, q) + Arrived(plan, k)] == src[..Arrived(plan, k)]
    ensures BlockHolds(plan, mem, r, q, k, src)
  {
  }

  lemma BlockStays(plan: Plan, mem: Memory, r: nat, p: nat, k: nat, src: seq<byte>, at: nat, data: seq<byte>)
    requires r < |plan.base| && BlockHolds(plan, mem, r, p, k, src) && at + |data| <= |mem|
    requires at + |data| <= BlockStart(plan, r, p) || BlockStart(plan, r, p) + plan.len <= at
    ensures BlockHolds(plan, Splice(mem, at, data), r, p, k, src)
  {
    hide Off, Splice;
    SpliceElsewhere(mem, at, data, BlockStart(plan, r, p), BlockStart(plan, r, p) + Arrived(plan, k));
  }

  /** One more chunk of q keeps the account of r's memory. */
  lemma WriteKeepsMemory(plan: Plan, before: Memory, mem: Memory, r: nat, del: seq<nat>, srcs: seq<seq<byte>>, q: nat)
    requires MemoryOk(plan, before, mem, r, del, srcs) && q < |del| && q != r && Off(del[q], plan.chunk) <= plan.len
    ensures var at := BlockStart(plan, r, q) + Off(del[q], plan.chunk);
            var data := Chunk(srcs[q], plan.chunk, del[q]);
            && at + |data| <= |mem|
            && MemoryOk(plan, before, Splice(mem, at, data), r, del[q := del[q] + 1], srcs)
  {
    hide Chunk, Off, Splice, BlockHolds, Arrived;
    var k := del[q];
    var start, at := BlockStart(plan, r, q), BlockStart(plan, r, q) + Off(k, plan.chunk);
    var data := Chunk(srcs[q], plan.chunk, k);
    var del' := del[q := k + 1];
    BlockExtends(plan, mem, r, q, k, srcs[q]);
    var now := Splice(mem, at, data);
    ArrivedWithin(plan, k + 1);
    forall p: nat | p < |del'| && p != r
      ensures BlockHolds(plan, now, r, p, del'[p], srcs[p])
    {
      if p != q {
        BlocksApart(plan, r, p, q);
        BlockStays(plan, mem, r, p, del[p], srcs[p], at, data);
      }
    }
    forall b: nat | b < |now| && Elsewhere(plan, r, del', b)
      ensures now[b] == before[b]
    {
      StillElsewhere(plan, r, del, q, b);
      assert !(start <= b < start + Arrived(plan, del'[q]));
    }
  }

  lemma ArrivedWithin(plan: Plan, k: nat)
    ensures Arrived(plan, k) <= plan.len
  {
  }

  lemma StillElsewhere(plan: Plan, r: nat, del: seq<nat>, q: nat, b: nat)
    requires r < |plan.base| && q < |del| && Elsewhere(plan, r, del[q := del[q] + 1], b)
    ensures Elsewhere(plan, r, del, b)
  {
    var del' := del[q := del[q] + 1];
    forall p: nat | p < |del| && p != r
      ensures !(BlockStart(plan, r, p) <= b < BlockStart(plan, r, p) + Arrived(plan, del[p]))
    {
      assert !(BlockStart(plan, r, p) <= b < BlockStart(plan, r, p) + Arrived(plan, del'[p]));
      assert Arrived(plan, del[p]) <= Arrived(plan, del'[p]) by {
        ChunkShift(del[p], plan.chunk);
      }
    }
  }

  /** A range apart from every receive block. */
  ghost predicate OffBlocks(plan: Plan, r: nat, n: nat, at: nat) {
    r < |plan.base| && forall q: nat :: q < n && q != r ==> Disjoint(BlockStart(plan, r, q), at, plan.len)
  }

  lemma OffBlocksElsewhere(plan: Plan, r: nat, del: seq<nat>, at: nat, b: nat)
    requires OffBlocks(plan, r, |del|, at) && at <= b < at + plan.len
    ensures Elsewhere(plan, r, del, b)
  {
    forall q: nat | q < |del| && q != r
      ensures !(BlockStart(plan, r, q) <= b < BlockStart(plan, r, q) + Arrived(plan, del[q]))
    {
      ArrivedWithin(plan, del[q]);
      assert Disjoint(BlockStart(plan, r, q), at, plan.len);
    }
  }

  /** Such a range reads as it did before anything arrived. */
  lemma RangeKept(plan: Plan, before: Memory, mem: Memory, r: nat, del: seq<nat>, srcs: seq<seq<byte>>, at: nat)
    requires MemoryOk(plan, before, mem, r, del, srcs) && OffBlocks(plan, r, |del|, at) && at + plan.len <= |before|
    ensures mem[at..at + plan.len] == before[at..at + plan.len]
  {
    hide BlockHolds, Elsewhere, OffBlocks;
    forall b | at <= b < at + plan.len
      ensures mem[b] == before[b]
    {
      OffBlocksElsewhere(plan, r, del, at, b);
    }
  }

  /** Writing such a range keeps the account, relative to memory in which it had always been written. */
  lemma RangeWritten(plan: Plan, before: Memory, mem: Memory, r: nat, del: seq<nat>, srcs: seq<seq<byte>>, at: nat,
                     data: seq<byte>)
    requires MemoryOk(plan, before, mem, r, del, srcs) && OffBlocks(plan, r, |del|, at)
    requires |data| == plan.len && at + plan.len <= |before|
    ensures MemoryOk(plan, Splice(before, at, data), Splice(mem, at, data), r, del, srcs)
  {
    hide BlockHolds, Elsewhere, Splice, Off;
    var was, now := Splice(before, at, data), Splice(mem, at, data);
    forall q: nat | q < |del| && q != r
      ensures BlockHolds(plan, now, r, q, del[q], srcs[q])
    {
      assert Disjoint(BlockStart(plan, r, q), at, plan.len);
      BlockStays(plan, mem, r, q, del[q], srcs[q], at, data);
    }
    forall b: nat | b < |now| && Elsewhere(plan, r, del, b)
      ensures now[b] == was[b]
    {
      if at <= b < at + plan.len {
        assert now[b] == now[at..at + plan.len][b - at] == was[at..at + plan.len][b - at];
      }
    }
  }

  lemma StartMemory(plan: Plan, before: Memory, r: nat, del: seq<nat>, srcs: seq<seq<byte>>)
    requires r < |plan.base| && |del| == |srcs| && (forall q :: 0 <= q < |del| ==> del[q] == 0)
    requires forall q: nat :: q < |srcs| ==> |srcs[q]| == plan.len && BlockStart(plan, r, q) + plan.len <= |before|
    ensures MemoryOk(plan, before, before, r, del, srcs)
  {
  }

  // ---- The invariant ----

  /** The destination of rank r once k ranks' blocks are folded. */
  ghost function Result(plan: Plan, srcs: seq<seq<byte>>, r: nat, k: nat): (d: seq<byte>)
    requires r < |srcs| && AllOfLength(srcs, plan.len) && FoldOk(plan)
    ensures |d| == plan.len
  {
    if plan.fold.NoFold? || k > |srcs| then srcs[r]
    else FoldSkipping(plan.fold.op, plan.fold.dt, srcs, plan.fold.m, srcs[r], r, k)
  }

  /** What the destination of rank r holds in phase p, if it has been written at all. */
  ghost function Destination(plan: Plan, srcs: seq<seq<byte>>, r: nat, p: Phase): (d: seq<byte>)
    requires r < |srcs| && AllOfLength(srcs, plan.len) && FoldOk(plan)
    ensures |d| == plan.len
  {
    if p.After? then Result(plan, srcs, r, p.folded) else srcs[r]
  }

  /** Rank r's memory in phase p had nothing arrived. */
  ghost function Expected(plan: Plan, m0: seq<Memory>, r: nat, p: Phase): (m: Memory)
    requires Clean(plan, m0) && r < |m0|
    ensures |m| == |m0[r]|
  {
    assert CleanRank(plan, |m0|, r, |m0[r]|);
    if p.Before? then m0[r] else Splice(m0[r], plan.dst[r], Destination(plan, Sources(plan, m0), r, p))
  }

  ghost predicate PhaseOk(plan: Plan, n: nat, p: Phase) {
    match p
    case Before => true
    case Exchanging(t, stage) => t <= Turns(plan) && stage.next <= n && (t == Turns(plan) ==> stage == Recvs(0))
    case After(k) => k <= n && (plan.fold.NoFold? ==> k == 0)
  }

  /** The link from q to r: what is posted, polled, read out and written, and what is on the wire. */
  ghost predicate LinkOk(plan: Plan, srcs: seq<seq<byte>>, s: State, q: nat, r: nat) {
    && |srcs| == |s.ranks| && IsGrid(s.written, |s.ranks|) && IsGrid(s.wire, |s.ranks|) && q < |s.ranks|
    && r < |s.ranks|
    && Read(s, q, r) <= SendsPosted(Turns(plan), s.ranks[q], r) && Polled(Turns(plan), s.ranks[q], r) <= Read(s, q, r)
    && s.written[q][r] <= RecvsPosted(Turns(plan), s.ranks[r], q)
    && Polled(Turns(plan), s.ranks[r], q) <= s.written[q][r]
    && forall i :: 0 <= i < |s.wire[q][r]| ==> s.wire[q][r][i] == Chunk(srcs[q], plan.chunk, s.written[q][r] + i)
  }

  ghost function Column(s: State, r: nat): (c: seq<nat>)
    requires IsGrid(s.written, |s.ranks|) && r < |s.ranks|
    ensures |c| == |s.ranks|
  {
    seq(|s.ranks|, q requires 0 <= q < |s.ranks| => s.written[q][r])
  }

  ghost predicate RankOk(plan: Plan, m0: seq<Memory>, s: State, r: nat) {
    && Clean(plan, m0) && |s.mem| == |s.ranks| == |m0| && IsGrid(s.written, |m0|) && r < |m0|
    && PhaseOk(plan, |m0|, s.ranks[r])
    && MemoryOk(plan, Expected(plan, m0, r, s.ranks[r]), s.mem[r], r, Column(s, r), Sources(plan, m0))
  }

  ghost predicate Inv(plan: Plan, m0: seq<Memory>, s: State) {
    && Clean(plan, m0) && |s.mem| == |s.ranks| == |m0| && IsGrid(s.written, |m0|) && IsGrid(s.wire, |m0|)
    && (forall r :: 0 <= r < |m0| ==> RankOk(plan, m0, s, r))
    && (forall q, r :: 0 <= q < |m0| && 0 <= r < |m0| && q != r ==> LinkOk(plan, Sources(plan, m0), s, q, r))
  }

  lemma CleanParts(plan: Plan, mem: seq<Memory>, r: nat)
    requires Clean(plan, mem) && r < |mem|
    ensures |plan.src| == |plan.dst| == |plan.base| == |mem|
    ensures plan.src[r] + plan.len <= |mem[r]| && plan.dst[r] + plan.len <= |mem[r]|
    ensures OffBlocks(plan, r, |mem|, plan.src[r]) && OffBlocks(plan, r, |mem|, plan.dst[r])
    ensures plan.src[r] == plan.dst[r] || Disjoint(plan.src[r], plan.dst[r], plan.len)
    ensures plan.chunk > 0 && FoldOk(plan)
  {
    hide Off;
    assert CleanRank(plan, |mem|, r, |mem[r]|);
  }

  lemma BlockFits(plan: Plan, mem: seq<Memory>, r: nat, q: nat)
    requires Clean(plan, mem) && r < |mem| && q < |mem|
    ensures BlockStart(plan, r, q) + plan.len <= |mem[r]|
  {
    hide Off;
    assert CleanRank(plan, |mem|, r, |mem[r]|);
    OffBounds(q, |mem|, plan.len);
  }

  lemma RankFacts(plan: Plan, m0: seq<Memory>, s: State, r: nat)
    requires RankOk(plan, m0, s, r)
    ensures Clean(plan, m0) && |s.mem| == |s.ranks| == |m0| && IsGrid(s.written, |m0|) && r < |m0|
    ensures |s.mem[r]| == |m0[r]| && |Sources(plan, m0)| == |m0| && Sources(plan, m0)[r] == Source(plan, m0, r)
    ensures PhaseOk(plan, |m0|, s.ranks[r])
  {
    hide Clean, PhaseOk, BlockHolds, Elsewhere;
  }

  /** Until its exchange has returned, a rank's source reads as it did at the start, in place or not. */
  lemma SourceIntact(plan: Plan, m0: seq<Memory>, s: State, r: nat)
    requires RankOk(plan, m0, s, r) && !s.ranks[r].After?
    ensures plan.src[r] + plan.len <= |s.mem[r]|
    ensures s.mem[r][plan.src[r]..plan.src[r] + plan.len] == Sources(plan, m0)[r]
  {
    hide Clean, PhaseOk, MemoryOk, OffBlocks, Splice, Result;
    CleanParts(plan, m0, r);
    RankFacts(plan, m0, s, r);
    var before, at := Expected(plan, m0, r, s.ranks[r]), plan.src[r];
    RangeKept(plan, before, s.mem[r], r, Column(s, r), Sources(plan, m0), at);
    if s.ranks[r].Exchanging? && plan.dst[r] != at {
      SpliceElsewhere(m0[r], plan.dst[r], Sources(plan, m0)[r], at, at + plan.len);
    }
  }

  // ---- Each step keeps the invariant ----

  /** A rank whose phase, memory and written counts did not change. */
  lemma RankSame(plan: Plan, m0: seq<Memory>, s: State, t: State, r: nat)
    requires RankOk(plan, m0, s, r) && |t.mem| == |t.ranks| == |m0| && IsGrid(t.written, |m0|)
    requires t.ranks[r] == s.ranks[r] && t.mem[r] == s.mem[r]
    requires forall q :: 0 <= q < |m0| ==> t.written[q][r] == s.written[q][r]
    ensures RankOk(plan, m0, t, r)
  {
    hide Clean, MemoryOk, Expected, PhaseOk;
    assert Column(t, r) == Column(s, r);
  }

  /** A rank that copies or folds: a new phase, and its destination written. */
  lemma RankWrites(plan: Plan, m0: seq<Memory>, s: State, t: State, r: nat)
    requires RankOk(plan, m0, s, r) && |t.mem| == |t.ranks| == |m0| && t.written == s.written
    requires PhaseOk(plan, |m0|, t.ranks[r]) && !t.ranks[r].Before? && r < |plan.dst|
    requires plan.dst[r] + plan.len <= |s.mem[r]|
    requires FoldOk(plan)
    requires t.mem[r] == Splice(s.mem[r], plan.dst[r], Destination(plan, Sources(plan, m0), r, t.ranks[r]))
    ensures RankOk(plan, m0, t, r)
  {
    hide Clean, MemoryOk, PhaseOk, OffBlocks, Splice, Destination;
    CleanParts(plan, m0, r);
    RankFacts(plan, m0, s, r);
    var d := Destination(plan, Sources(plan, m0), r, t.ranks[r]);
    RangeWritten(plan, Expected(plan, m0, r, s.ranks[r]), s.mem[r], r, Column(s, r), Sources(plan, m0), plan.dst[r], d);
    assert Column(t, r) == Column(s, r);
    SpliceOver(m0[r], plan.dst[r], Destination(plan, Sources(plan, m0), r, s.ranks[r]), d);
  }

  lemma SpliceOver(mem: Memory, at: nat, old_: seq<byte>, new_: seq<byte>)
    requires |old_| == |new_| && at + |new_| <= |mem|
    ensures Splice(Splice(mem, at, old_), at, new_) == Splice(mem, at, new_)
  {
  }

  /** A link on which nothing was posted, polled, read out or written. */
  lemma LinkSame(plan: Plan, srcs: seq<seq<byte>>, s: State, t: State, q: nat, r: nat)
    requires LinkOk(plan, srcs, s, q, r) && |t.ranks| == |s.ranks| && IsGrid(t.written, |s.ranks|)
    requires IsGrid(t.wire, |s.ranks|)
    requires t.written[q][r] == s.written[q][r] && t.wire[q][r] == s.wire[q][r]
    requires var turns := Turns(plan);
             && SendsPosted(turns, t.ranks[q], r) >= SendsPosted(turns, s.ranks[q], r)
             && RecvsPosted(turns, t.ranks[r], q) >= RecvsPosted(turns, s.ranks[r], q)
             && Polled(turns, t.ranks[q], r) <= Read(s, q, r) && Polled(turns, t.ranks[r], q) <= s.written[q][r]
    ensures LinkOk(plan, srcs, t, q, r)
  {
    hide Chunk, SendsPosted, RecvsPosted, Polled, Turns;
  }

  /** What a rank's own step does to its posts and polls towards peer q. */
  lemma PhaseMoves(plan: Plan, n: nat, p: Phase, q: nat)
    requires PhaseOk(plan, n, p) && p.Exchanging? && q < n
    ensures var turns, p' := Turns(plan), Advanced(plan, n, p);
            && PhaseOk(plan, n, p')
            && SendsPosted(turns, p', q) >= SendsPosted(turns, p, q)
            && RecvsPosted(turns, p', q) >= RecvsPosted(turns, p, q)
            && Polled(turns, p', q) == (if p.stage == Polls(q) then p.t + 1 else Polled(turns, p, q))
            && (p.stage == Polls(q) ==> p.t < turns)
  {
    hide ChunkCount;
  }

  lemma CopyKeepsInv(plan: Plan, m0: seq<Memory>, s: State, r: nat)
    requires Inv(plan, m0, s) && Enabled(plan, s, Copy(r))
    ensures Inv(plan, m0, Effect(plan, s, Copy(r)))
  {
    hide Clean, RankOk, LinkOk, Splice, ChunkCount;
    var t := Effect(plan, s, Copy(r));
    RankFacts(plan, m0, s, r);
    SourceIntact(plan, m0, s, r);
    CleanParts(plan, m0, r);
    RankWrites(plan, m0, s, t, r);
    OthersKeep(plan, m0, s, t, r);
  }

  /** A step of rank r alone, for every other rank and for the links it neither posts nor polls on. */
  lemma OthersKeep(plan: Plan, m0: seq<Memory>, s: State, t: State, r: nat)
    requires Inv(plan, m0, s) && r < |m0| && |t.mem| == |t.ranks| == |m0| && t.written == s.written && t.wire == s.wire
    requires forall p :: 0 <= p < |m0| && p != r ==> t.ranks[p] == s.ranks[p] && t.mem[p] == s.mem[p]
    requires RankOk(plan, m0, t, r)
    requires forall q: nat :: q < |m0| && q != r ==> KeepsPosts(plan, s, t, r, q)
    ensures Inv(plan, m0, t)
  {
    hide Clean, RankOk, LinkOk, SendsPosted, RecvsPosted, Polled;
    forall p | 0 <= p < |m0|
      ensures RankOk(plan, m0, t, p)
    {
      if p != r {
        RankSame(plan, m0, s, t, p);
      }
    }
    forall q, p | 0 <= q < |m0| && 0 <= p < |m0| && q != p
      ensures LinkOk(plan, Sources(plan, m0), t, q, p)
    {
      LinkCounts(plan, Sources(plan, m0), s, q, p);
      assert q == r ==> KeepsPosts(plan, s, t, r, p);
      assert p == r ==> KeepsPosts(plan, s, t, r, q);
      LinkSame(plan, Sources(plan, m0), s, t, q, p);
    }
  }

  /** Rank r posted no less than before towards q, and polled no more than is complete. */
  ghost predicate KeepsPosts(plan: Plan, s: State, t: State, r: nat, q: nat) {
    && |t.ranks| == |s.ranks| && IsGrid(s.written, |s.ranks|) && IsGrid(s.wire, |s.ranks|) && r < |s.ranks|
    && q < |s.ranks|
    && var turns := Turns(plan);
       && SendsPosted(turns, t.ranks[r], q) >= SendsPosted(turns, s.ranks[r], q)
       && RecvsPosted(turns, t.ranks[r], q) >= RecvsPosted(turns, s.ranks[r], q)
       && Polled(turns, t.ranks[r], q) <= Read(s, r, q) && Polled(turns, t.ranks[r], q) <= s.written[q][r]
  }

  lemma LinkCounts(plan: Plan, srcs: seq<seq<byte>>, s: State, q: nat, r: nat)
    requires LinkOk(plan, srcs, s, q, r)
    ensures var turns := Turns(plan);
            && Polled(turns, s.ranks[q], r) <= Read(s, q, r) <= SendsPosted(turns, s.ranks[q], r)
            && Polled(turns, s.ranks[r], q) <= s.written[q][r] <= RecvsPosted(turns, s.ranks[r], q)
  {
    hide SendsPosted, RecvsPosted, Polled, Turns, Chunk;
  }

  lemma RankAdvances(plan: Plan, m0: seq<Memory>, s: State, t: State, r: nat)
    requires RankOk(plan, m0, s, r) && |t.mem| == |t.ranks| == |m0| && t.written == s.written && t.mem[r] == s.mem[r]
    requires s.ranks[r].Exchanging? && t.ranks[r] == Advanced(plan, |m0|, s.ranks[r]) && PhaseOk(plan, |m0|, t.ranks[r])
    ensures RankOk(plan, m0, t, r)
  {
    hide Clean, MemoryOk, PhaseOk, Turns, Splice;
    assert Column(t, r) == Column(s, r);
  }

  lemma AdvanceKeepsInv(plan: Plan, m0: seq<Memory>, s: State, r: nat)
    requires Inv(plan, m0, s) && Enabled(plan, s, Advance(r))
    ensures Inv(plan, m0, Effect(plan, s, Advance(r)))
  {
    hide Clean, RankOk, LinkOk, PhaseOk, SendsPosted, RecvsPosted, Polled, Turns;
    var t := Effect(plan, s, Advance(r));
    RankFacts(plan, m0, s, r);
    PhaseMoves(plan, |m0|, s.ranks[r], r);
    RankAdvances(plan, m0, s, t, r);
    forall q: nat | q < |m0| && q != r
      ensures KeepsPosts(plan, s, t, r, q)
    {
      PhaseMoves(plan, |m0|, s.ranks[r], q);
      LinkCounts(plan, Sources(plan, m0), s, r, q);
      LinkCounts(plan, Sources(plan, m0), s, q, r);
    }
    OthersKeep(plan, m0, s, t, r);
  }

  /** What rank r reads when it folds the block of rank k: its destination so far, and rank k's source. */
  lemma FoldReads(plan: Plan, m0: seq<Memory>, s: State, r: nat, k: nat)
    requires Inv(plan, m0, s) && r < |m0| && k < |m0| && k != r && s.ranks[r].After?
    ensures |plan.dst| == |plan.base| == |m0| && FoldOk(plan) && |Sources(plan, m0)| == |m0|
    ensures plan.dst[r] + plan.len <= |s.mem[r]| && BlockStart(plan, r, k) + plan.len <= |s.mem[r]|
    ensures s.mem[r][plan.dst[r]..plan.dst[r] + plan.len] == Result(plan, Sources(plan, m0), r, s.ranks[r].folded)
    ensures s.mem[r][BlockStart(plan, r, k)..BlockStart(plan, r, k) + plan.len] == Sources(plan, m0)[k]
  {
    DestinationHolds(plan, m0, s, r);
    BlockComplete(plan, m0, s, r, k);
    hide *;
    assert |Sources(plan, m0)| == |m0|;
  }

  /** A written destination reads as its phase says: nothing that arrives touches it. */
  lemma DestinationHolds(plan: Plan, m0: seq<Memory>, s: State, r: nat)
    requires Inv(plan, m0, s) && r < |m0| && !s.ranks[r].Before?
    ensures |plan.dst| == |plan.base| == |m0| && FoldOk(plan) && plan.dst[r] + plan.len <= |s.mem[r]|
    ensures s.mem[r][plan.dst[r]..plan.dst[r] + plan.len] == Destination(plan, Sources(plan, m0), r, s.ranks[r])
  {
    hide Clean, LinkOk, MemoryOk, PhaseOk, OffBlocks, Splice, Destination;
    assert RankOk(plan, m0, s, r);
    CleanParts(plan, m0, r);
    RankFacts(plan, m0, s, r);
    RangeKept(plan, Expected(plan, m0, r, s.ranks[r]), s.mem[r], r, Column(s, r), Sources(plan, m0), plan.dst[r]);
  }

  /** Once a rank has polled everything, each peer's block is complete. */
  lemma BlockComplete(plan: Plan, m0: seq<Memory>, s: State, r: nat, q: nat)
    requires Inv(plan, m0, s) && r < |m0| && q < |m0| && q != r && ExchangeReturned(plan, s.ranks[r])
    ensures |plan.base| == |m0| && BlockStart(plan, r, q) + plan.len <= |s.mem[r]|
    ensures s.mem[r][BlockStart(plan, r, q)..BlockStart(plan, r, q) + plan.len] == Sources(plan, m0)[q]
    ensures s.written[q][r] == Turns(plan)
  {
    hide PhaseOk, Elsewhere, CleanRank, Off;
    assert LinkOk(plan, Sources(plan, m0), s, q, r) && RankOk(plan, m0, s, r);
    RankFacts(plan, m0, s, r);
    assert Column(s, r)[q] == Turns(plan);
    BlockWhole(plan, s.mem[r], r, q, Sources(plan, m0)[q]);
  }

  lemma BlockWhole(plan: Plan, mem: Memory, r: nat, q: nat, src: seq<byte>)
    requires r < |plan.base| && plan.chunk > 0 && BlockHolds(plan, mem, r, q, Turns(plan), src)
    ensures mem[BlockStart(plan, r, q)..BlockStart(plan, r, q) + plan.len] == src
  {
    assert Arrived(plan, Turns(plan)) == plan.len;
    assert src[..plan.len] == src;
  }

  /** The exchange has returned: every chunk was posted, and both its completions polled. */
  predicate ExchangeReturned(plan: Plan, p: Phase) {
    p.After? || (p.Exchanging? && p.t == Turns(plan) && p.stage == Recvs(0))
  }

  lemma FoldKeepsInv(plan: Plan, m0: seq<Memory>, s: State, r: nat)
    requires Inv(plan, m0, s) && Enabled(plan, s, FoldNext(r))
    ensures Inv(plan, m0, Effect(plan, s, FoldNext(r)))
  {
    hide Clean, RankOk, LinkOk, Splice, Turns, Result, Kernel, FoldOk, Off, IsGrid;
    var t, k := Effect(plan, s, FoldNext(r)), s.ranks[r].folded;
    RankFacts(plan, m0, s, r);
    CleanParts(plan, m0, r);
    DestinationHolds(plan, m0, s, r);
    ResultStep(plan, Sources(plan, m0), r, k);
    if k == r {
      SpliceItself(s.mem[r], plan.dst[r], plan.len);
    } else {
      FoldReads(plan, m0, s, r, k);
    }
    RankWrites(plan, m0, s, t, r);
    forall q: nat | q < |m0| && q != r
      ensures KeepsPosts(plan, s, t, r, q)
    {
      LinkCounts(plan, Sources(plan, m0), s, r, q);
      LinkCounts(plan, Sources(plan, m0), s, q, r);
    }
    OthersKeep(plan, m0, s, t, r);
  }

  lemma SpliceItself(mem: Memory, at: nat, len: nat)
    requires at + len <= |mem|
    ensures Splice(mem, at, mem[at..at + len]) == mem
  {
  }

  lemma ResultStep(plan: Plan, srcs: seq<seq<byte>>, r: nat, k: nat)
    requires r < |srcs| && AllOfLength(srcs, plan.len) && FoldOk(plan) && plan.fold.Folds? && k < |srcs|
    ensures Result(plan, srcs, r, k + 1) == if k == r then Result(plan, srcs, r, k)
                                            else Kernel(plan.fold.op, plan.fold.dt, plan.fold.m,
                                                Result(plan, srcs, r, k), srcs[k])
  {
    hide Kernel, Off, Size;
  }

  lemma ReadKeepsInv(plan: Plan, m0: seq<Memory>, s: State, q: nat, r: nat)
    requires Inv(plan, m0, s) && Enabled(plan, s, ReadOut(q, r))
    ensures Inv(plan, m0, Effect(plan, s, ReadOut(q, r)))
  {
    hide Clean, RankOk, Chunk, SendsPosted, RecvsPosted, Polled, Turns, PhaseOk;
    var t, srcs := Effect(plan, s, ReadOut(q, r)), Sources(plan, m0);
    LinkCounts(plan, srcs, s, q, r);
    StillExchanging(plan, m0, s, q, r);
    SourceIntact(plan, m0, s, q);
    forall p | 0 <= p < |m0|
      ensures RankOk(plan, m0, t, p)
    {
      RankSame(plan, m0, s, t, p);
    }
    forall x, y | 0 <= x < |m0| && 0 <= y < |m0| && x != y
      ensures LinkOk(plan, srcs, t, x, y)
    {
      assert LinkOk(plan, srcs, s, x, y);
    }
  }

  /** A chunk is read out only while its sender is still in the exchange: a send completion follows the read. */
  lemma StillExchanging(plan: Plan, m0: seq<Memory>, s: State, q: nat, r: nat)
    requires Inv(plan, m0, s) && Enabled(plan, s, ReadOut(q, r))
    ensures !s.ranks[q].After?
  {
    hide RankOk, Clean, Turns;
    LinkCounts(plan, Sources(plan, m0), s, q, r);
  }

  lemma WriteKeepsInv(plan: Plan, m0: seq<Memory>, s: State, q: nat, r: nat)
    requires Inv(plan, m0, s) && Enabled(plan, s, WriteIn(q, r))
    ensures Inv(plan, m0, Effect(plan, s, WriteIn(q, r)))
  {
    hide Clean, RankOk, Chunk, SendsPosted, RecvsPosted, Polled, Turns, PhaseOk, Splice, Off;
    var t, srcs := Effect(plan, s, WriteIn(q, r)), Sources(plan, m0);
    RankReceives(plan, m0, s, t, q, r);
    forall p | 0 <= p < |m0|
      ensures RankOk(plan, m0, t, p)
    {
      if p != r {
        RankSame(plan, m0, s, t, p);
      }
    }
    forall x, y | 0 <= x < |m0| && 0 <= y < |m0| && x != y
      ensures LinkOk(plan, srcs, t, x, y)
    {
      assert LinkOk(plan, srcs, s, x, y);
    }
  }

  lemma RankReceives(plan: Plan, m0: seq<Memory>, s: State, t: State, q: nat, r: nat)
    requires Inv(plan, m0, s) && Enabled(plan, s, WriteIn(q, r)) && t == Effect(plan, s, WriteIn(q, r))
    ensures RankOk(plan, m0, t, r)
  {
    hide Clean, MemoryOk, Chunk, SendsPosted, RecvsPosted, Polled, Turns, PhaseOk, Splice, Off, Expected, CleanRank;
    var srcs := Sources(plan, m0);
    assert RankOk(plan, m0, s, r) && LinkOk(plan, srcs, s, q, r);
    ChunkInRange(plan, m0, s, q, r);
    var k := s.written[q][r];
    assert s.wire[q][r][0] == Chunk(srcs[q], plan.chunk, k + 0);
    WriteKeepsMemory(plan, Expected(plan, m0, r, s.ranks[r]), s.mem[r], r, Column(s, r), srcs, q);
    assert Column(t, r) == Column(s, r)[q := k + 1];
  }

  lemma ChunkInRange(plan: Plan, m0: seq<Memory>, s: State, q: nat, r: nat)
    requires RankOk(plan, m0, s, r) && q < |m0| && s.written[q][r] < RecvsPosted(Turns(plan), s.ranks[r], q)
    ensures Off(s.written[q][r], plan.chunk) <= plan.len
  {
    hide MemoryOk, CleanRank, Off;
    ChunkBelow(plan.len, plan.chunk, s.written[q][r]);
  }

  lemma StepKeepsInv(plan: Plan, m0: seq<Memory>, s: State, a: Action)
    requires Inv(plan, m0, s) && Enabled(plan, s, a)
    ensures Inv(plan, m0, Effect(plan, s, a))
  {
    hide *;
    match a
    case Copy(r) => CopyKeepsInv(plan, m0, s, r);
    case Advance(r) => AdvanceKeepsInv(plan, m0, s, r);
    case ReadOut(q, r) => ReadKeepsInv(plan, m0, s, q, r);
    case WriteIn(q, r) => WriteKeepsInv(plan, m0, s, q, r);
    case FoldNext(r) => FoldKeepsInv(plan, m0, s, r);
  }

  lemma InitInv(plan: Plan, m0: seq<Memory>, s: State)
    requires Init(plan, m0, s)
    ensures Inv(plan, m0, s)
  {
    hide CleanRank, MemoryOk, Chunk;
    forall r | 0 <= r < |m0|
      ensures RankOk(plan, m0, s, r)
    {
      forall q: nat | q < |m0|
        ensures BlockStart(plan, r, q) + plan.len <= |m0[r]|
      {
        BlockFits(plan, m0, r, q);
      }
      StartMemory(plan, m0[r], r, Column(s, r), Sources(plan, m0));
    }
  }

  lemma {:induction false} RunInv(plan: Plan, m0: seq<Memory>, tr: seq<State>, k: nat)
    requires Run(plan, m0, tr) && k < |tr|
    ensures Inv(plan, m0, tr[k])
  {
    hide Inv, Init, Enabled, Effect;
    if k == 0 {
      InitInv(plan, m0, tr[0]);
    } else {
      RunInv(plan, m0, tr, k - 1);
      assert Next(plan, tr[k - 1], tr[k]);
      var a :| Enabled(plan, tr[k - 1], a) && tr[k] == Effect(plan, tr[k - 1], a);
      StepKeepsInv(plan, m0, tr[k - 1], a);
    }
  }

  // ---- Results over every run ----

  lemma InvShaped(plan: Plan, m0: seq<Memory>, s: State)
    requires Inv(plan, m0, s)
    ensures Shaped(plan, s)
  {
    hide RankOk, LinkOk, Off, FoldOk;
    forall r | 0 <= r < |m0|
      ensures CleanRank(plan, |s.mem|, r, |s.mem[r]|)
    {
      RankFacts(plan, m0, s, r);
      assert CleanRank(plan, |m0|, r, |m0[r]|);
    }
  }

  /** When rank r's exchange has returned, its block for q holds q's source as it was before anyone started. */
  lemma ExchangeDelivers(plan: Plan, m0: seq<Memory>, tr: seq<State>, i: nat, r: nat, q: nat)
    requires Run(plan, m0, tr) && i < |tr| && Clean(plan, m0) && r < |m0| && q < |m0| && q != r
    requires r < |tr[i].ranks| && ExchangeReturned(plan, tr[i].ranks[r])
    ensures |tr[i].mem| == |m0| && HasAt(tr[i].mem[r], BlockStart(plan, r, q), Sources(plan, m0)[q])
  {
    hide Run, Inv, Clean, ExchangeReturned, Off;
    RunInv(plan, m0, tr, i);
    InvSizes(plan, m0, tr[i]);
    BlockComplete(plan, m0, tr[i], r, q);
  }

  lemma InvSizes(plan: Plan, m0: seq<Memory>, s: State)
    requires Inv(plan, m0, s)
    ensures |s.mem| == |s.ranks| == |m0| == |plan.src| == |plan.dst| == |plan.base|
    ensures IsGrid(s.written, |m0|) && IsGrid(s.wire, |m0|)
    ensures forall r :: 0 <= r < |m0| ==> |s.mem[r]| == |m0[r]|
  {
    hide RankOk, LinkOk, CleanRank;
    forall r | 0 <= r < |m0|
      ensures |s.mem[r]| == |m0[r]|
    {
      RankFacts(plan, m0, s, r);
    }
  }

  lemma ReturnedStep(plan: Plan, s: State, a: Action, r: nat)
    requires Enabled(plan, s, a) && r < |s.ranks| && ExchangeReturned(plan, s.ranks[r])
    ensures r < |Effect(plan, s, a).ranks| && ExchangeReturned(plan, Effect(plan, s, a).ranks[r])
  {
    hide Splice, Off, Kernel, Shaped, Clean, Turns, PollReady;
  }

  lemma {:induction false} ReturnedStays(plan: Plan, m0: seq<Memory>, tr: seq<State>, i: nat, j: nat, r: nat)
    requires Run(plan, m0, tr) && i <= j < |tr| && r < |tr[i].ranks| && ExchangeReturned(plan, tr[i].ranks[r])
    ensures r < |tr[j].ranks| && ExchangeReturned(plan, tr[j].ranks[r])
    decreases j
  {
    hide Init, Enabled, Effect, ExchangeReturned;
    if i < j {
      ReturnedStays(plan, m0, tr, i, j - 1, r);
      assert Next(plan, tr[j - 1], tr[j]);
      var a :| Enabled(plan, tr[j - 1], a) && tr[j] == Effect(plan, tr[j - 1], a);
      ReturnedStep(plan, tr[j - 1], a, r);
    }
  }

  /**
    From the moment a rank's exchange returns, all its chunks have been read out and every chunk
    for it has been written: no queue pair reads its source or writes its blocks again, so it may
    overwrite the one and give up the other.
   */
  lemma FinishedSourceIsFree(plan: Plan, m0: seq<Memory>, tr: seq<State>, i: nat, j: nat, r: nat, q: nat)
    requires Run(plan, m0, tr) && i <= j < |tr| && r < |tr[i].ranks| && ExchangeReturned(plan, tr[i].ranks[r])
    requires q < |m0| && q != r
    ensures IsGrid(tr[j].written, |m0|) && IsGrid(tr[j].wire, |m0|) && r < |m0|
    ensures Read(tr[j], r, q) == Turns(plan) && tr[j].written[q][r] == Turns(plan)
    ensures !Enabled(plan, tr[j], ReadOut(r, q)) && !Enabled(plan, tr[j], WriteIn(q, r))
  {
    RunInv(plan, m0, tr, j);
    ReturnedStays(plan, m0, tr, i, j, r);
    hide Run;
    InvSizes(plan, m0, tr[j]);
    LinkCounts(plan, Sources(plan, m0), tr[j], r, q);
    LinkCounts(plan, Sources(plan, m0), tr[j], q, r);
    hide Inv, Shaped, Turns;
  }

  /** A rank in phase p has posted its send of turn t to peer q. */
  predicate HasSent(p: Phase, t: nat, q: nat) {
    || p.After?
    || (p.Exchanging? && t < p.t)
    || (p.Exchanging? && t == p.t && (p.stage.Polls? || (p.stage.Sends? && q < p.stage.next)))
  }

  /** It has posted its receive of turn t from peer q. */
  predicate HasWindow(p: Phase, t: nat, q: nat) {
    || p.After?
    || (p.Exchanging? && t < p.t)
    || (p.Exchanging? && t == p.t && (!p.stage.Recvs? || q < p.stage.next))
  }

  /** In every run, no chunk leaves before its send is posted, and none is written before its window is there. */
  lemma PostsComeFirst(plan: Plan, m0: seq<Memory>, tr: seq<State>, i: nat, q: nat, r: nat, t: nat)
    requires Run(plan, m0, tr) && i < |tr| && q < |m0| && r < |m0| && q != r
    ensures |tr[i].ranks| == |m0| && IsGrid(tr[i].written, |m0|) && IsGrid(tr[i].wire, |m0|)
    ensures t < Read(tr[i], q, r) ==> HasSent(tr[i].ranks[q], t, r)
    ensures t < tr[i].written[q][r] ==> HasWindow(tr[i].ranks[r], t, q) && HasSent(tr[i].ranks[q], t, r)
  {
    hide Run;
    RunInv(plan, m0, tr, i);
    InvSizes(plan, m0, tr[i]);
    LinkCounts(plan, Sources(plan, m0), tr[i], q, r);
    hide Inv, Shaped, Turns;
  }

  /** Every chunk on the wire has the length of its window, and the window fits: no write is refused or cut short. */
  lemma WindowsAlwaysFit(plan: Plan, m0: seq<Memory>, tr: seq<State>, i: nat, q: nat, r: nat)
    requires Run(plan, m0, tr) && i < |tr| && q < |m0| && r < |m0| && q != r
    requires q < |tr[i].wire| && r < |tr[i].wire[q]| && tr[i].wire[q][r] != []
    ensures WindowFits(plan, tr[i], q, r)
    ensures var off := Off(tr[i].written[q][r], plan.chunk);
            off < plan.len && |tr[i].wire[q][r][0]| == Least(plan.chunk, plan.len - off)
  {
    hide Run;
    RunInv(plan, m0, tr, i);
    var s := tr[i];
    InvShaped(plan, m0, s);
    InvSizes(plan, m0, s);
    SentInRange(plan, m0, s, q, r);
    BlockFits(plan, m0, r, q);
    assert LinkOk(plan, Sources(plan, m0), s, q, r);
    assert s.wire[q][r][0] == Chunk(Sources(plan, m0)[q], plan.chunk, s.written[q][r] + 0);
    hide Inv, Clean;
  }

  lemma SentInRange(plan: Plan, m0: seq<Memory>, s: State, q: nat, r: nat)
    requires Inv(plan, m0, s) && q < |m0| && r < |m0| && q != r && s.wire[q][r] != []
    ensures plan.chunk > 0 && Off(s.written[q][r], plan.chunk) < plan.len
  {
    hide RankOk, CleanRank;
    LinkCounts(plan, Sources(plan, m0), s, q, r);
    RankFacts(plan, m0, s, q);
    ChunkBelow(plan.len, plan.chunk, s.written[q][r]);
  }

  /** Bytes outside a rank's destination and receive blocks never change. */
  lemma RunTouchesOnly(plan: Plan, m0: seq<Memory>, tr: seq<State>, i: nat, r: nat, b: nat)
    requires Run(plan, m0, tr) && i < |tr| && Clean(plan, m0) && r < |m0| && b < |m0[r]|
    requires !(plan.dst[r] <= b < plan.dst[r] + plan.len)
    requires forall q: nat :: q < |m0| && q != r ==> !(BlockStart(plan, r, q) <= b < BlockStart(plan, r, q) + plan.len)
    ensures |tr[i].mem| == |m0| && |tr[i].mem[r]| == |m0[r]| && tr[i].mem[r][b] == m0[r][b]
  {
    hide Run, Splice, LinkOk;
    RunInv(plan, m0, tr, i);
    var s := tr[i];
    assert RankOk(plan, m0, s, r);
    CleanParts(plan, m0, r);
    assert Elsewhere(plan, r, Column(s, r), b);
  }

  /** A rank that has copied and not yet folded holds its own source in its destination. */
  lemma CopyStays(plan: Plan, m0: seq<Memory>, tr: seq<State>, i: nat, r: nat)
    requires Run(plan, m0, tr) && i < |tr| && Clean(plan, m0) && r < |m0| && plan.fold.NoFold?
    requires r < |tr[i].ranks| && !tr[i].ranks[r].Before?
    ensures |tr[i].mem| == |m0| && HasAt(tr[i].mem[r], plan.dst[r], Sources(plan, m0)[r])
  {
    RunInv(plan, m0, tr, i);
    InvSizes(plan, m0, tr[i]);
    DestinationHolds(plan, m0, tr[i], r);
    hide Run, Inv, Clean;
  }

  /**
    The reduce, in place or not: a rank that has folded every block holds the reference reduction
    of all ranks' sources as they were before anyone started, whatever the others are doing.
   */
  lemma FoldsToReference(plan: Plan, m0: seq<Memory>, tr: seq<State>, i: nat, r: nat)
    requires Run(plan, m0, tr) && i < |tr| && Clean(plan, m0) && r < |m0| && plan.fold.Folds?
    requires r < |tr[i].ranks| && tr[i].ranks[r] == After(|m0|)
    ensures |tr[i].mem| == |m0| && Inputs(plan.fold.dt, Sources(plan, m0), plan.fold.m)
    ensures HasAt(tr[i].mem[r], plan.dst[r],
                  Reference(plan.fold.op, plan.fold.dt, Sources(plan, m0), plan.fold.m, |m0|))
  {
    hide *;
    RunInv(plan, m0, tr, i);
    InvSizes(plan, m0, tr[i]);
    DestinationHolds(plan, m0, tr[i], r);
    ResultIsReference(plan, Sources(plan, m0), r);
    AfterIs(plan, Sources(plan, m0), r, tr[i].ranks[r]);
    HasAtIs(tr[i].mem[r], plan.dst[r], plan.len, Result(plan, Sources(plan, m0), r, |m0|));
  }

  lemma ResultIsReference(plan: Plan, srcs: seq<seq<byte>>, r: nat)
    requires r < |srcs| && AllOfLength(srcs, plan.len) && FoldOk(plan) && plan.fold.Folds?
    ensures Inputs(plan.fold.dt, srcs, plan.fold.m)
    ensures Result(plan, srcs, r, |srcs|) == Reference(plan.fold.op, plan.fold.dt, srcs, plan.fold.m, |srcs|)
  {
    hide Off, Kernel, Size;
    AllRanksAgree(plan.fold.op, plan.fold.dt, srcs, plan.fold.m, r);
  }

  lemma AfterIs(plan: Plan, srcs: seq<seq<byte>>, r: nat, p: Phase)
    requires r < |srcs| && AllOfLength(srcs, plan.len) && FoldOk(plan) && p.After?
    ensures Destination(plan, srcs, r, p) == Result(plan, srcs, r, p.folded)
  {
  }

  lemma HasAtIs(mem: Memory, at: nat, len: nat, data: seq<byte>)
    requires |data| == len && at + len <= |mem| && mem[at..at + len] == data
    ensures HasAt(mem, at, data)
  {
  }

  // ---- Progress ----

  predicate Finished(plan: Plan, n: nat, p: Phase) { p == After(if plan.fold.Folds? then n else 0) }

  /** How far a rank's exchange is; ranks that are not exchanging count as done with it. */
  function Step(plan: Plan, p: Phase): nat { if p.Exchanging? then p.t else Turns(plan) + 1 }

  lemma LowestRank(plan: Plan, ranks: seq<Phase>) returns (r: nat)
    requires |ranks| > 0
    ensures r < |ranks| && forall q :: 0 <= q < |ranks| ==> Step(plan, ranks[r]) <= Step(plan, ranks[q])
  {
    hide Step;
    r := 0;
    for i := 1 to |ranks|
      invariant r < |ranks| && forall q :: 0 <= q < i ==> Step(plan, ranks[r]) <= Step(plan, ranks[q])
    {
      if Step(plan, ranks[i]) < Step(plan, ranks[r]) { r := i; }
    }
  }

  /** No deadlock: while some rank has not finished, some rank or queue pair can act. */
  lemma SomeStepEnabled(plan: Plan, m0: seq<Memory>, tr: seq<State>, i: nat, r: nat)
    requires Run(plan, m0, tr) && i < |tr| && r < |tr[i].ranks| && !Finished(plan, |m0|, tr[i].ranks[r])
    ensures exists a :: Enabled(plan, tr[i], a)
  {
    RunInv(plan, m0, tr, i);
    var s := tr[i];
    InvShaped(plan, m0, s);
    RankFacts(plan, m0, s, r);
    if s.ranks[r].Before? {
      assert Enabled(plan, s, Copy(r));
    } else if s.ranks[r].After? {
      assert Enabled(plan, s, FoldNext(r));
    } else {
      var low := LowestRank(plan, s.ranks);
      RankFacts(plan, m0, s, low);
      LowestCanMove(plan, m0, tr, i, low);
    }
  }

  lemma LowestCanMove(plan: Plan, m0: seq<Memory>, tr: seq<State>, i: nat, r: nat)
    requires Run(plan, m0, tr) && i < |tr| && Inv(plan, m0, tr[i]) && Shaped(plan, tr[i]) && r < |tr[i].ranks|
    requires tr[i].ranks[r].Exchanging?
    requires forall q :: 0 <= q < |tr[i].ranks| ==> Step(plan, tr[i].ranks[r]) <= Step(plan, tr[i].ranks[q])
    ensures exists a :: Enabled(plan, tr[i], a)
  {
    hide Run, Clean, RankOk, Chunk;
    var s, q := tr[i], tr[i].ranks[r].stage.next;
    var t := s.ranks[r].t;
    if !Enabled(plan, s, Advance(r)) {
      RankFacts(plan, m0, s, r);
      if Read(s, r, q) <= t {
        assert Enabled(plan, s, ReadOut(r, q));
      } else {
        PeerCanMove(plan, m0, tr, i, r, q);
      }
    }
  }

  /** A rank waits for peer q's chunk: it can be written, or read out, or q can go on, or q has yet to copy. */
  lemma PeerCanMove(plan: Plan, m0: seq<Memory>, tr: seq<State>, i: nat, r: nat, q: nat)
    requires Run(plan, m0, tr) && i < |tr| && Inv(plan, m0, tr[i]) && Shaped(plan, tr[i]) && r < |m0| && q < |m0|
    requires q != r
    requires var p := tr[i].ranks[r];
             && p.Exchanging? && p.stage == Polls(q) && p.t < Turns(plan) && tr[i].written[q][r] <= p.t
             && p.t <= Step(plan, tr[i].ranks[q])
    ensures exists a :: Enabled(plan, tr[i], a)
  {
    hide Run, Clean, RankOk, Chunk;
    var s, p := tr[i], tr[i].ranks[q];
    RankFacts(plan, m0, s, q);
    if p.Before? {
      assert Enabled(plan, s, Copy(q));
    } else if s.wire[q][r] != [] {
      WindowsAlwaysFit(plan, m0, tr, i, q, r);
      assert Enabled(plan, s, WriteIn(q, r));
    } else if Read(s, q, r) < SendsPosted(Turns(plan), p, r) {
      assert Enabled(plan, s, ReadOut(q, r));
    } else {
      assert Enabled(plan, s, Advance(q));
    }
  }
}
