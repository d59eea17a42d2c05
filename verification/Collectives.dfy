/**
  All-reduce and all-gather of the direct backend (backend.go), over a mesh or over a sparse
  graph.

  The mesh exchange sends each rank's buffer to every peer it has a connection to, in staging-size
  chunks, and leaves a nil buffer for every other peer; the final loops fold a nil buffer without
  complaint. Over every asynchronous run a rank ends with the buffers of its linked peers, so the
  mesh path is right for all inputs exactly where every link was opened.
 */
module Collectives {
  import opened Bytes
  import opened Chunks
  import opened Options
  import opened RankGraph
  import opened Lockstep
  import opened Reduce
  import GraphGather
  import Topology

  // ---- Chunked mesh exchange ----

  /** A receive buffer that holds the first k chunks. */
  ghost function Filled(src: seq<byte>, chunk: nat, k: nat): (b: seq<byte>)
    ensures |b| == |src|
  {
    var lo := Least(Off(k, chunk), |src|);
    src[..lo] + Zeros(|src| - lo)
  }

  lemma FilledStep(src: seq<byte>, chunk: nat, k: nat)
    requires Off(k, chunk) <= |src|
    ensures Off(k, chunk) + |Chunk(src, chunk, k)| <= |src|
    ensures Splice(Filled(src, chunk, k), Off(k, chunk), Chunk(src, chunk, k)) == Filled(src, chunk, k + 1)
  {
    var lo := Off(k, chunk);
    var hi := Least(lo + chunk, |src|);
    ChunkShift(k, chunk);
    var l, r := Splice(Filled(src, chunk, k), lo, Chunk(src, chunk, k)), Filled(src, chunk, k + 1);
    assert l == src[..lo] + src[lo..hi] + Zeros(|src| - hi);
    assert r == src[..hi] + Zeros(|src| - hi);
    assert src[..hi] == src[..lo] + src[lo..hi];
  }

  lemma FilledEnds(src: seq<byte>, chunk: nat)
    requires chunk > 0
    ensures Filled(src, chunk, 0) == Zeros(|src|)
    ensures Filled(src, chunk, ChunkCount(|src|, chunk)) == src
  {
  }

  /** The per-peer receive buffers of one rank; the slots of itself and of peers without a connection stay nil. */
  type Buffers = seq<seq<byte>>

  ghost function MeshProtocol(links: Adjacency, inputs: seq<seq<byte>>, len: nat, chunk: nat)
    : Protocol<Buffers, seq<byte>>
    requires chunk > 0 && |links| == |inputs|
  {
    var n := |inputs|;
    Protocol(
      ChunkCount(len, chunk),
      seq(n, r requires 0 <= r < n => Peers(links, r)),
      seq(n, r requires 0 <= r < n => seq(n, q requires 0 <= q < n => if Edge(links, r, q) then Zeros(len) else [])),
      (r: nat, t: nat, bufs: Buffers) => if r < n then Chunk(inputs[r], chunk, t) else [],
      (r: nat, t: nat, q: nat, bufs: Buffers, p: seq<byte>) =>
        if q < |bufs| && Off(t, chunk) + |p| <= |bufs[q]| then bufs[q := Splice(bufs[q], Off(t, chunk), p)] else bufs)
  }

  lemma MeshWellFormed(links: Adjacency, inputs: seq<seq<byte>>, len: nat, chunk: nat)
    requires chunk > 0 && |links| == |inputs|
    ensures WellFormed(MeshProtocol(links, inputs, len, chunk))
    ensures Symmetric(links) ==> Mutual(MeshProtocol(links, inputs, len, chunk))
  {
    var pr := MeshProtocol(links, inputs, len, chunk);
    forall r, i | 0 <= r < |pr.peers| && 0 <= i < |pr.peers[r]|
      ensures pr.peers[r][i] < |pr.peers|
    {
      assert pr.peers[r][i] in Peers(links, r);
    }
    forall q, r | Symmetric(links) && 0 <= q < |pr.peers| && 0 <= r < |pr.peers|
      ensures q in pr.peers[r] <==> r in pr.peers[q]
    {
      assert Edge(links, q, r) <==> Edge(links, r, q);
    }
  }

  /** Buffers of rank r in step t after taking from its first i peers. */
  ghost function Got(links: Adjacency, inputs: seq<seq<byte>>, chunk: nat, r: nat, t: nat, i: nat): (b: Buffers)
    requires r < |links| == |inputs| && i <= |Peers(links, r)|
    ensures |b| == |inputs|
  {
    seq(|inputs|, q requires 0 <= q < |inputs| =>
      if Edge(links, r, q) then Filled(inputs[q], chunk, if q in Peers(links, r)[..i] then t + 1 else t) else [])
  }

  lemma TakenEnds(links: Adjacency, inputs: seq<seq<byte>>, chunk: nat, r: nat, t: nat)
    requires r < |links| == |inputs|
    ensures Got(links, inputs, chunk, r, t, |Peers(links, r)|) == Got(links, inputs, chunk, r, t + 1, 0)
  {
    hide Filled, Peers;
    var peers := Peers(links, r);
    assert peers[..|peers|] == peers && peers[..0] == [];
  }

  lemma TakenStep(links: Adjacency, inputs: seq<seq<byte>>, chunk: nat, r: nat, t: nat, i: nat)
    requires r < |links| == |inputs| && i < |Peers(links, r)|
    requires var q := Peers(links, r)[i]; q < |inputs| && Off(t, chunk) <= |inputs[q]|
    ensures var q := Peers(links, r)[i];
            var bufs := Got(links, inputs, chunk, r, t, i);
            var p := Chunk(inputs[q], chunk, t);
            && Off(t, chunk) + |p| <= |bufs[q]|
            && bufs[q := Splice(bufs[q], Off(t, chunk), p)] == Got(links, inputs, chunk, r, t, i + 1)
  {
    hide Filled, Chunk, Splice, Peers, Off;
    var peers := Peers(links, r);
    var q := peers[i];
    PeersSplit(links, r, i);
    FilledStep(inputs[q], chunk, t);
    var got := Got(links, inputs, chunk, r, t, i)[q := Filled(inputs[q], chunk, t + 1)];
    var want := Got(links, inputs, chunk, r, t, i + 1);
    forall v | 0 <= v < |inputs|
      ensures got[v] == want[v]
    {
      assert v in peers[..i + 1] <==> v in peers[..i] || v == q;
    }
    assert got == want;
  }

  lemma PeersSplit(links: Adjacency, r: nat, i: nat)
    requires r < |links| && i < |Peers(links, r)|
    ensures var peers := Peers(links, r);
            && Edge(links, r, peers[i]) && peers[i] !in peers[..i]
            && forall v :: v in peers[..i + 1] <==> v in peers[..i] || v == peers[i]
  {
    var peers := Peers(links, r);
    hide Peers;
    assert peers[i] in peers;
    assert peers[..i + 1] == peers[..i] + [peers[i]];
  }

  lemma MeshParts(links: Adjacency, inputs: seq<seq<byte>>, len: nat, chunk: nat, r: nat)
    requires chunk > 0 && AllOfLength(inputs, len) && r < |links| == |inputs|
    ensures var pr := MeshProtocol(links, inputs, len, chunk);
            && |pr.peers| == |pr.init| == |inputs| && pr.peers[r] == Peers(links, r)
            && pr.init[r] == Got(links, inputs, chunk, r, 0, 0)
  {
    hide Filled, Peers;
    var pr := MeshProtocol(links, inputs, len, chunk);
    forall q | 0 <= q < |inputs|
      ensures pr.init[r][q] == Got(links, inputs, chunk, r, 0, 0)[q]
    {
      FilledEnds(inputs[q], chunk);
    }
    assert pr.init[r] == Got(links, inputs, chunk, r, 0, 0);
  }

  lemma {:induction false} MeshSync(links: Adjacency, inputs: seq<seq<byte>>, len: nat, chunk: nat, r: nat, t: nat)
    requires chunk > 0 && AllOfLength(inputs, len) && r < |links| == |inputs| && t <= ChunkCount(len, chunk)
    requires WellFormed(MeshProtocol(links, inputs, len, chunk))
    ensures Sync(MeshProtocol(links, inputs, len, chunk), r, t) == Got(links, inputs, chunk, r, t, 0)
    decreases t, 0
  {
    hide Lockstep.WellFormed, Got, MeshProtocol, Peers;
    MeshParts(links, inputs, len, chunk, r);
    if t > 0 {
      MeshSyncTaken(links, inputs, len, chunk, r, t - 1, |Peers(links, r)|);
      TakenEnds(links, inputs, chunk, r, t - 1);
    }
  }

  lemma {:induction false} MeshSyncTaken(links: Adjacency, inputs: seq<seq<byte>>, len: nat, chunk: nat, r: nat, t: nat,
                                         i: nat)
    requires chunk > 0 && AllOfLength(inputs, len) && r < |links| == |inputs| && t < ChunkCount(len, chunk)
    requires i <= |Peers(links, r)|
    requires WellFormed(MeshProtocol(links, inputs, len, chunk))
    ensures SyncTaken(MeshProtocol(links, inputs, len, chunk), r, t, i) == Got(links, inputs, chunk, r, t, i)
    decreases t, i + 1
  {
    hide Lockstep.WellFormed, Got, Chunk, Splice, Peers, Off;
    if i == 0 {
      MeshSync(links, inputs, len, chunk, r, t);
    } else {
      MeshSyncTaken(links, inputs, len, chunk, r, t, i - 1);
      PeersSplit(links, r, i - 1);
      ChunkBelow(len, chunk, t);
      TakenStep(links, inputs, chunk, r, t, i - 1);
    }
  }

  /** What the exchange leaves on a rank: the buffers of its linked peers, nil for the rest. */
  function LinkedBuffers(links: Adjacency, inputs: seq<seq<byte>>, r: nat): (b: Buffers)
    ensures |b| == |inputs|
  {
    seq(|inputs|, q requires 0 <= q < |inputs| => if Edge(links, r, q) then inputs[q] else [])
  }

  /**
    In every run, a rank that has finished the exchange holds every linked peer's whole buffer and
    nothing for the others.
   */
  lemma MeshDelivers(links: Adjacency, inputs: seq<seq<byte>>, len: nat, chunk: nat,
                     tr: seq<State<Buffers, seq<byte>>>, k: nat, r: nat)
    requires chunk > 0 && AllOfLength(inputs, len) && r < |links| == |inputs|
    requires var pr := MeshProtocol(links, inputs, len, chunk);
             WellFormed(pr) && Run(pr, tr) && k < |tr| && r < |tr[k].ranks| && Finished(pr, tr[k].ranks[r])
    ensures tr[k].ranks[r].local == LinkedBuffers(links, inputs, r)
  {
    hide Run, Peers, Filled;
    RunMatchesSync(MeshProtocol(links, inputs, len, chunk), tr, k, r);
    MeshSync(links, inputs, len, chunk, r, ChunkCount(len, chunk));
    forall q | 0 <= q < |inputs|
      ensures tr[k].ranks[r].local[q] == LinkedBuffers(links, inputs, r)[q]
    {
      FilledEnds(inputs[q], chunk);
    }
  }

  // ---- The final loops, shared by both paths ----

  /** What the loop makes of the first k buffers: a nil buffer is folded without effect. */
  function FoldPresent(op: Op, dt: DType, values: Buffers, m: nat, acc: seq<byte>, skip: nat, k: nat): (r: seq<byte>)
    requires Supported(dt) && |acc| == Off(m, Size(dt)) && k <= |values| && WholeOrNil(dt, values, m)
    ensures |r| == Off(m, Size(dt))
  {
    if k == 0 then acc
    else
      var rest := FoldPresent(op, dt, values, m, acc, skip, k - 1);
      if k - 1 == skip || values[k - 1] == [] then rest else Kernel(op, dt, m, rest, values[k - 1])
  }

  /** Every buffer is nil or holds m elements. */
  predicate WholeOrNil(dt: DType, values: Buffers, m: nat) {
    forall q :: 0 <= q < |values| ==> values[q] == [] || |values[q]| == Off(m, Size(dt))
  }

  /**
    allReduce after the exchange: copy src, then fold the buffers in rank order. It never fails on a
    supported dtype.
   */
  method ReduceInto(op: Op, dt: DType, dst: array<byte>, src: seq<byte>, rank: nat, values: Buffers, m: nat)
    returns (err: Option<ReduceError>)
    requires rank < |values| && dst.Length == |src| == Off(m, Size(dt)) && Supported(dt) && WholeOrNil(dt, values, m)
    modifies dst
    ensures err == None && dst[..] == FoldPresent(op, dt, values, m, src, rank, |values|)
  {
    hide *;
    FoldPresentStart(op, dt, values, m, src, rank);
    Store(dst, 0, src);
    WholeSplice(old(dst[..]), src);
    for peer := 0 to |values|
      invariant dst[..] == FoldPresent(op, dt, values, m, src, rank, peer)
    {
      FoldPresentStep(op, dt, values, m, src, rank, peer);
      ValueWholeOrNil(dt, values, m, peer);
      if peer != rank {
        err := FoldPeer(op, dt, dst, m, values[peer]);
      }
    }
    return None;
  }

  lemma FoldPresentStart(op: Op, dt: DType, values: Buffers, m: nat, acc: seq<byte>, skip: nat)
    requires Supported(dt) && |acc| == Off(m, Size(dt)) && WholeOrNil(dt, values, m)
    ensures FoldPresent(op, dt, values, m, acc, skip, 0) == acc
  {
  }

  lemma ValueWholeOrNil(dt: DType, values: Buffers, m: nat, q: nat)
    requires WholeOrNil(dt, values, m) && q < |values|
    ensures values[q] == [] || |values[q]| == Off(m, Size(dt))
  {
  }

  lemma FoldPresentStep(op: Op, dt: DType, values: Buffers, m: nat, acc: seq<byte>, skip: nat, k: nat)
    requires Supported(dt) && |acc| == Off(m, Size(dt)) && k < |values| && WholeOrNil(dt, values, m)
    ensures FoldPresent(op, dt, values, m, acc, skip, k + 1)
         == (var rest := FoldPresent(op, dt, values, m, acc, skip, k);
             if k == skip || values[k] == [] then rest else Kernel(op, dt, m, rest, values[k]))
  {
    hide Kernel, Off, Size, Supported;
  }

  lemma WholeSplice(mem: seq<byte>, data: seq<byte>)
    requires |data| == |mem|
    ensures Splice(mem, 0, data) == data
  {
  }

  lemma {:induction false} CountOf(m: nat, w: nat)
    requires w in {1, 2, 4, 8}
    ensures Off(m, w) % w == 0 && Off(m, w) / w == m
  {
    if m > 0 {
      CountOf(m - 1, w);
      var len := Off(m - 1, w);
      if w == 1 {
        assert (len + 1) / 1 == len / 1 + 1;
      } else if w == 2 {
        assert (len + 2) / 2 == len / 2 + 1;
      } else if w == 4 {
        assert (len + 4) / 4 == len / 4 + 1;
      } else {
        assert (len + 8) / 8 == len / 8 + 1;
      }
    }
  }

  /** One peer's buffer folded into the whole of dst. */
  method FoldPeer(op: Op, dt: DType, dst: array<byte>, m: nat, value: seq<byte>) returns (err: Option<ReduceError>)
    requires dst.Length == Off(m, Size(dt)) && (value == [] || |value| == Off(m, Size(dt))) && Supported(dt)
    modifies dst
    ensures err == None
    ensures dst[..] == if value == [] then old(dst[..]) else Kernel(op, dt, m, old(dst[..]), value)
  {
    hide Kernel, Off, Size, Splice, Supported;
    ghost var was := dst[..];
    if value == [] {
      err := Reduce.Apply(op, dt, dst, 0, dst.Length, value);
      NothingSpliced(was, dst[..], |value|);
    } else {
      CountOf(m, Size(dt));
      err := Reduce.Apply(op, dt, dst, 0, dst.Length, value);
      assert was[0..0 + |value|] == was;
      WholeSplice(was, Kernel(op, dt, m, was, value));
    }
  }

  lemma NothingSpliced(was: seq<byte>, now: seq<byte>, n: nat)
    requires n == 0 && |now| == |was| && exists d: seq<byte> :: |d| == 0 && now == Splice(was, 0, d)
    ensures now == was
  {
  }

  /** An unsupported dtype is refused at the first peer, leaving a copy of src. */
  method ReduceIntoUnsupported(op: Op, dt: DType, dst: array<byte>, src: seq<byte>, rank: nat, values: seq<seq<byte>>)
    returns (err: Option<ReduceError>)
    requires rank < |values| && dst.Length == |src| && !Supported(dt)
    modifies dst
    ensures dst[..] == src && (err == None <==> |values| == 1)
  {
    Store(dst, 0, src);
    assert dst[..] == src;
    for peer := 0 to |values|
      invariant dst[..] == src && peer <= 1 && (peer == 1 ==> rank == 0)
    {
      if peer != rank {
        err := Reduce.Apply(op, dt, dst, 0, dst.Length, values[peer]);
        return err;
      }
    }
    return None;
  }

  /** allGather's blocks: the rank's own source, what arrived, and for a nil buffer what the destination held. */
  function GatherBlocks(was: seq<byte>, src: seq<byte>, rank: nat, values: Buffers): (bs: seq<seq<byte>>)
    requires |was| == Off(|values|, |src|) && forall p :: 0 <= p < |values| ==> values[p] == [] || |values[p]| == |src|
    ensures |bs| == |values| && AllOfLength(bs, |src|)
  {
    seq(|values|, p requires 0 <= p < |values| => GatherBlock(was, src, rank, values, p))
  }

  function GatherBlock(was: seq<byte>, src: seq<byte>, rank: nat, values: Buffers, p: nat): (b: seq<byte>)
    requires |was| == Off(|values|, |src|) && p < |values| && (values[p] == [] || |values[p]| == |src|)
    ensures |b| == |src|
  {
    OffBounds(p, |values|, |src|);
    if p == rank then src else if values[p] == [] then was[Off(p, |src|)..Off(p, |src|) + |src|] else values[p]
  }

  /** allGather after the exchange: one block per rank, in rank order. */
  method GatherInto(dst: array<byte>, src: seq<byte>, rank: nat, values: Buffers)
    requires rank < |values| && dst.Length == Off(|values|, |src|)
    requires forall p :: 0 <= p < |values| ==> values[p] == [] || |values[p]| == |src|
    modifies dst
    ensures dst[..] == Join(GatherBlocks(old(dst[..]), src, rank, values))
  {
    hide *;
    var n, e := |values|, |src|;
    ghost var bs := GatherBlocks(dst[..], src, rank, values);
    ghost var placed: set<nat> := set p | 0 <= p < n && p != rank && values[p] == [];
    NilBlocksPlaced(dst[..], src, rank, values, placed);
    BlockIs(dst[..], src, rank, values, rank);
    ghost var was := dst[..];
    PlaceBlock(dst, bs, e, placed, rank, src);
    placed := placed + {rank};
    for peer := 0 to n
      invariant forall p: nat | p < n :: p in placed <==> p < peer || p == rank || values[p] == []
      invariant Placed(dst[..], bs, e, placed)
    {
      if peer != rank && values[peer] != [] {
        BlockIs(was, src, rank, values, peer);
        PlaceBlock(dst, bs, e, placed, peer, values[peer]);
        placed := placed + {peer};
      }
    }
    AllPlaced(dst[..], bs, e, placed);
  }

  lemma BlockIs(was: seq<byte>, src: seq<byte>, rank: nat, values: Buffers, p: nat)
    requires |was| == Off(|values|, |src|) && forall q :: 0 <= q < |values| ==> values[q] == [] || |values[q]| == |src|
    requires p < |values|
    ensures GatherBlocks(was, src, rank, values)[p] == GatherBlock(was, src, rank, values, p)
    ensures p == rank ==> GatherBlock(was, src, rank, values, p) == src
    ensures p != rank && values[p] != [] ==> GatherBlock(was, src, rank, values, p) == values[p]
  {
  }

  lemma NilBlocksPlaced(was: seq<byte>, src: seq<byte>, rank: nat, values: Buffers, nils: set<nat>)
    requires |was| == Off(|values|, |src|) && forall p :: 0 <= p < |values| ==> values[p] == [] || |values[p]| == |src|
    requires forall p :: p in nils ==> p < |values| && p != rank && values[p] == []
    ensures Placed(was, GatherBlocks(was, src, rank, values), |src|, nils)
  {
    hide Off;
    forall p: nat | p < |values| && p in nils
      ensures Off(p, |src|) + |src| <= |was|
    {
      OffBounds(p, |values|, |src|);
    }
  }

  method PlaceBlock(dst: array<byte>, ghost inputs: seq<seq<byte>>, e: nat, ghost done: set<nat>, p: nat,
                    value: seq<byte>)
    requires AllOfLength(inputs, e) && p < |inputs| && value == inputs[p] && Placed(dst[..], inputs, e, done)
    modifies dst
    ensures Placed(dst[..], inputs, e, done + {p})
  {
    hide Placed, Splice, Off;
    PlaceOne(dst[..], inputs, e, done, p);
    Store(dst, Off(p, e), value);
  }

  /** The blocks of the ranks in done are in place. */
  ghost predicate Placed(mem: seq<byte>, inputs: seq<seq<byte>>, e: nat, done: set<nat>) {
    && |mem| == Off(|inputs|, e)
    && forall p: nat | p < |inputs| && p in done ::
         Off(p, e) + e <= |mem| && mem[Off(p, e)..Off(p, e) + e] == inputs[p]
  }

  lemma PlaceOne(mem: seq<byte>, inputs: seq<seq<byte>>, e: nat, done: set<nat>, p: nat)
    requires AllOfLength(inputs, e) && Placed(mem, inputs, e, done) && p < |inputs|
    ensures Off(p, e) + e <= |mem|
    ensures Placed(Splice(mem, Off(p, e), inputs[p]), inputs, e, done + {p})
  {
    hide Off, Splice;
    OffBounds(p, |inputs|, e);
    var now := Splice(mem, Off(p, e), inputs[p]);
    forall q: nat | q < |inputs| && q in done + {p}
      ensures Off(q, e) + e <= |now| && now[Off(q, e)..Off(q, e) + e] == inputs[q]
    {
      OffBounds(q, |inputs|, e);
      if q < p {
        OffBounds(q, p, e);
        SpliceElsewhere(mem, Off(p, e), inputs[p], Off(q, e), Off(q, e) + e);
      } else if p < q {
        OffBounds(p, q, e);
        SpliceElsewhere(mem, Off(p, e), inputs[p], Off(q, e), Off(q, e) + e);
      }
    }
  }

  lemma AllPlaced(mem: seq<byte>, inputs: seq<seq<byte>>, e: nat, done: set<nat>)
    requires AllOfLength(inputs, e) && Placed(mem, inputs, e, done)
    requires forall p: nat | p < |inputs| :: p in done
    ensures mem == Join(inputs)
  {
    JoinFromBlocks(mem, inputs, e);
  }

  lemma {:induction false} JoinFromBlocks(mem: seq<byte>, inputs: seq<seq<byte>>, e: nat)
    requires AllOfLength(inputs, e) && |mem| == Off(|inputs|, e)
    requires forall p: nat | p < |inputs| :: Off(p, e) + e <= |mem| && mem[Off(p, e)..Off(p, e) + e] == inputs[p]
    ensures mem == Join(inputs)
    decreases |inputs|
  {
    hide Off;
    if inputs == [] {
      OffIsProduct(0, e);
    } else {
      var last := |inputs| - 1;
      OffBounds(last, |inputs|, e);
      var front, rest := mem[..Off(last, e)], inputs[..last];
      forall p: nat | p < |rest|
        ensures Off(p, e) + e <= |front| && front[Off(p, e)..Off(p, e) + e] == rest[p]
      {
        OffBounds(p, last, e);
        SliceOfSlice(mem, 0, Off(last, e), Off(p, e), Off(p, e) + e);
      }
      JoinFromBlocks(front, rest, e);
      assert mem == front + mem[Off(last, e)..Off(last, e) + e];
    }
  }


  // ---- When the results are right ----

  /** Rank r has a connection to every other rank. */
  ghost predicate FullyLinked(links: Adjacency, r: nat) {
    forall q: nat :: q < |links| && q != r ==> Edge(links, r, q)
  }

  /** The all-reduce of rank r on the mesh path, over the links that were opened. */
  function MeshResult(op: Op, dt: DType, links: Adjacency, inputs: seq<seq<byte>>, m: nat, r: nat): (d: seq<byte>)
    requires Inputs(dt, inputs, m) && r < |inputs|
    ensures |d| == Off(m, Size(dt))
  {
    FoldPresent(op, dt, LinkedBuffers(links, inputs, r), m, inputs[r], r, |inputs|)
  }

  lemma {:induction false} FullFold(op: Op, dt: DType, links: Adjacency, inputs: seq<seq<byte>>, m: nat, r: nat, k: nat)
    requires Inputs(dt, inputs, m) && r < |inputs| == |links| && k <= |inputs| && FullyLinked(links, r)
    ensures FoldPresent(op, dt, LinkedBuffers(links, inputs, r), m, inputs[r], r, k)
         == FoldSkipping(op, dt, inputs, m, inputs[r], r, k)
  {
    hide Kernel, Size, Off;
    if k > 0 {
      FullFold(op, dt, links, inputs, m, r, k - 1);
      if k - 1 != r {
        assert Edge(links, r, k - 1);
      }
    }
  }

  /** A buffer of m equal elements. */
  ghost function Uniform(e: seq<byte>, m: nat): (b: seq<byte>)
    ensures |b| == Off(m, |e|)
  {
    JoinLength(seq(m, _ => e), |e|);
    Join(seq(m, _ => e))
  }

  lemma UniformAt(e: seq<byte>, m: nat, j: nat)
    requires j < m
    ensures Off(j, |e|) + |e| <= |Uniform(e, m)| && Nth(Uniform(e, m), |e|, j) == e
  {
    JoinAt(seq(m, _ => e), |e|, j);
  }

  lemma UniformKernel(op: Op, dt: DType, m: nat, a: seq<byte>, b: seq<byte>)
    requires |a| == |b| == Size(dt) && Supported(dt)
    ensures Kernel(op, dt, m, Uniform(a, m), Uniform(b, m)) == Uniform(Combine(op, dt, a, b), m)
  {
    hide Combine, Size, Nth, Uniform, Off;
    var es := Combined(op, dt, m, Uniform(a, m), Uniform(b, m));
    forall j | 0 <= j < m
      ensures es[j] == Combine(op, dt, a, b)
    {
      UniformAt(a, m, j);
      UniformAt(b, m, j);
    }
    UniformIs(es, Combine(op, dt, a, b));
  }

  lemma UniformIs(es: seq<seq<byte>>, e: seq<byte>)
    requires forall j :: 0 <= j < |es| ==> es[j] == e
    ensures Join(es) == Uniform(e, |es|)
  {
    assert es == seq(|es|, _ => e);
  }

  /** An element of w bytes with value 0 or 1. */
  function Small(one: bool, w: nat): (e: seq<byte>)
    requires w > 0
    ensures |e| == w
  {
    [if one then 1 else 0] + Zeros(w - 1)
  }

  lemma {:induction false} ZerosValue(n: nat)
    ensures Reduce.Value(Zeros(n)) == 0
  {
    if n > 0 {
      ZerosValue(n - 1);
      assert Zeros(n)[1..] == Zeros(n - 1);
    }
  }

  lemma SmallValue(one: bool, w: nat)
    requires w > 0
    ensures Reduce.Value(Small(one, w)) == (if one then 1 else 0)
  {
    ZerosValue(w - 1);
    assert Small(one, w)[1..] == Zeros(w - 1);
  }

  /** For each operation, an element that changes nothing and one that shows in every result. */
  lemma QuietAndLoud(op: Op, dt: DType)
    requires Supported(dt)
    ensures var quiet, loud := Small(op.Min?, Size(dt)), Small(!op.Min?, Size(dt));
            && quiet != loud && Combine(op, dt, quiet, quiet) == quiet && Combine(op, dt, loud, quiet) == loud
  {
    var w := Size(dt);
    var quiet, loud := Small(op.Min?, w), Small(!op.Min?, w);
    SmallValue(op.Min?, w);
    SmallValue(!op.Min?, w);
    DigitsOfValue(quiet);
    DigitsOfValue(loud);
    assert Pow256(w) >= 256;
  }

  /** A buffer of quiet elements, or of loud ones. */
  ghost function Telling(op: Op, dt: DType, m: nat, loud: bool): (b: seq<byte>)
    ensures |b| == Off(m, Size(dt))
  {
    Uniform(Small(if loud then !op.Min? else op.Min?, Size(dt)), m)
  }

  /** Quiet elements everywhere, and loud ones at rank v. */
  ghost function Telltale(op: Op, dt: DType, n: nat, m: nat, v: nat): (inputs: seq<seq<byte>>)
    ensures |inputs| == n && AllOfLength(inputs, Off(m, Size(dt)))
    ensures forall q :: 0 <= q < n ==> inputs[q] == Telling(op, dt, m, q == v)
  {
    if n == 0 then [] else Telltale(op, dt, n - 1, m, v) + [Telling(op, dt, m, n - 1 == v)]
  }

  /** A rank without a link to v folds quiet elements only. */
  lemma {:induction false} QuietFold(op: Op, dt: DType, links: Adjacency, m: nat, r: nat, v: nat, k: nat)
    requires Supported(dt) && r < |links| && v < |links| && v != r && !Edge(links, r, v) && k <= |links|
    ensures var inputs := Telltale(op, dt, |links|, m, v);
            FoldPresent(op, dt, LinkedBuffers(links, inputs, r), m, inputs[r], r, k)
            == Uniform(Small(op.Min?, Size(dt)), m)
  {
    hide Kernel, Off, Size, Combine, Small, Uniform, Telltale;
    if k > 0 {
      QuietFold(op, dt, links, m, r, v, k - 1);
      QuietAndLoud(op, dt);
      UniformKernel(op, dt, m, Small(op.Min?, Size(dt)), Small(op.Min?, Size(dt)));
    }
  }

  /** The reference shows the loud element of rank v. */
  lemma {:induction false} LoudFold(op: Op, dt: DType, n: nat, m: nat, v: nat, k: nat)
    requires Supported(dt) && v < n && k <= n
    ensures var inputs := Telltale(op, dt, n, m, v);
            FoldSkipping(op, dt, inputs, m, inputs[v], v, k) == Uniform(Small(!op.Min?, Size(dt)), m)
  {
    hide Kernel, Off, Size, Combine, Small, Uniform, Telltale;
    if k > 0 {
      LoudFold(op, dt, n, m, v, k - 1);
      QuietAndLoud(op, dt);
      UniformKernel(op, dt, m, Small(!op.Min?, Size(dt)), Small(op.Min?, Size(dt)));
    }
  }

  /** A missing link shows: on the telltale inputs the mesh path returns something else than the reference. */
  lemma MissingLinkShows(op: Op, dt: DType, links: Adjacency, m: nat, r: nat, v: nat)
    requires Supported(dt) && m > 0 && r < |links| && v < |links| && v != r && !Edge(links, r, v)
    ensures var inputs := Telltale(op, dt, |links|, m, v);
            MeshResult(op, dt, links, inputs, m, r) != Reference(op, dt, inputs, m, |inputs|)
  {
    hide Kernel, Off, Uniform, Size, Combine, Small, FoldPresent, FoldSkipping;
    var inputs := Telltale(op, dt, |links|, m, v);
    QuietFold(op, dt, links, m, r, v, |links|);
    LoudFold(op, dt, |links|, m, v, |links|);
    AllRanksAgree(op, dt, inputs, m, v);
    QuietAndLoud(op, dt);
    UniformAt(Small(op.Min?, Size(dt)), m, 0);
    UniformAt(Small(!op.Min?, Size(dt)), m, 0);
  }

  /** The mesh path on rank r gives the reference reduction for all inputs if and only if r is linked to every rank. */
  lemma MeshReduceRight(op: Op, dt: DType, links: Adjacency, m: nat, r: nat)
    requires Supported(dt) && m > 0 && r < |links|
    ensures FullyLinked(links, r) <==>
              forall inputs: seq<seq<byte>> :: |inputs| == |links| && Inputs(dt, inputs, m) ==>
                MeshResult(op, dt, links, inputs, m, r) == Reference(op, dt, inputs, m, |inputs|)
  {
    hide Kernel, Off, Size, FoldPresent, FoldSkipping;
    if FullyLinked(links, r) {
      forall inputs: seq<seq<byte>> | |inputs| == |links| && Inputs(dt, inputs, m)
        ensures MeshResult(op, dt, links, inputs, m, r) == Reference(op, dt, inputs, m, |inputs|)
      {
        FullFold(op, dt, links, inputs, m, r, |inputs|);
        AllRanksAgree(op, dt, inputs, m, r);
      }
    } else {
      var v: nat :| v < |links| && v != r && !Edge(links, r, v);
      MissingLinkShows(op, dt, links, m, r, v);
      assert |Telltale(op, dt, |links|, m, v)| == |links|;
    }
  }

  /** Every rank's block, in rank order, for all inputs and whatever the destination held: the same condition. */
  lemma MeshGatherRight(links: Adjacency, len: nat, r: nat)
    requires len > 0 && r < |links|
    ensures FullyLinked(links, r) <==>
              forall inputs: seq<seq<byte>>, was: seq<byte> ::
                |inputs| == |links| && AllOfLength(inputs, len) && |was| == Off(|links|, len) ==>
                  GatherBlocks(was, inputs[r], r, LinkedBuffers(links, inputs, r)) == inputs
  {
    hide Off;
    if FullyLinked(links, r) {
      forall inputs: seq<seq<byte>>, was: seq<byte>
        | |inputs| == |links| && AllOfLength(inputs, len) && |was| == Off(|links|, len)
        ensures GatherBlocks(was, inputs[r], r, LinkedBuffers(links, inputs, r)) == inputs
      {
        forall p | 0 <= p < |inputs|
          ensures GatherBlocks(was, inputs[r], r, LinkedBuffers(links, inputs, r))[p] == inputs[p]
        {
          assert p != r ==> Edge(links, r, p);
        }
      }
    } else {
      var v: nat :| v < |links| && v != r && !Edge(links, r, v);
      var inputs := seq(|links|, _ => Zeros(len)[0 := 1]);
      var was := Zeros(Off(|links|, len));
      OffBounds(v, |links|, len);
      var got := GatherBlocks(was, inputs[r], r, LinkedBuffers(links, inputs, r));
      assert got[v] == was[Off(v, len)..Off(v, len) + len];
      assert got[v][0] == 0 && inputs[v][0] == 1;
    }
  }

  // ---- Over the matrix that was accepted ----

  /** Every off-diagonal entry names its first device. */
  predicate AllOpened(mat: Topology.Matrix)
    requires Topology.ValidMatrix(mat)
  {
    forall u: nat, v: nat | u < |mat| && v < |mat| && u != v :: Topology.Opens(mat[u][v])
  }

  /** On the mesh path every rank reduces to the reference for all inputs if and only if every first device is named. */
  lemma MeshRightIffOpened(mat: Topology.Matrix, op: Op, dt: DType, m: nat)
    requires Topology.ValidMatrix(mat) && Supported(dt) && m > 0
    ensures AllOpened(mat) <==>
              forall r: nat, inputs: seq<seq<byte>> :: r < |mat| && |inputs| == |mat| && Inputs(dt, inputs, m) ==>
                MeshResult(op, dt, Topology.LinkGraph(mat), inputs, m, r) == Reference(op, dt, inputs, m, |inputs|)
  {
    hide Off, Size, MeshResult, Reference, Inputs, FullyLinked;
    var links := Topology.LinkGraph(mat);
    if AllOpened(mat) {
      forall r: nat, inputs: seq<seq<byte>> | r < |mat| && |inputs| == |mat| && Inputs(dt, inputs, m)
        ensures MeshResult(op, dt, links, inputs, m, r) == Reference(op, dt, inputs, m, |inputs|)
      {
        OpenedIsLinked(mat, r);
        MeshReduceRight(op, dt, links, m, r);
      }
    } else {
      var u: nat, v: nat :| u < |mat| && v < |mat| && u != v && !Topology.Opens(mat[u][v]);
      OpenedIsLinked(mat, u);
      MeshReduceRight(op, dt, links, m, u);
    }
  }

  lemma OpenedIsLinked(mat: Topology.Matrix, r: nat)
    requires Topology.ValidMatrix(mat) && r < |mat|
    ensures FullyLinked(Topology.LinkGraph(mat), r) <==>
              forall v: nat | v < |mat| && v != r :: Topology.Opens(mat[r][v])
  {
    assert forall v: nat | v < |mat| && v != r :: Edge(Topology.LinkGraph(mat), r, v) <==> Topology.Opens(mat[r][v]);
  }

  /**
    The two paths agree: whatever run of the mesh exchange a fully linked rank r finished and whatever run
    of the graph gather a rank q that reaches all others finished, both end in the one reference.
   */
  lemma MeshAndGraphAgree(op: Op, dt: DType, inputs: seq<seq<byte>>, m: nat, mesh: Adjacency, graph: Adjacency,
                          chunk: nat, a: seq<State<Buffers, seq<byte>>>, i: nat, r: nat,
                          b: seq<State<GraphGather.Gathered, seq<byte>>>, j: nat, q: nat)
    requires Inputs(dt, inputs, m) && chunk > 0 && |mesh| == |graph| == |inputs| && r < |inputs| && q < |inputs|
    requires FullyLinked(mesh, r) && forall v: nat :: v < |graph| ==> Reachable(graph, q, v)
    requires var pr := MeshProtocol(mesh, inputs, Off(m, Size(dt)), chunk);
             WellFormed(pr) && Run(pr, a) && i < |a| && r < |a[i].ranks| && Finished(pr, a[i].ranks[r])
    requires var pr := GraphGather.GatherProtocol(graph, inputs, Off(m, Size(dt)));
             WellFormed(pr) && Run(pr, b) && j < |b| && q < |b[j].ranks| && Finished(pr, b[j].ranks[q])
    ensures a[i].ranks[r].local == LinkedBuffers(mesh, inputs, r)
    ensures MeshResult(op, dt, mesh, inputs, m, r) == Reference(op, dt, inputs, m, |inputs|)
    ensures GraphGather.Outcome(b[j].ranks[q].local) == GraphGather.Values(inputs)
    ensures RankResult(op, dt, inputs, m, q) == Reference(op, dt, inputs, m, |inputs|)
  {
    hide Run, Off, Size, Kernel, Reachable, Finished, MeshProtocol, GraphGather.GatherProtocol, FoldPresent,
         FoldSkipping, Reference;
    var len := Off(m, Size(dt));
    MeshDelivers(mesh, inputs, len, chunk, a, i, r);
    FullFold(op, dt, mesh, inputs, m, r, |inputs|);
    GraphGather.GatherReturnsReachable(graph, inputs, len, b, j, q);
    AllRanksAgree(op, dt, inputs, m, r);
    AllRanksAgree(op, dt, inputs, m, q);
  }

  /**
    A successful wrong reduce: a matrix that is accepted as a mesh, inputs, and a finished run of the
    exchange after which rank 0 folds nothing, reports no error, and holds its own value.
   */
  lemma SuccessfulWrongReduce() returns (mat: Topology.Matrix, inputs: seq<seq<byte>>,
                              tr: seq<State<Buffers, seq<byte>>>)
    ensures Topology.IsMesh(mat) && |inputs| == |mat| == 2 && Inputs(Uint8, inputs, 1)
    ensures var pr := MeshProtocol(Topology.LinkGraph(mat), inputs, 1, 1);
            WellFormed(pr) && Run(pr, tr) && |tr[|tr| - 1].ranks| == 2 && Finished(pr, tr[|tr| - 1].ranks[0])
    ensures tr[|tr| - 1].ranks[0].local == [[], []]
    ensures MeshResult(Sum, Uint8, Topology.LinkGraph(mat), inputs, 1, 0)
         == inputs[0] != Reference(Sum, Uint8, inputs, 1, 2)
  {
    mat := Topology.AcceptedWithoutLinks();
    var links := Topology.LinkGraph(mat);
    inputs := [[1], [1]];
    assert Off(1, 1) == 1;
    MeshWellFormed(links, inputs, 1, 1);
    tr := IdleRun(links, inputs);
    MeshDelivers(links, inputs, 1, 1, tr, |tr| - 1, 0);
    OneAndOne(links);
  }

  lemma {:induction false} NoPeers(links: Adjacency, r: nat, from: nat)
    requires r < |links| && from <= |links| && forall v: nat :: !Edge(links, r, v)
    ensures PeersFrom(links, r, from) == []
    decreases |links| - from
  {
    if from < |links| {
      NoPeers(links, r, from + 1);
    }
  }

  /** Without links a rank encodes, posts to nobody, takes from nobody and finishes. */
  lemma IdleRun(links: Adjacency, inputs: seq<seq<byte>>) returns (tr: seq<State<Buffers, seq<byte>>>)
    requires |links| == |inputs| == 2 && (forall u: nat, v: nat :: !Edge(links, u, v))
    requires WellFormed(MeshProtocol(links, inputs, 1, 1))
    ensures var pr := MeshProtocol(links, inputs, 1, 1);
            Run(pr, tr) && |tr[|tr| - 1].ranks| == 2 && Finished(pr, tr[|tr| - 1].ranks[0])
  {
    var pr := MeshProtocol(links, inputs, 1, 1);
    assert pr.steps == 1 && |pr.peers| == |pr.init| == 2;
    NoPeers(links, 0, 0);
    hide MeshProtocol, WellFormed;
    tr := LonelyRun(pr);
  }

  /** One step of rank 0 without peers, next to a rank that does nothing. */
  lemma LonelyRun<L, P>(pr: Protocol<L, P>) returns (tr: seq<State<L, P>>)
    requires WellFormed(pr) && pr.steps == 1 && |pr.peers| == |pr.init| == 2 && pr.peers[0] == []
    ensures Run(pr, tr) && |tr[|tr| - 1].ranks| == 2 && Finished(pr, tr[|tr| - 1].ranks[0])
  {
    var other, queues: seq<seq<seq<P>>> := Rank(0, Starting, pr.init[1]), [[[], []], [[], []]];
    var s0 := State([Rank(0, Starting, pr.init[0]), other], queues);
    var s1 := State([Rank(0, Sending(pr.snapshot(0, 0, pr.init[0]), 0), pr.init[0]), other], queues);
    var s2 := State([Rank(0, Receiving(0), pr.init[0]), other], queues);
    var s3 := State([Rank(1, Starting, pr.init[0]), other], queues);
    hide WellFormed, Next, Enabled, Lockstep.Apply;
    TakesStep(pr, s0, Encode(0), s1);
    TakesStep(pr, s1, Turn(0), s2);
    TakesStep(pr, s2, Finish(0), s3);
    tr := [s0, s1, s2, s3];
  }

  lemma TakesStep<L, P>(pr: Protocol<L, P>, s: State<L, P>, a: Action, t: State<L, P>)
    requires WellFormed(pr) && Shaped(pr, s) && |pr.peers| == 2 && pr.peers[0] == [] && a.rank == 0
    requires t == s.(ranks := t.ranks)
    requires |t.ranks| == |s.ranks| && t.ranks == s.ranks[0 := t.ranks[0]]
    requires match a
             case Encode(_) => s.ranks[0].phase.Starting? && s.ranks[0].step < pr.steps
                               && t.ranks[0] == s.ranks[0].(
                                    phase := Sending(pr.snapshot(0, s.ranks[0].step, s.ranks[0].local), 0))
             case Turn(_) => s.ranks[0].phase.Sending? && s.ranks[0].phase.next == 0
                             && t.ranks[0] == s.ranks[0].(phase := Receiving(0))
             case Finish(_) => s.ranks[0].phase == Receiving(0)
                               && t.ranks[0] == Rank(s.ranks[0].step + 1, Starting, s.ranks[0].local)
             case _ => false
    ensures Next(pr, s, t)
  {
    hide WellFormed;
    assert Enabled(pr, s, a) && t == Lockstep.Apply(pr, s, a);
  }

  lemma OneAndOne(links: Adjacency)
    requires |links| == 2 && forall u: nat, v: nat :: !Edge(links, u, v)
    ensures var inputs: seq<seq<byte>> := [[1], [1]];
            && Inputs(Uint8, inputs, 1)
            && MeshResult(Sum, Uint8, links, inputs, 1, 0) == [1] != Reference(Sum, Uint8, inputs, 1, 2)
  {
    var inputs: seq<seq<byte>> := [[1], [1]];
    assert Off(1, 1) == 1;
    KernelElement(Sum, Uint8, 1, [1], [1], 0);
    assert Combine(Sum, Uint8, [1], [1]) == [2];
    assert Reference(Sum, Uint8, inputs, 1, 1) == [1];
    var values := LinkedBuffers(links, inputs, 0);
    assert values == [[], []];
    assert FoldPresent(Sum, Uint8, values, 1, [1], 0, 1) == FoldPresent(Sum, Uint8, values, 1, [1], 0, 0) == [1];
  }
}
