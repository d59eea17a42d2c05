/**
  The graph gather of the direct backend (backend.go): every rank floods what it knows
  to its neighbours for size-1 steps.

  A payload is n flag bytes followed by n blocks of elemLen bytes. Over every
  asynchronous run, a rank starting step t knows exactly the ranks within graph
  distance t, each with the origin's own bytes.
 */
module GraphGather {
  import opened Bytes
  import opened RankGraph
  import opened Lockstep
  import Topology

  /** The known flags and values of one rank, or the payload-length failure. */
  datatype Gathered = Gathered(known: seq<bool>, values: seq<seq<byte>>) | BadPayload

  // ---- Payload encoding ----

  /** One block per rank: the value if known, zeros otherwise. */
  function Blocks(known: seq<bool>, values: seq<seq<byte>>, elemLen: nat): (bs: seq<seq<byte>>)
    requires |known| == |values|
    ensures |bs| == |known| && AllOfLength(bs, elemLen)
  {
    seq(|known|, i requires 0 <= i < |known| => if known[i] then Fit(values[i], elemLen) else Zeros(elemLen))
  }

  function Flags(known: seq<bool>): (f: seq<byte>)
    ensures |f| == |known|
  {
    seq(|known|, i requires 0 <= i < |known| => if known[i] then 1 else 0)
  }

  function Encode(known: seq<bool>, values: seq<seq<byte>>, elemLen: nat): (p: seq<byte>)
    requires |known| == |values|
    ensures |p| == |known| + Off(|known|, elemLen)
  {
    var bs := Blocks(known, values, elemLen);
    JoinLength(bs, elemLen);
    Flags(known) + Join(bs)
  }

  /** What mergeGraphGatherPayload makes of a payload. */
  function Merge(g: Gathered, payload: seq<byte>, elemLen: nat): Gathered
    requires g.Gathered? ==> |g.known| == |g.values|
  {
    if g.BadPayload? || |payload| != |g.known| + Off(|g.known|, elemLen) then BadPayload
    else
      var n := |g.known|;
      Gathered(
        seq(n, i requires 0 <= i < n => g.known[i] || payload[i] != 0),
        seq(n, i requires 0 <= i < n =>
          if g.known[i] || payload[i] == 0 then g.values[i]
          else OffBounds(i, n, elemLen); payload[n + Off(i, elemLen)..n + Off(i + 1, elemLen)]))
  }

  /** The flags once the first k ranks have been written. */
  function FlagsUpTo(known: seq<bool>, k: nat): (f: seq<byte>)
    ensures |f| == |known|
  {
    seq(|known|, i requires 0 <= i < |known| => if i < k && known[i] then 1 else 0)
  }

  /** The payload once the first k ranks have been written. */
  ghost function Partial(known: seq<bool>, bs: seq<seq<byte>>, elemLen: nat, k: nat): (p: seq<byte>)
    requires |known| == |bs| && AllOfLength(bs, elemLen) && k <= |bs|
    ensures |p| == |known| + Off(|known|, elemLen)
  {
    JoinLength(bs[..k], elemLen);
    OffMonotone(k, |bs|, elemLen);
    FlagsUpTo(known, k) + Join(bs[..k]) + Zeros(Off(|bs|, elemLen) - Off(k, elemLen))
  }

  /** Writing d over the start of the zeroed tail z. */
  lemma SpliceTail(a: seq<byte>, j: seq<byte>, z: seq<byte>, k: nat, d: seq<byte>)
    requires k < |a| && |d| <= |z|
    ensures Splice((a + j + z)[k := 1], |a| + |j|, d) == a[k := 1] + (j + d) + z[|d|..]
  {
    var m := (a + j + z)[k := 1];
    assert m[..|a| + |j|] == a[k := 1] + j;
    assert m[|a| + |j| + |d|..] == z[|d|..];
  }

  lemma PartialStep(known: seq<bool>, bs: seq<seq<byte>>, elemLen: nat, k: nat)
    requires |known| == |bs| && AllOfLength(bs, elemLen) && k < |bs|
    requires !known[k] ==> bs[k] == Zeros(elemLen)
    ensures var p := Partial(known, bs, elemLen, k);
            var at := |known| + Off(k, elemLen);
            && at + elemLen <= |p|
            && p[at..at + elemLen] == Zeros(elemLen)
            && Partial(known, bs, elemLen, k + 1) == if known[k] then Splice(p[k := 1], at, bs[k]) else p
  {
    hide Off, Join, Splice, FlagsUpTo;
    var a, j := FlagsUpTo(known, k), Join(bs[..k]);
    var left := Off(|bs|, elemLen) - Off(k, elemLen);
    OffBounds(k, |bs|, elemLen);
    JoinSnoc(bs, k);
    JoinLength(bs[..k], elemLen);
    assert |bs[k]| == elemLen;
    var z := Zeros(left);
    assert z[elemLen..] == Zeros(left - elemLen);
    assert z == Zeros(elemLen) + z[elemLen..];
    SpliceTail(a, j, z, k, bs[k]);
    FlagsStep(known, k);
    assert (a + j + z)[|a| + |j|..|a| + |j| + elemLen] == z[..elemLen];
    assert a + j + (Zeros(elemLen) + z[elemLen..]) == a + (j + Zeros(elemLen)) + z[elemLen..];
  }

  lemma FlagsStep(known: seq<bool>, k: nat)
    requires k < |known|
    ensures FlagsUpTo(known, k + 1) == if known[k] then FlagsUpTo(known, k)[k := 1] else FlagsUpTo(known, k)
  {
  }

  lemma PartialEnds(known: seq<bool>, values: seq<seq<byte>>, elemLen: nat)
    requires |known| == |values|
    ensures var bs := Blocks(known, values, elemLen);
            && Partial(known, bs, elemLen, 0) == Zeros(|known| + Off(|known|, elemLen))
            && Partial(known, bs, elemLen, |known|) == Encode(known, values, elemLen)
  {
    var bs := Blocks(known, values, elemLen);
    hide Blocks;
    assert bs[..|known|] == bs && bs[..0] == [];
    JoinLength(bs, elemLen);
    FlagsEnds(known);
    assert Off(0, elemLen) == 0 && Join([]) == [];
    hide Off, Join, FlagsUpTo, Flags;
    assert Zeros(0) == [];
    assert Zeros(|known|) + Zeros(Off(|known|, elemLen)) == Zeros(|known| + Off(|known|, elemLen));
  }

  lemma FlagsEnds(known: seq<bool>)
    ensures FlagsUpTo(known, 0) == Zeros(|known|) && FlagsUpTo(known, |known|) == Flags(known)
  {
  }

  /** encodeGraphGatherPayload: writes the payload in place over whatever the buffer held. */
  method EncodePayload(payload: array<byte>, known: seq<bool>, values: seq<seq<byte>>, elemLen: nat)
    requires |known| == |values| && payload.Length == |known| + Off(|known|, elemLen)
    modifies payload
    ensures payload[..] == Encode(known, values, elemLen)
  {
    hide *;
    Clear(payload);
    ghost var bs := Blocks(known, values, elemLen);
    PartialEnds(known, values, elemLen);
    for rank := 0 to |known|
      invariant payload[..] == Partial(known, bs, elemLen, rank)
    {
      BlockIs(known, values, elemLen, rank);
      PartialStep(known, bs, elemLen, rank);
      if known[rank] {
        WriteRank(payload, rank, |known| + Off(rank, elemLen), elemLen, values[rank]);
      }
    }
  }

  lemma BlockIs(known: seq<bool>, values: seq<seq<byte>>, elemLen: nat, i: nat)
    requires |known| == |values| && i < |known|
    ensures Blocks(known, values, elemLen)[i] == if known[i] then Fit(values[i], elemLen) else Zeros(elemLen)
  {
  }

  method WriteRank(payload: array<byte>, rank: nat, at: nat, elemLen: nat, value: seq<byte>)
    requires rank < at && at + elemLen <= payload.Length
    requires payload[..][at..at + elemLen] == Zeros(elemLen)
    modifies payload
    ensures payload[..] == Splice(old(payload[..])[rank := 1], at, Fit(value, elemLen))
  {
    ghost var was := payload[..];
    payload[rank] := 1;
    assert payload[..] == was[rank := 1];
    assert payload[at..at + elemLen] == was[at..at + elemLen];
    CopyInto(payload, at, elemLen, value);
  }

  method Clear(buf: array<byte>)
    modifies buf
    ensures buf[..] == Zeros(buf.Length)
  {
    for i := 0 to buf.Length
      invariant forall j :: 0 <= j < i ==> buf[j] == 0
    {
      buf[i] := 0;
    }
  }

  /** copy(buf[off:off+room], src) over a zeroed stretch. */
  method CopyInto(buf: array<byte>, off: nat, room: nat, src: seq<byte>)
    requires off + room <= buf.Length
    requires buf[off..off + room] == Zeros(room)
    modifies buf
    ensures buf[..] == Splice(old(buf[..]), off, Fit(src, room))
  {
    var n := if |src| < room then |src| else room;
    ghost var was := buf[..];
    forall j | off <= j < off + room
      ensures was[j] == 0
    {
      assert was[j] == was[off..off + room][j - off];
    }
    for i := 0 to n
      invariant forall j :: 0 <= j < buf.Length ==> buf[j] == if off <= j < off + i then src[j - off] else was[j]
    {
      buf[off + i] := src[i];
    }
    ghost var now := Splice(was, off, Fit(src, room));
    forall j | 0 <= j < buf.Length
      ensures buf[j] == now[j]
    {
      if off <= j < off + room {
        assert now[j] == now[off..off + room][j - off] == Fit(src, room)[j - off];
      }
    }
  }

  /** mergeGraphGatherPayload: updates known and values in place, rank by rank. */
  method MergePayload(known: array<bool>, values: array<seq<byte>>, payload: seq<byte>, elemLen: nat) returns (ok: bool)
    requires known.Length == values.Length
    modifies known, values
    ensures ok <==> |payload| == known.Length + Off(known.Length, elemLen)
    ensures ok ==> Gathered(known[..], values[..]) == Merge(Gathered(old(known[..]), old(values[..])), payload, elemLen)
    ensures !ok ==> known[..] == old(known[..]) && values[..] == old(values[..])
  {
    hide *;
    var n := known.Length;
    if |payload| != n + Off(n, elemLen) { return false; }
    ghost var had := Gathered(known[..], values[..]);
    ghost var merged := Merge(had, payload, elemLen);
    MergeShape(had, payload, elemLen);
    for rank := 0 to n
      invariant forall j :: 0 <= j < rank ==> known[j] == merged.known[j] && values[j] == merged.values[j]
      invariant forall j :: rank <= j < n ==> known[j] == old(known[j]) && values[j] == old(values[j])
    {
      MergeAt(had, payload, elemLen, rank);
      if payload[rank] != 0 && !known[rank] {
        values[rank] := payload[n + Off(rank, elemLen)..n + Off(rank + 1, elemLen)];
        known[rank] := true;
      }
    }
    assert known[..] == merged.known && values[..] == merged.values;
    return true;
  }

  /** graphNeighbors: the peers with an open connection, in rank order. */
  method GraphNeighbours(links: Adjacency, rank: nat) returns (peers: seq<nat>)
    requires rank < |links|
    ensures peers == Peers(links, rank)
  {
    peers := [];
    assert PeersFrom(links, rank, 0) == Peers(links, rank) && PeersFrom(links, rank, |links|) == [];
    hide Peers, PeersFrom;
    for peer := 0 to |links|
      invariant peers + PeersFrom(links, rank, peer) == Peers(links, rank)
    {
      PeersStep(links, rank, peer, peers);
      if peer != rank && links[rank][peer] {
        peers := peers + [peer];
      }
    }
  }

  lemma PeersStep(links: Adjacency, rank: nat, peer: nat, done: seq<nat>)
    requires rank < |links| && peer < |links|
    ensures done + PeersFrom(links, rank, peer)
         == (if Edge(links, rank, peer) then done + [peer] else done) + PeersFrom(links, rank, peer + 1)
  {
  }

  // ---- Knowledge ----

  /** All inputs have the same length. */
  predicate EqualLengths(inputs: seq<seq<byte>>, elemLen: nat) {
    forall r :: 0 <= r < |inputs| ==> |inputs[r]| == elemLen
  }

  /** A rank that knows exactly the ranks in s, each with the origin's own bytes. */
  ghost function Holding(inputs: seq<seq<byte>>, s: set<nat>): (g: Gathered)
    ensures g.Gathered? && |g.known| == |g.values| == |inputs|
  {
    Gathered(
      seq(|inputs|, i => i in s),
      seq(|inputs|, i requires 0 <= i < |inputs| => if i in s then inputs[i] else []))
  }

  /** Block i of an encoded payload is the sender's value for rank i. */
  lemma PayloadBlock(known: seq<bool>, values: seq<seq<byte>>, elemLen: nat, i: nat)
    requires |known| == |values| && i < |known|
    ensures var p := Encode(known, values, elemLen);
            var at := |known| + Off(i, elemLen);
            at + elemLen <= |p| && p[at..at + elemLen] == Blocks(known, values, elemLen)[i]
  {
    hide Off, Blocks, Join, Flags;
    var n := |known|;
    var bs := Blocks(known, values, elemLen);
    var p := Encode(known, values, elemLen);
    JoinAt(bs, elemLen, i);
    OffBounds(i, n, elemLen);
    var at := Off(i, elemLen);
    JoinLength(bs, elemLen);
    assert p[n..] == Join(bs);
    SliceOfSlice(p, n, |p|, at, at + elemLen);
  }

  /** Merging a snapshot adds exactly the ranks the sender knew. */
  lemma MergeAddsKnowledge(inputs: seq<seq<byte>>, elemLen: nat, a: set<nat>, b: set<nat>)
    requires EqualLengths(inputs, elemLen)
    ensures var sent := Holding(inputs, b);
            Merge(Holding(inputs, a), Encode(sent.known, sent.values, elemLen), elemLen) == Holding(inputs, a + b)
  {
    hide *;
    var sent := Holding(inputs, b);
    var payload := Encode(sent.known, sent.values, elemLen);
    var got := Merge(Holding(inputs, a), payload, elemLen);
    var want := Holding(inputs, a + b);
    MergeShape(Holding(inputs, a), payload, elemLen);
    forall i | 0 <= i < |inputs|
      ensures got.known[i] == want.known[i] && got.values[i] == want.values[i]
    {
      SnapshotAt(inputs, elemLen, b, i);
      MergeAt(Holding(inputs, a), payload, elemLen, i);
      HoldingAt(inputs, a, i);
      HoldingAt(inputs, a + b, i);
    }
    assert got.known == want.known && got.values == want.values;
  }

  lemma HoldingAt(inputs: seq<seq<byte>>, s: set<nat>, i: nat)
    requires i < |inputs|
    ensures Holding(inputs, s).known[i] == (i in s) && Holding(inputs, s).values[i] == if i in s then inputs[i] else []
  {
  }

  lemma MergeShape(g: Gathered, payload: seq<byte>, elemLen: nat)
    requires g.Gathered? && |g.known| == |g.values| && |payload| == |g.known| + Off(|g.known|, elemLen)
    ensures var m := Merge(g, payload, elemLen); m.Gathered? && |m.known| == |m.values| == |g.known|
  {
  }

  lemma MergeAt(g: Gathered, payload: seq<byte>, elemLen: nat, i: nat)
    requires g.Gathered? && |g.known| == |g.values| && |payload| == |g.known| + Off(|g.known|, elemLen) && i < |g.known|
    ensures var m := Merge(g, payload, elemLen);
            var n := |g.known|;
            && m.Gathered? && |m.known| == |m.values| == n
            && n + Off(i, elemLen) <= n + Off(i + 1, elemLen) <= |payload|
            && m.known[i] == (g.known[i] || payload[i] != 0)
            && m.values[i] == if g.known[i] || payload[i] == 0 then g.values[i]
                 else payload[n + Off(i, elemLen)..n + Off(i + 1, elemLen)]
  {
    OffBounds(i, |g.known|, elemLen);
    hide Off;
  }

  /** A snapshot's flag for rank i, and the bytes under a raised flag. */
  lemma SnapshotAt(inputs: seq<seq<byte>>, elemLen: nat, b: set<nat>, i: nat)
    requires EqualLengths(inputs, elemLen) && i < |inputs|
    ensures var sent := Holding(inputs, b);
            var payload := Encode(sent.known, sent.values, elemLen);
            var n := |inputs|;
            && payload[i] == (if i in b then 1 else 0)
            && n + Off(i, elemLen) <= n + Off(i + 1, elemLen) <= |payload|
            && (i in b ==> payload[n + Off(i, elemLen)..n + Off(i + 1, elemLen)] == inputs[i])
  {
    var sent := Holding(inputs, b);
    OffBounds(i, |inputs|, elemLen);
    PayloadBlock(sent.known, sent.values, elemLen, i);
    BlockIs(sent.known, sent.values, elemLen, i);
    hide Blocks, Off, Join;
    if i in b {
      assert Fit(inputs[i], elemLen) == inputs[i];
    }
  }

  /** The gather as a lockstep protocol: encode, post to all neighbours, merge what arrives. */
  ghost function GatherProtocol(links: Adjacency, inputs: seq<seq<byte>>, elemLen: nat): Protocol<Gathered, seq<byte>>
    requires |links| == |inputs|
  {
    Protocol(
      if |links| == 0 then 0 else |links| - 1,
      seq(|links|, r requires 0 <= r < |links| => Peers(links, r)),
      seq(|links|, r requires 0 <= r < |links| => Holding(inputs, {r})),
      (r: nat, t: nat, g: Gathered) =>
        if g.Gathered? && |g.known| == |g.values| then Encode(g.known, g.values, elemLen) else [],
      (r: nat, t: nat, q: nat, g: Gathered, p: seq<byte>) =>
        if g.Gathered? && |g.known| == |g.values| then Merge(g, p, elemLen) else BadPayload)
  }

  lemma GatherWellFormed(links: Adjacency, inputs: seq<seq<byte>>, elemLen: nat)
    requires |links| == |inputs|
    ensures WellFormed(GatherProtocol(links, inputs, elemLen))
    ensures Symmetric(links) ==> Mutual(GatherProtocol(links, inputs, elemLen))
  {
    var pr := GatherProtocol(links, inputs, elemLen);
    forall r, i | 0 <= r < |pr.peers| && 0 <= i < |pr.peers[r]|
      ensures pr.peers[r][i] < |pr.peers|
    {
      assert pr.peers[r][i] in Peers(links, r);
    }
    forall q, r | Symmetric(links) && 0 <= q < |pr.peers| && 0 <= r < |pr.peers|
      ensures q in pr.peers[r] <==> r in pr.peers[q]
    {
      assert Edge(links, q, r) <==> Edge(links, r, q);
    }
  }

  /** Ranks known in step t after taking the first i neighbours' payloads. */
  ghost function KnownAfter(links: Adjacency, r: nat, t: nat, i: nat): set<nat>
    requires r < |links| && i <= |Peers(links, r)|
  {
    if i == 0 then Ball(links, r, t)
    else KnownAfter(links, r, t, i - 1) + Ball(links, Peers(links, r)[i - 1], t)
  }

  lemma {:induction false} KnownAfterMembers(links: Adjacency, r: nat, t: nat, i: nat, v: nat)
    requires r < |links| && i <= |Peers(links, r)|
    ensures v in KnownAfter(links, r, t, i)
       <==> v < |links| && (Within(links, r, v, t) || exists j :: 0 <= j < i && Within(links, Peers(links, r)[j], v, t))
  {
    if i > 0 {
      KnownAfterMembers(links, r, t, i - 1, v);
    }
  }

  /** Hearing from every neighbour widens the ball by one link. */
  lemma KnownAfterAll(links: Adjacency, r: nat, t: nat)
    requires r < |links|
    ensures KnownAfter(links, r, t, |Peers(links, r)|) == Ball(links, r, t + 1)
  {
    var peers := Peers(links, r);
    forall v: nat
      ensures v in KnownAfter(links, r, t, |peers|) <==> v in Ball(links, r, t + 1)
    {
      KnownAfterMembers(links, r, t, |peers|, v);
      if j :| 0 <= j < |peers| && Within(links, peers[j], v, t) {
        assert peers[j] in peers;
        assert Edge(links, r, peers[j]);
      }
      if q: nat :| Edge(links, r, q) && Within(links, q, v, t) {
        assert q in peers;
        var j :| 0 <= j < |peers| && peers[j] == q;
        assert Within(links, peers[j], v, t);
      }
    }
  }

  lemma GatherParts(links: Adjacency, inputs: seq<seq<byte>>, elemLen: nat, r: nat)
    requires |links| == |inputs| && r < |links|
    ensures var pr := GatherProtocol(links, inputs, elemLen);
            |pr.peers| == |links| && pr.peers[r] == Peers(links, r)
            && pr.init[r] == Holding(inputs, {r}) == Holding(inputs, Ball(links, r, 0))
  {
    assert Ball(links, r, 0) == {r};
  }

  lemma {:induction false} SyncHolds(links: Adjacency, inputs: seq<seq<byte>>, elemLen: nat, r: nat, t: nat)
    requires |links| == |inputs| && EqualLengths(inputs, elemLen) && r < |links|
    requires WellFormed(GatherProtocol(links, inputs, elemLen))
    ensures Sync(GatherProtocol(links, inputs, elemLen), r, t) == Holding(inputs, Ball(links, r, t))
    decreases t, 0
  {
    hide Lockstep.WellFormed, GatherProtocol, Holding, Ball;
    GatherParts(links, inputs, elemLen, r);
    if t > 0 {
      SyncTakenHolds(links, inputs, elemLen, r, t - 1, |Peers(links, r)|);
      KnownAfterAll(links, r, t - 1);
    }
  }

  lemma {:induction false} SyncTakenHolds(links: Adjacency, inputs: seq<seq<byte>>, elemLen: nat, r: nat, t: nat,
                                          i: nat)
    requires |links| == |inputs| && EqualLengths(inputs, elemLen)
    requires r < |links| && i <= |Peers(links, r)|
    requires WellFormed(GatherProtocol(links, inputs, elemLen))
    ensures SyncTaken(GatherProtocol(links, inputs, elemLen), r, t, i) == Holding(inputs, KnownAfter(links, r, t, i))
    decreases t, i + 1
  {
    hide Lockstep.WellFormed, Holding, Ball, Encode, Merge;
    if i == 0 {
      SyncHolds(links, inputs, elemLen, r, t);
    } else {
      var q := Peers(links, r)[i - 1];
      assert q in Peers(links, r);
      SyncTakenHolds(links, inputs, elemLen, r, t, i - 1);
      SyncHolds(links, inputs, elemLen, q, t);
      MergeAddsKnowledge(inputs, elemLen, KnownAfter(links, r, t, i - 1), Ball(links, q, t));
    }
  }

  /** In every run, a rank starting step t knows exactly the ranks within distance t. */
  lemma GatherKnowsBall(links: Adjacency, inputs: seq<seq<byte>>, elemLen: nat,
                        tr: seq<State<Gathered, seq<byte>>>, k: nat, r: nat)
    requires |links| == |inputs| && EqualLengths(inputs, elemLen) && r < |links|
    requires WellFormed(GatherProtocol(links, inputs, elemLen))
    requires Run(GatherProtocol(links, inputs, elemLen), tr) && k < |tr|
    ensures r < |tr[k].ranks|
    ensures tr[k].ranks[r].phase.Starting? ==>
              tr[k].ranks[r].local == Holding(inputs, Ball(links, r, tr[k].ranks[r].step))
  {
    RunMatchesSync(GatherProtocol(links, inputs, elemLen), tr, k, r);
    SyncHolds(links, inputs, elemLen, r, tr[k].ranks[r].step);
  }

  /** No payload is ever refused, in any phase of any run. */
  lemma GatherNeverRefuses(links: Adjacency, inputs: seq<seq<byte>>, elemLen: nat,
                           tr: seq<State<Gathered, seq<byte>>>, k: nat, r: nat)
    requires |links| == |inputs| && EqualLengths(inputs, elemLen) && r < |links|
    requires WellFormed(GatherProtocol(links, inputs, elemLen))
    requires Run(GatherProtocol(links, inputs, elemLen), tr) && k < |tr|
    ensures r < |tr[k].ranks| && tr[k].ranks[r].local.Gathered?
  {
    var pr := GatherProtocol(links, inputs, elemLen);
    RunInv(pr, tr, k);
    var me := tr[k].ranks[r];
    assert RankOk(pr, r, me);
    SyncHolds(links, inputs, elemLen, r, me.step);
    if me.phase.Receiving? {
      SyncTakenHolds(links, inputs, elemLen, r, me.step, me.phase.next);
    }
  }

  // ---- The call as a whole ----

  const StagingBytes: nat := 4096 * 128

  datatype GatherResult = Values(values: seq<seq<byte>>) | PayloadTooLarge | RankMissing(rank: nat) | PayloadRefused

  /** The final scan over known: the first rank that is missing, if any. */
  method CheckComplete(known: seq<bool>, values: seq<seq<byte>>) returns (res: GatherResult)
    ensures res == Outcome(Gathered(known, values))
  {
    for peer := 0 to |known|
      invariant forall j :: 0 <= j < peer ==> known[j]
    {
      if !known[peer] {
        FirstMissingIs(known, 0, peer);
        return RankMissing(peer);
      }
    }
    FirstMissingIs(known, 0, |known|);
    return Values(values);
  }

  function FirstMissing(known: seq<bool>, from: nat): (i: nat)
    requires from <= |known|
    ensures from <= i <= |known|
    decreases |known| - from
  {
    if from < |known| && known[from] then FirstMissing(known, from + 1) else from
  }

  lemma {:induction false} FirstMissingIs(known: seq<bool>, from: nat, i: nat)
    requires from <= i <= |known| && (forall j :: from <= j < i ==> known[j]) && (i < |known| ==> !known[i])
    ensures FirstMissing(known, from) == i
    decreases i - from
  {
    if from < i {
      FirstMissingIs(known, from + 1, i);
    }
  }

  function Outcome(g: Gathered): GatherResult {
    match g
    case BadPayload => PayloadRefused
    case Gathered(known, values) =>
      var i := FirstMissing(known, 0);
      if i < |known| then RankMissing(i) else Values(values)
  }

  /** What a rank that has finished its steps returns. */
  function GatherReturns(n: nat, elemLen: nat, final: Gathered): GatherResult {
    if n + Off(n, elemLen) > StagingBytes then PayloadTooLarge else Outcome(final)
  }

  /** What a rank that has finished knows: exactly the ranks it can reach, each with the origin's own bytes. */
  lemma FinishedKnowsReachable(links: Adjacency, inputs: seq<seq<byte>>, elemLen: nat,
                               tr: seq<State<Gathered, seq<byte>>>, k: nat, r: nat, v: nat)
    requires |links| == |inputs| && EqualLengths(inputs, elemLen) && r < |links| && v < |inputs|
    requires var pr := GatherProtocol(links, inputs, elemLen);
             WellFormed(pr) && Run(pr, tr) && k < |tr| && r < |tr[k].ranks| && Finished(pr, tr[k].ranks[r])
    ensures var got := tr[k].ranks[r].local;
            && got.Gathered? && |got.known| == |got.values| == |inputs|
            && got.known[v] == Reachable(links, r, v)
            && (Reachable(links, r, v) ==> got.values[v] == inputs[v])
  {
    hide Run, Reachable, Within, Encode, Merge;
    GatherKnowsBall(links, inputs, elemLen, tr, k, r);
    ReachableIsWithin(links, r, v);
    HoldingAt(inputs, Ball(links, r, |links| - 1), v);
  }

  /**
    What graphGather returns over the links that were opened, in every run that ends on rank r: every
    rank's own bytes if and only if r reaches every rank, and otherwise the error for the first rank
    it does not reach. Nothing else is asked of the links; a rank whose neighbour has no link back
    does not end at all (Lockstep.OneSidedNeverFinishes).
   */
  lemma GatherReturnsReachable(links: Adjacency, inputs: seq<seq<byte>>, elemLen: nat,
                               tr: seq<State<Gathered, seq<byte>>>, k: nat, r: nat)
    requires |links| == |inputs| && EqualLengths(inputs, elemLen) && r < |links|
    requires var pr := GatherProtocol(links, inputs, elemLen);
             WellFormed(pr) && Run(pr, tr) && k < |tr| && r < |tr[k].ranks| && Finished(pr, tr[k].ranks[r])
    ensures var res := Outcome(tr[k].ranks[r].local);
            && (res == Values(inputs) <==> forall v: nat :: v < |links| ==> Reachable(links, r, v))
            && (res != Values(inputs) ==>
                  && res.RankMissing? && res.rank < |links| && !Reachable(links, r, res.rank)
                  && forall v: nat :: v < res.rank ==> Reachable(links, r, v))
  {
    hide Run, Reachable, GatherProtocol, Finished;
    var got := tr[k].ranks[r].local;
    FinishedKnowsReachable(links, inputs, elemLen, tr, k, r, r);
    forall v: nat | v < |links|
      ensures got.known[v] == Reachable(links, r, v) && (Reachable(links, r, v) ==> got.values[v] == inputs[v])
    {
      FinishedKnowsReachable(links, inputs, elemLen, tr, k, r, v);
    }
    OutcomeIs(got);
    if forall v: nat :: v < |links| ==> Reachable(links, r, v) {
      assert got.values == inputs;
    }
  }

  lemma OutcomeIs(g: Gathered)
    requires g.Gathered? && |g.known| == |g.values|
    ensures var res := Outcome(g);
            if forall v: nat :: v < |g.known| ==> g.known[v] then res == Values(g.values)
            else
              && res.RankMissing? && res.rank < |g.known| && !g.known[res.rank]
              && forall v: nat :: v < res.rank ==> g.known[v]
  {
    var i := FirstMissing(g.known, 0);
    FirstMissingHas(g.known, 0);
  }

  lemma {:induction false} FirstMissingHas(known: seq<bool>, from: nat)
    requires from <= |known|
    ensures var i := FirstMissing(known, from);
            (i < |known| ==> !known[i]) && forall v: nat :: from <= v < i ==> known[v]
    decreases |known| - from
  {
    if from < |known| && known[from] {
      FirstMissingHas(known, from + 1);
    }
  }

  /**
    The same for a matrix that Choose accepts, over the links its first devices open. The payload is
    refused up front when it does not fit the staging buffer.
   */
  lemma GatherReturnsAll(m: Topology.Matrix, inputs: seq<seq<byte>>, elemLen: nat,
                         tr: seq<State<Gathered, seq<byte>>>, k: nat, r: nat)
    requires Topology.IsConnected(m) && |m| == |inputs| && EqualLengths(inputs, elemLen) && r < |m|
    requires var pr := GatherProtocol(Topology.LinkGraph(m), inputs, elemLen);
             WellFormed(pr) && Run(pr, tr) && k < |tr| && r < |tr[k].ranks| && Finished(pr, tr[k].ranks[r])
    ensures GatherReturns(|m|, elemLen, tr[k].ranks[r].local) == Values(inputs) <==>
              && |m| + Off(|m|, elemLen) <= 0x8_0000
              && forall v: nat :: v < |m| ==> Reachable(Topology.LinkGraph(m), r, v)
    ensures Topology.FirstDeviceDecides(m) ==> forall v: nat :: v < |m| ==> Reachable(Topology.LinkGraph(m), r, v)
  {
    var links := Topology.LinkGraph(m);
    hide Run, Reachable, GatherProtocol, Finished, Off;
    GatherReturnsReachable(links, inputs, elemLen, tr, k, r);
    if Topology.FirstDeviceDecides(m) {
      Topology.LinksMatchPaths(m);
      Topology.SameLinksSameShape(links, Topology.PathGraph(m));
      forall v: nat | v < |m|
        ensures Reachable(links, r, v)
      {
        ConnectedBothWays(links, r, v);
      }
    }
  }
}
