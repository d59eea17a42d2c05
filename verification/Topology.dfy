/**
  Topology selection over a matrix of device paths (internal/topology/topology.go).

  The validators keep the source's loops and report the first offending entry; each
  is proved to accept exactly the matrices of a declarative shape, and Choose is
  proved to accept exactly the symmetric connected ones.
 */
module Topology {
  import opened Options
  import opened RankGraph
  import opened Text

  /** One matrix entry. A nil slice differs from an empty one only in ValidateDeviceMatrix. */
  datatype Paths = NilPaths | Listed(names: seq<string>)

  type Matrix = seq<seq<Paths>>

  datatype Shape = Unknown | Mesh | Ring | Line | Connected

  datatype TopologyError =
    | EmptyMatrix
    | RowLength(row: nat)
    | NilEntry(src: nat, dst: nat)
    | TooFewRanks
    | MissingPath(src: nat, dst: nat)
    | OneWay(src: nat, dst: nat)
    | WireCount(src: nat, dst: nat)
    | NonAdjacent(src: nat, dst: nat)
    | NotConnected(rank: nat)
    | NoUsableTopology

  function Names(p: Paths): seq<string> {
    match p
    case NilPaths => []
    case Listed(names) => names
  }

  function UsableIn(names: seq<string>): nat {
    if names == [] then 0
    else UsableIn(names[..|names| - 1]) + if Blank(names[|names| - 1]) then 0 else 1
  }

  function Usable(p: Paths): nat { UsableIn(Names(p)) }

  predicate HasPath(p: Paths) { Usable(p) > 0 }

  /** A path exists exactly when some listed device name is not blank. */
  lemma {:induction false} HasPathMeansNonBlank(names: seq<string>)
    ensures UsableIn(names) > 0 <==> exists i :: 0 <= i < |names| && !Blank(names[i])
  {
    if names != [] {
      var front := names[..|names| - 1];
      HasPathMeansNonBlank(front);
      if i :| 0 <= i < |front| && !Blank(front[i]) {
        assert !Blank(names[i]);
      }
    }
  }

  /** The positions of a list of names that are not blank. */
  ghost function NamedAt(names: seq<string>): set<int> { set i | 0 <= i < |names| && !Blank(names[i]) }

  /** The usable wires of an entry are its names that are not blank, each counted once. */
  lemma {:induction false} UsableCounts(names: seq<string>)
    ensures UsableIn(names) == |NamedAt(names)|
  {
    if names != [] {
      hide Blank;
      var last := |names| - 1;
      UsableCounts(names[..last]);
      NamedGrows(names);
    }
  }

  lemma NamedGrows(names: seq<string>)
    requires names != []
    ensures var last := |names| - 1;
            NamedAt(names) == NamedAt(names[..last]) + (if Blank(names[last]) then {} else {last})
  {
    hide Blank;
    var front := names[..|names| - 1];
    assert forall i :: 0 <= i < |front| ==> front[i] == names[i];
  }

  method UsablePathCount(p: Paths) returns (n: nat)
    ensures n == Usable(p) == |NamedAt(Names(p))|
  {
    n := 0;
    var names := Names(p);
    for i := 0 to |names|
      invariant n == UsableIn(names[..i])
    {
      assert names[..i + 1][..i] == names[..i];
      if !Blank(names[i]) {
        n := n + 1;
      }
    }
    assert names[..|names|] == names;
    UsableCounts(names);
  }

  predicate ValidMatrix(m: Matrix) {
    && |m| > 0
    && (forall i :: 0 <= i < |m| ==> |m[i]| == |m|)
    && (forall i, j :: 0 <= i < |m| && 0 <= j < |m| ==> m[i][j] != NilPaths)
  }

  /** The graph of usable paths. */
  function PathGraph(m: Matrix): Adjacency
    requires ValidMatrix(m)
  {
    seq(|m|, u requires 0 <= u < |m| => seq(|m|, v requires 0 <= v < |m| => HasPath(m[u][v])))
  }

  predicate IsMesh(m: Matrix) {
    && ValidMatrix(m) && |m| >= 2
    && forall u: nat, v: nat | u < |m| && v < |m| && u != v :: HasPath(m[u][v])
  }

  predicate RingAdjacent(n: nat, u: nat, v: nat)
    requires u < n && v < n
  {
    u + 1 == v || v + 1 == u || (u == 0 && v == n - 1) || (v == 0 && u == n - 1)
  }

  predicate RingEntry(m: Matrix, u: nat, v: nat)
    requires ValidMatrix(m) && |m| >= 2 && u < |m| && v < |m|
  {
    u != v ==> Usable(m[u][v]) == if RingAdjacent(|m|, u, v) then Usable(m[0][1]) else 0
  }

  predicate IsRing(m: Matrix) {
    && ValidMatrix(m) && |m| >= 2
    && HasPath(m[0][1])
    && forall u: nat, v: nat | u < |m| && v < |m| :: RingEntry(m, u, v)
  }

  predicate LineAdjacent(u: nat, v: nat) { v == u - 1 || v == u + 1 }

  predicate LineEntry(m: Matrix, u: nat, v: nat)
    requires ValidMatrix(m) && |m| >= 2 && u < |m| && v < |m|
  {
    u != v ==> Usable(m[u][v]) == if LineAdjacent(u, v) then Usable(m[0][1]) else 0
  }

  predicate IsLine(m: Matrix) {
    && ValidMatrix(m) && |m| >= 2
    && HasPath(m[0][1])
    && forall u: nat, v: nat | u < |m| && v < |m| :: LineEntry(m, u, v)
  }

  /** Number of wires from u to v: the device names listed for them that are not blank. */
  ghost function Wires(m: Matrix, u: nat, v: nat): nat
    requires ValidMatrix(m) && u < |m| && v < |m|
  {
    |NamedAt(Names(m[u][v]))|
  }

  /** Ranks at ring distance one have w wires each way, other ranks none. */
  ghost predicate RingOf(m: Matrix, w: nat)
    requires ValidMatrix(m)
  {
    forall u: nat, v: nat | u < |m| && v < |m| && u != v ::
      Wires(m, u, v) == if v - u in {1, -1, |m| - 1, 1 - |m|} then w else 0
  }

  /** Consecutive ranks have w wires each way, other ranks none. */
  ghost predicate LineOf(m: Matrix, w: nat)
    requires ValidMatrix(m)
  {
    forall u: nat, v: nat | u < |m| && v < |m| && u != v :: Wires(m, u, v) == if v - u in {1, -1} then w else 0
  }

  lemma WiresAreUsable(m: Matrix)
    requires ValidMatrix(m)
    ensures forall u: nat, v: nat | u < |m| && v < |m| :: Wires(m, u, v) == Usable(m[u][v])
  {
    hide UsableIn, NamedAt;
    forall u: nat, v: nat | u < |m| && v < |m|
      ensures Wires(m, u, v) == Usable(m[u][v])
    {
      UsableCounts(Names(m[u][v]));
    }
  }

  /** A ring is a matrix of w wires, for some positive w. */
  lemma RingMeans(m: Matrix)
    requires ValidMatrix(m) && |m| >= 2
    ensures IsRing(m) <==> exists w: nat :: w > 0 && RingOf(m, w)
  {
    WiresAreUsable(m);
    hide Wires, Usable;
    if IsRing(m) {
      forall u: nat, v: nat | u < |m| && v < |m| && u != v
        ensures Wires(m, u, v) == if v - u in {1, -1, |m| - 1, 1 - |m|} then Usable(m[0][1]) else 0
      {
        assert RingEntry(m, u, v);
      }
      assert RingOf(m, Usable(m[0][1]));
    }
    if w: nat :| w > 0 && RingOf(m, w) {
      assert Wires(m, 0, 1) == w;
      forall u: nat, v: nat | u < |m| && v < |m|
        ensures RingEntry(m, u, v)
      {
        assert u != v ==> Wires(m, u, v) == if v - u in {1, -1, |m| - 1, 1 - |m|} then w else 0;
      }
    }
  }

  /** So is a line, without the wrap-around. */
  lemma LineMeans(m: Matrix)
    requires ValidMatrix(m) && |m| >= 2
    ensures IsLine(m) <==> exists w: nat :: w > 0 && LineOf(m, w)
  {
    WiresAreUsable(m);
    hide Wires, Usable;
    if IsLine(m) {
      forall u: nat, v: nat | u < |m| && v < |m| && u != v
        ensures Wires(m, u, v) == if v - u in {1, -1} then Usable(m[0][1]) else 0
      {
        assert LineEntry(m, u, v);
      }
      assert LineOf(m, Usable(m[0][1]));
    }
    if w: nat :| w > 0 && LineOf(m, w) {
      assert Wires(m, 0, 1) == w;
      forall u: nat, v: nat | u < |m| && v < |m|
        ensures LineEntry(m, u, v)
      {
        assert u != v ==> Wires(m, u, v) == if v - u in {1, -1} then w else 0;
      }
    }
  }

  ghost predicate IsConnected(m: Matrix) {
    && ValidMatrix(m) && |m| >= 2
    && Symmetric(PathGraph(m))
    && ConnectedFromZero(PathGraph(m))
  }

  // ---- Which entry a refusal names ----

  /** Entry (a, b) comes before (u, v) when a matrix is scanned row by row. */
  predicate Earlier(a: nat, b: nat, u: nat, v: nat) { a < u || (a == u && b < v) }

  /** The first i rows have the right length and no nil entry. */
  predicate RowsOk(m: Matrix, i: nat) {
    i <= |m| && forall k :: 0 <= k < i ==> |m[k]| == |m| && forall j :: 0 <= j < |m| ==> m[k][j] != NilPaths
  }

  predicate MatrixBlame(m: Matrix, e: TopologyError) {
    match e
    case EmptyMatrix => |m| == 0
    case RowLength(i) => i < |m| && RowsOk(m, i) && |m[i]| != |m|
    case NilEntry(i, j) =>
      && i < |m| && RowsOk(m, i) && |m[i]| == |m| && j < |m| && m[i][j] == NilPaths
      && forall l :: 0 <= l < j ==> m[i][l] != NilPaths
    case _ => false
  }

  predicate BothWays(m: Matrix, u: nat, v: nat)
    requires ValidMatrix(m) && u < |m| && v < |m|
  {
    u != v ==> HasPath(m[u][v]) && HasPath(m[v][u])
  }

  predicate MeshBlame(m: Matrix, e: TopologyError) {
    if !ValidMatrix(m) then MatrixBlame(m, e)
    else
      match e
      case TooFewRanks => |m| < 2
      case MissingPath(u, v) => MeshFirst(m, u, v) && !HasPath(m[u][v])
      case OneWay(u, v) => MeshFirst(m, u, v) && HasPath(m[u][v]) && !HasPath(m[v][u])
      case _ => false
  }

  predicate MeshFirst(m: Matrix, u: nat, v: nat)
    requires ValidMatrix(m)
  {
    && u < |m| && v < |m| && u != v
    && forall a: nat, b: nat | a < |m| && b < |m| && Earlier(a, b, u, v) :: BothWays(m, a, b)
  }

  predicate RingBlame(m: Matrix, e: TopologyError) {
    if !ValidMatrix(m) then MatrixBlame(m, e)
    else if |m| < 2 then e == TooFewRanks
    else if !HasPath(m[0][1]) then e == MissingPath(0, 1)
    else
      match e
      case WireCount(u, v) => RingFirst(m, u, v) && RingAdjacent(|m|, u, v)
      case NonAdjacent(u, v) => RingFirst(m, u, v) && !RingAdjacent(|m|, u, v)
      case _ => false
  }

  predicate RingFirst(m: Matrix, u: nat, v: nat)
    requires ValidMatrix(m) && |m| >= 2
  {
    && u < |m| && v < |m| && !RingEntry(m, u, v)
    && forall a: nat, b: nat | a < |m| && b < |m| && Earlier(a, b, u, v) :: RingEntry(m, a, b)
  }

  predicate LineBlame(m: Matrix, e: TopologyError) {
    if !ValidMatrix(m) then MatrixBlame(m, e)
    else if |m| < 2 then e == TooFewRanks
    else if !HasPath(m[0][1]) then e == MissingPath(0, 1)
    else
      match e
      case MissingPath(u, v) => LineFirst(m, u, v) && LineAdjacent(u, v) && !HasPath(m[u][v])
      case WireCount(u, v) => LineFirst(m, u, v) && LineAdjacent(u, v) && HasPath(m[u][v])
      case NonAdjacent(u, v) => LineFirst(m, u, v) && !LineAdjacent(u, v)
      case _ => false
  }

  predicate LineFirst(m: Matrix, u: nat, v: nat)
    requires ValidMatrix(m) && |m| >= 2
  {
    && u < |m| && v < |m| && !LineEntry(m, u, v)
    && forall a: nat, b: nat | a < |m| && b < |m| && Earlier(a, b, u, v) :: LineEntry(m, a, b)
  }

  /** Links between a and b go both ways or not at all. */
  predicate Agree(m: Matrix, a: nat, b: nat)
    requires ValidMatrix(m) && a < |m| && b < |m|
  {
    HasPath(m[a][b]) <==> HasPath(m[b][a])
  }

  ghost predicate ConnectedBlame(m: Matrix, e: TopologyError) {
    if !ValidMatrix(m) then MatrixBlame(m, e)
    else
      match e
      case TooFewRanks => |m| < 2
      case OneWay(u, v) =>
        && u < v < |m| && !Agree(m, u, v)
        && forall a: nat, b: nat | a < b < |m| && Earlier(a, b, u, v) :: Agree(m, a, b)
      case NotConnected(r) =>
        && Symmetric(PathGraph(m)) && r < |m| && !Reachable(PathGraph(m), 0, r)
        && forall v: nat | v < r :: Reachable(PathGraph(m), 0, v)
      case _ => false
  }

  method ValidateDeviceMatrix(m: Matrix) returns (err: Option<TopologyError>)
    ensures err.None? <==> ValidMatrix(m)
    ensures err.None? <==> m != [] && forall row :: row in m ==> |row| == |m| && NilPaths !in row
    ensures err.Some? ==> MatrixBlame(m, err.value)
  {
    if |m| == 0 { return Some(EmptyMatrix); }
    for i := 0 to |m|
      invariant forall k :: 0 <= k < i ==> |m[k]| == |m|
      invariant forall k, j :: 0 <= k < i && 0 <= j < |m| ==> m[k][j] != NilPaths
    {
      if |m[i]| != |m| { return Some(RowLength(i)); }
      for j := 0 to |m|
        invariant forall l :: 0 <= l < j ==> m[i][l] != NilPaths
      {
        if m[i][j] == NilPaths { return Some(NilEntry(i, j)); }
      }
    }
    return None;
  }

  method ValidateMesh(m: Matrix) returns (err: Option<TopologyError>)
    ensures err.None? <==> IsMesh(m)
    ensures err.Some? ==> MeshBlame(m, err.value)
  {
    err := ValidateDeviceMatrix(m);
    if err.Some? { return; }
    var n := |m|;
    if n < 2 { return Some(TooFewRanks); }
    for src := 0 to n
      invariant forall u: nat, v: nat | u < src && v < n :: BothWays(m, u, v)
    {
      for dst := 0 to n
        invariant forall v: nat | v < dst :: BothWays(m, src, v)
      {
        if src != dst {
          var forth := UsablePathCount(m[src][dst]);
          if forth == 0 { return Some(MissingPath(src, dst)); }
          var back := UsablePathCount(m[dst][src]);
          if back == 0 { return Some(OneWay(src, dst)); }
        }
      }
    }
    forall u: nat, v: nat | u < n && v < n && u != v
      ensures HasPath(m[u][v])
    {
      assert BothWays(m, u, v);
    }
    return None;
  }

  /** The wrap-around neighbours of a rank, as the ring validator computes them. */
  lemma RingNeighbours(n: nat, u: nat)
    requires u < n
    ensures (u - 1 + n) % n == if u == 0 then n - 1 else u - 1
    ensures (u + 1) % n == if u + 1 == n then 0 else u + 1
  {
  }

  method ValidateRing(m: Matrix) returns (err: Option<TopologyError>)
    ensures err.None? <==> IsRing(m)
    ensures err.Some? ==> RingBlame(m, err.value)
  {
    hide UsableIn, NamedAt, MatrixBlame;
    err := ValidateDeviceMatrix(m);
    if err.Some? { return; }
    var n := |m|;
    if n < 2 { return Some(TooFewRanks); }
    assert 1 % n == 1;
    var wireCount := UsablePathCount(m[0][1 % n]);
    if wireCount == 0 { return Some(MissingPath(0, 1 % n)); }
    for src := 0 to n
      invariant forall u: nat, v: nat | u < src && v < n :: RingEntry(m, u, v)
    {
      var left := (src - 1 + n) % n;
      var right := (src + 1) % n;
      RingNeighbours(n, src);
      for dst := 0 to n
        invariant forall v: nat | v < dst :: RingEntry(m, src, v)
      {
        if src != dst {
          var adjacent := dst == left || dst == right;
          var paths := UsablePathCount(m[src][dst]);
          if adjacent {
            if paths != wireCount {
              assert !RingEntry(m, src, dst);
              return Some(WireCount(src, dst));
            }
          } else if paths != 0 {
            assert !RingEntry(m, src, dst);
            return Some(NonAdjacent(src, dst));
          }
        }
      }
    }
    return None;
  }

  method ValidateLine(m: Matrix) returns (err: Option<TopologyError>)
    ensures err.None? <==> IsLine(m)
    ensures err.Some? ==> LineBlame(m, err.value)
  {
    hide UsableIn, NamedAt, MatrixBlame;
    err := ValidateDeviceMatrix(m);
    if err.Some? { return; }
    var n := |m|;
    if n < 2 { return Some(TooFewRanks); }
    var wireCount := 0;
    for src := 0 to n
      invariant src > 0 ==> wireCount == Usable(m[0][1]) > 0
      invariant src == 0 ==> wireCount == 0
      invariant forall u: nat, v: nat | u < src && v < n :: LineEntry(m, u, v)
    {
      for dst := 0 to n
        invariant src > 0 || dst > 1 ==> wireCount == Usable(m[0][1]) > 0
        invariant src == 0 && dst <= 1 ==> wireCount == 0
        invariant forall v: nat | v < dst :: LineEntry(m, src, v)
      {
        if src != dst {
          var adjacent := dst == src - 1 || dst == src + 1;
          var paths := UsablePathCount(m[src][dst]);
          if !adjacent {
            if paths != 0 {
              assert !LineEntry(m, src, dst);
              return Some(NonAdjacent(src, dst));
            }
          } else {
            if paths == 0 {
              assert !HasPath(m[0][1]) || !LineEntry(m, src, dst);
              return Some(MissingPath(src, dst));
            }
            if wireCount == 0 {
              wireCount := paths;
            }
            if paths != wireCount {
              assert !LineEntry(m, src, dst);
              return Some(WireCount(src, dst));
            }
          }
        }
      }
    }
    return None;
  }

  /** Ranks already seen whose links have all been followed, up to column dst for rank src. */
  ghost predicate Followed(g: Adjacency, seen: seq<bool>, queue: seq<nat>, src: nat, dst: nat)
    requires |seen| == |g|
  {
    forall u: nat, v: nat | Edge(g, u, v) && seen[u] && u !in queue && (u == src ==> v < dst) :: seen[v]
  }

  lemma {:induction false} ClosedSetHasWalk(g: Adjacency, seen: seq<bool>, u: nat, v: nat, p: seq<nat>)
    requires |seen| == |g| && WalkBetween(g, u, v, p) && seen[u]
    requires forall x: nat, y: nat | Edge(g, x, y) && seen[x] :: seen[y]
    ensures seen[v]
    decreases |p|
  {
    if |p| > 1 {
      assert Edge(g, p[0], p[1]);
      ClosedSetHasWalk(g, seen, p[1], v, p[1..]);
    }
  }

  lemma ReachOneMore(g: Adjacency, u: nat, v: nat)
    requires Reachable(g, 0, u) && Edge(g, u, v)
    ensures Reachable(g, 0, v)
  {
    var p :| WalkBetween(g, 0, u, p);
    assert WalkBetween(g, u, v, [u, v]);
    JoinWalks(g, 0, u, v, p, [u, v]);
  }

  /** Column dst of rank src needs no work: it is no link or leads to a seen rank. */
  lemma SkipColumn(g: Adjacency, seen: seq<bool>, queue: seq<nat>, src: nat, dst: nat)
    requires |seen| == |g| && Followed(g, seen, queue, src, dst)
    requires Edge(g, src, dst) ==> seen[dst]
    ensures Followed(g, seen, queue, src, dst + 1)
  {
  }

  lemma MarkColumn(g: Adjacency, seen: seq<bool>, queue: seq<nat>, src: nat, dst: nat)
    requires |seen| == |g| && Followed(g, seen, queue, src, dst) && Edge(g, src, dst)
    ensures Followed(g, seen[dst := true], queue + [dst], src, dst + 1)
  {
    assert dst in queue + [dst];
    assert forall u | u in queue :: u in queue + [dst];
  }

  lemma PopQueue(g: Adjacency, seen: seq<bool>, queue: seq<nat>)
    requires |seen| == |g| && |queue| > 0 && Followed(g, seen, queue, |g|, |g|)
    ensures Followed(g, seen, queue[1..], queue[0], 0)
  {
    assert forall u | u in queue :: u == queue[0] || u in queue[1..];
  }

  /** The state of the search: what is queued has been seen, what has been seen is reachable, and unseen is the rest. */
  ghost predicate Searching(g: Adjacency, seen: seq<bool>, queue: seq<nat>, unseen: set<nat>) {
    && |seen| == |g| > 0 && seen[0]
    && (forall u | u in queue :: u < |g| && seen[u])
    && (forall v: nat | v < |g| && seen[v] :: Reachable(g, 0, v))
    && (forall v: nat | v < |g| :: v in unseen <==> !seen[v])
  }

  lemma SearchStarts(g: Adjacency, seen: seq<bool>)
    requires |seen| == |g| > 0 && seen[0] && forall v: nat | 0 < v < |g| :: !seen[v]
    ensures Searching(g, seen, [0], AllRanks(|g|) - {0}) && Followed(g, seen, [0], |g|, |g|)
  {
    assert WalkBetween(g, 0, 0, [0]);
  }

  lemma SearchMarks(g: Adjacency, seen: seq<bool>, queue: seq<nat>, unseen: set<nat>, src: nat, dst: nat)
    requires Searching(g, seen, queue, unseen) && src < |g| && seen[src] && Edge(g, src, dst)
    ensures Searching(g, seen[dst := true], queue + [dst], unseen - {dst})
  {
    ReachOneMore(g, src, dst);
    hide Reachable;
  }

  lemma SearchPops(g: Adjacency, seen: seq<bool>, queue: seq<nat>, unseen: set<nat>)
    requires Searching(g, seen, queue, unseen) && queue != []
    ensures Searching(g, seen, queue[1..], unseen) && queue[0] < |g| && seen[queue[0]]
  {
    hide Reachable;
    assert queue[0] in queue;
  }

  /** Follow the links of one rank: mark and queue every linked rank not yet seen. */
  method FollowLinks(m: Matrix, seen: array<bool>, waiting: seq<nat>, src: nat, ghost left: set<nat>)
    returns (queue: seq<nat>, ghost unseen: set<nat>)
    requires ValidMatrix(m) && seen.Length == |m| && src < |m| && seen[src]
    requires Searching(PathGraph(m), seen[..], waiting, left) && Followed(PathGraph(m), seen[..], waiting, src, 0)
    modifies seen
    ensures Searching(PathGraph(m), seen[..], queue, unseen) && Followed(PathGraph(m), seen[..], queue, src, |m|)
    ensures unseen <= left && (unseen == left ==> queue == waiting)
  {
    ghost var g := PathGraph(m);
    queue, unseen := waiting, left;
    for dst := 0 to |m|
      invariant seen[src] && Searching(g, seen[..], queue, unseen) && Followed(g, seen[..], queue, src, dst)
      invariant unseen <= left && (unseen == left ==> queue == waiting)
    {
      assert dst in unseen <==> !seen[dst];
      hide Searching, Followed, Edge, PathGraph;
      var here := UsablePathCount(m[src][dst]);
      PathEdge(m, src, dst);
      if src == dst || seen[dst] || here == 0 {
        SkipColumn(g, seen[..], queue, src, dst);
      } else {
        MarkColumn(g, seen[..], queue, src, dst);
        SearchMarks(g, seen[..], queue, unseen, src, dst);
        ghost var marked := seen[..][dst := true];
        seen[dst] := true;
        assert seen[..] == marked;
        queue := queue + [dst];
        unseen := unseen - {dst};
      }
    }
  }

  /** Breadth-first search from rank 0: marks exactly the reachable ranks. */
  method Flood(m: Matrix) returns (seen: array<bool>)
    requires ValidMatrix(m)
    ensures seen.Length == |m|
    ensures forall v: nat | v < |m| :: seen[v] <==> Reachable(PathGraph(m), 0, v)
  {
    var n := |m|;
    ghost var g := PathGraph(m);
    seen := new bool[n](_ => false);
    var queue: seq<nat> := [0];
    seen[0] := true;
    SearchStarts(g, seen[..]);
    ghost var unseen := AllRanks(n) - {0};
    while |queue| > 0
      invariant Searching(g, seen[..], queue, unseen) && Followed(g, seen[..], queue, n, n)
      decreases unseen, |queue|
    {
      hide Searching, Followed, PathGraph;
      SearchPops(g, seen[..], queue, unseen);
      PopQueue(g, seen[..], queue);
      var src := queue[0];
      queue, unseen := FollowLinks(m, seen, queue[1..], src, unseen);
      RowFollowed(g, seen[..], queue, src);
    }
    ClosedSetIsReachable(g, seen[..], queue);
  }

  /** Once all columns of a rank are followed, it is a rank like any other. */
  lemma RowFollowed(g: Adjacency, seen: seq<bool>, queue: seq<nat>, src: nat)
    requires |seen| == |g| && Followed(g, seen, queue, src, |g|)
    ensures Followed(g, seen, queue, |g|, |g|)
  {
  }

  lemma PathEdge(m: Matrix, u: nat, v: nat)
    requires ValidMatrix(m) && u < |m| && v < |m|
    ensures Edge(PathGraph(m), u, v) <==> u != v && Usable(m[u][v]) > 0
  {
  }

  /** With nothing left to follow, every reachable rank has been seen. */
  lemma ClosedSetIsReachable(g: Adjacency, seen: seq<bool>, queue: seq<nat>)
    requires |seen| == |g| > 0 && seen[0] && queue == [] && Followed(g, seen, queue, |g|, |g|)
    ensures forall v: nat | v < |g| && Reachable(g, 0, v) :: seen[v]
  {
    forall v: nat | v < |g| && Reachable(g, 0, v)
      ensures seen[v]
    {
      var p :| WalkBetween(g, 0, v, p);
      ClosedSetHasWalk(g, seen, 0, v, p);
    }
  }

  /** The first one-way link, if there is one. */
  method FindOneWay(m: Matrix) returns (err: Option<TopologyError>)
    requires ValidMatrix(m)
    ensures err.None? <==> AllAgree(m)
    ensures err.Some? ==> err.value.OneWay? && ConnectedBlame(m, err.value)
  {
    var n := |m|;
    for src := 0 to n
      invariant forall a: nat, b: nat | a < src && a < b < n :: Agree(m, a, b)
    {
      for dst := src + 1 to n
        invariant forall b: nat | src < b < dst :: Agree(m, src, b)
      {
        var forward := UsablePathCount(m[src][dst]);
        var backward := UsablePathCount(m[dst][src]);
        if (forward > 0) != (backward > 0) {
          assert !Agree(m, src, dst);
          return Some(OneWay(src, dst));
        }
      }
    }
    return None;
  }

  ghost predicate AllAgree(m: Matrix)
    requires ValidMatrix(m)
  {
    forall a: nat, b: nat | a < b < |m| :: Agree(m, a, b)
  }

  lemma AgreeIsSymmetric(m: Matrix)
    requires ValidMatrix(m)
    ensures AllAgree(m) <==> Symmetric(PathGraph(m))
  {
    hide HasPath;
    var g := PathGraph(m);
    forall a: nat, b: nat | a < |m| && b < |m|
      ensures Edge(g, a, b) <==> a != b && HasPath(m[a][b])
    {
    }
    if AllAgree(m) {
      forall u: nat, v: nat | u < |g| && v < |g|
        ensures Edge(g, u, v) <==> Edge(g, v, u)
      {
        assert u < v ==> Agree(m, u, v);
        assert v < u ==> Agree(m, v, u);
      }
    }
    if Symmetric(g) {
      forall a: nat, b: nat | a < b < |m|
        ensures Agree(m, a, b)
      {
        assert Edge(g, a, b) <==> Edge(g, b, a);
      }
    }
  }

  method ValidateConnected(m: Matrix) returns (err: Option<TopologyError>)
    ensures err.None? <==> IsConnected(m)
    ensures err.Some? ==> ConnectedBlame(m, err.value)
  {
    err := ValidateDeviceMatrix(m);
    if err.Some? { return; }
    var n := |m|;
    if n < 2 { return Some(TooFewRanks); }
    AgreeIsSymmetric(m);
    hide AllAgree, PathGraph, Symmetric;
    err := FindOneWay(m);
    if err.Some? { return; }
    var seen := Flood(m);
    for rank := 0 to n
      invariant forall v: nat | v < rank :: Reachable(PathGraph(m), 0, v)
    {
      if !seen[rank] { return Some(NotConnected(rank)); }
    }
    return None;
  }

  lemma ConsecutiveLinksConnect(g: Adjacency)
    requires forall u: nat, v: nat | v < |g| && v == u + 1 :: Edge(g, u, v)
    ensures ConnectedFromZero(g)
  {
    forall v: nat | v < |g|
      ensures Reachable(g, 0, v)
    {
      var p: seq<nat> := seq(v + 1, i requires 0 <= i < v + 1 => i);
      forall i | 0 < i < |p|
        ensures Edge(g, p[i - 1], p[i])
      {
        assert p[i] == p[i - 1] + 1;
      }
      assert WalkBetween(g, 0, v, p);
    }
  }

  lemma MeshIsConnected(m: Matrix)
    requires IsMesh(m)
    ensures IsConnected(m)
  {
    ConsecutiveLinksConnect(PathGraph(m));
  }

  lemma RingLinks(m: Matrix, u: nat, v: nat)
    requires IsRing(m) && u < |m| && v < |m|
    ensures Edge(PathGraph(m), u, v) <==> u != v && RingAdjacent(|m|, u, v)
  {
    assert RingEntry(m, u, v);
  }

  lemma RingIsConnected(m: Matrix)
    requires IsRing(m)
    ensures IsConnected(m)
  {
    var g := PathGraph(m);
    forall u: nat, v: nat | u < |m| && v < |m|
      ensures Edge(g, u, v) <==> Edge(g, v, u)
    {
      RingLinks(m, u, v);
      RingLinks(m, v, u);
    }
    forall u: nat, v: nat | v < |g| && v == u + 1
      ensures Edge(g, u, v)
    {
      RingLinks(m, u, v);
    }
    ConsecutiveLinksConnect(g);
  }

  lemma LineIsConnected(m: Matrix)
    requires IsLine(m)
    ensures IsConnected(m)
  {
    var g := PathGraph(m);
    forall u: nat, v: nat | u < |m| && v < |m|
      ensures Edge(g, u, v) <==> u != v && LineAdjacent(u, v)
    {
      assert LineEntry(m, u, v);
    }
    ConsecutiveLinksConnect(g);
  }

  /** Choose accepts exactly the symmetric connected matrices of at least two ranks. */
  method Choose(m: Matrix, preferRing: bool) returns (shape: Shape, err: Option<TopologyError>)
    ensures err.None? <==> IsConnected(m)
    ensures shape == Unknown <==> err.Some?
    ensures shape == Mesh <==> IsMesh(m) && !(preferRing && IsRing(m))
    ensures shape == Ring <==> IsRing(m) && (preferRing || !IsMesh(m))
    ensures shape == Line <==> IsLine(m) && !IsMesh(m) && !IsRing(m)
  {
    var meshErr := ValidateMesh(m);
    var ringErr := ValidateRing(m);
    var lineErr := ValidateLine(m);
    var connectedErr := ValidateConnected(m);
    if IsMesh(m) { MeshIsConnected(m); }
    if IsRing(m) { RingIsConnected(m); }
    if IsLine(m) { LineIsConnected(m); }
    if preferRing && ringErr.None? { return Ring, None; }
    if meshErr.None? { return Mesh, None; }
    if ringErr.None? { return Ring, None; }
    if lineErr.None? { return Line, None; }
    if connectedErr.None? { return Connected, None; }
    return Unknown, Some(NoUsableTopology);
  }

  // The direct backend opens only the first listed device of an edge.

  predicate Opens(p: Paths) { Names(p) != [] && Names(p)[0] != "" }

  /** The links that exist at run time. */
  function LinkGraph(m: Matrix): Adjacency
    requires ValidMatrix(m)
  {
    seq(|m|, u requires 0 <= u < |m| => seq(|m|, v requires 0 <= v < |m| => Opens(m[u][v])))
  }

  predicate FirstDeviceDecides(m: Matrix)
    requires ValidMatrix(m)
  {
    forall u: nat, v: nat | u < |m| && v < |m| && u != v :: Opens(m[u][v]) <==> HasPath(m[u][v])
  }

  ghost predicate SameLinks(g: Adjacency, h: Adjacency) {
    |g| == |h| && forall u: nat, v: nat :: Edge(g, u, v) <==> Edge(h, u, v)
  }

  /** The run-time links are the validated ones exactly when each edge's first device decides it. */
  lemma LinksMatchPaths(m: Matrix)
    requires ValidMatrix(m)
    ensures SameLinks(LinkGraph(m), PathGraph(m)) <==> FirstDeviceDecides(m)
  {
    var g, h := LinkGraph(m), PathGraph(m);
    if SameLinks(g, h) {
      forall u: nat, v: nat | u < |m| && v < |m| && u != v
        ensures Opens(m[u][v]) <==> HasPath(m[u][v])
      {
        assert Edge(g, u, v) <==> Edge(h, u, v);
      }
    }
  }

  lemma SameLinksSameShape(g: Adjacency, h: Adjacency)
    requires SameLinks(g, h) && Symmetric(h) && ConnectedFromZero(h)
    ensures Symmetric(g) && ConnectedFromZero(g)
  {
    forall v: nat | v < |g|
      ensures Reachable(g, 0, v)
    {
      assert Reachable(h, 0, v);
      var p :| WalkBetween(h, 0, v, p);
      assert WalkBetween(g, 0, v, p);
    }
  }

  /** A matrix that Choose accepts although no link would be opened. */
  lemma AcceptedWithoutLinks() returns (m: Matrix)
    ensures IsMesh(m) && IsConnected(m) && |m| == 2 && !FirstDeviceDecides(m)
    ensures forall u: nat, v: nat :: !Edge(LinkGraph(m), u, v)
  {
    var names := ["", "rdma_en1"];
    m := [[Listed([]), Listed(names)], [Listed(names), Listed([])]];
    assert !Blank(names[1]) by {
      assert names[1][0] == 'r' && !IsSpace('r');
    }
    HasPathMeansNonBlank(names);
    assert HasPath(m[0][1]) && HasPath(m[1][0]);
    assert IsMesh(m);
    MeshIsConnected(m);
    assert HasPath(m[0][1]) && !Opens(m[0][1]);
  }
}
