/**
  Graphs over ranks 0..n-1: walks, reachability and distance balls.

  A rank pair is linked when the adjacency entry is set and the two ranks differ;
  the diagonal of a device matrix is never a link.
 */
module RankGraph {

  type Adjacency = adj: seq<seq<bool>> | Square(adj) witness []

  predicate Square(adj: seq<seq<bool>>) {
    forall u :: 0 <= u < |adj| ==> |adj[u]| == |adj|
  }

  predicate Edge(adj: Adjacency, u: nat, v: nat) {
    u < |adj| && v < |adj| && u != v && adj[u][v]
  }

  predicate Symmetric(adj: Adjacency) {
    forall u: nat, v: nat | u < |adj| && v < |adj| :: Edge(adj, u, v) <==> Edge(adj, v, u)
  }

  ghost function AllRanks(n: nat): (s: set<nat>)
    ensures |s| == n
    ensures forall v: nat :: v in s <==> v < n
  {
    if n == 0 then {} else AllRanks(n - 1) + {n - 1}
  }

  /** A walk is a nonempty sequence of ranks in which neighbours are linked. */
  ghost predicate Walk(adj: Adjacency, p: seq<nat>) {
    && |p| > 0
    && (forall i :: 0 <= i < |p| ==> p[i] < |adj|)
    && (forall i :: 0 < i < |p| ==> Edge(adj, p[i - 1], p[i]))
  }

  ghost predicate WalkBetween(adj: Adjacency, u: nat, v: nat, p: seq<nat>) {
    Walk(adj, p) && p[0] == u && p[|p| - 1] == v
  }

  ghost predicate Reachable(adj: Adjacency, u: nat, v: nat) {
    exists p :: WalkBetween(adj, u, v, p)
  }

  /** Every rank is reachable from rank 0. */
  ghost predicate ConnectedFromZero(adj: Adjacency) {
    forall v: nat | v < |adj| :: Reachable(adj, 0, v)
  }

  /** v is at graph distance at most t from u. */
  ghost predicate Within(adj: Adjacency, u: nat, v: nat, t: nat)
    decreases t
  {
    if t == 0 then u == v
    else Within(adj, u, v, t - 1) || exists q: nat :: Edge(adj, u, q) && Within(adj, q, v, t - 1)
  }

  /** The ranks that u learns about in t rounds of talking to its neighbours. */
  ghost function Ball(adj: Adjacency, u: nat, t: nat): set<nat> {
    set v | v in AllRanks(|adj|) && Within(adj, u, v, t)
  }

  /** Within is distance: a walk of at most t links. */
  lemma {:induction false} WithinIsDistance(adj: Adjacency, u: nat, v: nat, t: nat)
    requires u < |adj|
    ensures Within(adj, u, v, t) <==> exists p :: WalkBetween(adj, u, v, p) && |p| <= t + 1
  {
    if Within(adj, u, v, t) {
      var p := WithinGivesWalk(adj, u, v, t);
    }
    forall p | WalkBetween(adj, u, v, p) && |p| <= t + 1
      ensures Within(adj, u, v, t)
    {
      WalkGivesWithin(adj, u, v, p, t);
    }
  }

  lemma {:induction false} WithinGivesWalk(adj: Adjacency, u: nat, v: nat, t: nat) returns (p: seq<nat>)
    requires u < |adj| && Within(adj, u, v, t)
    ensures WalkBetween(adj, u, v, p) && |p| <= t + 1
    decreases t
  {
    if t == 0 {
      p := [u];
    } else if Within(adj, u, v, t - 1) {
      p := WithinGivesWalk(adj, u, v, t - 1);
    } else {
      var q: nat :| Edge(adj, u, q) && Within(adj, q, v, t - 1);
      var rest := WithinGivesWalk(adj, q, v, t - 1);
      p := [u] + rest;
    }
  }

  lemma {:induction false} WalkGivesWithin(adj: Adjacency, u: nat, v: nat, p: seq<nat>, t: nat)
    requires WalkBetween(adj, u, v, p) && |p| <= t + 1
    ensures Within(adj, u, v, t)
    decreases t
  {
    if |p| > 1 {
      assert Edge(adj, p[0], p[1]);
      WalkGivesWithin(adj, p[1], v, p[1..], t - 1);
    } else if t > 0 {
      WalkGivesWithin(adj, u, v, p, t - 1);
    }
  }

  /** A ball can equally be grown by one link at its far end. */
  lemma {:induction false} WithinOutward(adj: Adjacency, u: nat, v: nat, t: nat)
    ensures Within(adj, u, v, t + 1) <==>
              Within(adj, u, v, t) || exists w: nat :: Within(adj, u, w, t) && Edge(adj, w, v)
    decreases t
  {
    if t == 0 {
      if Edge(adj, u, v) {
        assert Within(adj, v, v, 0);
      }
    } else {
      OutwardOnlyIf(adj, u, v, t);
      OutwardIf(adj, u, v, t);
    }
  }

  lemma {:induction false} OutwardOnlyIf(adj: Adjacency, u: nat, v: nat, t: nat)
    requires t > 0
    ensures Within(adj, u, v, t + 1) ==>
              Within(adj, u, v, t) || exists w: nat :: Within(adj, u, w, t) && Edge(adj, w, v)
    decreases t, 0
  {
    if Within(adj, u, v, t + 1) && !Within(adj, u, v, t) {
      var q: nat :| Edge(adj, u, q) && Within(adj, q, v, t);
      WithinOutward(adj, q, v, t - 1);
      var w: nat :| Within(adj, q, w, t - 1) && Edge(adj, w, v);
      assert Within(adj, u, w, t);
    }
  }

  lemma {:induction false} OutwardIf(adj: Adjacency, u: nat, v: nat, t: nat)
    requires t > 0
    ensures (exists w: nat :: Within(adj, u, w, t) && Edge(adj, w, v)) ==> Within(adj, u, v, t + 1)
    decreases t, 0
  {
    if w: nat :| Within(adj, u, w, t) && Edge(adj, w, v) {
      if Within(adj, u, w, t - 1) {
        WithinOutward(adj, u, v, t - 1);
      } else {
        var q: nat :| Edge(adj, u, q) && Within(adj, q, w, t - 1);
        WithinOutward(adj, q, v, t - 1);
        assert Within(adj, q, v, t);
      }
    }
  }

  lemma {:induction false} BallSaturates(adj: Adjacency, u: nat, s: nat, t: nat, v: nat)
    requires u < |adj| && s <= t
    requires Stopped(adj, u, s)
    ensures Within(adj, u, v, t) ==> Within(adj, u, v, s)
    decreases t
  {
    if s < t && Within(adj, u, v, t) {
      WithinOutward(adj, u, v, t - 1);
      if Within(adj, u, v, t - 1) {
        BallSaturates(adj, u, s, t - 1, v);
      } else {
        var w: nat :| Within(adj, u, w, t - 1) && Edge(adj, w, v);
        BallSaturates(adj, u, s, t - 1, w);
        WithinOutward(adj, u, v, s);
        assert v in Ball(adj, u, s + 1);
      }
    }
  }

  /** The ball gains nothing in step s. */
  ghost predicate Stopped(adj: Adjacency, u: nat, s: nat) {
    Ball(adj, u, s + 1) == Ball(adj, u, s)
  }

  lemma BallStep(adj: Adjacency, u: nat, t: nat)
    ensures Stopped(adj, u, t) || |Ball(adj, u, t + 1)| > |Ball(adj, u, t)|
  {
    var small, big := Ball(adj, u, t), Ball(adj, u, t + 1);
    assert small <= big;
    if small != big {
      ProperSubsetSmaller(small, big);
    }
  }

  /** Until it is full, the ball gains at least one rank a step. */
  lemma {:induction false} BallGrowsOrStops(adj: Adjacency, u: nat, t: nat)
    requires u < |adj|
    ensures |Ball(adj, u, t)| >= t + 1 || exists s: nat :: s < t && Stopped(adj, u, s)
    decreases t
  {
    if t == 0 {
      assert Ball(adj, u, 0) == {u};
    } else {
      BallGrowsOrStops(adj, u, t - 1);
      BallStep(adj, u, t - 1);
    }
  }

  lemma ProperSubsetSmaller(a: set<nat>, b: set<nat>)
    requires a < b
    ensures |a| < |b|
  {
    var x :| x in b && x !in a;
    SubsetCardinality(a, b - {x});
  }

  lemma {:induction false} SubsetCardinality(a: set<nat>, b: set<nat>)
    requires a <= b
    ensures |a| <= |b|
    decreases a
  {
    if a != {} {
      var x :| x in a;
      SubsetCardinality(a - {x}, b - {x});
    }
  }

  lemma FullSubset(a: set<nat>, n: nat)
    requires a <= AllRanks(n) && |a| >= n
    ensures a == AllRanks(n)
  {
    if a != AllRanks(n) {
      ProperSubsetSmaller(a, AllRanks(n));
    }
  }

  lemma ReverseWalk(adj: Adjacency, u: nat, v: nat, p: seq<nat>) returns (q: seq<nat>)
    requires Symmetric(adj) && WalkBetween(adj, u, v, p)
    ensures WalkBetween(adj, v, u, q)
  {
    q := seq(|p|, i requires 0 <= i < |p| => p[|p| - 1 - i]);
    forall i | 0 < i < |q|
      ensures Edge(adj, q[i - 1], q[i])
    {
      assert Edge(adj, p[|p| - 1 - i], p[|p| - i]);
    }
  }

  lemma JoinWalks(adj: Adjacency, u: nat, v: nat, w: nat, p: seq<nat>, q: seq<nat>)
    requires WalkBetween(adj, u, v, p) && WalkBetween(adj, v, w, q)
    ensures WalkBetween(adj, u, w, p + q[1..])
  {
    var j := p + q[1..];
    forall i | 0 < i < |j|
      ensures Edge(adj, j[i - 1], j[i])
    {
      if i < |p| {
        assert Edge(adj, p[i - 1], p[i]);
      } else {
        var k := i - |p| + 1;
        assert Edge(adj, q[k - 1], q[k]);
      }
    }
  }

  lemma ConnectedBothWays(adj: Adjacency, u: nat, v: nat)
    requires Symmetric(adj) && ConnectedFromZero(adj) && u < |adj| && v < |adj|
    ensures Reachable(adj, u, v)
  {
    assert Reachable(adj, 0, u) && Reachable(adj, 0, v);
    var pu :| WalkBetween(adj, 0, u, pu);
    var pv :| WalkBetween(adj, 0, v, pv);
    var back := ReverseWalk(adj, 0, u, pu);
    JoinWalks(adj, u, 0, v, back, pv);
  }

  lemma SaturatedBallHasReachable(adj: Adjacency, u: nat, s: nat, v: nat)
    requires u < |adj| && Reachable(adj, u, v) && Stopped(adj, u, s)
    ensures Within(adj, u, v, s)
  {
    var p :| WalkBetween(adj, u, v, p);
    var t := |p| + s;
    WalkGivesWithin(adj, u, v, p, t);
    BallSaturates(adj, u, s, t, v);
  }

  lemma {:induction false} WithinMonotone(adj: Adjacency, u: nat, v: nat, s: nat, t: nat)
    requires s <= t && Within(adj, u, v, s)
    ensures Within(adj, u, v, t)
    decreases t
  {
    if s < t {
      WithinMonotone(adj, u, v, s, t - 1);
    }
  }

  /** In a graph of n ranks, the ranks that u can reach at all are those within n-1 links of it. */
  lemma ReachableIsWithin(adj: Adjacency, u: nat, v: nat)
    requires u < |adj|
    ensures Reachable(adj, u, v) <==> Within(adj, u, v, |adj| - 1)
  {
    var n := |adj|;
    if Within(adj, u, v, n - 1) {
      var p := WithinGivesWalk(adj, u, v, n - 1);
    }
    if Reachable(adj, u, v) {
      var p :| WalkBetween(adj, u, v, p);
      assert v < n;
      BallGrowsOrStops(adj, u, n - 1);
      if |Ball(adj, u, n - 1)| >= n {
        FullSubset(Ball(adj, u, n - 1), n);
        assert v in Ball(adj, u, n - 1);
      } else {
        var s: nat :| s < n - 1 && Stopped(adj, u, s);
        SaturatedBallHasReachable(adj, u, s, v);
        WithinMonotone(adj, u, v, s, n - 1);
      }
    }
  }

  /** The linked peers of u at or above rank from, in rank order. */
  function PeersFrom(adj: Adjacency, u: nat, from: nat): (s: seq<nat>)
    requires u < |adj| && from <= |adj|
    ensures forall v: nat :: v in s <==> from <= v && Edge(adj, u, v)
    ensures forall i, j :: 0 <= i < j < |s| ==> s[i] < s[j]
    decreases |adj| - from
  {
    if from == |adj| then []
    else if Edge(adj, u, from) then
      var rest := PeersFrom(adj, u, from + 1);
      assert forall i :: 0 <= i < |rest| ==> rest[i] in rest;
      [from] + rest
    else PeersFrom(adj, u, from + 1)
  }

  function Peers(adj: Adjacency, u: nat): (s: seq<nat>)
    requires u < |adj|
    ensures forall v: nat :: v in s <==> Edge(adj, u, v)
    ensures forall i, j :: 0 <= i < j < |s| ==> s[i] < s[j]
  {
    PeersFrom(adj, u, 0)
  }
}
