/** Square tables indexed by a pair of ranks, such as one queue per directed link. */
module Grid {
  predicate IsGrid<T>(g: seq<seq<T>>, n: nat) {
    |g| == n && forall i :: 0 <= i < n ==> |g[i]| == n
  }

  function Put<T>(g: seq<seq<T>>, i: nat, j: nat, v: T): (h: seq<seq<T>>)
    requires i < |g| && j < |g[i]|
    ensures |h| == |g| && (forall a :: 0 <= a < |h| ==> |h[a]| == |g[a]|)
    ensures forall a, b :: 0 <= a < |h| && 0 <= b < |h[a]| ==> h[a][b] == if a == i && b == j then v else g[a][b]
  {
    g[i := g[i][j := v]]
  }
}
