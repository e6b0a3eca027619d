/** Walks and distances in a graph given by its matrix of link costs. */
module ShortestPaths {
  const INF := 0x3f3f3f3f  // the cost of a link that is down, and of a router not known to be reachable

  /** `g[u][v]` is the cost of the link from `u` to `v`; nodes are 1..n. */
  type Graph = seq<seq<int>>

  predicate IsGraph(g: Graph, n: nat) {
    && |g| == n + 1
    && forall u {:trigger g[u]} :: 1 <= u <= n ==> |g[u]| > n && forall v :: 1 <= v <= n ==> 0 <= g[u][v] <= INF
  }

  /** `p` leads from `u` to `i` over links that are up. */
  predicate Walk(g: Graph, n: nat, p: seq<nat>, u: nat, i: nat)
    requires IsGraph(g, n)
  {
    && |p| > 0 && p[0] == u && p[|p| - 1] == i
    && (forall k :: 0 <= k < |p| ==> 1 <= p[k] <= n)
    && (forall k :: 0 <= k < |p| - 1 ==> g[p[k]][p[k + 1]] < INF)
  }

  function Cost(g: Graph, n: nat, p: seq<nat>): nat
    requires IsGraph(g, n) && forall k :: 0 <= k < |p| ==> 1 <= p[k] <= n
  {
    if |p| <= 1 then 0 else g[p[0]][p[1]] + Cost(g, n, p[1..])
  }

  /** Some walk from `u` to `i` costs at most `x`. */
  ghost predicate Within(g: Graph, n: nat, u: nat, i: nat, x: int)
    requires IsGraph(g, n)
  {
    exists p :: Walk(g, n, p, u, i) && Cost(g, n, p) <= x
  }

  /** `x` is the cost of the cheapest walk from `u` to `i`, cut off at INF. */
  ghost predicate Distance(g: Graph, n: nat, u: nat, i: nat, x: int)
    requires IsGraph(g, n)
  {
    && x <= INF
    && (x < INF ==> Within(g, n, u, i, x))
    && forall p :: Walk(g, n, p, u, i) ==> x <= Cost(g, n, p)
  }

  /** Every link of `h` costs at most what it costs in `g`. */
  predicate Cheaper(h: Graph, g: Graph, n: nat)
    requires IsGraph(g, n) && IsGraph(h, n)
  {
    forall u, v :: 1 <= u <= n && 1 <= v <= n ==> h[u][v] <= g[u][v]
  }

  lemma WalkTail(g: Graph, n: nat, p: seq<nat>, u: nat, i: nat)
    requires IsGraph(g, n) && Walk(g, n, p, u, i) && |p| > 1
    ensures Walk(g, n, p[1..], p[1], i) && g[u][p[1]] < INF
    ensures Cost(g, n, p) == g[u][p[1]] + Cost(g, n, p[1..])
  {
    var q := p[1..];
    assert forall k :: 0 <= k < |q| ==> q[k] == p[k + 1];
  }

  lemma WalkExtends(g: Graph, n: nat, u: nat, q: seq<nat>, v: nat, i: nat)
    requires IsGraph(g, n) && Walk(g, n, q, v, i) && 1 <= u <= n && g[u][v] < INF
    ensures Walk(g, n, [u] + q, u, i) && Cost(g, n, [u] + q) == g[u][v] + Cost(g, n, q)
  {
    var p := [u] + q;
    assert p[1..] == q;
    assert forall k :: 0 < k < |p| ==> p[k] == q[k - 1];
  }

  lemma CheaperLinks(h: Graph, g: Graph, n: nat, p: seq<nat>, u: nat, i: nat)
    requires IsGraph(g, n) && IsGraph(h, n) && Cheaper(h, g, n) && Walk(g, n, p, u, i)
    ensures Walk(h, n, p, u, i)
  {
    forall k | 0 <= k < |p| - 1
      ensures h[p[k]][p[k + 1]] < INF
    {
      assert h[p[k]][p[k + 1]] <= g[p[k]][p[k + 1]];
    }
  }

  lemma {:induction false} CheaperWalk(h: Graph, g: Graph, n: nat, p: seq<nat>, u: nat, i: nat)
    requires IsGraph(g, n) && IsGraph(h, n) && Cheaper(h, g, n) && Walk(g, n, p, u, i)
    ensures Walk(h, n, p, u, i) && Cost(h, n, p) <= Cost(g, n, p)
  {
    CheaperLinks(h, g, n, p, u, i);
    if |p| > 1 {
      WalkTail(g, n, p, u, i);
      WalkTail(h, n, p, u, i);
      assert h[u][p[1]] <= g[u][p[1]];
      CheaperWalk(h, g, n, p[1..], p[1], i);
    }
  }

  lemma CheaperWithin(h: Graph, g: Graph, n: nat, u: nat, i: nat, x: int)
    requires IsGraph(g, n) && IsGraph(h, n) && Cheaper(h, g, n) && Within(g, n, u, i, x)
    ensures Within(h, n, u, i, x)
  {
    var p :| Walk(g, n, p, u, i) && Cost(g, n, p) <= x;
    CheaperWalk(h, g, n, p, u, i);
  }

  lemma WithinMore(g: Graph, n: nat, u: nat, i: nat, x: int, y: int)
    requires IsGraph(g, n) && Within(g, n, u, i, x) && x <= y
    ensures Within(g, n, u, i, y)
  {
    var p :| Walk(g, n, p, u, i) && Cost(g, n, p) <= x;
  }

  lemma StayWithin(g: Graph, n: nat, u: nat)
    requires IsGraph(g, n) && 1 <= u <= n
    ensures Within(g, n, u, u, 0)
  {
    assert Walk(g, n, [u], u, u) && Cost(g, n, [u]) == 0;
  }

  lemma HopWithin(g: Graph, n: nat, u: nat, v: nat, i: nat, x: int)
    requires IsGraph(g, n) && 1 <= u <= n && 1 <= v <= n && g[u][v] < INF && Within(g, n, v, i, x)
    ensures Within(g, n, u, i, g[u][v] + x)
  {
    var p :| Walk(g, n, p, v, i) && Cost(g, n, p) <= x;
    var q := [u] + p;
    assert q[1..] == p;
    assert forall k :: 0 < k < |q| ==> q[k] == p[k - 1];
    assert Walk(g, n, q, u, i);
  }
}
