/** Paths in a graph given by adjacency lists. */
module Reachability {

  type Graph = seq<seq<nat>>

  ghost predicate WellFormed(g: Graph) {
    forall i, d :: 0 <= i < |g| && d in g[i] ==> d < |g|
  }

  ghost predicate Edge(g: Graph, a: nat, b: nat) {
    a < |g| && b in g[a]
  }

  ghost predicate Path(g: Graph, p: seq<nat>) {
    p != [] && forall i, j :: 0 <= i && j == i + 1 < |p| ==> Edge(g, p[i], p[j])
  }

  ghost predicate Reach(g: Graph, a: nat, b: nat) {
    exists p :: Path(g, p) && p[0] == a && p[|p| - 1] == b
  }

  /** Two nodes lie on one cycle, or are one node. */
  ghost predicate Mutual(g: Graph, a: nat, b: nat) {
    Reach(g, a, b) && Reach(g, b, a)
  }

  ghost predicate Closed(g: Graph, nodes: set<nat>) {
    forall a, b :: a in nodes && Edge(g, a, b) ==> b in nodes
  }

  lemma ReachSelf(g: Graph, a: nat)
    ensures Reach(g, a, a)
  {
    assert Path(g, [a]) && [a][0] == a;
  }

  lemma ReachEdge(g: Graph, a: nat, b: nat)
    requires Edge(g, a, b)
    ensures Reach(g, a, b)
  {
    assert Path(g, [a, b]) && [a, b][0] == a && [a, b][1] == b;
  }

  lemma ReachTrans(g: Graph, a: nat, b: nat, c: nat)
    requires Reach(g, a, b) && Reach(g, b, c)
    ensures Reach(g, a, c)
  {
    var p :| Path(g, p) && p[0] == a && p[|p| - 1] == b;
    var q :| Path(g, q) && q[0] == b && q[|q| - 1] == c;
    var r := p + q[1..];
    forall i, j | 0 <= i && j == i + 1 < |r|
      ensures Edge(g, r[i], r[j])
    {
      if i >= |p| - 1 {
        assert r[i] == q[i - (|p| - 1)] && r[j] == q[j - (|p| - 1)];
      }
    }
    assert Path(g, r) && r[0] == a && r[|r| - 1] == c;
  }

  lemma MutualTrans(g: Graph, a: nat, b: nat, c: nat)
    requires Mutual(g, a, b) && Mutual(g, b, c)
    ensures Mutual(g, a, c)
  {
    ReachTrans(g, a, b, c);
    ReachTrans(g, c, b, a);
  }

  lemma {:induction false} PathStays(g: Graph, nodes: set<nat>, p: seq<nat>, i: nat)
    requires Closed(g, nodes) && Path(g, p) && p[0] in nodes && i < |p|
    ensures p[i] in nodes
  {
    if i > 0 {
      PathStays(g, nodes, p, i - 1);
      assert Edge(g, p[i - 1], p[i]);
    }
  }

  /** Nothing outside a closed set is reached from inside it. */
  lemma ReachStays(g: Graph, nodes: set<nat>, a: nat, b: nat)
    requires Closed(g, nodes) && a in nodes && Reach(g, a, b)
    ensures b in nodes
  {
    var p :| Path(g, p) && p[0] == a && p[|p| - 1] == b;
    PathStays(g, nodes, p, |p| - 1);
  }

  // --- how far a search has to go -------------------------------------------------------------------

  /** How many of the first n nodes are not visited yet. */
  ghost function Unvisited(visited: set<nat>, n: nat): nat {
    if n == 0 then 0 else (if n - 1 in visited then 0 else 1) + Unvisited(visited, n - 1)
  }

  lemma {:induction false} UnvisitedFalls(visited: set<nat>, after: set<nat>, n: nat)
    requires visited <= after
    ensures Unvisited(after, n) <= Unvisited(visited, n)
    ensures forall t :: t < n && t !in visited && t in after ==> Unvisited(after, n) < Unvisited(visited, n)
  {
    if n > 0 {
      UnvisitedFalls(visited, after, n - 1);
    }
  }

  // --- graphs with the same edges ------------------------------------------------------------------

  ghost predicate SameEdges(g: Graph, h: Graph) {
    forall a, b :: Edge(g, a, b) <==> Edge(h, a, b)
  }

  lemma SameReach(g: Graph, h: Graph, a: nat, b: nat)
    requires SameEdges(g, h)
    ensures Reach(g, a, b) <==> Reach(h, a, b)
  {
    forall p | Path(g, p)
      ensures Path(h, p)
    {
    }
    forall p | Path(h, p)
      ensures Path(g, p)
    {
    }
  }
}
