/** The ranks of the entity types: depth over the strongly connected components. */
module Ranking {
  import opened Reachability
  import opened Components

  // --- ranks --------------------------------------------------------------------------------------------

  /** What a rank is: shared around a cycle, above every dependency outside it, and no higher than they call for. */
  ghost predicate Ranks(g: Graph, nodes: set<nat>, rank: map<nat, nat>) {
    && (forall t: nat :: t in rank <==> t in nodes)
    && (forall a: nat, b: nat :: a in nodes && b in nodes && Mutual(g, a, b) ==> rank[a] == rank[b])
    && (forall a: nat, b: nat :: a in nodes && b in nodes && Crosses(g, a, b) ==> rank[b] < rank[a])
    && (forall a: nat :: a in nodes ==> rank[a] == 0 || CalledFor(g, rank, a))
  }

  /** A dependency that leads out of the node's cycles. */
  ghost predicate Crosses(g: Graph, a: nat, b: nat) {
    Edge(g, a, b) && !Mutual(g, a, b)
  }

  ghost predicate CalledFor(g: Graph, rank: map<nat, nat>, a: nat)
    requires a in rank
  {
    exists m, d :: Mutual(g, a, m) && Crosses(g, m, d) && d in rank && rank[a] == rank[d] + 1
  }

  lemma NextDown(g: Graph, nodes: set<nat>, rank: map<nat, nat>, a: nat) returns (m: nat, d: nat)
    requires Closed(g, nodes) && Ranks(g, nodes, rank) && a in nodes && rank[a] != 0
    ensures Mutual(g, a, m) && Crosses(g, m, d) && m in nodes && d in nodes && rank[a] == rank[d] + 1
  {
    assert CalledFor(g, rank, a);
    m, d :| Mutual(g, a, m) && Crosses(g, m, d) && d in rank && rank[a] == rank[d] + 1;
    ReachStays(g, nodes, a, m);
  }

  /** A node's rank is decided by the graph alone. */
  lemma {:induction false} RankAtMost(g: Graph, nodes: set<nat>, rank: map<nat, nat>, other: map<nat, nat>, a: nat)
    requires Closed(g, nodes) && Ranks(g, nodes, rank) && Ranks(g, nodes, other) && a in nodes
    ensures rank[a] <= other[a]
    decreases rank[a]
  {
    if rank[a] != 0 {
      var m, d := NextDown(g, nodes, rank, a);
      RankAtMost(g, nodes, rank, other, d);
      assert other[d] < other[m] == other[a];
    }
  }

  lemma RankIsUnique(g: Graph, nodes: set<nat>, rank: map<nat, nat>, other: map<nat, nat>)
    requires Closed(g, nodes) && Ranks(g, nodes, rank) && Ranks(g, nodes, other)
    ensures rank == other
  {
    forall a | a in rank
      ensures a in other && rank[a] == other[a]
    {
      RankAtMost(g, nodes, rank, other, a);
      RankAtMost(g, nodes, other, rank, a);
    }
  }

  /** How many edges of a path lead out of a component. */
  ghost function Crossings(g: Graph, p: seq<nat>): nat {
    if |p| < 2 then 0 else (if Mutual(g, p[0], p[1]) then 0 else 1) + Crossings(g, p[1..])
  }

  lemma PathTail(g: Graph, p: seq<nat>)
    requires Path(g, p) && |p| >= 2
    ensures Path(g, p[1..]) && Edge(g, p[0], p[1])
  {
    var rest := p[1..];
    assert Edge(g, p[0], p[1]);
    forall i, j | 0 <= i && j == i + 1 < |rest|
      ensures Edge(g, rest[i], rest[j])
    {
      assert Edge(g, p[i + 1], p[j + 1]);
    }
  }

  /** Every edge out of a component costs a rank. */
  lemma {:induction false} CrossingsCost(g: Graph, nodes: set<nat>, rank: map<nat, nat>, p: seq<nat>)
    requires Closed(g, nodes) && Ranks(g, nodes, rank) && Path(g, p) && p[0] in nodes
    ensures p[|p| - 1] in nodes && Crossings(g, p) + rank[p[|p| - 1]] <= rank[p[0]]
  {
    if |p| >= 2 {
      PathTail(g, p);
      CrossingsCost(g, nodes, rank, p[1..]);
      assert Mutual(g, p[0], p[1]) || Crosses(g, p[0], p[1]);
    }
  }

  lemma {:induction false} CrossingsJoin(g: Graph, p: seq<nat>, q: seq<nat>)
    requires Path(g, p) && Path(g, q) && Crosses(g, p[|p| - 1], q[0])
    ensures Path(g, p + q) && Crossings(g, p + q) == Crossings(g, p) + 1 + Crossings(g, q)
  {
    var r := p + q;
    forall i, j | 0 <= i && j == i + 1 < |r|
      ensures Edge(g, r[i], r[j])
    {
      if j < |p| {
        assert Edge(g, p[i], p[j]);
      } else if i >= |p| {
        assert Edge(g, q[i - |p|], q[j - |p|]);
      }
    }
    if |p| == 1 {
      assert r[1..] == q;
    } else {
      PathTail(g, p);
      CrossingsJoin(g, p[1..], q);
      assert r[1..] == p[1..] + q;
    }
  }

  lemma PathBetween(g: Graph, a: nat, b: nat) returns (p: seq<nat>)
    requires Reach(g, a, b)
    ensures Path(g, p) && p[0] == a && p[|p| - 1] == b
  {
    p :| Path(g, p) && p[0] == a && p[|p| - 1] == b;
  }

  lemma InnerPath(g: Graph, nodes: set<nat>, rank: map<nat, nat>, a: nat, b: nat) returns (p: seq<nat>)
    requires Closed(g, nodes) && Ranks(g, nodes, rank) && a in nodes && Mutual(g, a, b)
    ensures Path(g, p) && p[0] == a && p[|p| - 1] == b && b in nodes && Crossings(g, p) == 0
  {
    p := PathBetween(g, a, b);
    CrossingsCost(g, nodes, rank, p);
  }

  lemma {:induction false} SomePathIsLong(g: Graph, nodes: set<nat>, rank: map<nat, nat>, a: nat) returns (p: seq<nat>)
    requires Closed(g, nodes) && Ranks(g, nodes, rank) && a in nodes
    ensures Path(g, p) && p[0] == a && Crossings(g, p) == rank[a]
    decreases rank[a]
  {
    if rank[a] == 0 {
      p := [a];
    } else {
      var m, d := NextDown(g, nodes, rank, a);
      var q := InnerPath(g, nodes, rank, a, m);
      var r := SomePathIsLong(g, nodes, rank, d);
      CrossingsJoin(g, q, r);
      p := q + r;
    }
  }

  /** The rank is the number of components the longest chain of dependencies from the node passes into. */
  lemma RankIsLongest(g: Graph, nodes: set<nat>, rank: map<nat, nat>, a: nat)
    requires Closed(g, nodes) && Ranks(g, nodes, rank) && a in nodes
    ensures forall p :: Path(g, p) && p[0] == a ==> Crossings(g, p) <= rank[a]
    ensures exists p :: Path(g, p) && p[0] == a && Crossings(g, p) == rank[a]
  {
    forall p | Path(g, p) && p[0] == a
      ensures Crossings(g, p) <= rank[a]
    {
      CrossingsCost(g, nodes, rank, p);
    }
    var q := SomePathIsLong(g, nodes, rank, a);
  }

  /** Of a member of component i: the dependency leads out of the component, or stays in it. */
  lemma CrossingComponent(g: Graph, s: Search, i: nat, a: nat, b: nat)
    requires Finished(g, s) && i < |s.components| && a in s.components[i] && Edge(g, a, b)
    ensures b in s.component && s.component[b] <= i && a in s.component
    ensures s.component[b] != i <==> Crosses(g, a, b)
  {
  }

  /** The ranks of the first components are right, going by component. */
  ghost predicate RankedTo(g: Graph, s: Search, componentRank: seq<nat>) {
    |componentRank| <= |s.components| && AllFall(g, s, componentRank) && AllAttained(g, s, componentRank)
  }

  ghost predicate AllFall(g: Graph, s: Search, componentRank: seq<nat>) {
    forall a: nat, b: nat :: a in s.component && s.component[a] < |componentRank| && Crosses(g, a, b) ==>
      Falls(s, componentRank, a, b)
  }

  ghost predicate AllAttained(g: Graph, s: Search, componentRank: seq<nat>)
    requires |componentRank| <= |s.components|
  {
    forall i :: 0 <= i < |componentRank| ==> componentRank[i] == 0 || Attained(g, s, componentRank, i, componentRank[i])
  }

  ghost predicate Falls(s: Search, componentRank: seq<nat>, a: nat, b: nat)
    requires a in s.component && s.component[a] < |componentRank|
  {
    b in s.component && s.component[b] < s.component[a] && componentRank[s.component[b]] < componentRank[s.component[a]]
  }

  ghost predicate Attained(g: Graph, s: Search, componentRank: seq<nat>, i: nat, rank: nat)
    requires i < |s.components|
  {
    exists m, d :: Attains(g, s, componentRank, i, m, d, rank)
  }

  /** A dependency of a member of the component, one rank down. */
  ghost predicate Attains(g: Graph, s: Search, componentRank: seq<nat>, i: nat, m: nat, d: nat, rank: nat)
    requires i < |s.components|
  {
    m in s.components[i] && Crosses(g, m, d) && d in s.component && s.component[d] < |componentRank|
    && componentRank[s.component[d]] + 1 == rank
  }

  lemma RankedIsRanks(g: Graph, nodes: set<nat>, s: Search, componentRank: seq<nat>, rank: map<nat, nat>)
    requires Finished(g, s) && RankedTo(g, s, componentRank) && |componentRank| == |s.components|
    requires forall t: nat :: t in s.component <==> t in nodes
    requires GivenTo(s, componentRank, rank)
    ensures Ranks(g, nodes, rank)
  {
    forall a: nat | a in nodes
      ensures rank[a] == 0 || CalledFor(g, rank, a)
    {
      var i := s.component[a];
      if rank[a] != 0 {
        assert Attained(g, s, componentRank, i, componentRank[i]);
        var m, d :| Attains(g, s, componentRank, i, m, d, componentRank[i]);
        assert s.component[m] == i;
        assert Mutual(g, a, m);
      }
    }
  }

  /** The highest rank the first dependencies of a member call for. */
  ghost predicate RankSoFar(g: Graph, s: Search, componentRank: seq<nat>, i: nat, m: nat, count: nat, rank: nat)
    requires m < |g| && count <= |g[m]|
  {
    forall k :: 0 <= k < count ==> Covers(s, componentRank, i, g[m][k], rank)
  }

  ghost predicate Covers(s: Search, componentRank: seq<nat>, i: nat, dep: nat, rank: nat) {
    dep in s.component &&
    (s.component[dep] != i ==> s.component[dep] < |componentRank| && componentRank[s.component[dep]] < rank)
  }

  ghost predicate RankedMember(g: Graph, s: Search, componentRank: seq<nat>, i: nat, m: nat, rank: nat) {
    m < |g| && RankSoFar(g, s, componentRank, i, m, |g[m]|, rank)
  }

  /** The rank of a component: one above the highest of the components its members depend on. */
  method RankOf(g: Graph, ghost s: Search, component: map<nat, nat>, members: seq<nat>, i: nat,
      componentRank: seq<nat>) returns (rank: nat)
    requires WellFormed(g) && Finished(g, s) && component == s.component
    requires i < |s.components| && members == s.components[i] && |componentRank| == i
    requires forall t :: t in s.component ==> t < |g|
    ensures forall m :: m in members ==> RankedMember(g, s, componentRank, i, m, rank)
    ensures rank == 0 || Attained(g, s, componentRank, i, rank)
  {
    rank := 0;
    for j := 0 to |members|
      invariant forall n :: 0 <= n < j ==> RankedMember(g, s, componentRank, i, members[n], rank)
      invariant rank == 0 || Attained(g, s, componentRank, i, rank)
    {
      var m := members[j];
      assert m in members && m in s.component;
      for k := 0 to |g[m]|
        invariant forall n :: 0 <= n < j ==> RankedMember(g, s, componentRank, i, members[n], rank)
        invariant RankSoFar(g, s, componentRank, i, m, k, rank)
        invariant rank == 0 || Attained(g, s, componentRank, i, rank)
      {
        var dep := g[m][k];
        assert Edge(g, m, dep);
        CrossingComponent(g, s, i, m, dep);
        if component[dep] != i && rank < componentRank[component[dep]] + 1 {
          ghost var was := rank;
          rank := componentRank[component[dep]] + 1;
          assert Attains(g, s, componentRank, i, m, dep, rank);
          forall n | 0 <= n < j
            ensures RankedMember(g, s, componentRank, i, members[n], rank)
          {
            assert RankedMember(g, s, componentRank, i, members[n], was);
          }
        }
      }
    }
  }

  lemma OneMoreFalls(g: Graph, s: Search, componentRank: seq<nat>, rank: nat, a: nat, b: nat)
    requires Finished(g, s) && AllFall(g, s, componentRank) && |componentRank| < |s.components|
    requires forall m :: m in s.components[|componentRank|] ==>
               RankedMember(g, s, componentRank, |componentRank|, m, rank)
    requires a in s.component && s.component[a] <= |componentRank| && Crosses(g, a, b)
    ensures Falls(s, componentRank + [rank], a, b)
  {
    var i := s.component[a];
    assert a in s.components[i];
    CrossingComponent(g, s, i, a, b);
    if i < |componentRank| {
      assert Falls(s, componentRank, a, b);
    } else {
      assert RankedMember(g, s, componentRank, i, a, rank);
      var k :| 0 <= k < |g[a]| && g[a][k] == b;
      assert Covers(s, componentRank, i, g[a][k], rank);
    }
  }

  lemma OneMoreAttained(g: Graph, s: Search, componentRank: seq<nat>, rank: nat)
    requires |componentRank| < |s.components| && AllAttained(g, s, componentRank)
    requires rank == 0 || Attained(g, s, componentRank, |componentRank|, rank)
    ensures AllAttained(g, s, componentRank + [rank])
  {
    var longer := componentRank + [rank];
    forall i | 0 <= i < |longer| && longer[i] != 0
      ensures Attained(g, s, longer, i, longer[i])
    {
      assert Attained(g, s, componentRank, i, longer[i]);
      var m, d :| Attains(g, s, componentRank, i, m, d, longer[i]);
      assert Attains(g, s, longer, i, m, d, longer[i]);
    }
  }

  lemma RankedOneMore(g: Graph, s: Search, componentRank: seq<nat>, rank: nat)
    requires Finished(g, s) && RankedTo(g, s, componentRank) && |componentRank| < |s.components|
    requires forall m :: m in s.components[|componentRank|] ==>
               RankedMember(g, s, componentRank, |componentRank|, m, rank)
    requires rank == 0 || Attained(g, s, componentRank, |componentRank|, rank)
    ensures RankedTo(g, s, componentRank + [rank])
  {
    OneMoreAttained(g, s, componentRank, rank);
    forall a: nat, b: nat | a in s.component && s.component[a] <= |componentRank| && Crosses(g, a, b)
      ensures Falls(s, componentRank + [rank], a, b)
    {
      OneMoreFalls(g, s, componentRank, rank, a, b);
    }
  }

  method GiveRank(ranks: map<nat, nat>, members: seq<nat>, rank: nat) returns (more: map<nat, nat>)
    ensures forall t: nat :: t in more <==> t in ranks || t in members
    ensures forall t: nat :: t in more ==> more[t] == if t in members then rank else ranks[t]
  {
    more := ranks;
    for j := 0 to |members|
      invariant forall t: nat :: t in more <==> t in ranks || t in members[..j]
      invariant forall t: nat :: t in more ==> more[t] == if t in members[..j] then rank else ranks[t]
    {
      more := more[members[j] := rank];
    }
    assert members[..|members|] == members;
  }

  /** The ranks given out so far are those of the members of the first components. */
  ghost predicate GivenTo(s: Search, componentRank: seq<nat>, ranks: map<nat, nat>) {
    && (forall t: nat :: t in ranks <==> t in s.component && s.component[t] < |componentRank|)
    && (forall t: nat :: t in ranks ==> ranks[t] == componentRank[s.component[t]])
  }

  /** Ranks every discovered type; the order in which they were discovered does not show. */
  method RankTypes(g: Graph, discovered: seq<nat>, ghost nodes: set<nat>) returns (ranks: map<nat, nat>)
    requires WellFormed(g) && Closed(g, nodes) && (forall t :: t in nodes ==> t < |g|)
    requires forall t :: t in discovered <==> t in nodes
    ensures Ranks(g, nodes, ranks)
  {
    var ranker := new TypeRanker(g, nodes);
    ranker.VisitAll(discovered);
    ghost var s := ranker.View();
    ranks := map[];
    var componentRank: seq<nat> := [];
    for i := 0 to |ranker.components|
      invariant s == ranker.View() && |componentRank| == i && RankedTo(g, s, componentRank) &&
                GivenTo(s, componentRank, ranks)
    {
      var members := ranker.components[i];
      var rank := RankOf(g, s, ranker.component, members, i, componentRank);
      RankedOneMore(g, s, componentRank, rank);
      componentRank := componentRank + [rank];
      ranks := GiveRank(ranks, members, rank);
    }
    RankedIsRanks(g, nodes, s, componentRank, ranks);
  }
}
