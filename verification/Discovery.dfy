/** Which types a flush ranks, and their references, from the relationships of the scheduled ones. */
module Discovery {
  import opened Reachability
  import Components
  import opened Ranking

  datatype Kind = ManyToOne | OneToMany | OneToOne | ManyToMany

  datatype Relation = Relation(kind: Kind, target: nat)

  /** The relationships of each type. */
  type Mappings = seq<seq<Relation>>

  ghost predicate TargetsMapped(m: Mappings) {
    forall t, k :: 0 <= t < |m| && 0 <= k < |m[t]| ==> m[t][k].target < |m|
  }

  /** A many-to-many link is its own type, so the navigation leads nowhere. */
  function TargetsOf(relations: seq<Relation>): (targets: seq<nat>)
    ensures forall r :: r in relations && !r.kind.ManyToMany? ==> r.target in targets
    ensures forall b :: b in targets ==> exists r :: r in relations && !r.kind.ManyToMany? && r.target == b
  {
    if relations == [] then [] else
      (if relations[0].kind.ManyToMany? then [] else [relations[0].target]) + TargetsOf(relations[1..])
  }

  function Targets(m: Mappings): Graph {
    seq(|m|, t requires 0 <= t < |m| => TargetsOf(m[t]))
  }

  /**
   The relation makes a row of type a hold a key of type b: it is a's own many-to-one, or b's navigation to many
   or to one.
   */
  ghost predicate Refers(t: nat, r: Relation, a: nat, b: nat) {
    (r.kind.ManyToOne? && t == a && r.target == b) ||
    ((r.kind.OneToMany? || r.kind.OneToOne?) && t == b && r.target == a)
  }

  ghost predicate References(m: Mappings, nodes: set<nat>, a: nat, b: nat) {
    exists t, r :: t in nodes && t < |m| && r in m[t] && Refers(t, r, a, b)
  }

  /** What discovery owes: the types reached from the seeds, and the references among them. */
  ghost predicate Discovers(m: Mappings, seeds: set<nat>, nodes: set<nat>, g: Graph) {
    && |g| == |m| && WellFormed(g)
    && (forall x: nat :: x in nodes <==> Sought(m, seeds, x))
    && (forall a, b :: Edge(g, a, b) <==> References(m, nodes, a, b))
  }

  ghost predicate Sought(m: Mappings, seeds: set<nat>, x: nat) {
    exists s :: s in seeds && Reach(Targets(m), s, x)
  }

  class Discoverer {
    const m: Mappings
    var seen: set<nat>
    var discovered: seq<nat>
    var dependsOn: Graph

    constructor (m: Mappings)
      requires TargetsMapped(m)
      ensures this.m == m && Valid() && seen == {}
    {
      this.m := m;
      seen, discovered, dependsOn := {}, [], seq(|m|, _ => []);
    }

    ghost predicate Valid()
      reads this
    {
      && TargetsMapped(m) && |dependsOn| == |m| && WellFormed(dependsOn)
      && (forall t :: t in seen ==> t < |m|)
      && (forall t :: t in discovered <==> t in seen)
      && (forall i, j :: 0 <= i < j < |discovered| ==> discovered[i] != discovered[j])
      && (forall a, b :: Edge(dependsOn, a, b) ==> References(m, seen, a, b))
    }

    /** The relation's reference is noted and its target seen. */
    ghost predicate Noted(t: nat, r: Relation)
      reads this
    {
      !r.kind.ManyToMany? ==> r.target in seen && forall a, b :: Refers(t, r, a, b) ==> Edge(dependsOn, a, b)
    }

    ghost predicate Finished(t: nat)
      reads this
    {
      t < |m| && forall k :: 0 <= k < |m[t]| ==> Noted(t, m[t][k])
    }

    /** Nothing seen or noted was lost since. */
    ghost predicate Since(was: set<nat>, g: Graph)
      reads this
    {
      was <= seen && forall a, b :: Edge(g, a, b) ==> Edge(dependsOn, a, b)
    }

    /** What was seen since is finished, and the type reaches it. */
    ghost predicate Reached(t: nat, was: set<nat>, gray: set<nat>)
      reads this
    {
      forall x :: x in seen && x !in was ==> Reach(Targets(m), t, x) && (x in gray || Finished(x))
    }

    lemma StaysFinished(x: nat, was: set<nat>, g: Graph)
      requires Since(was, g)
      ensures Was(x, was, g) ==> Finished(x)
    {
    }

    ghost predicate Was(x: nat, was: set<nat>, g: Graph) {
      x < |m| && forall k :: 0 <= k < |m[x]| && !m[x][k].kind.ManyToMany? ==>
        m[x][k].target in was && forall a, b :: Refers(x, m[x][k], a, b) ==> Edge(g, a, b)
    }

    method Note(t: nat, r: Relation)
      requires Valid() && t in seen && r in m[t] && !r.kind.ManyToMany?
      modifies `dependsOn
      ensures Valid() && Since(old(seen), old(dependsOn))
      ensures forall a, b :: Refers(t, r, a, b) ==> Edge(dependsOn, a, b)
    {
      var holder, held := if r.kind.ManyToOne? then t else r.target, if r.kind.ManyToOne? then r.target else t;
      dependsOn := dependsOn[holder := dependsOn[holder] + [held]];
    }

    /** The first relationships of the type are dealt with. */
    ghost predicate Midway(t: nat, k: nat, was: set<nat>, g: Graph)
      reads this
    {
      && t < |m| && k <= |m[t]| && t in seen && Since(was, g) && Reached(t, was, {t})
      && (forall n :: 0 <= n < k ==> Noted(t, m[t][n]))
    }

    method Follow(t: nat, k: nat, ghost was: set<nat>, ghost g: Graph)
      requires Valid() && Midway(t, k, was, g) && k < |m[t]| && t !in was
      modifies `seen, `discovered, `dependsOn
      ensures Valid() && Midway(t, k + 1, was, g) && old(seen) <= seen
      decreases Unvisited(seen, |m|), 1
    {
      var r := m[t][k];
      if !r.kind.ManyToMany? {
        ghost var mid, h := seen, dependsOn;
        Note(t, r);
        ghost var noted := dependsOn;
        assert r in m[t] && r.target in TargetsOf(m[t]);
        assert Edge(Targets(m), t, r.target);
        Discover(r.target);
        StillReached(t, r.target, was, mid, noted);
      }
    }

    /** Notes a type and everything its relationships lead to. */
    method Discover(t: nat)
      requires Valid() && t < |m|
      modifies `seen, `discovered, `dependsOn
      ensures Valid() && Since(old(seen), old(dependsOn)) && t in seen
      ensures Reached(t, old(seen), {})
      decreases Unvisited(seen, |m|), 0
    {
      if t in seen {
        return;
      }
      ghost var was, g := seen, dependsOn;
      ReachSelf(Targets(m), t);
      seen := seen + {t};
      discovered := discovered + [t];
      UnvisitedFalls(was, seen, |m|);
      ghost var entered := seen;
      for k := 0 to |m[t]|
        invariant Valid() && Midway(t, k, was, g) && entered <= seen
      {
        UnvisitedFalls(entered, seen, |m|);
        Follow(t, k, was, g);
      }
    }

    /** After a target is discovered, what was reached before still is, and what is new is reached through it. */
    lemma StillReached(t: nat, target: nat, was: set<nat>, mid: set<nat>, h: Graph)
      requires Since(mid, h) && Reached(target, mid, {}) && Edge(Targets(m), t, target)
      requires forall x :: x in mid && x !in was ==> Reach(Targets(m), t, x) && (x == t || Was(x, mid, h))
      ensures Reached(t, was, {t})
    {
      forall x | x in seen && x !in was
        ensures Reach(Targets(m), t, x) && (x == t || Finished(x))
      {
        if x in mid {
          StaysFinished(x, mid, h);
        } else {
          ReachEdge(Targets(m), t, target);
          ReachTrans(Targets(m), t, target, x);
        }
      }
    }

    /** Discovers from every seed. */
    method DiscoverAll(seeds: seq<nat>)
      requires Valid() && seen == {} && forall s :: s in seeds ==> s < |m|
      modifies this
      ensures Valid() && Discovers(m, Components.Members(seeds), seen, dependsOn)
    {
      for i := 0 to |seeds|
        invariant Valid()
        invariant forall n :: 0 <= n < i ==> seeds[n] in seen
        invariant forall x :: x in seen ==> Finished(x) && Sought(m, Components.Members(seeds), x)
      {
        assert seeds[i] in seeds;
        ghost var was, g := seen, dependsOn;
        Discover(seeds[i]);
        forall x | x in seen
          ensures Finished(x) && Sought(m, Components.Members(seeds), x)
        {
          if x in was {
            StaysFinished(x, was, g);
          }
        }
      }
      AllDiscovered(seeds);
    }

    lemma FinishedIsClosed()
      requires forall x :: x in seen ==> Finished(x)
      ensures Closed(Targets(m), seen)
    {
      forall a, b | a in seen && Edge(Targets(m), a, b)
        ensures b in seen
      {
        var r :| r in m[a] && !r.kind.ManyToMany? && r.target == b;
        var k :| 0 <= k < |m[a]| && m[a][k] == r;
        assert Noted(a, m[a][k]);
      }
    }

    lemma FinishedIsNoted(a: nat, b: nat)
      requires (forall x :: x in seen ==> Finished(x)) && References(m, seen, a, b)
      ensures Edge(dependsOn, a, b)
    {
      var t, r :| t in seen && t < |m| && r in m[t] && Refers(t, r, a, b);
      var k :| 0 <= k < |m[t]| && m[t][k] == r;
      assert Finished(t) && Noted(t, m[t][k]);
    }

    lemma AllDiscovered(seeds: seq<nat>)
      requires Valid() && (forall s :: s in seeds ==> s in seen)
      requires forall x :: x in seen ==> Finished(x) && Sought(m, Components.Members(seeds), x)
      ensures Discovers(m, Components.Members(seeds), seen, dependsOn)
    {
      FinishedIsClosed();
      forall x: nat | Sought(m, Components.Members(seeds), x)
        ensures x in seen
      {
        var s :| s in seeds && Reach(Targets(m), s, x);
        ReachStays(Targets(m), seen, s, x);
      }
      forall a, b | References(m, seen, a, b)
        ensures Edge(dependsOn, a, b)
      {
        FinishedIsNoted(a, b);
      }
    }
  }

  // --- the ranks of the seeds ---------------------------------------------------------------------------

  /** A ranking of the seeds: that of the types discovered from them, by the references among these. */
  ghost predicate RankingOf(m: Mappings, seeds: set<nat>, ranks: map<nat, nat>) {
    exists nodes, g :: Discovers(m, seeds, nodes, g) && Ranks(g, nodes, ranks)
  }

  lemma DiscoveredIsClosed(m: Mappings, seeds: set<nat>, nodes: set<nat>, g: Graph)
    requires Discovers(m, seeds, nodes, g)
    ensures Closed(g, nodes)
  {
    forall a, b | a in nodes && Edge(g, a, b)
      ensures b in nodes
    {
      var t, r :| t in nodes && t < |m| && r in m[t] && Refers(t, r, a, b);
      if t == a && r.kind.ManyToOne? {
        TargetIsSought(m, seeds, nodes, g, t, r);
      }
    }
  }

  /** The targets of a ranked type are ranked, and a reference never leads to a higher rank. */
  lemma RanksFollow(m: Mappings, seeds: set<nat>, ranks: map<nat, nat>, t: nat, k: nat)
    requires RankingOf(m, seeds, ranks) && t in ranks && t < |m| && k < |m[t]| && !m[t][k].kind.ManyToMany?
    ensures var r := m[t][k];
            && r.target in ranks
            && (r.kind.ManyToOne? ==> ranks[r.target] <= ranks[t])
            && (r.kind.OneToMany? || r.kind.OneToOne? ==> ranks[t] <= ranks[r.target])
  {
    var r := m[t][k];
    var nodes, g :| Discovers(m, seeds, nodes, g) && Ranks(g, nodes, ranks);
    TargetIsSought(m, seeds, nodes, g, t, r);
    var a, b := if r.kind.ManyToOne? then t else r.target, if r.kind.ManyToOne? then r.target else t;
    assert r in m[t] && Refers(t, r, a, b);
    assert Mutual(g, a, b) || Crosses(g, a, b);
  }

  lemma TargetIsSought(m: Mappings, seeds: set<nat>, nodes: set<nat>, g: Graph, t: nat, r: Relation)
    requires Discovers(m, seeds, nodes, g) && t in nodes && t < |m| && r in m[t] && !r.kind.ManyToMany?
    ensures r.target in nodes
  {
    assert r.target in TargetsOf(m[t]) && Edge(Targets(m), t, r.target);
    ReachEdge(Targets(m), t, r.target);
    assert Sought(m, seeds, t);
    var s :| s in seeds && Reach(Targets(m), s, t);
    ReachTrans(Targets(m), s, t, r.target);
    assert Sought(m, seeds, r.target);
  }

  lemma SameRanks(g: Graph, h: Graph, nodes: set<nat>, ranks: map<nat, nat>)
    requires SameEdges(g, h) && Ranks(g, nodes, ranks)
    ensures Ranks(h, nodes, ranks)
  {
    forall a, b
      ensures Mutual(g, a, b) <==> Mutual(h, a, b)
      ensures Crosses(g, a, b) <==> Crosses(h, a, b)
    {
      SameReach(g, h, a, b);
      SameReach(g, h, b, a);
    }
    forall a: nat | a in nodes && ranks[a] != 0
      ensures CalledFor(h, ranks, a)
    {
      assert CalledFor(g, ranks, a);
      var n, d :| Mutual(g, a, n) && Crosses(g, n, d) && d in ranks && ranks[a] == ranks[d] + 1;
      assert Mutual(h, a, n) && Crosses(h, n, d);
    }
  }

  /**
   The ranks depend on which types are seeds, and on nothing else: not on the order the seeds or the
   relationships are met in.
   */
  lemma SeedsDecide(m: Mappings, seeds: set<nat>, ranks: map<nat, nat>, other: map<nat, nat>)
    requires RankingOf(m, seeds, ranks) && RankingOf(m, seeds, other)
    ensures ranks == other
  {
    var nodes, g :| Discovers(m, seeds, nodes, g) && Ranks(g, nodes, ranks);
    var others, h :| Discovers(m, seeds, others, h) && Ranks(h, others, other);
    forall x: nat
      ensures x in nodes <==> x in others
    {
      assert x in nodes <==> Sought(m, seeds, x);
    }
    assert nodes == others;
    SameRanks(h, g, nodes, other);
    DiscoveredIsClosed(m, seeds, nodes, g);
    RankIsUnique(g, nodes, ranks, other);
  }

  /** The ranks of the seed types and of everything their relationships lead to. */
  method RankSeeds(m: Mappings, seeds: seq<nat>) returns (ranks: map<nat, nat>)
    requires TargetsMapped(m) && forall s :: s in seeds ==> s < |m|
    ensures RankingOf(m, Components.Members(seeds), ranks)
  {
    var discoverer := new Discoverer(m);
    discoverer.DiscoverAll(seeds);
    DiscoveredIsClosed(m, Components.Members(seeds), discoverer.seen, discoverer.dependsOn);
    ranks := RankTypes(discoverer.dependsOn, discoverer.discovered, discoverer.seen);
  }
}
