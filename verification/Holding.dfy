/** When nothing that cancelling leaves is without a holder outside itself. */
module Holding {
  import opened Entities
  import opened Schedule
  import Ordering

  /** Scheduled for a reason of its own: by the caller, by no cascade at all, or by an owner not scheduled here. */
  ghost predicate Grounded(s: Inserts, p: Ptr) {
    p in s && (s[p].direct || s[p].links == [] || exists l :: l in s[p].links && l.owner !in s)
  }

  ghost predicate Holds(s: Inserts, owner: Ptr, p: Ptr) {
    p in s && exists l :: l in s[p].links && l.owner == owner
  }

  /** Each insert of the chain holds the next. */
  ghost predicate Chain(s: Inserts, chain: seq<Ptr>) {
    chain != [] && chain[0] in s && forall i :: 0 < i < |chain| ==> Holds(s, chain[i - 1], chain[i])
  }

  /** A chain of links from a grounded insert ends here. */
  ghost predicate Held(s: Inserts, p: Ptr) {
    exists chain :: Chain(s, chain) && Grounded(s, chain[0]) && chain[|chain| - 1] == p
  }

  /** Inserts that only one another hold. */
  ghost predicate Island(s: Inserts, island: set<Ptr>) {
    island != {} && forall p :: p in island ==>
      p in s && !s[p].direct && s[p].links != [] && forall l :: l in s[p].links ==> l.owner in island
  }

  lemma {:induction false} ChainsStayOut(s: Inserts, island: set<Ptr>, chain: seq<Ptr>)
    requires Island(s, island) && Chain(s, chain) && Grounded(s, chain[0])
    ensures chain[|chain| - 1] !in island
    decreases |chain|
  {
    if |chain| > 1 {
      var front := chain[..|chain| - 1];
      ChainsStayOut(s, island, front);
      assert Holds(s, front[|front| - 1], chain[|chain| - 1]);
    }
  }

  lemma GroundedIsHeld(s: Inserts, p: Ptr)
    ensures Grounded(s, p) ==> Held(s, p)
  {
    assert p in s ==> Chain(s, [p]) && [p][0] == p;
  }

  lemma HeldOfOwner(s: Inserts, owner: Ptr, p: Ptr)
    requires Held(s, owner) && Holds(s, owner, p)
    ensures Held(s, p)
  {
    var chain :| Chain(s, chain) && Grounded(s, chain[0]) && chain[|chain| - 1] == owner;
    var longer := chain + [p];
    assert Chain(s, longer) && Grounded(s, longer[0]) && longer[|longer| - 1] == p;
  }

  lemma UnheldIsIsland(s: Inserts, p: Ptr)
    requires p in s && !Held(s, p)
    ensures Island(s, set q | q in s && !Held(s, q))
  {
    var unheld := set q | q in s && !Held(s, q);
    assert p in unheld;
    forall q | q in unheld
      ensures !s[q].direct && s[q].links != [] && forall l :: l in s[q].links ==> l.owner in s && !Held(s, l.owner)
    {
      GroundedIsHeld(s, q);
      forall l | l in s[q].links
        ensures l.owner in s && !Held(s, l.owner)
      {
        if Held(s, l.owner) {
          HeldOfOwner(s, l.owner, q);
        }
      }
    }
  }

  ghost predicate AllHeld(s: Inserts) {
    forall p :: p in s ==> Held(s, p)
  }

  ghost predicate NoIsland(s: Inserts) {
    forall island :: !Island(s, island)
  }

  /** Everything scheduled is held from outside itself exactly when no inserts hold only one another. */
  lemma AllHeldIff(s: Inserts)
    ensures AllHeld(s) <==> NoIsland(s)
  {
    if island :| Island(s, island) {
      var p :| p in island;
      forall chain | Chain(s, chain) && Grounded(s, chain[0])
        ensures chain[|chain| - 1] != p
      {
        ChainsStayOut(s, island, chain);
      }
      assert p in s && !Held(s, p);
    }
    if p :| p in s && !Held(s, p) {
      UnheldIsIsland(s, p);
    }
  }

  // --- what cancelling leaves --------------------------------------------------------------------------------

  /** The set goes of itself: each insert in it is one of the initial ones or held by nothing outside it. */
  ghost predicate Loose(inserts: Inserts, initial: set<Ptr>, loose: set<Ptr>) {
    loose <= inserts.Keys && forall p :: p in loose ==> p in initial || Orphaned(inserts, p, loose)
  }

  lemma CancelledIsLoose(inserts: Inserts, initial: set<Ptr>, gone: set<Ptr>)
    requires Cancelled(inserts, initial, gone)
    ensures Loose(inserts, initial, gone)
  {
    var needed := set p | p in gone && (p in initial || Orphaned(inserts, p, gone));
    assert ClosedUnder(inserts, needed);
    assert gone <= needed;
  }

  lemma IslandIsLoose(inserts: Inserts, initial: set<Ptr>, gone: set<Ptr>, island: set<Ptr>)
    requires Cancelled(inserts, initial, gone) && Island(Survivors(inserts, gone), island)
    ensures Loose(inserts, initial, gone + island) && !(gone + island <= gone)
  {
    CancelledIsLoose(inserts, initial, gone);
    var s := Survivors(inserts, gone);
    forall p | p in island
      ensures p in inserts && p !in gone && Orphaned(inserts, p, gone + island)
    {
      assert s[p].links == Without(inserts[p].links, gone);
      assert s[p].links[0] in inserts[p].links;
      forall l | l in inserts[p].links
        ensures l.owner in gone + island
      {
        assert l.owner !in gone ==> l in s[p].links;
      }
    }
    var p :| p in island;
    assert p in gone + island && p !in gone;
  }

  lemma LooseIsIsland(inserts: Inserts, initial: set<Ptr>, gone: set<Ptr>, loose: set<Ptr>)
    requires Cancelled(inserts, initial, gone) && Loose(inserts, initial, loose) && !(loose <= gone)
    ensures Island(Survivors(inserts, gone), loose - gone)
  {
    var s := Survivors(inserts, gone);
    forall p | p in loose - gone
      ensures p in s && !s[p].direct && s[p].links != [] && forall l :: l in s[p].links ==> l.owner in loose - gone
    {
      assert Orphaned(inserts, p, loose);
      SurvivorsAreHeld(inserts, initial, gone, p);
    }
    var p :| p in loose && p !in gone;
    assert p in loose - gone;
  }

  /**
   What cancelling leaves is held from outside itself exactly when the cancelled set, the least that has to
   go, is also the greatest that could: a cycle of cascades is what lies between the two.
   */
  lemma SurvivorsHeldIff(inserts: Inserts, initial: set<Ptr>, gone: set<Ptr>)
    requires Cancelled(inserts, initial, gone)
    ensures var s := Survivors(inserts, gone);
            && (AllHeld(s) <==> NoIsland(s))
            && (AllHeld(s) <==> forall loose :: Loose(inserts, initial, loose) ==> loose <= gone)
  {
    var s := Survivors(inserts, gone);
    AllHeldIff(s);
    if NoIsland(s) {
      forall loose | Loose(inserts, initial, loose)
        ensures loose <= gone
      {
        if !(loose <= gone) {
          LooseIsIsland(inserts, initial, gone, loose);
        }
      }
    } else {
      var island :| Island(s, island);
      IslandIsLoose(inserts, initial, gone, island);
      assert !(gone + island <= gone);
    }
  }

  // --- links without a cycle ------------------------------------------------------------------------------------

  /** No insert holds itself, directly or not. */
  ghost predicate Acyclic(s: Inserts) {
    forall chain :: Chain(s, chain) && |chain| > 1 ==> chain[0] != chain[|chain| - 1]
  }

  /** An island has chains of any length. */
  lemma {:induction false} IslandHasChain(s: Inserts, island: set<Ptr>, p: Ptr, n: nat) returns (chain: seq<Ptr>)
    requires Island(s, island) && p in island
    ensures Chain(s, chain) && |chain| == n + 1 && chain[n] == p && forall q :: q in chain ==> q in island
    decreases n
  {
    if n == 0 {
      chain := [p];
    } else {
      var l := s[p].links[0];
      var front := IslandHasChain(s, island, l.owner, n - 1);
      chain := front + [p];
      assert Holds(s, l.owner, p);
    }
  }

  /** Longer than the island has inserts, a chain comes back to one. */
  lemma IslandHasLoop(s: Inserts, island: set<Ptr>) returns (loop: seq<Ptr>)
    requires Island(s, island)
    ensures Chain(s, loop) && |loop| > 1 && loop[0] == loop[|loop| - 1]
  {
    var p :| p in island;
    var chain := IslandHasChain(s, island, p, |island|);
    var a, b := Ordering.Repeats(chain, island);
    loop := chain[a..b + 1];
  }

  /** Where no insert holds itself through cascades, cancelling leaves nothing that is not held from outside. */
  lemma AcyclicSurvivorsAreHeld(inserts: Inserts, initial: set<Ptr>, gone: set<Ptr>, p: Ptr)
    requires Acyclic(inserts) && Cancelled(inserts, initial, gone) && p in Survivors(inserts, gone)
    ensures Held(Survivors(inserts, gone), p)
  {
    var s := Survivors(inserts, gone);
    AllHeldIff(s);
    if island :| Island(s, island) {
      var loop := IslandHasLoop(s, island);
      ChainWas(inserts, gone, loop);
    }
  }

  lemma ChainWas(inserts: Inserts, gone: set<Ptr>, chain: seq<Ptr>)
    requires Chain(Survivors(inserts, gone), chain)
    ensures Chain(inserts, chain)
  {
    var s := Survivors(inserts, gone);
    forall i | 0 < i < |chain|
      ensures Holds(inserts, chain[i - 1], chain[i])
    {
      assert Holds(s, chain[i - 1], chain[i]);
      var l :| l in s[chain[i]].links && l.owner == chain[i - 1];
      assert l in inserts[chain[i]].links;
    }
  }
}
