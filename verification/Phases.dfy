/** The order of one phase of a flush: scheduled instances, each after those it waits for. */
module Phases {
  import opened Values
  import opened Entities
  import opened Writes
  import Ordering

  /** Whether the first instance has to come after the second. */
  type Waits = (Ptr, Ptr) -> bool

  /** InOrder is the order; Cyclic is UOW-004, with the types of the instances a cycle left out. */
  datatype Outcome = InOrder(list: seq<Ptr>) | Cyclic(types: set<TypeId>)

  ghost predicate EachOnce(list: seq<Ptr>) {
    forall i, j :: 0 <= i < j < |list| ==> list[i] != list[j]
  }

  /** Each listed instance with the positions of those it waits for, in any order and any number of times. */
  ghost predicate Lists(dependencies: seq<seq<nat>>, list: seq<Ptr>, waits: Waits) {
    |dependencies| == |list| && forall i :: 0 <= i < |list| ==> Row(dependencies[i], list, waits, list[i])
  }

  ghost predicate Row(row: seq<nat>, list: seq<Ptr>, waits: Waits, p: Ptr) {
    forall d: nat :: d in row <==> d < |list| && waits(p, list[d])
  }

  function Picked(list: seq<Ptr>, order: seq<nat>): seq<Ptr>
    requires forall k :: 0 <= k < |order| ==> order[k] < |list|
  {
    seq(|order|, k requires 0 <= k < |order| => list[order[k]])
  }

  ghost predicate OrderFrom(
    dependencies: seq<seq<nat>>, order: seq<nat>, list: seq<Ptr>, waits: Waits, less: (nat, nat) -> bool,
    ordered: seq<Ptr>) {
    && Lists(dependencies, list, waits)
    && Ordering.Greedy(dependencies, less, order) && Ordering.Stuck(dependencies, order)
    && |order| == |list| && (forall k :: 0 <= k < |order| ==> order[k] < |list|)
    && ordered == Picked(list, order)
  }

  /** All of the list, at each step the least of those that wait for none of the rest. */
  ghost predicate PhaseOrder(list: seq<Ptr>, waits: Waits, less: (nat, nat) -> bool, ordered: seq<Ptr>) {
    exists dependencies, order :: OrderFrom(dependencies, order, list, waits, less, ordered)
  }

  /** Instances of the list that wait for one another all the way round. */
  ghost predicate WaitCycle(list: seq<Ptr>, waits: Waits, c: seq<Ptr>) {
    && c != [] && (forall i :: 0 <= i < |c| ==> c[i] in list)
    && (forall i, j :: 0 <= i && j == i + 1 && j < |c| ==> c[i] != c[j] && waits(c[i], c[j]))
    && c[|c| - 1] != c[0] && waits(c[|c| - 1], c[0])
  }

  ghost predicate HasCycle(list: seq<Ptr>, waits: Waits) {
    exists c :: WaitCycle(list, waits, c)
  }

  /** A cycle whose instances are all of the types. */
  ghost predicate HasCycleOf(e: Env, list: seq<Ptr>, waits: Waits, types: set<TypeId>) {
    exists c :: WaitCycle(list, waits, c) && forall p :: p in c ==> TypeOf(e, p) in types
  }

  lemma ListedAreInRange(dependencies: seq<seq<nat>>, list: seq<Ptr>, waits: Waits)
    requires Lists(dependencies, list, waits)
    ensures Ordering.InRange(dependencies)
  {
    forall i, d | 0 <= i < |dependencies| && d in dependencies[i]
      ensures d < |dependencies|
    {
      assert Row(dependencies[i], list, waits, list[i]);
    }
  }

  lemma SameBefore(a: seq<seq<nat>>, b: seq<seq<nat>>, list: seq<Ptr>, waits: Waits, i: nat)
    requires Lists(a, list, waits) && Lists(b, list, waits)
    ensures Ordering.Before(a, i) == Ordering.Before(b, i)
  {
    if i < |list| {
      assert Row(a[i], list, waits, list[i]) && Row(b[i], list, waits, list[i]);
      assert forall d: nat :: d in a[i] <==> d in b[i];
    }
  }

  lemma SameGreedy(a: seq<seq<nat>>, b: seq<seq<nat>>, list: seq<Ptr>, waits: Waits, less: (nat, nat) -> bool,
      order: seq<nat>)
    requires Lists(a, list, waits) && Lists(b, list, waits)
    requires Ordering.Greedy(a, less, order) && Ordering.Stuck(a, order)
    ensures Ordering.Greedy(b, less, order) && Ordering.Stuck(b, order)
  {
    forall i: nat, done
      ensures Ordering.Ready(a, done, i) == Ordering.Ready(b, done, i)
    {
      SameBefore(a, b, list, waits, i);
    }
    forall k | 0 <= k < |order|
      ensures Ordering.LeastReady(b, less, Ordering.Set(order[..k]), order[k])
    {
      assert Ordering.LeastReady(a, less, Ordering.Set(order[..k]), order[k]);
    }
  }

  /** The phase's order is decided by the list, the waits and the tie-break. */
  lemma PhaseOrderIsUnique(list: seq<Ptr>, waits: Waits, less: (nat, nat) -> bool, a: seq<Ptr>, b: seq<Ptr>)
    requires Ordering.StrictTotal(less, |list|)
    requires PhaseOrder(list, waits, less, a) && PhaseOrder(list, waits, less, b)
    ensures a == b
  {
    var da, oa :| OrderFrom(da, oa, list, waits, less, a);
    var db, ob :| OrderFrom(db, ob, list, waits, less, b);
    SameGreedy(db, da, list, waits, less, ob);
    Ordering.OrderIsUnique(da, less, oa, ob);
  }

  lemma PickedHas(list: seq<Ptr>, order: seq<nat>, p: Ptr)
    requires (forall k :: 0 <= k < |order| ==> order[k] < |list|) && (forall i :: 0 <= i < |list| ==> i in order)
    ensures p in Picked(list, order) <==> p in list
  {
    if p in list {
      var i :| 0 <= i < |list| && list[i] == p;
      assert i in order;
      var k :| 0 <= k < |order| && order[k] == i;
      assert Picked(list, order)[k] == p;
    }
  }

  lemma PickedAfter(dependencies: seq<seq<nat>>, order: seq<nat>, list: seq<Ptr>, waits: Waits, k: nat, q: Ptr)
    requires Lists(dependencies, list, waits) && Ordering.Topological(dependencies, order)
    requires k < |order| && q in list && q != list[order[k]] && waits(list[order[k]], q)
    ensures q in Picked(list, order)[..k]
  {
    var d: nat :| d < |list| && list[d] == q;
    assert d in dependencies[order[k]] && d in Ordering.Before(dependencies, order[k]);
    var j :| 0 <= j < k && order[..k][j] == d;
    assert Picked(list, order)[..k][j] == q;
  }

  /** The order holds the list's instances, each once, and each after those it waits for. */
  lemma PhaseOrderKeeps(list: seq<Ptr>, waits: Waits, less: (nat, nat) -> bool, ordered: seq<Ptr>)
    requires EachOnce(list) && PhaseOrder(list, waits, less, ordered)
    ensures EachOnce(ordered) && |ordered| == |list| && forall p :: p in ordered <==> p in list
    ensures forall k, q :: 0 <= k < |ordered| && q in list && q != ordered[k] && waits(ordered[k], q) ==>
              q in ordered[..k]
  {
    var dependencies, order :| OrderFrom(dependencies, order, list, waits, less, ordered);
    ListedAreInRange(dependencies, list, waits);
    Ordering.CompleteIffAcyclic(dependencies, less, order);
    forall p
      ensures p in ordered <==> p in list
    {
      PickedHas(list, order, p);
    }
    forall k, q | 0 <= k < |ordered| && q in list && q != ordered[k] && waits(ordered[k], q)
      ensures q in ordered[..k]
    {
      PickedAfter(dependencies, order, list, waits, k, q);
    }
  }

  /** All the listed instances that one waits for are among the first i of the order. */
  ghost predicate WaitsNoMore(list: seq<Ptr>, waits: Waits, ordered: seq<Ptr>, i: nat, p: Ptr)
    requires i <= |ordered|
  {
    forall q :: q in list && q != p && waits(p, q) ==> q in ordered[..i]
  }

  lemma PositionIsPlaced(list: seq<Ptr>, order: seq<nat>, ordered: seq<Ptr>, i: nat, d: nat)
    requires EachOnce(list) && |ordered| == |order| && i <= |order| && d < |list| && list[d] in ordered[..i]
    requires forall k :: 0 <= k < |order| ==> order[k] < |list| && ordered[k] == list[order[k]]
    ensures d in Ordering.Set(order[..i])
  {
    var k :| 0 <= k < i && ordered[..i][k] == list[d];
    assert order[..i][k] == d;
  }

  /** Of two instances that wait for none of the rest the lesser goes first. */
  lemma PhaseOrderPrefers(list: seq<Ptr>, waits: Waits, less: (nat, nat) -> bool, ordered: seq<Ptr>, i: nat, j: nat)
    returns (a: nat, b: nat)
    requires EachOnce(list) && PhaseOrder(list, waits, less, ordered)
    requires i < j < |ordered| && WaitsNoMore(list, waits, ordered, i, ordered[j])
    ensures a < |list| && b < |list| && list[a] == ordered[i] && list[b] == ordered[j] && less(a, b)
  {
    PhaseOrderKeeps(list, waits, less, ordered);
    var dependencies, order :| OrderFrom(dependencies, order, list, waits, less, ordered);
    a, b := order[i], order[j];
    assert list[a] == ordered[i] && list[b] == ordered[j];
    forall d | d in Ordering.Before(dependencies, b)
      ensures d in Ordering.Set(order[..i])
    {
      assert Row(dependencies[b], list, waits, list[b]);
      assert list[d] != list[b] && waits(list[b], list[d]);
      PositionIsPlaced(list, order, ordered, i, d);
    }
    forall k | 0 <= k < i
      ensures order[..i][k] != b
    {
      assert ordered[k] != ordered[j];
    }
    assert Ordering.LeastReady(dependencies, less, Ordering.Set(order[..i]), a);
    assert Ordering.Ready(dependencies, Ordering.Set(order[..i]), b);
    assert a != b;
  }

  lemma CycleOfIndices(dependencies: seq<seq<nat>>, list: seq<Ptr>, waits: Waits, c: seq<nat>)
    requires EachOnce(list) && Lists(dependencies, list, waits) && Ordering.Cycle(dependencies, c)
    ensures WaitCycle(list, waits, Picked(list, c))
  {
    var p := Picked(list, c);
    forall i, j | 0 <= i && j == i + 1 && j < |p|
      ensures p[i] != p[j] && waits(p[i], p[j])
    {
      assert c[i + 1] in Ordering.Before(dependencies, c[i]);
    }
  }

  lemma IndicesOfCycle(dependencies: seq<seq<nat>>, list: seq<Ptr>, waits: Waits, c: seq<Ptr>)
    returns (indices: seq<nat>)
    requires Lists(dependencies, list, waits) && WaitCycle(list, waits, c)
    ensures Ordering.Cycle(dependencies, indices)
  {
    indices := Positions(list, c);
    forall i | 0 <= i < |c| - 1
      ensures indices[i + 1] in Ordering.Before(dependencies, indices[i])
    {
      var j := i + 1;
      assert waits(c[i], c[j]) && list[indices[i]] == c[i] && list[indices[j]] == c[j];
    }
    assert list[indices[|c| - 1]] == c[|c| - 1] && list[indices[0]] == c[0];
  }

  lemma {:induction false} Positions(list: seq<Ptr>, c: seq<Ptr>) returns (indices: seq<nat>)
    requires forall i :: 0 <= i < |c| ==> c[i] in list
    ensures |indices| == |c| && forall i :: 0 <= i < |c| ==> indices[i] < |list| && list[indices[i]] == c[i]
  {
    if c == [] {
      indices := [];
    } else {
      indices := Positions(list, c[..|c| - 1]);
      assert c[|c| - 1] in list;
      var last :| 0 <= last < |list| && list[last] == c[|c| - 1];
      indices := indices + [last];
    }
  }

  /** Orders one phase, or names the types of what a cycle leaves unordered. */
  method OrderPhase(e: Env, list: seq<Ptr>, dependencies: seq<seq<nat>>, less: (nat, nat) -> bool,
      ghost waits: Waits) returns (r: Outcome)
    requires EachOnce(list) && Lists(dependencies, list, waits) && Ordering.StrictTotal(less, |list|)
    ensures r.InOrder? <==> !HasCycle(list, waits)
    ensures r.InOrder? ==> PhaseOrder(list, waits, less, r.list)
    ensures r.Cyclic? ==> HasCycleOf(e, list, waits, r.types)
  {
    ListedAreInRange(dependencies, list, waits);
    var order, ok := Ordering.DependencyOrder(dependencies, less);
    if ok {
      forall c
        ensures !WaitCycle(list, waits, c)
      {
        if WaitCycle(list, waits, c) {
          var indices := IndicesOfCycle(dependencies, list, waits, c);
        }
      }
      Ordering.CompleteIffAcyclic(dependencies, less, order);
      r := InOrder(Picked(list, order));
      assert OrderFrom(dependencies, order, list, waits, less, r.list);
    } else {
      Ordering.CompleteIffAcyclic(dependencies, less, order);
      ghost var c := Ordering.LeftOverHasCycle(dependencies, less, order);
      CycleOfIndices(dependencies, list, waits, c);
      var types := LeftOutTypes(e, list, order);
      r := Cyclic(types);
      assert forall p :: p in Picked(list, c) ==> TypeOf(e, p) in types;
    }
  }

  /** The types of the instances the order leaves out. */
  method LeftOutTypes(e: Env, list: seq<Ptr>, order: seq<nat>) returns (types: set<TypeId>)
    ensures forall t :: t in types <==> exists i :: 0 <= i < |list| && i !in order && TypeOf(e, list[i]) == t
  {
    types := {};
    for i := 0 to |list|
      invariant forall t :: t in types <==> exists k :: 0 <= k < i && k !in order && TypeOf(e, list[k]) == t
    {
      if i !in order {
        types := types + {TypeOf(e, list[i])};
      }
    }
  }

  // --- what the phases wait for --------------------------------------------------------------------

  /** Positions by instance. */
  ghost predicate IsPosition(position: map<Ptr, nat>, list: seq<Ptr>) {
    && (forall p :: p in position <==> p in list)
    && (forall p :: p in position ==> position[p] < |list| && list[position[p]] == p)
  }

  method PositionsOf(list: seq<Ptr>) returns (position: map<Ptr, nat>)
    ensures IsPosition(position, list)
  {
    position := map[];
    for i := 0 to |list|
      invariant forall p :: p in position <==> p in list[..i]
      invariant forall p :: p in position ==> position[p] < |list| && list[position[p]] == p
    {
      position := position[list[i] := i];
      assert list[..i + 1] == list[..i] + [list[i]];
    }
    assert list[..|list|] == list;
  }

  /** The positions of those of the instances that are listed. */
  method Among(position: map<Ptr, nat>, ghost list: seq<Ptr>, targets: seq<Ptr>) returns (found: seq<nat>)
    requires EachOnce(list) && IsPosition(position, list)
    ensures forall d: nat :: d in found <==> d < |list| && list[d] in targets
  {
    found := [];
    for k := 0 to |targets|
      invariant forall d: nat :: d in found <==> d < |list| && list[d] in targets[..k]
    {
      assert targets[..k + 1] == targets[..k] + [targets[k]];
      if targets[k] in position {
        found := found + [position[targets[k]]];
      }
    }
    assert targets[..|targets|] == targets;
  }
}
