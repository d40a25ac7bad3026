/** The order new tables are created in: each after the new tables its foreign keys reference. */
module TableOrder {
  import opened Reachability

  /**
   A new table: its entity type, and the type each of its foreign-key properties references, where one is
   declared.
   */
  datatype Reference = Nothing | To(target: nat)

  datatype Table = Table(entity: nat, foreignKeys: seq<Reference>)

  /** The position of the first table of the type, or none. */
  function IndexOf(tables: seq<Table>, entity: nat): (r: int)
    ensures -1 <= r < |tables|
    ensures r >= 0 ==> tables[r].entity == entity
    ensures r < 0 ==> forall i :: 0 <= i < |tables| ==> tables[i].entity != entity
  {
    if tables == [] then -1
    else if tables[0].entity == entity then 0
    else
      var r := IndexOf(tables[1..], entity);
      assert r >= 0 ==> tables[1..][r] == tables[r + 1];
      assert r < 0 ==> forall i :: 0 < i < |tables| ==> tables[i] == tables[1..][i - 1];
      if r < 0 then -1 else r + 1
  }

  /** The positions of the new tables a table's foreign keys reference. */
  function ReferencedBy(tables: seq<Table>, newSet: set<nat>, foreignKeys: seq<Reference>): (r: seq<nat>)
    ensures forall j :: j in r ==> j < |tables|
  {
    if foreignKeys == [] then []
    else
      var last := foreignKeys[|foreignKeys| - 1];
      ReferencedBy(tables, newSet, foreignKeys[..|foreignKeys| - 1])
      + (if last.To? && last.target in newSet &&
         IndexOf(tables, last.target) >= 0 then [IndexOf(tables, last.target) as nat] else [])
  }

  function References(tables: seq<Table>, newSet: set<nat>): (g: Graph)
    ensures |g| == |tables|
  {
    seq(|tables|, i requires 0 <= i < |tables| => ReferencedBy(tables, newSet, tables[i].foreignKeys))
  }

  /** The first table of the type is at the position. */
  ghost predicate FirstAt(tables: seq<Table>, entity: nat, b: nat) {
    b < |tables| && tables[b].entity == entity && forall i :: 0 <= i < b ==> tables[i].entity != entity
  }

  /** A foreign key of the one table references the other: the first of its type, and a new one. */
  ghost predicate Refers(tables: seq<Table>, newSet: set<nat>, a: nat, b: nat) {
    && a < |tables| && b < |tables| && To(tables[b].entity) in tables[a].foreignKeys && tables[b].entity in newSet
    && FirstAt(tables, tables[b].entity, b)
  }

  lemma IndexIsFirst(tables: seq<Table>, entity: nat, b: nat)
    ensures IndexOf(tables, entity) == b <==> FirstAt(tables, entity, b)
  {
    IndexHasNoneBefore(tables, entity);
    var r := IndexOf(tables, entity);
    if FirstAt(tables, entity, b) && r >= 0 {
      assert !(r < b) && !(b < r);
    }
  }

  lemma {:induction false} IndexHasNoneBefore(tables: seq<Table>, entity: nat)
    ensures forall i :: 0 <= i < IndexOf(tables, entity) ==> tables[i].entity != entity
  {
    if tables != [] && tables[0].entity != entity {
      IndexHasNoneBefore(tables[1..], entity);
      assert forall i :: 0 < i < |tables| ==> tables[i] == tables[1..][i - 1];
    }
  }

  lemma {:induction false} ReferencedByAre(tables: seq<Table>, newSet: set<nat>, foreignKeys: seq<Reference>, b: nat)
    ensures b in ReferencedBy(tables, newSet, foreignKeys) <==>
            exists t :: To(t) in foreignKeys && t in newSet && IndexOf(tables, t) == b
  {
    if foreignKeys != [] {
      var front, last := foreignKeys[..|foreignKeys| - 1], foreignKeys[|foreignKeys| - 1];
      ReferencedByAre(tables, newSet, front, b);
      assert foreignKeys == front + [last];
    }
  }

  /** The order's graph is the tables' foreign keys. */
  lemma ReferencesAre(tables: seq<Table>, newSet: set<nat>, a: nat, b: nat)
    ensures Edge(References(tables, newSet), a, b) <==> Refers(tables, newSet, a, b)
  {
    if a < |tables| {
      ReferencedByAre(tables, newSet, tables[a].foreignKeys, b);
      if t :| To(t) in tables[a].foreignKeys && t in newSet && IndexOf(tables, t) == b {
        IndexIsFirst(tables, t, b);
      }
      if b < |tables| {
        IndexIsFirst(tables, tables[b].entity, b);
      }
    }
  }

  /** In the list, the one comes before the other. */
  ghost predicate Precedes(order: seq<nat>, b: nat, a: nat) {
    exists i, j :: 0 <= i < j < |order| && order[i] == b && order[j] == a
  }

  /** A reference that is not part of a cycle is to a table placed earlier. */
  ghost predicate Placed(g: Graph, order: seq<nat>) {
    forall a, b :: a in order && Edge(g, a, b) && !Reach(g, b, a) ==> Precedes(order, b, a)
  }

  ghost predicate Once(order: seq<nat>) {
    forall i, j :: 0 <= i < j < |order| ==> order[i] != order[j]
  }

  lemma PlacedGrows(g: Graph, order: seq<nat>, t: nat)
    requires Placed(g, order) && forall b :: Edge(g, t, b) && !Reach(g, b, t) ==> b in order
    ensures Placed(g, order + [t])
  {
    var longer := order + [t];
    forall a, b | a in longer && Edge(g, a, b) && !Reach(g, b, a)
      ensures Precedes(longer, b, a)
    {
      if a in order {
        assert Precedes(order, b, a);
        var i, j :| 0 <= i < j < |order| && order[i] == b && order[j] == a;
        assert longer[i] == b && longer[j] == a;
      } else {
        assert a == t && b in order;
        var i :| 0 <= i < |order| && order[i] == b;
        assert longer[i] == b && longer[|order|] == t;
      }
    }
  }

  class TableSorter {
    const tables: seq<Table>
    const newSet: set<nat>
    var ordered: seq<nat>
    var visited: set<nat>

    constructor (tables: seq<Table>, newSet: set<nat>)
      ensures this.tables == tables && this.newSet == newSet && ordered == [] && visited == {} && Valid({})
    {
      this.tables, this.newSet, ordered, visited := tables, newSet, [], {};
    }

    /** The reference graph of the tables. */
    ghost function G(): Graph {
      References(tables, newSet)
    }

    /** Visited and not placed: the walk is in the middle of these. */
    ghost predicate Valid(gray: set<nat>)
      reads this
    {
      && (forall t :: t in visited <==> t in ordered || t in gray)
      && (forall t :: t in gray ==> t !in ordered)
      && (forall t :: t in visited ==> t < |tables|)
      && Once(ordered) && Placed(G(), ordered)
    }

    method Visit(t: nat, ghost gray: set<nat>)
      requires Valid(gray) && t < |tables| && forall x :: x in gray ==> Reach(G(), x, t)
      modifies this
      ensures Valid(gray) && t in visited && old(ordered) <= ordered && old(visited) <= visited
      decreases Unvisited(visited, |tables|), 0
    {
      if t in visited {
        return;
      }
      UnvisitedFalls(visited, visited + {t}, |tables|);
      visited := visited + {t};
      ReachSelf(G(), t);
      VisitReferences(t, gray + {t});
      forall b | Edge(G(), t, b) && !Reach(G(), b, t)
        ensures b in ordered
      {
        assert b in visited;
      }
      PlacedGrows(G(), ordered, t);
      ordered := ordered + [t];
    }

    /** Visits the new tables a table references. */
    method VisitReferences(t: nat, ghost gray: set<nat>)
      requires Valid(gray) && t < |tables| && forall x :: x in gray ==> Reach(G(), x, t)
      modifies this
      ensures Valid(gray) && old(ordered) <= ordered && old(visited) <= visited
      ensures forall b :: Edge(G(), t, b) ==> b in visited
      decreases Unvisited(visited, |tables|), 2
    {
      var keys := tables[t].foreignKeys;
      ghost var seen := visited;
      for k := 0 to |keys|
        invariant Valid(gray) && old(ordered) <= ordered && seen <= visited
        invariant forall b :: b in ReferencedBy(tables, newSet, keys[..k]) ==> b in visited
      {
        assert keys[..k + 1][..k] == keys[..k];
        UnvisitedFalls(seen, visited, |tables|);
        VisitReference(t, k, gray);
      }
      assert keys[..|keys|] == keys;
    }

    method VisitReference(t: nat, k: nat, ghost gray: set<nat>)
      requires Valid(gray) && t < |tables| && k < |tables[t].foreignKeys| && forall x :: x in gray ==> Reach(G(), x, t)
      modifies this
      ensures Valid(gray) && old(ordered) <= ordered && old(visited) <= visited
      ensures var r := tables[t].foreignKeys[k]; r.To? && r.target in newSet && IndexOf(tables, r.target) >= 0 ==>
                IndexOf(tables, r.target) in visited
      decreases Unvisited(visited, |tables|), 1
    {
      var r := tables[t].foreignKeys[k];
      if r.To? && r.target in newSet {
        var dependency := IndexOf(tables, r.target);
        if dependency >= 0 {
          ReferenceIsEdge(tables, newSet, t, k);
          ReachEdge(G(), t, dependency);
          forall x | x in gray
            ensures Reach(G(), x, dependency)
          {
            ReachTrans(G(), x, t, dependency);
          }
          Visit(dependency, gray);
        }
      }
    }
  }

  lemma {:induction false} ReferencedByKeeps(tables: seq<Table>, newSet: set<nat>, keys: seq<Reference>, k: nat)
    requires k < |keys| && keys[k].To? && keys[k].target in newSet && IndexOf(tables, keys[k].target) >= 0
    ensures IndexOf(tables, keys[k].target) in ReferencedBy(tables, newSet, keys)
  {
    if k < |keys| - 1 {
      ReferencedByKeeps(tables, newSet, keys[..|keys| - 1], k);
    }
  }

  lemma ReferenceIsEdge(tables: seq<Table>, newSet: set<nat>, t: nat, k: nat)
    requires t < |tables| && k < |tables[t].foreignKeys|
    requires var r := tables[t].foreignKeys[k]; r.To? && r.target in newSet && IndexOf(tables, r.target) >= 0
    ensures Edge(References(tables, newSet), t, IndexOf(tables, tables[t].foreignKeys[k].target))
  {
    ReferencedByKeeps(tables, newSet, tables[t].foreignKeys, k);
  }

  // --- when the order exists -------------------------------------------------------------------------------

  /** Every table comes after each other table it references. */
  ghost predicate ReferencedFirst(g: Graph, order: seq<nat>) {
    forall a, b :: a in order && Edge(g, a, b) && a != b ==> Precedes(order, b, a)
  }

  /** No two tables reference each other, directly or not. */
  ghost predicate Acyclic(g: Graph) {
    forall a: nat, b: nat :: a < |g| && b < |g| && Mutual(g, a, b) ==> a == b
  }

  lemma PrecedesTrans(order: seq<nat>, a: nat, b: nat, c: nat)
    requires Once(order) && Precedes(order, a, b) && Precedes(order, b, c)
    ensures Precedes(order, a, c)
  {
    var i, j :| 0 <= i < j < |order| && order[i] == a && order[j] == b;
    var k, l :| 0 <= k < l < |order| && order[k] == b && order[l] == c;
    assert j == k;
  }

  lemma {:induction false} PathPrecedes(g: Graph, order: seq<nat>, p: seq<nat>, n: nat)
    requires Once(order) && ReferencedFirst(g, order) && Path(g, p) && n < |p| && p[0] in order
    ensures p[n] == p[0] || Precedes(order, p[n], p[0])
  {
    if n > 0 {
      PathPrecedes(g, order, p, n - 1);
      assert Edge(g, p[n - 1], p[n]);
      if p[n - 1] != p[0] && p[n] != p[n - 1] {
        PrecedesTrans(order, p[n], p[n - 1], p[0]);
      }
    }
  }

  lemma ReachPrecedes(g: Graph, order: seq<nat>, a: nat, b: nat)
    requires Once(order) && ReferencedFirst(g, order) && Reach(g, a, b) && a in order
    ensures b == a || Precedes(order, b, a)
  {
    var p :| Path(g, p) && p[0] == a && p[|p| - 1] == b;
    PathPrecedes(g, order, p, |p| - 1);
  }

  /** New tables come out referenced-first exactly when their references, self-references aside, form no cycle. */
  lemma ReferencedFirstIffAcyclic(g: Graph, order: seq<nat>)
    requires WellFormed(g) && Once(order) && (forall t: nat :: t in order <==> t < |g|) && Placed(g, order)
    ensures ReferencedFirst(g, order) <==> Acyclic(g)
  {
    if ReferencedFirst(g, order) {
      forall a: nat, b: nat | a < |g| && b < |g| && Mutual(g, a, b)
        ensures a == b
      {
        ReachPrecedes(g, order, a, b);
        ReachPrecedes(g, order, b, a);
      }
    }
    if Acyclic(g) {
      forall a: nat, b: nat | a in order && Edge(g, a, b) && a != b
        ensures Precedes(order, b, a)
      {
        ReachEdge(g, a, b);
        assert a < |g| && b < |g|;
        assert !Mutual(g, a, b);
      }
    }
  }

  /** Two new tables that reference each other. */
  const MUTUAL := [Table(0, [To(1)]), Table(1, [To(0)])]

  lemma MutualEdges()
    ensures Edge(References(MUTUAL, {0, 1}), 0, 1) && Edge(References(MUTUAL, {0, 1}), 1, 0)
  {
    assert IndexOf(MUTUAL, 0) == 0;
    assert MUTUAL[1..][0].entity == 1 && IndexOf(MUTUAL[1..], 1) == 0 && IndexOf(MUTUAL, 1) == 1;
    assert MUTUAL[0].foreignKeys[0] == To(1) && MUTUAL[1].foreignKeys[0] == To(0);
    ReferenceIsEdge(MUTUAL, {0, 1}, 0, 0);
    ReferenceIsEdge(MUTUAL, {0, 1}, 1, 0);
  }

  /** Whatever order they are emitted in, one comes before the table it references. */
  lemma MutualTablesHaveNoOrder(order: seq<nat>)
    requires Once(order) && forall t: nat :: t in order <==> t < 2
    ensures !Acyclic(References(MUTUAL, {0, 1})) && !ReferencedFirst(References(MUTUAL, {0, 1}), order)
  {
    var g := References(MUTUAL, {0, 1});
    MutualEdges();
    ReachEdge(g, 0, 1);
    ReachEdge(g, 1, 0);
    assert Mutual(g, 0, 1);
    if ReferencedFirst(g, order) {
      PrecedesTrans(order, 0, 1, 0);
      assert false;
    }
  }

  lemma ReferencesAreTables(tables: seq<Table>, newSet: set<nat>)
    ensures WellFormed(References(tables, newSet))
  {
  }

  /** The tables in creation order. */
  method Order(tables: seq<Table>, newSet: set<nat>) returns (ordered: seq<nat>)
    ensures Once(ordered) && (forall t: nat :: t in ordered <==> t < |tables|)
    ensures Placed(References(tables, newSet), ordered)
    ensures ReferencedFirst(References(tables, newSet), ordered) <==> Acyclic(References(tables, newSet))
  {
    var sorter := new TableSorter(tables, newSet);
    for t := 0 to |tables|
      invariant sorter.Valid({}) && sorter.tables == tables && sorter.newSet == newSet
      invariant forall i: nat :: i < t ==> i in sorter.visited
    {
      sorter.Visit(t, {});
    }
    ordered := sorter.ordered;
    ReferencesAreTables(tables, newSet);
    ReferencedFirstIffAcyclic(References(tables, newSet), ordered);
  }
}
