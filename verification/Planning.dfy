/** A flush's plan: the scheduled inserts, the dirty instances and the scheduled deletes, each in its order. */
module Planning {
  import opened Values
  import opened Entities
  import opened IdentityMap
  import opened Writes
  import opened Calls
  import opened Phases
  import Ordering
  import Schedule
  import Discovery

  // --- what an insert and a delete wait for --------------------------------------------------------

  function LinkOf(e: Env, l: Schedule.CascadeLink): Link {
    var relationships := MapFor(e, l.owner).relationships;
    if l.relationship < |relationships|
    then Link(l.owner, relationships[l.relationship].kind, relationships[l.relationship].foreignKeys)
    else Link(l.owner, ManyToMany, [])
  }

  function LinksFor(e: Env, insertOf: Schedule.Inserts, p: Ptr): seq<Link> {
    if p in insertOf
    then seq(|insertOf[p].links|, i requires 0 <= i < |insertOf[p].links| => LinkOf(e, insertOf[p].links[i]))
    else []
  }

  /** Each cascade that reached an insert is a link: its owner, with the relationship's kind and foreign keys. */
  lemma LinksAreCascades(e: Env, insertOf: Schedule.Inserts, p: Ptr, i: nat)
    requires p in insertOf && i < |insertOf[p].links|
    requires insertOf[p].links[i].relationship < |MapFor(e, insertOf[p].links[i].owner).relationships|
    ensures |LinksFor(e, insertOf, p)| == |insertOf[p].links|
    ensures var link, cascade := LinksFor(e, insertOf, p)[i], insertOf[p].links[i];
            var relationship := MapFor(e, cascade.owner).relationships[cascade.relationship];
            && link.owner == cascade.owner && link.kind == relationship.kind
            && link.foreignKeys == relationship.foreignKeys
  {
  }

  predicate ManyToOneUpTo(e: Env, p: Ptr, n: nat, q: Ptr) {
    exists r :: 0 <= r < n && r < |MapFor(e, p).relationships| && MapFor(e, p).relationships[r].kind == ManyToOne &&
                q in Targets(e, p, r)
  }

  predicate HoldsChildUpTo(e: Env, p: Ptr, n: nat, q: Ptr) {
    exists r :: 0 <= r < n && r < |MapFor(e, p).relationships| && GivesKey(MapFor(e, p).relationships[r].kind) &&
                q in Targets(e, p, r)
  }

  predicate HoldsChild(e: Env, p: Ptr, q: Ptr) {
    HoldsChildUpTo(e, p, |MapFor(e, p).relationships|, q)
  }

  predicate OwnedBy(links: seq<Link>, q: Ptr) {
    exists l :: l in links && l.kind != ManyToOne && l.owner == q
  }

  /** A child after the parents it references and the owners whose cascades reached it. */
  function InsertWaits(e: Env, insertOf: Schedule.Inserts): Waits {
    (p: Ptr, q: Ptr) => ManyToOneTarget(e, p, q) || OwnedBy(LinksFor(e, insertOf, p), q)
  }

  /** A parent after the children that reference it or that it holds. */
  function DeleteWaits(e: Env): Waits {
    (p: Ptr, q: Ptr) => ManyToOneTarget(e, q, p) || HoldsChild(e, p, q)
  }

  type Ranks = map<TypeId, nat>

  function Rank(ranks: Ranks, t: TypeId): nat {
    if t in ranks then ranks[t] else 0
  }

  /** Type rank, then schedule order. */
  function InsertLess(e: Env, ranks: Ranks, list: seq<Ptr>): (nat, nat) -> bool {
    (a: nat, b: nat) => a < |list| && b < |list| && (
      Rank(ranks, TypeOf(e, list[a])) < Rank(ranks, TypeOf(e, list[b])) ||
      (Rank(ranks, TypeOf(e, list[a])) == Rank(ranks, TypeOf(e, list[b])) && a < b))
  }

  /** Reversed type rank, then schedule order. */
  function DeleteLess(e: Env, ranks: Ranks, list: seq<Ptr>): (nat, nat) -> bool {
    (a: nat, b: nat) => a < |list| && b < |list| && (
      Rank(ranks, TypeOf(e, list[a])) > Rank(ranks, TypeOf(e, list[b])) ||
      (Rank(ranks, TypeOf(e, list[a])) == Rank(ranks, TypeOf(e, list[b])) && a < b))
  }

  lemma LessIsTotal(e: Env, ranks: Ranks, list: seq<Ptr>)
    ensures Ordering.StrictTotal(InsertLess(e, ranks, list), |list|)
    ensures Ordering.StrictTotal(DeleteLess(e, ranks, list), |list|)
  {
  }

  // --- the dependencies --------------------------------------------------------------------------------

  /** The positions of the instances a scheduled insert waits for. */
  method ParentsOf(e: Env, position: map<Ptr, nat>, ghost list: seq<Ptr>, p: Ptr, links: seq<Link>)
    returns (row: seq<nat>)
    requires EachOnce(list) && IsPosition(position, list)
    ensures forall d: nat :: d in row <==> d < |list| && (ManyToOneTarget(e, p, list[d]) || OwnedBy(links, list[d]))
  {
    row := [];
    var relationships := MapFor(e, p).relationships;
    for r := 0 to |relationships|
      invariant forall d: nat :: d in row <==> d < |list| && ManyToOneUpTo(e, p, r, list[d])
    {
      if relationships[r].kind == ManyToOne {
        var found := Among(position, list, Targets(e, p, r));
        row := row + found;
      }
    }
    for k := 0 to |links|
      invariant forall d: nat :: d in row <==> d < |list| &&
                                               (ManyToOneTarget(e, p, list[d]) || OwnedBy(links[..k], list[d]))
    {
      assert links[..k + 1] == links[..k] + [links[k]];
      if links[k].kind != ManyToOne && links[k].owner in position {
        row := row + [position[links[k].owner]];
      }
    }
    assert links[..|links|] == links;
  }

  method InsertDependencies(e: Env, inserts: seq<Ptr>, insertOf: Schedule.Inserts) returns (dependencies: seq<seq<nat>>)
    requires EachOnce(inserts)
    ensures Lists(dependencies, inserts, InsertWaits(e, insertOf))
  {
    var position := PositionsOf(inserts);
    dependencies := [];
    for i := 0 to |inserts|
      invariant |dependencies| == i
      invariant forall k :: 0 <= k < i ==> Row(dependencies[k], inserts, InsertWaits(e, insertOf), inserts[k])
    {
      var row := ParentsOf(e, position, inserts, inserts[i], LinksFor(e, insertOf, inserts[i]));
      dependencies := dependencies + [row];
    }
  }

  /** What one relationship of the delete at i adds: it to its parents' rows, or its children to its own. */
  ghost predicate Adds(kind: RelationKind, i: nat, others: seq<nat>, a: nat, d: nat) {
    (kind == ManyToOne && d == i && a in others) || (GivesKey(kind) && a == i && d in others)
  }

  method AddOthers(rows: seq<seq<nat>>, kind: RelationKind, i: nat, others: seq<nat>) returns (more: seq<seq<nat>>)
    requires i < |rows| && forall o :: o in others ==> o < |rows|
    ensures |more| == |rows| && forall a: nat, d: nat :: a < |rows| ==>
              (d in more[a] <==> d in rows[a] || Adds(kind, i, others, a, d))
  {
    more := rows;
    for k := 0 to |others|
      invariant |more| == |rows|
      invariant forall a: nat, d: nat :: a < |rows| ==>
                  (d in more[a] <==> d in rows[a] || Adds(kind, i, others[..k], a, d))
    {
      var other := others[k];
      assert others[..k + 1] == others[..k] + [other] && other in others;
      if kind == ManyToOne {
        more := more[other := more[other] + [i]];
      } else if GivesKey(kind) {
        more := more[i := more[i] + [other]];
      }
    }
    assert others[..|others|] == others;
  }

  /** What the first n relationships of the delete at i add. */
  ghost predicate AddsUpTo(e: Env, removes: seq<Ptr>, i: nat, n: nat, a: nat, d: nat)
    requires i < |removes|
  {
    a < |removes| && d < |removes| && (
      (d == i && ManyToOneUpTo(e, removes[i], n, removes[a])) ||
      (a == i && HoldsChildUpTo(e, removes[i], n, removes[d])))
  }

  lemma AddsOneMore(e: Env, removes: seq<Ptr>, i: nat, r: nat, others: seq<nat>, a: nat, d: nat)
    requires i < |removes| && r < |MapFor(e, removes[i]).relationships|
    requires forall x: nat :: x in others <==> x < |removes| && removes[x] in Targets(e, removes[i], r)
    requires a < |removes|
    ensures AddsUpTo(e, removes, i, r + 1, a, d) <==>
            AddsUpTo(e, removes, i, r, a, d) || Adds(MapFor(e, removes[i]).relationships[r].kind, i, others, a, d)
  {
  }

  method AddRelations(e: Env, rows: seq<seq<nat>>, position: map<Ptr, nat>, removes: seq<Ptr>, i: nat)
    returns (more: seq<seq<nat>>)
    requires EachOnce(removes) && IsPosition(position, removes) && |rows| == |removes| && i < |removes|
    ensures |more| == |rows|
    ensures forall a: nat, d: nat :: a < |rows| ==>
              (d in more[a] <==> d in rows[a] || AddsUpTo(e, removes, i, |MapFor(e, removes[i]).relationships|, a, d))
  {
    more := rows;
    var relationships := MapFor(e, removes[i]).relationships;
    for r := 0 to |relationships|
      invariant |more| == |rows|
      invariant forall a: nat, d: nat :: a < |rows| ==>
                  (d in more[a] <==> d in rows[a] || AddsUpTo(e, removes, i, r, a, d))
    {
      var others := Among(position, removes, Targets(e, removes[i], r));
      ghost var was := more;
      more := AddOthers(more, relationships[r].kind, i, others);
      forall a: nat, d: nat | a < |rows|
        ensures d in more[a] <==> d in rows[a] || AddsUpTo(e, removes, i, r + 1, a, d)
      {
        AddsOneMore(e, removes, i, r, others, a, d);
        assert d in more[a] <==> d in was[a] || Adds(relationships[r].kind, i, others, a, d);
      }
    }
  }

  /** What the first n deletes tell: who comes before whom. */
  ghost predicate ToldBy(e: Env, removes: seq<Ptr>, n: nat, a: nat, d: nat) {
    a < |removes| && d < |removes| && (
      (d < n && ManyToOneTarget(e, removes[d], removes[a])) || (a < n && HoldsChild(e, removes[a], removes[d])))
  }

  method DeleteDependencies(e: Env, removes: seq<Ptr>) returns (dependencies: seq<seq<nat>>)
    requires EachOnce(removes)
    ensures Lists(dependencies, removes, DeleteWaits(e))
  {
    var position := PositionsOf(removes);
    dependencies := seq(|removes|, _ => []);
    for i := 0 to |removes|
      invariant |dependencies| == |removes|
      invariant forall a: nat, d: nat :: a < |removes| ==> (d in dependencies[a] <==> ToldBy(e, removes, i, a, d))
    {
      ghost var was := dependencies;
      dependencies := AddRelations(e, dependencies, position, removes, i);
      forall a: nat, d: nat | a < |removes|
        ensures d in dependencies[a] <==> ToldBy(e, removes, i + 1, a, d)
      {
        assert d in dependencies[a] <==> d in was[a] ||
                                         AddsUpTo(e, removes, i, |MapFor(e, removes[i]).relationships|, a, d);
        assert d < |removes| ==> (ManyToOneTarget(e, removes[i], removes[a]) <==>
                 ManyToOneUpTo(e, removes[i], |MapFor(e, removes[i]).relationships|, removes[a]));
      }
    }
    forall i | 0 <= i < |removes|
      ensures Row(dependencies[i], removes, DeleteWaits(e), removes[i])
    {
    }
  }
}
