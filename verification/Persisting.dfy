/** Persist: the walk over the persist cascades, and the schedule it commits. */
module Persisting {
  import opened Values
  import opened Entities
  import opened Writes
  import opened Schedule

  // --- the walk's order -----------------------------------------------------------------------------

  function Tagged(r: nat, targets: seq<Ptr>): (edges: seq<(nat, Ptr)>)
    ensures |edges| == |targets| && forall i :: 0 <= i < |edges| ==> edges[i] == (r, targets[i])
  {
    seq(|targets|, i requires 0 <= i < |targets| => (r, targets[i]))
  }

  /** The persist cascades of an instance: each relationship that declares one with its targets, in navigation order. */
  function EdgesFrom(e: Env, p: Ptr, r: nat): seq<(nat, Ptr)>
    decreases |MapFor(e, p).relationships| - r
  {
    if r >= |MapFor(e, p).relationships| then []
    else (if MapFor(e, p).relationships[r].cascadePersist then Tagged(r, Targets(e, p, r)) else []) +
         EdgesFrom(e, p, r + 1)
  }

  function Edges(e: Env, p: Ptr): seq<(nat, Ptr)> { EdgesFrom(e, p, 0) }

  /** The relationship declares a persist cascade and the instance's navigation holds the target. */
  ghost predicate Cascades(e: Env, p: Ptr, r: nat, target: Ptr) {
    && r < |MapFor(e, p).relationships| && MapFor(e, p).relationships[r].cascadePersist
    && exists k :: 0 <= k < |Targets(e, p, r)| && Targets(e, p, r)[k] == target
  }

  /** The targets the edges name for one relationship. */
  function TargetsIn(edges: seq<(nat, Ptr)>, r: nat): seq<Ptr> {
    if edges == [] then []
    else (if edges[0].0 == r then [edges[0].1] else []) + TargetsIn(edges[1..], r)
  }

  ghost predicate ByRelationship(edges: seq<(nat, Ptr)>) {
    forall i, j :: 0 <= i < j < |edges| ==> edges[i].0 <= edges[j].0
  }

  lemma {:induction false} TargetsInBoth(a: seq<(nat, Ptr)>, b: seq<(nat, Ptr)>, r: nat)
    ensures TargetsIn(a + b, r) == TargetsIn(a, r) + TargetsIn(b, r)
  {
    if a == [] {
      assert a + b == b;
    } else {
      var first := if a[0].0 == r then [a[0].1] else [];
      TargetsInBoth(a[1..], b, r);
      assert (a + b)[1..] == a[1..] + b && (a + b)[0] == a[0];
      assert TargetsIn(a + b, r) == first + (TargetsIn(a[1..], r) + TargetsIn(b, r));
    }
  }

  lemma {:induction false} TargetsInTagged(tag: nat, targets: seq<Ptr>, r: nat)
    ensures TargetsIn(Tagged(tag, targets), r) == if tag == r then targets else []
  {
    if targets != [] {
      assert Tagged(tag, targets)[1..] == Tagged(tag, targets[1..]);
      TargetsInTagged(tag, targets[1..], r);
      assert targets == [targets[0]] + targets[1..];
    }
  }

  lemma {:induction false} EdgesFromAre(e: Env, p: Ptr, from: nat)
    ensures forall r: nat, t: Ptr :: (r, t) in EdgesFrom(e, p, from) <==> from <= r && Cascades(e, p, r, t)
    ensures ByRelationship(EdgesFrom(e, p, from))
    decreases |MapFor(e, p).relationships| - from
  {
    if from < |MapFor(e, p).relationships| {
      EdgesFromAre(e, p, from + 1);
      var first := if MapFor(e, p).relationships[from].cascadePersist then Tagged(from, Targets(e, p, from)) else [];
      forall r: nat, t: Ptr
        ensures (r, t) in first <==> r == from && Cascades(e, p, r, t)
      {
        if r == from && Cascades(e, p, r, t) {
          var k :| 0 <= k < |Targets(e, p, r)| && Targets(e, p, r)[k] == t;
          assert first[k] == (r, t);
        }
      }
      var rest := EdgesFrom(e, p, from + 1);
      forall i | 0 <= i < |rest|
        ensures from < rest[i].0
      {
        assert (rest[i].0, rest[i].1) in rest;
      }
    }
  }

  lemma SumsUp(a: seq<Ptr>, b: seq<Ptr>)
    ensures a == [] ==> a + b == b
    ensures b == [] ==> a + b == a
  {
  }

  lemma {:induction false} TargetsInEdges(e: Env, p: Ptr, from: nat, r: nat)
    ensures TargetsIn(EdgesFrom(e, p, from), r) ==
              if from <= r < |MapFor(e, p).relationships| && MapFor(e, p).relationships[r].cascadePersist
              then Targets(e, p, r) else []
    decreases |MapFor(e, p).relationships| - from
  {
    if from < |MapFor(e, p).relationships| {
      var first := if MapFor(e, p).relationships[from].cascadePersist then Tagged(from, Targets(e, p, from)) else [];
      var rest := EdgesFrom(e, p, from + 1);
      TargetsInEdges(e, p, from + 1, r);
      TargetsInTagged(from, Targets(e, p, from), r);
      TargetsInBoth(first, rest, r);
      SumsUp(TargetsIn(first, r), TargetsIn(rest, r));
    }
  }

  /**
   The walk takes exactly the declared cascades: relationship by relationship, and in each the navigation's targets
   in their order.
   */
  lemma EdgesAreCascades(e: Env, p: Ptr)
    ensures forall r: nat, t: Ptr :: (r, t) in Edges(e, p) <==> Cascades(e, p, r, t)
    ensures ByRelationship(Edges(e, p))
    ensures forall r: nat :: r < |MapFor(e, p).relationships| && MapFor(e, p).relationships[r].cascadePersist ==>
              TargetsIn(Edges(e, p), r) == Targets(e, p, r)
  {
    EdgesFromAre(e, p, 0);
    forall r: nat | r < |MapFor(e, p).relationships| && MapFor(e, p).relationships[r].cascadePersist
      ensures TargetsIn(Edges(e, p), r) == Targets(e, p, r)
    {
      TargetsInEdges(e, p, 0, r);
    }
  }

  /** Every cascade target of the instance is visited. */
  ghost predicate Done(e: Env, order: seq<Ptr>, p: Ptr) {
    forall i :: 0 <= i < |Edges(e, p)| ==> Edges(e, p)[i].1 in order
  }

  /** The instance is the first unvisited cascade target of the one at j, and everything visited after j is done. */
  ghost predicate NextOf(e: Env, order: seq<Ptr>, j: nat, i: nat, p: Ptr) {
    && j < |order| && (forall k :: j < k < |order| ==> Done(e, order, order[k]))
    && i < |Edges(e, order[j])| && Edges(e, order[j])[i].1 == p && p !in order
    && (forall m :: 0 <= m < i ==> Edges(e, order[j])[m].1 in order)
  }

  ghost predicate Next(e: Env, order: seq<Ptr>, p: Ptr) {
    exists j: nat, i: nat :: NextOf(e, order, j, i, p)
  }

  /** Depth-first pre-order from the root: each instance comes next after those before it. */
  ghost predicate PreOrder(e: Env, root: Ptr, order: seq<Ptr>) {
    if |order| <= 1 then order == [root]
    else PreOrder(e, root, order[..|order| - 1]) && Next(e, order[..|order| - 1], order[|order| - 1])
  }

  ghost predicate Complete(e: Env, order: seq<Ptr>) {
    forall k :: 0 <= k < |order| ==> Done(e, order, order[k])
  }

  lemma NextIsUnique(e: Env, order: seq<Ptr>, p: Ptr, q: Ptr)
    requires Next(e, order, p) && Next(e, order, q)
    ensures p == q
  {
    var j: nat, i: nat :| NextOf(e, order, j, i, p);
    var k: nat, m: nat :| NextOf(e, order, k, m, q);
    assert Edges(e, order[j])[i].1 !in order && Edges(e, order[k])[m].1 !in order;
    assert !Done(e, order, order[j]) && !Done(e, order, order[k]);
    assert j == k;
  }

  lemma CompleteHasNoNext(e: Env, order: seq<Ptr>, p: Ptr)
    requires Complete(e, order)
    ensures !Next(e, order, p)
  {
    forall j: nat, i: nat | j < |order| && i < |Edges(e, order[j])|
      ensures Edges(e, order[j])[i].1 in order
    {
      assert Done(e, order, order[j]);
    }
  }

  lemma {:induction false} PreOrderPrefix(e: Env, root: Ptr, order: seq<Ptr>, n: nat)
    requires PreOrder(e, root, order) && 0 < n <= |order|
    ensures PreOrder(e, root, order[..n])
    decreases |order|
  {
    if n < |order| {
      PreOrderPrefix(e, root, order[..|order| - 1], n);
      assert order[..|order| - 1][..n] == order[..n];
    } else {
      assert order[..n] == order;
    }
  }

  lemma {:induction false} PreOrdersAgree(e: Env, root: Ptr, a: seq<Ptr>, b: seq<Ptr>)
    requires PreOrder(e, root, a) && PreOrder(e, root, b) && |a| == |b|
    ensures a == b
    decreases |a|
  {
    if |a| > 1 {
      var n := |a| - 1;
      PreOrdersAgree(e, root, a[..n], b[..n]);
      NextIsUnique(e, a[..n], a[n], b[n]);
      assert a == a[..n] + [a[n]] && b == b[..n] + [b[n]];
    }
  }

  lemma CompleteIsLongest(e: Env, root: Ptr, a: seq<Ptr>, b: seq<Ptr>)
    requires PreOrder(e, root, a) && PreOrder(e, root, b) && Complete(e, a)
    ensures |b| <= |a|
  {
    if |a| < |b| {
      var n := |a|;
      CompleteHasNoNext(e, a, b[n]);
      PreOrderPrefix(e, root, b, n);
      PreOrdersAgree(e, root, a, b[..n]);
      PreOrderStep(e, root, b, n);
      assert false;
    }
  }

  lemma PreOrderStep(e: Env, root: Ptr, order: seq<Ptr>, n: nat)
    requires PreOrder(e, root, order) && 0 < n < |order|
    ensures Next(e, order[..n], order[n])
  {
    PreOrderPrefix(e, root, order, n + 1);
    assert order[..n + 1][..n] == order[..n];
  }

  /** The cascades decide the order. */
  lemma PreOrderIsUnique(e: Env, root: Ptr, a: seq<Ptr>, b: seq<Ptr>)
    requires PreOrder(e, root, a) && Complete(e, a) && PreOrder(e, root, b) && Complete(e, b)
    ensures a == b
  {
    CompleteIsLongest(e, root, a, b);
    CompleteIsLongest(e, root, b, a);
    PreOrdersAgree(e, root, a, b);
  }

  ghost predicate ClosedUnderCascades(e: Env, nodes: iset<Ptr>) {
    forall p, r: nat, t: Ptr :: p in nodes && Cascades(e, p, r, t) ==> t in nodes
  }

  /** The least set with the root that the cascades do not lead out of. */
  ghost predicate Reached(e: Env, root: Ptr, p: Ptr) {
    forall nodes: iset<Ptr> :: root in nodes && ClosedUnderCascades(e, nodes) ==> p in nodes
  }

  lemma NextIsCascade(e: Env, order: seq<Ptr>, p: Ptr) returns (owner: Ptr, r: nat)
    requires Next(e, order, p)
    ensures owner in order && Cascades(e, owner, r, p)
  {
    var j: nat, i: nat :| NextOf(e, order, j, i, p);
    owner, r := order[j], Edges(e, order[j])[i].0;
    EdgesAreCascades(e, owner);
    assert (r, p) in Edges(e, owner);
  }

  lemma {:induction false} PreOrderStays(e: Env, root: Ptr, order: seq<Ptr>, nodes: iset<Ptr>)
    requires PreOrder(e, root, order) && root in nodes && ClosedUnderCascades(e, nodes)
    ensures forall p :: p in order ==> p in nodes
  {
    if |order| > 1 {
      var front, last := order[..|order| - 1], order[|order| - 1];
      PreOrderStays(e, root, front, nodes);
      var q, r := NextIsCascade(e, front, last);
      assert q in nodes && Cascades(e, q, r, last);
      assert order == front + [last];
    }
  }

  /** A complete walk visits exactly what the cascades reach. */
  lemma WalkIsReached(e: Env, root: Ptr, order: seq<Ptr>, p: Ptr)
    requires PreOrder(e, root, order)
    ensures p in order ==> Reached(e, root, p)
    ensures Complete(e, order) && Reached(e, root, p) ==> p in order
  {
    if p in order {
      forall nodes: iset<Ptr> | root in nodes && ClosedUnderCascades(e, nodes)
        ensures p in nodes
      {
        PreOrderStays(e, root, order, nodes);
      }
    }
    if Complete(e, order) && Reached(e, root, p) {
      PreOrderPrefix(e, root, order, 1);
      assert order[..1][0] == root;
      var nodes := iset q | q in order;
      forall q: Ptr, r: nat, t: Ptr | q in nodes && Cascades(e, q, r, t)
        ensures t in nodes
      {
        EdgesAreCascades(e, q);
        var k :| 0 <= k < |order| && order[k] == q;
        assert Done(e, order, order[k]) && (r, t) in Edges(e, q);
      }
      assert root in nodes && ClosedUnderCascades(e, nodes);
    }
  }

  // --- the plan -----------------------------------------------------------------------------------------

  datatype PlannedLink = PlannedLink(child: Ptr, link: CascadeLink)

  /** What the session holds while it plans: what is tracked, scheduled for insert, and scheduled for removal. */
  datatype Standing = Standing(tracked: set<Ptr>, scheduled: set<Ptr>, removed: set<Ptr>)

  /** The refusals of one instance, in their order. */
  function Refuses(e: Env, st: Standing, p: Ptr): Option<Code> {
    if Unwritable(MapFor(e, p)).Some? then Unwritable(MapFor(e, p))
    else if p in st.removed then Some(UOW006)
    else None
  }

  /** The instance's own type can be written by key, and the instance is not on its way out. */
  ghost predicate Acceptable(e: Env, removed: set<Ptr>, p: Ptr) {
    MapFor(e, p).isTable && MapFor(e, p).arity > 0 && p !in removed
  }

  /** What a refusal says: read-only before keyless before scheduled for removal. */
  ghost predicate Says(e: Env, removed: set<Ptr>, p: Ptr, code: Code) {
    match code
    case CRUD003 => !MapFor(e, p).isTable
    case CRUD002 => MapFor(e, p).isTable && MapFor(e, p).arity == 0
    case UOW006 => MapFor(e, p).isTable && MapFor(e, p).arity > 0 && p in removed
    case _ => false
  }

  /** The instance is, or is about to be, scheduled for insert. */
  predicate Schedulable(st: Standing, p: Ptr) {
    p in st.scheduled || p !in st.tracked
  }

  function NewOnes(st: Standing, order: seq<Ptr>): (news: seq<Ptr>)
    ensures forall p :: p in news <==> p in order && p !in st.scheduled && p !in st.tracked
  {
    if order == [] then []
    else
      var last := order[|order| - 1];
      assert order == order[..|order| - 1] + [last];
      NewOnes(st, order[..|order| - 1]) + (if last in st.scheduled || last in st.tracked then [] else [last])
  }

  /** Every planned link is a cascade of a visited instance to one scheduled. */
  ghost predicate Genuine(e: Env, st: Standing, order: seq<Ptr>, links: seq<PlannedLink>) {
    forall x :: x in links ==> x.link.owner in order && Schedulable(st, x.child) &&
                               (x.link.relationship, x.child) in Edges(e, x.link.owner)
  }

  ghost predicate LinkedTo(e: Env, st: Standing, links: seq<PlannedLink>, p: Ptr, count: nat)
    requires count <= |Edges(e, p)|
  {
    forall i :: 0 <= i < count && Schedulable(st, Edges(e, p)[i].1) ==>
      PlannedLink(Edges(e, p)[i].1, CascadeLink(p, Edges(e, p)[i].0)) in links
  }

  /** The instance's cascades are walked: its targets are visited and linked. */
  ghost predicate Walked(e: Env, st: Standing, order: seq<Ptr>, links: seq<PlannedLink>, p: Ptr) {
    Done(e, order, p) && LinkedTo(e, st, links, p, |Edges(e, p)|)
  }

  ghost predicate WalkedFrom(e: Env, st: Standing, order: seq<Ptr>, links: seq<PlannedLink>, from: nat) {
    forall k :: from <= k < |order| ==> Walked(e, st, order, links, order[k])
  }

  lemma WalkedStays(e: Env, st: Standing, order: seq<Ptr>, links: seq<PlannedLink>, after: seq<Ptr>,
      more: seq<PlannedLink>, from: nat)
    requires WalkedFrom(e, st, order, links, from) && order <= after && links <= more
    requires WalkedFrom(e, st, after, more, |order|)
    ensures WalkedFrom(e, st, after, more, from)
  {
    forall k | from <= k < |after|
      ensures Walked(e, st, after, more, after[k])
    {
      if k < |order| {
        assert Walked(e, st, order, links, order[k]);
        assert forall x :: x in links ==> x in more;
        assert forall q :: q in order ==> q in after;
      }
    }
  }

  /** Midway through an instance's cascades: the first are walked, and so is all that was visited since. */
  ghost predicate Midway(e: Env, st: Standing, order: seq<Ptr>, links: seq<PlannedLink>, at: nat, count: nat) {
    && at < |order| && count <= |Edges(e, order[at])|
    && (forall m :: 0 <= m < count ==> Edges(e, order[at])[m].1 in order)
    && LinkedTo(e, st, links, order[at], count)
    && WalkedFrom(e, st, order, links, at + 1)
  }

  /** The next cascade target is visited already, or comes next. */
  lemma MidwayNext(e: Env, st: Standing, order: seq<Ptr>, links: seq<PlannedLink>, at: nat, count: nat)
    requires Midway(e, st, order, links, at, count) && count < |Edges(e, order[at])|
    ensures var p := Edges(e, order[at])[count].1; p in order || Next(e, order, p)
  {
    var p := Edges(e, order[at])[count].1;
    if p !in order {
      forall k | at < k < |order|
        ensures Done(e, order, order[k])
      {
        assert Walked(e, st, order, links, order[k]);
      }
      assert NextOf(e, order, at, count, p);
    }
  }

  lemma MidwayStep(e: Env, st: Standing, order: seq<Ptr>, links: seq<PlannedLink>, after: seq<Ptr>,
      more: seq<PlannedLink>, at: nat, count: nat)
    requires Midway(e, st, order, links, at, count) && count < |Edges(e, order[at])|
    requires order <= after && links <= more && WalkedFrom(e, st, after, more, |order|)
    requires var (r, p) := Edges(e, order[at])[count];
             p in after && (Schedulable(st, p) ==> PlannedLink(p, CascadeLink(order[at], r)) in more)
    ensures Midway(e, st, after, more, at, count + 1)
  {
    WalkedStays(e, st, order, links, after, more, at + 1);
    assert forall x :: x in links ==> x in more;
    assert forall q :: q in order ==> q in after;
  }

  lemma MidwayEnd(e: Env, st: Standing, order: seq<Ptr>, links: seq<PlannedLink>, at: nat)
    requires at < |order| && Midway(e, st, order, links, at, |Edges(e, order[at])|)
    ensures WalkedFrom(e, st, order, links, at)
  {
  }

  /** The walk stopped at its last instance, the first that refuses. */
  ghost predicate StoppedAt(e: Env, st: Standing, root: Ptr, order: seq<Ptr>, code: Code) {
    && PreOrder(e, root, order) && order != []
    && Refuses(e, st, order[|order| - 1]) == Some(code)
    && forall q :: q in order[..|order| - 1] ==> Refuses(e, st, q) == None
  }

  lemma GrowsBy(e: Env, st: Standing, root: Ptr, order: seq<Ptr>, p: Ptr)
    requires if order == [] then p == root else PreOrder(e, root, order) && Next(e, order, p)
    ensures PreOrder(e, root, order + [p]) && Members(order + [p]) == Members(order) + {p}
    ensures (order + [p])[..|order + [p]| - 1] == order
    ensures NewOnes(st, order + [p]) == NewOnes(st, order) + if p in st.scheduled || p in st.tracked then [] else [p]
  {
    assert (order + [p])[..|order + [p]| - 1] == order;
  }

  lemma Grown(was: seq<Ptr>, placed: seq<Ptr>, now: seq<Ptr>, p: Ptr)
    requires placed == was + [p] && placed <= now
    ensures was <= now && p in now
  {
    assert now[|was|] == p;
  }

  lemma StillIn(links: seq<PlannedLink>, more: seq<PlannedLink>)
    requires links <= more
    ensures forall x :: x in links ==> x in more
  {
  }

  class PersistPlan {
    const e: Env
    const st: Standing
    ghost const root: Ptr
    ghost const all: seq<Ptr>
    var visited: set<Ptr>
    var adds: seq<Ptr>
    var links: seq<PlannedLink>
    var directs: seq<Ptr>
    ghost var order: seq<Ptr>

    constructor (e: Env, st: Standing, ghost root: Ptr, ghost all: seq<Ptr>)
      ensures this.e == e && this.st == st && this.root == root && this.all == all
      ensures order == [] && links == [] && directs == [] && Valid()
    {
      this.e, this.st, this.root, this.all := e, st, root, all;
      visited, adds, links, directs, order := {}, [], [], [], [];
    }

    ghost predicate Valid()
      reads this
    {
      && visited == Members(order) && adds == NewOnes(st, order)
      && (order == [] || PreOrder(e, root, order))
      && Genuine(e, st, order, links)
      && (forall q :: q in order ==> Refuses(e, st, q) == None)
    }

    /** The instance was reached: linked by the cascade that reached it, or direct. */
    ghost predicate Linked(p: Ptr, via: Option<CascadeLink>, was: seq<Ptr>)
      reads this
    {
      if !Schedulable(st, p) then directs == was
      else if via.None? then directs == was + [p]
      else directs == was && PlannedLink(p, via.value) in links
    }

    method Note(p: Ptr, via: Option<CascadeLink>)
      requires Valid() && p in order
      requires via.Some? ==> via.value.owner in order && (via.value.relationship, p) in Edges(e, via.value.owner)
      modifies `links, `directs
      ensures Valid() && old(links) <= links && Linked(p, via, old(directs))
    {
      if p in st.scheduled || p !in st.tracked {
        if via.None? {
          directs := directs + [p];
        } else {
          links := links + [PlannedLink(p, via.value)];
        }
      }
    }

    /** The instance's own place in the plan, none for a tracked or scheduled one. */
    method Place(p: Ptr)
      requires Valid() && p !in order && Refuses(e, st, p).None? &&
               (if order == [] then p == root else Next(e, order, p))
      modifies `visited, `adds, `order
      ensures Valid() && order == old(order) + [p] && visited == old(visited) + {p}
    {
      GrowsBy(e, st, root, order, p);
      visited := visited + {p};
      if p !in st.scheduled && p !in st.tracked {
        adds := adds + [p];
      }
      order := order + [p];
    }

    method Stop(p: Ptr)
      requires Valid() && Refuses(e, st, p).Some? && (if order == [] then p == root else Next(e, order, p))
      modifies `visited, `order
      ensures order == old(order) + [p] && StoppedAt(e, st, root, order, Refuses(e, st, p).value)
    {
      GrowsBy(e, st, root, order, p);
      visited := visited + {p};
      order := order + [p];
    }

    /** What a visit that is not refused leaves: everything visited since is walked, and the instance is reached. */
    ghost predicate Visited(p: Ptr, via: Option<CascadeLink>, was: seq<Ptr>, linked: seq<PlannedLink>, direct: seq<Ptr>)
      reads this
    {
      && Valid() && was <= order && linked <= links && p in order
      && WalkedFrom(e, st, order, links, |was|)
      && Linked(p, via, direct)
    }

    /** Plans one instance; via is the cascade that reached it, none for the caller's own. */
    method Visit(p: Ptr, via: Option<CascadeLink>) returns (refused: Option<Code>)
      requires Valid() && (p in order || (if order == [] then p == root else Next(e, order, p)))
      requires via.Some? ==> via.value.owner in order && (via.value.relationship, p) in Edges(e, via.value.owner)
      requires p in all && CascadesListed(e, all)
      modifies this
      ensures refused.Some? ==> StoppedAt(e, st, root, order, refused.value)
      ensures refused.None? ==> Visited(p, via, old(order), old(links), old(directs))
      decreases Left(all, visited), 1
    {
      if p in visited {
        Note(p, via);
        refused := None;
      } else {
        refused := VisitNew(p, via);
      }
    }

    /**
     First reached: the refusals, the instance's place in the plan, the cascade that led here, and its own
     cascades.
     */
    method VisitNew(p: Ptr, via: Option<CascadeLink>) returns (refused: Option<Code>)
      requires Valid() && p !in order && (if order == [] then p == root else Next(e, order, p))
      requires via.Some? ==> via.value.owner in order && (via.value.relationship, p) in Edges(e, via.value.owner)
      requires p in all && CascadesListed(e, all)
      modifies this
      ensures refused.Some? ==> StoppedAt(e, st, root, order, refused.value)
      ensures refused.None? ==> Visited(p, via, old(order), old(links), old(directs))
      decreases Left(all, visited), 0
    {
      LeftFalls(all, visited, p);
      refused := Refuses(e, st, p);
      if refused.Some? {
        Stop(p);
      } else {
        ghost var was, at := order, |order|;
        Place(p);
        Note(p, via);
        ghost var placed, noted := order, links;
        refused := VisitTargets(p, at);
        if refused.None? {
          Grown(was, placed, order, p);
          StillIn(noted, links);
        }
      }
    }

    /** One of the instance's cascades. */
    method VisitTarget(p: Ptr, i: nat, ghost at: nat) returns (refused: Option<Code>)
      requires Valid() && at < |order| && order[at] == p && Between(at, i) && i < |Edges(e, p)| &&
               CascadesListed(e, all)
      modifies this
      ensures refused.Some? ==> StoppedAt(e, st, root, order, refused.value)
      ensures refused.None? ==> Valid() && old(order) <= order && old(links) <= links && directs == old(directs) &&
                                Between(at, i + 1)
      decreases Left(all, visited), 2
    {
      ghost var now, sofar := order, links;
      MidwayNext(e, st, order, links, at, i);
      var edge := Edges(e, p)[i];
      refused := Visit(edge.1, Some(CascadeLink(p, edge.0)));
      if refused.None? {
        MidwayStep(e, st, now, sofar, order, links, at, i);
      }
    }

    ghost predicate Between(at: nat, i: nat)
      reads this
    {
      Midway(e, st, order, links, at, i)
    }

    /** The instance's declared cascades, in navigation order. */
    method VisitTargets(p: Ptr, ghost at: nat) returns (refused: Option<Code>)
      requires Valid() && at < |order| && order[at] == p && at + 1 == |order| && CascadesListed(e, all)
      modifies this
      ensures refused.Some? ==> StoppedAt(e, st, root, order, refused.value)
      ensures refused.None? ==> Valid() && old(order) <= order && old(links) <= links && directs == old(directs)
      ensures refused.None? ==> WalkedFrom(e, st, order, links, at)
      decreases Left(all, visited), 3
    {
      ghost var was, linked, seen := order, links, visited;
      for i := 0 to |Edges(e, p)|
        invariant Valid() && was <= order && linked <= links && directs == old(directs)
        invariant Between(at, i)
      {
        LeftShrinks(all, seen, visited);
        refused := VisitTarget(p, i, at);
        if refused.Some? {
          return;
        }
      }
      MidwayEnd(e, st, order, links, at);
      refused := None;
    }
  }

  /** A list with every instance a cascade leads to. */
  ghost predicate CascadesListed(e: Env, all: seq<Ptr>) {
    forall p, i :: 0 <= i < |Edges(e, p)| ==> Edges(e, p)[i].1 in all
  }

  // --- the commit ---------------------------------------------------------------------------------------

  function InsertFor(inserts: Inserts, p: Ptr): Insert {
    if p in inserts then inserts[p] else Insert(false, [])
  }

  /** The link joins unless it is there. */
  function Joined(links: seq<CascadeLink>, l: CascadeLink): seq<CascadeLink> {
    if l in links then links else links + [l]
  }

  /** What a commit leaves of one insert: its place, its flag, and each of its links once. */
  ghost predicate Holds(was: Insert, now: Insert, p: Ptr, directs: seq<Ptr>, links: seq<PlannedLink>) {
    && (now.direct <==> was.direct || p in directs)
    && was.links <= now.links
    && (forall l :: l in now.links <==> l in was.links || PlannedLink(p, l) in links)
    && (Once(was.links) ==> Once(now.links))
  }

  ghost predicate Once(links: seq<CascadeLink>) {
    forall i, j :: 0 <= i < j < |links| ==> links[i] != links[j]
  }

  ghost predicate Committed(was: Inserts, now: Inserts, adds: seq<Ptr>, directs: seq<Ptr>, links: seq<PlannedLink>) {
    && now.Keys == was.Keys + Members(adds)
    && forall p :: p in now ==> Holds(InsertFor(was, p), now[p], p, directs, links)
  }

  lemma CommitLink(was: Inserts, now: Inserts, adds: seq<Ptr>, directs: seq<Ptr>, links: seq<PlannedLink>,
      x: PlannedLink)
    requires Committed(was, now, adds, directs, links)
    ensures Committed(was, if x.child in now
                        then now[x.child := now[x.child].(links := Joined(now[x.child].links, x.link))] else now,
                      adds, directs, links + [x])
  {
    var next := if x.child in now then now[x.child := now[x.child].(links := Joined(now[x.child].links, x.link))]
      else now;
    forall p | p in next
      ensures Holds(InsertFor(was, p), next[p], p, directs, links + [x])
    {
      assert Holds(InsertFor(was, p), now[p], p, directs, links);
      if p == x.child {
        assert forall l :: l in next[p].links <==> l in now[p].links || l == x.link;
      }
    }
  }

  lemma CommitDirect(was: Inserts, now: Inserts, adds: seq<Ptr>, directs: seq<Ptr>, p: Ptr)
    requires Committed(was, now, adds, directs, []) && p in now
    ensures Committed(was, now[p := now[p].(direct := true)], adds, directs + [p], [])
  {
    var next := now[p := now[p].(direct := true)];
    forall q | q in next
      ensures Holds(InsertFor(was, q), next[q], q, directs + [p], [])
    {
      assert Holds(InsertFor(was, q), now[q], q, directs, []);
    }
  }

  lemma CommitAdd(was: Inserts, now: Inserts, adds: seq<Ptr>, p: Ptr)
    requires Committed(was, now, adds, [], []) && p !in now
    ensures Committed(was, now[p := Insert(false, [])], adds + [p], [], [])
  {
    var next := now[p := Insert(false, [])];
    assert Members(adds + [p]) == Members(adds) + {p};
    forall q | q in next
      ensures Holds(InsertFor(was, q), next[q], q, [], [])
    {
      if q != p {
        assert Holds(InsertFor(was, q), now[q], q, [], []);
      }
    }
  }

  method CommitAdds(uow: UnitOfWork, adds: seq<Ptr>)
    requires uow.Valid() && forall p :: p in adds ==> p !in uow.insertOf
    requires forall i, j :: 0 <= i < j < |adds| ==> adds[i] != adds[j]
    modifies uow
    ensures uow.Valid() && uow.removes == old(uow.removes) && uow.inserts == old(uow.inserts) + adds
    ensures Committed(old(uow.insertOf), uow.insertOf, adds, [], [])
  {
    ghost var was, order := uow.insertOf, uow.inserts;
    for i := 0 to |adds|
      invariant uow.Valid() && uow.removes == old(uow.removes) && uow.inserts == order + adds[..i]
      invariant Committed(was, uow.insertOf, adds[..i], [], [])
    {
      var p := adds[i];
      assert adds[..i + 1] == adds[..i] + [p] && p in adds;
      CommitAdd(was, uow.insertOf, adds[..i], p);
      uow.inserts := uow.inserts + [p];
      uow.insertOf := uow.insertOf[p := Insert(false, [])];
    }
    assert adds[..|adds|] == adds;
  }

  method CommitDirects(uow: UnitOfWork, directs: seq<Ptr>, ghost was: Inserts, ghost adds: seq<Ptr>)
    requires uow.Valid() && Committed(was, uow.insertOf, adds, [], []) && forall p :: p in directs ==> p in uow.insertOf
    modifies uow`insertOf
    ensures uow.Valid() && Committed(was, uow.insertOf, adds, directs, [])
  {
    ghost var keys := uow.insertOf.Keys;
    for i := 0 to |directs|
      invariant uow.Valid() && uow.insertOf.Keys == keys && Committed(was, uow.insertOf, adds, directs[..i], [])
    {
      var p := directs[i];
      assert directs[..i + 1] == directs[..i] + [p] && p in directs;
      CommitDirect(was, uow.insertOf, adds, directs[..i], p);
      uow.insertOf := uow.insertOf[p := uow.insertOf[p].(direct := true)];
    }
    assert directs[..|directs|] == directs;
  }

  method CommitLinks(uow: UnitOfWork, links: seq<PlannedLink>, ghost was: Inserts, ghost adds: seq<Ptr>,
      ghost directs: seq<Ptr>)
    requires uow.Valid() && Committed(was, uow.insertOf, adds, directs, [])
    modifies uow`insertOf
    ensures uow.Valid() && Committed(was, uow.insertOf, adds, directs, links)
  {
    for i := 0 to |links|
      invariant uow.Valid() && Committed(was, uow.insertOf, adds, directs, links[..i])
    {
      var x := links[i];
      assert links[..i + 1] == links[..i] + [x];
      CommitLink(was, uow.insertOf, adds, directs, links[..i], x);
      if x.child in uow.insertOf {
        var child := uow.insertOf[x.child];
        uow.insertOf := uow.insertOf[x.child := child.(links := Joined(child.links, x.link))];
      }
    }
    assert links[..|links|] == links;
  }

  /** Applies a plan: the new inserts, the direct flags, the links. */
  method Commit(uow: UnitOfWork, plan: PersistPlan)
    requires uow.Valid() && (forall p :: p in plan.adds ==> p !in uow.insertOf)
    requires forall i, j :: 0 <= i < j < |plan.adds| ==> plan.adds[i] != plan.adds[j]
    requires forall p :: p in plan.directs ==> p in uow.insertOf || p in plan.adds
    modifies uow
    ensures uow.Valid() && uow.removes == old(uow.removes) && uow.inserts == old(uow.inserts) + plan.adds
    ensures Committed(old(uow.insertOf), uow.insertOf, plan.adds, plan.directs, plan.links)
  {
    ghost var was := uow.insertOf;
    var adds, directs, links := plan.adds, plan.directs, plan.links;
    CommitAdds(uow, adds);
    CommitDirects(uow, directs, was, adds);
    CommitLinks(uow, links, was, adds, directs);
  }

  // --- the call -------------------------------------------------------------------------------------------

  lemma {:induction false} ListOf(nodes: set<Ptr>) returns (all: seq<Ptr>)
    ensures forall p :: p in nodes ==> p in all
    decreases nodes
  {
    if nodes == {} {
      all := [];
    } else {
      var p :| p in nodes;
      all := ListOf(nodes - {p});
      all := all + [p];
    }
  }

  /** The navigations are finitely many, so the walk ends. */
  lemma CascadesAreListed(e: Env, root: Ptr) returns (all: seq<Ptr>)
    ensures CascadesListed(e, all) && root in all
  {
    var nodes := set k, t | k in e.navigations && t in e.navigations[k] :: t;
    all := ListOf(nodes + {root});
    forall p: Ptr, i | 0 <= i < |Edges(e, p)|
      ensures Edges(e, p)[i].1 in all
    {
      var (r, t) := Edges(e, p)[i];
      EdgesAreCascades(e, p);
      assert (r, t) in Edges(e, p);
      assert (p, r) in e.navigations && t in Targets(e, p, r);
    }
  }

  lemma {:induction false} PreOrderIsOnce(e: Env, root: Ptr, order: seq<Ptr>)
    requires PreOrder(e, root, order)
    ensures forall i, j :: 0 <= i < j < |order| ==> order[i] != order[j]
  {
    if |order| > 1 {
      var front, last := order[..|order| - 1], order[|order| - 1];
      PreOrderIsOnce(e, root, front);
      var j: nat, i: nat :| NextOf(e, front, j, i, last);
      assert last !in front;
      assert order == front + [last];
    }
  }

  lemma {:induction false} NewOnesOnce(st: Standing, order: seq<Ptr>)
    requires forall i, j :: 0 <= i < j < |order| ==> order[i] != order[j]
    ensures forall i, j :: 0 <= i < j < |NewOnes(st, order)| ==> NewOnes(st, order)[i] != NewOnes(st, order)[j]
  {
    if order != [] {
      NewOnesOnce(st, order[..|order| - 1]);
      assert order[|order| - 1] !in NewOnes(st, order[..|order| - 1]);
    }
  }

  /** A stopped walk names an instance the cascades reach that refuses. */
  lemma StoppedIsRefused(e: Env, st: Standing, root: Ptr, order: seq<Ptr>, code: Code)
    requires StoppedAt(e, st, root, order, code)
    ensures exists p :: Reached(e, root, p) && !Acceptable(e, st.removed, p)
    ensures Says(e, st.removed, order[|order| - 1], code)
  {
    var p := order[|order| - 1];
    assert p in order;
    WalkIsReached(e, root, order, p);
  }

  /** What Persist schedules. */
  ghost predicate Persisted(e: Env, st: Standing, root: Ptr, was: Inserts, now: Inserts) {
    && (forall p :: p in now <==> p in was || (Reached(e, root, p) && p !in st.tracked))
    && (forall p :: p in now ==> (now[p].direct <==> InsertFor(was, p).direct || p == root))
    && (forall p, l :: p in now ==> (l in now[p].links <==> l in InsertFor(was, p).links || CascadeFrom(e, root, l, p)))
    && (forall p :: p in now ==> InsertFor(was, p).links <= now[p].links &&
                                 (Once(InsertFor(was, p).links) ==> Once(now[p].links)))
  }

  /** The link is a cascade, from an instance reached from the root, to the child. */
  ghost predicate CascadeFrom(e: Env, root: Ptr, l: CascadeLink, child: Ptr) {
    Reached(e, root, l.owner) && Cascades(e, l.owner, l.relationship, child)
  }

  lemma PlannedIsCascade(e: Env, st: Standing, root: Ptr, order: seq<Ptr>, links: seq<PlannedLink>, p: Ptr,
      l: CascadeLink)
    requires PreOrder(e, root, order) && WalkedFrom(e, st, order, links, 0) && Genuine(e, st, order, links) &&
             Schedulable(st, p)
    ensures PlannedLink(p, l) in links <==> CascadeFrom(e, root, l, p)
  {
    assert Complete(e, order) by {
      assert forall k :: 0 <= k < |order| ==> Walked(e, st, order, links, order[k]);
    }
    WalkIsReached(e, root, order, l.owner);
    EdgesAreCascades(e, l.owner);
    if CascadeFrom(e, root, l, p) {
      var k :| 0 <= k < |order| && order[k] == l.owner;
      assert Walked(e, st, order, links, order[k]);
      var i :| 0 <= i < |Edges(e, l.owner)| && Edges(e, l.owner)[i] == (l.relationship, p);
      assert l == CascadeLink(l.owner, Edges(e, l.owner)[i].0);
    }
  }

  lemma CommittedIsPersisted(e: Env, st: Standing, root: Ptr, order: seq<Ptr>, links: seq<PlannedLink>, was: Inserts,
      now: Inserts)
    requires PreOrder(e, root, order) && WalkedFrom(e, st, order, links, 0) && Genuine(e, st, order, links)
    requires st.scheduled == was.Keys
    requires Committed(was, now, NewOnes(st, order), if Schedulable(st, root) then [root] else [], links)
    ensures Complete(e, order) && Persisted(e, st, root, was, now)
  {
    assert Complete(e, order) by {
      assert forall k :: 0 <= k < |order| ==> Walked(e, st, order, links, order[k]);
    }
    forall p: Ptr
      ensures p in now <==> p in was || (Reached(e, root, p) && p !in st.tracked)
    {
      WalkIsReached(e, root, order, p);
    }
    forall p | p in now
      ensures Holds(InsertFor(was, p), now[p], p, if Schedulable(st, root) then [root] else [], links) &&
              Schedulable(st, p)
    {
    }
    forall p, l | p in now
      ensures l in now[p].links <==> l in InsertFor(was, p).links || CascadeFrom(e, root, l, p)
    {
      PlannedIsCascade(e, st, root, order, links, p, l);
    }
  }

  lemma WillingWalk(e: Env, st: Standing, root: Ptr, order: seq<Ptr>)
    requires PreOrder(e, root, order) && Complete(e, order) && forall q :: q in order ==> Refuses(e, st, q) == None
    ensures forall p :: Reached(e, root, p) ==> Acceptable(e, st.removed, p)
  {
    forall p | Reached(e, root, p)
      ensures Acceptable(e, st.removed, p)
    {
      WalkIsReached(e, root, order, p);
    }
  }

  /** The plan after a visit of the root that was not refused can be committed. */
  lemma PlanIsReady(e: Env, st: Standing, root: Ptr, order: seq<Ptr>)
    requires PreOrder(e, root, order)
    ensures root in order
    ensures forall i, j :: 0 <= i < j < |NewOnes(st, order)| ==> NewOnes(st, order)[i] != NewOnes(st, order)[j]
  {
    PreOrderPrefix(e, root, order, 1);
    assert order[..1][0] == root;
    PreOrderIsOnce(e, root, order);
    NewOnesOnce(st, order);
  }

  /**
   Schedules the root and everything its persist cascades reach, in depth-first pre-order; when any of it
   refuses, schedules nothing and answers the refusal of the first in that order.
   */
  method Persist(uow: UnitOfWork, e: Env, tracked: set<Ptr>, root: Ptr)
    returns (refused: Option<Code>, ghost order: seq<Ptr>)
    requires uow.Valid()
    modifies uow
    ensures uow.Valid() && uow.removes == old(uow.removes)
    ensures var st := Standing(tracked, old(uow.insertOf.Keys), Members(uow.removes));
            && (refused.None? <==> forall p :: Reached(e, root, p) ==> Acceptable(e, st.removed, p))
            && (refused.Some? ==> StoppedAt(e, st, root, order, refused.value) &&
                                  Says(e, st.removed, order[|order| - 1], refused.value) &&
                                  uow.inserts == old(uow.inserts) && uow.insertOf == old(uow.insertOf))
            && (refused.None? ==> PreOrder(e, root, order) && Complete(e, order) &&
                                  uow.inserts == old(uow.inserts) + NewOnes(st, order)
                                  && Persisted(e, st, root, old(uow.insertOf), uow.insertOf))
  {
    ghost var was := uow.insertOf;
    var scheduled, removed := uow.insertOf.Keys, Members(uow.removes);
    ghost var all := CascadesAreListed(e, root);
    var st := Standing(tracked, scheduled, removed);
    var plan := new PersistPlan(e, st, root, all);
    refused := plan.Visit(root, None);
    order := plan.order;
    if refused.Some? {
      StoppedIsRefused(e, st, root, order, refused.value);
    } else {
      PlanIsReady(e, st, root, order);
      Commit(uow, plan);
      CommittedIsPersisted(e, st, root, order, plan.links, was, uow.insertOf);
      WillingWalk(e, st, root, order);
    }
  }
}
