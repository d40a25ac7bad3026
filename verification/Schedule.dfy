/** A session's schedule: the instances to insert, with the cascades that reached them, and the ones to delete. */
module Schedule {
  import opened Values
  import opened Entities

  /** A persist cascade that reached a scheduled insert: the owner's relationship. */
  datatype CascadeLink = CascadeLink(owner: Ptr, relationship: nat)

  // --- what cancelling means ----------------------------------------------------------------------

  /** A scheduled insert: whether the caller persisted it itself, and the cascades that reached it. */
  datatype Insert = Insert(direct: bool, links: seq<CascadeLink>)

  type Inserts = map<Ptr, Insert>

  /** The links whose owner stays. */
  function Without(links: seq<CascadeLink>, gone: set<Ptr>): (kept: seq<CascadeLink>)
    ensures forall l :: l in kept <==> l in links && l.owner !in gone
  {
    if links == [] then []
    else
      var last := links[|links| - 1];
      assert links == links[..|links| - 1] + [last];
      Without(links[..|links| - 1], gone) + (if last.owner in gone then [] else [last])
  }

  /** Nothing is left that scheduled the insert: only cascades did, and their owners are all gone. */
  ghost predicate Orphaned(inserts: Inserts, p: Ptr, gone: set<Ptr>)
    requires p in inserts
  {
    !inserts[p].direct && inserts[p].links != [] && forall l :: l in inserts[p].links ==> l.owner in gone
  }

  ghost predicate ClosedUnder(inserts: Inserts, gone: set<Ptr>) {
    forall p :: p in inserts && Orphaned(inserts, p, gone) ==> p in gone
  }

  /** The inserts that go with the initial ones: the least set that contains them and every insert it orphans. */
  ghost predicate Cancelled(inserts: Inserts, initial: set<Ptr>, gone: set<Ptr>) {
    && initial <= gone <= inserts.Keys && ClosedUnder(inserts, gone)
    && forall other: set<Ptr> :: initial <= other && ClosedUnder(inserts, other) ==> gone <= other
  }

  /** The scan order does not show: there is one such set. */
  lemma CancelledIsUnique(inserts: Inserts, initial: set<Ptr>, a: set<Ptr>, b: set<Ptr>)
    requires Cancelled(inserts, initial, a) && Cancelled(inserts, initial, b)
    ensures a == b
  {
  }

  function Survivors(inserts: Inserts, gone: set<Ptr>): Inserts {
    map p | p in inserts && p !in gone :: Insert(inserts[p].direct, Without(inserts[p].links, gone))
  }

  function Outside(order: seq<Ptr>, gone: set<Ptr>): seq<Ptr> {
    if order == [] then []
    else Outside(order[..|order| - 1], gone) + (if order[|order| - 1] in gone then [] else [order[|order| - 1]])
  }

  /** No surviving link names a cancelled insert, and a survivor that only cascades had scheduled still has one. */
  lemma SurvivorsAreHeld(inserts: Inserts, initial: set<Ptr>, gone: set<Ptr>, p: Ptr)
    requires Cancelled(inserts, initial, gone) && p in Survivors(inserts, gone)
    ensures forall l :: l in Survivors(inserts, gone)[p].links ==> l.owner !in gone && l in inserts[p].links
    ensures !inserts[p].direct && inserts[p].links != [] ==> Survivors(inserts, gone)[p].links != []
  {
    if !inserts[p].direct && inserts[p].links != [] {
      assert !Orphaned(inserts, p, gone);
      var l :| l in inserts[p].links && l.owner !in gone;
      assert l in Without(inserts[p].links, gone);
    }
  }

  /** Cancelling is local to what it orphans: two inserts that hold each other stay, though nothing else holds them. */
  lemma CyclesSurvive(root: Ptr, a: Ptr, b: Ptr, r: nat)
    requires root != a && a != b && root != b
    ensures var inserts := map[
              root := Insert(true, []),
              a := Insert(false, [CascadeLink(root, r), CascadeLink(b, r)]),
              b := Insert(false, [CascadeLink(a, r)])];
            Cancelled(inserts, {root}, {root}) && Survivors(inserts, {root})[a].links == [CascadeLink(b, r)]
  {
    var inserts := map[
      root := Insert(true, []),
      a := Insert(false, [CascadeLink(root, r), CascadeLink(b, r)]),
      b := Insert(false, [CascadeLink(a, r)])];
    assert CascadeLink(b, r) in inserts[a].links && CascadeLink(a, r) in inserts[b].links;
    assert !Orphaned(inserts, a, {root}) && !Orphaned(inserts, b, {root});
    assert Cancelled(inserts, {root}, {root});
    assert inserts[a].links[..1] == [CascadeLink(root, r)];
    assert Without([CascadeLink(root, r)], {root}) == Without([], {root}) + [];
  }

  // --- links dropped step by step ----------------------------------------------------------------------

  lemma {:induction false} WithoutTwice(links: seq<CascadeLink>, gone: set<Ptr>, more: set<Ptr>)
    requires gone <= more
    ensures Without(Without(links, gone), more) == Without(links, more)
  {
    if links != [] {
      var front, last := links[..|links| - 1], links[|links| - 1];
      WithoutTwice(front, gone, more);
      if last.owner !in gone {
        assert (Without(front, gone) + [last])[..|Without(front, gone)|] == Without(front, gone);
      } else {
        assert Without(links, gone) == Without(front, gone);
      }
    }
  }

  lemma {:induction false} WithoutNone(links: seq<CascadeLink>, gone: set<Ptr>)
    ensures Without(links, gone) == links || |Without(links, gone)| < |links|
    ensures gone == {} ==> Without(links, gone) == links
  {
    if links != [] {
      WithoutNone(links[..|links| - 1], gone);
      assert links == links[..|links| - 1] + [links[|links| - 1]];
    }
  }

  lemma {:induction false} AllGone(links: seq<CascadeLink>, gone: set<Ptr>)
    ensures Without(links, gone) == [] <==> forall l :: l in links ==> l.owner in gone
  {
    if links != [] {
      var front, last := links[..|links| - 1], links[|links| - 1];
      AllGone(front, gone);
      assert links == front + [last];
    }
  }

  // --- a pass over the schedule --------------------------------------------------------------------------

  /**
   Where a pass is: the set each insert's links were last held against, the set cancelled by now, and
   whether the pass cancelled any.
   */
  datatype Scan = Scan(at: map<Ptr, set<Ptr>>, gone: set<Ptr>, changed: bool)

  /** The schedule with each insert's links as they were left. */
  ghost function Now(was: Inserts, at: map<Ptr, set<Ptr>>): Inserts {
    map p | p in was && p in at :: Insert(was[p].direct, Without(was[p].links, at[p]))
  }

  /** Nothing holds the insert any more. */
  ghost predicate Unheld(was: Inserts, p: Ptr, gone: set<Ptr>) {
    p in was && !was[p].direct && was[p].links != [] && Without(was[p].links, gone) == []
  }

  ghost function ScanOne(was: Inserts, c: Scan, p: Ptr): Scan {
    if p in c.gone then c
    else if Unheld(was, p, c.gone) then Scan(c.at[p := c.gone], c.gone + {p}, true)
    else c.(at := c.at[p := c.gone])
  }

  ghost function ScanAll(was: Inserts, c: Scan, order: seq<Ptr>): Scan {
    if order == [] then c else ScanOne(was, ScanAll(was, c, order[..|order| - 1]), order[|order| - 1])
  }

  ghost predicate Needed(was: Inserts, initial: set<Ptr>, gone: set<Ptr>) {
    forall other: set<Ptr> :: initial <= other && ClosedUnder(was, other) ==> gone <= other
  }

  /** What is gone had to go, links were only held against what is gone, and what is left was still held then. */
  ghost predicate Sound(was: Inserts, initial: set<Ptr>, c: Scan) {
    && c.at.Keys == was.Keys && initial <= c.gone <= was.Keys
    && (forall p :: p in was ==> c.at[p] <= c.gone)
    && (forall p :: p in was && p !in c.gone ==> !Unheld(was, p, c.at[p]))
    && Needed(was, initial, c.gone)
  }

  /** Each of these inserts is gone, or its links were held against everything that is. */
  ghost predicate ScanSettled(c: Scan, order: seq<Ptr>) {
    forall p :: p in order && p !in c.gone ==> p in c.at && c.at[p] == c.gone
  }

  lemma UnheldIsOrphaned(was: Inserts, p: Ptr, gone: set<Ptr>)
    requires p in was
    ensures Unheld(was, p, gone) <==> Orphaned(was, p, gone)
  {
    AllGone(was[p].links, gone);
  }

  lemma ScanOneKeeps(was: Inserts, initial: set<Ptr>, c: Scan, p: Ptr)
    requires Sound(was, initial, c) && p in was
    ensures Sound(was, initial, ScanOne(was, c, p))
  {
    UnheldIsOrphaned(was, p, c.gone);
    if p !in c.gone && Unheld(was, p, c.gone) {
      forall other: set<Ptr> | initial <= other && ClosedUnder(was, other)
        ensures p in other
      {
        assert c.gone <= other;
        assert Orphaned(was, p, other);
      }
    }
  }

  /** A pass cancels only what has to go. */
  lemma {:induction false} ScanAllKeeps(was: Inserts, initial: set<Ptr>, c: Scan, order: seq<Ptr>)
    requires Sound(was, initial, c) && forall p :: p in order ==> p in was
    ensures Sound(was, initial, ScanAll(was, c, order))
  {
    if order != [] {
      ScanAllKeeps(was, initial, c, order[..|order| - 1]);
      ScanOneKeeps(was, initial, ScanAll(was, c, order[..|order| - 1]), order[|order| - 1]);
    }
  }

  /** A pass that cancels nothing has held every insert's links against all that is gone. */
  lemma {:induction false} QuietPass(was: Inserts, c: Scan, order: seq<Ptr>)
    ensures var r := ScanAll(was, c, order); !r.changed ==> !c.changed && r.gone == c.gone && ScanSettled(r, order)
  {
    if order != [] {
      var front, p := order[..|order| - 1], order[|order| - 1];
      QuietPass(was, c, front);
      assert order == front + [p];
    }
  }

  /** How many scheduled inserts are not cancelled. */
  ghost function Left(order: seq<Ptr>, gone: set<Ptr>): nat {
    |Outside(order, gone)|
  }

  lemma {:induction false} LeftFalls(order: seq<Ptr>, gone: set<Ptr>, p: Ptr)
    requires p !in gone
    ensures Left(order, gone + {p}) <= Left(order, gone)
    ensures p in order ==> Left(order, gone + {p}) < Left(order, gone)
  {
    if order != [] {
      LeftFalls(order[..|order| - 1], gone, p);
      assert order == order[..|order| - 1] + [order[|order| - 1]];
    }
  }

  lemma {:induction false} LeftShrinks(order: seq<Ptr>, gone: set<Ptr>, more: set<Ptr>)
    requires gone <= more
    ensures Left(order, more) <= Left(order, gone)
  {
    if order != [] {
      LeftShrinks(order[..|order| - 1], gone, more);
    }
  }

  lemma {:induction false} PassShrinks(was: Inserts, c: Scan, order: seq<Ptr>, all: seq<Ptr>)
    requires !c.changed && forall p :: p in order ==> p in all
    ensures ScanAll(was, c, order).changed ==> Left(all, ScanAll(was, c, order).gone) < Left(all, c.gone)
  {
    if order != [] {
      var front, p := order[..|order| - 1], order[|order| - 1];
      QuietPass(was, c, front);
      PassShrinks(was, c, front, all);
      var mid := ScanAll(was, c, front);
      if p !in mid.gone {
        LeftFalls(all, mid.gone, p);
      }
    }
  }

  /** A pass that cancelled nothing has reached the fixpoint. */
  lemma QuietPassEnds(was: Inserts, initial: set<Ptr>, c: Scan, order: seq<Ptr>)
    requires Sound(was, initial, c) && ScanSettled(c, order) && forall p :: p in was ==> p in order
    ensures Cancelled(was, initial, c.gone)
    ensures Now(was, c.at) - c.gone == Survivors(was, c.gone)
  {
    forall p | p in was && Orphaned(was, p, c.gone)
      ensures p in c.gone
    {
      UnheldIsOrphaned(was, p, c.gone);
    }
  }

  lemma NothingScanned(was: Inserts, initial: set<Ptr>)
    requires initial <= was.Keys
    ensures var c := Scan(map p | p in was :: {}, initial, false); Sound(was, initial, c) && Now(was, c.at) == was
  {
    forall p | p in was
      ensures Without(was[p].links, {}) == was[p].links
    {
      WithoutNone(was[p].links, {});
    }
  }

  function Members(order: seq<Ptr>): set<Ptr> { set p | p in order }

  ghost function DroppedFrom(was: Inserts, scanned: seq<Ptr>, cancelled: set<Ptr>): Inserts {
    was - (cancelled * Members(scanned))
  }

  lemma DropNext(was: Inserts, order: seq<Ptr>, cancelled: set<Ptr>, i: nat)
    requires i < |order|
    ensures DroppedFrom(was, order[..i + 1], cancelled) ==
            DroppedFrom(was, order[..i], cancelled) - (if order[i] in cancelled then {order[i]} else {})
  {
    assert order[..i + 1] == order[..i] + [order[i]];
  }

  lemma DroppedAll(was: Inserts, order: seq<Ptr>, cancelled: set<Ptr>)
    requires cancelled <= was.Keys && forall p :: p in was ==> p in order
    ensures DroppedFrom(was, order, cancelled) == was - cancelled
  {
    assert cancelled * Members(order) == cancelled;
  }

  lemma {:induction false} OutsideIsDistinct(order: seq<Ptr>, gone: set<Ptr>)
    requires forall i, j :: 0 <= i < j < |order| ==> order[i] != order[j]
    ensures forall p :: p in Outside(order, gone) <==> p in order && p !in gone
    ensures forall i, j :: 0 <= i < j < |Outside(order, gone)| ==> Outside(order, gone)[i] != Outside(order, gone)[j]
  {
    if order != [] {
      var front, last := order[..|order| - 1], order[|order| - 1];
      OutsideIsDistinct(front, gone);
      assert order == front + [last];
      assert last !in Outside(front, gone);
    }
  }

  /** The next scan of a pass finds what it needs. */
  lemma PassStep(was: Inserts, initial: set<Ptr>, start: Scan, order: seq<Ptr>, i: nat)
    requires Sound(was, initial, start) && i < |order| && forall p :: p in order ==> p in was
    ensures var c := ScanAll(was, start, order[..i]);
            && ScanAll(was, start, order[..i + 1]) == ScanOne(was, c, order[i])
            && order[i] in was && c.at.Keys == was.Keys && c.gone <= was.Keys
            && (order[i] !in c.gone ==> c.at[order[i]] <= c.gone && !Unheld(was, order[i], c.at[order[i]]))
  {
    assert order[i] in order && order[..i + 1][..i] == order[..i];
    ScanAllKeeps(was, initial, start, order[..i]);
  }

  lemma NowStep(was: Inserts, at: map<Ptr, set<Ptr>>, p: Ptr, gone: set<Ptr>)
    requires p in was && at.Keys == was.Keys
    ensures Now(was, at[p := gone]) == Now(was, at)[p := Insert(was[p].direct, Without(was[p].links, gone))]
  {
  }

  /** What the scan of one insert reads and leaves. */
  lemma KeptIsScanned(was: Inserts, c: Scan, p: Ptr)
    requires p in was && p in c.at && c.at[p] <= c.gone && !Unheld(was, p, c.at[p])
    ensures var links := Now(was, c.at)[p].links;
            var kept := Without(links, c.gone);
            && kept == Without(was[p].links, c.gone)
            && (|kept| != |links| && !was[p].direct && kept == [] <==> Unheld(was, p, c.gone))
  {
    WithoutTwice(was[p].links, c.at[p], c.gone);
    WithoutNone(Now(was, c.at)[p].links, c.gone);
    WithoutNone(was[p].links, c.at[p]);
  }

  // --- the schedule --------------------------------------------------------------------------------------

  class UnitOfWork {
    var inserts: seq<Ptr>
    var insertOf: Inserts
    var removes: seq<Ptr>

    constructor ()
      ensures Valid() && inserts == [] && removes == []
    {
      inserts, insertOf, removes := [], map[], [];
    }

    ghost predicate Valid()
      reads this
    {
      && (forall p :: p in inserts <==> p in insertOf)
      && (forall i, j :: 0 <= i < j < |inserts| ==> inserts[i] != inserts[j])
      && (forall i, j :: 0 <= i < j < |removes| ==> removes[i] != removes[j])
    }

    /** The links of one insert without those whose owner is cancelled. */
    method KeptLinks(links: seq<CascadeLink>, cancelled: set<Ptr>) returns (kept: seq<CascadeLink>)
      requires cancelled <= insertOf.Keys
      ensures kept == Without(links, cancelled)
    {
      kept := [];
      for i := 0 to |links|
        invariant kept == Without(links[..i], cancelled)
      {
        var link := links[i];
        assert links[..i + 1][..i] == links[..i];
        if link.owner !in insertOf || link.owner !in cancelled {
          kept := kept + [link];
        }
      }
      assert links[..|links|] == links;
    }

    /** The fields say what the scan says. */
    ghost predicate Shows(was: Inserts, c: Scan, cancelled: set<Ptr>, changed: bool)
      reads this
    {
      insertOf == Now(was, c.at) && cancelled == c.gone && changed == c.changed
    }

    /** One insert looked at: it loses its links to what is cancelled, and goes too if that leaves it nothing. */
    method ScanInsert(p: Ptr, before: set<Ptr>, already: bool, ghost was: Inserts, ghost c: Scan)
      returns (cancelled: set<Ptr>, changed: bool)
      requires Shows(was, c, before, already) && p in was && c.at.Keys == was.Keys && before <= was.Keys
      requires p !in c.gone ==> c.at[p] <= c.gone && !Unheld(was, p, c.at[p])
      modifies `insertOf
      ensures Shows(was, ScanOne(was, c, p), cancelled, changed)
    {
      cancelled, changed := before, already;
      if p !in cancelled {
        var links := insertOf[p].links;
        var kept := KeptLinks(links, cancelled);
        KeptIsScanned(was, c, p);
        NowStep(was, c.at, p, c.gone);
        var direct := insertOf[p].direct;
        insertOf := insertOf[p := Insert(direct, kept)];
        if |kept| != |links| && !direct && kept == [] {
          cancelled := cancelled + {p};
          changed := true;
        }
      }
    }

    /** One pass over the schedule. */
    method Pass(before: set<Ptr>, ghost was: Inserts, ghost initial: set<Ptr>, ghost start: Scan)
      returns (cancelled: set<Ptr>, changed: bool)
      requires Valid() && Sound(was, initial, start) && Shows(was, start, before, false)
      modifies `insertOf
      ensures Shows(was, ScanAll(was, start, inserts), cancelled, changed)
    {
      cancelled, changed := before, false;
      assert forall p :: p in inserts ==> p in was;
      for i := 0 to |inserts|
        invariant Shows(was, ScanAll(was, start, inserts[..i]), cancelled, changed)
      {
        PassStep(was, initial, start, inserts, i);
        ghost var c := ScanAll(was, start, inserts[..i]);
        cancelled, changed := ScanInsert(inserts[i], cancelled, changed, was, c);
      }
      assert inserts[..|inserts|] == inserts;
    }

    /** Passes until one changes nothing. */
    method Spread(initial: set<Ptr>) returns (cancelled: set<Ptr>)
      requires Valid() && initial <= insertOf.Keys
      modifies `insertOf
      ensures Cancelled(old(insertOf), initial, cancelled)
      ensures insertOf.Keys == old(insertOf).Keys && insertOf - cancelled == Survivors(old(insertOf), cancelled)
    {
      ghost var was := insertOf;
      ghost var c := Scan(map p | p in was :: {}, initial, false);
      NothingScanned(was, initial);
      cancelled := initial;
      var changed := initial != {};
      while changed
        invariant Sound(was, initial, c) && insertOf == Now(was, c.at) && c.gone == cancelled
        invariant !changed ==> ScanSettled(c, inserts)
        decreases Left(inserts, cancelled), changed
      {
        ghost var start := c.(changed := false);
        cancelled, changed := Pass(cancelled, was, initial, start);
        c := ScanAll(was, start, inserts);
        ScanAllKeeps(was, initial, start, inserts);
        QuietPass(was, start, inserts);
        PassShrinks(was, start, inserts, inserts);
      }
      QuietPassEnds(was, initial, c, inserts);
    }

    /** Drops scheduled inserts and, transitively, those only their persist cascades had scheduled. */
    method Cancel(initial: set<Ptr>) returns (ghost gone: set<Ptr>)
      requires Valid() && initial <= insertOf.Keys
      modifies `inserts, `insertOf
      ensures Valid() && Cancelled(old(insertOf), initial, gone)
      ensures insertOf == Survivors(old(insertOf), gone) && inserts == Outside(old(inserts), gone)
    {
      var cancelled := Spread(initial);
      gone := cancelled;
      Rebuild(cancelled);
    }

    /** Empties the schedule, once a flush has written it. */
    method Clear()
      modifies this
      ensures Valid() && inserts == [] && insertOf == map[] && removes == []
    {
      inserts, insertOf, removes := [], map[], [];
    }

    /** Takes the cancelled inserts off the schedule. */
    method Rebuild(cancelled: set<Ptr>)
      requires Valid() && cancelled <= insertOf.Keys
      modifies `inserts, `insertOf
      ensures Valid() && inserts == Outside(old(inserts), cancelled) && insertOf == old(insertOf) - cancelled
    {
      var scheduled := inserts;
      var remaining: seq<Ptr> := [];
      ghost var was := insertOf;
      for i := 0 to |scheduled|
        invariant inserts == scheduled == old(inserts)
        invariant remaining == Outside(scheduled[..i], cancelled)
        invariant insertOf == DroppedFrom(was, scheduled[..i], cancelled)
      {
        DropNext(was, scheduled, cancelled, i);
        assert scheduled[..i + 1][..i] == scheduled[..i];
        if scheduled[i] in cancelled {
          insertOf := insertOf - {scheduled[i]};
        } else {
          remaining := remaining + [scheduled[i]];
        }
      }
      assert scheduled[..|scheduled|] == scheduled;
      inserts := remaining;
      OutsideIsDistinct(scheduled, cancelled);
      DroppedAll(was, scheduled, cancelled);
    }
  }
}
