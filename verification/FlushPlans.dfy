/** The whole plan of a flush: what is pending, what is dirty, and the order of the three phases. */
module FlushPlans {
  import opened Values
  import opened Entities
  import opened IdentityMap
  import opened Writes
  import opened Calls
  import opened Phases
  import opened Planning
  import Ordering
  import Schedule
  import Discovery
  import Components
  import Statements

  // --- pending work ------------------------------------------------------------------------------------

  /** The tracked, or the untracked, of the scheduled instances. */
  function Those(ids: IdMap, list: seq<Ptr>, tracked: bool): (those: seq<Ptr>)
    ensures forall p :: p in those <==> p in list && EntryOf(ids, p).Some? == tracked
    ensures EachOnce(list) ==> EachOnce(those)
  {
    if list == [] then []
    else
      var front, last := list[..|list| - 1], list[|list| - 1];
      assert list == front + [last];
      Those(ids, front, tracked) + (if EntryOf(ids, last).Some? == tracked then [last] else [])
  }

  /** The first comes before the second in the list. */
  ghost predicate Sooner(list: seq<Ptr>, p: Ptr, q: Ptr) {
    exists i, j :: 0 <= i < j < |list| && list[i] == p && list[j] == q
  }

  lemma {:induction false} ThoseInOrder(ids: IdMap, list: seq<Ptr>, tracked: bool, a: nat, b: nat)
    requires a < b < |Those(ids, list, tracked)|
    ensures Sooner(list, Those(ids, list, tracked)[a], Those(ids, list, tracked)[b])
  {
    var front, last, those := list[..|list| - 1], list[|list| - 1], Those(ids, list, tracked);
    if b < |Those(ids, front, tracked)| {
      ThoseInOrder(ids, front, tracked, a, b);
      var i, j :| 0 <= i < j < |front| && front[i] == those[a] && front[j] == those[b];
      assert list[i] == those[a] && list[j] == those[b];
    } else {
      assert those[a] in front;
      var i :| 0 <= i < |front| && front[i] == those[a];
      assert list[i] == those[a] && list[|list| - 1] == those[b];
    }
  }

  /** An insert written since it was scheduled is tracked, a removal deleted since is not: both are done. */
  method PendingWork(ids: IdMap, inserts: seq<Ptr>, removes: seq<Ptr>) returns (toInsert: seq<Ptr>, toDelete: seq<Ptr>)
    ensures toInsert == Those(ids, inserts, false) && toDelete == Those(ids, removes, true)
  {
    toInsert := [];
    for i := 0 to |inserts|
      invariant toInsert == Those(ids, inserts[..i], false)
    {
      assert inserts[..i + 1][..i] == inserts[..i];
      if EntryOf(ids, inserts[i]).None? {
        toInsert := toInsert + [inserts[i]];
      }
    }
    assert inserts[..|inserts|] == inserts;
    toDelete := PendingRemoves(ids, removes);
  }

  method PendingRemoves(ids: IdMap, removes: seq<Ptr>) returns (toDelete: seq<Ptr>)
    ensures toDelete == Those(ids, removes, true)
  {
    toDelete := [];
    for i := 0 to |removes|
      invariant toDelete == Those(ids, removes[..i], true)
    {
      assert removes[..i + 1][..i] == removes[..i];
      if EntryOf(ids, removes[i]).Some? {
        toDelete := toDelete + [removes[i]];
      }
    }
    assert removes[..|removes|] == removes;
  }

  // --- dirty entries -------------------------------------------------------------------------------------

  predicate Registered(ids: IdMap, x: Entry) {
    EntryOf(ids, x.ptr) == Some(x)
  }

  /** An update would write something of the instance, and it is not scheduled for removal. */
  predicate IsDirty(e: Env, mem: Mem, removes: seq<Ptr>, x: Entry) {
    x.ptr !in removes && Dirty(SnapshotOf(mem.ids, x), InstOf(mem, x.ptr), WritableColumns(MapOf(e, x.etype))) != []
  }

  /** The tracked instance holds an updatable property otherwise than its snapshot, and is not to be removed. */
  ghost predicate IsEdited(e: Env, mem: Mem, removes: seq<Ptr>, x: Entry) {
    x.ptr !in removes &&
    exists prop :: Statements.Edited(MapOf(e, x.etype), SnapshotOf(mem.ids, x), InstOf(mem, x.ptr), prop)
  }

  lemma DirtyIsEdited(e: Env, mem: Mem, removes: seq<Ptr>, x: Entry)
    ensures IsDirty(e, mem, removes, x) <==> IsEdited(e, mem, removes, x)
  {
    Statements.DirtyIsEdited(MapOf(e, x.etype), SnapshotOf(mem.ids, x), InstOf(mem, x.ptr));
  }

  predicate EntryBefore(ranks: Ranks, a: Entry, b: Entry) {
    Rank(ranks, a.etype) < Rank(ranks, b.etype) || (Rank(ranks, a.etype) == Rank(ranks, b.etype) && a.seqNo < b.seqNo)
  }

  ghost predicate InEntryOrder(ranks: Ranks, s: seq<Entry>) {
    forall i, j :: 0 <= i < j < |s| ==> EntryBefore(ranks, s[i], s[j])
  }

  /** There is one list of given entries in order of type rank and registration. */
  lemma {:induction false} EntryOrderIsUnique(ranks: Ranks, a: seq<Entry>, b: seq<Entry>)
    requires InEntryOrder(ranks, a) && InEntryOrder(ranks, b) && forall x :: x in a <==> x in b
    ensures a == b
  {
    if a == [] {
      FirstIsIn(b);
    } else {
      assert a[0] in b && b[0] in a by {
        assert a[0] in a;
        assert b != [] && b[0] in b;
      }
      var i :| 0 <= i < |b| && b[i] == a[0];
      var j :| 0 <= j < |a| && a[j] == b[0];
      assert i == 0;
      forall x
        ensures x in a[1..] <==> x in b[1..]
      {
        TailHasRest(ranks, a, x);
        TailHasRest(ranks, b, x);
      }
      EntryOrderIsUnique(ranks, a[1..], b[1..]);
      assert a == [a[0]] + a[1..] && b == [b[0]] + b[1..];
    }
  }

  lemma FirstIsIn(s: seq<Entry>)
    ensures s != [] ==> s[0] in s
  {
  }

  lemma TailHasRest(ranks: Ranks, s: seq<Entry>, x: Entry)
    requires s != [] && InEntryOrder(ranks, s)
    ensures x in s[1..] <==> x in s && x != s[0]
  {
    assert s == [s[0]] + s[1..];
    if x in s[1..] {
      var i :| 0 <= i < |s[1..]| && s[1..][i] == x;
      assert EntryBefore(ranks, s[0], s[i + 1]);
    }
  }

  lemma InsertedIsSorted(ranks: Ranks, sorted: seq<Entry>, at: nat, x: Entry)
    requires InEntryOrder(ranks, sorted) && at <= |sorted|
    requires forall i :: 0 <= i < at ==> EntryBefore(ranks, sorted[i], x)
    requires at < |sorted| ==> EntryBefore(ranks, x, sorted[at])
    ensures InEntryOrder(ranks, sorted[..at] + [x] + sorted[at..])
  {
    var longer := sorted[..at] + [x] + sorted[at..];
    forall i, j | 0 <= i < j < |longer|
      ensures EntryBefore(ranks, longer[i], longer[j])
    {
      if i == at {
        assert at < j - 1 ==> EntryBefore(ranks, sorted[at], sorted[j - 1]);
      } else if j != at {
        var m, n := if i < at then i else i - 1, if j < at then j else j - 1;
        assert longer[i] == sorted[m] && longer[j] == sorted[n];
      }
    }
  }

  lemma InsertedHas(sorted: seq<Entry>, at: nat, x: Entry, y: Entry)
    requires at <= |sorted|
    ensures y in sorted[..at] + [x] + sorted[at..] <==> y in sorted || y == x
  {
    assert sorted == sorted[..at] + sorted[at..];
  }

  method InsertSorted(ranks: Ranks, sorted: seq<Entry>, x: Entry) returns (longer: seq<Entry>)
    requires InEntryOrder(ranks, sorted) && forall y :: y in sorted ==> y.seqNo != x.seqNo
    ensures InEntryOrder(ranks, longer) && forall y :: y in longer <==> y in sorted || y == x
  {
    var at := 0;
    while at < |sorted| && EntryBefore(ranks, sorted[at], x)
      invariant at <= |sorted| && forall i :: 0 <= i < at ==> EntryBefore(ranks, sorted[i], x)
    {
      at := at + 1;
    }
    assert at < |sorted| ==> sorted[at] in sorted;
    InsertedIsSorted(ranks, sorted, at, x);
    forall y
      ensures y in sorted[..at] + [x] + sorted[at..] <==> y in sorted || y == x
    {
      InsertedHas(sorted, at, x, y);
    }
    longer := sorted[..at] + [x] + sorted[at..];
  }

  /** Sorted by type rank, then registration. */
  method SortEntries(ranks: Ranks, entries: seq<Entry>) returns (sorted: seq<Entry>)
    requires forall i, j :: 0 <= i < j < |entries| ==> entries[i].seqNo != entries[j].seqNo
    ensures InEntryOrder(ranks, sorted) && forall x :: x in sorted <==> x in entries
  {
    sorted := [];
    for i := 0 to |entries|
      invariant InEntryOrder(ranks, sorted) && forall x :: x in sorted <==> x in entries[..i]
    {
      assert entries[..i + 1] == entries[..i] + [entries[i]];
      sorted := InsertSorted(ranks, sorted, entries[i]);
    }
    assert entries[..|entries|] == entries;
  }

  lemma NumbersApart(ids: IdMap, entries: seq<Entry>, rest: set<Ptr>, x: Entry)
    requires Consistent(ids) && Numbered(ids) && Registered(ids, x) && x.ptr in rest
    requires forall y :: y in entries ==> Registered(ids, y) && y.ptr !in rest
    ensures forall y :: y in entries ==> y.seqNo != x.seqNo
  {
    forall y | y in entries
      ensures y.seqNo != x.seqNo
    {
      assert ids.byPtr[y.ptr] == y && ids.byPtr[x.ptr] == x;
    }
  }

  /** Every tracked entry, in registration order. */
  method AllEntries(ids: IdMap) returns (entries: seq<Entry>)
    requires Consistent(ids) && Numbered(ids)
    ensures InEntryOrder(map[], entries) && forall x :: x in entries <==> Registered(ids, x)
  {
    var rest := ids.byPtr.Keys;
    entries := [];
    while rest != {}
      invariant rest <= ids.byPtr.Keys
      invariant InEntryOrder(map[], entries) && forall x :: x in entries <==> Registered(ids, x) && x.ptr !in rest
      decreases |rest|
    {
      var p :| p in rest;
      var x := ids.byPtr[p];
      NumbersApart(ids, entries, rest, x);
      entries := InsertSorted(map[], entries, x);
      rest := rest - {p};
    }
  }

  /** The dirty ones, in the entries' order. */
  method DirtyEntries(e: Env, mem: Mem, removes: seq<Ptr>) returns (dirty: seq<Entry>)
    requires Consistent(mem.ids) && Numbered(mem.ids)
    ensures InEntryOrder(map[], dirty) && forall x :: x in dirty <==>
              Registered(mem.ids, x) && IsEdited(e, mem, removes, x)
  {
    var entries := AllEntries(mem.ids);
    dirty := [];
    for i := 0 to |entries|
      invariant InEntryOrder(map[], dirty) && forall x :: x in dirty <==>
                  x in entries[..i] && IsDirty(e, mem, removes, x)
    {
      assert entries[..i + 1] == entries[..i] + [entries[i]];
      forall x | x in dirty
        ensures EntryBefore(map[], x, entries[i])
      {
        var k :| 0 <= k < i && entries[k] == x;
      }
      if IsDirty(e, mem, removes, entries[i]) {
        dirty := dirty + [entries[i]];
      }
    }
    assert entries[..|entries|] == entries;
    forall x
      ensures IsDirty(e, mem, removes, x) <==> IsEdited(e, mem, removes, x)
    {
      DirtyIsEdited(e, mem, removes, x);
    }
  }

  // --- the ranks the orders use ------------------------------------------------------------------------------

  function KindOf(kind: RelationKind): Discovery.Kind {
    match kind
    case ManyToOne => Discovery.ManyToOne
    case OneToOne => Discovery.OneToOne
    case OneToMany => Discovery.OneToMany
    case ManyToMany => Discovery.ManyToMany
  }

  function RelationsOf(m: EntityMap): seq<Discovery.Relation> {
    seq(|m.relationships|,
        i requires 0 <= i < |m.relationships| => Discovery.Relation(KindOf(m.relationships[i].kind),
                                                                    m.relationships[i].target))
  }

  /** The mapped types, numbered from zero. */
  function MappingsOf(e: Env, types: nat): Discovery.Mappings {
    seq(types, t requires 0 <= t < types => RelationsOf(MapOf(e, t)))
  }

  /** Every type the session meets is one of the mapped ones. */
  ghost predicate TypesMapped(e: Env, types: nat, ids: IdMap) {
    && (forall t: nat, r :: t < types && r in MapOf(e, t).relationships ==> r.target < types)
    && (forall p :: TypeOf(e, p) < types)
    && (forall p :: p in ids.byPtr ==> ids.byPtr[p].etype == TypeOf(e, p))
  }

  /**
   In a flush's ranks a type stands no lower than one its rows hold a key of, whichever side declares the
   relationship.
   */
  lemma RanksFollowKeys(e: Env, types: nat, seeds: set<nat>, ranks: Ranks, t: TypeId, k: nat)
    requires Discovery.RankingOf(MappingsOf(e, types), seeds, ranks) && t in ranks && t < types
    requires k < |MapOf(e, t).relationships|
    ensures var r := MapOf(e, t).relationships[k];
            && (r.kind == ManyToOne ==> r.target in ranks && ranks[r.target] <= ranks[t])
            && (r.kind in {OneToMany, OneToOne} ==> r.target in ranks && ranks[t] <= ranks[r.target])
  {
    if MapOf(e, t).relationships[k].kind != ManyToMany {
      Discovery.RanksFollow(MappingsOf(e, types), seeds, ranks, t, k);
    }
  }

  /** The types the plan is for: those of the pending and of the dirty. */
  ghost function Seeds(e: Env, toInsert: seq<Ptr>, dirty: seq<Entry>, toDelete: seq<Ptr>): set<nat> {
    (set p | p in toInsert :: TypeOf(e, p)) + (set p | p in toDelete :: TypeOf(e, p)) + (set x | x in dirty :: x.etype)
  }

  method SeedTypes(e: Env, toInsert: seq<Ptr>, dirty: seq<Entry>, toDelete: seq<Ptr>) returns (seeds: seq<nat>)
    ensures Components.Members(seeds) == Seeds(e, toInsert, dirty, toDelete)
  {
    seeds := seq(|toInsert|, i requires 0 <= i < |toInsert| => TypeOf(e, toInsert[i]))
             + seq(|toDelete|, i requires 0 <= i < |toDelete| => TypeOf(e, toDelete[i]))
             + seq(|dirty|, i requires 0 <= i < |dirty| => dirty[i].etype);
    forall t | t in Seeds(e, toInsert, dirty, toDelete)
      ensures t in seeds
    {
      if p: Ptr :| p in toInsert && TypeOf(e, p) == t {
        var i :| 0 <= i < |toInsert| && toInsert[i] == p;
        assert seeds[i] == t;
      } else if p: Ptr :| p in toDelete && TypeOf(e, p) == t {
        var i :| 0 <= i < |toDelete| && toDelete[i] == p;
        assert seeds[|toInsert| + i] == t;
      } else {
        var x :| x in dirty && x.etype == t;
        var i :| 0 <= i < |dirty| && dirty[i] == x;
        assert seeds[|toInsert| + |toDelete| + i] == t;
      }
    }
  }

  lemma MappingsAreLoaded(e: Env, types: nat, ids: IdMap)
    requires TypesMapped(e, types, ids)
    ensures Discovery.TargetsMapped(MappingsOf(e, types))
  {
    forall t, k | 0 <= t < types && 0 <= k < |MappingsOf(e, types)[t]|
      ensures MappingsOf(e, types)[t][k].target < types
    {
      assert MapOf(e, t).relationships[k] in MapOf(e, t).relationships;
    }
  }

  // --- the plan ------------------------------------------------------------------------------------------------

  datatype FlushPlan = FlushPlan(inserts: seq<Ptr>, dirty: seq<Entry>, deletes: seq<Ptr>)

  /** The plan, or UOW-004 with the types of the instances left unordered. */
  datatype Planned = Planned(plan: FlushPlan) | Blocked(types: set<TypeId>)

  /** The schedule a flush starts from. */
  datatype Work = Work(inserts: seq<Ptr>, insertOf: Schedule.Inserts, removes: seq<Ptr>)

  ghost predicate PlanWith(e: Env, types: nat, mem: Mem, work: Work, ranks: Ranks, plan: FlushPlan) {
    var toInsert, toDelete := Those(mem.ids, work.inserts, false), Those(mem.ids, work.removes, true);
    && Discovery.RankingOf(MappingsOf(e, types), Seeds(e, toInsert, plan.dirty, toDelete), ranks)
    && PhaseOrder(toInsert, InsertWaits(e, work.insertOf), InsertLess(e, ranks, toInsert), plan.inserts)
    && PhaseOrder(toDelete, DeleteWaits(e), DeleteLess(e, ranks, toDelete), plan.deletes)
    && InEntryOrder(ranks, plan.dirty)
    && forall x :: x in plan.dirty <==> Registered(mem.ids, x) && IsEdited(e, mem, work.removes, x)
  }

  ghost predicate PlanFor(e: Env, types: nat, mem: Mem, work: Work, plan: FlushPlan) {
    exists ranks :: PlanWith(e, types, mem, work, ranks, plan)
  }

  lemma RanksAreUnique(e: Env, types: nat, mem: Mem, work: Work, ra: Ranks, rb: Ranks, a: FlushPlan, b: FlushPlan)
    requires PlanWith(e, types, mem, work, ra, a) && PlanWith(e, types, mem, work, rb, b)
    ensures ra == rb
  {
    var toInsert, toDelete := Those(mem.ids, work.inserts, false), Those(mem.ids, work.removes, true);
    assert Seeds(e, toInsert, a.dirty, toDelete) == Seeds(e, toInsert, b.dirty, toDelete);
    Discovery.SeedsDecide(MappingsOf(e, types), Seeds(e, toInsert, a.dirty, toDelete), ra, rb);
  }

  lemma RankedPlanIsUnique(e: Env, types: nat, mem: Mem, work: Work, ranks: Ranks, a: FlushPlan, b: FlushPlan)
    requires PlanWith(e, types, mem, work, ranks, a) && PlanWith(e, types, mem, work, ranks, b)
    ensures a == b
  {
    var toInsert, toDelete := Those(mem.ids, work.inserts, false), Those(mem.ids, work.removes, true);
    LessIsTotal(e, ranks, toInsert);
    LessIsTotal(e, ranks, toDelete);
    PhaseOrderIsUnique(toInsert, InsertWaits(e, work.insertOf), InsertLess(e, ranks, toInsert), a.inserts, b.inserts);
    PhaseOrderIsUnique(toDelete, DeleteWaits(e), DeleteLess(e, ranks, toDelete), a.deletes, b.deletes);
    EntryOrderIsUnique(ranks, a.dirty, b.dirty);
  }

  /** The session and its schedule decide the plan. */
  lemma PlanIsUnique(e: Env, types: nat, mem: Mem, work: Work, a: FlushPlan, b: FlushPlan)
    requires PlanFor(e, types, mem, work, a) && PlanFor(e, types, mem, work, b)
    ensures a == b
  {
    var ra :| PlanWith(e, types, mem, work, ra, a);
    var rb :| PlanWith(e, types, mem, work, rb, b);
    RanksAreUnique(e, types, mem, work, ra, rb, a, b);
    RankedPlanIsUnique(e, types, mem, work, ra, a, b);
  }

  ghost predicate InsertsBlocked(e: Env, mem: Mem, work: Work) {
    HasCycle(Those(mem.ids, work.inserts, false), InsertWaits(e, work.insertOf))
  }

  ghost predicate DeletesBlocked(e: Env, mem: Mem, work: Work) {
    HasCycle(Those(mem.ids, work.removes, true), DeleteWaits(e))
  }

  ghost predicate IsBlocked(e: Env, mem: Mem, work: Work) {
    InsertsBlocked(e, mem, work) || DeletesBlocked(e, mem, work)
  }

  function TypesOf(e: Env, list: seq<Ptr>): set<TypeId> {
    set p | p in list :: TypeOf(e, p)
  }

  /**
   Of inserts that wait for one another the types are those of such instances, and perhaps more; of deletes, those
   of all pending.
   */
  ghost predicate BlockedBy(e: Env, mem: Mem, work: Work, types: set<TypeId>) {
    if InsertsBlocked(e, mem, work) then
      HasCycleOf(e, Those(mem.ids, work.inserts, false), InsertWaits(e, work.insertOf), types)
    else DeletesBlocked(e, mem, work) && types == TypesOf(e, Those(mem.ids, work.removes, true))
  }

  /** Orders the schedule, finds what is dirty, and refuses exactly when a phase's instances wait for one another. */
  method PlanFlush(e: Env, types: nat, mem: Mem, work: Work) returns (r: Planned)
    requires Consistent(mem.ids) && Numbered(mem.ids) && TypesMapped(e, types, mem.ids)
    requires EachOnce(work.inserts) && EachOnce(work.removes)
    ensures r.Planned? ==> PlanFor(e, types, mem, work, r.plan)
    ensures r.Blocked? <==> IsBlocked(e, mem, work)
    ensures r.Blocked? ==> BlockedBy(e, mem, work, r.types)
  {
    var toInsert, toDelete := PendingWork(mem.ids, work.inserts, work.removes);
    var dirty := DirtyEntries(e, mem, work.removes);
    var ranks := RankWork(e, types, mem.ids, toInsert, dirty, toDelete);
    var inserts := OrderInserts(e, ranks, toInsert, work.insertOf);
    if inserts.Cyclic? {
      return Blocked(inserts.types);
    }
    var deletes := OrderDeletes(e, ranks, toDelete);
    if deletes.Cyclic? {
      return Blocked(deletes.types);
    }
    var updates := SortDirty(ranks, dirty);
    SameSeeds(e, toInsert, dirty, updates, toDelete);
    r := Planned(FlushPlan(inserts.list, updates, deletes.list));
    assert PlanWith(e, types, mem, work, ranks, r.plan);
  }

  lemma SameSeeds(e: Env, toInsert: seq<Ptr>, dirty: seq<Entry>, updates: seq<Entry>, toDelete: seq<Ptr>)
    requires forall x :: x in updates <==> x in dirty
    ensures Seeds(e, toInsert, updates, toDelete) == Seeds(e, toInsert, dirty, toDelete)
  {
  }

  method SortDirty(ranks: Ranks, dirty: seq<Entry>) returns (updates: seq<Entry>)
    requires InEntryOrder(map[], dirty)
    ensures InEntryOrder(ranks, updates) && forall x :: x in updates <==> x in dirty
  {
    forall i, j | 0 <= i < j < |dirty|
      ensures dirty[i].seqNo != dirty[j].seqNo
    {
      assert EntryBefore(map[], dirty[i], dirty[j]);
    }
    updates := SortEntries(ranks, dirty);
  }

  method RankWork(e: Env, types: nat, ids: IdMap, toInsert: seq<Ptr>, dirty: seq<Entry>, toDelete: seq<Ptr>)
    returns (ranks: Ranks)
    requires TypesMapped(e, types, ids) && forall x :: x in dirty ==> Registered(ids, x)
    ensures Discovery.RankingOf(MappingsOf(e, types), Seeds(e, toInsert, dirty, toDelete), ranks)
  {
    var seeds := SeedTypes(e, toInsert, dirty, toDelete);
    MappingsAreLoaded(e, types, ids);
    forall t | t in seeds
      ensures t < types
    {
      assert t in Components.Members(seeds);
    }
    ranks := Discovery.RankSeeds(MappingsOf(e, types), seeds);
  }

  method OrderInserts(e: Env, ranks: Ranks, inserts: seq<Ptr>, insertOf: Schedule.Inserts) returns (r: Outcome)
    requires EachOnce(inserts)
    ensures r.InOrder? <==> !HasCycle(inserts, InsertWaits(e, insertOf))
    ensures r.InOrder? ==> PhaseOrder(inserts, InsertWaits(e, insertOf), InsertLess(e, ranks, inserts), r.list)
    ensures r.Cyclic? ==> HasCycleOf(e, inserts, InsertWaits(e, insertOf), r.types)
  {
    var dependencies := InsertDependencies(e, inserts, insertOf);
    LessIsTotal(e, ranks, inserts);
    r := OrderPhase(e, inserts, dependencies, InsertLess(e, ranks, inserts), InsertWaits(e, insertOf));
  }

  method OrderDeletes(e: Env, ranks: Ranks, removes: seq<Ptr>) returns (r: Outcome)
    requires EachOnce(removes)
    ensures r.InOrder? <==> !HasCycle(removes, DeleteWaits(e))
    ensures r.InOrder? ==> PhaseOrder(removes, DeleteWaits(e), DeleteLess(e, ranks, removes), r.list)
    ensures r.Cyclic? ==> r.types == TypesOf(e, removes)
  {
    var dependencies := DeleteDependencies(e, removes);
    LessIsTotal(e, ranks, removes);
    r := OrderPhase(e, removes, dependencies, DeleteLess(e, ranks, removes), DeleteWaits(e));
    if r.Cyclic? {
      r := Cyclic(TypesOf(e, removes));
    }
  }
}
