/** A flush: its plan run as one call, and the schedule it clears when the call succeeds. */
module Flushing {
  import opened Values
  import opened Entities
  import opened IdentityMap
  import opened Writes
  import opened Calls
  import opened KeyRules
  import opened Strays
  import opened Rollbacks
  import opened Arrivals
  import opened BatchCalls
  import opened Planning
  import opened FlushPlans
  import opened Refinement
  import opened RunPlans
  import opened Keeping
  import Batching
  import Messages
  import Phases
  import Restoring
  import Schedule
  import Settling

  // --- the operations of a plan ----------------------------------------------------------------------

  function InsertOps(e: Env, work: Work, inserts: seq<Ptr>): seq<Op> {
    seq(|inserts|, i requires 0 <= i < |inserts| => FlushInsert(inserts[i], LinksFor(e, work.insertOf, inserts[i])))
  }

  function UpdateOps(dirty: seq<Entry>): seq<Op> {
    seq(|dirty|, i requires 0 <= i < |dirty| => Update(dirty[i].ptr))
  }

  function DeleteOps(deletes: seq<Ptr>): seq<Op> {
    seq(|deletes|, i requires 0 <= i < |deletes| => DeleteEntity(deletes[i]))
  }

  /** Inserts, then updates, then deletes. */
  function FlushOps(e: Env, work: Work, plan: FlushPlan): seq<Op> {
    InsertOps(e, work, plan.inserts) + UpdateOps(plan.dirty) + DeleteOps(plan.deletes)
  }

  ghost predicate WellScheduled(work: Work) {
    Phases.EachOnce(work.inserts) && Phases.EachOnce(work.removes)
  }

  /** What the plan's phases hold: untracked scheduled inserts once each, tracked updates, tracked deletes. */
  lemma PlannedPhases(e: Env, types: nat, mem: Mem, work: Work, plan: FlushPlan)
    requires PlanFor(e, types, mem, work, plan) && WellScheduled(work)
    ensures Phases.EachOnce(plan.inserts) && Phases.EachOnce(plan.deletes)
    ensures forall p :: p in plan.inserts <==> p in work.inserts && EntryOf(mem.ids, p).None?
    ensures forall p :: p in plan.deletes <==> p in work.removes && EntryOf(mem.ids, p).Some?
    ensures forall x :: x in plan.dirty ==> Registered(mem.ids, x)
  {
    var ranks :| PlanWith(e, types, mem, work, ranks, plan);
    var toInsert, toDelete := Those(mem.ids, work.inserts, false), Those(mem.ids, work.removes, true);
    Phases.PhaseOrderKeeps(toInsert, InsertWaits(e, work.insertOf), InsertLess(e, ranks, toInsert), plan.inserts);
    Phases.PhaseOrderKeeps(toDelete, DeleteWaits(e), DeleteLess(e, ranks, toDelete), plan.deletes);
  }

  /** The child holds the parent by a many-to-one, or a scheduled cascade of another kind led from it to the child. */
  ghost predicate ParentOf(e: Env, work: Work, parent: Ptr, child: Ptr) {
    || (exists r :: 0 <= r < |MapFor(e, child).relationships| && MapFor(e, child).relationships[r].kind == ManyToOne &&
                    parent in Targets(e, child, r))
    || (child in work.insertOf && exists l :: l in work.insertOf[child].links && OwnerLink(e, l, parent))
  }

  ghost predicate OwnerLink(e: Env, l: Schedule.CascadeLink, owner: Ptr) {
    l.owner == owner && (l.relationship < |MapFor(e, owner).relationships| ==>
                           MapFor(e, owner).relationships[l.relationship].kind != ManyToOne)
  }

  lemma ParentIsWaitedFor(e: Env, work: Work, parent: Ptr, child: Ptr)
    ensures ParentOf(e, work, parent, child) ==> InsertWaits(e, work.insertOf)(child, parent)
  {
    if l :| child in work.insertOf && l in work.insertOf[child].links && OwnerLink(e, l, parent) {
      var links := work.insertOf[child].links;
      var i :| 0 <= i < |links| && links[i] == l;
      assert LinksFor(e, work.insertOf, child)[i] == LinkOf(e, l);
      assert OwnedBy(LinksFor(e, work.insertOf, child), parent);
    }
  }

  /** Of two inserts the parent's comes before the child's. */
  lemma ParentsComeFirst(e: Env, types: nat, mem: Mem, work: Work, plan: FlushPlan, i: nat, q: Ptr)
    requires PlanFor(e, types, mem, work, plan) && WellScheduled(work)
    requires i < |plan.inserts| && q in plan.inserts && q != plan.inserts[i] && ParentOf(e, work, q, plan.inserts[i])
    ensures q in plan.inserts[..i]
  {
    ParentIsWaitedFor(e, work, q, plan.inserts[i]);
    WaitedComeFirst(e, types, mem, work, plan, i, q);
  }

  /** A scheduled instance an insert waits for comes before it. */
  lemma WaitedComeFirst(e: Env, types: nat, mem: Mem, work: Work, plan: FlushPlan, i: nat, q: Ptr)
    requires PlanFor(e, types, mem, work, plan) && WellScheduled(work)
    requires i < |plan.inserts| && q in plan.inserts && q != plan.inserts[i]
    requires InsertWaits(e, work.insertOf)(plan.inserts[i], q)
    ensures q in plan.inserts[..i]
  {
    var ranks :| PlanWith(e, types, mem, work, ranks, plan);
    var toInsert := Those(mem.ids, work.inserts, false);
    Phases.PhaseOrderKeeps(toInsert, InsertWaits(e, work.insertOf), InsertLess(e, ranks, toInsert), plan.inserts);
  }

  /** The child holds the parent by a many-to-one, or the parent holds the child by the inverse navigation. */
  ghost predicate ChildOf(e: Env, child: Ptr, parent: Ptr) {
    || (exists r :: 0 <= r < |MapFor(e, child).relationships| && MapFor(e, child).relationships[r].kind == ManyToOne &&
                    parent in Targets(e, child, r))
    || (exists r :: 0 <= r < |MapFor(e, parent).relationships| &&
                    MapFor(e, parent).relationships[r].kind in {OneToMany, OneToOne} && child in Targets(e, parent, r))
  }

  /** Of two deletes the child's comes before the parent's. */
  lemma ChildrenGoFirst(e: Env, types: nat, mem: Mem, work: Work, plan: FlushPlan, i: nat, child: Ptr)
    requires PlanFor(e, types, mem, work, plan) && WellScheduled(work)
    requires i < |plan.deletes| && child in plan.deletes && child != plan.deletes[i]
    requires ChildOf(e, child, plan.deletes[i])
    ensures child in plan.deletes[..i]
  {
    var ranks :| PlanWith(e, types, mem, work, ranks, plan);
    var toDelete := Those(mem.ids, work.removes, true);
    Phases.PhaseOrderKeeps(toDelete, DeleteWaits(e), DeleteLess(e, ranks, toDelete), plan.deletes);
  }

  // --- among those that wait for none of the rest --------------------------------------------------------

  /** The pending inserts the instance waits for are among the first i. */
  ghost predicate ParentsWithin(e: Env, work: Work, plan: FlushPlan, i: nat, p: Ptr)
    requires i <= |plan.inserts|
  {
    forall q :: q in plan.inserts && q != p && ParentOf(e, work, q, p) ==> q in plan.inserts[..i]
  }

  /** The pending deletes that come before the instance's are among the first i. */
  ghost predicate ChildrenWithin(e: Env, plan: FlushPlan, i: nat, p: Ptr)
    requires i <= |plan.deletes|
  {
    forall q :: q in plan.deletes && q != p && ChildOf(e, q, p) ==> q in plan.deletes[..i]
  }

  lemma WaitedIsParent(e: Env, work: Work, parent: Ptr, child: Ptr)
    ensures InsertWaits(e, work.insertOf)(child, parent) ==> ParentOf(e, work, parent, child)
  {
    if OwnedBy(LinksFor(e, work.insertOf, child), parent) {
      var links := LinksFor(e, work.insertOf, child);
      var i :| 0 <= i < |links| && links[i].kind != ManyToOne && links[i].owner == parent;
      assert work.insertOf[child].links[i] in work.insertOf[child].links;
      assert OwnerLink(e, work.insertOf[child].links[i], parent);
    }
  }

  /** Where an insert could have gone at the i-th place, the one there has a lower type rank, or is as low and older. */
  lemma LowerRankGoesFirst(e: Env, types: nat, mem: Mem, work: Work, ranks: Ranks, plan: FlushPlan, i: nat, j: nat)
    requires PlanWith(e, types, mem, work, ranks, plan) && WellScheduled(work)
    requires i < j < |plan.inserts| && ParentsWithin(e, work, plan, i, plan.inserts[j])
    ensures var p, q := plan.inserts[i], plan.inserts[j];
            || Rank(ranks, TypeOf(e, p)) < Rank(ranks, TypeOf(e, q))
            || (Rank(ranks, TypeOf(e, p)) == Rank(ranks, TypeOf(e, q)) && Sooner(work.inserts, p, q))
  {
    PlannedPhases(e, types, mem, work, plan);
    var toInsert := Those(mem.ids, work.inserts, false);
    forall q | q in toInsert && q != plan.inserts[j] && InsertWaits(e, work.insertOf)(plan.inserts[j], q)
      ensures q in plan.inserts[..i]
    {
      WaitedIsParent(e, work, q, plan.inserts[j]);
    }
    var a, b := Phases.PhaseOrderPrefers(toInsert, InsertWaits(e, work.insertOf), InsertLess(e, ranks, toInsert),
                                         plan.inserts, i, j);
    if a < b {
      ThoseInOrder(mem.ids, work.inserts, false, a, b);
    }
  }

  lemma WaitedIsChild(e: Env, parent: Ptr, child: Ptr)
    ensures DeleteWaits(e)(parent, child) ==> ChildOf(e, child, parent)
  {
  }

  /** Of deletes it is the higher rank, or the same and the older. */
  lemma HigherRankGoesFirst(e: Env, types: nat, mem: Mem, work: Work, ranks: Ranks, plan: FlushPlan, i: nat, j: nat)
    requires PlanWith(e, types, mem, work, ranks, plan) && WellScheduled(work)
    requires i < j < |plan.deletes| && ChildrenWithin(e, plan, i, plan.deletes[j])
    ensures var p, q := plan.deletes[i], plan.deletes[j];
            || Rank(ranks, TypeOf(e, p)) > Rank(ranks, TypeOf(e, q))
            || (Rank(ranks, TypeOf(e, p)) == Rank(ranks, TypeOf(e, q)) && Sooner(work.removes, p, q))
  {
    PlannedPhases(e, types, mem, work, plan);
    var toDelete := Those(mem.ids, work.removes, true);
    forall q | q in toDelete && q != plan.deletes[j] && DeleteWaits(e)(plan.deletes[j], q)
      ensures q in plan.deletes[..i]
    {
      WaitedIsChild(e, plan.deletes[j], q);
    }
    var a, b := Phases.PhaseOrderPrefers(toDelete, DeleteWaits(e), DeleteLess(e, ranks, toDelete), plan.deletes, i, j);
    if a < b {
      ThoseInOrder(mem.ids, work.removes, true, a, b);
    }
  }

  /** The dirty go by type rank, and of one rank in the order they were tracked. */
  lemma UpdatesGoByRank(e: Env, types: nat, mem: Mem, work: Work, ranks: Ranks, plan: FlushPlan, i: nat, j: nat)
    requires PlanWith(e, types, mem, work, ranks, plan) && i < j < |plan.dirty|
    ensures var a, b := plan.dirty[i], plan.dirty[j];
            || Rank(ranks, a.etype) < Rank(ranks, b.etype)
            || (Rank(ranks, a.etype) == Rank(ranks, b.etype) && a.seqNo < b.seqNo)
  {
    assert EntryBefore(ranks, plan.dirty[i], plan.dirty[j]);
  }

  // --- what the operations are ---------------------------------------------------------------------------

  lemma OpsAre(e: Env, work: Work, plan: FlushPlan, op: Op)
    requires op in FlushOps(e, work, plan)
    ensures op.FlushInsert? || op.Update? || op.DeleteEntity?
    ensures op.FlushInsert? ==> op.p in plan.inserts
    ensures op.Update? ==> exists x :: x in plan.dirty && x.ptr == op.p
    ensures op.DeleteEntity? ==> op.p in plan.deletes
  {
    var ops := FlushOps(e, work, plan);
    var i :| 0 <= i < |ops| && ops[i] == op;
    if i < |plan.inserts| {
      assert op == InsertOps(e, work, plan.inserts)[i];
    } else if i < |plan.inserts| + |plan.dirty| {
      assert op == UpdateOps(plan.dirty)[i - |plan.inserts|];
      assert plan.dirty[i - |plan.inserts|] in plan.dirty;
    } else {
      assert op == DeleteOps(plan.deletes)[i - |plan.inserts| - |plan.dirty|];
    }
  }

  ghost predicate DeletesLast(ops: seq<Op>) {
    forall i, j :: 0 <= i < j < |ops| && ops[i].DeleteEntity? ==> ops[j].DeleteEntity?
  }

  lemma AfterDeletesOnly(e: Env, work: Work, plan: FlushPlan)
    ensures DeletesLast(FlushOps(e, work, plan))
  {
  }

  lemma LaterIsNoInsert(e: Env, work: Work, plan: FlushPlan, k: nat)
    requires |plan.inserts| <= k < |FlushOps(e, work, plan)|
    ensures !InsertsInstance(FlushOps(e, work, plan)[k])
  {
  }

  lemma InsertOpAt(e: Env, work: Work, plan: FlushPlan, i: nat)
    requires i < |plan.inserts|
    ensures i < |FlushOps(e, work, plan)|
    ensures FlushOps(e, work, plan)[i] == FlushInsert(plan.inserts[i], LinksFor(e, work.insertOf, plan.inserts[i]))
  {
    assert FlushOps(e, work, plan)[i] == InsertOps(e, work, plan.inserts)[i];
  }

  /** The operations in their three phases: what stands at each place. */
  lemma PhasesInOrder(e: Env, work: Work, plan: FlushPlan, k: nat)
    requires k < |plan.inserts| + |plan.dirty| + |plan.deletes|
    ensures |FlushOps(e, work, plan)| == |plan.inserts| + |plan.dirty| + |plan.deletes|
    ensures var op, n, m := FlushOps(e, work, plan)[k], |plan.inserts|, |plan.dirty|;
            if k < n then op.FlushInsert? && op.p == plan.inserts[k]
            else if k < n + m then op == Update(plan.dirty[k - n].ptr)
            else op == DeleteEntity(plan.deletes[k - n - m])
  {
  }

  /** A flush writes its inserts first, each instance once, and its deletes last. */
  lemma PlannedIsShaped(e: Env, types: nat, mem: Mem, work: Work, plan: FlushPlan)
    requires PlanFor(e, types, mem, work, plan) && WellScheduled(work)
    ensures FlushShaped(FlushOps(e, work, plan)) && DeletesLast(FlushOps(e, work, plan))
  {
    AfterDeletesOnly(e, work, plan);
    PlannedPhases(e, types, mem, work, plan);
    var ops := FlushOps(e, work, plan);
    forall i, j | 0 <= i < j < |ops| && ops[j].FlushInsert?
      ensures ops[i].FlushInsert? && ops[i].p != ops[j].p
    {
      if j >= |plan.inserts| {
        LaterIsNoInsert(e, work, plan, j);
      } else {
        InsertOpAt(e, work, plan, i);
        InsertOpAt(e, work, plan, j);
      }
    }
  }

  /** Of a tracked instance: it is in memory, of its entry's type, under a set key. */
  ghost predicate TrackedWell(e: Env, mem: Mem, p: Ptr) {
    EntryOf(mem.ids, p).Some? ==>
      && p in mem.inst && EntryOf(mem.ids, p).value.etype == TypeOf(e, p)
      && SetKey(MapFor(e, p), EntryOf(mem.ids, p).value.key) && MapFor(e, p).arity != 0
  }

  /** What a flush starts from: a tracked session, every scheduled insert in memory, no entry under an unset key. */
  ghost predicate SessionReady(e: Env, mem: Mem, work: Work) {
    && e.tracked && (forall p :: TrackedWell(e, mem, p)) && (forall p :: p in work.inserts ==> p in mem.inst)
  }

  /** The instance an operation writes is in memory, tracked well, and untracked when the operation inserts it. */
  ghost predicate Startable(e: Env, mem: Mem, op: Op) {
    OpInstance(op).Some? ==> op.p in mem.inst && TrackedWell(e, mem, op.p) &&
                             (InsertsInstance(op) ==> EntryOf(mem.ids, op.p) == None)
  }

  lemma PlannedIsStartable(e: Env, types: nat, mem: Mem, work: Work, plan: FlushPlan, op: Op)
    requires PlanFor(e, types, mem, work, plan) && WellScheduled(work) && SessionReady(e, mem, work)
    requires op in FlushOps(e, work, plan)
    ensures Startable(e, mem, op)
  {
    PlannedPhases(e, types, mem, work, plan);
    OpsAre(e, work, plan, op);
    assert TrackedWell(e, mem, op.p);
  }

  lemma StartableIsReady(e: Env, mem: Mem, ops: seq<Op>)
    requires e.tracked && forall op :: op in ops ==> Startable(e, mem, op)
    ensures CallerReady(e, mem, ops)
  {
    forall p | p in Written(ops)
      ensures p in mem.inst && (p in Firm(mem, ops) ==> SettledAt(e, mem, p))
    {
      var op :| op in ops && OpInstance(op) == Some(p);
      assert Startable(e, mem, op);
    }
    forall op | op in ops && InsertsInstance(op)
      ensures op.p in Firm(mem, ops) && EntryOf(mem.ids, op.p) == None
    {
      assert Startable(e, mem, op);
    }
  }

  /** Every flush is a call its journal undoes, whatever keys were edited. */
  lemma PlannedIsReady(e: Env, types: nat, mem: Mem, work: Work, plan: FlushPlan)
    requires PlanFor(e, types, mem, work, plan) && WellScheduled(work) && SessionReady(e, mem, work)
    ensures CallerReady(e, mem, FlushOps(e, work, plan))
  {
    forall op | op in FlushOps(e, work, plan)
      ensures Startable(e, mem, op)
    {
      PlannedIsStartable(e, types, mem, work, plan, op);
    }
    StartableIsReady(e, mem, FlushOps(e, work, plan));
  }

  // --- keys arrive before they are read -----------------------------------------------------------------

  lemma DependsIsWaits(e: Env, work: Work, plan: FlushPlan, i: nat, q: Ptr)
    requires i < |plan.inserts| && DependsOn(e, FlushOps(e, work, plan)[i], q)
    ensures InsertWaits(e, work.insertOf)(plan.inserts[i], q)
  {
    InsertOpAt(e, work, plan, i);
  }

  /** Nothing an insert depends on is inserted from then on, itself aside. */
  lemma NoLaterInsert(e: Env, types: nat, mem: Mem, work: Work, plan: FlushPlan, i: nat, k: nat, q: Ptr)
    requires PlanFor(e, types, mem, work, plan) && WellScheduled(work)
    requires i < |plan.inserts| && q != plan.inserts[i] && DependsOn(e, FlushOps(e, work, plan)[i], q)
    requires i <= k < |FlushOps(e, work, plan)|
    ensures !Inserts(FlushOps(e, work, plan)[k], q)
  {
    if k >= |plan.inserts| {
      LaterIsNoInsert(e, work, plan, k);
    } else {
      InsertOpAt(e, work, plan, k);
      PlannedPhases(e, types, mem, work, plan);
      DependsIsWaits(e, work, plan, i, q);
      if q in plan.inserts {
        WaitedComeFirst(e, types, mem, work, plan, i, q);
        EarlierIsNotLater(plan.inserts, i, k, q);
      }
    }
  }

  lemma EarlierIsNotLater(list: seq<Ptr>, i: nat, k: nat, q: Ptr)
    requires Phases.EachOnce(list) && i <= k < |list| && q in list[..i]
    ensures list[k] != q
  {
    var j :| 0 <= j < i && list[..i][j] == q;
    assert list[j] == q;
  }

  /**
   In every flush that succeeds: what an insert depends on, itself aside, has its final key when the insert
   prepares.
   */
  lemma FlushKeysArrive<D>(
    e: Env, srv: Server<D>, limits: Plan, types: nat, start: Mem, db: D, work: Work, plan: FlushPlan, i: nat, q: Ptr)
    requires PlanFor(e, types, start, work, plan) && WellScheduled(work)
    requires !Run(e, srv, limits, start, db, FlushOps(e, work, plan)).failed
    requires i < |plan.inserts| && q != plan.inserts[i] && DependsOn(e, FlushOps(e, work, plan)[i], q)
    ensures i < |FlushOps(e, work, plan)|
    ensures KeyOf(ReadyAt(e, srv, limits, start, db, FlushOps(e, work, plan), i).mem, q) ==
            KeyOf(Run(e, srv, limits, start, db, FlushOps(e, work, plan)).mem, q)
  {
    var ops := FlushOps(e, work, plan);
    forall k | i <= k < |ops|
      ensures !Inserts(ops[k], q)
    {
      NoLaterInsert(e, types, start, work, plan, i, k, q);
    }
    KeysArriveFirst(e, srv, limits, start, db, ops, i, q);
  }

  /** The relationship is a many-to-one the insert at i references another instance by. */
  predicate References(e: Env, plan: FlushPlan, i: nat, r: nat) {
    i < |plan.inserts| && (
      var p := plan.inserts[i];
      && ReferencesAt(e, p, r) && Targets(e, p, r)[0] != p)
  }

  /** So the foreign keys it binds for a many-to-one target are that target's final key. */
  lemma FlushBindsTargetKeys<D>(
    e: Env, srv: Server<D>, limits: Plan, types: nat, start: Mem, db: D, work: Work, plan: FlushPlan, i: nat, r: nat)
    requires PlanFor(e, types, start, work, plan) && WellScheduled(work) && References(e, plan, i, r)
    requires !Run(e, srv, limits, start, db, FlushOps(e, work, plan)).failed
    ensures i < |FlushOps(e, work, plan)| && FlushOps(e, work, plan)[i].FlushInsert?
    ensures BindsTarget(e, srv, limits, start, db, FlushOps(e, work, plan), i, r)
  {
    var ops, p := FlushOps(e, work, plan), plan.inserts[i];
    InsertOpAt(e, work, plan, i);
    assert ManyToOneTarget(e, p, Targets(e, p, r)[0]);
    forall k | i <= k < |ops|
      ensures !Inserts(ops[k], Targets(e, p, r)[0])
    {
      NoLaterInsert(e, types, start, work, plan, i, k, Targets(e, p, r)[0]);
    }
    TargetKeysAreFinal(e, srv, limits, start, db, ops, i, r);
  }

  /** And those it binds for a cascade owner are the owner's final key, unless a later cascade writes them too. */
  lemma FlushBindsOwnerKeys<D>(
    e: Env, srv: Server<D>, limits: Plan, types: nat, start: Mem, db: D, work: Work, plan: FlushPlan, i: nat, l: nat,
    k: nat)
    requires PlanFor(e, types, start, work, plan) && WellScheduled(work)
    requires !Run(e, srv, limits, start, db, FlushOps(e, work, plan)).failed
    requires i < |plan.inserts| &&
             OwnerWrites(e, plan.inserts[i], LinksFor(e, work.insertOf, plan.inserts[i]), l, k, start)
    ensures i < |FlushOps(e, work, plan)| && FlushOps(e, work, plan)[i].FlushInsert?
    ensures BindsOwner(e, srv, limits, start, db, FlushOps(e, work, plan), i, l, k)
  {
    var ops, p := FlushOps(e, work, plan), plan.inserts[i];
    InsertOpAt(e, work, plan, i);
    var owner := ops[i].links[l].owner;
    assert ops[i].links[l] in ops[i].links && DependsOn(e, ops[i], owner);
    forall k | i <= k < |ops|
      ensures !Inserts(ops[k], owner)
    {
      NoLaterInsert(e, types, start, work, plan, i, k, owner);
    }
    OwnerKeysAreFinal(e, srv, limits, start, db, ops, i, l, k);
  }

  // --- a flush in messages -----------------------------------------------------------------------------

  /** The plan's call, with the plan that sends every statement alone. */
  function FlushSetting<D>(e: Env, srv: Server<D>, alone: Plan, start: Mem, db: D, work: Work,
      plan: FlushPlan): Setting<D> {
    Setting(e, srv, alone, start, db, FlushOps(e, work, plan))
  }

  lemma FlushIsEligible<D>(
    e: Env, srv: Server<D>, alone: Plan, types: nat, start: Mem, db: D, work: Work, plan: FlushPlan)
    requires PlanFor(e, types, start, work, plan) && WellScheduled(work) && SessionReady(e, start, work)
    requires Consistent(start.ids) && Numbered(start.ids)
    ensures Batching.Eligible(FlushSetting(e, srv, alone, start, db, work, plan))
  {
    PlannedIsShaped(e, types, start, work, plan);
    PlannedIsReady(e, types, start, work, plan);
    var s := FlushSetting(e, srv, alone, start, db, work, plan);
    forall op | op in s.ops
      ensures !op.Insert?
    {
      OpsAre(e, work, plan, op);
    }
  }

  /** A flush deletes nothing by key alone and inserts nothing tracked. */
  lemma FlushFreesNothing<D>(
    e: Env, srv: Server<D>, alone: Plan, types: nat, start: Mem, db: D, work: Work, plan: FlushPlan)
    requires PlanFor(e, types, start, work, plan) && WellScheduled(work)
    ensures Batching.NothingFreed(FlushSetting(e, srv, alone, start, db, work, plan))
  {
    var s := FlushSetting(e, srv, alone, start, db, work, plan);
    PlannedPhases(e, types, start, work, plan);
    forall i, p | 0 <= i < |s.ops|
      ensures !Batching.Frees(s, i, p)
    {
      OpsAre(e, work, plan, s.ops[i]);
    }
  }

  /**
   A flush that succeeds statement by statement, its keys arriving fresh, succeeds under every plan, with the
   same database and memory, and sends the planner's messages.
   */
  lemma FlushBatches<D>(
    e: Env, srv: Server<D>, alone: Plan, limits: Plan, types: nat, start: Mem, db: D, work: Work, plan: FlushPlan)
    requires PlanFor(e, types, start, work, plan) && WellScheduled(work) && SessionReady(e, start, work)
    requires Consistent(start.ids) && Numbered(start.ids)
    requires Batching.OffSucceeds(FlushSetting(e, srv, alone, start, db, work, plan))
    ensures var s := FlushSetting(e, srv, alone, start, db, work, plan);
            var off, auto := Run(e, srv, alone, start, db, s.ops), Run(e, srv, limits, start, db, s.ops);
            && !auto.failed && auto.mem == off.mem && auto.db == off.db
            && auto.sent == SentTexts(s, Messages.EagerMessages(FactsOf(s, limits), |s.ops|))
  {
    FlushIsEligible(e, srv, alone, types, start, db, work, plan);
    FlushFreesNothing(e, srv, alone, types, start, db, work, plan);
    Batching.BatchingRefinesOff(FlushSetting(e, srv, alone, start, db, work, plan), limits);
  }

  // --- the flush --------------------------------------------------------------------------------------------

  /** Blocked is UOW-004, ahead of any statement. */
  datatype Flushed = Committed | Failed | Blocked(types: set<TypeId>)

  function WorkOf(uow: Schedule.UnitOfWork): Work
    reads uow
  {
    Work(uow.inserts, uow.insertOf, uow.removes)
  }

  /** The session after the flush: the plan's call, or that call run back. */
  ghost predicate RunsPlan<D>(call: BatchCall<D>, start: Mem, db: D, work: Work, plan: FlushPlan, written: bool,
      end: Mem, endDb: D) {
    var c := Run(call.e, call.srv, call.plan, start, db, FlushOps(call.e, work, plan));
    endDb == c.db && end == (if written then c.mem else Rollback(c.mem, c.journal)) && (c.failed ==> !written)
  }

  /** What a flush's rollback needs: nothing statement by statement, else a ready session and fresh keys. */
  ghost predicate Undoable<D>(call: BatchCall<D>, start: Mem, db: D, work: Work, plan: FlushPlan) {
    && (call.plan.limit > 1 ==> SessionReady(call.e, start, work))
    && FreshHistory(call.e, call.plan,
                    Run(call.e, call.srv, call.plan, start, db, FlushOps(call.e, work, plan)).history)
  }

  /** A failed flush puts the session back. */
  lemma FailedFlushRestores<D>(call: BatchCall<D>, types: nat, start: Mem, db: D, work: Work, plan: FlushPlan,
      end: Mem, endDb: D)
    requires PlanFor(call.e, types, start, work, plan) && WellScheduled(work) && Consistent(start.ids) &&
             Numbered(start.ids)
    requires RunsPlan(call, start, db, work, plan, false, end, endDb) && Undoable(call, start, db, work, plan)
    ensures Restoring.Restored(call.e, FlushOps(call.e, work, plan), start, end)
  {
    PlannedIsShaped(call.e, types, start, work, plan);
    if call.plan.limit > 1 {
      PlannedIsReady(call.e, types, start, work, plan);
    }
    RunRollbackRestores(call.e, call.srv, call.plan, start, db, FlushOps(call.e, work, plan));
  }

  /** The schedule a flush leaves. */
  function Remaining(work: Work, r: Flushed): Work {
    if r.Committed? then Work([], map[], []) else work
  }

  /** The plan's call goes through, and its transaction, where there is one, commits. */
  ghost predicate Lands<D>(call: BatchCall<D>, start: Mem, db: D, ops: seq<Op>, commits: bool) {
    !Run(call.e, call.srv, call.plan, start, db, ops).failed && (ops == [] || commits)
  }

  /**
   What a flush does. Blocked, nothing was sent; otherwise the plan ran as one call, and it is committed exactly
   when no statement failed and neither did the commit. Committed, the schedule is empty; else it is as it was, and
   a failed flush, when it can be undone, has put the session back. A flush that failed for good aside, the next one
   finds the identity map as it needs it.
   */
  ghost predicate Flushes<D>(
    call: BatchCall<D>, types: nat, start: Mem, db: D, work: Work, commits: bool, plan: FlushPlan, r: Flushed,
    end: Mem, endDb: D, left: Work)
  {
    && (r.Blocked? <==> IsBlocked(call.e, start, work))
    && (r.Blocked? ==> BlockedBy(call.e, start, work, r.types) && end == start && endDb == db)
    && (!r.Blocked? ==> PlanFor(call.e, types, start, work, plan)
                        && RunsPlan(call, start, db, work, plan, r.Committed?, end, endDb)
                        && (r.Committed? <==> Lands(call, start, db, FlushOps(call.e, work, plan), commits)))
    && left == Remaining(work, r)
    && (r.Failed? && Undoable(call, start, db, work, plan) ==>
          Restoring.Restored(call.e, FlushOps(call.e, work, plan), start, end))
    && ((r.Failed? ==> Undoable(call, start, db, work, plan)) ==>
          LeavesMap(call.e, FlushOps(call.e, work, plan), start, end))
  }

  /** Plans the schedule, runs the plan as one call, and clears the schedule when the call commits. */
  method Flush<D>(call: BatchCall<D>, uow: Schedule.UnitOfWork, types: nat, commits: bool)
    returns (r: Flushed, ghost plan: FlushPlan)
    requires call.Valid() && call.View() == Start(call.session.mem, call.session.db) && uow.Valid()
    requires Consistent(call.session.mem.ids) && Numbered(call.session.mem.ids)
    requires TypesMapped(call.e, types, call.session.mem.ids)
    modifies call, call.session, call.journal, uow
    ensures uow.Valid()
    ensures Flushes(call, types, old(call.session.mem), old(call.session.db), old(WorkOf(uow)), commits, plan, r,
                    call.session.mem, call.session.db, WorkOf(uow))
  {
    var work := WorkOf(uow);
    r, plan := FlushWork(call, work, types, commits);
    if r.Committed? {
      uow.Clear();
    }
    assert WorkOf(uow) == Remaining(work, r);
  }

  method FlushWork<D>(call: BatchCall<D>, work: Work, types: nat, commits: bool)
    returns (r: Flushed, ghost plan: FlushPlan)
    requires call.Valid() && call.View() == Start(call.session.mem, call.session.db) && WellScheduled(work)
    requires Consistent(call.session.mem.ids) && Numbered(call.session.mem.ids)
    requires TypesMapped(call.e, types, call.session.mem.ids)
    modifies call, call.session, call.journal
    ensures Flushes(call, types, old(call.session.mem), old(call.session.db), work, commits, plan, r,
                    call.session.mem, call.session.db, Remaining(work, r))
  {
    var planned := PlanFlush(call.e, types, call.session.mem, work);
    if planned.Blocked? {
      return Flushed.Blocked(planned.types), FlushPlan([], [], []);
    }
    plan := planned.plan;
    r := PerformPlan(call, work, planned.plan, commits);
    RanIsFlushed(call, types, old(call.session.mem), old(call.session.db), work, commits, plan, r, call.session.mem,
                 call.session.db);
  }

  lemma RanIsFlushed<D>(
    call: BatchCall<D>, types: nat, start: Mem, db: D, work: Work, commits: bool, plan: FlushPlan, r: Flushed,
    end: Mem, endDb: D)
    requires PlanFor(call.e, types, start, work, plan) && WellScheduled(work)
    requires Consistent(start.ids) && Numbered(start.ids) && !IsBlocked(call.e, start, work) && !r.Blocked?
    requires RunsPlan(call, start, db, work, plan, r.Committed?, end, endDb)
    requires r.Committed? <==> Lands(call, start, db, FlushOps(call.e, work, plan), commits)
    ensures Flushes(call, types, start, db, work, commits, plan, r, end, endDb, Remaining(work, r))
  {
    var ops := FlushOps(call.e, work, plan);
    if r.Failed? && Undoable(call, start, db, work, plan) {
      FailedFlushRestores(call, types, start, db, work, plan, end, endDb);
      RollbackKeepsMap(call.e, call.srv, call.plan, start, db, ops);
    }
    RunKeepsMap(call.e, call.srv, call.plan, start, db, ops);
  }

  method PerformPlan<D>(call: BatchCall<D>, work: Work, plan: FlushPlan, commits: bool) returns (r: Flushed)
    requires call.Valid() && call.View() == Start(call.session.mem, call.session.db)
    modifies call, call.session, call.journal
    ensures !r.Blocked? && RunsPlan(call, old(call.session.mem), old(call.session.db), work, plan, r.Committed?,
                                    call.session.mem, call.session.db)
    ensures r.Committed? <==> Lands(call, old(call.session.mem), old(call.session.db), FlushOps(call.e, work, plan),
                                    commits)
  {
    var ops := FlushOps(call.e, work, plan);
    r := PerformAny(call, ops, commits);
  }

  /** An empty plan begins no transaction. */
  method PerformAny<D>(call: BatchCall<D>, ops: seq<Op>, commits: bool) returns (r: Flushed)
    requires call.Valid() && call.View() == Start(call.session.mem, call.session.db)
    modifies call, call.session, call.journal
    ensures var c := Run(call.e, call.srv, call.plan, old(call.session.mem), old(call.session.db), ops);
            && call.session.db == c.db && !r.Blocked?
            && (r.Committed? <==> Lands(call, old(call.session.mem), old(call.session.db), ops, commits))
            && call.session.mem == (if r.Committed? then c.mem else Rollback(c.mem, c.journal))
  {
    r := Committed;
    if ops != [] {
      var ok := call.Perform(ops, commits);
      r := if ok then Committed else Failed;
    }
  }

  // --- what a committed flush leaves --------------------------------------------------------------------

  /** Every tracked instance is of its entry's type, its snapshot of its shape. */
  ghost predicate Snapped(e: Env, mem: Mem) {
    forall p :: EntryOf(mem.ids, p).Some? ==> Settling.SnapshotFits(e, mem, EntryOf(mem.ids, p).value)
  }

  lemma DirtyOnce(ids: IdMap, ranks: Ranks, dirty: seq<Entry>, i: nat, j: nat)
    requires InEntryOrder(ranks, dirty) && i < j < |dirty| && Registered(ids, dirty[i]) && Registered(ids, dirty[j])
    ensures dirty[i].ptr != dirty[j].ptr
  {
    assert EntryBefore(ranks, dirty[i], dirty[j]);
  }

  /** The instance the operation at a place writes. */
  function WrittenAt(plan: FlushPlan, k: nat): Ptr
    requires k < |plan.inserts| + |plan.dirty| + |plan.deletes|
  {
    if k < |plan.inserts| then plan.inserts[k]
    else if k < |plan.inserts| + |plan.dirty| then plan.dirty[k - |plan.inserts|].ptr
    else plan.deletes[k - |plan.inserts| - |plan.dirty|]
  }

  lemma OpAt(e: Env, work: Work, plan: FlushPlan, k: nat)
    requires k < |plan.inserts| + |plan.dirty| + |plan.deletes|
    ensures |FlushOps(e, work, plan)| == |plan.inserts| + |plan.dirty| + |plan.deletes|
    ensures OpInstance(FlushOps(e, work, plan)[k]) == Some(WrittenAt(plan, k))
  {
  }

  lemma OpCount(e: Env, work: Work, plan: FlushPlan)
    ensures |FlushOps(e, work, plan)| == |plan.inserts| + |plan.dirty| + |plan.deletes|
  {
  }

  /** A flush writes each instance once. */
  lemma FlushWritesOnce(e: Env, types: nat, mem: Mem, work: Work, plan: FlushPlan)
    requires PlanFor(e, types, mem, work, plan) && WellScheduled(work)
    ensures Settling.WritesOnce(FlushOps(e, work, plan))
  {
    var ops := FlushOps(e, work, plan);
    OpCount(e, work, plan);
    forall op | op in ops
      ensures !op.UpdateOnly?
    {
      OpsAre(e, work, plan, op);
    }
    forall i, j | 0 <= i < j < |ops|
      ensures OpInstance(ops[i]) != OpInstance(ops[j])
    {
      OpAt(e, work, plan, i);
      OpAt(e, work, plan, j);
      WrittenDiffer(e, types, mem, work, plan, i, j);
    }
  }

  lemma WrittenDiffer(e: Env, types: nat, mem: Mem, work: Work, plan: FlushPlan, i: nat, j: nat)
    requires PlanFor(e, types, mem, work, plan) && WellScheduled(work)
    requires i < j < |plan.inserts| + |plan.dirty| + |plan.deletes|
    ensures WrittenAt(plan, i) != WrittenAt(plan, j)
  {
    PlannedPhases(e, types, mem, work, plan);
    var ranks :| PlanWith(e, types, mem, work, ranks, plan);
    PlacesDiffer(mem.ids, work.removes, ranks, plan, i, j);
  }

  lemma PlacesDiffer(ids: IdMap, removes: seq<Ptr>, ranks: Ranks, plan: FlushPlan, i: nat, j: nat)
    requires Phases.EachOnce(plan.inserts) && Phases.EachOnce(plan.deletes) && InEntryOrder(ranks, plan.dirty)
    requires forall p :: p in plan.inserts ==> EntryOf(ids, p).None?
    requires forall p :: p in plan.deletes ==> EntryOf(ids, p).Some? && p in removes
    requires forall x :: x in plan.dirty ==> Registered(ids, x) && x.ptr !in removes
    requires i < j < |plan.inserts| + |plan.dirty| + |plan.deletes|
    ensures WrittenAt(plan, i) != WrittenAt(plan, j)
  {
    var n, m := |plan.inserts|, |plan.dirty|;
    if n <= i && j < n + m {
      assert plan.dirty[i - n] in plan.dirty && plan.dirty[j - n] in plan.dirty;
      DirtyOnce(ids, ranks, plan.dirty, i - n, j - n);
    } else if n <= i < n + m {
      assert plan.dirty[i - n] in plan.dirty && plan.deletes[j - n - m] in plan.deletes;
    } else if i < n <= j < n + m {
      assert plan.inserts[i] in plan.inserts && plan.dirty[j - n] in plan.dirty;
    } else if i < n && n + m <= j {
      assert plan.inserts[i] in plan.inserts && plan.deletes[j - n - m] in plan.deletes;
    }
  }

  /** What a flush does not write is clean. */
  lemma UnwrittenIsClean(e: Env, types: nat, mem: Mem, work: Work, plan: FlushPlan)
    requires PlanFor(e, types, mem, work, plan) && WellScheduled(work) && Snapped(e, mem) && Consistent(mem.ids)
    ensures Settling.CleanBut(e, mem, FlushOps(e, work, plan))
  {
    var ops := FlushOps(e, work, plan);
    PlannedPhases(e, types, mem, work, plan);
    forall p | EntryOf(mem.ids, p).Some?
      ensures p !in Settling.RolesOf(ops).inserted
      ensures p !in Written(ops) ==> Settling.Clean(e, mem, EntryOf(mem.ids, p).value)
    {
      var x := EntryOf(mem.ids, p).value;
      if op :| op in ops && InsertsInstance(op) && op.p == p {
        OpsAre(e, work, plan, op);
      }
      if p !in Written(ops) {
        DeleteIsWritten(e, work, plan, p);
        DirtyIsWritten(e, work, plan, x);
        assert Registered(mem.ids, x) && !IsEdited(e, mem, work.removes, x);
      }
    }
  }

  lemma DeleteIsWritten(e: Env, work: Work, plan: FlushPlan, p: Ptr)
    ensures p in plan.deletes ==> p in Written(FlushOps(e, work, plan))
  {
    if p in plan.deletes {
      var i :| 0 <= i < |plan.deletes| && plan.deletes[i] == p;
      OpAt(e, work, plan, |plan.inserts| + |plan.dirty| + i);
      assert FlushOps(e, work, plan)[|plan.inserts| + |plan.dirty| + i] in FlushOps(e, work, plan);
    }
  }

  lemma DirtyIsWritten(e: Env, work: Work, plan: FlushPlan, x: Entry)
    ensures x in plan.dirty ==> x.ptr in Written(FlushOps(e, work, plan))
  {
    if x in plan.dirty {
      var i :| 0 <= i < |plan.dirty| && plan.dirty[i] == x;
      OpAt(e, work, plan, |plan.inserts| + i);
      assert FlushOps(e, work, plan)[|plan.inserts| + i] in FlushOps(e, work, plan);
    }
  }

  /** After a flush that is committed every tracked instance is clean, and none of the deleted is tracked. */
  lemma CommittedFlushSettles<D>(
    call: BatchCall<D>, types: nat, start: Mem, db: D, work: Work, commits: bool, plan: FlushPlan, end: Mem, endDb: D,
    left: Work)
    requires Flushes(call, types, start, db, work, commits, plan, Committed, end, endDb, left) && WellScheduled(work)
    requires Consistent(start.ids) && Numbered(start.ids) && Snapped(call.e, start)
    ensures Settling.Settled(call.e, end, Settling.RolesOf(FlushOps(call.e, work, plan)))
  {
    FlushWritesOnce(call.e, types, start, work, plan);
    UnwrittenIsClean(call.e, types, start, work, plan);
    Settling.RunSettles(call.e, call.srv, call.plan, start, db, FlushOps(call.e, work, plan));
  }

  /** Of a session all clean, with nothing scheduled, the plan is empty. */
  lemma CleanPlanIsEmpty(e: Env, types: nat, mem: Mem, roles: Settling.Roles, next: FlushPlan)
    requires Settling.Settled(e, mem, roles) && PlanFor(e, types, mem, Work([], map[], []), next)
    ensures next == FlushPlan([], [], [])
  {
    PlannedPhases(e, types, mem, Work([], map[], []), next);
    HasFirst(next.inserts);
    HasFirst(next.deletes);
    HasFirst(next.dirty);
    forall x
      ensures x !in next.dirty
    {
      CleanIsNotDirty(e, mem, roles, [], x);
    }
  }

  lemma HasFirst<T>(s: seq<T>)
    ensures s != [] ==> s[0] in s
  {
  }

  lemma CleanIsNotDirty(e: Env, mem: Mem, roles: Settling.Roles, removes: seq<Ptr>, x: Entry)
    requires Settling.Settled(e, mem, roles)
    ensures Registered(mem.ids, x) ==> !IsEdited(e, mem, removes, x)
  {
    assert Registered(mem.ids, x) ==> Settling.Clean(e, mem, x);
  }

  /** So the next flush has nothing to do. */
  lemma NextFlushIsEmpty<D>(
    call: BatchCall<D>, types: nat, start: Mem, db: D, work: Work, commits: bool, plan: FlushPlan, end: Mem, endDb: D,
    left: Work, next: FlushPlan)
    requires Flushes(call, types, start, db, work, commits, plan, Committed, end, endDb, left) && WellScheduled(work)
    requires Consistent(start.ids) && Numbered(start.ids) && Snapped(call.e, start)
    requires PlanFor(call.e, types, end, left, next)
    ensures next == FlushPlan([], [], [])
  {
    CommittedFlushSettles(call, types, start, db, work, commits, plan, end, endDb, left);
    CleanPlanIsEmpty(call.e, types, end, Settling.RolesOf(FlushOps(call.e, work, plan)), next);
  }
}
