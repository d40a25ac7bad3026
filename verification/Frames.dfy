/** What each step of a write can touch, and what it leaves alone. */
module Frames {
  import opened Values
  import opened Entities
  import opened IdentityMap
  import opened Writes
  import opened Calls

  /** One memory differs from another at most in the fields of p that the journal captures. */
  ghost predicate OnlyJournaled(mem: Mem, after: Mem, p: Ptr) {
    && after.inst.Keys == mem.inst.Keys
    && (forall q :: q != p ==> InstOf(after, q) == InstOf(mem, q))
    && InstOf(after, p).cols == InstOf(mem, p).cols
    && |InstOf(after, p).key| == |InstOf(mem, p).key|
  }

  lemma PrepareInsertOnly(e: Env, mem: Mem, p: Ptr)
    ensures PrepareInsert(e, mem, p).mem.ids == mem.ids
    ensures OnlyJournaled(mem, PrepareInsert(e, mem, p).mem, p)
    ensures AssignGuid(e, mem, p) == mem ==> KeyOf(PrepareInsert(e, mem, p).mem, p) == KeyOf(mem, p)
    ensures PrepareInsert(e, mem, p).issue.Issued? ==>
              KeyOf(PrepareInsert(e, mem, p).mem, p) == KeyOf(AssignGuid(e, mem, p), p)
  {
  }

  lemma StampOnly(e: Env, mem: Mem, p: Ptr, props: seq<Prop>)
    ensures var h := StampSet(e, mem, p, props);
            h.Hooked? ==> h.mem.ids == mem.ids && OnlyJournaled(mem, h.mem, p) && KeyOf(h.mem, p) == KeyOf(mem, p)
  {
  }

  /** The preparation touches p only, and keeps its key. */
  ghost predicate KeepsKey(mem: Mem, prepared: Preparation, p: Ptr) {
    && prepared.mem.ids == mem.ids && OnlyJournaled(mem, prepared.mem, p)
    && KeyOf(prepared.mem, p) == KeyOf(mem, p)
    && (prepared.issue.Issued? ==> Instance(prepared.issue.write) == Some(p))
  }

  lemma PrepareColumnsOnly(e: Env, mem: Mem, p: Ptr, entry: Option<Entry>, props: seq<Prop>)
    ensures KeepsKey(mem, PrepareColumns(e, mem, p, entry, props), p)
  {
    StampOnly(e, mem, p, props);
  }

  lemma PrepareUpdateOnlyP(e: Env, mem: Mem, p: Ptr)
    ensures KeepsKey(mem, PrepareUpdate(e, mem, p), p)
  {
    StampOnly(e, mem, p, []);
    match WriteIdentity(e, mem, p)
    case Open(Some(entry)) =>
      PrepareColumnsOnly(e, mem, p, Some(entry),
                         Dirty(SnapshotOf(mem.ids, entry), InstOf(mem, p), WritableColumns(MapFor(e, p))));
    case _ =>
  }

  lemma PrepareListOnly(e: Env, mem: Mem, p: Ptr, props: seq<Prop>)
    ensures KeepsKey(mem, PrepareUpdateOnly(e, mem, p, props), p)
  {
    match WriteIdentity(e, mem, p)
    case Open(entry) => PrepareColumnsOnly(e, mem, p, entry, props);
    case Closed =>
  }

  lemma PrepareDeleteOnly(e: Env, mem: Mem, p: Ptr)
    ensures KeepsKey(mem, PrepareDeleteEntity(e, mem, p), p)
  {
    StampOnly(e, Put(mem, p, InstOf(mem, p).(flag := Flag(true))), p, [SoftDelete]);
  }

  lemma PrepareOnly(e: Env, mem: Mem, op: Op)
    ensures Prepare(e, mem, op).mem.ids == mem.ids
    ensures OpInstance(op).None? ==> Prepare(e, mem, op).mem.inst == mem.inst
    ensures OpInstance(op).Some? ==> OnlyJournaled(mem, Prepare(e, mem, op).mem, op.p)
    ensures OpInstance(op).Some? && !op.FlushInsert? && !op.Insert? ==>
              KeyOf(Prepare(e, mem, op).mem, op.p) == KeyOf(mem, op.p)
    ensures Prepare(e, mem, op).issue.Issued? ==> Instance(Prepare(e, mem, op).issue.write) == OpInstance(op)
  {
    match op
    case FlushInsert(p, _) => PrepareInsertOnly(e, mem, p);
    case Insert(p) => PrepareInsertOnly(e, mem, p);
    case Update(p) => PrepareUpdateOnlyP(e, mem, p);
    case UpdateOnly(p, props) => PrepareListOnly(e, mem, p, props);
    case DeleteEntity(p) => PrepareDeleteOnly(e, mem, p);
    case DeleteKey(t, key) =>
    case Execute(_, _) =>
  }

  /** A completion that fails its check has changed nothing. */
  lemma FailedCompleteIsClean(e: Env, mem: Mem, w: Write, reply: Reply)
    ensures !Complete(e, mem, w, reply).ok ==> Complete(e, mem, w, reply).mem == mem &&
                                               Complete(e, mem, w, reply).undos == []
  {
  }

  lemma BumpOnly(e: Env, mem: Mem, p: Ptr)
    ensures OnlyJournaled(mem, Bump(e, mem, p), p) && KeyOf(Bump(e, mem, p), p) == KeyOf(mem, p)
    ensures Bump(e, mem, p) == mem.(inst := Bump(e, mem, p).inst)
  {
  }

  lemma TrackOnly(e: Env, mem: Mem, p: Ptr)
    ensures TrackJournaled(e, mem, p).mem == mem.(ids := TrackJournaled(e, mem, p).mem.ids)
    ensures forall u :: u in TrackJournaled(e, mem, p).undos ==> u.UndoRestore?
  {
  }

  /** The completion touches its own instance only, and keeps the key of one whose key was not generated. */
  ghost predicate TouchesOwn(mem: Mem, done: Completion, p: Ptr, keepsKey: bool) {
    && done.mem.ticks == mem.ticks && done.mem.guids == mem.guids
    && OnlyJournaled(mem, done.mem, p) && (keepsKey ==> KeyOf(done.mem, p) == KeyOf(mem, p))
    && forall u :: u in done.undos ==> u.UndoRestore?
  }

  lemma CompleteInsertOnly(e: Env, mem: Mem, w: Write, reply: Reply)
    requires w.finish.FinishInsert?
    ensures TouchesOwn(mem, Complete(e, mem, w, reply), w.finish.p, !w.finish.generated)
  {
    var p := w.finish.p;
    TrackOnly(e, mem, p);
    if w.finish.generated && reply.Reply? && reply.key.Some? {
      TrackOnly(e, Put(mem, p, Set(InstOf(mem, p), KeyPart(0), reply.key.value)), p);
    }
  }

  lemma CompleteUpdateOnly(e: Env, mem: Mem, w: Write, reply: Reply)
    requires w.finish.FinishFullUpdate? || w.finish.FinishColumns?
    ensures TouchesOwn(mem, Complete(e, mem, w, reply), w.finish.p, true)
  {
    BumpOnly(e, mem, w.finish.p);
    TrackOnly(e, Bump(e, mem, w.finish.p), w.finish.p);
  }

  lemma CompleteDeleteOnly(e: Env, mem: Mem, w: Write, reply: Reply)
    requires w.finish.FinishDelete?
    ensures TouchesOwn(mem, Complete(e, mem, w, reply), w.finish.p, true)
  {
    BumpOnly(e, mem, w.finish.p);
  }

  lemma CompleteOnly(e: Env, mem: Mem, w: Write, reply: Reply)
    ensures Complete(e, mem, w, reply).mem.ticks == mem.ticks && Complete(e, mem, w, reply).mem.guids == mem.guids
    ensures Instance(w).None? ==> Complete(e, mem, w, reply).mem.inst == mem.inst
    ensures Instance(w).Some? ==> OnlyJournaled(mem, Complete(e, mem, w, reply).mem, Instance(w).value)
    ensures Instance(w).Some? && !GeneratesKey(w) ==>
              KeyOf(Complete(e, mem, w, reply).mem, Instance(w).value) == KeyOf(mem, Instance(w).value)
    ensures forall u :: u in Complete(e, mem, w, reply).undos ==> u.UndoRestore?
  {
    match w.finish
    case FinishInsert(_, _) => CompleteInsertOnly(e, mem, w, reply);
    case FinishFullUpdate(_) => CompleteUpdateOnly(e, mem, w, reply);
    case FinishColumns(_, _, _) => CompleteUpdateOnly(e, mem, w, reply);
    case FinishDelete(_, _, _) => CompleteDeleteOnly(e, mem, w, reply);
    case _ =>
  }

  /** The properties of p a flushed insert's key flow writes. */
  ghost predicate FlowWrites(e: Env, op: Op, p: Ptr, prop: Prop) {
    op.FlushInsert? && op.p == p && (
      (exists r: nat :: NavigationWrites(e, p, r, prop)) || (exists l :: l in op.links && LinkWrites(e, l, prop)))
  }

  /** Two states of p agree on every property outside a set of foreign keys. */
  ghost predicate SameOutside(x: Inst, y: Inst, flowed: iset<Prop>) {
    |x.key| == |y.key| && |x.cols| == |y.cols| && forall prop :: prop !in flowed ==> Get(x, prop) == Get(y, prop)
  }

  ghost predicate OnlyFlowed(mem: Mem, after: Mem, p: Ptr, flowed: iset<Prop>) {
    && after == mem.(inst := after.inst)
    && after.inst.Keys == mem.inst.Keys
    && (forall q :: q != p ==> InstOf(after, q) == InstOf(mem, q))
    && SameOutside(InstOf(after, p), InstOf(mem, p), flowed)
  }

  lemma {:induction false} CopyKeyOnly(mem: Mem, source: Ptr, target: Ptr, foreignKeys: seq<Prop>, from: nat,
      flowed: iset<Prop>)
    requires forall prop :: prop in foreignKeys ==> prop in flowed
    ensures OnlyFlowed(mem, CopyKey(mem, source, target, foreignKeys, from), target, flowed)
    decreases |foreignKeys| - from
  {
    if from < |foreignKeys| {
      var value := Get(InstOf(mem, source), KeyPart(from));
      var put := Put(mem, target, Set(InstOf(mem, target), foreignKeys[from], value));
      assert foreignKeys[from] in flowed;
      CopyKeyOnly(put, source, target, foreignKeys, from + 1, flowed);
    }
  }

  lemma {:induction false} FlowNavigationsOnly(e: Env, mem: Mem, p: Ptr, from: nat, flowed: iset<Prop>)
    requires forall r: nat, prop :: from <= r && NavigationWrites(e, p, r, prop) ==> prop in flowed
    ensures OnlyFlowed(mem, FlowNavigations(e, mem, p, from), p, flowed)
    decreases |MapFor(e, p).relationships| - from
  {
    var relationships := MapFor(e, p).relationships;
    if from < |relationships| {
      var targets := Targets(e, p, from);
      var r := relationships[from];
      if r.kind == ManyToOne && targets != [] && MapOf(e, r.target).arity == |r.foreignKeys| {
        assert forall prop :: prop in r.foreignKeys ==> NavigationWrites(e, p, from, prop);
        CopyKeyOnly(mem, targets[0], p, r.foreignKeys, 0, flowed);
        FlowNavigationsOnly(e, CopyKey(mem, targets[0], p, r.foreignKeys, 0), p, from + 1, flowed);
      } else {
        FlowNavigationsOnly(e, mem, p, from + 1, flowed);
      }
    }
  }

  lemma {:induction false} FlowLinksOnly(e: Env, mem: Mem, p: Ptr, links: seq<Link>, flowed: iset<Prop>)
    requires forall l, prop :: l in links && LinkWrites(e, l, prop) ==> prop in flowed
    ensures OnlyFlowed(mem, FlowLinks(e, mem, p, links), p, flowed)
    decreases |links|
  {
    if links != [] {
      var l := links[0];
      if GivesKey(l.kind) && MapFor(e, l.owner).arity == |l.foreignKeys| {
        assert forall prop :: prop in l.foreignKeys ==> LinkWrites(e, l, prop);
        CopyKeyOnly(mem, l.owner, p, l.foreignKeys, 0, flowed);
        FlowLinksOnly(e, CopyKey(mem, l.owner, p, l.foreignKeys, 0), p, links[1..], flowed);
      } else {
        FlowLinksOnly(e, mem, p, links[1..], flowed);
      }
    }
  }

  ghost function FlowedBy(e: Env, op: Op, p: Ptr): iset<Prop> {
    iset prop | FlowWrites(e, op, p, prop)
  }

  lemma FlowOnly(e: Env, mem: Mem, op: Op)
    ensures !op.FlushInsert? ==> Flow(e, mem, op) == mem
    ensures op.FlushInsert? ==> OnlyFlowed(mem, Flow(e, mem, op), op.p, FlowedBy(e, op, op.p))
  {
    if op.FlushInsert? {
      FlowNavigationsOnly(e, mem, op.p, 0, FlowedBy(e, op, op.p));
      FlowLinksOnly(e, FlowNavigations(e, mem, op.p, 0), op.p, op.links, FlowedBy(e, op, op.p));
    }
  }
}
