/** A preparation that rule 1 lets into a message does not see the statements still waiting in it. */
module Commuting {
  import opened Values
  import opened Entities
  import opened IdentityMap
  import opened Writes
  import opened Calls
  import opened Frames
  import opened Undoing
  import opened Restoring
  import opened KeyRules

  // --- patches ------------------------------------------------------------------------------------

  /** One instance set to a value and the two streams advanced: all a preparation does to memory. */
  function Patch(mem: Mem, p: Ptr, x: Inst, ticks: nat, guids: nat): Mem {
    Put(mem, p, x).(ticks := ticks, guids := guids)
  }

  lemma OnlyIsPatch(mem: Mem, after: Mem, p: Ptr)
    requires after.ids == mem.ids && after.inst.Keys == mem.inst.Keys && p in mem.inst
    requires forall q :: q != p ==> InstOf(after, q) == InstOf(mem, q)
    ensures after == Patch(mem, p, InstOf(after, p), after.ticks, after.guids)
  {
    forall q | q in mem.inst
      ensures after.inst[q] == Patch(mem, p, InstOf(after, p), after.ticks, after.guids).inst[q]
    {
      assert q != p ==> InstOf(after, q) == InstOf(mem, q);
    }
    assert after.inst == Patch(mem, p, InstOf(after, p), after.ticks, after.guids).inst;
  }

  lemma TrackPatch(e: Env, mem: Mem, q: Ptr, p: Ptr, x: Inst, ticks: nat, guids: nat)
    requires q != p
    ensures TrackJournaled(e, Patch(mem, p, x, ticks, guids), q) ==
            TrackJournaled(e, mem, q).(mem := Patch(TrackJournaled(e, mem, q).mem, p, x, ticks, guids))
  {
  }

  lemma PutsCommute(mem: Mem, q: Ptr, y: Inst, p: Ptr, x: Inst, ticks: nat, guids: nat)
    requires q != p
    ensures Put(Patch(mem, p, x, ticks, guids), q, y) == Patch(Put(mem, q, y), p, x, ticks, guids)
  {
    if p in mem.inst && q in mem.inst {
      assert mem.inst[p := x][q := y] == mem.inst[q := y][p := x];
    }
  }

  lemma BumpPatch(e: Env, mem: Mem, q: Ptr, p: Ptr, x: Inst, ticks: nat, guids: nat)
    requires q != p
    ensures Bump(e, Patch(mem, p, x, ticks, guids), q) == Patch(Bump(e, mem, q), p, x, ticks, guids)
  {
    PutsCommute(mem, q, InstOf(mem, q).(version := InstOf(mem, q).version + 1), p, x, ticks, guids);
  }

  /** Completing a statement commutes with patching an instance it does not write. */
  lemma CompletePatch(e: Env, mem: Mem, w: Write, reply: Reply, p: Ptr, x: Inst, ticks: nat, guids: nat)
    requires Instance(w) != Some(p)
    ensures var done := Complete(e, mem, w, reply);
            Complete(e, Patch(mem, p, x, ticks, guids), w, reply) == done.(mem := Patch(done.mem, p, x, ticks, guids))
  {
    match w.finish
    case FinishInsert(q, generated) =>
      TrackPatch(e, mem, q, p, x, ticks, guids);
      if reply.Reply? && generated && reply.key.Some? {
        var y := Set(InstOf(mem, q), KeyPart(0), reply.key.value);
        PutsCommute(mem, q, y, p, x, ticks, guids);
        TrackPatch(e, Put(mem, q, y), q, p, x, ticks, guids);
      }
    case FinishFullUpdate(q) =>
      BumpPatch(e, mem, q, p, x, ticks, guids);
      TrackPatch(e, Bump(e, mem, q), q, p, x, ticks, guids);
    case FinishColumns(q, entry, props) => BumpPatch(e, mem, q, p, x, ticks, guids);
    case FinishDelete(q, entry, soft) => BumpPatch(e, mem, q, p, x, ticks, guids);
    case FinishDeleteKey(_, _) =>
    case FinishCommand =>
  }

  lemma TrackTicks(e: Env, mem: Mem, q: Ptr, ticks: nat, guids: nat)
    ensures TrackJournaled(e, mem.(ticks := ticks, guids := guids), q) ==
            TrackJournaled(e, mem, q).(mem := TrackJournaled(e, mem, q).mem.(ticks := ticks, guids := guids))
  {
  }

  lemma CompleteTicks(e: Env, mem: Mem, w: Write, reply: Reply, ticks: nat, guids: nat)
    ensures var done := Complete(e, mem, w, reply);
            Complete(e, mem.(ticks := ticks, guids := guids), w, reply) ==
              done.(mem := done.mem.(ticks := ticks, guids := guids))
  {
    match w.finish
    case FinishInsert(q, generated) =>
      TrackTicks(e, mem, q, ticks, guids);
      if reply.Reply? && generated && reply.key.Some? {
        TrackTicks(e, Put(mem, q, Set(InstOf(mem, q), KeyPart(0), reply.key.value)), q, ticks, guids);
      }
    case FinishFullUpdate(q) => TrackTicks(e, Bump(e, mem, q), q, ticks, guids);
    case FinishColumns(q, entry, props) =>
    case FinishDelete(q, entry, soft) =>
    case FinishDeleteKey(_, _) =>
    case FinishCommand =>
  }

  // --- what a preparation reads -------------------------------------------------------------------

  /** Everything the operation's key flow and preparation read outside the identity map is the same. */
  ghost predicate SameReads(e: Env, mem: Mem, other: Mem, op: Op) {
    && mem.ticks == other.ticks && mem.guids == other.guids
    && (OpInstance(op).Some? ==>
          && op.p in mem.inst && op.p in other.inst
          && InstOf(mem, op.p) == InstOf(other, op.p)
          && forall q :: DependsOn(e, op, q) ==> KeyOf(mem, q) == KeyOf(other, q))
  }

  lemma {:induction false} SameCopy(e: Env, mem: Mem, other: Mem, op: Op, source: Ptr, foreignKeys: seq<Prop>,
      from: nat)
    requires OpInstance(op).Some? && SameReads(e, mem, other, op) && DependsOn(e, op, source)
    ensures SameReads(e, CopyKey(mem, source, op.p, foreignKeys, from),
                      CopyKey(other, source, op.p, foreignKeys, from), op)
    decreases |foreignKeys| - from
  {
    if from < |foreignKeys| {
      var value := Get(InstOf(mem, source), KeyPart(from));
      assert value == Get(InstOf(other, source), KeyPart(from)) by {
        assert KeyOf(mem, source) == KeyOf(other, source);
      }
      var x := Set(InstOf(mem, op.p), foreignKeys[from], value);
      assert SameReads(e, Put(mem, op.p, x), Put(other, op.p, x), op);
      SameCopy(e, Put(mem, op.p, x), Put(other, op.p, x), op, source, foreignKeys, from + 1);
    }
  }

  lemma {:induction false} SameFlowNavigations(e: Env, mem: Mem, other: Mem, op: Op, from: nat)
    requires op.FlushInsert? && SameReads(e, mem, other, op)
    ensures SameReads(e, FlowNavigations(e, mem, op.p, from), FlowNavigations(e, other, op.p, from), op)
    decreases |MapFor(e, op.p).relationships| - from
  {
    var relationships := MapFor(e, op.p).relationships;
    if from < |relationships| {
      var targets := Targets(e, op.p, from);
      var r := relationships[from];
      if r.kind == ManyToOne && targets != [] && MapOf(e, r.target).arity == |r.foreignKeys| {
        assert ManyToOneTarget(e, op.p, targets[0]);
        SameCopy(e, mem, other, op, targets[0], r.foreignKeys, 0);
        SameFlowNavigations(e, CopyKey(mem, targets[0], op.p, r.foreignKeys, 0),
                            CopyKey(other, targets[0], op.p, r.foreignKeys, 0), op, from + 1);
      } else {
        SameFlowNavigations(e, mem, other, op, from + 1);
      }
    }
  }

  lemma {:induction false} SameFlowLinks(e: Env, mem: Mem, other: Mem, op: Op, links: seq<Link>)
    requires op.FlushInsert? && SameReads(e, mem, other, op) && forall l :: l in links ==> l in op.links
    ensures SameReads(e, FlowLinks(e, mem, op.p, links), FlowLinks(e, other, op.p, links), op)
    decreases |links|
  {
    if links != [] {
      var l := links[0];
      assert l in op.links;
      if GivesKey(l.kind) && MapFor(e, l.owner).arity == |l.foreignKeys| {
        SameCopy(e, mem, other, op, l.owner, l.foreignKeys, 0);
        SameFlowLinks(e, CopyKey(mem, l.owner, op.p, l.foreignKeys, 0),
                      CopyKey(other, l.owner, op.p, l.foreignKeys, 0), op, links[1..]);
      } else {
        SameFlowLinks(e, mem, other, op, links[1..]);
      }
    }
  }

  lemma SameFlow(e: Env, mem: Mem, other: Mem, op: Op)
    requires SameReads(e, mem, other, op)
    ensures SameReads(e, Flow(e, mem, op), Flow(e, other, op), op)
  {
    if op.FlushInsert? {
      SameFlowNavigations(e, mem, other, op, 0);
      SameFlowLinks(e, FlowNavigations(e, mem, op.p, 0), FlowNavigations(e, other, op.p, 0), op, op.links);
    }
  }

  lemma SameNavigations(e: Env, mem: Mem, other: Mem, op: Op, written: Option<seq<Prop>>)
    requires OpInstance(op).Some? && SameReads(e, mem, other, op)
    ensures NavigationsAgree(e, mem, op.p, written) == NavigationsAgree(e, other, op.p, written)
  {
    var relationships := MapFor(e, op.p).relationships;
    forall r | 0 <= r < |relationships| && relationships[r].kind == ManyToOne
      ensures NavigationAgrees(e, mem, op.p, relationships[r], Targets(e, op.p, r), written) ==
              NavigationAgrees(e, other, op.p, relationships[r], Targets(e, op.p, r), written)
    {
      if Targets(e, op.p, r) != [] {
        var q := Targets(e, op.p, r)[0];
        assert ManyToOneTarget(e, op.p, q) && DependsOn(e, op, q);
        assert KeyOf(mem, q) == KeyOf(other, q);
        assert forall k :: Get(InstOf(mem, q), KeyPart(k)) == Get(InstOf(other, q), KeyPart(k));
      }
    }
  }

  /** The memory the identity gate is asked in. */
  function AtGate(e: Env, mem: Mem, op: Op): Mem {
    if op.FlushInsert? || op.Insert? then AssignGuid(e, mem, op.p) else mem
  }

  /** The gate answers the same, and the entry it finds has the same snapshot. */
  ghost predicate SameGate(e: Env, mem: Mem, other: Mem, op: Op) {
    Gated(e, op) ==>
      && WriteIdentity(e, AtGate(e, mem, op), op.p) == WriteIdentity(e, AtGate(e, other, op), op.p)
      && (EntryOf(mem.ids, op.p).Some? ==>
            SnapshotOf(mem.ids, EntryOf(mem.ids, op.p).value) == SnapshotOf(other.ids, EntryOf(mem.ids, op.p).value))
  }

  /** The preparations issue the same and leave the instance and the streams the same. */
  ghost predicate SamePrepared(a: Preparation, b: Preparation, op: Op) {
    && a.issue == b.issue && a.mem.ticks == b.mem.ticks && a.mem.guids == b.mem.guids
    && (OpInstance(op).Some? ==> InstOf(a.mem, op.p) == InstOf(b.mem, op.p))
  }

  lemma SameAssigned(e: Env, mem: Mem, other: Mem, op: Op)
    requires (op.FlushInsert? || op.Insert?) && SameReads(e, mem, other, op)
    ensures var a, b := AssignGuid(e, mem, op.p), AssignGuid(e, other, op.p);
            InstOf(a, op.p) == InstOf(b, op.p) && a.ticks == b.ticks && a.guids == b.guids &&
            (op.p in a.inst <==> op.p in b.inst)
  {
  }

  lemma SameFilled(e: Env, a: Mem, b: Mem, p: Ptr)
    requires InstOf(a, p) == InstOf(b, p) && a.ticks == b.ticks && a.guids == b.guids && (p in a.inst <==> p in b.inst)
    ensures var x, y := FillCreatedAt(e, a, p), FillCreatedAt(e, b, p);
            && (x.Refusal? <==> y.Refusal?) && (x.Refusal? ==> x == y)
            && (x.Hooked? ==> InstOf(x.mem, p) == InstOf(y.mem, p) && x.mem.ticks == y.mem.ticks &&
                              x.mem.guids == y.mem.guids)
  {
  }

  lemma SameInsert(e: Env, mem: Mem, other: Mem, op: Op)
    requires op.FlushInsert? || op.Insert?
    requires SameReads(e, mem, other, op) && SameGate(e, mem, other, op)
    ensures SamePrepared(PrepareInsert(e, mem, op.p), PrepareInsert(e, other, op.p), op)
  {
    SameNavigations(e, mem, other, op, None);
    SameAssigned(e, mem, other, op);
    SameFilled(e, AssignGuid(e, mem, op.p), AssignGuid(e, other, op.p), op.p);
  }

  lemma SameColumns(e: Env, mem: Mem, other: Mem, op: Op, entry: Option<Entry>, props: seq<Prop>)
    requires OpInstance(op).Some? && SameReads(e, mem, other, op)
    ensures SamePrepared(PrepareColumns(e, mem, op.p, entry, props), PrepareColumns(e, other, op.p, entry, props), op)
  {
  }

  lemma SameUpdate(e: Env, mem: Mem, other: Mem, op: Op)
    requires op.Update? && SameReads(e, mem, other, op) && SameGate(e, mem, other, op)
    ensures SamePrepared(PrepareUpdate(e, mem, op.p), PrepareUpdate(e, other, op.p), op)
  {
    SameNavigations(e, mem, other, op, None);
    match WriteIdentity(e, mem, op.p)
    case Open(Some(entry)) =>
      SameColumns(e, mem, other, op, Some(entry),
                  Dirty(SnapshotOf(mem.ids, entry), InstOf(mem, op.p), WritableColumns(MapFor(e, op.p))));
    case _ =>
  }

  lemma SameUpdateOnly(e: Env, mem: Mem, other: Mem, op: Op)
    requires op.UpdateOnly? && SameReads(e, mem, other, op) && SameGate(e, mem, other, op)
    ensures SamePrepared(PrepareUpdateOnly(e, mem, op.p, op.props), PrepareUpdateOnly(e, other, op.p, op.props), op)
  {
    SameNavigations(e, mem, other, op, Some(op.props));
    match WriteIdentity(e, mem, op.p)
    case Open(entry) => SameColumns(e, mem, other, op, entry, op.props);
    case Closed =>
  }

  lemma SameDelete(e: Env, mem: Mem, other: Mem, op: Op)
    requires op.DeleteEntity? && SameReads(e, mem, other, op) && SameGate(e, mem, other, op)
    ensures SamePrepared(PrepareDeleteEntity(e, mem, op.p), PrepareDeleteEntity(e, other, op.p), op)
  {
  }

  lemma SamePrepare(e: Env, mem: Mem, other: Mem, op: Op)
    requires SameReads(e, mem, other, op) && SameGate(e, mem, other, op)
    ensures SamePrepared(Prepare(e, mem, op), Prepare(e, other, op), op)
  {
    match op
    case FlushInsert(_, _) => SameInsert(e, mem, other, op);
    case Insert(_) => SameInsert(e, mem, other, op);
    case Update(_) => SameUpdate(e, mem, other, op);
    case UpdateOnly(_, _) => SameUpdateOnly(e, mem, other, op);
    case DeleteEntity(_) => SameDelete(e, mem, other, op);
    case DeleteKey(_, _) =>
    case Execute(_, _) =>
  }

  // --- the gate, seen past a waiting statement ------------------------------------------------------

  /** What the waiting statements and the memory they were prepared in satisfy. */
  ghost predicate Tidy(e: Env, written: set<Ptr>, upcoming: set<Ptr>, mem: Mem, ws: seq<Pending>) {
    && Consistent(mem.ids) && Numbered(mem.ids) && OneWriteEach(ws)
    && (forall w :: w in ws ==> StillHolds(mem.ids, w.write))
    && Keyed(e, written, upcoming, mem, ws)
  }

  /** The statement takes the entry off the map: it deletes by its key, or inserts its instance anew. */
  predicate FreesEntry(w: Write, x: Entry) {
    w.finish == FinishDeleteKey(x.etype, x.key) || w.finish == FinishInsert(x.ptr, true)
  }

  predicate SomeFrees(ws: seq<Pending>, x: Entry) {
    exists w :: w in ws && FreesEntry(w.write, x)
  }

  /** The key the identity gate asks for. */
  function GateKey(e: Env, mem: Mem, op: Op): Key
    requires OpInstance(op).Some?
  {
    KeyOf(AtGate(e, Flow(e, mem, op), op), op.p)
  }

  /** No waiting statement frees the other entry the gate would find under the operation's key. */
  ghost predicate Unblocked(e: Env, mem: Mem, ws: seq<Pending>, op: Op) {
    Gated(e, op) ==>
      var holder := Find(mem.ids, TypeOf(e, op.p), GateKey(e, mem, op));
      HasNull(GateKey(e, mem, op)) || holder.None? || holder.value.ptr == op.p || !SomeFrees(ws, holder.value)
  }

  /** No GUID still to be handed out is a tracked key. */
  ghost predicate GuidsAhead(e: Env, mem: Mem) {
    forall id, n :: id in mem.ids.byKey && mem.guids <= n && id.1 != [] ==> id.1[0] != Guid(e.newGuid(n))
  }

  /** A journal that captured what the statement needs, to speak of its effect alone. */
  lemma Capturing(mem: Mem, w: Write) returns (journal: seq<Undo>)
    ensures CapturedFor(journal, w)
    ensures Instance(w).None? ==> Captured(journal) == {}
    ensures Instance(w).Some? && StillHolds(mem.ids, w) ==>
              forall s :: s in Captured(journal) ==>
                EntryOf(mem.ids, Instance(w).value).Some? && s == EntryOf(mem.ids, Instance(w).value).value.seqNo
  {
    if Instance(w).Some? {
      var u := UndoWrite(Instance(w).value, BLANK, if w.finish.FinishColumns? then w.finish.entry else None, BLANK,
                         None);
      journal := [u];
      assert journal[..0] == [] && u in journal;
    } else {
      journal := [];
    }
  }

  /** An instance a completed statement does not write keeps its key field, and its entry or loses that. */
  lemma OthersOnlyLose(e: Env, mem: Mem, w: Write, reply: Reply, q: Ptr)
    requires Consistent(mem.ids) && Numbered(mem.ids) && StillHolds(mem.ids, w) && Instance(w) != Some(q)
    ensures EntryOf(Complete(e, mem, w, reply).mem.ids, q) in {None, EntryOf(mem.ids, q)}
    ensures KeyOf(Complete(e, mem, w, reply).mem, q) == KeyOf(mem, q)
  {
    var journal := Capturing(mem, w);
    CompleteEffect(e, mem, journal, w, reply);
    CompleteOnly(e, mem, w, reply);
  }

  /** A dropped entry of another instance either gives its key to the statement's own or was deleted by key. */
  lemma DroppedForWhom(e: Env, mem: Mem, w: Write, reply: Reply, u: Undo)
    requires Consistent(mem.ids) && u in Complete(e, mem, w, reply).undos && Instance(w) != Some(u.dropped.ptr)
    requires StillHolds(mem.ids, w) && u.UndoRestore?
    ensures w.finish.FinishDeleteKey? || Find(Complete(e, mem, w, reply).mem.ids, u.dropped.etype, u.dropped.key).Some?
  {
    match w.finish
    case FinishInsert(p, generated) =>
      if reply.Reply? && generated && reply.key.Some? {
        GivesKeyAway(e, Put(mem, p, Set(InstOf(mem, p), KeyPart(0), reply.key.value)), p);
      } else if reply.Reply? && !generated {
        GivesKeyAway(e, mem, p);
      }
    case FinishFullUpdate(p) =>
      BumpOnly(e, mem, p);
      GivesKeyAway(e, Bump(e, mem, p), p);
    case FinishColumns(_, _, _) =>
    case FinishDelete(_, _, _) => DeleteDropsOwn(e, mem, w, reply, u);
    case FinishDeleteKey(_, _) =>
    case FinishCommand =>
  }

  lemma DeleteDropsOwn(e: Env, mem: Mem, w: Write, reply: Reply, u: Undo)
    requires Consistent(mem.ids) && w.finish.FinishDelete? && StillHolds(mem.ids, w)
    requires u in Complete(e, mem, w, reply).undos && u.UndoRestore?
    ensures Instance(w) == Some(u.dropped.ptr)
  {
    BumpOnly(e, mem, w.finish.p);
  }

  lemma GivesKeyAway(e: Env, mem: Mem, p: Ptr)
    requires Consistent(mem.ids)
    ensures forall u :: u in TrackJournaled(e, mem, p).undos ==>
              u.UndoRestore? && Find(TrackJournaled(e, mem, p).mem.ids, u.dropped.etype, u.dropped.key).Some?
  {
    if Registrable(e, mem, p) {
      RegisterKeepsMap(mem.ids, TypeOf(e, p), p, KeyOf(mem, p), InstOf(mem, p));
    }
  }

  lemma VacatedByOwn(e: Env, written: set<Ptr>, upcoming: set<Ptr>, mem: Mem, ws: seq<Pending>, h: Entry)
    requires Tidy(e, written, upcoming, mem, ws) && ws != []
    requires EntryOf(mem.ids, h.ptr) == Some(h) && Instance(ws[0].write) == Some(h.ptr) && h.ptr in written
    ensures ws[0].key == Some(IdOf(h)) && upcoming == {} && SetKey(MapOf(e, h.etype), h.key)
  {
    assert ws[0] in ws;
    assert KeyFact(e, mem, ws[0]);
    assert SettledAt(e, mem, h.ptr);
  }

  lemma VacatedByDelete(e: Env, written: set<Ptr>, upcoming: set<Ptr>, mem: Mem, ws: seq<Pending>, reply: Reply,
      u: Undo)
    requires Tidy(e, written, upcoming, mem, ws) && ws != []
    requires FreshKeys(e, Completed(mem, ws[0].write, reply))
    requires u in Complete(e, mem, ws[0].write, reply).undos && u.UndoRestore? &&
             Instance(ws[0].write) != Some(u.dropped.ptr)
    requires Find(Complete(e, mem, ws[0].write, reply).mem.ids, u.dropped.etype, u.dropped.key) == None
    ensures FreesEntry(ws[0].write, u.dropped)
  {
    assert ws[0] in ws;
    DroppedForWhom(e, mem, ws[0].write, reply, u);
    DroppedEntry(e, mem, ws[0].write, reply, u);
  }

  /** An entry gone without its key being taken over was freed, or stood under the key the statement holds. */
  lemma VacatedKey(e: Env, written: set<Ptr>, upcoming: set<Ptr>, mem: Mem, ws: seq<Pending>, reply: Reply, h: Entry)
    requires Tidy(e, written, upcoming, mem, ws) && ws != []
    requires FreshKeys(e, Completed(mem, ws[0].write, reply))
    requires Find(mem.ids, h.etype, h.key) == Some(h)
    requires Find(Complete(e, mem, ws[0].write, reply).mem.ids, h.etype, h.key) == None
    ensures FreesEntry(ws[0].write, h) ||
            (ws[0].key == Some(IdOf(h)) && upcoming == {} && SetKey(MapOf(e, h.etype), h.key))
  {
    var w := ws[0].write;
    var done := Complete(e, mem, w, reply);
    assert ws[0] in ws;
    var journal := Capturing(mem, w);
    CompleteEffect(e, mem, journal, w, reply);
    assert EntryOf(mem.ids, h.ptr) == Some(h) && IdOf(h) == (h.etype, h.key);
    if Instance(w) == Some(h.ptr) {
      if h.ptr in written {
        VacatedByOwn(e, written, upcoming, mem, ws, h);
      }
    } else {
      CompleteOnly(e, mem, w, reply);
      assert EntryOf(done.mem.ids, h.ptr) != Some(h);
      assert done.undos != [] && done.undos[0].dropped.ptr == h.ptr;
      assert EntryOf(mem.ids, done.undos[0].dropped.ptr) == Some(done.undos[0].dropped);
      VacatedByDelete(e, written, upcoming, mem, ws, reply, done.undos[0]);
    }
  }

  lemma EntryStays(e: Env, written: set<Ptr>, upcoming: set<Ptr>, mem: Mem, ws: seq<Pending>, op: Op, reply: Reply)
    requires Tidy(e, written, upcoming, mem, ws) && ws != [] && Free(e, mem, ws, op)
    requires FreshKeys(e, Completed(mem, ws[0].write, reply)) && OpInstance(op).Some? && op.p in written
    requires EntryOf(mem.ids, op.p).Some? ==> InPhase(upcoming, op)
    ensures EntryOf(Complete(e, mem, ws[0].write, reply).mem.ids, op.p) == EntryOf(mem.ids, op.p)
  {
    var w := ws[0].write;
    var done := Complete(e, mem, w, reply);
    assert ws[0] in ws && !Clashes(e, mem, ws[0], op);
    var journal := Capturing(mem, w);
    CompleteEffect(e, mem, journal, w, reply);
    assert SettledAt(e, mem, op.p) && KeyFact(e, mem, ws[0]);
    if done.undos != [] {
      assert done.undos[0] in done.undos;
      DroppedEntry(e, mem, w, reply, done.undos[0]);
    }
  }

  lemma SnapshotStays(e: Env, mem: Mem, w: Write, reply: Reply, p: Ptr)
    requires Consistent(mem.ids) && Numbered(mem.ids) && StillHolds(mem.ids, w)
    requires EntryOf(mem.ids, p).Some? && Instance(w) != Some(p)
    ensures SnapshotOf(Complete(e, mem, w, reply).mem.ids, EntryOf(mem.ids, p).value) ==
            SnapshotOf(mem.ids, EntryOf(mem.ids, p).value)
  {
    var journal := Capturing(mem, w);
    CompleteEffect(e, mem, journal, w, reply);
    assert mem.ids.byPtr[p].seqNo in mem.ids.snaps;
    assert mem.ids.byPtr[p].seqNo !in Captured(journal);
  }

  function Prepared(e: Env, mem: Mem, op: Op): Preparation {
    Prepare(e, Flow(e, mem, op), op)
  }

  lemma ReadsStay(e: Env, mem: Mem, ws: seq<Pending>, op: Op, reply: Reply)
    requires ws != [] && Free(e, mem, ws, op) && (OpInstance(op).Some? ==> op.p in mem.inst)
    ensures SameReads(e, mem, Complete(e, mem, ws[0].write, reply).mem, op)
  {
    var w := ws[0].write;
    var done := Complete(e, mem, w, reply);
    assert ws[0] in ws && !Clashes(e, mem, ws[0], op);
    CompleteOnly(e, mem, w, reply);
    if OpInstance(op).Some? {
      forall q: Ptr | DependsOn(e, op, q)
        ensures KeyOf(done.mem, q) == KeyOf(mem, q)
      {
        if Instance(w) == Some(q) {
          assert !GeneratesKey(w);
        }
      }
    }
  }

  /** A GUID assigned now is not a tracked key, and an assigned key is the only one a preparation changes. */
  lemma GateKeyIsNow(e: Env, mem: Mem, op: Op, h: Entry)
    requires Consistent(mem.ids) && GuidsAhead(e, mem) && OpInstance(op).Some? && !op.FlushInsert?
    requires Find(mem.ids, h.etype, h.key) == Some(h) && SetKey(MapOf(e, h.etype), h.key)
    requires IdOf(h) == (TypeOf(e, op.p), KeyOf(AtGate(e, mem, op), op.p))
    ensures KeyNow(e, mem, op) == Some(IdOf(h))
  {
    assert IdOf(h) in mem.ids.byKey;
  }

  /** An operation past rule 1 asks for no set key that a waiting delete is by. */
  lemma DeleteByGateKeyClashes(e: Env, written: set<Ptr>, upcoming: set<Ptr>, mem: Mem, ws: seq<Pending>, op: Op,
      h: Entry, w: Pending)
    requires Tidy(e, written, upcoming, mem, ws) && InPhase(upcoming, op) && GuidsAhead(e, mem) && Gated(e, op)
    requires Find(mem.ids, h.etype, h.key) == Some(h) && SetKey(MapOf(e, h.etype), h.key)
    requires IdOf(h) == (TypeOf(e, op.p), GateKey(e, mem, op)) && EntryOf(mem.ids, h.ptr) == Some(h)
    requires w in ws && w.write.finish == FinishDeleteKey(h.etype, h.key)
    ensures Clashes(e, mem, w, op)
  {
    assert KeyFact(e, mem, w);
    assert upcoming == {} && !op.FlushInsert?;
    GateKeyIsNow(e, mem, op, h);
  }

  /**
   A key another instance is tracked under when an operation prepares is still held when the waiting statement
   has completed.
   */
  lemma KeyStaysHeld(e: Env, written: set<Ptr>, upcoming: set<Ptr>, mem: Mem, ws: seq<Pending>, op: Op, reply: Reply,
      h: Entry)
    requires MayPass(e, written, upcoming, mem, ws, op) && ws != []
    requires FreshKeys(e, Completed(mem, ws[0].write, reply)) && GuidsAhead(e, mem) && Gated(e, op)
    requires Find(mem.ids, h.etype, h.key) == Some(h) && !HasNull(h.key)
    requires IdOf(h) == (TypeOf(e, op.p), GateKey(e, mem, op))
    ensures Find(Complete(e, mem, ws[0].write, reply).mem.ids, h.etype, h.key).Some?
  {
    if Find(Complete(e, mem, ws[0].write, reply).mem.ids, h.etype, h.key) == None {
      VacatedKey(e, written, upcoming, mem, ws, reply, h);
      assert ws[0] in ws && !Clashes(e, mem, ws[0], op) && EntryOf(mem.ids, h.ptr) == Some(h);
      if FreesEntry(ws[0].write, h) {
        assert SomeFrees(ws, h) && h.ptr == op.p && SettledAt(e, mem, op.p);
        DeleteByGateKeyClashes(e, written, upcoming, mem, ws, op, h, ws[0]);
      } else {
        assert !op.FlushInsert?;
        GateKeyIsNow(e, mem, op, h);
      }
      assert false;
    }
  }

  /** The gate sees the same key of the instance. */
  lemma GateKeyStays(e: Env, mem: Mem, ws: seq<Pending>, op: Op, reply: Reply)
    requires ws != [] && Free(e, mem, ws, op) && Gated(e, op) && op.p in mem.inst
    ensures var other := Complete(e, mem, ws[0].write, reply).mem;
            && GateKey(e, mem, op) == GateKey(e, other, op)
            && AtGate(e, Flow(e, mem, op), op).ids == mem.ids && AtGate(e, Flow(e, other, op), op).ids == other.ids
  {
    var other := Complete(e, mem, ws[0].write, reply).mem;
    ReadsStay(e, mem, ws, op, reply);
    SameFlow(e, mem, other, op);
    FlowOnly(e, mem, op);
    FlowOnly(e, other, op);
  }

  /** Where the later map lets the write through, the earlier one answers the same. */
  lemma OpenGateStays(e: Env, here: Mem, there: Mem, p: Ptr)
    requires KeyOf(here, p) == KeyOf(there, p) && EntryOf(here.ids, p) == EntryOf(there.ids, p)
    requires Find(here.ids, TypeOf(e, p), KeyOf(here, p)).Some? && !HasNull(KeyOf(here, p)) ==>
               Find(there.ids, TypeOf(e, p), KeyOf(here, p)).Some?
    requires WriteIdentity(e, there, p).Open?
    ensures WriteIdentity(e, here, p) == WriteIdentity(e, there, p)
  {
  }

  /** The operation can prepare past the message: rule 1 let it, it may write, and nothing that waits unblocks it. */
  ghost predicate MayPass(e: Env, written: set<Ptr>, upcoming: set<Ptr>, mem: Mem, ws: seq<Pending>, op: Op) {
    && Tidy(e, written, upcoming, mem, ws) && Free(e, mem, ws, op) && InPhase(upcoming, op)
    && Writable(e, written, mem, op) && Unblocked(e, mem, ws, op)
  }

  lemma GateStays(e: Env, written: set<Ptr>, upcoming: set<Ptr>, mem: Mem, ws: seq<Pending>, op: Op, reply: Reply)
    requires MayPass(e, written, upcoming, mem, ws, op) && ws != []
    requires FreshKeys(e, Completed(mem, ws[0].write, reply)) && GuidsAhead(e, mem)
    requires !Prepared(e, Complete(e, mem, ws[0].write, reply).mem, op).issue.Refused?
    ensures SameGate(e, Flow(e, mem, op), Flow(e, Complete(e, mem, ws[0].write, reply).mem, op), op)
  {
    if Gated(e, op) {
      var other := Complete(e, mem, ws[0].write, reply).mem;
      var here, there := AtGate(e, Flow(e, mem, op), op), AtGate(e, Flow(e, other, op), op);
      GateKeyStays(e, mem, ws, op, reply);
      EntryStays(e, written, upcoming, mem, ws, op, reply);
      OpenAt(e, Flow(e, other, op), op);
      KeyStillFound(e, written, upcoming, mem, ws, op, reply);
      OpenGateStays(e, here, there, op.p);
      FlowedIds(e, mem, op);
      FlowedIds(e, other, op);
      if EntryOf(mem.ids, op.p).Some? {
        assert ws[0] in ws && !Clashes(e, mem, ws[0], op);
        SnapshotStays(e, mem, ws[0].write, reply, op.p);
      }
    }
  }

  lemma FlowedIds(e: Env, mem: Mem, op: Op)
    ensures Flow(e, mem, op).ids == mem.ids
  {
    FlowOnly(e, mem, op);
  }

  /** What the gate finds under the instance's key is still found after the completion. */
  lemma KeyStillFound(
    e: Env, written: set<Ptr>, upcoming: set<Ptr>, mem: Mem, ws: seq<Pending>, op: Op, reply: Reply)
    requires MayPass(e, written, upcoming, mem, ws, op) && ws != []
    requires FreshKeys(e, Completed(mem, ws[0].write, reply)) && GuidsAhead(e, mem) && Gated(e, op)
    ensures var key := GateKey(e, mem, op);
            Find(mem.ids, TypeOf(e, op.p), key).Some? && !HasNull(key) ==>
              Find(Complete(e, mem, ws[0].write, reply).mem.ids, TypeOf(e, op.p), key).Some?
  {
    var found := Find(mem.ids, TypeOf(e, op.p), GateKey(e, mem, op));
    if found.Some? && !HasNull(GateKey(e, mem, op)) {
      KeyStaysHeld(e, written, upcoming, mem, ws, op, reply, found.value);
    }
  }

  lemma OpenAt(e: Env, mem: Mem, op: Op)
    requires Gated(e, op) && !Prepare(e, mem, op).issue.Refused?
    ensures WriteIdentity(e, AtGate(e, mem, op), op.p).Open?
  {
  }

  lemma PreparedIsPatch(e: Env, mem: Mem, op: Op)
    requires OpInstance(op).Some? ==> op.p in mem.inst
    ensures var after := Prepared(e, mem, op).mem;
            if OpInstance(op).Some? then after == Patch(mem, op.p, InstOf(after, op.p), after.ticks, after.guids)
            else after == mem.(ticks := after.ticks, guids := after.guids)
  {
    FlowOnly(e, mem, op);
    PrepareOnly(e, Flow(e, mem, op), op);
    if OpInstance(op).Some? {
      OnlyIsPatch(mem, Prepared(e, mem, op).mem, op.p);
    }
  }

  /**
   Preparing past a waiting statement and completing the statement first come to the same: the same
   statement or the same lack of one, and the same memory.
   */
  lemma PrepareCommutes(e: Env, written: set<Ptr>, upcoming: set<Ptr>, mem: Mem, ws: seq<Pending>, op: Op, reply: Reply)
    requires MayPass(e, written, upcoming, mem, ws, op) && ws != []
    requires FreshKeys(e, Completed(mem, ws[0].write, reply)) && GuidsAhead(e, mem)
    requires !Prepared(e, Complete(e, mem, ws[0].write, reply).mem, op).issue.Refused?
    ensures var done := Complete(e, mem, ws[0].write, reply);
            && Prepared(e, mem, op).issue == Prepared(e, done.mem, op).issue
            && Complete(e, Prepared(e, mem, op).mem, ws[0].write, reply) == done.(mem := Prepared(e, done.mem, op).mem)
  {
    var w := ws[0].write;
    var done := Complete(e, mem, w, reply);
    assert ws[0] in ws && !Clashes(e, mem, ws[0], op);
    ReadsStay(e, mem, ws, op, reply);
    SameFlow(e, mem, done.mem, op);
    GateStays(e, written, upcoming, mem, ws, op, reply);
    SamePrepare(e, Flow(e, mem, op), Flow(e, done.mem, op), op);
    PreparedIsPatch(e, mem, op);
    PreparedIsPatch(e, done.mem, op);
    var x := Prepared(e, mem, op).mem;
    if OpInstance(op).Some? {
      CompletePatch(e, mem, w, reply, op.p, InstOf(x, op.p), x.ticks, x.guids);
    } else {
      CompleteTicks(e, mem, w, reply, x.ticks, x.guids);
    }
  }
}
