/** The invariant of a call in progress from which its journal restores the session. */
module Restoring {
  import opened Values
  import opened Entities
  import opened IdentityMap
  import opened Writes
  import opened Calls
  import opened Frames
  import opened Undoing

  function Waiting(ws: seq<Pending>): set<Ptr> {
    set w | w in ws && Instance(w.write).Some? :: Instance(w.write).value
  }

  ghost predicate OneWriteEach(ws: seq<Pending>) {
    forall i, j :: 0 <= i < j < |ws| && Instance(ws[i].write).Some? ==> Instance(ws[i].write) != Instance(ws[j].write)
  }

  /** The entry the preparation found is still its instance's entry. */
  ghost predicate StillHolds(ids: IdMap, w: Write) {
    match w.finish
    case FinishColumns(p, entry, _) => EntryOf(ids, p) == entry
    case FinishDelete(p, entry, _) => EntryOf(ids, p) == entry
    case _ => true
  }

  ghost predicate CapturedFor(journal: seq<Undo>, w: Write) {
    && (Instance(w).Some? ==> FirstWrite(journal, Instance(w).value).Some?)
    && (w.finish.FinishColumns? && w.finish.entry.Some? ==> w.finish.entry.value.seqNo in Captured(journal))
  }

  ghost function FlowedInto(e: Env, all: seq<Op>, p: Ptr): iset<Prop> {
    iset op, prop | op in all && FlowWrites(e, op, p, prop) :: prop
  }

  /** A rollback would give every instance back its values, the flowed foreign keys aside. */
  ghost predicate FieldsKept(e: Env, all: seq<Op>, start: Mem, mem: Mem, journal: seq<Undo>) {
    && mem.inst.Keys == start.inst.Keys
    && forall p :: p in start.inst ==>
         SameOutside(PutBackFirst(InstOf(mem, p), FirstWrite(journal, p)), InstOf(start, p), FlowedInto(e, all, p))
  }

  /** ws are the statements prepared and not completed; cover adds the instance being prepared. */
  ghost predicate Core(e: Env, all: seq<Op>, start: Mem, mem: Mem, journal: seq<Undo>, ws: seq<Pending>,
      cover: set<Ptr>) {
    && Consistent(mem.ids) && Numbered(mem.ids)
    && OneWriteEach(ws) && Waiting(ws) <= cover
    && (forall w :: w in ws ==> StillHolds(mem.ids, w.write) && CapturedFor(journal, w.write))
    && (forall p :: p in cover ==> FirstWrite(journal, p).Some?)
    && Undoes(journal, mem.ids, cover, start.ids)
    && FieldsKept(e, all, start, mem, journal)
  }

  /** The session as the call found it: identity map and instances, the flowed foreign keys aside. */
  ghost predicate Restored(e: Env, all: seq<Op>, start: Mem, back: Mem) {
    && SameEntries(back.ids, start.ids)
    && back.inst.Keys == start.inst.Keys
    && (forall p :: p in start.inst ==> SameOutside(InstOf(back, p), InstOf(start, p), FlowedInto(e, all, p)))
  }

  lemma CoreRestores(e: Env, all: seq<Op>, start: Mem, mem: Mem, journal: seq<Undo>, ws: seq<Pending>, cover: set<Ptr>)
    requires Core(e, all, start, mem, journal, ws, cover)
    ensures Restored(e, all, start, Rollback(mem, journal))
  {
    RollbackIds(mem, journal);
    UndoesApplies(journal, mem.ids, cover, start.ids);
    RollbackInstances(mem, journal, 0);
    forall p | p in start.inst
      ensures SameOutside(InstOf(Rollback(mem, journal), p), InstOf(start, p), FlowedInto(e, all, p))
    {
      RollbackInstances(mem, journal, p);
    }
  }

  lemma CoreStarts(e: Env, all: seq<Op>, start: Mem)
    requires Consistent(start.ids) && Numbered(start.ids)
    ensures Core(e, all, start, start, [], [], {})
  {
    UndoesAtStart(start.ids);
  }

  /** A smaller cover asks for less. */
  lemma CoverShrinks(journal: seq<Undo>, ids: IdMap, cover: set<Ptr>, less: set<Ptr>, start: IdMap)
    requires Undoes(journal, ids, cover, start) && less <= cover
    ensures Undoes(journal, ids, less, start)
  {
    forall other | AgreeOff(ids, other, less, Captured(journal))
      ensures SameEntries(UndoAll(other, journal), start)
    {
      assert AgreeOff(ids, other, cover, Captured(journal));
    }
  }

  // --- before the statement is in the message ---------------------------------------------------

  lemma FlowKeepsCore(e: Env, all: seq<Op>, start: Mem, mem: Mem, journal: seq<Undo>, ws: seq<Pending>,
      cover: set<Ptr>, op: Op)
    requires Core(e, all, start, mem, journal, ws, cover) && op in all
    ensures Core(e, all, start, Flow(e, mem, op), journal, ws, cover)
  {
    FlowOnly(e, mem, op);
    if op.FlushInsert? {
      var after := Flow(e, mem, op);
      forall p | p in start.inst
        ensures SameOutside(PutBackFirst(InstOf(after, p), FirstWrite(journal, p)), InstOf(start, p),
                            FlowedInto(e, all, p))
      {
        assert FlowedBy(e, op, op.p) <= FlowedInto(e, all, op.p);
        var was, now := PutBackFirst(InstOf(mem, p), FirstWrite(journal, p)),
        PutBackFirst(InstOf(after, p), FirstWrite(journal, p));
        if p == op.p {
          assert SameOutside(now, was, FlowedBy(e, op, op.p)) by {
            forall prop | prop !in FlowedBy(e, op, op.p)
              ensures Get(now, prop) == Get(was, prop)
            {
              assert Get(InstOf(after, p), prop) == Get(InstOf(mem, p), prop);
            }
          }
        }
        assert SameOutside(was, InstOf(start, p), FlowedInto(e, all, p));
      }
    }
  }

  lemma RecordKeepsCore(e: Env, all: seq<Op>, start: Mem, mem: Mem, journal: seq<Undo>, ws: seq<Pending>,
      cover: set<Ptr>, p: Ptr)
    requires Core(e, all, start, mem, journal, ws, cover)
    requires var u := RecordWrite(e, mem, p); u.holder.Some? && u.holder != u.entry ==> u.holder.value.ptr !in cover
    ensures Core(e, all, start, mem, journal + [RecordWrite(e, mem, p)], ws, cover + {p})
    ensures EntryOf(mem.ids, p).Some? ==>
              EntryOf(mem.ids, p).value.seqNo in Captured(journal + [RecordWrite(e, mem, p)])
  {
    var u := RecordWrite(e, mem, p);
    var grown := journal + [u];
    assert u in grown;
    assert Captured(journal) <= Captured(grown);
    RecordKeepsUndoes(journal, mem.ids, cover, start.ids, u);
    assert grown[..|grown| - 1] == journal && grown[|grown| - 1] == u;
    forall q
      ensures FirstWrite(grown, q) == if FirstWrite(journal, q).Some? then FirstWrite(journal, q)
                                      else if q == p then Some(u.prior) else None
    {
    }
    assert forall q :: q in start.inst ==>
             PutBackFirst(InstOf(mem, q), FirstWrite(grown, q)) == PutBackFirst(InstOf(mem, q), FirstWrite(journal, q));
  }

  lemma TouchKeepsFields(e: Env, all: seq<Op>, start: Mem, mem: Mem, journal: seq<Undo>, after: Mem, p: Ptr)
    requires FieldsKept(e, all, start, mem, journal) && OnlyJournaled(mem, after, p) && FirstWrite(journal, p).Some?
    ensures FieldsKept(e, all, start, after, journal)
  {
    forall q | q in start.inst
      ensures PutBackFirst(InstOf(after, q), FirstWrite(journal, q)) ==
                PutBackFirst(InstOf(mem, q), FirstWrite(journal, q))
    {
    }
  }

  lemma PrepareKeepsCore(e: Env, all: seq<Op>, start: Mem, mem: Mem, journal: seq<Undo>, ws: seq<Pending>,
      cover: set<Ptr>, op: Op)
    requires Core(e, all, start, mem, journal, ws, cover)
    requires OpInstance(op).Some? ==> op.p in cover
    ensures Core(e, all, start, Prepare(e, mem, op).mem, journal, ws, cover)
  {
    PrepareOnly(e, mem, op);
    if OpInstance(op).Some? {
      TouchKeepsFields(e, all, start, mem, journal, Prepare(e, mem, op).mem, op.p);
    }
  }

  // --- completing a waiting statement -------------------------------------------------------------

  /** Every entry the completion drops belongs to an instance none of the rest writes. */
  ghost predicate Quiet(undos: seq<Undo>, rest: set<Ptr>) {
    forall u :: u in undos ==> u.UndoRestore? && u.dropped.ptr !in rest
  }

  /** A completion changes its own instance's entry and drops at most one other, which its undo names. */
  ghost predicate MapEffect(ids: IdMap, done: Completion, own: set<Ptr>, captured: set<nat>) {
    && Consistent(done.mem.ids) && Numbered(done.mem.ids)
    && (forall s :: s in ids.snaps && s !in captured ==>
          s in done.mem.ids.snaps && done.mem.ids.snaps[s] == ids.snaps[s])
    && (done.undos == [] ||
        (|done.undos| == 1 && done.undos[0].UndoRestore?
         && EntryOf(ids, done.undos[0].dropped.ptr) == Some(done.undos[0].dropped)
         && EntryOf(done.mem.ids, done.undos[0].dropped.ptr) == None))
    && (forall p :: p !in own && (done.undos != [] ==> p != done.undos[0].dropped.ptr) ==>
          EntryOf(done.mem.ids, p) == EntryOf(ids, p))
  }

  lemma RegisterOwns(ids: IdMap, t: TypeId, p: Ptr, key: Key, snapshot: Inst, q: Ptr)
    requires Consistent(ids) && q in Register(ids, t, p, key, snapshot).byPtr
    ensures var now := Register(ids, t, p, key, snapshot);
            if q == p then now.byPtr[q].seqNo == ids.next + 1 else EntryOf(now, q) == EntryOf(ids, q)
  {
    RegisterKeepsMap(ids, t, p, key, snapshot);
    assert EntryOf(Register(ids, t, p, key, snapshot), q).Some?;
  }

  lemma RegisterNumbers(ids: IdMap, t: TypeId, p: Ptr, key: Key, snapshot: Inst)
    requires Consistent(ids) && Numbered(ids)
    ensures Numbered(Register(ids, t, p, key, snapshot))
    ensures forall s :: s in ids.snaps ==> s in Register(ids, t, p, key, snapshot).snaps &&
                                           Register(ids, t, p, key, snapshot).snaps[s] == ids.snaps[s]
  {
    var now := Register(ids, t, p, key, snapshot);
    assert now.snaps == ids.snaps[ids.next + 1 := snapshot] && now.next == ids.next + 1;
    forall q | q in now.byPtr
      ensures if q == p then now.byPtr[q].seqNo == ids.next + 1 else q in ids.byPtr && now.byPtr[q] == ids.byPtr[q]
    {
      RegisterOwns(ids, t, p, key, snapshot, q);
    }
  }

  lemma RegisterDrops(ids: IdMap, t: TypeId, p: Ptr, key: Key, snapshot: Inst)
    requires Consistent(ids)
    ensures var holder := Find(ids, t, key);
            holder.Some? && holder.value.ptr != p ==>
              EntryOf(ids, holder.value.ptr) == holder &&
              EntryOf(Register(ids, t, p, key, snapshot), holder.value.ptr) == None
    ensures forall q :: q != p && (Find(ids, t, key).Some? ==> q != Find(ids, t, key).value.ptr) ==>
              EntryOf(Register(ids, t, p, key, snapshot), q) == EntryOf(ids, q)
  {
    var cleared := ForgetAny(ids, EntryOf(ids, p));
    var holder := Find(cleared, t, key);
    if holder.Some? {
      assert IdOf(holder.value) == (t, key);
    }
  }

  lemma TrackEffect(e: Env, mem: Mem, p: Ptr, captured: set<nat>)
    requires Consistent(mem.ids) && Numbered(mem.ids)
    ensures MapEffect(mem.ids, TrackJournaled(e, mem, p), {p}, captured)
  {
    var t, key := TypeOf(e, p), KeyOf(mem, p);
    if e.tracked && MapOf(e, t).arity != 0 && !HasNull(key) {
      RegisterKeepsMap(mem.ids, t, p, key, InstOf(mem, p));
      RegisterNumbers(mem.ids, t, p, key, InstOf(mem, p));
      RegisterDrops(mem.ids, t, p, key, InstOf(mem, p));
    }
  }

  lemma ForgetEffect(mem: Mem, entry: Option<Entry>, own: set<Ptr>, captured: set<nat>)
    requires Consistent(mem.ids) && Numbered(mem.ids)
    requires entry.Some? ==> EntryOf(mem.ids, entry.value.ptr) == entry
    ensures MapEffect(mem.ids, ForgetJournaled(mem, entry), own, captured)
  {
    if entry.Some? {
      ForgetKeepsMap(mem.ids, entry.value);
    }
  }

  lemma InsertEffect(e: Env, mem: Mem, journal: seq<Undo>, w: Write, reply: Reply)
    requires Consistent(mem.ids) && Numbered(mem.ids) && w.finish.FinishInsert?
    ensures MapEffect(mem.ids, Complete(e, mem, w, reply), {w.finish.p}, Captured(journal))
  {
    var p := w.finish.p;
    if reply.Reply? {
      if !w.finish.generated {
        TrackEffect(e, mem, p, Captured(journal));
      } else if reply.key.Some? {
        TrackEffect(e, Put(mem, p, Set(InstOf(mem, p), KeyPart(0), reply.key.value)), p, Captured(journal));
      }
    }
  }

  lemma ColumnsEffect(e: Env, mem: Mem, journal: seq<Undo>, w: Write, reply: Reply)
    requires Consistent(mem.ids) && Numbered(mem.ids) && w.finish.FinishColumns? && CapturedFor(journal, w)
    requires StillHolds(mem.ids, w)
    ensures MapEffect(mem.ids, Complete(e, mem, w, reply), {w.finish.p}, Captured(journal))
  {
    BumpOnly(e, mem, w.finish.p);
  }

  lemma DeleteEffect(e: Env, mem: Mem, journal: seq<Undo>, w: Write, reply: Reply)
    requires Consistent(mem.ids) && Numbered(mem.ids) && w.finish.FinishDelete? && StillHolds(mem.ids, w)
    ensures MapEffect(mem.ids, Complete(e, mem, w, reply), {w.finish.p}, Captured(journal))
  {
    var p, entry := w.finish.p, w.finish.entry;
    BumpOnly(e, mem, p);
    if entry.Some? {
      assert mem.ids.byPtr[p] == entry.value && entry.value.ptr == p;
    }
    ForgetEffect(if w.finish.soft then Bump(e, mem, p) else mem, entry, {p}, Captured(journal));
  }

  lemma CompleteEffect(e: Env, mem: Mem, journal: seq<Undo>, w: Write, reply: Reply)
    requires Consistent(mem.ids) && Numbered(mem.ids)
    requires StillHolds(mem.ids, w) && CapturedFor(journal, w)
    ensures MapEffect(mem.ids, Complete(e, mem, w, reply), if Instance(w).Some? then {Instance(w).value} else {},
                      Captured(journal))
  {
    FailedCompleteIsClean(e, mem, w, reply);
    match w.finish
    case FinishInsert(p, generated) => InsertEffect(e, mem, journal, w, reply);
    case FinishFullUpdate(p) => TrackEffect(e, Bump(e, mem, p), p, Captured(journal));
    case FinishColumns(p, entry, props) => ColumnsEffect(e, mem, journal, w, reply);
    case FinishDelete(p, entry, soft) => DeleteEffect(e, mem, journal, w, reply);
    case FinishDeleteKey(t, key) => ForgetEffect(mem, Find(mem.ids, t, key), {}, Captured(journal));
    case FinishCommand =>
  }

  lemma WaitingTail(ws: seq<Pending>)
    requires ws != [] && OneWriteEach(ws)
    ensures OneWriteEach(ws[1..])
    ensures Waiting(ws[1..]) <= Waiting(ws)
    ensures Instance(ws[0].write).Some? ==> Instance(ws[0].write).value in Waiting(ws) &&
                                            Instance(ws[0].write).value !in Waiting(ws[1..])
  {
    forall p | p in Waiting(ws[1..])
      ensures p in Waiting(ws) && Instance(ws[0].write) != Some(p)
    {
      var w :| w in ws[1..] && Instance(w.write) == Some(p);
      var j :| 0 <= j < |ws[1..]| && ws[1..][j] == w;
      assert ws[j + 1] == w;
    }
    assert ws[0] in ws;
  }

  lemma CompleteKeepsCore(e: Env, all: seq<Op>, start: Mem, mem: Mem, journal: seq<Undo>, ws: seq<Pending>,
      cover: set<Ptr>, reply: Reply)
    requires Core(e, all, start, mem, journal, ws, cover) && ws != []
    requires Quiet(Complete(e, mem, ws[0].write, reply).undos, Waiting(ws[1..]))
    ensures var done := Complete(e, mem, ws[0].write, reply);
            Core(e, all, start, done.mem, journal + done.undos, ws[1..], Waiting(ws[1..]))
  {
    var w, rest := ws[0].write, ws[1..];
    var done := Complete(e, mem, w, reply);
    assert ws[0] in ws;
    WaitingTail(ws);
    CompleteEffect(e, mem, journal, w, reply);
    CompleteOnly(e, mem, w, reply);
    var own := if Instance(w).Some? then {Instance(w).value} else {};
    CompleteKeepsUndoes(journal, mem.ids, cover, start.ids, done.mem.ids, Waiting(rest), done.undos, own);
    forall p
      ensures FirstWrite(journal + done.undos, p) == FirstWrite(journal, p)
    {
      FirstWriteAppend(journal, done.undos, p);
    }
    assert Captured(journal) <= Captured(journal + done.undos);
    forall v | v in rest
      ensures StillHolds(done.mem.ids, v.write) && CapturedFor(journal + done.undos, v.write)
    {
      assert v in ws;
      if Instance(v.write).Some? {
        assert Instance(v.write).value in Waiting(rest);
      }
    }
    if Instance(w).Some? {
      TouchKeepsFields(e, all, start, mem, journal, done.mem, Instance(w).value);
    }
    assert FieldsKept(e, all, start, done.mem, journal + done.undos);
  }
}
