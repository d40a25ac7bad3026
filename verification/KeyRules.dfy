/** Why rule 1 keeps the waiting statements of a message off each other's keys. */
module KeyRules {
  import opened Values
  import opened Entities
  import opened IdentityMap
  import opened Writes
  import opened Calls
  import opened Frames
  import opened Undoing
  import opened Restoring

  /** Every tracked instance the call writes is registered under the key it holds, and that key is set. */
  ghost predicate Settled(e: Env, mem: Mem, written: set<Ptr>) {
    && written <= mem.inst.Keys
    && (!e.tracked ==> mem.ids.byPtr == map[])
    && forall p :: p in written ==> SettledAt(e, mem, p)
  }

  ghost predicate SettledAt(e: Env, mem: Mem, p: Ptr) {
    EntryOf(mem.ids, p).Some? ==>
      && IdOf(EntryOf(mem.ids, p).value) == (TypeOf(e, p), KeyOf(mem, p))
      && SetKey(MapFor(e, p), KeyOf(mem, p)) && MapFor(e, p).arity != 0
  }

  /** A key the database generates is set and not yet tracked; every key a statement registers is set. */
  ghost predicate FreshKeys(e: Env, h: Completed) {
    match h.write.finish
    case FinishInsert(p, true) =>
      h.reply.Reply? && h.reply.key.Some? ==>
        var key := Set(InstOf(h.before, p), KeyPart(0), h.reply.key.value).key;
        SetKey(MapFor(e, p), key) && Find(h.before.ids, TypeOf(e, p), key) == None
    case FinishInsert(p, false) => Registrable(e, h.before, p) ==> SetKey(MapFor(e, p), KeyOf(h.before, p))
    case FinishFullUpdate(p) => Registrable(e, h.before, p) ==> SetKey(MapFor(e, p), KeyOf(h.before, p))
    case _ => true
  }

  ghost predicate Registrable(e: Env, mem: Mem, p: Ptr) {
    e.tracked && MapFor(e, p).arity != 0 && !HasNull(KeyOf(mem, p))
  }

  /** The key a waiting statement holds is its instance's key, or its key argument, when that is set. */
  ghost predicate KeyFact(e: Env, mem: Mem, w: Pending) {
    && (Instance(w.write).Some? ==>
          w.key == InstanceKey(e, mem, Instance(w.write).value))
    && (w.write.finish.FinishDeleteKey? ==>
          w.key == ArgumentKey(e, w.write.finish.t, w.write.finish.key))
  }

  ghost function InstanceKey(e: Env, mem: Mem, p: Ptr): Option<(TypeId, Key)> {
    if SetKey(MapFor(e, p), KeyOf(mem, p)) then Some((TypeOf(e, p), KeyOf(mem, p))) else None
  }

  ghost function ArgumentKey(e: Env, t: TypeId, key: Key): Option<(TypeId, Key)> {
    if SetKey(MapOf(e, t), key) then Some((t, key)) else None
  }

  /** No waiting statement is about the key another waiting statement's settled instance is tracked under. */
  ghost predicate Apart(written: set<Ptr>, mem: Mem, v: Pending, w: Pending) {
    WritesOneOf(w.write, written) && EntryOf(mem.ids, Instance(w.write).value).Some? ==>
      v.key != Some(IdOf(EntryOf(mem.ids, Instance(w.write).value).value))
  }

  predicate WritesOneOf(w: Write, written: set<Ptr>) {
    Instance(w).Some? && Instance(w).value in written
  }

  /** An insert whose key the database generates may wait although its instance is tracked under another key. */
  predicate LooseInsert(mem: Mem, w: Write) {
    GeneratesKey(w) && w.finish.p in mem.inst
  }

  /** While flushed inserts are to come, only untracked inserts wait, and those to come are untracked. */
  ghost predicate Inserting(ids: IdMap, ws: seq<Pending>, upcoming: set<Ptr>) {
    && (forall p :: p in upcoming ==> EntryOf(ids, p) == None)
    && (upcoming != {} ==> forall w :: w in ws ==>
          w.write.finish.FinishInsert? && EntryOf(ids, w.write.finish.p) == None && w.write.finish.p !in upcoming)
  }

  ghost predicate Keyed(e: Env, written: set<Ptr>, upcoming: set<Ptr>, mem: Mem, ws: seq<Pending>) {
    && Settled(e, mem, written)
    && (forall w :: w in ws && Instance(w.write).Some? ==> WritesOneOf(w.write, written) || LooseInsert(mem, w.write))
    && (forall w :: w in ws ==> KeyFact(e, mem, w))
    && (forall i, j :: 0 <= i < |ws| && 0 <= j < |ws| && i != j ==> Apart(written, mem, ws[i], ws[j]))
    && Inserting(mem.ids, ws, upcoming)
  }

  // --- completing ---------------------------------------------------------------------------------

  /** An entry the first statement drops is not that of a settled instance another waiting statement writes. */
  lemma DropsAreQuiet(e: Env, written: set<Ptr>, upcoming: set<Ptr>, mem: Mem, ws: seq<Pending>, reply: Reply)
    requires Consistent(mem.ids) && Keyed(e, written, upcoming, mem, ws) && ws != [] && OneWriteEach(ws)
    requires StillHolds(mem.ids, ws[0].write) && FreshKeys(e, Completed(mem, ws[0].write, reply))
    ensures Quiet(Complete(e, mem, ws[0].write, reply).undos, Waiting(ws[1..]) * written)
  {
    var done := Complete(e, mem, ws[0].write, reply);
    CompleteOnly(e, mem, ws[0].write, reply);
    WaitingTail(ws);
    assert ws[0] in ws;
    forall u | u in done.undos
      ensures u.dropped.ptr !in Waiting(ws[1..]) * written
    {
      if u.dropped.ptr in Waiting(ws[1..]) * written {
        var w :| w in ws[1..] && Instance(w.write) == Some(u.dropped.ptr);
        var j :| 0 <= j < |ws[1..]| && ws[1..][j] == w;
        assert ws[j + 1] == w && Apart(written, mem, ws[0], ws[j + 1]) && w in ws;
        assert SettledAt(e, mem, u.dropped.ptr);
        DroppedEntry(e, mem, ws[0].write, reply, u);
        assert false;
      }
    }
  }

  /** What a completion drops besides its own instance's entry stood under the key the statement is about. */
  lemma DroppedEntry(e: Env, mem: Mem, w: Write, reply: Reply, u: Undo)
    requires Consistent(mem.ids) && StillHolds(mem.ids, w) && FreshKeys(e, Completed(mem, w, reply))
    requires u in Complete(e, mem, w, reply).undos
    ensures u.UndoRestore? && EntryOf(mem.ids, u.dropped.ptr) == Some(u.dropped)
    ensures Instance(w) == Some(u.dropped.ptr) ||
            (Instance(w).Some? && IdOf(u.dropped) == (TypeOf(e, Instance(w).value), KeyOf(mem, Instance(w).value))) ||
            (w.finish.FinishDeleteKey? && IdOf(u.dropped) == (w.finish.t, w.finish.key))
  {
    match w.finish
    case FinishInsert(p, generated) =>
    case FinishFullUpdate(p) => BumpOnly(e, mem, p);
    case FinishColumns(p, entry, props) =>
    case FinishDelete(p, entry, soft) =>
      BumpOnly(e, mem, p);
      assert u.dropped == entry.value && EntryOf(mem.ids, p) == entry;
      assert mem.ids.byPtr[p].ptr == p;
    case FinishDeleteKey(t, key) =>
    case FinishCommand =>
  }

  lemma TrackSettles(e: Env, mem: Mem, p: Ptr)
    requires Consistent(mem.ids) && p in mem.inst
    requires !e.tracked ==> mem.ids.byPtr == map[]
    requires Registrable(e, mem, p) ==> SetKey(MapFor(e, p), KeyOf(mem, p))
    requires SettledAt(e, mem, p) || SetKey(MapFor(e, p), KeyOf(mem, p))
    requires EntryOf(mem.ids, p).Some? ==> MapFor(e, p).arity != 0
    ensures SettledAt(e, TrackJournaled(e, mem, p).mem, p)
    ensures !e.tracked ==> TrackJournaled(e, mem, p).mem.ids.byPtr == map[]
  {
    if Registrable(e, mem, p) {
      RegisterKeepsMap(mem.ids, TypeOf(e, p), p, KeyOf(mem, p), InstOf(mem, p));
    }
  }

  lemma CompleteSettlesOwn(e: Env, mem: Mem, w: Write, reply: Reply, p: Ptr)
    requires Consistent(mem.ids) && Instance(w) == Some(p) && p in mem.inst
    requires !e.tracked ==> mem.ids.byPtr == map[]
    requires SettledAt(e, mem, p) && StillHolds(mem.ids, w) && FreshKeys(e, Completed(mem, w, reply))
    ensures SettledAt(e, Complete(e, mem, w, reply).mem, p)
    ensures !e.tracked ==> Complete(e, mem, w, reply).mem.ids.byPtr == map[]
  {
    FailedCompleteIsClean(e, mem, w, reply);
    match w.finish
    case FinishInsert(_, generated) =>
      if reply.Reply? {
        if !generated {
          TrackSettles(e, mem, p);
        } else if reply.key.Some? {
          TrackSettles(e, Put(mem, p, Set(InstOf(mem, p), KeyPart(0), reply.key.value)), p);
        }
      }
    case FinishFullUpdate(_) =>
      BumpOnly(e, mem, p);
      TrackSettles(e, Bump(e, mem, p), p);
    case FinishColumns(_, entry, props) => BumpOnly(e, mem, p);
    case FinishDelete(_, entry, soft) =>
      BumpOnly(e, mem, p);
      if entry.Some? {
        assert mem.ids.byPtr[p].ptr == p;
      }
  }

  /** The rest of the waiting statements see nothing of a completion but entries gone that were not theirs. */
  lemma RestKeepsKeyed(e: Env, written: set<Ptr>, mem: Mem, ws: seq<Pending>, after: Mem)
    requires ws != []
    requires forall w :: w in ws ==> KeyFact(e, mem, w)
    requires forall i, j :: 0 <= i < |ws| && 0 <= j < |ws| && i != j ==> Apart(written, mem, ws[i], ws[j])
    requires forall p :: p in Waiting(ws[1..]) ==> KeyOf(after, p) == KeyOf(mem, p)
    requires forall p :: p in Waiting(ws[1..]) && p in written ==> EntryOf(after.ids, p) == EntryOf(mem.ids, p)
    ensures forall w :: w in ws[1..] ==> KeyFact(e, after, w)
    ensures forall i, j :: 0 <= i < |ws[1..]| && 0 <= j < |ws[1..]| && i != j ==>
              Apart(written, after, ws[1..][i], ws[1..][j])
  {
    var rest := ws[1..];
    forall v | v in rest
      ensures KeyFact(e, after, v)
    {
      assert v in ws && KeyFact(e, mem, v);
      if Instance(v.write).Some? {
        assert Instance(v.write).value in Waiting(rest);
      }
    }
    forall i, j | 0 <= i < |rest| && 0 <= j < |rest| && i != j
      ensures Apart(written, after, rest[i], rest[j])
    {
      assert Apart(written, mem, ws[i + 1], ws[j + 1]);
      assert rest[j] in rest;
      if Instance(rest[j].write).Some? {
        assert Instance(rest[j].write).value in Waiting(rest);
      }
    }
  }

  lemma RestKeepsInserting(mem: Mem, ws: seq<Pending>, after: Mem, upcoming: set<Ptr>)
    requires ws != [] && Inserting(mem.ids, ws, upcoming) && OneWriteEach(ws)
    requires forall p: Ptr :: Instance(ws[0].write) != Some(p) ==> EntryOf(after.ids, p) in {None, EntryOf(mem.ids, p)}
    ensures Inserting(after.ids, ws[1..], upcoming)
  {
    assert ws[0] in ws;
    WaitingTail(ws);
    if upcoming != {} {
      forall v | v in ws[1..]
        ensures v.write.finish.FinishInsert? && EntryOf(after.ids, v.write.finish.p) == None &&
                v.write.finish.p !in upcoming
      {
        assert v in ws && v.write.finish.p in Waiting(ws[1..]);
      }
    }
  }

  /** Of the instances the rest write, a completion changes no key field, and no entry of a settled one. */
  lemma RestIsUntouched(e: Env, written: set<Ptr>, upcoming: set<Ptr>, mem: Mem, journal: seq<Undo>, ws: seq<Pending>,
      reply: Reply, p: Ptr)
    requires Consistent(mem.ids) && Numbered(mem.ids) && OneWriteEach(ws) && ws != []
    requires Keyed(e, written, upcoming, mem, ws)
    requires StillHolds(mem.ids, ws[0].write) && CapturedFor(journal, ws[0].write)
    requires FreshKeys(e, Completed(mem, ws[0].write, reply)) && p in Waiting(ws[1..])
    ensures var after := Complete(e, mem, ws[0].write, reply).mem;
            KeyOf(after, p) == KeyOf(mem, p) && (p in written ==> EntryOf(after.ids, p) == EntryOf(mem.ids, p))
  {
    WaitingTail(ws);
    DropsAreQuiet(e, written, upcoming, mem, ws, reply);
    CompleteEffect(e, mem, journal, ws[0].write, reply);
    CompleteOnly(e, mem, ws[0].write, reply);
  }

  lemma CompleteKeepsKeyed(e: Env, written: set<Ptr>, upcoming: set<Ptr>, mem: Mem, journal: seq<Undo>,
      ws: seq<Pending>, reply: Reply)
    requires Consistent(mem.ids) && Numbered(mem.ids) && OneWriteEach(ws) && ws != []
    requires Keyed(e, written, upcoming, mem, ws)
    requires StillHolds(mem.ids, ws[0].write) && CapturedFor(journal, ws[0].write)
    requires FreshKeys(e, Completed(mem, ws[0].write, reply))
    ensures Keyed(e, written, upcoming, Complete(e, mem, ws[0].write, reply).mem, ws[1..])
  {
    var w := ws[0].write;
    var after := Complete(e, mem, w, reply).mem;
    assert ws[0] in ws;
    CompleteEffect(e, mem, journal, w, reply);
    CompleteOnly(e, mem, w, reply);
    forall p | p in Waiting(ws[1..])
      ensures KeyOf(after, p) == KeyOf(mem, p)
      ensures p in written ==> EntryOf(after.ids, p) == EntryOf(mem.ids, p)
    {
      RestIsUntouched(e, written, upcoming, mem, journal, ws, reply, p);
    }
    RestKeepsKeyed(e, written, mem, ws, after);
    RestKeepsInserting(mem, ws, after, upcoming);
    CompleteKeepsSettled(e, written, mem, journal, w, reply);
  }

  lemma UntrackedStaysEmpty(e: Env, mem: Mem, w: Write, reply: Reply)
    requires !e.tracked && mem.ids.byPtr == map[] && (Instance(w).Some? ==> GeneratesKey(w))
    ensures Complete(e, mem, w, reply).mem.ids.byPtr == map[]
  {
  }

  lemma CompleteKeepsSettled(e: Env, written: set<Ptr>, mem: Mem, journal: seq<Undo>, w: Write, reply: Reply)
    requires Consistent(mem.ids) && Numbered(mem.ids) && Settled(e, mem, written)
    requires Instance(w).Some? ==> WritesOneOf(w, written) || GeneratesKey(w)
    requires StillHolds(mem.ids, w) && CapturedFor(journal, w)
    requires FreshKeys(e, Completed(mem, w, reply))
    ensures Settled(e, Complete(e, mem, w, reply).mem, written)
  {
    CompleteEffect(e, mem, journal, w, reply);
    CompleteOnly(e, mem, w, reply);
    var after := Complete(e, mem, w, reply).mem;
    if WritesOneOf(w, written) {
      assert SettledAt(e, mem, Instance(w).value);
      CompleteSettlesOwn(e, mem, w, reply, Instance(w).value);
    } else if !e.tracked {
      UntrackedStaysEmpty(e, mem, w, reply);
    }
    forall p | p in written
      ensures SettledAt(e, after, p)
    {
      assert SettledAt(e, mem, p);
    }
  }

  // --- joining ------------------------------------------------------------------------------------

  /** Rule 1 let the operation join: no waiting statement clashes with it. */
  ghost predicate Free(e: Env, mem: Mem, ws: seq<Pending>, op: Op) {
    forall held :: held in ws ==> !Clashes(e, mem, held, op)
  }

  /** Where the operation's key flow stands: none, or a flushed insert while only untracked inserts wait. */
  ghost predicate InPhase(upcoming: set<Ptr>, op: Op) {
    if op.FlushInsert? then op.p in upcoming else upcoming == {}
  }

  lemma FreeIsDistinct(e: Env, mem: Mem, ws: seq<Pending>, op: Op, w: Pending)
    requires OneWriteEach(ws) && Free(e, mem, ws, op) && Instance(w.write) == OpInstance(op)
    ensures OneWriteEach(ws + [w])
    ensures OpInstance(op).Some? ==> op.p !in Waiting(ws)
    ensures Waiting(ws + [w]) == Waiting(ws) + (if OpInstance(op).Some? then {op.p} else {})
  {
    forall i | 0 <= i < |ws|
      ensures OpInstance(op).Some? ==> Instance(ws[i].write) != OpInstance(op)
    {
      assert ws[i] in ws;
    }
    assert forall v :: v in ws + [w] <==> v in ws || v == w;
  }

  /** A waiting statement on a tracked instance holds the key of its entry. */
  lemma TrackedHoldsKey(e: Env, written: set<Ptr>, upcoming: set<Ptr>, mem: Mem, ws: seq<Pending>, held: Pending)
    requires Keyed(e, written, upcoming, mem, ws) && held in ws
    requires WritesOneOf(held.write, written) && EntryOf(mem.ids, Instance(held.write).value).Some?
    ensures held.key == Some(IdOf(EntryOf(mem.ids, Instance(held.write).value).value))
  {
    assert KeyFact(e, mem, held);
    assert SettledAt(e, mem, Instance(held.write).value);
  }

  /** The entry a capture finds under the instance's key is no waiting statement's. */
  lemma RecordIsQuiet(e: Env, written: set<Ptr>, upcoming: set<Ptr>, mem: Mem, ws: seq<Pending>, op: Op)
    requires Consistent(mem.ids) && Keyed(e, written, upcoming, mem, ws) && Free(e, mem, ws, op)
    requires InPhase(upcoming, op) && OpInstance(op).Some? && Waiting(ws) <= written
    ensures var u := RecordWrite(e, Flow(e, mem, op), op.p);
            u.holder.Some? && u.holder != u.entry ==> u.holder.value.ptr !in Waiting(ws)
  {
    FlowOnly(e, mem, op);
    var u := RecordWrite(e, Flow(e, mem, op), op.p);
    assert u.holder.Some? ==> EntryOf(mem.ids, u.holder.value.ptr) == u.holder;
    forall held | held in ws && Instance(held.write).Some? && EntryOf(mem.ids, Instance(held.write).value).Some?
      ensures held.key == Some(IdOf(EntryOf(mem.ids, Instance(held.write).value).value))
    {
      assert Instance(held.write).value in Waiting(ws);
      TrackedHoldsKey(e, written, upcoming, mem, ws, held);
    }
  }

  /** What the gate lets through holds its own key alone. */
  lemma OpenGate(e: Env, mem: Mem, p: Ptr, other: Entry)
    requires Consistent(mem.ids) && WriteIdentity(e, mem, p).Open?
    requires EntryOf(mem.ids, p).Some? ==> EntryOf(mem.ids, p).value.etype == TypeOf(e, p)
    requires EntryOf(mem.ids, other.ptr) == Some(other) && other.ptr != p && !HasNull(KeyOf(mem, p))
    ensures IdOf(other) != (TypeOf(e, p), KeyOf(mem, p))
    ensures WriteIdentity(e, mem, p).entry == EntryOf(mem.ids, p)
  {
    assert mem.ids.byKey[IdOf(other)] == other;
  }

  /** Whether the operation's preparation passes the identity gate. */
  predicate Gated(e: Env, op: Op) {
    match op
    case FlushInsert(p, _) => MapFor(e, p).strategy != DatabaseGenerated
    case Insert(p) => MapFor(e, p).strategy != DatabaseGenerated
    case DeleteKey(_, _) => false
    case Execute(_, _) => false
    case _ => true
  }

  lemma IssuedPassedGate(e: Env, mem: Mem, op: Op)
    requires Prepare(e, mem, op).issue.Issued? && Gated(e, op)
    ensures WriteIdentity(e, if op.FlushInsert? || op.Insert? then AssignGuid(e, mem, op.p) else mem, op.p).Open?
  {
  }

  lemma IssuedFinish(e: Env, mem: Mem, op: Op)
    requires Prepare(e, mem, op).issue.Issued?
    ensures var w := Prepare(e, mem, op).issue.write;
            && StillHolds(mem.ids, w)
            && (op.DeleteKey? ==> w.finish == FinishDeleteKey(op.t, op.key) && ValidKeyArgument(MapOf(e, op.t), op.key))
            && (op.FlushInsert? || op.Insert? ==>
                  w.finish == FinishInsert(op.p, MapFor(e, op.p).strategy == DatabaseGenerated))
            && (w.finish.FinishDeleteKey? ==> op.DeleteKey?)
            && (w.finish.FinishColumns? && w.finish.entry.Some? ==> w.finish.entry == EntryOf(mem.ids, op.p))
  {
  }

  /** A settled tracked instance keeps its key through its own preparation. */
  lemma SettledKeepsKey(e: Env, mem: Mem, op: Op)
    requires OpInstance(op).Some? && SettledAt(e, mem, op.p) && EntryOf(mem.ids, op.p).Some?
    ensures KeyOf(Prepare(e, mem, op).mem, op.p) == KeyOf(mem, op.p)
  {
    PrepareOnly(e, mem, op);
    if op.FlushInsert? || op.Insert? {
      PrepareInsertOnly(e, mem, op.p);
      assert !UnsetKeyPart(MapFor(e, op.p), KeyOf(mem, op.p)[0]);
      assert AssignGuid(e, mem, op.p) == mem;
    }
  }

  lemma PrepareKeepsKeyed(e: Env, written: set<Ptr>, upcoming: set<Ptr>, mem: Mem, ws: seq<Pending>, op: Op)
    requires Keyed(e, written, upcoming, mem, ws) && Free(e, mem, ws, op) && InPhase(upcoming, op)
    ensures Keyed(e, written, upcoming, Prepare(e, Flow(e, mem, op), op).mem, ws)
  {
    var flowed := Flow(e, mem, op);
    var after := Prepare(e, flowed, op).mem;
    FlowOnly(e, mem, op);
    PrepareOnly(e, flowed, op);
    forall p | p in written
      ensures SettledAt(e, after, p)
    {
      assert SettledAt(e, mem, p);
      if OpInstance(op) == Some(p) && EntryOf(mem.ids, p).Some? {
        SettledKeepsKey(e, flowed, op);
      }
    }
    forall w | w in ws
      ensures KeyFact(e, after, w)
    {
      assert KeyFact(e, mem, w) && !Clashes(e, mem, w, op);
    }
    forall i, j | 0 <= i < |ws| && 0 <= j < |ws| && i != j
      ensures Apart(written, after, ws[i], ws[j])
    {
      assert Apart(written, mem, ws[i], ws[j]);
    }
  }

  /** What an operation may write: a settled instance, or one it inserts under a key the database generates. */
  ghost predicate Writable(e: Env, written: set<Ptr>, mem: Mem, op: Op) {
    OpInstance(op).Some? ==> op.p in mem.inst && (op.p in written || (op.Insert? && !Gated(e, op)))
  }

  /** The new statement's key is not the one a waiting statement's instance is tracked under. */
  lemma NewIsApart(e: Env, written: set<Ptr>, upcoming: set<Ptr>, mem: Mem, ws: seq<Pending>, op: Op, held: Pending)
    requires Consistent(mem.ids) && Keyed(e, written, upcoming, mem, ws) && Free(e, mem, ws, op) &&
             InPhase(upcoming, op)
    requires Writable(e, written, mem, op)
    requires Prepare(e, Flow(e, mem, op), op).issue.Issued? && held in ws
    ensures var v := Pending(Prepare(e, Flow(e, mem, op), op).issue.write,
                             KeyNow(e, Prepare(e, Flow(e, mem, op), op).mem, op));
            Apart(written, mem, v, held)
  {
    var flowed := Flow(e, mem, op);
    var prepared := Prepare(e, flowed, op);
    FlowOnly(e, mem, op);
    PrepareOnly(e, flowed, op);
    var key := KeyNow(e, prepared.mem, op);
    if WritesOneOf(held.write, written) && EntryOf(mem.ids, Instance(held.write).value).Some? && key.Some? {
      var q := Instance(held.write).value;
      var other := EntryOf(mem.ids, q).value;
      assert !op.FlushInsert? && !Clashes(e, mem, held, op);
      TrackedHoldsKey(e, written, upcoming, mem, ws, held);
      if Gated(e, op) {
        IssuedPassedGate(e, flowed, op);
        var gated := if op.Insert? then AssignGuid(e, mem, op.p) else mem;
        if op.Insert? {
          PrepareInsertOnly(e, mem, op.p);
        }
        assert KeyOf(gated, op.p) == KeyOf(prepared.mem, op.p) && gated.ids == mem.ids;
        assert SettledAt(e, mem, op.p) && q != op.p;
        assert mem.ids.byPtr[q].ptr == q;
        OpenGate(e, gated, op.p, other);
      } else {
        if op.Insert? {
          PrepareInsertOnly(e, mem, op.p);
        }
        assert key == KeyNow(e, mem, op);
      }
    }
  }

  /** A held statement's key is not the one the new statement's instance is tracked under. */
  lemma HeldIsApart(
    e: Env, written: set<Ptr>, upcoming: set<Ptr>, mem: Mem, ws: seq<Pending>, op: Op, held: Pending, v: Pending)
    requires Keyed(e, written, upcoming, mem, ws) && Free(e, mem, ws, op) && held in ws
    requires Instance(v.write) == OpInstance(op)
    requires EntryOf(mem.ids, if OpInstance(op).Some? then op.p else 0).Some? ==> InPhase(upcoming, op)
    ensures Apart(written, mem, held, v)
  {
    assert !Clashes(e, mem, held, op);
    if OpInstance(op).Some? && op.p in written {
      assert SettledAt(e, mem, op.p);
    }
  }

  lemma JoinedIsApart(e: Env, written: set<Ptr>, upcoming: set<Ptr>, mem: Mem, ws: seq<Pending>, op: Op, i: nat, j: nat)
    requires Consistent(mem.ids)
    requires Keyed(e, written, upcoming, mem, ws) && Free(e, mem, ws, op) && InPhase(upcoming, op)
    requires Writable(e, written, mem, op)
    requires Prepare(e, Flow(e, mem, op), op).issue.Issued? && i <= |ws| && j <= |ws| && i != j
    ensures var prepared := Prepare(e, Flow(e, mem, op), op);
            var joined := ws + [Pending(prepared.issue.write, KeyNow(e, prepared.mem, op))];
            Apart(written, mem, joined[i], joined[j])
  {
    var prepared := Prepare(e, Flow(e, mem, op), op);
    var v := Pending(prepared.issue.write, KeyNow(e, prepared.mem, op));
    PrepareOnly(e, Flow(e, mem, op), op);
    if i == |ws| {
      assert ws[j] in ws;
      NewIsApart(e, written, upcoming, mem, ws, op, ws[j]);
    } else if j == |ws| {
      assert ws[i] in ws;
      HeldIsApart(e, written, upcoming, mem, ws, op, ws[i], v);
    }
  }

  lemma JoinKeepsKeyed(e: Env, written: set<Ptr>, upcoming: set<Ptr>, mem: Mem, ws: seq<Pending>, op: Op)
    requires Consistent(mem.ids) && OneWriteEach(ws)
    requires Keyed(e, written, upcoming, mem, ws) && Free(e, mem, ws, op) && InPhase(upcoming, op)
    requires Writable(e, written, mem, op)
    requires Prepare(e, Flow(e, mem, op), op).issue.Issued?
    ensures var prepared := Prepare(e, Flow(e, mem, op), op);
            var v := Pending(prepared.issue.write, KeyNow(e, prepared.mem, op));
            Keyed(e, written, if op.FlushInsert? then upcoming - {op.p} else upcoming, prepared.mem, ws + [v])
  {
    var flowed := Flow(e, mem, op);
    var prepared := Prepare(e, flowed, op);
    var after := prepared.mem;
    var v := Pending(prepared.issue.write, KeyNow(e, after, op));
    var joined := ws + [v];
    FlowOnly(e, mem, op);
    PrepareOnly(e, flowed, op);
    IssuedFinish(e, flowed, op);
    PrepareKeepsKeyed(e, written, upcoming, mem, ws, op);
    FreeIsDistinct(e, mem, ws, op, v);
    assert KeyFact(e, after, v);
    forall i, j | 0 <= i < |joined| && 0 <= j < |joined| && i != j
      ensures Apart(written, after, joined[i], joined[j])
    {
      JoinedIsApart(e, written, upcoming, mem, ws, op, i, j);
    }
    assert forall w :: w in joined <==> w in ws || w == v;
  }
}
