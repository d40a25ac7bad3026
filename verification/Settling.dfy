/**
 What a call that succeeds leaves: every tracked instance as its snapshot has it, and no deleted one tracked. A flush
 leaves nothing for the next flush to write.
 */
module Settling {
  import opened Values
  import opened Entities
  import opened IdentityMap
  import opened Writes
  import opened Calls
  import opened Frames
  import opened Restoring
  import opened KeyRules
  import opened Strays
  import opened Arrivals
  import opened Keeping
  import DirtyUpdates
  import Statements

  /** The instances a call inserts, those it deletes, and whether it deletes by a key alone. */
  datatype Roles = Roles(inserted: set<Ptr>, deleted: set<Ptr>, byKey: bool)

  /** The instance holds what its snapshot has, wherever an update would write. */
  ghost predicate Clean(e: Env, mem: Mem, x: Entry) {
    forall prop :: !Statements.Edited(MapOf(e, x.etype), SnapshotOf(mem.ids, x), InstOf(mem, x.ptr), prop)
  }

  /** The entry is of its instance's type, and its snapshot has the instance's shape. */
  predicate SnapshotFits(e: Env, mem: Mem, x: Entry) {
    && x.etype == TypeOf(e, x.ptr) && |SnapshotOf(mem.ids, x).key| == |InstOf(mem, x.ptr).key|
    && |SnapshotOf(mem.ids, x).cols| == |InstOf(mem, x.ptr).cols|
  }

  /** The instance has a key to be tracked under. */
  predicate Trackable(e: Env, mem: Mem, p: Ptr) {
    e.tracked && MapFor(e, p).arity != 0 && !HasNull(KeyOf(mem, p))
  }

  /** The key is that of a tracked instance that nothing still to be written can take away. */
  ghost predicate Taken(ids: IdMap, t: TypeId, key: Key, busy: set<Ptr>) {
    Find(ids, t, key).Some? && Find(ids, t, key).value.ptr !in busy
  }

  /** An instance the call has inserted: its key is tracked. */
  ghost predicate Stands(e: Env, roles: Roles, mem: Mem, busy: set<Ptr>, p: Ptr) {
    p in roles.inserted && p !in busy && !roles.byKey && Trackable(e, mem, p) ==>
      Taken(mem.ids, TypeOf(e, p), KeyOf(mem, p), busy)
  }

  /** A tracked instance: still to be written, and not by an insert; or clean, and not deleted. */
  ghost predicate At(e: Env, roles: Roles, mem: Mem, busy: set<Ptr>, p: Ptr) {
    && Stands(e, roles, mem, busy, p)
    && (EntryOf(mem.ids, p).Some? ==>
          && SnapshotFits(e, mem, EntryOf(mem.ids, p).value)
          && if p in busy then p !in roles.inserted
             else Clean(e, mem, EntryOf(mem.ids, p).value) && p !in roles.deleted)
  }

  ghost predicate OwnNumber(ids: IdMap, entry: Entry) {
    forall q :: q in ids.byPtr && ids.byPtr[q].seqNo == entry.seqNo ==> ids.byPtr[q] == entry
  }

  /** The listed properties are all the instance holds otherwise than its snapshot. */
  ghost predicate Covers(e: Env, mem: Mem, entry: Entry, props: seq<Prop>) {
    forall prop ::
      Statements.Edited(MapOf(e, entry.etype), SnapshotOf(mem.ids, entry), InstOf(mem, entry.ptr), prop) ==>
        prop in props
  }

  /** The waiting statement leaves its instance clean, or no longer tracked, when it completes. */
  ghost predicate Completes(e: Env, roles: Roles, mem: Mem, w: Write) {
    HeldOrDropped(mem.ids, w) &&
    match w.finish
    case FinishInsert(p, _) => p in roles.inserted && p !in roles.deleted
    case FinishFullUpdate(p) => EntryOf(mem.ids, p).None? && p !in roles.deleted && p !in roles.inserted
    case FinishColumns(p, entry, props) =>
      && entry.Some? && p !in roles.deleted && p !in roles.inserted && OwnNumber(mem.ids, entry.value)
      && (EntryOf(mem.ids, p) == entry ==> Covers(e, mem, entry.value, props))
    case FinishDelete(p, entry, _) => EntryOf(mem.ids, p) in {None, entry} && p !in roles.inserted
    case FinishDeleteKey(_, _) => roles.byKey
    case FinishCommand => true
  }

  /** The call with statements waiting and instances still to be written. */
  ghost predicate Settles(e: Env, roles: Roles, upcoming: set<Ptr>, mem: Mem, ws: seq<Pending>) {
    && Consistent(mem.ids) && Numbered(mem.ids) && OneWriteEach(ws) && Waiting(ws) !! upcoming
    && (forall p :: At(e, roles, mem, Waiting(ws) + upcoming, p))
    && forall w :: w in ws ==> Completes(e, roles, mem, w.write)
  }

  // --- one completion -----------------------------------------------------------------------------------

  /** Another instance is as it was, in memory and in the map, or has lost its entry. */
  ghost predicate OtherStays(mem: Mem, after: Mem, q: Ptr) {
    && InstOf(after, q) == InstOf(mem, q) && EntryOf(after.ids, q) in {None, EntryOf(mem.ids, q)}
    && (EntryOf(after.ids, q).Some? ==>
          SnapshotOf(after.ids, EntryOf(after.ids, q).value) == SnapshotOf(mem.ids, EntryOf(after.ids, q).value))
  }

  /** No entry has come to a number that was given out before. */
  ghost predicate NumbersStay(ids: IdMap, after: IdMap) {
    && ids.snaps.Keys <= after.snaps.Keys
    && forall q :: q in after.byPtr && after.byPtr[q].seqNo in ids.snaps ==>
         q in ids.byPtr && ids.byPtr[q] == after.byPtr[q]
  }

  ghost predicate OthersStay(mem: Mem, after: Mem, own: Option<Ptr>) {
    && Consistent(after.ids) && Numbered(after.ids) && NumbersStay(mem.ids, after.ids)
    && forall q: Ptr :: own != Some(q) ==> OtherStays(mem, after, q)
  }

  /** A key another instance is tracked under stays tracked: under that instance, or under the one just written. */
  ghost predicate KeysStay(ids: IdMap, after: IdMap, own: Option<Ptr>) {
    forall k :: k in ids.byKey && own != Some(ids.byKey[k].ptr) ==>
      k in after.byKey && (after.byKey[k] == ids.byKey[k] || own == Some(after.byKey[k].ptr))
  }

  lemma RegisterKeepsKeys(ids: IdMap, t: TypeId, p: Ptr, key: Key, snapshot: Inst)
    requires Consistent(ids)
    ensures KeysStay(ids, Register(ids, t, p, key, snapshot), Some(p))
  {
  }

  lemma ForgetKeepsKeys(ids: IdMap, entry: Entry)
    requires Consistent(ids)
    ensures KeysStay(ids, Forget(ids, entry), Some(entry.ptr))
  {
  }

  lemma RegisterStays(ids: IdMap, t: TypeId, p: Ptr, key: Key, snapshot: Inst)
    requires Consistent(ids) && Numbered(ids)
    ensures var after := Register(ids, t, p, key, snapshot);
            && after.snaps == ids.snaps[ids.next + 1 := snapshot] && NumbersStay(ids, after)
            && EntryOf(after, p) == Some(Entry(p, t, key, ids.next + 1))
            && (forall q :: q in after.byPtr && q != p ==> q in ids.byPtr && after.byPtr[q] == ids.byPtr[q])
  {
    RegisterKeepsMap(ids, t, p, key, snapshot);
    var after := Register(ids, t, p, key, snapshot);
    forall q | q in after.byPtr && q != p
      ensures q in ids.byPtr && after.byPtr[q] == ids.byPtr[q]
    {
      assert EntryOf(after, q) == EntryOf(ids, q);
    }
    assert ids.next + 1 !in ids.snaps;
  }

  lemma TrackStays(e: Env, mem: Mem, p: Ptr)
    requires Consistent(mem.ids) && Numbered(mem.ids)
    ensures OthersStay(mem, TrackJournaled(e, mem, p).mem, Some(p))
  {
    var after := TrackJournaled(e, mem, p).mem;
    TrackAdvances(e, false, mem, p);
    RegisterStays(mem.ids, TypeOf(e, p), p, KeyOf(mem, p), InstOf(mem, p));
    forall q: Ptr | q != p
      ensures OtherStays(mem, after, q)
    {
      if q in after.ids.byPtr {
        assert after.ids.byPtr[q] == mem.ids.byPtr[q] && mem.ids.byPtr[q].seqNo <= mem.ids.next;
      }
    }
  }

  /** Tracked now, the instance is as its snapshot has it. */
  lemma TrackedIsClean(e: Env, roles: Roles, mem: Mem, p: Ptr, busy: set<Ptr>)
    requires Consistent(mem.ids) && Numbered(mem.ids) && p !in roles.deleted && p !in busy && EntryOf(mem.ids, p).None?
    ensures At(e, roles, TrackJournaled(e, mem, p).mem, busy, p)
  {
    RegisterStays(mem.ids, TypeOf(e, p), p, KeyOf(mem, p), InstOf(mem, p));
  }

  /** The instance changed, and nothing of the map. */
  lemma TouchStays(mem: Mem, touched: Mem, p: Ptr)
    requires touched.ids == mem.ids && OnlyJournaled(mem, touched, p) && Consistent(mem.ids) && Numbered(mem.ids)
    ensures OthersStay(mem, touched, Some(p))
  {
  }

  lemma StaysTwice(mem: Mem, between: Mem, after: Mem, own: Option<Ptr>)
    requires OthersStay(mem, between, own) && OthersStay(between, after, own) && between.ids == mem.ids
    ensures OthersStay(mem, after, own)
  {
    forall q: Ptr | own != Some(q)
      ensures OtherStays(mem, after, q)
    {
      assert OtherStays(mem, between, q) && OtherStays(between, after, q);
    }
  }

  /** What the completion of a statement owes: the others stay, and its own instance is done. */
  ghost predicate Done(e: Env, roles: Roles, mem: Mem, after: Mem, own: Option<Ptr>, busy: set<Ptr>) {
    && OthersStay(mem, after, own) && (!roles.byKey ==> KeysStay(mem.ids, after.ids, own))
    && (own.Some? ==> At(e, roles, after, busy, own.value))
  }

  lemma InsertDone(e: Env, roles: Roles, mem: Mem, w: Write, reply: Reply, busy: set<Ptr>)
    requires Consistent(mem.ids) && Numbered(mem.ids) && w.finish.FinishInsert? && Complete(e, mem, w, reply).ok
    requires EntryOf(mem.ids, w.finish.p).None? && w.finish.p !in roles.deleted && w.finish.p !in busy
    ensures Done(e, roles, mem, Complete(e, mem, w, reply).mem, Instance(w), busy)
  {
    var p := w.finish.p;
    var put := if w.finish.generated then Put(mem, p, Set(InstOf(mem, p), KeyPart(0), reply.key.value)) else mem;
    TouchStays(mem, put, p);
    TrackStays(e, put, p);
    StaysTwice(mem, put, TrackJournaled(e, put, p).mem, Some(p));
    RegisterKeepsKeys(put.ids, TypeOf(e, p), p, KeyOf(put, p), InstOf(put, p));
    TrackedIsClean(e, roles, put, p, busy);
  }

  lemma FullUpdateDone(e: Env, roles: Roles, mem: Mem, w: Write, reply: Reply, busy: set<Ptr>)
    requires Consistent(mem.ids) && Numbered(mem.ids) && w.finish.FinishFullUpdate? && Complete(e, mem, w, reply).ok
    requires EntryOf(mem.ids, w.finish.p).None? && w.finish.p !in roles.deleted && w.finish.p !in busy
    ensures Done(e, roles, mem, Complete(e, mem, w, reply).mem, Instance(w), busy)
  {
    var p, bumped := w.finish.p, Bump(e, mem, w.finish.p);
    BumpOnly(e, mem, p);
    TouchStays(mem, bumped, p);
    TrackStays(e, bumped, p);
    StaysTwice(mem, bumped, TrackJournaled(e, bumped, p).mem, Some(p));
    RegisterKeepsKeys(bumped.ids, TypeOf(e, p), p, KeyOf(bumped, p), InstOf(bumped, p));
    TrackedIsClean(e, roles, bumped, p, busy);
  }

  /** The snapshot takes the written properties over, so nothing is left that it has otherwise. */
  lemma CopiedIsClean(m: EntityMap, snapshot: Inst, was: Inst, x: Inst, props: seq<Prop>)
    requires DirtyUpdates.SameShape(snapshot, x) && x == was.(version := x.version)
    requires forall prop :: Statements.Edited(m, snapshot, was, prop) ==> prop in props
    ensures DirtyUpdates.SameShape(Copied(snapshot, x, props), x)
    ensures forall prop :: !Statements.Edited(m, Copied(snapshot, x, props), x, prop)
  {
    DirtyUpdates.CopiedGet(snapshot, x, props, VersionColumn);
    forall prop
      ensures !Statements.Edited(m, Copied(snapshot, x, props), x, prop)
    {
      DirtyUpdates.CopiedGet(snapshot, x, props, prop);
      assert prop != VersionColumn ==> Get(x, prop) == Get(was, prop);
    }
  }

  lemma ResnapshotStays(mem: Mem, p: Ptr, entry: Entry, props: seq<Prop>)
    requires Consistent(mem.ids) && Numbered(mem.ids) && OwnNumber(mem.ids, entry) && entry.seqNo in mem.ids.snaps
    requires entry.ptr == p
    ensures OthersStay(mem, Resnapshot(mem, p, Some(entry), props), Some(p))
  {
  }

  lemma ColumnsDone(e: Env, roles: Roles, mem: Mem, w: Write, reply: Reply, busy: set<Ptr>)
    requires Consistent(mem.ids) && Numbered(mem.ids) && w.finish.FinishColumns? && Complete(e, mem, w, reply).ok
    requires Completes(e, roles, mem, w) && w.finish.p !in busy
    requires EntryOf(mem.ids, w.finish.p).Some? ==> SnapshotFits(e, mem, EntryOf(mem.ids, w.finish.p).value)
    ensures Done(e, roles, mem, Complete(e, mem, w, reply).mem, Instance(w), busy)
  {
    var p, entry, props := w.finish.p, w.finish.entry.value, w.finish.props;
    var bumped := Bump(e, mem, p);
    BumpOnly(e, mem, p);
    TouchStays(mem, bumped, p);
    ResnapshotStays(bumped, p, entry, props);
    StaysTwice(mem, bumped, Resnapshot(bumped, p, Some(entry), props), Some(p));
    if EntryOf(mem.ids, p) == Some(entry) {
      CopiedIsClean(MapOf(e, entry.etype), SnapshotOf(mem.ids, entry), InstOf(mem, p), InstOf(bumped, p), props);
    }
  }

  lemma ForgetStays(mem: Mem, entry: Entry, own: Option<Ptr>)
    requires Consistent(mem.ids) && Numbered(mem.ids) && EntryOf(mem.ids, entry.ptr) in {None, Some(entry)}
    ensures OthersStay(mem, mem.(ids := Forget(mem.ids, entry)), own)
    ensures EntryOf(Forget(mem.ids, entry), entry.ptr).None?
  {
    ForgetKeepsMap(mem.ids, entry);
  }

  lemma DeleteDone(e: Env, roles: Roles, mem: Mem, w: Write, reply: Reply, busy: set<Ptr>)
    requires Consistent(mem.ids) && Numbered(mem.ids) && w.finish.FinishDelete? && Complete(e, mem, w, reply).ok
    requires Completes(e, roles, mem, w)
    ensures Done(e, roles, mem, Complete(e, mem, w, reply).mem, Instance(w), busy)
  {
    var p, entry := w.finish.p, w.finish.entry;
    var bumped := if w.finish.soft then Bump(e, mem, p) else mem;
    BumpOnly(e, mem, p);
    TouchStays(mem, bumped, p);
    if entry.Some? {
      ForgetStays(bumped, entry.value, Some(p));
      StaysTwice(mem, bumped, bumped.(ids := Forget(mem.ids, entry.value)), Some(p));
      ForgetKeepsKeys(mem.ids, entry.value);
    }
  }

  lemma KeyDeleteDone(e: Env, roles: Roles, mem: Mem, w: Write, reply: Reply, busy: set<Ptr>)
    requires Consistent(mem.ids) && Numbered(mem.ids) && w.finish.FinishDeleteKey? && Complete(e, mem, w, reply).ok
    requires roles.byKey
    ensures Done(e, roles, mem, Complete(e, mem, w, reply).mem, Instance(w), busy)
  {
    var entry := Find(mem.ids, w.finish.t, w.finish.key);
    if entry.Some? {
      ForgetStays(mem, entry.value, None);
    }
  }

  lemma CompleteDone(e: Env, roles: Roles, mem: Mem, w: Write, reply: Reply, busy: set<Ptr>)
    requires Consistent(mem.ids) && Numbered(mem.ids) && Completes(e, roles, mem, w) && Complete(e, mem, w, reply).ok
    requires Instance(w).Some? ==>
               Instance(w).value !in busy && At(e, roles, mem, busy + {Instance(w).value}, Instance(w).value)
    ensures Done(e, roles, mem, Complete(e, mem, w, reply).mem, Instance(w), busy)
  {
    match w.finish
    case FinishInsert(_, _) => InsertDone(e, roles, mem, w, reply, busy);
    case FinishFullUpdate(_) => FullUpdateDone(e, roles, mem, w, reply, busy);
    case FinishColumns(_, _, _) => ColumnsDone(e, roles, mem, w, reply, busy);
    case FinishDelete(_, _, _) => DeleteDone(e, roles, mem, w, reply, busy);
    case FinishDeleteKey(_, _) => KeyDeleteDone(e, roles, mem, w, reply, busy);
    case FinishCommand =>
  }

  /** Another tracked instance is where it was. */
  lemma OtherIsAt(e: Env, roles: Roles, mem: Mem, after: Mem, own: Option<Ptr>, busy: set<Ptr>, now: set<Ptr>,
      q: Ptr)
    requires OtherStays(mem, after, q) && At(e, roles, mem, busy, q) && (q in busy <==> q in now)
    requires Consistent(mem.ids) && Consistent(after.ids) && now <= busy
    requires own.Some? ==> own.value in busy && own.value !in now
    requires !roles.byKey ==> KeysStay(mem.ids, after.ids, own)
    ensures At(e, roles, after, now, q)
  {
  }

  /** Another waiting statement still completes. */
  lemma OtherCompletes(e: Env, roles: Roles, mem: Mem, after: Mem, own: Option<Ptr>, w: Write)
    requires OthersStay(mem, after, own) && Completes(e, roles, mem, w) && Consistent(mem.ids) && Numbered(mem.ids)
    requires Instance(w).None? || own != Instance(w)
    ensures Completes(e, roles, after, w)
  {
    if Instance(w).Some? {
      assert OtherStays(mem, after, Instance(w).value);
    }
  }

  lemma CompleteSettles(e: Env, roles: Roles, upcoming: set<Ptr>, mem: Mem, ws: seq<Pending>, reply: Reply)
    requires ws != [] && Settles(e, roles, upcoming, mem, ws) && Complete(e, mem, ws[0].write, reply).ok
    ensures Settles(e, roles, upcoming, Complete(e, mem, ws[0].write, reply).mem, ws[1..])
  {
    var w, after := ws[0].write, Complete(e, mem, ws[0].write, reply).mem;
    var busy, now := Waiting(ws) + upcoming, Waiting(ws[1..]) + upcoming;
    assert ws[0] in ws;
    WaitingTail(ws);
    OwnWaits(ws);
    assert busy == now + (if Instance(w).Some? then {Instance(w).value} else {});
    assert Instance(w).Some? ==> At(e, roles, mem, busy, Instance(w).value);
    CompleteDone(e, roles, mem, w, reply, now);
    forall q: Ptr
      ensures At(e, roles, after, now, q)
    {
      if Instance(w) != Some(q) {
        assert At(e, roles, mem, busy, q) && OtherStays(mem, after, q);
        OtherIsAt(e, roles, mem, after, Instance(w), busy, now, q);
      }
    }
    forall v | v in ws[1..]
      ensures Completes(e, roles, after, v.write)
    {
      assert v in ws && (Instance(v.write).Some? ==> Instance(v.write).value in Waiting(ws[1..]));
      OtherCompletes(e, roles, mem, after, Instance(w), v.write);
    }
  }

  lemma OwnWaits(ws: seq<Pending>)
    requires ws != []
    ensures Waiting(ws) == Waiting(ws[1..]) + Waiting([ws[0]])
    ensures Waiting([ws[0]]) == if Instance(ws[0].write).Some? then {Instance(ws[0].write).value} else {}
  {
    assert ws == [ws[0]] + ws[1..];
    assert ws[0] in [ws[0]];
  }

  // --- one message -----------------------------------------------------------------------------------------

  /** More statements wait behind those that are sent. */
  lemma ApplySettles<D>(e: Env, roles: Roles, upcoming: set<Ptr>, c: Call<D>, writes: seq<Pending>, tail: seq<Pending>,
      reply: Reply)
    requires writes != [] && Settles(e, roles, upcoming, c.mem, writes + tail)
    ensures !Apply(e, c, writes, reply).failed ==>
              Settles(e, roles, upcoming, Apply(e, c, writes, reply).mem, writes[1..] + tail)
  {
    assert (writes + tail)[0] == writes[0] && (writes + tail)[1..] == writes[1..] + tail;
    if !Apply(e, c, writes, reply).failed {
      CompleteSettles(e, roles, upcoming, c.mem, writes + tail, reply);
    }
  }

  lemma {:induction false} SendEachSettles<D>(e: Env, srv: Server<D>, roles: Roles, upcoming: set<Ptr>, c: Call<D>,
      writes: seq<Pending>, tail: seq<Pending>)
    requires Settles(e, roles, upcoming, c.mem, writes + tail)
    ensures !SendEach(e, srv, c, writes).failed ==> Settles(e, roles, upcoming, SendEach(e, srv, c, writes).mem, tail)
    decreases |writes|
  {
    if !c.failed && writes != [] {
      var (db, reply) := srv.run(c.db, writes[0].write.stmt);
      var next := Apply(e, c.(db := db), writes, reply);
      ApplySettles(e, roles, upcoming, c.(db := db), writes, tail, reply);
      if !next.failed {
        SendEachSettles(e, srv, roles, upcoming, next, writes[1..], tail);
      }
    } else {
      assert writes == [] ==> writes + tail == tail;
    }
  }

  lemma {:induction false} ApplyAllSettles<D>(e: Env, roles: Roles, upcoming: set<Ptr>, c: Call<D>,
      writes: seq<Pending>, replies: seq<Reply>, tail: seq<Pending>)
    requires |writes| == |replies| && Settles(e, roles, upcoming, c.mem, writes + tail)
    ensures !ApplyAll(e, c, writes, replies).failed ==>
              Settles(e, roles, upcoming, ApplyAll(e, c, writes, replies).mem, tail)
    decreases |writes|
  {
    if !c.failed && writes != [] {
      var next := Apply(e, c, writes, replies[0]);
      ApplySettles(e, roles, upcoming, c, writes, tail, replies[0]);
      if !next.failed {
        ApplyAllSettles(e, roles, upcoming, next, writes[1..], replies[1..], tail);
      }
    } else {
      assert writes == [] ==> writes + tail == tail;
    }
  }

  lemma SendSettles<D>(e: Env, srv: Server<D>, plan: Plan, roles: Roles, upcoming: set<Ptr>, c: Call<D>,
      tail: seq<Pending>)
    requires Settles(e, roles, upcoming, c.mem, c.current + tail)
    ensures Send(e, srv, plan, c).current == []
    ensures !Send(e, srv, plan, c).failed ==> Settles(e, roles, upcoming, Send(e, srv, plan, c).mem, tail)
  {
    SendEmpties(e, srv, plan, c);
    var started := c.(current := [], sent := c.sent + [Texts(c.current)]);
    if c.current == [] {
      assert c.current + tail == tail;
    } else if plan.oneTrip {
      var (db, replies) := RunAll(srv, c.db, c.current);
      ApplyAllSettles(e, roles, upcoming, started.(db := db), c.current, replies, tail);
    } else {
      SendEachSettles(e, srv, roles, upcoming, started, c.current, tail);
    }
  }

  lemma SendAllSettles<D>(e: Env, srv: Server<D>, plan: Plan, roles: Roles, upcoming: set<Ptr>, c: Call<D>)
    requires Settles(e, roles, upcoming, c.mem, c.current)
    ensures Send(e, srv, plan, c).current == []
    ensures !Send(e, srv, plan, c).failed ==> Settles(e, roles, upcoming, Send(e, srv, plan, c).mem, [])
  {
    assert c.current + [] == c.current;
    SendSettles(e, srv, plan, roles, upcoming, c, []);
  }

  // --- one operation -----------------------------------------------------------------------------------------

  /** The operation plays its instance's part; it lists no columns, which might leave others unwritten. */
  ghost predicate Plays(roles: Roles, op: Op) {
    && !op.UpdateOnly? && (op.DeleteKey? ==> roles.byKey)
    && (OpInstance(op).Some? ==>
          (InsertsInstance(op) <==> op.p in roles.inserted) && (op.DeleteEntity? <==> op.p in roles.deleted))
  }

  ghost predicate StillToWrite(upcoming: set<Ptr>, op: Op) {
    OpInstance(op).Some? ==> op.p in upcoming
  }

  function Own(op: Op): set<Ptr> {
    if OpInstance(op).Some? then {op.p} else {}
  }

  /** Up to its preparation an operation touches its own instance's memory only. */
  lemma PreparedStays(e: Env, mem: Mem, op: Op)
    requires Consistent(mem.ids) && Numbered(mem.ids)
    ensures OthersStay(mem, Prepare(e, Flow(e, mem, op), op).mem, OpInstance(op))
    ensures Prepare(e, Flow(e, mem, op), op).mem.ids == mem.ids
  {
    FlowOnly(e, mem, op);
    PrepareOnly(e, Flow(e, mem, op), op);
  }

  lemma PreparedFits(e: Env, mem: Mem, op: Op, x: Entry)
    requires OpInstance(op).Some? && EntryOf(mem.ids, op.p) == Some(x) && SnapshotFits(e, mem, x) && x.ptr == op.p
    ensures SnapshotFits(e, Prepare(e, Flow(e, mem, op), op).mem, x)
  {
    FlowOnly(e, mem, op);
    PrepareOnly(e, Flow(e, mem, op), op);
  }

  /** A tracked update writes all the instance holds otherwise than its snapshot, or there is nothing. */
  lemma UpdateCovers(e: Env, mem: Mem, p: Ptr, x: Entry)
    requires EntryOf(mem.ids, p) == Some(x) && x.ptr == p && x.etype == TypeOf(e, p)
    ensures var prepared := PrepareUpdate(e, mem, p);
            && (prepared.issue == Nothing ==> Clean(e, prepared.mem, x))
            && (prepared.issue.Issued? ==>
                  && prepared.issue.write.finish.FinishColumns? && prepared.issue.write.finish.entry == Some(x)
                  && Covers(e, prepared.mem, x, prepared.issue.write.finish.props))
  {
    var m, was := MapFor(e, p), InstOf(mem, p);
    var dirty := Dirty(SnapshotOf(mem.ids, x), was, WritableColumns(m));
    Statements.DirtyIsEdited(m, SnapshotOf(mem.ids, x), was);
    if dirty != [] {
      ColumnsCover(e, mem, p, x, dirty);
    }
  }

  lemma ColumnsCover(e: Env, mem: Mem, p: Ptr, x: Entry, props: seq<Prop>)
    requires x.ptr == p && x.etype == TypeOf(e, p) && Covers(e, mem, x, props)
    ensures var prepared := PrepareColumns(e, mem, p, Some(x), props);
            && prepared.issue != Nothing
            && (prepared.issue.Issued? ==>
                  && prepared.issue.write.finish.FinishColumns? && prepared.issue.write.finish.entry == Some(x)
                  && Covers(e, prepared.mem, x, prepared.issue.write.finish.props))
  {
    var prepared := PrepareColumns(e, mem, p, Some(x), props);
    if prepared.issue.Issued? {
      forall prop | Statements.Edited(MapOf(e, x.etype), SnapshotOf(mem.ids, x), InstOf(prepared.mem, p), prop)
        ensures prop in prepared.issue.write.finish.props
      {
        assert Get(InstOf(prepared.mem, p), prop) == Get(InstOf(mem, p), prop);
        assert prop in props;
      }
    }
  }

  /** An issued statement will complete. */
  lemma IssuedCompletes(e: Env, roles: Roles, mem: Mem, busy: set<Ptr>, op: Op)
    requires Consistent(mem.ids) && Numbered(mem.ids) && Plays(roles, op)
    requires OpInstance(op).Some? ==> At(e, roles, mem, busy, op.p) && op.p in busy
    requires Prepare(e, Flow(e, mem, op), op).issue.Issued?
    ensures Completes(e, roles, Prepare(e, Flow(e, mem, op), op).mem, Prepare(e, Flow(e, mem, op), op).issue.write)
  {
    var flowed := Flow(e, mem, op);
    PreparedStays(e, mem, op);
    FlowOnly(e, mem, op);
    IssuedWaits(e, false, flowed, op);
    IssuedFinish(e, flowed, op);
    PrepareOnly(e, flowed, op);
    if op.Update? && EntryOf(mem.ids, op.p).Some? {
      UpdateCovers(e, mem, op.p, EntryOf(mem.ids, op.p).value);
    }
  }

  /** The others are where they were when one operation has prepared. */
  lemma OthersPrepared(e: Env, roles: Roles, upcoming: set<Ptr>, mem: Mem, ws: seq<Pending>, op: Op, q: Ptr,
      now: set<Ptr>)
    requires Settles(e, roles, upcoming, mem, ws) && OpInstance(op) != Some(q)
    requires now <= Waiting(ws) + upcoming && (q in now <==> q in Waiting(ws) + upcoming)
    ensures At(e, roles, Prepare(e, Flow(e, mem, op), op).mem, now, q)
  {
    PreparedStays(e, mem, op);
    var after := Prepare(e, Flow(e, mem, op), op).mem;
    assert OtherStays(mem, after, q) && At(e, roles, mem, Waiting(ws) + upcoming, q);
    OtherIsAt(e, roles, mem, after, None, Waiting(ws) + upcoming, now, q);
  }

  lemma WaitingPrepared(e: Env, roles: Roles, upcoming: set<Ptr>, mem: Mem, ws: seq<Pending>, op: Op)
    requires Settles(e, roles, upcoming, mem, ws) && StillToWrite(upcoming, op)
    ensures forall w :: w in ws ==> Completes(e, roles, Prepare(e, Flow(e, mem, op), op).mem, w.write)
  {
    PreparedStays(e, mem, op);
    forall w | w in ws
      ensures Completes(e, roles, Prepare(e, Flow(e, mem, op), op).mem, w.write)
    {
      assert Instance(w.write).Some? ==> Instance(w.write).value in Waiting(ws);
      OtherCompletes(e, roles, mem, Prepare(e, Flow(e, mem, op), op).mem, OpInstance(op), w.write);
    }
  }

  /** The operation's statement joins those that wait. */
  lemma IssuedSettles(e: Env, roles: Roles, upcoming: set<Ptr>, mem: Mem, ws: seq<Pending>, op: Op,
      key: Option<(TypeId, Key)>)
    requires Settles(e, roles, upcoming, mem, ws) && StillToWrite(upcoming, op) && Plays(roles, op) &&
             Free(e, mem, ws, op)
    requires Prepare(e, Flow(e, mem, op), op).issue.Issued?
    ensures var prepared := Prepare(e, Flow(e, mem, op), op);
            Settles(e, roles, upcoming - Own(op), prepared.mem, ws + [Pending(prepared.issue.write, key)])
  {
    var prepared := Prepare(e, Flow(e, mem, op), op);
    var w := Pending(prepared.issue.write, key);
    var busy, now := Waiting(ws) + upcoming, Waiting(ws + [w]) + (upcoming - Own(op));
    PrepareOnly(e, Flow(e, mem, op), op);
    FreeIsDistinct(e, mem, ws, op, w);
    assert now == busy;
    PreparedStays(e, mem, op);
    if OpInstance(op).Some? {
      assert At(e, roles, mem, busy, op.p);
    }
    IssuedCompletes(e, roles, mem, busy, op);
    WaitingPrepared(e, roles, upcoming, mem, ws, op);
    forall q: Ptr
      ensures At(e, roles, prepared.mem, now, q)
    {
      if OpInstance(op) == Some(q) {
        OwnPrepared(e, roles, mem, busy, op);
      } else {
        OthersPrepared(e, roles, upcoming, mem, ws, op, q, now);
      }
    }
  }

  lemma OwnPrepared(e: Env, roles: Roles, mem: Mem, busy: set<Ptr>, op: Op)
    requires Consistent(mem.ids) && Numbered(mem.ids) && OpInstance(op).Some?
    requires At(e, roles, mem, busy, op.p) && op.p in busy
    ensures At(e, roles, Prepare(e, Flow(e, mem, op), op).mem, busy, op.p)
  {
    PreparedStays(e, mem, op);
    if EntryOf(mem.ids, op.p).Some? {
      PreparedFits(e, mem, op, EntryOf(mem.ids, op.p).value);
    }
  }

  /** An operation with nothing to write was one on a clean instance. */
  lemma NothingSettles(e: Env, roles: Roles, upcoming: set<Ptr>, mem: Mem, ws: seq<Pending>, op: Op)
    requires Settles(e, roles, upcoming, mem, ws) && StillToWrite(upcoming, op) && Plays(roles, op)
    requires Prepare(e, Flow(e, mem, op), op).issue == Nothing
    ensures Settles(e, roles, upcoming - Own(op), Prepare(e, Flow(e, mem, op), op).mem, ws)
  {
    var prepared, busy := Prepare(e, Flow(e, mem, op), op), Waiting(ws) + upcoming;
    var now := Waiting(ws) + (upcoming - Own(op));
    assert op.Update?;
    PreparedStays(e, mem, op);
    WaitingPrepared(e, roles, upcoming, mem, ws, op);
    assert At(e, roles, mem, busy, op.p);
    if EntryOf(mem.ids, op.p).Some? {
      UpdateCovers(e, mem, op.p, EntryOf(mem.ids, op.p).value);
      PreparedFits(e, mem, op, EntryOf(mem.ids, op.p).value);
    }
    forall q: Ptr
      ensures At(e, roles, prepared.mem, now, q)
    {
      if q != op.p {
        OthersPrepared(e, roles, upcoming, mem, ws, op, q, now);
      }
    }
  }

  /** The statement may join what waits, whatever key it is about. */
  ghost predicate Joins(e: Env, roles: Roles, upcoming: set<Ptr>, mem: Mem, ws: seq<Pending>, write: Write) {
    forall key :: Settles(e, roles, upcoming, mem, ws + [Pending(write, key)])
  }

  lemma SplitSettles<D>(e: Env, srv: Server<D>, plan: Plan, roles: Roles, upcoming: set<Ptr>, c: Call<D>, write: Write,
      op: Op)
    requires Joins(e, roles, upcoming, c.mem, c.current, write)
    ensures var split := if Splits(plan, c.current, write) then Send(e, srv, plan, c) else c;
            !split.failed ==>
              Settles(e, roles, upcoming, split.mem, split.current + [Pending(write, KeyNow(e, split.mem, op))])
  {
    if Splits(plan, c.current, write) {
      var w := Pending(write, KeyNow(e, Send(e, srv, plan, c).mem, op));
      SendSettles(e, srv, plan, roles, upcoming, c, [w]);
      assert [] + [w] == [w];
    }
  }

  lemma AddSettles<D>(e: Env, srv: Server<D>, plan: Plan, roles: Roles, upcoming: set<Ptr>, c: Call<D>, write: Write,
      op: Op)
    requires Joins(e, roles, upcoming, c.mem, c.current, write)
    ensures var next := Add(e, srv, plan, c, write, op);
            !next.failed ==> Settles(e, roles, upcoming, next.mem, next.current)
  {
    var split := if Splits(plan, c.current, write) then Send(e, srv, plan, c) else c;
    SplitSettles(e, srv, plan, roles, upcoming, c, write, op);
    if !split.failed {
      SendAllSettles(e, srv, plan, roles, upcoming,
                     split.(current := split.current + [Pending(write, KeyNow(e, split.mem, op))]));
    }
  }

  lemma ProceedSettles<D>(e: Env, srv: Server<D>, plan: Plan, roles: Roles, upcoming: set<Ptr>, c: Call<D>, op: Op)
    requires Settles(e, roles, upcoming, c.mem, c.current) && StillToWrite(upcoming, op) && Plays(roles, op)
    requires Free(e, c.mem, c.current, op)
    ensures var next := Proceed(e, srv, plan, c, op);
            !next.failed ==> Settles(e, roles, upcoming - Own(op), next.mem, next.current)
  {
    var recorded := Recorded(e, c.(mem := Flow(e, c.mem, op)), op);
    var prepared := Prepare(e, recorded.mem, op);
    match prepared.issue
    case Refused(_) =>
    case Nothing => NothingSettles(e, roles, upcoming, c.mem, c.current, op);
    case Issued(write) =>
      forall key
        ensures Settles(e, roles, upcoming - Own(op), prepared.mem, c.current + [Pending(write, key)])
      {
        IssuedSettles(e, roles, upcoming, c.mem, c.current, op, key);
      }
      assert Joins(e, roles, upcoming - Own(op), prepared.mem, c.current, write);
      AddSettles(e, srv, plan, roles, upcoming - Own(op), recorded.(mem := prepared.mem), write, op);
  }

  lemma StepSettles<D>(e: Env, srv: Server<D>, plan: Plan, roles: Roles, upcoming: set<Ptr>, c: Call<D>, op: Op)
    requires !c.failed ==> Settles(e, roles, upcoming, c.mem, c.current)
    requires StillToWrite(upcoming, op) && Plays(roles, op)
    ensures var next := Step(e, srv, plan, c, op);
            !next.failed ==> Settles(e, roles, upcoming - Own(op), next.mem, next.current)
  {
    if !c.failed {
      SendAllSettles(e, srv, plan, roles, upcoming, c);
      var ready := Before(e, srv, plan, c, op);
      if !ready.failed {
        ProceedSettles(e, srv, plan, roles, upcoming, ready, op);
      }
    }
  }

  // --- the whole call --------------------------------------------------------------------------------------------

  /** The operations write each instance once, and list no columns. */
  ghost predicate WritesOnce(ops: seq<Op>) {
    && (forall op :: op in ops ==> !op.UpdateOnly?)
    && forall i, j :: 0 <= i < j < |ops| && OpInstance(ops[i]).Some? ==> OpInstance(ops[i]) != OpInstance(ops[j])
  }

  ghost function RolesOf(ops: seq<Op>): Roles {
    Roles(set op | op in ops && InsertsInstance(op) :: op.p, set op | op in ops && op.DeleteEntity? :: op.p,
          exists op :: op in ops && op.DeleteKey?)
  }

  lemma PlaysItsRole(ops: seq<Op>, op: Op)
    requires WritesOnce(ops) && op in ops
    ensures Plays(RolesOf(ops), op)
  {
    var i :| 0 <= i < |ops| && ops[i] == op;
    if OpInstance(op).Some? {
      forall other | other in ops && OpInstance(other) == Some(op.p)
        ensures other == op
      {
        var j :| 0 <= j < |ops| && ops[j] == other;
      }
    }
  }

  lemma WrittenFirst(op: Op, rest: seq<Op>)
    ensures Written([op] + rest) == Own(op) + Written(rest)
  {
    assert op in [op] + rest;
    assert forall other :: other in [op] + rest <==> other == op || other in rest;
  }

  lemma NextIsUpcoming(ops: seq<Op>, n: nat)
    requires WritesOnce(ops) && n < |ops|
    ensures StillToWrite(Written(ops[n..]), ops[n]) && Written(ops[n..]) - Own(ops[n]) == Written(ops[n + 1..])
  {
    var rest := ops[n + 1..];
    assert ops[n..] == [ops[n]] + rest;
    WrittenFirst(ops[n], rest);
    forall p | p in Written(rest)
      ensures p !in Own(ops[n])
    {
      var op :| op in rest && OpInstance(op) == Some(p);
      var i :| 0 <= i < |rest| && rest[i] == op;
      assert ops[n + 1 + i] == op;
    }
  }

  lemma {:induction false} StepsSettle<D>(e: Env, srv: Server<D>, plan: Plan, c: Call<D>, ops: seq<Op>, n: nat)
    requires n <= |ops| && WritesOnce(ops) && Settles(e, RolesOf(ops), Written(ops), c.mem, c.current)
    ensures var next := Steps(e, srv, plan, c, ops[..n]);
            !next.failed ==> Settles(e, RolesOf(ops), Written(ops[n..]), next.mem, next.current)
    decreases n
  {
    if n == 0 {
      assert ops[0..] == ops;
    } else {
      StepsSettle(e, srv, plan, c, ops, n - 1);
      assert ops[..n][..n - 1] == ops[..n - 1];
      NextIsUpcoming(ops, n - 1);
      PlaysItsRole(ops, ops[n - 1]);
      StepSettles(e, srv, plan, RolesOf(ops), Written(ops[n - 1..]), Steps(e, srv, plan, c, ops[..n - 1]), ops[n - 1]);
    }
  }

  /** Every tracked instance that the call does not write is clean; those it inserts are not tracked. */
  ghost predicate CleanBut(e: Env, mem: Mem, ops: seq<Op>) {
    forall p :: EntryOf(mem.ids, p).Some? ==>
      && SnapshotFits(e, mem, EntryOf(mem.ids, p).value) && p !in RolesOf(ops).inserted
      && (p !in Written(ops) ==> Clean(e, mem, EntryOf(mem.ids, p).value))
  }

  lemma BeginsSettled(e: Env, start: Mem, ops: seq<Op>)
    requires Consistent(start.ids) && Numbered(start.ids) && CleanBut(e, start, ops)
    ensures Settles(e, RolesOf(ops), Written(ops), start, [])
  {
    forall p
      ensures At(e, RolesOf(ops), start, Waiting([]) + Written(ops), p)
    {
      assert p in RolesOf(ops).deleted || p in RolesOf(ops).inserted ==> p in Written(ops);
    }
  }

  /**
   Every tracked instance is clean and none of the deleted; and where nothing was deleted by key alone, the key of
   every inserted one that has a key is tracked.
   */
  ghost predicate Settled(e: Env, mem: Mem, roles: Roles) {
    && (forall p :: EntryOf(mem.ids, p).Some? ==> Clean(e, mem, EntryOf(mem.ids, p).value) && p !in roles.deleted)
    && (!roles.byKey ==> forall p :: p in roles.inserted && Trackable(e, mem, p) ==>
                           Find(mem.ids, TypeOf(e, p), KeyOf(mem, p)).Some?)
  }

  lemma EndsSettled(e: Env, roles: Roles, mem: Mem)
    requires Settles(e, roles, {}, mem, [])
    ensures Settled(e, mem, roles)
  {
    forall p | EntryOf(mem.ids, p).Some?
      ensures Clean(e, mem, EntryOf(mem.ids, p).value) && p !in roles.deleted
    {
      assert At(e, roles, mem, Waiting([]) + {}, p);
    }
    forall p | p in roles.inserted && Trackable(e, mem, p) && !roles.byKey
      ensures Find(mem.ids, TypeOf(e, p), KeyOf(mem, p)).Some?
    {
      assert At(e, roles, mem, Waiting([]) + {}, p);
    }
  }

  /**
   A call that writes each instance once, and succeeds, leaves every tracked instance clean, no deleted one tracked,
   and the key of every inserted one in the map, whatever its messages.
   */
  lemma RunSettles<D>(e: Env, srv: Server<D>, plan: Plan, start: Mem, db: D, ops: seq<Op>)
    requires Consistent(start.ids) && Numbered(start.ids) && WritesOnce(ops) && CleanBut(e, start, ops)
    requires !Run(e, srv, plan, start, db, ops).failed
    ensures Settled(e, Run(e, srv, plan, start, db, ops).mem, RolesOf(ops))
  {
    BeginsSettled(e, start, ops);
    StepsSettle(e, srv, plan, Start(start, db), ops, |ops|);
    assert ops[..|ops|] == ops && Written(ops[|ops|..]) == {};
    SendAllSettles(e, srv, plan, RolesOf(ops), {}, Steps(e, srv, plan, Start(start, db), ops));
    EndsSettled(e, RolesOf(ops), Run(e, srv, plan, start, db, ops).mem);
  }
}
