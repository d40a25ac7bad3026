/** What a stale instance's entry waits for: only a delete by its registered key, or its own insert, frees it. */
module Freeing {
  import opened Values
  import opened Entities
  import opened IdentityMap
  import opened Writes
  import opened Calls
  import opened Frames
  import opened Restoring
  import opened KeyRules
  import opened Strays
  import opened Commuting
  import opened Refinement

  /** Completing the statement would not register the entry's key: the gate would have refused it. */
  ghost predicate ClearOf(e: Env, mem: Mem, w: Write, x: Entry) {
    && (Instance(w).Some? && !GeneratesKey(w) ==> WouldSpare(e, mem, Instance(w).value, x))
    && (w.finish == FinishInsert(x.ptr, true) ==> MapFor(e, x.ptr).arity != 0)
  }

  /** Registering the instance would leave the entry be. */
  predicate WouldSpare(e: Env, mem: Mem, q: Ptr, x: Entry) {
    HasNull(KeyOf(mem, q)) || IdOf(x) != (TypeOf(e, q), KeyOf(mem, q))
  }

  ghost predicate AllClear(e: Env, mem: Mem, ws: seq<Pending>, x: Entry) {
    forall w :: w in ws ==> ClearOf(e, mem, w.write, x)
  }

  lemma RegisterSpares(ids: IdMap, t: TypeId, q: Ptr, key: Key, snapshot: Inst, x: Entry)
    requires Consistent(ids) && EntryOf(ids, x.ptr) == Some(x) && q != x.ptr && (t, key) != IdOf(x)
    ensures EntryOf(Register(ids, t, q, key, snapshot), x.ptr) == Some(x)
  {
    var cleared := ForgetAny(ids, EntryOf(ids, q));
    var holder := Find(cleared, t, key);
    if holder.Some? {
      assert IdOf(holder.value) == (t, key);
    }
  }

  lemma TrackSpares(e: Env, mem: Mem, q: Ptr, x: Entry)
    requires Consistent(mem.ids) && EntryOf(mem.ids, x.ptr) == Some(x) && q != x.ptr
    requires WouldSpare(e, mem, q, x)
    ensures EntryOf(TrackJournaled(e, mem, q).mem.ids, x.ptr) == Some(x)
  {
    if !HasNull(KeyOf(mem, q)) {
      RegisterSpares(mem.ids, TypeOf(e, q), q, KeyOf(mem, q), InstOf(mem, q), x);
    }
  }

  lemma FreshInsertSpares(e: Env, mem: Mem, w: Write, reply: Reply, x: Entry)
    requires Consistent(mem.ids) && EntryOf(mem.ids, x.ptr) == Some(x)
    requires GeneratesKey(w) && w.finish.p != x.ptr && FreshKeys(e, Completed(mem, w, reply))
    ensures EntryOf(Complete(e, mem, w, reply).mem.ids, x.ptr) == Some(x)
  {
    if reply.Reply? && reply.key.Some? {
      var q := w.finish.p;
      var put := Put(mem, q, Set(InstOf(mem, q), KeyPart(0), reply.key.value));
      assert mem.ids.byKey[IdOf(x)] == x;
      assert q in mem.inst ==> KeyOf(put, q) == Set(InstOf(mem, q), KeyPart(0), reply.key.value).key;
      TrackSpares(e, put, q, x);
    }
  }

  /** One completion: a delete by its key drops the entry, nothing else does. */
  lemma CompleteFrees(e: Env, mem: Mem, w: Write, reply: Reply, x: Entry)
    requires Consistent(mem.ids) && EntryOf(mem.ids, x.ptr) == Some(x)
    requires Instance(w) != Some(x.ptr) && StillHolds(mem.ids, w) && ClearOf(e, mem, w, x)
    requires FreshKeys(e, Completed(mem, w, reply)) && Complete(e, mem, w, reply).ok
    ensures EntryOf(Complete(e, mem, w, reply).mem.ids, x.ptr) == if FreesEntry(w, x) then None else Some(x)
  {
    match w.finish
    case FinishInsert(q, generated) =>
      if generated {
        FreshInsertSpares(e, mem, w, reply, x);
      } else {
        TrackSpares(e, mem, q, x);
      }
    case FinishFullUpdate(q) =>
      BumpOnly(e, mem, q);
      TrackSpares(e, Bump(e, mem, q), q, x);
    case FinishColumns(q, entry, props) => BumpOnly(e, mem, q);
    case FinishDelete(q, entry, soft) =>
      BumpOnly(e, mem, q);
      if entry.Some? {
        assert mem.ids.byPtr[q] == entry.value && entry.value.ptr == q;
      }
    case FinishDeleteKey(t, key) =>
      assert mem.ids.byKey[IdOf(x)] == x;
      assert Find(mem.ids, t, key).Some? ==> IdOf(Find(mem.ids, t, key).value) == (t, key);
    case FinishCommand =>
  }

  /** The rest stay clear of it. */
  lemma CompleteKeepsClear(e: Env, mem: Mem, ws: seq<Pending>, reply: Reply, x: Entry)
    requires ws != [] && OneWriteEach(ws) && AllClear(e, mem, ws, x)
    ensures AllClear(e, Complete(e, mem, ws[0].write, reply).mem, ws[1..], x)
  {
    CompleteOnly(e, mem, ws[0].write, reply);
    WaitingTail(ws);
    forall w | w in ws[1..]
      ensures ClearOf(e, Complete(e, mem, ws[0].write, reply).mem, w.write, x)
    {
      assert w in ws && ClearOf(e, mem, w.write, x);
      if Instance(w.write).Some? {
        assert Instance(w.write).value in Waiting(ws[1..]);
      }
    }
  }

  /** Completions leave an instance they do not write alone. */
  lemma {:induction false} KeysThroughDrain<D>(e: Env, srv: Server<D>, mem: Mem, db: D, ws: seq<Pending>, p: Ptr)
    requires Drain(e, srv, mem, db, ws).Drained? && forall w :: w in ws ==> Instance(w.write) != Some(p)
    ensures InstOf(Drain(e, srv, mem, db, ws).mem, p) == InstOf(mem, p)
    decreases |ws|
  {
    if ws != [] {
      var (next, reply) := srv.run(db, ws[0].write.stmt);
      assert ws[0] in ws && forall w :: w in ws[1..] ==> w in ws;
      CompleteOnly(e, mem, ws[0].write, reply);
      KeysThroughDrain(e, srv, Complete(e, mem, ws[0].write, reply).mem, next, ws[1..], p);
    }
  }

  /** The gate asks for the same key after the whole message. */
  lemma {:induction false} GateKeyThroughDrain<D>(e: Env, srv: Server<D>, mem: Mem, db: D, ws: seq<Pending>, op: Op)
    requires Drain(e, srv, mem, db, ws).Drained? && Free(e, mem, ws, op) && Gated(e, op) && op.p in mem.inst
    ensures GateKey(e, Drain(e, srv, mem, db, ws).mem, op) == GateKey(e, mem, op)
    decreases |ws|
  {
    if ws != [] {
      var (next, reply) := srv.run(db, ws[0].write.stmt);
      GateKeyStays(e, mem, ws, op, reply);
      FreeStays(e, mem, ws, op, reply);
      CompleteOnly(e, mem, ws[0].write, reply);
      GateKeyThroughDrain(e, srv, Complete(e, mem, ws[0].write, reply).mem, next, ws[1..], op);
    }
  }

  /** What is vacant stays so: its own statement, if one waits, registers it, and no other does. */
  lemma VacantStays(e: Env, written: set<Ptr>, upcoming: set<Ptr>, mem: Mem, ws: seq<Pending>, reply: Reply, p: Ptr)
    requires Tidy(e, written, upcoming, mem, ws) && ws != [] && FreshKeys(e, Completed(mem, ws[0].write, reply))
    requires Vacant(e, mem, ws, p)
    ensures Vacant(e, Complete(e, mem, ws[0].write, reply).mem, ws[1..], p)
  {
    var after := Complete(e, mem, ws[0].write, reply).mem;
    assert ws[0] in ws;
    WaitingTail(ws);
    if Instance(ws[0].write) == Some(p) {
      assert p in Waiting(ws);
      if EntryOf(after.ids, p).Some? {
        OwnIsRegistered(e, mem, ws[0].write, reply, p);
      }
    } else {
      OthersOnlyLose(e, mem, ws[0].write, reply, p);
    }
  }

  lemma {:induction false} VacantThroughDrain<D>(
    e: Env, srv: Server<D>, written: set<Ptr>, upcoming: set<Ptr>, mem: Mem, db: D, ws: seq<Pending>,
    tail: seq<Pending>, alone: seq<Completed>, p: Ptr)
    requires Tidy(e, written, upcoming, mem, ws + tail) && Drain(e, srv, mem, db, ws).Drained?
    requires Twins(alone, DrainLog(e, srv, mem, db, ws)) && forall h :: h in alone ==> Fresh(e, h)
    requires Vacant(e, mem, ws + tail, p)
    ensures Vacant(e, Drain(e, srv, mem, db, ws).mem, tail, p)
    decreases |ws|
  {
    if ws == [] {
      assert ws + tail == tail;
    } else {
      var (next, reply) := srv.run(db, ws[0].write.stmt);
      assert (ws + tail)[1..] == ws[1..] + tail && (ws + tail)[0] == ws[0] && alone[0] in alone;
      TwinsTail(e, srv, mem, db, ws, alone);
      TwinIsFresh(e, alone[0], Completed(mem, ws[0].write, reply));
      TidyApplies(e, written, upcoming, mem, ws + tail, reply);
      VacantStays(e, written, upcoming, mem, ws + tail, reply, p);
      VacantThroughDrain(e, srv, written, upcoming, Complete(e, mem, ws[0].write, reply).mem, next, ws[1..], tail,
                         alone[1..], p);
    }
  }

  /** The entry stands, its instance holds what it held, and what waits is clear of it. */
  ghost predicate Stands(e: Env, mem: Mem, ws: seq<Pending>, x: Entry, key: Key) {
    EntryOf(mem.ids, x.ptr) == Some(x) && KeyOf(mem, x.ptr) == key && AllClear(e, mem, ws, x)
  }

  /** Its own insert registers the instance anew. */
  lemma OwnInsertFrees(e: Env, mem: Mem, w: Write, reply: Reply, x: Entry)
    requires Consistent(mem.ids) && Numbered(mem.ids) && EntryOf(mem.ids, x.ptr) == Some(x) && e.tracked
    requires w.finish == FinishInsert(x.ptr, true) && x.ptr in mem.inst && MapFor(e, x.ptr).arity != 0
    requires FreshKeys(e, Completed(mem, w, reply)) && Complete(e, mem, w, reply).ok
    ensures EntryOf(Complete(e, mem, w, reply).mem.ids, x.ptr) != EntryOf(mem.ids, x.ptr)
  {
    var put := Put(mem, x.ptr, Set(InstOf(mem, x.ptr), KeyPart(0), reply.key.value));
    assert Registrable(e, put, x.ptr);
    RegisterKeepsMap(mem.ids, TypeOf(e, x.ptr), x.ptr, KeyOf(put, x.ptr), InstOf(put, x.ptr));
    assert mem.ids.byPtr[x.ptr].seqNo in mem.ids.snaps;
  }

  /** The first of a message's statements completes: the entry goes with one that frees it, and stands otherwise. */
  lemma FirstFrees(e: Env, written: set<Ptr>, upcoming: set<Ptr>, mem: Mem, ws: seq<Pending>, reply: Reply, x: Entry,
      key: Key)
    requires Tidy(e, written, upcoming, mem, ws) && ws != [] && FreshKeys(e, Completed(mem, ws[0].write, reply))
    requires Stands(e, mem, ws, x, key) && x.ptr !in written && Complete(e, mem, ws[0].write, reply).ok
    ensures var after := Complete(e, mem, ws[0].write, reply).mem;
            if FreesEntry(ws[0].write, x) then Vacant(e, after, ws[1..], x.ptr) else Stands(e, after, ws[1..], x, key)
  {
    assert ws[0] in ws && ClearOf(e, mem, ws[0].write, x);
    if ws[0].write.finish == FinishInsert(x.ptr, true) {
      OwnInsertFrees(e, mem, ws[0].write, reply, x);
      OwnIsRegistered(e, mem, ws[0].write, reply, x.ptr);
      WaitingTail(ws);
    } else {
      CompleteFrees(e, mem, ws[0].write, reply, x);
      CompleteOnly(e, mem, ws[0].write, reply);
      CompleteKeepsClear(e, mem, ws, reply, x);
    }
  }

  /** A whole message: an instance tracked under a key it does not hold is vacant when a statement freed it. */
  lemma {:induction false} DrainFrees<D>(
    e: Env, srv: Server<D>, written: set<Ptr>, upcoming: set<Ptr>, mem: Mem, db: D, ws: seq<Pending>,
    tail: seq<Pending>, alone: seq<Completed>, x: Entry, key: Key)
    requires Tidy(e, written, upcoming, mem, ws + tail) && Drain(e, srv, mem, db, ws).Drained?
    requires Twins(alone, DrainLog(e, srv, mem, db, ws)) && forall h :: h in alone ==> Fresh(e, h)
    requires Stands(e, mem, ws + tail, x, key) && x.ptr !in written
    ensures var after := Drain(e, srv, mem, db, ws).mem;
            if SomeFrees(ws, x) then Vacant(e, after, tail, x.ptr) else Stands(e, after, tail, x, key)
    decreases |ws|
  {
    if ws == [] {
      assert ws + tail == tail;
    } else {
      var (next, reply) := srv.run(db, ws[0].write.stmt);
      var done := Complete(e, mem, ws[0].write, reply);
      assert (ws + tail)[1..] == ws[1..] + tail && (ws + tail)[0] == ws[0] && alone[0] in alone;
      TwinsTail(e, srv, mem, db, ws, alone);
      TwinIsFresh(e, alone[0], Completed(mem, ws[0].write, reply));
      FirstFrees(e, written, upcoming, mem, ws + tail, reply, x, key);
      TidyApplies(e, written, upcoming, mem, ws + tail, reply);
      if FreesEntry(ws[0].write, x) {
        VacantThroughDrain(e, srv, written, upcoming, done.mem, next, ws[1..], tail, alone[1..], x.ptr);
        assert ws[0] in ws;
      } else {
        DrainFrees(e, srv, written, upcoming, done.mem, next, ws[1..], tail, alone[1..], x, key);
        assert SomeFrees(ws, x) <==> SomeFrees(ws[1..], x);
      }
    }
  }
}
