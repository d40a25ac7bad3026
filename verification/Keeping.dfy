/**
 The identity map over a whole call: whatever the operations, the plan, the keys and the database, its indexes stay
 in step and its keys as wide as their types.
 */
module Keeping {
  import opened Values
  import opened Entities
  import opened IdentityMap
  import opened Writes
  import opened Calls
  import opened Frames
  import opened Undoing
  import opened Restoring
  import opened KeyRules
  import opened Arrivals
  import Tracking

  /** The entry is of its instance's type, its key as wide as the type's: what the sorted arrays ask for. */
  predicate EntryFits(e: Env, x: Entry) {
    x.etype == TypeOf(e, x.ptr) && |x.key| == MapOf(e, x.etype).arity
  }

  ghost predicate Fitting(e: Env, ids: IdMap) {
    forall p :: p in ids.byPtr ==> EntryFits(e, ids.byPtr[p])
  }

  predicate KeyFits(e: Env, mem: Mem, p: Ptr) {
    |KeyOf(mem, p)| == MapFor(e, p).arity
  }

  /** The map is fitting, and each instance the call writes has the key fields of its type. */
  ghost predicate Fits(e: Env, mem: Mem, ops: seq<Op>) {
    Fitting(e, mem.ids) && forall op :: op in ops && OpInstance(op).Some? ==> KeyFits(e, mem, op.p)
  }

  function EntryIn(w: Write): Option<Entry> {
    match w.finish
    case FinishColumns(_, entry, _) => entry
    case FinishDelete(_, entry, _) => entry
    case _ => None
  }

  /** The entry a statement was prepared with is still its instance's, or was dropped meanwhile. */
  ghost predicate HeldOrDropped(ids: IdMap, w: Write) {
    EntryIn(w).Some? ==>
      && EntryIn(w).value.seqNo in ids.snaps && Instance(w) == Some(EntryIn(w).value.ptr)
      && EntryOf(ids, EntryIn(w).value.ptr) in {None, EntryIn(w)}
  }

  /** Each key the completion looks up is as wide as its type's. */
  ghost predicate LooksUpFitting(e: Env, mem: Mem, w: Write) {
    && (Instance(w).Some? ==> KeyFits(e, mem, Instance(w).value))
    && (EntryIn(w).Some? ==> EntryFits(e, EntryIn(w).value))
    && (w.finish.FinishDeleteKey? ==> |w.finish.key| == MapOf(e, w.finish.t).arity)
  }

  ghost predicate Waits(e: Env, fits: bool, mem: Mem, w: Write) {
    HeldOrDropped(mem.ids, w) && (fits ==> LooksUpFitting(e, mem, w))
  }

  /** The indexes are in step with statements waiting; no snapshot the journal captured was ever forgotten. */
  ghost predicate MapKept(e: Env, fits: bool, mem: Mem, journal: seq<Undo>, ws: seq<Pending>) {
    && Consistent(mem.ids) && Numbered(mem.ids) && (fits ==> Fitting(e, mem.ids))
    && OneWriteEach(ws) && Captured(journal) <= mem.ids.snaps.Keys
    && forall w :: w in ws ==> Waits(e, fits, mem, w.write)
  }

  // --- one completion ------------------------------------------------------------------------------------

  /** The map after a completion: in step again, and of all instances but its own none gained an entry. */
  ghost predicate Advanced(e: Env, fits: bool, ids: IdMap, after: IdMap, own: Option<Ptr>) {
    && Consistent(after) && Numbered(after) && (fits ==> Fitting(e, after))
    && ids.snaps.Keys <= after.snaps.Keys
    && forall q: Ptr :: own != Some(q) ==> EntryOf(after, q) in {None, EntryOf(ids, q)}
  }

  lemma TrackAdvances(e: Env, fits: bool, mem: Mem, p: Ptr)
    requires Consistent(mem.ids) && Numbered(mem.ids) && (fits ==> Fitting(e, mem.ids) && KeyFits(e, mem, p))
    ensures Advanced(e, fits, mem.ids, TrackJournaled(e, mem, p).mem.ids, Some(p))
  {
    var t, key := TypeOf(e, p), KeyOf(mem, p);
    RegisterKeepsMap(mem.ids, t, p, key, InstOf(mem, p));
    RegisterNumbers(mem.ids, t, p, key, InstOf(mem, p));
    var now := Register(mem.ids, t, p, key, InstOf(mem, p));
    forall q | q in now.byPtr && q != p
      ensures EntryOf(now, q) == EntryOf(mem.ids, q)
    {
      assert EntryOf(now, q).Some?;
    }
  }

  lemma ForgetAdvances(e: Env, fits: bool, ids: IdMap, entry: Entry, own: Option<Ptr>)
    requires Consistent(ids) && Numbered(ids) && (fits ==> Fitting(e, ids))
    requires EntryOf(ids, entry.ptr) in {None, Some(entry)}
    ensures Advanced(e, fits, ids, Forget(ids, entry), own)
  {
    ForgetKeepsMap(ids, entry);
  }

  lemma InsertAdvances(e: Env, fits: bool, mem: Mem, w: Write, reply: Reply)
    requires Consistent(mem.ids) && Numbered(mem.ids) && (fits ==> Fitting(e, mem.ids)) && Waits(e, fits, mem, w)
    requires w.finish.FinishInsert?
    ensures Advanced(e, fits, mem.ids, Complete(e, mem, w, reply).mem.ids, Instance(w))
  {
    var p := w.finish.p;
    if reply.Reply? {
      if !w.finish.generated {
        TrackAdvances(e, fits, mem, p);
      } else if reply.key.Some? {
        TrackAdvances(e, fits, Put(mem, p, Set(InstOf(mem, p), KeyPart(0), reply.key.value)), p);
      }
    }
  }

  lemma UpdateAdvances(e: Env, fits: bool, mem: Mem, w: Write, reply: Reply)
    requires Consistent(mem.ids) && Numbered(mem.ids) && (fits ==> Fitting(e, mem.ids)) && Waits(e, fits, mem, w)
    requires w.finish.FinishFullUpdate? || w.finish.FinishColumns?
    ensures Advanced(e, fits, mem.ids, Complete(e, mem, w, reply).mem.ids, Instance(w))
  {
    BumpOnly(e, mem, w.finish.p);
    if w.finish.FinishFullUpdate? {
      TrackAdvances(e, fits, Bump(e, mem, w.finish.p), w.finish.p);
    }
  }

  /** A delete that counts a row forgets the entry it was prepared with, or that holds its key. */
  lemma DeleteForgets(e: Env, mem: Mem, w: Write, reply: Reply)
    requires w.finish.FinishDelete? || w.finish.FinishDeleteKey?
    ensures var entry := if w.finish.FinishDelete? then w.finish.entry else Find(mem.ids, w.finish.t, w.finish.key);
            Complete(e, mem, w, reply).mem.ids in {mem.ids, ForgetAny(mem.ids, entry)}
  {
    if w.finish.FinishDelete? {
      BumpOnly(e, mem, w.finish.p);
    }
  }

  lemma DeleteAdvances(e: Env, fits: bool, mem: Mem, w: Write, reply: Reply)
    requires Consistent(mem.ids) && Numbered(mem.ids) && (fits ==> Fitting(e, mem.ids)) && Waits(e, fits, mem, w)
    requires w.finish.FinishDelete? || w.finish.FinishDeleteKey?
    ensures Advanced(e, fits, mem.ids, Complete(e, mem, w, reply).mem.ids, Instance(w))
  {
    DeleteForgets(e, mem, w, reply);
    var entry := if w.finish.FinishDelete? then w.finish.entry else Find(mem.ids, w.finish.t, w.finish.key);
    if entry.Some? {
      ForgetAdvances(e, fits, mem.ids, entry.value, Instance(w));
    }
  }

  lemma CompleteAdvances(e: Env, fits: bool, mem: Mem, w: Write, reply: Reply)
    requires Consistent(mem.ids) && Numbered(mem.ids) && (fits ==> Fitting(e, mem.ids)) && Waits(e, fits, mem, w)
    ensures Advanced(e, fits, mem.ids, Complete(e, mem, w, reply).mem.ids, Instance(w))
  {
    match w.finish
    case FinishInsert(_, _) => InsertAdvances(e, fits, mem, w, reply);
    case FinishFullUpdate(_) => UpdateAdvances(e, fits, mem, w, reply);
    case FinishColumns(_, _, _) => UpdateAdvances(e, fits, mem, w, reply);
    case FinishDelete(_, _, _) => DeleteAdvances(e, fits, mem, w, reply);
    case FinishDeleteKey(_, _) => DeleteAdvances(e, fits, mem, w, reply);
    case FinishCommand =>
  }

  lemma CompleteKeepsMap(e: Env, fits: bool, mem: Mem, journal: seq<Undo>, ws: seq<Pending>, reply: Reply)
    requires ws != [] && MapKept(e, fits, mem, journal, ws)
    ensures var done := Complete(e, mem, ws[0].write, reply);
            MapKept(e, fits, done.mem, journal + done.undos, ws[1..])
  {
    var w := ws[0].write;
    var done := Complete(e, mem, w, reply);
    assert ws[0] in ws;
    CompleteAdvances(e, fits, mem, w, reply);
    CompleteOnly(e, mem, w, reply);
    WaitingTail(ws);
    assert Captured(journal + done.undos) == Captured(journal) by {
      assert forall u :: u in journal + done.undos && u.UndoWrite? ==> u in journal;
      assert forall u :: u in journal ==> u in journal + done.undos;
    }
    forall v | v in ws[1..]
      ensures Waits(e, fits, done.mem, v.write)
    {
      assert v in ws && Waits(e, fits, mem, v.write);
      if Instance(v.write).Some? {
        assert Instance(v.write).value in Waiting(ws[1..]);
      }
    }
  }

  /** The tracker holds the memory's map, its arrays as wide as the types' keys. */
  ghost predicate Holds(tr: Tracking.Tracker, e: Env, ids: IdMap)
    reads tr
  {
    tr.Valid() && tr.view == ids && forall t :: tr.Width(t) == MapOf(e, t).arity
  }

  method FollowTrack(tr: Tracking.Tracker, e: Env, mem: Mem, p: Ptr)
    requires Holds(tr, e, mem.ids) && Consistent(mem.ids) && KeyFits(e, mem, p)
    modifies tr
    ensures Holds(tr, e, TrackJournaled(e, mem, p).mem.ids)
  {
    var t, key := TypeOf(e, p), KeyOf(mem, p);
    if e.tracked && MapOf(e, t).arity != 0 && !HasNull(key) {
      tr.Track(t, p, key, InstOf(mem, p));
    }
  }

  method FollowInsert(tr: Tracking.Tracker, e: Env, mem: Mem, w: Write, reply: Reply)
    requires Holds(tr, e, mem.ids) && Consistent(mem.ids) && Waits(e, true, mem, w) && w.finish.FinishInsert?
    requires Complete(e, mem, w, reply).ok
    modifies tr
    ensures Holds(tr, e, Complete(e, mem, w, reply).mem.ids)
  {
    var p := w.finish.p;
    if w.finish.generated {
      FollowTrack(tr, e, Put(mem, p, Set(InstOf(mem, p), KeyPart(0), reply.key.value)), p);
    } else {
      FollowTrack(tr, e, mem, p);
    }
  }

  method FollowForget(tr: Tracking.Tracker, e: Env, ids: IdMap, entry: Option<Entry>)
    requires Holds(tr, e, ids) && (entry.Some? ==> EntryFits(e, entry.value))
    modifies tr
    ensures Holds(tr, e, ForgetAny(ids, entry))
  {
    if entry.Some? {
      tr.ForgetEntry(entry.value);
    }
  }

  /** A completion on the sorted arrays: they follow the map, and every key they search for fits. */
  method Follow(tr: Tracking.Tracker, e: Env, mem: Mem, w: Write, reply: Reply) returns (done: Completion)
    requires Holds(tr, e, mem.ids) && Consistent(mem.ids) && Fitting(e, mem.ids) && Waits(e, true, mem, w)
    modifies tr
    ensures done == Complete(e, mem, w, reply) && Holds(tr, e, done.mem.ids)
  {
    done := Complete(e, mem, w, reply);
    if done.ok {
      match w.finish
      case FinishInsert(_, _) => FollowInsert(tr, e, mem, w, reply);
      case FinishFullUpdate(p) =>
        BumpOnly(e, mem, p);
        FollowTrack(tr, e, Bump(e, mem, p), p);
      case FinishColumns(p, entry, _) =>
        BumpOnly(e, mem, p);
        if entry.Some? {
          tr.SetSnapshot(entry.value, SnapshotOf(done.mem.ids, entry.value));
        }
      case FinishDelete(p, entry, _) =>
        BumpOnly(e, mem, p);
        FollowForget(tr, e, mem.ids, entry);
      case FinishDeleteKey(t, key) =>
        var holder := tr.FindEntry(t, key);
        FollowForget(tr, e, mem.ids, holder);
      case FinishCommand =>
    }
  }

  // --- one message -----------------------------------------------------------------------------------------

  /** Fewer statements ask for less. */
  lemma FewerWait(e: Env, fits: bool, mem: Mem, journal: seq<Undo>, ws: seq<Pending>, tail: seq<Pending>)
    requires MapKept(e, fits, mem, journal, ws + tail)
    ensures MapKept(e, fits, mem, journal, tail)
  {
    forall i, j | 0 <= i < j < |tail| && Instance(tail[i].write).Some?
      ensures Instance(tail[i].write) != Instance(tail[j].write)
    {
      assert (ws + tail)[|ws| + i] == tail[i] && (ws + tail)[|ws| + j] == tail[j];
    }
  }

  lemma ApplyKeepsMap<D>(e: Env, fits: bool, c: Call<D>, writes: seq<Pending>, tail: seq<Pending>, reply: Reply)
    requires writes != [] && MapKept(e, fits, c.mem, c.journal, writes + tail)
    ensures var next := Apply(e, c, writes, reply); MapKept(e, fits, next.mem, next.journal, writes[1..] + tail)
  {
    assert (writes + tail)[0] == writes[0] && (writes + tail)[1..] == writes[1..] + tail;
    CompleteKeepsMap(e, fits, c.mem, c.journal, writes + tail, reply);
  }

  lemma {:induction false} SendEachKeepsMap<D>(e: Env, srv: Server<D>, fits: bool, c: Call<D>, writes: seq<Pending>,
      tail: seq<Pending>)
    requires MapKept(e, fits, c.mem, c.journal, writes + tail)
    ensures var sent := SendEach(e, srv, c, writes); MapKept(e, fits, sent.mem, sent.journal, tail)
    decreases |writes|
  {
    if c.failed || writes == [] {
      FewerWait(e, fits, c.mem, c.journal, writes, tail);
    } else {
      var (db, reply) := srv.run(c.db, writes[0].write.stmt);
      ApplyKeepsMap(e, fits, c.(db := db), writes, tail, reply);
      SendEachKeepsMap(e, srv, fits, Apply(e, c.(db := db), writes, reply), writes[1..], tail);
    }
  }

  lemma {:induction false} ApplyAllKeepsMap<D>(e: Env, fits: bool, c: Call<D>, writes: seq<Pending>,
      replies: seq<Reply>, tail: seq<Pending>)
    requires |writes| == |replies| && MapKept(e, fits, c.mem, c.journal, writes + tail)
    ensures var sent := ApplyAll(e, c, writes, replies); MapKept(e, fits, sent.mem, sent.journal, tail)
    decreases |writes|
  {
    if c.failed || writes == [] {
      FewerWait(e, fits, c.mem, c.journal, writes, tail);
    } else {
      ApplyKeepsMap(e, fits, c, writes, tail, replies[0]);
      ApplyAllKeepsMap(e, fits, Apply(e, c, writes, replies[0]), writes[1..], replies[1..], tail);
    }
  }

  lemma SendKeepsMap<D>(e: Env, srv: Server<D>, plan: Plan, fits: bool, c: Call<D>, tail: seq<Pending>)
    requires MapKept(e, fits, c.mem, c.journal, c.current + tail)
    ensures var sent := Send(e, srv, plan, c); sent.current == [] && MapKept(e, fits, sent.mem, sent.journal, tail)
  {
    SendEmpties(e, srv, plan, c);
    FewerWait(e, fits, c.mem, c.journal, c.current, tail);
    var started := c.(current := [], sent := c.sent + [Texts(c.current)]);
    if plan.oneTrip {
      var (db, replies) := RunAll(srv, c.db, c.current);
      ApplyAllKeepsMap(e, fits, started.(db := db), c.current, replies, tail);
    } else {
      SendEachKeepsMap(e, srv, fits, started, c.current, tail);
    }
  }

  // --- one operation -----------------------------------------------------------------------------------------

  ghost predicate CallKept<D>(e: Env, fits: bool, c: Call<D>) {
    MapKept(e, fits, c.mem, c.journal, c.current)
  }

  /** The statement may join the message, whatever key it is about. */
  ghost predicate MayJoin<D>(e: Env, fits: bool, c: Call<D>, write: Write) {
    forall key :: MapKept(e, fits, c.mem, c.journal, c.current + [Pending(write, key)])
  }

  /** After rule 2 or 3 has sent what waits, the statement waits alone. */
  lemma SplitKeepsMap<D>(e: Env, srv: Server<D>, plan: Plan, fits: bool, c: Call<D>, write: Write, op: Op)
    requires MayJoin(e, fits, c, write)
    ensures var split := if Splits(plan, c.current, write) then Send(e, srv, plan, c) else c;
            && (Splits(plan, c.current, write) ==> split.current == [])
            && MapKept(e, fits, split.mem, split.journal, split.current + [Pending(write, KeyNow(e, split.mem, op))])
  {
    if Splits(plan, c.current, write) {
      var v := Pending(write, KeyNow(e, Send(e, srv, plan, c).mem, op));
      SendKeepsMap(e, srv, plan, fits, c, [v]);
      assert [] + [v] == [v];
    }
  }

  lemma AddKeepsMap<D>(e: Env, srv: Server<D>, plan: Plan, fits: bool, c: Call<D>, write: Write, op: Op)
    requires !c.failed && MayJoin(e, fits, c, write)
    ensures CallKept(e, fits, Add(e, srv, plan, c, write, op))
  {
    var split := if Splits(plan, c.current, write) then Send(e, srv, plan, c) else c;
    SplitKeepsMap(e, srv, plan, fits, c, write, op);
    var joined := split.(current := split.current + [Pending(write, KeyNow(e, split.mem, op))]);
    NoneWaits(e, fits, joined);
    SendKeepsMap(e, srv, plan, fits, joined, []);
  }

  lemma NoneWaits<D>(e: Env, fits: bool, c: Call<D>)
    requires CallKept(e, fits, c)
    ensures MapKept(e, fits, c.mem, c.journal, c.current + []) && MapKept(e, fits, c.mem, c.journal, [])
  {
    assert c.current + [] == c.current;
    FewerWait(e, fits, c.mem, c.journal, c.current, []);
  }

  /** An issued statement waits with the entry its preparation found. */
  lemma IssuedWaits(e: Env, fits: bool, mem: Mem, op: Op)
    requires Consistent(mem.ids) && Numbered(mem.ids) && Prepare(e, mem, op).issue.Issued?
    requires fits ==> Fitting(e, mem.ids) && (OpInstance(op).Some? ==> KeyFits(e, mem, op.p))
    ensures Waits(e, fits, Prepare(e, mem, op).mem, Prepare(e, mem, op).issue.write)
  {
    PrepareOnly(e, mem, op);
    IssuedFinish(e, mem, op);
    var w := Prepare(e, mem, op).issue.write;
    assert EntryIn(w).Some? ==> EntryIn(w) == EntryOf(mem.ids, op.p);
  }

  /** The key flow, the capture and the preparation leave the map and what waits. */
  lemma PreparedKeepsMap(e: Env, fits: bool, mem: Mem, journal: seq<Undo>, ws: seq<Pending>, op: Op)
    requires MapKept(e, fits, mem, journal, ws)
    ensures var flowed := Flow(e, mem, op);
            var grown := if OpInstance(op).Some? then journal + [RecordWrite(e, flowed, op.p)] else journal;
            MapKept(e, fits, Prepare(e, flowed, op).mem, grown, ws)
  {
    var flowed := Flow(e, mem, op);
    var grown := if OpInstance(op).Some? then journal + [RecordWrite(e, flowed, op.p)] else journal;
    FlowOnly(e, mem, op);
    PrepareOnly(e, flowed, op);
    assert Captured(grown) <= mem.ids.snaps.Keys by {
      assert forall u :: u in grown ==> u in journal || u == RecordWrite(e, flowed, op.p);
    }
    forall w | w in ws
      ensures Waits(e, fits, Prepare(e, flowed, op).mem, w.write)
    {
      assert Waits(e, fits, mem, w.write);
    }
  }

  lemma IssuingKeepsMap<D>(e: Env, srv: Server<D>, plan: Plan, fits: bool, c: Call<D>, op: Op)
    requires !c.failed && CallKept(e, fits, c) && Free(e, c.mem, c.current, op)
    requires fits && OpInstance(op).Some? ==> KeyFits(e, c.mem, op.p)
    requires Prepare(e, Flow(e, c.mem, op), op).issue.Issued?
    ensures var recorded := Recorded(e, c.(mem := Flow(e, c.mem, op)), op);
            var prepared := Prepare(e, recorded.mem, op);
            MayJoin(e, fits, recorded.(mem := prepared.mem), prepared.issue.write)
  {
    var recorded := Recorded(e, c.(mem := Flow(e, c.mem, op)), op);
    var prepared := Prepare(e, recorded.mem, op);
    PreparedKeepsMap(e, fits, c.mem, c.journal, c.current, op);
    FlowOnly(e, c.mem, op);
    PrepareOnly(e, recorded.mem, op);
    IssuedWaits(e, fits, recorded.mem, op);
    forall key
      ensures MapKept(e, fits, prepared.mem, recorded.journal, c.current + [Pending(prepared.issue.write, key)])
    {
      FreeIsDistinct(e, c.mem, c.current, op, Pending(prepared.issue.write, key));
    }
  }

  lemma ProceedKeepsMap<D>(e: Env, srv: Server<D>, plan: Plan, fits: bool, c: Call<D>, op: Op)
    requires !c.failed && CallKept(e, fits, c) && Free(e, c.mem, c.current, op)
    requires fits && OpInstance(op).Some? ==> KeyFits(e, c.mem, op.p)
    ensures CallKept(e, fits, Proceed(e, srv, plan, c, op))
  {
    var recorded := Recorded(e, c.(mem := Flow(e, c.mem, op)), op);
    var prepared := Prepare(e, recorded.mem, op);
    if prepared.issue.Issued? {
      IssuingKeepsMap(e, srv, plan, fits, c, op);
      AddKeepsMap(e, srv, plan, fits, recorded.(mem := prepared.mem), prepared.issue.write, op);
    } else {
      PreparedKeepsMap(e, fits, c.mem, c.journal, c.current, op);
    }
  }

  lemma StepKeepsMap<D>(e: Env, srv: Server<D>, plan: Plan, fits: bool, c: Call<D>, op: Op)
    requires CallKept(e, fits, c)
    requires fits && OpInstance(op).Some? ==> KeyFits(e, c.mem, op.p)
    ensures CallKept(e, fits, Step(e, srv, plan, c, op))
  {
    if !c.failed {
      var ready := Before(e, srv, plan, c, op);
      NoneWaits(e, fits, c);
      SendKeepsMap(e, srv, plan, fits, c, []);
      BeforeKeepsShape(e, srv, plan, c, op);
      if !ready.failed {
        ProceedKeepsMap(e, srv, plan, fits, ready, op);
      }
    }
  }

  // --- the whole call -------------------------------------------------------------------------------------------

  lemma {:induction false} StepsKeepMap<D>(e: Env, srv: Server<D>, plan: Plan, fits: bool, c: Call<D>, ops: seq<Op>)
    requires CallKept(e, fits, c)
    requires fits ==> forall op :: op in ops && OpInstance(op).Some? ==> KeyFits(e, c.mem, op.p)
    ensures CallKept(e, fits, Steps(e, srv, plan, c, ops))
    decreases |ops|
  {
    if ops != [] {
      var front, last := ops[..|ops| - 1], ops[|ops| - 1];
      StepsKeepMap(e, srv, plan, fits, c, front);
      StepsKeepShape(e, srv, plan, c, front);
      StepKeepsMap(e, srv, plan, fits, Steps(e, srv, plan, c, front), last);
    }
  }

  lemma RunIsKept<D>(e: Env, srv: Server<D>, plan: Plan, fits: bool, start: Mem, db: D, ops: seq<Op>)
    requires Consistent(start.ids) && Numbered(start.ids) && (fits ==> Fits(e, start, ops))
    ensures CallKept(e, fits, Run(e, srv, plan, start, db, ops))
    ensures SameShape(start, Run(e, srv, plan, start, db, ops).mem)
  {
    var begun := Start(start, db);
    assert Captured(begun.journal) == {};
    StepsKeepMap(e, srv, plan, fits, begun, ops);
    StepsKeepShape(e, srv, plan, begun, ops);
    var done := Steps(e, srv, plan, begun, ops);
    NoneWaits(e, fits, done);
    SendKeepsMap(e, srv, plan, fits, done, []);
    SendKeepsShape(e, srv, plan, done);
  }

  /** The map the next call finds is one it can start from, when the map this call found was. */
  ghost predicate LeavesMap(e: Env, ops: seq<Op>, start: Mem, end: Mem) {
    Consistent(start.ids) && Numbered(start.ids) ==>
      Consistent(end.ids) && Numbered(end.ids) && (Fits(e, start, ops) ==> Fits(e, end, ops))
  }

  /**
   However a call ends, whatever its keys and its plan, its indexes are in step and numbered, and every key it
   registered is as wide as its type's.
   */
  lemma RunKeepsMap<D>(e: Env, srv: Server<D>, plan: Plan, start: Mem, db: D, ops: seq<Op>)
    requires Consistent(start.ids) && Numbered(start.ids)
    ensures LeavesMap(e, ops, start, Run(e, srv, plan, start, db, ops).mem)
  {
    RunIsKept(e, srv, plan, Fits(e, start, ops), start, db, ops);
  }

  lemma RestoreKeepsNumbers(ids: IdMap, x: Entry)
    ensures Restore(ids, x).snaps == ids.snaps && Restore(ids, x).next == ids.next
  {
  }

  lemma UndoOneKeepsNumbers(ids: IdMap, u: Undo)
    requires u.UndoWrite? && u.entry.Some? ==> u.entry.value.seqNo in ids.snaps
    ensures UndoIds(ids, u).snaps.Keys == ids.snaps.Keys && UndoIds(ids, u).next == ids.next
  {
    match u
    case UndoRestore(dropped) => RestoreKeepsNumbers(ids, dropped);
    case UndoWrite(p, _, entry, snapshot, holder) =>
      var cleared := ForgetNewer(ids, p, entry);
      assert cleared.snaps == ids.snaps && cleared.next == ids.next;
      if entry.Some? {
        RestoreKeepsNumbers(SetSnapshot(cleared, entry.value, snapshot), entry.value);
      }
      var own := if entry.Some? then Restore(SetSnapshot(cleared, entry.value, snapshot), entry.value) else cleared;
      if holder.Some? {
        RestoreKeepsNumbers(own, holder.value);
      }
  }

  /** Undoing forgets no number and hands out none. */
  lemma {:induction false} UndoKeepsNumbers(ids: IdMap, journal: seq<Undo>)
    requires Captured(journal) <= ids.snaps.Keys
    ensures UndoAll(ids, journal).snaps.Keys == ids.snaps.Keys && UndoAll(ids, journal).next == ids.next
    decreases |journal|
  {
    if journal != [] {
      var front, last := journal[..|journal| - 1], journal[|journal| - 1];
      assert last in journal && Captured(front) <= Captured(journal);
      assert last.UndoWrite? && last.entry.Some? ==> last.entry.value.seqNo in Captured(journal);
      UndoOneKeepsNumbers(ids, last);
      UndoKeepsNumbers(UndoIds(ids, last), front);
    }
  }

  /** The map run back has the entries it had, and no number past the counter. */
  lemma RestoredIsNumbered(back: IdMap, start: IdMap, mem: IdMap)
    requires Consistent(start) && Numbered(start) && SameEntries(back, start)
    requires Numbered(mem) && back.snaps.Keys == mem.snaps.Keys && back.next == mem.next
    ensures Consistent(back) && Numbered(back)
  {
  }

  lemma RestoredFits(e: Env, ops: seq<Op>, start: Mem, back: Mem)
    requires Fits(e, start, ops) && Restored(e, ops, start, back)
    ensures Fits(e, back, ops)
  {
    forall p
      ensures |KeyOf(back, p)| == |KeyOf(start, p)|
    {
      assert p in start.inst ==> SameOutside(InstOf(back, p), InstOf(start, p), FlowedInto(e, ops, p));
    }
  }

  /** A call that restores the session leaves a map the next call can start from. */
  lemma RollbackKeepsMap<D>(e: Env, srv: Server<D>, plan: Plan, start: Mem, db: D, ops: seq<Op>)
    requires Consistent(start.ids) && Numbered(start.ids)
    requires var c := Run(e, srv, plan, start, db, ops); Restored(e, ops, start, Rollback(c.mem, c.journal))
    ensures var c := Run(e, srv, plan, start, db, ops); LeavesMap(e, ops, start, Rollback(c.mem, c.journal))
  {
    RunIsKept(e, srv, plan, false, start, db, ops);
    var c := Run(e, srv, plan, start, db, ops);
    RollbackIds(c.mem, c.journal);
    UndoKeepsNumbers(c.mem.ids, c.journal);
    RestoredIsNumbered(Rollback(c.mem, c.journal).ids, start.ids, c.mem.ids);
    if Fits(e, start, ops) {
      RestoredFits(e, ops, start, Rollback(c.mem, c.journal));
    }
  }
}
