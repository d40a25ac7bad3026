/** Forming messages changes how statements travel, never what they do. */
module Refinement {
  import opened Values
  import opened Entities
  import opened IdentityMap
  import opened Writes
  import opened Calls
  import opened Frames
  import opened Undoing
  import opened Restoring
  import opened KeyRules
  import opened Rollbacks
  import opened Strays
  import opened Commuting

  // --- draining a message -------------------------------------------------------------------------

  datatype Drained<D> = Stuck | Drained(mem: Mem, db: D)

  /** The waiting statements run and completed one after the other. */
  function Drain<D>(e: Env, srv: Server<D>, mem: Mem, db: D, ws: seq<Pending>): Drained<D>
    decreases |ws|
  {
    if ws == [] then Drained(mem, db)
    else
      var (next, reply) := srv.run(db, ws[0].write.stmt);
      var done := Complete(e, mem, ws[0].write, reply);
      if done.ok then Drain(e, srv, done.mem, next, ws[1..]) else Stuck
  }

  function DrainLog<D>(e: Env, srv: Server<D>, mem: Mem, db: D, ws: seq<Pending>): (log: seq<Completed>)
    ensures |log| == |ws|
    decreases |ws|
  {
    if ws == [] then []
    else
      var (next, reply) := srv.run(db, ws[0].write.stmt);
      [Completed(mem, ws[0].write, reply)] + DrainLog(e, srv, Complete(e, mem, ws[0].write, reply).mem, next, ws[1..])
  }

  lemma {:induction false} DrainAppend<D>(e: Env, srv: Server<D>, mem: Mem, db: D, ws: seq<Pending>, v: Pending)
    requires Drain(e, srv, mem, db, ws).Drained?
    ensures var d := Drain(e, srv, mem, db, ws);
            && Drain(e, srv, mem, db, ws + [v]) == Drain(e, srv, d.mem, d.db, [v])
            && DrainLog(e, srv, mem, db, ws + [v]) == DrainLog(e, srv, mem, db, ws) + DrainLog(e, srv, d.mem, d.db, [v])
    decreases |ws|
  {
    if ws == [] {
      assert ws + [v] == [v];
    } else {
      var (next, reply) := srv.run(db, ws[0].write.stmt);
      assert (ws + [v])[1..] == ws[1..] + [v];
      DrainAppend(e, srv, Complete(e, mem, ws[0].write, reply).mem, next, ws[1..], v);
    }
  }

  /** Sent one by one or in one round trip, a message that drains is drained. */
  lemma {:induction false} SendEachDrains<D>(e: Env, srv: Server<D>, c: Call<D>, ws: seq<Pending>)
    requires !c.failed && Drain(e, srv, c.mem, c.db, ws).Drained?
    ensures var sent := SendEach(e, srv, c, ws);
            && !sent.failed && Drained(sent.mem, sent.db) == Drain(e, srv, c.mem, c.db, ws)
            && sent.current == c.current && sent.sent == c.sent
            && sent.history == c.history + DrainLog(e, srv, c.mem, c.db, ws)
    decreases |ws|
  {
    if ws != [] {
      var (db, reply) := srv.run(c.db, ws[0].write.stmt);
      SendEachDrains(e, srv, Apply(e, c.(db := db), ws, reply), ws[1..]);
    }
  }

  lemma {:induction false} ApplyAllDrains<D>(e: Env, srv: Server<D>, c: Call<D>, db: D, ws: seq<Pending>)
    requires !c.failed && Drain(e, srv, c.mem, db, ws).Drained?
    ensures var (last, replies) := RunAll(srv, db, ws);
            var sent := ApplyAll(e, c, ws, replies);
            && Broken !in replies && !sent.failed && sent.db == c.db
            && Drained(sent.mem, last) == Drain(e, srv, c.mem, db, ws)
            && sent.current == c.current && sent.sent == c.sent
            && sent.history == c.history + DrainLog(e, srv, c.mem, db, ws)
    decreases |ws|
  {
    if ws != [] {
      var (next, reply) := srv.run(db, ws[0].write.stmt);
      ApplyAllDrains(e, srv, Apply(e, c, ws, reply), next, ws[1..]);
    }
  }

  lemma SendDrains<D>(e: Env, srv: Server<D>, plan: Plan, c: Call<D>)
    requires !c.failed && Drain(e, srv, c.mem, c.db, c.current).Drained?
    ensures var sent := Send(e, srv, plan, c);
            && !sent.failed && Drained(sent.mem, sent.db) == Drain(e, srv, c.mem, c.db, c.current)
            && sent.current == [] && Flat(sent.sent) == Flat(c.sent) + Texts(c.current)
            && sent.history == c.history + DrainLog(e, srv, c.mem, c.db, c.current)
  {
    if c.current != [] {
      var started := c.(current := [], sent := c.sent + [Texts(c.current)]);
      assert started.sent[..|c.sent|] == c.sent;
      if plan.oneTrip {
        var (db, _) := RunAll(srv, c.db, c.current);
        ApplyAllDrains(e, srv, started.(db := db), c.db, c.current);
      } else {
        SendEachDrains(e, srv, started, c.current);
      }
    }
  }

  /** The statements of a run, message boundaries aside. */
  function Flat(sent: seq<seq<Statement>>): seq<Statement> {
    if sent == [] then [] else Flat(sent[..|sent| - 1]) + sent[|sent| - 1]
  }

  // --- one completion, in either run ----------------------------------------------------------------

  ghost predicate Fresh(e: Env, h: Completed) {
    FreshKeys(e, h) && GuidsAhead(e, h.before)
  }

  /** The same statement completed alone and completed after later preparations. */
  ghost predicate Twin(alone: Completed, late: Completed) {
    && alone.write == late.write && alone.reply == late.reply
    && alone.before.ids == late.before.ids && alone.before.guids <= late.before.guids
    && (Instance(alone.write).Some? ==>
          InstOf(alone.before, Instance(alone.write).value) == InstOf(late.before, Instance(alone.write).value))
  }

  ghost predicate Twins(alone: seq<Completed>, late: seq<Completed>) {
    |alone| == |late| && forall i :: 0 <= i < |alone| ==> Twin(alone[i], late[i])
  }

  lemma TwinIsFresh(e: Env, alone: Completed, late: Completed)
    requires Twin(alone, late) && Fresh(e, alone)
    ensures Fresh(e, late)
  {
  }

  lemma TidyApplies(e: Env, written: set<Ptr>, upcoming: set<Ptr>, mem: Mem, ws: seq<Pending>, reply: Reply)
    requires Tidy(e, written, upcoming, mem, ws) && ws != []
    requires FreshKeys(e, Completed(mem, ws[0].write, reply))
    ensures Tidy(e, written, upcoming, Complete(e, mem, ws[0].write, reply).mem, ws[1..])
  {
    var done := Complete(e, mem, ws[0].write, reply);
    assert ws[0] in ws;
    var journal := Capturing(mem, ws[0].write);
    CompleteEffect(e, mem, journal, ws[0].write, reply);
    CompleteKeepsKeyed(e, written, upcoming, mem, journal, ws, reply);
    DropsAreQuiet(e, written, upcoming, mem, ws, reply);
    WaitingTail(ws);
    forall w | w in ws[1..]
      ensures StillHolds(done.mem.ids, w.write)
    {
      assert w in ws;
      if Instance(w.write).Some? {
        assert Instance(w.write).value in Waiting(ws[1..]);
      }
    }
  }

  /** An entry a completion gave its own instance is under the key the instance holds, and that key is set. */
  lemma OwnIsRegistered(e: Env, mem: Mem, w: Write, reply: Reply, p: Ptr)
    requires Consistent(mem.ids) && Instance(w) == Some(p) && p in mem.inst && StillHolds(mem.ids, w)
    requires FreshKeys(e, Completed(mem, w, reply))
    requires EntryOf(Complete(e, mem, w, reply).mem.ids, p) != EntryOf(mem.ids, p)
    ensures SettledAt(e, Complete(e, mem, w, reply).mem, p)
  {
    match w.finish
    case FinishInsert(_, generated) =>
      if generated {
        TrackedIsRegistered(e, Put(mem, p, Set(InstOf(mem, p), KeyPart(0), reply.key.value)), p);
      } else {
        TrackedIsRegistered(e, mem, p);
      }
    case FinishFullUpdate(_) =>
      BumpOnly(e, mem, p);
      TrackedIsRegistered(e, Bump(e, mem, p), p);
    case FinishColumns(_, entry, props) => BumpOnly(e, mem, p);
    case FinishDelete(_, entry, soft) => BumpOnly(e, mem, p);
  }

  lemma TrackedIsRegistered(e: Env, mem: Mem, p: Ptr)
    requires Consistent(mem.ids) && (Registrable(e, mem, p) ==> SetKey(MapFor(e, p), KeyOf(mem, p)))
    ensures var after := TrackJournaled(e, mem, p).mem;
            EntryOf(after.ids, p) != EntryOf(mem.ids, p) ==> SettledAt(e, after, p)
  {
    if Registrable(e, mem, p) {
      RegisterKeepsMap(mem.ids, TypeOf(e, p), p, KeyOf(mem, p), InstOf(mem, p));
    }
  }

  lemma FreeStays(e: Env, mem: Mem, ws: seq<Pending>, op: Op, reply: Reply)
    requires ws != [] && Free(e, mem, ws, op)
    ensures Free(e, Complete(e, mem, ws[0].write, reply).mem, ws[1..], op)
  {
    var after := Complete(e, mem, ws[0].write, reply).mem;
    CompleteOnly(e, mem, ws[0].write, reply);
    assert ws[0] in ws && !Clashes(e, mem, ws[0], op);
    assert KeyNow(e, after, op) == KeyNow(e, mem, op);
    forall held | held in ws[1..]
      ensures !Clashes(e, after, held, op)
    {
      assert held in ws && !Clashes(e, mem, held, op);
    }
  }

  lemma {:induction false} TidyDrains<D>(
    e: Env, srv: Server<D>, written: set<Ptr>, upcoming: set<Ptr>, mem: Mem, db: D, ws: seq<Pending>,
    tail: seq<Pending>, alone: seq<Completed>)
    requires Tidy(e, written, upcoming, mem, ws + tail) && Drain(e, srv, mem, db, ws).Drained?
    requires Twins(alone, DrainLog(e, srv, mem, db, ws)) && forall h :: h in alone ==> Fresh(e, h)
    ensures Tidy(e, written, upcoming, Drain(e, srv, mem, db, ws).mem, tail)
    decreases |ws|
  {
    if ws == [] {
      assert ws + tail == tail;
    } else {
      var (next, reply) := srv.run(db, ws[0].write.stmt);
      assert (ws + tail)[1..] == ws[1..] + tail && (ws + tail)[0] == ws[0] && alone[0] in alone;
      TwinIsFresh(e, alone[0], Completed(mem, ws[0].write, reply));
      TidyApplies(e, written, upcoming, mem, ws + tail, reply);
      TwinsTail(e, srv, mem, db, ws, alone);
      TidyDrains(e, srv, written, upcoming, Complete(e, mem, ws[0].write, reply).mem, next, ws[1..], tail, alone[1..]);
    }
  }

  lemma TwinsTail<D>(e: Env, srv: Server<D>, mem: Mem, db: D, ws: seq<Pending>, alone: seq<Completed>)
    requires ws != [] && Twins(alone, DrainLog(e, srv, mem, db, ws))
    ensures var (next, reply) := srv.run(db, ws[0].write.stmt);
            Twin(alone[0], Completed(mem, ws[0].write, reply)) &&
            Twins(alone[1..], DrainLog(e, srv, Complete(e, mem, ws[0].write, reply).mem, next, ws[1..]))
  {
    var (next, reply) := srv.run(db, ws[0].write.stmt);
    var rest := DrainLog(e, srv, Complete(e, mem, ws[0].write, reply).mem, next, ws[1..]);
    var log := DrainLog(e, srv, mem, db, ws);
    assert log[0] == Completed(mem, ws[0].write, reply) && log[1..] == rest;
    forall i | 0 <= i < |rest|
      ensures Twin(alone[1..][i], rest[i])
    {
      assert Twin(alone[i + 1], log[i + 1]);
    }
  }

  // --- a preparation past the whole message ----------------------------------------------------------

  /** What stood in the way of no preparation before a completion stands in its way afterwards. */
  lemma UnblockedStays(e: Env, written: set<Ptr>, upcoming: set<Ptr>, mem: Mem, ws: seq<Pending>, op: Op, reply: Reply)
    requires MayPass(e, written, upcoming, mem, ws, op) && ws != []
    requires FreshKeys(e, Completed(mem, ws[0].write, reply))
    requires var done := Complete(e, mem, ws[0].write, reply);
             && Tidy(e, written, upcoming, done.mem, ws[1..]) && Free(e, done.mem, ws[1..], op)
             && (ws[1..] != [] ==> GuidsAhead(e, done.mem))
    ensures Unblocked(e, Complete(e, mem, ws[0].write, reply).mem, ws[1..], op)
  {
    var after := Complete(e, mem, ws[0].write, reply).mem;
    if Gated(e, op) && !Unblocked(e, after, ws[1..], op) {
      GateKeyStays(e, mem, ws, op, reply);
      var h := Find(after.ids, TypeOf(e, op.p), GateKey(e, after, op)).value;
      var w :| w in ws[1..] && FreesEntry(w.write, h);
      assert ws[0] in ws && w in ws && EntryOf(after.ids, h.ptr) == Some(h);
      HolderIsNew(e, mem, ws, reply, op, h, w);
      WaitingTail(ws);
      assert Instance(w.write).Some? ==> Instance(w.write).value in Waiting(ws[1..]);
      OwnIsRegistered(e, mem, ws[0].write, reply, h.ptr);
      DeleteByGateKeyClashes(e, written, upcoming, after, ws[1..], op, h, w);
      assert false;
    }
  }

  /** A holder that a waiting statement frees now, and freed none of before, was registered by the completion. */
  lemma HolderIsNew(e: Env, mem: Mem, ws: seq<Pending>, reply: Reply, op: Op, h: Entry, w: Pending)
    requires Consistent(mem.ids) && Numbered(mem.ids) && ws != [] && StillHolds(mem.ids, ws[0].write)
    requires Gated(e, op) && Unblocked(e, mem, ws, op) && w in ws && FreesEntry(w.write, h) && h.ptr != op.p
    requires IdOf(h) == (TypeOf(e, op.p), GateKey(e, mem, op)) && !HasNull(h.key)
    requires EntryOf(Complete(e, mem, ws[0].write, reply).mem.ids, h.ptr) == Some(h)
    ensures EntryOf(mem.ids, h.ptr) != Some(h) && Instance(ws[0].write) == Some(h.ptr)
  {
    if EntryOf(mem.ids, h.ptr) == Some(h) {
      assert mem.ids.byPtr[h.ptr] == h && mem.ids.byKey[IdOf(h)] == h;
      assert SomeFrees(ws, h);
    }
    if Instance(ws[0].write) != Some(h.ptr) {
      OthersOnlyLose(e, mem, ws[0].write, reply, h.ptr);
    }
  }

  lemma PassStays(e: Env, written: set<Ptr>, upcoming: set<Ptr>, mem: Mem, ws: seq<Pending>, op: Op, reply: Reply)
    requires MayPass(e, written, upcoming, mem, ws, op) && ws != []
    requires FreshKeys(e, Completed(mem, ws[0].write, reply))
    requires ws[1..] != [] ==> GuidsAhead(e, Complete(e, mem, ws[0].write, reply).mem)
    ensures MayPass(e, written, upcoming, Complete(e, mem, ws[0].write, reply).mem, ws[1..], op)
  {
    TidyApplies(e, written, upcoming, mem, ws, reply);
    FreeStays(e, mem, ws, op, reply);
    CompleteOnly(e, mem, ws[0].write, reply);
    UnblockedStays(e, written, upcoming, mem, ws, op, reply);
  }

  lemma GuidsGrow(e: Env, mem: Mem, op: Op)
    ensures mem.guids <= Prepared(e, mem, op).mem.guids
  {
    FlowOnly(e, mem, op);
  }

  lemma {:induction false} PreparePastMessage<D>(
    e: Env, srv: Server<D>, written: set<Ptr>, upcoming: set<Ptr>, mem: Mem, db: D, ws: seq<Pending>, op: Op,
    alone: seq<Completed>)
    requires MayPass(e, written, upcoming, mem, ws, op) && Drain(e, srv, mem, db, ws).Drained?
    requires Twins(alone, DrainLog(e, srv, mem, db, ws)) && forall h :: h in alone ==> Fresh(e, h)
    requires !Prepared(e, Drain(e, srv, mem, db, ws).mem, op).issue.Refused?
    ensures var d := Drain(e, srv, mem, db, ws);
            && Prepared(e, mem, op).issue == Prepared(e, d.mem, op).issue
            && Drain(e, srv, Prepared(e, mem, op).mem, db, ws) == Drained(Prepared(e, d.mem, op).mem, d.db)
            && Twins(alone, DrainLog(e, srv, Prepared(e, mem, op).mem, db, ws))
    decreases |ws|
  {
    if ws != [] {
      var (next, reply) := srv.run(db, ws[0].write.stmt);
      var done := Complete(e, mem, ws[0].write, reply);
      var after := Prepared(e, mem, op).mem;
      assert alone[0] in alone && ws[0] in ws;
      TwinsTail(e, srv, mem, db, ws, alone);
      TwinIsFresh(e, alone[0], Completed(mem, ws[0].write, reply));
      NextIsFresh(e, srv, done.mem, next, ws[1..], alone[1..]);
      PassStays(e, written, upcoming, mem, ws, op, reply);
      PreparePastMessage(e, srv, written, upcoming, done.mem, next, ws[1..], op, alone[1..]);
      PrepareCommutes(e, written, upcoming, mem, ws, op, reply);
      GuidsGrow(e, mem, op);
      OthersUntouched(e, mem, op);
      assert !Clashes(e, mem, ws[0], op);
      var rest := DrainLog(e, srv, Prepared(e, done.mem, op).mem, next, ws[1..]);
      assert DrainLog(e, srv, after, db, ws) == [Completed(after, ws[0].write, reply)] + rest;
      TwinsHead(alone, Completed(after, ws[0].write, reply), rest);
    }
  }

  lemma NextIsFresh<D>(e: Env, srv: Server<D>, mem: Mem, db: D, ws: seq<Pending>, alone: seq<Completed>)
    requires Twins(alone, DrainLog(e, srv, mem, db, ws)) && forall h :: h in alone ==> Fresh(e, h)
    ensures ws != [] ==> GuidsAhead(e, mem)
  {
    if ws != [] {
      assert alone[0] in alone;
      TwinsTail(e, srv, mem, db, ws, alone);
    }
  }

  lemma TwinsHead(alone: seq<Completed>, first: Completed, rest: seq<Completed>)
    requires alone != [] && Twin(alone[0], first) && Twins(alone[1..], rest)
    ensures Twins(alone, [first] + rest)
  {
    forall i | 0 <= i < |alone|
      ensures Twin(alone[i], ([first] + rest)[i])
    {
      if i > 0 {
        assert Twin(alone[1..][i - 1], rest[i - 1]);
      }
    }
  }

  lemma OthersUntouched(e: Env, mem: Mem, op: Op)
    ensures Prepared(e, mem, op).mem.ids == mem.ids
    ensures forall q: Ptr :: OpInstance(op) != Some(q) ==> InstOf(Prepared(e, mem, op).mem, q) == InstOf(mem, q)
  {
    FlowOnly(e, mem, op);
    PrepareOnly(e, Flow(e, mem, op), op);
  }

  lemma TidyPrepares(e: Env, written: set<Ptr>, upcoming: set<Ptr>, mem: Mem, ws: seq<Pending>, op: Op)
    requires Tidy(e, written, upcoming, mem, ws) && Free(e, mem, ws, op) && InPhase(upcoming, op)
    ensures Tidy(e, written, upcoming, Prepared(e, mem, op).mem, ws)
  {
    OthersUntouched(e, mem, op);
    PrepareKeepsKeyed(e, written, upcoming, mem, ws, op);
  }

  lemma TidyJoins(e: Env, written: set<Ptr>, upcoming: set<Ptr>, mem: Mem, ws: seq<Pending>, op: Op)
    requires MayPass(e, written, upcoming, mem, ws, op) && Prepared(e, mem, op).issue.Issued?
    ensures var v := Pending(Prepared(e, mem, op).issue.write, KeyNow(e, Prepared(e, mem, op).mem, op));
            Tidy(e, written, if op.FlushInsert? then upcoming - {op.p} else upcoming, Prepared(e, mem, op).mem,
                 ws + [v])
  {
    var flowed := Flow(e, mem, op);
    var v := Pending(Prepared(e, mem, op).issue.write, KeyNow(e, Prepared(e, mem, op).mem, op));
    OthersUntouched(e, mem, op);
    PrepareOnly(e, flowed, op);
    IssuedFinish(e, flowed, op);
    FreeIsDistinct(e, mem, ws, op, v);
    JoinKeepsKeyed(e, written, upcoming, mem, ws, op);
    assert forall w :: w in ws + [v] <==> w in ws || w == v;
  }

  // --- the simulation ---------------------------------------------------------------------------------

  /** The run in messages is ahead of the other by the statements waiting in its message in progress. */
  ghost predicate Ahead<D>(
    e: Env, srv: Server<D>, written: set<Ptr>, upcoming: set<Ptr>, off: Call<D>, auto: Call<D>, alone: seq<Completed>) {
    && !off.failed && off.current == [] && !auto.failed
    && Tidy(e, written, upcoming, auto.mem, auto.current)
    && Drain(e, srv, auto.mem, auto.db, auto.current) == Drained(off.mem, off.db)
    && Twins(alone, DrainLog(e, srv, auto.mem, auto.db, auto.current)) && (forall h :: h in alone ==> Fresh(e, h))
    && Flat(off.sent) == Flat(auto.sent) + Texts(auto.current)
  }

  /** The same with the message in progress sent. */
  lemma SendCatchesUp<D>(
    e: Env, srv: Server<D>, plan: Plan, written: set<Ptr>, upcoming: set<Ptr>, off: Call<D>, auto: Call<D>,
    alone: seq<Completed>)
    requires Ahead(e, srv, written, upcoming, off, auto, alone)
    ensures var sent := Send(e, srv, plan, auto);
            && Ahead(e, srv, written, upcoming, off, sent, [])
            && sent.mem == off.mem && sent.db == off.db && sent.current == []
  {
    SendDrains(e, srv, plan, auto);
    assert auto.current + [] == auto.current;
    TidyDrains(e, srv, written, upcoming, auto.mem, auto.db, auto.current, [], alone);
    assert Texts([]) == [];
  }

  /** A statement alone: prepared, run and completed before anything else. */
  lemma AloneStep<D>(e: Env, srv: Server<D>, plan: Plan, off: Call<D>, op: Op)
    requires plan.limit <= 1 && !off.failed && off.current == [] && !Step(e, srv, plan, off, op).failed
    ensures var prepared := Prepared(e, off.mem, op);
            var next := Step(e, srv, plan, off, op);
            && !prepared.issue.Refused? && next.current == []
            && (prepared.issue.Nothing? ==> next.mem == prepared.mem && next.db == off.db && next.sent == off.sent &&
                                            next.history == off.history)
            && (prepared.issue.Issued? ==>
                  var w := prepared.issue.write;
                  var (db, reply) := srv.run(off.db, w.stmt);
                  var done := Complete(e, prepared.mem, w, reply);
                  && done.ok && next.mem == done.mem && next.db == db && next.sent == off.sent + [[w.stmt]]
                  && next.history == off.history + [Completed(prepared.mem, w, reply)])
  {
    var prepared := Prepared(e, off.mem, op);
    if prepared.issue.Issued? {
      var w := prepared.issue.write;
      var recorded := Recorded(e, off.(mem := Flow(e, off.mem, op)), op).(mem := prepared.mem);
      var joined := recorded.(current := [Pending(w, KeyNow(e, prepared.mem, op))]);
      assert recorded.current + joined.current == joined.current;
      assert Step(e, srv, plan, off, op) == Add(e, srv, plan, recorded, w, op) == Send(e, srv, plan, joined);
      assert Texts(joined.current) == [w.stmt];
      AloneSend(e, srv, plan, joined);
    }
  }

  lemma AloneSend<D>(e: Env, srv: Server<D>, plan: Plan, c: Call<D>)
    requires !c.failed && |c.current| == 1 && !Send(e, srv, plan, c).failed
    ensures var w := c.current[0].write;
            var (db, reply) := srv.run(c.db, w.stmt);
            var done := Complete(e, c.mem, w, reply);
            var sent := Send(e, srv, plan, c);
            && done.ok && sent.mem == done.mem && sent.db == db && sent.current == [] &&
               sent.sent == c.sent + [Texts(c.current)]
            && sent.history == c.history + [Completed(c.mem, w, reply)]
  {
    var started := c.(current := [], sent := c.sent + [Texts(c.current)]);
    var (db, reply) := srv.run(c.db, c.current[0].write.stmt);
    if plan.oneTrip {
      var all := RunAll(srv, c.db, c.current);
      assert RunAll(srv, db, c.current[1..]) == (db, []);
      assert [reply] + [] == [reply];
      assert all == (db, [reply]);
      var next := Apply(e, started.(db := db), c.current, reply);
      assert ApplyAll(e, started.(db := db), c.current, [reply]) ==
               ApplyAll(e, next, c.current[1..], [reply][1..]) == next;
    } else {
      var next := Apply(e, started.(db := db), c.current, reply);
      assert SendEach(e, srv, started, c.current) == SendEach(e, srv, next, c.current[1..]) == next;
    }
  }

  lemma FlatAppend(sent: seq<seq<Statement>>, message: seq<Statement>)
    ensures Flat(sent + [message]) == Flat(sent) + message
  {
    assert (sent + [message])[..|sent|] == sent;
  }

  lemma LessStaysAhead<D>(
    e: Env, srv: Server<D>, written: set<Ptr>, upcoming: set<Ptr>, less: set<Ptr>, off: Call<D>, auto: Call<D>,
    alone: seq<Completed>)
    requires Ahead(e, srv, written, upcoming, off, auto, alone) && less <= upcoming
    ensures Ahead(e, srv, written, less, off, auto, alone)
  {
  }

  lemma NothingStaysAhead<D>(
    e: Env, srv: Server<D>, plan: Plan, written: set<Ptr>, upcoming: set<Ptr>, off: Call<D>, auto: Call<D>,
    alone: seq<Completed>, op: Op, next: Call<D>)
    requires Ahead(e, srv, written, upcoming, off, auto, alone)
    requires MayPass(e, written, upcoming, auto.mem, auto.current, op)
    requires Prepared(e, off.mem, op).issue.Nothing?
    requires !next.failed && next.current == [] && next.mem == Prepared(e, off.mem, op).mem && next.db == off.db &&
             next.sent == off.sent
    ensures Ahead(e, srv, written, upcoming, next, Proceed(e, srv, plan, auto, op), alone)
  {
    PreparePastMessage(e, srv, written, upcoming, auto.mem, auto.db, auto.current, op, alone);
    TidyPrepares(e, written, upcoming, auto.mem, auto.current, op);
  }

  /** The message in progress grown by the new statement, before rules 2 and 3 are asked. */
  lemma DrainOne<D>(e: Env, srv: Server<D>, mem: Mem, db: D, v: Pending)
    requires Complete(e, mem, v.write, srv.run(db, v.write.stmt).1).ok
    ensures var (next, reply) := srv.run(db, v.write.stmt);
            && Drain(e, srv, mem, db, [v]) == Drained(Complete(e, mem, v.write, reply).mem, next)
            && DrainLog(e, srv, mem, db, [v]) == [Completed(mem, v.write, reply)]
  {
    assert [v][1..] == [];
  }

  /** The statement of an operation as it completes alone. */
  ghost function AloneOf<D>(e: Env, srv: Server<D>, off: Call<D>, op: Op): Completed
    requires Prepared(e, off.mem, op).issue.Issued?
  {
    var w := Prepared(e, off.mem, op).issue.write;
    Completed(Prepared(e, off.mem, op).mem, w, srv.run(off.db, w.stmt).1)
  }

  /** The call after an operation's statement was sent alone and completed. */
  ghost predicate WentAlone<D>(e: Env, srv: Server<D>, off: Call<D>, op: Op, next: Call<D>)
    requires Prepared(e, off.mem, op).issue.Issued?
  {
    var h := AloneOf(e, srv, off, op);
    var done := Complete(e, h.before, h.write, h.reply);
    && done.ok && !next.failed && next.current == [] && next.mem == done.mem
    && next.db == srv.run(off.db, h.write.stmt).0 && next.sent == off.sent + [[h.write.stmt]] && Fresh(e, h)
  }

  /** Prepared past the message, the statement is the same, and drained after it comes to the same. */
  lemma JoinDrains<D>(e: Env, srv: Server<D>, written: set<Ptr>, upcoming: set<Ptr>, off: Call<D>, mem: Mem, db: D,
      ws: seq<Pending>, alone: seq<Completed>, op: Op, next: Call<D>)
    requires MayPass(e, written, upcoming, mem, ws, op) && Drain(e, srv, mem, db, ws) == Drained(off.mem, off.db)
    requires Twins(alone, DrainLog(e, srv, mem, db, ws)) && forall h :: h in alone ==> Fresh(e, h)
    requires Prepared(e, off.mem, op).issue.Issued? && WentAlone(e, srv, off, op, next)
    ensures Prepared(e, mem, op).issue == Prepared(e, off.mem, op).issue
    ensures Drain(e, srv, Prepared(e, mem, op).mem, db, ws) == Drained(Prepared(e, off.mem, op).mem, off.db)
    ensures Twins(alone, DrainLog(e, srv, Prepared(e, mem, op).mem, db, ws))
    ensures forall key ::
              var v := Pending(AloneOf(e, srv, off, op).write, key);
              && Drain(e, srv, Prepared(e, mem, op).mem, db, ws + [v]) == Drained(next.mem, next.db)
              && Twins(alone + [AloneOf(e, srv, off, op)], DrainLog(e, srv, Prepared(e, mem, op).mem, db, ws + [v]))
  {
    PreparePastMessage(e, srv, written, upcoming, mem, db, ws, op, alone);
    forall key
      ensures var v := Pending(AloneOf(e, srv, off, op).write, key);
              && Drain(e, srv, Prepared(e, mem, op).mem, db, ws + [v]) == Drained(next.mem, next.db)
              && Twins(alone + [AloneOf(e, srv, off, op)], DrainLog(e, srv, Prepared(e, mem, op).mem, db, ws + [v]))
    {
      DrainsOneMore(e, srv, Prepared(e, mem, op).mem, db, ws, Pending(AloneOf(e, srv, off, op).write, key), alone,
                    Prepared(e, off.mem, op).mem, off.db);
    }
  }

  lemma JoinFlat<D>(off: Call<D>, auto: Call<D>, next: Call<D>, v: Pending)
    requires Flat(off.sent) == Flat(auto.sent) + Texts(auto.current) && next.sent == off.sent + [[v.write.stmt]]
    ensures Flat(next.sent) == Flat(auto.sent) + Texts(auto.current + [v])
  {
    assert Texts(auto.current + [v]) == Texts(auto.current) + [v.write.stmt];
    FlatAppend(off.sent, [v.write.stmt]);
  }

  lemma JoinStaysAhead<D>(
    e: Env, srv: Server<D>, written: set<Ptr>, upcoming: set<Ptr>, off: Call<D>, auto: Call<D>,
    alone: seq<Completed>, op: Op, next: Call<D>)
    requires Ahead(e, srv, written, upcoming, off, auto, alone)
    requires MayPass(e, written, upcoming, auto.mem, auto.current, op)
    requires Prepared(e, off.mem, op).issue.Issued? && WentAlone(e, srv, off, op, next)
    ensures Prepared(e, auto.mem, op).issue == Prepared(e, off.mem, op).issue
    ensures var prepared := Prepared(e, auto.mem, op);
            var v := Pending(prepared.issue.write, KeyNow(e, prepared.mem, op));
            && Ahead(e, srv, written, if op.FlushInsert? then upcoming - {op.p} else upcoming, next,
                     auto.(mem := prepared.mem, current := auto.current + [v]), alone + [AloneOf(e, srv, off, op)])
            && Drain(e, srv, prepared.mem, auto.db, auto.current) == Drained(Prepared(e, off.mem, op).mem, off.db)
            && Twins(alone, DrainLog(e, srv, prepared.mem, auto.db, auto.current))
  {
    JoinDrains(e, srv, written, upcoming, off, auto.mem, auto.db, auto.current, alone, op, next);
    TidyJoins(e, written, upcoming, auto.mem, auto.current, op);
    var prepared := Prepared(e, auto.mem, op);
    var v := Pending(prepared.issue.write, KeyNow(e, prepared.mem, op));
    JoinFlat(off, auto, next, v);
    AheadByParts(e, srv, written, if op.FlushInsert? then upcoming - {op.p} else upcoming, next,
                 auto.(mem := prepared.mem, current := auto.current + [v]), alone + [AloneOf(e, srv, off, op)]);
  }

  /** A message that drains, drained with one more statement. */
  lemma DrainsOneMore<D>(
    e: Env, srv: Server<D>, mem: Mem, db: D, ws: seq<Pending>, v: Pending, alone: seq<Completed>, last: Mem, lastDb: D)
    requires Drain(e, srv, mem, db, ws) == Drained(last, lastDb) && Twins(alone, DrainLog(e, srv, mem, db, ws))
    requires Complete(e, last, v.write, srv.run(lastDb, v.write.stmt).1).ok
    ensures var (next, reply) := srv.run(lastDb, v.write.stmt);
            && Drain(e, srv, mem, db, ws + [v]) == Drained(Complete(e, last, v.write, reply).mem, next)
            && Twins(alone + [Completed(last, v.write, reply)], DrainLog(e, srv, mem, db, ws + [v]))
  {
    DrainAppend(e, srv, mem, db, ws, v);
    DrainOne(e, srv, last, lastDb, v);
    TwinsAppend(alone, DrainLog(e, srv, mem, db, ws), Completed(last, v.write, srv.run(lastDb, v.write.stmt).1));
  }

  lemma TwinsAppend(alone: seq<Completed>, late: seq<Completed>, last: Completed)
    requires Twins(alone, late)
    ensures Twins(alone + [last], late + [last])
  {
  }

  lemma FullStaysAhead<D>(
    e: Env, srv: Server<D>, plan: Plan, written: set<Ptr>, upcoming: set<Ptr>, next: Call<D>, joined: Call<D>,
    alone: seq<Completed>)
    returns (left: seq<Completed>)
    requires Ahead(e, srv, written, upcoming, next, joined, alone)
    ensures Ahead(e, srv, written, upcoming, next, if |joined.current| >= plan.limit then Send(e, srv, plan, joined)
                    else joined, left)
  {
    if |joined.current| >= plan.limit {
      SendCatchesUp(e, srv, plan, written, upcoming, next, joined, alone);
      left := [];
    } else {
      left := alone;
    }
  }

  lemma AddStaysAhead<D>(
    e: Env, srv: Server<D>, plan: Plan, written: set<Ptr>, upcoming: set<Ptr>, next: Call<D>, c: Call<D>, op: Op,
    v: Pending,
    alone: seq<Completed>, last: Completed)
    returns (left: seq<Completed>)
    requires !c.failed && Instance(v.write) == OpInstance(op) && v.key == KeyNow(e, c.mem, op)
    requires op.DeleteKey? ==> v.write.finish == FinishDeleteKey(op.t, op.key) &&
                               ValidKeyArgument(MapOf(e, op.t), op.key)
    requires Ahead(e, srv, written, upcoming, next, c.(current := c.current + [v]), alone + [last])
    requires Drain(e, srv, c.mem, c.db, c.current).Drained?
    requires Twins(alone, DrainLog(e, srv, c.mem, c.db, c.current))
    ensures Ahead(e, srv, written, upcoming, next, Add(e, srv, plan, c, v.write, op), left)
  {
    if Splits(plan, c.current, v.write) {
      SplitStaysAhead(e, srv, plan, written, upcoming, next, c, op, v, alone, last);
      var split := Send(e, srv, plan, c);
      assert split.current + [v] == [v];
      left := FullStaysAhead(e, srv, plan, written, upcoming, next, split.(current := [v]), [last]);
    } else {
      left := FullStaysAhead(e, srv, plan, written, upcoming, next, c.(current := c.current + [v]), alone + [last]);
    }
  }

  /** Sending the statements before the new one leaves a run ahead by the new one alone. */
  lemma SplitDrains<D>(
    e: Env, srv: Server<D>, mem: Mem, db: D, ws: seq<Pending>, v: Pending, alone: seq<Completed>, last: Completed)
    requires Drain(e, srv, mem, db, ws).Drained?
    requires Twins(alone, DrainLog(e, srv, mem, db, ws)) && Twins(alone + [last], DrainLog(e, srv, mem, db, ws + [v]))
    ensures var d := Drain(e, srv, mem, db, ws);
            Drain(e, srv, d.mem, d.db, [v]) == Drain(e, srv, mem, db, ws + [v]) &&
            Twins([last], DrainLog(e, srv, d.mem, d.db, [v]))
  {
    var d := Drain(e, srv, mem, db, ws);
    DrainAppend(e, srv, mem, db, ws, v);
    var log, tail := DrainLog(e, srv, mem, db, ws), DrainLog(e, srv, d.mem, d.db, [v]);
    assert (log + tail)[|log|] == tail[0] && (alone + [last])[|log|] == last;
    assert Twin(last, tail[0]);
  }

  lemma SplitIsTidy<D>(
    e: Env, srv: Server<D>, written: set<Ptr>, upcoming: set<Ptr>, mem: Mem, db: D, ws: seq<Pending>, op: Op,
    v: Pending, alone: seq<Completed>)
    requires Tidy(e, written, upcoming, mem, ws + [v]) && Drain(e, srv, mem, db, ws).Drained?
    requires Twins(alone, DrainLog(e, srv, mem, db, ws)) && forall h :: h in alone ==> Fresh(e, h)
    requires Instance(v.write) == OpInstance(op) && v.key == KeyNow(e, mem, op)
    requires op.DeleteKey? ==> v.write.finish == FinishDeleteKey(op.t, op.key) &&
                               ValidKeyArgument(MapOf(e, op.t), op.key)
    ensures var d := Drain(e, srv, mem, db, ws);
            Tidy(e, written, upcoming, d.mem, [v]) && KeyNow(e, d.mem, op) == v.key
  {
    TidyDrains(e, srv, written, upcoming, mem, db, ws, [v], alone);
    assert v in [v] && KeyFact(e, Drain(e, srv, mem, db, ws).mem, v);
  }

  lemma SplitStaysAhead<D>(
    e: Env, srv: Server<D>, plan: Plan, written: set<Ptr>, upcoming: set<Ptr>, next: Call<D>, c: Call<D>, op: Op,
    v: Pending,
    alone: seq<Completed>, last: Completed)
    requires !c.failed && Instance(v.write) == OpInstance(op) && v.key == KeyNow(e, c.mem, op)
    requires op.DeleteKey? ==> v.write.finish == FinishDeleteKey(op.t, op.key) &&
                               ValidKeyArgument(MapOf(e, op.t), op.key)
    requires Ahead(e, srv, written, upcoming, next, c.(current := c.current + [v]), alone + [last])
    requires Drain(e, srv, c.mem, c.db, c.current).Drained?
    requires Twins(alone, DrainLog(e, srv, c.mem, c.db, c.current))
    ensures var split := Send(e, srv, plan, c);
            && !split.failed && split.current == [] && KeyNow(e, split.mem, op) == v.key
            && Ahead(e, srv, written, upcoming, next, split.(current := [v]), [last])
  {
    var split := Send(e, srv, plan, c);
    SendDrains(e, srv, plan, c);
    assert (forall h :: h in alone ==> h in alone + [last]) && last in alone + [last];
    SplitIsTidy(e, srv, written, upcoming, c.mem, c.db, c.current, op, v, alone);
    SplitDrains(e, srv, c.mem, c.db, c.current, v, alone, last);
    SplitFlat(next, c, split, v);
    AheadByParts(e, srv, written, upcoming, next, split.(current := [v]), [last]);
  }

  lemma AheadByParts<D>(e: Env, srv: Server<D>, written: set<Ptr>, upcoming: set<Ptr>, off: Call<D>, auto: Call<D>,
      alone: seq<Completed>)
    requires !off.failed && off.current == [] && !auto.failed
    requires Tidy(e, written, upcoming, auto.mem, auto.current)
    requires Drain(e, srv, auto.mem, auto.db, auto.current) == Drained(off.mem, off.db)
    requires Twins(alone, DrainLog(e, srv, auto.mem, auto.db, auto.current)) && forall h :: h in alone ==> Fresh(e, h)
    requires Flat(off.sent) == Flat(auto.sent) + Texts(auto.current)
    ensures Ahead(e, srv, written, upcoming, off, auto, alone)
  {
  }

  lemma SplitFlat<D>(next: Call<D>, c: Call<D>, split: Call<D>, v: Pending)
    requires Flat(next.sent) == Flat(c.sent) + Texts(c.current + [v])
    requires Flat(split.sent) == Flat(c.sent) + Texts(c.current)
    ensures Flat(next.sent) == Flat(split.sent) + Texts([v])
  {
    assert Texts(c.current + [v]) == Texts(c.current) + Texts([v]);
  }

  /** Past rule 1, an operation that may pass the message keeps the run ahead. */
  lemma ProceedStaysAhead<D>(
    e: Env, srv: Server<D>, offPlan: Plan, plan: Plan, written: set<Ptr>, upcoming: set<Ptr>, off: Call<D>,
    ready: Call<D>, alone: seq<Completed>, op: Op)
    returns (left: seq<Completed>)
    requires Ahead(e, srv, written, upcoming, off, ready, alone)
    requires MayPass(e, written, upcoming, ready.mem, ready.current, op)
    requires offPlan.limit <= 1 && !Step(e, srv, offPlan, off, op).failed
    requires forall h :: h in Step(e, srv, offPlan, off, op).history ==> Fresh(e, h)
    ensures Ahead(e, srv, written, if op.FlushInsert? then upcoming - {op.p} else upcoming,
                  Step(e, srv, offPlan, off, op), Proceed(e, srv, plan, ready, op), left)
  {
    var less := if op.FlushInsert? then upcoming - {op.p} else upcoming;
    var next := Step(e, srv, offPlan, off, op);
    AloneStep(e, srv, offPlan, off, op);
    if Prepared(e, off.mem, op).issue.Nothing? {
      NothingStaysAhead(e, srv, plan, written, upcoming, off, ready, alone, op, next);
      LessStaysAhead(e, srv, written, upcoming, less, next, Proceed(e, srv, plan, ready, op), alone);
      left := alone;
    } else {
      var w := Prepared(e, off.mem, op).issue.write;
      var (db, reply) := srv.run(off.db, w.stmt);
      var last := Completed(Prepared(e, off.mem, op).mem, w, reply);
      assert next.history[|off.history|] == last && last in next.history;
      JoinStaysAhead(e, srv, written, upcoming, off, ready, alone, op, next);
      PrepareOnly(e, Flow(e, ready.mem, op), op);
      IssuedFinish(e, Flow(e, ready.mem, op), op);
      var c := Recorded(e, ready.(mem := Flow(e, ready.mem, op)), op).(mem := Prepared(e, ready.mem, op).mem);
      JournalAside(e, srv, written, less, next,
                   ready.(mem := c.mem, current := ready.current + [Pending(w, KeyNow(e, c.mem, op))]), c.journal,
                   alone + [last]);
      left := AddStaysAhead(e, srv, plan, written, less, next, c, op, Pending(w, KeyNow(e, c.mem, op)), alone, last);
    }
  }

  /** Instances that have become settled count as such, whoever writes them. */
  lemma AheadGrows<D>(
    e: Env, srv: Server<D>, written: set<Ptr>, more: set<Ptr>, upcoming: set<Ptr>, off: Call<D>, auto: Call<D>,
    alone: seq<Completed>)
    requires Ahead(e, srv, written, upcoming, off, auto, alone) && written <= more <= auto.mem.inst.Keys
    requires forall p :: p in more && p !in written ==> Vacant(e, auto.mem, auto.current, p)
    ensures Ahead(e, srv, more, upcoming, off, auto, alone)
  {
    forall i, j | 0 <= i < |auto.current| && 0 <= j < |auto.current| && i != j
      ensures Apart(more, auto.mem, auto.current[i], auto.current[j])
    {
      assert Apart(written, auto.mem, auto.current[i], auto.current[j]) && auto.current[j] in auto.current;
      assert Instance(auto.current[j].write).Some? ==> Instance(auto.current[j].write).value in Waiting(auto.current);
    }
    forall w | w in auto.current && Instance(w.write).Some?
      ensures WritesOneOf(w.write, more) || LooseInsert(auto.mem, w.write)
    {
      assert WritesOneOf(w.write, written) || LooseInsert(auto.mem, w.write);
    }
  }

  /** The instance is untracked, or tracked under the key it holds with no statement of its own waiting. */
  ghost predicate Vacant(e: Env, mem: Mem, ws: seq<Pending>, p: Ptr) {
    EntryOf(mem.ids, p) == None || (SettledAt(e, mem, p) && p !in Waiting(ws))
  }

  lemma JournalAside<D>(
    e: Env, srv: Server<D>, written: set<Ptr>, upcoming: set<Ptr>, off: Call<D>, auto: Call<D>, journal: seq<Undo>,
    alone: seq<Completed>)
    requires Ahead(e, srv, written, upcoming, off, auto, alone)
    ensures Ahead(e, srv, written, upcoming, off, auto.(journal := journal), alone)
  {
  }
}
