/** A failed call puts the session back, wherever it failed. */
module Rollbacks {
  import opened Values
  import opened Entities
  import opened IdentityMap
  import opened Writes
  import opened Calls
  import opened Frames
  import opened Undoing
  import opened Restoring
  import opened KeyRules
  import opened Strays

  ghost function Upcoming(all: seq<Op>, n: nat): set<Ptr>
    requires n <= |all|
  {
    set i | n <= i < |all| && all[i].FlushInsert? :: all[i].p
  }

  /** A flush writes its inserts first, each instance once; an explicit batch holds none of them. */
  ghost predicate FlushShaped(all: seq<Op>) {
    forall i, j :: 0 <= i < j < |all| && all[j].FlushInsert? ==> all[i].FlushInsert? && all[i].p != all[j].p
  }

  /**
   Before the call: every tracked instance it inserts holds its registered, set key, and flushed inserts
   are untracked. The key fields of the others may have been edited since they were registered.
   */
  ghost predicate CallerReady(e: Env, mem: Mem, all: seq<Op>) {
    && Written(all) <= mem.inst.Keys && Settled(e, mem, Firm(mem, all))
    && (forall op :: op in all && InsertsInstance(op) ==> op.p in Firm(mem, all))
    && forall op :: op in all && op.FlushInsert? ==> EntryOf(mem.ids, op.p) == None
  }

  /** One statement at a time needs no hypothesis; a message of several needs keys that arrive fresh. */
  ghost predicate FreshHistory(e: Env, plan: Plan, history: seq<Completed>) {
    plan.limit > 1 ==> forall h :: h in history ==> FreshKeys(e, h)
  }

  ghost predicate Mid(
    e: Env, plan: Plan, all: seq<Op>, start: Mem, upcoming: set<Ptr>, mem: Mem, journal: seq<Undo>, ws: seq<Pending>) {
    && Core(e, all, start, mem, journal, ws, Waiting(ws))
    && (plan.limit <= 1 ==> |ws| <= 1)
    && (plan.limit > 1 ==> Held(e, all, upcoming, mem, ws))
  }

  ghost predicate Good<D>(e: Env, all: seq<Op>, start: Mem, c: Call<D>) {
    Restored(e, all, start, Rollback(c.mem, c.journal))
  }

  lemma ApplyKeeps<D>(
    e: Env, plan: Plan, all: seq<Op>, start: Mem, upcoming: set<Ptr>, c: Call<D>, writes: seq<Pending>,
    tail: seq<Pending>, reply: Reply)
    requires writes != [] && Mid(e, plan, all, start, upcoming, c.mem, c.journal, writes + tail)
    requires FreshHistory(e, plan, Apply(e, c, writes, reply).history)
    ensures Good(e, all, start, Apply(e, c, writes, reply))
    ensures var next := Apply(e, c, writes, reply);
            !next.failed ==> Mid(e, plan, all, start, upcoming, next.mem, next.journal, writes[1..] + tail)
  {
    var ws := writes + tail;
    assert ws[0] == writes[0] && ws[1..] == writes[1..] + tail && ws[0] in ws;
    var done := Complete(e, c.mem, ws[0].write, reply);
    FailedCompleteIsClean(e, c.mem, ws[0].write, reply);
    CompleteOnly(e, c.mem, ws[0].write, reply);
    var next := Apply(e, c, writes, reply);
    assert next.history[|c.history|] in next.history;
    if plan.limit > 1 {
      DropsAreQuiet(e, Firm(c.mem, all), upcoming, c.mem, ws, reply);
      CompleteKeepsHeld(e, all, upcoming, c.mem, c.journal, ws, reply);
    } else {
      assert Waiting(ws[1..]) == {};
    }
    CompleteKeepsCore(e, all, start, c.mem, c.journal, ws, Waiting(ws), reply);
    CoreRestores(e, all, start, next.mem, next.journal, ws[1..], Waiting(ws[1..]));
  }

  lemma {:induction false} SendEachKeeps<D>(
    e: Env, srv: Server<D>, plan: Plan, all: seq<Op>, start: Mem, upcoming: set<Ptr>, c: Call<D>,
    writes: seq<Pending>, tail: seq<Pending>)
    requires !c.failed && Mid(e, plan, all, start, upcoming, c.mem, c.journal, writes + tail)
    requires FreshHistory(e, plan, SendEach(e, srv, c, writes).history)
    ensures Good(e, all, start, SendEach(e, srv, c, writes))
    ensures var sent := SendEach(e, srv, c, writes);
            sent.current == c.current &&
            (!sent.failed ==> Mid(e, plan, all, start, upcoming, sent.mem, sent.journal, tail))
    decreases |writes|
  {
    if writes == [] {
      assert writes + tail == tail;
      CoreRestores(e, all, start, c.mem, c.journal, tail, Waiting(tail));
    } else {
      var (db, reply) := srv.run(c.db, writes[0].write.stmt);
      var next := Apply(e, c.(db := db), writes, reply);
      assert next.history <= SendEach(e, srv, next, writes[1..]).history;
      ApplyKeeps(e, plan, all, start, upcoming, c.(db := db), writes, tail, reply);
      if !next.failed {
        SendEachKeeps(e, srv, plan, all, start, upcoming, next, writes[1..], tail);
      }
    }
  }

  lemma {:induction false} ApplyAllKeeps<D>(
    e: Env, plan: Plan, all: seq<Op>, start: Mem, upcoming: set<Ptr>, c: Call<D>, writes: seq<Pending>,
    replies: seq<Reply>, tail: seq<Pending>)
    requires |writes| == |replies|
    requires !c.failed && Mid(e, plan, all, start, upcoming, c.mem, c.journal, writes + tail)
    requires FreshHistory(e, plan, ApplyAll(e, c, writes, replies).history)
    ensures Good(e, all, start, ApplyAll(e, c, writes, replies))
    ensures var sent := ApplyAll(e, c, writes, replies);
            sent.current == c.current &&
            (!sent.failed ==> Mid(e, plan, all, start, upcoming, sent.mem, sent.journal, tail))
    decreases |writes|
  {
    if writes == [] {
      assert writes + tail == tail;
      CoreRestores(e, all, start, c.mem, c.journal, tail, Waiting(tail));
    } else {
      var next := Apply(e, c, writes, replies[0]);
      assert next.history <= ApplyAll(e, next, writes[1..], replies[1..]).history;
      ApplyKeeps(e, plan, all, start, upcoming, c, writes, tail, replies[0]);
      if !next.failed {
        ApplyAllKeeps(e, plan, all, start, upcoming, next, writes[1..], replies[1..], tail);
      }
    }
  }

  lemma SendKeeps<D>(
    e: Env, srv: Server<D>, plan: Plan, all: seq<Op>, start: Mem, upcoming: set<Ptr>, c: Call<D>, tail: seq<Pending>)
    requires !c.failed && Mid(e, plan, all, start, upcoming, c.mem, c.journal, c.current + tail)
    requires FreshHistory(e, plan, Send(e, srv, plan, c).history)
    ensures Good(e, all, start, Send(e, srv, plan, c))
    ensures var sent := Send(e, srv, plan, c);
            !sent.failed ==> sent.current == [] && Mid(e, plan, all, start, upcoming, sent.mem, sent.journal, tail)
  {
    CoreRestores(e, all, start, c.mem, c.journal, c.current + tail, Waiting(c.current + tail));
    if c.current == [] {
      assert c.current + tail == tail;
    } else {
      var started := c.(current := [], sent := c.sent + [Texts(c.current)]);
      if plan.oneTrip {
        var (db, replies) := RunAll(srv, c.db, c.current);
        if Broken !in replies {
          ApplyAllKeeps(e, plan, all, start, upcoming, started.(db := db), c.current, replies, tail);
        }
      } else {
        SendEachKeeps(e, srv, plan, all, start, upcoming, started, c.current, tail);
      }
    }
  }

  lemma BeforeKeeps<D>(e: Env, srv: Server<D>, plan: Plan, all: seq<Op>, start: Mem, upcoming: set<Ptr>, c: Call<D>,
      op: Op)
    requires !c.failed && Mid(e, plan, all, start, upcoming, c.mem, c.journal, c.current)
    requires FreshHistory(e, plan, Before(e, srv, plan, c, op).history)
    ensures var ready := Before(e, srv, plan, c, op);
            Good(e, all, start, ready) &&
            (!ready.failed ==> Mid(e, plan, all, start, upcoming, ready.mem, ready.journal, ready.current)
                               && Free(e, ready.mem, ready.current, op) && |ready.current| <= |c.current|)
  {
    assert c.current + [] == c.current;
    CoreRestores(e, all, start, c.mem, c.journal, c.current, Waiting(c.current));
    if exists held :: held in c.current && Clashes(e, c.mem, held, op) {
      SendKeeps(e, srv, plan, all, start, upcoming, c, []);
    }
  }

  /** The key flow, the capture and the preparation: the instance is covered from then on. */
  lemma PreparedKeeps(
    e: Env, plan: Plan, all: seq<Op>, start: Mem, upcoming: set<Ptr>, mem: Mem, journal: seq<Undo>, ws: seq<Pending>,
    op: Op)
    requires Mid(e, plan, all, start, upcoming, mem, journal, ws) && Free(e, mem, ws, op)
    requires InPhase(upcoming, op) && op in all
    requires plan.limit <= 1 ==> ws == []
    ensures var flowed := Flow(e, mem, op);
            var grown := if OpInstance(op).Some? then journal + [RecordWrite(e, flowed, op.p)] else journal;
            var after := Prepare(e, flowed, op).mem;
            var cover := Waiting(ws) + (if OpInstance(op).Some? then {op.p} else {});
            && Core(e, all, start, after, grown, ws, cover)
            && (OpInstance(op).Some? && EntryOf(after.ids, op.p).Some? ==>
                  EntryOf(after.ids, op.p).value.seqNo in Captured(grown))
            && (plan.limit > 1 && (OpInstance(op).Some? ==> op.p in Firm(mem, all)) ==>
                  Held(e, all, upcoming, after, ws))
  {
    var flowed := Flow(e, mem, op);
    FlowOnly(e, mem, op);
    PrepareOnly(e, flowed, op);
    FlowKeepsCore(e, all, start, mem, journal, ws, Waiting(ws), op);
    if OpInstance(op).Some? {
      if plan.limit > 1 {
        RecordIsQuiet(e, Firm(mem, all), upcoming, mem, ws, op);
      } else {
        assert Waiting(ws) == {};
      }
      RecordKeepsCore(e, all, start, flowed, journal, ws, Waiting(ws), op.p);
      PrepareKeepsCore(e, all, start, flowed, journal + [RecordWrite(e, flowed, op.p)], ws, Waiting(ws) + {op.p}, op);
    } else {
      PrepareKeepsCore(e, all, start, flowed, journal, ws, Waiting(ws), op);
      assert Waiting(ws) + {} == Waiting(ws);
    }
    if plan.limit > 1 && (OpInstance(op).Some? ==> op.p in Firm(mem, all)) {
      PrepareKeepsHeld(e, all, upcoming, mem, ws, op);
    }
  }

  /** The invariant with the new statement among those that wait. */
  lemma CoreJoins(
    e: Env, all: seq<Op>, start: Mem, mem: Mem, journal: seq<Undo>, ws: seq<Pending>, cover: set<Ptr>, v: Pending)
    requires Core(e, all, start, mem, journal, ws, cover) && OneWriteEach(ws + [v]) && Waiting(ws + [v]) == cover
    requires StillHolds(mem.ids, v.write) && CapturedFor(journal, v.write)
    ensures Core(e, all, start, mem, journal, ws + [v], Waiting(ws + [v]))
  {
    assert forall w :: w in ws + [v] <==> w in ws || w == v;
  }

  lemma JoinedKeeps(
    e: Env, plan: Plan, all: seq<Op>, start: Mem, upcoming: set<Ptr>, mem: Mem, journal: seq<Undo>, ws: seq<Pending>,
    op: Op)
    requires Mid(e, plan, all, start, upcoming, mem, journal, ws) && Free(e, mem, ws, op)
    requires InPhase(upcoming, op) && op in all
    requires plan.limit <= 1 ==> ws == []
    requires Prepare(e, Flow(e, mem, op), op).issue.Issued?
    ensures var flowed := Flow(e, mem, op);
            var grown := if OpInstance(op).Some? then journal + [RecordWrite(e, flowed, op.p)] else journal;
            var prepared := Prepare(e, flowed, op);
            var v := Pending(prepared.issue.write, KeyNow(e, prepared.mem, op));
            Mid(e, plan, all, start, if op.FlushInsert? then upcoming - {op.p} else upcoming, prepared.mem, grown,
                ws + [v])
  {
    var flowed := Flow(e, mem, op);
    var grown := if OpInstance(op).Some? then journal + [RecordWrite(e, flowed, op.p)] else journal;
    var prepared := Prepare(e, flowed, op);
    var v := Pending(prepared.issue.write, KeyNow(e, prepared.mem, op));
    PreparedKeeps(e, plan, all, start, upcoming, mem, journal, ws, op);
    FlowOnly(e, mem, op);
    PrepareOnly(e, flowed, op);
    IssuedFinish(e, flowed, op);
    FreeIsDistinct(e, mem, ws, op, v);
    CoreJoins(e, all, start, prepared.mem, grown, ws, Waiting(ws) + (if OpInstance(op).Some? then {op.p} else {}), v);
    if plan.limit > 1 {
      if OpInstance(op).Some? {
        IssuedIsFirm(e, all, upcoming, mem, ws, op);
      }
      JoinKeepsHeld(e, all, upcoming, mem, ws, op);
    }
  }

  lemma KeyNowStays(e: Env, plan: Plan, all: seq<Op>, start: Mem, upcoming: set<Ptr>, mem: Mem, journal: seq<Undo>,
      op: Op, v: Pending)
    requires Mid(e, plan, all, start, upcoming, mem, journal, [v]) && plan.limit > 1
    requires op.DeleteKey? ==> v.write.finish == FinishDeleteKey(op.t, op.key) &&
                               ValidKeyArgument(MapOf(e, op.t), op.key)
    requires Instance(v.write) == OpInstance(op) && (op.Execute? ==> v.key == None)
    ensures KeyNow(e, mem, op) == v.key
  {
    assert v in [v];
    assert KeyFact(e, mem, v);
  }

  lemma AddKeeps<D>(
    e: Env, srv: Server<D>, plan: Plan, all: seq<Op>, start: Mem, upcoming: set<Ptr>, c: Call<D>, write: Write, op: Op)
    requires !c.failed
    requires Mid(e, plan, all, start, upcoming, c.mem, c.journal, c.current + [Pending(write, KeyNow(e, c.mem, op))])
    requires op.DeleteKey? ==> write.finish == FinishDeleteKey(op.t, op.key) && ValidKeyArgument(MapOf(e, op.t), op.key)
    requires Instance(write) == OpInstance(op)
    requires plan.limit <= 1 ==> c.current == []
    requires FreshHistory(e, plan, Add(e, srv, plan, c, write, op).history)
    ensures var added := Add(e, srv, plan, c, write, op);
            Good(e, all, start, added) &&
            (!added.failed ==> Mid(e, plan, all, start, upcoming, added.mem, added.journal, added.current)
                               && (plan.limit <= 1 ==> added.current == []))
  {
    var v := Pending(write, KeyNow(e, c.mem, op));
    var split := if Splits(plan, c.current, write) then Send(e, srv, plan, c) else c;
    if Splits(plan, c.current, write) {
      assert split.history <= Add(e, srv, plan, c, write, op).history;
      SendKeeps(e, srv, plan, all, start, upcoming, c, [v]);
    }
    if !split.failed {
      var joined := split.(current := split.current + [Pending(write, KeyNow(e, split.mem, op))]);
      if Splits(plan, c.current, write) {
        KeyNowStays(e, plan, all, start, upcoming, split.mem, split.journal, op, v);
        assert joined.current == [v];
      } else {
        assert joined.current == c.current + [v];
      }
      assert joined.current + [] == joined.current;
      CoreRestores(e, all, start, joined.mem, joined.journal, joined.current, Waiting(joined.current));
      if |joined.current| >= plan.limit {
        SendKeeps(e, srv, plan, all, start, upcoming, joined, []);
      }
    }
  }

  /** Less to come asks for less. */
  lemma MidShrinks(e: Env, plan: Plan, all: seq<Op>, start: Mem, upcoming: set<Ptr>, less: set<Ptr>, mem: Mem,
      journal: seq<Undo>, ws: seq<Pending>)
    requires Mid(e, plan, all, start, upcoming, mem, journal, ws) && less <= upcoming
    ensures Mid(e, plan, all, start, less, mem, journal, ws)
  {
  }

  ghost predicate NextIsGood<D>(e: Env, plan: Plan, all: seq<Op>, start: Mem, upcoming: set<Ptr>, next: Call<D>) {
    Good(e, all, start, next) &&
    (!next.failed ==> Mid(e, plan, all, start, upcoming, next.mem, next.journal, next.current)
                      && (plan.limit <= 1 ==> next.current == []))
  }

  lemma IssuingKeeps<D>(e: Env, srv: Server<D>, plan: Plan, all: seq<Op>, start: Mem, upcoming: set<Ptr>,
      ready: Call<D>, op: Op)
    requires !ready.failed && Mid(e, plan, all, start, upcoming, ready.mem, ready.journal, ready.current)
    requires plan.limit <= 1 ==> ready.current == []
    requires Free(e, ready.mem, ready.current, op) && InPhase(upcoming, op) && op in all
    requires Prepare(e, Flow(e, ready.mem, op), op).issue.Issued?
    requires FreshHistory(e, plan, Proceed(e, srv, plan, ready, op).history)
    ensures NextIsGood(e, plan, all, start, if op.FlushInsert? then upcoming - {op.p} else upcoming,
                       Proceed(e, srv, plan, ready, op))
  {
    var recorded := Recorded(e, ready.(mem := Flow(e, ready.mem, op)), op);
    var prepared := Prepare(e, recorded.mem, op);
    var after := recorded.(mem := prepared.mem);
    PrepareOnly(e, recorded.mem, op);
    IssuedFinish(e, recorded.mem, op);
    JoinedKeeps(e, plan, all, start, upcoming, ready.mem, ready.journal, ready.current, op);
    AddKeeps(e, srv, plan, all, start, if op.FlushInsert? then upcoming - {op.p} else upcoming, after,
             prepared.issue.write, op);
  }

  lemma NotIssuingKeeps<D>(e: Env, srv: Server<D>, plan: Plan, all: seq<Op>, start: Mem, upcoming: set<Ptr>,
      ready: Call<D>, op: Op)
    requires !ready.failed && Mid(e, plan, all, start, upcoming, ready.mem, ready.journal, ready.current)
    requires plan.limit <= 1 ==> ready.current == []
    requires Free(e, ready.mem, ready.current, op) && InPhase(upcoming, op) && op in all
    requires !Prepare(e, Flow(e, ready.mem, op), op).issue.Issued?
    ensures NextIsGood(e, plan, all, start, if op.FlushInsert? then upcoming - {op.p} else upcoming,
                       Proceed(e, srv, plan, ready, op))
  {
    var recorded := Recorded(e, ready.(mem := Flow(e, ready.mem, op)), op);
    var after := recorded.(mem := Prepare(e, recorded.mem, op).mem);
    PreparedIsGood(e, plan, all, start, upcoming, ready, op);
    if !Prepare(e, recorded.mem, op).issue.Refused? {
      MidShrinks(e, plan, all, start, upcoming, if op.FlushInsert? then upcoming - {op.p} else upcoming, after.mem,
                 after.journal, after.current);
    }
    NotIssued(e, srv, plan, ready, op);
  }

  /** Without a statement the call is where its preparation left it, failed or not. */
  lemma NotIssued<D>(e: Env, srv: Server<D>, plan: Plan, ready: Call<D>, op: Op)
    requires !Prepare(e, Flow(e, ready.mem, op), op).issue.Issued?
    ensures var recorded := Recorded(e, ready.(mem := Flow(e, ready.mem, op)), op);
            var after := recorded.(mem := Prepare(e, recorded.mem, op).mem);
            Proceed(e, srv, plan, ready, op) ==
            if Prepare(e, recorded.mem, op).issue.Refused? then after.(failed := true) else after
  {
  }

  /** After the capture and the preparation the journal still restores, and the message waits as it did. */
  lemma PreparedIsGood<D>(e: Env, plan: Plan, all: seq<Op>, start: Mem, upcoming: set<Ptr>, ready: Call<D>, op: Op)
    requires Mid(e, plan, all, start, upcoming, ready.mem, ready.journal, ready.current)
    requires plan.limit <= 1 ==> ready.current == []
    requires Free(e, ready.mem, ready.current, op) && InPhase(upcoming, op) && op in all
    ensures var recorded := Recorded(e, ready.(mem := Flow(e, ready.mem, op)), op);
            var after := recorded.(mem := Prepare(e, recorded.mem, op).mem);
            && Good(e, all, start, after)
            && (Prepare(e, recorded.mem, op).issue.Refused? ||
                Mid(e, plan, all, start, upcoming, after.mem, after.journal, after.current))
  {
    var recorded := Recorded(e, ready.(mem := Flow(e, ready.mem, op)), op);
    var after := recorded.(mem := Prepare(e, recorded.mem, op).mem);
    var cover := Waiting(ready.current) + (if OpInstance(op).Some? then {op.p} else {});
    PreparedKeeps(e, plan, all, start, upcoming, ready.mem, ready.journal, ready.current, op);
    CoreRestores(e, all, start, after.mem, after.journal, after.current, cover);
    CoreShrinks(e, all, start, after.mem, after.journal, after.current, cover, Waiting(after.current));
    if plan.limit > 1 && OpInstance(op).Some? {
      IssuedIsFirm(e, all, upcoming, ready.mem, ready.current, op);
    }
  }

  lemma CoreShrinks(e: Env, all: seq<Op>, start: Mem, mem: Mem, journal: seq<Undo>, ws: seq<Pending>,
      cover: set<Ptr>, less: set<Ptr>)
    requires Core(e, all, start, mem, journal, ws, cover) && less <= cover && Waiting(ws) <= less
    ensures Core(e, all, start, mem, journal, ws, less)
  {
    CoverShrinks(journal, mem.ids, cover, less, start.ids);
  }

  lemma StepKeeps<D>(e: Env, srv: Server<D>, plan: Plan, all: seq<Op>, start: Mem, upcoming: set<Ptr>, c: Call<D>,
      op: Op)
    requires !c.failed && Mid(e, plan, all, start, upcoming, c.mem, c.journal, c.current)
    requires plan.limit <= 1 ==> c.current == []
    requires InPhase(upcoming, op) && op in all
    requires FreshHistory(e, plan, Step(e, srv, plan, c, op).history)
    ensures var next := Step(e, srv, plan, c, op);
            NextIsGood(e, plan, all, start, if op.FlushInsert? then upcoming - {op.p} else upcoming, next)
  {
    var ready := Before(e, srv, plan, c, op);
    assert ready.history <= Step(e, srv, plan, c, op).history;
    BeforeKeeps(e, srv, plan, all, start, upcoming, c, op);
    if !ready.failed {
      if Prepare(e, Flow(e, ready.mem, op), op).issue.Issued? {
        IssuingKeeps(e, srv, plan, all, start, upcoming, ready, op);
      } else {
        NotIssuingKeeps(e, srv, plan, all, start, upcoming, ready, op);
      }
    }
  }

  lemma UpcomingStep(all: seq<Op>, n: nat)
    requires n < |all| && FlushShaped(all)
    ensures InPhase(Upcoming(all, n), all[n])
    ensures Upcoming(all, n + 1) == if all[n].FlushInsert? then Upcoming(all, n) - {all[n].p} else Upcoming(all, n)
  {
    if all[n].FlushInsert? {
      assert all[n].p in Upcoming(all, n);
    }
  }

  lemma {:induction false} StepsKeep<D>(e: Env, srv: Server<D>, plan: Plan, all: seq<Op>, start: Mem, db: D, n: nat)
    requires n <= |all| && Consistent(start.ids) && Numbered(start.ids)
    requires FlushShaped(all) && (plan.limit > 1 ==> CallerReady(e, start, all))
    requires FreshHistory(e, plan, Steps(e, srv, plan, Start(start, db), all[..n]).history)
    ensures var c := Steps(e, srv, plan, Start(start, db), all[..n]);
            NextIsGood(e, plan, all, start, Upcoming(all, n), c)
    decreases n
  {
    if n == 0 {
      CoreStarts(e, all, start);
      CoreRestores(e, all, start, start, [], [], {});
      assert Waiting([]) == {};
    } else {
      assert all[..n][..n - 1] == all[..n - 1];
      var c := Steps(e, srv, plan, Start(start, db), all[..n - 1]);
      assert c.history <= Step(e, srv, plan, c, all[n - 1]).history;
      StepsKeep(e, srv, plan, all, start, db, n - 1);
      if !c.failed {
        UpcomingStep(all, n - 1);
        StepKeeps(e, srv, plan, all, start, Upcoming(all, n - 1), c, all[n - 1]);
      }
    }
  }

  /**
   However far the call got and however it ended, running its journal backwards restores the
   identity map, the snapshots and the instances. Statement by statement this holds of every call;
   with messages of several it needs a ready caller and keys that arrive fresh.
   */
  lemma RollbackRestores<D>(e: Env, srv: Server<D>, plan: Plan, start: Mem, db: D, ops: seq<Op>, n: nat)
    requires Consistent(start.ids) && Numbered(start.ids) && n <= |ops| && FlushShaped(ops)
    requires plan.limit > 1 ==> CallerReady(e, start, ops)
    requires FreshHistory(e, plan, Steps(e, srv, plan, Start(start, db), ops[..n]).history)
    ensures var c := Steps(e, srv, plan, Start(start, db), ops[..n]);
            Restored(e, ops, start, Rollback(c.mem, c.journal))
  {
    StepsKeep(e, srv, plan, ops, start, db, n);
  }

  /** The same at the end of the whole call, for a failure of the last message or of the commit. */
  lemma RunRollbackRestores<D>(e: Env, srv: Server<D>, plan: Plan, start: Mem, db: D, ops: seq<Op>)
    requires Consistent(start.ids) && Numbered(start.ids) && FlushShaped(ops)
    requires plan.limit > 1 ==> CallerReady(e, start, ops)
    requires FreshHistory(e, plan, Run(e, srv, plan, start, db, ops).history)
    ensures var c := Run(e, srv, plan, start, db, ops);
            Restored(e, ops, start, Rollback(c.mem, c.journal))
  {
    assert ops[..|ops|] == ops;
    StepsKeep(e, srv, plan, ops, start, db, |ops|);
    var c := Steps(e, srv, plan, Start(start, db), ops);
    if !c.failed {
      assert c.current + [] == c.current;
      SendKeeps(e, srv, plan, ops, start, Upcoming(ops, |ops|), c, []);
    }
  }

  /** An explicit batch flows no keys, so every instance is exactly as it was. */
  lemma BatchRollbackIsExact<D>(e: Env, srv: Server<D>, plan: Plan, start: Mem, db: D, ops: seq<Op>, p: Ptr)
    requires Consistent(start.ids) && Numbered(start.ids) && FlushShaped(ops) && p in start.inst
    requires plan.limit > 1 ==> CallerReady(e, start, ops)
    requires FreshHistory(e, plan, Run(e, srv, plan, start, db, ops).history)
    requires forall op :: op in ops ==> !op.FlushInsert?
    ensures var c := Run(e, srv, plan, start, db, ops); InstOf(Rollback(c.mem, c.journal), p) == InstOf(start, p)
  {
    RunRollbackRestores(e, srv, plan, start, db, ops);
    var c := Run(e, srv, plan, start, db, ops);
    var back := InstOf(Rollback(c.mem, c.journal), p);
    assert FlowedInto(e, ops, p) == iset{};
    SameEverywhere(back, InstOf(start, p));
  }

  lemma SameEverywhere(x: Inst, y: Inst)
    requires SameOutside(x, y, iset{})
    ensures x == y
  {
    forall i | 0 <= i < |x.key|
      ensures x.key[i] == y.key[i]
    {
      assert Get(x, KeyPart(i)) == Get(y, KeyPart(i));
    }
    forall i | 0 <= i < |x.cols|
      ensures x.cols[i] == y.cols[i]
    {
      assert Get(x, Column(i)) == Get(y, Column(i));
    }
    assert Get(x, VersionColumn) == Get(y, VersionColumn);
    assert Get(x, CreatedAt) == Get(y, CreatedAt);
    assert Get(x, UpdatedAt) == Get(y, UpdatedAt);
    assert Get(x, SoftDelete) == Get(y, SoftDelete);
  }
}
