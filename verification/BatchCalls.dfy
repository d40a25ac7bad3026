/** The call as the session runs it: the message in progress and the undo journal, changed in place. */
module BatchCalls {
  import opened Values
  import opened Entities
  import opened IdentityMap
  import opened Writes
  import opened Calls
  import opened KeyRules
  import opened Rollbacks
  import opened Restoring
  import opened Keeping

  /** The session's memory and the database its statements reach. */
  class Session<!D> {
    var mem: Mem
    var db: D

    constructor (mem: Mem, db: D)
      ensures this.mem == mem && this.db == db
    {
      this.mem, this.db := mem, db;
    }
  }

  class UndoJournal {
    var undo: seq<Undo>

    constructor ()
      ensures undo == []
    {
      undo := [];
    }

    method Append(more: seq<Undo>)
      modifies this
      ensures undo == old(undo) + more
    {
      undo := undo + more;
    }

    /** Last in, first out. */
    method RunBack<D>(session: Session<D>)
      modifies this, session`mem
      ensures undo == [] && session.mem == Rollback(old(session.mem), old(undo))
    {
      var i := |undo|;
      assert undo[..i] == undo;
      while i > 0
        invariant 0 <= i <= |undo| && undo == old(undo)
        invariant Rollback(session.mem, undo[..i]) == Rollback(old(session.mem), undo)
      {
        i := i - 1;
        assert undo[..i + 1][..i] == undo[..i];
        session.mem := RunUndo(session.mem, undo[i]);
      }
      undo := [];
    }
  }

  /** The instances a non-null many-to-one navigation points at, from one relationship on. */
  function ManyToOneTargets(e: Env, p: Ptr, from: nat): (targets: seq<Ptr>)
    ensures forall q :: q in targets <==>
              exists r :: from <= r < |MapFor(e, p).relationships| &&
                          MapFor(e, p).relationships[r].kind == ManyToOne && q in Targets(e, p, r)
    decreases |MapFor(e, p).relationships| - from
  {
    if from >= |MapFor(e, p).relationships| then []
    else
      (if MapFor(e, p).relationships[from].kind == ManyToOne then Targets(e, p, from) else [])
      + ManyToOneTargets(e, p, from + 1)
  }

  /** The owners a scheduled insert takes its key from. */
  function CascadeOwners(links: seq<Link>): (owners: seq<Ptr>)
    ensures forall q :: q in owners <==> exists l :: l in links && GivesKey(l.kind) && l.owner == q
  {
    if links == [] then []
    else (if GivesKey(links[0].kind) then [links[0].owner] else []) + CascadeOwners(links[1..])
  }

  function Depends(e: Env, op: Op): (parents: seq<Ptr>)
    ensures forall q :: q in parents <==> DependsOn(e, op, q)
  {
    if OpInstance(op).None? then []
    else ManyToOneTargets(e, op.p, 0) + (if op.FlushInsert? then CascadeOwners(op.links) else [])
  }

  ghost predicate Generates(writes: seq<Pending>, p: Ptr) {
    exists w :: w in writes && GeneratesKey(w.write) && w.write.finish.p == p
  }

  ghost predicate HoldsKey(writes: seq<Pending>, key: (TypeId, Key)) {
    exists w :: w in writes && w.key == Some(key)
  }

  ghost predicate GeneratedIn(generated: set<Ptr>, writes: seq<Pending>) {
    forall p :: p in generated <==> Generates(writes, p)
  }

  ghost predicate KeysIn(keys: seq<(TypeId, Key)>, writes: seq<Pending>) {
    forall k :: k in keys <==> HoldsKey(writes, k)
  }

  lemma FactsGrow(writes: seq<Pending>, v: Pending)
    ensures forall p :: Generates(writes + [v], p) <==>
              Generates(writes, p) || (GeneratesKey(v.write) && v.write.finish.p == p)
    ensures forall k :: HoldsKey(writes + [v], k) <==> HoldsKey(writes, k) || v.key == Some(k)
  {
    assert v in writes + [v];
    assert forall w :: w in writes + [v] <==> w in writes || w == v;
  }

  lemma GeneratedGrows(generated: set<Ptr>, writes: seq<Pending>, v: Pending)
    requires GeneratedIn(generated, writes)
    ensures GeneratedIn(if GeneratesKey(v.write) then generated + {v.write.finish.p} else generated, writes + [v])
  {
    FactsGrow(writes, v);
  }

  lemma KeysGrow(keys: seq<(TypeId, Key)>, writes: seq<Pending>, v: Pending)
    requires KeysIn(keys, writes)
    ensures KeysIn(if v.key.Some? then keys + [v.key.value] else keys, writes + [v])
  {
    FactsGrow(writes, v);
  }

  lemma WaitingGrows(writes: seq<Pending>, v: Pending)
    ensures Waiting(writes + [v]) == Waiting(writes) +
            (if Instance(v.write).Some? then {Instance(v.write).value} else {})
    ensures (exists w :: w in writes + [v] && IsCommand(w.write)) <==>
              (exists w :: w in writes && IsCommand(w.write)) || IsCommand(v.write)
    ensures Parameters(writes + [v]) == Parameters(writes) + ArgCount(v.write.stmt)
  {
    assert (writes + [v])[..|writes|] == writes;
    assert v in writes + [v];
    assert forall w :: w in writes + [v] <==> w in writes || w == v;
  }

  class BatchCall<!D> {
    const e: Env
    const srv: Server<D>
    const plan: Plan
    const session: Session<D>
    const journal: UndoJournal

    var writes: seq<Pending>
    var instances: set<Ptr>
    var keys: seq<(TypeId, Key)>
    var generated: set<Ptr>
    var hasCommand: bool
    var parameters: nat
    var messages: nat
    var failed: bool
    ghost var sent: seq<seq<Statement>>
    ghost var history: seq<Completed>

    /** The facts the rules read are those of the statements formed so far. */
    ghost predicate Valid()
      reads this
    {
      && instances == Waiting(writes)
      && GeneratedIn(generated, writes) && KeysIn(keys, writes)
      && (hasCommand <==> exists w :: w in writes && IsCommand(w.write))
      && parameters == Parameters(writes)
      && messages == |sent|
    }

    ghost function View(): Call<D>
      reads this, session, journal
    {
      Call(session.mem, session.db, journal.undo, writes, sent, history, failed)
    }

    constructor (e: Env, srv: Server<D>, plan: Plan, session: Session<D>, journal: UndoJournal)
      requires journal.undo == []
      ensures Valid() && View() == Start(session.mem, session.db)
      ensures this.e == e && this.srv == srv && this.plan == plan && this.session == session && this.journal == journal
    {
      this.e, this.srv, this.plan, this.session, this.journal := e, srv, plan, session, journal;
      writes, instances, keys, generated, hasCommand, parameters, messages, failed := [], {}, [], {}, false, 0, 0,
      false;
      sent, history := [], [];
    }

    /** Rule 1, ahead of preparing the operation: a message it depends on goes out first. */
    method SendBefore(op: Op)
      requires Valid() && !failed
      modifies this, session, journal
      ensures Valid() && View() == Before(e, srv, plan, old(View()), op)
    {
      var cut := MustCut(op);
      if cut {
        SendMessage();
      }
    }

    /** The message holds a statement the operation depends on: its instance, a parent's new key, or its key. */
    method MustCut(op: Op) returns (cut: bool)
      requires Valid()
      ensures cut <==> exists held :: held in writes && Clashes(e, session.mem, held, op)
    {
      cut := OpInstance(op).Some? && OpInstance(op).value in instances;
      var parents := Depends(e, op);
      for i := 0 to |parents|
        invariant cut <==> (OpInstance(op).Some? && OpInstance(op).value in instances) ||
                           exists k :: 0 <= k < i && parents[k] in generated
      {
        if parents[i] in generated {
          cut := true;
        }
      }
      var key := KeyNow(e, session.mem, op);
      if !cut && key.Some? {
        for i := 0 to |keys|
          invariant cut <==> key.value in keys[..i]
        {
          if keys[i] == key.value {
            cut := true;
          }
        }
      }
      assert (exists k :: 0 <= k < |parents| && parents[k] in generated) <==>
               (exists q :: q in parents && q in generated);
      ClashesIff(writes, session.mem, op, parents);
    }

    lemma ClashesIff(ws: seq<Pending>, mem: Mem, op: Op, parents: seq<Ptr>)
      requires forall q :: q in parents <==> DependsOn(e, op, q)
      ensures (exists held :: held in ws && Clashes(e, mem, held, op)) <==>
                || (OpInstance(op).Some? && OpInstance(op).value in Waiting(ws))
                || (exists q :: q in parents && Generates(ws, q))
                || (KeyNow(e, mem, op).Some? && HoldsKey(ws, KeyNow(e, mem, op).value))
    {
      if OpInstance(op).Some? && OpInstance(op).value in Waiting(ws) {
        var held :| held in ws && Instance(held.write) == OpInstance(op);
        assert Clashes(e, mem, held, op);
      }
      if q :| q in parents && Generates(ws, q) {
        var held :| held in ws && GeneratesKey(held.write) && held.write.finish.p == q;
        assert Clashes(e, mem, held, op);
      }
      if KeyNow(e, mem, op).Some? && HoldsKey(ws, KeyNow(e, mem, op).value) {
        var held :| held in ws && held.key == KeyNow(e, mem, op);
        assert Clashes(e, mem, held, op);
      }
      if held :| held in ws && Clashes(e, mem, held, op) {
        if GeneratesKey(held.write) && DependsOn(e, op, held.write.finish.p) {
          assert held.write.finish.p in parents && Generates(ws, held.write.finish.p);
        }
      }
    }

    method ResetMessage()
      modifies `writes, `instances, `keys, `generated, `hasCommand, `parameters
      ensures writes == [] && instances == {} && keys == [] && generated == {} && !hasCommand && parameters == 0
    {
      writes, instances, keys, generated, hasCommand, parameters := [], {}, [], {}, false, 0;
    }

    /** Judges one statement's reply and applies it. */
    method CompleteFirst(ws: seq<Pending>, reply: Reply)
      requires ws != []
      modifies `failed, `history, session`mem, journal
      ensures View() == Apply(e, old(View()), ws, reply)
    {
      var done := Complete(e, session.mem, ws[0].write, reply);
      history := history + [Completed(session.mem, ws[0].write, reply)];
      session.mem := done.mem;
      journal.Append(done.undos);
      failed := !done.ok;
    }

    /** Realizes the message in progress and completes its statements in order. */
    method SendMessage()
      requires Valid() && !failed
      modifies this, session, journal
      ensures Valid() && View() == Send(e, srv, plan, old(View()))
    {
      var ws := writes;
      if ws == [] {
        return;
      }
      ResetMessage();
      messages := messages + 1;
      sent := sent + [Texts(ws)];
      if plan.oneTrip {
        SendInOne(ws);
      } else {
        SendSingly(ws);
      }
    }

    method SendSingly(ws: seq<Pending>)
      requires Valid() && !failed && writes == []
      modifies `failed, `history, session, journal
      ensures Valid() && View() == SendEach(e, srv, old(View()), ws)
    {
      var i := 0;
      while i < |ws| && !failed
        invariant 0 <= i <= |ws| && Valid() && writes == []
        invariant SendEach(e, srv, View(), ws[i..]) == SendEach(e, srv, old(View()), ws)
      {
        var (db, reply) := srv.run(session.db, ws[i].write.stmt);
        session.db := db;
        CompleteFirst(ws[i..], reply);
        assert ws[i..][1..] == ws[i + 1..];
        i := i + 1;
      }
    }

    lemma RunAllStep(ws: seq<Pending>, db: D, k: nat)
      requires k < |ws|
      ensures var (next, reply) := srv.run(db, ws[k].write.stmt);
              var rest := RunAll(srv, next, ws[k + 1..]);
              RunAll(srv, db, ws[k..]) == (rest.0, [reply] + rest.1)
    {
      assert ws[k..][1..] == ws[k + 1..];
    }

    /** Every statement of the message runs before any completes. */
    method RunStatements(ws: seq<Pending>) returns (replies: seq<Reply>)
      modifies session`db
      ensures session.mem == old(session.mem) && (session.db, replies) == RunAll(srv, old(session.db), ws)
    {
      replies := [];
      ghost var all := RunAll(srv, session.db, ws);
      assert ws[0..] == ws;
      for k := 0 to |ws|
        invariant session.mem == old(session.mem) && |replies| == k
        invariant var rest := RunAll(srv, session.db, ws[k..]); all.0 == rest.0 && all.1 == replies + rest.1
      {
        RunAllStep(ws, session.db, k);
        var (db, reply) := srv.run(session.db, ws[k].write.stmt);
        session.db := db;
        ghost var rest := RunAll(srv, db, ws[k + 1..]).1;
        assert replies + ([reply] + rest) == (replies + [reply]) + rest;
        replies := replies + [reply];
      }
      assert ws[|ws|..] == [] && replies + [] == replies;
    }

    method SendInOne(ws: seq<Pending>)
      requires Valid() && !failed && writes == []
      modifies `failed, `history, session, journal
      ensures Valid() && View() == SendTogether(e, srv, old(View()), ws)
    {
      var replies := RunStatements(ws);
      if Broken in replies {
        failed := true;
        return;
      }
      CompleteAll(ws, replies);
    }

    method CompleteAll(ws: seq<Pending>, replies: seq<Reply>)
      requires Valid() && !failed && writes == [] && |ws| == |replies|
      modifies `failed, `history, session`mem, journal
      ensures Valid() && View() == ApplyAll(e, old(View()), ws, replies)
    {
      var i := 0;
      assert ws[0..] == ws && replies[0..] == replies;
      while i < |ws| && !failed
        invariant 0 <= i <= |ws| && Valid() && writes == []
        invariant ApplyAll(e, View(), ws[i..], replies[i..]) == ApplyAll(e, old(View()), ws, replies)
      {
        CompleteFirst(ws[i..], replies[i]);
        assert ws[i..][1..] == ws[i + 1..] && replies[i..][1..] == replies[i + 1..];
        i := i + 1;
      }
    }

    /** Puts a prepared statement into the message in progress: rules 2 and 3. */
    method AddWrite(write: Write, op: Op)
      requires Valid() && !failed
      modifies this, session, journal
      ensures Valid() && View() == Add(e, srv, plan, old(View()), write, op)
    {
      MakeRoom(write);
      if !failed {
        ghost var ready := View();
        var v := Pending(write, KeyNow(e, session.mem, op));
        JoinMessage(v);
        assert View() == ready.(current := ready.current + [v]);
        if |writes| >= plan.limit {
          SendMessage();
        }
      }
    }

    /** Rules 2 and 3's parameter cap, now that the statement's parameters are bound. */
    method MakeRoom(write: Write)
      requires Valid() && !failed
      modifies this, session, journal
      ensures Valid()
      ensures View() == if Splits(plan, old(writes), write) then Send(e, srv, plan, old(View())) else old(View())
    {
      if writes != [] {
        var overflow := plan.parameterCap > 0 && parameters + ArgCount(write.stmt) > plan.parameterCap;
        if overflow || (ReadsResult(write) && hasCommand) {
          SendMessage();
        }
      }
    }

    method JoinMessage(v: Pending)
      requires Valid()
      modifies `writes, `instances, `keys, `generated, `hasCommand, `parameters
      ensures Valid() && writes == old(writes) + [v]
    {
      GeneratedGrows(generated, writes, v);
      KeysGrow(keys, writes, v);
      WaitingGrows(writes, v);
      writes := writes + [v];
      parameters := parameters + ArgCount(v.write.stmt);
      instances := instances + (if Instance(v.write).Some? then {Instance(v.write).value} else {});
      generated := if GeneratesKey(v.write) then generated + {v.write.finish.p} else generated;
      hasCommand := hasCommand || IsCommand(v.write);
      keys := if v.key.Some? then keys + [v.key.value] else keys;
    }

    /** One operation of the call, prepared in its turn. */
    method RunOperation(op: Op)
      requires Valid() && !failed
      modifies this, session, journal
      ensures Valid() && View() == Step(e, srv, plan, old(View()), op)
    {
      SendBefore(op);
      if !failed {
        PrepareAndAdd(op);
      }
    }

    method PrepareAndAdd(op: Op)
      requires Valid() && !failed
      modifies this, session, journal
      ensures Valid() && View() == Proceed(e, srv, plan, old(View()), op)
    {
      FlowAndRecord(op);
      var prepared := Prepare(e, session.mem, op);
      session.mem := prepared.mem;
      match prepared.issue
      case Refused(_) => failed := true;
      case Nothing =>
      case Issued(write) => AddWrite(write, op);
    }

    /** The keys flow first, then the journal captures the instance. */
    method FlowAndRecord(op: Op)
      modifies session`mem, journal
      ensures View() == Recorded(e, old(View()).(mem := Flow(e, old(session.mem), op)), op)
    {
      session.mem := Flow(e, session.mem, op);
      if OpInstance(op).Some? {
        journal.Append([RecordWrite(e, session.mem, op.p)]);
      }
    }

    /**
     The whole call. A failure, of an operation, of a message or of the commit, runs the journal
     back; under the call's hypotheses that restores the session.
     */
    method Perform(ops: seq<Op>, commits: bool) returns (ok: bool)
      requires Valid() && View() == Start(session.mem, session.db)
      modifies this, session, journal
      ensures var c := Run(e, srv, plan, old(session.mem), old(session.db), ops);
              && session.db == c.db && messages == |c.sent| && ok == (!c.failed && commits)
              && session.mem == (if ok then c.mem else Rollback(c.mem, c.journal))
      ensures !ok && Consistent(old(session.mem).ids) && Numbered(old(session.mem).ids) && FlushShaped(ops)
              && (plan.limit > 1 ==> CallerReady(e, old(session.mem), ops))
              && FreshHistory(e, plan, Run(e, srv, plan, old(session.mem), old(session.db), ops).history)
              ==> Restored(e, ops, old(session.mem), session.mem) && LeavesMap(e, ops, old(session.mem), session.mem)
      ensures ok ==> LeavesMap(e, ops, old(session.mem), session.mem)
    {
      ghost var start := View();
      var i := 0;
      while i < |ops| && !failed
        invariant 0 <= i <= |ops| && Valid()
        invariant View() == Steps(e, srv, plan, start, ops[..i])
      {
        assert ops[..i + 1][..i] == ops[..i];
        RunOperation(ops[i]);
        i := i + 1;
      }
      FailedStays(start, ops, i);
      if !failed {
        SendMessage();
      }
      ok := !failed && commits;
      if !ok {
        journal.RunBack(session);
      }
      if Consistent(start.mem.ids) && Numbered(start.mem.ids) && FlushShaped(ops)
         && (plan.limit > 1 ==> CallerReady(e, start.mem, ops)) &&
            FreshHistory(e, plan, Run(e, srv, plan, start.mem, start.db, ops).history)
      {
        RunRollbackRestores(e, srv, plan, start.mem, start.db, ops);
        RollbackKeepsMap(e, srv, plan, start.mem, start.db, ops);
      }
      if Consistent(start.mem.ids) && Numbered(start.mem.ids) {
        RunKeepsMap(e, srv, plan, start.mem, start.db, ops);
      }
    }

    lemma {:induction false} FailedStays(c: Call<D>, ops: seq<Op>, i: nat)
      requires i <= |ops| && (i == |ops| || Steps(e, srv, plan, c, ops[..i]).failed)
      ensures Steps(e, srv, plan, c, ops) == Steps(e, srv, plan, c, ops[..i])
      decreases |ops|
    {
      if i == |ops| {
        assert ops[..i] == ops;
      } else {
        assert ops[..|ops| - 1][..i] == ops[..i];
        FailedStays(c, ops[..|ops| - 1], i);
      }
    }
  }
}
