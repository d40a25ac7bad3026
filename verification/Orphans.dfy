/**
 A call the journal does not undo: in one message, a delete by the key an instance is tracked under, the insert
 of that same instance with its key field zero, and a statement that fails. The tracked key is 1, which the
 instance then does not hold, or 0, which it holds but which is unset.
 */
module Orphans {
  import opened Values
  import opened Entities
  import opened IdentityMap
  import opened Writes
  import opened Calls
  import opened Undoing
  import opened Restoring
  import opened KeyRules
  import opened Rollbacks
  import opened Strays

  const USER := EntityMap(true, DatabaseGenerated, 1, 0, {}, false, false, false, false, [])

  function Session(): Env {
    Env(true, map[0 := USER], map[], map[], (_) => None, (n: nat) => n + 1, false)
  }

  /** Instance 5 is tracked under key k; its key field is zero, as for a new instance. */
  function Tracked(k: nat): Entry { Entry(5, 0, [Num(k)], 1) }

  function Found(k: nat): Mem {
    Mem(map[5 := BLANK.(key := [Num(0)])],
        IdMap(map[5 := Tracked(k)], map[(0, [Num(k)]) := Tracked(k)], map[1 := BLANK.(key := [Num(k)])], 1),
        0, 0)
  }

  /** Every row is there but row 9, and the next generated key is 7. */
  function Answer(s: Statement): Reply {
    match s
    case InsertRow(_, _) => Reply(Some(Num(7)), 1)
    case DeleteRow(_, key, _) => Reply(None, if key == [Num(9)] then 0 else 1)
    case _ => Reply(None, 0)
  }

  function Database(): Server<nat> {
    Server((d, s) => (d, Answer(s)))
  }

  function Batch(k: nat): seq<Op> { [DeleteKey(0, [Num(k)]), Insert(5), DeleteKey(0, [Num(9)])] }

  function First(k: nat): Pending {
    Pending(Write(DeleteRow(0, [Num(k)], None), DriverCount, FinishDeleteKey(0, [Num(k)])),
            if k == 0 then None else Some((0, [Num(k)])))
  }

  const SECOND := Pending(Write(InsertRow(0, []), KeyReply, FinishInsert(5, true)), None)

  function Capture(k: nat): Undo {
    UndoWrite(5, BLANK.(key := [Num(0)]), Some(Tracked(k)), BLANK.(key := [Num(k)]),
              if k == 0 then Some(Tracked(k)) else None)
  }

  function Held(k: nat, journal: seq<Undo>, current: seq<Pending>): Call<nat> {
    Call(Found(k), 0, journal, current, [], [], false)
  }

  lemma DeleteJoins(k: nat, plan: Plan, c: Call<nat>, n: nat, w: Pending)
    requires plan.limit > 3 && plan.parameterCap == 0 && |c.current| < 3
    requires c == Held(k, c.journal, c.current) && w == First(n)
    requires forall held :: held in c.current ==> held.key != Some((0, [Num(n)])) && !held.write.finish.FinishCommand?
    ensures Step(Session(), Database(), plan, c, DeleteKey(0, [Num(n)])) == Held(k, c.journal, c.current + [w])
  {
    var op := DeleteKey(0, [Num(n)]);
    assert UnsetKeyPart(USER, [Num(n)][0]) <==> n == 0;
    assert KeyNow(Session(), Found(k), op) == w.key;
    assert forall held :: held in c.current ==> !Clashes(Session(), Found(k), held, op);
    assert Prepare(Session(), Found(k), op) == Preparation(Found(k), Issued(w.write));
    assert !Splits(plan, c.current, w.write);
  }

  lemma InsertPrepares(k: nat)
    ensures Prepare(Session(), Found(k), Insert(5)) == Preparation(Found(k), Issued(SECOND.write))
    ensures KeyNow(Session(), Found(k), Insert(5)) == None
    ensures RecordWrite(Session(), Found(k), 5) == Capture(k)
  {
    assert MapFor(Session(), 5) == USER && InstOf(Found(k), 5) == BLANK.(key := [Num(0)]);
    assert UnsetKeyPart(USER, KeyOf(Found(k), 5)[0]);
    assert WritableColumns(USER) == [] && InsertedColumns(USER) == [];
    assert Bind(InstOf(Found(k), 5), []) == [];
    assert NavigationsAgree(Session(), Found(k), 5, None);
    assert AssignGuid(Session(), Found(k), 5) == Found(k);
  }

  lemma InsertNeedNotSplit(k: nat, plan: Plan)
    requires plan.parameterCap == 0
    ensures !Splits(plan, [First(k)], SECOND.write) && !Clashes(Session(), Found(k), First(k), Insert(5))
  {
    InsertPrepares(k);
    assert !IsCommand(First(k).write);
  }

  lemma InsertJoins(k: nat, plan: Plan)
    requires plan.limit > 3 && plan.parameterCap == 0
    ensures Step(Session(), Database(), plan, Held(k, [], [First(k)]), Insert(5)) ==
              Held(k, [Capture(k)], [First(k), SECOND])
  {
    var op := Insert(5);
    InsertPrepares(k);
    InsertNeedNotSplit(k, plan);
    var ready := Held(k, [], [First(k)]);
    assert Before(Session(), Database(), plan, ready, op) == ready;
    assert [First(k)] + [SECOND] == [First(k), SECOND] && [] + [Capture(k)] == [Capture(k)];
    assert Step(Session(), Database(), plan, ready, op) ==
           Add(Session(), Database(), plan, Held(k, [Capture(k)], [First(k)]), SECOND.write, op);
  }

  /** The last operation of a call. */
  lemma LastStep(plan: Plan, c: Call<nat>, ops: seq<Op>, last: Op)
    ensures Steps(Session(), Database(), plan, c, ops + [last]) ==
            Step(Session(), Database(), plan, Steps(Session(), Database(), plan, c, ops), last)
  {
    assert (ops + [last])[..|ops|] == ops;
  }

  lemma PreparedTogether(k: nat, plan: Plan)
    requires plan.limit > 3 && plan.parameterCap == 0 && k <= 1
    ensures Steps(Session(), Database(), plan, Start<nat>(Found(k), 0), Batch(k)) ==
            Held(k, [Capture(k)], [First(k), SECOND, First(9)])
  {
    TwoPrepared(k, plan);
    var two := [DeleteKey(0, [Num(k)]), Insert(5)];
    LastStep(plan, Start<nat>(Found(k), 0), two, DeleteKey(0, [Num(9)]));
    assert two + [DeleteKey(0, [Num(9)])] == Batch(k);
    ThirdJoins(k, plan);
  }

  lemma ThirdJoins(k: nat, plan: Plan)
    requires plan.limit > 3 && plan.parameterCap == 0 && k <= 1
    ensures Step(Session(), Database(), plan, Held(k, [Capture(k)], [First(k), SECOND]), DeleteKey(0, [Num(9)])) ==
            Held(k, [Capture(k)], [First(k), SECOND, First(9)])
  {
    var c := Held(k, [Capture(k)], [First(k), SECOND]);
    assert forall held :: held in c.current ==> held == First(k) || held == SECOND;
    DeleteJoins(k, plan, c, 9, First(9));
    assert [First(k), SECOND] + [First(9)] == [First(k), SECOND, First(9)];
  }

  lemma TwoPrepared(k: nat, plan: Plan)
    requires plan.limit > 3 && plan.parameterCap == 0 && k <= 1
    ensures Steps(Session(), Database(), plan, Start<nat>(Found(k), 0), [DeleteKey(0, [Num(k)]), Insert(5)]) ==
            Held(k, [Capture(k)], [First(k), SECOND])
  {
    var c0, first := Start<nat>(Found(k), 0), DeleteKey(0, [Num(k)]);
    DeleteJoins(k, plan, c0, k, First(k));
    LastStep(plan, c0, [], first);
    LastStep(plan, c0, [first], Insert(5));
    assert [] + [First(k)] == [First(k)] && [] + [first] == [first] && [first] + [Insert(5)] == [first, Insert(5)];
    InsertJoins(k, plan);
  }

  /** The map after the first two statements completed: the entry under key 1 gave way to one under key 7. */
  const INSERTED := Entry(5, 0, [Num(7)], 2)

  /** Every key the call has registered was set and new. */
  ghost predicate AllFresh(c: Call<nat>) {
    forall h :: h in c.history ==> FreshKeys(Session(), h)
  }

  lemma DeleteCompletes(k: nat, c: Call<nat>)
    requires !c.failed && c.mem == Found(k) && c.journal == [Capture(k)] && AllFresh(c)
    ensures var next := Apply(Session(), c, [First(k), SECOND, First(9)], Reply(None, 1));
            && !next.failed && next.journal == [Capture(k), UndoRestore(Tracked(k))] && AllFresh(next)
            && next.mem == Found(k).(ids := Forget(Found(k).ids, Tracked(k)))
  {
    assert Find(Found(k).ids, 0, [Num(k)]) == Some(Tracked(k));
  }

  lemma InsertCompletes(k: nat, c: Call<nat>)
    requires !c.failed && c.mem == Found(k).(ids := Forget(Found(k).ids, Tracked(k))) && AllFresh(c)
    ensures var next := Apply(Session(), c, [SECOND, First(9)], Reply(Some(Num(7)), 1));
            && !next.failed && next.journal == c.journal && AllFresh(next)
            && next.mem.ids.byPtr == map[5 := INSERTED] && next.mem.ids.byKey == map[(0, [Num(7)]) := INSERTED]
  {
    InsertRegisters(k, c.mem);
    assert KeyOf(c.mem, 5) == [Num(0)] && c.mem.ids.byKey == map[];
    assert FreshKeys(Session(), Completed(c.mem, SECOND.write, Reply(Some(Num(7)), 1)));
  }

  lemma LastFails(c: Call<nat>)
    requires !c.failed && AllFresh(c)
    ensures var next := SendEach(Session(), Database(), c, [First(9)]);
            next.failed && next.mem == c.mem && next.journal == c.journal && AllFresh(next)
  {
    var next := Apply(Session(), c, [First(9)], Reply(None, 0));
    assert Answer(First(9).write.stmt) == Reply(None, 0);
    assert next.failed && next.mem == c.mem && next.journal == c.journal;
    assert SendEach(Session(), Database(), c, [First(9)]) ==
             SendEach(Session(), Database(), next, [First(9)][1..]) == next;
  }

  lemma SendFirst(c: Call<nat>, ws: seq<Pending>)
    requires !c.failed && ws != []
    ensures SendEach(Session(), Database(), c, ws) ==
            SendEach(Session(), Database(), Apply(Session(), c, ws, Answer(ws[0].write.stmt)), ws[1..])
  {
    assert Database().run(c.db, ws[0].write.stmt) == (c.db, Answer(ws[0].write.stmt));
    assert c.(db := c.db) == c;
  }

  lemma CompletesThenFails(k: nat, plan: Plan)
    requires plan.limit > 3 && plan.parameterCap == 0 && !plan.oneTrip && k <= 1
    ensures var c := Run(Session(), Database(), plan, Found(k), 0, Batch(k));
            && c.failed && c.journal == [Capture(k), UndoRestore(Tracked(k))] && AllFresh(c)
            && c.mem.ids.byPtr == map[5 := INSERTED] && c.mem.ids.byKey == map[(0, [Num(7)]) := INSERTED]
  {
    var ws := [First(k), SECOND, First(9)];
    var c := Held(k, [Capture(k)], []).(sent := [Texts(ws)]);
    SendsAll(k, plan);
    SendFirst(c, ws);
    assert Answer(First(k).write.stmt) == Reply(None, 1) && ws[1..] == [SECOND, First(9)];
    DeleteCompletes(k, c);
    SecondThenThird(k, Apply(Session(), c, ws, Reply(None, 1)));
  }

  lemma SecondThenThird(k: nat, c: Call<nat>)
    requires !c.failed && c.mem == Found(k).(ids := Forget(Found(k).ids, Tracked(k))) && AllFresh(c)
    ensures var sent := SendEach(Session(), Database(), c, [SECOND, First(9)]);
            && sent.failed && sent.journal == c.journal && AllFresh(sent)
            && sent.mem.ids.byPtr == map[5 := INSERTED] && sent.mem.ids.byKey == map[(0, [Num(7)]) := INSERTED]
  {
    InsertCompletes(k, c);
    LastFails(Apply(Session(), c, [SECOND, First(9)], Reply(Some(Num(7)), 1)));
    SendFirst(c, [SECOND, First(9)]);
    assert [SECOND, First(9)][1..] == [First(9)];
  }

  lemma SendsAll(k: nat, plan: Plan)
    requires plan.limit > 3 && plan.parameterCap == 0 && !plan.oneTrip && k <= 1
    ensures Run(Session(), Database(), plan, Found(k), 0, Batch(k)) ==
            SendEach(Session(), Database(), Held(k, [Capture(k)], []).(sent := [Texts([First(k), SECOND, First(9)])]),
                     [First(k), SECOND, First(9)])
  {
    PreparedTogether(k, plan);
    assert [] + [Texts([First(k), SECOND, First(9)])] == [Texts([First(k), SECOND, First(9)])];
  }

  lemma InsertRegisters(k: nat, mem: Mem)
    requires mem.inst == Found(k).inst && mem.ids == Forget(Found(k).ids, Tracked(k))
    ensures var done := Complete(Session(), mem, SECOND.write, Reply(Some(Num(7)), 1));
            done.ok && done.undos == [] && done.mem.ids.byPtr == map[5 := INSERTED] &&
            done.mem.ids.byKey == map[(0, [Num(7)]) := INSERTED]
  {
    var e := Session();
    assert InstOf(mem, 5) == BLANK.(key := [Num(0)]);
    var put := Put(mem, 5, Set(InstOf(mem, 5), KeyPart(0), Num(7)));
    assert KeyOf(put, 5) == [Num(7)] && MapOf(e, TypeOf(e, 5)) == USER && !HasNull([Num(7)]);
    assert mem.ids.byPtr == map[] && mem.ids.byKey == map[] && mem.ids.next == 1;
  }

  lemma TwoUndone(k: nat, ids: IdMap)
    requires ids.byPtr == map[5 := INSERTED] && ids.byKey == map[(0, [Num(7)]) := INSERTED] && k <= 1
    ensures var back := UndoAll(ids, [Capture(k), UndoRestore(Tracked(k))]);
            && back.byPtr == map[5 := Tracked(k)]
            && back.byKey == map[(0, [Num(7)]) := INSERTED, (0, [Num(k)]) := Tracked(k)]
  {
    var journal := [Capture(k), UndoRestore(Tracked(k))];
    assert journal[..1] == [Capture(k)] && [Capture(k)][..0] == [];
    var first := UndoIds(ids, UndoRestore(Tracked(k)));
    assert Find(ids, 0, [Num(k)]) == None;
    assert first.byPtr == map[5 := Tracked(k)] &&
           first.byKey == map[(0, [Num(7)]) := INSERTED, (0, [Num(k)]) := Tracked(k)];
    var last := UndoIds(first, Capture(k));
    assert Find(first, 0, [Num(k)]) == Some(Tracked(k)) && EntryOf(first, 5) == Some(Tracked(k));
    assert last.byKey == first.byKey && last.byPtr == first.byPtr;
    assert UndoAll(ids, journal) == UndoAll(first, [Capture(k)]) == UndoAll(last, []) == last;
  }

  /** The rollback leaves an entry behind: key 7 still finds the instance that is tracked under key k. */
  lemma RollbackLeavesOrphan(k: nat, plan: Plan)
    requires plan.limit > 3 && plan.parameterCap == 0 && !plan.oneTrip && k <= 1
    ensures var c := Run(Session(), Database(), plan, Found(k), 0, Batch(k));
            var back := Rollback(c.mem, c.journal).ids;
            && Find(back, 0, [Num(7)]) == Some(INSERTED) && EntryOf(back, 5) == Some(Tracked(k))
            && AllFresh(c) && !Consistent(back) && !Restored(Session(), Batch(k), Found(k), Rollback(c.mem, c.journal))
  {
    CompletesThenFails(k, plan);
    var c := Run(Session(), Database(), plan, Found(k), 0, Batch(k));
    RollbackIds(c.mem, c.journal);
    TwoUndone(k, c.mem.ids);
    var back := Rollback(c.mem, c.journal).ids;
    assert back.byKey[(0, [Num(7)])] == INSERTED && back.byPtr[INSERTED.ptr] != INSERTED;
  }

  /**
   The caller is not ready here. Under key 1 the instance it inserts does not hold the key it is registered under;
   under key 0 it does, but that key is unset.
   */
  lemma CallerWasNotReady(k: nat)
    requires k <= 1
    ensures Consistent(Found(k).ids) && Numbered(Found(k).ids) && FlushShaped(Batch(k)) &&
            !CallerReady(Session(), Found(k), Batch(k))
    ensures Stale(Found(k), 5) <==> k == 1
  {
    assert Batch(k)[1] in Batch(k) && 5 in Written(Batch(k)) && InsertsInstance(Batch(k)[1]);
    assert EntryOf(Found(k).ids, 5) == Some(Tracked(k)) && KeyOf(Found(k), 5) == [Num(0)];
    assert UnsetKeyPart(USER, KeyOf(Found(k), 5)[0]) && !SettledAt(Session(), Found(k), 5);
  }
}
