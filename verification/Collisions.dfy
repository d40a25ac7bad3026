/**
 Why generated keys have to be fresh: the database generates the key a tracked instance holds, that
 instance is inserted anew in the same message, and a later statement fails.
 */
module Collisions {
  import opened Values
  import opened Entities
  import opened IdentityMap
  import opened Writes
  import opened Calls
  import opened Undoing
  import opened Restoring
  import opened KeyRules
  import opened Strays
  import opened Rollbacks

  const USER := EntityMap(true, DatabaseGenerated, 1, 0, {}, false, false, false, false, [])

  function Session(): Env {
    Env(true, map[0 := USER], map[], map[], (_) => None, (n: nat) => n + 1, false)
  }

  /** Instance 6 is tracked under the key 7 it holds; instance 5 is new. */
  const TRACKED := Entry(6, 0, [Num(7)], 1)
  const SEVEN := BLANK.(key := [Num(7)])
  const BEFORE := Mem(
    map[5 := BLANK.(key := [Num(0)]), 6 := SEVEN],
    IdMap(map[6 := TRACKED], map[(0, [Num(7)]) := TRACKED], map[1 := SEVEN], 1),
    0, 0)

  /** Keys are generated from 7 on; no row 9 is there. */
  function Answer(d: nat, s: Statement): (nat, Reply) {
    if s.InsertRow? then (d + 1, Reply(Some(Num(7 + d)), 1)) else (d, Reply(None, 0))
  }

  function Database(): Server<nat> {
    Server(Answer)
  }

  const BATCH := [Insert(5), Insert(6), DeleteKey(0, [Num(9)])]

  function Waits(p: Ptr, key: Option<(TypeId, Key)>): Pending {
    Pending(Write(InsertRow(0, []), KeyReply, FinishInsert(p, true)), key)
  }

  const FIRST := Waits(5, None)
  const SECOND := Waits(6, Some((0, [Num(7)])))
  const THIRD := Pending(Write(DeleteRow(0, [Num(9)], None), DriverCount, FinishDeleteKey(0, [Num(9)])),
      Some((0, [Num(9)])))
  const NEWFIRST := UndoWrite(5, BLANK.(key := [Num(0)]), None, BLANK, None)
  const NEWSECOND := UndoWrite(6, SEVEN, Some(TRACKED), SEVEN, Some(TRACKED))

  function Held(journal: seq<Undo>, current: seq<Pending>): Call<nat> {
    Call(BEFORE, 0, journal, current, [], [], false)
  }

  lemma InsertPrepares(p: Ptr)
    requires p == 5 || p == 6
    ensures Prepare(Session(), BEFORE, Insert(p)) == Preparation(BEFORE, Issued(Waits(p, None).write))
    ensures KeyNow(Session(), BEFORE, Insert(p)) == (if p == 5 then FIRST else SECOND).key
    ensures RecordWrite(Session(), BEFORE, p) == if p == 5 then NEWFIRST else NEWSECOND
  {
    assert MapFor(Session(), p) == USER;
    assert KeyOf(BEFORE, 5) == [Num(0)] && UnsetKeyPart(USER, [Num(0)][0]);
    assert KeyOf(BEFORE, 6) == [Num(7)] && SetKey(USER, [Num(7)]);
    assert WritableColumns(USER) == [] && InsertedColumns(USER) == [];
    assert Bind(InstOf(BEFORE, p), []) == [];
    assert NavigationsAgree(Session(), BEFORE, p, None);
    assert AssignGuid(Session(), BEFORE, p) == BEFORE;
  }

  lemma FirstJoins(plan: Plan)
    requires plan.limit > 3 && plan.parameterCap == 0
    ensures Step(Session(), Database(), plan, Held([], []), Insert(5)) == Held([NEWFIRST], [FIRST])
  {
    InsertPrepares(5);
    assert [] + [FIRST] == [FIRST];
    assert [] + [NEWFIRST] == [NEWFIRST];
  }

  lemma SecondNeedNotSplit(plan: Plan)
    requires plan.parameterCap == 0
    ensures !Splits(plan, [FIRST], SECOND.write) && !Clashes(Session(), BEFORE, FIRST, Insert(6))
  {
    InsertPrepares(6);
    assert !IsCommand(FIRST.write);
  }

  lemma SecondJoins(plan: Plan)
    requires plan.limit > 3 && plan.parameterCap == 0
    ensures Step(Session(), Database(), plan, Held([NEWFIRST], [FIRST]), Insert(6)) ==
            Held([NEWFIRST, NEWSECOND], [FIRST, SECOND])
  {
    var op, ready := Insert(6), Held([NEWFIRST], [FIRST]);
    InsertPrepares(6);
    SecondNeedNotSplit(plan);
    assert Before(Session(), Database(), plan, ready, op) == ready;
    assert [FIRST] + [SECOND] == [FIRST, SECOND] && [NEWFIRST] + [NEWSECOND] == [NEWFIRST, NEWSECOND];
    assert Step(Session(), Database(), plan, ready, op) ==
           Add(Session(), Database(), plan, Held([NEWFIRST, NEWSECOND], [FIRST]), SECOND.write, op);
  }

  lemma ThirdJoins(plan: Plan)
    requires plan.limit > 3 && plan.parameterCap == 0
    ensures Step(Session(), Database(), plan, Held([NEWFIRST, NEWSECOND], [FIRST, SECOND]), BATCH[2]) ==
            Held([NEWFIRST, NEWSECOND], [FIRST, SECOND, THIRD])
  {
    var op := DeleteKey(0, [Num(9)]);
    assert KeyNow(Session(), BEFORE, op) == THIRD.key;
    assert forall held :: held in [FIRST, SECOND] ==> !Clashes(Session(), BEFORE, held, op);
    assert Prepare(Session(), BEFORE, op) == Preparation(BEFORE, Issued(THIRD.write));
    assert [FIRST, SECOND] + [THIRD] == [FIRST, SECOND, THIRD];
    assert !Splits(plan, [FIRST, SECOND], THIRD.write);
  }

  lemma PreparedTogether(plan: Plan)
    requires plan.limit > 3 && plan.parameterCap == 0
    ensures Steps(Session(), Database(), plan, Start<nat>(BEFORE, 0), BATCH) ==
              Held([NEWFIRST, NEWSECOND], [FIRST, SECOND, THIRD])
  {
    var c0 := Start<nat>(BEFORE, 0);
    assert BATCH[..2][..1] == BATCH[..1] && BATCH[..1][..0] == [] && BATCH[..2] == BATCH[..|BATCH| - 1];
    assert Steps(Session(), Database(), plan, c0, BATCH[..0]) == c0;
    FirstJoins(plan);
    assert Steps(Session(), Database(), plan, c0, BATCH[..1]) == Held([NEWFIRST], [FIRST]);
    SecondJoins(plan);
    assert Steps(Session(), Database(), plan, c0, BATCH[..2]) == Held([NEWFIRST, NEWSECOND], [FIRST, SECOND]);
    ThirdJoins(plan);
  }

  /** The new instance took the key over; the old one moved on to the next. */
  const TOOKOVER := Entry(5, 0, [Num(7)], 2)
  const MOVEDON := Entry(6, 0, [Num(8)], 3)

  lemma FirstCompletes(c: Call<nat>)
    requires !c.failed && c.mem == BEFORE && c.journal == [NEWFIRST, NEWSECOND]
    ensures var next := Apply(Session(), c, [FIRST, SECOND, THIRD], Reply(Some(Num(7)), 1));
            && !next.failed && next.journal == [NEWFIRST, NEWSECOND, UndoRestore(TRACKED)]
            && InstOf(next.mem, 6) == SEVEN && 6 in next.mem.inst && next.mem.ids.next == 2
            && next.mem.ids.byPtr == map[5 := TOOKOVER] && next.mem.ids.byKey == map[(0, [Num(7)]) := TOOKOVER]
  {
    var put := Put(BEFORE, 5, Set(InstOf(BEFORE, 5), KeyPart(0), Num(7)));
    assert KeyOf(put, 5) == [Num(7)] && MapOf(Session(), TypeOf(Session(), 5)) == USER && !HasNull([Num(7)]);
    assert Find(BEFORE.ids, 0, [Num(7)]) == Some(TRACKED);
    var cleared := Forget(BEFORE.ids, TRACKED);
    assert cleared.byPtr == map[] && cleared.byKey == map[];
  }

  lemma SecondCompletes(c: Call<nat>)
    requires !c.failed && InstOf(c.mem, 6) == SEVEN && 6 in c.mem.inst && c.mem.ids.next == 2
    requires c.mem.ids.byPtr == map[5 := TOOKOVER] && c.mem.ids.byKey == map[(0, [Num(7)]) := TOOKOVER]
    ensures var next := Apply(Session(), c, [SECOND, THIRD], Reply(Some(Num(8)), 1));
            && !next.failed && next.journal == c.journal
            && next.mem.ids.byPtr == map[5 := TOOKOVER, 6 := MOVEDON]
            && next.mem.ids.byKey == map[(0, [Num(7)]) := TOOKOVER, (0, [Num(8)]) := MOVEDON]
  {
    var put := Put(c.mem, 6, Set(InstOf(c.mem, 6), KeyPart(0), Num(8)));
    assert KeyOf(put, 6) == [Num(8)] && MapOf(Session(), TypeOf(Session(), 6)) == USER && !HasNull([Num(8)]);
    assert Find(c.mem.ids, 0, [Num(8)]) == None;
  }

  lemma LastFails(c: Call<nat>)
    requires !c.failed
    ensures var next := SendEach(Session(), Database(), c, [THIRD]);
            next.failed && next.mem == c.mem && next.journal == c.journal
  {
    var next := Apply(Session(), c, [THIRD], Reply(None, 0));
    assert Answer(c.db, THIRD.write.stmt) == (c.db, Reply(None, 0));
    assert SendEach(Session(), Database(), c, [THIRD]) == SendEach(Session(), Database(), next, [THIRD][1..]) == next;
  }

  lemma SecondThenThird(c: Call<nat>)
    requires !c.failed && InstOf(c.mem, 6) == SEVEN && 6 in c.mem.inst && c.mem.ids.next == 2 && c.db == 1
    requires c.mem.ids.byPtr == map[5 := TOOKOVER] && c.mem.ids.byKey == map[(0, [Num(7)]) := TOOKOVER]
    ensures var sent := SendEach(Session(), Database(), c, [SECOND, THIRD]);
            && sent.failed && sent.journal == c.journal
            && sent.mem.ids.byPtr == map[5 := TOOKOVER, 6 := MOVEDON]
            && sent.mem.ids.byKey == map[(0, [Num(7)]) := TOOKOVER, (0, [Num(8)]) := MOVEDON]
  {
    SecondCompletes(c.(db := 2));
    var next := Apply(Session(), c.(db := 2), [SECOND, THIRD], Reply(Some(Num(8)), 1));
    LastFails(next);
    assert [SECOND, THIRD][1..] == [THIRD];
    assert Database().run(c.db, SECOND.write.stmt) == (2, Reply(Some(Num(8)), 1));
    assert SendEach(Session(), Database(), c, [SECOND, THIRD]) == SendEach(Session(), Database(), next, [THIRD]);
  }

  lemma CompletesThenFails(plan: Plan)
    requires plan.limit > 3 && plan.parameterCap == 0 && !plan.oneTrip
    ensures var c := Run(Session(), Database(), plan, BEFORE, 0, BATCH);
            && c.failed && c.journal == [NEWFIRST, NEWSECOND, UndoRestore(TRACKED)]
            && c.mem.ids.byPtr == map[5 := TOOKOVER, 6 := MOVEDON]
            && c.mem.ids.byKey == map[(0, [Num(7)]) := TOOKOVER, (0, [Num(8)]) := MOVEDON]
  {
    var e, srv := Session(), Database();
    PreparedTogether(plan);
    var c := Held([NEWFIRST, NEWSECOND], []).(sent := [Texts([FIRST, SECOND, THIRD])]);
    FirstCompletes(c.(db := 1));
    var next := Apply(e, c.(db := 1), [FIRST, SECOND, THIRD], Reply(Some(Num(7)), 1));
    SecondThenThird(next);
    assert [FIRST, SECOND, THIRD][1..] == [SECOND, THIRD];
    assert srv.run(c.db, FIRST.write.stmt) == (1, Reply(Some(Num(7)), 1));
    assert SendEach(e, srv, c, [FIRST, SECOND, THIRD]) == SendEach(e, srv, next, [SECOND, THIRD]);
    SendsAll(plan);
  }

  lemma SendsAll(plan: Plan)
    requires plan.limit > 3 && plan.parameterCap == 0 && !plan.oneTrip
    ensures Run(Session(), Database(), plan, BEFORE, 0, BATCH) ==
            SendEach(Session(), Database(),
                     Held([NEWFIRST, NEWSECOND], []).(sent := [Texts([FIRST, SECOND, THIRD])]), [FIRST, SECOND, THIRD])
  {
    PreparedTogether(plan);
    assert [] + [Texts([FIRST, SECOND, THIRD])] == [Texts([FIRST, SECOND, THIRD])];
  }

  lemma BothAreSettled()
    ensures SettledAt(Session(), BEFORE, 5) && SettledAt(Session(), BEFORE, 6)
    ensures Written(BATCH) == {5, 6}
  {
    assert KeyOf(BEFORE, 6) == [Num(7)] && SetKey(USER, [Num(7)]) && MapFor(Session(), 6) == USER;
    assert BATCH[0] in BATCH && BATCH[1] in BATCH;
    assert forall op :: op in BATCH ==> op == BATCH[0] || op == BATCH[1] || op == BATCH[2];
  }

  lemma BothAreFirm()
    ensures Firm(BEFORE, BATCH) == {5, 6}
  {
    BothAreSettled();
    SettledIsFirm(Session(), BEFORE, 5);
    SettledIsFirm(Session(), BEFORE, 6);
  }

  lemma CallerWasReady()
    ensures Consistent(BEFORE.ids) && Numbered(BEFORE.ids)
    ensures FlushShaped(BATCH) && CallerReady(Session(), BEFORE, BATCH)
  {
    BothAreFirm();
    BothAreSettled();
    assert forall op :: op in BATCH ==> op == BATCH[0] || op == BATCH[1] || op == BATCH[2];
  }

  /** The rollback leaves an entry behind: key 8 still finds the instance that is tracked under key 7. */
  lemma CollidingKeyLeavesOrphan(plan: Plan)
    requires plan.limit > 3 && plan.parameterCap == 0 && !plan.oneTrip
    ensures Consistent(BEFORE.ids) && Numbered(BEFORE.ids) && FlushShaped(BATCH) &&
            CallerReady(Session(), BEFORE, BATCH)
    ensures var c := Run(Session(), Database(), plan, BEFORE, 0, BATCH);
            var back := Rollback(c.mem, c.journal).ids;
            && Find(back, 0, [Num(8)]) == Some(MOVEDON) && EntryOf(back, 6) == Some(TRACKED)
            && !Consistent(back) && !Restored(Session(), BATCH, BEFORE, Rollback(c.mem, c.journal))
  {
    CallerWasReady();
    CompletesThenFails(plan);
    var c := Run(Session(), Database(), plan, BEFORE, 0, BATCH);
    RollbackIds(c.mem, c.journal);
    UndoneIds(c.mem.ids);
    var back := UndoAll(c.mem.ids, c.journal);
    assert back.byKey[(0, [Num(8)])] == MOVEDON && back.byPtr[MOVEDON.ptr] != MOVEDON;
  }

  lemma UndoneIds(ids: IdMap)
    requires ids.byPtr == map[5 := TOOKOVER, 6 := MOVEDON]
    requires ids.byKey == map[(0, [Num(7)]) := TOOKOVER, (0, [Num(8)]) := MOVEDON]
    ensures var back := UndoAll(ids, [NEWFIRST, NEWSECOND, UndoRestore(TRACKED)]);
            back.byPtr == map[6 := TRACKED] && back.byKey == map[(0, [Num(7)]) := TRACKED, (0, [Num(8)]) := MOVEDON]
  {
    var journal := [NEWFIRST, NEWSECOND, UndoRestore(TRACKED)];
    assert journal[..2] == [NEWFIRST, NEWSECOND] && [NEWFIRST, NEWSECOND][..1] == [NEWFIRST] && [NEWFIRST][..0] == [];
    var first := UndoIds(ids, UndoRestore(TRACKED));
    assert first.byPtr == map[6 := TRACKED] && first.byKey == map[(0, [Num(7)]) := TRACKED, (0, [Num(8)]) := MOVEDON];
    var second := UndoIds(first, NEWSECOND);
    assert second.byPtr == first.byPtr && second.byKey == first.byKey;
    var last := UndoIds(second, NEWFIRST);
    assert UndoAll(ids, journal) == UndoAll(first, [NEWFIRST, NEWSECOND]) == UndoAll(second, [NEWFIRST]) ==
             UndoAll(last, []) == last;
  }
}
