/**
 A call that succeeds statement by statement and fails in messages: a delete by key of a tracked
 instance whose key field was edited, then the update of that same instance.
 */
module Divergence {
  import opened Values
  import opened Entities
  import opened IdentityMap
  import opened Writes
  import opened Calls
  import opened Rollbacks
  import opened Strays
  import opened KeyRules
  import opened Commuting
  import opened Refinement
  import opened RunPlans
  import opened Batching

  const USER := EntityMap(true, Natural, 1, 0, {}, false, false, false, false, [])

  function Session(): Env {
    Env(true, map[0 := USER], map[], map[], (_) => None, (n: nat) => n + 1, false)
  }

  /** Instance 5 is tracked under key 1; its key field now says 2. */
  const TRACKED := Entry(5, 0, [Num(1)], 1)

  const BEFORE := Mem(
    map[5 := BLANK.(key := [Num(2)])],
    IdMap(map[5 := TRACKED], map[(0, [Num(1)]) := TRACKED], map[1 := BLANK.(key := [Num(1)])], 1),
    0, 0)

  /** Rows 1 and 2 are there. */
  function Database(): Server<nat> {
    Server((d, _) => (d, Reply(None, 1)))
  }

  const BATCH := [DeleteKey(0, [Num(1)]), Update(5)]

  const DELETE := Write(DeleteRow(0, [Num(1)], None), DriverCount, FinishDeleteKey(0, [Num(1)]))
  const UPDATE := Write(UpdateRow(0, [Num(2)], [], None), DriverCount, FinishFullUpdate(5))

  lemma DeletePrepares(plan: Plan)
    ensures var c := Start<nat>(BEFORE, 0);
            Step(Session(), Database(), plan, c, BATCH[0]) ==
            if plan.limit <= 1 then Send(Session(), Database(), plan,
                                         c.(current := [Pending(DELETE, Some((0, [Num(1)])))]))
            else c.(current := [Pending(DELETE, Some((0, [Num(1)])))])
  {
    var c := Start<nat>(BEFORE, 0);
    assert Prepare(Session(), BEFORE, BATCH[0]) == Preparation(BEFORE, Issued(DELETE));
    assert KeyNow(Session(), BEFORE, BATCH[0]) == Some((0, [Num(1)]));
    assert c.current + [Pending(DELETE, Some((0, [Num(1)])))] == [Pending(DELETE, Some((0, [Num(1)])))];
  }

  /** In one message: the delete has not completed, so the update finds the instance tracked under another key. */
  lemma FailsTogether(plan: Plan)
    requires plan.limit > 1
    ensures Run(Session(), Database(), plan, BEFORE, 0, BATCH).failed
  {
    var e, srv := Session(), Database();
    var start := Start<nat>(BEFORE, 0);
    var c := Steps(e, srv, plan, start, BATCH[..1]);
    assert BATCH[..1][..0] == BATCH[..0] == [] && BATCH[..1] == BATCH[..|BATCH| - 1];
    assert Steps(e, srv, plan, start, BATCH[..0]) == start;
    DeletePrepares(plan);
    assert c == Step(e, srv, plan, start, BATCH[0]);
    assert KeyNow(e, BEFORE, Update(5)) == Some((0, [Num(2)]));
    assert forall held :: held in c.current ==> !Clashes(e, c.mem, held, Update(5));
    assert WriteIdentity(e, BEFORE, 5).Closed?;
    assert Prepare(e, BEFORE, Update(5)) == Preparation(BEFORE, Refused(UOW002));
  }

  lemma DeleteSends(plan: Plan, c: Call<nat>)
    requires !plan.oneTrip && !c.failed && c.mem == BEFORE && c.current == [Pending(DELETE, Some((0, [Num(1)])))]
    ensures var sent := Send(Session(), Database(), plan, c);
            && !sent.failed && sent.mem == BEFORE.(ids := Forget(BEFORE.ids, TRACKED)) && sent.current == []
            && sent.history == c.history + [Completed(BEFORE, DELETE, Reply(None, 1))]
  {
    var started := c.(current := [], sent := c.sent + [Texts(c.current)]);
    assert Find(BEFORE.ids, 0, [Num(1)]) == Some(TRACKED);
    var next := Apply(Session(), started, c.current, Reply(None, 1));
    assert Database().run(started.db, DELETE.stmt) == (started.db, Reply(None, 1));
    assert SendEach(Session(), Database(), started, c.current) ==
             SendEach(Session(), Database(), next, c.current[1..]) == next;
  }

  lemma UpdatePrepares(mem: Mem)
    requires mem == BEFORE.(ids := Forget(BEFORE.ids, TRACKED))
    ensures Prepare(Session(), mem, Update(5)) == Preparation(mem, Issued(UPDATE))
  {
    var e := Session();
    assert MapFor(e, 5) == USER && InstOf(mem, 5) == BLANK.(key := [Num(2)]);
    assert EntryOf(mem.ids, 5) == None && Find(mem.ids, 0, [Num(2)]) == None;
    assert NavigationsAgree(e, mem, 5, None);
    assert WriteIdentity(e, mem, 5) == Open(None);
    assert WritableColumns(USER) == [] && Bind(InstOf(mem, 5), []) == [];
  }

  lemma UpdateSends(plan: Plan, c: Call<nat>, key: Option<(TypeId, Key)>)
    requires !plan.oneTrip && !c.failed && c.current == [Pending(UPDATE, key)]
    ensures var sent := Send(Session(), Database(), plan, c);
            !sent.failed && sent.current == [] && sent.history == c.history + [Completed(c.mem, UPDATE, Reply(None, 1))]
  {
    var started := c.(current := [], sent := c.sent + [Texts(c.current)]);
    var next := Apply(Session(), started, c.current, Reply(None, 1));
    assert Database().run(started.db, UPDATE.stmt) == (started.db, Reply(None, 1));
    assert SendEach(Session(), Database(), started, c.current) ==
             SendEach(Session(), Database(), next, c.current[1..]) == next;
  }

  lemma UpdateSteps(plan: Plan, c: Call<nat>)
    requires plan.limit <= 1 && !plan.oneTrip && !c.failed && c.current == [] &&
             c.mem == BEFORE.(ids := Forget(BEFORE.ids, TRACKED))
    ensures var next := Step(Session(), Database(), plan, c, Update(5));
            !next.failed && next.current == [] && next.history == c.history + [Completed(c.mem, UPDATE, Reply(None, 1))]
  {
    UpdatePrepares(c.mem);
    var recorded := Recorded(Session(), c, Update(5));
    var joined := recorded.(current := [Pending(UPDATE, KeyNow(Session(), c.mem, Update(5)))]);
    assert recorded.current + joined.current == joined.current;
    UpdateSends(plan, joined, KeyNow(Session(), c.mem, Update(5)));
  }

  /** Statement by statement, the delete has forgotten the instance by then. */
  lemma SucceedsAlone(plan: Plan)
    requires plan.limit <= 1 && !plan.oneTrip
    ensures var c := Run(Session(), Database(), plan, BEFORE, 0, BATCH);
            !c.failed && c.history == [Completed(BEFORE, DELETE, Reply(None, 1)),
                                       Completed(BEFORE.(ids := Forget(BEFORE.ids, TRACKED)), UPDATE, Reply(None, 1))]
  {
    var e, srv := Session(), Database();
    var start := Start<nat>(BEFORE, 0);
    var c := Steps(e, srv, plan, start, BATCH[..1]);
    assert BATCH[..1][..0] == BATCH[..0] == [] && BATCH[..1] == BATCH[..|BATCH| - 1];
    assert Steps(e, srv, plan, start, BATCH[..0]) == start;
    DeletePrepares(plan);
    assert c == Step(e, srv, plan, start, BATCH[0]);
    DeleteSends(plan, start.(current := [Pending(DELETE, Some((0, [Num(1)])))]));
    UpdateSteps(plan, c);
    assert Steps(e, srv, plan, start, BATCH) == Step(e, srv, plan, c, BATCH[1]);
  }

  function Case(alone: Plan): Setting<nat> {
    Setting(Session(), Database(), alone, BEFORE, 0, BATCH)
  }

  lemma NoneIsFirm()
    ensures Written(BATCH) == {5} && Stale(BEFORE, 5) && Firm(BEFORE, BATCH) == {}
  {
    assert BATCH[1] in BATCH && forall op :: op in BATCH ==> op == BATCH[0] || op == BATCH[1];
    assert EntryOf(BEFORE.ids, 5) == Some(TRACKED) && KeyOf(BEFORE, 5) == [Num(2)];
  }

  lemma CallerWasReady(alone: Plan)
    ensures Eligible(Case(alone))
  {
    NoneIsFirm();
    assert forall op :: op in BATCH ==> op == BATCH[0] || op == BATCH[1];
    assert ValidKeyArgument(USER, [Num(1)]) && SetKey(USER, [Num(1)]);
  }

  lemma KeysWereFresh()
    ensures Fresh(Session(), Completed(BEFORE, DELETE, Reply(None, 1)))
    ensures Fresh(Session(), Completed(BEFORE.(ids := Forget(BEFORE.ids, TRACKED)), UPDATE, Reply(None, 1)))
  {
    assert InstOf(BEFORE, 5).key == [Num(2)] && MapFor(Session(), 5) == USER;
  }

  lemma SucceededAlone(alone: Plan)
    requires alone.limit <= 1 && !alone.oneTrip
    ensures OffSucceeds(Case(alone))
  {
    SucceedsAlone(alone);
    KeysWereFresh();
  }

  lemma KeyWasFreed(alone: Plan)
    ensures Frees(Case(alone), 0, 5) && Blocks(Case(alone), 1, 5)
  {
    NoneIsFirm();
    assert EntryOf(BEFORE.ids, 5) == Some(TRACKED) && KeyOf(BEFORE, 5) == [Num(2)];
    assert BATCH[0] == DeleteKey(0, [Num(1)]) && BATCH[1] == Update(5);
  }

  /**
   The first operation deletes by the key the instance of the second was registered under. Statement by
   statement the call succeeds, in one message it fails.
   */
  lemma BatchingDiverges(alone: Plan, plan: Plan)
    requires alone.limit <= 1 && !alone.oneTrip && plan.limit > 1
    ensures Eligible(Case(alone)) && OffSucceeds(Case(alone))
    ensures Run(Session(), Database(), plan, BEFORE, 0, BATCH).failed
    ensures Frees(Case(alone), 0, 5) && Blocks(Case(alone), 1, 5)
  {
    SucceededAlone(alone);
    CallerWasReady(alone);
    FailsTogether(plan);
    KeyWasFreed(alone);
  }
}
