/**
 A call that succeeds statement by statement and fails in messages: a delete by the zero of a generated key, then
 the delete of an untracked instance that holds that zero. Rule 1 compares no unset keys, so the two share a message.
 */
module UnsetArguments {
  import opened Values
  import opened Entities
  import opened IdentityMap
  import opened Writes
  import opened Calls
  import opened KeyRules
  import opened Strays
  import opened Rollbacks
  import opened Commuting
  import opened Refinement
  import opened RunPlans
  import opened Batching

  const USER := EntityMap(true, DatabaseGenerated, 1, 0, {}, false, false, false, false, [])

  function Session(): Env {
    Env(true, map[0 := USER], map[], map[], (_) => None, (n: nat) => n + 1, false)
  }

  /** Instance 5 is tracked under the stored key 0; instance 6 is not tracked and holds 0 too. */
  const TRACKED := Entry(5, 0, [Num(0)], 1)
  const ZERO := BLANK.(key := [Num(0)])
  const BEFORE := Mem(
    map[5 := ZERO, 6 := ZERO],
    IdMap(map[5 := TRACKED], map[(0, [Num(0)]) := TRACKED], map[1 := ZERO], 1),
    0, 0)
  const DELETED := BEFORE.(ids := Forget(BEFORE.ids, TRACKED))

  /** Every delete finds a row. */
  function Database(): Server<nat> {
    Server((d, _) => (d, Reply(None, 1)))
  }

  const BATCH := [DeleteKey(0, [Num(0)]), DeleteEntity(6)]
  const BYKEY := Write(DeleteRow(0, [Num(0)], None), DriverCount, FinishDeleteKey(0, [Num(0)]))
  const BYENTITY := Write(DeleteRow(0, [Num(0)], None), DriverCount, FinishDelete(6, None, false))

  lemma KeyIsUnset()
    ensures ValidKeyArgument(USER, [Num(0)]) && !SetKey(USER, [Num(0)])
    ensures KeyNow(Session(), BEFORE, BATCH[0]) == None
  {
    assert UnsetKeyPart(USER, [Num(0)][0]);
  }

  lemma FirstPrepares(plan: Plan)
    ensures var c := Start<nat>(BEFORE, 0);
            var held := c.(current := [Pending(BYKEY, None)]);
            Step(Session(), Database(), plan, c, BATCH[0]) == if plan.limit <= 1
              then Send(Session(), Database(), plan, held) else held
  {
    var c := Start<nat>(BEFORE, 0);
    KeyIsUnset();
    assert Prepare(Session(), BEFORE, BATCH[0]) == Preparation(BEFORE, Issued(BYKEY));
    assert c.current + [Pending(BYKEY, None)] == [Pending(BYKEY, None)];
  }

  /** In one message the key is still tracked when the second delete prepares: it refuses. */
  lemma FailsTogether(plan: Plan)
    requires plan.limit > 1
    ensures Run(Session(), Database(), plan, BEFORE, 0, BATCH).failed
  {
    var e, srv := Session(), Database();
    var start := Start<nat>(BEFORE, 0);
    var c := Steps(e, srv, plan, start, BATCH[..1]);
    assert BATCH[..1][..0] == BATCH[..0] == [] && BATCH[..1] == BATCH[..|BATCH| - 1];
    assert Steps(e, srv, plan, start, BATCH[..0]) == start;
    FirstPrepares(plan);
    assert c == Step(e, srv, plan, start, BATCH[0]);
    KeyIsUnset();
    assert KeyOf(BEFORE, 6) == [Num(0)] && KeyNow(e, BEFORE, DeleteEntity(6)) == None;
    assert forall held :: held in c.current ==> !Clashes(e, c.mem, held, DeleteEntity(6));
    assert Find(BEFORE.ids, 0, [Num(0)]) == Some(TRACKED) && EntryOf(BEFORE.ids, 6) == None;
    assert Prepare(e, BEFORE, DeleteEntity(6)) == Preparation(BEFORE, Refused(UOW002));
  }

  lemma SendsAlone(plan: Plan, c: Call<nat>, w: Write, key: Option<(TypeId, Key)>)
    requires !plan.oneTrip && !c.failed && c.current == [Pending(w, key)] && w.finish in {BYKEY.finish, BYENTITY.finish}
    requires w == BYKEY || w == BYENTITY
    ensures var sent := Send(Session(), Database(), plan, c);
            && !sent.failed && sent.current == [] && sent.history == c.history + [Completed(c.mem, w, Reply(None, 1))]
            && sent.mem == Complete(Session(), c.mem, w, Reply(None, 1)).mem
  {
    var started := c.(current := [], sent := c.sent + [Texts(c.current)]);
    var next := Apply(Session(), started, c.current, Reply(None, 1));
    assert Database().run(started.db, w.stmt) == (started.db, Reply(None, 1));
    assert SendEach(Session(), Database(), started, c.current) ==
             SendEach(Session(), Database(), next, c.current[1..]) == next;
  }

  lemma SecondSteps(plan: Plan, c: Call<nat>)
    requires plan.limit <= 1 && !plan.oneTrip && !c.failed && c.current == [] && c.mem == DELETED
    ensures var next := Step(Session(), Database(), plan, c, DeleteEntity(6));
            !next.failed && next.current == [] &&
            next.history == c.history + [Completed(DELETED, BYENTITY, Reply(None, 1))]
  {
    var e := Session();
    assert EntryOf(DELETED.ids, 6) == None && Find(DELETED.ids, 0, [Num(0)]) == None && KeyOf(DELETED, 6) == [Num(0)];
    assert Prepare(e, DELETED, DeleteEntity(6)) == Preparation(DELETED, Issued(BYENTITY));
    var recorded := Recorded(e, c, DeleteEntity(6));
    var joined := recorded.(current := [Pending(BYENTITY, KeyNow(e, DELETED, DeleteEntity(6)))]);
    assert recorded.current + joined.current == joined.current;
    SendsAlone(plan, joined, BYENTITY, KeyNow(e, DELETED, DeleteEntity(6)));
  }

  /** Statement by statement the first delete has forgotten the tracked instance by then. */
  lemma SucceedsAlone(plan: Plan)
    requires plan.limit <= 1 && !plan.oneTrip
    ensures var c := Run(Session(), Database(), plan, BEFORE, 0, BATCH);
            !c.failed &&
            c.history == [Completed(BEFORE, BYKEY, Reply(None, 1)), Completed(DELETED, BYENTITY, Reply(None, 1))]
    ensures Steps(Session(), Database(), plan, Start<nat>(BEFORE, 0), BATCH[..1]).mem == DELETED
  {
    var e, srv := Session(), Database();
    var start := Start<nat>(BEFORE, 0);
    var c := Steps(e, srv, plan, start, BATCH[..1]);
    assert BATCH[..1][..0] == BATCH[..0] == [] && BATCH[..1] == BATCH[..|BATCH| - 1];
    assert Steps(e, srv, plan, start, BATCH[..0]) == start;
    FirstPrepares(plan);
    SendsAlone(plan, start.(current := [Pending(BYKEY, None)]), BYKEY, None);
    assert Find(BEFORE.ids, 0, [Num(0)]) == Some(TRACKED);
    SecondSteps(plan, c);
    assert Steps(e, srv, plan, start, BATCH) == Step(e, srv, plan, c, BATCH[1]);
  }

  function Case(alone: Plan): Setting<nat> {
    Setting(Session(), Database(), alone, BEFORE, 0, BATCH)
  }

  lemma SucceededAlone(alone: Plan)
    requires alone.limit <= 1 && !alone.oneTrip
    ensures OffSucceeds(Case(alone))
  {
    SucceedsAlone(alone);
  }

  lemma CallerWasReady(alone: Plan)
    ensures Eligible(Case(alone)) && CallerReady(Session(), BEFORE, BATCH) && 5 !in Written(BATCH)
  {
    assert forall op :: op in BATCH ==> op == BATCH[0] || op == BATCH[1];
    assert forall p :: p in Written(BATCH) ==> p == 6;
  }

  lemma KeyWasFreed(alone: Plan)
    requires alone.limit <= 1 && !alone.oneTrip
    ensures Frees(Case(alone), 0, 5) && Blocks(Case(alone), 1, 5)
  {
    var s := Case(alone);
    CallerWasReady(alone);
    SucceedsAlone(alone);
    assert OffAt(s, 1).mem == DELETED && EntryOf(s.start.ids, 5) == Some(TRACKED);
    assert GateKey(s.e, DELETED, DeleteEntity(6)) == [Num(0)];
    assert AsksFor(s, 1, TRACKED);
  }

  /** The first delete frees the key the second one's instance holds; no plan of larger messages agrees. */
  lemma UnsetArgumentDiverges(alone: Plan, plan: Plan)
    requires alone.limit <= 1 && !alone.oneTrip && plan.limit > 1
    ensures Eligible(Case(alone)) && OffSucceeds(Case(alone))
    ensures Run(Session(), Database(), plan, BEFORE, 0, BATCH).failed
    ensures !SetKey(USER, BATCH[0].key) && Frees(Case(alone), 0, 5) && Blocks(Case(alone), 1, 5)
  {
    CallerWasReady(alone);
    SucceededAlone(alone);
    FailsTogether(plan);
    KeyIsUnset();
    KeyWasFreed(alone);
  }
}
