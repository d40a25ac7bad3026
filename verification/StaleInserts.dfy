/**
 A call that succeeds statement by statement and fails in messages: an insert of an instance tracked under another
 key, then the update of the instance that holds that key. Rule 1 sees no key the two share.
 */
module StaleInserts {
  import opened Values
  import opened Entities
  import opened IdentityMap
  import opened Writes
  import opened Calls
  import opened KeyRules
  import opened Strays
  import opened Rollbacks
  import opened Commuting
  import opened Refinement
  import opened RunPlans
  import opened Batching

  const USER := EntityMap(true, DatabaseGenerated, 1, 0, {}, false, false, false, false, [])

  function Session(): Env {
    Env(true, map[0 := USER], map[], map[], (_) => None, (n: nat) => n + 1, false)
  }

  /** Instance 5 is tracked under key 1 and its key field was reset to 0; instance 6, untracked, holds 1. */
  const TRACKED := Entry(5, 0, [Num(1)], 1)
  const BEFORE := Mem(
    map[5 := BLANK.(key := [Num(0)]), 6 := BLANK.(key := [Num(1)])],
    IdMap(map[5 := TRACKED], map[(0, [Num(1)]) := TRACKED], map[1 := BLANK.(key := [Num(1)])], 1),
    0, 0)

  /** The next key is 7, and every update finds its row. */
  const REPLY := Reply.Reply(Some(Num(7)), 1)

  function Database(): Server<nat> {
    Server((d, _) => (d, REPLY))
  }

  const BATCH := [Insert(5), Update(6)]
  const INSERT := Write(InsertRow(0, []), KeyReply, FinishInsert(5, true))
  const UPDATE := Write(UpdateRow(0, [Num(1)], [], None), DriverCount, FinishFullUpdate(6))

  /** Instance 5 registered anew: key 1 is free. */
  const INSERTED := BEFORE.(
    inst := BEFORE.inst[5 := BLANK.(key := [Num(7)])],
    ids := Register(BEFORE.ids, 0, 5, [Num(7)], BLANK.(key := [Num(7)])))

  lemma NoColumns()
    ensures WritableColumns(USER) == [] && InsertedColumns(USER) == []
    ensures UnsetKeyPart(USER, Num(0)) && !SetKey(USER, [Num(0)]) && SetKey(USER, [Num(1)]) && SetKey(USER, [Num(7)])
  {
    assert UnsetKeyPart(USER, [Num(0)][0]);
  }

  lemma InsertPrepares(plan: Plan)
    ensures var c := Start<nat>(BEFORE, 0);
            var recorded := Recorded(Session(), c, BATCH[0]);
            var held := recorded.(current := [Pending(INSERT, None)]);
            Step(Session(), Database(), plan, c, BATCH[0]) == if plan.limit <= 1
              then Send(Session(), Database(), plan, held) else held
  {
    var e, c := Session(), Start<nat>(BEFORE, 0);
    NoColumns();
    assert NavigationsAgree(e, BEFORE, 5, None) && MapFor(e, 5) == USER;
    assert AssignGuid(e, BEFORE, 5) == BEFORE && FillCreatedAt(e, BEFORE, 5) == Hooked(BEFORE, []);
    assert Bind(InstOf(BEFORE, 5), []) == [];
    assert Prepare(e, BEFORE, BATCH[0]) == Preparation(BEFORE, Issued(INSERT));
    assert KeyOf(BEFORE, 5) == [Num(0)] && KeyNow(e, BEFORE, BATCH[0]) == None;
    var recorded := Recorded(e, c, BATCH[0]);
    assert recorded.current + [Pending(INSERT, None)] == [Pending(INSERT, None)];
  }

  /** In one message instance 5 is still tracked under key 1 when the update prepares: it refuses. */
  lemma FailsTogether(plan: Plan)
    requires plan.limit > 1
    ensures Run(Session(), Database(), plan, BEFORE, 0, BATCH).failed
  {
    var e, srv := Session(), Database();
    var start := Start<nat>(BEFORE, 0);
    var c := Steps(e, srv, plan, start, BATCH[..1]);
    assert BATCH[..1][..0] == BATCH[..0] == [] && BATCH[..1] == BATCH[..|BATCH| - 1];
    assert Steps(e, srv, plan, start, BATCH[..0]) == start;
    InsertPrepares(plan);
    assert c == Step(e, srv, plan, start, BATCH[0]);
    assert KeyOf(BEFORE, 6) == [Num(1)] && KeyNow(e, BEFORE, Update(6)) == Some((0, [Num(1)]));
    assert forall held :: held in c.current ==> !Clashes(e, c.mem, held, Update(6));
    assert Find(BEFORE.ids, 0, [Num(1)]) == Some(TRACKED) && EntryOf(BEFORE.ids, 6) == None;
    assert Prepare(e, BEFORE, Update(6)) == Preparation(BEFORE, Refused(UOW002));
  }

  lemma SendsAlone(plan: Plan, c: Call<nat>, w: Write, key: Option<(TypeId, Key)>)
    requires !plan.oneTrip && !c.failed && c.current == [Pending(w, key)] && (w == INSERT || w == UPDATE)
    ensures var sent := Send(Session(), Database(), plan, c);
            && !sent.failed && sent.current == [] && sent.history == c.history + [Completed(c.mem, w, REPLY)]
            && sent.mem == Complete(Session(), c.mem, w, REPLY).mem
  {
    var started := c.(current := [], sent := c.sent + [Texts(c.current)]);
    var next := Apply(Session(), started, c.current, REPLY);
    assert Database().run(started.db, w.stmt) == (started.db, REPLY);
    assert SendEach(Session(), Database(), started, c.current) ==
             SendEach(Session(), Database(), next, c.current[1..]) == next;
  }

  lemma InsertCompletes()
    ensures Complete(Session(), BEFORE, INSERT, REPLY).mem == INSERTED
  {
    assert Set(InstOf(BEFORE, 5), KeyPart(0), Num(7)) == BLANK.(key := [Num(7)]);
  }

  lemma UpdateSteps(plan: Plan, c: Call<nat>)
    requires plan.limit <= 1 && !plan.oneTrip && !c.failed && c.current == [] && c.mem == INSERTED
    ensures var next := Step(Session(), Database(), plan, c, Update(6));
            !next.failed && next.current == [] && next.history == c.history + [Completed(INSERTED, UPDATE, REPLY)]
  {
    var e := Session();
    NoColumns();
    assert NavigationsAgree(e, INSERTED, 6, None) && MapFor(e, 6) == USER && KeyOf(INSERTED, 6) == [Num(1)];
    assert EntryOf(INSERTED.ids, 6) == None && Find(INSERTED.ids, 0, [Num(1)]) == None;
    assert WriteIdentity(e, INSERTED, 6) == Open(None) && Bind(InstOf(INSERTED, 6), []) == [];
    assert Prepare(e, INSERTED, Update(6)) == Preparation(INSERTED, Issued(UPDATE));
    var recorded := Recorded(e, c, Update(6));
    var joined := recorded.(current := [Pending(UPDATE, KeyNow(e, INSERTED, Update(6)))]);
    assert recorded.current + joined.current == joined.current;
    SendsAlone(plan, joined, UPDATE, KeyNow(e, INSERTED, Update(6)));
  }

  /** Statement by statement instance 5 is registered under key 7 by then. */
  lemma SucceedsAlone(plan: Plan)
    requires plan.limit <= 1 && !plan.oneTrip
    ensures var c := Run(Session(), Database(), plan, BEFORE, 0, BATCH);
            !c.failed && c.history == [Completed(BEFORE, INSERT, REPLY), Completed(INSERTED, UPDATE, REPLY)]
    ensures var c := Steps(Session(), Database(), plan, Start<nat>(BEFORE, 0), BATCH[..1]); c.mem == INSERTED
  {
    var e, srv := Session(), Database();
    var start := Start<nat>(BEFORE, 0);
    var c := Steps(e, srv, plan, start, BATCH[..1]);
    assert BATCH[..1][..0] == BATCH[..0] == [] && BATCH[..1] == BATCH[..|BATCH| - 1];
    assert Steps(e, srv, plan, start, BATCH[..0]) == start;
    InsertPrepares(plan);
    assert c == Step(e, srv, plan, start, BATCH[0]);
    SendsAlone(plan, Recorded(e, start, BATCH[0]).(current := [Pending(INSERT, None)]), INSERT, None);
    InsertCompletes();
    UpdateSteps(plan, c);
    assert Steps(e, srv, plan, start, BATCH) == Step(e, srv, plan, c, BATCH[1]);
  }

  function Case(alone: Plan): Setting<nat> {
    Setting(Session(), Database(), alone, BEFORE, 0, BATCH)
  }

  lemma KeysWereFresh()
    ensures Fresh(Session(), Completed(BEFORE, INSERT, REPLY)) && Fresh(Session(), Completed(INSERTED, UPDATE, REPLY))
  {
    NoColumns();
    assert Set(InstOf(BEFORE, 5), KeyPart(0), Num(7)).key == [Num(7)] && MapFor(Session(), 5) == USER;
    assert KeyOf(INSERTED, 6) == [Num(1)] && MapFor(Session(), 6) == USER;
  }

  lemma InsertIsStale()
    ensures Stale(BEFORE, 5) && !Stale(BEFORE, 6) && !(BATCH[0].p in Firm(BEFORE, BATCH))
    ensures forall p :: p in Firm(BEFORE, BATCH) ==> p == 6
    ensures Written(BATCH) <= {5, 6}
  {
    assert EntryOf(BEFORE.ids, 5) == Some(TRACKED) && KeyOf(BEFORE, 5) == [Num(0)];
    assert forall op :: op in BATCH ==> op == BATCH[0] || op == BATCH[1];
  }

  lemma CallWasEligible(alone: Plan)
    ensures Eligible(Case(alone)) && !CallerReady(Session(), BEFORE, BATCH)
  {
    InsertIsStale();
    assert BATCH[0] in BATCH && forall op :: op in BATCH ==> op == BATCH[0] || op == BATCH[1];
    assert MapOf(Session(), 0) == USER && MapFor(Session(), 5) == USER;
  }

  lemma KeyWasFreed(alone: Plan)
    requires alone.limit <= 1 && !alone.oneTrip
    ensures Frees(Case(alone), 0, 5) && Blocks(Case(alone), 1, 5)
  {
    var s := Case(alone);
    InsertIsStale();
    SucceedsAlone(alone);
    assert OffAt(s, 1).mem == INSERTED && EntryOf(s.start.ids, 5) == Some(TRACKED);
    assert GateKey(s.e, INSERTED, Update(6)) == [Num(1)];
    assert AsksFor(s, 1, TRACKED);
  }

  /**
   The insert frees the key the update's instance holds. Statement by statement the call succeeds, in one message
   it fails.
   */
  lemma StaleInsertDiverges(alone: Plan, plan: Plan)
    requires alone.limit <= 1 && !alone.oneTrip && plan.limit > 1
    ensures Eligible(Case(alone)) && OffSucceeds(Case(alone))
    ensures Run(Session(), Database(), plan, BEFORE, 0, BATCH).failed
    ensures Frees(Case(alone), 0, 5) && Blocks(Case(alone), 1, 5)
  {
    SucceedsAlone(alone);
    KeysWereFresh();
    CallWasEligible(alone);
    FailsTogether(plan);
    KeyWasFreed(alone);
  }
}
