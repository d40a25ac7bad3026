/**
 Why a written instance is asked to be tracked under a set key: a delete by the zero of a GUID key, then the insert
 of the instance tracked under that zero. Rule 1 compares no unset keys, so the two share a message.
 */
module UnsetKeys {
  import opened Values
  import opened Entities
  import opened IdentityMap
  import opened Writes
  import opened Calls
  import opened KeyRules
  import opened Strays
  import opened Rollbacks
  import opened Commuting
  import opened Refinement
  import opened RunPlans
  import opened Batching

  const USER := EntityMap(true, ClientGuid, 1, 0, {}, false, false, false, false, [])

  function Session(): Env {
    Env(true, map[0 := USER], map[], map[], (_) => None, (n: nat) => n + 1, false)
  }

  /** Instance 5 is tracked under the zero GUID, which it holds. */
  const TRACKED := Entry(5, 0, [Guid(0)], 1)
  const ZERO := BLANK.(key := [Guid(0)])
  const BEFORE := Mem(
    map[5 := ZERO],
    IdMap(map[5 := TRACKED], map[(0, [Guid(0)]) := TRACKED], map[1 := ZERO], 1),
    0, 0)

  const DELETED := BEFORE.(ids := Forget(BEFORE.ids, TRACKED))

  /** The instance under its new key. */
  const KEYED := DELETED.(inst := map[5 := BLANK.(key := [Guid(1)])], guids := 1)

  const REPLY := Reply.Reply(None, 1)

  /** Every statement finds its row. */
  function Database(): Server<nat> {
    Server((d, _) => (d, REPLY))
  }

  const BATCH := [DeleteKey(0, [Guid(0)]), Insert(5)]
  const DELETE := Write(DeleteRow(0, [Guid(0)], None), DriverCount, FinishDeleteKey(0, [Guid(0)]))
  const INSERT := Write(InsertRow(0, [(KeyPart(0), Guid(1))]), NoReply, FinishInsert(5, false))

  lemma KeyIsUnset()
    ensures ValidKeyArgument(USER, [Guid(0)]) && !SetKey(USER, [Guid(0)]) && SetKey(USER, [Guid(1)])
    ensures KeyNow(Session(), BEFORE, BATCH[0]) == None && KeyNow(Session(), BEFORE, BATCH[1]) == None
  {
    assert UnsetKeyPart(USER, [Guid(0)][0]);
    assert KeyOf(BEFORE, 5) == [Guid(0)] && MapFor(Session(), 5) == USER;
  }

  lemma DeletePrepares(plan: Plan)
    ensures var c := Start<nat>(BEFORE, 0);
            var held := c.(current := [Pending(DELETE, None)]);
            Step(Session(), Database(), plan, c, BATCH[0]) == if plan.limit <= 1
              then Send(Session(), Database(), plan, held) else held
  {
    var c := Start<nat>(BEFORE, 0);
    KeyIsUnset();
    assert Prepare(Session(), BEFORE, BATCH[0]) == Preparation(BEFORE, Issued(DELETE));
    assert c.current + [Pending(DELETE, None)] == [Pending(DELETE, None)];
  }

  /** The insert gives the instance a key: another than the one it is still tracked under. */
  lemma InsertRefuses()
    ensures Prepare(Session(), BEFORE, Insert(5)).issue == Refused(UOW002)
  {
    var e := Session();
    assert InstOf(BEFORE, 5) == ZERO && MapFor(e, 5) == USER && NavigationsAgree(e, BEFORE, 5, None);
    var keyed := AssignGuid(e, BEFORE, 5);
    assert Set(ZERO, KeyPart(0), Guid(1)) == BLANK.(key := [Guid(1)]);
    assert KeyOf(keyed, 5) == [Guid(1)] && EntryOf(keyed.ids, 5) == Some(TRACKED);
  }

  lemma FailsTogether(plan: Plan)
    requires plan.limit > 1
    ensures Run(Session(), Database(), plan, BEFORE, 0, BATCH).failed
  {
    var e, srv := Session(), Database();
    var start := Start<nat>(BEFORE, 0);
    var c := Steps(e, srv, plan, start, BATCH[..1]);
    assert BATCH[..1][..0] == BATCH[..0] == [] && BATCH[..1] == BATCH[..|BATCH| - 1];
    assert Steps(e, srv, plan, start, BATCH[..0]) == start;
    DeletePrepares(plan);
    assert c == Step(e, srv, plan, start, BATCH[0]);
    KeyIsUnset();
    assert forall held :: held in c.current ==> !Clashes(e, c.mem, held, Insert(5));
    InsertRefuses();
  }

  lemma SendsAlone(plan: Plan, c: Call<nat>, w: Write, key: Option<(TypeId, Key)>)
    requires !plan.oneTrip && !c.failed && c.current == [Pending(w, key)] && (w == DELETE || w == INSERT)
    ensures var sent := Send(Session(), Database(), plan, c);
            && !sent.failed && sent.current == [] && sent.history == c.history + [Completed(c.mem, w, REPLY)]
            && sent.mem == Complete(Session(), c.mem, w, REPLY).mem
  {
    var started := c.(current := [], sent := c.sent + [Texts(c.current)]);
    var next := Apply(Session(), started, c.current, REPLY);
    assert Database().run(started.db, w.stmt) == (started.db, REPLY);
    assert SendEach(Session(), Database(), started, c.current) ==
             SendEach(Session(), Database(), next, c.current[1..]) == next;
  }

  lemma InsertPrepares()
    ensures Prepare(Session(), DELETED, Insert(5)) == Preparation(KEYED, Issued(INSERT))
  {
    var e := Session();
    assert InstOf(DELETED, 5) == ZERO && MapFor(e, 5) == USER && NavigationsAgree(e, DELETED, 5, None);
    assert Set(ZERO, KeyPart(0), Guid(1)) == BLANK.(key := [Guid(1)]);
    assert AssignGuid(e, DELETED, 5) == KEYED;
    assert EntryOf(KEYED.ids, 5) == None && Find(KEYED.ids, 0, [Guid(1)]) == None;
    assert WritableColumns(USER) == [] && KeyParts(1) == [KeyPart(0)] && InsertedColumns(USER) == [KeyPart(0)];
    assert Bind(InstOf(KEYED, 5), [KeyPart(0)]) == [(KeyPart(0), Guid(1))];
    assert FillCreatedAt(e, KEYED, 5) == Hooked(KEYED, []);
  }

  function InsertHeld(c: Call<nat>): Call<nat> {
    Recorded(Session(), c, Insert(5)).(mem := KEYED, current := [Pending(INSERT, KeyNow(Session(), KEYED, Insert(5)))])
  }

  lemma InsertAdds(plan: Plan, c: Call<nat>)
    requires plan.limit <= 1 && !c.failed && c.current == []
    ensures Calls.Add(Session(), Database(), plan, c, INSERT, Insert(5)) ==
            Send(Session(), Database(), plan, c.(current := [Pending(INSERT, KeyNow(Session(), c.mem, Insert(5)))]))
  {
    var v := Pending(INSERT, KeyNow(Session(), c.mem, Insert(5)));
    assert c.current + [v] == [v];
  }

  lemma InsertProceeds(plan: Plan, c: Call<nat>)
    requires plan.limit <= 1 && !c.failed && c.current == [] && c.mem == DELETED
    ensures Step(Session(), Database(), plan, c, Insert(5)) == Send(Session(), Database(), plan, InsertHeld(c))
  {
    InsertPrepares();
    assert Before(Session(), Database(), plan, c, Insert(5)) == c && Flow(Session(), c.mem, Insert(5)) == c.mem;
    InsertAdds(plan, Recorded(Session(), c, Insert(5)).(mem := KEYED));
  }

  lemma InsertSteps(plan: Plan, c: Call<nat>)
    requires plan.limit <= 1 && !plan.oneTrip && !c.failed && c.current == [] && c.mem == DELETED
    ensures var next := Step(Session(), Database(), plan, c, Insert(5));
            !next.failed && next.current == [] && next.history == c.history + [Completed(KEYED, INSERT, REPLY)]
  {
    InsertProceeds(plan, c);
    SendsAlone(plan, InsertHeld(c), INSERT, KeyNow(Session(), KEYED, Insert(5)));
  }

  /** Statement by statement the delete has forgotten the instance by then. */
  lemma SucceedsAlone(plan: Plan)
    requires plan.limit <= 1 && !plan.oneTrip
    ensures var c := Run(Session(), Database(), plan, BEFORE, 0, BATCH);
            !c.failed && c.history == [Completed(BEFORE, DELETE, REPLY), Completed(KEYED, INSERT, REPLY)]
  {
    var e, srv := Session(), Database();
    var start := Start<nat>(BEFORE, 0);
    var c := Steps(e, srv, plan, start, BATCH[..1]);
    assert BATCH[..1][..0] == BATCH[..0] == [] && BATCH[..1] == BATCH[..|BATCH| - 1];
    assert Steps(e, srv, plan, start, BATCH[..0]) == start;
    DeletePrepares(plan);
    SendsAlone(plan, start.(current := [Pending(DELETE, None)]), DELETE, None);
    assert Find(BEFORE.ids, 0, [Guid(0)]) == Some(TRACKED);
    InsertSteps(plan, c);
    assert Steps(e, srv, plan, start, BATCH) == Step(e, srv, plan, c, BATCH[1]);
  }

  function Case(alone: Plan): Setting<nat> {
    Setting(Session(), Database(), alone, BEFORE, 0, BATCH)
  }

  lemma KeysWereFresh()
    ensures Fresh(Session(), Completed(BEFORE, DELETE, REPLY)) && Fresh(Session(), Completed(KEYED, INSERT, REPLY))
  {
    KeyIsUnset();
    assert KeyOf(KEYED, 5) == [Guid(1)] && MapFor(Session(), 5) == USER;
  }

  lemma SucceededAlone(alone: Plan)
    requires alone.limit <= 1 && !alone.oneTrip
    ensures OffSucceeds(Case(alone))
  {
    SucceedsAlone(alone);
    KeysWereFresh();
  }

  lemma SessionWasInOrder()
    ensures Consistent(BEFORE.ids) && Numbered(BEFORE.ids) && FlushShaped(BATCH)
  {
  }

  /** Nothing stands in the way as an edited key or another's key would: the instance holds its registered key. */
  lemma NothingWasFreed(alone: Plan)
    ensures !Stale(BEFORE, 5) && NothingFreed(Case(alone)) && Written(BATCH) == {5}
  {
    assert BATCH[1] in BATCH && forall op :: op in BATCH ==> op == BATCH[0] || op == BATCH[1];
    assert EntryOf(BEFORE.ids, 5) == Some(TRACKED) && KeyOf(BEFORE, 5) == [Guid(0)];
    assert forall p :: !Alien(Case(alone), p);
  }

  /** All that the refinement asks of a call but that its instance's registered key be set. */
  lemma UnsetKeyDiverges(alone: Plan, plan: Plan)
    requires alone.limit <= 1 && !alone.oneTrip && plan.limit > 1
    ensures Consistent(BEFORE.ids) && Numbered(BEFORE.ids) && FlushShaped(BATCH) && Written(BATCH) <= BEFORE.inst.Keys
    ensures OffSucceeds(Case(alone)) && NothingFreed(Case(alone))
    ensures !Stale(BEFORE, 5) && !SetKey(USER, KeyOf(BEFORE, 5))
    ensures Run(Session(), Database(), plan, BEFORE, 0, BATCH).failed
  {
    SessionWasInOrder();
    SucceededAlone(alone);
    KeyIsUnset();
    NothingWasFreed(alone);
    FailsTogether(plan);
  }
}
