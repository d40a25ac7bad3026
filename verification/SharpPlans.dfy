/**
 The C# planner beside the Go one. It keeps a delete's key even when it is unset, and compares it; and it
 sends a full message when the next operation comes.
 */
module SharpPlans {
  import opened Values
  import opened Entities
  import opened IdentityMap
  import opened Writes
  import opened Calls
  import opened KeyRules
  import opened Rollbacks
  import opened Commuting
  import opened Refinement
  import opened RunPlans
  import opened Batching
  import Messages

  /** A delete by key is compared by its argument as given, anything else by its key if that is set. */
  function SharpKeyNow(e: Env, mem: Mem, op: Op): Option<(TypeId, Key)> {
    match op
    case DeleteKey(t, key) => if ValidKeyArgument(MapOf(e, t), key) then Some((t, key)) else None
    case _ => KeyNow(e, mem, op)
  }

  /**
   A delete that removes the row holds its key whatever it is, as every delete by key does; any other its
   instance's key if that is set.
   */
  ghost function SharpHeldKey<D>(s: Setting<D>, i: nat): Option<(TypeId, Key)>
    requires Issues(s, i)
  {
    match HeldAt(s, i).write.finish
    case FinishDeleteKey(t, key) => Some((t, key))
    case FinishDelete(p, _, false) => Some((TypeOf(s.e, p), KeyOf(PreparedAlone(s, i).mem, p)))
    case _ => HeldAt(s, i).key
  }

  ghost predicate SharpDependsAt<D>(s: Setting<D>, i: nat, j: nat) {
    Issues(s, i) && j < |s.ops| && (
      var op, w := s.ops[j], HeldAt(s, i).write;
      || (OpInstance(op).Some? && OpInstance(op) == Instance(w))
      || (GeneratesKey(w) && DependsOn(s.e, op, w.finish.p))
      || (SharpKeyNow(s.e, OffAt(s, j).mem, op).Some? && SharpKeyNow(s.e, OffAt(s, j).mem, op) == SharpHeldKey(s, i)))
  }

  ghost function SharpFactsOf<D>(s: Setting<D>, plan: Plan): Messages.Facts {
    FactsOf(s, plan).(depends := (i: nat, j: nat) => SharpDependsAt(s, i, j))
  }

  /** Operation j deletes by an unset key, and the statement of operation i deletes by that same key. */
  ghost predicate SameUnsetDelete<D>(s: Setting<D>, i: nat, j: nat) {
    && Issues(s, i) && j < |s.ops| && s.ops[j].DeleteKey?
    && ValidKeyArgument(MapOf(s.e, s.ops[j].t), s.ops[j].key) && !SetKey(MapOf(s.e, s.ops[j].t), s.ops[j].key)
    && SharpHeldKey(s, i) == Some((s.ops[j].t, s.ops[j].key))
  }

  /** A key the Go planner holds, the C# planner holds too. */
  lemma HeldKeysAgree<D>(s: Setting<D>, i: nat)
    requires Issues(s, i) && HeldAt(s, i).key.Some?
    ensures SharpHeldKey(s, i) == HeldAt(s, i).key
  {
    HeldIsOf(s, i);
    IssuedFinish(s.e, Flow(s.e, OffAt(s, i).mem, s.ops[i]), s.ops[i]);
  }

  /** Both hold the same key when it is set. */
  lemma SetHeldKeysAgree<D>(s: Setting<D>, i: nat, t: TypeId, key: Key)
    requires Issues(s, i) && SharpHeldKey(s, i) == Some((t, key)) && SetKey(MapOf(s.e, t), key)
    ensures HeldAt(s, i).key == Some((t, key))
  {
    HeldIsOf(s, i);
    IssuedFinish(s.e, Flow(s.e, OffAt(s, i).mem, s.ops[i]), s.ops[i]);
  }

  /** What the C# planner sees is what the Go planner sees, and the second of two deletes by one unset key. */
  lemma SharpDependsIff<D>(s: Setting<D>, i: nat, j: nat)
    ensures SharpDependsAt(s, i, j) <==> DependsAt(s, i, j) || SameUnsetDelete(s, i, j)
  {
    if Issues(s, i) && j < |s.ops| {
      var op, off := s.ops[j], OffAt(s, j).mem;
      if KeyNow(s.e, off, op).Some? {
        assert SharpKeyNow(s.e, off, op) == KeyNow(s.e, off, op);
        if HeldAt(s, i).key == KeyNow(s.e, off, op) {
          HeldKeysAgree(s, i);
        }
        if SharpHeldKey(s, i) == KeyNow(s.e, off, op) {
          SetHeldKeysAgree(s, i, KeyNow(s.e, off, op).value.0, KeyNow(s.e, off, op).value.1);
        }
      }
    }
  }

  lemma SharpExtends<D>(s: Setting<D>, plan: Plan)
    requires OffSucceeds(s)
    ensures Messages.Extends(FactsOf(s, plan), SharpFactsOf(s, plan))
  {
    forall i: nat, j: nat
      ensures DependsAt(s, i, j) ==> SharpDependsAt(s, i, j)
      ensures SharpDependsAt(s, i, j) && !DependsAt(s, i, j) ==> Issues(s, j)
    {
      SharpDependsIff(s, i, j);
      if SameUnsetDelete(s, i, j) {
        DeleteIssues(s, j);
      }
    }
  }

  lemma DeleteIssues<D>(s: Setting<D>, j: nat)
    requires OffSucceeds(s) && j < |s.ops| && s.ops[j].DeleteKey?
    ensures Issues(s, j)
  {
    OffStepsOn(s, j);
    OffSurvives(s, j);
    OffIsDrained(s, j);
    AloneStep(s.e, s.srv, s.alone, OffAt(s, j), s.ops[j]);
    assert !PreparedAlone(s, j).issue.Nothing?;
  }

  lemma OffDrains<D>(s: Setting<D>, j: nat)
    requires OffStepped(s, j) && !OffAt(s, j).failed && OffAt(s, j).current == []
    ensures OffAt(s, j + 1).current == []
  {
    AloneStep(s.e, s.srv, s.alone, OffAt(s, j), s.ops[j]);
  }

  lemma {:induction false} OffIsDrained<D>(s: Setting<D>, n: nat)
    requires OffSucceeds(s) && n <= |s.ops|
    ensures OffAt(s, n).current == []
    decreases n
  {
    if n == 0 {
      OffStarts(s);
    } else {
      OffIsDrained(s, n - 1);
      OffStepsOn(s, n - 1);
      OffSurvives(s, n - 1);
      OffDrains(s, n - 1);
    }
  }

  /** No message holds two deletes by one unset key. */
  ghost predicate NoSameUnsetDeletes<D>(s: Setting<D>, messages: seq<seq<nat>>) {
    forall m :: m in messages ==> NoneIn(s, m)
  }

  ghost predicate NoneIn<D>(s: Setting<D>, m: seq<nat>) {
    forall a, b :: 0 <= a < b < |m| ==> !SameUnsetDelete(s, m[a], m[b])
  }

  /**
   The two planners form the same messages of a call exactly when none of the Go planner's messages holds
   two deletes by one unset key.
   */
  lemma PlannersFormSameIff<D>(s: Setting<D>, plan: Plan)
    requires OffSucceeds(s) && plan.limit >= 1
    ensures Messages.EagerMessages(FactsOf(s, plan), |s.ops|) ==
              Messages.LazyMessages(SharpFactsOf(s, plan), |s.ops|) <==>
            NoSameUnsetDeletes(s, Messages.EagerMessages(FactsOf(s, plan), |s.ops|))
  {
    var f, g, messages := FactsOf(s, plan), SharpFactsOf(s, plan), Messages.EagerMessages(FactsOf(s, plan), |s.ops|);
    SharpExtends(s, plan);
    Messages.PlannersAgreeIff(f, g, |s.ops|);
    Messages.MessagesConserveAndSeparate(f, |s.ops|);
    forall m | m in messages
      ensures Messages.PartedIn(g, m) <==> NoneIn(s, m)
    {
      assert Messages.Legal(f, m);
      forall a, b | 0 <= a < b < |m|
        ensures g.depends(m[a], m[b]) <==> SameUnsetDelete(s, m[a], m[b])
      {
        assert !f.depends(m[a], m[b]);
        SharpDependsIff(s, m[a], m[b]);
      }
    }
  }

  /** Without two such deletes in a message, the C# planner forms the very messages the Go call sends. */
  lemma SharpFormsWhatIsSent<D>(s: Setting<D>, plan: Plan)
    requires OffSucceeds(s) && Eligible(s) && AllInTime(s, plan, |s.ops|) && plan.limit >= 1
    requires NoSameUnsetDeletes(s, Messages.EagerMessages(FactsOf(s, plan), |s.ops|))
    ensures Run(s.e, s.srv, plan, s.start, s.db, s.ops).sent ==
              SentTexts(s, Messages.LazyMessages(SharpFactsOf(s, plan), |s.ops|))
  {
    PlannersFormSameIff(s, plan);
    BatchingRefinesIff(s, plan);
  }

  // --- where they differ ----------------------------------------------------------------------------------

  const USER := EntityMap(true, DatabaseGenerated, 1, 0, {}, false, false, false, false, [])
  const BATCH := [DeleteKey(0, [Num(0)]), DeleteKey(0, [Num(0)])]

  /** Two deletes by the key 0 of a type whose keys the database generates. */
  function TwoDeletes<D>(srv: Server<D>, alone: Plan, start: Mem, db: D): Setting<D> {
    Setting(Env(true, map[0 := USER], map[], map[], (_) => None, (n: nat) => n + 1, false), srv, alone, start, db,
            BATCH)
  }

  lemma BothIssue<D>(s: Setting<D>, i: nat)
    requires i < 2 && s == TwoDeletes(s.srv, s.alone, s.start, s.db)
    ensures Issues(s, i) && HeldAt(s, i).key == None && SharpHeldKey(s, i) == Some((0, [Num(0)]))
    ensures HeldAt(s, i).write == Write(DeleteRow(0, [Num(0)], None), DriverCount, FinishDeleteKey(0, [Num(0)]))
  {
    assert UnsetKeyPart(USER, [Num(0)][0]) && ValidKeyArgument(USER, [Num(0)]);
    assert s.ops[i] == DeleteKey(0, [Num(0)]) && MapOf(s.e, 0) == USER;
  }

  lemma OnlySharpSees<D>(s: Setting<D>)
    requires s == TwoDeletes(s.srv, s.alone, s.start, s.db)
    ensures !DependsAt(s, 0, 1) && SharpDependsAt(s, 0, 1)
  {
    BothIssue(s, 0);
    BothIssue(s, 1);
    assert UnsetKeyPart(USER, [Num(0)][0]) && ValidKeyArgument(USER, [Num(0)]);
    assert s.ops[1] == DeleteKey(0, [Num(0)]) && MapOf(s.e, 0) == USER;
    assert KeyNow(s.e, OffAt(s, 1).mem, s.ops[1]) == None;
  }

  function AnyRow(): Server<nat> {
    Server((d, _) => (d, Reply(None, 1)))
  }

  const DELETE := DeleteRow(0, [Num(0)], None)
  const WAITING := Pending(Write(DELETE, DriverCount, FinishDeleteKey(0, [Num(0)])), None)

  lemma DeleteJoins(plan: Plan, start: Mem, current: seq<Pending>)
    requires plan.limit > 2 && plan.parameterCap == 0 && (current == [] || current == [WAITING])
    ensures var s := TwoDeletes(AnyRow(), plan, start, 0);
            Step(s.e, s.srv, plan, Start<nat>(start, 0).(current := current), DeleteKey(0, [Num(0)])) ==
            Start<nat>(start, 0).(current := current + [WAITING])
  {
    var s := TwoDeletes(AnyRow(), plan, start, 0);
    var op := DeleteKey(0, [Num(0)]);
    assert UnsetKeyPart(USER, [Num(0)][0]) && ValidKeyArgument(USER, [Num(0)]) && MapOf(s.e, 0) == USER;
    assert KeyNow(s.e, start, op) == None;
    assert forall held :: held in current ==> !Clashes(s.e, start, held, op);
    assert Prepare(s.e, start, op) == Preparation(start, Issued(WAITING.write));
    assert !Splits(plan, current, WAITING.write);
  }

  /** So the Go call sends one message of two. */
  lemma GoSendsTogether(plan: Plan, start: Mem)
    requires plan.limit > 2 && plan.parameterCap == 0
    ensures var s := TwoDeletes(AnyRow(), plan, start, 0);
            Run(s.e, s.srv, plan, start, 0, BATCH).sent == [[DELETE, DELETE]]
  {
    var s := TwoDeletes(AnyRow(), plan, start, 0);
    var c := Start<nat>(start, 0);
    assert BATCH[..1][..0] == [] && BATCH[..1] == BATCH[..|BATCH| - 1];
    assert Steps(s.e, s.srv, plan, c, BATCH[..0]) == c;
    DeleteJoins(plan, start, []);
    assert [] + [WAITING] == [WAITING] && [WAITING] + [WAITING] == [WAITING, WAITING];
    assert Steps(s.e, s.srv, plan, c, BATCH[..1]) == c.(current := [WAITING]);
    DeleteJoins(plan, start, [WAITING]);
    SendCloses(s.e, s.srv, plan, c.(current := [WAITING, WAITING]));
    assert Texts([WAITING, WAITING]) == [DELETE, DELETE] && [] + [[DELETE, DELETE]] == [[DELETE, DELETE]];
  }

  /** The Go planner sends them together, the C# planner one by one. */
  lemma PlannersDiffer<D>(srv: Server<D>, alone: Plan, start: Mem, db: D, plan: Plan)
    requires plan.limit > 2 && plan.parameterCap == 0
    ensures var s := TwoDeletes(srv, alone, start, db);
            && Messages.EagerMessages(FactsOf(s, plan), 2) == [[0, 1]]
            && Messages.LazyMessages(SharpFactsOf(s, plan), 2) == [[0], [1]]
  {
    var s := TwoDeletes(srv, alone, start, db);
    var f, g := FactsOf(s, plan), SharpFactsOf(s, plan);
    BothIssue(s, 0);
    BothIssue(s, 1);
    OnlySharpSees(s);
    assert [] + [0] == [0] && [0] + [1] == [0, 1] && [] + [1] == [1];
    GoJoins(f);
    SharpCuts(g);
  }

  lemma GoJoins(f: Messages.Facts)
    requires f.limit > 2 && f.parameterCap == 0 && f.issues(0) && f.issues(1) && !f.depends(0, 1) && !f.command(0) &&
             !f.readsResult(1)
    ensures Messages.EagerMessages(f, 2) == [[0, 1]]
  {
    assert [] + [0] == [0] && [0] + [1] == [0, 1];
    assert Messages.Eager(f, 0) == Messages.Plan([], []);
    assert Messages.Eager(f, 1) == Messages.Plan([], [0]);
    assert !Messages.DependsOnMessage(f, [0], 1) && !Messages.OverflowsOrReads(f, [0], 1);
    assert Messages.Eager(f, 2) == Messages.Plan([], [0, 1]);
    assert [] + [[0, 1]] == [[0, 1]];
  }

  lemma SharpCuts(g: Messages.Facts)
    requires g.limit > 2 && g.parameterCap == 0 && g.issues(0) && g.issues(1) && g.depends(0, 1)
    ensures Messages.LazyMessages(g, 2) == [[0], [1]]
  {
    assert [] + [0] == [0] && [] + [1] == [1];
    assert Messages.Lazy(g, 0) == Messages.Plan([], []);
    assert Messages.Lazy(g, 1) == Messages.Plan([], [0]);
    assert 0 in [0] && Messages.DependsOnMessage(g, [0], 1);
    assert [] + [[0]] == [[0]];
    assert Messages.Lazy(g, 2) == Messages.Plan([[0]], [1]);
  }
}
