/**
 Batching refines no batching: exactly which calls, under exactly which plans, and with exactly which
 messages.
 */
module Batching {
  import opened Values
  import opened Entities
  import opened IdentityMap
  import opened Writes
  import opened Calls
  import opened Frames
  import opened Restoring
  import opened KeyRules
  import opened Strays
  import opened Rollbacks
  import opened Commuting
  import opened Refinement
  import opened Freeing
  import opened RunPlans
  import Arrivals
  import Messages

  // --- entries in the way and what frees them ------------------------------------------------------------

  /** An entry the call finds that is none of a settled instance it writes: the key was edited, or it writes none. */
  ghost predicate Alien<D>(s: Setting<D>, p: Ptr) {
    EntryOf(s.start.ids, p).Some? && (p in Written(s.ops) ==> Stale(s.start, p))
  }

  /** Operation i deletes by the entry's key, or inserts its instance anew under a key the database generates. */
  ghost predicate Frees<D>(s: Setting<D>, i: nat, p: Ptr) {
    && i < |s.ops| && EntryOf(s.start.ids, p).Some?
    && ((s.ops[i].DeleteKey? && IdOf(EntryOf(s.start.ids, p).value) == (s.ops[i].t, s.ops[i].key)) ||
        (InsertsInstance(s.ops[i]) && s.ops[i].p == p && !Gated(s.e, s.ops[i])))
  }

  ghost predicate FreedIn<D>(s: Setting<D>, message: seq<nat>, p: Ptr) {
    exists i :: i in message && Frees(s, i, p)
  }

  ghost predicate FreedBy<D>(s: Setting<D>, closed: seq<seq<nat>>, p: Ptr) {
    exists message :: message in closed && FreedIn(s, message, p)
  }

  /**
   An alien entry stands as the call found it until a message that frees it is sent; any other instance is
   settled or vacant.
   */
  ghost predicate StrayAt<D>(s: Setting<D>, closed: seq<seq<nat>>, settled: set<Ptr>, mem: Mem, ws: seq<Pending>,
      p: Ptr) {
    if Alien(s, p) && !FreedBy(s, closed, p) then Stands(s.e, mem, ws, EntryOf(s.start.ids, p).value, KeyOf(s.start, p))
    else p in settled || Vacant(s.e, mem, ws, p)
  }

  ghost predicate Strayed<D>(s: Setting<D>, closed: seq<seq<nat>>, settled: set<Ptr>, mem: Mem, ws: seq<Pending>) {
    Consistent(s.start.ids) && settled <= Written(s.ops) && forall p :: StrayAt(s, closed, settled, mem, ws, p)
  }

  lemma HeldFrees<D>(s: Setting<D>, i: nat, p: Ptr)
    requires Issues(s, i) && EntryOf(s.start.ids, p).Some? && Consistent(s.start.ids)
    ensures FreesEntry(HeldAt(s, i).write, EntryOf(s.start.ids, p).value) <==> Frees(s, i, p)
  {
    IssuedFinish(s.e, Flow(s.e, OffAt(s, i).mem, s.ops[i]), s.ops[i]);
    PrepareOnly(s.e, Flow(s.e, OffAt(s, i).mem, s.ops[i]), s.ops[i]);
    InsertFinishes(s.e, Flow(s.e, OffAt(s, i).mem, s.ops[i]), s.ops[i]);
  }

  /** Only an insert issues an insert. */
  lemma InsertFinishes(e: Env, mem: Mem, op: Op)
    requires Prepare(e, mem, op).issue.Issued?
    ensures Prepare(e, mem, op).issue.write.finish.FinishInsert? ==> InsertsInstance(op)
  {
  }

  lemma SomeFreesAlike<D>(s: Setting<D>, message: seq<nat>, p: Ptr)
    requires AllIssue(s, message) && EntryOf(s.start.ids, p).Some? && Consistent(s.start.ids)
    ensures SomeFrees(HeldSeq(s, message), EntryOf(s.start.ids, p).value) <==> FreedIn(s, message, p)
  {
    var x, held := EntryOf(s.start.ids, p).value, HeldSeq(s, message);
    if SomeFrees(held, x) {
      var w :| w in held && FreesEntry(w.write, x);
      var k :| 0 <= k < |held| && held[k] == w;
      assert message[k] in message;
      HeldFrees(s, message[k], p);
    }
    if FreedIn(s, message, p) {
      var i :| i in message && Frees(s, i, p);
      var k :| 0 <= k < |message| && message[k] == i;
      HeldFrees(s, i, p);
      assert held[k] in held;
    }
  }

  lemma FreedByMore<D>(s: Setting<D>, m: Messages.Plan, p: Ptr)
    ensures FreedBy(s, Messages.Close(m).closed, p) <==> FreedBy(s, m.closed, p) || FreedIn(s, m.current, p)
  {
    if m.current == [] {
      assert !FreedIn(s, m.current, p);
    } else {
      assert m.current in m.closed + [m.current];
    }
  }

  /** What stands is not settled. */
  lemma StandingIsLoose<D>(s: Setting<D>, settled: set<Ptr>, upcoming: set<Ptr>, mem: Mem, ws: seq<Pending>, p: Ptr)
    requires Tidy(s.e, settled, upcoming, mem, ws) && settled <= Written(s.ops) && Alien(s, p)
    requires Stands(s.e, mem, ws, EntryOf(s.start.ids, p).value, KeyOf(s.start, p)) && Consistent(s.start.ids)
    ensures p !in settled
  {
    assert p in settled ==> SettledAt(s.e, mem, p);
  }

  /** A message sent, in the middle of more: of what stood, what it freed is vacant. */
  lemma StrayDrains<D>(
    s: Setting<D>, m: Messages.Plan, mem: Mem, db: D, tail: seq<Pending>, settled: set<Ptr>, upcoming: set<Ptr>,
    alone: seq<Completed>, p: Ptr)
    requires StrayAt(s, m.closed, settled, mem, HeldSeq(s, m.current) + tail, p) && AllIssue(s, m.current)
    requires Tidy(s.e, settled, upcoming, mem, HeldSeq(s, m.current) + tail) && settled <= Written(s.ops)
    requires Consistent(s.start.ids) && Drain(s.e, s.srv, mem, db, HeldSeq(s, m.current)).Drained?
    requires Twins(alone, DrainLog(s.e, s.srv, mem, db, HeldSeq(s, m.current))) &&
             forall h :: h in alone ==> Fresh(s.e, h)
    ensures var d := Drain(s.e, s.srv, mem, db, HeldSeq(s, m.current)).mem;
            StrayAt(s, Messages.Close(m).closed, settled, d, tail, p)
  {
    var ws := HeldSeq(s, m.current);
    FreedByMore(s, m, p);
    if Alien(s, p) && !FreedBy(s, m.closed, p) {
      var x := EntryOf(s.start.ids, p).value;
      assert x.ptr == p;
      StandingIsLoose(s, settled, upcoming, mem, ws + tail, p);
      DrainFrees(s.e, s.srv, settled, upcoming, mem, db, ws, tail, alone, x, KeyOf(s.start, p));
      SomeFreesAlike(s, m.current, p);
    } else if p !in settled {
      VacantThroughDrain(s.e, s.srv, settled, upcoming, mem, db, ws, tail, alone, p);
    }
  }

  // --- the run in step with its plan ---------------------------------------------------------------------

  /** Every written instance is in memory, and the flushed inserts are firm. */
  ghost predicate InsertsFirm<D>(s: Setting<D>, mem: Mem) {
    && Written(s.ops) <= mem.inst.Keys
    && (forall op :: op in s.ops && op.FlushInsert? ==> op.p in Firm(mem, s.ops))
  }

  /**
   After j operations the run in messages is ahead of the other, holds and has sent what its plan says, and
   knows what stands in its way.
   */
  ghost predicate InStep<D>(s: Setting<D>, j: nat, m: Messages.Plan, c: Call<D>, alone: seq<Completed>) {
    && j <= |s.ops| && Ahead(s.e, s.srv, Firm(c.mem, s.ops), Upcoming(s.ops, j), OffAt(s, j), c, alone)
    && Follows(s, m, c) && Strayed(s, m.closed, Firm(c.mem, s.ops), c.mem, c.current) && InsertsFirm(s, c.mem)
    && Orderly(s)
  }

  /** From what is settled to what is firm. */
  lemma GrowsToFirm<D>(s: Setting<D>, closed: seq<seq<nat>>, settled: set<Ptr>, before: Mem, upcoming: set<Ptr>,
      off: Call<D>, c: Call<D>, alone: seq<Completed>)
    requires Ahead(s.e, s.srv, settled, upcoming, off, c, alone) && settled == Firm(before, s.ops)
    requires InsertsFirm(s, before) && c.mem.inst.Keys == before.inst.Keys
    requires Strayed(s, closed, settled, c.mem, c.current)
    ensures Ahead(s.e, s.srv, Firm(c.mem, s.ops), upcoming, off, c, alone) && InsertsFirm(s, c.mem)
    ensures Strayed(s, closed, Firm(c.mem, s.ops), c.mem, c.current)
  {
    forall p | p in settled
      ensures p in Firm(c.mem, s.ops)
    {
      SettledIsFirm(s.e, c.mem, p);
    }
    forall p | p in Firm(c.mem, s.ops) && p !in settled
      ensures Vacant(s.e, c.mem, c.current, p)
    {
      assert StrayAt(s, closed, settled, c.mem, c.current, p);
    }
    AheadGrows(s.e, s.srv, settled, Firm(c.mem, s.ops), upcoming, off, c, alone);
    forall p
      ensures StrayAt(s, closed, Firm(c.mem, s.ops), c.mem, c.current, p)
    {
      assert StrayAt(s, closed, settled, c.mem, c.current, p);
    }
  }

  /** The message in progress sent, whatever it holds. */
  lemma SendStrays<D>(
    s: Setting<D>, plan: Plan, m: Messages.Plan, settled: set<Ptr>, upcoming: set<Ptr>, off: Call<D>, c: Call<D>,
    alone: seq<Completed>)
    requires Ahead(s.e, s.srv, settled, upcoming, off, c, alone) && c.current == HeldSeq(s, m.current) &&
             AllIssue(s, m.current)
    requires Strayed(s, m.closed, settled, c.mem, c.current)
    ensures Strayed(s, Messages.Close(m).closed, settled, Send(s.e, s.srv, plan, c).mem, [])
  {
    var sent := Send(s.e, s.srv, plan, c);
    SendDrains(s.e, s.srv, plan, c);
    assert c.current + [] == c.current;
    forall p
      ensures StrayAt(s, Messages.Close(m).closed, settled, sent.mem, [], p)
    {
      assert StrayAt(s, m.closed, settled, c.mem, c.current, p);
      StrayDrains(s, m, c.mem, c.db, [], settled, upcoming, alone, p);
    }
  }

  lemma SendInStep<D>(s: Setting<D>, plan: Plan, j: nat, m: Messages.Plan, c: Call<D>, alone: seq<Completed>)
    requires InStep(s, j, m, c, alone)
    ensures InStep(s, j, Messages.Close(m), Send(s.e, s.srv, plan, c), [])
  {
    var sent := Send(s.e, s.srv, plan, c);
    var settled := Firm(c.mem, s.ops);
    SendStrays(s, plan, m, settled, Upcoming(s.ops, j), OffAt(s, j), c, alone);
    SendCatchesUp(s.e, s.srv, plan, settled, Upcoming(s.ops, j), OffAt(s, j), c, alone);
    SendFollows(s, plan, m, c);
    Arrivals.SendKeepsShape(s.e, s.srv, plan, c);
    GrowsToFirm(s, Messages.Close(m).closed, settled, c.mem, Upcoming(s.ops, j), OffAt(s, j), sent, []);
  }

  lemma SentIsFree<D>(s: Setting<D>, plan: Plan, c: Call<D>, op: Op)
    ensures var ready := Before(s.e, s.srv, plan, c, op); Free(s.e, ready.mem, ready.current, op)
  {
    SendCloses(s.e, s.srv, plan, c);
  }

  /** Rule 1 cuts the call and the plan alike. */
  lemma BeforeIs<D>(s: Setting<D>, plan: Plan, m: Messages.Plan, c: Call<D>, j: nat)
    requires Follows(s, m, c) && j < |s.ops| &&
             Drain(s.e, s.srv, c.mem, c.db, c.current) == Drained(OffAt(s, j).mem, OffAt(s, j).db)
    ensures var ready, before := Messages.Ready(FactsOf(s, plan), m, j), Before(s.e, s.srv, plan, c, s.ops[j]);
            (ready == m && before == c) ||
            (ready == Messages.Close(m) && before == Send(s.e, s.srv, plan, c))
  {
    CutsAlike(s, plan, m, c, j);
  }

  lemma BeforeInStep<D>(s: Setting<D>, plan: Plan, j: nat, m: Messages.Plan, c: Call<D>, alone: seq<Completed>)
    returns (left: seq<Completed>)
    requires InStep(s, j, m, c, alone) && j < |s.ops|
    ensures InStep(s, j, Messages.Ready(FactsOf(s, plan), m, j), Before(s.e, s.srv, plan, c, s.ops[j]), left)
  {
    BeforeIs(s, plan, m, c, j);
    if Messages.Ready(FactsOf(s, plan), m, j) == m && Before(s.e, s.srv, plan, c, s.ops[j]) == c {
      left := alone;
    } else {
      SendInStep(s, plan, j, m, c, alone);
      left := [];
    }
  }

  // --- past rule 1 ------------------------------------------------------------------------------------------

  /** The preparation changes nothing about what stands, is settled, or is vacant. */
  lemma PrepareStrays<D>(
    s: Setting<D>, closed: seq<seq<nat>>, settled: set<Ptr>, upcoming: set<Ptr>, mem: Mem, ws: seq<Pending>, op: Op,
    p: Ptr)
    requires MayPass(s.e, settled, upcoming, mem, ws, op) && StrayAt(s, closed, settled, mem, ws, p)
    requires settled <= Written(s.ops) && Consistent(s.start.ids)
    ensures StrayAt(s, closed, settled, Prepared(s.e, mem, op).mem, ws, p)
  {
    OthersUntouched(s.e, mem, op);
    if Alien(s, p) && !FreedBy(s, closed, p) {
      StandingIsLoose(s, settled, upcoming, mem, ws, p);
      ClearStays(s.e, mem, ws, op, EntryOf(s.start.ids, p).value);
    }
    if p !in settled && OpInstance(op) == Some(p) {
      LooseKeepsKey(s.e, mem, op);
    }
  }

  /** An insert under a key the database generates prepares without a look at the key. */
  lemma LooseKeepsKey(e: Env, mem: Mem, op: Op)
    requires op.Insert? && !Gated(e, op)
    ensures KeyOf(Prepared(e, mem, op).mem, op.p) == KeyOf(mem, op.p)
  {
    PrepareInsertOnly(e, mem, op.p);
  }

  lemma ClearStays(e: Env, mem: Mem, ws: seq<Pending>, op: Op, x: Entry)
    requires AllClear(e, mem, ws, x) && Free(e, mem, ws, op)
    ensures AllClear(e, Prepared(e, mem, op).mem, ws, x)
  {
    OthersUntouched(e, mem, op);
    forall w | w in ws
      ensures ClearOf(e, Prepared(e, mem, op).mem, w.write, x)
    {
      assert ClearOf(e, mem, w.write, x) && !Clashes(e, mem, w, op);
    }
  }

  /** What the gate lets through would not register the entry's key. */
  lemma NewIsClear(e: Env, mem: Mem, op: Op, x: Entry)
    requires Consistent(mem.ids) && EntryOf(mem.ids, x.ptr) == Some(x) && Prepared(e, mem, op).issue.Issued?
    requires Gated(e, op) ==> op.p != x.ptr && SettledAt(e, mem, op.p)
    requires InsertsInstance(op) && op.p == x.ptr ==> MapFor(e, x.ptr).arity != 0
    ensures ClearOf(e, Prepared(e, mem, op).mem, Prepared(e, mem, op).issue.write, x)
  {
    var flowed := Flow(e, mem, op);
    var w := Prepared(e, mem, op).issue.write;
    FlowOnly(e, mem, op);
    PrepareOnly(e, flowed, op);
    IssuedFinish(e, flowed, op);
    InsertFinishes(e, flowed, op);
    if Instance(w).Some? && !GeneratesKey(w) && !HasNull(KeyOf(Prepared(e, mem, op).mem, op.p)) {
      IssuedPassedGate(e, flowed, op);
      if op.FlushInsert? || op.Insert? {
        PrepareInsertOnly(e, flowed, op.p);
      }
      OpenGate(e, AtGate(e, flowed, op), op.p, x);
    }
  }

  lemma OneMoreClear(e: Env, mem: Mem, ws: seq<Pending>, v: Pending, x: Entry)
    requires AllClear(e, mem, ws, x) && ClearOf(e, mem, v.write, x)
    ensures AllClear(e, mem, ws + [v], x)
  {
    assert forall w :: w in ws + [v] <==> w in ws || w == v;
  }

  /** The new statement in the message with those that wait. */
  lemma JoinStrays<D>(
    s: Setting<D>, closed: seq<seq<nat>>, settled: set<Ptr>, upcoming: set<Ptr>, mem: Mem, ws: seq<Pending>, op: Op,
    v: Pending, p: Ptr)
    requires MayPass(s.e, settled, upcoming, mem, ws, op) && StrayAt(s, closed, settled, mem, ws, p) && Orderly(s)
    requires Prepared(s.e, mem, op).issue.Issued? && v.write == Prepared(s.e, mem, op).issue.write && op in s.ops
    requires settled == Firm(mem, s.ops)
    ensures StrayAt(s, closed, settled, Prepared(s.e, mem, op).mem, ws + [v], p)
  {
    var after := Prepared(s.e, mem, op).mem;
    PrepareStrays(s, closed, settled, upcoming, mem, ws, op, p);
    OthersUntouched(s.e, mem, op);
    PrepareOnly(s.e, Flow(s.e, mem, op), op);
    if Alien(s, p) && !FreedBy(s, closed, p) {
      var x := EntryOf(s.start.ids, p).value;
      StandingIsLoose(s, settled, upcoming, mem, ws, p);
      assert OpInstance(op).Some? && op.p in settled ==> SettledAt(s.e, mem, op.p);
      assert OpInstance(op) == Some(p) ==> p in Written(s.ops);
      NewIsClear(s.e, mem, op, x);
      OneMoreClear(s.e, after, ws, v, x);
    } else if p !in settled {
      assert OpInstance(op) == Some(p) ==> p in Written(s.ops) && Stale(mem, p);
      assert Waiting(ws + [v]) <= Waiting(ws) + (if OpInstance(op).Some? then {op.p} else {}) by {
        assert forall w :: w in ws + [v] <==> w in ws || w == v;
      }
    }
  }

  /** The call, and the plan, with the message in progress sent if it is full. */
  function SentIfFull<D>(s: Setting<D>, plan: Plan, c: Call<D>): Call<D> {
    if |c.current| >= plan.limit then Send(s.e, s.srv, plan, c) else c
  }

  function ClosedIfFull(plan: Plan, m: Messages.Plan): Messages.Plan {
    if |m.current| >= plan.limit then Messages.Close(m) else m
  }

  /** A message sent when it is full. */
  lemma FullStrays<D>(
    s: Setting<D>, plan: Plan, m: Messages.Plan, settled: set<Ptr>, upcoming: set<Ptr>, off: Call<D>,
    joined: Call<D>, alone: seq<Completed>)
    requires Ahead(s.e, s.srv, settled, upcoming, off, joined, alone) && joined.current == HeldSeq(s, m.current) &&
             AllIssue(s, m.current)
    requires Strayed(s, m.closed, settled, joined.mem, joined.current)
    ensures var next := SentIfFull(s, plan, joined);
            Strayed(s, ClosedIfFull(plan, m).closed, settled, next.mem, next.current)
  {
    if |joined.current| >= plan.limit {
      SendStrays(s, plan, m, settled, upcoming, off, joined, alone);
      SendCloses(s.e, s.srv, plan, joined);
    }
  }

  // --- one operation ------------------------------------------------------------------------------------------

  /** The run without batching succeeds, its keys arriving fresh. */
  ghost predicate OffSucceeds<D>(s: Setting<D>) {
    var off := Run(s.e, s.srv, s.alone, s.start, s.db, s.ops);
    s.alone.limit <= 1 && !off.failed && forall h :: h in off.history ==> Fresh(s.e, h)
  }

  /**
   What the caller provides: a session in order. The written instances are in memory and, where tracked under
   the key they hold, under a set one; flushed inserts are untracked; an inserted instance tracked under another
   key is of a keyed type, and no GUID still to be handed out is a tracked key.
   */
  ghost predicate Orderly<D>(s: Setting<D>) {
    && Consistent(s.start.ids) && Numbered(s.start.ids)
    && Written(s.ops) <= s.start.inst.Keys && Settled(s.e, s.start, Firm(s.start, s.ops))
    && (forall op :: op in s.ops && op.FlushInsert? ==> EntryOf(s.start.ids, op.p) == None)
    && (forall op :: op in s.ops && op.Insert? && Stale(s.start, op.p) ==>
          MapFor(s.e, op.p).arity != 0 && (Gated(s.e, op) ==> GuidsAhead(s.e, s.start)))
  }

  ghost predicate Eligible<D>(s: Setting<D>) {
    Orderly(s) && FlushShaped(s.ops)
  }

  /** The run without batching went on past operation j. */
  ghost predicate OffStepped<D>(s: Setting<D>, j: nat) {
    && j < |s.ops| && OffAt(s, j + 1) == Step(s.e, s.srv, s.alone, OffAt(s, j), s.ops[j])
    && s.alone.limit <= 1 && !OffAt(s, j + 1).failed && (forall h :: h in OffAt(s, j + 1).history ==> Fresh(s.e, h))
  }

  ghost predicate OffWentOn<D>(s: Setting<D>, j: nat) {
    OffStepped(s, j) && FlushShaped(s.ops)
  }

  lemma {:induction false} HistoryGrows<D>(s: Setting<D>, n: nat)
    requires n <= |s.ops|
    ensures OffAt(s, n).history <= OffAt(s, |s.ops|).history
    decreases |s.ops| - n
  {
    if n < |s.ops| {
      assert s.ops[..n + 1][..n] == s.ops[..n];
      HistoryGrows(s, n + 1);
    }
  }

  lemma OffSteps<D>(s: Setting<D>, j: nat)
    requires j < |s.ops|
    ensures OffAt(s, j + 1) == Step(s.e, s.srv, s.alone, OffAt(s, j), s.ops[j])
  {
    assert s.ops[..j + 1][..j] == s.ops[..j];
  }

  lemma OffSurvives<D>(s: Setting<D>, n: nat)
    requires OffSucceeds(s) && n <= |s.ops|
    ensures !OffAt(s, n).failed
  {
    var whole := Steps(s.e, s.srv, s.alone, Start(s.start, s.db), s.ops);
    assert !whole.failed;
    Arrivals.NeverFailed(s.e, s.srv, s.alone, s.start, s.db, s.ops, n);
  }

  lemma OffStepsOn<D>(s: Setting<D>, j: nat)
    requires OffSucceeds(s) && j < |s.ops|
    ensures OffStepped(s, j)
  {
    OffSteps(s, j);
    OffSurvives(s, j + 1);
    OffIsFresh(s, j + 1);
  }

  lemma OffGoesOn<D>(s: Setting<D>, j: nat)
    requires OffSucceeds(s) && FlushShaped(s.ops) && j < |s.ops|
    ensures OffWentOn(s, j)
  {
    OffStepsOn(s, j);
  }

  lemma OffIsFresh<D>(s: Setting<D>, n: nat)
    requires OffSucceeds(s) && n <= |s.ops|
    ensures forall h :: h in OffAt(s, n).history ==> Fresh(s.e, h)
  {
    assert s.ops[..|s.ops|] == s.ops;
    HistoryGrows(s, n);
    assert OffAt(s, |s.ops|).history <= Run(s.e, s.srv, s.alone, s.start, s.db, s.ops).history;
  }

  /** The other instance's entry stands under the key the operation's gate asks for, or the own one under another. */
  ghost predicate Blocks<D>(s: Setting<D>, j: nat, p: Ptr) {
    && Alien(s, p) && j < |s.ops| && Gated(s.e, s.ops[j])
    && (p == s.ops[j].p || AsksFor(s, j, EntryOf(s.start.ids, p).value))
  }

  /** The operation's identity gate asks for the entry's key. */
  ghost predicate AsksFor<D>(s: Setting<D>, j: nat, x: Entry)
    requires j < |s.ops| && Gated(s.e, s.ops[j])
  {
    var op := s.ops[j];
    IdOf(x) == (TypeOf(s.e, op.p), GateKey(s.e, OffAt(s, j).mem, op)) && !HasNull(x.key)
  }

  /** Everything that blocks operation j was freed by a message sent. */
  ghost predicate Cleared<D>(s: Setting<D>, closed: seq<seq<nat>>, j: nat) {
    forall p :: Blocks(s, j, p) ==> FreedBy(s, closed, p)
  }

  lemma GateKeyAlike<D>(s: Setting<D>, j: nat, m: Messages.Plan, ready: Call<D>, alone: seq<Completed>)
    requires InStep(s, j, m, ready, alone) && j < |s.ops| && Free(s.e, ready.mem, ready.current, s.ops[j])
    requires Gated(s.e, s.ops[j])
    ensures GateKey(s.e, ready.mem, s.ops[j]) == GateKey(s.e, OffAt(s, j).mem, s.ops[j])
  {
    assert s.ops[j] in s.ops && s.ops[j].p in Written(s.ops);
    GateKeyThroughDrain(s.e, s.srv, ready.mem, ready.db, ready.current, s.ops[j]);
  }

  /** A settled holder of the gate's key is freed by no waiting statement: rule 1 would have sent it. */
  lemma SettledHolderStays(e: Env, settled: set<Ptr>, upcoming: set<Ptr>, mem: Mem, ws: seq<Pending>, op: Op, h: Entry,
      w: Pending)
    requires Tidy(e, settled, upcoming, mem, ws) && InPhase(upcoming, op) && GuidsAhead(e, mem) && Gated(e, op)
    requires Find(mem.ids, h.etype, h.key) == Some(h) && IdOf(h) == (TypeOf(e, op.p), GateKey(e, mem, op))
    requires h.ptr in settled || Vacant(e, mem, ws, h.ptr)
    requires w in ws && FreesEntry(w.write, h)
    ensures Clashes(e, mem, w, op)
  {
    assert EntryOf(mem.ids, h.ptr) == Some(h) && SettledAt(e, mem, h.ptr);
    if w.write.finish == FinishDeleteKey(h.etype, h.key) {
      DeleteByGateKeyClashes(e, settled, upcoming, mem, ws, op, h, w);
    } else {
      assert h.ptr in Waiting(ws);
      TrackedHoldsKey(e, settled, upcoming, mem, ws, w);
      GateKeyIsNow(e, mem, op, h);
    }
  }

  /** What stands does not hold the gate's key of a cleared operation. */
  lemma StandingIsNotAskedFor<D>(s: Setting<D>, closed: seq<seq<nat>>, j: nat, h: Entry)
    requires Cleared(s, closed, j) && j < |s.ops| && Gated(s.e, s.ops[j]) && AsksFor(s, j, h)
    ensures Alien(s, h.ptr) && EntryOf(s.start.ids, h.ptr) == Some(h) ==> FreedBy(s, closed, h.ptr)
  {
    assert Alien(s, h.ptr) && EntryOf(s.start.ids, h.ptr) == Some(h) ==> Blocks(s, j, h.ptr);
  }

  /** Of a cleared operation: rule 1 would have sent what frees the holder of its key. */
  lemma HolderClashes<D>(s: Setting<D>, j: nat, closed: seq<seq<nat>>, settled: set<Ptr>, upcoming: set<Ptr>, mem: Mem,
      ws: seq<Pending>, h: Entry, w: Pending)
    requires Tidy(s.e, settled, upcoming, mem, ws) && StrayAt(s, closed, settled, mem, ws, h.ptr)
    requires j < |s.ops| && Gated(s.e, s.ops[j]) && Cleared(s, closed, j) && GuidsAhead(s.e, mem)
    requires InPhase(upcoming, s.ops[j]) && AsksFor(s, j, h) && Find(mem.ids, h.etype, h.key) == Some(h)
    requires GateKey(s.e, mem, s.ops[j]) == GateKey(s.e, OffAt(s, j).mem, s.ops[j])
    requires w in ws && FreesEntry(w.write, h) && Consistent(s.start.ids)
    ensures Clashes(s.e, mem, w, s.ops[j])
  {
    assert EntryOf(mem.ids, h.ptr) == Some(h);
    StandingIsNotAskedFor(s, closed, j, h);
    SettledHolderStays(s.e, settled, upcoming, mem, ws, s.ops[j], h, w);
  }

  lemma ClearedUnblocks<D>(s: Setting<D>, j: nat, m: Messages.Plan, ready: Call<D>, alone: seq<Completed>)
    requires InStep(s, j, m, ready, alone) && OffWentOn(s, j) && Free(s.e, ready.mem, ready.current, s.ops[j])
    requires Cleared(s, m.closed, j)
    ensures Unblocked(s.e, ready.mem, ready.current, s.ops[j])
  {
    var op, firm := s.ops[j], Firm(ready.mem, s.ops);
    if !Unblocked(s.e, ready.mem, ready.current, op) {
      var h := Find(ready.mem.ids, TypeOf(s.e, op.p), GateKey(s.e, ready.mem, op)).value;
      var w :| w in ready.current && FreesEntry(w.write, h);
      GateKeyAlike(s, j, m, ready, alone);
      UpcomingStep(s.ops, j);
      NextIsFresh(s.e, s.srv, ready.mem, ready.db, ready.current, alone);
      HolderClashes(s, j, m.closed, firm, Upcoming(s.ops, j), ready.mem, ready.current, h, w);
      assert false;
    }
  }

  /** A cleared operation that the gate will ask is of a firm instance, any other an insert or of none. */
  lemma ClearedWrites<D>(s: Setting<D>, j: nat, closed: seq<seq<nat>>, mem: Mem, ws: seq<Pending>)
    requires Strayed(s, closed, Firm(mem, s.ops), mem, ws) && InsertsFirm(s, mem)
    requires j < |s.ops| && Cleared(s, closed, j)
    ensures Writable(s.e, Firm(mem, s.ops), mem, s.ops[j])
  {
    var op := s.ops[j];
    assert op in s.ops;
    if OpInstance(op).Some? {
      assert op.p in Written(s.ops) && StrayAt(s, closed, Firm(mem, s.ops), mem, ws, op.p);
      if Gated(s.e, op) && Alien(s, op.p) {
        assert Blocks(s, j, op.p);
      }
    }
  }

  /** A cleared operation may pass the message. */
  lemma MayGoOn<D>(s: Setting<D>, j: nat, m: Messages.Plan, ready: Call<D>, alone: seq<Completed>)
    requires InStep(s, j, m, ready, alone) && OffWentOn(s, j) && Free(s.e, ready.mem, ready.current, s.ops[j])
    requires Cleared(s, m.closed, j)
    ensures MayPass(s.e, Firm(ready.mem, s.ops), Upcoming(s.ops, j), ready.mem, ready.current, s.ops[j])
    ensures Upcoming(s.ops, j + 1) == if s.ops[j].FlushInsert? then Upcoming(s.ops, j) - {s.ops[j].p}
              else Upcoming(s.ops, j)
  {
    UpcomingStep(s.ops, j);
    ClearedUnblocks(s, j, m, ready, alone);
    ClearedWrites(s, j, m.closed, ready.mem, ready.current);
  }

  /** The call with the operation recorded and prepared. */
  function AfterPrepare<D>(e: Env, c: Call<D>, op: Op): Call<D> {
    Recorded(e, c.(mem := Flow(e, c.mem, op)), op).(mem := Prepared(e, c.mem, op).mem)
  }

  /** Prepared past the message and prepared alone, the statement is the same, and so is the key it is about. */
  lemma SameHeld<D>(s: Setting<D>, j: nat, settled: set<Ptr>, ready: Call<D>, alone: seq<Completed>)
    requires OffWentOn(s, j) && Ahead(s.e, s.srv, settled, Upcoming(s.ops, j), OffAt(s, j), ready, alone)
    requires MayPass(s.e, settled, Upcoming(s.ops, j), ready.mem, ready.current, s.ops[j])
    ensures Prepared(s.e, ready.mem, s.ops[j]).issue == PreparedAlone(s, j).issue
    ensures !PreparedAlone(s, j).issue.Refused?
    ensures Drain(s.e, s.srv, Prepared(s.e, ready.mem, s.ops[j]).mem, ready.db, ready.current).Drained?
    ensures Twins(alone, DrainLog(s.e, s.srv, Prepared(s.e, ready.mem, s.ops[j]).mem, ready.db, ready.current))
    ensures Issues(s, j) ==>
              HeldAt(s, j) == Pending(Prepared(s.e, ready.mem, s.ops[j]).issue.write,
                                      KeyNow(s.e, Prepared(s.e, ready.mem, s.ops[j]).mem, s.ops[j]))
  {
    var op, off := s.ops[j], OffAt(s, j);
    AloneStep(s.e, s.srv, s.alone, off, op);
    PreparePastMessage(s.e, s.srv, settled, Upcoming(s.ops, j), ready.mem, ready.db, ready.current, op, alone);
    NotWaiting(s.e, ready.mem, ready.current, op);
    KeyNowThroughDrain(s.e, s.srv, Prepared(s.e, ready.mem, op).mem, ready.db, ready.current, op);
  }

  lemma NotWaiting(e: Env, mem: Mem, ws: seq<Pending>, op: Op)
    requires Free(e, mem, ws, op)
    ensures OpInstance(op).Some? ==> forall w :: w in ws ==> Instance(w.write) != OpInstance(op)
  {
    forall w | w in ws
      ensures OpInstance(op).Some? ==> Instance(w.write) != OpInstance(op)
    {
      assert !Clashes(e, mem, w, op);
    }
  }

  lemma ProceedFollows<D>(s: Setting<D>, plan: Plan, j: nat, m: Messages.Plan, settled: set<Ptr>, ready: Call<D>,
      alone: seq<Completed>)
    requires OffWentOn(s, j) && Ahead(s.e, s.srv, settled, Upcoming(s.ops, j), OffAt(s, j), ready, alone) &&
             Follows(s, m, ready)
    requires MayPass(s.e, settled, Upcoming(s.ops, j), ready.mem, ready.current, s.ops[j])
    ensures Follows(s, if Issues(s, j) then Messages.Add(FactsOf(s, plan), m, j) else m,
                    Proceed(s.e, s.srv, plan, ready, s.ops[j]))
  {
    SameHeld(s, j, settled, ready, alone);
    var c := AfterPrepare(s.e, ready, s.ops[j]);
    assert Follows(s, m, c);
    if Issues(s, j) {
      NotWaiting(s.e, ready.mem, ready.current, s.ops[j]);
      AddFollows(s, plan, m, c, j);
      assert Proceed(s.e, s.srv, plan, ready, s.ops[j]) == Calls.Add(s.e, s.srv, plan, c, HeldAt(s, j).write, s.ops[j]);
    }
  }

  lemma JoinedIsStrayed<D>(s: Setting<D>, j: nat, m: Messages.Plan, settled: set<Ptr>, ready: Call<D>,
      alone: seq<Completed>)
    requires OffWentOn(s, j) && Ahead(s.e, s.srv, settled, Upcoming(s.ops, j), OffAt(s, j), ready, alone) &&
             Issues(s, j)
    requires MayPass(s.e, settled, Upcoming(s.ops, j), ready.mem, ready.current, s.ops[j])
    requires Strayed(s, m.closed, settled, ready.mem, ready.current) && Orderly(s) && settled == Firm(ready.mem, s.ops)
    ensures var c := AfterPrepare(s.e, ready, s.ops[j]);
            Strayed(s, m.closed, settled, c.mem, c.current + [HeldAt(s, j)])
  {
    var c := AfterPrepare(s.e, ready, s.ops[j]);
    SameHeld(s, j, settled, ready, alone);
    assert s.ops[j] in s.ops;
    forall p
      ensures StrayAt(s, m.closed, settled, c.mem, c.current + [HeldAt(s, j)], p)
    {
      assert StrayAt(s, m.closed, settled, ready.mem, ready.current, p);
      JoinStrays(s, m.closed, settled, Upcoming(s.ops, j), ready.mem, ready.current, s.ops[j], HeldAt(s, j), p);
    }
  }

  lemma AddIsSplit<D>(s: Setting<D>, plan: Plan, c: Call<D>, v: Pending, op: Op)
    requires Splits(plan, c.current, v.write) && !Send(s.e, s.srv, plan, c).failed &&
             Send(s.e, s.srv, plan, c).current == []
    requires KeyNow(s.e, Send(s.e, s.srv, plan, c).mem, op) == v.key
    ensures Calls.Add(s.e, s.srv, plan, c, v.write, op) ==
              SentIfFull(s, plan, Send(s.e, s.srv, plan, c).(current := [v]))
  {
    var split := Send(s.e, s.srv, plan, c);
    assert split.current + [v] == [v];
  }

  lemma AddIsJoin<D>(s: Setting<D>, plan: Plan, c: Call<D>, v: Pending, op: Op)
    requires !Splits(plan, c.current, v.write) && !c.failed && KeyNow(s.e, c.mem, op) == v.key
    ensures Calls.Add(s.e, s.srv, plan, c, v.write, op) == SentIfFull(s, plan, c.(current := c.current + [v]))
  {
  }

  lemma PlanAddIs<D>(s: Setting<D>, plan: Plan, m: Messages.Plan, j: nat)
    ensures Messages.Add(FactsOf(s, plan), m, j) ==
            ClosedIfFull(plan, if m.current != [] && Messages.OverflowsOrReads(FactsOf(s, plan), m.current, j)
                               then Messages.Plan(Messages.Close(m).closed, [j]) else m.(current := m.current + [j]))
  {
    assert [] + [j] == [j];
  }

  /** The case that it joins the message. */
  lemma WholeStrays<D>(s: Setting<D>, plan: Plan, j: nat, m: Messages.Plan, settled: set<Ptr>, c: Call<D>,
      alone: seq<Completed>)
    requires Issues(s, j) && c.current == HeldSeq(s, m.current) && AllIssue(s, m.current)
    requires Ahead(s.e, s.srv, settled, Upcoming(s.ops, j + 1), OffAt(s, j + 1),
                   c.(current := c.current + [HeldAt(s, j)]), alone)
    requires Strayed(s, m.closed, settled, c.mem, c.current + [HeldAt(s, j)])
    ensures var next := SentIfFull(s, plan, c.(current := c.current + [HeldAt(s, j)]));
            Strayed(s, ClosedIfFull(plan, m.(current := m.current + [j])).closed, settled, next.mem, next.current)
  {
    HeldAppend(s, m.current, j);
    FullStrays(s, plan, m.(current := m.current + [j]), settled, Upcoming(s.ops, j + 1), OffAt(s, j + 1),
               c.(current := c.current + [HeldAt(s, j)]), alone);
  }

  /** The statement put into its message, that message sent first if it splits and afterwards if it is full. */
  lemma AddStrays<D>(s: Setting<D>, plan: Plan, j: nat, m: Messages.Plan, settled: set<Ptr>, c: Call<D>,
      alone: seq<Completed>, last: Completed)
    requires OffWentOn(s, j) && Issues(s, j) && c.current == HeldSeq(s, m.current) && AllIssue(s, m.current) &&
             !c.failed
    requires KeyNow(s.e, c.mem, s.ops[j]) == HeldAt(s, j).key
    requires Ahead(s.e, s.srv, settled, Upcoming(s.ops, j + 1), OffAt(s, j + 1),
                   c.(current := c.current + [HeldAt(s, j)]), alone + [last])
    requires Drain(s.e, s.srv, c.mem, c.db, c.current).Drained? &&
             Twins(alone, DrainLog(s.e, s.srv, c.mem, c.db, c.current))
    requires Strayed(s, m.closed, settled, c.mem, c.current + [HeldAt(s, j)])
    ensures var next := Calls.Add(s.e, s.srv, plan, c, HeldAt(s, j).write, s.ops[j]);
            Strayed(s, Messages.Add(FactsOf(s, plan), m, j).closed, settled, next.mem, next.current)
  {
    var v := HeldAt(s, j);
    SplitsAlike(s, plan, m.current, j);
    PlanAddIs(s, plan, m, j);
    if Splits(plan, c.current, v.write) {
      SplitStrays(s, plan, j, m, settled, c, alone, last);
      AddIsSplit(s, plan, c, v, s.ops[j]);
    } else {
      WholeStrays(s, plan, j, m, settled, c, alone + [last]);
      AddIsJoin(s, plan, c, v, s.ops[j]);
    }
  }

  lemma ProceedIsAdd<D>(s: Setting<D>, plan: Plan, j: nat, settled: set<Ptr>, ready: Call<D>, alone: seq<Completed>)
    requires OffWentOn(s, j) && Ahead(s.e, s.srv, settled, Upcoming(s.ops, j), OffAt(s, j), ready, alone) &&
             Issues(s, j)
    requires MayPass(s.e, settled, Upcoming(s.ops, j), ready.mem, ready.current, s.ops[j])
    ensures var c := AfterPrepare(s.e, ready, s.ops[j]);
            && Proceed(s.e, s.srv, plan, ready, s.ops[j]) ==
                 Calls.Add(s.e, s.srv, plan, c, HeldAt(s, j).write, s.ops[j])
            && KeyNow(s.e, c.mem, s.ops[j]) == HeldAt(s, j).key && !c.failed && c.current == ready.current
            && Drain(s.e, s.srv, c.mem, c.db, c.current).Drained? &&
               Twins(alone, DrainLog(s.e, s.srv, c.mem, c.db, c.current))
  {
    SameHeld(s, j, settled, ready, alone);
  }

  lemma IssuedStrays<D>(s: Setting<D>, plan: Plan, j: nat, m: Messages.Plan, settled: set<Ptr>, ready: Call<D>,
      alone: seq<Completed>)
    requires OffWentOn(s, j) && Ahead(s.e, s.srv, settled, Upcoming(s.ops, j), OffAt(s, j), ready, alone) &&
             Issues(s, j)
    requires MayPass(s.e, settled, Upcoming(s.ops, j), ready.mem, ready.current, s.ops[j])
    requires Upcoming(s.ops, j + 1) == if s.ops[j].FlushInsert? then Upcoming(s.ops, j) - {s.ops[j].p}
               else Upcoming(s.ops, j)
    requires Follows(s, m, ready) && Strayed(s, m.closed, settled, ready.mem, ready.current)
    requires Orderly(s) && settled == Firm(ready.mem, s.ops)
    ensures var next := Proceed(s.e, s.srv, plan, ready, s.ops[j]);
            Strayed(s, Messages.Add(FactsOf(s, plan), m, j).closed, settled, next.mem, next.current)
  {
    ProceedIsAdd(s, plan, j, settled, ready, alone);
    JoinedIsAhead(s, j, settled, ready, alone);
    JoinedIsStrayed(s, j, m, settled, ready, alone);
    AddStrays(s, plan, j, m, settled, AfterPrepare(s.e, ready, s.ops[j]), alone, LastAlone(s, j));
  }

  /** The statement of operation j as it completed alone. */
  ghost function LastAlone<D>(s: Setting<D>, j: nat): Completed
    requires Issues(s, j)
  {
    var prepared := PreparedAlone(s, j);
    Completed(prepared.mem, prepared.issue.write, s.srv.run(OffAt(s, j).db, prepared.issue.write.stmt).1)
  }

  lemma JoinedIsAhead<D>(s: Setting<D>, j: nat, settled: set<Ptr>, ready: Call<D>, alone: seq<Completed>)
    requires OffWentOn(s, j) && Ahead(s.e, s.srv, settled, Upcoming(s.ops, j), OffAt(s, j), ready, alone) &&
             Issues(s, j)
    requires MayPass(s.e, settled, Upcoming(s.ops, j), ready.mem, ready.current, s.ops[j])
    requires Upcoming(s.ops, j + 1) == if s.ops[j].FlushInsert? then Upcoming(s.ops, j) - {s.ops[j].p}
               else Upcoming(s.ops, j)
    ensures var c := AfterPrepare(s.e, ready, s.ops[j]);
            Ahead(s.e, s.srv, settled, Upcoming(s.ops, j + 1), OffAt(s, j + 1),
                  c.(current := c.current + [HeldAt(s, j)]), alone + [LastAlone(s, j)])
  {
    var op, off, next := s.ops[j], OffAt(s, j), OffAt(s, j + 1);
    var c := AfterPrepare(s.e, ready, op);
    AloneStep(s.e, s.srv, s.alone, off, op);
    assert next.history[|off.history|] == LastAlone(s, j) && LastAlone(s, j) in next.history;
    JoinStaysAhead(s.e, s.srv, settled, Upcoming(s.ops, j), off, ready, alone, op, next);
    SameHeld(s, j, settled, ready, alone);
    JournalAside(s.e, s.srv, settled, Upcoming(s.ops, j + 1), next,
                 ready.(mem := c.mem, current := ready.current + [HeldAt(s, j)]), c.journal, alone + [LastAlone(s, j)]);
  }

  /** The statement alone in its message, those before it sent. */
  lemma SplitGoesOn<D>(s: Setting<D>, plan: Plan, j: nat, m: Messages.Plan, settled: set<Ptr>, c: Call<D>,
      alone: seq<Completed>, last: Completed)
    requires OffWentOn(s, j) && Issues(s, j) && c.current == HeldSeq(s, m.current) && AllIssue(s, m.current) &&
             !c.failed
    requires KeyNow(s.e, c.mem, s.ops[j]) == HeldAt(s, j).key
    requires Ahead(s.e, s.srv, settled, Upcoming(s.ops, j + 1), OffAt(s, j + 1),
                   c.(current := c.current + [HeldAt(s, j)]), alone + [last])
    requires Drain(s.e, s.srv, c.mem, c.db, c.current).Drained? &&
             Twins(alone, DrainLog(s.e, s.srv, c.mem, c.db, c.current))
    requires Strayed(s, m.closed, settled, c.mem, c.current + [HeldAt(s, j)])
    ensures var split := Send(s.e, s.srv, plan, c);
            && !split.failed && split.current == [] && KeyNow(s.e, split.mem, s.ops[j]) == HeldAt(s, j).key
            && Ahead(s.e, s.srv, settled, Upcoming(s.ops, j + 1), OffAt(s, j + 1),
                     split.(current := [HeldAt(s, j)]), [last])
            && Strayed(s, Messages.Close(m).closed, settled, split.mem, [HeldAt(s, j)])
  {
    HeldIsOf(s, j);
    SplitStaysAhead(s.e, s.srv, plan, settled, Upcoming(s.ops, j + 1), OffAt(s, j + 1), c, s.ops[j], HeldAt(s, j),
                    alone, last);
    SplitIsStrayed(s, plan, j, m, settled, c, alone, last);
  }

  /** The case that the statement splits the message. */
  lemma SplitStrays<D>(s: Setting<D>, plan: Plan, j: nat, m: Messages.Plan, settled: set<Ptr>, c: Call<D>,
      alone: seq<Completed>, last: Completed)
    requires OffWentOn(s, j) && Issues(s, j) && c.current == HeldSeq(s, m.current) && AllIssue(s, m.current) &&
             !c.failed
    requires KeyNow(s.e, c.mem, s.ops[j]) == HeldAt(s, j).key
    requires Ahead(s.e, s.srv, settled, Upcoming(s.ops, j + 1), OffAt(s, j + 1),
                   c.(current := c.current + [HeldAt(s, j)]), alone + [last])
    requires Drain(s.e, s.srv, c.mem, c.db, c.current).Drained? &&
             Twins(alone, DrainLog(s.e, s.srv, c.mem, c.db, c.current))
    requires Strayed(s, m.closed, settled, c.mem, c.current + [HeldAt(s, j)])
    ensures var split := Send(s.e, s.srv, plan, c);
            var next := SentIfFull(s, plan, split.(current := [HeldAt(s, j)]));
            && !split.failed && split.current == [] && KeyNow(s.e, split.mem, s.ops[j]) == HeldAt(s, j).key
            && Strayed(s, ClosedIfFull(plan, Messages.Plan(Messages.Close(m).closed, [j])).closed, settled,
                       next.mem, next.current)
  {
    SplitGoesOn(s, plan, j, m, settled, c, alone, last);
    assert HeldSeq(s, [j]) == [HeldAt(s, j)];
    FullStrays(s, plan, Messages.Plan(Messages.Close(m).closed, [j]), settled, Upcoming(s.ops, j + 1),
               OffAt(s, j + 1), Send(s.e, s.srv, plan, c).(current := [HeldAt(s, j)]), [last]);
  }

  lemma SplitIsStrayed<D>(s: Setting<D>, plan: Plan, j: nat, m: Messages.Plan, settled: set<Ptr>, c: Call<D>,
      alone: seq<Completed>, last: Completed)
    requires j < |s.ops| && c.current == HeldSeq(s, m.current) && AllIssue(s, m.current) && !c.failed
    requires Ahead(s.e, s.srv, settled, Upcoming(s.ops, j + 1), OffAt(s, j + 1),
                   c.(current := c.current + [HeldAt(s, j)]), alone + [last])
    requires Drain(s.e, s.srv, c.mem, c.db, c.current).Drained? &&
             Twins(alone, DrainLog(s.e, s.srv, c.mem, c.db, c.current))
    requires Strayed(s, m.closed, settled, c.mem, c.current + [HeldAt(s, j)])
    ensures Strayed(s, Messages.Close(m).closed, settled, Send(s.e, s.srv, plan, c).mem, [HeldAt(s, j)])
  {
    var split, v := Send(s.e, s.srv, plan, c), HeldAt(s, j);
    SendDrains(s.e, s.srv, plan, c);
    assert forall h :: h in alone ==> h in alone + [last];
    forall p
      ensures StrayAt(s, Messages.Close(m).closed, settled, split.mem, [v], p)
    {
      assert StrayAt(s, m.closed, settled, c.mem, c.current + [v], p);
      StrayDrains(s, m, c.mem, c.db, [v], settled, Upcoming(s.ops, j + 1), alone, p);
    }
  }

  lemma HeldIsOf<D>(s: Setting<D>, j: nat)
    requires Issues(s, j)
    ensures Instance(HeldAt(s, j).write) == OpInstance(s.ops[j])
    ensures s.ops[j].DeleteKey? ==> HeldAt(s, j).write.finish == FinishDeleteKey(s.ops[j].t, s.ops[j].key)
                                    && ValidKeyArgument(MapOf(s.e, s.ops[j].t), s.ops[j].key)
  {
    var flowed := Flow(s.e, OffAt(s, j).mem, s.ops[j]);
    PrepareOnly(s.e, flowed, s.ops[j]);
    IssuedFinish(s.e, flowed, s.ops[j]);
  }

  lemma NothingStrays<D>(s: Setting<D>, plan: Plan, j: nat, m: Messages.Plan, settled: set<Ptr>, ready: Call<D>,
      alone: seq<Completed>)
    requires OffWentOn(s, j) && Ahead(s.e, s.srv, settled, Upcoming(s.ops, j), OffAt(s, j), ready, alone) &&
             !Issues(s, j)
    requires MayPass(s.e, settled, Upcoming(s.ops, j), ready.mem, ready.current, s.ops[j])
    requires Strayed(s, m.closed, settled, ready.mem, ready.current)
    ensures var next := Proceed(s.e, s.srv, plan, ready, s.ops[j]);
            Strayed(s, m.closed, settled, next.mem, next.current)
  {
    SameHeld(s, j, settled, ready, alone);
    var after := AfterPrepare(s.e, ready, s.ops[j]);
    assert Proceed(s.e, s.srv, plan, ready, s.ops[j]) == after;
    forall p
      ensures StrayAt(s, m.closed, settled, after.mem, ready.current, p)
    {
      assert StrayAt(s, m.closed, settled, ready.mem, ready.current, p);
      PrepareStrays(s, m.closed, settled, Upcoming(s.ops, j), ready.mem, ready.current, s.ops[j], p);
    }
  }

  /** Past rule 1, a cleared operation keeps the run in step. */
  lemma ProceedInStep<D>(s: Setting<D>, plan: Plan, j: nat, m: Messages.Plan, ready: Call<D>, alone: seq<Completed>)
    returns (left: seq<Completed>)
    requires InStep(s, j, m, ready, alone) && OffWentOn(s, j) && Free(s.e, ready.mem, ready.current, s.ops[j])
    requires Cleared(s, m.closed, j)
    ensures InStep(s, j + 1, if Issues(s, j) then Messages.Add(FactsOf(s, plan), m, j) else m,
                   Proceed(s.e, s.srv, plan, ready, s.ops[j]), left)
  {
    var settled := Firm(ready.mem, s.ops);
    var next := Proceed(s.e, s.srv, plan, ready, s.ops[j]);
    var grown := if Issues(s, j) then Messages.Add(FactsOf(s, plan), m, j) else m;
    MayGoOn(s, j, m, ready, alone);
    ProceedFollows(s, plan, j, m, settled, ready, alone);
    if Issues(s, j) {
      IssuedStrays(s, plan, j, m, settled, ready, alone);
    } else {
      NothingStrays(s, plan, j, m, settled, ready, alone);
    }
    left := ProceedStaysAhead(s.e, s.srv, s.alone, plan, settled, Upcoming(s.ops, j), OffAt(s, j), ready, alone,
                              s.ops[j]);
    Arrivals.ProceedKeepsShape(s.e, s.srv, plan, ready, s.ops[j]);
    GrowsToFirm(s, grown.closed, settled, ready.mem, Upcoming(s.ops, j + 1), OffAt(s, j + 1), next, left);
  }

  // --- the whole call -----------------------------------------------------------------------------------------

  /** What blocks the operation was freed by a message sent by the time it prepares. */
  ghost predicate InTime<D>(s: Setting<D>, plan: Plan, j: nat) {
    Cleared(s, Messages.Ready(FactsOf(s, plan), Messages.Eager(FactsOf(s, plan), j), j).closed, j)
  }

  lemma StepGrowsGuids<D>(e: Env, srv: Server<D>, plan: Plan, off: Call<D>, op: Op)
    requires plan.limit <= 1 && !off.failed && off.current == [] && !Step(e, srv, plan, off, op).failed
    ensures off.mem.guids <= Step(e, srv, plan, off, op).mem.guids && Step(e, srv, plan, off, op).current == []
  {
    AloneStep(e, srv, plan, off, op);
    GuidsGrow(e, off.mem, op);
    if Prepared(e, off.mem, op).issue.Issued? {
      var h := AloneOf(e, srv, off, op);
      CompleteOnly(e, h.before, h.write, h.reply);
    }
  }

  lemma {:induction false} GuidsGrowAlone<D>(s: Setting<D>, n: nat)
    requires n <= |s.ops| && s.alone.limit <= 1 && !OffAt(s, n).failed
    ensures s.start.guids <= OffAt(s, n).mem.guids && OffAt(s, n).current == []
    decreases n
  {
    if n == 0 {
      OffStarts(s);
    } else {
      OffSteps(s, n - 1);
      GuidsGrowAlone(s, n - 1);
      StepGrowsGuids(s.e, s.srv, s.alone, OffAt(s, n - 1), s.ops[n - 1]);
    }
  }

  lemma {:induction false} DrainKeepsGuids<D>(e: Env, srv: Server<D>, mem: Mem, db: D, ws: seq<Pending>)
    requires Drain(e, srv, mem, db, ws).Drained?
    ensures Drain(e, srv, mem, db, ws).mem.guids == mem.guids
    decreases |ws|
  {
    if ws != [] {
      var (next, reply) := srv.run(db, ws[0].write.stmt);
      CompleteOnly(e, mem, ws[0].write, reply);
      DrainKeepsGuids(e, srv, Complete(e, mem, ws[0].write, reply).mem, next, ws[1..]);
    }
  }

  /** A GUID to hand out is no key tracked before the call. */
  lemma AssignedIsNew(e: Env, start: Mem, mem: Mem, op: Op, x: Entry)
    requires op.Insert? && GuidsAhead(e, start) && IdOf(x) in start.ids.byKey && start.guids <= mem.guids
    requires x.key != KeyOf(mem, op.p)
    ensures KeyOf(AtGate(e, mem, op), op.p) != x.key
  {
    assert IdOf(x).1 == x.key;
    assert x.key != [] ==> x.key[0] != Guid(e.newGuid(mem.guids));
  }

  /** The gate is closed on an instance tracked under a key it does not hold. */
  lemma OwnEntryRefuses(e: Env, start: Mem, mem: Mem, op: Op, x: Entry)
    requires Gated(e, op) && !op.FlushInsert? && EntryOf(mem.ids, op.p) == Some(x) && x.key != KeyOf(mem, op.p)
    requires op.Insert? ==> GuidsAhead(e, start) && IdOf(x) in start.ids.byKey && start.guids <= mem.guids
    ensures Prepared(e, mem, op).issue.Refused?
  {
    if op.Insert? {
      AssignedIsNew(e, start, mem, op, x);
    }
    if !Prepared(e, mem, op).issue.Refused? {
      OpenAt(e, mem, op);
    }
  }

  /** The gate is closed on a key another instance is tracked under. */
  lemma OtherEntryRefuses(e: Env, mem: Mem, op: Op, x: Entry)
    requires Gated(e, op) && Consistent(mem.ids) && EntryOf(mem.ids, x.ptr) == Some(x) && x.ptr != op.p
    requires IdOf(x) == (TypeOf(e, op.p), GateKey(e, mem, op)) && !HasNull(x.key)
    requires EntryOf(mem.ids, op.p).Some? ==> EntryOf(mem.ids, op.p).value.etype == TypeOf(e, op.p)
    ensures Prepared(e, mem, op).issue.Refused?
  {
    var gate := AtGate(e, Flow(e, mem, op), op);
    FlowedIds(e, mem, op);
    assert gate.ids == mem.ids && mem.ids.byKey[IdOf(x)] == x;
    if !Prepared(e, mem, op).issue.Refused? {
      OpenAt(e, Flow(e, mem, op), op);
      OpenGate(e, gate, op.p, x);
    }
  }

  lemma GuidsAtReady<D>(s: Setting<D>, j: nat, settled: set<Ptr>, ready: Call<D>, alone: seq<Completed>)
    requires OffWentOn(s, j) && Ahead(s.e, s.srv, settled, Upcoming(s.ops, j), OffAt(s, j), ready, alone)
    ensures s.start.guids <= ready.mem.guids
  {
    GuidsGrowAlone(s, j);
    DrainKeepsGuids(s.e, s.srv, ready.mem, ready.db, ready.current);
  }

  /** What blocks and was not freed stands as the call found it. */
  lemma BlockStands<D>(s: Setting<D>, j: nat, closed: seq<seq<nat>>, settled: set<Ptr>, ready: Call<D>, p: Ptr)
    requires Strayed(s, closed, settled, ready.mem, ready.current) && Blocks(s, j, p) && !FreedBy(s, closed, p)
    ensures EntryOf(ready.mem.ids, p) == EntryOf(s.start.ids, p) && EntryOf(s.start.ids, p).value.ptr == p
    ensures KeyOf(ready.mem, p) == KeyOf(s.start, p)
  {
    assert StrayAt(s, closed, settled, ready.mem, ready.current, p);
  }

  lemma OwnBlockIsStale<D>(s: Setting<D>, j: nat)
    requires Orderly(s) && j < |s.ops| && Gated(s.e, s.ops[j]) && Blocks(s, j, s.ops[j].p)
    ensures !s.ops[j].FlushInsert? && Stale(s.start, s.ops[j].p)
    ensures s.ops[j].Insert? ==> GuidsAhead(s.e, s.start)
    ensures IdOf(EntryOf(s.start.ids, s.ops[j].p).value) in s.start.ids.byKey
  {
    assert s.ops[j] in s.ops && s.ops[j].p in Written(s.ops);
  }

  lemma OwnBlockFails<D>(s: Setting<D>, j: nat, closed: seq<seq<nat>>, settled: set<Ptr>, ready: Call<D>)
    requires Strayed(s, closed, settled, ready.mem, ready.current) && Orderly(s)
    requires j < |s.ops| && Gated(s.e, s.ops[j]) && Blocks(s, j, s.ops[j].p) && !FreedBy(s, closed, s.ops[j].p)
    requires s.start.guids <= ready.mem.guids
    ensures Prepared(s.e, ready.mem, s.ops[j]).issue.Refused?
  {
    BlockStands(s, j, closed, settled, ready, s.ops[j].p);
    OwnBlockIsStale(s, j);
    OwnEntryRefuses(s.e, s.start, ready.mem, s.ops[j], EntryOf(s.start.ids, s.ops[j].p).value);
  }

  lemma OtherBlockFails<D>(s: Setting<D>, j: nat, m: Messages.Plan, ready: Call<D>, alone: seq<Completed>, p: Ptr)
    requires InStep(s, j, m, ready, alone) && OffWentOn(s, j) && Free(s.e, ready.mem, ready.current, s.ops[j])
    requires Blocks(s, j, p) && !FreedBy(s, m.closed, p) && p != s.ops[j].p
    requires Blocks(s, j, s.ops[j].p) ==> FreedBy(s, m.closed, s.ops[j].p)
    ensures Prepared(s.e, ready.mem, s.ops[j]).issue.Refused?
  {
    var op, x := s.ops[j], EntryOf(s.start.ids, p).value;
    assert op in s.ops && op.p in Written(s.ops);
    assert StrayAt(s, m.closed, Firm(ready.mem, s.ops), ready.mem, ready.current, p);
    assert StrayAt(s, m.closed, Firm(ready.mem, s.ops), ready.mem, ready.current, op.p);
    assert SettledAt(s.e, ready.mem, op.p);
    GateKeyAlike(s, j, m, ready, alone);
    OtherEntryRefuses(s.e, ready.mem, op, x);
  }

  /** An operation that something blocks refuses. */
  lemma BlockedFails<D>(s: Setting<D>, plan: Plan, j: nat, m: Messages.Plan, ready: Call<D>, alone: seq<Completed>)
    requires InStep(s, j, m, ready, alone) && OffWentOn(s, j) && Free(s.e, ready.mem, ready.current, s.ops[j])
    requires !Cleared(s, m.closed, j)
    ensures Proceed(s.e, s.srv, plan, ready, s.ops[j]).failed
  {
    var op := s.ops[j];
    var p :| Blocks(s, j, p) && !FreedBy(s, m.closed, p);
    if Blocks(s, j, op.p) && !FreedBy(s, m.closed, op.p) {
      GuidsAtReady(s, j, Firm(ready.mem, s.ops), ready, alone);
      OwnBlockFails(s, j, m.closed, Firm(ready.mem, s.ops), ready);
    } else {
      OtherBlockFails(s, j, m, ready, alone, p);
    }
    FlowOnly(s.e, ready.mem, op);
  }

  /** One operation: the run stays in step when the operation is in time, and fails when it is not. */
  lemma StepInStep<D>(s: Setting<D>, plan: Plan, j: nat, c: Call<D>, alone: seq<Completed>)
    returns (left: seq<Completed>)
    requires OffWentOn(s, j) && InStep(s, j, Messages.Eager(FactsOf(s, plan), j), c, alone)
    ensures var next := Step(s.e, s.srv, plan, c, s.ops[j]);
            && (InTime(s, plan, j) ==> InStep(s, j + 1, Messages.Eager(FactsOf(s, plan), j + 1), next, left))
            && (!InTime(s, plan, j) ==> next.failed)
  {
    var ready := Before(s.e, s.srv, plan, c, s.ops[j]);
    var m := Messages.Ready(FactsOf(s, plan), Messages.Eager(FactsOf(s, plan), j), j);
    left := BeforeInStep(s, plan, j, Messages.Eager(FactsOf(s, plan), j), c, alone);
    SentIsFree(s, plan, c, s.ops[j]);
    if InTime(s, plan, j) {
      left := ProceedInStep(s, plan, j, m, ready, left);
    } else {
      BlockedFails(s, plan, j, m, ready, left);
    }
  }

  lemma StartsTidy<D>(s: Setting<D>)
    requires Orderly(s)
    ensures Tidy(s.e, Firm(s.start, s.ops), Upcoming(s.ops, 0), s.start, [])
  {
    assert Waiting([]) == {};
  }

  lemma StartsStrayed<D>(s: Setting<D>)
    requires Orderly(s)
    ensures Strayed(s, [], Firm(s.start, s.ops), s.start, [])
  {
  }

  lemma StartsInStep<D>(s: Setting<D>, plan: Plan)
    requires Eligible(s) && OffSucceeds(s)
    ensures InStep(s, 0, Messages.Plan([], []), Start(s.start, s.db), [])
  {
    StartsTidy(s);
    StartsStrayed(s);
    OffStarts(s);
    assert HeldSeq(s, []) == [] && SentTexts(s, []) == [];
  }

  lemma OffStarts<D>(s: Setting<D>)
    ensures OffAt(s, 0) == Start(s.start, s.db)
  {
    assert s.ops[..0] == [];
  }

  ghost predicate AllInTime<D>(s: Setting<D>, plan: Plan, n: nat) {
    forall j :: 0 <= j < n ==> InTime(s, plan, j)
  }

  /** After n operations: in step when all were in time, failed otherwise. */
  ghost predicate Arrived<D>(s: Setting<D>, plan: Plan, n: nat, c: Call<D>, alone: seq<Completed>) {
    && (AllInTime(s, plan, n) ==> InStep(s, n, Messages.Eager(FactsOf(s, plan), n), c, alone))
    && (!AllInTime(s, plan, n) ==> c.failed)
  }

  lemma AllInTimeNext<D>(s: Setting<D>, plan: Plan, j: nat)
    ensures AllInTime(s, plan, j + 1) <==> AllInTime(s, plan, j) && InTime(s, plan, j)
  {
  }

  lemma NextArrives<D>(s: Setting<D>, plan: Plan, j: nat, c: Call<D>, alone: seq<Completed>)
    returns (left: seq<Completed>)
    requires OffWentOn(s, j) && Arrived(s, plan, j, c, alone)
    ensures Arrived(s, plan, j + 1, Step(s.e, s.srv, plan, c, s.ops[j]), left)
  {
    AllInTimeNext(s, plan, j);
    left := alone;
    if AllInTime(s, plan, j) {
      left := StepInStep(s, plan, j, c, alone);
    } else {
      assert Step(s.e, s.srv, plan, c, s.ops[j]) == c;
    }
  }

  ghost function AutoAt<D>(s: Setting<D>, plan: Plan, n: nat): Call<D> {
    Steps(s.e, s.srv, plan, Start(s.start, s.db), s.ops[..if n <= |s.ops| then n else |s.ops|])
  }

  lemma AutoSteps<D>(s: Setting<D>, plan: Plan, j: nat)
    requires j < |s.ops|
    ensures AutoAt(s, plan, j + 1) == Step(s.e, s.srv, plan, AutoAt(s, plan, j), s.ops[j])
  {
    assert s.ops[..j + 1][..j] == s.ops[..j];
  }

  lemma StartArrives<D>(s: Setting<D>, plan: Plan)
    requires Eligible(s) && OffSucceeds(s)
    ensures Arrived(s, plan, 0, AutoAt(s, plan, 0), [])
  {
    StartsInStep(s, plan);
    AutoStarts(s, plan);
  }

  lemma AutoStarts<D>(s: Setting<D>, plan: Plan)
    ensures AutoAt(s, plan, 0) == Start(s.start, s.db)
  {
    assert s.ops[..0] == [];
  }

  ghost predicate Arrives<D>(s: Setting<D>, plan: Plan, n: nat) {
    exists left :: Arrived(s, plan, n, AutoAt(s, plan, n), left)
  }

  lemma ArrivesNext<D>(s: Setting<D>, plan: Plan, j: nat)
    requires OffWentOn(s, j) && Arrives(s, plan, j)
    ensures Arrives(s, plan, j + 1)
  {
    var left :| Arrived(s, plan, j, AutoAt(s, plan, j), left);
    AutoSteps(s, plan, j);
    left := NextArrives(s, plan, j, AutoAt(s, plan, j), left);
    assert Arrived(s, plan, j + 1, AutoAt(s, plan, j + 1), left);
  }

  lemma ArrivesAtStart<D>(s: Setting<D>, plan: Plan)
    requires Eligible(s) && OffSucceeds(s)
    ensures Arrives(s, plan, 0)
  {
    StartArrives(s, plan);
  }

  ghost predicate OffGoes<D>(s: Setting<D>) {
    forall j :: 0 <= j < |s.ops| ==> OffWentOn(s, j)
  }

  lemma OffGoesAt<D>(s: Setting<D>, j: nat)
    requires OffGoes(s) && j < |s.ops|
    ensures OffWentOn(s, j)
  {
  }

  lemma {:induction false} StepsArrive<D>(s: Setting<D>, plan: Plan, n: nat)
    requires Arrives(s, plan, 0) && n <= |s.ops| && OffGoes(s)
    ensures Arrives(s, plan, n)
    decreases n
  {
    if n > 0 {
      StepsArrive(s, plan, n - 1);
      OffGoesAt(s, n - 1);
      ArrivesNext(s, plan, n - 1);
    }
  }

  /**
   Batching refines no batching, exactly. Of a call that succeeds statement by statement, its keys
   arriving fresh: under any plan it succeeds if and only if by the time an operation prepares, a message
   already sent has freed whatever entry the operation's identity gate would close on. Then it ends in
   the same database and the same memory, and what it sends are the planner's messages.
   */
  lemma BatchingRefinesIff<D>(s: Setting<D>, plan: Plan)
    requires Eligible(s) && OffSucceeds(s)
    ensures var off, auto := Run(s.e, s.srv, s.alone, s.start, s.db, s.ops),
            Run(s.e, s.srv, plan, s.start, s.db, s.ops);
            && (!auto.failed <==> AllInTime(s, plan, |s.ops|))
            && (!auto.failed ==> auto.mem == off.mem && auto.db == off.db
                                 && auto.sent == SentTexts(s, Messages.EagerMessages(FactsOf(s, plan), |s.ops|)))
  {
    var n := |s.ops|;
    var c := Steps(s.e, s.srv, plan, Start(s.start, s.db), s.ops);
    assert s.ops[..n] == s.ops;
    forall j | 0 <= j < n
      ensures OffWentOn(s, j)
    {
      OffGoesOn(s, j);
    }
    ArrivesAtStart(s, plan);
    StepsArrive(s, plan, n);
    var left :| Arrived(s, plan, n, AutoAt(s, plan, n), left);
    if AllInTime(s, plan, n) {
      SendCatchesUp(s.e, s.srv, plan, Firm(c.mem, s.ops), Upcoming(s.ops, n), OffAt(s, n), c, left);
      SendFollows(s, plan, Messages.Eager(FactsOf(s, plan), n), c);
    }
  }

  // --- what the caller can check ------------------------------------------------------------------------------

  /** No operation frees an entry that blocks a later one. */
  ghost predicate NothingFreed<D>(s: Setting<D>) {
    forall i, j, p :: i < j && Blocks(s, j, p) ==> !Frees(s, i, p)
  }

  lemma {:induction false} EagerIsBelow(f: Messages.Facts, n: nat)
    ensures forall i :: i in Messages.Eager(f, n).current ==> i < n
    ensures forall message, i :: message in Messages.Eager(f, n).closed && i in message ==> i < n
  {
    if n > 0 {
      EagerIsBelow(f, n - 1);
    }
  }

  lemma ReadyIsBelow(f: Messages.Facts, n: nat)
    ensures forall message, i :: message in Messages.Ready(f, Messages.Eager(f, n), n).closed && i in message ==> i < n
  {
    EagerIsBelow(f, n);
  }

  /** Then nothing blocks any operation: without batching the call would have failed. */
  lemma NothingFreedIsInTime<D>(s: Setting<D>, plan: Plan, j: nat)
    requires Eligible(s) && OffSucceeds(s) && NothingFreed(s) && j < |s.ops|
    ensures InTime(s, plan, j)
  {
    BatchingRefinesIff(s, s.alone);
    assert InTime(s, s.alone, j);
    ReadyIsBelow(FactsOf(s, s.alone), j);
  }

  /**
   Batching refines no batching: a call that succeeds statement by statement, its keys arriving fresh,
   and that frees no entry in a later operation's way, succeeds in messages of any size, with the same statements in the
   same order, the same database, and the same memory: instances, identity map and snapshots.
   */
  lemma BatchingRefinesOff<D>(s: Setting<D>, plan: Plan)
    requires Eligible(s) && OffSucceeds(s) && NothingFreed(s)
    ensures var off, auto := Run(s.e, s.srv, s.alone, s.start, s.db, s.ops),
            Run(s.e, s.srv, plan, s.start, s.db, s.ops);
            && !auto.failed && auto.mem == off.mem && auto.db == off.db
            && auto.sent == SentTexts(s, Messages.EagerMessages(FactsOf(s, plan), |s.ops|))
  {
    forall j | 0 <= j < |s.ops|
      ensures InTime(s, plan, j)
    {
      NothingFreedIsInTime(s, plan, j);
    }
    BatchingRefinesIff(s, plan);
  }

  // --- optimality of the messages sent -------------------------------------------------------------------------

  /**
   When every operation issues a statement, no order-preserving grouping that obeys the rules, read off the
   run without batching, has fewer messages than the call sends.
   */
  lemma RunIsOptimal<D>(s: Setting<D>, plan: Plan, other: seq<seq<nat>>)
    requires Eligible(s) && OffSucceeds(s) && AllInTime(s, plan, |s.ops|) && plan.limit >= 1
    requires (forall i :: 0 <= i < |s.ops| ==> Issues(s, i)) && Messages.Grouping(FactsOf(s, plan), |s.ops|, other)
    ensures Messages.Grouping(FactsOf(s, plan), |s.ops|, Messages.EagerMessages(FactsOf(s, plan), |s.ops|))
    ensures |Run(s.e, s.srv, plan, s.start, s.db, s.ops).sent| <= |other|
  {
    BatchingRefinesIff(s, plan);
    Messages.PlanIsOptimal(FactsOf(s, plan), |s.ops|, other);
  }

  /** What a call sends are its issued statements in order, in messages that are not empty and obey the rules. */
  lemma RunConservesAndSeparates<D>(s: Setting<D>, plan: Plan)
    requires Eligible(s) && OffSucceeds(s) && AllInTime(s, plan, |s.ops|) && plan.limit >= 1
    ensures var messages := Messages.EagerMessages(FactsOf(s, plan), |s.ops|);
            && Run(s.e, s.srv, plan, s.start, s.db, s.ops).sent == SentTexts(s, messages)
            && Messages.Concat(messages) == Messages.IssuedBelow(FactsOf(s, plan), |s.ops|)
            && forall m :: m in messages ==> m != [] && Messages.Legal(FactsOf(s, plan), m)
  {
    BatchingRefinesIff(s, plan);
    Messages.MessagesConserveAndSeparate(FactsOf(s, plan), |s.ops|);
  }
}
