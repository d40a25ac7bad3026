/**
 The message plan of a real call. What the rules read of its operations is read off the run without
 batching, so it is the same for every plan; from it the planner forms the messages the call sends.
 */
module RunPlans {
  import opened Values
  import opened Entities
  import opened IdentityMap
  import opened Writes
  import opened Calls
  import opened Frames
  import opened Restoring
  import opened KeyRules
  import opened Strays
  import opened Rollbacks
  import opened Commuting
  import opened Refinement
  import opened Freeing
  import Arrivals
  import Forming
  import Messages

  /** A call and the plan that sends every statement alone. */
  datatype Setting<!D> = Setting(e: Env, srv: Server<D>, alone: Plan, start: Mem, db: D, ops: seq<Op>)

  ghost function OffAt<D>(s: Setting<D>, n: nat): Call<D> {
    Steps(s.e, s.srv, s.alone, Start(s.start, s.db), s.ops[..if n <= |s.ops| then n else |s.ops|])
  }

  // --- what the rules read -------------------------------------------------------------------------

  ghost function PreparedAlone<D>(s: Setting<D>, i: nat): Preparation
    requires i < |s.ops|
  {
    Prepared(s.e, OffAt(s, i).mem, s.ops[i])
  }

  ghost predicate Issues<D>(s: Setting<D>, i: nat) {
    i < |s.ops| && PreparedAlone(s, i).issue.Issued?
  }

  const NO_STATEMENT := Pending(Write(Command(0, 0), DriverCount, FinishCommand), None)

  /** The statement of operation i, and the key it is about as it was prepared. */
  ghost function HeldAt<D>(s: Setting<D>, i: nat): Pending {
    if Issues(s, i) then Pending(PreparedAlone(s, i).issue.write, KeyNow(s.e, PreparedAlone(s, i).mem, s.ops[i]))
      else NO_STATEMENT
  }

  /** Rule 1 between the statement of operation i and the operation j. */
  ghost predicate DependsAt<D>(s: Setting<D>, i: nat, j: nat) {
    Issues(s, i) && j < |s.ops| && Clashes(s.e, OffAt(s, j).mem, HeldAt(s, i), s.ops[j])
  }

  ghost function FactsOf<D>(s: Setting<D>, plan: Plan): Messages.Facts {
    Messages.Facts(
      (i: nat, j: nat) => DependsAt(s, i, j),
      (i: nat) => Issues(s, i),
      (i: nat) => ArgCount(HeldAt(s, i).write.stmt),
      (i: nat) => ReadsResult(HeldAt(s, i).write),
      (i: nat) => IsCommand(HeldAt(s, i).write),
      plan.limit, plan.parameterCap)
  }

  ghost function HeldSeq<D>(s: Setting<D>, message: seq<nat>): seq<Pending> {
    seq(|message|, k requires 0 <= k < |message| => HeldAt(s, message[k]))
  }

  ghost function SentTexts<D>(s: Setting<D>, messages: seq<seq<nat>>): seq<seq<Statement>> {
    seq(|messages|, k requires 0 <= k < |messages| => Texts(HeldSeq(s, messages[k])))
  }

  ghost predicate AllIssue<D>(s: Setting<D>, message: seq<nat>) {
    forall i :: i in message ==> Issues(s, i)
  }

  /** The call has sent the plan's messages and holds the one in progress. */
  ghost predicate Follows<D>(s: Setting<D>, m: Messages.Plan, c: Call<D>) {
    && AllIssue(s, m.current) && (forall message :: message in m.closed ==> AllIssue(s, message))
    && c.current == HeldSeq(s, m.current) && c.sent == SentTexts(s, m.closed)
  }

  // --- sending -----------------------------------------------------------------------------------------

  lemma SendCloses<D>(e: Env, srv: Server<D>, plan: Plan, c: Call<D>)
    ensures var sent := Send(e, srv, plan, c);
            sent.current == [] && sent.sent == if c.current == [] then c.sent else c.sent + [Texts(c.current)]
  {
    Arrivals.SendEmpties(e, srv, plan, c);
    if c.current != [] {
      Forming.SentStays(e, srv, c.(current := [], sent := c.sent + [Texts(c.current)]), c.current);
    }
  }

  lemma SendFollows<D>(s: Setting<D>, plan: Plan, m: Messages.Plan, c: Call<D>)
    requires Follows(s, m, c)
    ensures Follows(s, Messages.Close(m), Send(s.e, s.srv, plan, c))
  {
    SendCloses(s.e, s.srv, plan, c);
    if m.current != [] {
      assert SentTexts(s, m.closed + [m.current]) == SentTexts(s, m.closed) + [Texts(HeldSeq(s, m.current))];
    }
  }

  // --- rule 1 ---------------------------------------------------------------------------------------------

  /** Past the completion of statements on other instances the operation's key is the same. */
  lemma KeyNowThroughDrain<D>(e: Env, srv: Server<D>, mem: Mem, db: D, ws: seq<Pending>, op: Op)
    requires Drain(e, srv, mem, db, ws).Drained?
    requires OpInstance(op).Some? ==> forall w :: w in ws ==> Instance(w.write) != OpInstance(op)
    ensures KeyNow(e, Drain(e, srv, mem, db, ws).mem, op) == KeyNow(e, mem, op)
  {
    if OpInstance(op).Some? {
      KeysThroughDrain(e, srv, mem, db, ws, op.p);
    }
  }

  /**
   The message in progress holds a dependency in its own memory exactly when it does in that of the run without
   batching.
   */
  lemma ClashesAlike<D>(e: Env, srv: Server<D>, mem: Mem, db: D, ws: seq<Pending>, op: Op)
    requires Drain(e, srv, mem, db, ws).Drained?
    ensures (exists held :: held in ws && Clashes(e, mem, held, op)) <==>
            (exists held :: held in ws && Clashes(e, Drain(e, srv, mem, db, ws).mem, held, op))
  {
    if OpInstance(op).Some? && exists w :: w in ws && Instance(w.write) == OpInstance(op) {
      var w :| w in ws && Instance(w.write) == OpInstance(op);
      assert Clashes(e, mem, w, op) && Clashes(e, Drain(e, srv, mem, db, ws).mem, w, op);
    } else {
      KeyNowThroughDrain(e, srv, mem, db, ws, op);
      assert forall held :: Clashes(e, mem, held, op) <==> Clashes(e, Drain(e, srv, mem, db, ws).mem, held, op);
    }
  }

  lemma CutsAlike<D>(s: Setting<D>, plan: Plan, m: Messages.Plan, c: Call<D>, j: nat)
    requires Follows(s, m, c) && j < |s.ops| &&
             Drain(s.e, s.srv, c.mem, c.db, c.current) == Drained(OffAt(s, j).mem, OffAt(s, j).db)
    ensures (exists held :: held in c.current && Clashes(s.e, c.mem, held, s.ops[j])) <==>
              Messages.DependsOnMessage(FactsOf(s, plan), m.current, j)
  {
    var op, off := s.ops[j], OffAt(s, j).mem;
    ClashesAlike(s.e, s.srv, c.mem, c.db, c.current, op);
    if held :| held in c.current && Clashes(s.e, off, held, op) {
      var k :| 0 <= k < |c.current| && c.current[k] == held;
      assert m.current[k] in m.current && DependsAt(s, m.current[k], j);
    }
    if Messages.DependsOnMessage(FactsOf(s, plan), m.current, j) {
      var i :| i in m.current && DependsAt(s, i, j);
      var k :| 0 <= k < |m.current| && m.current[k] == i;
      assert c.current[k] in c.current && Clashes(s.e, off, c.current[k], op);
    }
  }

  // --- rules 2 and 3 ----------------------------------------------------------------------------------------

  lemma {:induction false} ParamsAlike<D>(s: Setting<D>, plan: Plan, message: seq<nat>)
    ensures Parameters(HeldSeq(s, message)) == Messages.Params(FactsOf(s, plan), message)
  {
    if message != [] {
      var front := message[..|message| - 1];
      assert HeldSeq(s, message)[..|message| - 1] == HeldSeq(s, front);
      ParamsAlike(s, plan, front);
    }
  }

  lemma SplitsAlike<D>(s: Setting<D>, plan: Plan, message: seq<nat>, j: nat)
    ensures Splits(plan, HeldSeq(s, message), HeldAt(s, j).write) <==>
            message != [] && Messages.OverflowsOrReads(FactsOf(s, plan), message, j)
  {
    ParamsAlike(s, plan, message);
    var held := HeldSeq(s, message);
    if exists w :: w in held && IsCommand(w.write) {
      var w :| w in held && IsCommand(w.write);
      var k :| 0 <= k < |held| && held[k] == w;
      assert message[k] in message;
    }
    if exists i :: i in message && IsCommand(HeldAt(s, i).write) {
      var i :| i in message && IsCommand(HeldAt(s, i).write);
      var k :| 0 <= k < |message| && message[k] == i;
      assert held[k] in held;
    }
  }

  lemma HeldAppend<D>(s: Setting<D>, message: seq<nat>, j: nat)
    requires AllIssue(s, message) && Issues(s, j)
    ensures HeldSeq(s, message + [j]) == HeldSeq(s, message) + [HeldAt(s, j)] && AllIssue(s, message + [j])
  {
  }

  /** Joining the message, then sending it if that fills it. */
  lemma JoinFollows<D>(s: Setting<D>, plan: Plan, m: Messages.Plan, c: Call<D>, j: nat)
    requires Follows(s, m, c) && Issues(s, j)
    ensures var joined := c.(current := c.current + [HeldAt(s, j)]);
            var grown := m.(current := m.current + [j]);
            Follows(s, if |grown.current| >= plan.limit then Messages.Close(grown) else grown,
                    if |joined.current| >= plan.limit then Send(s.e, s.srv, plan, joined) else joined)
  {
    var joined := c.(current := c.current + [HeldAt(s, j)]);
    var grown := m.(current := m.current + [j]);
    HeldAppend(s, m.current, j);
    assert Follows(s, grown, joined);
    SendFollows(s, plan, grown, joined);
  }

  lemma AddFollows<D>(s: Setting<D>, plan: Plan, m: Messages.Plan, c: Call<D>, j: nat)
    requires Follows(s, m, c) && Issues(s, j)
    requires !c.failed && KeyNow(s.e, c.mem, s.ops[j]) == HeldAt(s, j).key
    requires Drain(s.e, s.srv, c.mem, c.db, c.current).Drained?
    requires OpInstance(s.ops[j]).Some? ==> forall w :: w in c.current ==> Instance(w.write) != OpInstance(s.ops[j])
    ensures Follows(s, Messages.Add(FactsOf(s, plan), m, j),
                    Calls.Add(s.e, s.srv, plan, c, HeldAt(s, j).write, s.ops[j]))
  {
    SplitsAlike(s, plan, m.current, j);
    if Splits(plan, c.current, HeldAt(s, j).write) {
      SendFollows(s, plan, m, c);
      SendDrains(s.e, s.srv, plan, c);
      KeyNowThroughDrain(s.e, s.srv, c.mem, c.db, c.current, s.ops[j]);
      JoinFollows(s, plan, Messages.Close(m), Send(s.e, s.srv, plan, c), j);
    } else {
      JoinFollows(s, plan, m, c, j);
    }
  }
}
