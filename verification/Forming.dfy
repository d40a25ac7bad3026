/** The messages of a real call: what each may hold, and that together they are the issued statements. */
module Forming {
  import opened Values
  import opened Entities
  import opened IdentityMap
  import opened Writes
  import opened Calls
  import opened Frames
  import opened KeyRules
  import opened Refinement
  import opened Arrivals

  /**
   What the rules allow of one message: its size, its parameters, an instance once, no result read after a
   command.
   */
  ghost predicate Fits(plan: Plan, ws: seq<Pending>) {
    && |ws| <= Max(plan.limit, 1)
    && (plan.parameterCap > 0 && |ws| >= 2 ==> Parameters(ws) <= plan.parameterCap)
    && (forall i, j :: 0 <= i < j < |ws| ==> Compatible(ws[i], ws[j]))
  }

  function Max(a: nat, b: nat): nat { if a >= b then a else b }

  /** The later statement is not of the same instance, and reads no result past a command. */
  predicate Compatible(first: Pending, later: Pending) {
    && (Instance(later.write).Some? ==> Instance(first.write) != Instance(later.write))
    && !(IsCommand(first.write) && ReadsResult(later.write))
  }

  /** Between operations: the message in progress fits and is not full, and every message sent fitted. */
  ghost predicate Formed<D>(plan: Plan, c: Call<D>) {
    && Fits(plan, c.current) && (c.current != [] ==> |c.current| < plan.limit)
    && forall m :: m in c.sent ==> Fitted(plan, m)
  }

  ghost predicate Fitted(plan: Plan, m: seq<Statement>) {
    exists ws :: ws != [] && Fits(plan, ws) && Texts(ws) == m
  }

  lemma SendForms<D>(e: Env, srv: Server<D>, plan: Plan, c: Call<D>)
    requires Fits(plan, c.current) && forall m :: m in c.sent ==> Fitted(plan, m)
    ensures Formed(plan, Send(e, srv, plan, c))
    ensures Send(e, srv, plan, c).current == []
    ensures Flat(Send(e, srv, plan, c).sent) == Flat(c.sent) + Texts(c.current)
  {
    SendEmpties(e, srv, plan, c);
    if c.current != [] {
      assert Fitted(plan, Texts(c.current));
      var started := c.(current := [], sent := c.sent + [Texts(c.current)]);
      FlatAppend(c.sent, Texts(c.current));
      SentStays(e, srv, started, c.current);
    } else {
      assert Texts(c.current) == [];
    }
  }

  lemma SentStays<D>(e: Env, srv: Server<D>, c: Call<D>, writes: seq<Pending>)
    ensures SendEach(e, srv, c, writes).sent == c.sent && SendTogether(e, srv, c, writes).sent == c.sent
  {
    SendEachSent(e, srv, c, writes);
    var (db, replies) := RunAll(srv, c.db, writes);
    ApplyAllSent(e, c.(db := db), writes, replies);
  }

  lemma {:induction false} SendEachSent<D>(e: Env, srv: Server<D>, c: Call<D>, writes: seq<Pending>)
    ensures SendEach(e, srv, c, writes).sent == c.sent
    decreases |writes|
  {
    if !c.failed && writes != [] {
      var (db, reply) := srv.run(c.db, writes[0].write.stmt);
      SendEachSent(e, srv, Apply(e, c.(db := db), writes, reply), writes[1..]);
    }
  }

  lemma {:induction false} ApplyAllSent<D>(e: Env, c: Call<D>, writes: seq<Pending>, replies: seq<Reply>)
    requires |writes| == |replies|
    ensures ApplyAll(e, c, writes, replies).sent == c.sent
    decreases |writes|
  {
    if !c.failed && writes != [] {
      ApplyAllSent(e, Apply(e, c, writes, replies[0]), writes[1..], replies[1..]);
    }
  }

  /** Past rule 1 no statement of the message is of the operation's instance. */
  ghost predicate Separate(ws: seq<Pending>, instance: Option<Ptr>) {
    forall held :: held in ws ==> instance.Some? ==> Instance(held.write) != instance
  }

  lemma JoinedFits(plan: Plan, ws: seq<Pending>, v: Pending)
    requires Fits(plan, ws) && (ws != [] ==> |ws| < plan.limit) && Separate(ws, Instance(v.write)) &&
             !Splits(plan, ws, v.write)
    ensures Fits(plan, ws + [v])
  {
    var joined := ws + [v];
    assert joined[..|ws|] == ws && joined[|ws|] == v;
    forall i, j | 0 <= i < j < |joined|
      ensures Compatible(joined[i], joined[j])
    {
      if j == |ws| {
        assert joined[i] in ws;
      }
    }
  }

  /** The statements sent and waiting, in order. */
  function AllOf<D>(c: Call<D>): seq<Statement> {
    Flat(c.sent) + Texts(c.current)
  }

  lemma SendKeepsAll<D>(e: Env, srv: Server<D>, plan: Plan, c: Call<D>)
    requires Formed(plan, c)
    ensures Formed(plan, Send(e, srv, plan, c)) && AllOf(Send(e, srv, plan, c)) == AllOf(c) &&
            Send(e, srv, plan, c).current == []
  {
    SendForms(e, srv, plan, c);
    assert Texts([]) == [];
  }

  /** Joining a message that has room, then sending it if it is full. */
  lemma JoinForms<D>(e: Env, srv: Server<D>, plan: Plan, c: Call<D>, v: Pending)
    requires Formed(plan, c) && Separate(c.current, Instance(v.write)) && !Splits(plan, c.current, v.write)
    ensures var joined := c.(current := c.current + [v]);
            var next := if |joined.current| >= plan.limit then Send(e, srv, plan, joined) else joined;
            Formed(plan, next) && AllOf(next) == AllOf(c) + [v.write.stmt]
  {
    var joined := c.(current := c.current + [v]);
    JoinedFits(plan, c.current, v);
    assert Texts(joined.current) == Texts(c.current) + [v.write.stmt];
    SendForms(e, srv, plan, joined);
    assert Texts([]) == [];
  }

  lemma AddForms<D>(e: Env, srv: Server<D>, plan: Plan, c: Call<D>, write: Write, op: Op)
    requires Formed(plan, c) && Separate(c.current, Instance(write))
    ensures var added := Add(e, srv, plan, c, write, op);
            Formed(plan, added) && (!added.failed ==> AllOf(added) == AllOf(c) + [write.stmt])
  {
    SendKeepsAll(e, srv, plan, c);
    var split := if Splits(plan, c.current, write) then Send(e, srv, plan, c) else c;
    if !split.failed {
      JoinForms(e, srv, plan, split, Pending(write, KeyNow(e, split.mem, op)));
    }
  }

  lemma BeforeForms<D>(e: Env, srv: Server<D>, plan: Plan, c: Call<D>, op: Op)
    requires Formed(plan, c)
    ensures var ready := Before(e, srv, plan, c, op);
            Formed(plan, ready) && Separate(ready.current, OpInstance(op)) && AllOf(ready) == AllOf(c)
  {
    SendKeepsAll(e, srv, plan, c);
    if forall held :: held in c.current ==> !Clashes(e, c.mem, held, op) {
      assert Before(e, srv, plan, c, op) == c;
    }
  }

  /** What a step issues: its statement, when its preparation is reached and gives one. */
  ghost function IssuedBy<D>(e: Env, srv: Server<D>, plan: Plan, c: Call<D>, op: Op): seq<Statement> {
    var ready := Before(e, srv, plan, c, op);
    var issue := Prepare(e, Flow(e, ready.mem, op), op).issue;
    if issue.Issued? then [issue.write.stmt] else []
  }

  lemma StepForms<D>(e: Env, srv: Server<D>, plan: Plan, c: Call<D>, op: Op)
    requires Formed(plan, c)
    ensures var next := Step(e, srv, plan, c, op);
            Formed(plan, next) && (!next.failed ==> AllOf(next) == AllOf(c) + IssuedBy(e, srv, plan, c, op))
  {
    BeforeForms(e, srv, plan, c, op);
    var ready := Before(e, srv, plan, c, op);
    if !c.failed && !ready.failed {
      ProceedForms(e, srv, plan, ready, op);
    }
  }

  lemma ProceedForms<D>(e: Env, srv: Server<D>, plan: Plan, ready: Call<D>, op: Op)
    requires Formed(plan, ready) && Separate(ready.current, OpInstance(op))
    ensures var next := Proceed(e, srv, plan, ready, op);
            var issue := Prepare(e, Flow(e, ready.mem, op), op).issue;
            Formed(plan, next) &&
            (!next.failed ==> AllOf(next) == AllOf(ready) + if issue.Issued? then [issue.write.stmt] else [])
  {
    var recorded := Recorded(e, ready.(mem := Flow(e, ready.mem, op)), op);
    var prepared := Prepare(e, recorded.mem, op);
    var after := recorded.(mem := prepared.mem);
    PrepareOnly(e, recorded.mem, op);
    assert AllOf(after) == AllOf(ready) && Formed(plan, after);
    if prepared.issue.Issued? {
      AddForms(e, srv, plan, after, prepared.issue.write, op);
    }
  }

  /** The statements the first operations issue, in order. */
  ghost function IssuedStatements<D>(e: Env, srv: Server<D>, plan: Plan, start: Call<D>, ops: seq<Op>): seq<Statement> {
    if ops == [] then []
    else
      var front := ops[..|ops| - 1];
      IssuedStatements(e, srv, plan, start, front) +
      IssuedBy(e, srv, plan, Steps(e, srv, plan, start, front), ops[|ops| - 1])
  }

  lemma {:induction false} StepsForm<D>(e: Env, srv: Server<D>, plan: Plan, mem: Mem, db: D, ops: seq<Op>)
    ensures var c := Steps(e, srv, plan, Start(mem, db), ops);
            Formed(plan, c) && (!c.failed ==> AllOf(c) == IssuedStatements(e, srv, plan, Start(mem, db), ops))
    decreases |ops|
  {
    if ops == [] {
      assert Texts([]) == [];
    } else {
      var front := ops[..|ops| - 1];
      StepsForm(e, srv, plan, mem, db, front);
      StepForms(e, srv, plan, Steps(e, srv, plan, Start(mem, db), front), ops[|ops| - 1]);
    }
  }

  /** Every message of a call fits the rules; those of a call that succeeds are the issued statements, in order. */
  lemma RunForms<D>(e: Env, srv: Server<D>, plan: Plan, mem: Mem, db: D, ops: seq<Op>)
    ensures var c := Run(e, srv, plan, mem, db, ops);
            && (forall m :: m in c.sent ==> Fitted(plan, m))
            && (!c.failed ==> Flat(c.sent) == IssuedStatements(e, srv, plan, Start(mem, db), ops))
  {
    StepsForm(e, srv, plan, mem, db, ops);
    SendForms(e, srv, plan, Steps(e, srv, plan, Start(mem, db), ops));
  }
}
