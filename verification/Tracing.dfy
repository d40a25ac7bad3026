/**
 What a call has the database do: the statements it sends, in order, each once; judged one by one, up to the first
 that fails.
 */
module Tracing {
  import opened Values
  import opened Entities
  import opened Writes
  import opened Calls
  import opened Refinement
  import opened Arrivals

  /** The database after some statements in order, and its reply to each. */
  function Execute<D>(srv: Server<D>, db: D, statements: seq<Statement>): (r: (D, seq<Reply>))
    ensures |r.1| == |statements|
  {
    if statements == [] then (db, [])
    else
      var (before, replies) := Execute(srv, db, statements[..|statements| - 1]);
      var (after, reply) := srv.run(before, statements[|statements| - 1]);
      (after, replies + [reply])
  }

  function StatementsOf(history: seq<Completed>): seq<Statement> {
    seq(|history|, i requires 0 <= i < |history| => history[i].write.stmt)
  }

  function RepliesOf(history: seq<Completed>): seq<Reply> {
    seq(|history|, i requires 0 <= i < |history| => history[i].reply)
  }

  predicate Passed(e: Env, h: Completed) {
    Complete(e, h.before, h.write, h.reply).ok
  }

  ghost predicate AllPassed(e: Env, history: seq<Completed>) {
    forall i :: 0 <= i < |history| ==> Passed(e, history[i])
  }

  /** Judged in order on the replies the database gave; whatever was judged before the last has passed. */
  ghost predicate Judged<D>(e: Env, srv: Server<D>, start: D, history: seq<Completed>) {
    && RepliesOf(history) == Execute(srv, start, StatementsOf(history)).1
    && AllPassed(e, if history == [] then [] else history[..|history| - 1])
  }

  /**
   A call's trace. The judged statements are the first of those sent; all of them, and all passed, unless the call
   failed. In one round trip the database has run all that were sent, otherwise exactly those that were judged.
   */
  ghost predicate Traces<D>(e: Env, srv: Server<D>, plan: Plan, start: D, c: Call<D>) {
    && Judged(e, srv, start, c.history) && StatementsOf(c.history) <= Flat(c.sent)
    && c.db == Execute(srv, start, if plan.oneTrip then Flat(c.sent) else StatementsOf(c.history)).0
    && (!c.failed ==> StatementsOf(c.history) == Flat(c.sent) && AllPassed(e, c.history))
  }

  lemma {:induction false} ExecuteMore<D>(srv: Server<D>, db: D, first: seq<Statement>, more: seq<Statement>)
    ensures var (between, replies) := Execute(srv, db, first);
            Execute(srv, db, first + more) ==
              (Execute(srv, between, more).0, replies + Execute(srv, between, more).1)
    decreases |more|
  {
    if more == [] {
      var replies := Execute(srv, db, first).1;
      assert first + more == first && replies + [] == replies;
    } else {
      var n := |more| - 1;
      var (between, replies) := Execute(srv, db, first);
      var (before, rest) := Execute(srv, between, more[..n]);
      ExecuteMore(srv, db, first, more[..n]);
      assert (first + more)[..|first + more| - 1] == first + more[..n];
      assert replies + (rest + [srv.run(before, more[n]).1]) == (replies + rest) + [srv.run(before, more[n]).1];
    }
  }

  lemma {:induction false} RunAllExecutes<D>(srv: Server<D>, db: D, writes: seq<Pending>)
    ensures RunAll(srv, db, writes) == Execute(srv, db, Texts(writes))
    decreases |writes|
  {
    if writes != [] {
      var (next, reply) := srv.run(db, writes[0].write.stmt);
      RunAllExecutes(srv, next, writes[1..]);
      OneExecutes(srv, db, writes[0].write.stmt);
      ExecuteMore(srv, db, [writes[0].write.stmt], Texts(writes[1..]));
      assert Texts(writes) == [writes[0].write.stmt] + Texts(writes[1..]);
    }
  }

  lemma OneExecutes<D>(srv: Server<D>, db: D, s: Statement)
    ensures Execute(srv, db, [s]) == (srv.run(db, s).0, [srv.run(db, s).1])
  {
    assert [s][..0] == [] && Execute(srv, db, []) == (db, []);
    assert [] + [srv.run(db, s).1] == [srv.run(db, s).1];
  }

  /** One more statement is judged. */
  lemma JudgedMore<D>(e: Env, srv: Server<D>, start: D, history: seq<Completed>, h: Completed)
    requires Judged(e, srv, start, history) && AllPassed(e, history)
    requires h.reply == srv.run(Execute(srv, start, StatementsOf(history)).0, h.write.stmt).1
    ensures Judged(e, srv, start, history + [h])
    ensures StatementsOf(history + [h]) == StatementsOf(history) + [h.write.stmt]
    ensures Passed(e, h) ==> AllPassed(e, history + [h])
  {
    var more := history + [h];
    assert more[..|more| - 1] == history;
    assert StatementsOf(more)[..|more| - 1] == StatementsOf(history);
    assert RepliesOf(more) == RepliesOf(history) + [h.reply];
  }

  /** Nothing has failed, and what was judged are some statements in a row. */
  ghost predicate Ongoing<D>(e: Env, srv: Server<D>, start: D, c: Call<D>) {
    !c.failed && Judged(e, srv, start, c.history) && AllPassed(e, c.history)
  }

  /** The call went on to judge some of the statements, all of them unless it failed. */
  ghost predicate Judges<D>(e: Env, srv: Server<D>, start: D, c: Call<D>, statements: seq<Statement>, r: Call<D>) {
    && Judged(e, srv, start, r.history) && StatementsOf(r.history) <= StatementsOf(c.history) + statements
    && (!r.failed ==> Ongoing(e, srv, start, r) && StatementsOf(r.history) == StatementsOf(c.history) + statements)
  }

  lemma JudgesNone<D>(e: Env, srv: Server<D>, start: D, c: Call<D>)
    requires Ongoing(e, srv, start, c)
    ensures Judges(e, srv, start, c, [], c)
  {
    assert StatementsOf(c.history) + [] == StatementsOf(c.history);
  }

  lemma JudgesOne<D>(e: Env, srv: Server<D>, start: D, c: Call<D>, writes: seq<Pending>, reply: Reply)
    requires Ongoing(e, srv, start, c) && writes != []
    requires reply == srv.run(Execute(srv, start, StatementsOf(c.history)).0, writes[0].write.stmt).1
    ensures Judges(e, srv, start, c, [writes[0].write.stmt], Apply(e, c, writes, reply))
    ensures StatementsOf(Apply(e, c, writes, reply).history) == StatementsOf(c.history) + [writes[0].write.stmt]
  {
    JudgedMore(e, srv, start, c.history, Completed(c.mem, writes[0].write, reply));
  }

  lemma JudgesMore<D>(e: Env, srv: Server<D>, start: D, c: Call<D>, next: Call<D>, r: Call<D>, s: Statement,
      rest: seq<Statement>)
    requires Judges(e, srv, start, c, [s], next)
    requires StatementsOf(next.history) == StatementsOf(c.history) + [s]
    requires if next.failed then r == next else Judges(e, srv, start, next, rest, r)
    ensures Judges(e, srv, start, c, [s] + rest, r)
  {
    assert StatementsOf(c.history) + ([s] + rest) == StatementsOf(next.history) + rest;
  }

  /** The statements in a row, each judged on its reply before the next is run. */
  lemma {:induction false} SendEachTraces<D>(e: Env, srv: Server<D>, start: D, c: Call<D>, writes: seq<Pending>)
    requires Ongoing(e, srv, start, c) && c.db == Execute(srv, start, StatementsOf(c.history)).0
    ensures var r := SendEach(e, srv, c, writes);
            Judges(e, srv, start, c, Texts(writes), r) && r.db == Execute(srv, start, StatementsOf(r.history)).0
    decreases |writes|
  {
    if writes == [] {
      JudgesNone(e, srv, start, c);
    } else {
      var stmt := writes[0].write.stmt;
      var (db, reply) := srv.run(c.db, stmt);
      var next := Apply(e, c.(db := db), writes, reply);
      JudgesOne(e, srv, start, c.(db := db), writes, reply);
      ExecuteMore(srv, start, StatementsOf(c.history), [stmt]);
      OneExecutes(srv, c.db, stmt);
      if !next.failed {
        SendEachTraces(e, srv, start, next, writes[1..]);
      }
      FirstText(writes);
      JudgesMore(e, srv, start, c, next, SendEach(e, srv, c, writes), stmt, Texts(writes[1..]));
    }
  }

  lemma FirstText(writes: seq<Pending>)
    requires writes != []
    ensures Texts(writes) == [writes[0].write.stmt] + Texts(writes[1..])
  {
  }

  /** The statements judged on the replies that came back together. */
  lemma {:induction false} ApplyAllTraces<D>(e: Env, srv: Server<D>, start: D, now: D, c: Call<D>,
      writes: seq<Pending>, replies: seq<Reply>)
    requires |writes| == |replies| && Ongoing(e, srv, start, c)
    requires now == Execute(srv, start, StatementsOf(c.history)).0 && replies == RunAll(srv, now, writes).1
    ensures var r := ApplyAll(e, c, writes, replies); Judges(e, srv, start, c, Texts(writes), r) && r.db == c.db
    decreases |writes|
  {
    if writes == [] {
      JudgesNone(e, srv, start, c);
    } else {
      var stmt := writes[0].write.stmt;
      var next := Apply(e, c, writes, replies[0]);
      JudgesOne(e, srv, start, c, writes, replies[0]);
      ExecuteMore(srv, start, StatementsOf(c.history), [stmt]);
      OneExecutes(srv, now, stmt);
      if !next.failed {
        ApplyAllTraces(e, srv, start, srv.run(now, stmt).0, next, writes[1..], replies[1..]);
      }
      FirstText(writes);
      JudgesMore(e, srv, start, c, next, ApplyAll(e, c, writes, replies), stmt, Texts(writes[1..]));
    }
  }

  lemma SendTraces<D>(e: Env, srv: Server<D>, plan: Plan, start: D, c: Call<D>)
    requires !c.failed && Traces(e, srv, plan, start, c)
    ensures Traces(e, srv, plan, start, Send(e, srv, plan, c))
  {
    if c.current != [] {
      var started := c.(current := [], sent := c.sent + [Texts(c.current)]);
      FlatGrows(c.sent, Texts(c.current));
      if plan.oneTrip {
        TogetherTraces(e, srv, plan, start, c, started);
      } else {
        SendEachTraces(e, srv, start, started, c.current);
        SendEachSent(e, srv, started, c.current);
      }
    }
  }

  lemma TogetherTraces<D>(e: Env, srv: Server<D>, plan: Plan, start: D, c: Call<D>, started: Call<D>)
    requires !c.failed && Traces(e, srv, plan, start, c) && plan.oneTrip
    requires started == c.(current := [], sent := c.sent + [Texts(c.current)])
    requires Flat(started.sent) == Flat(c.sent) + Texts(c.current)
    ensures Traces(e, srv, plan, start, SendTogether(e, srv, started, c.current))
  {
    var (db, replies) := RunAll(srv, c.db, c.current);
    RunAllExecutes(srv, c.db, c.current);
    ExecuteMore(srv, start, Flat(c.sent), Texts(c.current));
    if Broken !in replies {
      ApplyAllTraces(e, srv, start, c.db, started.(db := db), c.current, replies);
      ApplyAllSent(e, started.(db := db), c.current, replies);
    } else {
      assert Flat(c.sent) <= Flat(started.sent);
    }
  }

  lemma FlatGrows(sent: seq<seq<Statement>>, message: seq<Statement>)
    ensures Flat(sent + [message]) == Flat(sent) + message
  {
    assert (sent + [message])[..|sent|] == sent;
  }

  lemma {:induction false} SendEachSent<D>(e: Env, srv: Server<D>, c: Call<D>, writes: seq<Pending>)
    ensures SendEach(e, srv, c, writes).sent == c.sent
    decreases |writes|
  {
    if !c.failed && writes != [] {
      var (db, reply) := srv.run(c.db, writes[0].write.stmt);
      SendEachSent(e, srv, Apply(e, c.(db := db), writes, reply), writes[1..]);
    }
  }

  lemma {:induction false} ApplyAllSent<D>(e: Env, c: Call<D>, writes: seq<Pending>, replies: seq<Reply>)
    requires |writes| == |replies|
    ensures ApplyAll(e, c, writes, replies).sent == c.sent
    decreases |writes|
  {
    if !c.failed && writes != [] {
      ApplyAllSent(e, Apply(e, c, writes, replies[0]), writes[1..], replies[1..]);
    }
  }

  /** What is not sent or completed does not show in the trace. */
  lemma TracesAlike<D>(e: Env, srv: Server<D>, plan: Plan, start: D, c: Call<D>, other: Call<D>)
    requires Traces(e, srv, plan, start, c) && other.history == c.history && other.sent == c.sent && other.db == c.db
    requires c.failed ==> other.failed
    ensures Traces(e, srv, plan, start, other)
  {
  }

  lemma AddTraces<D>(e: Env, srv: Server<D>, plan: Plan, start: D, c: Call<D>, write: Write, op: Op)
    requires !c.failed && Traces(e, srv, plan, start, c)
    ensures Traces(e, srv, plan, start, Add(e, srv, plan, c, write, op))
  {
    if Splits(plan, c.current, write) {
      var split := Send(e, srv, plan, c);
      SendTraces(e, srv, plan, start, c);
      if !split.failed {
        JoinTraces(e, srv, plan, start, split, Pending(write, KeyNow(e, split.mem, op)));
      }
    } else {
      JoinTraces(e, srv, plan, start, c, Pending(write, KeyNow(e, c.mem, op)));
    }
  }

  lemma JoinTraces<D>(e: Env, srv: Server<D>, plan: Plan, start: D, c: Call<D>, w: Pending)
    requires !c.failed && Traces(e, srv, plan, start, c)
    ensures var joined := c.(current := c.current + [w]);
            Traces(e, srv, plan, start, joined) && Traces(e, srv, plan, start, Send(e, srv, plan, joined))
  {
    var joined := c.(current := c.current + [w]);
    TracesAlike(e, srv, plan, start, c, joined);
    SendTraces(e, srv, plan, start, joined);
  }

  lemma ProceedTraces<D>(e: Env, srv: Server<D>, plan: Plan, start: D, c: Call<D>, op: Op)
    requires !c.failed && Traces(e, srv, plan, start, c)
    ensures Traces(e, srv, plan, start, Proceed(e, srv, plan, c, op))
  {
    var recorded := Recorded(e, c.(mem := Flow(e, c.mem, op)), op);
    var prepared := Prepare(e, recorded.mem, op);
    var after := recorded.(mem := prepared.mem);
    TracesAlike(e, srv, plan, start, c, after);
    match prepared.issue
    case Refused(_) => TracesAlike(e, srv, plan, start, c, after.(failed := true));
    case Nothing =>
    case Issued(write) => AddTraces(e, srv, plan, start, after, write, op);
  }

  lemma StepTraces<D>(e: Env, srv: Server<D>, plan: Plan, start: D, c: Call<D>, op: Op)
    requires Traces(e, srv, plan, start, c)
    ensures Traces(e, srv, plan, start, Step(e, srv, plan, c, op))
  {
    if !c.failed {
      SendTraces(e, srv, plan, start, c);
      var ready := Before(e, srv, plan, c, op);
      if !ready.failed {
        ProceedTraces(e, srv, plan, start, ready, op);
      }
    }
  }

  lemma {:induction false} StepsTrace<D>(e: Env, srv: Server<D>, plan: Plan, mem: Mem, db: D, ops: seq<Op>)
    ensures Traces(e, srv, plan, db, Steps(e, srv, plan, Start(mem, db), ops))
    decreases |ops|
  {
    if ops != [] {
      StepsTrace(e, srv, plan, mem, db, ops[..|ops| - 1]);
      StepTraces(e, srv, plan, db, Steps(e, srv, plan, Start(mem, db), ops[..|ops| - 1]), ops[|ops| - 1]);
    }
  }

  /** Every call, whatever its operations and its plan, is the execution its trace says. */
  lemma RunTraces<D>(e: Env, srv: Server<D>, plan: Plan, mem: Mem, db: D, ops: seq<Op>)
    ensures Traces(e, srv, plan, db, Run(e, srv, plan, mem, db, ops))
  {
    StepsTrace(e, srv, plan, mem, db, ops);
    var done := Steps(e, srv, plan, Start(mem, db), ops);
    if !done.failed {
      SendTraces(e, srv, plan, db, done);
    }
  }
}
