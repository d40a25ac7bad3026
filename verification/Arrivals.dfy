/**
 A key is there before it is read: what an operation takes from an instance it depends on is that instance's
 final key.
 */
module Arrivals {
  import opened Values
  import opened Entities
  import opened IdentityMap
  import opened Writes
  import opened Calls
  import opened Frames
  import opened KeyRules
  import Statements

  predicate Inserts(op: Op, q: Ptr) {
    (op.FlushInsert? || op.Insert?) && op.p == q
  }

  /** No waiting statement gives the instance its key. */
  ghost predicate HasKey(current: seq<Pending>, q: Ptr) {
    forall held :: held in current ==> !(GeneratesKey(held.write) && held.write.finish.p == q)
  }

  /** The call went on, and the instance kept its key and still waits for none. */
  ghost predicate KeepsKeyOf<D>(c: Call<D>, next: Call<D>, q: Ptr) {
    HasKey(next.current, q) && KeyOf(next.mem, q) == KeyOf(c.mem, q)
  }

  lemma ApplyKeepsKey<D>(e: Env, c: Call<D>, writes: seq<Pending>, reply: Reply, q: Ptr)
    requires writes != [] && HasKey(writes, q)
    ensures KeyOf(Apply(e, c, writes, reply).mem, q) == KeyOf(c.mem, q)
  {
    CompleteOnly(e, c.mem, writes[0].write, reply);
  }

  lemma {:induction false} SendEachKeepsKey<D>(e: Env, srv: Server<D>, c: Call<D>, writes: seq<Pending>, q: Ptr)
    requires HasKey(writes, q)
    ensures KeyOf(SendEach(e, srv, c, writes).mem, q) == KeyOf(c.mem, q)
    ensures SendEach(e, srv, c, writes).current == c.current
    decreases |writes|
  {
    if !c.failed && writes != [] {
      var (db, reply) := srv.run(c.db, writes[0].write.stmt);
      ApplyKeepsKey(e, c.(db := db), writes, reply, q);
      SendEachKeepsKey(e, srv, Apply(e, c.(db := db), writes, reply), writes[1..], q);
    }
  }

  lemma {:induction false} ApplyAllKeepsKey<D>(e: Env, c: Call<D>, writes: seq<Pending>, replies: seq<Reply>, q: Ptr)
    requires HasKey(writes, q) && |writes| == |replies|
    ensures KeyOf(ApplyAll(e, c, writes, replies).mem, q) == KeyOf(c.mem, q)
    ensures ApplyAll(e, c, writes, replies).current == c.current
    decreases |writes|
  {
    if !c.failed && writes != [] {
      ApplyKeepsKey(e, c, writes, replies[0], q);
      ApplyAllKeepsKey(e, Apply(e, c, writes, replies[0]), writes[1..], replies[1..], q);
    }
  }

  lemma SendKeepsKey<D>(e: Env, srv: Server<D>, plan: Plan, c: Call<D>, q: Ptr)
    requires HasKey(c.current, q)
    ensures KeepsKeyOf(c, Send(e, srv, plan, c), q)
  {
    if c.current != [] {
      var started := c.(current := [], sent := c.sent + [Texts(c.current)]);
      if plan.oneTrip {
        var (db, replies) := RunAll(srv, started.db, c.current);
        ApplyAllKeepsKey(e, started.(db := db), c.current, replies, q);
      } else {
        SendEachKeepsKey(e, srv, started, c.current, q);
      }
    }
  }

  lemma SendEmpties<D>(e: Env, srv: Server<D>, plan: Plan, c: Call<D>)
    ensures Send(e, srv, plan, c).current == []
  {
    if c.current != [] {
      var started := c.(current := [], sent := c.sent + [Texts(c.current)]);
      if plan.oneTrip {
        var (db, replies) := RunAll(srv, started.db, c.current);
        ApplyAllCurrent(e, started.(db := db), c.current, replies);
      } else {
        SendEachCurrent(e, srv, started, c.current);
      }
    }
  }

  lemma {:induction false} SendEachCurrent<D>(e: Env, srv: Server<D>, c: Call<D>, writes: seq<Pending>)
    ensures SendEach(e, srv, c, writes).current == c.current
    decreases |writes|
  {
    if !c.failed && writes != [] {
      var (db, reply) := srv.run(c.db, writes[0].write.stmt);
      SendEachCurrent(e, srv, Apply(e, c.(db := db), writes, reply), writes[1..]);
    }
  }

  lemma {:induction false} ApplyAllCurrent<D>(e: Env, c: Call<D>, writes: seq<Pending>, replies: seq<Reply>)
    requires |writes| == |replies|
    ensures ApplyAll(e, c, writes, replies).current == c.current
    decreases |writes|
  {
    if !c.failed && writes != [] {
      ApplyAllCurrent(e, Apply(e, c, writes, replies[0]), writes[1..], replies[1..]);
    }
  }

  /** Rule 1b: once the plan lets an operation prepare, nothing it depends on still waits for its key. */
  lemma BeforeBringsKey<D>(e: Env, srv: Server<D>, plan: Plan, c: Call<D>, op: Op, q: Ptr)
    requires DependsOn(e, op, q)
    ensures HasKey(Before(e, srv, plan, c, op).current, q)
  {
    SendEmpties(e, srv, plan, c);
    if held :| held in c.current && GeneratesKey(held.write) && held.write.finish.p == q {
      assert Clashes(e, c.mem, held, op);
    }
  }

  /** An operation that does not insert the instance leaves its key alone. */
  lemma PrepareKeepsKeyOf(e: Env, mem: Mem, op: Op, q: Ptr)
    requires !Inserts(op, q)
    ensures var prepared := Prepare(e, Flow(e, mem, op), op);
            && KeyOf(prepared.mem, q) == KeyOf(mem, q)
            && (prepared.issue.Issued? && GeneratesKey(prepared.issue.write) ==> prepared.issue.write.finish.p != q)
  {
    var flowed := Flow(e, mem, op);
    FlowOnly(e, mem, op);
    PrepareOnly(e, flowed, op);
    if Prepare(e, flowed, op).issue.Issued? {
      IssuedFinish(e, flowed, op);
    }
  }

  lemma AddKeepsKey<D>(e: Env, srv: Server<D>, plan: Plan, c: Call<D>, write: Write, op: Op, q: Ptr)
    requires HasKey(c.current, q) && !(GeneratesKey(write) && write.finish.p == q)
    ensures KeepsKeyOf(c, Add(e, srv, plan, c, write, op), q)
  {
    var split := if Splits(plan, c.current, write) then Send(e, srv, plan, c) else c;
    SendKeepsKey(e, srv, plan, c, q);
    if !split.failed {
      var joined := split.(current := split.current + [Pending(write, KeyNow(e, split.mem, op))]);
      assert HasKey(joined.current, q);
      SendKeepsKey(e, srv, plan, joined, q);
    }
  }

  lemma ProceedKeepsKey<D>(e: Env, srv: Server<D>, plan: Plan, c: Call<D>, op: Op, q: Ptr)
    requires HasKey(c.current, q) && !Inserts(op, q)
    ensures KeepsKeyOf(c, Proceed(e, srv, plan, c, op), q)
  {
    var recorded := Recorded(e, c.(mem := Flow(e, c.mem, op)), op);
    var prepared := Prepare(e, recorded.mem, op);
    PrepareKeepsKeyOf(e, c.mem, op, q);
    if prepared.issue.Issued? {
      AddKeepsKey(e, srv, plan, recorded.(mem := prepared.mem), prepared.issue.write, op, q);
    }
  }

  lemma StepKeepsKey<D>(e: Env, srv: Server<D>, plan: Plan, c: Call<D>, op: Op, q: Ptr)
    requires HasKey(c.current, q) && !Inserts(op, q)
    ensures KeepsKeyOf(c, Step(e, srv, plan, c, op), q)
  {
    SendKeepsKey(e, srv, plan, c, q);
    if !c.failed {
      var ready := Before(e, srv, plan, c, op);
      if !ready.failed {
        ProceedKeepsKey(e, srv, plan, ready, op, q);
      }
    }
  }

  /** From the moment an operation prepares on. */
  lemma {:induction false} StepsKeepKey<D>(e: Env, srv: Server<D>, plan: Plan, start: Mem, db: D, ops: seq<Op>,
      i: nat, n: nat, q: Ptr)
    requires i < n <= |ops| && DependsOn(e, ops[i], q)
    requires forall k :: i <= k < |ops| ==> !Inserts(ops[k], q)
    requires !Steps(e, srv, plan, Start(start, db), ops[..n]).failed
    ensures var ready := Before(e, srv, plan, Steps(e, srv, plan, Start(start, db), ops[..i]), ops[i]);
            KeepsKeyOf(ready, Steps(e, srv, plan, Start(start, db), ops[..n]), q)
    decreases n
  {
    var c := Steps(e, srv, plan, Start(start, db), ops[..n - 1]);
    assert ops[..n][..n - 1] == ops[..n - 1];
    assert Steps(e, srv, plan, Start(start, db), ops[..n]) == Step(e, srv, plan, c, ops[n - 1]);
    if n == i + 1 {
      BeforeBringsKey(e, srv, plan, c, ops[i], q);
      ProceedKeepsKey(e, srv, plan, Before(e, srv, plan, c, ops[i]), ops[i], q);
    } else {
      StepsKeepKey(e, srv, plan, start, db, ops, i, n - 1, q);
      StepKeepsKey(e, srv, plan, c, ops[n - 1], q);
    }
  }

  /** In a call that succeeds, what an operation depends on has its final key when the operation prepares. */
  lemma KeysArriveFirst<D>(e: Env, srv: Server<D>, plan: Plan, start: Mem, db: D, ops: seq<Op>, i: nat, q: Ptr)
    requires i < |ops| && DependsOn(e, ops[i], q)
    requires forall k :: i <= k < |ops| ==> !Inserts(ops[k], q)
    requires !Run(e, srv, plan, start, db, ops).failed
    ensures var ready := Before(e, srv, plan, Steps(e, srv, plan, Start(start, db), ops[..i]), ops[i]);
            KeyOf(ready.mem, q) == KeyOf(Run(e, srv, plan, start, db, ops).mem, q)
  {
    assert ops[..|ops|] == ops;
    StepsKeepKey(e, srv, plan, start, db, ops, i, |ops|, q);
    SendKeepsKey(e, srv, plan, Steps(e, srv, plan, Start(start, db), ops), q);
  }

  // --- nothing changes an instance's shape ----------------------------------------------------------

  /** The same instances, each with as many key parts and columns. */
  ghost predicate SameShape(mem: Mem, after: Mem) {
    && after.inst.Keys == mem.inst.Keys
    && forall p :: |InstOf(after, p).key| == |InstOf(mem, p).key| && |InstOf(after, p).cols| == |InstOf(mem, p).cols|
  }

  lemma ApplyKeepsShape<D>(e: Env, c: Call<D>, writes: seq<Pending>, reply: Reply)
    requires writes != []
    ensures SameShape(c.mem, Apply(e, c, writes, reply).mem)
  {
    CompleteOnly(e, c.mem, writes[0].write, reply);
  }

  lemma {:induction false} SendEachKeepsShape<D>(e: Env, srv: Server<D>, c: Call<D>, writes: seq<Pending>)
    ensures SameShape(c.mem, SendEach(e, srv, c, writes).mem)
    decreases |writes|
  {
    if !c.failed && writes != [] {
      var (db, reply) := srv.run(c.db, writes[0].write.stmt);
      ApplyKeepsShape(e, c.(db := db), writes, reply);
      SendEachKeepsShape(e, srv, Apply(e, c.(db := db), writes, reply), writes[1..]);
    }
  }

  lemma {:induction false} ApplyAllKeepsShape<D>(e: Env, c: Call<D>, writes: seq<Pending>, replies: seq<Reply>)
    requires |writes| == |replies|
    ensures SameShape(c.mem, ApplyAll(e, c, writes, replies).mem)
    decreases |writes|
  {
    if !c.failed && writes != [] {
      ApplyKeepsShape(e, c, writes, replies[0]);
      ApplyAllKeepsShape(e, Apply(e, c, writes, replies[0]), writes[1..], replies[1..]);
    }
  }

  lemma SendKeepsShape<D>(e: Env, srv: Server<D>, plan: Plan, c: Call<D>)
    ensures SameShape(c.mem, Send(e, srv, plan, c).mem)
  {
    if c.current != [] {
      var started := c.(current := [], sent := c.sent + [Texts(c.current)]);
      if plan.oneTrip {
        var (db, replies) := RunAll(srv, c.db, c.current);
        if Broken !in replies {
          ApplyAllKeepsShape(e, started.(db := db), c.current, replies);
        }
      } else {
        SendEachKeepsShape(e, srv, started, c.current);
      }
    }
  }

  lemma BeforeKeepsShape<D>(e: Env, srv: Server<D>, plan: Plan, c: Call<D>, op: Op)
    ensures SameShape(c.mem, Before(e, srv, plan, c, op).mem)
  {
    SendKeepsShape(e, srv, plan, c);
  }

  lemma AddKeepsShape<D>(e: Env, srv: Server<D>, plan: Plan, c: Call<D>, write: Write, op: Op)
    ensures SameShape(c.mem, Add(e, srv, plan, c, write, op).mem)
  {
    SendKeepsShape(e, srv, plan, c);
    var split := if Splits(plan, c.current, write) then Send(e, srv, plan, c) else c;
    SendKeepsShape(e, srv, plan, split.(current := split.current + [Pending(write, KeyNow(e, split.mem, op))]));
  }

  lemma ProceedKeepsShape<D>(e: Env, srv: Server<D>, plan: Plan, c: Call<D>, op: Op)
    ensures SameShape(c.mem, Proceed(e, srv, plan, c, op).mem)
  {
    FlowOnly(e, c.mem, op);
    var recorded := Recorded(e, c.(mem := Flow(e, c.mem, op)), op);
    PrepareOnly(e, recorded.mem, op);
    var prepared := Prepare(e, recorded.mem, op);
    assert SameShape(c.mem, prepared.mem);
    if prepared.issue.Issued? {
      AddKeepsShape(e, srv, plan, recorded.(mem := prepared.mem), prepared.issue.write, op);
    }
  }

  lemma {:induction false} StepsKeepShape<D>(e: Env, srv: Server<D>, plan: Plan, c: Call<D>, ops: seq<Op>)
    ensures SameShape(c.mem, Steps(e, srv, plan, c, ops).mem)
    decreases |ops|
  {
    if ops != [] {
      var last := ops[|ops| - 1];
      var before := Steps(e, srv, plan, c, ops[..|ops| - 1]);
      StepsKeepShape(e, srv, plan, c, ops[..|ops| - 1]);
      if !before.failed {
        BeforeKeepsShape(e, srv, plan, before, last);
        ProceedKeepsShape(e, srv, plan, Before(e, srv, plan, before, last), last);
      }
    }
  }

  // --- the foreign keys an insert binds ---------------------------------------------------------------

  /** A call that succeeded had not failed before. */
  lemma {:induction false} NeverFailed<D>(e: Env, srv: Server<D>, plan: Plan, start: Mem, db: D, ops: seq<Op>, n: nat)
    requires n <= |ops| && !Steps(e, srv, plan, Start(start, db), ops).failed
    ensures !Steps(e, srv, plan, Start(start, db), ops[..n]).failed
    decreases |ops|
  {
    if n < |ops| {
      var rest := ops[..|ops| - 1];
      NeverFailed(e, srv, plan, start, db, rest, n);
      assert rest[..n] == ops[..n];
    } else {
      assert ops[..n] == ops;
    }
  }

  /** A foreign key neither the GUID source nor a hook writes over. */
  predicate Plain(m: EntityMap, prop: Prop) {
    prop.Column? || (prop.KeyPart? && m.strategy == Natural)
  }

  /** The insert binds a property with its value in memory when the insert prepares. */
  lemma BindsPlain(e: Env, mem: Mem, p: Ptr, prop: Prop, i: nat)
    requires PrepareInsert(e, mem, p).issue.Issued? && Plain(MapFor(e, p), prop)
    requires var values := PrepareInsert(e, mem, p).issue.write.stmt.values; i < |values| && values[i].0 == prop
    ensures PrepareInsert(e, mem, p).issue.write.stmt.values[i].1 == Get(InstOf(mem, p), prop)
  {
    var keyed := AssignGuid(e, mem, p);
    assert Get(InstOf(keyed, p), prop) == Get(InstOf(mem, p), prop);
    var filled := FillCreatedAt(e, keyed, p).mem;
    assert Get(InstOf(filled, p), prop) == Get(InstOf(keyed, p), prop);
  }

  /** The operation i of a call, as it prepares. */
  ghost function ReadyAt<D>(e: Env, srv: Server<D>, plan: Plan, start: Mem, db: D, ops: seq<Op>, i: nat): Call<D>
    requires i < |ops|
  {
    Before(e, srv, plan, Steps(e, srv, plan, Start(start, db), ops[..i]), ops[i])
  }

  /** A flushed insert of a call that succeeds issues its statement. */
  lemma InsertIssues<D>(e: Env, srv: Server<D>, plan: Plan, start: Mem, db: D, ops: seq<Op>, i: nat)
    requires i < |ops| && ops[i].FlushInsert? && !Run(e, srv, plan, start, db, ops).failed
    ensures var ready := ReadyAt(e, srv, plan, start, db, ops, i);
            PrepareInsert(e, Flow(e, ready.mem, ops[i]), ops[i].p).issue.Issued?
  {
    NeverFailed(e, srv, plan, start, db, ops, i + 1);
    assert ops[..i + 1][..i] == ops[..i];
  }

  /** The insert binds a property it stores, and binds the value for it. */
  ghost predicate Binds(values: seq<(Prop, Val)>, m: EntityMap, prop: Prop, v: Val) {
    && (Statements.Stored(m, prop) ==> exists n :: 0 <= n < |values| && values[n].0 == prop)
    && forall n :: 0 <= n < |values| && values[n].0 == prop && Plain(m, prop) ==> values[n].1 == v
  }

  lemma StoredIsBound(e: Env, mem: Mem, p: Ptr, prop: Prop)
    requires PrepareInsert(e, mem, p).issue.Issued? && Statements.Stored(MapFor(e, p), prop)
    ensures var values := PrepareInsert(e, mem, p).issue.write.stmt.values;
            exists n :: 0 <= n < |values| && values[n].0 == prop
  {
    var m, values := MapFor(e, p), PrepareInsert(e, mem, p).issue.write.stmt.values;
    Statements.InsertedColumnsAre(m);
    var n :| 0 <= n < |InsertedColumns(m)| && InsertedColumns(m)[n] == prop;
    assert values[n].0 == prop;
  }

  lemma BindsWhatIsHeld(e: Env, mem: Mem, p: Ptr, prop: Prop)
    requires PrepareInsert(e, mem, p).issue.Issued?
    ensures Binds(PrepareInsert(e, mem, p).issue.write.stmt.values, MapFor(e, p), prop, Get(InstOf(mem, p), prop))
  {
    var values := PrepareInsert(e, mem, p).issue.write.stmt.values;
    if Statements.Stored(MapFor(e, p), prop) {
      StoredIsBound(e, mem, p, prop);
    }
    forall n | 0 <= n < |values| && values[n].0 == prop && Plain(MapFor(e, p), prop)
      ensures values[n].1 == Get(InstOf(mem, p), prop)
    {
      BindsPlain(e, mem, p, prop, n);
    }
  }

  /** The relationship's foreign keys, as the insert binds them, hold the target's key. */
  ghost predicate BindsKey(values: seq<(Prop, Val)>, foreignKeys: seq<Prop>, m: EntityMap, target: Inst) {
    forall k :: 0 <= k < |foreignKeys| ==> Binds(values, m, foreignKeys[k], Get(target, KeyPart(k)))
  }

  /** The flushed insert i of a call, prepared in its turn. */
  ghost function PreparedAt<D>(e: Env, srv: Server<D>, plan: Plan, start: Mem, db: D, ops: seq<Op>, i: nat): Preparation
    requires i < |ops| && ops[i].FlushInsert?
  {
    PrepareInsert(e, Flow(e, ReadyAt(e, srv, plan, start, db, ops, i).mem, ops[i]), ops[i].p)
  }

  /** The insert goes out with the key its many-to-one target has in the end. */
  ghost predicate BindsTarget<D>(e: Env, srv: Server<D>, plan: Plan, start: Mem, db: D, ops: seq<Op>, i: nat, r: nat)
    requires i < |ops| && ops[i].FlushInsert? && ReferencesAt(e, ops[i].p, r)
  {
    var prepared := PreparedAt(e, srv, plan, start, db, ops, i);
    && prepared.issue.Issued?
    && BindsKey(prepared.issue.write.stmt.values, MapFor(e, ops[i].p).relationships[r].foreignKeys, MapFor(e, ops[i].p),
         InstOf(Run(e, srv, plan, start, db, ops).mem, Targets(e, ops[i].p, r)[0]))
  }

  /**
   Whatever message an insert goes out in, the foreign keys it binds for a many-to-one target are the target's
   final key.
   */
  lemma TargetKeysAreFinal<D>(e: Env, srv: Server<D>, plan: Plan, start: Mem, db: D, ops: seq<Op>, i: nat, r: nat)
    requires i < |ops| && ops[i].FlushInsert? && ReferencesAt(e, ops[i].p, r)
    requires forall k :: i <= k < |ops| ==> !Inserts(ops[k], Targets(e, ops[i].p, r)[0])
    requires !Run(e, srv, plan, start, db, ops).failed
    ensures BindsTarget(e, srv, plan, start, db, ops, i, r)
  {
    var ready := ReadyAt(e, srv, plan, start, db, ops, i);
    var p, q := ops[i].p, Targets(e, ops[i].p, r)[0];
    var relationship := MapFor(e, p).relationships[r];
    var flowed := Flow(e, ready.mem, ops[i]);
    InsertIssues(e, srv, plan, start, db, ops, i);
    assert ManyToOneTarget(e, p, q);
    KeysArriveFirst(e, srv, plan, start, db, ops, i, q);
    FlowOnly(e, ready.mem, ops[i]);
    assert NavigationAgrees(e, flowed, p, relationship, Targets(e, p, r), None);
    var end := Run(e, srv, plan, start, db, ops).mem;
    forall k | 0 <= k < |relationship.foreignKeys|
      ensures Binds(PrepareInsert(e, flowed, p).issue.write.stmt.values, MapFor(e, p), relationship.foreignKeys[k],
                    Get(InstOf(end, q), KeyPart(k)))
    {
      BindsWhatIsHeld(e, flowed, p, relationship.foreignKeys[k]);
    }
  }

  /** The instance has room for the property. */
  predicate HasRoomFor(x: Inst, prop: Prop) {
    (prop.Column? && prop.col < |x.cols|) || (prop.KeyPart? && prop.part < |x.key|)
  }

  lemma {:induction false} CopyKeySets(mem: Mem, source: Ptr, target: Ptr, foreignKeys: seq<Prop>, from: nat, k: nat)
    requires source != target && target in mem.inst && from <= k < |foreignKeys| &&
             HasRoomFor(InstOf(mem, target), foreignKeys[k])
    requires forall j :: k < j < |foreignKeys| ==> foreignKeys[j] != foreignKeys[k]
    ensures Get(InstOf(CopyKey(mem, source, target, foreignKeys, from), target), foreignKeys[k]) ==
              Get(InstOf(mem, source), KeyPart(k))
    decreases |foreignKeys| - from
  {
    var put := Put(mem, target, Set(InstOf(mem, target), foreignKeys[from], Get(InstOf(mem, source), KeyPart(from))));
    if from < k {
      CopyKeySets(put, source, target, foreignKeys, from + 1, k);
    } else {
      var rest := foreignKeys[k + 1..];
      assert forall j :: k < j < |foreignKeys| ==> foreignKeys[j] == rest[j - k - 1];
      CopyKeyTail(put, source, target, foreignKeys, k + 1, iset prop | prop in rest);
    }
  }

  /** From an index on, only the foreign keys from there on are written. */
  lemma {:induction false} CopyKeyTail(mem: Mem, source: Ptr, target: Ptr, foreignKeys: seq<Prop>, from: nat,
      written: iset<Prop>)
    requires from <= |foreignKeys| && forall j :: from <= j < |foreignKeys| ==> foreignKeys[j] in written
    ensures OnlyFlowed(mem, CopyKey(mem, source, target, foreignKeys, from), target, written)
    decreases |foreignKeys| - from
  {
    if from < |foreignKeys| {
      CopyKeyTail(Put(mem, target, Set(InstOf(mem, target), foreignKeys[from],
                                       Get(InstOf(mem, source), KeyPart(from)))),
                  source, target, foreignKeys, from + 1, written);
    }
  }

  /** No later link writes the property. */
  predicate LastToWrite(e: Env, links: seq<Link>, l: nat, prop: Prop) {
    forall j :: l < j < |links| ==> !LinkWrites(e, links[j], prop)
  }

  ghost predicate WrittenBy(e: Env, links: seq<Link>, prop: Prop) {
    exists l :: l in links && LinkWrites(e, l, prop)
  }

  lemma {:induction false} FlowLinksSet(e: Env, mem: Mem, p: Ptr, links: seq<Link>, l: nat, k: nat)
    requires l < |links| && GivesKey(links[l].kind) && MapFor(e, links[l].owner).arity == |links[l].foreignKeys|
    requires links[l].owner != p && p in mem.inst && k < |links[l].foreignKeys| &&
             HasRoomFor(InstOf(mem, p), links[l].foreignKeys[k])
    requires forall j :: k < j < |links[l].foreignKeys| ==> links[l].foreignKeys[j] != links[l].foreignKeys[k]
    requires LastToWrite(e, links, l, links[l].foreignKeys[k])
    ensures Get(InstOf(FlowLinks(e, mem, p, links), p), links[l].foreignKeys[k]) ==
              Get(InstOf(mem, links[l].owner), KeyPart(k))
    decreases |links|
  {
    var first := links[0];
    var next := if GivesKey(first.kind) && MapFor(e, first.owner).arity == |first.foreignKeys|
                then CopyKey(mem, first.owner, p, first.foreignKeys, 0) else mem;
    CopyKeyOnly(mem, first.owner, p, first.foreignKeys, 0, iset prop | prop in first.foreignKeys);
    if l == 0 {
      CopyKeySets(mem, first.owner, p, first.foreignKeys, 0, k);
      FlowLinksOnly(e, next, p, links[1..], iset prop | WrittenBy(e, links[1..], prop));
    } else {
      assert links[1..][l - 1] == links[l];
      FlowLinksSet(e, next, p, links[1..], l - 1, k);
    }
  }

  lemma ReadyKeepsShape<D>(e: Env, srv: Server<D>, plan: Plan, start: Mem, db: D, ops: seq<Op>, i: nat)
    requires i < |ops|
    ensures SameShape(start, ReadyAt(e, srv, plan, start, db, ops, i).mem)
  {
    StepsKeepShape(e, srv, plan, Start(start, db), ops[..i]);
    BeforeKeepsShape(e, srv, plan, Steps(e, srv, plan, Start(start, db), ops[..i]), ops[i]);
  }

  // --- navigations -----------------------------------------------------------------------------------------

  /** The k-th foreign key of the navigation at r is written by nothing after it, and there is room for it. */
  ghost predicate NavigationLast(e: Env, p: Ptr, r: nat, k: nat, x: Inst) {
    && ReferencesAt(e, p, r) && Targets(e, p, r)[0] != p
    && var foreignKeys := MapFor(e, p).relationships[r].foreignKeys;
       && k < |foreignKeys| && HasRoomFor(x, foreignKeys[k])
       && (forall j :: k < j < |foreignKeys| ==> foreignKeys[j] != foreignKeys[k])
       && forall s: nat :: r < s ==> !NavigationWrites(e, p, s, foreignKeys[k])
  }

  lemma {:induction false} FlowNavigationsSet(e: Env, mem: Mem, p: Ptr, from: nat, r: nat, k: nat)
    requires from <= r && p in mem.inst && NavigationLast(e, p, r, k, InstOf(mem, p))
    ensures Get(InstOf(FlowNavigations(e, mem, p, from), p), MapFor(e, p).relationships[r].foreignKeys[k]) ==
              Get(InstOf(mem, Targets(e, p, r)[0]), KeyPart(k))
    decreases r - from
  {
    var relationship, targets := MapFor(e, p).relationships[from], Targets(e, p, from);
    var next := if ReferencesAt(e, p, from) then CopyKey(mem, targets[0], p, relationship.foreignKeys, 0) else mem;
    assert FlowNavigations(e, mem, p, from) == FlowNavigations(e, next, p, from + 1);
    if ReferencesAt(e, p, from) {
      CopyKeyOnly(mem, targets[0], p, relationship.foreignKeys, 0, iset prop | prop in relationship.foreignKeys);
    }
    if from < r {
      FlowNavigationsSet(e, next, p, from + 1, r, k);
    } else {
      CopyKeySets(mem, targets[0], p, relationship.foreignKeys, 0, k);
      var after := r + 1;
      FlowNavigationsOnly(e, next, p, after, iset prop | NavigatedFrom(e, p, after, prop));
    }
  }

  ghost predicate NavigatedFrom(e: Env, p: Ptr, from: nat, prop: Prop) {
    exists s: nat :: from <= s && NavigationWrites(e, p, s, prop)
  }

  /**
   Before a flushed insert prepares, every foreign key of a many-to-one navigation to another instance holds that
   target's key part, where nothing later in the flow writes it, whatever then becomes of the call.
   */
  lemma FlowBringsTargetKey(e: Env, mem: Mem, op: Op, r: nat, k: nat)
    requires op.FlushInsert? && op.p in mem.inst && NavigationLast(e, op.p, r, k, InstOf(mem, op.p))
    requires !WrittenBy(e, op.links, MapFor(e, op.p).relationships[r].foreignKeys[k])
    ensures Get(InstOf(Flow(e, mem, op), op.p), MapFor(e, op.p).relationships[r].foreignKeys[k]) ==
              Get(InstOf(mem, Targets(e, op.p, r)[0]), KeyPart(k))
  {
    FlowNavigationsSet(e, mem, op.p, 0, r, k);
    FlowLinksOnly(e, FlowNavigations(e, mem, op.p, 0), op.p, op.links, iset prop | WrittenBy(e, op.links, prop));
  }

  /**
   The many-to-one navigations of the instance lead to others, there is room for their foreign keys, and no foreign
   key is written twice, by a navigation or by a cascade link.
   */
  ghost predicate FlowsApart(e: Env, p: Ptr, links: seq<Link>, x: Inst) {
    forall r: nat, k: nat :: ReferencesAt(e, p, r) && k < |MapFor(e, p).relationships[r].foreignKeys| ==>
      NavigationLast(e, p, r, k, x) && !WrittenBy(e, links, MapFor(e, p).relationships[r].foreignKeys[k])
  }

  /** Then the insert is never refused with CRUD-004. */
  lemma FlowAgrees(e: Env, mem: Mem, op: Op)
    requires op.FlushInsert? && op.p in mem.inst && FlowsApart(e, op.p, op.links, InstOf(mem, op.p))
    ensures NavigationsAgree(e, Flow(e, mem, op), op.p, None)
    ensures Prepare(e, Flow(e, mem, op), op).issue != Refused(CRUD004)
  {
    var p, flowed, relationships := op.p, Flow(e, mem, op), MapFor(e, op.p).relationships;
    FlowOnly(e, mem, op);
    forall r, k | 0 <= r < |relationships| && ReferencesAt(e, p, r) && 0 <= k < |relationships[r].foreignKeys|
      ensures Get(InstOf(flowed, Targets(e, p, r)[0]), KeyPart(k)) ==
              Get(InstOf(flowed, p), relationships[r].foreignKeys[k])
    {
      FlowBringsTargetKey(e, mem, op, r, k);
    }
  }

  /** So is no such insert of any call, in whatever message and after whatever else. */
  lemma FlowedInsertAgrees<D>(e: Env, srv: Server<D>, plan: Plan, start: Mem, db: D, ops: seq<Op>, i: nat)
    requires i < |ops| && ops[i].FlushInsert? && ops[i].p in start.inst
    requires FlowsApart(e, ops[i].p, ops[i].links, InstOf(start, ops[i].p))
    ensures PreparedAt(e, srv, plan, start, db, ops, i).issue != Refused(CRUD004)
  {
    var ready := ReadyAt(e, srv, plan, start, db, ops, i).mem;
    var p := ops[i].p;
    ReadyKeepsShape(e, srv, plan, start, db, ops, i);
    forall r: nat, k: nat | ReferencesAt(e, p, r) && k < |MapFor(e, p).relationships[r].foreignKeys|
      ensures NavigationLast(e, p, r, k, InstOf(ready, p))
    {
      assert NavigationLast(e, p, r, k, InstOf(start, p));
    }
    FlowAgrees(e, ready, ops[i]);
  }

  // --- cascade owners --------------------------------------------------------------------------------------

  /** The link at l gives the instance, from another one, a foreign key that nothing later writes. */
  predicate OwnerWrites(e: Env, p: Ptr, links: seq<Link>, l: nat, k: nat, mem: Mem) {
    && l < |links| && k < |links[l].foreignKeys| && links[l].owner != p && p in mem.inst
    && GivesKey(links[l].kind) && MapFor(e, links[l].owner).arity == |links[l].foreignKeys|
    && LastToWrite(e, links, l, links[l].foreignKeys[k]) && HasRoomFor(InstOf(mem, p), links[l].foreignKeys[k])
    && (forall j :: k < j < |links[l].foreignKeys| ==> links[l].foreignKeys[j] != links[l].foreignKeys[k])
  }

  /** The insert goes out with the key part its cascade owner has in the end. */
  ghost predicate BindsOwner<D>(e: Env, srv: Server<D>, plan: Plan, start: Mem, db: D, ops: seq<Op>, i: nat, l: nat,
      k: nat)
    requires i < |ops| && ops[i].FlushInsert? && l < |ops[i].links| && k < |ops[i].links[l].foreignKeys|
  {
    var prepared := PreparedAt(e, srv, plan, start, db, ops, i);
    && prepared.issue.Issued?
    && Binds(prepared.issue.write.stmt.values, MapFor(e, ops[i].p), ops[i].links[l].foreignKeys[k],
         Get(InstOf(Run(e, srv, plan, start, db, ops).mem, ops[i].links[l].owner), KeyPart(k)))
  }

  /** The same of a cascade owner, for each foreign key no later cascade link writes again. */
  lemma OwnerKeysAreFinal<D>(e: Env, srv: Server<D>, plan: Plan, start: Mem, db: D, ops: seq<Op>, i: nat, l: nat,
      k: nat)
    requires i < |ops| && ops[i].FlushInsert? && OwnerWrites(e, ops[i].p, ops[i].links, l, k, start)
    requires forall j :: i <= j < |ops| ==> !Inserts(ops[j], ops[i].links[l].owner)
    requires !Run(e, srv, plan, start, db, ops).failed
    ensures BindsOwner(e, srv, plan, start, db, ops, i, l, k)
  {
    var ready := ReadyAt(e, srv, plan, start, db, ops, i);
    var p, link := ops[i].p, ops[i].links[l];
    var moved := FlowNavigations(e, ready.mem, p, 0);
    var flowed := Flow(e, ready.mem, ops[i]);
    InsertIssues(e, srv, plan, start, db, ops, i);
    assert DependsOn(e, ops[i], link.owner);
    KeysArriveFirst(e, srv, plan, start, db, ops, i, link.owner);
    ReadyKeepsShape(e, srv, plan, start, db, ops, i);
    FlowNavigationsOnly(e, ready.mem, p, 0, FlowedBy(e, ops[i], p));
    FlowLinksSet(e, moved, p, ops[i].links, l, k);
    BindsWhatIsHeld(e, flowed, p, link.foreignKeys[k]);
  }
}
