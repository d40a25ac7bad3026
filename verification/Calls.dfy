/**
 One call, a flush or the send of an explicit batch: its operations are prepared in order and their
 statements formed into messages. A message's statements complete only when it is sent.
 */
module Calls {
  import opened Values
  import opened Entities
  import opened IdentityMap
  import opened Writes

  /** A persist cascade that reached a scheduled insert: the owner whose key it takes. */
  datatype Link = Link(owner: Ptr, kind: RelationKind, foreignKeys: seq<Prop>)

  /** FlushInsert is an insert of the unit of work, whose keys flow; the others are queued or flushed alike. */
  datatype Op =
    | FlushInsert(p: Ptr, links: seq<Link>)
    | Insert(p: Ptr)
    | Update(p: Ptr)
    | UpdateOnly(p: Ptr, props: seq<Prop>)
    | DeleteEntity(p: Ptr)
    | DeleteKey(t: TypeId, key: Key)
    | Execute(text: nat, args: nat)

  function OpInstance(op: Op): Option<Ptr> {
    match op
    case DeleteKey(_, _) => None
    case Execute(_, _) => None
    case _ => Some(op.p)
  }

  // --- keys flow before each flushed insert -------------------------------------------------

  function CopyKey(mem: Mem, source: Ptr, target: Ptr, foreignKeys: seq<Prop>, from: nat): Mem
    decreases |foreignKeys| - from
  {
    if from >= |foreignKeys| then mem
    else
      var value := Get(InstOf(mem, source), KeyPart(from));
      CopyKey(Put(mem, target, Set(InstOf(mem, target), foreignKeys[from], value)), source, target, foreignKeys,
              from + 1)
  }

  function FlowNavigations(e: Env, mem: Mem, p: Ptr, from: nat): Mem
    decreases |MapFor(e, p).relationships| - from
  {
    var relationships := MapFor(e, p).relationships;
    if from >= |relationships| then mem
    else
      var r := relationships[from];
      var targets := Targets(e, p, from);
      FlowNavigations(e,
        if r.kind == ManyToOne && targets != [] && MapOf(e, r.target).arity == |r.foreignKeys|
        then CopyKey(mem, targets[0], p, r.foreignKeys, 0) else mem,
        p, from + 1)
  }

  predicate GivesKey(kind: RelationKind) {
    kind == OneToMany || kind == OneToOne
  }

  function FlowLinks(e: Env, mem: Mem, p: Ptr, links: seq<Link>): Mem
    decreases |links|
  {
    if links == [] then mem
    else
      FlowLinks(e,
        if GivesKey(links[0].kind) && MapFor(e, links[0].owner).arity == |links[0].foreignKeys|
        then CopyKey(mem, links[0].owner, p, links[0].foreignKeys, 0) else mem,
        p, links[1..])
  }

  /** The relationship is a many-to-one the instance references a target by. */
  predicate ReferencesAt(e: Env, p: Ptr, r: nat) {
    && r < |MapFor(e, p).relationships| && MapFor(e, p).relationships[r].kind == ManyToOne && Targets(e, p, r) != []
    && MapOf(e, MapFor(e, p).relationships[r].target).arity == |MapFor(e, p).relationships[r].foreignKeys|
  }

  predicate NavigationWrites(e: Env, p: Ptr, r: nat, prop: Prop) {
    ReferencesAt(e, p, r) && prop in MapFor(e, p).relationships[r].foreignKeys
  }

  predicate LinkWrites(e: Env, l: Link, prop: Prop) {
    GivesKey(l.kind) && MapFor(e, l.owner).arity == |l.foreignKeys| && prop in l.foreignKeys
  }

  function Flow(e: Env, mem: Mem, op: Op): Mem {
    if op.FlushInsert? then FlowLinks(e, FlowNavigations(e, mem, op.p, 0), op.p, op.links) else mem
  }

  // --- what the plan asks of an operation ----------------------------------------------------

  predicate ManyToOneTarget(e: Env, p: Ptr, q: Ptr) {
    var relationships := MapFor(e, p).relationships;
    exists r :: 0 <= r < |relationships| && relationships[r].kind == ManyToOne && q in Targets(e, p, r)
  }

  /** The instances an operation reads a generated key from. */
  predicate DependsOn(e: Env, op: Op, q: Ptr) {
    OpInstance(op).Some? && (
      ManyToOneTarget(e, op.p, q) ||
      (op.FlushInsert? && exists l :: l in op.links && GivesKey(l.kind) && l.owner == q))
  }

  /** The key an operation's statement is about as it stands: none for a command or an unset key. */
  function KeyNow(e: Env, mem: Mem, op: Op): Option<(TypeId, Key)> {
    match op
    case Execute(_, _) => None
    case DeleteKey(t, key) =>
      if ValidKeyArgument(MapOf(e, t), key) && SetKey(MapOf(e, t), key) then Some((t, key)) else None
    case _ =>
      if SetKey(MapFor(e, op.p), KeyOf(mem, op.p)) then Some((TypeOf(e, op.p), KeyOf(mem, op.p))) else None
  }

  /** A statement of the message in progress with the key it is about, as it was prepared. */
  datatype Pending = Pending(write: Write, key: Option<(TypeId, Key)>)

  /** Rule 1: the operation depends on a statement of the message. */
  predicate Clashes(e: Env, mem: Mem, held: Pending, op: Op) {
    || (OpInstance(op).Some? && OpInstance(op) == Instance(held.write))
    || (GeneratesKey(held.write) && DependsOn(e, op, held.write.finish.p))
    || (KeyNow(e, mem, op).Some? && KeyNow(e, mem, op) == held.key)
  }

  /** Limits of a message: Off is a limit of one. A parameter cap of zero is none. */
  datatype Plan = Plan(limit: nat, parameterCap: nat, oneTrip: bool)

  function Parameters(current: seq<Pending>): nat {
    if current == [] then 0 else Parameters(current[..|current| - 1]) + ArgCount(current[|current| - 1].write.stmt)
  }

  /** Rules 2 and 3, decided once the statement is prepared. */
  predicate Splits(plan: Plan, current: seq<Pending>, write: Write) {
    current != [] && (
      || (plan.parameterCap > 0 && Parameters(current) + ArgCount(write.stmt) > plan.parameterCap)
      || (ReadsResult(write) && exists held :: held in current && IsCommand(held.write)))
  }

  // --- the call ------------------------------------------------------------------------------

  /** The database: one statement in, one reply out. */
  datatype Server<!D> = Server(run: (D, Statement) -> (D, Reply))

  /** One entry of the call's trace: a statement, its reply, and the memory it completed in. */
  datatype Completed = Completed(before: Mem, write: Write, reply: Reply)

  datatype Call<D> = Call(
    mem: Mem,
    db: D,
    journal: seq<Undo>,
    current: seq<Pending>,
    sent: seq<seq<Statement>>,
    history: seq<Completed>,
    failed: bool)

  function Start<D>(mem: Mem, db: D): Call<D> {
    Call(mem, db, [], [], [], [], false)
  }

  /** Completes the first of the waiting statements. */
  function Apply<D>(e: Env, c: Call<D>, writes: seq<Pending>, reply: Reply): Call<D>
    requires writes != []
  {
    var done := Complete(e, c.mem, writes[0].write, reply);
    c.(mem := done.mem, journal := c.journal + done.undos, failed := !done.ok,
       history := c.history + [Completed(c.mem, writes[0].write, reply)])
  }

  /** Statement by statement: each runs and completes before the next runs; the first failure stops. */
  function SendEach<D>(e: Env, srv: Server<D>, c: Call<D>, writes: seq<Pending>): (r: Call<D>)
    ensures c.history <= r.history
    decreases |writes|
  {
    if c.failed || writes == [] then c
    else
      var (db, reply) := srv.run(c.db, writes[0].write.stmt);
      SendEach(e, srv, Apply(e, c.(db := db), writes, reply), writes[1..])
  }

  function RunAll<D>(srv: Server<D>, db: D, writes: seq<Pending>): (r: (D, seq<Reply>))
    ensures |r.1| == |writes|
    decreases |writes|
  {
    if writes == [] then (db, [])
    else
      var (next, reply) := srv.run(db, writes[0].write.stmt);
      var (last, replies) := RunAll(srv, next, writes[1..]);
      (last, [reply] + replies)
  }

  function ApplyAll<D>(e: Env, c: Call<D>, writes: seq<Pending>, replies: seq<Reply>): (r: Call<D>)
    requires |writes| == |replies|
    ensures c.history <= r.history
    decreases |writes|
  {
    if c.failed || writes == [] then c
    else ApplyAll(e, Apply(e, c, writes, replies[0]), writes[1..], replies[1..])
  }

  /** In one round trip every statement runs before the first completes, and none does if one breaks. */
  function SendTogether<D>(e: Env, srv: Server<D>, c: Call<D>, writes: seq<Pending>): (r: Call<D>)
    ensures c.history <= r.history
  {
    var (db, replies) := RunAll(srv, c.db, writes);
    if Broken in replies then c.(db := db, failed := true) else ApplyAll(e, c.(db := db), writes, replies)
  }

  function Texts(writes: seq<Pending>): seq<Statement> {
    seq(|writes|, i requires 0 <= i < |writes| => writes[i].write.stmt)
  }

  function Send<D>(e: Env, srv: Server<D>, plan: Plan, c: Call<D>): (r: Call<D>)
    ensures c.history <= r.history
  {
    if c.current == [] then c
    else
      var started := c.(current := [], sent := c.sent + [Texts(c.current)]);
      if plan.oneTrip then SendTogether(e, srv, started, c.current) else SendEach(e, srv, started, c.current)
  }

  function Before<D>(e: Env, srv: Server<D>, plan: Plan, c: Call<D>, op: Op): (r: Call<D>)
    ensures c.history <= r.history
  {
    if exists held :: held in c.current && Clashes(e, c.mem, held, op) then Send(e, srv, plan, c) else c
  }

  function Recorded<D>(e: Env, c: Call<D>, op: Op): Call<D> {
    if OpInstance(op).Some? then c.(journal := c.journal + [RecordWrite(e, c.mem, op.p)]) else c
  }

  function Prepare(e: Env, mem: Mem, op: Op): Preparation {
    match op
    case FlushInsert(p, _) => PrepareInsert(e, mem, p)
    case Insert(p) => PrepareInsert(e, mem, p)
    case Update(p) => PrepareUpdate(e, mem, p)
    case UpdateOnly(p, props) => PrepareUpdateOnly(e, mem, p, props)
    case DeleteEntity(p) => PrepareDeleteEntity(e, mem, p)
    case DeleteKey(t, key) => PrepareDeleteKey(e, mem, t, key)
    case Execute(text, args) => Preparation(mem, Issued(Write(Command(text, args), DriverCount, FinishCommand)))
  }

  function Add<D>(e: Env, srv: Server<D>, plan: Plan, c: Call<D>, write: Write, op: Op): (r: Call<D>)
    ensures c.history <= r.history
  {
    var split := if Splits(plan, c.current, write) then Send(e, srv, plan, c) else c;
    if split.failed then split
    else
      var joined := split.(current := split.current + [Pending(write, KeyNow(e, split.mem, op))]);
      if |joined.current| >= plan.limit then Send(e, srv, plan, joined) else joined
  }

  /** Past rule 1: the key flow, the journal's capture, the preparation, and rules 2 and 3. */
  function Proceed<D>(e: Env, srv: Server<D>, plan: Plan, c: Call<D>, op: Op): (r: Call<D>)
    ensures c.history <= r.history
  {
    var recorded := Recorded(e, c.(mem := Flow(e, c.mem, op)), op);
    var prepared := Prepare(e, recorded.mem, op);
    var after := recorded.(mem := prepared.mem);
    match prepared.issue
    case Refused(_) => after.(failed := true)
    case Nothing => after
    case Issued(write) => Add(e, srv, plan, after, write, op)
  }

  function Step<D>(e: Env, srv: Server<D>, plan: Plan, c: Call<D>, op: Op): (r: Call<D>)
    ensures c.history <= r.history
  {
    if c.failed then c
    else
      var ready := Before(e, srv, plan, c, op);
      if ready.failed then ready else Proceed(e, srv, plan, ready, op)
  }

  function Steps<D>(e: Env, srv: Server<D>, plan: Plan, c: Call<D>, ops: seq<Op>): (r: Call<D>)
    ensures c.history <= r.history
  {
    if ops == [] then c
    else Step(e, srv, plan, Steps(e, srv, plan, c, ops[..|ops| - 1]), ops[|ops| - 1])
  }

  /** The whole call: every operation, then what is left of the plan. */
  function Run<D>(e: Env, srv: Server<D>, plan: Plan, mem: Mem, db: D, ops: seq<Op>): Call<D> {
    var done := Steps(e, srv, plan, Start(mem, db), ops);
    if done.failed then done else Send(e, srv, plan, done)
  }

  // --- rolling back --------------------------------------------------------------------------

  /** The journal's closures, last in first out. */
  function Rollback(mem: Mem, journal: seq<Undo>): Mem
    decreases |journal|
  {
    if journal == [] then mem
    else Rollback(RunUndo(mem, journal[|journal| - 1]), journal[..|journal| - 1])
  }
}
