/**
 One generated write in its three steps: prepare (checks, gates, hooks and the bound statement),
 execute, and complete (the result judged and applied). The undo journal's closures are here too,
 as data, because the completing step adds some.
 */
module Writes {
  import opened Values
  import opened Entities
  import opened IdentityMap

  datatype Code =
    | CRUD002 | CRUD003 | CRUD004 | CRUD005 | CRUD006 | CRUD007 | CRUD012
    | UOW002 | UOW005 | UOW006 | VAL020

  /**
   What a call reads and never changes: the metadata, the navigations as they stand, and the
   clock and GUID source as streams indexed by the number of readings so far.
   */
  datatype Env = Env(
    tracked: bool,
    maps: map<TypeId, EntityMap>,
    typeOf: map<Ptr, TypeId>,
    navigations: map<(Ptr, nat), seq<Ptr>>,
    clock: nat -> Option<Val>,
    newGuid: nat -> nat,
    countsBySelect: bool)

  const UNMAPPED := EntityMap(false, Natural, 0, 0, {}, false, false, false, false, [])

  function MapOf(e: Env, t: TypeId): EntityMap {
    if t in e.maps then e.maps[t] else UNMAPPED
  }

  function TypeOf(e: Env, p: Ptr): TypeId {
    if p in e.typeOf then e.typeOf[p] else 0
  }

  function MapFor(e: Env, p: Ptr): EntityMap {
    MapOf(e, TypeOf(e, p))
  }

  function Targets(e: Env, p: Ptr, relationship: nat): seq<Ptr> {
    if (p, relationship) in e.navigations then e.navigations[(p, relationship)] else []
  }

  /** The session's memory: instance values, identity map, and how often clock and GUID source were read. */
  datatype Mem = Mem(inst: map<Ptr, Inst>, ids: IdMap, ticks: nat, guids: nat)

  function InstOf(mem: Mem, p: Ptr): Inst {
    if p in mem.inst then mem.inst[p] else BLANK
  }

  function Put(mem: Mem, p: Ptr, x: Inst): Mem {
    if p in mem.inst then mem.(inst := mem.inst[p := x]) else mem
  }

  function KeyOf(mem: Mem, p: Ptr): Key {
    InstOf(mem, p).key
  }

  // --- the identity gate and the hooks -----------------------------------------------------

  datatype Gate = Closed | Open(entry: Option<Entry>)

  /** A write needs the session's instance for its key: Closed is UOW-002. */
  function WriteIdentity(e: Env, mem: Mem, p: Ptr): Gate {
    var key := KeyOf(mem, p);
    match EntryOf(mem.ids, p)
    case Some(entry) => if HasNull(key) || entry.key != key then Closed else Open(Some(entry))
    case None => if !HasNull(key) && Find(mem.ids, TypeOf(e, p), key).Some? then Closed else Open(None)
  }

  /** A non-null many-to-one navigation agrees with the foreign keys written (all, or the listed ones). */
  predicate NavigationsAgree(e: Env, mem: Mem, p: Ptr, written: Option<seq<Prop>>) {
    var relationships := MapFor(e, p).relationships;
    forall r :: 0 <= r < |relationships| && relationships[r].kind == ManyToOne ==>
      NavigationAgrees(e, mem, p, relationships[r], Targets(e, p, r), written)
  }

  predicate NavigationAgrees(e: Env, mem: Mem, p: Ptr, relationship: Relationship, targets: seq<Ptr>,
      written: Option<seq<Prop>>) {
    targets != [] && MapOf(e, relationship.target).arity == |relationship.foreignKeys| ==>
      forall k :: 0 <= k < |relationship.foreignKeys| ==>
        (written.Some? && relationship.foreignKeys[k] !in written.value) ||
        Get(InstOf(mem, targets[0]), KeyPart(k)) == Get(InstOf(mem, p), relationship.foreignKeys[k])
  }

  datatype Hooked = Refusal(code: Code) | Hooked(mem: Mem, props: seq<Prop>)

  predicate UnsetInstant(v: Val) {
    v == Null || (v.Time? && IsZero(v))
  }

  function FillCreatedAt(e: Env, mem: Mem, p: Ptr): Hooked {
    if !MapFor(e, p).createdAt || !UnsetInstant(InstOf(mem, p).created) then Hooked(mem, [])
    else
      match e.clock(mem.ticks)
      case None => Refusal(VAL020)
      case Some(now) => Hooked(Put(mem, p, InstOf(mem, p).(created := now)).(ticks := mem.ticks + 1), [])
  }

  /** The updated-at hook: the column takes the clock and joins the set when it is not listed. */
  function StampSet(e: Env, mem: Mem, p: Ptr, props: seq<Prop>): Hooked {
    if !MapFor(e, p).updatedAt then Hooked(mem, props)
    else
      match e.clock(mem.ticks)
      case None => Refusal(VAL020)
      case Some(now) =>
        Hooked(Put(mem, p, InstOf(mem, p).(updated := now)).(ticks := mem.ticks + 1),
               if UpdatedAt in props then props else props + [UpdatedAt])
  }

  // --- statements --------------------------------------------------------------------------

  datatype Statement =
    | InsertRow(t: TypeId, values: seq<(Prop, Val)>)
    | UpdateRow(t: TypeId, key: Key, values: seq<(Prop, Val)>, version: Option<int>)
    | DeleteRow(t: TypeId, key: Key, version: Option<int>)
    | Command(text: nat, args: nat)

  function VersionArgs(version: Option<int>): nat {
    if version.Some? then 1 else 0
  }

  /** The bound parameters of a statement. */
  function ArgCount(s: Statement): nat {
    match s
    case InsertRow(_, values) => |values|
    case UpdateRow(_, key, values, version) => |values| + |key| + VersionArgs(version)
    case DeleteRow(_, key, version) => |key| + VersionArgs(version)
    case Command(_, args) => args
  }

  datatype ReplyKind = NoReply | KeyReply | ReportedCount | DriverCount

  datatype Reply = Broken | Reply(key: Option<Val>, affected: int)

  /** How a statement's result is applied; the entry is the one the preparation found. */
  datatype Finish =
    | FinishInsert(p: Ptr, generated: bool)
    | FinishFullUpdate(p: Ptr)
    | FinishColumns(p: Ptr, entry: Option<Entry>, props: seq<Prop>)
    | FinishDelete(p: Ptr, entry: Option<Entry>, soft: bool)
    | FinishDeleteKey(t: TypeId, key: Key)
    | FinishCommand

  datatype Write = Write(stmt: Statement, reply: ReplyKind, finish: Finish)

  function Instance(w: Write): Option<Ptr> {
    match w.finish
    case FinishInsert(p, _) => Some(p)
    case FinishFullUpdate(p) => Some(p)
    case FinishColumns(p, _, _) => Some(p)
    case FinishDelete(p, _, _) => Some(p)
    case _ => None
  }

  predicate GeneratesKey(w: Write) {
    w.finish.FinishInsert? && w.finish.generated
  }

  predicate IsCommand(w: Write) {
    w.finish.FinishCommand?
  }

  predicate ReadsResult(w: Write) {
    w.reply == KeyReply || w.reply == ReportedCount
  }

  function Bind(x: Inst, props: seq<Prop>): seq<(Prop, Val)> {
    seq(|props|, i requires 0 <= i < |props| => (props[i], Get(x, props[i])))
  }

  function KeyParts(n: nat): seq<Prop> {
    seq(n, i requires 0 <= i < n => KeyPart(i))
  }

  function PlainColumns(m: EntityMap, n: nat): seq<Prop>
    requires n <= m.columns
    ensures forall p :: p in PlainColumns(m, n) <==> p.Column? && p.col < n && p.col !in m.generated
  {
    if n == 0 then [] else PlainColumns(m, n - 1) + (if n - 1 in m.generated then [] else [Column(n - 1)])
  }

  /** The columns an update may write: no key, no version, nothing generated. */
  function WritableColumns(m: EntityMap): seq<Prop> {
    PlainColumns(m, m.columns)
    + (if m.createdAt then [CreatedAt] else [])
    + (if m.updatedAt then [UpdatedAt] else [])
    + (if m.softDelete then [SoftDelete] else [])
  }

  /** The type maps the property, and it is no key part, no version and no generated value. */
  predicate Updatable(m: EntityMap, p: Prop) {
    match p
    case KeyPart(_) => false
    case Column(i) => i < m.columns && i !in m.generated
    case VersionColumn => false
    case CreatedAt => m.createdAt
    case UpdatedAt => m.updatedAt
    case SoftDelete => m.softDelete
  }

  ghost predicate Distinct(props: seq<Prop>) {
    forall i, j :: 0 <= i < j < |props| ==> props[i] != props[j]
  }

  lemma {:induction false} PlainColumnsOnce(m: EntityMap, n: nat)
    requires n <= m.columns
    ensures Distinct(PlainColumns(m, n))
  {
    if n > 0 {
      PlainColumnsOnce(m, n - 1);
      assert Column(n - 1) !in PlainColumns(m, n - 1);
    }
  }

  lemma DistinctBoth(a: seq<Prop>, b: seq<Prop>)
    requires Distinct(a) && Distinct(b) && forall p :: p in a ==> p !in b
    ensures Distinct(a + b)
  {
    var both := a + b;
    forall i, j | 0 <= i < j < |both|
      ensures both[i] != both[j]
    {
      if i < |a| <= j {
        assert both[i] in a && both[j] in b;
      }
    }
  }

  /** An update may write exactly the writable properties, each once. */
  lemma WritableColumnsAre(m: EntityMap)
    ensures forall p :: p in WritableColumns(m) <==> Updatable(m, p)
    ensures Distinct(WritableColumns(m))
  {
    var plain := PlainColumns(m, m.columns);
    PlainColumnsOnce(m, m.columns);
    var created := plain + if m.createdAt then [CreatedAt] else [];
    DistinctBoth(plain, if m.createdAt then [CreatedAt] else []);
    DistinctBoth(created, if m.updatedAt then [UpdatedAt] else []);
    DistinctBoth(created + if m.updatedAt then [UpdatedAt] else [], if m.softDelete then [SoftDelete] else []);
  }

  function VersionOf(m: EntityMap): seq<Prop> {
    if m.versioned then [VersionColumn] else []
  }

  function InsertedColumns(m: EntityMap): seq<Prop> {
    (if m.strategy == DatabaseGenerated then [] else KeyParts(m.arity)) + VersionOf(m) + WritableColumns(m)
  }

  function VersionCheck(m: EntityMap, x: Inst): Option<int> {
    if m.versioned then Some(x.version) else None
  }

  function CountKind(e: Env): ReplyKind {
    if e.countsBySelect then ReportedCount else DriverCount
  }

  function ColumnsUpdate(e: Env, mem: Mem, p: Ptr, props: seq<Prop>): Statement {
    UpdateRow(TypeOf(e, p), KeyOf(mem, p), Bind(InstOf(mem, p), props), VersionCheck(MapFor(e, p), InstOf(mem, p)))
  }

  // --- prepare -----------------------------------------------------------------------------

  datatype Issue = Refused(code: Code) | Nothing | Issued(write: Write)

  /** The memory a preparation leaves, also when it refuses, and what it issues. */
  datatype Preparation = Preparation(mem: Mem, issue: Issue)

  function AssignGuid(e: Env, mem: Mem, p: Ptr): Mem {
    if MapFor(e, p).strategy == ClientGuid && Get(InstOf(mem, p), KeyPart(0)) == Guid(0) then
      Put(mem, p, Set(InstOf(mem, p), KeyPart(0), Guid(e.newGuid(mem.guids)))).(guids := mem.guids + 1)
    else mem
  }

  function PrepareInsert(e: Env, mem: Mem, p: Ptr): Preparation {
    var m := MapFor(e, p);
    if !m.isTable then Preparation(mem, Refused(CRUD003))
    else if !NavigationsAgree(e, mem, p, None) then Preparation(mem, Refused(CRUD004))
    else
      var keyed := AssignGuid(e, mem, p);
      var generated := m.strategy == DatabaseGenerated;
      if !generated && WriteIdentity(e, keyed, p).Closed? then Preparation(keyed, Refused(UOW002))
      else
        match FillCreatedAt(e, keyed, p)
        case Refusal(code) => Preparation(keyed, Refused(code))
        case Hooked(filled, _) =>
          Preparation(filled, Issued(Write(
            InsertRow(TypeOf(e, p), Bind(InstOf(filled, p), InsertedColumns(m))),
            if generated then KeyReply else NoReply,
            FinishInsert(p, generated))))
  }

  /** The refusal a type that cannot be updated or deleted by key draws. */
  function Unwritable(m: EntityMap): Option<Code> {
    if !m.isTable then Some(CRUD003) else if m.arity == 0 then Some(CRUD002) else None
  }

  function SnapshotOf(ids: IdMap, entry: Entry): Inst {
    if entry.seqNo in ids.snaps then ids.snaps[entry.seqNo] else BLANK
  }

  /** The columns an update would write whose value differs from the snapshot, in map order. */
  function Dirty(snapshot: Inst, x: Inst, props: seq<Prop>): (dirty: seq<Prop>)
    ensures forall p :: p in dirty <==> p in props && p != UpdatedAt && Get(snapshot, p) != Get(x, p)
  {
    if props == [] then []
    else
      (if props[0] != UpdatedAt && Get(snapshot, props[0]) != Get(x, props[0]) then [props[0]] else [])
      + Dirty(snapshot, x, props[1..])
  }

  /** A column-list update, stamped: what a tracked update and an update of named columns both issue. */
  function PrepareColumns(e: Env, mem: Mem, p: Ptr, entry: Option<Entry>, props: seq<Prop>): Preparation {
    match StampSet(e, mem, p, props)
    case Refusal(code) => Preparation(mem, Refused(code))
    case Hooked(stamped, written) =>
      Preparation(stamped, Issued(Write(
        ColumnsUpdate(e, stamped, p, written), CountKind(e),
        FinishColumns(p, entry, written + VersionOf(MapFor(e, p))))))
  }

  function PrepareTrackedUpdate(e: Env, mem: Mem, p: Ptr, entry: Entry): Preparation {
    var dirty := Dirty(SnapshotOf(mem.ids, entry), InstOf(mem, p), WritableColumns(MapFor(e, p)));
    if dirty == [] then Preparation(mem, Nothing) else PrepareColumns(e, mem, p, Some(entry), dirty)
  }

  function PrepareFullUpdate(e: Env, mem: Mem, p: Ptr): Preparation {
    match StampSet(e, mem, p, [])
    case Refusal(code) => Preparation(mem, Refused(code))
    case Hooked(stamped, _) =>
      Preparation(stamped, Issued(Write(
        ColumnsUpdate(e, stamped, p, WritableColumns(MapFor(e, p))), CountKind(e), FinishFullUpdate(p))))
  }

  function PrepareUpdate(e: Env, mem: Mem, p: Ptr): Preparation {
    var m := MapFor(e, p);
    if Unwritable(m).Some? then Preparation(mem, Refused(Unwritable(m).value))
    else if !NavigationsAgree(e, mem, p, None) then Preparation(mem, Refused(CRUD004))
    else
      match WriteIdentity(e, mem, p)
      case Closed => Preparation(mem, Refused(UOW002))
      case Open(Some(entry)) => PrepareTrackedUpdate(e, mem, p, entry)
      case Open(None) => PrepareFullUpdate(e, mem, p)
  }

  /** The refusal of a column list: CRUD-005 unmapped, CRUD-006 never written, CRUD-007 empty or repeating. */
  function ListRefusal(m: EntityMap, props: seq<Prop>, from: nat): Option<Code>
    requires from <= |props|
    decreases |props| - from
  {
    if props == [] then Some(CRUD007)
    else if from == |props| then None
    else
      var p := props[from];
      if (p.Column? && p.col >= m.columns) || (p.KeyPart? && p.part >= m.arity)
         || (p == CreatedAt && !m.createdAt) || (p == UpdatedAt && !m.updatedAt)
         || (p == SoftDelete && !m.softDelete) || (p == VersionColumn && !m.versioned) then Some(CRUD005)
      else if p.KeyPart? || p == VersionColumn || (p.Column? && p.col in m.generated) then Some(CRUD006)
      else if p in props[..from] then Some(CRUD007)
      else ListRefusal(m, props, from + 1)
  }

  function PrepareUpdateOnly(e: Env, mem: Mem, p: Ptr, props: seq<Prop>): Preparation {
    var m := MapFor(e, p);
    if Unwritable(m).Some? then Preparation(mem, Refused(Unwritable(m).value))
    else if ListRefusal(m, props, 0).Some? then Preparation(mem, Refused(ListRefusal(m, props, 0).value))
    else if !NavigationsAgree(e, mem, p, Some(props)) then Preparation(mem, Refused(CRUD004))
    else
      match WriteIdentity(e, mem, p)
      case Closed => Preparation(mem, Refused(UOW002))
      case Open(entry) => PrepareColumns(e, mem, p, entry, props)
  }

  predicate ValidKeyArgument(m: EntityMap, key: Key) {
    |key| == m.arity && !HasNull(key)
  }

  /** The by-key form has no instance to stamp: only the clock reading shows in memory. */
  function PrepareDeleteKey(e: Env, mem: Mem, t: TypeId, key: Key): Preparation {
    var m := MapOf(e, t);
    if Unwritable(m).Some? then Preparation(mem, Refused(Unwritable(m).value))
    else if m.softDelete && m.versioned then Preparation(mem, Refused(CRUD012))
    else if !ValidKeyArgument(m, key) then Preparation(mem, Refused(CRUD002))
    else if !m.softDelete then
      Preparation(mem, Issued(Write(DeleteRow(t, key, None), CountKind(e), FinishDeleteKey(t, key))))
    else if !m.updatedAt then
      Preparation(mem, Issued(Write(UpdateRow(t, key, [(SoftDelete, Flag(true))], None), CountKind(e),
        FinishDeleteKey(t, key))))
    else
      match e.clock(mem.ticks)
      case None => Preparation(mem, Refused(VAL020))
      case Some(now) =>
        Preparation(mem.(ticks := mem.ticks + 1), Issued(Write(
          UpdateRow(t, key, [(SoftDelete, Flag(true)), (UpdatedAt, now)], None), CountKind(e),
            FinishDeleteKey(t, key))))
  }

  function PrepareDeleteEntity(e: Env, mem: Mem, p: Ptr): Preparation {
    var m := MapFor(e, p);
    if Unwritable(m).Some? then Preparation(mem, Refused(Unwritable(m).value))
    else
      match WriteIdentity(e, mem, p)
      case Closed => Preparation(mem, Refused(UOW002))
      case Open(entry) =>
        if m.softDelete then
          match StampSet(e, Put(mem, p, InstOf(mem, p).(flag := Flag(true))), p, [SoftDelete])
          case Refusal(code) => Preparation(mem, Refused(code))
          case Hooked(stamped, written) =>
            Preparation(stamped, Issued(Write(ColumnsUpdate(e, stamped, p, written), CountKind(e),
              FinishDelete(p, entry, true))))
        else
          Preparation(mem, Issued(Write(
            DeleteRow(TypeOf(e, p), KeyOf(mem, p), VersionCheck(m, InstOf(mem, p))), CountKind(e),
              FinishDelete(p, entry, false))))
  }

  // --- the undo journal's closures, as data ------------------------------------------------

  /**
   UndoWrite is what recordWrite captures of an instance before its operation prepares: its key,
   version, stamps and flag, its entry with that entry's snapshot, and the entry holding its key.
   UndoRestore is what a completion adds for an entry it drops.
   */
  datatype Undo =
    | UndoWrite(p: Ptr, prior: Inst, entry: Option<Entry>, snapshot: Inst, holder: Option<Entry>)
    | UndoRestore(dropped: Entry)

  function RecordWrite(e: Env, mem: Mem, p: Ptr): Undo {
    var entry := EntryOf(mem.ids, p);
    UndoWrite(p, InstOf(mem, p), entry,
              if entry.Some? then SnapshotOf(mem.ids, entry.value) else BLANK,
              if HasNull(KeyOf(mem, p)) then None else Find(mem.ids, TypeOf(e, p), KeyOf(mem, p)))
  }

  /** The journaled fields go back; the other columns stay as they are. */
  function PutBackFields(x: Inst, prior: Inst): Inst {
    prior.(cols := x.cols)
  }

  function ForgetNewer(ids: IdMap, p: Ptr, entry: Option<Entry>): IdMap {
    var current := EntryOf(ids, p);
    if current.Some? && current != entry then Forget(ids, current.value) else ids
  }

  function UndoIds(ids: IdMap, u: Undo): IdMap {
    match u
    case UndoRestore(dropped) => Restore(ids, dropped)
    case UndoWrite(p, _, entry, snapshot, holder) =>
      var cleared := ForgetNewer(ids, p, entry);
      var own := if entry.Some? then Restore(SetSnapshot(cleared, entry.value, snapshot), entry.value) else cleared;
      if holder.Some? && holder != entry then Restore(own, holder.value) else own
  }

  function UndoInst(mem: Mem, u: Undo): Mem {
    if u.UndoWrite? then Put(mem, u.p, PutBackFields(InstOf(mem, u.p), u.prior)) else mem
  }

  function RunUndo(mem: Mem, u: Undo): Mem {
    UndoInst(mem, u).(ids := UndoIds(mem.ids, u))
  }

  // --- complete ----------------------------------------------------------------------------

  /** The memory, the undos added to the journal, and whether the statement passed its check. */
  datatype Completion = Completion(mem: Mem, undos: seq<Undo>, ok: bool)

  /** Registers a stored instance; the entry that held its key comes back if the call is undone. */
  function TrackJournaled(e: Env, mem: Mem, p: Ptr): Completion {
    var t, key := TypeOf(e, p), KeyOf(mem, p);
    if !e.tracked || MapOf(e, t).arity == 0 || HasNull(key) then Completion(mem, [], true)
    else
      var holder := Find(mem.ids, t, key);
      Completion(
        mem.(ids := Register(mem.ids, t, p, key, InstOf(mem, p))),
        if holder.Some? && holder.value.ptr != p then [UndoRestore(holder.value)] else [],
        true)
  }

  function ForgetJournaled(mem: Mem, entry: Option<Entry>): Completion {
    if entry.None? then Completion(mem, [], true)
    else Completion(mem.(ids := Forget(mem.ids, entry.value)), [UndoRestore(entry.value)], true)
  }

  function Bump(e: Env, mem: Mem, p: Ptr): Mem {
    if MapFor(e, p).versioned then Put(mem, p, InstOf(mem, p).(version := InstOf(mem, p).version + 1)) else mem
  }

  function Copied(to: Inst, from: Inst, props: seq<Prop>): Inst
    decreases |props|
  {
    if props == [] then to else Copied(Set(to, props[0], Get(from, props[0])), from, props[1..])
  }

  function Resnapshot(mem: Mem, p: Ptr, entry: Option<Entry>, props: seq<Prop>): Mem {
    if entry.None? then mem
    else mem.(ids := SetSnapshot(mem.ids, entry.value, Copied(SnapshotOf(mem.ids, entry.value), InstOf(mem, p), props)))
  }

  function Complete(e: Env, mem: Mem, w: Write, reply: Reply): Completion {
    if reply.Broken? then Completion(mem, [], false)
    else
      match w.finish
      case FinishInsert(p, generated) =>
        if !generated then TrackJournaled(e, mem, p)
        else if reply.key.None? then Completion(mem, [], false)
        else TrackJournaled(e, Put(mem, p, Set(InstOf(mem, p), KeyPart(0), reply.key.value)), p)
      case FinishFullUpdate(p) =>
        if reply.affected == 0 then Completion(mem, [], false) else TrackJournaled(e, Bump(e, mem, p), p)
      case FinishColumns(p, entry, props) =>
        if reply.affected == 0 then Completion(mem, [], false)
        else Completion(Resnapshot(Bump(e, mem, p), p, entry, props), [], true)
      case FinishDelete(p, entry, soft) =>
        if reply.affected == 0 then Completion(mem, [], false)
        else ForgetJournaled(if soft then Bump(e, mem, p) else mem, entry)
      case FinishDeleteKey(t, key) =>
        if reply.affected == 0 then Completion(mem, [], false) else ForgetJournaled(mem, Find(mem.ids, t, key))
      case FinishCommand => Completion(mem, [], true)
  }
}
