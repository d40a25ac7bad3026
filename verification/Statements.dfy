/**
 What each write binds and when it is refused, said of the entity map and the instance alone: which properties, each
 once, with which values.
 */
module Statements {
  import opened Values
  import opened Entities
  import opened IdentityMap
  import opened Writes

  /** The fault, or else the first of those after it. */
  function Fault(wrong: bool, code: Code, rest: Option<Code>): Option<Code> { if wrong then Some(code) else rest }

  /** The write is refused with its first fault, and not refused without one. */
  predicate Refuses(issue: Issue, fault: Option<Code>) {
    if fault.None? then !issue.Refused? else issue == Refused(fault.value)
  }

  /** The update lists the property; every other write asks about all. */
  predicate Asked(listed: Option<seq<Prop>>, prop: Prop) {
    listed.None? || prop in listed.value
  }

  /** A non-null many-to-one navigation holds a target whose key the foreign keys, those asked about, do not hold. */
  ghost predicate Disagrees(e: Env, mem: Mem, p: Ptr, asked: Option<seq<Prop>>) {
    exists r, k :: DisagreesAt(e, mem, p, r, k, asked)
  }

  ghost predicate DisagreesAt(e: Env, mem: Mem, p: Ptr, r: nat, k: nat, asked: Option<seq<Prop>>) {
    && r < |MapFor(e, p).relationships| && MapFor(e, p).relationships[r].kind == ManyToOne && Targets(e, p, r) != []
    && var foreignKeys := MapFor(e, p).relationships[r].foreignKeys;
       && |foreignKeys| == MapOf(e, MapFor(e, p).relationships[r].target).arity
       && k < |foreignKeys| && Asked(asked, foreignKeys[k])
       && Get(InstOf(mem, p), foreignKeys[k]) != Get(InstOf(mem, Targets(e, p, r)[0]), KeyPart(k))
  }

  /** Tracked under another key or holding a null part; or untracked while another instance is tracked under the key. */
  ghost predicate Barred(e: Env, ids: IdMap, p: Ptr, key: Key) {
    if EntryOf(ids, p).Some? then Null in key || EntryOf(ids, p).value.key != key
    else Null !in key && Find(ids, TypeOf(e, p), key).Some?
  }

  lemma DisagreeIff(e: Env, mem: Mem, p: Ptr, asked: Option<seq<Prop>>)
    ensures NavigationsAgree(e, mem, p, asked) <==> !Disagrees(e, mem, p, asked)
  {
    var relationships := MapFor(e, p).relationships;
    if !NavigationsAgree(e, mem, p, asked) {
      var r :| 0 <= r < |relationships| && relationships[r].kind == ManyToOne &&
               !NavigationAgrees(e, mem, p, relationships[r], Targets(e, p, r), asked);
      var k :| 0 <= k < |relationships[r].foreignKeys| && Asked(asked, relationships[r].foreignKeys[k]) &&
               Get(InstOf(mem, Targets(e, p, r)[0]), KeyPart(k)) !=
               Get(InstOf(mem, p), relationships[r].foreignKeys[k]);
      assert DisagreesAt(e, mem, p, r, k, asked);
    }
    if r: nat, k: nat :| DisagreesAt(e, mem, p, r, k, asked) {
      assert !NavigationAgrees(e, mem, p, relationships[r], Targets(e, p, r), asked);
    }
  }

  // --- bindings ---------------------------------------------------------------------------------------

  /** Exactly the properties of the set, each once, with the instance's values. */
  ghost predicate BindsExactly(values: seq<(Prop, Val)>, props: iset<Prop>, x: Inst) {
    && (forall i, j :: 0 <= i < j < |values| ==> values[i].0 != values[j].0)
    && (forall i :: 0 <= i < |values| ==> values[i].0 in props && values[i].1 == Get(x, values[i].0))
    && forall p :: p in props ==> exists i :: 0 <= i < |values| && values[i].0 == p
  }

  lemma BindBindsExactly(x: Inst, props: seq<Prop>, all: iset<Prop>)
    requires Distinct(props) && (forall p :: p in props <==> p in all)
    ensures BindsExactly(Bind(x, props), all, x)
  {
    forall p | p in all
      ensures exists i :: 0 <= i < |Bind(x, props)| && Bind(x, props)[i].0 == p
    {
      var i :| 0 <= i < |props| && props[i] == p;
      assert Bind(x, props)[i].0 == p;
    }
  }

  // --- insert ---------------------------------------------------------------------------------------------

  /** The type maps the property and the database does not generate it. */
  predicate Stored(m: EntityMap, p: Prop) {
    Updatable(m, p) || (p == VersionColumn && m.versioned) ||
    (p.KeyPart? && p.part < m.arity && m.strategy != DatabaseGenerated)
  }

  ghost function StoredProps(m: EntityMap): iset<Prop> {
    iset prop | Stored(m, prop)
  }

  lemma InsertedColumnsAre(m: EntityMap)
    ensures forall p :: p in InsertedColumns(m) <==> Stored(m, p)
    ensures Distinct(InsertedColumns(m))
  {
    WritableColumnsAre(m);
    var keys := KeyParts(m.arity);
    forall p
      ensures p in keys <==> p.KeyPart? && p.part < m.arity
    {
      if p.KeyPart? && p.part < m.arity {
        assert keys[p.part] == p;
      }
    }
    var first := if m.strategy == DatabaseGenerated then [] else keys;
    DistinctBoth(first, VersionOf(m));
    DistinctBoth(first + VersionOf(m), WritableColumns(m));
  }

  /** An unset client GUID is drawn. */
  ghost predicate DrawsGuid(e: Env, mem: Mem, p: Ptr) {
    MapFor(e, p).strategy == ClientGuid && Get(InstOf(mem, p), KeyPart(0)) == Guid(0)
  }

  /** An unset created-at takes the clock. */
  ghost predicate TakesClock(e: Env, mem: Mem, p: Ptr) {
    MapFor(e, p).createdAt && InstOf(mem, p).created in {Null, Time(0)}
  }

  /** What an insert stores of the instance: its values, but for a drawn GUID and a filled created-at. */
  ghost function InsertValue(e: Env, mem: Mem, p: Ptr, prop: Prop): Val {
    if prop == KeyPart(0) && DrawsGuid(e, mem, p) then Guid(e.newGuid(mem.guids))
    else if prop == CreatedAt && TakesClock(e, mem, p) && e.clock(mem.ticks).Some? then e.clock(mem.ticks).value
    else Get(InstOf(mem, p), prop)
  }

  ghost function InsertKey(e: Env, mem: Mem, p: Ptr): Key {
    seq(|KeyOf(mem, p)|, i requires 0 <= i < |KeyOf(mem, p)| => InsertValue(e, mem, p, KeyPart(i)))
  }

  /** The first of a read-only type, a navigation that disagrees, an identity taken, and a clock that fails. */
  ghost function InsertFault(e: Env, mem: Mem, p: Ptr): Option<Code> {
    Fault(!MapFor(e, p).isTable, CRUD003,
    Fault(Disagrees(e, mem, p, None), CRUD004,
    Fault(MapFor(e, p).strategy != DatabaseGenerated && Barred(e, mem.ids, p, InsertKey(e, mem, p)), UOW002,
    Fault(TakesClock(e, mem, p) && e.clock(mem.ticks) == None, VAL020, None))))
  }

  lemma GuidIsAssigned(e: Env, mem: Mem, p: Ptr)
    requires p in mem.inst
    ensures KeyOf(AssignGuid(e, mem, p), p) == InsertKey(e, mem, p)
    ensures forall prop :: prop != CreatedAt ==>
              Get(InstOf(AssignGuid(e, mem, p), p), prop) == InsertValue(e, mem, p, prop)
    ensures AssignGuid(e, mem, p).ids == mem.ids && AssignGuid(e, mem, p).ticks == mem.ticks
    ensures InstOf(AssignGuid(e, mem, p), p).created == InstOf(mem, p).created && p in AssignGuid(e, mem, p).inst
  {
    assert |InstOf(mem, p).key| > 0 || !DrawsGuid(e, mem, p);
  }

  lemma InsertRefuses(e: Env, mem: Mem, p: Ptr)
    requires p in mem.inst
    ensures Refuses(PrepareInsert(e, mem, p).issue, InsertFault(e, mem, p))
    ensures InsertFault(e, mem, p) == None ==> PrepareInsert(e, mem, p).issue.Issued?
  {
    DisagreeIff(e, mem, p, None);
    GuidIsAssigned(e, mem, p);
  }

  /**
   An insert that is not refused binds every property its type maps and the database does not generate, each once,
   and leaves the instance with the values it bound.
   */
  lemma InsertBindsRow(e: Env, mem: Mem, p: Ptr)
    requires p in mem.inst && PrepareInsert(e, mem, p).issue.Issued?
    ensures var prepared := PrepareInsert(e, mem, p);
            var m, stmt := MapFor(e, p), prepared.issue.write.stmt;
            && stmt.InsertRow? && stmt.t == TypeOf(e, p)
            && BindsExactly(stmt.values, StoredProps(m), InstOf(prepared.mem, p))
            && (forall prop :: Get(InstOf(prepared.mem, p), prop) == InsertValue(e, mem, p, prop))
            && prepared.issue.write.reply == (if m.strategy == DatabaseGenerated then KeyReply else NoReply)
  {
    GuidIsAssigned(e, mem, p);
    var m, after := MapFor(e, p), PrepareInsert(e, mem, p).mem;
    InsertedColumnsAre(m);
    BindBindsExactly(InstOf(after, p), InsertedColumns(m), StoredProps(m));
  }

  // --- update ---------------------------------------------------------------------------------------------

  /** An update of a tracked instance writes the property: it is updatable and not as the snapshot has it. */
  predicate Edited(m: EntityMap, snapshot: Inst, x: Inst, prop: Prop) {
    Updatable(m, prop) && prop != UpdatedAt && Get(snapshot, prop) != Get(x, prop)
  }

  lemma DirtyIsEdited(m: EntityMap, snapshot: Inst, x: Inst)
    ensures forall prop :: prop in Dirty(snapshot, x, WritableColumns(m)) <==> Edited(m, snapshot, x, prop)
    ensures Distinct(Dirty(snapshot, x, WritableColumns(m)))
    ensures Dirty(snapshot, x, WritableColumns(m)) == [] <==> forall prop :: !Edited(m, snapshot, x, prop)
  {
    var dirty := Dirty(snapshot, x, WritableColumns(m));
    WritableColumnsAre(m);
    DirtyOnce(snapshot, x, WritableColumns(m));
    assert dirty != [] ==> dirty[0] in dirty;
  }

  lemma {:induction false} DirtyOnce(snapshot: Inst, x: Inst, props: seq<Prop>)
    requires Distinct(props)
    ensures Distinct(Dirty(snapshot, x, props))
  {
    if props != [] {
      DirtyOnce(snapshot, x, props[1..]);
      assert props[0] !in props[1..];
    }
  }

  /** The update stamp, where the type has one, takes the clock; the rest is as it was. */
  ghost function StampValue(e: Env, mem: Mem, p: Ptr, prop: Prop): Val {
    if prop == UpdatedAt && MapFor(e, p).updatedAt && e.clock(mem.ticks).Some? then e.clock(mem.ticks).value
    else Get(InstOf(mem, p), prop)
  }

  ghost predicate NeedsClock(e: Env, mem: Mem, p: Ptr) {
    MapFor(e, p).updatedAt && e.clock(mem.ticks) == None
  }

  /** The instance is tracked and holds what its snapshot has. */
  ghost predicate TrackedClean(e: Env, mem: Mem, p: Ptr) {
    EntryOf(mem.ids, p).Some? &&
    forall prop :: !Edited(MapFor(e, p), SnapshotOf(mem.ids, EntryOf(mem.ids, p).value), InstOf(mem, p), prop)
  }

  /** The properties an update writes: of a tracked instance the edited ones and the stamp, of another all updatable. */
  ghost function UpdatedProps(e: Env, mem: Mem, p: Ptr): iset<Prop> {
    match EntryOf(mem.ids, p)
    case Some(entry) =>
      iset prop | Edited(MapFor(e, p), SnapshotOf(mem.ids, entry), InstOf(mem, p), prop) ||
                  (prop == UpdatedAt && MapFor(e, p).updatedAt)
    case None => iset prop | Updatable(MapFor(e, p), prop)
  }

  ghost function KeyedFault(e: Env, t: TypeId, rest: Option<Code>): Option<Code> {
    Fault(!MapOf(e, t).isTable, CRUD003, Fault(MapOf(e, t).arity == 0, CRUD002, rest))
  }

  ghost function UpdateFault(e: Env, mem: Mem, p: Ptr): Option<Code> {
    KeyedFault(e, TypeOf(e, p),
    Fault(Disagrees(e, mem, p, None), CRUD004,
    Fault(Barred(e, mem.ids, p, KeyOf(mem, p)), UOW002,
    Fault(!TrackedClean(e, mem, p) && NeedsClock(e, mem, p), VAL020, None))))
  }

  /** The version a write checks. */
  ghost function Checked(e: Env, mem: Mem, p: Ptr): Option<int> {
    if MapFor(e, p).versioned then Some(InstOf(mem, p).version) else None
  }

  /** A column-list statement on the instance's row, with the stamp taken. */
  ghost predicate Updates(e: Env, mem: Mem, p: Ptr, prepared: Preparation, props: iset<Prop>)
    requires prepared.issue.Issued?
  {
    var stmt := prepared.issue.write.stmt;
    && stmt.UpdateRow? && stmt.t == TypeOf(e, p) && stmt.key == KeyOf(mem, p) && stmt.version == Checked(e, mem, p)
    && BindsExactly(stmt.values, props, InstOf(prepared.mem, p))
  }

  ghost predicate StampedOnly(e: Env, mem: Mem, p: Ptr, after: Mem) {
    forall prop :: Get(InstOf(after, p), prop) == StampValue(e, mem, p, prop)
  }

  lemma ColumnsBind(e: Env, mem: Mem, p: Ptr, entry: Option<Entry>, props: seq<Prop>, all: iset<Prop>)
    requires p in mem.inst && Distinct(props)
    requires forall prop :: prop in all <==> prop in props || (prop == UpdatedAt && MapFor(e, p).updatedAt)
    ensures var prepared := PrepareColumns(e, mem, p, entry, props);
            && (if NeedsClock(e, mem, p) then prepared.issue == Refused(VAL020) else prepared.issue.Issued?)
            && (prepared.issue.Issued? ==> Updates(e, mem, p, prepared, all) && StampedOnly(e, mem, p, prepared.mem))
  {
    if !NeedsClock(e, mem, p) {
      var stamped := StampSet(e, mem, p, props);
      BindBindsExactly(InstOf(stamped.mem, p), stamped.props, all);
    }
  }

  lemma UpdateRefuses(e: Env, mem: Mem, p: Ptr)
    requires p in mem.inst
    ensures Refuses(PrepareUpdate(e, mem, p).issue, UpdateFault(e, mem, p))
    ensures UpdateFault(e, mem, p) == None ==> (PrepareUpdate(e, mem, p).issue == Nothing <==> TrackedClean(e, mem, p))
  {
    DisagreeIff(e, mem, p, None);
    if EntryOf(mem.ids, p).Some? {
      DirtyIsEdited(MapFor(e, p), SnapshotOf(mem.ids, EntryOf(mem.ids, p).value), InstOf(mem, p));
    }
  }

  /**
   An update binds, each once and with the instance's value, exactly the updatable properties: of a tracked instance
   those it holds otherwise than its snapshot, and the stamp it has just taken.
   */
  lemma UpdateBindsRow(e: Env, mem: Mem, p: Ptr)
    requires p in mem.inst && PrepareUpdate(e, mem, p).issue.Issued?
    ensures Updates(e, mem, p, PrepareUpdate(e, mem, p), UpdatedProps(e, mem, p))
    ensures StampedOnly(e, mem, p, PrepareUpdate(e, mem, p).mem)
  {
    match EntryOf(mem.ids, p)
    case Some(entry) =>
      var dirty := Dirty(SnapshotOf(mem.ids, entry), InstOf(mem, p), WritableColumns(MapFor(e, p)));
      DirtyIsEdited(MapFor(e, p), SnapshotOf(mem.ids, entry), InstOf(mem, p));
      ColumnsBind(e, mem, p, Some(entry), dirty, UpdatedProps(e, mem, p));
    case None =>
      WritableColumnsAre(MapFor(e, p));
      BindBindsExactly(InstOf(StampSet(e, mem, p, []).mem, p), WritableColumns(MapFor(e, p)), UpdatedProps(e, mem, p));
  }

  // --- update of listed columns -----------------------------------------------------------------------------

  predicate Mapped(m: EntityMap, prop: Prop) {
    match prop
    case KeyPart(i) => i < m.arity
    case Column(i) => i < m.columns
    case VersionColumn => m.versioned
    case CreatedAt => m.createdAt
    case UpdatedAt => m.updatedAt
    case SoftDelete => m.softDelete
  }

  /** What is wrong with the property at an index. */
  ghost predicate FaultyAt(m: EntityMap, props: seq<Prop>, i: nat, code: Code)
    requires i < |props|
  {
    match code
    case CRUD005 => !Mapped(m, props[i])
    case CRUD006 => Mapped(m, props[i]) && !Updatable(m, props[i])
    case CRUD007 => Updatable(m, props[i]) && props[i] in props[..i]
    case _ => false
  }

  ghost predicate FineAt(m: EntityMap, props: seq<Prop>, i: nat)
    requires i < |props|
  {
    Updatable(m, props[i]) && props[i] !in props[..i]
  }

  /** A column list is refused when empty, or for its first property that is unmapped, never written or repeated. */
  lemma {:induction false} ListRefuses(m: EntityMap, props: seq<Prop>, from: nat)
    requires from <= |props| && forall i :: 0 <= i < from ==> FineAt(m, props, i)
    ensures ListRefusal(m, props, from).None? <==> props != [] && forall i :: 0 <= i < |props| ==> FineAt(m, props, i)
    ensures ListRefusal(m, props, from).Some? && props == [] ==> ListRefusal(m, props, from).value == CRUD007
    ensures ListRefusal(m, props, from).Some? && props != [] ==>
              exists i :: 0 <= i < |props| && (forall j :: 0 <= j < i ==> FineAt(m, props, j)) &&
                          FaultyAt(m, props, i, ListRefusal(m, props, from).value)
    decreases |props| - from
  {
    if from < |props| {
      if FineAt(m, props, from) {
        ListRefuses(m, props, from + 1);
      } else {
        assert FaultyAt(m, props, from, ListRefusal(m, props, from).value);
      }
    }
  }

  ghost function ListedFault(e: Env, mem: Mem, p: Ptr, props: seq<Prop>): Option<Code> {
    var list := ListRefusal(MapFor(e, p), props, 0);
    KeyedFault(e, TypeOf(e, p),
    if list.Some? then list else
    Fault(Disagrees(e, mem, p, Some(props)), CRUD004,
    Fault(Barred(e, mem.ids, p, KeyOf(mem, p)), UOW002,
    Fault(NeedsClock(e, mem, p), VAL020, None))))
  }

  lemma FineIsDistinct(m: EntityMap, props: seq<Prop>)
    requires forall i :: 0 <= i < |props| ==> FineAt(m, props, i)
    ensures Distinct(props)
  {
    forall i, j | 0 <= i < j < |props|
      ensures props[i] != props[j]
    {
      assert FineAt(m, props, j) && props[..j][i] == props[i];
    }
  }

  /** The listed properties and the stamp. */
  ghost function ListedProps(m: EntityMap, props: seq<Prop>): iset<Prop> {
    iset prop | prop in props || (prop == UpdatedAt && m.updatedAt)
  }

  /** An update of listed columns binds exactly those, and the stamp. */
  lemma ListedUpdateBindsRow(e: Env, mem: Mem, p: Ptr, props: seq<Prop>)
    requires p in mem.inst
    ensures var prepared := PrepareUpdateOnly(e, mem, p, props);
            && Refuses(prepared.issue, ListedFault(e, mem, p, props)) && prepared.issue != Nothing
            && (prepared.issue.Issued? ==>
                  && Updates(e, mem, p, prepared, ListedProps(MapFor(e, p), props))
                  && StampedOnly(e, mem, p, prepared.mem))
  {
    DisagreeIff(e, mem, p, Some(props));
    if ListRefusal(MapFor(e, p), props, 0).None? {
      ListRefuses(MapFor(e, p), props, 0);
      FineIsDistinct(MapFor(e, p), props);
      ColumnsBind(e, mem, p, EntryOf(mem.ids, p), props, ListedProps(MapFor(e, p), props));
    }
  }

  // --- delete ---------------------------------------------------------------------------------------------

  ghost function DeleteFault(e: Env, mem: Mem, p: Ptr): Option<Code> {
    KeyedFault(e, TypeOf(e, p),
    Fault(Barred(e, mem.ids, p, KeyOf(mem, p)), UOW002,
    Fault(MapFor(e, p).softDelete && NeedsClock(e, mem, p), VAL020, None)))
  }

  /** A delete removes the row of the instance's key, its version checked; a soft one raises its flag and stamps it. */
  lemma DeleteBindsRow(e: Env, mem: Mem, p: Ptr)
    requires p in mem.inst
    ensures var prepared, m := PrepareDeleteEntity(e, mem, p), MapFor(e, p);
            && Refuses(prepared.issue, DeleteFault(e, mem, p)) && prepared.issue != Nothing
            && (prepared.issue.Issued? && !m.softDelete ==>
                  && prepared.issue.write.stmt == DeleteRow(TypeOf(e, p), KeyOf(mem, p), Checked(e, mem, p))
                  && prepared.mem == mem)
            && (prepared.issue.Issued? && m.softDelete ==>
                  && Updates(e, mem, p, prepared, ListedProps(m, [SoftDelete]))
                  && forall prop :: Get(InstOf(prepared.mem, p), prop) ==
                       if prop == SoftDelete then Flag(true) else StampValue(e, mem, p, prop))
  {
    var m, raised := MapFor(e, p), Put(mem, p, InstOf(mem, p).(flag := Flag(true)));
    if m.softDelete && !NeedsClock(e, mem, p) {
      var stamped := StampSet(e, raised, p, [SoftDelete]);
      BindBindsExactly(InstOf(stamped.mem, p), stamped.props, ListedProps(m, [SoftDelete]));
    }
  }

  ghost function KeyDeleteFault(e: Env, mem: Mem, t: TypeId, key: Key): Option<Code> {
    KeyedFault(e, t,
    Fault(MapOf(e, t).softDelete && MapOf(e, t).versioned, CRUD012,
    Fault(|key| != MapOf(e, t).arity || Null in key, CRUD002,
    Fault(MapOf(e, t).softDelete && MapOf(e, t).updatedAt && e.clock(mem.ticks) == None, VAL020, None))))
  }

  /** A delete by key checks no version; of a soft-deleting type it raises the flag and stamps the row. */
  lemma KeyDeleteBindsRow(e: Env, mem: Mem, t: TypeId, key: Key)
    ensures var prepared, m := PrepareDeleteKey(e, mem, t, key), MapOf(e, t);
            && Refuses(prepared.issue, KeyDeleteFault(e, mem, t, key)) && prepared.issue != Nothing
            && (prepared.issue.Issued? ==>
                  prepared.issue.write.stmt ==
                    if m.softDelete then
                      UpdateRow(t, key, [(SoftDelete, Flag(true))] +
                                        if m.updatedAt then [(UpdatedAt, e.clock(mem.ticks).value)] else [], None)
                    else DeleteRow(t, key, None))
  {
  }
}
