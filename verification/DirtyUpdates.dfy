/** An update of the dirty columns against the update of the whole row. */
module DirtyUpdates {
  import opened Values
  import opened Entities
  import opened IdentityMap
  import opened Writes

  /** A stored row is held like an instance's values. */
  function WrittenTo(row: Inst, values: seq<(Prop, Val)>): Inst
    decreases |values|
  {
    if values == [] then row else WrittenTo(Set(row, values[0].0, values[0].1), values[1..])
  }

  /** What an update leaves of a row it finds: none when the version it checks is not the row's. */
  function Updated(m: EntityMap, row: Inst, s: Statement): Option<Inst>
    requires s.UpdateRow?
  {
    if s.version.Some? && s.version.value != row.version then None
    else
      var written := WrittenTo(row, s.values);
      Some(if m.versioned then written.(version := row.version + 1) else written)
  }

  predicate SameShape(a: Inst, b: Inst) {
    |a.key| == |b.key| && |a.cols| == |b.cols|
  }

  /** The stored row and the snapshot hold the same in every property an update may write, and in the version. */
  ghost predicate Agrees(m: EntityMap, row: Inst, snapshot: Inst) {
    && SameShape(row, snapshot)
    && (forall p :: Updatable(m, p) ==> Get(row, p) == Get(snapshot, p))
    && (m.versioned ==> row.version == snapshot.version)
  }

  lemma SetThenGet(x: Inst, from: Inst, p: Prop, q: Prop)
    requires SameShape(x, from)
    ensures SameShape(Set(x, p, Get(from, p)), from)
    ensures Get(Set(x, p, Get(from, p)), q) == if p == q then Get(from, q) else Get(x, q)
  {
  }

  lemma {:induction false} CopiedGet(to: Inst, from: Inst, props: seq<Prop>, q: Prop)
    requires SameShape(to, from)
    ensures SameShape(Copied(to, from, props), from)
    ensures Get(Copied(to, from, props), q) == if q in props then Get(from, q) else Get(to, q)
    decreases |props|
  {
    if props != [] {
      SetThenGet(to, from, props[0], q);
      CopiedGet(Set(to, props[0], Get(from, props[0])), from, props[1..], q);
      assert props == [props[0]] + props[1..];
    }
  }

  lemma {:induction false} WritingIsCopying(row: Inst, from: Inst, props: seq<Prop>)
    ensures WrittenTo(row, Bind(from, props)) == Copied(row, from, props)
    decreases |props|
  {
    if props != [] {
      var values := Bind(from, props);
      assert values[0] == (props[0], Get(from, props[0])) && values[1..] == Bind(from, props[1..]);
      WritingIsCopying(Set(row, props[0], Get(from, props[0])), from, props[1..]);
    }
  }

  /** The columns a tracked update writes: the dirty ones and the stamp. */
  function Columns(m: EntityMap, dirty: seq<Prop>): seq<Prop> {
    if m.updatedAt && UpdatedAt !in dirty then dirty + [UpdatedAt] else dirty
  }

  /** The instance after the stamp: as it was, but for the stamped column. */
  predicate StampedFrom(m: EntityMap, was: Inst, x: Inst) {
    x == was.(updated := x.updated) && (!m.updatedAt ==> x == was)
  }

  /** A written column holds the instance's value, and one left out holds it already. */
  lemma ColumnHolds(m: EntityMap, to: Inst, snapshot: Inst, was: Inst, x: Inst, q: Prop)
    requires SameShape(to, x) && StampedFrom(m, was, x) && Updatable(m, q) && Get(to, q) == Get(snapshot, q)
    ensures Get(Copied(to, x, Columns(m, Dirty(snapshot, was, WritableColumns(m)))), q) == Get(x, q)
  {
    CopiedGet(to, x, Columns(m, Dirty(snapshot, was, WritableColumns(m))), q);
    WritableColumnsAre(m);
  }

  /** The tracked and the full update write a row that is as the snapshot has it alike. */
  lemma SameColumns(m: EntityMap, row: Inst, snapshot: Inst, was: Inst, x: Inst, q: Prop)
    requires Agrees(m, row, snapshot) && SameShape(row, x) && StampedFrom(m, was, x)
    ensures Get(Copied(row, x, Columns(m, Dirty(snapshot, was, WritableColumns(m)))), q) ==
              Get(Copied(row, x, WritableColumns(m)), q)
  {
    CopiedGet(row, x, WritableColumns(m), q);
    WritableColumnsAre(m);
    if Updatable(m, q) {
      ColumnHolds(m, row, snapshot, was, x, q);
    } else {
      CopiedGet(row, x, Columns(m, Dirty(snapshot, was, WritableColumns(m))), q);
    }
  }

  /** The instance as the update stamps it. */
  function Stamped(e: Env, mem: Mem, p: Ptr): Inst {
    InstOf(PrepareFullUpdate(e, mem, p).mem, p)
  }

  /** Both preparations stamp alike, and say what they write. */
  lemma BothPrepare(e: Env, mem: Mem, p: Ptr, entry: Entry)
    requires p in mem.inst && PrepareTrackedUpdate(e, mem, p, entry).issue.Issued?
    ensures var tracked, full := PrepareTrackedUpdate(e, mem, p, entry), PrepareFullUpdate(e, mem, p);
            var m, x := MapFor(e, p), Stamped(e, mem, p);
            var written := Columns(m, Dirty(SnapshotOf(mem.ids, entry), InstOf(mem, p), WritableColumns(m)));
            && full.issue.Issued? && tracked.mem == full.mem
            && tracked.issue.write.stmt ==
                 UpdateRow(TypeOf(e, p), KeyOf(full.mem, p), Bind(x, written), VersionCheck(m, x))
            && full.issue.write.stmt ==
                 UpdateRow(TypeOf(e, p), KeyOf(full.mem, p), Bind(x, WritableColumns(m)), VersionCheck(m, x))
            && tracked.issue.write.finish == FinishColumns(p, Some(entry), written + VersionOf(m))
            && StampedFrom(m, InstOf(mem, p), x) &&
               tracked.mem == mem.(inst := tracked.mem.inst, ticks := tracked.mem.ticks) && p in tracked.mem.inst
  {
  }

  /** What an update of some columns leaves, in terms of the copy. */
  lemma UpdatedIsCopied(m: EntityMap, row: Inst, x: Inst, t: TypeId, key: Key, props: seq<Prop>)
    requires SameShape(row, x)
    ensures var left := Updated(m, row, UpdateRow(t, key, Bind(x, props), VersionCheck(m, x)));
            && (left.Some? <==> (m.versioned ==> x.version == row.version))
            && (left.Some? ==> SameShape(left.value, x) &&
                               left.value.version ==
                                 (if m.versioned then row.version + 1 else Copied(row, x, props).version))
            && (left.Some? ==> forall q :: q != VersionColumn ==> Get(left.value, q) == Get(Copied(row, x, props), q))
  {
    WritingIsCopying(row, x, props);
    CopiedGet(row, x, props, VersionColumn);
  }

  ghost predicate SameResult(a: Option<Inst>, b: Option<Inst>) {
    (a.Some? <==> b.Some?) && (a.Some? ==> forall q :: Get(a.value, q) == Get(b.value, q))
  }

  lemma ResultsAgree(m: EntityMap, row: Inst, snapshot: Inst, was: Inst, x: Inst, t: TypeId, key: Key)
    requires Agrees(m, row, snapshot) && SameShape(row, x) && StampedFrom(m, was, x)
    ensures var written := Columns(m, Dirty(snapshot, was, WritableColumns(m)));
            SameResult(Updated(m, row, UpdateRow(t, key, Bind(x, written), VersionCheck(m, x))),
                       Updated(m, row, UpdateRow(t, key, Bind(x, WritableColumns(m)), VersionCheck(m, x))))
  {
    var written := Columns(m, Dirty(snapshot, was, WritableColumns(m)));
    UpdatedIsCopied(m, row, x, t, key, written);
    UpdatedIsCopied(m, row, x, t, key, WritableColumns(m));
    SameColumns(m, row, snapshot, was, x, VersionColumn);
    var a := Updated(m, row, UpdateRow(t, key, Bind(x, written), VersionCheck(m, x)));
    var b := Updated(m, row, UpdateRow(t, key, Bind(x, WritableColumns(m)), VersionCheck(m, x)));
    forall q | a.Some?
      ensures Get(a.value, q) == Get(b.value, q)
    {
      SameColumns(m, row, snapshot, was, x, q);
    }
  }

  /**
   A dirty instance's update leaves a stored row that is as its snapshot has it exactly as the
   whole-row update would: every property the same, the version bumped alike, refused alike.
   */
  lemma DirtyUpdateRefines(e: Env, mem: Mem, p: Ptr, entry: Entry, row: Inst)
    requires p in mem.inst && SameShape(row, InstOf(mem, p)) && Agrees(MapFor(e, p), row, SnapshotOf(mem.ids, entry))
    requires PrepareTrackedUpdate(e, mem, p, entry).issue.Issued?
    ensures var tracked, full := PrepareTrackedUpdate(e, mem, p, entry), PrepareFullUpdate(e, mem, p);
            && full.issue.Issued? && tracked.mem == full.mem
            && tracked.issue.write.stmt.UpdateRow? && full.issue.write.stmt.UpdateRow?
            && tracked.issue.write.stmt.key == full.issue.write.stmt.key
            && SameResult(Updated(MapFor(e, p), row, tracked.issue.write.stmt),
                          Updated(MapFor(e, p), row, full.issue.write.stmt))
  {
    BothPrepare(e, mem, p, entry);
    var x := Stamped(e, mem, p);
    ResultsAgree(MapFor(e, p), row, SnapshotOf(mem.ids, entry), InstOf(mem, p), x, TypeOf(e, p),
                 KeyOf(PrepareFullUpdate(e, mem, p).mem, p));
  }

  /** The row holds the instance's values wherever an update may write, its key, and the next version. */
  ghost predicate Holds(m: EntityMap, left: Inst, row: Inst, x: Inst) {
    && (forall q :: Updatable(m, q) ==> Get(left, q) == Get(x, q))
    && (forall q :: !Updatable(m, q) && q != VersionColumn ==> Get(left, q) == Get(row, q))
    && left.version == (if m.versioned then x.version + 1 else row.version)
  }

  lemma FullUpdateHolds(m: EntityMap, row: Inst, x: Inst, t: TypeId, key: Key)
    requires SameShape(row, x)
    ensures var left := Updated(m, row, UpdateRow(t, key, Bind(x, WritableColumns(m)), VersionCheck(m, x)));
            && (left.Some? <==> !m.versioned || x.version == row.version)
            && (left.Some? ==> Holds(m, left.value, row, x))
  {
    UpdatedIsCopied(m, row, x, t, key, WritableColumns(m));
    WritableColumnsAre(m);
    forall q
      ensures Get(Copied(row, x, WritableColumns(m)), q) == if Updatable(m, q) then Get(x, q) else Get(row, q)
    {
      CopiedGet(row, x, WritableColumns(m), q);
    }
    assert Get(Copied(row, x, WritableColumns(m)), VersionColumn) == Get(row, VersionColumn);
  }

  /**
   Either update stores the instance: unless the row's version is another one, the row holds it in every property
   the type maps that is no key part, no version and no generated value; the rest stays, and the version moves on.
   */
  lemma UpdateStores(e: Env, mem: Mem, p: Ptr, row: Inst)
    requires p in mem.inst && SameShape(row, InstOf(mem, p)) && PrepareUpdate(e, mem, p).issue.Issued?
    requires EntryOf(mem.ids, p).Some? ==> Agrees(MapFor(e, p), row, SnapshotOf(mem.ids, EntryOf(mem.ids, p).value))
    ensures var prepared, m := PrepareUpdate(e, mem, p), MapFor(e, p);
            && prepared.issue.write.stmt.UpdateRow?
            && var left := Updated(m, row, prepared.issue.write.stmt);
               && (left.Some? <==> !m.versioned || InstOf(mem, p).version == row.version)
               && (left.Some? ==> Holds(m, left.value, row, InstOf(prepared.mem, p)))
  {
    var m, x := MapFor(e, p), Stamped(e, mem, p);
    FullUpdateHolds(m, row, x, TypeOf(e, p), KeyOf(PrepareFullUpdate(e, mem, p).mem, p));
    if EntryOf(mem.ids, p).Some? {
      DirtyUpdateRefines(e, mem, p, EntryOf(mem.ids, p).value, row);
      BothPrepare(e, mem, p, EntryOf(mem.ids, p).value);
      var a := Updated(m, row, PrepareUpdate(e, mem, p).issue.write.stmt);
      assert a.Some? ==> Get(a.value, VersionColumn) == Num(a.value.version);
    }
  }

  // --- after the update ---------------------------------------------------------------------------------

  function Bumped(m: EntityMap, x: Inst): Inst {
    if m.versioned then x.(version := x.version + 1) else x
  }

  /** The snapshot as the update's completion leaves it. */
  function Resnapped(m: EntityMap, snapshot: Inst, was: Inst, x: Inst): Inst {
    Copied(snapshot, Bumped(m, x), Columns(m, Dirty(snapshot, was, WritableColumns(m))) + VersionOf(m))
  }

  lemma ResnappedHolds(m: EntityMap, snapshot: Inst, was: Inst, x: Inst, q: Prop)
    requires SameShape(snapshot, x) && StampedFrom(m, was, x)
    ensures SameShape(Resnapped(m, snapshot, was, x), x)
    ensures Updatable(m, q) || (q == VersionColumn && m.versioned) ==>
              Get(Resnapped(m, snapshot, was, x), q) == Get(Bumped(m, x), q)
  {
    CopiedGet(snapshot, Bumped(m, x), Columns(m, Dirty(snapshot, was, WritableColumns(m))) + VersionOf(m), q);
    WritableColumnsAre(m);
  }

  lemma NothingDirty(m: EntityMap, snapshot: Inst, was: Inst, x: Inst)
    requires SameShape(snapshot, x) && StampedFrom(m, was, x)
    ensures Dirty(Resnapped(m, snapshot, was, x), Bumped(m, x), WritableColumns(m)) == []
  {
    var dirty := Dirty(Resnapped(m, snapshot, was, x), Bumped(m, x), WritableColumns(m));
    WritableColumnsAre(m);
    forall q
      ensures q !in dirty
    {
      ResnappedHolds(m, snapshot, was, x, q);
    }
    HasFirst(dirty);
  }

  lemma HasFirst(props: seq<Prop>)
    ensures props != [] ==> props[0] in props
  {
  }

  lemma RowAgrees(m: EntityMap, row: Inst, snapshot: Inst, was: Inst, x: Inst, t: TypeId, key: Key)
    requires Agrees(m, row, snapshot) && SameShape(row, x) && StampedFrom(m, was, x)
    requires m.versioned ==> x.version == row.version
    ensures var left := Updated(m, row,
                                UpdateRow(t, key, Bind(x, Columns(m, Dirty(snapshot, was, WritableColumns(m)))),
                                          VersionCheck(m, x)));
            left.Some? && Agrees(m, left.value, Resnapped(m, snapshot, was, x))
  {
    var written := Columns(m, Dirty(snapshot, was, WritableColumns(m)));
    UpdatedIsCopied(m, row, x, t, key, written);
    ResnappedHolds(m, snapshot, was, x, VersionColumn);
    forall q | Updatable(m, q)
      ensures Get(Copied(row, x, written), q) == Get(Resnapped(m, snapshot, was, x), q)
    {
      ColumnHolds(m, row, snapshot, was, x, q);
      ResnappedHolds(m, snapshot, was, x, q);
    }
  }

  /** What the completion of a tracked update does to the instance and its snapshot. */
  lemma TrackedCompletes(e: Env, mem: Mem, p: Ptr, entry: Entry, reply: Reply)
    requires p in mem.inst && PrepareTrackedUpdate(e, mem, p, entry).issue.Issued? && reply.Reply? &&
             reply.affected != 0
    ensures var tracked := PrepareTrackedUpdate(e, mem, p, entry);
            var done := Complete(e, tracked.mem, tracked.issue.write, reply);
            && done.ok
            && InstOf(done.mem, p) == Bumped(MapFor(e, p), Stamped(e, mem, p))
            && SnapshotOf(done.mem.ids, entry) ==
                 Resnapped(MapFor(e, p), SnapshotOf(mem.ids, entry), InstOf(mem, p), Stamped(e, mem, p))
  {
    BothPrepare(e, mem, p, entry);
  }

  /**
   Once the update completes, the snapshot is the stored row again, and the instance is clean: another update
   issues nothing.
   */
  lemma UpdateSettles(e: Env, mem: Mem, p: Ptr, entry: Entry, row: Inst, reply: Reply)
    requires p in mem.inst && SameShape(row, InstOf(mem, p)) && Agrees(MapFor(e, p), row, SnapshotOf(mem.ids, entry))
    requires PrepareTrackedUpdate(e, mem, p, entry).issue.Issued? &&
             PrepareTrackedUpdate(e, mem, p, entry).issue.write.stmt.UpdateRow?
    requires reply.Reply? && reply.affected != 0
    requires Updated(MapFor(e, p), row, PrepareTrackedUpdate(e, mem, p, entry).issue.write.stmt).Some?
    ensures var tracked := PrepareTrackedUpdate(e, mem, p, entry);
            var done := Complete(e, tracked.mem, tracked.issue.write, reply);
            && done.ok
            && Agrees(MapFor(e, p), Updated(MapFor(e, p), row, tracked.issue.write.stmt).value,
                      SnapshotOf(done.mem.ids, entry))
            && PrepareTrackedUpdate(e, done.mem, p, entry).issue == Nothing
  {
    var m, x, was, snapshot := MapFor(e, p), Stamped(e, mem, p), InstOf(mem, p), SnapshotOf(mem.ids, entry);
    BothPrepare(e, mem, p, entry);
    TrackedCompletes(e, mem, p, entry, reply);
    UpdatedIsCopied(m, row, x, TypeOf(e, p), KeyOf(PrepareFullUpdate(e, mem, p).mem, p),
                    Columns(m, Dirty(snapshot, was, WritableColumns(m))));
    RowAgrees(m, row, snapshot, was, x, TypeOf(e, p), KeyOf(PrepareFullUpdate(e, mem, p).mem, p));
    NothingDirty(m, snapshot, was, x);
  }
}
