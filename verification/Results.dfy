/** What a statement's result does to the session: when it passes its check, and what it then leaves. */
module Results {
  import opened Values
  import opened Entities
  import opened IdentityMap
  import opened Writes
  import opened Calls

  /** Tracked under its key, with a number of its own and a snapshot of the instance as it is. */
  ghost predicate TrackedNow(e: Env, before: Mem, after: Mem, p: Ptr) {
    var x := Entry(p, TypeOf(e, p), KeyOf(after, p), before.ids.next + 1);
    && EntryOf(after.ids, p) == Some(x) && Find(after.ids, TypeOf(e, p), KeyOf(after, p)) == Some(x)
    && SnapshotOf(after.ids, x) == InstOf(after, p)
  }

  predicate HasTrackedKey(e: Env, mem: Mem, p: Ptr) {
    e.tracked && MapFor(e, p).arity != 0 && Null !in KeyOf(mem, p)
  }

  lemma TracksNow(e: Env, mem: Mem, p: Ptr)
    requires Consistent(mem.ids)
    ensures var after := TrackJournaled(e, mem, p).mem;
            && after.inst == mem.inst
            && (HasTrackedKey(e, mem, p) ==> TrackedNow(e, mem, after, p))
            && (!HasTrackedKey(e, mem, p) ==> after.ids == mem.ids)
  {
    RegisterKeepsMap(mem.ids, TypeOf(e, p), p, KeyOf(mem, p), InstOf(mem, p));
  }

  /**
   An insert passes unless it broke or its generated key is missing. The key is then the database's, and the
   instance is tracked under it as it stands.
   */
  lemma InsertCompletes(e: Env, mem: Mem, w: Write, reply: Reply)
    requires w.finish.FinishInsert? && w.finish.p in mem.inst && Consistent(mem.ids)
    ensures var done, p, generated := Complete(e, mem, w, reply), w.finish.p, w.finish.generated;
            && (done.ok <==> reply.Reply? && (generated ==> reply.key.Some?))
            && (done.ok ==> forall prop :: Get(InstOf(done.mem, p), prop) ==
                              if generated && prop == KeyPart(0) && KeyOf(mem, p) != [] then reply.key.value
                              else Get(InstOf(mem, p), prop))
            && (done.ok && HasTrackedKey(e, done.mem, p) ==> TrackedNow(e, mem, done.mem, p))
            && (done.ok && !HasTrackedKey(e, done.mem, p) ==> done.mem.ids == mem.ids)
  {
    var p := w.finish.p;
    if Complete(e, mem, w, reply).ok {
      var put := if w.finish.generated then Put(mem, p, Set(InstOf(mem, p), KeyPart(0), reply.key.value)) else mem;
      TracksNow(e, put, p);
    }
  }

  /** The statement counted a row. */
  predicate Counted(reply: Reply) {
    reply.Reply? && reply.affected != 0
  }

  /** The version, where there is one, moves on by one; nothing else changes. */
  ghost predicate MovesOn(e: Env, mem: Mem, after: Mem, p: Ptr) {
    && (forall prop :: prop != VersionColumn ==> Get(InstOf(after, p), prop) == Get(InstOf(mem, p), prop))
    && InstOf(after, p).version == InstOf(mem, p).version + if MapFor(e, p).versioned then 1 else 0
  }

  /** An update passes when it counted a row; a whole-row one leaves its instance tracked as it stands. */
  lemma UpdateCompletes(e: Env, mem: Mem, w: Write, reply: Reply)
    requires w.finish.FinishFullUpdate? || w.finish.FinishColumns?
    requires w.finish.p in mem.inst && Consistent(mem.ids)
    ensures var done, p := Complete(e, mem, w, reply), w.finish.p;
            && (done.ok <==> Counted(reply)) && (done.ok ==> MovesOn(e, mem, done.mem, p))
            && (done.ok && w.finish.FinishFullUpdate? && HasTrackedKey(e, mem, p) ==> TrackedNow(e, mem, done.mem, p))
            && (done.ok && w.finish.FinishColumns? ==>
                  forall q :: EntryOf(done.mem.ids, q) == EntryOf(mem.ids, q))
  {
    TracksNow(e, Bump(e, mem, w.finish.p), w.finish.p);
  }

  /** A delete passes when it counted a row; its entry is dropped, and a soft one's version moves on. */
  lemma DeleteCompletes(e: Env, mem: Mem, w: Write, reply: Reply)
    requires w.finish.FinishDelete? && w.finish.p in mem.inst && Consistent(mem.ids)
    ensures var done, p := Complete(e, mem, w, reply), w.finish.p;
            && (done.ok <==> Counted(reply))
            && (done.ok ==> if w.finish.soft then MovesOn(e, mem, done.mem, p) else done.mem.inst == mem.inst)
            && (done.ok && w.finish.entry.Some? ==> EntryOf(done.mem.ids, w.finish.entry.value.ptr) == None)
  {
    if w.finish.entry.Some? {
      ForgetKeepsMap(mem.ids, w.finish.entry.value);
    }
  }

  /** A delete by key drops whatever entry holds the key; no instance changes. */
  lemma KeyDeleteCompletes(e: Env, mem: Mem, w: Write, reply: Reply)
    requires w.finish.FinishDeleteKey? && Consistent(mem.ids)
    ensures var done := Complete(e, mem, w, reply);
            && (done.ok <==> Counted(reply)) && done.mem.inst == mem.inst
            && (done.ok ==> Find(done.mem.ids, w.finish.t, w.finish.key) == None)
            && forall q: Ptr ::
                 EntryOf(mem.ids, q).Some? && IdOf(EntryOf(mem.ids, q).value) != (w.finish.t, w.finish.key) ==>
                   EntryOf(done.mem.ids, q) == EntryOf(mem.ids, q)
  {
    var holder := Find(mem.ids, w.finish.t, w.finish.key);
    if holder.Some? {
      ForgetKeepsMap(mem.ids, holder.value);
    }
  }

  // --- what the rules read of a statement -------------------------------------------------------------------

  /** The values a statement binds: what it sets, the key it names, the version it checks. */
  function Bound(s: Statement): seq<Val> {
    match s
    case InsertRow(_, values) => Second(values)
    case UpdateRow(_, key, values, version) => Second(values) + key + Checked(version)
    case DeleteRow(_, key, version) => key + Checked(version)
    case Command(_, args) => seq(args, _ => Null)
  }

  function Second(values: seq<(Prop, Val)>): seq<Val> {
    seq(|values|, i requires 0 <= i < |values| => values[i].1)
  }

  function Checked(version: Option<int>): seq<Val> {
    if version.Some? then [Num(version.value)] else []
  }

  /** The parameter count of rule 2 is that of the bound values. */
  lemma ArgsAreBound(s: Statement)
    ensures ArgCount(s) == |Bound(s)|
  {
  }

  /** The key an operation is about: its own, complete, and not the unset one of a key that is generated. */
  ghost predicate About(e: Env, mem: Mem, op: Op, t: TypeId, key: Key) {
    && !op.Execute? && key != [] && Null !in key
    && (MapOf(e, t).strategy == Natural || forall i :: 0 <= i < |key| ==> !IsZero(key[i]))
    && (if op.DeleteKey? then t == op.t && key == op.key && |key| == MapOf(e, t).arity
        else t == TypeOf(e, op.p) && key == KeyOf(mem, op.p))
  }

  lemma KeyNowIs(e: Env, mem: Mem, op: Op, t: TypeId, key: Key)
    ensures KeyNow(e, mem, op) == Some((t, key)) <==> About(e, mem, op, t, key)
  {
  }

  /** A statement's result is read for a generated key, and for a row count where those are read as results. */
  lemma ResultIsRead(e: Env, mem: Mem, op: Op)
    requires Prepare(e, mem, op).issue.Issued?
    ensures ReadsResult(Prepare(e, mem, op).issue.write) <==>
              if op.FlushInsert? || op.Insert? then MapFor(e, op.p).strategy == DatabaseGenerated
              else !op.Execute? && e.countsBySelect
  {
  }
}
