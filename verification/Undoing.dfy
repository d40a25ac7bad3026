/** What running the undo journal backwards does, and the invariant that makes it put everything back. */
module Undoing {
  import opened Values
  import opened Entities
  import opened IdentityMap
  import opened Writes
  import opened Calls

  // --- instances ----------------------------------------------------------------------------

  /** The values the oldest capture of an instance holds: the one a rollback ends with. */
  function FirstWrite(journal: seq<Undo>, p: Ptr): Option<Inst>
    decreases |journal|
  {
    if journal == [] then None
    else
      var older := FirstWrite(journal[..|journal| - 1], p);
      var last := journal[|journal| - 1];
      if older.Some? then older
      else if last.UndoWrite? && last.p == p then Some(last.prior) else None
  }

  function PutBackFirst(x: Inst, first: Option<Inst>): Inst {
    if first.Some? then PutBackFields(x, first.value) else x
  }

  lemma {:induction false} RollbackInstances(mem: Mem, journal: seq<Undo>, p: Ptr)
    ensures Rollback(mem, journal).inst.Keys == mem.inst.Keys
    ensures p in mem.inst ==> InstOf(Rollback(mem, journal), p) == PutBackFirst(InstOf(mem, p), FirstWrite(journal, p))
    decreases |journal|
  {
    if journal != [] {
      RollbackInstances(RunUndo(mem, journal[|journal| - 1]), journal[..|journal| - 1], p);
    }
  }

  lemma {:induction false} FirstWriteAppend(journal: seq<Undo>, more: seq<Undo>, p: Ptr)
    ensures FirstWrite(journal, p).Some? ==> FirstWrite(journal + more, p) == FirstWrite(journal, p)
    ensures (forall u :: u in more ==> u.UndoRestore?) ==> FirstWrite(journal + more, p) == FirstWrite(journal, p)
    decreases |more|
  {
    if more == [] {
      assert journal + more == journal;
    } else {
      var n := |more| - 1;
      assert (journal + more)[..|journal + more| - 1] == journal + more[..n];
      assert more[n] in more;
      FirstWriteAppend(journal, more[..n], p);
    }
  }

  // --- the identity map ---------------------------------------------------------------------

  function UndoAll(ids: IdMap, journal: seq<Undo>): IdMap
    decreases |journal|
  {
    if journal == [] then ids
    else UndoAll(UndoIds(ids, journal[|journal| - 1]), journal[..|journal| - 1])
  }

  lemma {:induction false} RollbackIds(mem: Mem, journal: seq<Undo>)
    ensures Rollback(mem, journal).ids == UndoAll(mem.ids, journal)
    decreases |journal|
  {
    if journal != [] {
      RollbackIds(RunUndo(mem, journal[|journal| - 1]), journal[..|journal| - 1]);
    }
  }

  /** The snapshots a journal captured: whatever happens to them since is put back. */
  function Captured(journal: seq<Undo>): set<nat> {
    set u | u in journal && u.UndoWrite? && u.entry.Some? :: u.entry.value.seqNo
  }

  /**
   Two identity maps differ only at the given instances and snapshots. A statement that waits may
   still change its own instance's entry, and nothing else.
   */
  ghost predicate AgreeOff(ids: IdMap, other: IdMap, waiting: set<Ptr>, snaps: set<nat>) {
    && Consistent(ids) && Consistent(other)
    && (forall p :: p !in waiting ==> EntryOf(ids, p) == EntryOf(other, p))
    && (forall s :: s in ids.snaps && s !in snaps ==> s in other.snaps && other.snaps[s] == ids.snaps[s])
  }

  /** Every entry under its pointer and its key, with its snapshot; the registration counter is not put back. */
  ghost predicate SameEntries(ids: IdMap, start: IdMap) {
    && ids.byPtr == start.byPtr && ids.byKey == start.byKey
    && (forall s :: s in start.snaps ==> s in ids.snaps && ids.snaps[s] == start.snaps[s])
  }

  /**
   The journal's invariant: from any map that differs from the present one at waiting instances and
   captured snapshots only, running the closures gives the map the call started with.
   */
  ghost predicate Undoes(journal: seq<Undo>, ids: IdMap, waiting: set<Ptr>, start: IdMap) {
    forall other :: AgreeOff(ids, other, waiting, Captured(journal)) ==> SameEntries(UndoAll(other, journal), start)
  }

  lemma AgreeEverywhere(ids: IdMap, other: IdMap)
    requires AgreeOff(ids, other, {}, {})
    ensures SameEntries(other, ids)
  {
    assert forall p :: EntryOf(ids, p) == EntryOf(other, p);
    assert ids.byPtr == other.byPtr by {
      assert forall p :: p in ids.byPtr <==> EntryOf(ids, p).Some?;
      assert forall p :: p in other.byPtr <==> EntryOf(other, p).Some?;
    }
    assert ids.byKey == other.byKey;
  }

  lemma UndoesAtStart(ids: IdMap)
    requires Consistent(ids)
    ensures Undoes([], ids, {}, ids)
  {
    forall other | AgreeOff(ids, other, {}, Captured([]))
      ensures SameEntries(UndoAll(other, []), ids)
    {
      assert Captured([]) == {};
      AgreeEverywhere(ids, other);
    }
  }

  lemma UndoesApplies(journal: seq<Undo>, ids: IdMap, waiting: set<Ptr>, start: IdMap)
    requires Undoes(journal, ids, waiting, start) && Consistent(ids)
    ensures SameEntries(UndoAll(ids, journal), start)
  {
    assert AgreeOff(ids, ids, waiting, Captured(journal));
  }

  // --- recording a write ----------------------------------------------------------------------

  /** Dropping a newer entry of the pointer. */
  lemma ForgetNewerAgrees(ids: IdMap, other: IdMap, waiting: set<Ptr>, snaps: set<nat>, p: Ptr)
    requires AgreeOff(ids, other, waiting + {p}, snaps)
    ensures AgreeOff(ids, ForgetNewer(other, p, EntryOf(ids, p)), waiting + {p}, snaps)
    ensures EntryOf(ForgetNewer(other, p, EntryOf(ids, p)), p) in {None, EntryOf(ids, p)}
  {
    var current := EntryOf(other, p);
    if current.Some? && current != EntryOf(ids, p) {
      ForgetKeepsMap(other, current.value);
    }
  }

  /** Putting back an entry of the present map over a map that differs at waiting instances only. */
  lemma RestoreAgrees(ids: IdMap, other: IdMap, waiting: set<Ptr>, snaps: set<nat>, entry: Entry)
    requires AgreeOff(ids, other, waiting + {entry.ptr}, snaps)
    requires EntryOf(ids, entry.ptr) == Some(entry)
    requires EntryOf(other, entry.ptr) in {None, Some(entry)}
    ensures AgreeOff(ids, Restore(other, entry), waiting, snaps)
  {
    RestoreKeepsMap(other, entry);
    var holder := Find(other, entry.etype, entry.key);
    if holder.Some? && holder.value != entry {
      assert EntryOf(other, holder.value.ptr) == holder;
      assert holder.value.ptr in waiting;
    }
  }

  lemma CaptureUndoes(ids: IdMap, other: IdMap, waiting: set<Ptr>, snaps: set<nat>, u: Undo)
    requires u.UndoWrite? && u.entry == EntryOf(ids, u.p) && Numbered(ids)
    requires u.entry.Some? ==> u.snapshot == SnapshotOf(ids, u.entry.value)
    requires u.holder.Some? ==> u.holder == u.entry ||
                                (EntryOf(ids, u.holder.value.ptr) == u.holder && u.holder.value.ptr !in waiting + {u.p})
    requires AgreeOff(ids, other, waiting + {u.p}, snaps + (if u.entry.Some? then {u.entry.value.seqNo} else {}))
    ensures AgreeOff(ids, UndoIds(other, u), waiting, snaps)
  {
    var wide := snaps + (if u.entry.Some? then {u.entry.value.seqNo} else {});
    ForgetNewerAgrees(ids, other, waiting, wide, u.p);
    var cleared := ForgetNewer(other, u.p, u.entry);
    if u.entry.Some? {
      var put := SetSnapshot(cleared, u.entry.value, u.snapshot);
      assert AgreeOff(ids, put, waiting + {u.p}, snaps);
      RestoreAgrees(ids, put, waiting, snaps, u.entry.value);
      HolderStays(ids, Restore(put, u.entry.value), waiting, snaps, u);
    } else {
      assert AgreeOff(ids, cleared, waiting, snaps);
      HolderStays(ids, cleared, waiting, snaps, u);
    }
  }

  lemma HolderStays(ids: IdMap, own: IdMap, waiting: set<Ptr>, snaps: set<nat>, u: Undo)
    requires u.UndoWrite? && AgreeOff(ids, own, waiting, snaps)
    requires u.holder.Some? ==> u.holder == u.entry ||
                                (EntryOf(ids, u.holder.value.ptr) == u.holder && u.holder.value.ptr !in waiting + {u.p})
    ensures (if u.holder.Some? && u.holder != u.entry then Restore(own, u.holder.value) else own) == own
  {
    if u.holder.Some? && u.holder != u.entry {
      var h := u.holder.value;
      assert EntryOf(own, h.ptr) == Some(h);
      assert own.byPtr[h.ptr] == h && own.byKey[IdOf(h)] == h;
    }
  }

  /** A capture appended to the journal covers the instance it captured while its statement waits. */
  lemma RecordKeepsUndoes(journal: seq<Undo>, ids: IdMap, waiting: set<Ptr>, start: IdMap, u: Undo)
    requires Undoes(journal, ids, waiting, start)
    requires u.UndoWrite? && u.entry == EntryOf(ids, u.p) && Numbered(ids)
    requires u.entry.Some? ==> u.snapshot == SnapshotOf(ids, u.entry.value)
    requires u.holder.Some? ==> u.holder == u.entry ||
                                (EntryOf(ids, u.holder.value.ptr) == u.holder && u.holder.value.ptr !in waiting + {u.p})
    ensures Undoes(journal + [u], ids, waiting + {u.p}, start)
  {
    var grown := journal + [u];
    assert grown[..|grown| - 1] == journal && grown[|grown| - 1] == u;
    assert Captured(grown) == Captured(journal) + (if u.entry.Some? then {u.entry.value.seqNo} else {}) by {
      assert forall v :: v in grown <==> v in journal || v == u;
    }
    forall other | AgreeOff(ids, other, waiting + {u.p}, Captured(grown))
      ensures SameEntries(UndoAll(other, grown), start)
    {
      CaptureUndoes(ids, other, waiting, Captured(journal), u);
    }
  }

  // --- completing a waiting write ---------------------------------------------------------------

  /** What a completion does to the map: its own instance's entry, and perhaps one dropped entry of another. */
  lemma CompleteKeepsUndoes(
    journal: seq<Undo>, ids: IdMap, waiting: set<Ptr>, start: IdMap, after: IdMap, rest: set<Ptr>, undos: seq<Undo>,
    own: set<Ptr>)
    requires Undoes(journal, ids, waiting, start) && Consistent(ids) && Consistent(after)
    requires rest <= waiting && own <= waiting
    requires forall s :: s in ids.snaps && s !in Captured(journal) ==>
               s in after.snaps && after.snaps[s] == ids.snaps[s]
    requires undos == [] || (|undos| == 1 && undos[0].UndoRestore? && DropsCleanly(ids, after, rest, undos[0].dropped))
    requires forall p :: p !in own && (undos != [] ==> p != undos[0].dropped.ptr) ==>
               EntryOf(after, p) == EntryOf(ids, p)
    ensures Undoes(journal + undos, after, rest, start)
  {
    if undos == [] {
      assert journal + undos == journal;
      forall other | AgreeOff(after, other, rest, Captured(journal))
        ensures SameEntries(UndoAll(other, journal), start)
      {
        assert AgreeOff(ids, other, waiting, Captured(journal));
      }
    } else {
      var d := undos[0].dropped;
      var grown := journal + undos;
      assert grown[..|grown| - 1] == journal && grown[|grown| - 1] == undos[0];
      assert Captured(grown) == Captured(journal) by {
        assert forall v :: v in grown <==> v in journal || v == undos[0];
      }
      forall other | AgreeOff(after, other, rest, Captured(grown))
        ensures SameEntries(UndoAll(other, grown), start)
      {
        RestoreDropped(ids, after, other, waiting, rest, Captured(journal), d, own);
      }
    }
  }

  /** The dropped entry was in the map, its pointer holds none now, and no other waiting statement writes it. */
  ghost predicate DropsCleanly(ids: IdMap, after: IdMap, rest: set<Ptr>, d: Entry) {
    && EntryOf(ids, d.ptr) == Some(d)
    && EntryOf(after, d.ptr) == None
    && d.ptr !in rest
  }

  lemma RestoreDropped(
    ids: IdMap, after: IdMap, other: IdMap, waiting: set<Ptr>, rest: set<Ptr>, snaps: set<nat>, d: Entry, own: set<Ptr>)
    requires Consistent(ids) && AgreeOff(after, other, rest, snaps) && DropsCleanly(ids, after, rest, d)
    requires rest <= waiting && own <= waiting
    requires forall s :: s in ids.snaps && s !in snaps ==> s in after.snaps && after.snaps[s] == ids.snaps[s]
    requires forall p :: p !in own && p != d.ptr ==> EntryOf(after, p) == EntryOf(ids, p)
    ensures AgreeOff(ids, Restore(other, d), waiting, snaps)
  {
    assert EntryOf(other, d.ptr) == None;
    RestoreKeepsMap(other, d);
    var now := Restore(other, d);
    var holder := Find(other, d.etype, d.key);
    forall p | p !in waiting
      ensures EntryOf(ids, p) == EntryOf(now, p)
    {
      if p != d.ptr {
        assert EntryOf(other, p) == EntryOf(ids, p);
      }
    }
  }
}
