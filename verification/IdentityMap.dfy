/**
 The identity map as two indexes over one set of entries: by instance and by (type, key).
 An entry is identified by its registration number, which is never reused; its snapshot is
 the mutable part, held apart in `snaps`.
 */
module IdentityMap {
  import opened Values
  import opened Entities

  datatype Entry = Entry(ptr: Ptr, etype: TypeId, key: Key, seqNo: nat)

  datatype IdMap = IdMap(
    byPtr: map<Ptr, Entry>,
    byKey: map<(TypeId, Key), Entry>,
    snaps: map<nat, Inst>,
    next: nat)

  const EMPTY := IdMap(map[], map[], map[], 0)

  function IdOf(e: Entry): (TypeId, Key) { (e.etype, e.key) }

  function EntryOf(ids: IdMap, p: Ptr): Option<Entry> {
    if p in ids.byPtr then Some(ids.byPtr[p]) else None
  }

  function Find(ids: IdMap, t: TypeId, key: Key): Option<Entry> {
    if (t, key) in ids.byKey then Some(ids.byKey[(t, key)]) else None
  }

  function Forget(ids: IdMap, e: Entry): IdMap {
    ids.(byPtr := ids.byPtr - {e.ptr},
         byKey := if IdOf(e) in ids.byKey && ids.byKey[IdOf(e)] == e then ids.byKey - {IdOf(e)} else ids.byKey)
  }

  function ForgetAny(ids: IdMap, e: Option<Entry>): IdMap {
    if e.Some? then Forget(ids, e.value) else ids
  }

  function InsertEntry(ids: IdMap, e: Entry): IdMap {
    ids.(byPtr := ids.byPtr[e.ptr := e], byKey := ids.byKey[IdOf(e) := e])
  }

  function Register(ids: IdMap, t: TypeId, p: Ptr, key: Key, snapshot: Inst): IdMap {
    var cleared := ForgetAny(ids, EntryOf(ids, p));
    Enter(ForgetAny(cleared, Find(cleared, t, key)), t, p, key, snapshot)
  }

  /** Numbers a new entry and files it in both indexes. */
  function Enter(ids: IdMap, t: TypeId, p: Ptr, key: Key, snapshot: Inst): IdMap {
    var entry := Entry(p, t, key, ids.next + 1);
    InsertEntry(ids.(next := entry.seqNo, snaps := ids.snaps[entry.seqNo := snapshot]), entry)
  }

  function Restore(ids: IdMap, e: Entry): IdMap {
    var holder := Find(ids, e.etype, e.key);
    var free := if holder.Some? && holder.value != e then Forget(ids, holder.value) else ids;
    if EntryOf(free, e.ptr) == Some(e) then free else InsertEntry(free, e)
  }

  function SetSnapshot(ids: IdMap, e: Entry, snapshot: Inst): IdMap {
    ids.(snaps := ids.snaps[e.seqNo := snapshot])
  }

  /** Both indexes hold the same entries, each under its own pointer and its own (type, key). */
  ghost predicate Consistent(ids: IdMap) {
    && (forall p :: p in ids.byPtr ==>
          ids.byPtr[p].ptr == p && IdOf(ids.byPtr[p]) in ids.byKey && ids.byKey[IdOf(ids.byPtr[p])] == ids.byPtr[p])
    && (forall k :: k in ids.byKey ==>
          IdOf(ids.byKey[k]) == k && ids.byKey[k].ptr in ids.byPtr && ids.byPtr[ids.byKey[k].ptr] == ids.byKey[k])
  }

  /** No entry or snapshot is numbered past the counter; every entry has a number and a snapshot of its own. */
  ghost predicate Numbered(ids: IdMap) {
    && (forall p :: p in ids.byPtr ==> ids.byPtr[p].seqNo in ids.snaps)
    && (forall p, q :: p in ids.byPtr && q in ids.byPtr && ids.byPtr[p].seqNo == ids.byPtr[q].seqNo ==> p == q)
    && (forall s :: s in ids.snaps ==> s <= ids.next)
  }

  /** A pointer has one identity and a key one instance, whatever was registered before. */
  lemma RegisterKeepsMap(ids: IdMap, t: TypeId, p: Ptr, key: Key, snapshot: Inst)
    requires Consistent(ids)
    ensures Consistent(Register(ids, t, p, key, snapshot))
    ensures var e := Entry(p, t, key, ids.next + 1);
            EntryOf(Register(ids, t, p, key, snapshot), p) == Some(e) ==
              Find(Register(ids, t, p, key, snapshot), t, key)
    ensures forall q :: q != p && EntryOf(ids, q).Some? && IdOf(EntryOf(ids, q).value) != (t, key) ==>
              EntryOf(Register(ids, t, p, key, snapshot), q) == EntryOf(ids, q)
    ensures forall q :: q != p && EntryOf(Register(ids, t, p, key, snapshot), q).Some? ==>
              EntryOf(Register(ids, t, p, key, snapshot), q) == EntryOf(ids, q)
  {
  }

  lemma ForgetKeepsMap(ids: IdMap, e: Entry)
    requires Consistent(ids)
    ensures Consistent(Forget(ids, e)) <==> EntryOf(ids, e.ptr) in {None, Some(e)}
    ensures EntryOf(Forget(ids, e), e.ptr) == None
    ensures forall q :: q != e.ptr ==> EntryOf(Forget(ids, e), q) == EntryOf(ids, q)
  {
    if p: Ptr :| p in ids.byPtr && p == e.ptr && ids.byPtr[p] != e {
      var other := ids.byPtr[p];
      assert IdOf(other) in Forget(ids, e).byKey;
      assert Forget(ids, e).byKey[IdOf(other)] == other && other.ptr !in Forget(ids, e).byPtr;
    }
  }

  lemma InsertKeepsMap(ids: IdMap, e: Entry)
    requires Consistent(ids)
    requires e.ptr !in ids.byPtr && IdOf(e) !in ids.byKey
    ensures Consistent(InsertEntry(ids, e))
  {
  }

  lemma RestoreKeepsMap(ids: IdMap, e: Entry)
    requires Consistent(ids)
    requires RestoreIsClean(ids, e)
    ensures Consistent(Restore(ids, e))
  {
    var holder := Find(ids, e.etype, e.key);
    if holder.Some? && holder.value != e {
      ForgetKeepsMap(ids, holder.value);
    }
    var free := if holder.Some? && holder.value != e then Forget(ids, holder.value) else ids;
    if EntryOf(free, e.ptr) != Some(e) {
      InsertKeepsMap(free, e);
    }
  }

  /** The pointer is free, holds the entry already, or holds a newer entry under the same key. */
  predicate RestoreIsClean(ids: IdMap, e: Entry) {
    e.ptr in ids.byPtr ==> IdOf(ids.byPtr[e.ptr]) == IdOf(e)
  }

  /**
   Putting an entry back keeps the two indexes in step exactly when its pointer holds no entry under
   another key: such an entry would stay behind in the key index.
   */
  lemma RestoreKeepsMapIff(ids: IdMap, e: Entry)
    requires Consistent(ids)
    ensures Consistent(Restore(ids, e)) <==> RestoreIsClean(ids, e)
  {
    if RestoreIsClean(ids, e) {
      RestoreKeepsMap(ids, e);
    } else {
      var newer := ids.byPtr[e.ptr];
      assert newer.ptr == e.ptr && IdOf(newer) != IdOf(e);
      assert Restore(ids, e).byKey[IdOf(newer)] == newer;
      assert Restore(ids, e).byPtr[newer.ptr] == e;
    }
  }
}
