/** The tracker: per-type arrays kept sorted by key and searched by binary search, and a pointer index. */
module Tracking {
  import opened Values
  import opened Entities
  import opened IdentityMap

  ghost predicate Sorted(entries: seq<Entry>) {
    && (forall i, j :: 0 <= i < j < |entries| ==> |entries[i].key| == |entries[j].key|)
    && (forall i, j :: 0 <= i < j < |entries| ==> Compare(entries[i].key, entries[j].key) < 0)
  }

  /** One type's array lists exactly the entries the key index holds for the type. */
  ghost predicate ListsType(entries: seq<Entry>, t: TypeId, width: nat, byKey: map<(TypeId, Key), Entry>) {
    Sorted(entries) && Filed(entries, t, width, byKey) && KeyIndexListed(entries, t, byKey)
  }

  ghost predicate Filed(entries: seq<Entry>, t: TypeId, width: nat, byKey: map<(TypeId, Key), Entry>) {
    forall i :: 0 <= i < |entries| ==>
      && |entries[i].key| == width && entries[i].etype == t
      && (t, entries[i].key) in byKey && byKey[(t, entries[i].key)] == entries[i]
  }

  ghost predicate KeyIndexListed(entries: seq<Entry>, t: TypeId, byKey: map<(TypeId, Key), Entry>) {
    forall key :: (t, key) in byKey ==> byKey[(t, key)] in entries && byKey[(t, key)].key == key
  }

  /** Where a key stands in a sorted array: everything before is smaller, everything from there on is not. */
  ghost predicate InsertionPoint(entries: seq<Entry>, key: Key, i: nat) {
    && i <= |entries|
    && (forall j :: 0 <= j < |entries| ==> |entries[j].key| == |key|)
    && (forall j :: 0 <= j < i ==> Compare(entries[j].key, key) < 0)
    && (forall j :: i <= j < |entries| ==> Compare(entries[j].key, key) >= 0)
  }

  lemma FoundAtInsertionPoint(entries: seq<Entry>, key: Key, i: nat)
    requires Sorted(entries) && InsertionPoint(entries, key, i)
    ensures (exists j :: 0 <= j < |entries| && entries[j].key == key) <==> i < |entries| && entries[i].key == key
    ensures i < |entries| && entries[i].key == key ==>
              forall j :: 0 <= j < |entries| && j != i ==> entries[j].key != key
  {
    forall j | 0 <= j < |entries| && j != i
      ensures entries[j].key != key
    {
      CompareIsAntisymmetric(entries[j].key, key);
      if i < j {
        CompareIsAntisymmetric(entries[i].key, key);
        CompareIsTransitive2(entries[i].key, entries[j].key, key);
      }
    }
  }

  lemma CompareIsTransitive2(a: Key, b: Key, key: Key)
    requires |a| == |b| == |key|
    requires Compare(a, b) < 0 && Compare(a, key) >= 0
    ensures b != key
  {
  }

  lemma InsertKeepsSorted(entries: seq<Entry>, e: Entry, i: nat)
    requires Sorted(entries) && InsertionPoint(entries, e.key, i)
    requires forall j :: 0 <= j < |entries| ==> entries[j].key != e.key
    ensures Sorted(entries[..i] + [e] + entries[i..])
  {
    var grown := entries[..i] + [e] + entries[i..];
    forall a, b | 0 <= a < b < |grown|
      ensures |grown[a].key| == |grown[b].key| && Compare(grown[a].key, grown[b].key) < 0
    {
      if a == i {
        CompareIsAntisymmetric(e.key, entries[b - 1].key);
      }
    }
  }

  lemma InsertFiles(entries: seq<Entry>, e: Entry, i: nat, byKey: map<(TypeId, Key), Entry>)
    requires Filed(entries, e.etype, |e.key|, byKey) && i <= |entries| && IdOf(e) !in byKey
    ensures Filed(entries[..i] + [e] + entries[i..], e.etype, |e.key|, byKey[IdOf(e) := e])
  {
    var grown := entries[..i] + [e] + entries[i..];
    assert forall j :: 0 <= j < |grown| ==>
             grown[j] == if j < i then entries[j] else if j == i then e else entries[j - 1];
  }

  lemma InsertListed(entries: seq<Entry>, e: Entry, i: nat, byKey: map<(TypeId, Key), Entry>, key: Key)
    requires KeyIndexListed(entries, e.etype, byKey) && i <= |entries| && IdOf(e) !in byKey &&
             (e.etype, key) in byKey[IdOf(e) := e]
    ensures var larger := byKey[IdOf(e) := e];
            larger[(e.etype, key)] in entries[..i] + [e] + entries[i..] && larger[(e.etype, key)].key == key
  {
    var grown := entries[..i] + [e] + entries[i..];
    if key == e.key {
      assert grown[i] == e;
    } else {
      var j :| 0 <= j < |entries| && entries[j] == byKey[(e.etype, key)];
      assert grown[if j < i then j else j + 1] == entries[j];
    }
  }

  lemma InsertLists(entries: seq<Entry>, e: Entry, i: nat, byKey: map<(TypeId, Key), Entry>)
    requires ListsType(entries, e.etype, |e.key|, byKey) && InsertionPoint(entries, e.key, i)
    requires IdOf(e) !in byKey
    ensures ListsType(entries[..i] + [e] + entries[i..], e.etype, |e.key|, byKey[IdOf(e) := e])
  {
    InsertKeepsSorted(entries, e, i);
    InsertFiles(entries, e, i, byKey);
    var larger := byKey[IdOf(e) := e];
    forall key | (e.etype, key) in larger
      ensures larger[(e.etype, key)] in entries[..i] + [e] + entries[i..] && larger[(e.etype, key)].key == key
    {
      InsertListed(entries, e, i, byKey, key);
    }
  }

  lemma RemoveKeepsSorted(entries: seq<Entry>, i: nat)
    requires Sorted(entries) && i < |entries|
    ensures Sorted(entries[..i] + entries[i + 1..])
    ensures forall j :: 0 <= j < |entries| && j != i ==> entries[j].key != entries[i].key
  {
    forall j | 0 <= j < |entries| && j != i
      ensures entries[j].key != entries[i].key
    {
      CompareIsAntisymmetric(entries[i].key, entries[j].key);
    }
  }

  lemma RemoveLists(entries: seq<Entry>, t: TypeId, width: nat, byKey: map<(TypeId, Key), Entry>, i: nat)
    requires ListsType(entries, t, width, byKey) && i < |entries|
    ensures ListsType(entries[..i] + entries[i + 1..], t, width, byKey - {(t, entries[i].key)})
  {
    RemoveKeepsSorted(entries, i);
    RemoveFiled(entries, t, width, byKey, i);
    RemoveListed(entries, t, width, byKey, i);
  }

  lemma RemoveFiled(entries: seq<Entry>, t: TypeId, width: nat, byKey: map<(TypeId, Key), Entry>, i: nat)
    requires Filed(entries, t, width, byKey) && i < |entries|
    requires forall j :: 0 <= j < |entries| && j != i ==> entries[j].key != entries[i].key
    ensures Filed(entries[..i] + entries[i + 1..], t, width, byKey - {(t, entries[i].key)})
  {
    var rest := entries[..i] + entries[i + 1..];
    forall j | 0 <= j < |rest|
      ensures exists k :: 0 <= k < |entries| && k != i && rest[j] == entries[k]
    {
      assert rest[j] == entries[if j < i then j else j + 1];
    }
  }

  lemma RemoveListed(entries: seq<Entry>, t: TypeId, width: nat, byKey: map<(TypeId, Key), Entry>, i: nat)
    requires Filed(entries, t, width, byKey) && KeyIndexListed(entries, t, byKey) && i < |entries|
    ensures KeyIndexListed(entries[..i] + entries[i + 1..], t, byKey - {(t, entries[i].key)})
  {
    var rest := entries[..i] + entries[i + 1..];
    var smaller := byKey - {(t, entries[i].key)};
    forall key | (t, key) in smaller
      ensures smaller[(t, key)] in rest && smaller[(t, key)].key == key
    {
      assert byKey[(t, key)] in entries && byKey[(t, key)].key == key;
      var j :| 0 <= j < |entries| && entries[j] == byKey[(t, key)];
      assert rest[if j < i then j else j - 1] == entries[j];
    }
  }

  /** A change of the key index under one type leaves every other type's array right. */
  lemma OtherTypesList(tr: Tracker, t: TypeId, before: map<(TypeId, Key), Entry>, after: map<(TypeId, Key), Entry>)
    requires forall u :: u != t ==> ListsType(tr.Entries(u), u, tr.Width(u), before)
    requires forall u, key :: u != t ==> ((u, key) in before <==> (u, key) in after)
    requires forall u, key :: u != t && (u, key) in before ==> before[(u, key)] == after[(u, key)]
    ensures forall u :: u != t ==> ListsType(tr.Entries(u), u, tr.Width(u), after)
  {
    forall u | u != t
      ensures ListsType(tr.Entries(u), u, tr.Width(u), after)
    {
      assert ListsType(tr.Entries(u), u, tr.Width(u), before);
      assert Filed(tr.Entries(u), u, tr.Width(u), after);
      assert KeyIndexListed(tr.Entries(u), u, after);
    }
  }

  /** Not under its key while its pointer holds another entry: then it would be listed twice. */
  predicate Filable(ids: IdMap, e: Entry) {
    Find(ids, e.etype, e.key) == Some(e) ==> EntryOf(ids, e.ptr) == Some(e)
  }

  class Tracker {
    var types: map<TypeId, seq<Entry>>
    var byPtr: map<Ptr, Entry>
    var snapshots: map<nat, Inst>
    var nextSeq: nat
    const width: map<TypeId, nat>
    ghost var view: IdMap

    function Width(t: TypeId): nat {
      if t in width then width[t] else 0
    }

    function Entries(t: TypeId): seq<Entry>
      reads this
    {
      if t in types then types[t] else []
    }

    ghost predicate Valid()
      reads this
    {
      && byPtr == view.byPtr && snapshots == view.snaps && nextSeq == view.next
      && forall t :: ListsType(Entries(t), t, Width(t), view.byKey)
    }

    constructor (width: map<TypeId, nat>)
      ensures Valid() && view == EMPTY && this.width == width
    {
      this.width := width;
      types, byPtr, snapshots, nextSeq, view := map[], map[], map[], 0, EMPTY;
    }

    /** The insertion point of a key in its type's array, and whether an entry with that key sits there. */
    method Search(t: TypeId, key: Key) returns (i: nat, found: bool)
      requires Valid() && |key| == Width(t)
      ensures InsertionPoint(Entries(t), key, i)
      ensures found <==> (t, key) in view.byKey
      ensures found ==> i < |Entries(t)| && Entries(t)[i] == view.byKey[(t, key)]
    {
      var entries := Entries(t);
      assert ListsType(entries, t, Width(t), view.byKey);
      i := 0;
      var j := |entries|;
      while i < j
        invariant 0 <= i <= j <= |entries|
        invariant forall k :: 0 <= k < i ==> Compare(entries[k].key, key) < 0
        invariant forall k :: j <= k < |entries| ==> Compare(entries[k].key, key) >= 0
      {
        var h := (i + j) / 2;
        if Compare(entries[h].key, key) >= 0 {
          BeyondIsNotSmaller(entries, key, h);
          j := h;
        } else {
          BeforeIsSmaller(entries, key, h);
          i := h + 1;
        }
      }
      found := i < |entries| && Compare(entries[i].key, key) == 0;
      FoundAtInsertionPoint(entries, key, i);
      if i < |entries| {
        CompareIsAntisymmetric(entries[i].key, key);
      }
    }

    method FindEntry(t: TypeId, key: Key) returns (e: Option<Entry>)
      requires Valid() && |key| == Width(t)
      ensures e == Find(view, t, key)
    {
      var i, found := Search(t, key);
      if !found {
        return None;
      }
      e := Some(Entries(t)[i]);
    }

    method ForgetEntry(e: Entry)
      requires Valid() && |e.key| == Width(e.etype)
      modifies this
      ensures Valid() && view == Forget(old(view), e)
    {
      byPtr := byPtr - {e.ptr};
      view := view.(byPtr := byPtr);
      var i, found := Search(e.etype, e.key);
      var entries := Entries(e.etype);
      assert ListsType(entries, e.etype, Width(e.etype), view.byKey);
      if found && entries[i] == e {
        var rest := entries[..i] + entries[i + 1..];
        ghost var byKey := view.byKey - {IdOf(e)};
        assert ListsType(rest, e.etype, Width(e.etype), byKey) by {
          RemoveLists(entries, e.etype, Width(e.etype), view.byKey, i);
        }
        SetEntries(e.etype, rest, byKey, true);
      }
    }

    /** Replaces one type's array together with the part of the key index it lists, when it does list it. */
    method SetEntries(t: TypeId, entries: seq<Entry>, ghost byKey: map<(TypeId, Key), Entry>, ghost lists: bool)
      requires Valid() && (lists ==> ListsType(entries, t, Width(t), byKey))
      requires forall u, key :: u != t ==> ((u, key) in view.byKey <==> (u, key) in byKey)
      requires forall u, key :: u != t && (u, key) in byKey ==> view.byKey[(u, key)] == byKey[(u, key)]
      modifies this
      ensures lists ==> Valid()
      ensures view == old(view).(byKey := byKey)
      ensures byPtr == old(byPtr) && snapshots == old(snapshots) && nextSeq == old(nextSeq)
      ensures Entries(t) == entries
    {
      OtherTypesList(this, t, view.byKey, byKey);
      types := types[t := entries];
      view := view.(byKey := byKey);
    }

    /** The array lists the entry twice: the map can no longer say what it holds. */
    ghost predicate ListsTwice(e: Entry)
      reads this
    {
      exists i, j :: 0 <= i < j < |Entries(e.etype)| && Entries(e.etype)[i] == e == Entries(e.etype)[j]
    }

    /** Both indexes take the entry at its key's sorted position; under a free key they stay in step. */
    method AddEntry(e: Entry)
      requires Valid() && |e.key| == Width(e.etype) && Find(view, e.etype, e.key) in {None, Some(e)}
      modifies this
      ensures IdOf(e) !in old(view).byKey ==> Valid() && view == InsertEntry(old(view), e)
      ensures IdOf(e) in old(view).byKey ==> ListsTwice(e) && byPtr == old(byPtr)[e.ptr := e]
    {
      var i, _ := Search(e.etype, e.key);
      var entries := Entries(e.etype);
      assert ListsType(entries, e.etype, Width(e.etype), view.byKey);
      ghost var free := IdOf(e) !in view.byKey;
      if free {
        InsertLists(entries, e, i, view.byKey);
      }
      SetEntries(e.etype, entries[..i] + [e] + entries[i..], view.byKey[IdOf(e) := e], free);
      byPtr := byPtr[e.ptr := e];
      view := view.(byPtr := byPtr);
      assert !free ==> Entries(e.etype)[i] == e && Entries(e.etype)[i + 1] == entries[i] == e;
    }

    method DropPointer(p: Ptr)
      requires Valid() && Consistent(view)
      modifies this
      ensures Valid() && view == ForgetAny(old(view), EntryOf(old(view), p)) && Consistent(view)
    {
      if p in byPtr {
        var e := byPtr[p];
        assert KeyIndexListed(Entries(e.etype), e.etype, view.byKey) &&
               Filed(Entries(e.etype), e.etype, Width(e.etype), view.byKey);
        ForgetKeepsMap(view, e);
        ForgetEntry(e);
      }
    }

    /** The pointer's previous entry and a stale holder of the key are dropped first. */
    method Track(t: TypeId, p: Ptr, key: Key, snapshot: Inst)
      requires Valid() && |key| == Width(t)
      requires Consistent(view)
      modifies this
      ensures Valid() && view == Register(old(view), t, p, key, snapshot)
    {
      DropPointer(p);
      var holder := FindEntry(t, key);
      if holder.Some? {
        assert KeyIndexListed(Entries(t), t, view.byKey);
        ForgetEntry(holder.value);
      }
      AddFresh(t, p, key, snapshot);
    }

    /** Numbers a new entry, past every number handed out before, and files it. */
    method AddFresh(t: TypeId, p: Ptr, key: Key, snapshot: Inst)
      requires Valid() && |key| == Width(t) && (t, key) !in view.byKey
      modifies this
      ensures Valid() && view == Enter(old(view), t, p, key, snapshot)
    {
      nextSeq := nextSeq + 1;
      var e := Entry(p, t, key, nextSeq);
      snapshots := snapshots[nextSeq := snapshot];
      view := view.(next := nextSeq, snaps := snapshots);
      AddEntry(e);
    }

    /** An entry's snapshot is replaced in place. */
    method SetSnapshot(e: Entry, snapshot: Inst)
      requires Valid()
      modifies this
      ensures Valid() && view == IdentityMap.SetSnapshot(old(view), e, snapshot)
    {
      snapshots := snapshots[e.seqNo := snapshot];
      view := view.(snaps := snapshots);
    }

    /** Puts a forgotten entry back as it was; a holder of its key registered since is dropped. */
    method PutBack(e: Entry)
      requires Valid() && |e.key| == Width(e.etype)
      modifies this
      ensures Filable(old(view), e) ==> Valid() && view == Restore(old(view), e)
      ensures !Filable(old(view), e) ==> ListsTwice(e) && byPtr == old(byPtr)[e.ptr := e]
    {
      var holder := FindEntry(e.etype, e.key);
      if holder.Some? && holder.value != e {
        assert IdOf(holder.value) == IdOf(e);
        ForgetEntry(holder.value);
      }
      if e.ptr in byPtr && byPtr[e.ptr] == e {
        return;
      }
      AddEntry(e);
    }
  }

  lemma BeyondIsNotSmaller(entries: seq<Entry>, key: Key, h: nat)
    requires Sorted(entries) && h < |entries| && forall j :: 0 <= j < |entries| ==> |entries[j].key| == |key|
    requires Compare(entries[h].key, key) >= 0
    ensures forall j :: h <= j < |entries| ==> Compare(entries[j].key, key) >= 0
  {
    forall j | h < j < |entries|
      ensures Compare(entries[j].key, key) >= 0
    {
      CompareIsAntisymmetric(entries[h].key, key);
      CompareIsAntisymmetric(entries[j].key, key);
      if Compare(entries[j].key, key) < 0 {
        CompareIsAntisymmetric(entries[h].key, entries[j].key);
        CompareIsTransitive(entries[h].key, entries[j].key, key);
      }
    }
  }

  lemma BeforeIsSmaller(entries: seq<Entry>, key: Key, h: nat)
    requires Sorted(entries) && h < |entries| && forall j :: 0 <= j < |entries| ==> |entries[j].key| == |key|
    requires Compare(entries[h].key, key) < 0
    ensures forall j :: 0 <= j <= h ==> Compare(entries[j].key, key) < 0
  {
    forall j | 0 <= j < h
      ensures Compare(entries[j].key, key) < 0
    {
      CompareIsAntisymmetric(entries[h].key, key);
      CompareIsAntisymmetric(entries[j].key, entries[h].key);
      CompareIsTransitive(entries[j].key, entries[h].key, key);
    }
  }
}
