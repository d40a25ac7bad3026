/** Join mode: one row per combination of a root with its targets, folded into a graph. */
module JoinFold {
  import opened Values
  import opened Entities
  import opened Relations

  /** A row of the joined result: the root segment, and a segment per include, none when it is all null. */
  datatype JoinedRow = JoinedRow(root: Row, segs: seq<Option<Row>>)

  // --- what the join returns ---------------------------------------------------------------------------

  /** A left join's segment for an owner: a target; or none, for want of one or for a link whose target is gone. */
  ghost predicate SegmentOf(inc: Include, owner: Row, seg: Option<Row>) {
    match seg
    case Some(t) => Target(inc, owner, t)
    case None =>
      if inc.Direct? then forall t :: !Target(inc, owner, t)
      else
        || (forall l :: l in inc.links ==> !SameTuple(owner.key, inc.linkOwner(l)))
        || (exists l :: l in inc.links && SameTuple(owner.key, inc.linkOwner(l))
             && forall t :: t in inc.targets ==> !SameTuple(inc.linkTarget(l), t.key))
  }

  ghost predicate Combines(includes: seq<Include>, row: JoinedRow) {
    |row.segs| == |includes| && forall i :: 0 <= i < |includes| ==> SegmentOf(includes[i], row.root, row.segs[i])
  }

  /** The rows are the combinations of each root with a segment per include, in any order. */
  ghost predicate LeftJoin(includes: seq<Include>, roots: seq<Row>, rows: seq<JoinedRow>) {
    forall row :: row in rows <==> row.root in roots && Combines(includes, row)
  }

  lemma SomeSegment(inc: Include, owner: Row) returns (seg: Option<Row>)
    ensures SegmentOf(inc, owner, seg)
  {
    if t :| Target(inc, owner, t) {
      seg := Some(t);
    } else {
      seg := None;
      if inc.Linked? {
        if l :| l in inc.links && SameTuple(owner.key, inc.linkOwner(l)) {
          forall t | t in inc.targets
            ensures !SameTuple(inc.linkTarget(l), t.key)
          {
            assert !Target(inc, owner, t);
          }
        }
      }
    }
  }

  lemma {:induction false} SomeCombination(includes: seq<Include>, owner: Row) returns (segs: seq<Option<Row>>)
    ensures Combines(includes, JoinedRow(owner, segs))
  {
    if includes == [] {
      segs := [];
    } else {
      var front := includes[..|includes| - 1];
      segs := SomeCombination(front, owner);
      var last := SomeSegment(includes[|includes| - 1], owner);
      forall i | 0 <= i < |front|
        ensures SegmentOf(includes[i], owner, (segs + [last])[i])
      {
        assert SegmentOf(front[i], JoinedRow(owner, segs).root, JoinedRow(owner, segs).segs[i]);
      }
      segs := segs + [last];
    }
  }

  /** Every segment of a root is in some row. */
  lemma SegmentAppears(includes: seq<Include>, roots: seq<Row>, rows: seq<JoinedRow>, owner: Row, i: nat,
      seg: Option<Row>)
    requires LeftJoin(includes, roots, rows) && owner in roots && i < |includes| && SegmentOf(includes[i], owner, seg)
    ensures exists row :: row in rows && row.root == owner && i < |row.segs| && row.segs[i] == seg
  {
    var segs := SomeCombination(includes, owner);
    var row := JoinedRow(owner, segs[i := seg]);
    forall j | 0 <= j < |includes|
      ensures SegmentOf(includes[j], owner, row.segs[j])
    {
      if j != i {
        assert SegmentOf(includes[j], JoinedRow(owner, segs).root, JoinedRow(owner, segs).segs[j]);
      }
    }
    assert row in rows;
  }

  // --- one navigation's share of the fold -------------------------------------------------------------

  /** What a navigation gathers: its target instances by key, and per root key a list or a single target. */
  datatype Gathered = Gathered(instances: map<Key, Instance>, lists: map<Key, seq<Instance>>, singles: map<Key,
                               Instance>, next: nat)

  datatype Taken = Clash | Taken(state: Gathered)

  /** The instance for a target row: the one its key already has, or a new one. */
  function Resolve(s: Gathered, t: Row): (Gathered, Instance) {
    if t.key in s.instances then (s, s.instances[t.key])
    else
      var x := Instance(s.next, t);
      (s.(instances := s.instances[t.key := x], next := s.next + 1), x)
  }

  function ListOf(s: Gathered, root: Key): seq<Instance> {
    if root in s.lists then s.lists[root] else []
  }

  predicate HasEntry(xs: seq<Instance>, key: Key) {
    exists x :: x in xs && x.row.key == key
  }

  function Take(collection: bool, s: Gathered, root: Key, seg: Option<Row>): Taken {
    if seg.None? then Taken(s)
    else
      var (resolved, x) := Resolve(s, seg.value);
      if collection then
        if HasEntry(ListOf(s, root), seg.value.key) then Taken(resolved)
        else Taken(resolved.(lists := s.lists[root := ListOf(s, root) + [x]]))
      else if root in s.singles then
        if s.singles[root].row.key != seg.value.key then Clash else Taken(resolved)
      else Taken(resolved.(singles := s.singles[root := x]))
  }

  /** What a navigation has seen: root keys with segments. */
  type Seen = seq<(Key, Option<Row>)>

  /** Rows of one key are one row. */
  ghost predicate OneRowPerKey(seen: Seen) {
    forall a, b :: a in seen && b in seen && a.1.Some? && b.1.Some? && a.1.value.key == b.1.value.key ==> a.1 == b.1
  }

  /** The instances: one per key, with identities of their own. */
  ghost predicate Indexed(s: Gathered) {
    && (forall k :: k in s.instances ==> s.instances[k].row.key == k && s.instances[k].id < s.next)
    && (forall k, l :: k in s.instances && l in s.instances && s.instances[k].id == s.instances[l].id ==> k == l)
  }

  ghost predicate Known(s: Gathered, x: Instance) {
    x.row.key in s.instances && s.instances[x.row.key] == x
  }

  ghost predicate IndexedRows(s: Gathered, seen: Seen) {
    forall k :: k in s.instances ==> FromRow(seen, s.instances[k].row)
  }

  /** A root's list holds exactly the targets seen with it, each once. */
  ghost predicate ListsSeen(s: Gathered, seen: Seen, root: Key) {
    && (forall x :: x in ListOf(s, root) ==> Known(s, x) && (root, Some(x.row)) in seen)
    && (forall t: Row :: (root, Some(t)) in seen ==> HasEntry(ListOf(s, root), t.key))
    && (forall i, j :: 0 <= i < j < |ListOf(s, root)| ==> ListOf(s, root)[i].row.key != ListOf(s, root)[j].row.key)
  }

  /** A root's single target is the only one seen with it. */
  ghost predicate Single(s: Gathered, seen: Seen, root: Key) {
    && (root in s.singles ==> Known(s, s.singles[root]) && (root, Some(s.singles[root].row)) in seen)
    && (forall t: Row :: (root, Some(t)) in seen ==> root in s.singles && s.singles[root].row == t)
  }

  ghost predicate Gathers(collection: bool, s: Gathered, seen: Seen) {
    && Indexed(s) && IndexedRows(s, seen)
    && (forall root: Key :: if collection then ListsSeen(s, seen, root) else Single(s, seen, root))
  }

  ghost predicate FromRow(seen: Seen, t: Row) {
    exists a :: a in seen && a.1 == Some(t)
  }

  lemma ResolveIndexes(s: Gathered, t: Row)
    requires Indexed(s)
    ensures var (r, x) := Resolve(s, t);
            Indexed(r) && Known(r, x) && x.row.key == t.key && forall y :: Known(s, y) ==> Known(r, y)
  {
  }

  lemma ResolveRows(s: Gathered, seen: Seen, root: Key, t: Row)
    requires Indexed(s) && IndexedRows(s, seen) && OneRowPerKey(seen + [(root, Some(t))])
    ensures IndexedRows(Resolve(s, t).0, seen + [(root, Some(t))]) && Resolve(s, t).1.row == t
  {
    var after := seen + [(root, Some(t))];
    assert (root, Some(t)) in after;
    var r := Resolve(s, t).0;
    forall k | k in r.instances
      ensures FromRow(after, r.instances[k].row)
    {
      if k in s.instances {
        var a :| a in seen && a.1 == Some(s.instances[k].row);
        assert a in after;
      } else {
        assert (root, Some(t)).1 == Some(r.instances[k].row);
      }
    }
    if t.key in s.instances {
      var a :| a in seen && a.1 == Some(s.instances[t.key].row);
      assert a in after;
    }
  }

  lemma ResolveKeeps(s: Gathered, seen: Seen, root: Key, t: Row)
    requires Indexed(s) && IndexedRows(s, seen) && OneRowPerKey(seen + [(root, Some(t))])
    ensures var (r, x) := Resolve(s, t);
            && Indexed(r) && IndexedRows(r, seen + [(root, Some(t))]) && Known(r, x) && x.row == t
            && (forall y :: Known(s, y) ==> Known(r, y))
  {
    ResolveIndexes(s, t);
    ResolveRows(s, seen, root, t);
  }

  /** What taking a target does to the lists. */
  lemma TakenLists(s: Gathered, root: Key, t: Row, other: Key)
    ensures var next := Take(true, s, root, Some(t)).state;
            && next.instances == Resolve(s, t).0.instances
            && ListOf(next, other) == if other == root &&
               !HasEntry(ListOf(s, root), t.key) then ListOf(s, root) + [Resolve(s, t).1] else ListOf(s, other)
  {
  }

  lemma ListCovers(s: Gathered, seen: Seen, root: Key, t: Row, other: Key, u: Row)
    requires ListsSeen(s, seen, other) && (other, Some(u)) in seen + [(root, Some(t))] &&
             Resolve(s, t).1.row.key == t.key
    ensures HasEntry(ListOf(Take(true, s, root, Some(t)).state, other), u.key)
  {
    var next := Take(true, s, root, Some(t)).state;
    TakenLists(s, root, t, other);
    if (other, Some(u)) in seen {
      var y :| y in ListOf(s, other) && y.row.key == u.key;
      assert y in ListOf(next, other);
    } else if !HasEntry(ListOf(s, root), t.key) {
      assert Resolve(s, t).1 in ListOf(next, root);
    }
  }

  lemma ListKeeps(s: Gathered, seen: Seen, root: Key, t: Row, other: Key)
    requires Indexed(s) && IndexedRows(s, seen) && OneRowPerKey(seen + [(root, Some(t))]) && ListsSeen(s, seen, other)
    ensures ListsSeen(Take(true, s, root, Some(t)).state, seen + [(root, Some(t))], other)
  {
    var after := seen + [(root, Some(t))];
    ResolveKeeps(s, seen, root, t);
    TakenLists(s, root, t, other);
    assert (root, Some(t)) in after;
    var next := Take(true, s, root, Some(t)).state;
    forall y | y in ListOf(next, other)
      ensures Known(next, y) && (other, Some(y.row)) in after
    {
      if y in ListOf(s, other) {
        assert Known(s, y) && (other, Some(y.row)) in seen;
      }
    }
    forall u: Row | (other, Some(u)) in after
      ensures HasEntry(ListOf(next, other), u.key)
    {
      ListCovers(s, seen, root, t, other, u);
    }
  }

  lemma SingleKeeps(s: Gathered, seen: Seen, root: Key, t: Row, other: Key)
    requires Indexed(s) && IndexedRows(s, seen) && OneRowPerKey(seen + [(root, Some(t))]) && Single(s, seen, other)
    requires Take(false, s, root, Some(t)).Taken? && (root in s.singles ==> (root, Some(s.singles[root].row)) in seen)
    ensures Single(Take(false, s, root, Some(t)).state, seen + [(root, Some(t))], other)
  {
    var after := seen + [(root, Some(t))];
    var (r, x) := Resolve(s, t);
    ResolveKeeps(s, seen, root, t);
    assert (root, Some(t)) in after;
    var next := Take(false, s, root, Some(t)).state;
    if other == root && root in s.singles {
      assert (root, Some(s.singles[root].row)) in after;
      assert s.singles[root].row == t;
    }
  }

  /** A clash is two targets seen with one root. */
  lemma ClashIsAmbiguous(s: Gathered, seen: Seen, root: Key, t: Row)
    requires Gathers(false, s, seen) && Take(false, s, root, Some(t)).Clash?
    ensures exists u: Row :: (root, Some(u)) in seen && u != t
  {
    assert Single(s, seen, root);
    assert (root, Some(s.singles[root].row)) in seen;
  }

  lemma NothingKeeps(collection: bool, s: Gathered, seen: Seen, root: Key)
    requires Gathers(collection, s, seen)
    ensures Gathers(collection, s, seen + [(root, None)])
  {
    var after := seen + [(root, None)];
    forall k | k in s.instances
      ensures FromRow(after, s.instances[k].row)
    {
      var a :| a in seen && a.1 == Some(s.instances[k].row);
      assert a in after;
    }
    forall other: Key
      ensures if collection then ListsSeen(s, after, other) else Single(s, after, other)
    {
      assert if collection then ListsSeen(s, seen, other) else Single(s, seen, other);
      assert forall t: Row :: (other, Some(t)) in after <==> (other, Some(t)) in seen;
    }
  }

  /** Taking one row's segment keeps what is gathered right. */
  lemma TakeKeeps(collection: bool, s: Gathered, seen: Seen, root: Key, seg: Option<Row>)
    requires Gathers(collection, s, seen) && OneRowPerKey(seen + [(root, seg)]) && Take(collection, s, root, seg).Taken?
    ensures Gathers(collection, Take(collection, s, root, seg).state, seen + [(root, seg)])
  {
    if seg.None? {
      NothingKeeps(collection, s, seen, root);
    } else {
      ResolveKeeps(s, seen, root, seg.value);
      forall other: Key
        ensures if collection then ListsSeen(Take(collection, s, root, seg).state, seen + [(root, seg)], other)
                else Single(Take(collection, s, root, seg).state, seen + [(root, seg)], other)
      {
        if collection {
          assert ListsSeen(s, seen, other);
          ListKeeps(s, seen, root, seg.value, other);
        } else {
          assert Single(s, seen, other) && Single(s, seen, root);
          SingleKeeps(s, seen, root, seg.value, other);
        }
      }
    }
  }

  // --- the fold over all rows ------------------------------------------------------------------------------

  ghost predicate Wide(rows: seq<JoinedRow>, width: nat) {
    forall row :: row in rows ==> |row.segs| == width
  }

  /** What one navigation has seen of the rows. */
  ghost function SeenBy(rows: seq<JoinedRow>, width: nat, i: nat): Seen
    requires Wide(rows, width) && i < width
  {
    seq(|rows|, k requires 0 <= k < |rows| => assert rows[k] in rows; (rows[k].root.key, rows[k].segs[i]))
  }

  lemma SeenGrows(rows: seq<JoinedRow>, row: JoinedRow, width: nat, i: nat)
    requires Wide(rows + [row], width) && i < width
    ensures row in rows + [row] && Wide(rows, width)
    ensures SeenBy(rows + [row], width, i) == SeenBy(rows, width, i) + [(row.root.key, row.segs[i])]
  {
    assert row in rows + [row];
    assert forall r :: r in rows ==> r in rows + [row];
  }

  /** The roots in the order their rows first appear. */
  function FirstSeen(rows: seq<JoinedRow>): (roots: seq<Row>)
    ensures forall r :: r in roots <==> exists row :: row in rows && row.root == r
  {
    if rows == [] then []
    else
      var last := rows[|rows| - 1];
      assert rows == rows[..|rows| - 1] + [last];
      var front := FirstSeen(rows[..|rows| - 1]);
      if last.root in front then front else front + [last.root]
  }

  ghost predicate OneRootPerKey(rows: seq<JoinedRow>) {
    forall a, b :: a in rows && b in rows && a.root.key == b.root.key ==> a.root == b.root
  }

  /** Two rows of one root with different targets of a to-one navigation. */
  ghost predicate Clashes(rows: seq<JoinedRow>, i: nat) {
    exists a, b :: a in rows && b in rows && a.root.key == b.root.key && i < |a.segs| && i < |b.segs|
      && a.segs[i].Some? && b.segs[i].Some? && a.segs[i] != b.segs[i]
  }

  /** What a navigation gathered is right for the rows. */
  ghost predicate NavFolded(collections: seq<bool>, nav: Gathered, rows: seq<JoinedRow>, i: nat) {
    i < |collections| && Wide(rows, |collections|) && Gathers(collections[i], nav, SeenBy(rows, |collections|, i))
  }

  /** Midway through a row: the first navigations have taken it. */
  ghost predicate MidRow(collections: seq<bool>, navs: seq<Gathered>, rows: seq<JoinedRow>, row: JoinedRow, i: nat) {
    && |navs| == |collections|
    && (forall j :: 0 <= j < |navs| ==> NavFolded(collections, navs[j], if j < i then rows + [row] else rows, j))
  }

  lemma SegmentTaken(collections: seq<bool>, nav: Gathered, rows: seq<JoinedRow>, row: JoinedRow, i: nat)
    requires NavFolded(collections, nav, rows, i) && Consistent(rows + [row], |collections|)
    ensures row in rows + [row]
    ensures var taken := Take(collections[i], nav, row.root.key, row.segs[i]);
            match taken
            case Taken(state) => NavFolded(collections, state, rows + [row], i)
            case Clash => !collections[i] && Clashes(rows + [row], i)
  {
    assert row in rows + [row];
    var seen := SeenBy(rows, |collections|, i);
    SeenGrows(rows, row, |collections|, i);
    assert OneRowPerKey(SeenBy(rows + [row], |collections|, i));
    match Take(collections[i], nav, row.root.key, row.segs[i])
    case Taken(state) =>
      TakeKeeps(collections[i], nav, seen, row.root.key, row.segs[i]);
    case Clash =>
      ClashIsAmbiguous(nav, seen, row.root.key, row.segs[i].value);
      var u: Row :| (row.root.key, Some(u)) in seen && u != row.segs[i].value;
      ClashAppears(rows, row, |collections|, i, u);
  }

  class JoinReader {
    const collections: seq<bool>
    var roots: seq<Row>
    var owners: map<Key, Row>
    var navs: seq<Gathered>

    constructor (collections: seq<bool>)
      ensures this.collections == collections && Folded([])
    {
      this.collections := collections;
      roots, owners := [], map[];
      navs := seq(|collections|, _ => Gathered(map[], map[], map[], 0));
    }

    ghost predicate RootsFolded(rows: seq<JoinedRow>)
      reads `roots, `owners
    {
      && roots == FirstSeen(rows)
      && (forall k :: k in owners ==> owners[k] in roots && owners[k].key == k)
      && (forall r :: r in roots ==> r.key in owners)
    }

    /** The fields are the fold of the rows so far. */
    ghost predicate Folded(rows: seq<JoinedRow>)
      reads this
    {
      && RootsFolded(rows) && |navs| == |collections|
      && forall j :: 0 <= j < |navs| ==> NavFolded(collections, navs[j], rows, j)
    }

    /** A root whose key is new is kept; any other row of that key is that root's. */
    method TakeRoot(row: JoinedRow, ghost rows: seq<JoinedRow>)
      requires RootsFolded(rows) && OneRootPerKey(rows + [row])
      modifies `roots, `owners
      ensures RootsFolded(rows + [row])
    {
      assert (rows + [row])[..|rows|] == rows && row in rows + [row];
      assert forall r :: r in rows ==> r in rows + [row];
      if row.root.key !in owners {
        owners := owners[row.root.key := row.root];
        roots := roots + [row.root];
      }
    }

    method TakeSegment(i: nat, row: JoinedRow, ghost rows: seq<JoinedRow>) returns (clash: bool)
      requires i < |collections| && MidRow(collections, navs, rows, row, i) && Consistent(rows + [row], |collections|)
      requires |row.segs| == |collections|
      modifies `navs
      ensures clash ==> !collections[i] && Clashes(rows + [row], i)
      ensures !clash ==> MidRow(collections, navs, rows, row, i + 1)
    {
      SegmentTaken(collections, navs[i], rows, row, i);
      match Take(collections[i], navs[i], row.root.key, row.segs[i])
      case Taken(state) =>
        navs := navs[i := state];
        clash := false;
      case Clash =>
        clash := true;
    }

    /** One row of the result: its root, then each navigation's segment. */
    method TakeRow(row: JoinedRow, ghost rows: seq<JoinedRow>) returns (clash: bool)
      requires Folded(rows) && Consistent(rows + [row], |collections|)
      modifies this
      ensures clash ==> exists i :: 0 <= i < |collections| && !collections[i] && Clashes(rows + [row], i)
      ensures !clash ==> Folded(rows + [row])
    {
      assert row in rows + [row];
      TakeRoot(row, rows);
      for i := 0 to |collections|
        invariant RootsFolded(rows + [row]) && MidRow(collections, navs, rows, row, i)
      {
        clash := TakeSegment(i, row, rows);
        if clash {
          return;
        }
      }
      clash := false;
    }

    /** Reads the whole result. */
    method Read(rows: seq<JoinedRow>) returns (clash: bool)
      requires Folded([]) && Consistent(rows, |collections|)
      modifies this
      ensures clash ==> exists i :: 0 <= i < |collections| && !collections[i] && Clashes(rows, i)
      ensures !clash ==> Folded(rows)
    {
      for k := 0 to |rows|
        invariant Folded(rows[..k])
      {
        assert rows[..k + 1] == rows[..k] + [rows[k]];
        PrefixIsConsistent(rows, |collections|, k + 1);
        clash := TakeRow(rows[k], rows[..k]);
        if clash {
          ghost var i :| 0 <= i < |collections| && !collections[i] && Clashes(rows[..k + 1], i);
          ClashStays(rows, k + 1, i);
          return;
        }
      }
      assert rows[..|rows|] == rows;
      clash := false;
    }
  }

  /** Rows of one key agree, the roots' and each navigation's. */
  ghost predicate Consistent(rows: seq<JoinedRow>, width: nat) {
    Wide(rows, width) && OneRootPerKey(rows) && forall i :: 0 <= i < width ==> OneRowPerKey(SeenBy(rows, width, i))
  }

  lemma PrefixIsConsistent(rows: seq<JoinedRow>, width: nat, k: nat)
    requires Consistent(rows, width) && k <= |rows|
    ensures Consistent(rows[..k], width)
  {
    forall i | 0 <= i < width
      ensures OneRowPerKey(SeenBy(rows[..k], width, i))
    {
      forall a | a in SeenBy(rows[..k], width, i)
        ensures a in SeenBy(rows, width, i)
      {
        var n :| 0 <= n < k && SeenBy(rows[..k], width, i)[n] == a;
        assert SeenBy(rows, width, i)[n] == a;
      }
      assert OneRowPerKey(SeenBy(rows, width, i));
    }
  }

  lemma ClashStays(rows: seq<JoinedRow>, k: nat, i: nat)
    requires k <= |rows| && Clashes(rows[..k], i)
    ensures Clashes(rows, i)
  {
    var a, b :| a in rows[..k] && b in rows[..k] && a.root.key == b.root.key && i < |a.segs| && i < |b.segs|
      && a.segs[i].Some? && b.segs[i].Some? && a.segs[i] != b.segs[i];
    assert a in rows && b in rows;
  }

  lemma ClashAppears(rows: seq<JoinedRow>, row: JoinedRow, width: nat, i: nat, u: Row)
    requires Wide(rows + [row], width) && Wide(rows, width) && i < width && i < |row.segs| && row.segs[i].Some?
    requires (row.root.key, Some(u)) in SeenBy(rows, width, i) && u != row.segs[i].value
    ensures Clashes(rows + [row], i)
  {
    var k :| 0 <= k < |rows| && SeenBy(rows, width, i)[k] == (row.root.key, Some(u));
    assert rows[k] in rows + [row] && row in rows + [row];
  }

  // --- the graph handed back ---------------------------------------------------------------------------------

  function FinishNav(collection: bool, s: Gathered, root: Key): Nav {
    if collection then Many(SortByKey(ListOf(s, root)))
    else One(if root in s.singles then Some(s.singles[root]) else None)
  }

  method Finish(reader: JoinReader) returns (loaded: seq<Loaded>)
    requires |reader.navs| == |reader.collections|
    ensures |loaded| == |reader.roots|
    ensures forall k :: 0 <= k < |loaded| ==> loaded[k].root == reader.roots[k] && |loaded[k].navs| == |reader.navs|
    ensures forall k, i :: 0 <= k < |loaded| && 0 <= i < |reader.navs| ==>
              loaded[k].navs[i] == FinishNav(reader.collections[i], reader.navs[i], reader.roots[k].key)
  {
    loaded := [];
    for k := 0 to |reader.roots|
      invariant |loaded| == k
      invariant forall l :: 0 <= l < k ==> loaded[l].root == reader.roots[l] && |loaded[l].navs| == |reader.navs|
      invariant forall l, i :: 0 <= l < k && 0 <= i < |reader.navs| ==>
                  loaded[l].navs[i] == FinishNav(reader.collections[i], reader.navs[i], reader.roots[l].key)
    {
      var navs: seq<Nav> := [];
      for i := 0 to |reader.navs|
        invariant |navs| == i
        invariant forall j :: 0 <= j < i ==>
                    navs[j] == FinishNav(reader.collections[j], reader.navs[j], reader.roots[k].key)
      {
        navs := navs + [FinishNav(reader.collections[i], reader.navs[i], reader.roots[k].key)];
      }
      loaded := loaded + [Loaded(reader.roots[k], navs)];
    }
  }

  // --- the fold meets the definition ---------------------------------------------------------------------------

  /**
   What the stored rows and the query give join mode: keyed targets and roots, and the combinations, the roots'
   order kept.
   */
  ghost predicate Joined(includes: seq<Include>, arities: seq<nat>, roots: seq<Row>, rows: seq<JoinedRow>,
      rootArity: nat) {
    && |arities| == |includes| && (forall i :: 0 <= i < |includes| ==> Stored(includes[i], arities[i]))
    && Keyed(roots, rootArity) && LeftJoin(includes, roots, rows) && FirstSeen(rows) == roots
  }

  lemma KeyedIsOne(rows: seq<Row>, arity: nat, a: Row, b: Row)
    requires Keyed(rows, arity) && a in rows && b in rows && a.key == b.key
    ensures a == b
  {
    var i :| 0 <= i < |rows| && rows[i] == a;
    var j :| 0 <= j < |rows| && rows[j] == b;
  }

  lemma JoinedIsWide(includes: seq<Include>, arities: seq<nat>, roots: seq<Row>, rows: seq<JoinedRow>, rootArity: nat)
    requires Joined(includes, arities, roots, rows, rootArity)
    ensures Wide(rows, |includes|) && OneRootPerKey(rows)
  {
    forall a, b | a in rows && b in rows && a.root.key == b.root.key
      ensures a.root == b.root
    {
      KeyedIsOne(roots, rootArity, a.root, b.root);
    }
  }

  lemma JoinedIsConsistent(includes: seq<Include>, arities: seq<nat>, roots: seq<Row>, rows: seq<JoinedRow>,
      rootArity: nat)
    requires Joined(includes, arities, roots, rows, rootArity)
    ensures Consistent(rows, |includes|)
  {
    JoinedIsWide(includes, arities, roots, rows, rootArity);
    forall i | 0 <= i < |includes|
      ensures OneRowPerKey(SeenBy(rows, |includes|, i))
    {
      var seen := SeenBy(rows, |includes|, i);
      forall a, b | a in seen && b in seen && a.1.Some? && b.1.Some? && a.1.value.key == b.1.value.key
        ensures a.1 == b.1
      {
        var m :| 0 <= m < |rows| && seen[m] == a;
        var n :| 0 <= n < |rows| && seen[n] == b;
        assert rows[m] in rows && rows[n] in rows;
        assert SegmentOf(includes[i], rows[m].root, rows[m].segs[i]) &&
               SegmentOf(includes[i], rows[n].root, rows[n].segs[i]);
        KeyedIsOne(includes[i].targets, arities[i], a.1.value, b.1.value);
      }
    }
  }

  /** A root is seen with exactly its targets. */
  lemma SeenIsTarget(includes: seq<Include>, arities: seq<nat>, roots: seq<Row>, rows: seq<JoinedRow>,
      rootArity: nat, owner: Row, i: nat, t: Row)
    requires Joined(includes, arities, roots, rows, rootArity) && Wide(rows, |includes|) && owner in roots &&
             i < |includes|
    ensures (owner.key, Some(t)) in SeenBy(rows, |includes|, i) <==> Target(includes[i], owner, t)
  {
    var seen := SeenBy(rows, |includes|, i);
    if (owner.key, Some(t)) in seen {
      var n :| 0 <= n < |rows| && seen[n] == (owner.key, Some(t));
      assert rows[n] in rows;
      KeyedIsOne(roots, rootArity, owner, rows[n].root);
      assert SegmentOf(includes[i], rows[n].root, rows[n].segs[i]);
    }
    if Target(includes[i], owner, t) {
      SegmentAppears(includes, roots, rows, owner, i, Some(t));
      var row :| row in rows && row.root == owner && i < |row.segs| && row.segs[i] == Some(t);
      var n :| 0 <= n < |rows| && rows[n] == row;
      assert seen[n] == (owner.key, Some(t));
    }
  }

  lemma ListCollects(inc: Include, arity: nat, owner: Row, s: Gathered, seen: Seen)
    requires Stored(inc, arity) && ListsSeen(s, seen, owner.key)
    requires forall t: Row :: (owner.key, Some(t)) in seen <==> Target(inc, owner, t)
    ensures Collects(inc, owner, Rows(SortByKey(ListOf(s, owner.key))))
  {
    var xs := ListOf(s, owner.key);
    assert DistinctKeys(xs, arity) by {
      forall x | x in xs
        ensures |x.row.key| == arity
      {
        assert Target(inc, owner, x.row);
      }
    }
    SortByKeySorts(xs, arity);
    var sorted := SortByKey(xs);
    forall t
      ensures t in Rows(sorted) <==> Target(inc, owner, t)
    {
      RowsHave(sorted, t);
      if t in Rows(sorted) {
        var x :| x in sorted && x.row == t;
        assert (owner.key, Some(t)) in seen;
      }
      if Target(inc, owner, t) {
        var x :| x in xs && x.row.key == t.key;
        KeyedIsOne(inc.targets, arity, x.row, t);
      }
    }
  }

  lemma NavFills(inc: Include, arity: nat, owner: Row, s: Gathered, seen: Seen)
    requires Stored(inc, arity) && Gathers(IsCollection(inc), s, seen)
    requires forall t: Row :: (owner.key, Some(t)) in seen <==> Target(inc, owner, t)
    ensures Fills(inc, owner, FinishNav(IsCollection(inc), s, owner.key))
  {
    if IsCollection(inc) {
      ListCollects(inc, arity, owner, s, seen);
    } else {
      assert Single(s, seen, owner.key);
    }
  }

  /** Everything a navigation hands back is an instance it knows. */
  lemma NavKnown(collection: bool, s: Gathered, seen: Seen, root: Key, arity: nat)
    requires Gathers(collection, s, seen) && (collection ==> DistinctKeys(ListOf(s, root), arity))
    ensures forall x :: x in Targets(FinishNav(collection, s, root)) ==> Known(s, x)
  {
    if collection {
      assert ListsSeen(s, seen, root);
      SortByKeySorts(ListOf(s, root), arity);
    } else {
      assert Single(s, seen, root);
    }
  }

  lemma ListIsDistinct(inc: Include, arity: nat, owner: Row, s: Gathered, seen: Seen)
    requires Stored(inc, arity) && ListsSeen(s, seen, owner.key)
    requires forall t: Row :: (owner.key, Some(t)) in seen ==> Target(inc, owner, t)
    ensures DistinctKeys(ListOf(s, owner.key), arity)
  {
    forall x | x in ListOf(s, owner.key)
      ensures |x.row.key| == arity
    {
      assert Target(inc, owner, x.row);
    }
  }

  function CollectionsOf(includes: seq<Include>): seq<bool> {
    seq(|includes|, i requires 0 <= i < |includes| => IsCollection(includes[i]))
  }

  lemma ClashIsDrift(includes: seq<Include>, arities: seq<nat>, roots: seq<Row>, rows: seq<JoinedRow>,
      rootArity: nat, i: nat)
    requires Joined(includes, arities, roots, rows, rootArity) && i < |includes| && Clashes(rows, i)
    ensures exists o :: o in roots && Ambiguous(includes[i], o)
  {
    var a, b :| a in rows && b in rows && a.root.key == b.root.key && i < |a.segs| && i < |b.segs|
      && a.segs[i].Some? && b.segs[i].Some? && a.segs[i] != b.segs[i];
    KeyedIsOne(roots, rootArity, a.root, b.root);
    assert SegmentOf(includes[i], a.root, a.segs[i]) && SegmentOf(includes[i], b.root, b.segs[i]);
    assert Target(includes[i], a.root, a.segs[i].value) && Target(includes[i], a.root, b.segs[i].value);
  }

  /** One navigation of one root, handed back. */
  lemma FoldFills(includes: seq<Include>, arities: seq<nat>, roots: seq<Row>, rows: seq<JoinedRow>, rootArity: nat,
      nav: Gathered, owner: Row, i: nat)
    requires Joined(includes, arities, roots, rows, rootArity) && owner in roots && i < |includes|
    requires NavFolded(CollectionsOf(includes), nav, rows, i)
    ensures Fills(includes[i], owner, FinishNav(IsCollection(includes[i]), nav, owner.key))
    ensures forall x :: x in Targets(FinishNav(IsCollection(includes[i]), nav, owner.key)) ==> Known(nav, x)
  {
    var seen := SeenBy(rows, |includes|, i);
    forall t: Row
      ensures (owner.key, Some(t)) in seen <==> Target(includes[i], owner, t)
    {
      SeenIsTarget(includes, arities, roots, rows, rootArity, owner, i, t);
    }
    NavFills(includes[i], arities[i], owner, nav, seen);
    if IsCollection(includes[i]) {
      assert ListsSeen(nav, seen, owner.key);
      ListIsDistinct(includes[i], arities[i], owner, nav, seen);
    }
    NavKnown(IsCollection(includes[i]), nav, seen, owner.key, arities[i]);
  }

  lemma KnownShare(nav: Gathered, xs: seq<Instance>, ys: seq<Instance>)
    requires Indexed(nav) && (forall x :: x in xs ==> Known(nav, x)) && (forall y :: y in ys ==> Known(nav, y))
    ensures SharesWith(xs, ys)
  {
    forall x, y | x in xs && y in ys
      ensures x.id == y.id <==> x.row.key == y.row.key
    {
      assert Known(nav, x) && Known(nav, y);
    }
  }

  lemma FoldMeets(includes: seq<Include>, arities: seq<nat>, roots: seq<Row>, rows: seq<JoinedRow>, rootArity: nat,
      navs: seq<Gathered>, loaded: seq<Loaded>)
    requires Joined(includes, arities, roots, rows, rootArity) && |navs| == |includes|
    requires forall i :: 0 <= i < |navs| ==> NavFolded(CollectionsOf(includes), navs[i], rows, i)
    requires |loaded| == |roots| && forall k :: 0 <= k < |loaded| ==>
               loaded[k].root == roots[k] && |loaded[k].navs| == |navs|
    requires forall k, i :: 0 <= k < |loaded| && 0 <= i < |navs| ==>
               loaded[k].navs[i] == FinishNav(IsCollection(includes[i]), navs[i], roots[k].key)
    ensures Meets(includes, roots, Graph(loaded))
  {
    forall k, i | 0 <= k < |roots| && 0 <= i < |includes|
      ensures Fills(includes[i], roots[k], loaded[k].navs[i])
      ensures forall x :: x in Targets(loaded[k].navs[i]) ==> Known(navs[i], x)
    {
      assert roots[k] in roots;
      FoldFills(includes, arities, roots, rows, rootArity, navs[i], roots[k], i);
    }
    forall i | 0 <= i < |includes|
      ensures Shares(loaded, i)
    {
      assert NavFolded(CollectionsOf(includes), navs[i], rows, i);
      forall a, b | 0 <= a < |loaded| && 0 <= b < |loaded|
        ensures SharesWith(Targets(loaded[a].navs[i]), Targets(loaded[b].navs[i]))
      {
        KnownShare(navs[i], Targets(loaded[a].navs[i]), Targets(loaded[b].navs[i]));
      }
    }
  }

  /** Join mode's read: the rows of one SELECT folded into the graph the includes define, or the same refusal. */
  method LoadByJoin(includes: seq<Include>, rows: seq<JoinedRow>, ghost arities: seq<nat>, ghost roots: seq<Row>,
      ghost rootArity: nat)
    returns (out: Outcome)
    requires Joined(includes, arities, roots, rows, rootArity)
    ensures Meets(includes, roots, out)
  {
    var collections := CollectionsOf(includes);
    JoinedIsConsistent(includes, arities, roots, rows, rootArity);
    var reader := new JoinReader(collections);
    var clash := reader.Read(rows);
    if clash {
      ghost var i :| 0 <= i < |collections| && !collections[i] && Clashes(rows, i);
      ClashIsDrift(includes, arities, roots, rows, rootArity, i);
      out := Refused;
    } else {
      var loaded := Finish(reader);
      FoldMeets(includes, arities, roots, rows, rootArity, reader.navs, loaded);
      out := Graph(loaded);
    }
  }
}
