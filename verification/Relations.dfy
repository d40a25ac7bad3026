/** What an include loads, as a definition: which targets belong to an owner, and in what order. */
module Relations {
  import opened Values
  import opened Entities

  /** A table's row: its key and its other columns. */
  datatype Row = Row(key: Key, cols: seq<Val>)

  /**
   One included navigation over the stored rows. Direct compares a tuple of the owner with a tuple of
   the target: the owner's foreign key with the target's key, or the owner's key with the target's foreign key.
   Linked goes through link rows, a foreign key on either side.
   */
  datatype Include =
    | Direct(kind: RelationKind, ownerTuple: Row -> Key, targetTuple: Row -> Key, targets: seq<Row>)
    | Linked(links: seq<Row>, linkOwner: Row -> Key, linkTarget: Row -> Key, targets: seq<Row>)

  predicate IsCollection(inc: Include) {
    inc.Linked? || inc.kind == OneToMany
  }

  /** The tuple an owner is correlated by: its foreign key on a many-to-one, else its key. */
  function OwnerTuple(inc: Include, owner: Row): Key {
    match inc
    case Direct(_, ownerTuple, _, _) => ownerTuple(owner)
    case Linked(_, _, _, _) => owner.key
  }

  /** A tuple with a null part correlates with nothing. */
  predicate SameTuple(a: Key, b: Key) {
    !HasNull(a) && a == b
  }

  predicate Matches(inc: Include, owner: Row, target: Row) {
    match inc
    case Direct(_, ownerTuple, targetTuple, _) => SameTuple(ownerTuple(owner), targetTuple(target))
    case Linked(links, linkOwner, linkTarget, _) =>
      exists l :: l in links && SameTuple(owner.key, linkOwner(l)) && SameTuple(linkTarget(l), target.key)
  }

  /** Keys identify rows: complete, of one arity, and unique. */
  ghost predicate Keyed(rows: seq<Row>, arity: nat) {
    && (forall r :: r in rows ==> |r.key| == arity && !HasNull(r.key))
    && (forall i, j :: 0 <= i < j < |rows| ==> rows[i].key != rows[j].key)
  }

  /** The stored rows are keyed, and a many-to-one compares with the target's key. */
  ghost predicate Stored(inc: Include, arity: nat) {
    && Keyed(inc.targets, arity)
    && (inc.Direct? ==> inc.kind != ManyToMany)
    && (inc.Direct? && inc.kind == ManyToOne ==> forall t :: t in inc.targets ==> inc.targetTuple(t) == t.key)
  }

  // --- the definition -------------------------------------------------------------------------------

  predicate Before(a: Row, b: Row) {
    |a.key| == |b.key| && Compare(a.key, b.key) < 0
  }

  ghost predicate Ascending(rows: seq<Row>) {
    forall i, j :: 0 <= i < j < |rows| ==> Before(rows[i], rows[j])
  }

  ghost predicate Target(inc: Include, owner: Row, t: Row) {
    t in inc.targets && Matches(inc, owner, t)
  }

  /** Each owner's collection: its targets, each once, ascending by key. */
  ghost predicate Collects(inc: Include, owner: Row, rows: seq<Row>) {
    Ascending(rows) && forall t :: t in rows <==> Target(inc, owner, t)
  }

  /** Each owner's single target: the one it has, or none. */
  ghost predicate Refers(inc: Include, owner: Row, row: Option<Row>) {
    forall t :: Target(inc, owner, t) <==> row == Some(t)
  }

  /** The drift a to-one navigation refuses: two targets of one owner. */
  ghost predicate Ambiguous(inc: Include, owner: Row) {
    exists a, b :: Target(inc, owner, a) && Target(inc, owner, b) && a != b
  }

  lemma BeforeIsOrder(a: Row, b: Row, c: Row)
    ensures !Before(a, a)
    ensures Before(a, b) ==> !Before(b, a)
    ensures Before(a, b) && Before(b, c) ==> Before(a, c)
    ensures |a.key| == |b.key| && !Before(a, b) && !Before(b, a) ==> a.key == b.key
  {
    CompareIsAntisymmetric(a.key, a.key);
    if |a.key| == |b.key| {
      CompareIsAntisymmetric(a.key, b.key);
      if Before(a, b) && Before(b, c) {
        CompareIsTransitive(a.key, b.key, c.key);
      }
    }
  }

  /** There is one ascending list of given rows. */
  lemma {:induction false} AscendingIsUnique(a: seq<Row>, b: seq<Row>)
    requires Ascending(a) && Ascending(b) && forall t :: t in a <==> t in b
    ensures a == b
  {
    FirstIsIn(a, b);
    FirstIsIn(b, a);
    if a != [] && b != [] {
      FirstIsLeast(a, b);
      AscendingTail(a);
      AscendingTail(b);
      AscendingIsUnique(a[1..], b[1..]);
      assert a == [a[0]] + a[1..] && b == [b[0]] + b[1..];
    }
  }

  lemma FirstIsIn(a: seq<Row>, b: seq<Row>)
    requires forall t :: t in a <==> t in b
    ensures b != [] ==> b[0] in a
  {
  }

  lemma AscendingTail(a: seq<Row>)
    requires Ascending(a) && a != []
    ensures Ascending(a[1..]) && forall t :: t in a[1..] <==> t in a && t != a[0]
  {
    forall t | t in a && t != a[0]
      ensures t in a[1..]
    {
      var i :| 0 <= i < |a| && a[i] == t;
      assert a[1..][i - 1] == t;
    }
    forall t | t in a[1..]
      ensures t != a[0]
    {
      var i :| 0 <= i < |a[1..]| && a[1..][i] == t;
      assert Before(a[0], a[i + 1]);
      BeforeIsOrder(a[0], a[0], a[0]);
    }
  }

  lemma FirstIsLeast(a: seq<Row>, b: seq<Row>)
    requires Ascending(a) && Ascending(b) && (forall t :: t in a <==> t in b) && a != [] && b != []
    ensures a[0] == b[0]
  {
    assert a[0] in b && b[0] in a;
    var i :| 0 <= i < |b| && b[i] == a[0];
    var j :| 0 <= j < |a| && a[j] == b[0];
    if i > 0 && j > 0 {
      assert Before(a[0], a[j]) && Before(b[0], b[i]);
      BeforeIsOrder(a[0], b[0], a[0]);
      assert false;
    }
  }

  // --- materialized targets ------------------------------------------------------------------------------

  /** A materialized target: its identity, which is what two owners share, and the row it was read from. */
  datatype Instance = Instance(id: nat, row: Row)

  function Rows(xs: seq<Instance>): (rows: seq<Row>)
    ensures |rows| == |xs| && forall i :: 0 <= i < |xs| ==> rows[i] == xs[i].row
  {
    seq(|xs|, i requires 0 <= i < |xs| => xs[i].row)
  }

  /** One instance per target row: equal identity exactly for equal keys. */
  ghost predicate OnePerKey(xs: seq<Instance>) {
    forall x, y :: x in xs && y in xs ==> (x.id == y.id <==> x.row.key == y.row.key) && (x.id == y.id ==> x == y)
  }

  lemma RowsHave(xs: seq<Instance>, t: Row)
    ensures t in Rows(xs) <==> exists x :: x in xs && x.row == t
  {
    if t in Rows(xs) {
      var i :| 0 <= i < |xs| && Rows(xs)[i] == t;
      assert xs[i] in xs;
    }
    if x :| x in xs && x.row == t {
      var i :| 0 <= i < |xs| && xs[i] == x;
      assert Rows(xs)[i] == t;
    }
  }

  // --- sorting by key ------------------------------------------------------------------------------------

  function InsertByKey(xs: seq<Instance>, x: Instance): seq<Instance> {
    if xs == [] then [x]
    else if Before(x.row, xs[0].row) then [x] + xs
    else [xs[0]] + InsertByKey(xs[1..], x)
  }

  /** The stable sort by key, as a library routine. */
  function SortByKey(xs: seq<Instance>): seq<Instance> {
    if xs == [] then [] else InsertByKey(SortByKey(xs[..|xs| - 1]), xs[|xs| - 1])
  }

  ghost predicate InOrder(xs: seq<Instance>) {
    forall i, j :: 0 <= i < j < |xs| ==> Before(xs[i].row, xs[j].row)
  }

  /** Complete keys of one arity, each once. */
  ghost predicate DistinctKeys(xs: seq<Instance>, arity: nat) {
    && (forall x :: x in xs ==> |x.row.key| == arity)
    && (forall i, j :: 0 <= i < j < |xs| ==> xs[i].row.key != xs[j].row.key)
  }

  lemma {:induction false} InsertKeepsOrder(xs: seq<Instance>, x: Instance)
    requires InOrder(xs) && forall y :: y in xs ==> |y.row.key| == |x.row.key| && y.row.key != x.row.key
    ensures InOrder(InsertByKey(xs, x))
    ensures forall y :: y in InsertByKey(xs, x) <==> y in xs || y == x
  {
    if xs != [] {
      var rest := xs[1..];
      assert xs == [xs[0]] + rest;
      if Before(x.row, xs[0].row) {
        forall j | 0 <= j < |xs|
          ensures Before(x.row, xs[j].row)
        {
          BeforeIsOrder(x.row, xs[0].row, xs[j].row);
        }
      } else {
        InsertKeepsOrder(rest, x);
        BeforeIsOrder(x.row, xs[0].row, x.row);
        forall y | y in InsertByKey(rest, x)
          ensures Before(xs[0].row, y.row)
        {
          if y in rest {
            var i :| 0 <= i < |rest| && rest[i] == y;
            assert Before(xs[0].row, xs[i + 1].row);
          }
        }
      }
    }
  }

  lemma {:induction false} SortByKeySorts(xs: seq<Instance>, arity: nat)
    requires DistinctKeys(xs, arity)
    ensures InOrder(SortByKey(xs))
    ensures forall y :: y in SortByKey(xs) <==> y in xs
  {
    if xs != [] {
      var front, last := xs[..|xs| - 1], xs[|xs| - 1];
      SortByKeySorts(front, arity);
      assert xs == front + [last] && last in xs;
      forall y | y in SortByKey(front)
        ensures |y.row.key| == |last.row.key| && y.row.key != last.row.key
      {
        assert y in front && y in xs;
      }
      InsertKeepsOrder(SortByKey(front), last);
    }
  }

  // --- the loaded graph --------------------------------------------------------------------------------------

  datatype Nav = One(target: Option<Instance>) | Many(targets: seq<Instance>)

  datatype Loaded = Loaded(root: Row, navs: seq<Nav>)

  datatype Outcome = Refused | Graph(roots: seq<Loaded>)

  /** What one navigation of one owner has to be. */
  ghost predicate Fills(inc: Include, owner: Row, nav: Nav) {
    match nav
    case One(x) => !IsCollection(inc) && Refers(inc, owner, if x.Some? then Some(x.value.row) else None)
    case Many(xs) => IsCollection(inc) && Collects(inc, owner, Rows(xs))
  }

  function Targets(nav: Nav): seq<Instance> {
    match nav
    case One(x) => if x.Some? then [x.value] else []
    case Many(xs) => xs
  }

  /** Owners that hold the same target in a navigation hold the same instance. */
  ghost predicate Shares(roots: seq<Loaded>, i: nat) {
    forall a, b :: 0 <= a < |roots| && 0 <= b < |roots| && i < |roots[a].navs| && i < |roots[b].navs| ==>
      SharesWith(Targets(roots[a].navs[i]), Targets(roots[b].navs[i]))
  }

  ghost predicate SharesWith(xs: seq<Instance>, ys: seq<Instance>) {
    forall x, y :: x in xs && y in ys ==> (x.id == y.id <==> x.row.key == y.row.key)
  }

  /**
   The definition: the roots in their order, each navigation filled and shared; refused exactly on an ambiguous
   to-one.
   */
  ghost predicate Meets(includes: seq<Include>, roots: seq<Row>, out: Outcome) {
    match out
    case Refused => exists o, i :: o in roots && 0 <= i < |includes| && !IsCollection(includes[i]) &&
                                   Ambiguous(includes[i], o)
    case Graph(loaded) =>
      && |loaded| == |roots|
      && (forall k :: 0 <= k < |roots| ==> loaded[k].root == roots[k] && |loaded[k].navs| == |includes|)
      && (forall k, i :: 0 <= k < |roots| && 0 <= i < |includes| ==> Fills(includes[i], roots[k], loaded[k].navs[i]))
      && (forall i :: 0 <= i < |includes| ==> Shares(loaded, i))
  }

  // --- two evaluations of one definition -------------------------------------------------------------------

  lemma OneFilling(inc: Include, owner: Row, a: Nav, b: Nav)
    requires Fills(inc, owner, a) && Fills(inc, owner, b)
    ensures Rows(Targets(a)) == Rows(Targets(b))
  {
    if IsCollection(inc) {
      AscendingIsUnique(Rows(a.targets), Rows(b.targets));
    } else {
      var ra := if a.target.Some? then Some(a.target.value.row) else None;
      var rb := if b.target.Some? then Some(b.target.value.row) else None;
      if ra.Some? {
        assert Target(inc, owner, ra.value);
      }
      if rb.Some? {
        assert Target(inc, owner, rb.value);
      }
    }
  }

  /** Two graphs with the same roots, the same targets in every navigation, and the same sharing. */
  ghost predicate SameGraph(a: seq<Loaded>, b: seq<Loaded>, width: nat) {
    && |a| == |b|
    && (forall k :: 0 <= k < |a| ==> a[k].root == b[k].root && |a[k].navs| == |b[k].navs| == width)
    && (forall k, i :: 0 <= k < |a| && 0 <= i < width ==> Rows(Targets(a[k].navs[i])) == Rows(Targets(b[k].navs[i])))
    && (forall k, l, i, m, n ::
          (0 <= k < |a| && 0 <= l < |a| && 0 <= i < width && 0 <= m < |Targets(a[k].navs[i])| &&
           0 <= n < |Targets(a[l].navs[i])|)
          ==> SharedAlike(a, b, k, l, i, m, n))
  }

  /** The two places hold one instance in the one graph exactly when they do in the other. */
  ghost predicate SharedAlike(a: seq<Loaded>, b: seq<Loaded>, k: nat, l: nat, i: nat, m: nat, n: nat) {
    k < |a| && l < |a| && k < |b| && l < |b|
    && i < |a[k].navs| && i < |a[l].navs| && i < |b[k].navs| && i < |b[l].navs|
    && m < |Targets(a[k].navs[i])| && n < |Targets(a[l].navs[i])| && m < |Targets(b[k].navs[i])| &&
       n < |Targets(b[l].navs[i])|
    && (Targets(a[k].navs[i])[m].id == Targets(a[l].navs[i])[n].id <==>
          Targets(b[k].navs[i])[m].id == Targets(b[l].navs[i])[n].id)
  }

  lemma SharingIsByKey(a: seq<Loaded>, b: seq<Loaded>, width: nat, k: nat, l: nat, i: nat, m: nat, n: nat)
    requires |a| == |b| && k < |a| && l < |a| && i < width
    requires forall k :: 0 <= k < |a| ==> |a[k].navs| == |b[k].navs| == width
    requires Shares(a, i) && Shares(b, i)
    requires Rows(Targets(a[k].navs[i])) == Rows(Targets(b[k].navs[i])) &&
             Rows(Targets(a[l].navs[i])) == Rows(Targets(b[l].navs[i]))
    requires m < |Targets(a[k].navs[i])| && n < |Targets(a[l].navs[i])|
    ensures SharedAlike(a, b, k, l, i, m, n)
  {
    var x, y := Targets(a[k].navs[i])[m], Targets(a[l].navs[i])[n];
    assert |Targets(b[k].navs[i])| == |Targets(a[k].navs[i])| && |Targets(b[l].navs[i])| == |Targets(a[l].navs[i])|;
    var u, v := Targets(b[k].navs[i])[m], Targets(b[l].navs[i])[n];
    assert Rows(Targets(a[k].navs[i]))[m] == x.row && Rows(Targets(b[k].navs[i]))[m] == u.row;
    assert Rows(Targets(a[l].navs[i]))[n] == y.row && Rows(Targets(b[l].navs[i]))[n] == v.row;
    assert SharesWith(Targets(a[k].navs[i]), Targets(a[l].navs[i])) &&
           SharesWith(Targets(b[k].navs[i]), Targets(b[l].navs[i]));
  }

  /**
   A graph is refused exactly on an ambiguous to-one. One-to-many and many-to-many navigations hold a list, the
   others at most one target, and lists alone are never refused.
   */
  lemma UnambiguousGraph(includes: seq<Include>, roots: seq<Row>, out: Outcome)
    requires Meets(includes, roots, out)
    ensures out.Refused? <==> exists o, i :: o in roots && 0 <= i < |includes| && !IsCollection(includes[i]) &&
                                             Ambiguous(includes[i], o)
    ensures out.Graph? ==> forall k, i :: 0 <= k < |roots| && 0 <= i < |includes| ==>
              (out.roots[k].navs[i].Many? <==> includes[i].Linked? || includes[i].kind == OneToMany)
    ensures (forall i :: 0 <= i < |includes| ==> includes[i].Linked? || includes[i].kind == OneToMany) ==> out.Graph?
  {
    if out.Graph? {
      forall k, i | 0 <= k < |roots| && 0 <= i < |includes|
        ensures out.roots[k].navs[i].Many? <==> includes[i].Linked? || includes[i].kind == OneToMany
      {
        assert Fills(includes[i], roots[k], out.roots[k].navs[i]);
      }
      forall o, i | o in roots && 0 <= i < |includes| && !IsCollection(includes[i])
        ensures !Ambiguous(includes[i], o)
      {
        var k :| 0 <= k < |roots| && roots[k] == o;
        assert Fills(includes[i], roots[k], out.roots[k].navs[i]);
      }
    }
  }

  /** Whatever meets the definition is the same graph, or the same refusal. */
  lemma DefinitionIsUnique(includes: seq<Include>, roots: seq<Row>, a: Outcome, b: Outcome)
    requires Meets(includes, roots, a) && Meets(includes, roots, b)
    ensures a.Refused? <==> b.Refused?
    ensures a.Graph? ==> SameGraph(a.roots, b.roots, |includes|)
  {
    UnambiguousGraph(includes, roots, a);
    UnambiguousGraph(includes, roots, b);
    if a.Graph? {
      forall k, i | 0 <= k < |roots| && 0 <= i < |includes|
        ensures Rows(Targets(a.roots[k].navs[i])) == Rows(Targets(b.roots[k].navs[i]))
      {
        OneFilling(includes[i], roots[k], a.roots[k].navs[i], b.roots[k].navs[i]);
      }
      forall k, l, i, m, n | 0 <= k < |a.roots| && 0 <= l < |a.roots| && 0 <= i < |includes|
        && 0 <= m < |Targets(a.roots[k].navs[i])| && 0 <= n < |Targets(a.roots[l].navs[i])|
        ensures SharedAlike(a.roots, b.roots, k, l, i, m, n)
      {
        SharingIsByKey(a.roots, b.roots, |includes|, k, l, i, m, n);
      }
    }
  }
}
