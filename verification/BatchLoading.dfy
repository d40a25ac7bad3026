/**
 Query-per-navigation loading, by chunked key lists or by membership in the owners' own query, then each owner's
 share of what was fetched.
 */
module BatchLoading {
  import opened Values
  import opened Entities
  import opened Relations

  /** A stored table with the tuple its rows are matched by, and what the database answers to a list of tuples. */
  datatype Source = Source(rows: seq<Row>, tuple: Row -> Key, query: seq<Key> -> seq<Row>, valueOrdered: bool)

  /**
   The answer to a list of tuples: every stored row that matches one, once; in value order where the column
   types allow it.
   */
  ghost predicate Answers(source: Source, arity: nat) {
    && Keyed(source.rows, arity)
    && forall chunk ::
         && (forall t :: t in source.query(chunk) <==> t in source.rows && source.tuple(t) in chunk)
         && (forall i, j :: 0 <= i < j < |source.query(chunk)| ==>
               source.query(chunk)[i].key != source.query(chunk)[j].key)
         && (source.valueOrdered ==> Ascending(source.query(chunk)))
  }

  /** What a list of tuples fetches: each matching row as one instance. */
  ghost predicate Fetched(source: Source, tuples: seq<Key>, xs: seq<Instance>) {
    && (forall t :: t in Rows(xs) <==> t in source.rows && source.tuple(t) in tuples)
    && (forall i, j :: 0 <= i < j < |xs| ==> xs[i].row.key != xs[j].row.key)
    && OnePerKey(xs)
  }

  ghost predicate NoRepeat<T>(s: seq<T>) {
    forall i, j :: 0 <= i < j < |s| ==> s[i] != s[j]
  }

  /** The tuples without repeats, in first-seen order. */
  method DistinctTuples(tuples: seq<Key>) returns (result: seq<Key>)
    ensures NoRepeat(result) && forall t :: t in result <==> t in tuples
  {
    result := [];
    for i := 0 to |tuples|
      invariant NoRepeat(result) && forall t :: t in result <==> t in tuples[..i]
    {
      assert tuples[..i + 1] == tuples[..i] + [tuples[i]];
      if tuples[i] !in result {
        result := result + [tuples[i]];
      }
    }
    assert tuples[..|tuples|] == tuples;
  }

  /** Each owner's tuple, none for one with a null part, and the distinct tuples where a key list needs them. */
  method Correlate(owners: seq<Row>, tuple: Row -> Key, needDistinct: bool)
    returns (keys: seq<Option<Key>>, distinct: seq<Key>, ghost wanted: seq<Key>)
    ensures |keys| == |owners|
    ensures forall i :: 0 <= i < |owners| ==>
              keys[i] == if HasNull(tuple(owners[i])) then None else Some(tuple(owners[i]))
    ensures NoRepeat(distinct) && (forall t :: t in wanted <==> Some(t) in keys)
    ensures distinct == if needDistinct then wanted else []
  {
    keys := [];
    var nonNull: seq<Key> := [];
    for i := 0 to |owners|
      invariant |keys| == i
      invariant forall k :: 0 <= k < i ==> keys[k] == if HasNull(tuple(owners[k])) then None else Some(tuple(owners[k]))
      invariant forall t :: t in nonNull <==> Some(t) in keys
    {
      var t := tuple(owners[i]);
      if HasNull(t) {
        keys := keys + [None];
      } else {
        keys := keys + [Some(t)];
        nonNull := nonNull + [t];
      }
    }
    distinct, wanted := [], nonNull;
    if needDistinct {
      distinct := DistinctTuples(nonNull);
      wanted := distinct;
    }
  }

  /** The answer to one chunk as instances, numbered from a start. */
  function Materialize(rows: seq<Row>, from: nat): (xs: seq<Instance>)
    ensures |xs| == |rows| && forall i :: 0 <= i < |rows| ==> xs[i] == Instance(from + i, rows[i])
  {
    seq(|rows|, i requires 0 <= i < |rows| => Instance(from + i, rows[i]))
  }

  /** The instances so far are numbered by position. */
  ghost predicate NumberedFrom(xs: seq<Instance>) {
    forall i :: 0 <= i < |xs| ==> xs[i].id == i
  }

  lemma ChunkIsDistinct(source: Source, arity: nat, before: seq<Key>, chunk: seq<Key>, xs: seq<Instance>, i: nat,
      j: nat)
    requires Answers(source, arity) && Fetched(source, before, xs) && forall t :: t in chunk ==> t !in before
    requires var all := xs + Materialize(source.query(chunk), |xs|); i < j < |all|
    ensures var all := xs + Materialize(source.query(chunk), |xs|); all[i].row.key != all[j].row.key
  {
    var answer := source.query(chunk);
    var all := xs + Materialize(answer, |xs|);
    if i < |xs| <= j {
      assert Rows(xs)[i] in Rows(xs) && answer[j - |xs|] in answer;
      SameKeySameRow(source.rows, arity, all[i].row, all[j].row);
    } else if |xs| <= i {
      assert answer[i - |xs|].key != answer[j - |xs|].key;
    }
  }

  lemma ChunkJoins(source: Source, arity: nat, before: seq<Key>, chunk: seq<Key>, after: seq<Key>, xs: seq<Instance>)
    requires Answers(source, arity) && Fetched(source, before, xs) && NumberedFrom(xs)
    requires (forall t :: t in chunk ==> t !in before) && forall t :: t in after <==> t in before || t in chunk
    ensures var all := xs + Materialize(source.query(chunk), |xs|); Fetched(source, after, all) && NumberedFrom(all)
  {
    var answer := source.query(chunk);
    var all := xs + Materialize(answer, |xs|);
    forall i, j | 0 <= i < j < |all|
      ensures all[i].row.key != all[j].row.key
    {
      ChunkIsDistinct(source, arity, before, chunk, xs, i, j);
    }
    assert Rows(all) == Rows(xs) + answer;
    NumberedIsOnePerKey(all);
  }

  lemma SameKeySameRow(rows: seq<Row>, arity: nat, a: Row, b: Row)
    requires Keyed(rows, arity) && a in rows && b in rows
    ensures a.key == b.key ==> a == b
  {
    var i :| 0 <= i < |rows| && rows[i] == a;
    var j :| 0 <= j < |rows| && rows[j] == b;
  }

  lemma NumberedIsOnePerKey(xs: seq<Instance>)
    requires NumberedFrom(xs) && forall i, j :: 0 <= i < j < |xs| ==> xs[i].row.key != xs[j].row.key
    ensures OnePerKey(xs)
  {
    forall x, y | x in xs && y in xs
      ensures (x.id == y.id <==> x.row.key == y.row.key) && (x.id == y.id ==> x == y)
    {
      var i :| 0 <= i < |xs| && xs[i] == x;
      var j :| 0 <= j < |xs| && xs[j] == y;
    }
  }

  lemma SortedIsFetched(source: Source, arity: nat, tuples: seq<Key>, xs: seq<Instance>)
    requires Keyed(source.rows, arity) && Fetched(source, tuples, xs)
    ensures Fetched(source, tuples, SortByKey(xs)) && InOrder(SortByKey(xs))
  {
    forall x | x in xs
      ensures |x.row.key| == arity
    {
      RowsHave(xs, x.row);
    }
    SortByKeySorts(xs, arity);
    var sorted := SortByKey(xs);
    forall t
      ensures t in Rows(sorted) <==> t in Rows(xs)
    {
      RowsHave(sorted, t);
      RowsHave(xs, t);
    }
    forall i, j | 0 <= i < j < |sorted|
      ensures sorted[i].row.key != sorted[j].row.key
    {
      CompareIsAntisymmetric(sorted[i].row.key, sorted[j].row.key);
    }
  }

  lemma TakeIn<T>(s: seq<T>, from: nat, to: nat, i: nat)
    requires from <= to <= |s| && NoRepeat(s) && from <= i < to
    ensures s[i] !in s[..from]
  {
  }

  /** The tuples of a chunk are none of those before it. */
  lemma ChunkIsNew(tuples: seq<Key>, from: nat, to: nat)
    requires NoRepeat(tuples) && from <= to <= |tuples|
    ensures forall t :: t in tuples[from..to] ==> t !in tuples[..from]
    ensures forall t :: t in tuples[..to] <==> t in tuples[..from] || t in tuples[from..to]
  {
    assert tuples[..from] + tuples[from..to] == tuples[..to];
    forall t | t in tuples[from..to]
      ensures t !in tuples[..from]
    {
      var i :| 0 <= i < to - from && tuples[from..to][i] == t;
      TakeIn(tuples, from, to, from + i);
    }
  }

  /** The tuples so far are fetched; what one chunk alone answered is as the database ordered it. */
  ghost predicate Merged(source: Source, tuples: seq<Key>, chunks: nat, xs: seq<Instance>) {
    && Fetched(source, tuples, xs) && NumberedFrom(xs)
    && (chunks == 0 ==> xs == [])
    && (chunks == 1 && source.valueOrdered ==> Ascending(Rows(xs)))
  }

  lemma MergeChunk(source: Source, arity: nat, before: seq<Key>, chunk: seq<Key>, after: seq<Key>, chunks: nat,
      xs: seq<Instance>)
    requires Answers(source, arity) && Merged(source, before, chunks, xs)
    requires (forall t :: t in chunk ==> t !in before) && forall t :: t in after <==> t in before || t in chunk
    ensures Merged(source, after, chunks + 1, xs + Materialize(source.query(chunk), |xs|))
  {
    ChunkJoins(source, arity, before, chunk, after, xs);
    if chunks == 0 {
      var more := Materialize(source.query(chunk), |xs|);
      assert Rows(xs + more) == source.query(chunk);
    }
  }

  /** MultiQuery asks by key lists; SubSelect asks once, by membership in the owners' query, and is answered. */
  datatype Fetch = MultiQuery | SubSelect(answer: seq<Row>)

  /** One query for the rows that match a wanted tuple: each once, in value order where the column types allow it. */
  ghost predicate Selected(source: Source, wanted: seq<Key>, answer: seq<Row>) {
    && (forall t :: t in answer <==> t in source.rows && source.tuple(t) in wanted)
    && (forall i, j :: 0 <= i < j < |answer| ==> answer[i].key != answer[j].key)
    && (source.valueOrdered ==> Ascending(answer))
  }

  lemma SelectedIsFetched(source: Source, wanted: seq<Key>, answer: seq<Row>)
    requires Selected(source, wanted, answer)
    ensures Fetched(source, wanted, Materialize(answer, 0))
  {
    var xs := Materialize(answer, 0);
    assert Rows(xs) == answer;
    NumberedIsOnePerKey(xs);
  }

  /**
   The query of either mode. Key lists go over chunks of at most a size, merged; the rows are sorted by value
   where the merge or the database left them otherwise.
   */
  method QueryMembership(source: Source, tuples: seq<Key>, fetch: Fetch, size: nat, ghost wanted: seq<Key>,
      ghost arity: nat) returns (xs: seq<Instance>)
    requires Answers(source, arity) && NoRepeat(tuples) && size > 0
    requires if fetch.MultiQuery? then tuples == wanted else Selected(source, wanted, fetch.answer)
    ensures Fetched(source, wanted, xs) && InOrder(xs)
  {
    if fetch.SubSelect? {
      SelectedIsFetched(source, wanted, fetch.answer);
      xs := Materialize(fetch.answer, 0);
      if !source.valueOrdered {
        SortedIsFetched(source, arity, wanted, xs);
        xs := SortByKey(xs);
      } else {
        assert Rows(xs) == fetch.answer;
        AscendingIsInOrder(xs);
      }
      return;
    }
    var chunks := 0;
    xs, chunks := QueryChunks(source, tuples, size, arity);
    if chunks > 1 || !source.valueOrdered {
      SortedIsFetched(source, arity, tuples, xs);
      xs := SortByKey(xs);
    } else {
      AscendingIsInOrder(xs);
    }
  }

  method QueryChunks(source: Source, tuples: seq<Key>, size: nat, ghost arity: nat)
    returns (xs: seq<Instance>, chunks: nat)
    requires Answers(source, arity) && NoRepeat(tuples) && size > 0
    ensures Merged(source, tuples, chunks, xs)
  {
    xs, chunks := [], 0;
    var from := 0;
    while from < |tuples|
      invariant from <= |tuples| && Merged(source, tuples[..from], chunks, xs)
      decreases |tuples| - from
    {
      var to := if from + size < |tuples| then from + size else |tuples|;
      var chunk := tuples[from..to];
      ChunkIsNew(tuples, from, to);
      MergeChunk(source, arity, tuples[..from], chunk, tuples[..to], chunks, xs);
      xs := xs + Materialize(source.query(chunk), |xs|);
      from, chunks := to, chunks + 1;
    }
    assert tuples[..from] == tuples;
  }

  lemma AscendingIsInOrder(xs: seq<Instance>)
    requires Ascending(Rows(xs))
    ensures InOrder(xs)
  {
    forall i, j | 0 <= i < j < |xs|
      ensures Before(xs[i].row, xs[j].row)
    {
      assert Before(Rows(xs)[i], Rows(xs)[j]);
    }
  }

  // --- each owner's share -----------------------------------------------------------------------------------

  /** The fetched targets that pass a test, in their order. */
  function Those(xs: seq<Instance>, test: Row -> bool): (those: seq<Instance>)
    ensures forall x :: x in those <==> x in xs && test(x.row)
  {
    if xs == [] then []
    else
      var last := xs[|xs| - 1];
      assert xs == xs[..|xs| - 1] + [last];
      Those(xs[..|xs| - 1], test) + (if test(last.row) then [last] else [])
  }

  lemma {:induction false} ThoseInOrder(xs: seq<Instance>, test: Row -> bool)
    requires InOrder(xs)
    ensures InOrder(Those(xs, test))
  {
    if xs != [] {
      var front, last := xs[..|xs| - 1], xs[|xs| - 1];
      ThoseInOrder(front, test);
      forall x | x in front
        ensures Before(x.row, last.row)
      {
        var i :| 0 <= i < |front| && front[i] == x;
        assert Before(xs[i].row, xs[|xs| - 1].row);
      }
    }
  }

  /** Filtering the fetched targets, in order, by what makes them the owner's is the owner's collection. */
  lemma ThoseCollect(inc: Include, owner: Row, xs: seq<Instance>, test: Row -> bool)
    requires InOrder(xs) && forall t :: Target(inc, owner, t) <==> t in Rows(xs) && test(t)
    ensures Collects(inc, owner, Rows(Those(xs, test)))
  {
    ThoseInOrder(xs, test);
    var those := Those(xs, test);
    forall t
      ensures t in Rows(those) <==> Target(inc, owner, t)
    {
      RowsHave(those, t);
      RowsHave(xs, t);
    }
    forall i, j | 0 <= i < j < |those|
      ensures Before(Rows(those)[i], Rows(those)[j])
    {
      assert Before(those[i].row, those[j].row);
    }
  }

  // --- what the fetched targets are to one owner ------------------------------------------------------------

  /** The source is the include's target table, matched by the tuple the include compares. */
  ghost predicate SourceOf(inc: Include, source: Source, arity: nat) {
    && inc.Direct? && Stored(inc, arity) && Answers(source, arity)
    && source.rows == inc.targets && forall r :: source.tuple(r) == inc.targetTuple(r)
  }

  /** The distinct tuples of the owners that have one. */
  ghost predicate TuplesOf(inc: Include, owners: seq<Row>, distinct: seq<Key>) {
    forall t :: t in distinct <==> !HasNull(t) && exists o :: o in owners && OwnerTuple(inc, o) == t
  }

  lemma CorrelatedTuples(inc: Include, owners: seq<Row>, keys: seq<Option<Key>>, distinct: seq<Key>)
    requires |keys| == |owners| && forall t :: t in distinct <==> Some(t) in keys
    requires forall i :: 0 <= i < |owners| ==>
               keys[i] == if HasNull(OwnerTuple(inc, owners[i])) then None else Some(OwnerTuple(inc, owners[i]))
    ensures TuplesOf(inc, owners, distinct)
  {
    forall t
      ensures t in distinct <==> !HasNull(t) && exists o :: o in owners && OwnerTuple(inc, o) == t
    {
      if t in distinct {
        var i :| 0 <= i < |keys| && keys[i] == Some(t);
        assert owners[i] in owners;
      }
      if o :| o in owners && OwnerTuple(inc, o) == t && !HasNull(t) {
        var i :| 0 <= i < |owners| && owners[i] == o;
        assert keys[i] == Some(t);
      }
    }
  }

  lemma DirectShare(inc: Include, owners: seq<Row>, source: Source, arity: nat, distinct: seq<Key>,
      xs: seq<Instance>, owner: Row)
    requires SourceOf(inc, source, arity) && TuplesOf(inc, owners, distinct) && Fetched(source, distinct, xs) &&
             owner in owners
    ensures forall t :: Target(inc, owner, t) <==> !HasNull(inc.ownerTuple(owner)) && t in Rows(xs) &&
                                                   inc.targetTuple(t) == inc.ownerTuple(owner)
  {
    forall t
      ensures Target(inc, owner, t) <==> !HasNull(inc.ownerTuple(owner)) && t in Rows(xs) &&
                                         inc.targetTuple(t) == inc.ownerTuple(owner)
    {
      if Target(inc, owner, t) {
        assert OwnerTuple(inc, owner) == inc.ownerTuple(owner);
        assert source.tuple(t) in distinct;
      }
    }
  }

  /** Each owner's navigation is right and holds fetched instances. */
  ghost predicate Filled(inc: Include, owners: seq<Row>, navs: seq<Nav>, xs: seq<Instance>) {
    && |navs| == |owners| && OnePerKey(xs)
    && (forall k :: 0 <= k < |owners| ==> Fills(inc, owners[k], navs[k]) && Holds(navs[k], xs))
  }

  ghost predicate Holds(nav: Nav, xs: seq<Instance>) {
    forall x :: x in Targets(nav) ==> x in xs
  }

  // --- one-to-many -----------------------------------------------------------------------------------------

  function WithTuple(xs: seq<Instance>, tuple: Row -> Key, key: Key): seq<Instance> {
    Those(xs, (t: Row) => tuple(t) == key)
  }

  /** The owner's collection out of the fetched targets. */
  function CollectionFor(inc: Include, xs: seq<Instance>, owner: Row): Nav
    requires inc.Direct?
  {
    Many(if HasNull(inc.ownerTuple(owner)) then [] else WithTuple(xs, inc.targetTuple, inc.ownerTuple(owner)))
  }

  lemma CollectionFills(inc: Include, owners: seq<Row>, source: Source, arity: nat, distinct: seq<Key>,
      xs: seq<Instance>, owner: Row)
    requires SourceOf(inc, source, arity) && IsCollection(inc) && InOrder(xs)
    requires TuplesOf(inc, owners, distinct) && Fetched(source, distinct, xs) && owner in owners
    ensures Fills(inc, owner, CollectionFor(inc, xs, owner)) && Holds(CollectionFor(inc, xs, owner), xs)
  {
    DirectShare(inc, owners, source, arity, distinct, xs, owner);
    var key := inc.ownerTuple(owner);
    if !HasNull(key) {
      ThoseCollect(inc, owner, xs, (t: Row) => inc.targetTuple(t) == key);
    }
  }

  /** What the owners' query, projected to their tuples, selects of the target table. */
  ghost predicate SelectsOf(inc: Include, owners: seq<Row>, source: Source, fetch: Fetch) {
    fetch.SubSelect? ==>
      && (forall t :: t in fetch.answer <==> t in source.rows && Wanted(inc, owners, source.tuple(t)))
      && (forall i, j :: 0 <= i < j < |fetch.answer| ==> fetch.answer[i].key != fetch.answer[j].key)
      && (source.valueOrdered ==> Ascending(fetch.answer))
  }

  /** The tuple is that of an owner and has no null part. */
  ghost predicate Wanted(inc: Include, owners: seq<Row>, tuple: Key) {
    !HasNull(tuple) && exists o :: o in owners && OwnerTuple(inc, o) == tuple
  }

  lemma OwnersSelect(inc: Include, owners: seq<Row>, source: Source, fetch: Fetch, wanted: seq<Key>)
    requires SelectsOf(inc, owners, source, fetch) && TuplesOf(inc, owners, wanted)
    ensures fetch.SubSelect? ==> Selected(source, wanted, fetch.answer)
  {
    assert forall tuple :: Wanted(inc, owners, tuple) <==> tuple in wanted;
  }

  /** The owners' tuples, and the fetched targets they match. */
  method FetchTargets(inc: Include, owners: seq<Row>, source: Source, fetch: Fetch, size: nat, ghost arity: nat)
    returns (keys: seq<Option<Key>>, xs: seq<Instance>, ghost distinct: seq<Key>)
    requires SourceOf(inc, source, arity) && SelectsOf(inc, owners, source, fetch) && size > 0
    ensures |keys| == |owners|
    ensures forall i :: 0 <= i < |owners| ==>
              keys[i] == if HasNull(inc.ownerTuple(owners[i])) then None else Some(inc.ownerTuple(owners[i]))
    ensures TuplesOf(inc, owners, distinct) && Fetched(source, distinct, xs) && InOrder(xs)
  {
    var tuples;
    keys, tuples, distinct := Correlate(owners, inc.ownerTuple, fetch.MultiQuery?);
    CorrelatedTuples(inc, owners, keys, distinct);
    OwnersSelect(inc, owners, source, fetch, distinct);
    xs := QueryMembership(source, tuples, fetch, size, distinct, arity);
  }

  /** The tuple path: the targets with the owner's tuple, in order. */
  method LoadOneToMany(inc: Include, owners: seq<Row>, source: Source, fetch: Fetch, size: nat, ghost arity: nat)
    returns (navs: seq<Nav>, ghost xs: seq<Instance>)
    requires SelectsOf(inc, owners, source, fetch)
    requires SourceOf(inc, source, arity) && IsCollection(inc) && size > 0
    ensures Filled(inc, owners, navs, xs)
  {
    var keys, targets, distinct := FetchTargets(inc, owners, source, fetch, size, arity);
    xs := targets;
    navs := [];
    for i := 0 to |owners|
      invariant |navs| == i && forall k :: 0 <= k < i ==> Fills(inc, owners[k], navs[k]) && Holds(navs[k], xs)
    {
      CollectionFills(inc, owners, source, arity, distinct, xs, owners[i]);
      var nav := Many(if keys[i].None? then [] else WithTuple(targets, inc.targetTuple, keys[i].value));
      assert nav == CollectionFor(inc, targets, owners[i]);
      navs := navs + [nav];
    }
  }

  /** One integer, or one null: what the fast path reads. */
  predicate IntegerShaped(key: Key) {
    |key| == 1 && (key[0].Num? || key[0] == Null)
  }

  function ReadInteger(key: Key): Option<int>
    requires IntegerShaped(key)
  {
    if key[0].Num? then Some(key[0].n) else None
  }

  /** Both sides of the comparison are integer keys. */
  ghost predicate IntegerKeys(inc: Include, owners: seq<Row>) {
    && inc.Direct?
    && (forall o :: o in owners ==> IntegerShaped(inc.ownerTuple(o)))
    && (forall t :: t in inc.targets ==> IntegerShaped(inc.targetTuple(t)))
  }

  ghost predicate IntegerTargets(inc: Include, xs: seq<Instance>) {
    inc.Direct? && forall x :: x in xs ==> IntegerShaped(inc.targetTuple(x.row))
  }

  /** What was fetched are stored targets. */
  lemma FetchedAreIntegers(inc: Include, owners: seq<Row>, source: Source, distinct: seq<Key>, xs: seq<Instance>)
    requires IntegerKeys(inc, owners) && source.rows == inc.targets && Fetched(source, distinct, xs)
    ensures IntegerTargets(inc, xs)
  {
    forall x | x in xs
      ensures IntegerShaped(inc.targetTuple(x.row))
    {
      assert x.row in Rows(xs);
    }
  }

  lemma IntegerIsTuple(key: Key, n: int)
    requires IntegerShaped(key)
    ensures ReadInteger(key) == Some(n) <==> key == [Num(n)]
    ensures ReadInteger(key) == None <==> HasNull(key)
  {
    assert key == [key[0]];
  }

  function GroupOf(groups: map<int, seq<Instance>>, n: int): seq<Instance> {
    if n in groups then groups[n] else []
  }

  lemma WithTupleStep(xs: seq<Instance>, j: nat, tuple: Row -> Key, n: int)
    requires j < |xs| && IntegerShaped(tuple(xs[j].row))
    ensures WithTuple(xs[..j + 1], tuple, [Num(n)])
            == WithTuple(xs[..j], tuple, [Num(n)]) + (if ReadInteger(tuple(xs[j].row)) == Some(n) then [xs[j]] else [])
  {
    assert xs[..j + 1][..j] == xs[..j];
    IntegerIsTuple(tuple(xs[j].row), n);
  }

  ghost predicate Grouped(groups: map<int, seq<Instance>>, xs: seq<Instance>, tuple: Row -> Key) {
    forall n :: GroupOf(groups, n) == WithTuple(xs, tuple, [Num(n)])
  }

  lemma GroupedStep(groups: map<int, seq<Instance>>, xs: seq<Instance>, j: nat, tuple: Row -> Key)
    requires j < |xs| && IntegerShaped(tuple(xs[j].row)) && Grouped(groups, xs[..j], tuple)
    ensures var key := ReadInteger(tuple(xs[j].row));
            Grouped(if key.Some? then groups[key.value := GroupOf(groups, key.value) + [xs[j]]] else groups,
                    xs[..j + 1], tuple)
  {
    var key := ReadInteger(tuple(xs[j].row));
    var next := if key.Some? then groups[key.value := GroupOf(groups, key.value) + [xs[j]]] else groups;
    forall n
      ensures GroupOf(next, n) == WithTuple(xs[..j + 1], tuple, [Num(n)])
    {
      WithTupleStep(xs, j, tuple, n);
      assert GroupOf(groups, n) == WithTuple(xs[..j], tuple, [Num(n)]);
    }
  }

  /** The targets grouped by integer foreign key, each group in the targets' order. */
  method GroupByInteger(inc: Include, xs: seq<Instance>) returns (groups: map<int, seq<Instance>>)
    requires IntegerTargets(inc, xs)
    ensures Grouped(groups, xs, inc.targetTuple)
  {
    groups := map[];
    for j := 0 to |xs|
      invariant Grouped(groups, xs[..j], inc.targetTuple)
    {
      GroupedStep(groups, xs, j, inc.targetTuple);
      var key := ReadInteger(inc.targetTuple(xs[j].row));
      if key.Some? {
        groups := groups[key.value := GroupOf(groups, key.value) + [xs[j]]];
      }
    }
    assert xs[..|xs|] == xs;
  }

  lemma GroupIsCollection(inc: Include, groups: map<int, seq<Instance>>, xs: seq<Instance>, owner: Row)
    requires inc.Direct? && IntegerShaped(inc.ownerTuple(owner)) && Grouped(groups, xs, inc.targetTuple)
    ensures var read := ReadInteger(inc.ownerTuple(owner));
            CollectionFor(inc, xs, owner) == Many(if read.Some? then GroupOf(groups, read.value) else [])
  {
    var key := inc.ownerTuple(owner);
    IntegerIsTuple(key, if key[0].Num? then key[0].n else 0);
  }

  /** The integer path: each owner's group. */
  method LoadOneToManyByInteger(inc: Include, owners: seq<Row>, source: Source, fetch: Fetch, size: nat,
      ghost arity: nat)
    returns (navs: seq<Nav>, ghost xs: seq<Instance>)
    requires SelectsOf(inc, owners, source, fetch)
    requires SourceOf(inc, source, arity) && IsCollection(inc) && IntegerKeys(inc, owners) && size > 0
    ensures Filled(inc, owners, navs, xs)
  {
    var keys, targets, distinct := FetchTargets(inc, owners, source, fetch, size, arity);
    xs := targets;
    FetchedAreIntegers(inc, owners, source, distinct, targets);
    var groups := GroupByInteger(inc, targets);
    navs := [];
    for i := 0 to |owners|
      invariant |navs| == i && forall k :: 0 <= k < i ==> Fills(inc, owners[k], navs[k]) && Holds(navs[k], xs)
    {
      CollectionFills(inc, owners, source, arity, distinct, xs, owners[i]);
      GroupIsCollection(inc, groups, targets, owners[i]);
      var read := ReadInteger(inc.ownerTuple(owners[i]));
      navs := navs + [Many(if read.Some? then GroupOf(groups, read.value) else [])];
    }
  }

  // --- to-one ---------------------------------------------------------------------------------------------------

  /** The first of the targets with the tuple. */
  function FirstWith(xs: seq<Instance>, tuple: Row -> Key, key: Key): (r: Option<Instance>)
    ensures r.Some? ==> r.value in xs && tuple(r.value.row) == key
    ensures r.None? ==> forall x :: x in xs ==> tuple(x.row) != key
  {
    if xs == [] then None
    else
      assert xs == [xs[0]] + xs[1..];
      if tuple(xs[0].row) == key then Some(xs[0]) else FirstWith(xs[1..], tuple, key)
  }

  /** Two fetched targets with one tuple: what a one-to-one refuses. */
  ghost predicate Repeats(xs: seq<Instance>, tuple: Row -> Key) {
    exists i, j :: 0 <= i < j < |xs| && tuple(xs[i].row) == tuple(xs[j].row)
  }

  method FindRepeat(xs: seq<Instance>, tuple: Row -> Key) returns (repeated: bool)
    ensures repeated <==> Repeats(xs, tuple)
  {
    var seen: seq<Key> := [];
    for j := 0 to |xs|
      invariant |seen| == j && (forall i :: 0 <= i < j ==> seen[i] == tuple(xs[i].row))
      invariant forall i, k :: 0 <= i < k < j ==> tuple(xs[i].row) != tuple(xs[k].row)
    {
      if tuple(xs[j].row) in seen {
        ghost var i :| 0 <= i < j && seen[i] == tuple(xs[j].row);
        return true;
      }
      seen := seen + [tuple(xs[j].row)];
    }
    repeated := false;
  }

  lemma RepeatIsDrift(inc: Include, owners: seq<Row>, source: Source, arity: nat, distinct: seq<Key>, xs: seq<Instance>)
    requires SourceOf(inc, source, arity) && TuplesOf(inc, owners, distinct) && Fetched(source, distinct, xs)
    requires Repeats(xs, inc.targetTuple)
    ensures exists o :: o in owners && Ambiguous(inc, o)
  {
    var i, j :| 0 <= i < j < |xs| && inc.targetTuple(xs[i].row) == inc.targetTuple(xs[j].row);
    RowsHave(xs, xs[i].row);
    RowsHave(xs, xs[j].row);
    assert source.tuple(xs[i].row) in distinct;
    var o :| o in owners && OwnerTuple(inc, o) == inc.targetTuple(xs[i].row);
    DirectShare(inc, owners, source, arity, distinct, xs, o);
    assert Target(inc, o, xs[i].row) && Target(inc, o, xs[j].row);
  }

  /** The owner's single target out of the fetched ones. */
  function SingleFor(inc: Include, xs: seq<Instance>, owner: Row): Nav
    requires inc.Direct?
  {
    One(if HasNull(inc.ownerTuple(owner)) then None else FirstWith(xs, inc.targetTuple, inc.ownerTuple(owner)))
  }

  lemma SingleFills(inc: Include, owners: seq<Row>, source: Source, arity: nat, distinct: seq<Key>,
      xs: seq<Instance>, owner: Row)
    requires SourceOf(inc, source, arity) && !IsCollection(inc) && !Repeats(xs, inc.targetTuple)
    requires TuplesOf(inc, owners, distinct) && Fetched(source, distinct, xs) && owner in owners
    ensures Fills(inc, owner, SingleFor(inc, xs, owner)) && Holds(SingleFor(inc, xs, owner), xs)
  {
    DirectShare(inc, owners, source, arity, distinct, xs, owner);
    var key := inc.ownerTuple(owner);
    var found := SingleFor(inc, xs, owner).target;
    var row := if found.Some? then Some(found.value.row) else None;
    forall t
      ensures Target(inc, owner, t) <==> row == Some(t)
    {
      RowsHave(xs, t);
      if Target(inc, owner, t) {
        var x :| x in xs && x.row == t;
        assert found.Some?;
        OnlyOne(xs, inc.targetTuple, x, found.value);
      }
      if row == Some(t) {
        assert found.value in xs;
      }
    }
  }

  lemma OnlyOne(xs: seq<Instance>, tuple: Row -> Key, x: Instance, y: Instance)
    requires !Repeats(xs, tuple) && x in xs && y in xs && tuple(x.row) == tuple(y.row)
    ensures x == y
  {
    var i :| 0 <= i < |xs| && xs[i] == x;
    var j :| 0 <= j < |xs| && xs[j] == y;
    assert i == j;
  }

  /** A many-to-one compares with the target's key, of which there is one. */
  lemma KeysDoNotRepeat(inc: Include, source: Source, arity: nat, distinct: seq<Key>, xs: seq<Instance>)
    requires SourceOf(inc, source, arity) && inc.kind == ManyToOne && Fetched(source, distinct, xs)
    ensures !Repeats(xs, inc.targetTuple)
  {
    forall i, j | 0 <= i < j < |xs|
      ensures inc.targetTuple(xs[i].row) != inc.targetTuple(xs[j].row)
    {
      RowsHave(xs, xs[i].row);
      RowsHave(xs, xs[j].row);
    }
  }

  /** A to-one navigation's result: refused for some owner's drift, or each owner's target. */
  ghost predicate ToOneResult(inc: Include, owners: seq<Row>, refused: bool, navs: seq<Nav>, xs: seq<Instance>) {
    if refused then exists o :: o in owners && Ambiguous(inc, o) else Filled(inc, owners, navs, xs)
  }

  /** The tuple path. */
  method LoadToOne(inc: Include, owners: seq<Row>, source: Source, fetch: Fetch, size: nat, ghost arity: nat)
    returns (refused: bool, navs: seq<Nav>, ghost xs: seq<Instance>)
    requires SelectsOf(inc, owners, source, fetch)
    requires SourceOf(inc, source, arity) && !IsCollection(inc) && size > 0
    ensures ToOneResult(inc, owners, refused, navs, xs)
  {
    var keys, targets, distinct := FetchTargets(inc, owners, source, fetch, size, arity);
    xs := targets;
    navs, refused := [], false;
    if inc.kind == OneToOne {
      refused := FindRepeat(targets, inc.targetTuple);
      if refused {
        RepeatIsDrift(inc, owners, source, arity, distinct, xs);
        return;
      }
    } else {
      assert inc.kind == ManyToOne;
      KeysDoNotRepeat(inc, source, arity, distinct, xs);
    }
    for i := 0 to |owners|
      invariant |navs| == i && forall k :: 0 <= k < i ==> Fills(inc, owners[k], navs[k]) && Holds(navs[k], xs)
    {
      SingleFills(inc, owners, source, arity, distinct, xs, owners[i]);
      var nav := One(if keys[i].None? then None else FirstWith(targets, inc.targetTuple, keys[i].value));
      assert nav == SingleFor(inc, targets, owners[i]);
      navs := navs + [nav];
    }
  }

  // --- to-one by integer key ----------------------------------------------------------------------------------

  function Entry(byKey: map<int, Instance>, n: int): Option<Instance> {
    if n in byKey then Some(byKey[n]) else None
  }

  ghost predicate Mapped(byKey: map<int, Instance>, xs: seq<Instance>, tuple: Row -> Key) {
    && (forall n :: n in byKey ==> byKey[n] in xs && tuple(byKey[n].row) == [Num(n)])
    && (forall x :: x in xs && !HasNull(tuple(x.row)) ==>
          IntegerShaped(tuple(x.row)) && ReadInteger(tuple(x.row)).Some? && ReadInteger(tuple(x.row)).value in byKey)
  }

  lemma MappedIsFirst(byKey: map<int, Instance>, xs: seq<Instance>, tuple: Row -> Key, n: int)
    requires Mapped(byKey, xs, tuple) && !Repeats(xs, tuple)
    ensures Entry(byKey, n) == FirstWith(xs, tuple, [Num(n)])
  {
    var first := FirstWith(xs, tuple, [Num(n)]);
    if first.Some? {
      assert tuple(first.value.row) == [Num(n)];
      OnlyOne(xs, tuple, byKey[n], first.value);
    }
  }

  lemma MappedStep(byKey: map<int, Instance>, xs: seq<Instance>, j: nat, tuple: Row -> Key)
    requires j < |xs| && IntegerShaped(tuple(xs[j].row)) && Mapped(byKey, xs[..j], tuple)
    ensures var key := ReadInteger(tuple(xs[j].row));
            Mapped(if key.Some? then byKey[key.value := xs[j]] else byKey, xs[..j + 1], tuple)
  {
    assert xs[..j + 1] == xs[..j] + [xs[j]];
    var t := tuple(xs[j].row);
    IntegerIsTuple(t, if t[0].Num? then t[0].n else 0);
  }

  /** The targets by integer key, and whether a key (or the null) came twice. */
  method MapByInteger(inc: Include, xs: seq<Instance>) returns (byKey: map<int, Instance>, repeated: bool)
    requires IntegerTargets(inc, xs)
    ensures repeated <==> Repeats(xs, inc.targetTuple)
    ensures !repeated ==> Mapped(byKey, xs, inc.targetTuple)
  {
    byKey := map[];
    var nullSeen := false;
    for j := 0 to |xs|
      invariant Mapped(byKey, xs[..j], inc.targetTuple)
      invariant nullSeen <==> exists i :: 0 <= i < j && HasNull(inc.targetTuple(xs[i].row))
      invariant !Repeats(xs[..j], inc.targetTuple)
    {
      var t := inc.targetTuple(xs[j].row);
      var key := ReadInteger(t);
      RepeatAt(byKey, nullSeen, xs, j, inc.targetTuple);
      if (key.Some? && key.value in byKey) || (key.None? && nullSeen) {
        return byKey, true;
      }
      MappedStep(byKey, xs, j, inc.targetTuple);
      IntegerIsTuple(t, 0);
      if key.Some? {
        byKey := byKey[key.value := xs[j]];
      } else {
        nullSeen := true;
      }
    }
    assert xs[..|xs|] == xs;
    repeated := false;
  }

  /** The next target repeats a tuple exactly when its integer, or a null, was there before. */
  lemma RepeatAt(byKey: map<int, Instance>, nullSeen: bool, xs: seq<Instance>, j: nat, tuple: Row -> Key)
    requires j < |xs| && (forall x :: x in xs ==> IntegerShaped(tuple(x.row)))
    requires Mapped(byKey, xs[..j], tuple) && !Repeats(xs[..j], tuple)
    requires nullSeen <==> exists i :: 0 <= i < j && HasNull(tuple(xs[i].row))
    ensures var key := ReadInteger(tuple(xs[j].row));
            if (key.Some? && key.value in byKey) ||
            (key.None? && nullSeen) then Repeats(xs, tuple) else !Repeats(xs[..j + 1], tuple)
  {
    var t := tuple(xs[j].row);
    var key := ReadInteger(t);
    if key.Some? && key.value in byKey {
      var i :| 0 <= i < j && xs[..j][i] == byKey[key.value];
      IntegerIsTuple(t, key.value);
      assert tuple(xs[i].row) == tuple(xs[j].row);
    } else if key.None? && nullSeen {
      var i :| 0 <= i < j && HasNull(tuple(xs[i].row));
      assert tuple(xs[i].row) == [tuple(xs[i].row)[0]] && t == [t[0]];
      assert tuple(xs[i].row) == tuple(xs[j].row);
    } else {
      forall i, k | 0 <= i < k < j + 1
        ensures tuple(xs[i].row) != tuple(xs[k].row)
      {
        if k < j {
          assert xs[..j][i] == xs[i] && xs[..j][k] == xs[k];
        } else if tuple(xs[i].row) == t {
          assert xs[i] in xs[..j];
          NoRepeatAt(byKey, nullSeen, xs, j, tuple, i);
        }
      }
    }
  }

  lemma NoRepeatAt(byKey: map<int, Instance>, nullSeen: bool, xs: seq<Instance>, j: nat, tuple: Row -> Key, i: nat)
    requires i < j < |xs| && (forall x :: x in xs ==> IntegerShaped(tuple(x.row))) && Mapped(byKey, xs[..j], tuple)
    requires nullSeen <==> exists i :: 0 <= i < j && HasNull(tuple(xs[i].row))
    ensures var key := ReadInteger(tuple(xs[j].row));
            tuple(xs[i].row) == tuple(xs[j].row) ==> (key.Some? && key.value in byKey) || (key.None? && nullSeen)
  {
    assert xs[..j][i] in xs[..j];
    IntegerIsTuple(tuple(xs[j].row), 0);
  }

  lemma EntryIsSingle(inc: Include, byKey: map<int, Instance>, xs: seq<Instance>, owner: Row)
    requires inc.Direct? && IntegerShaped(inc.ownerTuple(owner))
    requires Mapped(byKey, xs, inc.targetTuple) && !Repeats(xs, inc.targetTuple)
    ensures var read := ReadInteger(inc.ownerTuple(owner));
            SingleFor(inc, xs, owner) == One(if read.Some? then Entry(byKey, read.value) else None)
  {
    var key := inc.ownerTuple(owner);
    var n := if key[0].Num? then key[0].n else 0;
    IntegerIsTuple(key, n);
    MappedIsFirst(byKey, xs, inc.targetTuple, n);
  }

  /** The integer path: the same refusal, the same target. */
  method LoadToOneByInteger(inc: Include, owners: seq<Row>, source: Source, fetch: Fetch, size: nat, ghost arity: nat)
    returns (refused: bool, navs: seq<Nav>, ghost xs: seq<Instance>)
    requires SelectsOf(inc, owners, source, fetch)
    requires SourceOf(inc, source, arity) && !IsCollection(inc) && IntegerKeys(inc, owners) && size > 0
    ensures ToOneResult(inc, owners, refused, navs, xs)
  {
    var keys, targets, distinct := FetchTargets(inc, owners, source, fetch, size, arity);
    xs := targets;
    var byKey;
    navs := [];
    FetchedAreIntegers(inc, owners, source, distinct, targets);
    byKey, refused := MapByInteger(inc, targets);
    if refused {
      RepeatIsDrift(inc, owners, source, arity, distinct, xs);
      return;
    }
    for i := 0 to |owners|
      invariant |navs| == i && forall k :: 0 <= k < i ==> Fills(inc, owners[k], navs[k]) && Holds(navs[k], xs)
    {
      SingleFills(inc, owners, source, arity, distinct, xs, owners[i]);
      EntryIsSingle(inc, byKey, targets, owners[i]);
      var read := ReadInteger(inc.ownerTuple(owners[i]));
      var nav := One(if read.Some? then Entry(byKey, read.value) else None);
      assert nav == SingleFor(inc, targets, owners[i]);
      navs := navs + [nav];
    }
  }

  // --- many-to-many -----------------------------------------------------------------------------------------------

  /** The link table's answer to a list of owner keys: its rows that match one, in no promised order. */
  ghost predicate LinksAnswer(inc: Include, linkQuery: seq<Key> -> seq<Row>) {
    inc.Linked? && forall chunk, l :: l in linkQuery(chunk) <==> l in inc.links && inc.linkOwner(l) in chunk
  }

  /** The target table, matched by key. */
  ghost predicate TargetsByKey(inc: Include, source: Source, arity: nat) {
    && inc.Linked? && Stored(inc, arity) && Answers(source, arity)
    && source.rows == inc.targets && forall r: Row :: source.tuple(r) == r.key
  }

  /** What the owners' query, projected to their keys, selects of the link table. */
  ghost predicate LinksOf(inc: Include, owners: seq<Row>, fetch: Fetch) {
    fetch.SubSelect? && inc.Linked? ==>
      forall l :: l in fetch.answer <==> l in inc.links && Wanted(inc, owners, inc.linkOwner(l))
  }

  /** The link rows of the owners, in one query or chunk by chunk. */
  method QueryLinks(inc: Include, linkQuery: seq<Key> -> seq<Row>, tuples: seq<Key>, fetch: Fetch, size: nat,
      ghost wanted: seq<Key>) returns (rows: seq<Row>)
    requires LinksAnswer(inc, linkQuery) && size > 0
    requires if fetch.MultiQuery? then tuples == wanted
             else forall l :: l in fetch.answer <==> l in inc.links && inc.linkOwner(l) in wanted
    ensures forall l :: l in rows <==> l in inc.links && inc.linkOwner(l) in wanted
  {
    if fetch.SubSelect? {
      return fetch.answer;
    }
    rows := [];
    var from := 0;
    while from < |tuples|
      invariant from <= |tuples|
      invariant forall l :: l in rows <==> l in inc.links && inc.linkOwner(l) in tuples[..from]
      decreases |tuples| - from
    {
      var to := if from + size < |tuples| then from + size else |tuples|;
      var chunk := tuples[from..to];
      assert tuples[..to] == tuples[..from] + chunk;
      rows := rows + linkQuery(chunk);
      from := to;
    }
    assert tuples[..from] == tuples;
  }

  /** The target keys one owner's link rows name. */
  type Groups = map<Key, seq<Key>>

  function TargetsOf(groups: Groups, owner: Key): seq<Key> {
    if owner in groups then groups[owner] else []
  }

  predicate Links(inc: Include, l: Row, owner: Key, target: Key)
    requires inc.Linked?
  {
    inc.linkOwner(l) == owner && inc.linkTarget(l) == target && !HasNull(owner) && !HasNull(target)
  }

  ghost predicate GroupsOf(inc: Include, rows: seq<Row>, groups: Groups, all: seq<Key>)
    requires inc.Linked?
  {
    && (forall o, t :: t in TargetsOf(groups, o) <==> exists l :: l in rows && Links(inc, l, o, t))
    && (forall t :: t in all <==> exists o, l :: l in rows && Links(inc, l, o, t))
  }

  lemma GroupStep(inc: Include, rows: seq<Row>, groups: Groups, all: seq<Key>, l: Row)
    requires inc.Linked? && GroupsOf(inc, rows, groups, all)
    ensures var o, t := inc.linkOwner(l), inc.linkTarget(l);
            if HasNull(o) || HasNull(t) then GroupsOf(inc, rows + [l], groups, all)
            else GroupsOf(inc, rows + [l],
                          groups[o := if t in TargetsOf(groups, o) then TargetsOf(groups, o)
                                   else TargetsOf(groups, o) + [t]], all + [t])
  {
    var o, t := inc.linkOwner(l), inc.linkTarget(l);
    var after := rows + [l];
    var next := if HasNull(o) || HasNull(t) then groups
                else groups[o := if t in TargetsOf(groups, o) then TargetsOf(groups, o)
                              else TargetsOf(groups, o) + [t]];
    var more := if HasNull(o) || HasNull(t) then all else all + [t];
    forall p, u
      ensures u in TargetsOf(next, p) <==> exists m :: m in after && Links(inc, m, p, u)
    {
      assert u in TargetsOf(groups, p) <==> exists m :: m in rows && Links(inc, m, p, u);
      assert u in TargetsOf(next, p) <==> u in TargetsOf(groups, p) || Links(inc, l, p, u);
      if m :| m in rows && Links(inc, m, p, u) {
        assert m in after;
      }
      if Links(inc, l, p, u) {
        assert l in after;
      }
    }
    forall u
      ensures u in more <==> exists p, m :: m in after && Links(inc, m, p, u)
    {
      if p, m :| m in rows && Links(inc, m, p, u) {
        assert m in after;
      }
      if Links(inc, l, o, u) {
        assert l in after;
      }
    }
  }

  /** Link rows turned into each owner's target keys and all of them; a null on either side correlates nothing. */
  method GroupLinkRows(inc: Include, rows: seq<Row>) returns (groups: Groups, distinct: seq<Key>)
    requires inc.Linked?
    ensures NoRepeat(distinct) && GroupsOf(inc, rows, groups, distinct)
  {
    groups := map[];
    var all: seq<Key> := [];
    for i := 0 to |rows|
      invariant GroupsOf(inc, rows[..i], groups, all)
    {
      var l := rows[i];
      assert rows[..i + 1] == rows[..i] + [l];
      GroupStep(inc, rows[..i], groups, all, l);
      var owner, target := inc.linkOwner(l), inc.linkTarget(l);
      if !HasNull(owner) && !HasNull(target) {
        groups := groups[owner := if target in TargetsOf(groups, owner) then TargetsOf(groups, owner)
                           else TargetsOf(groups, owner) + [target]];
        all := all + [target];
      }
    }
    assert rows[..|rows|] == rows;
    distinct := DistinctTuples(all);
  }

  /** The owner's linked targets out of the fetched ones. */
  function LinkedFor(groups: Groups, xs: seq<Instance>, owner: Row): Nav {
    Many(if HasNull(owner.key) then [] else Those(xs, (t: Row) => t.key in TargetsOf(groups, owner.key)))
  }

  lemma LinkedFills(inc: Include, owners: seq<Row>, source: Source, arity: nat, tuples: seq<Key>, rows: seq<Row>,
    groups: Groups, distinct: seq<Key>, xs: seq<Instance>, owner: Row)
    requires TargetsByKey(inc, source, arity) && TuplesOf(inc, owners, tuples) && owner in owners
    requires forall l :: l in rows <==> l in inc.links && inc.linkOwner(l) in tuples
    requires GroupsOf(inc, rows, groups, distinct) && Fetched(source, distinct, xs) && InOrder(xs)
    ensures Fills(inc, owner, LinkedFor(groups, xs, owner)) && Holds(LinkedFor(groups, xs, owner), xs)
  {
    var test := (t: Row) => t.key in TargetsOf(groups, owner.key);
    forall t
      ensures Target(inc, owner, t) <==> !HasNull(owner.key) && t in Rows(xs) && test(t)
    {
      if Target(inc, owner, t) {
        var l :| l in inc.links && SameTuple(owner.key, inc.linkOwner(l)) && SameTuple(inc.linkTarget(l), t.key);
        assert OwnerTuple(inc, owner) == owner.key;
        assert l in rows && Links(inc, l, owner.key, t.key);
      }
      if !HasNull(owner.key) && t in Rows(xs) && test(t) {
        var l :| l in rows && Links(inc, l, owner.key, t.key);
        assert l in inc.links && SameTuple(owner.key, inc.linkOwner(l)) && SameTuple(inc.linkTarget(l), t.key);
      }
    }
    if !HasNull(owner.key) {
      ThoseCollect(inc, owner, xs, test);
    }
  }

  /** Two hops: the owners' link rows, in either mode, then by key lists the targets those name. */
  method LoadManyToMany(inc: Include, owners: seq<Row>, linkQuery: seq<Key> -> seq<Row>, source: Source, fetch: Fetch,
      size: nat, ghost arity: nat)
    returns (navs: seq<Nav>, ghost xs: seq<Instance>)
    requires LinksAnswer(inc, linkQuery) && TargetsByKey(inc, source, arity) && LinksOf(inc, owners, fetch) && size > 0
    ensures Filled(inc, owners, navs, xs)
  {
    var keys, tuples, wanted := Correlate(owners, (r: Row) => r.key, fetch.MultiQuery?);
    CorrelatedTuples(inc, owners, keys, wanted);
    assert forall tuple :: Wanted(inc, owners, tuple) <==> tuple in wanted;
    var rows := QueryLinks(inc, linkQuery, tuples, fetch, size, wanted);
    var groups, distinct := GroupLinkRows(inc, rows);
    var targets := QueryMembership(source, distinct, MultiQuery, size, distinct, arity);
    xs := targets;
    navs := [];
    for i := 0 to |owners|
      invariant |navs| == i && forall k :: 0 <= k < i ==> Fills(inc, owners[k], navs[k]) && Holds(navs[k], xs)
    {
      LinkedFills(inc, owners, source, arity, wanted, rows, groups, distinct, xs, owners[i]);
      navs := navs + [LinkedFor(groups, targets, owners[i])];
    }
  }

  // --- every include in turn ------------------------------------------------------------------------------------

  /** What an include is loaded from, and whether its keys take the integer path. */
  datatype Tables = Tables(targets: Source, linkQuery: seq<Key> -> seq<Row>, integer: bool)

  ghost predicate Serves(inc: Include, tables: Tables, owners: seq<Row>, arity: nat) {
    if inc.Direct? then SourceOf(inc, tables.targets, arity) && (tables.integer ==> IntegerKeys(inc, owners))
    else LinksAnswer(inc, tables.linkQuery) && TargetsByKey(inc, tables.targets, arity)
  }

  /** The answer of an include's one query, where the mode is that. */
  ghost predicate AnsweredBy(inc: Include, tables: Tables, owners: seq<Row>, fetch: Fetch) {
    if inc.Direct? then SelectsOf(inc, owners, tables.targets, fetch) else LinksOf(inc, owners, fetch)
  }

  /** One include's navigation of every owner. */
  method LoadNavigation(inc: Include, tables: Tables, owners: seq<Row>, fetch: Fetch, size: nat, ghost arity: nat)
    returns (refused: bool, navs: seq<Nav>, ghost xs: seq<Instance>)
    requires Serves(inc, tables, owners, arity) && AnsweredBy(inc, tables, owners, fetch) && size > 0
    ensures refused ==> !IsCollection(inc) && exists o :: o in owners && Ambiguous(inc, o)
    ensures !refused ==> Filled(inc, owners, navs, xs)
  {
    refused := false;
    if inc.Linked? {
      navs, xs := LoadManyToMany(inc, owners, tables.linkQuery, tables.targets, fetch, size, arity);
    } else if IsCollection(inc) {
      if tables.integer {
        navs, xs := LoadOneToManyByInteger(inc, owners, tables.targets, fetch, size, arity);
      } else {
        navs, xs := LoadOneToMany(inc, owners, tables.targets, fetch, size, arity);
      }
    } else if tables.integer {
      refused, navs, xs := LoadToOneByInteger(inc, owners, tables.targets, fetch, size, arity);
    } else {
      refused, navs, xs := LoadToOne(inc, owners, tables.targets, fetch, size, arity);
    }
  }

  function Across(columns: seq<seq<Nav>>, k: nat): (navs: seq<Nav>)
    requires forall i :: 0 <= i < |columns| ==> k < |columns[i]|
    ensures |navs| == |columns| && forall i :: 0 <= i < |columns| ==> navs[i] == columns[i][k]
  {
    seq(|columns|, i requires 0 <= i < |columns| => columns[i][k])
  }

  lemma HeldIsShared(a: Nav, b: Nav, xs: seq<Instance>)
    requires OnePerKey(xs) && Holds(a, xs) && Holds(b, xs)
    ensures SharesWith(Targets(a), Targets(b))
  {
  }

  lemma ColumnsMeet(includes: seq<Include>, owners: seq<Row>, columns: seq<seq<Nav>>, xss: seq<seq<Instance>>,
      loaded: seq<Loaded>)
    requires |columns| == |xss| == |includes| &&
             forall i :: 0 <= i < |includes| ==> Filled(includes[i], owners, columns[i], xss[i])
    requires |loaded| == |owners| && forall i :: 0 <= i < |columns| ==> |columns[i]| == |owners|
    requires forall k :: 0 <= k < |owners| ==> loaded[k] == Loaded(owners[k], Across(columns, k))
    ensures Meets(includes, owners, Graph(loaded))
  {
    forall i | 0 <= i < |includes|
      ensures Shares(loaded, i)
    {
      forall a, b | 0 <= a < |loaded| && 0 <= b < |loaded|
        ensures SharesWith(Targets(loaded[a].navs[i]), Targets(loaded[b].navs[i]))
      {
        assert loaded[a] == Loaded(owners[a], Across(columns, a)) && loaded[b] == Loaded(owners[b], Across(columns, b));
        HeldIsShared(columns[i][a], columns[i][b], xss[i]);
      }
    }
    forall k, i | 0 <= k < |owners| && 0 <= i < |includes|
      ensures Fills(includes[i], owners[k], loaded[k].navs[i])
    {
      assert loaded[k] == Loaded(owners[k], Across(columns, k));
    }
  }

  /** MultiQuery and SubSelect: the same definition, for any chunk size and on either key path. */
  method LoadByQueries(includes: seq<Include>, tables: seq<Tables>, roots: seq<Row>, fetches: seq<Fetch>, size: nat,
      ghost arities: seq<nat>)
    returns (out: Outcome)
    requires |tables| == |arities| == |fetches| == |includes| && size > 0
    requires forall i :: 0 <= i < |includes| ==> AnsweredBy(includes[i], tables[i], roots, fetches[i])
    requires forall i :: 0 <= i < |includes| ==> Serves(includes[i], tables[i], roots, arities[i])
    ensures Meets(includes, roots, out)
  {
    var columns: seq<seq<Nav>> := [];
    ghost var xss: seq<seq<Instance>> := [];
    for i := 0 to |includes|
      invariant |columns| == |xss| == i
      invariant forall j :: 0 <= j < i ==> Filled(includes[j], roots, columns[j], xss[j])
    {
      var refused, navs, xs := LoadNavigation(includes[i], tables[i], roots, fetches[i], size, arities[i]);
      if refused {
        return Refused;
      }
      columns, xss := columns + [navs], xss + [xs];
    }
    var loaded := seq(|roots|, k requires 0 <= k < |roots| &&
                      (forall i :: 0 <= i < |columns| ==> k < |columns[i]|) => Loaded(roots[k], Across(columns, k)));
    ColumnsMeet(includes, roots, columns, xss, loaded);
    out := Graph(loaded);
  }
}
