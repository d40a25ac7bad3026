/** The key-tiebroken ordering of a paged root: whichever evaluation sorts it, the page is the same. */
module Paging {
  import opened Values
  import opened Rendering

  /** Whether two property names are equal ignoring case. */
  type Fold = nat -> nat

  predicate Present(fold: Fold, orderings: seq<Ordering>, key: nat) {
    exists i :: 0 <= i < |orderings| && fold(orderings[i].property) == fold(key)
  }

  /** The orderings, then every key property not yet named, ascending, in key order. */
  function Tiebroken(fold: Fold, keys: seq<nat>, orderings: seq<Ordering>): seq<Ordering> {
    if keys == [] then orderings
    else
      var before := Tiebroken(fold, keys[..|keys| - 1], orderings);
      before + (if Present(fold, before, keys[|keys| - 1]) then [] else [Ordering(keys[|keys| - 1], false)])
  }

  /** They name every key, keep what they were given in front, and add keys only, each unnamed before. */
  lemma {:induction false} TiebrokenNames(fold: Fold, keys: seq<nat>, orderings: seq<Ordering>)
    ensures var result := Tiebroken(fold, keys, orderings);
            && orderings <= result && (forall k :: k in keys ==> Present(fold, result, k))
            && (forall i :: |orderings| <= i < |result| ==>
                  result[i].property in keys && !result[i].descending && !Present(fold, orderings, result[i].property))
  {
    if keys != [] {
      var front, last := keys[..|keys| - 1], keys[|keys| - 1];
      var before, result := Tiebroken(fold, front, orderings), Tiebroken(fold, keys, orderings);
      TiebrokenNames(fold, front, orderings);
      forall k | k in keys
        ensures Present(fold, result, k)
      {
        if Present(fold, before, k) {
          var i :| 0 <= i < |before| && fold(before[i].property) == fold(k);
          assert result[i] == before[i];
        } else {
          assert k in front || k == last;
          assert result[|before|].property == last;
        }
      }
      if Present(fold, orderings, last) {
        var i :| 0 <= i < |orderings| && fold(orderings[i].property) == fold(last);
        assert before[i] == orderings[i];
      }
    }
  }

  /** Appends every key property the orderings do not already name, ascending, in key order. */
  method KeyTiebroken(fold: Fold, keys: seq<nat>, orderings: seq<Ordering>) returns (result: seq<Ordering>)
    ensures result == Tiebroken(fold, keys, orderings)
  {
    result := orderings;
    for k := 0 to |keys|
      invariant result == Tiebroken(fold, keys[..k], orderings)
    {
      assert keys[..k + 1][..k] == keys[..k];
      var present := false;
      for i := 0 to |result|
        invariant present <==> exists j :: 0 <= j < i && fold(result[j].property) == fold(keys[k])
      {
        if fold(result[i].property) == fold(keys[k]) {
          present := true;
        }
      }
      if !present {
        result := result + [Ordering(keys[k], false)];
      }
    }
    assert keys[..|keys|] == keys;
  }

  // --- the order it sorts by ------------------------------------------------------------------------------

  function CompareBy(orderings: seq<Ordering>, a: DbRow, b: DbRow): int
    decreases |orderings|
  {
    if orderings == [] then 0
    else
      var o := orderings[0];
      var c := CompareVal(Cell(a, o.property), Cell(b, o.property));
      if c != 0 then (if o.descending then -c else c) else CompareBy(orderings[1..], a, b)
  }

  ghost predicate SortedBy(orderings: seq<Ordering>, rows: seq<DbRow>) {
    forall i, j :: 0 <= i < j < |rows| ==> CompareBy(orderings, rows[i], rows[j]) <= 0
  }

  /** The key columns tell rows apart. */
  ghost predicate UniqueKeys(keys: seq<nat>, rows: seq<DbRow>) {
    forall a, b :: a in rows && b in rows && (forall k :: k in keys ==> Cell(a, k) == Cell(b, k)) ==> a == b
  }

  ghost predicate Repeatless(rows: seq<DbRow>) {
    forall i, j :: 0 <= i < j < |rows| ==> rows[i] != rows[j]
  }

  lemma {:induction false} ZeroIsTie(orderings: seq<Ordering>, a: DbRow, b: DbRow)
    ensures CompareBy(orderings, a, b) == 0 <==> forall i :: 0 <= i < |orderings| ==>
              Cell(a, orderings[i].property) == Cell(b, orderings[i].property)
    ensures CompareBy(orderings, a, b) == -CompareBy(orderings, b, a)
    decreases |orderings|
  {
    if orderings != [] {
      var o := orderings[0];
      CompareValIsTotalOrder(Cell(a, o.property), Cell(b, o.property), Cell(b, o.property));
      ZeroIsTie(orderings[1..], a, b);
      assert forall i :: 0 < i < |orderings| ==> orderings[i] == orderings[1..][i - 1];
    }
  }

  /** The first ordering that tells two rows apart decides, upwards or, where it descends, downwards. */
  ghost predicate DecidedAt(orderings: seq<Ordering>, a: DbRow, b: DbRow, i: nat) {
    && i < |orderings|
    && (forall j :: 0 <= j < i ==> Cell(a, orderings[j].property) == Cell(b, orderings[j].property))
    && var here, there := Cell(a, orderings[i].property), Cell(b, orderings[i].property);
       if orderings[i].descending then CompareVal(there, here) < 0 else CompareVal(here, there) < 0
  }

  lemma {:induction false} FirstTellingDecides(orderings: seq<Ordering>, a: DbRow, b: DbRow)
    ensures CompareBy(orderings, a, b) < 0 <==> exists i: nat :: DecidedAt(orderings, a, b, i)
    decreases |orderings|
  {
    if orderings != [] {
      var rest, p := orderings[1..], orderings[0].property;
      CompareValIsTotalOrder(Cell(a, p), Cell(b, p), Cell(b, p));
      FirstTellingDecides(rest, a, b);
      if i: nat :| DecidedAt(rest, a, b, i) && Cell(a, p) == Cell(b, p) {
        assert DecidedAt(orderings, a, b, i + 1);
      }
      if i: nat :| DecidedAt(orderings, a, b, i) {
        if i > 0 {
          assert Cell(a, orderings[0].property) == Cell(b, orderings[0].property);
          assert DecidedAt(rest, a, b, i - 1);
        }
      }
      if Cell(a, p) != Cell(b, p) && CompareBy(orderings, a, b) < 0 {
        assert DecidedAt(orderings, a, b, 0);
      }
    }
  }

  /** The property itself is among the orderings. */
  predicate Lists(orderings: seq<Ordering>, property: nat) {
    exists i :: 0 <= i < |orderings| && orderings[i].property == property
  }

  predicate ListsAll(orderings: seq<Ordering>, keys: seq<nat>) {
    forall k :: k in keys ==> Lists(orderings, k)
  }

  /** Ordered by the whole key, only a row itself ties. */
  lemma TieBrokenTells(keys: seq<nat>, orderings: seq<Ordering>, rows: seq<DbRow>, a: DbRow, b: DbRow)
    requires ListsAll(orderings, keys) && UniqueKeys(keys, rows) && a in rows && b in rows
    ensures CompareBy(orderings, a, b) == 0 ==> a == b
    ensures CompareBy(orderings, a, b) == -CompareBy(orderings, b, a)
  {
    ZeroIsTie(orderings, a, b);
    if CompareBy(orderings, a, b) == 0 {
      forall k | k in keys
        ensures Cell(a, k) == Cell(b, k)
      {
        var i :| 0 <= i < |orderings| && orderings[i].property == k;
      }
    }
  }

  /** Two evaluations of the same rows, which their complete keys tell apart, both in the given order. */
  ghost predicate Evaluations(keys: seq<nat>, orderings: seq<Ordering>, a: seq<DbRow>, b: seq<DbRow>) {
    && SortedBy(orderings, a) && SortedBy(orderings, b) && SameRows(a, b) && Repeatless(a) && Repeatless(b)
    && UniqueKeys(keys, a) && forall r, k :: r in a && k in keys ==> Cell(r, k) != Null
  }

  /** Two sorted evaluations of the same rows are one list. */
  lemma {:induction false} SortedIsUnique(keys: seq<nat>, orderings: seq<Ordering>, a: seq<DbRow>, b: seq<DbRow>)
    requires ListsAll(orderings, keys) && Evaluations(keys, orderings, a, b)
    ensures a == b
  {
    FirstIsThere(a, b);
    FirstIsThere(b, a);
    if a != [] && b != [] {
      var i :| 0 <= i < |b| && b[i] == a[0];
      var j :| 0 <= j < |a| && a[j] == b[0];
      TieBrokenTells(keys, orderings, a, a[0], b[0]);
      FirstIsLeast(orderings, b, i);
      FirstIsLeast(orderings, a, j);
      RestIsSame(a, b);
      SortedIsUnique(keys, orderings, a[1..], b[1..]);
      assert a == [a[0]] + a[1..] && b == [b[0]] + b[1..];
    }
  }

  lemma FirstIsLeast(orderings: seq<Ordering>, rows: seq<DbRow>, i: nat)
    requires SortedBy(orderings, rows) && i < |rows|
    ensures CompareBy(orderings, rows[0], rows[i]) <= 0
  {
    ZeroIsTie(orderings, rows[0], rows[0]);
  }

  lemma FirstIsThere(a: seq<DbRow>, b: seq<DbRow>)
    requires SameRows(a, b)
    ensures a != [] ==> a[0] in b
  {
  }

  lemma RestIsSame(a: seq<DbRow>, b: seq<DbRow>)
    requires a != [] && b != [] && a[0] == b[0] && SameRows(a, b) && Repeatless(a) && Repeatless(b)
    ensures SameRows(a[1..], b[1..]) && forall r :: r in a[1..] ==> r in a
  {
    TailHas(a);
    TailHas(b);
  }

  lemma TailHas(a: seq<DbRow>)
    requires a != [] && Repeatless(a)
    ensures forall r :: r in a[1..] <==> r in a && r != a[0]
  {
    forall r | r in a && r != a[0]
      ensures r in a[1..]
    {
      var i :| 0 <= i < |a| && a[i] == r;
      assert a[1..][i - 1] == r;
    }
  }

  lemma {:induction false} RowEqualsMeans(row: DbRow, columns: seq<nat>, other: DbRow)
    ensures RowEquals(row, columns, other) == True <==>
            forall n :: 0 <= n < |columns| ==> Cell(other, n) != Null && Cell(row, columns[n]) == Cell(other, n)
    decreases |columns|
  {
    if columns != [] {
      RowEqualsMeans(row, columns[..|columns| - 1], other);
    }
  }

  lemma PageIsOfRows(rows: seq<DbRow>, limit: Option<int>, offset: Option<int>)
    ensures forall r :: r in Page(rows, limit, offset) ==> r in rows
  {
  }

  /** Of two rows with complete keys: the owner equals the other's projected key exactly when they are one row. */
  lemma ProjectedKeyTells(keys: seq<nat>, rows: seq<DbRow>, page: seq<DbRow>, i: nat, owner: DbRow)
    requires UniqueKeys(keys, rows) && owner in rows && i < |page| && page[i] in rows
    requires forall r, k :: r in rows && k in keys ==> Cell(r, k) != Null
    ensures RowEquals(owner, keys, Projection(page, keys)[i]) == True <==> owner == page[i]
  {
    RowEqualsMeans(owner, keys, Projection(page, keys)[i]);
    forall n | 0 <= n < |keys|
      ensures Cell(Projection(page, keys)[i], n) == Cell(page[i], keys[n]) && keys[n] in keys
    {
    }
  }

  /** A membership in a page of projected keys selects the page's rows. */
  lemma PageSelects(keys: seq<nat>, rows: seq<DbRow>, limit: Option<int>, offset: Option<int>, owner: DbRow)
    requires UniqueKeys(keys, rows) && owner in rows
    requires forall r, k :: r in rows && k in keys ==> Cell(r, k) != Null
    ensures AnyEquals(owner, keys, Projection(Page(rows, limit, offset), keys)) == True <==>
              owner in Page(rows, limit, offset)
  {
    var page := Page(rows, limit, offset);
    var projected := Projection(page, keys);
    PageIsOfRows(rows, limit, offset);
    AnyEqualsMeans(owner, keys, projected);
    forall i | 0 <= i < |page|
      ensures RowEquals(owner, keys, projected[i]) == True <==> owner == page[i]
    {
      assert page[i] in page;
      ProjectedKeyTells(keys, rows, page, i, owner);
    }
  }

  // --- when every key is listed -----------------------------------------------------------------------------

  /** Each key is ordered by already, or no ordering and no other key before it has its name ignoring case. */
  ghost predicate Apart(fold: Fold, keys: seq<nat>, orderings: seq<Ordering>, i: nat)
    requires i < |keys|
  {
    || Lists(orderings, keys[i])
    || (&& !Present(fold, orderings, keys[i])
        && forall j :: 0 <= j < i && fold(keys[j]) == fold(keys[i]) ==> keys[j] == keys[i])
  }

  ghost predicate ToldApart(fold: Fold, keys: seq<nat>, orderings: seq<Ordering>) {
    forall i :: 0 <= i < |keys| ==> Apart(fold, keys, orderings, i)
  }

  lemma ToldApartSplits(fold: Fold, front: seq<nat>, last: nat, orderings: seq<Ordering>)
    ensures ToldApart(fold, front + [last], orderings) <==>
            ToldApart(fold, front, orderings) && Apart(fold, front + [last], orderings, |front|)
  {
    var keys := front + [last];
    forall i | 0 <= i < |front|
      ensures Apart(fold, keys, orderings, i) <==> Apart(fold, front, orderings, i)
    {
      assert forall j :: 0 <= j <= i ==> keys[j] == front[j];
    }
    if ToldApart(fold, keys, orderings) {
      forall i | 0 <= i < |front|
        ensures Apart(fold, front, orderings, i)
      {
        assert Apart(fold, keys, orderings, i);
      }
    }
  }

  lemma TiebrokenSplits(fold: Fold, keys: seq<nat>, orderings: seq<Ordering>, key: nat)
    ensures Lists(orderings, key) ==> Lists(Tiebroken(fold, keys, orderings), key)
    ensures Lists(Tiebroken(fold, keys, orderings), key) ==> Lists(orderings, key) || key in keys
    ensures Present(fold, orderings, key) ==> Present(fold, Tiebroken(fold, keys, orderings), key)
    ensures Present(fold, Tiebroken(fold, keys, orderings), key) ==>
              Present(fold, orderings, key) || exists j :: 0 <= j < |keys| && fold(keys[j]) == fold(key)
    ensures key in keys ==> Present(fold, Tiebroken(fold, keys, orderings), key)
  {
    TiebrokenNames(fold, keys, orderings);
    var result := Tiebroken(fold, keys, orderings);
    if Lists(orderings, key) {
      var i :| 0 <= i < |orderings| && orderings[i].property == key;
      assert result[i].property == key;
    }
    if Present(fold, orderings, key) {
      var i :| 0 <= i < |orderings| && fold(orderings[i].property) == fold(key);
      assert fold(result[i].property) == fold(key);
    }
    if Present(fold, result, key) {
      var i :| 0 <= i < |result| && fold(result[i].property) == fold(key);
      if i < |orderings| {
        assert fold(orderings[i].property) == fold(key);
      } else {
        var j :| 0 <= j < |keys| && keys[j] == result[i].property;
      }
    }
  }

  /** The last key, whose name is taken, is listed exactly when it is an ordering or a key before it. */
  lemma LastIsListedIff(fold: Fold, front: seq<nat>, last: nat, orderings: seq<Ordering>)
    requires ToldApart(fold, front, orderings) && ListsAll(Tiebroken(fold, front, orderings), front)
    requires Present(fold, Tiebroken(fold, front, orderings), last)
    ensures Lists(Tiebroken(fold, front, orderings), last) <==> Apart(fold, front + [last], orderings, |front|)
  {
    var keys := front + [last];
    assert keys[|front|] == last && forall j :: 0 <= j < |front| ==> keys[j] == front[j];
    TiebrokenSplits(fold, front, orderings, last);
    if Lists(Tiebroken(fold, front, orderings), last) && !Lists(orderings, last) {
      var i :| 0 <= i < |front| && front[i] == last;
      forall j | 0 <= j < |front| && fold(front[j]) == fold(last)
        ensures front[j] == last
      {
        assert Apart(fold, front, orderings, i) && Apart(fold, front, orderings, j);
        ListsIsPresent(fold, orderings, front[j], last);
      }
    }
    if Apart(fold, keys, orderings, |front|) && !Lists(orderings, last) {
      var j :| 0 <= j < |front| && fold(front[j]) == fold(last);
      assert keys[j] == front[j] && front[j] in front && Lists(Tiebroken(fold, front, orderings), front[j]);
    }
  }

  lemma ListsIsPresent(fold: Fold, orderings: seq<Ordering>, listed: nat, key: nat)
    ensures Lists(orderings, listed) && fold(listed) == fold(key) ==> Present(fold, orderings, key)
  {
    if Lists(orderings, listed) && fold(listed) == fold(key) {
      var n :| 0 <= n < |orderings| && orderings[n].property == listed;
      assert fold(orderings[n].property) == fold(key);
    }
  }

  /** Every key is listed exactly when it is told apart from what stands before it. */
  lemma {:induction false} TiebrokenListsIff(fold: Fold, keys: seq<nat>, orderings: seq<Ordering>)
    ensures ListsAll(Tiebroken(fold, keys, orderings), keys) <==> ToldApart(fold, keys, orderings)
  {
    if keys != [] {
      var front, last := keys[..|keys| - 1], keys[|keys| - 1];
      var before, result := Tiebroken(fold, front, orderings), Tiebroken(fold, keys, orderings);
      assert keys == front + [last] && forall k :: k in keys <==> k in front || k == last;
      TiebrokenListsIff(fold, front, orderings);
      LastIsAdded(fold, front, last, orderings);
      ToldApartSplits(fold, front, last, orderings);
      assert result == if Present(fold, before, last) then before else before + [Ordering(last, false)];
      if Present(fold, before, last) && ToldApart(fold, front, orderings) {
        LastIsListedIff(fold, front, last, orderings);
      }
    }
  }

  /** A last key whose name is free is added and changes nothing else. */
  lemma LastIsAdded(fold: Fold, front: seq<nat>, last: nat, orderings: seq<Ordering>)
    ensures var before, keys := Tiebroken(fold, front, orderings), front + [last];
            !Present(fold, before, last) ==>
              && (ListsAll(before + [Ordering(last, false)], keys) <==> ListsAll(before, front))
              && Apart(fold, keys, orderings, |front|)
  {
    var before, keys := Tiebroken(fold, front, orderings), front + [last];
    var result := before + [Ordering(last, false)];
    TiebrokenSplits(fold, front, orderings, last);
    if !Present(fold, before, last) {
      forall k | k in front
        ensures Lists(result, k) <==> Lists(before, k)
      {
        TiebrokenSplits(fold, front, orderings, k);
        assert forall i :: 0 <= i < |before| ==> result[i] == before[i];
      }
      assert result[|before|].property == last;
      forall j | 0 <= j < |front|
        ensures fold(front[j]) != fold(last)
      {
        TiebrokenSplits(fold, front, orderings, front[j]);
      }
      assert forall k :: k in keys <==> k in front || k == last;
    }
  }

  /** Without a key among the orderings, two rows that differ in it alone stand in either order. */
  lemma UnlistedKeyTies(width: nat, keys: seq<nat>, orderings: seq<Ordering>, key: nat) returns (a: DbRow, b: DbRow)
    requires (forall k :: k in keys ==> k < width) && key in keys && !Lists(orderings, key)
    ensures a != b && |a| == |b| == width
    ensures Evaluations(keys, orderings, [a, b], [b, a])
  {
    a := seq(width, i => Num(0));
    b := a[key := Num(1)];
    ZeroIsTie(orderings, a, b);
    ZeroIsTie(orderings, b, a);
    assert Cell(a, key) != Cell(b, key);
  }

  /**
   Sorting by the key-tiebroken orderings is deterministic, two evaluations of any rows being one list, exactly
   when each key is told apart ignoring case from what stands before it.
   */
  lemma DeterministicIff(fold: Fold, width: nat, keys: seq<nat>, orderings: seq<Ordering>)
    requires forall k :: k in keys ==> k < width
    ensures ToldApart(fold, keys, orderings) <==>
            forall a, b :: Evaluations(keys, Tiebroken(fold, keys, orderings), a, b) && OfWidth(width, a) ==> a == b
  {
    TiebrokenListsIff(fold, keys, orderings);
    var result := Tiebroken(fold, keys, orderings);
    if ListsAll(result, keys) {
      forall a, b | Evaluations(keys, result, a, b)
        ensures a == b
      {
        SortedIsUnique(keys, result, a, b);
      }
    } else {
      var key :| key in keys && !Lists(result, key);
      var a, b := UnlistedKeyTies(width, keys, result, key);
      assert OfWidth(width, [a, b]) && [a, b][0] != [b, a][0];
    }
  }

  ghost predicate OfWidth(width: nat, rows: seq<DbRow>) {
    forall r :: r in rows ==> |r| == width
  }

  /**
   A paged root, sorted by its key-tiebroken orderings for its rows and again inside each navigation's
   subquery, picks one page both times: the subquery selects exactly the owners returned.
   */
  lemma PagesAgree(fold: Fold, keys: seq<nat>, orderings: seq<Ordering>, a: seq<DbRow>, b: seq<DbRow>,
                   limit: Option<int>, offset: Option<int>, owner: DbRow)
    requires ToldApart(fold, keys, orderings) && Evaluations(keys, Tiebroken(fold, keys, orderings), a, b)
    requires owner in a
    ensures Page(a, limit, offset) == Page(b, limit, offset)
    ensures AnyEquals(owner, keys, Projection(Page(b, limit, offset), keys)) == True <==>
              owner in Page(a, limit, offset)
  {
    TiebrokenListsIff(fold, keys, orderings);
    SortedIsUnique(keys, Tiebroken(fold, keys, orderings), a, b);
    PageSelects(keys, a, limit, offset, owner);
  }

  lemma SecondColumnTies(a: Val, b: Val, c: Val)
    requires b != c && b != Null && c != Null
    ensures Evaluations([1], [Ordering(0, false)], [[a, b], [a, c]], [[a, c], [a, b]])
  {
    ZeroIsTie([Ordering(0, false)], [a, b], [a, c]);
    assert 1 in [1] && Cell([a, b], 1) != Cell([a, c], 1);
  }

  /** With two names equal ignoring case, a key goes unlisted: rows of different keys tie, and either may come first. */
  lemma FoldedNamesTie()
    ensures var fold: Fold := (_: nat) => 0;
            var orderings := [Ordering(0, false)];
            var a, b := [Num(5), Num(1)], [Num(5), Num(2)];
            && Tiebroken(fold, [1], orderings) == orderings && !ToldApart(fold, [1], orderings)
            && Evaluations([1], orderings, [a, b], [b, a])
  {
    var fold: Fold := (_: nat) => 0;
    var orderings := [Ordering(0, false)];
    assert fold(orderings[0].property) == fold(1);
    assert Tiebroken(fold, [], orderings) == orderings && [1][..0] == [];
    assert Present(fold, orderings, [1][0]) && !Apart(fold, [1], orderings, 0);
    SecondColumnTies(Num(5), Num(1), Num(2));
  }
}
