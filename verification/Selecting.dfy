/**
 What a criteria tree selects, said without SQL, and that every rendering says the same: the truth of a tree on a
 row, the rows of a select, the values it binds, and the first thing wrong with it.
 */
module Selecting {
  import opened Values
  import opened Rendering

  // --- truth ----------------------------------------------------------------------------------------

  /** Part by part against another row: one part unequal is false, else one part null is unknown. */
  ghost function Alike(row: DbRow, properties: seq<nat>, other: DbRow): Truth {
    if exists k :: 0 <= k < |properties| && Cell(row, properties[k]) != Null && Cell(other, k) != Null &&
                   Cell(row, properties[k]) != Cell(other, k) then False
    else if exists k :: 0 <= k < |properties| && (Cell(row, properties[k]) == Null || Cell(other, k) == Null)
    then Unknown
    else True
  }

  ghost function Among(row: DbRow, properties: seq<nat>, others: seq<DbRow>): Truth {
    if exists i :: 0 <= i < |others| && Alike(row, properties, others[i]) == True then True
    else if exists i :: 0 <= i < |others| && Alike(row, properties, others[i]) == Unknown then Unknown
    else False
  }

  function Listed(v: Val, values: seq<Val>): Truth {
    if values == [] then False else if v == Null then Unknown else Of(v in values)
  }

  /** The three-valued truth of a criteria tree on a row. */
  ghost function Holds(db: Database, schema: Schema, row: DbRow, c: Criteria): Truth
    decreases c
  {
    match c
    case Comparison(p, op, value) =>
      if value != Null then CompareTruth(db, Cell(row, p), op, value)
      else if op == Eq then Of(Cell(row, p) == Null)
      else Of(Cell(row, p) != Null)
    case InList(p, values) => Listed(Cell(row, p), values)
    case NullCheck(p, negated) => if negated then Of(Cell(row, p) != Null) else Of(Cell(row, p) == Null)
    case Membership(properties, subquery) => Among(row, properties, Selected(db, schema, subquery))
    case Composite(conjunction, children) =>
      var settles := if conjunction then False else True;
      if AnyIs(db, schema, row, children, settles) then settles
      else if AnyIs(db, schema, row, children, Unknown) then Unknown
      else if conjunction then True else False
    case Negation(inner) =>
      match Holds(db, schema, row, inner)
      case True => False
      case False => True
      case Unknown => Unknown
  }

  ghost predicate AnyIs(db: Database, schema: Schema, row: DbRow, children: seq<Criteria>, t: Truth)
    decreases children
  {
    exists i :: 0 <= i < |children| && Holds(db, schema, row, children[i]) == t
  }

  /** The rows every criterion is true of, as they are stored. */
  ghost function Chosen(db: Database, schema: Schema, rows: seq<DbRow>, where: seq<Criteria>): seq<DbRow>
    decreases where, |rows|
  {
    if rows == [] then []
    else
      var last := rows[|rows| - 1];
      Chosen(db, schema, rows[..|rows| - 1], where)
      + (if forall i :: 0 <= i < |where| ==> Holds(db, schema, last, where[i]) == True then [last] else [])
  }

  /** What one row shows: the projection, or the entity's properties. */
  function Shown(schema: Schema, s: Select, row: DbRow): DbRow {
    match s.projection
    case Some(properties) => seq(|properties|, k requires 0 <= k < |properties| => Cell(row, properties[k]))
    case None => seq(schema(s.table), k requires 0 <= k < schema(s.table) => Cell(row, k))
  }

  /** The rows of a select: chosen, ordered, paged and shown. */
  ghost function Selected(db: Database, schema: Schema, s: Select): seq<DbRow>
    decreases s
  {
    var page := Page(db.sorted(Chosen(db, schema, db.rows(s.table), s.where), s.orderings), s.limit, s.offset);
    seq(|page|, i requires 0 <= i < |page| => Shown(schema, s, page[i]))
  }

  // --- the renderings say the same --------------------------------------------------------------------

  lemma {:induction false} RowEqualsIsAlike(row: DbRow, columns: seq<nat>, other: DbRow)
    ensures RowEquals(row, columns, other) == Alike(row, columns, other)
    decreases |columns|
  {
    if columns != [] {
      var n := |columns| - 1;
      RowEqualsIsAlike(row, columns[..n], other);
      assert forall k :: 0 <= k < n ==> columns[..n][k] == columns[k];
    }
  }

  lemma AnyEqualsIsAmong(row: DbRow, columns: seq<nat>, others: seq<DbRow>)
    ensures AnyEquals(row, columns, others) == Among(row, columns, others)
  {
    AnyEqualsMeans(row, columns, others);
    forall i | 0 <= i < |others|
      ensures RowEquals(row, columns, others[i]) == Alike(row, columns, others[i])
    {
      RowEqualsIsAlike(row, columns, others[i]);
    }
  }

  lemma {:induction false} AnyValueIsListed(v: Val, values: seq<Val>)
    requires Null !in values
    ensures AnyValue(v, values) == Listed(v, values)
    decreases |values|
  {
    if values != [] {
      var front, last := values[..|values| - 1], values[|values| - 1];
      AnyValueIsListed(v, front);
      assert values == front + [last];
    }
  }

  lemma AnyIsSteps(db: Database, schema: Schema, row: DbRow, children: seq<Criteria>, t: Truth)
    requires children != []
    ensures AnyIs(db, schema, row, children, t) <==>
              Holds(db, schema, row, children[0]) == t || AnyIs(db, schema, row, children[1..], t)
  {
    var rest := children[1..];
    if i :| 0 < i < |children| && Holds(db, schema, row, children[i]) == t {
      assert rest[i - 1] == children[i];
    }
    if i :| 0 <= i < |rest| && Holds(db, schema, row, rest[i]) == t {
      assert children[i + 1] == rest[i];
    }
  }

  lemma CompositeSteps(db: Database, schema: Schema, row: DbRow, conjunction: bool, children: seq<Criteria>)
    requires children != []
    ensures var first, rest := Holds(db, schema, row, children[0]),
            Holds(db, schema, row, Composite(conjunction, children[1..]));
            Holds(db, schema, row, Composite(conjunction, children)) ==
              if conjunction then And(first, rest) else Or(first, rest)
  {
    AnyIsSteps(db, schema, row, children, True);
    AnyIsSteps(db, schema, row, children, False);
    AnyIsSteps(db, schema, row, children, Unknown);
  }

  lemma MembershipMeans(db: Database, row: DbRow, columns: seq<nat>, query: Query, rows: seq<DbRow>)
    requires SameRows(Answer(db, query), rows)
    ensures Meaning(db, row, InQuery(columns, query)) == Among(row, columns, rows)
  {
    AnyEqualsOfSame(row, columns, Answer(db, query), rows);
    AnyEqualsIsAmong(row, columns, rows);
  }

  /** The dialect has row values, and where it drops a subquery's orderings, ordering keeps the rows. */
  ghost predicate RowValued(db: Database, d: Dialect) {
    d.rowValueIn && (d.pagingRequiresOrderBy ==> Lawful(db))
  }

  /** Where the dialect has row values, its SQL is true, false or unknown of a row as the tree is, whatever the tree. */
  lemma {:induction false} RowValueMeans(db: Database, schema: Schema, table: nat, d: Dialect, row: DbRow, c: Criteria)
    requires RowValued(db, d) && Render(d, schema, table, c).Ok?
    ensures Meaning(db, row, Render(d, schema, table, c).value) == Holds(db, schema, row, c)
    decreases c, 0
  {
    match c
    case InList(p, values) =>
      if values != [] {
        AnyValueIsListed(Cell(row, p), values);
      }
    case Membership(properties, subquery) =>
      RowValueSelects(db, schema, d, subquery, true);
      MembershipMeans(db, row, properties, RenderSelect(d, schema, subquery, true).value,
                      Selected(db, schema, subquery));
    case Composite(conjunction, children) =>
      if children != [] {
        RowValueMeansAll(db, schema, table, d, row, conjunction, children);
      }
    case Negation(inner) => RowValueMeans(db, schema, table, d, row, inner);
    case _ =>
  }

  lemma {:induction false} RowValueMeansAll(db: Database, schema: Schema, table: nat, d: Dialect, row: DbRow,
      conjunction: bool, children: seq<Criteria>)
    requires RowValued(db, d) && RenderAll(d, schema, table, children).Ok?
    ensures MeaningOfAll(db, row, conjunction, RenderAll(d, schema, table, children).value) ==
              Holds(db, schema, row, Composite(conjunction, children))
    decreases children, 0
  {
    if children != [] {
      RowValueMeans(db, schema, table, d, row, children[0]);
      RowValueMeansAll(db, schema, table, d, row, conjunction, children[1..]);
      CompositeSteps(db, schema, row, conjunction, children);
      var parts := RenderAll(d, schema, table, children).value;
      assert parts[1..] == RenderAll(d, schema, table, children[1..]).value;
    }
  }

  lemma {:induction false} RowValueKeeps(db: Database, schema: Schema, table: nat, d: Dialect, rows: seq<DbRow>,
      where: seq<Criteria>)
    requires RowValued(db, d) && RenderAll(d, schema, table, where).Ok?
    ensures Kept(db, rows, WhereOf(RenderAll(d, schema, table, where).value)) == Chosen(db, schema, rows, where)
    decreases where, 1, |rows|
  {
    if rows != [] {
      var last, parts := rows[|rows| - 1], RenderAll(d, schema, table, where).value;
      RowValueKeeps(db, schema, table, d, rows[..|rows| - 1], where);
      if where != [] {
        RowValueMeansAll(db, schema, table, d, last, true, where);
        WhereMeans(db, last, parts);
        AllTrue(db, schema, last, where);
      }
    }
  }

  lemma AllTrue(db: Database, schema: Schema, row: DbRow, where: seq<Criteria>)
    ensures Holds(db, schema, row, Composite(true, where)) == True <==>
            forall i :: 0 <= i < |where| ==> Holds(db, schema, row, where[i]) == True
  {
  }

  lemma ProjectionShows(schema: Schema, s: Select, rows: seq<DbRow>)
    ensures Projection(rows, Projected(schema, s)) ==
              seq(|rows|, i requires 0 <= i < |rows| => Shown(schema, s, rows[i]))
  {
    forall i | 0 <= i < |rows|
      ensures Projection(rows, Projected(schema, s))[i] == Shown(schema, s, rows[i])
    {
    }
  }

  /** It answers the select's rows: a root select's in its order, an unpaged subquery's perhaps in another. */
  lemma {:induction false} RowValueSelects(db: Database, schema: Schema, d: Dialect, s: Select, nested: bool)
    requires RowValued(db, d) && RenderSelect(d, schema, s, nested).Ok?
    ensures SameRows(Answer(db, RenderSelect(d, schema, s, nested).value), Selected(db, schema, s))
    ensures !nested || !d.pagingRequiresOrderBy ==>
              Answer(db, RenderSelect(d, schema, s, nested).value) == Selected(db, schema, s)
    decreases s, 2
  {
    var query, chosen := RenderSelect(d, schema, s, nested).value, Chosen(db, schema, db.rows(s.table), s.where);
    RowValueKeeps(db, schema, s.table, d, db.rows(s.table), s.where);
    ProjectionShows(schema, s, Page(db.sorted(chosen, s.orderings), s.limit, s.offset));
    if query.orderings != s.orderings {
      ProjectionOfSame(db.sorted(chosen, query.orderings), db.sorted(chosen, s.orderings), query.columns);
    }
  }

  /** The reference's SQL is true, false or unknown of a row as the tree is, whatever the database. */
  lemma ReferenceMeans(db: Database, schema: Schema, table: nat, row: DbRow, c: Criteria)
    requires Render(REFERENCE, schema, table, c).Ok?
    ensures Meaning(db, row, Render(REFERENCE, schema, table, c).value) == Holds(db, schema, row, c)
  {
    RowValueMeans(db, schema, table, REFERENCE, row, c);
  }

  /** It answers the select's rows in its order, a subquery's too. */
  lemma ReferenceSelects(db: Database, schema: Schema, s: Select, nested: bool)
    requires RenderSelect(REFERENCE, schema, s, nested).Ok?
    ensures Answer(db, RenderSelect(REFERENCE, schema, s, nested).value) == Selected(db, schema, s)
  {
    RowValueSelects(db, schema, REFERENCE, s, nested);
  }

  /** On every dialect the SQL is as true of a row as the tree, unknowns aside that select nothing more. */
  lemma RenderingMeans(db: Database, schema: Schema, table: nat, d: Dialect, c: Criteria, positive: bool, row: DbRow)
    requires Lawful(db) && Even(c, positive) && Render(REFERENCE, schema, table, c).Ok?
    ensures Render(d, schema, table, c).Ok?
    ensures Close(positive, Holds(db, schema, row, c), Meaning(db, row, Render(d, schema, table, c).value))
  {
    RenderingsAgree(db, schema, table, d, c, positive);
    ReferenceMeans(db, schema, table, row, c);
  }

  /** On every dialect the SQL of a root select answers the select's rows, in its order. */
  lemma RenderingSelects(db: Database, schema: Schema, d: Dialect, s: Select)
    requires Lawful(db) && EvenAll(s.where, true) && RenderSelect(REFERENCE, schema, s, false).Ok?
    ensures RenderSelect(d, schema, s, false).Ok?
    ensures Answer(db, RenderSelect(d, schema, s, false).value) == Selected(db, schema, s)
  {
    SelectsAgree(db, schema, d, s);
    ReferenceSelects(db, schema, s, false);
  }

  // --- what a tree binds ---------------------------------------------------------------------------------

  /** The values a tree compares with, read from left to right; a null is never one. */
  function Given(c: Criteria): seq<Val>
    decreases c
  {
    match c
    case Comparison(_, _, value) => if value == Null then [] else [value]
    case InList(_, values) => values
    case NullCheck(_, _) => []
    case Membership(_, subquery) => GivenToAll(subquery.where) + Number(subquery.limit) + Number(subquery.offset)
    case Composite(_, children) => GivenToAll(children)
    case Negation(inner) => Given(inner)
  }

  function GivenToAll(children: seq<Criteria>): seq<Val>
    decreases children
  {
    if children == [] then [] else Given(children[0]) + GivenToAll(children[1..])
  }

  lemma QueryBinds(schema: Schema, d: Dialect, s: Select)
    requires RenderSelect(d, schema, s, true).Ok?
    ensures BindingsOfQuery(RenderSelect(d, schema, s, true).value) ==
              BindingsOfAll(RenderAll(d, schema, s.table, s.where).value) + Number(s.limit) + Number(s.offset)
  {
    WhereBinds(RenderAll(d, schema, s.table, s.where).value);
  }

  /** Every dialect binds exactly the tree's values, in their order. */
  lemma {:induction false} RenderingBinds(schema: Schema, table: nat, d: Dialect, c: Criteria)
    requires Render(d, schema, table, c).Ok?
    ensures Bindings(Render(d, schema, table, c).value) == Given(c)
    decreases c
  {
    match c
    case Membership(properties, subquery) =>
      RenderingBindsAll(schema, subquery.table, d, subquery.where);
      QueryBinds(schema, d, subquery);
    case Composite(_, children) =>
      if children != [] {
        RenderingBindsAll(schema, table, d, children);
      }
    case Negation(inner) => RenderingBinds(schema, table, d, inner);
    case _ =>
  }

  lemma {:induction false} RenderingBindsAll(schema: Schema, table: nat, d: Dialect, children: seq<Criteria>)
    requires RenderAll(d, schema, table, children).Ok?
    ensures BindingsOfAll(RenderAll(d, schema, table, children).value) == GivenToAll(children)
    decreases children
  {
    if children != [] {
      RenderingBinds(schema, table, d, children[0]);
      RenderingBindsAll(schema, table, d, children[1..]);
      var parts := RenderAll(d, schema, table, children).value;
      assert parts[1..] == RenderAll(d, schema, table, children[1..]).value;
    }
  }

  /** So every dialect binds the same values in the same order. */
  lemma BindingsAgree(schema: Schema, table: nat, d: Dialect, c: Criteria)
    requires Render(REFERENCE, schema, table, c).Ok? && Render(d, schema, table, c).Ok?
    ensures Bindings(Render(REFERENCE, schema, table, c).value) == Bindings(Render(d, schema, table, c).value)
  {
    RenderingBinds(schema, table, REFERENCE, c);
    RenderingBinds(schema, table, d, c);
  }

  // --- what is wrong with a tree --------------------------------------------------------------------------

  function Fault(wrong: bool, code: Code): seq<Code> { if wrong then [code] else [] }

  /** Everything wrong with a tree, in the order it is read. */
  ghost function Faults(schema: Schema, table: nat, c: Criteria): seq<Code>
    decreases c
  {
    match c
    case Comparison(p, op, value) =>
      Fault(value == Null && op !in {Eq, Ne}, QRY007) + Fault(p >= schema(table), QRY006)
    case InList(p, values) => Fault(Null in values, QRY007) + Fault(p >= schema(table), QRY006)
    case NullCheck(p, _) => Fault(p >= schema(table), QRY006)
    case Membership(properties, subquery) =>
      Fault((exists k :: 0 <= k < |properties| && properties[k] >= schema(table)) ||
            Width(schema, subquery) != |properties|, QRY006)
      + FaultsOfSelect(schema, subquery)
    case Composite(_, children) => FaultsOfAll(schema, table, children)
    case Negation(inner) => Faults(schema, table, inner)
  }

  ghost function FaultsOfAll(schema: Schema, table: nat, children: seq<Criteria>): seq<Code>
    decreases children
  {
    if children == [] then [] else Faults(schema, table, children[0]) + FaultsOfAll(schema, table, children[1..])
  }

  function Width(schema: Schema, s: Select): nat {
    if s.projection.Some? then |s.projection.value| else schema(s.table)
  }

  ghost function FaultsOfSelect(schema: Schema, s: Select): seq<Code>
    decreases s
  {
    Fault((s.limit.Some? && s.limit.value < 0) || (s.offset.Some? && s.offset.value < 0), QRY008)
    + FaultsOfAll(schema, s.table, s.where)
    + Fault(exists k :: 0 <= k < |s.orderings| && s.orderings[k].property >= schema(s.table), QRY006)
  }

  function First(faults: seq<Code>): Option<Code> {
    if faults == [] then None else Some(faults[0])
  }

  /** The reference renders a tree exactly when nothing is wrong with it, and else names the first thing that is. */
  lemma {:induction false} ReferenceRefuses(schema: Schema, table: nat, c: Criteria)
    ensures Refusal(Render(REFERENCE, schema, table, c)) == First(Faults(schema, table, c))
    decreases c
  {
    match c
    case Membership(_, subquery) => ReferenceRefusesSelect(schema, subquery, true);
    case Composite(_, children) => ReferenceRefusesAll(schema, table, children);
    case Negation(inner) => ReferenceRefuses(schema, table, inner);
    case _ =>
  }

  lemma {:induction false} ReferenceRefusesAll(schema: Schema, table: nat, children: seq<Criteria>)
    ensures Refusal(RenderAll(REFERENCE, schema, table, children)) == First(FaultsOfAll(schema, table, children))
    decreases children
  {
    if children != [] {
      ReferenceRefuses(schema, table, children[0]);
      ReferenceRefusesAll(schema, table, children[1..]);
    }
  }

  lemma {:induction false} ReferenceRefusesSelect(schema: Schema, s: Select, nested: bool)
    ensures Refusal(RenderSelect(REFERENCE, schema, s, nested)) == First(FaultsOfSelect(schema, s))
    decreases s
  {
    ReferenceRefusesAll(schema, s.table, s.where);
  }
}
