/**
 The criteria renderer: predicate trees to SQL, and what that SQL means under three-valued logic
 (ISO/IEC 9075:1992, sections 8.4 and 8.8).
 */
module Rendering {
  import opened Values

  // --- criteria -------------------------------------------------------------------------------------

  datatype Operator = Eq | Ne | Lt | Le | Gt | Ge | Like

  /** A property is its position in its entity's map. */
  datatype Criteria =
    | Comparison(property: nat, op: Operator, value: Val)
    | InList(property: nat, values: seq<Val>)
    | NullCheck(property: nat, negated: bool)
    | Membership(properties: seq<nat>, subquery: Select)
    | Composite(conjunction: bool, children: seq<Criteria>)
    | Negation(inner: Criteria)

  datatype Ordering = Ordering(property: nat, descending: bool)

  datatype Select = Select(
    table: nat,
    where: seq<Criteria>,
    orderings: seq<Ordering>,
    limit: Option<int>,
    offset: Option<int>,
    projection: Option<seq<nat>>)

  // --- SQL ------------------------------------------------------------------------------------------------

  /** A rendered predicate. InQuery is the row-value membership, ExistsQuery the correlated form. */
  datatype Sql =
    | Compares(column: nat, op: Operator, value: Val)
    | InValues(column: nat, values: seq<Val>)
    | IsNull(column: nat, negated: bool)
    | Constant(on: bool)
    | Joined(conjunction: bool, parts: seq<Sql>)
    | NotOf(part: Sql)
    | InQuery(columns: seq<nat>, query: Query)
    | ExistsQuery(columns: seq<nat>, query: Query)

  datatype Query = Query(
    table: nat,
    where: Option<Sql>,
    orderings: seq<Ordering>,
    limit: Option<int>,
    offset: Option<int>,
    columns: seq<nat>)

  datatype Dialect = Dialect(rowValueIn: bool, pagingRequiresOrderBy: bool)

  datatype Code = QRY006 | QRY007 | QRY008

  datatype Result<T> = Ok(value: T) | Err(code: Code)

  /** The number of mapped properties of each table's entity. */
  type Schema = nat -> nat

  function AllProperties(n: nat): seq<nat> {
    seq(n, i requires 0 <= i < n => i)
  }

  function Projected(schema: Schema, s: Select): seq<nat> {
    if s.projection.Some? then s.projection.value else AllProperties(schema(s.table))
  }

  predicate Known(schema: Schema, table: nat, properties: seq<nat>) {
    forall i :: 0 <= i < |properties| ==> properties[i] < schema(table)
  }

  /** Where ORDER BY needs a page, an unpaged subquery loses its orderings. */
  function SubqueryFor(d: Dialect, s: Select): Select {
    if d.pagingRequiresOrderBy && s.limit.None? && s.offset.None? then s.(orderings := []) else s
  }

  function Render(d: Dialect, schema: Schema, table: nat, c: Criteria): Result<Sql>
    decreases c
  {
    match c
    case Comparison(p, op, value) =>
      if value == Null && op != Eq && op != Ne then Err(QRY007)
      else if p >= schema(table) then Err(QRY006)
      else if value == Null then Ok(IsNull(p, op == Ne))
      else Ok(Compares(p, op, value))
    case InList(p, values) =>
      if values != [] && Null in values then Err(QRY007)
      else if p >= schema(table) then Err(QRY006)
      else if values == [] then Ok(Constant(false))
      else Ok(InValues(p, values))
    case NullCheck(p, negated) =>
      if p >= schema(table) then Err(QRY006) else Ok(IsNull(p, negated))
    case Membership(properties, subquery) =>
      if !Known(schema, table, properties) || |Projected(schema, subquery)| != |properties| then Err(QRY006)
      else
        var query := RenderSelect(d, schema, subquery, true);
        if query.Err? then Err(query.code)
        else if |properties| > 1 && !d.rowValueIn then Ok(ExistsQuery(properties, query.value))
        else Ok(InQuery(properties, query.value))
    case Composite(conjunction, children) =>
      if children == [] then Ok(Constant(conjunction))
      else
        var parts := RenderAll(d, schema, table, children);
        if parts.Err? then Err(parts.code) else Ok(Joined(conjunction, parts.value))
    case Negation(inner) =>
      var part := Render(d, schema, table, inner);
      if part.Err? then Err(part.code) else Ok(NotOf(part.value))
  }

  /** The children's renderings, the first error first. */
  function RenderAll(d: Dialect, schema: Schema, table: nat, children: seq<Criteria>): (r: Result<seq<Sql>>)
    ensures r.Ok? ==> |r.value| == |children|
    decreases children
  {
    if children == [] then Ok([])
    else
      var first := Render(d, schema, table, children[0]);
      if first.Err? then Err(first.code)
      else
        var rest := RenderAll(d, schema, table, children[1..]);
        if rest.Err? then Err(rest.code) else Ok([first.value] + rest.value)
  }

  predicate Negative(n: Option<int>) {
    n.Some? && n.value < 0
  }

  predicate Resolved(schema: Schema, table: nat, orderings: seq<Ordering>) {
    forall i :: 0 <= i < |orderings| ==> orderings[i].property < schema(table)
  }

  /** The select list, the predicate, the orderings, the page; nested says the orderings may be dropped. */
  function RenderSelect(d: Dialect, schema: Schema, s: Select, nested: bool): Result<Query>
    decreases s
  {
    if Negative(s.limit) || Negative(s.offset) then Err(QRY008)
    else
      var where := RenderAll(d, schema, s.table, s.where);
      if where.Err? then Err(where.code)
      else
        var kept := if nested then SubqueryFor(d, s).orderings else s.orderings;
        if !Resolved(schema, s.table, kept) then Err(QRY006)
        else
          Ok(Query(s.table, WhereOf(where.value), kept, s.limit, s.offset, Projected(schema, s)))
  }

  /** No clause for no criteria, the criteria alone when there is one, else their conjunction. */
  function WhereOf(parts: seq<Sql>): Option<Sql> {
    if parts == [] then None else if |parts| == 1 then Some(parts[0]) else Some(Joined(true, parts))
  }

  // --- what the SQL means -----------------------------------------------------------------------------------

  datatype Truth = True | False | Unknown

  type DbRow = seq<Val>

  /** The stored rows, the engine's LIKE, and its ORDER BY. */
  datatype Database = Database(rows: nat -> seq<DbRow>, like: (Val, Val) -> bool,
                               sorted: (seq<DbRow>, seq<Ordering>) -> seq<DbRow>)

  /** Ordering keeps the rows. */
  ghost predicate Lawful(db: Database) {
    forall rows, orderings, r :: r in db.sorted(rows, orderings) <==> r in rows
  }

  function Cell(row: DbRow, column: nat): Val {
    if column < |row| then row[column] else Null
  }

  function Of(b: bool): Truth { if b then True else False }

  function Not(t: Truth): Truth {
    match t
    case True => False
    case False => True
    case Unknown => Unknown
  }

  function And(a: Truth, b: Truth): Truth {
    if a == False || b == False then False else if a == Unknown || b == Unknown then Unknown else True
  }

  function Or(a: Truth, b: Truth): Truth {
    if a == True || b == True then True else if a == Unknown || b == Unknown then Unknown else False
  }

  function CompareTruth(db: Database, a: Val, op: Operator, b: Val): Truth {
    if a == Null || b == Null then Unknown
    else
      match op
      case Eq => Of(a == b)
      case Ne => Of(a != b)
      case Lt => Of(CompareVal(a, b) < 0)
      case Le => Of(CompareVal(a, b) <= 0)
      case Gt => Of(CompareVal(a, b) > 0)
      case Ge => Of(CompareVal(a, b) >= 0)
      case Like => Of(db.like(a, b))
  }

  /** The row value constructors' equality: false on one unequal part, else unknown on a null part. */
  function RowEquals(row: DbRow, columns: seq<nat>, other: DbRow): Truth
    decreases |columns|
  {
    if columns == [] then True
    else
      var n := |columns| - 1;
      And(RowEquals(row, columns[..n], other), if Cell(row, columns[n]) == Null ||
          Cell(other, n) == Null then Unknown else Of(Cell(row, columns[n]) == Cell(other, n)))
  }

  /** Membership: true on an equal row, else unknown on one that may be equal, else false. */
  function AnyEquals(row: DbRow, columns: seq<nat>, others: seq<DbRow>): Truth
    decreases |others|
  {
    if others == [] then False
    else Or(AnyEquals(row, columns, others[..|others| - 1]), RowEquals(row, columns, others[|others| - 1]))
  }

  /** A value list is membership among one-part rows. */
  function AnyValue(v: Val, values: seq<Val>): Truth
    decreases |values|
  {
    if values == [] then False
    else
      var last := values[|values| - 1];
      Or(AnyValue(v, values[..|values| - 1]), if v == Null || last == Null then Unknown else Of(v == last))
  }

  function Meaning(db: Database, row: DbRow, s: Sql): Truth
    decreases s
  {
    match s
    case Compares(column, op, value) => CompareTruth(db, Cell(row, column), op, value)
    case InValues(column, values) => AnyValue(Cell(row, column), values)
    case IsNull(column, negated) => Of((Cell(row, column) == Null) != negated)
    case Constant(on) => Of(on)
    case Joined(conjunction, parts) => MeaningOfAll(db, row, conjunction, parts)
    case NotOf(part) => Not(Meaning(db, row, part))
    case InQuery(columns, query) => AnyEquals(row, columns, Answer(db, query))
    case ExistsQuery(columns, query) => Of(exists i :: 0 <= i < |Answer(db, query)| &&
                                                       RowEquals(row, columns, Answer(db, query)[i]) == True)
  }

  function MeaningOfAll(db: Database, row: DbRow, conjunction: bool, parts: seq<Sql>): Truth
    decreases parts
  {
    if parts == [] then Of(conjunction)
    else
      var first, rest := Meaning(db, row, parts[0]), MeaningOfAll(db, row, conjunction, parts[1..]);
      if conjunction then And(first, rest) else Or(first, rest)
  }

  /** WHERE keeps the rows its predicate is true of. */
  function Kept(db: Database, rows: seq<DbRow>, where: Option<Sql>): seq<DbRow>
    decreases where, |rows|
  {
    if rows == [] then []
    else
      var last := rows[|rows| - 1];
      Kept(db, rows[..|rows| - 1], where) + (if where.None? ||
                                             Meaning(db, last, where.value) == True then [last] else [])
  }

  function Page(rows: seq<DbRow>, limit: Option<int>, offset: Option<int>): seq<DbRow> {
    var from := if offset.Some? && offset.value > 0 then offset.value else 0;
    var rest := if from < |rows| then rows[from..] else [];
    if limit.Some? && 0 <= limit.value < |rest| then rest[..limit.value] else rest
  }

  function Projection(rows: seq<DbRow>, columns: seq<nat>): seq<DbRow> {
    seq(|rows|, i requires 0 <= i < |rows| => seq(|columns|,
                                                  j requires 0 <= j < |columns| => Cell(rows[i], columns[j])))
  }

  function Answer(db: Database, q: Query): seq<DbRow>
    decreases q
  {
    Projection(Page(db.sorted(Kept(db, db.rows(q.table), q.where), q.orderings), q.limit, q.offset), q.columns)
  }

  // --- membership and its rewriting ---------------------------------------------------------------------------

  lemma {:induction false} AnyEqualsMeans(row: DbRow, columns: seq<nat>, others: seq<DbRow>)
    ensures AnyEquals(row, columns, others) == True <==>
              exists i :: 0 <= i < |others| && RowEquals(row, columns, others[i]) == True
    ensures AnyEquals(row, columns, others) == False <==> forall i :: 0 <= i < |others| ==>
              RowEquals(row, columns, others[i]) == False
  {
    if others != [] {
      var front, last := others[..|others| - 1], others[|others| - 1];
      AnyEqualsMeans(row, columns, front);
      assert forall i :: 0 <= i < |front| ==> front[i] == others[i];
      assert others[|others| - 1] == last;
    }
  }

  ghost predicate SameRows(a: seq<DbRow>, b: seq<DbRow>) {
    forall r :: r in a <==> r in b
  }

  /** Membership does not see order or repetition. */
  lemma AnyEqualsOfSame(row: DbRow, columns: seq<nat>, a: seq<DbRow>, b: seq<DbRow>)
    requires SameRows(a, b)
    ensures AnyEquals(row, columns, a) == AnyEquals(row, columns, b)
  {
    AnyEqualsMeans(row, columns, a);
    AnyEqualsMeans(row, columns, b);
    forall i | 0 <= i < |a|
      ensures exists j :: 0 <= j < |b| && b[j] == a[i]
    {
      assert a[i] in b;
    }
    forall j | 0 <= j < |b|
      ensures exists i :: 0 <= i < |a| && a[i] == b[j]
    {
      assert b[j] in a;
    }
  }

  /**
   The correlated EXISTS is true with the membership; where the membership is unknown it is false, and only
   there do they differ.
   */
  lemma ExistsIsMembership(db: Database, row: DbRow, columns: seq<nat>, query: Query)
    ensures var member, present := Meaning(db, row, InQuery(columns, query)),
            Meaning(db, row, ExistsQuery(columns, query));
            && (present == True <==> member == True)
            && (present == member <==> member != Unknown)
  {
    AnyEqualsMeans(row, columns, Answer(db, query));
  }

  // --- dialects agree -------------------------------------------------------------------------------------------

  const REFERENCE := Dialect(true, false)

  /** Every composite membership is under an even number of negations, nested subqueries counted on their own. */
  predicate Even(c: Criteria, positive: bool)
    decreases c
  {
    match c
    case Membership(properties, subquery) => (|properties| > 1 ==> positive) && EvenAll(subquery.where, true)
    case Composite(_, children) => EvenAll(children, positive)
    case Negation(inner) => Even(inner, !positive)
    case _ => true
  }

  predicate EvenAll(children: seq<Criteria>, positive: bool)
    decreases children
  {
    children == [] || (Even(children[0], positive) && EvenAll(children[1..], positive))
  }

  /** The truth values agree, but that an unknown may have become what selects nothing more. */
  predicate Close(positive: bool, a: Truth, b: Truth) {
    a == b || (a == Unknown && b == if positive then False else True)
  }

  lemma CloseNot(positive: bool, a: Truth, b: Truth)
    requires Close(!positive, a, b)
    ensures Close(positive, Not(a), Not(b))
  {
  }

  lemma CloseJoined(positive: bool, a: Truth, b: Truth, c: Truth, d: Truth)
    requires Close(positive, a, b) && Close(positive, c, d)
    ensures Close(positive, And(a, c), And(b, d)) && Close(positive, Or(a, c), Or(b, d))
  {
  }

  /** The same membership over the same rows, in either form. */
  lemma MembershipsAgree(db: Database, row: DbRow, columns: seq<nat>, here: Query, there: Query)
    requires SameRows(Answer(db, here), Answer(db, there))
    ensures Meaning(db, row, InQuery(columns, here)) == Meaning(db, row, InQuery(columns, there))
    ensures Close(true, Meaning(db, row, InQuery(columns, here)), Meaning(db, row, ExistsQuery(columns, there)))
  {
    AnyEqualsOfSame(row, columns, Answer(db, here), Answer(db, there));
    ExistsIsMembership(db, row, columns, there);
  }

  /** A criteria tree renders on every dialect when it does on the reference, and means the same but for unknowns. */
  lemma {:induction false} RenderingsAgree(db: Database, schema: Schema, table: nat, d: Dialect, c: Criteria,
      positive: bool)
    requires Lawful(db) && Even(c, positive) && Render(REFERENCE, schema, table, c).Ok?
    ensures Render(d, schema, table, c).Ok?
    ensures forall row :: Close(positive, Meaning(db, row, Render(REFERENCE, schema, table, c).value),
                                Meaning(db, row, Render(d, schema, table, c).value))
    decreases c
  {
    match c
    case Membership(properties, subquery) =>
      AnswersAgree(db, schema, d, subquery);
      var here, there := RenderSelect(REFERENCE, schema, subquery, true).value,
      RenderSelect(d, schema, subquery, true).value;
      forall row
        ensures Close(positive, Meaning(db, row, Render(REFERENCE, schema, table, c).value),
                      Meaning(db, row, Render(d, schema, table, c).value))
      {
        MembershipsAgree(db, row, properties, here, there);
      }
    case Composite(conjunction, children) =>
      if children != [] {
        AllAgree(db, schema, table, d, conjunction, children, positive);
      }
    case Negation(inner) =>
      RenderingsAgree(db, schema, table, d, inner, !positive);
      forall row
        ensures Close(positive, Meaning(db, row, Render(REFERENCE, schema, table, c).value),
                      Meaning(db, row, Render(d, schema, table, c).value))
      {
        CloseNot(positive, Meaning(db, row, Render(REFERENCE, schema, table, inner).value),
                 Meaning(db, row, Render(d, schema, table, inner).value));
      }
    case _ =>
  }

  lemma {:induction false} AllAgree(db: Database, schema: Schema, table: nat, d: Dialect, conjunction: bool,
      children: seq<Criteria>, positive: bool)
    requires Lawful(db) && EvenAll(children, positive) && RenderAll(REFERENCE, schema, table, children).Ok?
    ensures RenderAll(d, schema, table, children).Ok?
    ensures forall row ::
              Close(positive, MeaningOfAll(db, row, conjunction, RenderAll(REFERENCE, schema, table, children).value),
                                MeaningOfAll(db, row, conjunction, RenderAll(d, schema, table, children).value))
    decreases children
  {
    if children != [] {
      RenderingsAgree(db, schema, table, d, children[0], positive);
      AllAgree(db, schema, table, d, conjunction, children[1..], positive);
      var a, b := RenderAll(REFERENCE, schema, table, children).value, RenderAll(d, schema, table, children).value;
      assert a[1..] == RenderAll(REFERENCE, schema, table, children[1..]).value;
      assert b[1..] == RenderAll(d, schema, table, children[1..]).value;
      forall row
        ensures Close(positive, MeaningOfAll(db, row, conjunction, a), MeaningOfAll(db, row, conjunction, b))
      {
        CloseJoined(positive, Meaning(db, row, a[0]), Meaning(db, row, b[0]),
                    MeaningOfAll(db, row, conjunction, a[1..]), MeaningOfAll(db, row, conjunction, b[1..]));
      }
    }
  }

  /** Predicates true of the same rows keep the same rows. */
  lemma {:induction false} KeptAlike(db: Database, rows: seq<DbRow>, a: Option<Sql>, b: Option<Sql>)
    requires a.Some? <==> b.Some?
    requires a.Some? ==> forall row :: Meaning(db, row, a.value) == True <==> Meaning(db, row, b.value) == True
    ensures Kept(db, rows, a) == Kept(db, rows, b)
    decreases |rows|
  {
    if rows != [] {
      KeptAlike(db, rows[..|rows| - 1], a, b);
    }
  }

  lemma WhereMeans(db: Database, row: DbRow, parts: seq<Sql>)
    requires parts != []
    ensures Meaning(db, row, WhereOf(parts).value) == MeaningOfAll(db, row, true, parts)
  {
    if |parts| == 1 {
      assert MeaningOfAll(db, row, true, parts[1..]) == True;
    }
  }

  lemma {:induction false} WhereAgrees(db: Database, schema: Schema, d: Dialect, s: Select, rows: seq<DbRow>,
      nested: bool)
    requires Lawful(db) && EvenAll(s.where, true) && RenderSelect(REFERENCE, schema, s, nested).Ok?
    ensures RenderSelect(d, schema, s, nested).Ok?
    ensures Kept(db, rows, RenderSelect(REFERENCE, schema, s, nested).value.where) ==
              Kept(db, rows, RenderSelect(d, schema, s, nested).value.where)
    decreases s, 0
  {
    AllAgree(db, schema, s.table, d, true, s.where, true);
    assert Resolved(schema, s.table, (if nested then SubqueryFor(d, s).orderings else s.orderings));
    var a, b := RenderSelect(REFERENCE, schema, s, nested).value.where, RenderSelect(d, schema, s, nested).value.where;
    var parts, others := RenderAll(REFERENCE, schema, s.table, s.where).value,
    RenderAll(d, schema, s.table, s.where).value;
    if a.Some? {
      forall row
        ensures Meaning(db, row, a.value) == True <==> Meaning(db, row, b.value) == True
      {
        WhereMeans(db, row, parts);
        WhereMeans(db, row, others);
        assert Close(true, MeaningOfAll(db, row, true, parts), MeaningOfAll(db, row, true, others));
      }
    }
    KeptAlike(db, rows, a, b);
  }

  /** A nested select answers the same rows on every dialect: an unpaged one in any order, a paged one in its own. */
  lemma {:induction false} AnswersAgree(db: Database, schema: Schema, d: Dialect, s: Select)
    requires Lawful(db) && EvenAll(s.where, true) && RenderSelect(REFERENCE, schema, s, true).Ok?
    ensures RenderSelect(d, schema, s, true).Ok?
    ensures SameRows(Answer(db, RenderSelect(REFERENCE, schema, s, true).value),
                     Answer(db, RenderSelect(d, schema, s, true).value))
    decreases s, 1
  {
    WhereAgrees(db, schema, d, s, db.rows(s.table), true);
    var a, b := RenderSelect(REFERENCE, schema, s, true).value, RenderSelect(d, schema, s, true).value;
    if a.orderings != b.orderings {
      var kept := Kept(db, db.rows(s.table), a.where);
      ProjectionOfSame(db.sorted(kept, a.orderings), db.sorted(kept, b.orderings), a.columns);
    }
  }

  lemma ProjectionOfSame(a: seq<DbRow>, b: seq<DbRow>, columns: seq<nat>)
    requires SameRows(a, b)
    ensures SameRows(Projection(a, columns), Projection(b, columns))
  {
    forall i | 0 <= i < |a|
      ensures Projection(a, columns)[i] in Projection(b, columns)
    {
      assert a[i] in b;
      var j :| 0 <= j < |b| && b[j] == a[i];
      assert Projection(b, columns)[j] == Projection(a, columns)[i];
    }
    forall j | 0 <= j < |b|
      ensures Projection(b, columns)[j] in Projection(a, columns)
    {
      assert b[j] in a;
      var i :| 0 <= i < |a| && a[i] == b[j];
      assert Projection(a, columns)[i] == Projection(b, columns)[j];
    }
  }

  /** The root select answers the same rows, in the same order, on every dialect. */
  lemma SelectsAgree(db: Database, schema: Schema, d: Dialect, s: Select)
    requires Lawful(db) && EvenAll(s.where, true) && RenderSelect(REFERENCE, schema, s, false).Ok?
    ensures RenderSelect(d, schema, s, false).Ok?
    ensures Answer(db, RenderSelect(REFERENCE, schema, s, false).value) ==
              Answer(db, RenderSelect(d, schema, s, false).value)
  {
    WhereAgrees(db, schema, d, s, db.rows(s.table), false);
  }

  // --- where they do not agree -------------------------------------------------------------------------------

  const EXISTS_DIALECT := Dialect(false, true)

  /** Rows of table 0 have a null first column; table 1 has one complete row. */
  function NullRoot(): Database {
    Database((t: nat) => if t == 0 then [[Null, Num(1)]] else [[Num(1), Num(1)]], (a, b) => false, (rows, _) => rows)
  }

  const PAIRS := Select(1, [], [], None, None, None)

  const OUTSIDE := Negation(Membership([0, 1], PAIRS))

  lemma NullRowEquals()
    ensures RowEquals([Null, Num(1)], [0, 1], [Num(1), Num(1)]) == Unknown
  {
    assert [0, 1][..1] == [0] && [0][..0] == [];
    assert RowEquals([Null, Num(1)], [0], [Num(1), Num(1)]) == Unknown;
  }

  lemma PairsAnswer()
    ensures var q := Query(1, None, [], None, None, [0, 1]); Answer(NullRoot(), q) == [[Num(1), Num(1)]]
  {
    var rows := NullRoot().rows(1);
    assert rows == [[Num(1), Num(1)]] && rows[..0] == [];
    assert Kept(NullRoot(), rows, None) == rows;
    assert Page(rows, None, None) == rows;
    assert Projection(rows, [0, 1])[0] == [Num(1), Num(1)];
  }

  /** Every table's entity with as many properties. */
  function Widths(n: nat): Schema { (_: nat) => n }

  const PAIRS_QUERY := Query(1, None, [], None, None, [0, 1])

  lemma PairsRender(d: Dialect)
    ensures Render(d, Widths(2), 0, OUTSIDE) ==
              Ok(NotOf(if d.rowValueIn then InQuery([0, 1], PAIRS_QUERY) else ExistsQuery([0, 1], PAIRS_QUERY)))
  {
    assert AllProperties(2) == [0, 1];
    assert RenderAll(d, Widths(2), 1, []) == Ok([]);
    assert RenderSelect(d, Widths(2), PAIRS, true) == Ok(PAIRS_QUERY);
  }

  lemma PairsUnknown()
    ensures Meaning(NullRoot(), [Null, Num(1)], InQuery([0, 1], PAIRS_QUERY)) == Unknown
  {
    NullRowEquals();
    PairsAnswer();
    OneRowMembership([Null, Num(1)], [0, 1], [Num(1), Num(1)]);
  }

  lemma OutsideIsOdd()
    ensures Lawful(NullRoot()) && !Even(OUTSIDE, true)
  {
  }

  /**
   Under one negation a null makes the difference: the membership's unknown selects nothing, the EXISTS's false
   selects the row.
   */
  lemma NegatedMembershipDiffers(d: Dialect)
    requires !d.rowValueIn
    ensures Lawful(NullRoot()) && !Even(OUTSIDE, true)
    ensures Render(REFERENCE, Widths(2), 0, OUTSIDE).Ok? && Render(d, Widths(2), 0, OUTSIDE).Ok?
    ensures Meaning(NullRoot(), [Null, Num(1)], Render(REFERENCE, Widths(2), 0, OUTSIDE).value) == Unknown
    ensures Meaning(NullRoot(), [Null, Num(1)], Render(d, Widths(2), 0, OUTSIDE).value) == True
  {
    OutsideIsOdd();
    PairsRender(REFERENCE);
    PairsRender(d);
    PairsUnknown();
    ExistsIsMembership(NullRoot(), [Null, Num(1)], [0, 1], PAIRS_QUERY);
    ExistsIsDefinite(NullRoot(), [Null, Num(1)], [0, 1], PAIRS_QUERY);
    NotMeans(NullRoot(), [Null, Num(1)], InQuery([0, 1], PAIRS_QUERY));
    NotMeans(NullRoot(), [Null, Num(1)], ExistsQuery([0, 1], PAIRS_QUERY));
  }

  lemma ExistsIsDefinite(db: Database, row: DbRow, columns: seq<nat>, query: Query)
    ensures Meaning(db, row, ExistsQuery(columns, query)) != Unknown
  {
  }

  lemma NotMeans(db: Database, row: DbRow, s: Sql)
    ensures Meaning(db, row, NotOf(s)) == Not(Meaning(db, row, s))
  {
  }

  lemma OneRowMembership(row: DbRow, columns: seq<nat>, other: DbRow)
    ensures AnyEquals(row, columns, [other]) == RowEquals(row, columns, other)
  {
    assert [other][..0] == [];
  }

  /**
   Dropping a subquery's orderings drops their check too: an unmapped ordering property is refused on one
   dialect only.
   */
  lemma DroppedOrderingIsUnchecked()
    ensures var c := Membership([0], Select(1, [], [Ordering(7, false)], None, None, None));
            && Render(REFERENCE, Widths(1), 0, c) == Err(QRY006) && Render(EXISTS_DIALECT, Widths(1), 0, c).Ok?
            && !OrderingsMapped(Widths(1), c)
  {
    var s := Select(1, [], [Ordering(7, false)], None, None, None);
    assert AllProperties(1) == [0];
    assert RenderAll(REFERENCE, Widths(1), 1, []) == Ok([]) && RenderAll(EXISTS_DIALECT, Widths(1), 1, []) == Ok([]);
    assert s.orderings[0].property == 7;
    assert RenderSelect(REFERENCE, Widths(1), s, true) == Err(QRY006);
  }

  // --- what the dialects refuse -------------------------------------------------------------------------------

  function Refusal<T>(r: Result<T>): Option<Code> {
    match r
    case Ok(_) => None
    case Err(code) => Some(code)
  }

  /** Every unpaged subquery, however deep, is ordered by mapped properties. */
  predicate OrderingsMapped(schema: Schema, c: Criteria)
    decreases c
  {
    match c
    case Membership(_, subquery) =>
      && (subquery.limit.None? && subquery.offset.None? ==> Resolved(schema, subquery.table, subquery.orderings))
      && AllOrderingsMapped(schema, subquery.where)
    case Composite(_, children) => AllOrderingsMapped(schema, children)
    case Negation(inner) => OrderingsMapped(schema, inner)
    case _ => true
  }

  predicate AllOrderingsMapped(schema: Schema, children: seq<Criteria>)
    decreases children
  {
    children == [] || (OrderingsMapped(schema, children[0]) && AllOrderingsMapped(schema, children[1..]))
  }

  /**
   A dialect that drops orderings accepts what the reference accepts and, besides, exactly the trees whose only
   fault is an unmapped ordering of an unpaged subquery. Any other dialect refuses alike, with the same code.
   */
  lemma {:induction false} RefusalsAgreeIff(schema: Schema, table: nat, d: Dialect, c: Criteria)
    ensures d.pagingRequiresOrderBy ==>
              (Render(REFERENCE, schema, table, c).Ok? <==>
               Render(d, schema, table, c).Ok? && OrderingsMapped(schema, c))
    ensures !d.pagingRequiresOrderBy || OrderingsMapped(schema, c) ==>
              Refusal(Render(REFERENCE, schema, table, c)) == Refusal(Render(d, schema, table, c))
    decreases c
  {
    match c
    case Membership(properties, subquery) =>
      AllRefusalsAgreeIff(schema, subquery.table, d, subquery.where);
    case Composite(_, children) => AllRefusalsAgreeIff(schema, table, d, children);
    case Negation(inner) => RefusalsAgreeIff(schema, table, d, inner);
    case _ =>
  }

  lemma {:induction false} AllRefusalsAgreeIff(schema: Schema, table: nat, d: Dialect, children: seq<Criteria>)
    ensures d.pagingRequiresOrderBy ==>
              (RenderAll(REFERENCE, schema, table, children).Ok? <==>
               RenderAll(d, schema, table, children).Ok? && AllOrderingsMapped(schema, children))
    ensures !d.pagingRequiresOrderBy || AllOrderingsMapped(schema, children) ==>
              Refusal(RenderAll(REFERENCE, schema, table, children)) == Refusal(RenderAll(d, schema, table, children))
    decreases children
  {
    if children != [] {
      RefusalsAgreeIff(schema, table, d, children[0]);
      AllRefusalsAgreeIff(schema, table, d, children[1..]);
    }
  }

  /** Of a root select, whose own orderings are always rendered. */
  lemma SelectRefusalsAgreeIff(schema: Schema, d: Dialect, s: Select)
    ensures d.pagingRequiresOrderBy ==>
              (RenderSelect(REFERENCE, schema, s, false).Ok? <==>
               RenderSelect(d, schema, s, false).Ok? && AllOrderingsMapped(schema, s.where))
    ensures !d.pagingRequiresOrderBy || AllOrderingsMapped(schema, s.where) ==>
              Refusal(RenderSelect(REFERENCE, schema, s, false)) == Refusal(RenderSelect(d, schema, s, false))
  {
    AllRefusalsAgreeIff(schema, s.table, d, s.where);
  }

  // --- parameters ---------------------------------------------------------------------------------------------

  function Number(n: Option<int>): seq<Val> {
    if n.Some? then [Num(n.value)] else []
  }

  /** The bound values in render order: the subquery inline, then limit, then offset. */
  function Bindings(s: Sql): seq<Val>
    decreases s
  {
    match s
    case Compares(_, _, value) => [value]
    case InValues(_, values) => values
    case Joined(_, parts) => BindingsOfAll(parts)
    case NotOf(part) => Bindings(part)
    case InQuery(_, query) => BindingsOfQuery(query)
    case ExistsQuery(_, query) => BindingsOfQuery(query)
    case _ => []
  }

  function BindingsOfAll(parts: seq<Sql>): seq<Val>
    decreases parts
  {
    if parts == [] then [] else Bindings(parts[0]) + BindingsOfAll(parts[1..])
  }

  function BindingsOfQuery(q: Query): seq<Val>
    decreases q
  {
    (if q.where.Some? then Bindings(q.where.value) else []) + Number(q.limit) + Number(q.offset)
  }

  lemma WhereBinds(parts: seq<Sql>)
    ensures (if WhereOf(parts).Some? then Bindings(WhereOf(parts).value) else []) == BindingsOfAll(parts)
  {
    if |parts| == 1 {
      assert BindingsOfAll(parts[1..]) == [];
    }
  }
}
