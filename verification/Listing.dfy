/** The root query with its includes, loaded by the mode the query asks for. */
module Listing {
  import opened Relations
  import JoinFold
  import BatchLoading

  ghost predicate SameOutcome(includes: seq<Include>, a: Outcome, b: Outcome) {
    (a.Refused? <==> b.Refused?) && (a.Graph? ==> SameGraph(a.roots, b.roots, |includes|))
  }

  /** The fetch modes, with what the database answers to the joined query or to each navigation's subselect. */
  datatype Mode = Join(rows: seq<JoinFold.JoinedRow>) | MultiQuery | SubSelect(answers: seq<seq<Row>>)

  function FetchOf(mode: Mode, i: nat): BatchLoading.Fetch
    requires mode.SubSelect? ==> i < |mode.answers|
  {
    if mode.SubSelect? then BatchLoading.SubSelect(mode.answers[i]) else BatchLoading.MultiQuery
  }

  /** What the tables and the answers of a mode hold. */
  ghost predicate Answered(mode: Mode, includes: seq<Include>, tables: seq<BatchLoading.Tables>, roots: seq<Row>,
      arities: seq<nat>, rootArity: nat) {
    && |tables| == |arities| == |includes|
    && match mode
       case Join(rows) => JoinFold.Joined(includes, arities, roots, rows, rootArity)
       case MultiQuery =>
         forall i :: 0 <= i < |includes| ==> BatchLoading.Serves(includes[i], tables[i], roots, arities[i])
       case SubSelect(answers) =>
         && |answers| == |includes|
         && forall i :: 0 <= i < |includes| ==>
              && BatchLoading.Serves(includes[i], tables[i], roots, arities[i])
              && BatchLoading.AnsweredBy(includes[i], tables[i], roots, FetchOf(mode, i))
  }

  /**
   One SELECT with joins folded, key-list queries a navigation, or one subselect a navigation: whichever, the
   graph the includes define, the same roots in the same order with the same navigations and sharing, or the
   same refusal.
   */
  method List(mode: Mode, includes: seq<Include>, tables: seq<BatchLoading.Tables>, roots: seq<Row>, size: nat,
      ghost arities: seq<nat>, ghost rootArity: nat)
    returns (out: Outcome)
    requires Answered(mode, includes, tables, roots, arities, rootArity) && size > 0
    ensures Meets(includes, roots, out)
    ensures forall other: Outcome :: Meets(includes, roots, other) ==> SameOutcome(includes, out, other)
  {
    if mode.Join? {
      out := JoinFold.LoadByJoin(includes, mode.rows, arities, roots, rootArity);
    } else {
      var fetches := seq(|includes|, i requires 0 <= i < |includes| && (mode.SubSelect? ==> i < |mode.answers|) =>
                         FetchOf(mode, i));
      out := BatchLoading.LoadByQueries(includes, tables, roots, fetches, size, arities);
    }
    forall other: Outcome | Meets(includes, roots, other)
      ensures SameOutcome(includes, out, other)
    {
      DefinitionIsUnique(includes, roots, out, other);
    }
  }
}
