/**
 The message plan over what the rules read of a call's operations, numbered in order: which later
 operation depends on which earlier statement (rule 1), which statements are commands and which
 read a result (rule 2), and the parameter counts and limits (rule 3).
 */
module Messages {

  datatype Facts = Facts(
    depends: (nat, nat) -> bool,
    issues: nat -> bool,
    args: nat -> nat,
    readsResult: nat -> bool,
    command: nat -> bool,
    limit: nat,
    parameterCap: nat)

  function Params(f: Facts, message: seq<nat>): nat {
    if message == [] then 0 else Params(f, message[..|message| - 1]) + f.args(message[|message| - 1])
  }

  predicate DependsOnMessage(f: Facts, message: seq<nat>, j: nat) {
    exists i :: i in message && f.depends(i, j)
  }

  predicate OverflowsOrReads(f: Facts, message: seq<nat>, j: nat) {
    || (f.parameterCap > 0 && Params(f, message) + f.args(j) > f.parameterCap)
    || (f.readsResult(j) && exists i :: i in message && f.command(i))
  }

  /** Closed messages and the one in progress, empty when none is. */
  datatype Plan = Plan(closed: seq<seq<nat>>, current: seq<nat>)

  function Close(p: Plan): Plan {
    if p.current == [] then p else Plan(p.closed + [p.current], [])
  }

  /** Rule 1, before the operation is prepared. */
  function Ready(f: Facts, p: Plan, j: nat): Plan {
    if DependsOnMessage(f, p.current, j) then Close(p) else p
  }

  /** Rules 2 and 3, once it is prepared: it joins, and a full message is sent. */
  function Add(f: Facts, ready: Plan, j: nat): Plan {
    var split := if ready.current != [] && OverflowsOrReads(f, ready.current, j) then Close(ready) else ready;
    var joined := split.(current := split.current + [j]);
    if |joined.current| >= f.limit then Close(joined) else joined
  }

  /** The planner that sends a message as soon as it is full. */
  function EagerStep(f: Facts, p: Plan, j: nat): Plan {
    if f.issues(j) then Add(f, Ready(f, p, j), j) else Ready(f, p, j)
  }

  /** The planner that sends a full message when the next operation comes. */
  function LazyStep(f: Facts, p: Plan, j: nat): Plan {
    var ready := if p.current != [] &&
    (|p.current| >= f.limit || DependsOnMessage(f, p.current, j)) then Close(p) else p;
    if !f.issues(j) then ready
    else
      var split := if ready.current != [] && OverflowsOrReads(f, ready.current, j) then Close(ready) else ready;
      split.(current := split.current + [j])
  }

  function Eager(f: Facts, n: nat): Plan {
    if n == 0 then Plan([], []) else EagerStep(f, Eager(f, n - 1), n - 1)
  }

  function Lazy(f: Facts, n: nat): Plan {
    if n == 0 then Plan([], []) else LazyStep(f, Lazy(f, n - 1), n - 1)
  }

  /** The messages of a finished call of n operations. */
  function EagerMessages(f: Facts, n: nat): seq<seq<nat>> { Close(Eager(f, n)).closed }

  function LazyMessages(f: Facts, n: nat): seq<seq<nat>> { Close(Lazy(f, n)).closed }

  lemma {:induction false} EagerAndLazyInStep(f: Facts, n: nat)
    requires f.limit >= 1
    ensures Eager(f, n) == if |Lazy(f, n).current| >= f.limit then Close(Lazy(f, n)) else Lazy(f, n)
  {
    if n > 0 {
      EagerAndLazyInStep(f, n - 1);
      var e, l := Eager(f, n - 1), Lazy(f, n - 1);
      if |l.current| >= f.limit {
        assert !DependsOnMessage(f, e.current, n - 1);
      } else if DependsOnMessage(f, l.current, n - 1) {
        assert l.current != [];
      }
    }
  }

  /** Sending a message when full and sending it when the next operation comes form the same messages. */
  lemma EagerIsLazy(f: Facts, n: nat)
    requires f.limit >= 1
    ensures EagerMessages(f, n) == LazyMessages(f, n)
  {
    EagerAndLazyInStep(f, n);
  }

  // --- conservation and separation ------------------------------------------------------------------

  function Concat(messages: seq<seq<nat>>): seq<nat> {
    if messages == [] then [] else Concat(messages[..|messages| - 1]) + messages[|messages| - 1]
  }

  function IssuedBelow(f: Facts, n: nat): seq<nat> {
    if n == 0 then [] else IssuedBelow(f, n - 1) + (if f.issues(n - 1) then [n - 1] else [])
  }

  /** A message the rules allow: statements in order that keep apart and fit together. */
  ghost predicate Legal(f: Facts, message: seq<nat>) {
    && |message| <= f.limit
    && (f.parameterCap > 0 && |message| >= 2 ==> Params(f, message) <= f.parameterCap)
    && (forall a, b :: 0 <= a < b < |message| ==>
          !f.depends(message[a], message[b]) && !(f.command(message[a]) && f.readsResult(message[b])))
  }

  lemma ConcatAppend(messages: seq<seq<nat>>, message: seq<nat>)
    ensures Concat(messages + [message]) == Concat(messages) + message
  {
    assert (messages + [message])[..|messages|] == messages;
  }

  lemma JoinIsLegal(f: Facts, message: seq<nat>, j: nat)
    requires Legal(f, message) && |message| < f.limit
    requires !DependsOnMessage(f, message, j)
    requires message != [] ==> !OverflowsOrReads(f, message, j)
    ensures Legal(f, message + [j])
  {
    var joined := message + [j];
    assert joined[..|message|] == message;
    forall a, b | 0 <= a < b < |joined|
      ensures !f.depends(joined[a], joined[b]) && !(f.command(joined[a]) && f.readsResult(joined[b]))
    {
      if b == |message| {
        assert joined[a] in message;
      }
    }
  }

  ghost predicate Kept(f: Facts, n: nat, p: Plan) {
    && Concat(p.closed) + p.current == IssuedBelow(f, n) && Legal(f, p.current)
    && (forall m :: m in p.closed ==> m != [] && Legal(f, m))
  }

  lemma CloseKeeps(f: Facts, n: nat, p: Plan)
    requires f.limit >= 1 && Kept(f, n, p)
    ensures Kept(f, n, Close(p))
  {
    ConcatAppend(p.closed, p.current);
    assert Concat(Close(p).closed) + [] == Concat(Close(p).closed);
  }

  lemma JoinKeeps(f: Facts, n: nat, p: Plan)
    requires Kept(f, n, p) && f.issues(n) && |p.current| < f.limit
    requires !DependsOnMessage(f, p.current, n) && (p.current != [] ==> !OverflowsOrReads(f, p.current, n))
    ensures Kept(f, n + 1, p.(current := p.current + [n]))
  {
    JoinIsLegal(f, p.current, n);
    assert Concat(p.closed) + (p.current + [n]) == Concat(p.closed) + p.current + [n];
  }

  /** The lazy plan's step for a statement, once its message is ready for it. */
  lemma LazyJoins(f: Facts, j: nat, ready: Plan)
    requires f.limit >= 1 && Kept(f, j, ready) && f.issues(j)
    requires |ready.current| < f.limit && !DependsOnMessage(f, ready.current, j)
    ensures var split := if ready.current != [] && OverflowsOrReads(f, ready.current, j) then Close(ready) else ready;
            Kept(f, j + 1, split.(current := split.current + [j]))
  {
    CloseKeeps(f, j, ready);
    var split := if ready.current != [] && OverflowsOrReads(f, ready.current, j) then Close(ready) else ready;
    JoinKeeps(f, j, split);
  }

  lemma {:induction false} LazyKeeps(f: Facts, n: nat)
    requires f.limit >= 1
    ensures Kept(f, n, Lazy(f, n))
  {
    if n > 0 {
      LazyKeeps(f, n - 1);
      var p, j := Lazy(f, n - 1), n - 1;
      CloseKeeps(f, j, p);
      var ready := if p.current != [] &&
      (|p.current| >= f.limit || DependsOnMessage(f, p.current, j)) then Close(p) else p;
      assert |ready.current| < f.limit && !DependsOnMessage(f, ready.current, j);
      if f.issues(j) {
        LazyJoins(f, j, ready);
      } else {
        assert IssuedBelow(f, n) == IssuedBelow(f, j);
      }
    }
  }

  /** The messages are the issued statements in order, none empty, each one the rules allow. */
  lemma MessagesConserveAndSeparate(f: Facts, n: nat)
    requires f.limit >= 1
    ensures Concat(EagerMessages(f, n)) == IssuedBelow(f, n)
    ensures forall m :: m in EagerMessages(f, n) ==> m != [] && Legal(f, m)
  {
    EagerIsLazy(f, n);
    LazyKeeps(f, n);
    CloseKeeps(f, n, Lazy(f, n));
    var closed := Close(Lazy(f, n)).closed;
    assert EagerMessages(f, n) == closed && Concat(closed) + [] == Concat(closed);
  }

  // --- two planners with rules of their own -----------------------------------------------------------

  /** The second planner finds every dependency the first does, and more between issued statements only. */
  ghost predicate Extends(f: Facts, g: Facts) {
    && g == f.(depends := g.depends)
    && (forall i, j :: f.depends(i, j) ==> g.depends(i, j))
    && (forall i, j :: g.depends(i, j) && !f.depends(i, j) ==> f.issues(j))
  }

  /** No message holds a pair that depends. */
  ghost predicate Parted(g: Facts, messages: seq<seq<nat>>) {
    forall m :: m in messages ==> PartedIn(g, m)
  }

  ghost predicate PartedIn(g: Facts, m: seq<nat>) {
    forall a, b :: 0 <= a < b < |m| ==> !g.depends(m[a], m[b])
  }

  lemma {:induction false} SameParams(f: Facts, g: Facts, message: seq<nat>)
    requires Extends(f, g)
    ensures Params(f, message) == Params(g, message)
  {
    if message != [] {
      SameParams(f, g, message[..|message| - 1]);
    }
  }

  /** What is in progress ends up at the front of a message. */
  ghost predicate Leads(current: seq<nat>, messages: seq<seq<nat>>) {
    exists m :: m in messages && current <= m
  }

  ghost predicate LeadsIn(current: seq<nat>, p: Plan) {
    current <= p.current || Leads(current, p.closed)
  }

  lemma CloseLeads(current: seq<nat>, p: Plan)
    requires LeadsIn(current, p) && current != []
    ensures Leads(current, Close(p).closed)
  {
    if current <= p.current {
      assert p.current in Close(p).closed;
    } else {
      var m :| m in p.closed && current <= m;
      assert m in Close(p).closed;
    }
  }

  lemma EagerStepLeads(f: Facts, current: seq<nat>, p: Plan, j: nat)
    requires LeadsIn(current, p) && current != []
    ensures LeadsIn(current, EagerStep(f, p, j))
  {
    CloseLeads(current, p);
    var ready := Ready(f, p, j);
    assert LeadsIn(current, ready);
    if f.issues(j) {
      CloseLeads(current, ready);
      var split := if ready.current != [] && OverflowsOrReads(f, ready.current, j) then Close(ready) else ready;
      CloseLeads(current, split.(current := split.current + [j]));
    }
  }

  lemma {:induction false} EagerLeads(f: Facts, current: seq<nat>, n: nat, k: nat)
    requires n <= k && LeadsIn(current, Eager(f, n)) && current != []
    ensures Leads(current, EagerMessages(f, k))
    decreases k
  {
    if n == k {
      CloseLeads(current, Eager(f, n));
    } else {
      EagerLeadsTo(f, current, n, k);
      CloseLeads(current, Eager(f, k));
    }
  }

  lemma {:induction false} EagerLeadsTo(f: Facts, current: seq<nat>, n: nat, k: nat)
    requires n <= k && LeadsIn(current, Eager(f, n)) && current != []
    ensures LeadsIn(current, Eager(f, k))
    decreases k
  {
    if n < k {
      EagerLeadsTo(f, current, n, k - 1);
      EagerStepLeads(f, current, Eager(f, k - 1), k - 1);
    }
  }

  /** A statement that joined a message is in one with those it joined. */
  lemma JoinedLeads(f: Facts, ready: Plan, j: nat)
    requires ready.current == [] || !OverflowsOrReads(f, ready.current, j)
    ensures LeadsIn(ready.current + [j], Add(f, ready, j))
  {
    var joined := ready.(current := ready.current + [j]);
    CloseLeads(joined.current, joined);
  }

  lemma LedIsApart(g: Facts, messages: seq<seq<nat>>, current: seq<nat>, j: nat, i: nat)
    requires Parted(g, messages) && Leads(current + [j], messages) && i in current
    ensures !g.depends(i, j)
  {
    var m :| m in messages && current + [j] <= m;
    var a :| 0 <= a < |current| && current[a] == i;
    assert PartedIn(g, m) && m[a] == (current + [j])[a] && m[|current|] == (current + [j])[|current|];
  }

  /** Where the first planner joins a statement to its message, the second finds no more dependencies. */
  lemma JoinedIsApart(f: Facts, g: Facts, p: Plan, j: nat, n: nat)
    requires Extends(f, g) && j < n && p == Eager(f, j) && Parted(g, EagerMessages(f, n)) && f.issues(j)
    requires !DependsOnMessage(f, p.current, j) && !OverflowsOrReads(f, p.current, j)
    ensures !DependsOnMessage(g, p.current, j)
  {
    JoinedLeads(f, p, j);
    assert Eager(f, j + 1) == Add(f, p, j);
    EagerLeads(f, p.current + [j], j + 1, n);
    forall i | i in p.current
      ensures !g.depends(i, j)
    {
      LedIsApart(g, EagerMessages(f, n), p.current, j, i);
    }
  }

  lemma SameOverflow(f: Facts, g: Facts, message: seq<nat>, j: nat)
    requires Extends(f, g)
    ensures OverflowsOrReads(f, message, j) == OverflowsOrReads(g, message, j)
  {
    SameParams(f, g, message);
  }

  lemma SameAdd(f: Facts, g: Facts, ready: Plan, j: nat)
    requires Extends(f, g)
    ensures Add(f, ready, j) == Add(g, ready, j)
  {
    SameOverflow(f, g, ready.current, j);
  }

  lemma ApartStepsAgree(f: Facts, g: Facts, p: Plan, j: nat, n: nat)
    requires Extends(f, g) && j < n && p == Eager(f, j) && Parted(g, EagerMessages(f, n))
    ensures EagerStep(f, p, j) == EagerStep(g, p, j)
  {
    if DependsOnMessage(f, p.current, j) == DependsOnMessage(g, p.current, j) {
      SameAdd(f, g, Ready(f, p, j), j);
    } else {
      var i :| i in p.current && g.depends(i, j);
      assert !f.depends(i, j) && f.issues(j);
      if !OverflowsOrReads(f, p.current, j) {
        JoinedIsApart(f, g, p, j, n);
      }
      SameAdd(f, g, Close(p), j);
    }
  }

  lemma {:induction false} PartedPlansAgree(f: Facts, g: Facts, j: nat, n: nat)
    requires Extends(f, g) && j <= n && Parted(g, EagerMessages(f, n))
    ensures Eager(f, j) == Eager(g, j)
    decreases j
  {
    if j > 0 {
      PartedPlansAgree(f, g, j - 1, n);
      ApartStepsAgree(f, g, Eager(f, j - 1), j - 1, n);
    }
  }

  /**
   A planner that sends full messages at once and one that sends them late, and that sees more
   dependencies, form the same messages exactly when no message of the first holds such a pair.
   */
  lemma PlannersAgreeIff(f: Facts, g: Facts, n: nat)
    requires f.limit >= 1 && Extends(f, g)
    ensures EagerMessages(f, n) == LazyMessages(g, n) <==> Parted(g, EagerMessages(f, n))
  {
    EagerIsLazy(g, n);
    if Parted(g, EagerMessages(f, n)) {
      PartedPlansAgree(f, g, n, n);
    }
    if EagerMessages(f, n) == LazyMessages(g, n) {
      MessagesConserveAndSeparate(g, n);
      assert forall m :: m in EagerMessages(f, n) ==> Legal(g, m);
    }
  }

  // --- optimality -------------------------------------------------------------------------------------

  lemma {:induction false} ParamsOfSuffix(f: Facts, message: seq<nat>, k: nat)
    requires k <= |message|
    ensures Params(f, message[k..]) <= Params(f, message)
    decreases |message|
  {
    if k < |message| {
      var n := |message| - 1;
      assert message[k..][..|message[k..]| - 1] == message[..n][k..];
      ParamsOfSuffix(f, message[..n], k);
    }
  }

  /** What the rules allow of a message they allow of its tail. */
  lemma SuffixIsLegal(f: Facts, message: seq<nat>, k: nat)
    requires Legal(f, message) && k <= |message|
    ensures Legal(f, message[k..])
  {
    ParamsOfSuffix(f, message, k);
  }

  /** An order-preserving grouping of the first n statements into messages the rules allow. */
  ghost predicate Grouping(f: Facts, n: nat, messages: seq<seq<nat>>) {
    && Concat(messages) == IssuedBelow(f, n)
    && forall m :: m in messages ==> m != [] && Legal(f, m)
  }

  /** Fewer messages, or as many and no more in the last one. */
  ghost predicate NoWorse(a: seq<seq<nat>>, b: seq<seq<nat>>) {
    |a| < |b| || (|a| == |b| && (a != [] ==> |a[|a| - 1]| <= |b[|b| - 1]|))
  }

  /** A grouping without its last statement. */
  ghost function Shortened(messages: seq<seq<nat>>): seq<seq<nat>>
    requires messages != [] && messages[|messages| - 1] != []
  {
    var k := |messages| - 1;
    var last := messages[k];
    if |last| == 1 then messages[..k] else messages[..k] + [last[..|last| - 1]]
  }

  lemma PrefixIsLegal(f: Facts, message: seq<nat>, k: nat)
    requires Legal(f, message) && k == |message| - 1 && k >= 0
    ensures Legal(f, message[..k])
  {
  }

  lemma ShortenedGroups(f: Facts, n: nat, messages: seq<seq<nat>>)
    requires n > 0 && f.issues(n - 1) && Grouping(f, n, messages)
    ensures messages != [] && messages[|messages| - 1] != []
    ensures Grouping(f, n - 1, Shortened(messages))
    ensures var last := messages[|messages| - 1]; last[|last| - 1] == n - 1
  {
    assert messages != [];
    var k := |messages| - 1;
    var last := messages[k];
    assert last in messages;
    var whole := Concat(messages[..k]) + last;
    assert whole[|whole| - 1] == last[|last| - 1] == n - 1;
    assert whole[..|whole| - 1] == Concat(messages[..k]) + last[..|last| - 1] == IssuedBelow(f, n - 1);
    ConcatAppend(messages[..k], last[..|last| - 1]);
    PrefixIsLegal(f, last, |last| - 1);
    forall m | m in Shortened(messages)
      ensures m != [] && Legal(f, m)
    {
      assert m in messages || m == last[..|last| - 1];
    }
    if |last| == 1 {
      assert Concat(messages[..k]) + [] == Concat(messages[..k]);
    }
  }

  lemma {:induction false} ConcatTail(messages: seq<seq<nat>>, whole: seq<nat>)
    requires messages != [] && Concat(messages) == whole
    ensures var last := messages[|messages| - 1]; |last| <= |whole| && whole[|whole| - |last|..] == last
  {
  }

  /** The message in progress of a plan in which every operation issues a statement. */
  function Groups(p: Plan): seq<seq<nat>> {
    if p.current == [] then p.closed else p.closed + [p.current]
  }

  /** Rules 1 to 3 keep a statement out of a message exactly when the two together would break one. */
  lemma StartsNewIffIllegal(f: Facts, message: seq<nat>, j: nat)
    requires Legal(f, message) && message != []
    ensures Legal(f, message + [j]) <==>
              |message| < f.limit && !DependsOnMessage(f, message, j) && !OverflowsOrReads(f, message, j)
  {
    var joined := message + [j];
    assert joined[..|message|] == message;
    if Legal(f, joined) {
      forall i | i in message
        ensures !f.depends(i, j) && !(f.command(i) && f.readsResult(j))
      {
        var a :| 0 <= a < |message| && message[a] == i;
        assert joined[a] == i && joined[|message|] == j;
      }
    } else if |message| < f.limit && !DependsOnMessage(f, message, j) && !OverflowsOrReads(f, message, j) {
      JoinIsLegal(f, message, j);
    }
  }

  lemma LazyIsMaximal(f: Facts, n: nat)
    requires f.limit >= 1 && (forall i :: 0 <= i < n + 1 ==> f.issues(i))
    ensures var p, q := Lazy(f, n), Lazy(f, n + 1);
            && (n > 0 ==> p.current != [])
            && (if p.current != [] &&
                Legal(f, p.current + [n]) then Groups(q) == p.closed + [p.current + [n]]
                  else Groups(q) == Groups(p) + [[n]])
  {
    var p := Lazy(f, n);
    LazyKeeps(f, n);
    if n > 0 {
      assert p == LazyStep(f, Lazy(f, n - 1), n - 1);
      StartsNewIffIllegal(f, p.current, n);
    }
    assert [] + [n] == [n];
  }

  /** Greedy stays ahead of any grouping the rules allow. */
  lemma {:induction false} GreedyStaysAhead(f: Facts, n: nat, other: seq<seq<nat>>)
    requires f.limit >= 1 && (forall i :: 0 <= i < n ==> f.issues(i)) && Grouping(f, n, other)
    ensures NoWorse(Groups(Lazy(f, n)), other)
    decreases n
  {
    LazyKeeps(f, n);
    if n > 0 {
      LazyKeeps(f, n - 1);
      LazyIsMaximal(f, n - 1);
      ShortenedGroups(f, n, other);
      var shorter := Shortened(other);
      GreedyStaysAhead(f, n - 1, shorter);
      var p := Lazy(f, n - 1);
      var mine, theirs := Groups(p), other[|other| - 1];
      if |mine| == |shorter| && mine != [] && |theirs| > 1 {
        JoinsWithThem(f, n, p, other);
      }
    }
  }

  /** Where another grouping's last message, no shorter, takes the next statement in, so does the greedy one. */
  lemma JoinsWithThem(f: Facts, n: nat, p: Plan, other: seq<seq<nat>>)
    requires n > 0 && f.issues(n - 1) && Grouping(f, n, other) && p.current != []
    requires Concat(p.closed) + p.current == IssuedBelow(f, n - 1)
    requires var theirs := other[|other| - 1]; |theirs| > 1 && |p.current| <= |theirs| - 1
    ensures Legal(f, p.current + [n - 1])
  {
    var theirs := other[|other| - 1];
    assert theirs in other;
    ConcatTail(other, IssuedBelow(f, n));
    var all := IssuedBelow(f, n - 1);
    assert all[|all| - |p.current|..] == p.current;
    var k := |theirs| - |p.current| - 1;
    assert theirs[k..] == p.current + [n - 1];
    SuffixIsLegal(f, theirs, k);
  }

  /** When every operation issues a statement, no grouping the rules allow has fewer messages. */
  lemma PlanIsOptimal(f: Facts, n: nat, other: seq<seq<nat>>)
    requires f.limit >= 1 && (forall i :: 0 <= i < n ==> f.issues(i)) && Grouping(f, n, other)
    ensures Grouping(f, n, EagerMessages(f, n)) && |EagerMessages(f, n)| <= |other|
  {
    MessagesConserveAndSeparate(f, n);
    EagerIsLazy(f, n);
    GreedyStaysAhead(f, n, other);
  }
}
