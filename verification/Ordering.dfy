/** The order both phases of a flush use: topological, the least ready node first. */
module Ordering {

  /** The nodes that must precede a node, itself aside. */
  function Before(dependencies: seq<seq<nat>>, i: nat): set<nat> {
    if i < |dependencies| then (set d | d in dependencies[i] && d != i) else {}
  }

  ghost predicate InRange(dependencies: seq<seq<nat>>) {
    forall i, d :: 0 <= i < |dependencies| && d in dependencies[i] ==> d < |dependencies|
  }

  /** less is a strict total order of the nodes. */
  ghost predicate StrictTotal(less: (nat, nat) -> bool, n: nat) {
    && (forall a :: 0 <= a < n ==> !less(a, a))
    && (forall a, b :: 0 <= a < n && 0 <= b < n && a != b ==> less(a, b) || less(b, a))
    && (forall a, b, c :: 0 <= a < n && 0 <= b < n && 0 <= c < n && less(a, b) && less(b, c) ==> less(a, c))
  }

  function Set(s: seq<nat>): set<nat> {
    set x | x in s
  }

  /** A node not yet placed all of whose dependencies are. */
  ghost predicate Ready(dependencies: seq<seq<nat>>, done: set<nat>, i: nat) {
    i < |dependencies| && i !in done && Before(dependencies, i) <= done
  }

  ghost predicate LeastReady(dependencies: seq<seq<nat>>, less: (nat, nat) -> bool, done: set<nat>, i: nat) {
    Ready(dependencies, done, i) && forall j :: Ready(dependencies, done, j) && j != i ==> less(i, j)
  }

  /** Every step takes the least ready node. */
  ghost predicate Greedy(dependencies: seq<seq<nat>>, less: (nat, nat) -> bool, order: seq<nat>) {
    forall k :: 0 <= k < |order| ==> LeastReady(dependencies, less, Set(order[..k]), order[k])
  }

  /** Nothing is ready when the order ends. */
  ghost predicate Stuck(dependencies: seq<seq<nat>>, order: seq<nat>) {
    forall i :: 0 <= i < |dependencies| ==> !Ready(dependencies, Set(order), i)
  }

  // --- the order is unique ----------------------------------------------------------------------

  lemma {:induction false} GreedyAgrees(dependencies: seq<seq<nat>>, less: (nat, nat) -> bool, a: seq<nat>,
      b: seq<nat>, k: nat)
    requires StrictTotal(less, |dependencies|)
    requires Greedy(dependencies, less, a) && Greedy(dependencies, less, b) && k <= |a| && k <= |b|
    ensures a[..k] == b[..k]
  {
    if k > 0 {
      GreedyAgrees(dependencies, less, a, b, k - 1);
      assert LeastReady(dependencies, less, Set(a[..k - 1]), a[k - 1]) &&
             LeastReady(dependencies, less, Set(b[..k - 1]), b[k - 1]);
      assert a[k - 1] == b[k - 1];
    }
  }

  /** There is one order that takes the least ready node at each step until none is left. */
  lemma OrderIsUnique(dependencies: seq<seq<nat>>, less: (nat, nat) -> bool, a: seq<nat>, b: seq<nat>)
    requires StrictTotal(less, |dependencies|)
    requires Greedy(dependencies, less, a) && Greedy(dependencies, less, b) && Stuck(dependencies, a) &&
             Stuck(dependencies, b)
    ensures a == b
  {
    var k := if |a| < |b| then |a| else |b|;
    GreedyAgrees(dependencies, less, a, b, k);
    if |a| < |b| {
      PrefixIsNotStuck(dependencies, less, a, b);
    } else if |b| < |a| {
      PrefixIsNotStuck(dependencies, less, b, a);
    }
  }

  lemma PrefixIsNotStuck(dependencies: seq<seq<nat>>, less: (nat, nat) -> bool, a: seq<nat>, b: seq<nat>)
    requires Greedy(dependencies, less, b) && |a| < |b| && b[..|a|] == a[..|a|]
    ensures !Stuck(dependencies, a)
  {
    assert a[..|a|] == a;
    assert LeastReady(dependencies, less, Set(b[..|a|]), b[|a|]);
  }

  // --- the order exists exactly without a cycle -----------------------------------------------------

  /** Each node depends on the next, and the last on the first. */
  ghost predicate Cycle(dependencies: seq<seq<nat>>, c: seq<nat>) {
    && c != [] && c[0] in Before(dependencies, c[|c| - 1])
    && (forall i :: 0 <= i < |c| ==> c[i] < |dependencies|)
    && (forall i :: 0 <= i < |c| - 1 ==> c[i + 1] in Before(dependencies, c[i]))
  }

  /** Every node once, each after everything it depends on. */
  ghost predicate Topological(dependencies: seq<seq<nat>>, order: seq<nat>) {
    && (forall i :: 0 <= i < |dependencies| ==> i in order)
    && (forall k :: 0 <= k < |order| ==> order[k] < |dependencies|)
    && (forall a, b :: 0 <= a < b < |order| ==> order[a] != order[b])
    && (forall k, d :: 0 <= k < |order| && d in Before(dependencies, order[k]) ==> d in order[..k])
  }

  lemma GreedyIsDistinct(dependencies: seq<seq<nat>>, less: (nat, nat) -> bool, order: seq<nat>)
    requires Greedy(dependencies, less, order)
    ensures forall a, b :: 0 <= a < b < |order| ==> order[a] != order[b]
    ensures forall k, d :: 0 <= k < |order| && d in Before(dependencies, order[k]) ==> d in order[..k]
    ensures forall k :: 0 <= k < |order| ==> order[k] < |dependencies|
  {
    forall a, b | 0 <= a < b < |order|
      ensures order[a] != order[b]
    {
      assert LeastReady(dependencies, less, Set(order[..b]), order[b]);
      assert order[..b][a] == order[a];
    }
    forall k, d | 0 <= k < |order| && d in Before(dependencies, order[k])
      ensures d in order[..k]
    {
      assert LeastReady(dependencies, less, Set(order[..k]), order[k]);
    }
    forall k | 0 <= k < |order|
      ensures order[k] < |dependencies|
    {
      assert LeastReady(dependencies, less, Set(order[..k]), order[k]);
    }
  }

  function Nodes(n: nat): (nodes: set<nat>)
    ensures forall i: nat :: i in nodes <==> i < n
    ensures |nodes| == n
  {
    if n == 0 then {} else Nodes(n - 1) + {n - 1}
  }

  lemma {:induction false} DistinctSize(s: seq<nat>)
    requires forall a, b :: 0 <= a < b < |s| ==> s[a] != s[b]
    ensures |Set(s)| == |s|
  {
    if s != [] {
      var k := |s| - 1;
      DistinctSize(s[..k]);
      assert Set(s) == Set(s[..k]) + {s[k]};
    }
  }

  lemma FullIsTopological(dependencies: seq<seq<nat>>, less: (nat, nat) -> bool, order: seq<nat>)
    requires Greedy(dependencies, less, order) && |order| == |dependencies|
    ensures Topological(dependencies, order)
  {
    GreedyIsDistinct(dependencies, less, order);
    DistinctSize(order);
    assert Set(order) <= Nodes(|dependencies|);
    SubsetOfSameSize(Set(order), Nodes(|dependencies|));
    forall i | 0 <= i < |dependencies|
      ensures i in order
    {
      assert i in Nodes(|dependencies|);
    }
  }

  lemma SubsetOfSameSize(a: set<nat>, b: set<nat>)
    requires a <= b && |a| == |b|
    ensures a == b
  {
    assert |b - a| == |b| - |a|;
  }

  lemma {:induction false} PositionsFall(dependencies: seq<seq<nat>>, order: seq<nat>, c: seq<nat>, i: nat, at: nat)
    requires Topological(dependencies, order) && Cycle(dependencies, c) && i < |c| && at < |order| && order[at] == c[0]
    ensures i > 0 ==> c[i] in order[..at]
  {
    if i > 0 {
      PositionsFall(dependencies, order, c, i - 1, at);
      assert c[i - 1 + 1] in Before(dependencies, c[i - 1]);
      var before :| 0 <= before < |order| && order[before] == c[i - 1] && (i > 1 ==> before < at) &&
      (i == 1 ==> before == at);
      assert c[i] in order[..before];
    }
  }

  /** Where every node is placed after its dependencies, no cycle is. */
  lemma TopologicalHasNoCycle(dependencies: seq<seq<nat>>, order: seq<nat>, c: seq<nat>)
    requires Topological(dependencies, order)
    ensures !Cycle(dependencies, c)
  {
    if Cycle(dependencies, c) {
      assert c[0] in order;
      var at :| 0 <= at < |order| && order[at] == c[0];
      var k := |c| - 1;
      PositionsFall(dependencies, order, c, k, at);
      assert false;
    }
  }

  /** A node of the set that waits for another of the set. */
  ghost predicate Waits(dependencies: seq<seq<nat>>, left: set<nat>, i: nat) {
    i < |dependencies| && exists d :: d in Before(dependencies, i) && d in left
  }

  ghost predicate Steps(dependencies: seq<seq<nat>>, left: set<nat>, w: seq<nat>) {
    && (forall i :: 0 <= i < |w| ==> w[i] in left)
    && (forall i, j :: 0 <= i && j == i + 1 < |w| ==> w[j] in Before(dependencies, w[i]))
  }

  lemma WaitedFor(dependencies: seq<seq<nat>>, left: set<nat>, i: nat) returns (d: nat)
    requires i in left && forall i :: i in left ==> Waits(dependencies, left, i)
    ensures d in Before(dependencies, i) && d in left
  {
    assert Waits(dependencies, left, i);
    d :| d in Before(dependencies, i) && d in left;
  }

  lemma OneMore(dependencies: seq<seq<nat>>, left: set<nat>, w: seq<nat>) returns (longer: seq<nat>)
    requires w != [] && Steps(dependencies, left, w) && forall i :: i in left ==> Waits(dependencies, left, i)
    ensures |longer| == |w| + 1 && Steps(dependencies, left, longer)
  {
    var d := WaitedFor(dependencies, left, w[|w| - 1]);
    longer := w + [d];
  }

  /** Walking from a node that waits to one it waits for, over and over. */
  lemma {:induction false} Walk(dependencies: seq<seq<nat>>, left: set<nat>, start: nat, steps: nat)
    returns (w: seq<nat>)
    requires start in left && forall i :: i in left ==> Waits(dependencies, left, i)
    ensures |w| == steps + 1 && Steps(dependencies, left, w)
  {
    if steps == 0 {
      w := [start];
    } else {
      var shorter := Walk(dependencies, left, start, steps - 1);
      w := OneMore(dependencies, left, shorter);
    }
  }

  /** A walk longer than the nodes are many comes back to one of them. */
  lemma Repeats(w: seq<nat>, left: set<nat>) returns (a: nat, b: nat)
    requires |w| > |left| && forall i :: 0 <= i < |w| ==> w[i] in left
    ensures a < b < |w| && w[a] == w[b]
  {
    if forall i, j :: 0 <= i < j < |w| ==> w[i] != w[j] {
      DistinctSize(w);
      SubsetSize(Set(w), left);
      assert false;
    }
    a, b :| 0 <= a < b < |w| && w[a] == w[b];
  }

  lemma SubsetSize(a: set<nat>, b: set<nat>)
    requires a <= b
    ensures |a| <= |b|
  {
    assert |b - a| == |b| - |a|;
  }

  /** Between two visits of one node a walk is a cycle. */
  lemma LoopIsCycle(dependencies: seq<seq<nat>>, left: set<nat>, w: seq<nat>, a: nat, b: nat)
    requires Steps(dependencies, left, w) && a < b < |w| && w[a] == w[b]
    requires forall i :: i in left ==> Waits(dependencies, left, i)
    ensures Cycle(dependencies, w[a..b]) && forall i :: 0 <= i < |w[a..b]| ==> w[a..b][i] in left
  {
    var c := w[a..b];
    forall i | 0 <= i < |c|
      ensures c[i] < |dependencies| && w[a + i + 1] in Before(dependencies, c[i])
    {
      var j := a + i + 1;
      assert Waits(dependencies, left, w[a + i]);
      assert w[j] in Before(dependencies, w[a + i]);
    }
  }

  /** Nodes that all wait for one another contain a cycle. */
  lemma WaitersHaveCycle(dependencies: seq<seq<nat>>, left: set<nat>) returns (c: seq<nat>)
    requires left != {} && forall i :: i in left ==> Waits(dependencies, left, i)
    ensures Cycle(dependencies, c) && forall i :: 0 <= i < |c| ==> c[i] in left
  {
    var start :| start in left;
    var w := Walk(dependencies, left, start, |left|);
    c := LoopOfWalk(dependencies, left, w);
  }

  lemma LoopOfWalk(dependencies: seq<seq<nat>>, left: set<nat>, w: seq<nat>) returns (c: seq<nat>)
    requires Steps(dependencies, left, w) && |w| > |left| && forall i :: i in left ==> Waits(dependencies, left, i)
    ensures Cycle(dependencies, c) && forall i :: 0 <= i < |c| ==> c[i] in left
  {
    var a, b := Repeats(w, left);
    LoopIsCycle(dependencies, left, w, a, b);
    c := w[a..b];
  }

  /** The nodes a stuck order leaves out wait for one another. */
  lemma LeftOverWaits(dependencies: seq<seq<nat>>, order: seq<nat>, i: nat)
    requires InRange(dependencies) && Stuck(dependencies, order) && i < |dependencies| && i !in order
    ensures Waits(dependencies, Nodes(|dependencies|) - Set(order), i)
  {
    assert !Ready(dependencies, Set(order), i);
    var d :| d in Before(dependencies, i) && d !in Set(order);
    assert d in dependencies[i];
  }

  lemma LeftOverHasCycle(dependencies: seq<seq<nat>>, less: (nat, nat) -> bool, order: seq<nat>) returns (c: seq<nat>)
    requires InRange(dependencies) && Greedy(dependencies, less, order) && Stuck(dependencies, order) &&
             |order| != |dependencies|
    ensures Cycle(dependencies, c) && forall i :: 0 <= i < |c| ==> c[i] !in order
  {
    GreedyIsDistinct(dependencies, less, order);
    DistinctSize(order);
    var left := Nodes(|dependencies|) - Set(order);
    assert Set(order) <= Nodes(|dependencies|);
    assert |left| == |dependencies| - |order|;
    forall i | i in left
      ensures Waits(dependencies, left, i)
    {
      LeftOverWaits(dependencies, order, i);
    }
    c := WaitersHaveCycle(dependencies, left);
  }

  /** The order is complete exactly when the dependencies, self-loops dropped, have no cycle. */
  lemma CompleteIffAcyclic(dependencies: seq<seq<nat>>, less: (nat, nat) -> bool, order: seq<nat>)
    requires InRange(dependencies) && Greedy(dependencies, less, order) && Stuck(dependencies, order)
    ensures |order| == |dependencies| <==> !exists c :: Cycle(dependencies, c)
    ensures |order| == |dependencies| ==> Topological(dependencies, order)
  {
    if |order| == |dependencies| {
      FullIsTopological(dependencies, less, order);
      forall c
        ensures !Cycle(dependencies, c)
      {
        TopologicalHasNoCycle(dependencies, order, c);
      }
    } else {
      var c := LeftOverHasCycle(dependencies, less, order);
    }
  }

  // --- the algorithm --------------------------------------------------------------------------------

  ghost predicate NoRepeat(s: seq<nat>) {
    forall a, b :: 0 <= a < b < |s| ==> s[a] != s[b]
  }

  /** The nodes below a bound that depend on one node, listed once. */
  ghost predicate ListsDependents(dependencies: seq<seq<nat>>, list: seq<nat>, d: nat, upTo: nat) {
    NoRepeat(list) && forall i: nat :: i in list <==> i < upTo && d in Before(dependencies, i)
  }

  ghost predicate DependentsListed(dependencies: seq<seq<nat>>, dependents: seq<seq<nat>>, upTo: nat) {
    |dependents| == |dependencies| && forall d: nat :: d < |dependents| ==>
      ListsDependents(dependencies, dependents[d], d, upTo)
  }

  /** The node is added to the list of each node seen, and to no other. */
  ghost predicate NotedUnder(before: seq<seq<nat>>, after: seq<seq<nat>>, seen: set<nat>, i: nat) {
    |after| == |before| && forall d: nat :: d < |before| ==>
      after[d] == if d in seen then before[d] + [i] else before[d]
  }

  /** One node's dependencies counted, each once and itself skipped, and the node listed under each. */
  method CountOne(list: seq<nat>, i: nat, before: seq<seq<nat>>)
    returns (count: nat, dependents: seq<seq<nat>>, ghost seen: set<nat>)
    requires forall d :: d in list ==> d < |before|
    ensures count == |seen| && NotedUnder(before, dependents, seen, i)
    ensures forall d :: d in seen <==> d in list && d != i
  {
    var met: set<nat> := {};
    count, dependents := 0, before;
    for k := 0 to |list|
      invariant count == |met| && NotedUnder(before, dependents, met, i)
      invariant forall d :: d in met <==> d in list[..k] && d != i
    {
      var d := list[k];
      assert d in list && list[..k + 1] == list[..k] + [d];
      if d != i && d !in met {
        met := met + {d};
        count := count + 1;
        dependents := dependents[d := dependents[d] + [i]];
      }
    }
    assert list[..|list|] == list;
    seen := met;
  }

  lemma NotedIsListed(dependencies: seq<seq<nat>>, i: nat, before: seq<seq<nat>>, after: seq<seq<nat>>)
    requires i < |dependencies| && DependentsListed(dependencies, before, i) &&
             NotedUnder(before, after, Before(dependencies, i), i)
    ensures DependentsListed(dependencies, after, i + 1)
  {
    forall d: nat | d < |after|
      ensures ListsDependents(dependencies, after[d], d, i + 1)
    {
      ListGrows(dependencies, before[d], d, i);
    }
  }

  lemma ListGrows(dependencies: seq<seq<nat>>, list: seq<nat>, d: nat, i: nat)
    requires ListsDependents(dependencies, list, d, i)
    ensures ListsDependents(dependencies, if d in Before(dependencies, i) then list + [i] else list, d, i + 1)
  {
    assert i !in list;
  }

  /** The least of the ready nodes, taken out: what the ready heap's Pop gives. */
  method PopLeast(ready: seq<nat>, less: (nat, nat) -> bool, n: nat) returns (node: nat, rest: seq<nat>)
    requires ready != [] && StrictTotal(less, n) && NoRepeat(ready) && (forall x :: x in ready ==> x < n)
    ensures node in ready && (forall x :: x in ready && x != node ==> less(node, x))
    ensures NoRepeat(rest) && forall x :: x in rest <==> x in ready && x != node
  {
    var at := 0;
    for k := 1 to |ready|
      invariant 0 <= at < k
      invariant forall j :: 0 <= j < k && j != at ==> less(ready[at], ready[j])
    {
      assert ready[k] in ready && ready[at] in ready;
      if less(ready[k], ready[at]) {
        forall j | 0 <= j < k + 1 && j != k
          ensures less(ready[k], ready[j])
        {
          assert ready[j] in ready;
        }
        at := k;
      }
    }
    node, rest := ready[at], ready[..at] + ready[at + 1..];
    forall x | x in ready && x != node
      ensures x in rest && less(node, x)
    {
      var j :| 0 <= j < |ready| && ready[j] == x;
      assert rest[if j < at then j else j - 1] == x;
    }
  }

  /** The nodes waiting for nothing more are the ready ones, each listed once. */
  ghost predicate ReadyIs(dependencies: seq<seq<nat>>, done: set<nat>, ready: seq<nat>) {
    NoRepeat(ready) && forall i: nat :: i in ready <==> Ready(dependencies, done, i)
  }

  ghost predicate WaitingIs(dependencies: seq<seq<nat>>, done: set<nat>, waiting: seq<nat>) {
    |waiting| == |dependencies| && forall i: nat :: i < |waiting| ==> waiting[i] == |Before(dependencies, i) - done|
  }

  /** While the dependents of a node just placed are gone through. */
  ghost predicate Releasing(dependencies: seq<seq<nat>>, done: set<nat>, node: nat, told: seq<nat>,
      waiting: seq<nat>, ready: seq<nat>) {
    && |waiting| == |dependencies| && NoRepeat(ready)
    && (forall i: nat :: i < |waiting| ==>
          waiting[i] == |Before(dependencies, i) - (if i in told then done + {node} else done)|)
    && (forall i: nat :: i in ready <==>
          (Ready(dependencies, done, i) && i != node) || (i in told && Ready(dependencies, done + {node}, i)))
  }

  lemma ReleaseOne(dependencies: seq<seq<nat>>, done: set<nat>, node: nat, told: seq<nat>, waiting: seq<nat>,
      ready: seq<nat>, i: nat)
    requires Releasing(dependencies, done, node, told, waiting, ready) && node !in done
    requires i < |dependencies| && node in Before(dependencies, i) && i !in told
    requires forall j :: j in done + {node} ==> Before(dependencies, j) <= done
    ensures waiting[i] > 0
    ensures Releasing(dependencies, done, node, told + [i], waiting[i := waiting[i] - 1], if waiting[i] == 1
                        then ready + [i] else ready)
  {
    OneLess(dependencies, done, node, i);
    var now := Before(dependencies, i) - (done + {node});
    assert waiting[i] == |now| + 1 && (|now| == 0 <==> now == {});
    assert i !in ready && (Ready(dependencies, done + {node}, i) <==> now == {});
    ToldGrows(dependencies, done, node, told, waiting, ready, i);
  }

  /** A node that waits for the one just placed waits for one less, was not ready and is not placed. */
  lemma OneLess(dependencies: seq<seq<nat>>, done: set<nat>, node: nat, i: nat)
    requires node !in done && i < |dependencies| && node in Before(dependencies, i)
    requires forall j :: j in done + {node} ==> Before(dependencies, j) <= done
    ensures |Before(dependencies, i) - done| == |Before(dependencies, i) - (done + {node})| + 1
    ensures i !in done + {node} && !Ready(dependencies, done, i)
  {
    var was, now := Before(dependencies, i) - done, Before(dependencies, i) - (done + {node});
    assert was == now + {node} && node !in now;
  }

  lemma ToldGrows(dependencies: seq<seq<nat>>, done: set<nat>, node: nat, told: seq<nat>, waiting: seq<nat>,
      ready: seq<nat>, i: nat)
    requires Releasing(dependencies, done, node, told, waiting, ready) && i < |dependencies| && i !in told &&
             i !in ready
    requires !Ready(dependencies, done, i)
    requires waiting[i] == |Before(dependencies, i) - (done + {node})| + 1
    requires Ready(dependencies, done + {node}, i) <==> waiting[i] == 1
    ensures Releasing(dependencies, done, node, told + [i], waiting[i := waiting[i] - 1], if waiting[i] == 1
                        then ready + [i] else ready)
  {
    assert forall j :: j in told + [i] <==> j in told || j == i;
    assert forall j :: j in ready + [i] <==> j in ready || j == i;
  }

  /** A placed node's dependents wait for one dependency less; those waiting for none become ready. */
  method Release(dependencies: seq<seq<nat>>, ghost done: set<nat>, node: nat, dependents: seq<nat>,
      before: seq<nat>, open: seq<nat>)
    returns (waiting: seq<nat>, ready: seq<nat>)
    requires node < |dependencies| && node !in done && WaitingIs(dependencies, done, before)
    requires ListsDependents(dependencies, dependents, node, |dependencies|)
    requires NoRepeat(open) && forall i: nat :: i in open <==> Ready(dependencies, done, i) && i != node
    requires forall j :: j in done + {node} ==> Before(dependencies, j) <= done
    ensures WaitingIs(dependencies, done + {node}, waiting) && ReadyIs(dependencies, done + {node}, ready)
  {
    waiting, ready := before, open;
    NothingTold(dependencies, done, node, before, open);
    for k := 0 to |dependents|
      invariant Releasing(dependencies, done, node, dependents[..k], waiting, ready)
    {
      var i := dependents[k];
      NextIsNew(dependents, k);
      ReleaseOne(dependencies, done, node, dependents[..k], waiting, ready, i);
      waiting := waiting[i := waiting[i] - 1];
      if waiting[i] == 0 {
        ready := ready + [i];
      }
    }
    assert dependents[..|dependents|] == dependents;
    ReleasedAll(dependencies, done, node, dependents, waiting, ready);
  }

  lemma NothingTold(dependencies: seq<seq<nat>>, done: set<nat>, node: nat, waiting: seq<nat>, ready: seq<nat>)
    requires WaitingIs(dependencies, done, waiting) && NoRepeat(ready)
    requires forall i: nat :: i in ready <==> Ready(dependencies, done, i) && i != node
    ensures Releasing(dependencies, done, node, [], waiting, ready)
  {
  }

  lemma NextIsNew(list: seq<nat>, k: nat)
    requires NoRepeat(list) && k < |list|
    ensures list[k] in list && list[k] !in list[..k] && list[..k + 1] == list[..k] + [list[k]]
  {
  }

  lemma ReleasedAll(dependencies: seq<seq<nat>>, done: set<nat>, node: nat, dependents: seq<nat>, waiting: seq<nat>,
      ready: seq<nat>)
    requires Releasing(dependencies, done, node, dependents, waiting, ready)
    requires ListsDependents(dependencies, dependents, node, |dependencies|)
    ensures WaitingIs(dependencies, done + {node}, waiting) && ReadyIs(dependencies, done + {node}, ready)
  {
    forall i: nat | i < |waiting|
      ensures waiting[i] == |Before(dependencies, i) - (done + {node})|
    {
      if i !in dependents {
        assert Before(dependencies, i) - done == Before(dependencies, i) - (done + {node});
      }
    }
  }

  /** The counters and the lists the algorithm starts from. */
  method CountAll(dependencies: seq<seq<nat>>) returns (waiting: seq<nat>, dependents: seq<seq<nat>>, ready: seq<nat>)
    requires InRange(dependencies)
    ensures WaitingIs(dependencies, {}, waiting) && DependentsListed(dependencies, dependents, |dependencies|) &&
            ReadyIs(dependencies, {}, ready)
  {
    var n := |dependencies|;
    waiting, dependents := [], seq(n, _ => []);
    for i := 0 to n
      invariant |waiting| == i && DependentsListed(dependencies, dependents, i)
      invariant forall k: nat :: k < i ==> waiting[k] == |Before(dependencies, k) - {}|
    {
      var count;
      ghost var seen;
      ghost var before := dependents;
      count, dependents, seen := CountOne(dependencies[i], i, dependents);
      assert seen == Before(dependencies, i) - {} == Before(dependencies, i);
      NotedIsListed(dependencies, i, before, dependents);
      waiting := waiting + [count];
    }
    ready := ReadyFirst(dependencies, waiting);
  }

  /** The nodes that wait for nothing. */
  method ReadyFirst(dependencies: seq<seq<nat>>, waiting: seq<nat>) returns (ready: seq<nat>)
    requires WaitingIs(dependencies, {}, waiting) && |waiting| == |dependencies|
    ensures ReadyIs(dependencies, {}, ready)
  {
    ready := [];
    for i := 0 to |waiting|
      invariant NoRepeat(ready) && forall k: nat :: k in ready <==> k < i && Ready(dependencies, {}, k)
    {
      assert waiting[i] == 0 <==> Before(dependencies, i) - {} == {};
      assert i !in ready;
      if waiting[i] == 0 {
        ready := ready + [i];
      }
    }
  }

  /**
   The greedy topological order. ok tells whether it places every node; the nodes it leaves out
   contain a cycle.
   */
  method DependencyOrder(dependencies: seq<seq<nat>>, less: (nat, nat) -> bool) returns (order: seq<nat>, ok: bool)
    requires InRange(dependencies) && StrictTotal(less, |dependencies|)
    ensures Greedy(dependencies, less, order) && Stuck(dependencies, order)
    ensures ok <==> !exists c :: Cycle(dependencies, c)
    ensures ok ==> Topological(dependencies, order)
  {
    var n := |dependencies|;
    var waiting, dependents, ready := CountAll(dependencies);
    order := [];
    while ready != []
      invariant Greedy(dependencies, less, order) && WaitingIs(dependencies, Set(order), waiting) &&
                ReadyIs(dependencies, Set(order), ready)
      decreases n - |order|
    {
      var node, open := PopLeast(ready, less, n);
      assert LeastReady(dependencies, less, Set(order), node);
      PlacedAreClosed(dependencies, less, order, node);
      waiting, ready := Release(dependencies, Set(order), node, dependents[node], waiting, open);
      GreedyGrows(dependencies, less, order, node);
      order := order + [node];
    }
    CompleteIffAcyclic(dependencies, less, order);
    ok := |order| == n;
  }

  lemma PlacedAreClosed(dependencies: seq<seq<nat>>, less: (nat, nat) -> bool, order: seq<nat>, node: nat)
    requires Greedy(dependencies, less, order) && LeastReady(dependencies, less, Set(order), node)
    ensures forall j :: j in Set(order) + {node} ==> Before(dependencies, j) <= Set(order)
  {
    GreedyIsDistinct(dependencies, less, order);
    forall j | j in Set(order)
      ensures Before(dependencies, j) <= Set(order)
    {
      var k :| 0 <= k < |order| && order[k] == j;
      assert forall d :: d in Before(dependencies, order[k]) ==> d in order[..k];
    }
  }

  lemma GreedyGrows(dependencies: seq<seq<nat>>, less: (nat, nat) -> bool, order: seq<nat>, node: nat)
    requires Greedy(dependencies, less, order) && LeastReady(dependencies, less, Set(order), node)
    ensures Greedy(dependencies, less, order + [node])
    ensures Set(order + [node]) == Set(order) + {node} && |order| < |dependencies|
  {
    var grown := order + [node];
    forall k | 0 <= k < |grown|
      ensures LeastReady(dependencies, less, Set(grown[..k]), grown[k])
    {
      assert grown[..k] == if k < |order| then order[..k] else order;
    }
    GreedyIsShort(dependencies, less, grown);
  }

  lemma GreedyIsShort(dependencies: seq<seq<nat>>, less: (nat, nat) -> bool, order: seq<nat>)
    requires Greedy(dependencies, less, order)
    ensures |order| <= |dependencies|
  {
    GreedyIsDistinct(dependencies, less, order);
    DistinctSize(order);
    forall k | 0 <= k < |order|
      ensures order[k] in Nodes(|dependencies|)
    {
      assert LeastReady(dependencies, less, Set(order[..k]), order[k]);
    }
    SubsetSize(Set(order), Nodes(|dependencies|));
  }
}
