/** The strongly connected components of the entity types' references, by Tarjan's search. */
module Components {
  import opened Reachability

  /** What the depth-first search keeps. */
  datatype Search = Search(
    index: map<nat, nat>,
    low: map<nat, nat>,
    stack: seq<nat>,
    component: map<nat, nat>,
    components: seq<seq<nat>>,
    next: nat)

  function Members(nodes: seq<nat>): set<nat> { set x | x in nodes }

  function OnStack(s: Search): set<nat> { Members(s.stack) }

  // --- the search's invariant, gray being the nodes it is in the middle of ----------------------

  ghost predicate Numbered(g: Graph, s: Search) {
    && (forall t :: t in s.index ==> t < |g| && s.index[t] < s.next)
    && (forall t :: t in s.index <==> t in s.low)
    && (forall i :: 0 <= i < |s.stack| ==> s.stack[i] in s.index)
    && (forall i, j :: 0 <= i < j < |s.stack| ==> s.index[s.stack[i]] < s.index[s.stack[j]])
  }

  /**
   A visited node is on the stack or in a component, and not both; nodes left for good have no unvisited
   dependency.
   */
  ghost predicate Colored(g: Graph, s: Search, gray: set<nat>) {
    && (forall t :: t in s.index <==> t in s.stack || t in s.component)
    && (forall t :: t in s.stack ==> t !in s.component)
    && gray <= OnStack(s)
    && (forall a, b :: a in s.index && a !in gray && Edge(g, a, b) ==> b in s.index)
  }

  /** A stack node reaches those above it, and an unfinished one at or below it. */
  ghost predicate Chained(g: Graph, s: Search, gray: set<nat>) {
    && (forall i, j :: 0 <= i <= j < |s.stack| ==> Reach(g, s.stack[i], s.stack[j]))
    && (forall j :: 0 <= j < |s.stack| ==> Rooted(g, s, gray, j))
  }

  ghost predicate Rooted(g: Graph, s: Search, gray: set<nat>, j: nat)
    requires j < |s.stack|
  {
    exists i :: 0 <= i <= j && s.stack[i] in gray && Reach(g, s.stack[j], s.stack[i])
  }

  /** The finished components are the strongly connected ones, each numbered after those it depends on. */
  ghost predicate Finished(g: Graph, s: Search) {
    Later(g, s) && Maximal(g, s) && InComponents(s)
  }

  ghost predicate Later(g: Graph, s: Search) {
    forall a, b :: a in s.component && Edge(g, a, b) ==> b in s.component && s.component[b] <= s.component[a]
  }

  ghost predicate Maximal(g: Graph, s: Search) {
    forall a, b :: a in s.component && b in s.component ==> (s.component[a] == s.component[b] <==> Mutual(g, a, b))
  }

  ghost predicate InComponents(s: Search) {
    && (forall a :: a in s.component ==> s.component[a] < |s.components|)
    && (forall c, x :: 0 <= c < |s.components| ==> (x in s.components[c] <==> x in s.component && s.component[x] == c))
  }

  ghost predicate Inv(g: Graph, s: Search, gray: set<nat>) {
    Numbered(g, s) && Colored(g, s, gray) && Chained(g, s, gray) && Finished(g, s)
  }

  /** What a search from a node may have changed: it went on, and the stack below is as it was. */
  ghost predicate Extends(s: Search, after: Search) {
    && |s.stack| <= |after.stack| && after.stack[..|s.stack|] == s.stack
    && s.next <= after.next
    && (forall t :: t in s.index ==> t in after.index && after.index[t] == s.index[t])
    && (forall t :: t in s.component ==> t in after.component && after.component[t] == s.component[t])
  }

  ghost predicate LowsKept(s: Search, after: Search, changed: set<nat>) {
    forall t :: t in s.low && t !in changed ==> t in after.low && after.low[t] == s.low[t]
  }

  /** No edge from the stack above a height to below it falls under a low link. */
  ghost predicate Bounded(g: Graph, s: Search, from: nat, height: nat, low: nat) {
    forall a, b :: from <= a < |s.stack| && 0 <= b < height && b < |s.stack| && Edge(g, s.stack[a], s.stack[b]) &&
                   s.stack[b] in s.index
      ==> low <= s.index[s.stack[b]]
  }

  // --- entering a node ---------------------------------------------------------------------------

  function Enter(s: Search, t: nat): Search {
    s.(index := s.index[t := s.next], low := s.low[t := s.next], stack := s.stack + [t], next := s.next + 1)
  }

  lemma EnterChains(g: Graph, s: Search, gray: set<nat>, t: nat)
    requires Inv(g, s, gray) && t !in s.index && t < |g| && forall x :: x in gray ==> Reach(g, x, t)
    ensures Chained(g, Enter(s, t), gray + {t})
  {
    var e := Enter(s, t);
    ReachSelf(g, t);
    forall i | 0 <= i < |s.stack|
      ensures Reach(g, s.stack[i], t)
    {
      assert Rooted(g, s, gray, i);
      var k :| 0 <= k <= i && s.stack[k] in gray && Reach(g, s.stack[i], s.stack[k]);
      ReachTrans(g, s.stack[i], s.stack[k], t);
    }
    forall j | 0 <= j < |e.stack|
      ensures Rooted(g, e, gray + {t}, j)
    {
      if j < |s.stack| {
        assert Rooted(g, s, gray, j);
        var k :| 0 <= k <= j && s.stack[k] in gray && Reach(g, s.stack[j], s.stack[k]);
        assert e.stack[k] == s.stack[k] && e.stack[j] == s.stack[j];
      } else {
        assert e.stack[j] == t;
      }
    }
  }

  lemma EnterNumbers(g: Graph, s: Search, gray: set<nat>, t: nat)
    requires Numbered(g, s) && Colored(g, s, gray) && t !in s.index && t < |g|
    ensures Numbered(g, Enter(s, t)) && Colored(g, Enter(s, t), gray + {t})
  {
    var e := Enter(s, t);
    assert forall x :: x in e.stack <==> x in s.stack || x == t;
    assert gray + {t} <= OnStack(e);
  }

  lemma FinishedStays(g: Graph, s: Search, after: Search)
    requires Finished(g, s) && after.component == s.component && after.components == s.components
    ensures Finished(g, after)
  {
  }

  lemma EnterKeeps(g: Graph, s: Search, gray: set<nat>, t: nat)
    requires Inv(g, s, gray) && t !in s.index && t < |g| && forall x :: x in gray ==> Reach(g, x, t)
    ensures Inv(g, Enter(s, t), gray + {t}) && Extends(s, Enter(s, t))
  {
    EnterNumbers(g, s, gray, t);
    EnterChains(g, s, gray, t);
    FinishedStays(g, s, Enter(s, t));
    assert Enter(s, t).stack[..|s.stack|] == s.stack;
  }

  // --- leaving a node -----------------------------------------------------------------------------

  /** What a run of pops takes off, in the order it comes off. */
  function Backwards(s: seq<nat>): (r: seq<nat>)
    ensures |r| == |s| && forall x :: x in r <==> x in s
  {
    if s == [] then [] else
      assert s == s[..|s| - 1] + [s[|s| - 1]];
      [s[|s| - 1]] + Backwards(s[..|s| - 1])
  }

  /** The node's component is the stack from the node up. */
  function PopTo(s: Search, height: nat): Search
    requires height <= |s.stack|
  {
    s.(stack := s.stack[..height],
       component := map x | x in s.component.Keys + (set y | y in s.stack[height..]) ::
                      if x in s.component then s.component[x] else |s.components|,
       components := s.components + [Backwards(s.stack[height..])])
  }

  ghost function Above(s: Search, height: nat): set<nat>
    requires height <= |s.stack|
  {
    set x | x in s.stack[height..]
  }

  /** With no edge to the stack below, what is above a root and what is finished depend on nothing else. */
  lemma RootIsClosed(g: Graph, s: Search, gray: set<nat>, height: nat)
    requires Inv(g, s, gray) && height < |s.stack|
    requires forall i :: height < i < |s.stack| ==> s.stack[i] !in gray
    requires forall b :: Edge(g, s.stack[height], b) ==> b in s.index
    requires Bounded(g, s, height, height, s.index[s.stack[height]])
    ensures Closed(g, Above(s, height) + s.component.Keys)
  {
    forall a, b | a in Above(s, height) + s.component.Keys && Edge(g, a, b)
      ensures b in Above(s, height) + s.component.Keys
    {
      if a in s.component {
        assert b in s.component;
      } else {
        var i :| 0 <= i < |s.stack[height..]| && s.stack[height..][i] == a;
        assert a == s.stack[height + i] && b in s.index;
        if b !in s.component {
          var j :| 0 <= j < |s.stack| && s.stack[j] == b;
          assert j >= height;
          assert s.stack[height..][j - height] == b;
        }
      }
    }
  }

  /** Every node above a root is on a cycle with it. */
  lemma AboveRootIsMutual(g: Graph, s: Search, gray: set<nat>, height: nat, x: nat)
    requires Inv(g, s, gray) && height < |s.stack|
    requires forall i :: height < i < |s.stack| ==> s.stack[i] !in gray
    requires Closed(g, Above(s, height) + s.component.Keys) && x in Above(s, height)
    ensures Mutual(g, s.stack[height], x)
  {
    var i :| 0 <= i < |s.stack[height..]| && s.stack[height..][i] == x;
    assert x == s.stack[height + i];
    assert Rooted(g, s, gray, height + i);
    var k :| 0 <= k <= height + i && s.stack[k] in gray && Reach(g, x, s.stack[k]);
    ReachStays(g, Above(s, height) + s.component.Keys, x, s.stack[k]);
    assert s.stack[k] in s.stack && s.stack[k] !in s.component;
    var m :| 0 <= m < |s.stack[height..]| && s.stack[height..][m] == s.stack[k];
    assert s.stack[height + m] == s.stack[k] && s.index[s.stack[height + m]] == s.index[s.stack[k]];
    assert height + m == k;
  }

  lemma PopMutual(g: Graph, s: Search, gray: set<nat>, height: nat, a: nat, b: nat)
    requires Inv(g, s, gray) && height < |s.stack|
    requires forall i :: height < i < |s.stack| ==> s.stack[i] !in gray
    requires Closed(g, Above(s, height) + s.component.Keys)
    requires a in Above(s, height)
    ensures b in Above(s, height) ==> Mutual(g, a, b)
    ensures b in s.component ==> !Mutual(g, a, b)
  {
    AboveRootIsMutual(g, s, gray, height, a);
    if b in Above(s, height) {
      AboveRootIsMutual(g, s, gray, height, b);
      MutualTrans(g, a, s.stack[height], b);
    }
    if b in s.component && Mutual(g, a, b) {
      assert Closed(g, s.component.Keys);
      ReachStays(g, s.component.Keys, b, a);
    }
  }

  lemma PopComponents(s: Search, height: nat, x: nat)
    requires height <= |s.stack|
    ensures x in PopTo(s, height).component <==> x in s.component || x in Above(s, height)
    ensures x in s.component ==> PopTo(s, height).component[x] == s.component[x]
    ensures x in Above(s, height) && x !in s.component ==> PopTo(s, height).component[x] == |s.components|
  {
  }

  lemma PopSame(g: Graph, s: Search, gray: set<nat>, height: nat, a: nat, b: nat)
    requires Inv(g, s, gray) && height < |s.stack|
    requires forall i :: height < i < |s.stack| ==> s.stack[i] !in gray
    requires Closed(g, Above(s, height) + s.component.Keys)
    requires a in PopTo(s, height).component && b in PopTo(s, height).component
    ensures PopTo(s, height).component[a] == PopTo(s, height).component[b] <==> Mutual(g, a, b)
  {
    PopComponents(s, height, a);
    PopComponents(s, height, b);
    if a in Above(s, height) {
      assert a in s.stack;
      PopMutual(g, s, gray, height, a, b);
    } else if b in Above(s, height) {
      assert b in s.stack;
      PopMutual(g, s, gray, height, b, a);
    }
  }

  lemma PopEdges(g: Graph, s: Search, height: nat, a: nat, b: nat)
    requires Finished(g, s) && height < |s.stack| && (forall x :: x in s.stack ==> x !in s.component)
    requires Closed(g, Above(s, height) + s.component.Keys)
    requires a in PopTo(s, height).component && Edge(g, a, b)
    ensures b in PopTo(s, height).component && PopTo(s, height).component[b] <= PopTo(s, height).component[a]
  {
    PopComponents(s, height, a);
    assert a in Above(s, height) + s.component.Keys;
    PopComponents(s, height, b);
    if a in Above(s, height) {
      assert a in s.stack;
    }
    if b in Above(s, height) {
      assert b in s.stack;
    }
  }

  lemma PopFinishes(g: Graph, s: Search, gray: set<nat>, height: nat)
    requires Inv(g, s, gray) && height < |s.stack|
    requires forall i :: height < i < |s.stack| ==> s.stack[i] !in gray
    requires Closed(g, Above(s, height) + s.component.Keys)
    ensures Finished(g, PopTo(s, height))
  {
    var p := PopTo(s, height);
    forall a, b | a in p.component && b in p.component
      ensures p.component[a] == p.component[b] <==> Mutual(g, a, b)
    {
      PopSame(g, s, gray, height, a, b);
    }
    PopLists(s, height);
    forall a, b | a in p.component && Edge(g, a, b)
      ensures b in p.component && p.component[b] <= p.component[a]
    {
      PopEdges(g, s, height, a, b);
    }
    assert Later(g, p) && Maximal(g, p);
  }

  lemma PopLists(s: Search, height: nat)
    requires height < |s.stack| && (forall x :: x in s.stack ==> x !in s.component) && InComponents(s)
    ensures InComponents(PopTo(s, height))
  {
    var p := PopTo(s, height);
    forall x | x in p.component
      ensures p.component[x] < |p.components|
    {
      PopComponents(s, height, x);
    }
    forall c, x | 0 <= c < |p.components|
      ensures x in p.components[c] <==> x in p.component && p.component[x] == c
    {
      PopComponents(s, height, x);
      if c < |s.components| {
        assert p.components[c] == s.components[c];
        if x in s.stack[height..] {
          assert x in s.stack;
        }
      } else {
        assert p.components[c] == Backwards(s.stack[height..]);
      }
    }
  }

  /** The stack splits at a height: what is below and what is above have nothing in common. */
  lemma StackSplits(g: Graph, s: Search, height: nat)
    requires Numbered(g, s) && height <= |s.stack|
    ensures forall x :: x in s.stack <==> x in s.stack[..height] || x in s.stack[height..]
    ensures forall x :: x in s.stack[..height] ==> x !in s.stack[height..]
  {
    assert s.stack == s.stack[..height] + s.stack[height..];
    forall x | x in s.stack[..height]
      ensures x !in s.stack[height..]
    {
      var i :| 0 <= i < height && s.stack[i] == x;
      forall j | 0 <= j < |s.stack[height..]|
        ensures s.stack[height..][j] != x
      {
        assert s.index[s.stack[i]] < s.index[s.stack[height + j]];
      }
    }
  }

  lemma PopNumbers(g: Graph, s: Search, height: nat)
    requires Numbered(g, s) && height <= |s.stack|
    ensures Numbered(g, PopTo(s, height))
  {
    var p := PopTo(s, height);
    assert forall i :: 0 <= i < height ==> p.stack[i] == s.stack[i];
  }

  lemma PopColors(g: Graph, s: Search, gray: set<nat>, height: nat, t: nat)
    requires Numbered(g, s) && Colored(g, s, gray + {t}) && t !in gray && height < |s.stack| && s.stack[height] == t
    requires forall i :: height < i < |s.stack| ==> s.stack[i] !in gray + {t}
    requires forall b :: Edge(g, t, b) ==> b in s.index
    ensures Colored(g, PopTo(s, height), gray)
  {
    var p := PopTo(s, height);
    StackSplits(g, s, height);
    GrayBelow(g, s, gray, height, t);
    forall x
      ensures x in p.component <==> x in s.component || x in s.stack[height..]
    {
      PopComponents(s, height, x);
    }
    assert OnStack(s.(stack := s.stack[..height])) == OnStack(p);
  }

  lemma PopRoots(g: Graph, s: Search, gray: set<nat>, height: nat, t: nat, j: nat)
    requires height < |s.stack| && s.stack[height] == t && j < height && Rooted(g, s, gray + {t}, j)
    requires forall i :: 0 <= i < height ==> s.stack[i] != t
    ensures Rooted(g, PopTo(s, height), gray, j)
  {
    var p := PopTo(s, height);
    var i :| 0 <= i <= j && s.stack[i] in gray + {t} && Reach(g, s.stack[j], s.stack[i]);
    assert s.stack[i] != t;
    assert p.stack[i] == s.stack[i] && p.stack[j] == s.stack[j];
  }

  lemma PopChains(g: Graph, s: Search, gray: set<nat>, height: nat, t: nat)
    requires Chained(g, s, gray + {t}) && height < |s.stack| && s.stack[height] == t
    requires forall i :: 0 <= i < height ==> s.stack[i] != t
    ensures Chained(g, PopTo(s, height), gray)
  {
    var p := PopTo(s, height);
    forall i, j | 0 <= i <= j < |p.stack|
      ensures Reach(g, p.stack[i], p.stack[j])
    {
      assert Reach(g, s.stack[i], s.stack[j]);
    }
    forall j | 0 <= j < |p.stack|
      ensures Rooted(g, p, gray, j)
    {
      assert Rooted(g, s, gray + {t}, j);
      PopRoots(g, s, gray, height, t, j);
    }
  }

  lemma PopKeeps(g: Graph, s: Search, gray: set<nat>, height: nat, t: nat)
    requires Inv(g, s, gray + {t}) && t !in gray && height < |s.stack| && s.stack[height] == t
    requires forall i :: height < i < |s.stack| ==> s.stack[i] !in gray + {t}
    requires forall b :: Edge(g, t, b) ==> b in s.index
    requires Bounded(g, s, height, height, s.index[t])
    ensures Inv(g, PopTo(s, height), gray)
  {
    RootIsClosed(g, s, gray + {t}, height);
    PopFinishes(g, s, gray + {t}, height);
    GrayBelow(g, s, gray, height, t);
    PopNumbers(g, s, height);
    PopColors(g, s, gray, height, t);
    PopChains(g, s, gray, height, t);
  }

  lemma GrayBelow(g: Graph, s: Search, gray: set<nat>, height: nat, t: nat)
    requires Numbered(g, s) && Colored(g, s, gray + {t}) && t !in gray && height < |s.stack| && s.stack[height] == t
    requires forall i :: height < i < |s.stack| ==> s.stack[i] !in gray + {t}
    ensures gray <= OnStack(s.(stack := s.stack[..height]))
    ensures forall i :: 0 <= i < height ==> s.stack[i] != t
  {
    forall i | 0 <= i < height
      ensures s.stack[i] != t
    {
      assert s.index[s.stack[i]] < s.index[s.stack[height]];
    }
    forall x | x in gray
      ensures x in s.stack[..height]
    {
      assert x in OnStack(s);
      var i :| 0 <= i < |s.stack| && s.stack[i] == x;
      assert s.stack[..height][i] == x;
    }
  }

  /** Left on the stack, the node reaches an unfinished one below it. */
  lemma StayChains(g: Graph, s: Search, gray: set<nat>, height: nat, t: nat, y: nat)
    requires Chained(g, s, gray + {t}) && t !in gray && height < |s.stack| && s.stack[height] == t
    requires forall i :: 0 <= i < height ==> s.stack[i] != t
    requires y < height && Reach(g, t, s.stack[y])
    ensures Chained(g, s, gray)
  {
    assert Rooted(g, s, gray + {t}, y);
    var r :| 0 <= r <= y && s.stack[r] in gray + {t} && Reach(g, s.stack[y], s.stack[r]);
    assert s.stack[r] in gray;
    forall j | 0 <= j < |s.stack|
      ensures Rooted(g, s, gray, j)
    {
      assert Rooted(g, s, gray + {t}, j);
      var i :| 0 <= i <= j && s.stack[i] in gray + {t} && Reach(g, s.stack[j], s.stack[i]);
      if s.stack[i] == t {
        ReachTrans(g, s.stack[j], t, s.stack[y]);
        ReachTrans(g, s.stack[j], s.stack[y], s.stack[r]);
        assert r <= j;
      }
    }
  }

  lemma StayKeeps(g: Graph, s: Search, gray: set<nat>, height: nat, t: nat, y: nat)
    requires Inv(g, s, gray + {t}) && t !in gray && height < |s.stack| && s.stack[height] == t
    requires forall i :: height < i < |s.stack| ==> s.stack[i] !in gray + {t}
    requires forall b :: Edge(g, t, b) ==> b in s.index
    requires y < height && Reach(g, t, s.stack[y])
    ensures Inv(g, s, gray)
  {
    GrayBelow(g, s, gray, height, t);
    StackSplits(g, s, height);
    StayChains(g, s, gray, height, t, y);
  }

  // --- the low link ---------------------------------------------------------------------------------

  /** A low link names a stack node at or below a height that the node reaches. */
  ghost predicate Linked(g: Graph, s: Search, t: nat, height: nat, low: nat) {
    exists y :: 0 <= y <= height && y < |s.stack| && Names(g, s, t, y, low)
  }

  ghost predicate Names(g: Graph, s: Search, t: nat, y: nat, low: nat)
    requires y < |s.stack|
  {
    s.stack[y] in s.index && s.index[s.stack[y]] == low && Reach(g, t, s.stack[y])
  }

  /**
   The dependencies looked at so far are visited, and those below the node on the stack are no lower than its
   low link.
   */
  ghost predicate LookedAt(g: Graph, s: Search, t: nat, height: nat, count: nat, low: nat)
    requires t < |g| && count <= |g[t]|
  {
    forall k :: 0 <= k < count ==> g[t][k] in s.index &&
                                   (g[t][k] in s.stack[..Least(height, |s.stack|)] ==> low <= s.index[g[t][k]])
  }

  function Least(a: nat, b: nat): nat { if a <= b then a else b }

  lemma StackClimbs(g: Graph, s: Search, i: nat, j: nat)
    requires Numbered(g, s) && i < |s.stack| && j < |s.stack|
    ensures i < j ==> s.index[s.stack[i]] < s.index[s.stack[j]]
  {
  }

  /** Of a node's new low link, taken from a dependency it reaches: it still names a node at or below it. */
  lemma LinkThrough(g: Graph, s: Search, t: nat, dep: nat, height: nat, y: nat, low: nat)
    requires Numbered(g, s) && height < |s.stack| && Reach(g, t, dep)
    requires y < |s.stack| && Names(g, s, dep, y, low) && low <= s.index[s.stack[height]]
    ensures Linked(g, s, t, height, low)
  {
    ReachTrans(g, t, dep, s.stack[y]);
    assert Names(g, s, t, y, low);
    StackClimbs(g, s, height, y);
  }

  lemma LinkKept(g: Graph, s: Search, after: Search, t: nat, height: nat, low: nat)
    requires Numbered(g, s) && Linked(g, s, t, height, low) && height < |s.stack| && Extends(s, after)
    ensures Linked(g, after, t, height, low)
  {
    var y :| 0 <= y <= height && y < |s.stack| && Names(g, s, t, y, low);
    assert after.stack[..|s.stack|][y] == s.stack[y];
    assert Names(g, after, t, y, low);
  }

  lemma BoundKept(g: Graph, s: Search, after: Search, height: nat, low: nat, depLow: nat)
    requires Numbered(g, s) && height < |s.stack| && Extends(s, after)
    requires Bounded(g, s, height + 1, height, low) && Bounded(g, after, |s.stack|, |s.stack|, depLow)
    ensures Bounded(g, after, height + 1, height, Least(low, depLow))
  {
    forall a, b | height + 1 <= a < |after.stack| && 0 <= b < height && b < |after.stack|
      && Edge(g, after.stack[a], after.stack[b]) && after.stack[b] in after.index
      ensures Least(low, depLow) <= after.index[after.stack[b]]
    {
      assert after.stack[..|s.stack|][b] == s.stack[b];
      if a < |s.stack| {
        assert after.stack[..|s.stack|][a] == s.stack[a];
      }
    }
  }

  lemma LookedAtKept(g: Graph, s: Search, after: Search, t: nat, height: nat, count: nat, low: nat, newLow: nat)
    requires t < |g| && count <= |g[t]| && height < |s.stack| && Extends(s, after) && newLow <= low
    requires LookedAt(g, s, t, height, count, low)
    ensures LookedAt(g, after, t, height, count, newLow)
  {
    assert after.stack[..height] == after.stack[..|s.stack|][..height] == s.stack[..height];
  }

  lemma LookedAtOne(g: Graph, s: Search, t: nat, height: nat, count: nat, low: nat)
    requires t < |g| && count < |g[t]| && LookedAt(g, s, t, height, count, low) && g[t][count] in s.index
    requires g[t][count] in s.stack ==> low <= s.index[g[t][count]]
    ensures LookedAt(g, s, t, height, count + 1, low)
  {
  }

  /** With every dependency looked at, the bound holds of the node itself too. */
  lemma BoundAll(g: Graph, s: Search, t: nat, height: nat, low: nat)
    requires t < |g| && height < |s.stack| && s.stack[height] == t
    requires Bounded(g, s, height + 1, height, low) && LookedAt(g, s, t, height, |g[t]|, low)
    ensures Bounded(g, s, height, height, low)
    ensures forall b :: Edge(g, t, b) ==> b in s.index
  {
    forall b | Edge(g, t, b)
      ensures b in s.index && (b in s.stack[..height] ==> low <= s.index[b])
    {
      var k :| 0 <= k < |g[t]| && g[t][k] == b;
    }
    forall a, b | height <= a < |s.stack| && 0 <= b < height && b < |s.stack| && Edge(g, s.stack[a], s.stack[b]) &&
    s.stack[b] in s.index
      ensures low <= s.index[s.stack[b]]
    {
      assert s.stack[..height][b] == s.stack[b];
    }
  }

  /** The unfinished nodes were all on the stack below the node. */
  lemma GrayOnlyBelow(g: Graph, s: Search, gray: set<nat>, below: seq<nat>, t: nat)
    requires Numbered(g, s) && |below| < |s.stack| && s.stack[..|below|] == below && s.stack[|below|] == t
    requires forall x :: x in gray ==> x in below
    ensures forall i :: |below| < i < |s.stack| ==> s.stack[i] !in gray + {t}
    ensures t !in gray
  {
    forall k, i | 0 <= k < i < |s.stack|
      ensures s.stack[k] != s.stack[i]
    {
      assert s.index[s.stack[k]] < s.index[s.stack[i]];
    }
    forall x | x in gray
      ensures exists k :: 0 <= k < |below| && s.stack[k] == x
    {
      var k :| 0 <= k < |below| && below[k] == x;
      assert s.stack[..|below|][k] == s.stack[k];
    }
  }

  /** The search went on from within a node, whose low link may have changed. */
  ghost predicate WentOn(s: Search, after: Search, t: nat) {
    Extends(s, after) && LowsKept(s, after, {t})
  }

  lemma RelinkedWentOn(s: Search, t: nat, low: nat)
    ensures WentOn(s, Relinked(s, t, low), t)
  {
    ExtendsSelf(s);
  }

  lemma WentOnTrans(s: Search, m: Search, e: Search, t: nat)
    requires WentOn(s, m, t) && WentOn(m, e, t)
    ensures WentOn(s, e, t)
  {
    ExtendsTrans(s, m, e);
  }

  lemma ExtendsSelf(s: Search)
    ensures Extends(s, s) && LowsKept(s, s, {})
  {
    assert s.stack[..|s.stack|] == s.stack;
  }

  lemma ExtendsTrans(s: Search, m: Search, e: Search)
    requires Extends(s, m) && Extends(m, e)
    ensures Extends(s, e)
  {
    assert e.stack[..|s.stack|] == e.stack[..|m.stack|][..|s.stack|];
  }

  lemma BackwardsGrows(s: seq<nat>, k: nat)
    requires 0 < k <= |s|
    ensures Backwards(s[k - 1..]) == Backwards(s[k..]) + [s[k - 1]]
    decreases |s| - k
  {
    var n := |s|;
    if k < n {
      assert s[k - 1..][..n - k] == s[..n - 1][k - 1..] && s[k..][..n - k - 1] == s[..n - 1][k..];
      BackwardsGrows(s[..n - 1], k);
    }
  }

  // --- a dependency looked at -------------------------------------------------------------------------

  /** Midway through a node's dependencies: its low link accounts for the first of them. */
  ghost predicate Midway(g: Graph, s: Search, t: nat, below: seq<nat>, count: nat) {
    && t < |g| && count <= |g[t]|
    && |below| < |s.stack| && s.stack[..|below|] == below && s.stack[|below|] == t
    && t in s.low && t in s.index && s.low[t] <= s.index[t]
    && Linked(g, s, t, |below|, s.low[t])
    && Bounded(g, s, |below| + 1, |below|, s.low[t])
    && LookedAt(g, s, t, |below|, count, s.low[t])
  }

  function Relinked(s: Search, t: nat, low: nat): Search { s.(low := s.low[t := low]) }

  lemma RelinkedNumbers(g: Graph, s: Search, gray: set<nat>, t: nat, low: nat)
    requires Numbered(g, s) && Colored(g, s, gray) && t in s.low
    ensures Numbered(g, Relinked(s, t, low)) && Colored(g, Relinked(s, t, low), gray)
  {
  }

  lemma RelinkedChains(g: Graph, s: Search, gray: set<nat>, t: nat, low: nat)
    requires Chained(g, s, gray)
    ensures Chained(g, Relinked(s, t, low), gray)
  {
    var r := Relinked(s, t, low);
    forall j | 0 <= j < |r.stack|
      ensures Rooted(g, r, gray, j)
    {
      assert Rooted(g, s, gray, j);
    }
  }

  /** A low link does not show in the other parts. */
  lemma RelinkedKeeps(g: Graph, s: Search, gray: set<nat>, t: nat, low: nat)
    requires Inv(g, s, gray) && t in s.low
    ensures Inv(g, Relinked(s, t, low), gray)
  {
    RelinkedNumbers(g, s, gray, t, low);
    RelinkedChains(g, s, gray, t, low);
    FinishedStays(g, s, Relinked(s, t, low));
  }

  lemma RelinkedMidway(g: Graph, s: Search, t: nat, below: seq<nat>, count: nat, low: nat)
    requires t < |g| && count <= |g[t]| && |below| < |s.stack| && s.stack[..|below|] == below && s.stack[|below|] == t
    requires t in s.index && low <= s.index[t]
    requires Linked(g, s, t, |below|, low) && Bounded(g, s, |below| + 1, |below|, low) &&
             LookedAt(g, s, t, |below|, count, low)
    ensures Midway(g, Relinked(s, t, low), t, below, count)
  {
    var r := Relinked(s, t, low);
    var y :| 0 <= y <= |below| && y < |s.stack| && Names(g, s, t, y, low);
    assert Names(g, r, t, y, low);
  }

  lemma FollowDone(g: Graph, s: Search, t: nat, below: seq<nat>, count: nat)
    requires Midway(g, s, t, below, count) && count < |g[t]| && g[t][count] in s.index && g[t][count] !in s.stack
    ensures Midway(g, s, t, below, count + 1)
    ensures Extends(s, s) && LowsKept(s, s, {t})
  {
    LookedAtOne(g, s, t, |below|, count, s.low[t]);
    ExtendsSelf(s);
  }

  lemma FollowSeen(g: Graph, s: Search, t: nat, below: seq<nat>, count: nat)
    requires Numbered(g, s) && Midway(g, s, t, below, count) && count < |g[t]| && g[t][count] in s.index &&
             g[t][count] in s.stack
    ensures Midway(g, Relinked(s, t, Least(s.low[t], s.index[g[t][count]])), t, below, count + 1)
  {
    var dep := g[t][count];
    var low := Least(s.low[t], s.index[dep]);
    assert Edge(g, t, dep);
    ReachEdge(g, t, dep);
    if low < s.low[t] {
      var y :| 0 <= y < |s.stack| && s.stack[y] == dep;
      ReachSelf(g, dep);
      assert Names(g, s, dep, y, low);
      LinkThrough(g, s, t, dep, |below|, y, low);
    }
    LookedAtOne(g, s, t, |below|, count, low);
    RelinkedMidway(g, s, t, below, count + 1, low);
  }

  /** What a search from an unvisited dependency hands back. */
  ghost predicate Connected(g: Graph, s: Search, after: Search, dep: nat) {
    && Extends(s, after) && LowsKept(s, after, {})
    && dep in after.index && dep in after.low && after.index[dep] == s.next && after.low[dep] <= after.index[dep]
    && (dep in after.component ==> after.stack == s.stack && after.low[dep] == after.index[dep])
    && (dep !in after.component ==> after.stack != [] && Linked(g, after, dep, |after.stack| - 1, after.low[dep]))
    && Bounded(g, after, |s.stack|, |s.stack|, after.low[dep])
  }

  lemma FollowNewLinks(g: Graph, s: Search, after: Search, t: nat, below: seq<nat>, count: nat)
    requires Numbered(g, s) && Numbered(g, after) && Midway(g, s, t, below, count) && count < |g[t]|
    requires Connected(g, s, after, g[t][count])
    ensures Linked(g, after, t, |below|, Least(s.low[t], after.low[g[t][count]]))
  {
    var dep := g[t][count];
    if after.low[dep] < s.low[t] {
      assert dep !in after.component;
      var y :| 0 <= y <= |after.stack| - 1 && y < |after.stack| && Names(g, after, dep, y, after.low[dep]);
      assert Edge(g, t, dep);
      ReachEdge(g, t, dep);
      assert after.stack[|below|] == after.stack[..|s.stack|][|below|] == t;
      LinkThrough(g, after, t, dep, |below|, y, after.low[dep]);
    } else {
      LinkKept(g, s, after, t, |below|, s.low[t]);
    }
  }

  lemma FollowNew(g: Graph, s: Search, after: Search, t: nat, below: seq<nat>, count: nat)
    requires Numbered(g, s) && Numbered(g, after) && Midway(g, s, t, below, count) && count < |g[t]|
    requires Connected(g, s, after, g[t][count])
    ensures Midway(g, Relinked(after, t, Least(s.low[t], after.low[g[t][count]])), t, below, count + 1)
  {
    var dep := g[t][count];
    var low := Least(s.low[t], after.low[dep]);
    FollowNewLinks(g, s, after, t, below, count);
    BoundKept(g, s, after, |below|, s.low[t], after.low[dep]);
    LookedAtKept(g, s, after, t, |below|, count, s.low[t], low);
    LookedAtOne(g, after, t, |below|, count, low);
    assert after.stack[..|below|] == after.stack[..|s.stack|][..|below|];
    assert after.stack[|below|] == after.stack[..|s.stack|][|below|];
    RelinkedMidway(g, after, t, below, count + 1, low);
  }

  // --- the search --------------------------------------------------------------------------------------

  class TypeRanker {
    const g: Graph
    ghost const nodes: set<nat>
    var index: map<nat, nat>
    var low: map<nat, nat>
    var stack: seq<nat>
    var onStack: set<nat>
    var component: map<nat, nat>
    var components: seq<seq<nat>>
    var next: nat

    constructor (g: Graph, ghost nodes: set<nat>)
      requires WellFormed(g) && Closed(g, nodes) && forall t :: t in nodes ==> t < |g|
      ensures this.g == g && this.nodes == nodes && Valid({}) && index == map[] && stack == []
    {
      this.g, this.nodes := g, nodes;
      index, low, stack, onStack := map[], map[], [], {};
      component, components, next := map[], [], 0;
    }

    ghost function View(): Search
      reads this
    {
      Search(index, low, stack, component, components, next)
    }

    ghost predicate Valid(gray: set<nat>)
      reads this
    {
      && WellFormed(g) && Closed(g, nodes) && (forall t :: t in nodes ==> t < |g|)
      && (forall t :: t in index ==> t in nodes)
      && onStack == OnStack(View()) && Inv(g, View(), gray)
    }

    /** Midway through taking a component off the stack. */
    ghost predicate Popping(s: Search, members: seq<nat>)
      reads this
    {
      && |stack| <= |s.stack| && stack == s.stack[..|stack|] && members == Backwards(s.stack[|stack|..])
      && component == PopTo(s, |stack|).component
      && onStack == OnStack(View())
      && index == s.index && low == s.low && components == s.components && next == s.next
    }

    method PopOnto(members: seq<nat>, ghost s: Search) returns (top: nat, longer: seq<nat>)
      requires stack != [] && Popping(s, members) && Numbered(g, s) && forall x :: x in s.stack ==> x !in s.component
      modifies this
      ensures Popping(s, longer) && |stack| == old(|stack|) - 1 && top == s.stack[|stack|]
    {
      PopLast(g, s, |stack|);
      top := stack[|stack| - 1];
      stack := stack[..|stack| - 1];
      onStack := onStack - {top};
      component := component[top := |components|];
      longer := members + [top];
    }

    /** Takes the stack from the node up off as one component. */
    method Pop(t: nat, ghost height: nat)
      requires onStack == OnStack(View()) && height < |stack| && stack[height] == t
      requires forall i :: height < i < |stack| ==> stack[i] != t
      requires Numbered(g, View()) && forall x :: x in stack ==> x !in component
      modifies this
      ensures View() == PopTo(old(View()), height)
      ensures onStack == OnStack(View())
    {
      ghost var s := View();
      var members: seq<nat> := [];
      var top: nat;
      var done := false;
      while !done
        invariant height <= |stack| && (done <==> |stack| == height)
        invariant Popping(s, members)
        decreases |stack|, !done
      {
        top, members := PopOnto(members, s);
        done := top == t;
      }
      components := components + [members];
    }

    /** Gives a node a lower link. */
    method Lower(t: nat, to: nat, ghost gray: set<nat>)
      requires Valid(gray) && t in low
      modifies this
      ensures Valid(gray) && View() == Relinked(old(View()), t, to)
      ensures WentOn(old(View()), View(), t)
    {
      ghost var s := View();
      low := low[t := to];
      assert View() == Relinked(s, t, to) by {
        assert low == s.low[t := to];
      }
      RelinkedKeeps(g, s, gray, t, to);
      RelinkedWentOn(s, t, to);
    }

    /** Searches from an unvisited dependency. */
    method FollowUnvisited(t: nat, count: nat, ghost gray: set<nat>, ghost below: seq<nat>)
      requires Valid(gray) && Midway(g, View(), t, below, count) && count < |g[t]| && g[t][count] !in index
      requires forall x :: x in gray ==> Reach(g, x, t)
      modifies this
      ensures Valid(gray) && Midway(g, View(), t, below, count + 1)
      ensures WentOn(old(View()), View(), t)
      decreases Unvisited(index.Keys, |g|), 1
    {
      ghost var s := View();
      var dep := g[t][count];
      assert Edge(g, t, dep);
      ReachThrough(g, gray, t, dep);
      Connect(dep, gray);
      FollowNew(g, s, View(), t, below, count);
      Lower(t, Least(low[t], low[dep]), gray);
    }

    /** Takes note of a dependency on the stack. */
    method FollowOnStack(t: nat, count: nat, ghost gray: set<nat>, ghost below: seq<nat>)
      requires Valid(gray) && Midway(g, View(), t, below, count) && count < |g[t]| && g[t][count] in index &&
               g[t][count] in onStack
      modifies this
      ensures Valid(gray) && Midway(g, View(), t, below, count + 1)
      ensures WentOn(old(View()), View(), t)
    {
      FollowSeen(g, View(), t, below, count);
      Lower(t, Least(low[t], index[g[t][count]]), gray);
    }

    /** Looks at one dependency of a node. */
    method Follow(t: nat, count: nat, ghost gray: set<nat>, ghost below: seq<nat>)
      requires Valid(gray) && Midway(g, View(), t, below, count) && count < |g[t]|
      requires forall x :: x in gray ==> Reach(g, x, t)
      modifies this
      ensures Valid(gray) && Midway(g, View(), t, below, count + 1)
      ensures WentOn(old(View()), View(), t)
      decreases Unvisited(index.Keys, |g|), 2
    {
      if g[t][count] !in index {
        FollowUnvisited(t, count, gray, below);
      } else if g[t][count] in onStack {
        FollowOnStack(t, count, gray, below);
      } else {
        FollowDone(g, View(), t, below, count);
      }
    }

    /** Looks at all of a node's dependencies. */
    method FollowAll(t: nat, ghost gray: set<nat>, ghost below: seq<nat>)
      requires Valid(gray) && Midway(g, View(), t, below, 0)
      requires forall x :: x in gray ==> Reach(g, x, t)
      modifies this
      ensures Valid(gray) && Midway(g, View(), t, below, |g[t]|)
      ensures WentOn(old(View()), View(), t)
      decreases Unvisited(index.Keys, |g|), 3
    {
      ghost var s := View();
      ExtendsSelf(s);
      for i := 0 to |g[t]|
        invariant Valid(gray) && Midway(g, View(), t, below, i) && WentOn(s, View(), t)
      {
        ghost var mid := View();
        UnvisitedFalls(s.index.Keys, index.Keys, |g|);
        Follow(t, i, gray, below);
        WentOnTrans(s, mid, View(), t);
      }
    }

    method Push(t: nat, ghost gray: set<nat>)
      requires Valid(gray) && t in nodes && t !in index
      requires forall x :: x in gray ==> Reach(g, x, t)
      modifies this
      ensures Valid(gray + {t}) && View() == Enter(old(View()), t) && Extends(old(View()), View())
    {
      ghost var s := View();
      index, low := index[t := next], low[t := next];
      next := next + 1;
      stack := stack + [t];
      onStack := onStack + {t};
      assert View() == Enter(s, t);
      EnterKeeps(g, s, gray, t);
    }

    /** With the node's dependencies all looked at: its component comes off when nothing below it was reached. */
    method Settle(t: nat, ghost gray: set<nat>, ghost s: Search)
      requires Valid(gray + {t}) && Midway(g, View(), t, s.stack, |g[t]|) && Numbered(g, s)
      requires t !in s.index && index[t] == s.next && WentOn(s, View(), t)
      requires forall x :: x in gray ==> x in s.stack
      modifies this
      ensures Valid(gray) && Connected(g, s, View(), t)
    {
      ghost var e := View();
      BoundAll(g, e, t, |s.stack|, low[t]);
      GrayOnlyBelow(g, e, gray, s.stack, t);
      if low[t] == index[t] {
        PopKeeps(g, e, gray, |s.stack|, t);
        PopConnects(g, s, e, t);
        Pop(t, |s.stack|);
      } else {
        StayConnects(g, s, e, gray, t);
      }
    }

    /** The search from an unvisited node. */
    method Connect(t: nat, ghost gray: set<nat>)
      requires Valid(gray) && t in nodes && t !in index
      requires forall x :: x in gray ==> Reach(g, x, t)
      modifies this
      ensures Valid(gray) && Connected(g, old(View()), View(), t)
      decreases Unvisited(index.Keys, |g|), 0
    {
      ghost var s := View();
      EnterMidway(g, s, t);
      ReachSelf(g, t);
      Push(t, gray);
      UnvisitedFalls(s.index.Keys, index.Keys, |g|);
      FollowAll(t, gray + {t}, s.stack);
      EnterExtends(s, t, View());
      Settle(t, gray, s);
    }

    method VisitOne(t: nat)
      requires Valid({}) && stack == [] && t in nodes
      modifies this
      ensures Valid({}) && stack == [] && t in component
      ensures forall x :: x in old(component) ==> x in component
    {
      if t !in index {
        Connect(t, {});
        NothingLeft(g, View());
      }
    }

    /** Visits every discovered node. */
    method VisitAll(discovered: seq<nat>)
      requires Valid({}) && index == map[] && stack == []
      requires forall t :: t in discovered <==> t in nodes
      modifies this
      ensures Valid({}) && stack == [] && forall t :: t in component <==> t in nodes
    {
      for i := 0 to |discovered|
        invariant Valid({}) && stack == []
        invariant forall k :: 0 <= k < i ==> discovered[k] in component
      {
        assert discovered[i] in discovered;
        VisitOne(discovered[i]);
      }
    }
  }

  lemma NotRooted(g: Graph, s: Search, j: nat)
    requires j < |s.stack|
    ensures !Rooted(g, s, {}, j)
  {
  }

  /** With no node unfinished, the stack is empty. */
  lemma NothingLeft(g: Graph, s: Search)
    requires Chained(g, s, {})
    ensures s.stack == []
  {
    if s.stack != [] {
      NotRooted(g, s, 0);
      assert false;
    }
  }

  lemma EnterExtends(s: Search, t: nat, e: Search)
    requires t !in s.index && (forall x :: x in s.low <==> x in s.index) && Extends(Enter(s, t), e) &&
             LowsKept(Enter(s, t), e, {t})
    ensures Extends(s, e) && LowsKept(s, e, {t}) && t in e.index && e.index[t] == s.next
  {
    assert Enter(s, t).stack[..|s.stack|] == s.stack;
    ExtendsTrans(s, Enter(s, t), e);
  }

  /** Of the last of k stack nodes: what taking it off leaves. */
  lemma PopLast(g: Graph, s: Search, k: nat)
    requires Numbered(g, s) && 0 < k <= |s.stack| && forall x :: x in s.stack ==> x !in s.component
    ensures s.stack[..k][..k - 1] == s.stack[..k - 1]
    ensures Backwards(s.stack[k - 1..]) == Backwards(s.stack[k..]) + [s.stack[k - 1]]
    ensures PopTo(s, k - 1).component == PopTo(s, k).component[s.stack[k - 1] := |s.components|]
    ensures Members(s.stack[..k]) - {s.stack[k - 1]} == Members(s.stack[..k - 1])
  {
    StackSplits(g, s, k - 1);
    BackwardsGrows(s.stack, k);
    PopOne(s, k);
    assert s.stack[..k] == s.stack[..k - 1] + [s.stack[k - 1]];
    assert s.stack[k - 1] == s.stack[k - 1..][0];
  }

  lemma PopOne(s: Search, k: nat)
    requires 0 < k <= |s.stack| && forall x :: x in s.stack ==> x !in s.component
    ensures PopTo(s, k - 1).component == PopTo(s, k).component[s.stack[k - 1] := |s.components|]
  {
    assert s.stack[k - 1..] == [s.stack[k - 1]] + s.stack[k..];
    assert s.stack[k - 1] in s.stack;
  }

  lemma ReachThrough(g: Graph, nodes: set<nat>, t: nat, dep: nat)
    requires (forall x :: x in nodes ==> Reach(g, x, t)) && Edge(g, t, dep)
    ensures forall x :: x in nodes ==> Reach(g, x, dep)
  {
    ReachEdge(g, t, dep);
    forall x | x in nodes
      ensures Reach(g, x, dep)
    {
      ReachTrans(g, x, t, dep);
    }
  }

  lemma EnterMidway(g: Graph, s: Search, t: nat)
    requires t < |g|
    ensures Midway(g, Enter(s, t), t, s.stack, 0)
  {
    ReachSelf(g, t);
    assert Names(g, Enter(s, t), t, |s.stack|, s.next);
  }

  lemma PopConnects(g: Graph, s: Search, e: Search, t: nat)
    requires Numbered(g, s) && Numbered(g, e) && (forall x :: x in e.stack ==> x !in e.component)
    requires Extends(s, e) && LowsKept(s, e, {t}) && t !in s.index && |s.stack| < |e.stack| && e.stack[|s.stack|] == t
    requires t in e.index && t in e.low && e.index[t] == s.next && e.low[t] == e.index[t]
    ensures Connected(g, s, PopTo(e, |s.stack|), t)
  {
    var p := PopTo(e, |s.stack|);
    assert e.stack[|s.stack|..][0] == t;
    PopComponents(e, |s.stack|, t);
    forall x | x in s.component
      ensures x in p.component && p.component[x] == s.component[x]
    {
      PopComponents(e, |s.stack|, x);
    }
  }

  lemma StayConnects(g: Graph, s: Search, e: Search, gray: set<nat>, t: nat)
    requires Inv(g, e, gray + {t}) && t !in gray && Numbered(g, s)
    requires Extends(s, e) && LowsKept(s, e, {t}) && t !in s.index && |s.stack| < |e.stack| && e.stack[|s.stack|] == t
    requires forall i :: |s.stack| < i < |e.stack| ==> e.stack[i] !in gray + {t}
    requires forall b :: Edge(g, t, b) ==> b in e.index
    requires t in e.index && t in e.low && e.index[t] == s.next && e.low[t] < e.index[t]
    requires Linked(g, e, t, |s.stack|, e.low[t]) && Bounded(g, e, |s.stack|, |s.stack|, e.low[t])
    ensures Inv(g, e, gray) && Connected(g, s, e, t)
  {
    var y :| 0 <= y <= |s.stack| && y < |e.stack| && Names(g, e, t, y, e.low[t]);
    StayKeeps(g, e, gray, |s.stack|, t, y);
    assert t in e.stack;
  }
}
