/**
 The directed shortest path of the exploration workspace: a bounded breadth-first search over the
 nodes a caller may see, taking edges in the order of their ids.
 */
module ExplorationPath {
  import opened Order

  datatype Edge = Edge(id: string, source: string, target: string)

  datatype Graph = Graph(nodes: seq<string>, edges: seq<Edge>)

  datatype Path = Path(found: bool, nodeIds: seq<string>, edgeIds: seq<string>)

  const ABSENT := Path(false, [], [])

  // --- Walks ---------------------------------------------------------------------------------

  ghost predicate Usable(g: Graph, e: Edge)
  {
    e in g.edges && e.source in g.nodes && e.target in g.nodes
  }

  function End(from: string, walk: seq<Edge>): string
  {
    if walk == [] then from else walk[|walk| - 1].target
  }

  /** A directed walk over usable edges, starting at `from`. */
  ghost predicate IsWalk(g: Graph, from: string, walk: seq<Edge>)
  {
    forall i | 0 <= i < |walk| :: Usable(g, walk[i]) && walk[i].source == End(from, walk[..i])
  }

  function EdgeIds(walk: seq<Edge>): seq<string>
  {
    seq(|walk|, i requires 0 <= i < |walk| => walk[i].id)
  }

  function NodeIds(from: string, walk: seq<Edge>): seq<string>
  {
    [from] + seq(|walk|, i requires 0 <= i < |walk| => walk[i].target)
  }

  ghost predicate UniqueEdgeIds(g: Graph)
  {
    forall e, f | e in g.edges && f in g.edges && e.id == f.id :: e == f
  }

  /** The first difference of two id sequences of the same length is in favour of `a`. */
  ghost predicate LexicographicallyLess(a: seq<string>, b: seq<string>)
    requires |a| == |b|
  {
    exists k | 0 <= k < |a| :: a[..k] == b[..k] && Less(a[k], b[k])
  }

  /** What the search promises: a shortest walk of at most `maxDepth` edges if there is any walk that
      short, and with unique edge ids the one whose ids come first among all shortest walks. */
  ghost predicate Answers(g: Graph, from: string, to: string, maxDepth: int, result: Path)
  {
    if !result.found then
      && result == ABSENT
      && forall walk :: !(Admissible(g, from, to, walk) && (|walk| <= maxDepth || walk == []))
    else
      exists best :: IsBest(g, from, to, best) && (|best| <= maxDepth || best == [])
                     && result == Path(true, NodeIds(from, best), EdgeIds(best))
  }

  ghost predicate Admissible(g: Graph, from: string, to: string, walk: seq<Edge>)
  {
    from in g.nodes && to in g.nodes && IsWalk(g, from, walk) && End(from, walk) == to
  }

  ghost predicate IsBest(g: Graph, from: string, to: string, best: seq<Edge>)
  {
    && Admissible(g, from, to, best)
    && forall walk | Admissible(g, from, to, walk) ::
      && |best| <= |walk|
      && (UniqueEdgeIds(g) && |best| == |walk| && best != walk ==>
            LexicographicallyLess(EdgeIds(best), EdgeIds(walk)))
  }

  // --- The order of walks ------------------------------------------------------------------------

  /** Earlier in length or, when ids count, in the ids of equally long walks. */
  ghost predicate Below(ids: bool, a: seq<Edge>, b: seq<Edge>)
  {
    |a| < |b| || (|a| == |b| && (ids ==> IdsLess(a, b)))
  }

  ghost predicate IdsLess(a: seq<Edge>, b: seq<Edge>)
    requires |a| == |b|
    decreases |a|
  {
    a != [] && (var n := |a| - 1;
                IdsLess(a[..n], b[..n]) || (a[..n] == b[..n] && Less(a[n].id, b[n].id)))
  }

  ghost predicate AtMost(ids: bool, a: seq<Edge>, b: seq<Edge>)
  {
    a == b || Below(ids, a, b)
  }

  lemma BelowSnoc(ids: bool, a: seq<Edge>, b: seq<Edge>, e: Edge, f: Edge)
    requires Below(ids, a, b)
    ensures Below(ids, a + [e], b + [f])
  {
    if |a| == |b| {
      assert (a + [e])[..|a|] == a && (b + [f])[..|b|] == b;
    }
  }

  lemma BelowLast(ids: bool, p: seq<Edge>, e: Edge, f: Edge)
    requires ids ==> Less(e.id, f.id)
    ensures Below(ids, p + [e], p + [f])
  {
    assert (p + [e])[..|p|] == p && (p + [f])[..|p|] == p;
  }

  lemma {:induction false} IdsLessIsTransitive(a: seq<Edge>, b: seq<Edge>, c: seq<Edge>)
    requires |a| == |b| == |c| && IdsLess(a, b) && IdsLess(b, c)
    ensures IdsLess(a, c)
    decreases |a|
  {
    var n := |a| - 1;
    if IdsLess(a[..n], b[..n]) && IdsLess(b[..n], c[..n]) {
      IdsLessIsTransitive(a[..n], b[..n], c[..n]);
    } else if a[..n] == b[..n] == c[..n] && Less(a[n].id, b[n].id) && Less(b[n].id, c[n].id) {
      LessIsTransitive(a[n].id, b[n].id, c[n].id);
    }
  }

  lemma AtMostThenBelow(ids: bool, a: seq<Edge>, b: seq<Edge>, c: seq<Edge>)
    requires AtMost(ids, a, b) && Below(ids, b, c)
    ensures Below(ids, a, c)
  {
    if a != b && |a| == |b| == |c| && ids { IdsLessIsTransitive(a, b, c); }
  }

  lemma AtMostIsTransitive(ids: bool, a: seq<Edge>, b: seq<Edge>, c: seq<Edge>)
    requires AtMost(ids, a, b) && AtMost(ids, b, c)
    ensures AtMost(ids, a, c)
  {
    if b != c { AtMostThenBelow(ids, a, b, c); }
  }

  lemma AtMostSnoc(ids: bool, a: seq<Edge>, b: seq<Edge>, e: Edge)
    requires AtMost(ids, a, b)
    ensures AtMost(ids, a + [e], b + [e])
  {
    if a != b { BelowSnoc(ids, a, b, e, e); }
  }

  lemma {:induction false} IdsLessIsFirstDifference(a: seq<Edge>, b: seq<Edge>)
    requires |a| == |b| && IdsLess(a, b)
    ensures LexicographicallyLess(EdgeIds(a), EdgeIds(b))
    decreases |a|
  {
    var n := |a| - 1;
    var x, y := EdgeIds(a), EdgeIds(b);
    if IdsLess(a[..n], b[..n]) {
      IdsLessIsFirstDifference(a[..n], b[..n]);
      assert EdgeIds(a[..n]) == x[..n] && EdgeIds(b[..n]) == y[..n];
      var k :| 0 <= k < n && x[..n][..k] == y[..n][..k] && Less(x[..n][k], y[..n][k]);
      assert x[..k] == x[..n][..k] && y[..k] == y[..n][..k];
    } else {
      assert x[..n] == EdgeIds(a[..n]) == EdgeIds(b[..n]) == y[..n];
    }
  }

  // --- Adjacency -----------------------------------------------------------------------------------

  const ById: Edge -> string := (e: Edge) => e.id

  /** Every list holds exactly the usable edges of its node among `edges`. */
  ghost predicate Collects(g: Graph, edges: seq<Edge>, adjacent: map<string, seq<Edge>>)
  {
    && (forall u, e | u in adjacent && e in adjacent[u] :: Usable(g, e) && e.source == u)
    && (forall e | e in edges && Usable(g, e) :: e.source in adjacent && e in adjacent[e.source])
  }

  ghost predicate IsAdjacency(g: Graph, adjacent: map<string, seq<Edge>>)
  {
    Collects(g, g.edges, adjacent) && forall u | u in adjacent :: Sorted(ById, adjacent[u])
  }

  method AdjacentEdges(g: Graph, ids: set<string>) returns (adjacent: map<string, seq<Edge>>)
    requires ids == set v | v in g.nodes
    ensures IsAdjacency(g, adjacent)
  {
    adjacent := map[];
    var i := 0;
    while i < |g.edges|
      invariant 0 <= i <= |g.edges|
      invariant Collects(g, g.edges[..i], adjacent)
    {
      var edge := g.edges[i];
      if edge.source in ids && edge.target in ids {
        var list := if edge.source in adjacent then adjacent[edge.source] else [];
        adjacent := adjacent[edge.source := list + [edge]];
      }
      i := i + 1;
      assert g.edges[..i] == g.edges[..i - 1] + [edge];
    }
    assert g.edges[..i] == g.edges;
    ghost var unsorted := adjacent;
    adjacent := map u | u in adjacent :: Sort(ById, adjacent[u]);
    SortingKeepsAdjacency(g, unsorted, adjacent);
  }

  lemma SortingKeepsAdjacency(g: Graph, unsorted: map<string, seq<Edge>>, adjacent: map<string, seq<Edge>>)
    requires Collects(g, g.edges, unsorted)
    requires adjacent == map u | u in unsorted :: Sort(ById, unsorted[u])
    ensures IsAdjacency(g, adjacent)
  {
    forall u | u in unsorted
      ensures Sorted(ById, adjacent[u])
      ensures forall e :: e in adjacent[u] <==> e in unsorted[u]
    {
      SortSorts(ById, unsorted[u]);
      forall e ensures e in adjacent[u] <==> e in unsorted[u] {
        assert e in multiset(adjacent[u]) <==> e in multiset(unsorted[u]);
      }
    }
  }

  // --- The search ------------------------------------------------------------------------------------

  datatype Item = Item(id: string, nodeIds: seq<string>, edgeIds: seq<string>)

  function ItemOf(from: string, walk: seq<Edge>): Item
  {
    Item(End(from, walk), NodeIds(from, walk), EdgeIds(walk))
  }

  ghost predicate Visited(from: string, walks: seq<seq<Edge>>, v: string)
  {
    exists j | 0 <= j < |walks| :: End(from, walks[j]) == v
  }

  /** The queue holds walks to distinct nodes, in strictly rising order. */
  ghost predicate IsQueue(g: Graph, from: string, walks: seq<seq<Edge>>)
  {
    && |walks| > 0 && walks[0] == []
    && (forall i | 0 <= i < |walks| :: IsWalk(g, from, walks[i]))
    && (forall i, j | 0 <= i < j < |walks| ::
          Below(UniqueEdgeIds(g), walks[i], walks[j]) && End(from, walks[i]) != End(from, walks[j]))
  }

  function Init(walk: seq<Edge>): seq<Edge>
    requires walk != []
  {
    walk[..|walk| - 1]
  }

  /** Node `e.target` was reached by a walk no later than walk `i` followed by edge `e`. */
  ghost predicate Reached(g: Graph, from: string, walks: seq<seq<Edge>>, i: nat, e: Edge)
    requires i < |walks|
  {
    exists j | 0 <= j < |walks| ::
      End(from, walks[j]) == e.target && AtMost(UniqueEdgeIds(g), walks[j], walks[i] + [e])
  }

  /** Every edge out of the first `n` nodes, unless they lie at the depth limit, has been followed. */
  ghost predicate Expanded(g: Graph, from: string, maxDepth: int, walks: seq<seq<Edge>>, n: nat)
  {
    forall i, e | 0 <= i < n && i < |walks| && |walks[i]| < maxDepth && Usable(g, e) && e.source == End(from, walks[i]) ::
      Reached(g, from, walks, i, e)
  }

  /** Nodes beyond the first were reached from nodes earlier than number `n`. */
  ghost predicate ParentsBefore(g: Graph, walks: seq<seq<Edge>>, n: nat)
    requires n < |walks|
  {
    forall j | 0 < j < |walks| :: walks[j] != [] && Below(UniqueEdgeIds(g), Init(walks[j]), walks[n])
  }

  /** While the edges of node `n` are being followed: children of `n` hang on its first `m` edges. */
  ghost predicate ParentsUpTo(g: Graph, walks: seq<seq<Edge>>, n: nat, edges: seq<Edge>, m: nat)
    requires n < |walks| && m <= |edges|
  {
    forall j | 0 < j < |walks| ::
      && walks[j] != []
      && (Below(UniqueEdgeIds(g), Init(walks[j]), walks[n])
          || (Init(walks[j]) == walks[n] && walks[j][|walks[j]| - 1] in edges[..m]))
  }

  lemma ChildIsAtMost(g: Graph, from: string, walks: seq<seq<Edge>>, n: nat, edges: seq<Edge>, m: nat, j: nat)
    requires n < |walks| && m < |edges| && j < |walks| && Sorted(ById, edges)
    requires walks[0] == [] && ParentsUpTo(g, walks, n, edges, m)
    requires IsWalk(g, from, walks[j]) && Usable(g, edges[m])
    ensures AtMost(UniqueEdgeIds(g), walks[j], walks[n] + [edges[m]])
  {
    hide Below, IsWalk, UniqueEdgeIds;
    var p, e := walks[n], edges[m];
    var ids := UniqueEdgeIds(g);
    if j > 0 {
      LastIsUsable(g, from, walks[j]);
      var last := walks[j][|walks[j]| - 1];
      assert walks[j] == Init(walks[j]) + [last];
      if Below(ids, Init(walks[j]), p) {
        BelowSnoc(ids, Init(walks[j]), p, last, e);
      } else {
        var k :| 0 <= k < m && edges[k] == last;
        EarlierEdgeIsAtMost(g, edges, k, m, p);
      }
    } else {
      EmptyIsAtMost(ids, p + [e]);
    }
  }

  lemma EmptyIsAtMost(ids: bool, walk: seq<Edge>)
    ensures AtMost(ids, [], walk)
  {
  }

  lemma LastIsUsable(g: Graph, from: string, walk: seq<Edge>)
    requires IsWalk(g, from, walk) && walk != []
    ensures Usable(g, walk[|walk| - 1])
  {
  }

  lemma EarlierEdgeIsAtMost(g: Graph, edges: seq<Edge>, k: nat, m: nat, p: seq<Edge>)
    requires k < m < |edges| && Sorted(ById, edges) && Usable(g, edges[k]) && Usable(g, edges[m])
    ensures AtMost(UniqueEdgeIds(g), p + [edges[k]], p + [edges[m]])
  {
    hide IdsLess;
    var last, e := edges[k], edges[m];
    LessIsTotal(last.id, e.id);
    assert !Less(ById(edges[m]), ById(edges[k]));
    if last != e { BelowLast(UniqueEdgeIds(g), p, last, e); }
  }

  lemma WalkSnoc(g: Graph, from: string, walk: seq<Edge>, e: Edge)
    requires IsWalk(g, from, walk) && Usable(g, e) && e.source == End(from, walk)
    ensures IsWalk(g, from, walk + [e])
  {
    forall i | 0 <= i < |walk + [e]| ensures (walk + [e])[i].source == End(from, (walk + [e])[..i]) {
      assert (walk + [e])[..i] == walk[..i];
      assert walk[..|walk|] == walk;
    }
  }

  /** Following the next edge to an unseen node appends a walk that is above all others. */
  lemma AppendedWalkIsAbove(g: Graph, from: string, walks: seq<seq<Edge>>, n: nat, edges: seq<Edge>, m: nat)
    requires IsQueue(g, from, walks) && n < |walks| && m < |edges| && Sorted(ById, edges)
    requires ParentsUpTo(g, walks, n, edges, m)
    requires Usable(g, edges[m]) && edges[m].source == End(from, walks[n])
    requires !Visited(from, walks, edges[m].target)
    ensures IsQueue(g, from, walks + [walks[n] + [edges[m]]])
  {
    hide UniqueEdgeIds, Below, IsWalk, Sorted, ParentsUpTo, Usable;
    var p, e := walks[n], edges[m];
    var longer := walks + [p + [e]];
    forall j | 0 <= j < |walks|
      ensures Below(UniqueEdgeIds(g), walks[j], p + [e]) && End(from, walks[j]) != End(from, p + [e])
    {
      ChildIsAtMost(g, from, walks, n, edges, m, j);
      assert End(from, walks[j]) != e.target == End(from, p + [e]);
    }
    WalkSnoc(g, from, p, e);
    assert forall j | 0 <= j < |walks| :: longer[j] == walks[j];
  }

  lemma AppendedWalkHasParent(g: Graph, walks: seq<seq<Edge>>, n: nat, edges: seq<Edge>, m: nat)
    requires n < |walks| && m < |edges| && ParentsUpTo(g, walks, n, edges, m)
    ensures ParentsUpTo(g, walks + [walks[n] + [edges[m]]], n, edges, m + 1)
  {
    hide UniqueEdgeIds, Below;
    var walk := walks[n] + [edges[m]];
    assert Init(walk) == walks[n];
    assert edges[..m + 1] == edges[..m] + [edges[m]];
  }

  lemma ParentsNext(g: Graph, from: string, walks: seq<seq<Edge>>, n: nat, edges: seq<Edge>)
    requires IsQueue(g, from, walks) && n + 1 < |walks| && ParentsUpTo(g, walks, n, edges, |edges|)
    ensures ParentsBefore(g, walks, n + 1)
  {
    hide UniqueEdgeIds, Below, IsWalk;
    forall j | 0 < j < |walks| ensures Below(UniqueEdgeIds(g), Init(walks[j]), walks[n + 1]) {
      AtMostThenBelow(UniqueEdgeIds(g), Init(walks[j]), walks[n], walks[n + 1]);
    }
  }

  lemma QueueOnlyGrows(g: Graph, from: string, maxDepth: int, walks: seq<seq<Edge>>, n: nat, walk: seq<Edge>)
    requires n <= |walks| && Expanded(g, from, maxDepth, walks, n)
    ensures Expanded(g, from, maxDepth, walks + [walk], n)
  {
    var longer := walks + [walk];
    forall i, e | 0 <= i < n && |longer[i]| < maxDepth && Usable(g, e) && e.source == End(from, longer[i])
      ensures Reached(g, from, longer, i, e)
    {
      assert Reached(g, from, walks, i, e);
      var j :| 0 <= j < |walks| && End(from, walks[j]) == e.target && AtMost(UniqueEdgeIds(g), walks[j], walks[i] + [e]);
      assert longer[j] == walks[j] && longer[i] == walks[i];
    }
  }

  lemma ExpandedReaches(g: Graph, from: string, maxDepth: int, walks: seq<seq<Edge>>, n: nat, j: nat, init: seq<Edge>, e: Edge)
    returns (j': nat)
    requires Expanded(g, from, maxDepth, walks, n) && j < n && j < |walks|
    requires Usable(g, e) && e.source == End(from, walks[j])
    requires AtMost(UniqueEdgeIds(g), walks[j], init) && |init| < maxDepth
    ensures j' < |walks| && End(from, walks[j']) == e.target && AtMost(UniqueEdgeIds(g), walks[j'], init + [e])
  {
    hide UniqueEdgeIds, Below, Usable;
    LengthOfAtMost(UniqueEdgeIds(g), walks[j], init);
    assert Reached(g, from, walks, j, e);
    j' :| 0 <= j' < |walks| && End(from, walks[j']) == e.target && AtMost(UniqueEdgeIds(g), walks[j'], walks[j] + [e]);
    AtMostSnoc(UniqueEdgeIds(g), walks[j], init, e);
    AtMostIsTransitive(UniqueEdgeIds(g), walks[j'], walks[j] + [e], init + [e]);
  }

  /** Why the search is right: along any walk short enough, either its end has been reached by a walk
      no later in the order, or some node still in the queue precedes part of it. */
  lemma {:induction false} EveryWalkIsCovered(g: Graph, from: string, maxDepth: int, walks: seq<seq<Edge>>, n: nat,
                                              walk: seq<Edge>)
    returns (j: nat, k: nat)
    requires IsQueue(g, from, walks) && n <= |walks| && Expanded(g, from, maxDepth, walks, n)
    requires IsWalk(g, from, walk) && |walk| <= maxDepth
    ensures j < |walks| && k <= |walk|
    ensures End(from, walks[j]) == End(from, walk[..k]) && AtMost(UniqueEdgeIds(g), walks[j], walk[..k])
    ensures k == |walk| || n <= j
    decreases |walk|
  {
    hide UniqueEdgeIds, Below, Expanded, IsWalk, IsQueue;
    if walk == [] {
      QueueStarts(g, from, walks);
      j, k := 0, 0;
    } else {
      var init, e := Init(walk), walk[|walk| - 1];
      InitIsWalk(g, from, walk);
      j, k := EveryWalkIsCovered(g, from, maxDepth, walks, n, init);
      assert init[..k] == walk[..k];
      if j < n {
        assert init[..k] == init;
        j := ExpandedReaches(g, from, maxDepth, walks, n, j, init, e);
        k := |walk|;
        assert walk[..k] == walk == init + [e];
      }
    }
  }

  lemma LengthOfAtMost(ids: bool, a: seq<Edge>, b: seq<Edge>)
    requires AtMost(ids, a, b)
    ensures |a| <= |b|
  {
  }

  lemma QueueStarts(g: Graph, from: string, walks: seq<seq<Edge>>)
    requires IsQueue(g, from, walks)
    ensures |walks| > 0 && walks[0] == []
  {
  }

  lemma InitIsWalk(g: Graph, from: string, walk: seq<Edge>)
    requires IsWalk(g, from, walk) && walk != []
    ensures IsWalk(g, from, Init(walk)) && Usable(g, walk[|walk| - 1])
    ensures walk[|walk| - 1].source == End(from, Init(walk))
  {
    forall i | 0 <= i < |walk| - 1 ensures Init(walk)[i].source == End(from, Init(walk)[..i]) {
      assert Init(walk)[..i] == walk[..i];
    }
  }

  /** The node at the head of the queue has been reached by the best walk to it. */
  lemma HeadIsBest(g: Graph, from: string, to: string, maxDepth: int, walks: seq<seq<Edge>>, n: nat)
    requires IsQueue(g, from, walks) && n < |walks| && Expanded(g, from, maxDepth, walks, n)
    requires from in g.nodes && to in g.nodes && End(from, walks[n]) == to
    requires |walks[n]| <= maxDepth || walks[n] == []
    ensures IsBest(g, from, to, walks[n])
  {
    var ids := UniqueEdgeIds(g);
    var best := walks[n];
    forall walk | Admissible(g, from, to, walk)
      ensures |best| <= |walk|
      ensures ids && |best| == |walk| && best != walk ==> LexicographicallyLess(EdgeIds(best), EdgeIds(walk))
    {
      if best != [] && |walk| <= maxDepth {
        var j, k := EveryWalkIsCovered(g, from, maxDepth, walks, n, walk);
        if k == |walk| {
          assert walk[..k] == walk;
          assert j == n;
        } else {
          assert AtMost(ids, best, walks[j]);
          AtMostIsTransitive(ids, best, walks[j], walk[..k]);
        }
        assert AtMost(ids, best, walk);
        if ids && |best| == |walk| && best != walk { IdsLessIsFirstDifference(best, walk); }
      }
    }
  }

  lemma ShortWalkWasReached(g: Graph, from: string, maxDepth: int, walks: seq<seq<Edge>>, walk: seq<Edge>)
    requires IsQueue(g, from, walks) && Expanded(g, from, maxDepth, walks, |walks|)
    requires IsWalk(g, from, walk) && (|walk| <= maxDepth || walk == [])
    ensures Visited(from, walks, End(from, walk))
  {
    hide UniqueEdgeIds, Below, Expanded;
    if walk == [] {
      assert End(from, walks[0]) == from;
    } else {
      var j, k := EveryWalkIsCovered(g, from, maxDepth, walks, |walks|, walk);
      assert walk[..k] == walk;
    }
  }

  /** When the queue is exhausted, no short enough walk leads to a node that was never at its head. */
  lemma ExhaustedMeansAbsent(g: Graph, from: string, to: string, maxDepth: int, walks: seq<seq<Edge>>)
    requires IsQueue(g, from, walks) && Expanded(g, from, maxDepth, walks, |walks|)
    requires !Visited(from, walks, to)
    ensures Answers(g, from, to, maxDepth, ABSENT)
  {
    hide Visited, IsQueue, Expanded, IsBest;
    forall walk | Admissible(g, from, to, walk) ensures !(|walk| <= maxDepth || walk == []) {
      if |walk| <= maxDepth || walk == [] { ShortWalkWasReached(g, from, maxDepth, walks, walk); }
    }
  }

  // --- Rounds of the search ----------------------------------------------------------------------------

  ghost predicate WithinBounds(g: Graph, from: string, to: string, maxDepth: int, walks: seq<seq<Edge>>, n: nat)
    requires n <= |walks|
  {
    && (forall i | 0 <= i < |walks| :: End(from, walks[i]) in g.nodes && (|walks[i]| <= maxDepth || walks[i] == []))
    && (forall i | 0 <= i < n :: End(from, walks[i]) != to)
  }

  /** What holds between two rounds: the first `n` nodes are done. */
  ghost predicate Searching(g: Graph, from: string, to: string, maxDepth: int, walks: seq<seq<Edge>>, n: nat)
  {
    && IsQueue(g, from, walks) && n <= |walks| && WithinBounds(g, from, to, maxDepth, walks, n)
    && Expanded(g, from, maxDepth, walks, n)
    && (n < |walks| ==> ParentsBefore(g, walks, n))
  }

  /** What holds within the round of node `n`, after its first `m` edges. */
  ghost predicate Following(g: Graph, from: string, to: string, maxDepth: int, walks: seq<seq<Edge>>, n: nat,
                            edges: seq<Edge>, m: nat)
  {
    && IsQueue(g, from, walks) && n < |walks| && m <= |edges| && WithinBounds(g, from, to, maxDepth, walks, n)
    && Expanded(g, from, maxDepth, walks, n)
    && ParentsUpTo(g, walks, n, edges, m)
    && forall k | 0 <= k < m :: Reached(g, from, walks, n, edges[k])
  }

  /** The edges to follow from node `n`: all its usable edges, sorted. */
  ghost predicate EdgesOf(g: Graph, node: string, edges: seq<Edge>)
  {
    && Sorted(ById, edges)
    && (forall e | e in edges :: Usable(g, e) && e.source == node)
    && (forall e | Usable(g, e) && e.source == node :: e in edges)
  }

  /** The queue and the visited set as the code keeps them. */
  ghost predicate Mirrors(from: string, queue: seq<Item>, visited: set<string>, walks: seq<seq<Edge>>)
  {
    && |queue| == |walks|
    && (forall i | 0 <= i < |walks| :: queue[i] == ItemOf(from, walks[i]))
    && (forall v :: v in visited <==> Visited(from, walks, v))
  }

  lemma ReachedGrows(g: Graph, from: string, walks: seq<seq<Edge>>, walk: seq<Edge>, i: nat, e: Edge)
    requires i < |walks| && Reached(g, from, walks, i, e)
    ensures Reached(g, from, walks + [walk], i, e)
  {
    var longer := walks + [walk];
    var j :| 0 <= j < |walks| && End(from, walks[j]) == e.target && AtMost(UniqueEdgeIds(g), walks[j], walks[i] + [e]);
    assert longer[j] == walks[j] && longer[i] == walks[i];
  }

  lemma FollowToUnseen(g: Graph, from: string, to: string, maxDepth: int, walks: seq<seq<Edge>>, n: nat,
                       edges: seq<Edge>, m: nat)
    requires Following(g, from, to, maxDepth, walks, n, edges, m) && m < |edges| && |walks[n]| < maxDepth
    requires EdgesOf(g, End(from, walks[n]), edges)
    requires !Visited(from, walks, edges[m].target)
    ensures Following(g, from, to, maxDepth, walks + [walks[n] + [edges[m]]], n, edges, m + 1)
  {
    hide UniqueEdgeIds, Below, IsWalk, IsQueue, ParentsUpTo, Expanded, Sorted;
    var e := edges[m];
    var walk := walks[n] + [e];
    var longer := walks + [walk];
    assert e in edges;
    AppendedWalkIsAbove(g, from, walks, n, edges, m);
    AppendedWalkHasParent(g, walks, n, edges, m);
    QueueOnlyGrows(g, from, maxDepth, walks, n, walk);
    forall k | 0 <= k < m + 1 ensures Reached(g, from, longer, n, edges[k]) {
      if k < m {
        ReachedGrows(g, from, walks, walk, n, edges[k]);
      } else {
        assert longer[|walks|] == walk && longer[n] == walks[n];
      }
    }
    assert forall i | 0 <= i < |walks| :: longer[i] == walks[i];
  }

  lemma SkipSeen(g: Graph, from: string, to: string, maxDepth: int, walks: seq<seq<Edge>>, n: nat, edges: seq<Edge>, m: nat)
    requires Following(g, from, to, maxDepth, walks, n, edges, m) && m < |edges|
    requires EdgesOf(g, End(from, walks[n]), edges)
    requires Visited(from, walks, edges[m].target)
    ensures Following(g, from, to, maxDepth, walks, n, edges, m + 1)
  {
    hide UniqueEdgeIds, Below, IsWalk, Sorted;
    var j :| 0 <= j < |walks| && End(from, walks[j]) == edges[m].target;
    assert edges[m] in edges;
    ChildIsAtMost(g, from, walks, n, edges, m, j);
    assert Reached(g, from, walks, n, edges[m]);
    assert edges[..m + 1] == edges[..m] + [edges[m]];
  }

  lemma RoundDone(g: Graph, from: string, to: string, maxDepth: int, walks: seq<seq<Edge>>, n: nat, edges: seq<Edge>)
    requires Following(g, from, to, maxDepth, walks, n, edges, |edges|)
    requires EdgesOf(g, End(from, walks[n]), edges) && End(from, walks[n]) != to
    ensures Searching(g, from, to, maxDepth, walks, n + 1)
  {
    hide UniqueEdgeIds, Below, IsWalk, Sorted, Reached, IsQueue;
    if n + 1 < |walks| { ParentsNext(g, from, walks, n, edges); }
    forall e | Usable(g, e) && e.source == End(from, walks[n]) ensures Reached(g, from, walks, n, e) {
      assert e in edges;
    }
  }

  lemma RoundAtLimit(g: Graph, from: string, to: string, maxDepth: int, walks: seq<seq<Edge>>, n: nat)
    requires Searching(g, from, to, maxDepth, walks, n) && n < |walks|
    requires End(from, walks[n]) != to && |walks[n]| >= maxDepth
    ensures Searching(g, from, to, maxDepth, walks, n + 1)
  {
    hide UniqueEdgeIds, Below, IsWalk, Reached;
    RoundStarts(g, from, to, maxDepth, walks, n, []);
    if n + 1 < |walks| { ParentsNext(g, from, walks, n, []); }
  }

  lemma RoundStarts(g: Graph, from: string, to: string, maxDepth: int, walks: seq<seq<Edge>>, n: nat, edges: seq<Edge>)
    requires Searching(g, from, to, maxDepth, walks, n) && n < |walks|
    ensures Following(g, from, to, maxDepth, walks, n, edges, 0)
  {
  }

  lemma MirrorsPush(from: string, queue: seq<Item>, visited: set<string>, walks: seq<seq<Edge>>, n: nat, e: Edge)
    requires Mirrors(from, queue, visited, walks) && n < |walks|
    ensures Mirrors(from, queue + [Item(e.target, queue[n].nodeIds + [e.target], queue[n].edgeIds + [e.id])],
                    visited + {e.target}, walks + [walks[n] + [e]])
  {
    var walk := walks[n] + [e];
    var longer := walks + [walk];
    assert NodeIds(from, walk) == NodeIds(from, walks[n]) + [e.target];
    assert EdgeIds(walk) == EdgeIds(walks[n]) + [e.id];
    forall v ensures v in visited + {e.target} <==> Visited(from, longer, v) {
      if Visited(from, walks, v) {
        var j :| 0 <= j < |walks| && End(from, walks[j]) == v;
        assert longer[j] == walks[j];
      }
      if v == e.target { assert End(from, longer[|walks|]) == v; }
      if Visited(from, longer, v) && v != e.target {
        var j :| 0 <= j < |longer| && End(from, longer[j]) == v;
        assert walks[j] == longer[j];
      }
    }
  }

  lemma SearchStarts(g: Graph, from: string, to: string, maxDepth: int)
    requires from in g.nodes
    ensures Searching(g, from, to, maxDepth, [[]], 0)
    ensures Mirrors(from, [Item(from, [from], [])], {from}, [[]])
  {
    var walks: seq<seq<Edge>> := [[]];
    assert End(from, walks[0]) == from;
    assert ItemOf(from, []) == Item(from, [from], []);
  }

  /** Breadth-first search with the edges of each node taken in the order of their ids. */
  method FindExplorationPath(g: Graph, from: string, to: string, maxDepth: int) returns (result: Path)
    ensures Answers(g, from, to, maxDepth, result)
  {
    hide IsBest, Usable, Sorted, IsWalk, IsQueue, Expanded, ParentsBefore, Following, Searching, Visited, IsAdjacency;
    hide Mirrors, EdgesOf;
    var ids := set v | v in g.nodes;
    if from !in ids || to !in ids { return ABSENT; }
    var adjacent := AdjacentEdges(g, ids);
    var queue := [Item(from, [from], [])];
    ghost var walks: seq<seq<Edge>> := [[]];
    SearchStarts(g, from, to, maxDepth);
    var visited := {from};
    var index := 0;
    while index < |queue|
      invariant 0 <= index <= |queue| == |walks| && visited <= ids
      invariant Searching(g, from, to, maxDepth, walks, index)
      invariant Mirrors(from, queue, visited, walks)
      decreases |ids - visited|, |queue| - index
    {
      var current := queue[index];
      MirroredItem(from, queue, visited, walks, index);
      if current.id == to {
        FoundAnswers(g, from, to, maxDepth, walks, index);
        return Path(true, current.nodeIds, current.edgeIds);
      }
      if |current.edgeIds| >= maxDepth {
        RoundAtLimit(g, from, to, maxDepth, walks, index);
        index := index + 1;
        continue;
      }
      var edges := if current.id in adjacent then adjacent[current.id] else [];
      AdjacentAreTheEdges(g, adjacent, current.id, edges);
      RoundStarts(g, from, to, maxDepth, walks, index, edges);
      ghost var unseen, length, walk := |ids - visited|, |queue|, walks[index];
      var m := 0;
      while m < |edges|
        invariant 0 <= m <= |edges| && index < |queue| == |walks| && walks[index] == walk && queue[index] == current
        invariant Following(g, from, to, maxDepth, walks, index, edges, m)
        invariant Mirrors(from, queue, visited, walks) && visited <= ids
        invariant |ids - visited| < unseen || (|ids - visited| == unseen && |queue| == length)
      {
        var edge := edges[m];
        TargetIsNode(g, current.id, edges, m);
        MirroredVisit(from, queue, visited, walks, edge.target);
        if edge.target !in visited {
          FollowToUnseen(g, from, to, maxDepth, walks, index, edges, m);
          MirrorsPush(from, queue, visited, walks, index, edge);
          FewerUnseen(ids, visited, edge.target);
          visited := visited + {edge.target};
          queue := queue + [Item(edge.target, current.nodeIds + [edge.target], current.edgeIds + [edge.id])];
          walks := walks + [walks[index] + [edge]];
        } else {
          SkipSeen(g, from, to, maxDepth, walks, index, edges, m);
        }
        m := m + 1;
      }
      RoundDone(g, from, to, maxDepth, walks, index, edges);
      index := index + 1;
    }
    NeverFoundAnswers(g, from, to, maxDepth, walks);
    return ABSENT;
  }

  lemma MirroredItem(from: string, queue: seq<Item>, visited: set<string>, walks: seq<seq<Edge>>, n: nat)
    requires Mirrors(from, queue, visited, walks) && n < |walks|
    ensures queue[n] == ItemOf(from, walks[n])
  {
  }

  lemma MirroredVisit(from: string, queue: seq<Item>, visited: set<string>, walks: seq<seq<Edge>>, v: string)
    requires Mirrors(from, queue, visited, walks)
    ensures v in visited <==> Visited(from, walks, v)
  {
  }

  lemma FewerUnseen(ids: set<string>, visited: set<string>, v: string)
    requires v in ids && v !in visited
    ensures |ids - (visited + {v})| < |ids - visited|
  {
    assert ids - visited == (ids - (visited + {v})) + {v};
  }

  lemma AdjacentAreTheEdges(g: Graph, adjacent: map<string, seq<Edge>>, node: string, edges: seq<Edge>)
    requires IsAdjacency(g, adjacent)
    requires edges == if node in adjacent then adjacent[node] else []
    ensures EdgesOf(g, node, edges)
  {
  }

  lemma TargetIsNode(g: Graph, node: string, edges: seq<Edge>, m: nat)
    requires EdgesOf(g, node, edges) && m < |edges|
    ensures edges[m].target in g.nodes
  {
    assert edges[m] in edges;
  }

  lemma FoundAnswers(g: Graph, from: string, to: string, maxDepth: int, walks: seq<seq<Edge>>, n: nat)
    requires Searching(g, from, to, maxDepth, walks, n) && n < |walks|
    requires from in g.nodes && to in g.nodes && End(from, walks[n]) == to
    ensures Answers(g, from, to, maxDepth, Path(true, NodeIds(from, walks[n]), EdgeIds(walks[n])))
  {
    hide IsBest;
    HeadIsBest(g, from, to, maxDepth, walks, n);
  }

  lemma NeverFoundAnswers(g: Graph, from: string, to: string, maxDepth: int, walks: seq<seq<Edge>>)
    requires Searching(g, from, to, maxDepth, walks, |walks|)
    ensures Answers(g, from, to, maxDepth, ABSENT)
  {
    hide IsQueue, Expanded, Answers;
    assert !Visited(from, walks, to);
    ExhaustedMeansAbsent(g, from, to, maxDepth, walks);
  }

  // --- What the answer depends on --------------------------------------------------------------------------

  lemma LexicographicallyLessIsAsymmetric(a: seq<string>, b: seq<string>)
    requires |a| == |b| && LexicographicallyLess(a, b)
    ensures !LexicographicallyLess(b, a)
  {
    if LexicographicallyLess(b, a) {
      var k :| 0 <= k < |a| && a[..k] == b[..k] && Less(a[k], b[k]);
      var k' :| 0 <= k' < |a| && b[..k'] == a[..k'] && Less(b[k'], a[k']);
      if k < k' {
        assert a[..k'][k] == b[..k'][k];
        LessIsIrreflexive(a[k]);
      } else if k' < k {
        assert a[..k][k'] == b[..k][k'];
        LessIsIrreflexive(a[k']);
      } else {
        LessIsAsymmetric(a[k], b[k]);
      }
    }
  }

  /** The same nodes and the same edges, in whatever order and multiplicity they are listed. */
  ghost predicate SameGraph(g: Graph, h: Graph)
  {
    (forall v :: v in g.nodes <==> v in h.nodes) && (forall e :: e in g.edges <==> e in h.edges)
  }

  lemma SameWalks(g: Graph, h: Graph, from: string, to: string, walk: seq<Edge>)
    requires SameGraph(g, h)
    ensures Admissible(g, from, to, walk) <==> Admissible(h, from, to, walk)
  {
  }

  /** Any two answers for the same graph and request are the same answer: with unique edge ids the
      result cannot depend on the order in which nodes and edges are listed. */
  lemma AnswerIsIndependentOfInputOrder(g: Graph, h: Graph, from: string, to: string, maxDepth: int, r: Path, s: Path)
    requires SameGraph(g, h) && UniqueEdgeIds(g)
    requires Answers(g, from, to, maxDepth, r) && Answers(h, from, to, maxDepth, s)
    ensures r == s
  {
    hide Admissible, SameGraph, LexicographicallyLess;
    assert UniqueEdgeIds(h) by { SameUniqueness(g, h); }
    if r.found {
      var a :| IsBest(g, from, to, a) && (|a| <= maxDepth || a == []) && r == Path(true, NodeIds(from, a), EdgeIds(a));
      SameWalks(g, h, from, to, a);
      assert s.found;
      var b :| IsBest(h, from, to, b) && (|b| <= maxDepth || b == []) && s == Path(true, NodeIds(from, b), EdgeIds(b));
      SameWalks(g, h, from, to, b);
      if a != b { LexicographicallyLessIsAsymmetric(EdgeIds(a), EdgeIds(b)); }
    } else if s.found {
      var b :| IsBest(h, from, to, b) && (|b| <= maxDepth || b == []) && s == Path(true, NodeIds(from, b), EdgeIds(b));
      SameWalks(g, h, from, to, b);
    }
  }

  lemma SameUniqueness(g: Graph, h: Graph)
    requires SameGraph(g, h) && UniqueEdgeIds(g)
    ensures UniqueEdgeIds(h)
  {
  }

  /** A path is found exactly when some directed walk fits the depth limit; a limit below zero still
      admits the empty walk from a node to itself. */
  lemma FoundIffReachable(g: Graph, from: string, to: string, maxDepth: int, result: Path)
    requires Answers(g, from, to, maxDepth, result)
    ensures result.found <==> exists walk :: Admissible(g, from, to, walk) && (|walk| <= maxDepth || walk == [])
  {
    hide Admissible;
    if result.found {
      var best :| IsBest(g, from, to, best) && (|best| <= maxDepth || best == []);
      assert Admissible(g, from, to, best);
    }
  }
}
